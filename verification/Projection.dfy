/**
 Many devices on one center. Each device's entries evolve as in a machine that sees only that
 device's frames and REST calls; the center's uninterrupted handling of a frame is a run of
 the fine-grained steps; so every device of every run has the single-device guarantees.
 */
module Projection {
  import opened Wrappers
  import opened Protocol
  import opened Sessions
  import opened WsHandler
  import opened Center
  import opened Registry
  import PS = PairingSystem
  import Safety = PairingSafety
  import PM = PairingMachine

  // ---------------------------------------------------------------------------
  // Events on the shared maps, and on one device's entry
  // ---------------------------------------------------------------------------

  datatype Event =
    | Frame(env: Envelope, now: int, minted: Option<Certificate>)
    | StartPairing(d: Uuid, kit: Kit, sent: bool)
    | DecideIncoming(d: Uuid)
    | RemoveDevice(d: Uuid)
    | AcceptOrReject(d: Uuid)

  function Target(ev: Event): Uuid {
    if ev.Frame? then ev.env.deviceId else ev.d
  }

  /** The maps after an event, and the reply a frame gets. */
  function OnMaps(m: Maps, ourId: Uuid, ev: Event): (Maps, Option<Envelope>) {
    match ev
    case Frame(env, now, minted) => DispatchSpec(m, ourId, env, now, minted)
    case StartPairing(d, kit, sent) =>
      (if sent
       then m.(sessions := m.sessions[d := InitiatorS(StartInitiator(d, kit.identity, kit.ephemeral))])
       else m,
       None)
    case DecideIncoming(d) => (m.(pending := m.pending - {d}), None)
    case RemoveDevice(d) => (m.(sessions := m.sessions - {d}), None)
    case AcceptOrReject(_) => (m, None)
  }

  /** The REST handlers act on the maps as these events, whatever the registry holds. */
  lemma RestCallsAreEvents(m: Maps, net: Net<Envelope>, ourId: Uuid, d: Uuid, kit: Option<Kit>)
    requires net.Valid()
    ensures PairStartSpec(m, net, ourId, d, kit).0 ==
            if kit.None? then m else OnMaps(m, ourId, StartPairing(d, kit.value, net.CanSend(d))).0
    ensures IncomingAcceptSpec(m, net, ourId, d).0 == OnMaps(m, ourId, DecideIncoming(d)).0
    ensures IncomingRejectSpec(m, net, ourId, d).0 == OnMaps(m, ourId, DecideIncoming(d)).0
    ensures RemoveDeviceSpec(m, net, d).0 == OnMaps(m, ourId, RemoveDevice(d)).0
  {
    if d !in m.pending {
      assert m.pending - {d} == m.pending;
    }
  }

  /** A center that knows no other device. */
  function Alone(e: Entry, d: Uuid): Maps {
    Maps(if e.session.Some? then map[d := e.session.value] else map[],
         if e.pending.Some? then map[d := e.pending.value] else map[])
  }

  /** The same on one device's session and parked request. */
  function OnEntry(e: Entry, ourId: Uuid, d: Uuid, ev: Event): (Entry, Option<Envelope>) {
    var (m, reply) := OnMaps(Alone(e, d), ourId, ev);
    (EntryOf(m, d), reply)
  }

  lemma EventIsLocal(m: Maps, ourId: Uuid, ev: Event, d: Uuid)
    ensures var (m', reply) := OnMaps(m, ourId, ev);
      if Target(ev) == d then (EntryOf(m', d), reply) == OnEntry(EntryOf(m, d), ourId, d, ev)
      else EntryOf(m', d) == EntryOf(m, d)
  {
  }

  // ---------------------------------------------------------------------------
  // Projection
  // ---------------------------------------------------------------------------

  function RunMaps(m: Maps, ourId: Uuid, evs: seq<Event>): Maps {
    if evs == [] then m else OnMaps(RunMaps(m, ourId, evs[..|evs| - 1]), ourId, evs[|evs| - 1]).0
  }

  /** The replies that frames of device `d` get, in order. */
  function Replies(m: Maps, ourId: Uuid, evs: seq<Event>, d: Uuid): seq<Envelope> {
    if evs == [] then []
    else
      var before := evs[..|evs| - 1];
      var ev := evs[|evs| - 1];
      var reply := OnMaps(RunMaps(m, ourId, before), ourId, ev).1;
      Replies(m, ourId, before, d) + if Target(ev) == d && reply.Some? then [reply.value] else []
  }

  function RunEntry(e: Entry, ourId: Uuid, d: Uuid, evs: seq<Event>): Entry {
    if evs == [] then e else OnEntry(RunEntry(e, ourId, d, evs[..|evs| - 1]), ourId, d, evs[|evs| - 1]).0
  }

  function EntryReplies(e: Entry, ourId: Uuid, d: Uuid, evs: seq<Event>): seq<Envelope> {
    if evs == [] then []
    else
      var before := evs[..|evs| - 1];
      var reply := OnEntry(RunEntry(e, ourId, d, before), ourId, d, evs[|evs| - 1]).1;
      EntryReplies(e, ourId, d, before) + if reply.Some? then [reply.value] else []
  }

  function Only(evs: seq<Event>, d: Uuid): seq<Event> {
    if evs == [] then []
    else Only(evs[..|evs| - 1], d) + if Target(evs[|evs| - 1]) == d then [evs[|evs| - 1]] else []
  }

  /**
   For every interleaving over any number of devices, device `d`'s session, its parked request
   and the replies it gets are those of a machine run on only `d`'s frames and calls.
   */
  lemma {:induction false} RunsProject(m: Maps, ourId: Uuid, evs: seq<Event>, d: Uuid)
    ensures EntryOf(RunMaps(m, ourId, evs), d) == RunEntry(EntryOf(m, d), ourId, d, Only(evs, d))
    ensures Replies(m, ourId, evs, d) == EntryReplies(EntryOf(m, d), ourId, d, Only(evs, d))
  {
    if evs != [] {
      var before, ev := evs[..|evs| - 1], evs[|evs| - 1];
      RunsProject(m, ourId, before, d);
      EventIsLocal(RunMaps(m, ourId, before), ourId, ev, d);
      var only := Only(evs, d);
      if Target(ev) == d {
        assert only[..|only| - 1] == Only(before, d);
      } else {
        assert only == Only(before, d);
      }
    }
  }

  // ---------------------------------------------------------------------------
  // Uninterrupted handling is a run of the fine steps
  // ---------------------------------------------------------------------------

  function FrameSteps(now: int, minted: Option<Certificate>, delivered: bool): seq<PS.Step> {
    [PS.TakeFrame(now, minted), PS.TakeResponder, PS.InsertSession, PS.SendReply(delivered)]
  }

  predicate BecomesPaired(before: Entry, after: Entry, body: Body) {
    && body.PairComplete? && after.session.Some? && after.session.value.PairedS?
    && !(before.session.Some? && before.session.value.PairedS?)
  }

  function AfterFrame(s: PS.Sys, now: int, minted: Option<Certificate>, delivered: bool): PS.Sys
    requires s.up != []
  {
    var ev := Frame(Envelope(s.phone.deviceId, s.up[0]), now, minted);
    var (e, reply) := OnEntry(s.entry, s.centerId, s.phone.deviceId, ev);
    s.(up := s.up[1..], entry := e, down := PS.Queue(s.down, PS.BodyOf(reply), delivered),
       registered := s.registered || s.up[0].Hello?,
       log := s.log.(pairings := s.log.pairings + PS.Bit(BecomesPaired(s.entry, e, s.up[0]))))
  }

  /** Steps that are not enabled leave the state alone, so one schedule covers every frame. */
  lemma FrameIsFineRun(s: PS.Sys, now: int, minted: Option<Certificate>, delivered: bool)
    requires s.busy.Free? && s.up != []
    ensures PS.Run(s, FrameSteps(now, minted, delivered)) == AfterFrame(s, now, minted, delivered)
  {
    var steps := FrameSteps(now, minted, delivered);
    var s1 := PS.Next(s, steps[0]);
    var s2 := PS.Next(s1, steps[1]);
    var s3 := PS.Next(s2, steps[2]);
    var s4 := PS.Next(s3, steps[3]);
    assert steps[1..] == [steps[1], steps[2], steps[3]] && steps[1..][1..] == [steps[2], steps[3]];
    assert PS.Run(s3, [steps[3]]) == s4;
    assert PS.Run(s2, [steps[2], steps[3]]) == s4;
    assert PS.Run(s1, steps[1..]) == s4;
    FrameResult(s, now, minted, delivered);
  }

  function FourSteps(s: PS.Sys, now: int, minted: Option<Certificate>, delivered: bool): PS.Sys {
    PS.Next(PS.Next(PS.Next(PS.Next(s, PS.TakeFrame(now, minted)), PS.TakeResponder), PS.InsertSession),
            PS.SendReply(delivered))
  }

  lemma FrameResult(s: PS.Sys, now: int, minted: Option<Certificate>, delivered: bool)
    requires s.busy.Free? && s.up != []
    ensures FourSteps(s, now, minted, delivered) == AfterFrame(s, now, minted, delivered)
  {
    if s.up[0].PairChallenge? {
      ChallengeFrameResult(s, now, minted, delivered);
    } else if s.up[0].PairConfirm? {
      ConfirmFrameResult(s, now, minted, delivered);
    } else if s.up[0].PairComplete? {
      CompleteFrameResult(s, now, minted, delivered);
    } else if s.up[0].Hello? {
      HelloFrameResult(s, now, minted, delivered);
    } else {
      SimpleFrameResult(s, now, minted, delivered);
    }
  }

  lemma HelloFrameResult(s: PS.Sys, now: int, minted: Option<Certificate>, delivered: bool)
    requires s.busy.Free? && s.up != [] && s.up[0].Hello?
    ensures FourSteps(s, now, minted, delivered) == AfterFrame(s, now, minted, delivered)
  {
    var s1 := PS.Next(s, PS.TakeFrame(now, minted));
    assert s1.busy.Free? || (s1.busy.MustInsert? && s1.busy.session.ResponderS? && s1.busy.reply.None?);
  }

  lemma SimpleFrameResult(s: PS.Sys, now: int, minted: Option<Certificate>, delivered: bool)
    requires s.busy.Free? && s.up != [] && !s.up[0].Hello?
    requires !s.up[0].PairChallenge? && !s.up[0].PairConfirm? && !s.up[0].PairComplete?
    ensures FourSteps(s, now, minted, delivered) == AfterFrame(s, now, minted, delivered)
  {
    var s1 := PS.Next(s, PS.TakeFrame(now, minted));
    assert s1.busy.Free? || (s1.busy == PS.MustReply(Heartbeat) && s.up[0].Heartbeat?);
  }

  /** The lock-level steps of a challenge: the initiator goes out, judges, and comes back. */
  lemma ChallengeSteps(s: PS.Sys, now: int, minted: Option<Certificate>, delivered: bool)
    requires s.busy.Free? && s.up != [] && s.up[0].PairChallenge?
    ensures var (m, reply) := ChallengeSpec(
        Alone(s.entry, s.phone.deviceId).sessions, s.centerId, Envelope(s.phone.deviceId, s.up[0]), now);
      FourSteps(s, now, minted, delivered) ==
        s.(up := s.up[1..], entry := s.entry.(session := Lookup(m, s.phone.deviceId)),
           down := PS.Queue(s.down, PS.BodyOf(reply), delivered))
  {
    var s1 := PS.Next(s, PS.TakeFrame(now, minted));
    assert !s1.busy.SecondLock? && !s1.busy.MustReply?;
    assert s1.busy.MustInsert? ==> s1.busy.session.InitiatorS?;
  }

  lemma ChallengeFrameResult(s: PS.Sys, now: int, minted: Option<Certificate>, delivered: bool)
    requires s.busy.Free? && s.up != [] && s.up[0].PairChallenge?
    ensures FourSteps(s, now, minted, delivered) == AfterFrame(s, now, minted, delivered)
  {
    ChallengeSteps(s, now, minted, delivered);
  }

  lemma ConfirmFrameResult(s: PS.Sys, now: int, minted: Option<Certificate>, delivered: bool)
    requires s.busy.Free? && s.up != [] && s.up[0].PairConfirm?
    ensures FourSteps(s, now, minted, delivered) == AfterFrame(s, now, minted, delivered)
  {
    var s1 := PS.Next(s, PS.TakeFrame(now, minted));
    assert !s1.busy.SecondLock? && !s1.busy.MustReply?;
  }

  /** A certificate at the head of the queue: the machine that holds the device, if any, judged it. */
  function AfterCertificate(s: PS.Sys): PS.Sys
    requires s.up != []
  {
    var m := CompleteSpec(Alone(s.entry, s.phone.deviceId).sessions, Envelope(s.phone.deviceId, s.up[0]));
    var e := s.entry.(session := Lookup(m, s.phone.deviceId));
    s.(up := s.up[1..], entry := e,
       log := s.log.(pairings := s.log.pairings + PS.Bit(BecomesPaired(s.entry, e, s.up[0]))))
  }

  /** What becomes of the session: paired on a good certificate, gone on a bad one. */
  function Verdict(s: PS.Sys, outcome: Result<PairingOutcome, PairingError>): PS.Sys {
    s.(entry := s.entry.(
         session := if outcome.Ok? then Some(PairedS(outcome.value.certificate.fingerprint)) else None),
       busy := PS.Free, log := s.log.(pairings := s.log.pairings + PS.Bit(outcome.Ok?)))
  }

  lemma VerdictIsInserted(s: PS.Sys, outcome: Result<PairingOutcome, PairingError>, delivered: bool)
    requires s.busy == PS.AfterComplete(outcome) && s.entry.session.None?
    ensures PS.Next(PS.Next(s, PS.InsertSession), PS.SendReply(delivered)) == Verdict(s, outcome)
  {
    var t := PS.Next(s, PS.InsertSession);
    assert t.busy.Free? && PS.Next(t, PS.SendReply(delivered)) == t;
  }

  lemma VerdictIsSettled(s: PS.Sys, outcome: Result<PairingOutcome, PairingError>)
    requires s.busy.Free? && s.up != [] && s.up[0].PairComplete?
    requires s.entry.session.Some? && !s.entry.session.value.PairedS?
    requires var env := Envelope(s.phone.deviceId, s.up[0]);
      outcome == match s.entry.session.value
        case InitiatorS(i) => CheckComplete(env, i.peer)
        case ResponderS(r) => ResponderOnComplete(r, env)
    ensures AfterCertificate(s) == Verdict(s.(up := s.up[1..]), outcome)
  {
  }

  lemma CertificateToInitiator(s: PS.Sys, now: int, minted: Option<Certificate>, delivered: bool)
    requires s.busy.Free? && s.up != [] && s.up[0].PairComplete?
    requires Safety.IsInitiator(s.entry.session)
    ensures FourSteps(s, now, minted, delivered) == AfterCertificate(s)
  {
    var env := Envelope(s.phone.deviceId, s.up[0]);
    var outcome := CheckComplete(env, s.entry.session.value.initiator.peer);
    var s1 := PS.Next(s, PS.TakeFrame(now, minted));
    assert s1 == s.(up := s.up[1..], entry := s.entry.(session := None), busy := PS.AfterComplete(outcome));
    assert PS.Next(s1, PS.TakeResponder) == s1;
    VerdictIsInserted(s1, outcome, delivered);
    VerdictIsSettled(s, outcome);
  }

  lemma CertificateToResponder(s: PS.Sys, now: int, minted: Option<Certificate>, delivered: bool)
    requires s.busy.Free? && s.up != [] && s.up[0].PairComplete?
    requires s.entry.session.Some? && s.entry.session.value.ResponderS?
    ensures FourSteps(s, now, minted, delivered) == AfterCertificate(s)
  {
    var env := Envelope(s.phone.deviceId, s.up[0]);
    var outcome := ResponderOnComplete(s.entry.session.value.responder, env);
    var s1 := PS.Next(s, PS.TakeFrame(now, minted));
    assert s1 == s.(up := s.up[1..], busy := PS.SecondLock(s.up[0]));
    var s2 := PS.Next(s1, PS.TakeResponder);
    assert s2 == s1.(entry := s.entry.(session := None), busy := PS.AfterComplete(outcome));
    VerdictIsInserted(s2, outcome, delivered);
    VerdictIsSettled(s, outcome);
  }

  lemma CertificateToNobody(s: PS.Sys, now: int, minted: Option<Certificate>, delivered: bool)
    requires s.busy.Free? && s.up != [] && s.up[0].PairComplete?
    requires s.entry.session.None? || s.entry.session.value.PairedS?
    ensures FourSteps(s, now, minted, delivered) == AfterCertificate(s)
  {
    var s1 := PS.Next(s, PS.TakeFrame(now, minted));
    assert s1 == s.(up := s.up[1..], busy := PS.SecondLock(s.up[0]));
  }

  lemma CompleteSteps(s: PS.Sys, now: int, minted: Option<Certificate>, delivered: bool)
    requires s.busy.Free? && s.up != [] && s.up[0].PairComplete?
    ensures FourSteps(s, now, minted, delivered) == AfterCertificate(s)
  {
    if Safety.IsInitiator(s.entry.session) {
      CertificateToInitiator(s, now, minted, delivered);
    } else if s.entry.session.Some? && s.entry.session.value.ResponderS? {
      CertificateToResponder(s, now, minted, delivered);
    } else {
      CertificateToNobody(s, now, minted, delivered);
    }
  }

  lemma CompleteFrameResult(s: PS.Sys, now: int, minted: Option<Certificate>, delivered: bool)
    requires s.busy.Free? && s.up != [] && s.up[0].PairComplete?
    ensures FourSteps(s, now, minted, delivered) == AfterFrame(s, now, minted, delivered)
  {
    CompleteSteps(s, now, minted, delivered);
  }

  // ---------------------------------------------------------------------------
  // The world: one center, any number of phones
  // ---------------------------------------------------------------------------

  /** What belongs to one device outside the center's maps. */
  datatype Device = Device(
    phone: PM.Phone, up: seq<Body>, down: seq<Body>, registered: bool, busy: PS.Busy, starting: seq<InitiatorView>,
    log: PS.Log)

  datatype World = World(ourId: Uuid, maps: Maps, devices: map<Uuid, Device>)

  predicate WellFormed(w: World) {
    forall d | d in w.devices :: w.devices[d].phone.deviceId == d
  }

  /** A device's share of the world, as a state of the single-device system. */
  function Share(w: World, d: Uuid): PS.Sys
    requires d in w.devices
  {
    var dev := w.devices[d];
    PS.Sys(w.ourId, dev.phone, dev.up, dev.down, EntryOf(w.maps, d), dev.registered, dev.busy, dev.starting, dev.log)
  }

  function Outside(s: PS.Sys): Device {
    Device(s.phone, s.up, s.down, s.registered, s.busy, s.starting, s.log)
  }

  // ---------------------------------------------------------------------------
  // Every interleaving of every device's steps
  // ---------------------------------------------------------------------------

  predicate TakesInitiator(body: Body) {
    body.PairChallenge? || body.PairConfirm? || body.PairComplete?
  }

  /** What one step does to the shared maps: a lookup, an insertion or a removal under one lock. */
  function StepMaps(m: Maps, d: Uuid, dev: Device, step: PS.Step): Maps {
    match step
    case TakeFrame(now, _) =>
      if !dev.busy.Free? || dev.up == [] then m
      else if dev.up[0].PairRequest? then m.(pending := m.pending[d := PendingOf(dev.up[0].request, now)])
      else if TakesInitiator(dev.up[0]) && d in m.sessions && m.sessions[d].InitiatorS?
      then m.(sessions := m.sessions - {d})
      else m
    case TakeResponder =>
      if dev.busy.SecondLock? && d in m.sessions && m.sessions[d].ResponderS?
      then m.(sessions := m.sessions - {d}) else m
    case InsertSession =>
      if dev.busy.MustInsert? then m.(sessions := m.sessions[d := dev.busy.session]) else m
    case PairStartInsert(k) =>
      if k < |dev.starting| then m.(sessions := m.sessions[d := InitiatorS(dev.starting[k])]) else m
    case IncomingAccept(_) => m.(pending := m.pending - {d})
    case IncomingReject(_) => m.(pending := m.pending - {d})
    case RemoveDevice => m.(sessions := m.sessions - {d})
    case _ => m
  }

  /** One step of one device: the center's part on the shared maps, the rest on the device. */
  function StepWorld(w: World, d: Uuid, step: PS.Step): World {
    if d !in w.devices then w
    else
      World(w.ourId, StepMaps(w.maps, d, w.devices[d], step),
            w.devices[d := Outside(PS.Next(Share(w, d), step))])
  }

  /** The maps change under the stepping device's id as its own entry does, and nowhere else. */
  lemma MapsStepLocally(w: World, d: Uuid, step: PS.Step, e: Uuid)
    requires d in w.devices
    ensures EntryOf(StepMaps(w.maps, d, w.devices[d], step), e) ==
      if e == d then PS.Next(Share(w, d), step).entry else EntryOf(w.maps, e)
  {
    if step.TakeFrame? {
      TakingStepsLocally(w, d, step, e);
    }
  }

  lemma TakingStepsLocally(w: World, d: Uuid, step: PS.Step, e: Uuid)
    requires d in w.devices && step.TakeFrame?
    ensures EntryOf(StepMaps(w.maps, d, w.devices[d], step), e) ==
      if e == d then PS.Next(Share(w, d), step).entry else EntryOf(w.maps, e)
  {
    var s, t := Share(w, d), PS.Next(Share(w, d), step);
    if s.busy.Free? && s.up != [] {
      assert t.entry.session == s.entry.session || t.entry.session.None?;
    }
  }

  function RunWorld(w: World, steps: seq<(Uuid, PS.Step)>): World
    decreases |steps|
  {
    if steps == [] then w else RunWorld(StepWorld(w, steps[0].0, steps[0].1), steps[1..])
  }

  /** The steps of one device, in order. */
  function StepsOf(steps: seq<(Uuid, PS.Step)>, d: Uuid): seq<PS.Step>
    decreases |steps|
  {
    if steps == [] then []
    else if steps[0].0 == d then [steps[0].1] + StepsOf(steps[1..], d)
    else StepsOf(steps[1..], d)
  }

  lemma CenterIdStays(s: PS.Sys, step: PS.Step)
    ensures PS.Next(s, step).centerId == s.centerId
  {
  }

  lemma StepIsLocal(w: World, d: Uuid, step: PS.Step, e: Uuid)
    requires e in w.devices
    ensures e in StepWorld(w, d, step).devices
    ensures Share(StepWorld(w, d, step), e) == if e == d then PS.Next(Share(w, d), step) else Share(w, e)
  {
    if d in w.devices {
      CenterIdStays(Share(w, d), step);
      MapsStepLocally(w, d, step, e);
    }
  }

  /**
   However the lock-level steps of any number of devices interleave on the shared maps, each
   device's share of the outcome is the run of its own steps alone.
   */
  lemma {:induction false} WorldRunsProject(w: World, steps: seq<(Uuid, PS.Step)>, d: Uuid)
    requires d in w.devices
    ensures d in RunWorld(w, steps).devices
    ensures Share(RunWorld(w, steps), d) == PS.Run(Share(w, d), StepsOf(steps, d))
    decreases |steps|
  {
    if steps != [] {
      var (e, step) := steps[0];
      StepIsLocal(w, e, step, d);
      WorldRunsProject(StepWorld(w, e, step), steps[1..], d);
      if e == d {
        var own := StepsOf(steps, d);
        assert own[0] == step && own[1..] == StepsOf(steps[1..], d);
      }
    }
  }

  /** No session anywhere, and every phone with its identity loaded and nothing in flight. */
  predicate FreshWorld(w: World) {
    && w.maps == Maps(map[], map[])
    && forall d | d in w.devices ::
         var dev := w.devices[d];
         Share(w, d) == PS.Start(w.ourId, d, dev.phone.stored)
  }

  /**
   In every run of one center with any number of phones, at the granularity of the locks, each
   device has every guarantee of the single-device system: the budgets of its own people, one
   `pair_start` per pairing, the phone first, and genuine fingerprints on both sides.
   */
  lemma EveryDeviceIsSafe(w: World, steps: seq<(Uuid, PS.Step)>, d: Uuid)
    requires FreshWorld(w) && d in w.devices
    ensures var v := RunWorld(w, steps);
      && d in v.devices
      && var log, phone, x := v.devices[d].log, v.devices[d].phone, EntryOf(v.maps, d).session;
         && log.pairings <= log.accepts + log.incomingAccepts
         && log.pairings <= log.accepts + log.initiates
         && log.phonePairings <= log.accepts
         && log.pairings + PS.Bit(Safety.IsInitiator(x)) + |v.devices[d].starting| <= log.starts
         && (log.initiates == 0 || log.incomingAccepts == 0 ==> log.pairings <= log.phonePairings)
         && (x.Some? && x.value.PairedS? ==> x.value.fingerprint == w.devices[d].phone.stored.fingerprint)
         && (phone.state.Paired? ==>
               && phone.state.ourDeviceId == d && phone.state.peerDeviceId == w.ourId
               && phone.state.peerFingerprint in log.issued)
  {
    var stored, own := w.devices[d].phone.stored, StepsOf(steps, d);
    WorldRunsProject(w, steps, d);
    Safety.PairingsArePaidFor(w.ourId, d, stored, own);
    Safety.PhonePairsFirst(w.ourId, d, stored, own);
    Safety.PairedFingerprintsAreGenuine(w.ourId, d, stored, own);
    Safety.EachPairingSpendsAPairStart(w.ourId, d, stored, own);
  }

  // ---------------------------------------------------------------------------
  // Whole operations on the shared maps
  // ---------------------------------------------------------------------------

  /** Whole operations: phone and network steps, one frame, one REST call. */
  datatype Action =
    | Local(step: PS.Step)
    | HandleFrame(now: int, minted: Option<Certificate>, delivered: bool)
    | PostPairStart(kit: Kit, room: bool)
    | PostIncoming(accepted: bool, room: bool)
    | PostRemove

  predicate IsLocal(step: PS.Step) {
    step.Accept? || step.Refuse? || step.StartFromPhone? || step.ResetPhone? || step.SendHello? || step.SendHeartbeat?
    || step.PhoneReceive? || step.Disconnect? || step.LoseUp? || step.LoseDown?
  }

  predicate Possible(w: World, d: Uuid, a: Action) {
    && d in w.devices && w.devices[d].busy.Free? && w.devices[d].starting == []
    && match a
       case Local(step) => IsLocal(step)
       case HandleFrame(_, _, _) => w.devices[d].up != []
       case PostPairStart(_, _) => w.devices[d].registered
       case PostIncoming(_, _) => d in w.maps.pending
       case PostRemove => true
  }

  /** The fine steps an operation stands for. */
  function FineSteps(a: Action): seq<PS.Step> {
    match a
    case Local(step) => [step]
    case HandleFrame(now, minted, delivered) => FrameSteps(now, minted, delivered)
    case PostPairStart(kit, room) => [PS.PairStartSend(kit, room), PS.PairStartInsert(0)]
    case PostIncoming(accepted, room) => [if accepted then PS.IncomingAccept(room) else PS.IncomingReject(room)]
    case PostRemove => [PS.RemoveDevice]
  }

  /** The center's part goes through the shared maps; the rest stays with the device. */
  function Act(w: World, d: Uuid, a: Action): World {
    if !Possible(w, d, a) then w
    else
      var s := Share(w, d);
      match a
      case Local(step) => w.(devices := w.devices[d := Outside(PS.Next(s, step))])
      case HandleFrame(now, minted, delivered) =>
        var ev := Frame(Envelope(d, s.up[0]), now, minted);
        var (m, reply) := OnMaps(w.maps, w.ourId, ev);
        var paired := BecomesPaired(EntryOf(w.maps, d), EntryOf(m, d), s.up[0]);
        w.(maps := m,
           devices := w.devices[d := Device(
                                  s.phone, s.up[1..], PS.Queue(s.down, PS.BodyOf(reply), delivered),
                                  s.registered || s.up[0].Hello?, PS.Free, [],
                                  s.log.(pairings := s.log.pairings + PS.Bit(paired)))])
      case PostPairStart(kit, room) =>
        World(w.ourId, OnMaps(w.maps, w.ourId, StartPairing(d, kit, room)).0,
              w.devices[d := Outside(PS.PairStartSendStep(s, kit, room)).(starting := [])])
      case PostIncoming(accepted, room) =>
        World(w.ourId, OnMaps(w.maps, w.ourId, DecideIncoming(d)).0,
              w.devices[d := Outside(PS.Next(s, FineSteps(a)[0]))])
      case PostRemove =>
        World(w.ourId, OnMaps(w.maps, w.ourId, RemoveDevice(d)).0,
              w.devices[d := Outside(PS.Next(s, PS.RemoveDevice))])
  }

  lemma ActElsewhere(w: World, d: Uuid, a: Action, e: Uuid)
    requires WellFormed(w) && e in w.devices && Possible(w, d, a) && e != d
    ensures e in Act(w, d, a).devices && Share(Act(w, d, a), e) == Share(w, e)
  {
    var s := Share(w, d);
    match a {
      case Local(step) =>
      case HandleFrame(now, minted, _) =>
        EventIsLocal(w.maps, w.ourId, Frame(Envelope(d, s.up[0]), now, minted), e);
      case PostPairStart(kit, room) => EventIsLocal(w.maps, w.ourId, StartPairing(d, kit, room), e);
      case PostIncoming(_, _) => EventIsLocal(w.maps, w.ourId, DecideIncoming(d), e);
      case PostRemove => EventIsLocal(w.maps, w.ourId, RemoveDevice(d), e);
    }
  }

  lemma FrameHere(w: World, d: Uuid, a: Action)
    requires WellFormed(w) && Possible(w, d, a) && a.HandleFrame?
    ensures Share(Act(w, d, a), d) == PS.Run(Share(w, d), FineSteps(a))
  {
    var s := Share(w, d);
    EventIsLocal(w.maps, w.ourId, Frame(Envelope(d, s.up[0]), a.now, a.minted), d);
    FrameIsFineRun(s, a.now, a.minted, a.delivered);
  }

  lemma PairStartHere(w: World, d: Uuid, a: Action)
    requires WellFormed(w) && Possible(w, d, a) && a.PostPairStart?
    ensures Share(Act(w, d, a), d) == PS.Run(Share(w, d), FineSteps(a))
  {
    EventIsLocal(w.maps, w.ourId, StartPairing(d, a.kit, a.room), d);
    PairStartIsFineRun(Share(w, d), a.kit, a.room);
  }

  lemma OtherCallHere(w: World, d: Uuid, a: Action)
    requires WellFormed(w) && Possible(w, d, a) && (a.PostIncoming? || a.PostRemove?)
    ensures Share(Act(w, d, a), d) == PS.Run(Share(w, d), FineSteps(a))
  {
    var s := Share(w, d);
    EventIsLocal(w.maps, w.ourId, if a.PostRemove? then RemoveDevice(d) else DecideIncoming(d), d);
    assert FineSteps(a)[1..] == [];
    assert PS.Run(s, FineSteps(a)) == PS.Next(s, FineSteps(a)[0]);
  }

  /** An operation on one device is a run of its fine steps there, and nothing elsewhere. */
  lemma ActIsFineRun(w: World, d: Uuid, a: Action, e: Uuid)
    requires WellFormed(w) && e in w.devices && Possible(w, d, a)
    ensures e in Act(w, d, a).devices
    ensures Share(Act(w, d, a), e) == if e == d then PS.Run(Share(w, d), FineSteps(a)) else Share(w, e)
  {
    if e != d {
      ActElsewhere(w, d, a, e);
    } else {
      match a {
        case Local(step) => LocalKeepsEntry(Share(w, d), step);
        case HandleFrame(_, _, _) => FrameHere(w, d, a);
        case PostPairStart(_, _) => PairStartHere(w, d, a);
        case _ => OtherCallHere(w, d, a);
      }
    }
  }

  lemma LocalKeepsEntry(s: PS.Sys, step: PS.Step)
    requires IsLocal(step) && s.busy.Free? && s.starting == []
    ensures var t := PS.Next(s, step);
      t.entry == s.entry && t.busy.Free? && t.starting == [] && t.centerId == s.centerId
      && t.phone.deviceId == s.phone.deviceId && PS.Run(s, [step]) == t
  {
    assert PS.Run(PS.Next(s, step), []) == PS.Next(s, step);
  }

  lemma PairStartIsFineRun(s: PS.Sys, kit: Kit, room: bool)
    requires s.busy.Free? && s.starting == [] && s.registered
    ensures PS.Run(s, [PS.PairStartSend(kit, room), PS.PairStartInsert(0)]) ==
            if room
            then PS.PairStartSendStep(s, kit, room).(
                   starting := [],
                   entry := OnEntry(s.entry, s.centerId, s.phone.deviceId, StartPairing(s.phone.deviceId, kit, true)).0)
            else s
  {
    var a, b := PS.PairStartSend(kit, room), PS.PairStartInsert(0);
    assert [a, b][1..] == [b];
    var s1 := PS.Next(s, a);
    assert PS.Run(s1, [b]) == PS.Next(s1, b);
    if room {
      assert s1.starting == [StartInitiator(s.phone.deviceId, kit.identity, kit.ephemeral)];
    }
  }
}
