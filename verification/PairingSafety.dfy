/** Invariants of every run of the composed pairing system, and the theorems they give. */
module PairingSafety {
  import opened Wrappers
  import opened Protocol
  import opened Sessions
  import opened WsHandler
  import opened Center
  import opened PairingSystem
  import PM = PairingMachine
  import Fingerprint

  // ---------------------------------------------------------------------------
  // Counting messages in flight
  // ---------------------------------------------------------------------------

  datatype Kind = Certificates | Acceptances

  predicate Is(kind: Kind, b: Body) {
    match kind
    case Certificates => b.PairComplete?
    case Acceptances => b == PairConfirm(Some(true))
  }

  function Count(kind: Kind, q: seq<Body>): nat {
    if q == [] then 0 else Bit(Is(kind, q[0])) + Count(kind, q[1..])
  }

  lemma {:induction false} CountOfConcat(kind: Kind, q: seq<Body>, r: seq<Body>)
    ensures Count(kind, q + r) == Count(kind, q) + Count(kind, r)
  {
    if q == [] {
      assert q + r == r;
    } else {
      CountOfConcat(kind, q[1..], r);
      assert (q + r)[1..] == q[1..] + r;
    }
  }

  lemma CountOfQueue(kind: Kind, q: seq<Body>, out: Option<Body>, room: bool)
    ensures Count(kind, Queue(q, out, room)) == Count(kind, q) + Bit(out.Some? && room && Is(kind, out.value))
  {
    if out.Some? && room {
      CountOfConcat(kind, q, [out.value]);
      assert Count(kind, [out.value]) == Bit(Is(kind, out.value));
    }
  }

  lemma CountOfRemoval(kind: Kind, q: seq<Body>, k: nat)
    requires k < |q|
    ensures Count(kind, RemoveAt(q, k)) + Bit(Is(kind, q[k])) == Count(kind, q)
  {
    assert q == q[..k] + q[k..];
    CountOfConcat(kind, q[..k], q[k..]);
    CountOfConcat(kind, q[..k], q[k + 1..]);
    assert q[k..][1..] == q[k + 1..];
  }

  // ---------------------------------------------------------------------------
  // The ledger
  // ---------------------------------------------------------------------------

  /** A certificate from the phone the center is about to act on. */
  function BusyPairings(b: Busy): nat {
    Bit(b.SecondLock? || (b.MustInsert? && b.session.PairedS?))
  }

  /** A certificate of the center's still to be queued. */
  function BusyCertificates(b: Busy): nat {
    Bit((b.MustInsert? && b.reply.Some? && b.reply.value.PairComplete?) || (b.MustReply? && b.reply'.PairComplete?))
  }

  predicate ReplyKind(b: Body) {
    b.Heartbeat? || b.PairReject? || b.PairComplete?
  }

  /**
   Each line pays for its left side with its right side. From top to bottom: phone pairings
   with acceptances of the phone's user, center pairings with phone pairings and certificates
   sent on the console's word, and those with console acceptances and phone requests.
   */
  ghost predicate Ledger(s: Sys) {
    && s.log.phonePairings + Count(Certificates, s.down) + BusyCertificates(s.busy) + Count(Acceptances, s.up)
       <= s.log.accepts
    && s.log.pairings + Count(Certificates, s.up) + BusyPairings(s.busy) <= s.log.phonePairings + s.log.directCompletes
    && s.log.directCompletes + Count(Acceptances, s.down) <= s.log.incomingAccepts
    && s.log.directCompletes + Bit(s.phone.state.Initiating?) <= s.log.initiates
    && (forall i | 0 <= i < |s.down| :: !s.down[i].PairAccept?)
    && (s.busy.MustInsert? && s.busy.reply.Some? ==> ReplyKind(s.busy.reply.value))
    && (s.busy.MustReply? ==> ReplyKind(s.busy.reply'))
  }

  lemma PhoneStepKeepsLedger(s: Sys, step: Step)
    requires Ledger(s) && (step.Accept? || step.Refuse? || step.StartFromPhone? || step.ResetPhone?)
    ensures Ledger(Next(s, step))
  {
    var input := match step
      case Accept(now, _) => PM.UserAccepts(now)
      case Refuse(reason, _) => PM.UserRejects(reason)
      case StartFromPhone(pub, now, _) => PM.Initiate(pub, now)
      case _ => PM.Reset;
    var room := if step.ResetPhone? then true else step.room;
    var out := BodyOf(PM.PhoneNext(s.phone, input).1);
    CountOfQueue(Certificates, s.up, out, room);
    CountOfQueue(Acceptances, s.up, out, room);
  }

  /** What the phone may do with an envelope, in terms of what it then emits. */
  lemma ReceiveEmits(p: PM.Phone, env: Envelope, now: int, key: FreshKey)
    requires !env.body.PairAccept?
    ensures var (q, out) := PM.PhoneNext(p, PM.Receive(env, now, key));
      && (q.state.Initiating? ==> p.state.Initiating?)
      && (out.Some? ==> !Is(Acceptances, out.value.body))
      && (out.Some? && Is(Certificates, out.value.body) ==>
            || (env.body.PairComplete? && q.state.Paired?)
            || (env.body == PairConfirm(Some(true)) && p.state.Initiating? && !q.state.Initiating?))
      && (out.Some? && env.body.PairConfirm? ==>
            env.body == PairConfirm(Some(true)) && p.state.Initiating? && !q.state.Initiating?)
  {
  }

  lemma PhoneReceiveKeepsLedger(s: Sys, step: Step)
    requires Ledger(s) && step.PhoneReceive?
    ensures Ledger(Next(s, step))
  {
    if s.down != [] {
      var env := Envelope(s.centerId, s.down[0]);
      var out := BodyOf(PM.PhoneNext(s.phone, PM.Receive(env, step.now, step.key)).1);
      assert !s.down[0].PairAccept?;
      ReceiveEmits(s.phone, env, step.now, step.key);
      CountOfQueue(Certificates, s.up, out, step.room);
      CountOfQueue(Acceptances, s.up, out, step.room);
    }
  }

  lemma TakeFrameKeepsLedger(s: Sys, step: Step)
    requires Ledger(s) && step.TakeFrame? && Enabled(s, step)
    ensures Ledger(Next(s, step))
  {
    var t := Next(s, step);
    assert t.down == s.down && t.log == s.log && t.phone == s.phone && t.up == s.up[1..];
    assert t.busy.MustInsert? && t.busy.session.PairedS? ==> s.up[0].PairComplete?;
    assert BusyCertificates(t.busy) == 1 ==> s.up[0] == PairConfirm(Some(true));
  }

  lemma FrameStepKeepsLedger(s: Sys, step: Step)
    requires Ledger(s) && (step.TakeResponder? || step.InsertSession? || step.SendReply?)
    ensures Ledger(Next(s, step))
  {
    if step.SendReply? && s.busy.MustReply? {
      CountOfQueue(Certificates, s.down, Some(s.busy.reply'), step.delivered);
      CountOfQueue(Acceptances, s.down, Some(s.busy.reply'), step.delivered);
    }
  }

  lemma QueueStepCounts(s: Sys, step: Step, kind: Kind)
    requires !step.PhoneReceive? && Enabled(s, step)
    requires !(step.Accept? || step.Refuse? || step.StartFromPhone? || step.ResetPhone?)
    requires !(step.TakeFrame? || step.TakeResponder? || step.InsertSession? || step.SendReply?)
    ensures Count(kind, Next(s, step).up) <= Count(kind, s.up)
    ensures Count(kind, Next(s, step).down) <= Count(kind, s.down) + Bit(step.IncomingAccept? && kind.Acceptances?)
  {
    match step {
      case SendHello(room) => CountOfQueue(kind, s.up, Some(Hello), room);
      case SendHeartbeat(room) => CountOfQueue(kind, s.up, Some(Heartbeat), room);
      case PairStartSend(kit, room) =>
        CountOfQueue(kind, s.down, Some(PairRequest(Some(WireKey(kit.ephemeral, true)))), room);
      case IncomingAccept(room) => CountOfQueue(kind, s.down, Some(PairConfirm(Some(true))), room && s.registered);
      case IncomingReject(room) => CountOfQueue(kind, s.down, Some(PairConfirm(Some(false))), room && s.registered);
      case LoseUp(k) => CountOfRemoval(kind, s.up, k);
      case LoseDown(k) => CountOfRemoval(kind, s.down, k);
      case _ =>
    }
  }

  lemma OtherStepKeepsLedger(s: Sys, step: Step)
    requires Ledger(s) && !step.PhoneReceive?
    requires !(step.Accept? || step.Refuse? || step.StartFromPhone? || step.ResetPhone?)
    requires !(step.TakeFrame? || step.TakeResponder? || step.InsertSession? || step.SendReply?)
    ensures Ledger(Next(s, step))
  {
    if Enabled(s, step) {
      QueueStepCounts(s, step, Certificates);
      QueueStepCounts(s, step, Acceptances);
      OtherStepLogs(s, step);
      OtherStepSends(s, step);
    }
  }

  lemma OtherStepLogs(s: Sys, step: Step)
    requires Enabled(s, step) && !step.PhoneReceive?
    requires !(step.Accept? || step.Refuse? || step.StartFromPhone? || step.ResetPhone?)
    requires !(step.TakeFrame? || step.TakeResponder? || step.InsertSession? || step.SendReply?)
    ensures var t := Next(s, step);
      && t.busy == s.busy && t.phone == s.phone
      && t.log.incomingAccepts == s.log.incomingAccepts + Bit(step.IncomingAccept?)
      && t.log == s.log.(incomingAccepts := t.log.incomingAccepts, starts := t.log.starts, issued := t.log.issued)
  {
  }

  lemma OtherStepSends(s: Sys, step: Step)
    requires Enabled(s, step) && !step.PhoneReceive? && !step.SendReply?
    requires forall i | 0 <= i < |s.down| :: !s.down[i].PairAccept?
    ensures forall i | 0 <= i < |Next(s, step).down| :: !Next(s, step).down[i].PairAccept?
  {
  }

  lemma NextKeepsLedger(s: Sys, step: Step)
    requires Ledger(s)
    ensures Ledger(Next(s, step))
  {
    if step.Accept? || step.Refuse? || step.StartFromPhone? || step.ResetPhone? {
      PhoneStepKeepsLedger(s, step);
    } else if step.PhoneReceive? {
      PhoneReceiveKeepsLedger(s, step);
    } else if step.TakeFrame? {
      if Enabled(s, step) {
        TakeFrameKeepsLedger(s, step);
      }
    } else if step.TakeResponder? || step.InsertSession? || step.SendReply? {
      FrameStepKeepsLedger(s, step);
    } else {
      OtherStepKeepsLedger(s, step);
    }
  }

  lemma {:induction false} RunKeepsLedger(s: Sys, steps: seq<Step>)
    requires Ledger(s)
    ensures Ledger(Run(s, steps))
    decreases |steps|
  {
    if steps != [] {
      NextKeepsLedger(s, steps[0]);
      RunKeepsLedger(Next(s, steps[0]), steps[1..]);
    }
  }

  // ---------------------------------------------------------------------------
  // Provenance: whose fingerprint is where
  // ---------------------------------------------------------------------------

  predicate KnownSession(issued: set<string>, stored: Certificate, x: Session) {
    match x
    case InitiatorS(i) => i.identity.fingerprint in issued
    case ResponderS(r) => Blank(r)
    case PairedS(fp) => fp == stored.fingerprint && issued != {}
  }

  predicate KnownUp(stored: Certificate, b: Body) {
    b.PairComplete? ==> b.complete == Some(stored)
  }

  predicate KnownDown(issued: set<string>, b: Body) {
    && (b.PairComplete? ==> b.complete.Some? && b.complete.value.fingerprint in issued)
    && !b.PairAccept?
  }

  predicate KnownBusy(issued: set<string>, stored: Certificate, b: Busy) {
    match b
    case Free => true
    case SecondLock(c) => KnownUp(stored, c)
    case MustInsert(x, r) => KnownSession(issued, stored, x) && (r.Some? ==> KnownDown(issued, r.value))
    case MustReply(r) => KnownDown(issued, r)
  }

  predicate KnownPhone(issued: set<string>, centerId: Uuid, p: PM.Phone) {
    && p.longTerm == Some(p.stored)
    && (p.state.ShowingCode? || p.state.Confirming? ==> p.state.peerDeviceId == centerId)
    && (p.state.Paired? ==> p.state.ourDeviceId == p.deviceId && p.state.peerDeviceId == centerId
                            && p.state.peerFingerprint in issued)
  }

  ghost predicate Provenance(s: Sys) {
    && (s.entry.session.Some? ==> KnownSession(s.log.issued, s.phone.stored, s.entry.session.value))
    && KnownBusy(s.log.issued, s.phone.stored, s.busy)
    && KnownPhone(s.log.issued, s.centerId, s.phone)
    && (forall i | 0 <= i < |s.starting| :: s.starting[i].identity.fingerprint in s.log.issued)
    && (forall i | 0 <= i < |s.up| :: KnownUp(s.phone.stored, s.up[i]))
    && (forall i | 0 <= i < |s.down| :: KnownDown(s.log.issued, s.down[i]))
    && |s.log.issued| <= s.log.starts
    && (s.log.issued == {} ==> s.log.pairings == 0)
  }

  predicate SameIdentity(s: Sys, t: Sys) {
    t.centerId == s.centerId && t.phone.stored == s.phone.stored && t.phone.deviceId == s.phone.deviceId
  }

  lemma PhoneNextKnown(issued: set<string>, centerId: Uuid, p: PM.Phone, input: PM.PhoneInput)
    requires KnownPhone(issued, centerId, p)
    requires input.Receive? ==> input.env.deviceId == centerId && KnownDown(issued, input.env.body)
    ensures var (q, out) := PM.PhoneNext(p, input);
      && KnownPhone(issued, centerId, q) && q.stored == p.stored && q.deviceId == p.deviceId
      && (out.Some? ==> KnownUp(p.stored, out.value.body) && out.value.deviceId == p.deviceId)
  {
  }

  lemma PhoneStepsKeepProvenance(s: Sys, step: Step)
    requires Provenance(s) && Enabled(s, step)
    requires step.Accept? || step.Refuse? || step.StartFromPhone? || step.ResetPhone? || step.PhoneReceive?
    ensures Provenance(Next(s, step)) && SameIdentity(s, Next(s, step))
  {
    var input := match step
      case Accept(now, _) => PM.UserAccepts(now)
      case Refuse(reason, _) => PM.UserRejects(reason)
      case StartFromPhone(pub, now, _) => PM.Initiate(pub, now)
      case PhoneReceive(now, key, _) => PM.Receive(Envelope(s.centerId, s.down[0]), now, key)
      case _ => PM.Reset;
    PhoneNextKnown(s.log.issued, s.centerId, s.phone, input);
  }

  lemma TakeFrameKeepsProvenance(s: Sys, step: Step)
    requires Provenance(s) && step.TakeFrame? && Enabled(s, step)
    ensures Provenance(Next(s, step)) && SameIdentity(s, Next(s, step))
  {
    var t := Next(s, step);
    assert KnownUp(s.phone.stored, s.up[0]);
    assert t.down == s.down && t.log == s.log && t.phone == s.phone && t.up == s.up[1..];
    if s.up[0].PairComplete? && t.busy.MustInsert? {
      assert t.busy.session == PairedS(s.phone.stored.fingerprint);
    }
  }

  lemma FrameStepsKeepProvenance(s: Sys, step: Step)
    requires Provenance(s) && Enabled(s, step)
    requires step.TakeResponder? || step.InsertSession? || step.SendReply?
    ensures Provenance(Next(s, step)) && SameIdentity(s, Next(s, step))
  {
  }

  lemma OtherStepsKeepProvenance(s: Sys, step: Step)
    requires Provenance(s) && Enabled(s, step)
    requires !(step.Accept? || step.Refuse? || step.StartFromPhone? || step.ResetPhone? || step.PhoneReceive?)
    requires !(step.TakeFrame? || step.TakeResponder? || step.InsertSession? || step.SendReply?)
    ensures Provenance(Next(s, step)) && SameIdentity(s, Next(s, step))
  {
    if step.PairStartSend? && step.room {
      var f := step.kit.identity.fingerprint;
      assert |s.log.issued + {f}| <= |s.log.issued| + 1;
    }
  }

  lemma NextKeepsProvenance(s: Sys, step: Step)
    requires Provenance(s)
    ensures Provenance(Next(s, step)) && SameIdentity(s, Next(s, step))
  {
    if Enabled(s, step) {
      if step.Accept? || step.Refuse? || step.StartFromPhone? || step.ResetPhone? || step.PhoneReceive? {
        PhoneStepsKeepProvenance(s, step);
      } else if step.TakeFrame? {
        TakeFrameKeepsProvenance(s, step);
      } else if step.TakeResponder? || step.InsertSession? || step.SendReply? {
        FrameStepsKeepProvenance(s, step);
      } else {
        OtherStepsKeepProvenance(s, step);
      }
    }
  }

  lemma {:induction false} RunKeepsProvenance(s: Sys, steps: seq<Step>)
    requires Provenance(s)
    ensures Provenance(Run(s, steps)) && SameIdentity(s, Run(s, steps))
    decreases |steps|
  {
    if steps != [] {
      NextKeepsProvenance(s, steps[0]);
      RunKeepsProvenance(Next(s, steps[0]), steps[1..]);
    }
  }

  // ---------------------------------------------------------------------------
  // Sessions are spent once
  // ---------------------------------------------------------------------------

  predicate IsInitiator(x: Option<Session>) {
    x.Some? && x.value.InitiatorS?
  }

  /**
   Every `pair_start` pays for one session: still to be inserted, in the map, out of the map, or
   turned into a pairing.
   */
  ghost predicate SpentOnce(s: Sys) {
    s.log.pairings + Bit(s.busy.MustInsert? && !s.busy.session.ResponderS?) + Bit(IsInitiator(s.entry.session))
    + |s.starting| <= s.log.starts
  }

  lemma NextKeepsSpentOnce(s: Sys, step: Step)
    requires Provenance(s) && SpentOnce(s)
    ensures SpentOnce(Next(s, step))
  {
    if step.TakeResponder? && Enabled(s, step) && s.entry.session.Some? && s.entry.session.value.ResponderS? {
      assert Blank(s.entry.session.value.responder);
    }
  }

  lemma {:induction false} RunKeepsSpentOnce(s: Sys, steps: seq<Step>)
    requires Provenance(s) && SpentOnce(s)
    ensures SpentOnce(Run(s, steps))
    decreases |steps|
  {
    if steps != [] {
      NextKeepsSpentOnce(s, steps[0]);
      NextKeepsProvenance(s, steps[0]);
      RunKeepsSpentOnce(Next(s, steps[0]), steps[1..]);
    }
  }

  // ---------------------------------------------------------------------------
  // Theorems about every run
  // ---------------------------------------------------------------------------

  /**
   Conservation: over any run from the start, the times a device became paired at the center
   never exceed the acceptances on the phone plus the lesser of the console's acceptances and
   the phone's own requests. In particular nothing is paired without a person's decision.
   */
  lemma PairingsArePaidFor(centerId: Uuid, deviceId: Uuid, stored: Certificate, steps: seq<Step>)
    ensures var log := Run(Start(centerId, deviceId, stored), steps).log;
      && log.pairings <= log.accepts + log.incomingAccepts
      && log.pairings <= log.accepts + log.initiates
      && log.phonePairings <= log.accepts
  {
    RunKeepsLedger(Start(centerId, deviceId, stored), steps);
  }

  /**
   The center pairs no more often than the phone has, but for the certificates sent on the
   console's word, each of which takes a request of the phone and an acceptance on the console.
   So unless the phone asked and the console agreed, the phone is always first.
   */
  lemma PhonePairsFirst(centerId: Uuid, deviceId: Uuid, stored: Certificate, steps: seq<Step>)
    ensures var log := Run(Start(centerId, deviceId, stored), steps).log;
      && log.pairings <= log.phonePairings + log.directCompletes
      && log.directCompletes <= log.initiates && log.directCompletes <= log.incomingAccepts
      && (log.initiates == 0 || log.incomingAccepts == 0 ==> log.pairings <= log.phonePairings)
  {
    RunKeepsLedger(Start(centerId, deviceId, stored), steps);
  }

  /**
   Authenticity: a paired phone holds the center's id and the fingerprint of an identity some
   `pair_start` made; a paired center holds the phone's long-term fingerprint.
   */
  lemma PairedFingerprintsAreGenuine(centerId: Uuid, deviceId: Uuid, stored: Certificate, steps: seq<Step>)
    ensures var s := Run(Start(centerId, deviceId, stored), steps);
      && (s.entry.session.Some? && s.entry.session.value.PairedS? ==>
            s.entry.session.value.fingerprint == stored.fingerprint)
      && (s.phone.state.Paired? ==>
            && s.phone.state.ourDeviceId == deviceId && s.phone.state.peerDeviceId == centerId
            && s.phone.state.peerFingerprint in s.log.issued)
      && (s.log.starts <= 1 && s.phone.state.Paired? ==> s.log.issued == {s.phone.state.peerFingerprint})
  {
    RunKeepsProvenance(Start(centerId, deviceId, stored), steps);
    var s := Run(Start(centerId, deviceId, stored), steps);
    if s.log.starts <= 1 && s.phone.state.Paired? {
      var fp := s.phone.state.peerFingerprint;
      assert |s.log.issued - {fp}| == 0;
      assert s.log.issued == {fp};
    }
  }

  /**
   A device turns paired only through an initiator that a `pair_start` inserted, and each such
   session is spent by one pairing: over any run, pairings and sessions still usable together
   never exceed the calls that sent their request.
   */
  lemma EachPairingSpendsAPairStart(centerId: Uuid, deviceId: Uuid, stored: Certificate, steps: seq<Step>)
    ensures var s := Run(Start(centerId, deviceId, stored), steps);
      s.log.pairings + Bit(IsInitiator(s.entry.session)) + |s.starting| <= s.log.starts
  {
    RunKeepsSpentOnce(Start(centerId, deviceId, stored), steps);
  }

  /** In particular, with no `pair_start` nothing is ever paired, on either side. */
  lemma NoPairingWithoutPairStart(centerId: Uuid, deviceId: Uuid, stored: Certificate, steps: seq<Step>)
    ensures var s := Run(Start(centerId, deviceId, stored), steps);
      s.log.starts == 0 ==>
        s.log.pairings == 0 && !s.phone.state.Paired? &&
        (s.entry.session.Some? ==> s.entry.session.value.ResponderS?)
  {
    RunKeepsProvenance(Start(centerId, deviceId, stored), steps);
  }

  /** Every responder in the map is as it was started: no code, no verdict. */
  lemma RespondersStayBlank(centerId: Uuid, deviceId: Uuid, stored: Certificate, steps: seq<Step>)
    ensures var s := Run(Start(centerId, deviceId, stored), steps);
      && (s.entry.session.Some? && s.entry.session.value.ResponderS? ==> Blank(s.entry.session.value.responder))
      && (s.busy.MustInsert? && s.busy.session.ResponderS? ==> Blank(s.busy.session.responder))
  {
    RunKeepsProvenance(Start(centerId, deviceId, stored), steps);
  }

  // ---------------------------------------------------------------------------
  // A paired entry is stable
  // ---------------------------------------------------------------------------

  predicate IsPaired(s: Sys) {
    s.entry.session.Some? && s.entry.session.value.PairedS?
  }

  /** While a session is out of the map, the map does not hold a paired one. */
  predicate NotOverPaired(s: Sys) {
    s.busy.MustInsert? ==> !IsPaired(s)
  }

  lemma {:induction false} RunKeepsNotOverPaired(s: Sys, steps: seq<Step>)
    requires NotOverPaired(s)
    ensures NotOverPaired(Run(s, steps))
    decreases |steps|
  {
    if steps != [] {
      var t := Next(s, steps[0]);
      assert IsPaired(t) ==> IsPaired(s) || steps[0].InsertSession?;
      assert t.busy.MustInsert? ==> s.busy.MustInsert? || steps[0].TakeFrame? || steps[0].TakeResponder?;
      RunKeepsNotOverPaired(t, steps[1..]);
    }
  }

  /**
   Once paired, no frame, repeated hello, disconnect, phone action or lost message changes the
   entry: only the second half of `pair_start`, or `remove_device`, does.
   */
  lemma PairedIsStable(centerId: Uuid, deviceId: Uuid, stored: Certificate, steps: seq<Step>, step: Step)
    ensures var s := Run(Start(centerId, deviceId, stored), steps);
      IsPaired(s) && !step.PairStartInsert? && !step.RemoveDevice? ==> Next(s, step).entry.session == s.entry.session
  {
    RunKeepsNotOverPaired(Start(centerId, deviceId, stored), steps);
  }
}
