/**
 One `pair_start` in every interleaving: the request, the insertion, the users' decisions and
 the deliveries may fall in any order the queues and locks allow, with nothing lost. Whether
 both sides end up paired is decided by three things a bystander can note along the way.
 */
module PairingAttempt {
  import opened Wrappers
  import opened Protocol
  import opened Sessions
  import opened WsHandler
  import opened Center
  import opened PairingSystem
  import opened PairingProgress
  import PM = PairingMachine

  // ---------------------------------------------------------------------------
  // What a bystander notes
  // ---------------------------------------------------------------------------

  /**
   `inTime`: the user accepted while a code was shown and not expired. `refused`: the user refused
   a shown code. `late`: the center took the decision before the session was inserted.
   `overwritten`: the session was inserted while an older one was out of the map, about to be put
   back over it.
   */
  datatype Watch = Watch(inTime: bool, refused: bool, inserted: bool, late: bool, overwritten: bool) {
    predicate Good() {
      inTime && !late && !overwritten
    }
  }

  const NOTHING := Watch(false, false, false, false, false)

  predicate Decides(b: Body) {
    b == PairConfirm(Some(true)) || b == PairConfirm(Some(false))
  }

  function Note(w: Watch, s: Sys, step: Step): Watch {
    if !Enabled(s, step) then w
    else
      match step
      case Accept(now, _) =>
        w.(inTime := w.inTime || (s.phone.state.ShowingCode? && now <= s.phone.state.expiresAtMs))
      case Refuse(_, _) => w.(refused := w.refused || s.phone.state.ShowingCode?)
      case PairStartInsert(_) => w.(inserted := true, overwritten := w.overwritten || s.busy.MustInsert?)
      case TakeFrame(_, _) => w.(late := w.late || (Decides(s.up[0]) && !w.inserted))
      case _ => w
  }

  function NoteAll(w: Watch, s: Sys, steps: seq<Step>): Watch
    decreases |steps|
  {
    if steps == [] then w else NoteAll(Note(w, s, steps[0]), Next(s, steps[0]), steps[1..])
  }

  /** Decisions of the phone's user, deliveries, lock steps, heartbeats and hellos; none loses anything. */
  predicate Lossless(step: Step) {
    match step
    case SendHeartbeat(room) => room
    case SendHello(room) => room
    case Accept(_, room) => room
    case Refuse(_, room) => room
    case PhoneReceive(_, _, room) => room
    case SendReply(delivered) => delivered
    case TakeFrame(_, _) => true
    case TakeResponder => true
    case InsertSession => true
    case PairStartInsert(_) => true
    case _ => false
  }

  /** One `pair_start`, if still `toCome`, among lossless steps. */
  predicate IsAttempt(steps: seq<Step>, kit: Kit, toCome: bool)
    decreases |steps|
  {
    if steps == [] then !toCome
    else if steps[0] == PairStartSend(kit, true) then toCome && IsAttempt(steps[1..], kit, false)
    else Lossless(steps[0]) && IsAttempt(steps[1..], kit, toCome)
  }

  // ---------------------------------------------------------------------------
  // Stages
  // ---------------------------------------------------------------------------

  predicate Parties(s: Sys, kit: Kit) {
    && s.phone.longTerm == Some(s.phone.stored)
    && UsableCertificate(kit.identity) && UsableCertificate(s.phone.stored)
  }

  /** Identities are made per session: an initiator from before is not this attempt's. */
  predicate Older(x: Option<Session>, kit: Kit) {
    x.Some? && x.value.InitiatorS? ==> x.value.initiator.identity.fingerprint != kit.identity.fingerprint
  }

  predicate Ours(x: Option<Session>, kit: Kit) {
    x.Some? && x.value.InitiatorS? && x.value.initiator.identity == kit.identity
  }

  /** Where the attempt's own session is. */
  predicate Placed(s: Sys, w: Watch, kit: Kit) {
    && !w.overwritten && !w.late
    && if w.inserted then s.starting == [] && Ours(Holder(s), kit)
       else s.starting == [StartInitiator(s.phone.deviceId, kit.identity, kit.ephemeral)] && Older(Holder(s), kit)
  }

  /** The center works on nothing, or only has the responder of a hello to insert. */
  predicate Idle(b: Busy) {
    b.Free? || (b.MustInsert? && b.session.ResponderS? && b.reply.None?)
  }

  predicate BeforeSend(s: Sys, w: Watch, kit: Kit) {
    && s.up == [] && s.down == [] && s.starting == [] && Idle(s.busy) && s.registered
    && !s.phone.state.ShowingCode? && Older(Holder(s), kit) && w == NOTHING
  }

  predicate Requested(s: Sys, w: Watch, kit: Kit) {
    && s.down == [PairRequest(Some(WireKey(kit.ephemeral, true)))] && s.up == [] && Idle(s.busy)
    && !s.phone.state.ShowingCode? && Placed(s, w, kit) && !w.inTime
  }

  /** The center may still be judging the challenge. */
  predicate Judging(s: Sys) {
    && (s.down == [] || (|s.down| == 1 && s.down[0].PairReject?))
    && (s.busy.Free? || (s.busy.MustInsert? && (s.busy.reply.None? || s.busy.reply.value.PairReject?))
        || (s.busy.MustReply? && s.busy.reply'.PairReject?))
    && (s.down == [] || Idle(s.busy))
  }

  predicate Challenging(s: Sys) {
    |s.up| > 0 && s.up[0].PairChallenge? && Idle(s.busy) && s.down == []
  }

  predicate Showing(s: Sys, w: Watch, kit: Kit) {
    && s.phone.state.ShowingCode? && s.phone.state.peerDeviceId == s.centerId
    && (s.up == [] || (|s.up| == 1 && Challenging(s))) && Judging(s)
    && Placed(s, w, kit) && !w.inTime
  }

  predicate Agreed(s: Sys, w: Watch, kit: Kit) {
    && (s.phone.state.Failed? || (s.phone.state.Confirming? && s.phone.state.peerDeviceId == s.centerId))
    && (s.up == [PairConfirm(Some(true))] || (|s.up| == 2 && Challenging(s) && s.up[1] == PairConfirm(Some(true))))
    && Judging(s) && Placed(s, w, kit) && w.inTime
  }

  /** The center's certificate is under way, possibly behind a rejection. */
  predicate Certifying(s: Sys, w: Watch, kit: Kit) {
    var cert := PairComplete(Some(kit.identity));
    && (s.phone.state.Failed? || (s.phone.state.Confirming? && s.phone.state.peerDeviceId == s.centerId))
    && s.up == [] && s.starting == [] && Ours(Holder(s), kit) && w.Good()
    && if s.busy.Free? then s.down == [cert] || (|s.down| == 2 && s.down[0].PairReject? && s.down[1] == cert)
       else
         && (s.down == [] || (|s.down| == 1 && s.down[0].PairReject?))
         && ((s.busy.MustInsert? && s.busy.reply == Some(cert)) || s.busy == MustReply(cert))
  }

  predicate PhonePaired(s: Sys, kit: Kit) {
    s.phone.state == PM.Paired(s.phone.deviceId, s.centerId, kit.identity.fingerprint)
  }

  predicate Answering(s: Sys, w: Watch, kit: Kit) {
    && PhonePaired(s, kit) && s.down == [] && s.starting == [] && w.Good()
    && ((s.up == [PairComplete(Some(s.phone.stored))] && s.busy.Free? && Ours(s.entry.session, kit))
        || (s.up == [] && s.busy == MustInsert(PairedS(s.phone.stored.fingerprint), None)))
  }

  predicate Done(s: Sys, w: Watch, kit: Kit) {
    Quiet(s) && BothPaired(s, kit) && w.Good()
  }

  predicate NotOurCertificate(b: Body, kit: Kit) {
    b.PairComplete? ==> b.complete.Some? ==> b.complete.value.fingerprint != kit.identity.fingerprint
  }

  /** The phone has not this attempt's certificate, or is about to drop it, and none is under way. */
  predicate Uncertified(s: Sys, kit: Kit) {
    && (s.phone.state.Paired? && !(s.down != [] && s.down[0].PairRequest?) ==>
          s.phone.state.peerFingerprint != kit.identity.fingerprint)
    && (forall i | 0 <= i < |s.down| :: AnyReply(s.down[i], kit) || s.down[i].PairRequest?)
    && (s.busy.MustInsert? && s.busy.reply.Some? ==> AnyReply(s.busy.reply.value, kit))
    && (s.busy.MustReply? ==> AnyReply(s.busy.reply', kit))
  }

  predicate AnyReply(b: Body, kit: Kit) {
    NotOurCertificate(b, kit) && !b.PairRequest? && !b.PairAccept? && !Chatter(b)
  }

  /** No confirmation is under way, and none can come. */
  predicate Mute(s: Sys) {
    && !s.phone.state.ShowingCode?
    && (forall i | 0 <= i < |s.up| :: s.up[i] != PairConfirm(Some(true)))
    && (forall i | 0 <= i < |s.down| :: !s.down[i].PairRequest?)
  }

  predicate Doomed(s: Sys, w: Watch, kit: Kit) {
    && Uncertified(s, kit) && !w.Good()
    && (Mute(s) || (w.overwritten && s.starting == [] && Older(Holder(s), kit)))
  }

  predicate OnTheWay(s: Sys, w: Watch, kit: Kit, toCome: bool) {
    && Parties(s, kit)
    && if toCome then BeforeSend(s, w, kit)
       else
         || Requested(s, w, kit) || Showing(s, w, kit) || Agreed(s, w, kit) || Certifying(s, w, kit)
         || Answering(s, w, kit) || Done(s, w, kit) || Doomed(s, w, kit)
  }

  // ---------------------------------------------------------------------------
  // Heartbeats and hellos erased
  // ---------------------------------------------------------------------------

  predicate Chatter(b: Body) {
    b.Heartbeat? || b.Hello?
  }

  function Erased(q: seq<Body>): seq<Body> {
    if q == [] then [] else if Chatter(q[0]) then Erased(q[1..]) else [q[0]] + Erased(q[1..])
  }

  lemma {:induction false} ErasedAppend(q: seq<Body>, b: Body)
    ensures Erased(q + [b]) == if Chatter(b) then Erased(q) else Erased(q) + [b]
  {
    if q == [] {
      assert [b][1..] == [];
    } else {
      ErasedAppend(q[1..], b);
      assert (q + [b])[1..] == q[1..] + [b];
    }
  }

  lemma {:induction false} ErasedIsPlain(q: seq<Body>)
    ensures forall i | 0 <= i < |Erased(q)| :: !Chatter(Erased(q)[i])
  {
    if q != [] {
      ErasedIsPlain(q[1..]);
    }
  }

  predicate ChatterFirst(s: Sys) {
    s.up != [] && Chatter(s.up[0])
  }

  lemma ErasedQueue(q: seq<Body>, out: Option<Body>, room: bool)
    ensures Erased(Queue(q, out, room)) ==
      if out.Some? && Chatter(out.value) then Erased(q) else Queue(Erased(q), out, room)
  {
    if out.Some? {
      ErasedAppend(q, out.value);
    }
  }

  /** The state as it would be without heartbeats and hellos under way. */
  function Core(s: Sys): Sys {
    s.(up := Erased(s.up), down := Erased(s.down),
       busy := if s.busy.MustReply? && Chatter(s.busy.reply') then Free else s.busy)
  }

  /** What a hello does when the center takes it. */
  function Greeted(s: Sys, minted: Option<Certificate>): Sys {
    s.(registered := true,
       busy := if s.entry.session.None? && minted.Some?
               then MustInsert(ResponderS(StartResponder(s.phone.deviceId, minted.value)), None) else s.busy)
  }

  /** A heartbeat is never what the center answers along with a session. */
  predicate PlainReply(b: Busy) {
    b.MustInsert? && b.reply.Some? ==> !Chatter(b.reply.value)
  }

  /** A step is one of the core as well, or a hello taken, or nothing to the core. */
  predicate Follows(s: Sys, w: Watch, step: Step) {
    var c, d := Core(s), Core(Next(s, step));
    || (d == c && Note(w, s, step) == w)
    || (d == Next(c, step) && Note(w, s, step) == Note(w, c, step) && !step.SendHeartbeat? && !step.SendHello?)
    || (step.TakeFrame? && c.busy.Free? && d == Greeted(c, step.minted) && Note(w, s, step) == w)
  }

  lemma PhoneFollows(s: Sys, w: Watch, step: Step)
    requires step.Accept? || step.Refuse?
    ensures Follows(s, w, step)
  {
    var input := if step.Accept? then PM.UserAccepts(step.now) else PM.UserRejects(step.reason);
    ErasedQueue(s.up, BodyOf(PM.PhoneNext(s.phone, input).1), step.room);
  }

  /** Chatter delivered to the phone changes nothing there. */
  lemma ChatterReceived(s: Sys, w: Watch, step: Step)
    requires step.PhoneReceive? && Enabled(s, step) && Chatter(s.down[0])
    ensures Core(Next(s, step)) == Core(s) && Note(w, s, step) == w
  {
    assert Next(s, step) == s.(down := s.down[1..]);
  }

  lemma PhoneSendsNoChatter(p: PM.Phone, env: Envelope, now: int, key: FreshKey)
    ensures var out := PM.PhoneNext(p, PM.Receive(env, now, key)).1; out.Some? ==> !Chatter(out.value.body)
  {
  }

  lemma MessageReceived(s: Sys, w: Watch, step: Step)
    requires step.PhoneReceive? && Enabled(s, step) && !Chatter(s.down[0])
    ensures Core(Next(s, step)) == Next(Core(s), step) && Note(w, s, step) == Note(w, Core(s), step)
  {
    var env := Envelope(s.centerId, s.down[0]);
    PhoneSendsNoChatter(s.phone, env, step.now, step.key);
    ErasedQueue(s.up, BodyOf(PM.PhoneNext(s.phone, PM.Receive(env, step.now, step.key)).1), step.room);
    assert Core(s).down[0] == s.down[0] && Core(s).down[1..] == Erased(s.down[1..]);
  }

  /** Chatter taken by the center is a hello, or a heartbeat that only has to be answered. */
  lemma ChatterTaken(s: Sys, w: Watch, step: Step)
    requires step.TakeFrame? && Enabled(s, step) && Chatter(s.up[0])
    ensures Core(Next(s, step)) == if s.up[0].Hello? then Greeted(Core(s), step.minted) else Core(s)
    ensures Note(w, s, step) == w
  {
    assert Next(s, step).up == s.up[1..] && Core(s).up == Erased(s.up[1..]);
  }

  lemma MessageTaken(s: Sys, w: Watch, step: Step)
    requires step.TakeFrame? && Enabled(s, step) && !Chatter(s.up[0])
    ensures Core(Next(s, step)) == Next(Core(s), step) && Note(w, s, step) == Note(w, Core(s), step)
  {
    var c := Core(s);
    assert c.up[0] == s.up[0] && c.up[1..] == Erased(s.up[1..]);
    assert !Next(s, step).busy.MustReply?;
  }

  lemma ReplyFollows(s: Sys, w: Watch, step: Step)
    requires step.SendReply? && Enabled(s, step)
    ensures Follows(s, w, step)
  {
    ErasedQueue(s.down, Some(s.busy.reply'), step.delivered);
  }

  lemma ChatterFollows(s: Sys, w: Watch, step: Step)
    requires step.SendHeartbeat? || step.SendHello?
    ensures Follows(s, w, step)
  {
    ErasedQueue(s.up, Some(if step.SendHello? then Hello else Heartbeat), step.room);
  }

  lemma StepFollows(s: Sys, w: Watch, step: Step)
    requires Lossless(step) && PlainReply(s.busy)
    ensures Follows(s, w, step)
  {
    if Enabled(s, step) {
      if step.Accept? || step.Refuse? {
        PhoneFollows(s, w, step);
      } else if step.PhoneReceive? {
        if Chatter(s.down[0]) {
          ChatterReceived(s, w, step);
        } else {
          MessageReceived(s, w, step);
        }
      } else if step.TakeFrame? {
        if Chatter(s.up[0]) {
          ChatterTaken(s, w, step);
        } else {
          MessageTaken(s, w, step);
        }
      } else if step.SendReply? {
        ReplyFollows(s, w, step);
      } else if step.SendHeartbeat? || step.SendHello? {
        ChatterFollows(s, w, step);
      }
    }
  }

  // ---------------------------------------------------------------------------
  // Each stage leads to a stage
  // ---------------------------------------------------------------------------

  /** A lossless step other than sending a heartbeat or a hello. */
  predicate Proper(step: Step) {
    Lossless(step) && !step.SendHeartbeat? && !step.SendHello?
  }

  lemma Greeting(s: Sys, w: Watch, kit: Kit, toCome: bool, minted: Option<Certificate>)
    requires OnTheWay(s, w, kit, toCome) && s.busy.Free?
    ensures OnTheWay(Greeted(s, minted), w, kit, toCome)
  {
    var t := Greeted(s, minted);
    assert Holder(t) == Holder(s) || (Holder(s).None? && Holder(t).value.ResponderS?);
  }

  lemma FromBeforeSend(s: Sys, w: Watch, kit: Kit, step: Step)
    requires Parties(s, kit) && BeforeSend(s, w, kit) && Proper(step)
    ensures Parties(Next(s, step), kit) && BeforeSend(Next(s, step), Note(w, s, step), kit)
  {
  }

  lemma Sending(s: Sys, w: Watch, kit: Kit)
    requires Parties(s, kit) && BeforeSend(s, w, kit)
    ensures var t := Next(s, PairStartSend(kit, true));
      Parties(t, kit) && Requested(t, Note(w, s, PairStartSend(kit, true)), kit)
  {
  }

  lemma FromRequested(s: Sys, w: Watch, kit: Kit, step: Step)
    requires Parties(s, kit) && Requested(s, w, kit) && Proper(step)
    ensures var t, v := Next(s, step), Note(w, s, step);
      Parties(t, kit) && (Requested(t, v, kit) || Showing(t, v, kit) || Doomed(t, v, kit))
  {
    if step.PhoneReceive? {
      RequestIsReceived(s, w, kit, step);
    } else {
      RequestWaits(s, w, kit, step);
    }
  }

  lemma RequestIsReceived(s: Sys, w: Watch, kit: Kit, step: Step)
    requires Parties(s, kit) && Requested(s, w, kit) && Proper(step) && step.PhoneReceive?
    ensures var t, v := Next(s, step), Note(w, s, step);
      Parties(t, kit) && (Showing(t, v, kit) || Doomed(t, v, kit))
  {
  }

  lemma RequestWaits(s: Sys, w: Watch, kit: Kit, step: Step)
    requires Parties(s, kit) && Requested(s, w, kit) && Proper(step) && !step.PhoneReceive?
    ensures var t, v := Next(s, step), Note(w, s, step);
      Parties(t, kit) && (Requested(t, v, kit) || Doomed(t, v, kit))
  {
  }

  lemma AcceptedWhileShowing(s: Sys, w: Watch, kit: Kit, step: Step)
    requires Parties(s, kit) && Showing(s, w, kit) && Proper(step) && step.Accept?
    ensures var t, v := Next(s, step), Note(w, s, step);
      Parties(t, kit) && (Agreed(t, v, kit) || Doomed(t, v, kit))
  {
  }

  lemma RefusedWhileShowing(s: Sys, w: Watch, kit: Kit, step: Step)
    requires Parties(s, kit) && Showing(s, w, kit) && Proper(step) && step.Refuse?
    ensures Parties(Next(s, step), kit) && Doomed(Next(s, step), Note(w, s, step), kit)
  {
  }

  lemma DeliveredWhileShowing(s: Sys, w: Watch, kit: Kit, step: Step)
    requires Parties(s, kit) && Showing(s, w, kit) && Proper(step) && step.PhoneReceive?
    ensures var t, v := Next(s, step), Note(w, s, step);
      Parties(t, kit) && (Showing(t, v, kit) || Doomed(t, v, kit))
  {
  }

  lemma FromShowingByTaking(s: Sys, w: Watch, kit: Kit, step: Step)
    requires Parties(s, kit) && Showing(s, w, kit) && Proper(step)
    requires step.TakeFrame?
    ensures var t, v := Next(s, step), Note(w, s, step);
      Parties(t, kit) && (Showing(t, v, kit) || Agreed(t, v, kit) || Doomed(t, v, kit))
  {
  }

  lemma FromShowingByCenter(s: Sys, w: Watch, kit: Kit, step: Step)
    requires Parties(s, kit) && Showing(s, w, kit) && Proper(step)
    requires step.InsertSession? || step.SendReply? || step.PairStartInsert? || step.TakeResponder?
    ensures var t, v := Next(s, step), Note(w, s, step);
      Parties(t, kit) && (Showing(t, v, kit) || Agreed(t, v, kit) || Doomed(t, v, kit))
  {
  }

  lemma FromShowing(s: Sys, w: Watch, kit: Kit, step: Step)
    requires Parties(s, kit) && Showing(s, w, kit) && Proper(step)
    ensures var t, v := Next(s, step), Note(w, s, step);
      Parties(t, kit) && (Showing(t, v, kit) || Agreed(t, v, kit) || Doomed(t, v, kit))
  {
    if step.TakeFrame? {
      FromShowingByTaking(s, w, kit, step);
    } else if step.Accept? {
      AcceptedWhileShowing(s, w, kit, step);
    } else if step.Refuse? {
      RefusedWhileShowing(s, w, kit, step);
    } else if step.PhoneReceive? {
      DeliveredWhileShowing(s, w, kit, step);
    } else {
      FromShowingByCenter(s, w, kit, step);
    }
  }

  lemma FromAgreedByPhone(s: Sys, w: Watch, kit: Kit, step: Step)
    requires Parties(s, kit) && Agreed(s, w, kit) && Proper(step)
    requires step.Accept? || step.Refuse? || step.PhoneReceive?
    ensures var t, v := Next(s, step), Note(w, s, step);
      Parties(t, kit) && (Agreed(t, v, kit) || Certifying(t, v, kit) || Doomed(t, v, kit))
  {
  }

  lemma FromAgreedByTaking(s: Sys, w: Watch, kit: Kit, step: Step)
    requires Parties(s, kit) && Agreed(s, w, kit) && step.TakeFrame? && Enabled(s, step)
    ensures var t, v := Next(s, step), Note(w, s, step);
      Parties(t, kit) && (Agreed(t, v, kit) || Certifying(t, v, kit) || Doomed(t, v, kit))
  {
    if |s.up| == 2 {
      ChallengeWhileAgreed(s, w, kit, step);
    } else if w.inserted {
      ConfirmOurs(s, w, kit, step);
    } else {
      ConfirmOlder(s, w, kit, step);
    }
  }

  lemma ChallengeWhileAgreed(s: Sys, w: Watch, kit: Kit, step: Step)
    requires Parties(s, kit) && Agreed(s, w, kit) && step.TakeFrame? && Enabled(s, step) && |s.up| == 2
    ensures Parties(Next(s, step), kit) && Agreed(Next(s, step), Note(w, s, step), kit)
  {
    assert s.up[1..] == [PairConfirm(Some(true))];
  }

  lemma ConfirmOurs(s: Sys, w: Watch, kit: Kit, step: Step)
    requires Parties(s, kit) && Agreed(s, w, kit) && step.TakeFrame? && Enabled(s, step) && |s.up| == 1 && w.inserted
    ensures Parties(Next(s, step), kit) && Certifying(Next(s, step), Note(w, s, step), kit)
  {
  }

  lemma ConfirmOlder(s: Sys, w: Watch, kit: Kit, step: Step)
    requires Parties(s, kit) && Agreed(s, w, kit) && step.TakeFrame? && Enabled(s, step) && |s.up| == 1 && !w.inserted
    ensures Parties(Next(s, step), kit) && Doomed(Next(s, step), Note(w, s, step), kit)
  {
  }

  lemma FromAgreedByCenter(s: Sys, w: Watch, kit: Kit, step: Step)
    requires Parties(s, kit) && Agreed(s, w, kit) && Proper(step)
    requires step.InsertSession? || step.SendReply? || step.PairStartInsert? || step.TakeResponder?
    ensures var t, v := Next(s, step), Note(w, s, step);
      Parties(t, kit) && (Agreed(t, v, kit) || Certifying(t, v, kit) || Doomed(t, v, kit))
  {
  }

  lemma FromAgreed(s: Sys, w: Watch, kit: Kit, step: Step)
    requires Parties(s, kit) && Agreed(s, w, kit) && Proper(step)
    ensures var t, v := Next(s, step), Note(w, s, step);
      Parties(t, kit) && (Agreed(t, v, kit) || Certifying(t, v, kit) || Doomed(t, v, kit))
  {
    if step.TakeFrame? {
      if Enabled(s, step) {
        FromAgreedByTaking(s, w, kit, step);
      }
    } else if step.Accept? || step.Refuse? || step.PhoneReceive? {
      FromAgreedByPhone(s, w, kit, step);
    } else {
      FromAgreedByCenter(s, w, kit, step);
    }
  }

  lemma FromCertifying(s: Sys, w: Watch, kit: Kit, step: Step)
    requires Parties(s, kit) && Certifying(s, w, kit) && Proper(step)
    ensures var t, v := Next(s, step), Note(w, s, step);
      Parties(t, kit) && (Certifying(t, v, kit) || Answering(t, v, kit))
  {
    if step.PhoneReceive? {
      if Enabled(s, step) {
        DeliveredWhileCertifying(s, w, kit, step);
      }
    } else if step.SendReply? || step.InsertSession? {
      ReplyWhileCertifying(s, w, kit, step);
    } else {
      assert Next(s, step) == s;
    }
  }

  lemma DeliveredWhileCertifying(s: Sys, w: Watch, kit: Kit, step: Step)
    requires Parties(s, kit) && Certifying(s, w, kit) && Proper(step) && step.PhoneReceive? && Enabled(s, step)
    ensures var t, v := Next(s, step), Note(w, s, step);
      Parties(t, kit) && (Certifying(t, v, kit) || Answering(t, v, kit))
  {
  }

  lemma ReplyWhileCertifying(s: Sys, w: Watch, kit: Kit, step: Step)
    requires Parties(s, kit) && Certifying(s, w, kit) && Proper(step) && (step.SendReply? || step.InsertSession?)
    ensures Parties(Next(s, step), kit) && Certifying(Next(s, step), Note(w, s, step), kit)
  {
  }

  lemma FromAnswering(s: Sys, w: Watch, kit: Kit, step: Step)
    requires Parties(s, kit) && Answering(s, w, kit) && Proper(step)
    ensures var t, v := Next(s, step), Note(w, s, step);
      Parties(t, kit) && (Answering(t, v, kit) || Done(t, v, kit))
  {
    UsableCertificatePassesCenter(s.phone.stored, s.phone.deviceId);
  }

  lemma FromDone(s: Sys, w: Watch, kit: Kit, step: Step)
    requires Parties(s, kit) && Done(s, w, kit) && Proper(step)
    ensures Parties(Next(s, step), kit) && Done(Next(s, step), Note(w, s, step), kit)
  {
  }

  lemma DecidingStaysDoomed(s: Sys, w: Watch, kit: Kit, step: Step)
    requires Parties(s, kit) && Doomed(s, w, kit) && Proper(step) && (step.Accept? || step.Refuse?)
    ensures Parties(Next(s, step), kit) && Doomed(Next(s, step), Note(w, s, step), kit)
  {
    var t := Next(s, step);
    assert t.down == s.down && t.busy == s.busy && t.starting == s.starting && t.entry == s.entry;
    assert Mute(s) ==> t.up == s.up && t.phone == s.phone;
  }

  /** What a doomed phone does with a delivery. */
  lemma DoomedReceives(p: PM.Phone, env: Envelope, now: int, key: FreshKey, kit: Kit)
    requires AnyReply(env.body, kit) || env.body.PairRequest?
    ensures var (q, out) := PM.PhoneNext(p, PM.Receive(env, now, key));
      && q.longTerm == (if p.longTerm.None? && env.body.PairRequest? then Some(p.stored) else p.longTerm)
      && q.stored == p.stored
      && (q.state.Paired? ==>
            if env.body.PairComplete? then q.state.peerFingerprint != kit.identity.fingerprint
            else q.state == p.state && !env.body.PairRequest?)
      && (q.state.ShowingCode? ==> env.body.PairRequest? || q.state == p.state)
      && (out.Some? ==> out.value.body != PairConfirm(Some(true)))
  {
  }

  lemma ReceivingStaysDoomed(s: Sys, w: Watch, kit: Kit, step: Step)
    requires Parties(s, kit) && Doomed(s, w, kit) && Proper(step) && step.PhoneReceive? && Enabled(s, step)
    ensures Parties(Next(s, step), kit) && Doomed(Next(s, step), Note(w, s, step), kit)
  {
    DoomedReceives(s.phone, Envelope(s.centerId, s.down[0]), step.now, step.key, kit);
  }

  lemma TakingStaysDoomed(s: Sys, w: Watch, kit: Kit, step: Step)
    requires Parties(s, kit) && Doomed(s, w, kit) && step.TakeFrame? && Enabled(s, step) && !Chatter(s.up[0])
    ensures Parties(Next(s, step), kit) && Doomed(Next(s, step), Note(w, s, step), kit)
  {
    var t := Next(s, step);
    assert t.phone == s.phone && t.down == s.down && t.starting == s.starting && t.up == s.up[1..];
    assert Mute(s) ==> s.up[0] != PairConfirm(Some(true));
    if s.busy.Free? && t.busy.MustInsert? && t.busy.reply.Some? && t.busy.reply.value.PairComplete? {
      assert s.up[0] == PairConfirm(Some(true)) && w.overwritten;
    }
  }

  lemma FromDoomed(s: Sys, w: Watch, kit: Kit, step: Step)
    requires Parties(s, kit) && Doomed(s, w, kit) && Proper(step) && !ChatterFirst(s)
    ensures Parties(Next(s, step), kit) && Doomed(Next(s, step), Note(w, s, step), kit)
  {
    if step.Accept? || step.Refuse? {
      DecidingStaysDoomed(s, w, kit, step);
    } else if step.PhoneReceive? {
      if Enabled(s, step) {
        ReceivingStaysDoomed(s, w, kit, step);
      }
    } else if step.TakeFrame? {
      if Enabled(s, step) {
        TakingStaysDoomed(s, w, kit, step);
      }
    }
  }

  lemma StagesFollow(s: Sys, w: Watch, kit: Kit, step: Step)
    requires OnTheWay(s, w, kit, false) && Proper(step) && !ChatterFirst(s)
    ensures OnTheWay(Next(s, step), Note(w, s, step), kit, false)
  {
    if Requested(s, w, kit) {
      FromRequested(s, w, kit, step);
    } else if Showing(s, w, kit) {
      FromShowing(s, w, kit, step);
    } else if Agreed(s, w, kit) {
      FromAgreed(s, w, kit, step);
    } else if Certifying(s, w, kit) {
      FromCertifying(s, w, kit, step);
    } else if Answering(s, w, kit) {
      FromAnswering(s, w, kit, step);
    } else if Done(s, w, kit) {
      FromDone(s, w, kit, step);
    } else {
      FromDoomed(s, w, kit, step);
    }
  }

  lemma ProperKeepsOnTheWay(s: Sys, w: Watch, kit: Kit, step: Step, toCome: bool)
    requires OnTheWay(s, w, kit, toCome) && Proper(step) && !ChatterFirst(s)
    ensures OnTheWay(Next(s, step), Note(w, s, step), kit, toCome)
  {
    if toCome {
      FromBeforeSend(s, w, kit, step);
    } else {
      StagesFollow(s, w, kit, step);
    }
  }

  lemma LosslessKeepsOnTheWay(s: Sys, w: Watch, kit: Kit, step: Step, toCome: bool)
    requires OnTheWay(Core(s), w, kit, toCome) && Lossless(step)
    ensures OnTheWay(Core(Next(s, step)), Note(w, s, step), kit, toCome)
  {
    StepFollows(s, w, step);
    ErasedIsPlain(s.up);
    var c, d := Core(s), Core(Next(s, step));
    if d == c && Note(w, s, step) == w {
    } else if d == Next(c, step) && Note(w, s, step) == Note(w, c, step) && Proper(step) {
      ProperKeepsOnTheWay(c, w, kit, step, toCome);
    } else {
      Greeting(c, w, kit, toCome, step.minted);
    }
  }

  lemma SendKeepsOnTheWay(s: Sys, w: Watch, kit: Kit)
    requires OnTheWay(Core(s), w, kit, true)
    ensures OnTheWay(Core(Next(s, PairStartSend(kit, true))), Note(w, s, PairStartSend(kit, true)), kit, false)
  {
    Sending(Core(s), w, kit);
    ErasedAppend(s.down, PairRequest(Some(WireKey(kit.ephemeral, true))));
    assert Core(Next(s, PairStartSend(kit, true))) == Next(Core(s), PairStartSend(kit, true));
  }

  lemma {:induction false} AttemptStaysOnTheWay(s: Sys, w: Watch, kit: Kit, steps: seq<Step>, toCome: bool)
    requires OnTheWay(Core(s), w, kit, toCome) && IsAttempt(steps, kit, toCome)
    ensures OnTheWay(Core(Run(s, steps)), NoteAll(w, s, steps), kit, false)
    decreases |steps|
  {
    if steps != [] {
      var step := steps[0];
      if step == PairStartSend(kit, true) {
        SendKeepsOnTheWay(s, w, kit);
        AttemptStaysOnTheWay(Next(s, step), Note(w, s, step), kit, steps[1..], false);
      } else {
        LosslessKeepsOnTheWay(s, w, kit, step, toCome);
        AttemptStaysOnTheWay(Next(s, step), Note(w, s, step), kit, steps[1..], toCome);
      }
    }
  }

  /**
   One `pair_start` from a quiet state of a connected device whose phone shows no code, among
   any decisions of the phone's user, deliveries, lock steps, heartbeats and hellos in any
   order, once nothing is left in flight: both sides are paired with each other if and only if
   the user accepted a shown code in time, and the session was inserted before the center took
   the confirmation and not under another session that was about to be put back. Nothing else
   matters: neither the center's view of the code and its expiry, nor whether its rejection
   reached the phone.
   */
  lemma AttemptPairsIff(s: Sys, kit: Kit, steps: seq<Step>)
    requires Quiet(s) && s.registered && !s.phone.state.ShowingCode?
    requires s.phone.longTerm == Some(s.phone.stored)
    requires UsableCertificate(kit.identity) && UsableCertificate(s.phone.stored)
    requires Older(s.entry.session, kit) && IsAttempt(steps, kit, true)
    ensures var t, w := Run(s, steps), NoteAll(NOTHING, s, steps);
      Quiet(t) ==> (BothPaired(t, kit) <==> w.inTime && !w.late && !w.overwritten)
  {
    assert Core(s) == s;
    AttemptStaysOnTheWay(s, NOTHING, kit, steps, true);
    var t, w := Run(s, steps), NoteAll(NOTHING, s, steps);
    if Quiet(t) {
      assert Core(t) == t;
      assert Showing(t, w, kit) || Done(t, w, kit) || Doomed(t, w, kit);
    }
  }
}
