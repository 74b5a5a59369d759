/**
 What the composed pairing system does reach: the scheduled happy path with its exact timing
 condition, termination and deadlock freedom of delivery, and runs that show which promises
 the code does not keep.
 */
module PairingProgress {
  import opened Wrappers
  import opened Protocol
  import opened Sessions
  import opened WsHandler
  import opened Center
  import opened PairingSystem
  import PM = PairingMachine
  import Fingerprint
  import PairingCode

  lemma {:induction false} RunOfConcat(s: Sys, a: seq<Step>, b: seq<Step>)
    ensures Run(s, a + b) == Run(Run(s, a), b)
    decreases |a|
  {
    if a == [] {
      assert a + b == b;
    } else {
      assert (a + b)[1..] == a[1..] + b;
      RunOfConcat(Next(s, a[0]), a[1..], b);
    }
  }

  lemma RunOfTwo(s: Sys, a: Step, b: Step)
    ensures Run(s, [a, b]) == Next(Next(s, a), b)
  {
    RunOfConcat(s, [a], [b]);
    assert [a] + [b] == [a, b];
  }

  lemma RunOfThree(s: Sys, a: Step, b: Step, c: Step)
    ensures Run(s, [a, b, c]) == Next(Next(Next(s, a), b), c)
  {
    RunOfTwo(s, a, b);
    RunOfConcat(s, [a, b], [c]);
    assert [a, b] + [c] == [a, b, c];
  }

  lemma RunOfFour(s: Sys, a: Step, b: Step, c: Step, d: Step)
    ensures Run(s, [a, b, c, d]) == Next(Next(Next(Next(s, a), b), c), d)
  {
    RunOfThree(s, a, b, c);
    RunOfConcat(s, [a, b, c], [d]);
    assert [a, b, c] + [d] == [a, b, c, d];
  }

  // ---------------------------------------------------------------------------
  // The desktop-driven flow, delivered in order
  // ---------------------------------------------------------------------------

  /** Nothing in flight and nobody in the middle of anything. */
  predicate Quiet(s: Sys) {
    s.up == [] && s.down == [] && s.busy.Free? && s.starting == []
  }

  predicate UsableCertificate(c: Certificate) {
    HasPemHeader(c.pem) && Fingerprint.IsValidFingerprint(c.fingerprint)
  }

  /** The request goes out and the phone answers with its challenge at `t1`. */
  function AskSteps(kit: Kit, key: FreshKey, t1: int): seq<Step> {
    [PairStartSend(kit, true), PairStartInsert(0), PhoneReceive(t1, key, true)]
  }

  /** The center handles the challenge at `t2`; a rejection, if any, is delivered. */
  function ChallengeSteps(key: FreshKey, t2: int): seq<Step> {
    [TakeFrame(t2, None), InsertSession, SendReply(true), PhoneReceive(t2, key, true)]
  }

  /** The user accepts at `t3`, and the center answers the confirmation. */
  function ConfirmSteps(t3: int): seq<Step> {
    [Accept(t3, true), TakeFrame(t3, None), InsertSession, SendReply(true)]
  }

  /** Both certificates are delivered. */
  function CertificateSteps(key: FreshKey, t3: int): seq<Step> {
    [PhoneReceive(t3, key, true), TakeFrame(t3, None), InsertSession]
  }

  lemma AskResult(s: Sys, kit: Kit, key: FreshKey, t1: int)
    requires Quiet(s) && s.registered && s.phone.longTerm.Some? && key.code.Some?
    ensures var t := Run(s, AskSteps(kit, key, t1));
      && t.down == [] && t.busy.Free? && t.starting == []
      && t.up == [PairChallenge(Some(Challenge(WireKey(key.pub, true), key.code.value, t1 + CODE_LIFETIME_MS)))]
      && t.entry.session == Some(InitiatorS(StartInitiator(s.phone.deviceId, kit.identity, kit.ephemeral)))
      && t.phone == s.phone.(
           state := PM.ShowingCode(key.code.value, t1 + CODE_LIFETIME_MS, s.centerId, kit.ephemeral),
           ephemeral := Some(key.pub))
      && t.centerId == s.centerId
  {
    var steps := AskSteps(kit, key, t1);
    RunOfThree(s, steps[0], steps[1], steps[2]);
    var s1 := Next(s, steps[0]);
    assert s1.starting == [StartInitiator(s.phone.deviceId, kit.identity, kit.ephemeral)];
    var s2 := Next(s1, steps[1]);
    assert s2.starting == [] && s2.down == [PairRequest(Some(WireKey(kit.ephemeral, true)))];
  }

  /** The phone's answer to a request of this center, as the three times leave it. */
  predicate Asked(s: Sys, kit: Kit, key: FreshKey, expiry: int) {
    && key.code.Some?
    && s.down == [] && s.busy.Free? && s.starting == []
    && s.up == [PairChallenge(Some(Challenge(WireKey(key.pub, true), key.code.value, expiry)))]
    && s.entry.session == Some(InitiatorS(StartInitiator(s.phone.deviceId, kit.identity, kit.ephemeral)))
    && s.phone.state == PM.ShowingCode(key.code.value, expiry, s.centerId, kit.ephemeral)
    && s.phone.longTerm == Some(s.phone.stored)
  }

  /** Waiting for the user: the initiator is in the map and the phone shows its code, or gave up. */
  predicate Shown(s: Sys, kit: Kit, key: FreshKey, expiry: int) {
    && key.code.Some? && Quiet(s)
    && s.entry.session.Some? && s.entry.session.value.InitiatorS?
    && s.entry.session.value.initiator.identity == kit.identity
    && s.phone.state == PM.ShowingCode(key.code.value, expiry, s.centerId, kit.ephemeral)
    && s.phone.longTerm == Some(s.phone.stored)
  }

  predicate GaveUp(s: Sys) {
    Quiet(s) && s.phone.state.Failed? && s.entry.session.Some? && s.entry.session.value.InitiatorS?
  }

  /** The center takes the initiator out, and puts the challenge in it unless it is too late. */
  lemma TakeChallengeResult(s: Sys, kit: Kit, key: FreshKey, expiry: int, t2: int)
    requires Asked(s, kit, key, expiry) && PairingCode.IsPairingCode(key.code.value)
    ensures var (init, r) := InitiatorOnChallenge(
        s.entry.session.value.initiator, Envelope(s.phone.deviceId, s.up[0]), t2);
      && (r.Ok? <==> t2 <= expiry) && init.identity == kit.identity
      && Next(s, TakeFrame(t2, None)) ==
           s.(up := [], entry := s.entry.(session := None),
              busy := MustInsert(InitiatorS(init), BodyOf(Rejection(s.centerId, r))))
  {
  }

  /** The initiator goes back; a rejection reaches the phone. */
  lemma FinishChallengeResult(s: Sys, init: InitiatorView, reason: Option<string>, key: FreshKey, t2: int)
    requires s.up == [] && s.down == [] && s.starting == []
    requires s.busy == MustInsert(InitiatorS(init), if reason.Some? then Some(PairReject(reason)) else None)
    ensures var t := Next(Next(Next(s, InsertSession), SendReply(true)), PhoneReceive(t2, key, true));
      t == s.(entry := s.entry.(session := Some(InitiatorS(init))), busy := Free,
              phone := if reason.Some? then s.phone.(state := PM.Failed(reason.value)) else s.phone)
  {
    var s1 := Next(s, InsertSession);
    var s2 := Next(s1, SendReply(true));
    if reason.Some? {
      assert s2.down == [PairReject(reason)];
    } else {
      assert s2 == s1;
    }
  }

  lemma ChallengeResult(s: Sys, kit: Kit, key: FreshKey, expiry: int, t2: int)
    requires Asked(s, kit, key, expiry) && PairingCode.IsPairingCode(key.code.value)
    ensures var t := Run(s, ChallengeSteps(key, t2));
      && SameParties(s, t)
      && if t2 <= expiry then Shown(t, kit, key, expiry) else GaveUp(t)
  {
    var steps := ChallengeSteps(key, t2);
    RunOfFour(s, steps[0], steps[1], steps[2], steps[3]);
    TakeChallengeResult(s, kit, key, expiry, t2);
    var (init, r) := InitiatorOnChallenge(s.entry.session.value.initiator, Envelope(s.phone.deviceId, s.up[0]), t2);
    var reason := if r.Err? then Some(ErrorText(r.error)) else None;
    FinishChallengeResult(Next(s, steps[0]), init, reason, key, t2);
  }

  predicate SameParties(s: Sys, t: Sys) {
    t.centerId == s.centerId && t.phone.stored == s.phone.stored && t.phone.deviceId == s.phone.deviceId
  }

  /** Both sides paired with each other's long-term fingerprint. */
  predicate BothPaired(s: Sys, kit: Kit) {
    && s.phone.state == PM.Paired(s.phone.deviceId, s.centerId, kit.identity.fingerprint)
    && s.entry.session == Some(PairedS(s.phone.stored.fingerprint))
  }

  /** The center has answered an acceptance with its certificate. */
  predicate Confirmed(s: Sys, kit: Kit) {
    && s.up == [] && s.down == [PairComplete(Some(kit.identity))] && s.busy.Free? && s.starting == []
    && s.entry.session.Some? && s.entry.session.value.InitiatorS?
    && s.phone.state.Confirming? && s.phone.state.peerDeviceId == s.centerId
    && s.phone.longTerm == Some(s.phone.stored)
  }

  lemma ConfirmResult(s: Sys, kit: Kit, key: FreshKey, expiry: int, t3: int)
    requires Shown(s, kit, key, expiry)
    ensures var t := Run(s, ConfirmSteps(t3));
      SameParties(s, t) && if t3 <= expiry then Confirmed(t, kit) else GaveUp(t)
  {
    var steps := ConfirmSteps(t3);
    RunOfFour(s, steps[0], steps[1], steps[2], steps[3]);
    var s1 := Next(s, steps[0]);
    assert s1.up == if t3 <= expiry then [PairConfirm(Some(true))] else [];
  }

  lemma CertificateResult(s: Sys, kit: Kit, key: FreshKey, t3: int)
    requires Confirmed(s, kit) && UsableCertificate(kit.identity) && UsableCertificate(s.phone.stored)
    ensures var t := Run(s, CertificateSteps(key, t3));
      SameParties(s, t) && Quiet(t) && BothPaired(t, kit)
  {
    var steps := CertificateSteps(key, t3);
    RunOfThree(s, steps[0], steps[1], steps[2]);
    var s1 := Next(s, steps[0]);
    assert s1.up == [PairComplete(Some(s.phone.stored))] && s1.down == [];
    UsableCertificatePassesCenter(s.phone.stored, s.phone.deviceId);
  }

  /** What the phone's validator accepts, the center's parser accepts. */
  lemma UsableCertificatePassesCenter(c: Certificate, d: Uuid)
    requires UsableCertificate(c)
    ensures forall peer :: CheckComplete(Envelope(d, PairComplete(Some(c))), peer) == Ok(PairingOutcome(peer, c))
  {
    Fingerprint.ValidIsPrinted(c.fingerprint);
  }

  function Schedule(kit: Kit, key: FreshKey, t1: int, t2: int, t3: int): seq<Step> {
    AskSteps(kit, key, t1) + (ChallengeSteps(key, t2) + (ConfirmSteps(t3) + CertificateSteps(key, t3)))
  }

  lemma RunOfSchedule(s: Sys, kit: Kit, key: FreshKey, t1: int, t2: int, t3: int)
    ensures Run(s, Schedule(kit, key, t1, t2, t3)) ==
            Run(Run(Run(Run(s, AskSteps(kit, key, t1)), ChallengeSteps(key, t2)), ConfirmSteps(t3)),
                CertificateSteps(key, t3))
  {
    var c, d := ConfirmSteps(t3), CertificateSteps(key, t3);
    var a := Run(s, AskSteps(kit, key, t1));
    RunOfConcat(s, AskSteps(kit, key, t1), ChallengeSteps(key, t2) + (c + d));
    RunOfConcat(a, ChallengeSteps(key, t2), c + d);
    RunOfConcat(Run(a, ChallengeSteps(key, t2)), c, d);
  }

  /**
   One schedule: the session is inserted at once, and the queues are drained before the user
   decides, so that a rejection reaches the phone first. Then, with usable certificates and a
   well-formed code, both sides end up paired with each other exactly if neither the center
   sees the challenge nor the user accepts later than 30 seconds after the phone made it;
   otherwise the phone reports failure and the center keeps its initiator. Other orders decide
   otherwise; `PairingAttempt` covers them all.
   */
  lemma PairsIffInTime(s: Sys, kit: Kit, key: FreshKey, t1: int, t2: int, t3: int)
    requires Quiet(s) && s.registered && s.phone.longTerm == Some(s.phone.stored)
    requires UsableCertificate(kit.identity) && UsableCertificate(s.phone.stored)
    requires key.code.Some? && PairingCode.IsPairingCode(key.code.value)
    ensures var t := Run(s, Schedule(kit, key, t1, t2, t3));
      if t2 <= t1 + 30_000 && t3 <= t1 + 30_000 then BothPaired(t, kit) && Quiet(t) else GaveUp(t)
  {
    var expiry := t1 + CODE_LIFETIME_MS;
    RunOfSchedule(s, kit, key, t1, t2, t3);
    AskResult(s, kit, key, t1);
    var a := Run(s, AskSteps(kit, key, t1));
    ChallengeResult(a, kit, key, expiry, t2);
    var b := Run(a, ChallengeSteps(key, t2));
    if t2 <= expiry {
      ConfirmResult(b, kit, key, expiry, t3);
      var c := Run(b, ConfirmSteps(t3));
      if t3 <= expiry {
        CertificateResult(c, kit, key, t3);
      } else {
        NothingToDeliver(c, key, t3);
      }
    } else {
      NothingToAccept(b, t3);
      NothingToDeliver(b, key, t3);
    }
  }

  /** After giving up, pressing accept and delivering changes nothing. */
  lemma NothingToAccept(s: Sys, t3: int)
    requires GaveUp(s)
    ensures Run(s, ConfirmSteps(t3)) == s
  {
    var steps := ConfirmSteps(t3);
    RunOfFour(s, steps[0], steps[1], steps[2], steps[3]);
    assert Next(s, steps[0]) == s;
  }

  lemma NothingToDeliver(s: Sys, key: FreshKey, t3: int)
    requires GaveUp(s)
    ensures Run(s, CertificateSteps(key, t3)) == s
  {
    var steps := CertificateSteps(key, t3);
    RunOfThree(s, steps[0], steps[1], steps[2]);
  }

  // ---------------------------------------------------------------------------
  // Quiescence
  // ---------------------------------------------------------------------------

  /** Steps that only work off what has been sent or begun. */
  predicate Internal(step: Step) {
    step.PhoneReceive? || step.TakeFrame? || step.TakeResponder? || step.InsertSession? || step.SendReply?
    || step.PairStartInsert?
  }

  /** Work a message still causes at its receiver, and through replies. */
  function UpRank(b: Body): nat {
    match b
    case Hello => 2
    case Heartbeat => 3
    case PairChallenge(_) => 4
    case PairConfirm(_) => 7
    case PairComplete(_) => 3
    case _ => 1
  }

  function DownRank(b: Body): nat {
    match b
    case PairRequest(_) => 5
    case PairConfirm(_) => 4
    case PairAccept => 8
    case PairComplete(_) => 4
    case _ => 1
  }

  function BusyRank(b: Busy): nat {
    match b
    case Free => 0
    case SecondLock(_) => 2
    case MustInsert(_, reply) => if reply.Some? then 2 + DownRank(reply.value) else 1
    case MustReply(reply) => 1 + DownRank(reply)
  }

  function UpWork(q: seq<Body>): nat {
    if q == [] then 0 else UpRank(q[0]) + UpWork(q[1..])
  }

  function DownWork(q: seq<Body>): nat {
    if q == [] then 0 else DownRank(q[0]) + DownWork(q[1..])
  }

  function Measure(s: Sys): nat {
    UpWork(s.up) + DownWork(s.down) + BusyRank(s.busy) + |s.starting|
  }

  lemma {:induction false} WorkOfAppend(q: seq<Body>, b: Body)
    ensures UpWork(q + [b]) == UpWork(q) + UpRank(b)
    ensures DownWork(q + [b]) == DownWork(q) + DownRank(b)
  {
    if q == [] {
      assert UpWork([b]) == UpRank(b) && DownWork([b]) == DownRank(b);
    } else {
      WorkOfAppend(q[1..], b);
      assert (q + [b])[1..] == q[1..] + [b];
    }
  }

  lemma PhoneReceiveDecreases(s: Sys, step: Step)
    requires step.PhoneReceive? && Enabled(s, step)
    ensures Measure(Next(s, step)) < Measure(s)
  {
    var out := BodyOf(PM.PhoneNext(s.phone, PM.Receive(Envelope(s.centerId, s.down[0]), step.now, step.key)).1);
    if out.Some? {
      WorkOfAppend(s.up, out.value);
      assert UpRank(out.value) < DownRank(s.down[0]);
    }
  }

  lemma TakeFrameDecreases(s: Sys, step: Step)
    requires step.TakeFrame? && Enabled(s, step)
    ensures Measure(Next(s, step)) < Measure(s)
  {
    var t := Next(s, step);
    assert t.up == s.up[1..] && t.down == s.down && t.starting == s.starting;
    assert BusyRank(t.busy) < UpRank(s.up[0]);
  }

  /** The answer the center still has to queue for the frame it is working on. */
  function PendingReply(b: Busy): Option<Body> {
    match b
    case MustInsert(_, reply) => reply
    case MustReply(reply) => Some(reply)
    case _ => None
  }

  /** What a step consumes, and the at most one message it sends or prepares instead. */
  predicate AnswersSmaller(s: Sys, step: Step, t: Sys)
    requires Enabled(s, step)
  {
    match step
    case PhoneReceive(_, _, _) =>
      && t.down == s.down[1..] && t.busy == s.busy
      && |s.up| <= |t.up| <= |s.up| + 1 && t.up[..|s.up|] == s.up
      && (|t.up| > |s.up| ==> UpRank(t.up[|s.up|]) < DownRank(s.down[0]))
    case TakeFrame(_, _) =>
      && t.up == s.up[1..] && t.down == s.down
      && (PendingReply(t.busy).Some? ==> DownRank(PendingReply(t.busy).value) < UpRank(s.up[0]))
    case SendReply(_) =>
      t.up == s.up && t.busy.Free? && (t.down == s.down || t.down == s.down + [PendingReply(s.busy).value])
    case _ =>
      t.up == s.up && t.down == s.down && (PendingReply(t.busy) == PendingReply(s.busy) || PendingReply(t.busy).None?)
  }

  lemma InternalStepAnswersSmaller(s: Sys, step: Step)
    requires Internal(step) && Enabled(s, step)
    ensures AnswersSmaller(s, step, Next(s, step))
  {
  }

  /** Each internal step consumes something and sends at most one message, of smaller rank. */
  lemma InternalStepDecreases(s: Sys, step: Step)
    requires Internal(step) && Enabled(s, step)
    ensures Measure(Next(s, step)) < Measure(s)
    ensures AnswersSmaller(s, step, Next(s, step))
  {
    InternalStepAnswersSmaller(s, step);
    match step {
      case PhoneReceive(_, _, _) => PhoneReceiveDecreases(s, step);
      case TakeFrame(_, _) => TakeFrameDecreases(s, step);
      case SendReply(_) => WorkOfAppend(s.down, s.busy.reply');
      case _ =>
    }
  }

  predicate EnabledAlong(s: Sys, steps: seq<Step>)
    decreases |steps|
  {
    steps == [] || (Enabled(s, steps[0]) && EnabledAlong(Next(s, steps[0]), steps[1..]))
  }

  /** No run of internal steps is longer than the measure of its first state. */
  lemma {:induction false} InternalRunsEnd(s: Sys, steps: seq<Step>)
    requires EnabledAlong(s, steps) && forall i | 0 <= i < |steps| :: Internal(steps[i])
    ensures |steps| + Measure(Run(s, steps)) <= Measure(s)
    decreases |steps|
  {
    if steps != [] {
      InternalStepDecreases(s, steps[0]);
      InternalRunsEnd(Next(s, steps[0]), steps[1..]);
    }
  }

  /** No deadlock: internal steps run out exactly when nothing is in flight or half done. */
  lemma StuckIffQuiet(s: Sys)
    ensures Quiet(s) <==> forall step | Internal(step) :: !Enabled(s, step)
  {
    if !Quiet(s) {
      var step := if s.busy.MustInsert? then InsertSession
                  else if s.busy.MustReply? then SendReply(true)
                  else if s.busy.SecondLock? then TakeResponder
                  else if s.up != [] then TakeFrame(0, None)
                  else if s.down != [] then PhoneReceive(0, FreshKey("", None), true)
                  else PairStartInsert(0);
      assert Internal(step) && Enabled(s, step);
    }
  }

  // ---------------------------------------------------------------------------
  // Promises the code does not keep
  // ---------------------------------------------------------------------------

  /**
   With two `pair_start` calls one acceptance can pair the second session with the first
   session's certificate: the center is paired although nobody accepted the second code, and
   the phone holds the first identity's fingerprint. Hence the limits in the theorems on runs.
   */
  lemma StaleCertificatePairsNewSession(
    centerId: Uuid, deviceId: Uuid, stored: Certificate, first: Kit, second: Kit, key: FreshKey, t: int)
    requires UsableCertificate(first.identity) && UsableCertificate(stored)
    requires first.identity.fingerprint != second.identity.fingerprint
    requires key.code.Some? && PairingCode.IsPairingCode(key.code.value)
    ensures exists steps :: var s := Run(Start(centerId, deviceId, stored), steps);
      && s.log.accepts == 1 && s.log.starts == 2 && s.log.pairings == 1
      && s.entry.session == Some(PairedS(stored.fingerprint))
      && s.phone.state == PM.Paired(deviceId, centerId, first.identity.fingerprint)
      && s.down == [PairRequest(Some(WireKey(second.ephemeral, true)))]
  {
    var before := ReachConfirmed(centerId, deviceId, stored, first, key, t);
    var s := Run(Start(centerId, deviceId, stored), before);
    var after := PairStale(s, first, second, key, t);
    RunOfConcat(Start(centerId, deviceId, stored), before, after);
  }

  lemma ReachConfirmed(centerId: Uuid, deviceId: Uuid, stored: Certificate, kit: Kit, key: FreshKey, t: int)
    returns (steps: seq<Step>)
    requires key.code.Some? && PairingCode.IsPairingCode(key.code.value)
    ensures var s := Run(Start(centerId, deviceId, stored), steps);
      && Confirmed(s, kit) && SameParties(Start(centerId, deviceId, stored), s) && s.registered
      && s.log.accepts == 1 && s.log.starts == 1 && s.log.pairings == 0
  {
    var s0 := Start(centerId, deviceId, stored);
    var hello := ReachRegistered(s0, t);
    var s1 := Run(s0, hello);
    AskResult(s1, kit, key, t);
    LogOfAsk(s1, kit, key, t);
    var s2 := Run(s1, AskSteps(kit, key, t));
    ChallengeResult(s2, kit, key, t + CODE_LIFETIME_MS, t);
    LogOfChallenge(s2, key, t);
    var s3 := Run(s2, ChallengeSteps(key, t));
    ConfirmResult(s3, kit, key, t + CODE_LIFETIME_MS, t);
    LogOfConfirm(s3, t);
    steps := hello + (AskSteps(kit, key, t) + (ChallengeSteps(key, t) + ConfirmSteps(t)));
    RunOfConcat(s0, hello, AskSteps(kit, key, t) + (ChallengeSteps(key, t) + ConfirmSteps(t)));
    RunOfConcat(s1, AskSteps(kit, key, t), ChallengeSteps(key, t) + ConfirmSteps(t));
    RunOfConcat(s2, ChallengeSteps(key, t), ConfirmSteps(t));
  }

  lemma ReachRegistered(s: Sys, t: int) returns (steps: seq<Step>)
    requires Quiet(s)
    ensures Run(s, steps) == s.(registered := true)
  {
    var a, b := SendHello(true), TakeFrame(t, None);
    steps := [a, b];
    RunOfTwo(s, a, b);
    assert Next(s, a).up == [Hello];
  }

  lemma PairStale(s: Sys, first: Kit, second: Kit, key: FreshKey, t: int)
    returns (steps: seq<Step>)
    requires Confirmed(s, first) && s.registered
    requires UsableCertificate(first.identity) && UsableCertificate(s.phone.stored)
    ensures var u := Run(s, steps);
      && u.log.accepts == s.log.accepts && u.log.starts == s.log.starts + 1 && u.log.pairings == s.log.pairings + 1
      && u.entry.session == Some(PairedS(s.phone.stored.fingerprint))
      && u.phone.state == PM.Paired(s.phone.deviceId, s.centerId, first.identity.fingerprint)
      && u.down == [PairRequest(Some(WireKey(second.ephemeral, true)))]
  {
    var a := [PhoneReceive(t, key, true), PairStartSend(second, true), PairStartInsert(0)];
    var b := [TakeFrame(t, None), InsertSession];
    RunOfThree(s, a[0], a[1], a[2]);
    var s1 := Run(s, a);
    assert s1.up == [PairComplete(Some(s.phone.stored))] && s1.busy.Free?;
    assert s1.entry.session == Some(InitiatorS(StartInitiator(s.phone.deviceId, second.identity, second.ephemeral)));
    PairFromInitiator(s1, t);
    steps := a + b;
    RunOfConcat(s, a, b);
  }

  /** A certificate in front of an idle center that holds an initiator pairs the device. */
  lemma PairFromInitiator(s: Sys, t: int)
    requires s.busy.Free? && s.up == [PairComplete(Some(s.phone.stored))] && UsableCertificate(s.phone.stored)
    requires s.entry.session.Some? && s.entry.session.value.InitiatorS?
    ensures Run(s, [TakeFrame(t, None), InsertSession]) == s.(
              up := [], entry := s.entry.(session := Some(PairedS(s.phone.stored.fingerprint))),
              log := s.log.(pairings := s.log.pairings + 1))
  {
    RunOfTwo(s, TakeFrame(t, None), InsertSession);
    UsableCertificatePassesCenter(s.phone.stored, s.phone.deviceId);
  }

  lemma LogOfAsk(s: Sys, kit: Kit, key: FreshKey, t: int)
    requires Quiet(s) && s.registered
    ensures Run(s, AskSteps(kit, key, t)).log ==
      s.log.(starts := s.log.starts + 1, issued := s.log.issued + {kit.identity.fingerprint})
    ensures Run(s, AskSteps(kit, key, t)).registered
  {
    var steps := AskSteps(kit, key, t);
    RunOfThree(s, steps[0], steps[1], steps[2]);
    assert Next(s, steps[0]).down == [PairRequest(Some(WireKey(kit.ephemeral, true)))];
  }

  lemma LogOfChallenge(s: Sys, key: FreshKey, t: int)
    requires s.busy.Free? && s.down == [] && |s.up| == 1 && s.up[0].PairChallenge?
    ensures Run(s, ChallengeSteps(key, t)).log == s.log && Run(s, ChallengeSteps(key, t)).registered == s.registered
  {
    var steps := ChallengeSteps(key, t);
    RunOfFour(s, steps[0], steps[1], steps[2], steps[3]);
  }

  lemma LogOfConfirm(s: Sys, t: int)
    requires Quiet(s) && s.phone.state.ShowingCode? && t <= s.phone.state.expiresAtMs
    ensures Run(s, ConfirmSteps(t)).log == s.log.(accepts := s.log.accepts + 1)
    ensures Run(s, ConfirmSteps(t)).registered == s.registered
  {
    var steps := ConfirmSteps(t);
    RunOfFour(s, steps[0], steps[1], steps[2], steps[3]);
    assert Next(s, steps[0]).up == [PairConfirm(Some(true))];
  }

  /**
   When the phone asked and the console agreed, the center can be paired while the phone never
   was: the condition in `PhonePairsFirst` cannot be dropped.
   */
  lemma CenterCanPairAlone(centerId: Uuid, deviceId: Uuid, stored: Certificate, kit: Kit, key: FreshKey, t: int)
    requires UsableCertificate(stored)
    ensures exists steps :: var s := Run(Start(centerId, deviceId, stored), steps);
      && s.entry.session == Some(PairedS(stored.fingerprint))
      && s.log.phonePairings == 0 && s.log.accepts == 0
      && s.log.pairings == 1 && s.log.initiates == 1 && s.log.incomingAccepts == 1
  {
    var s0 := Start(centerId, deviceId, stored);
    var a := ReachDirectConfirm(s0, t);
    var s1 := Run(s0, a);
    var b := PairDirectly(s1, kit, key, t);
    RunOfConcat(s0, a, b);
  }

  lemma ReachDirectConfirm(s: Sys, t: int) returns (steps: seq<Step>)
    requires Quiet(s) && s.phone.state.Idle?
    ensures var u := Run(s, steps);
      && u.phone.state.Initiating? && u.up == [] && u.down == [PairConfirm(Some(true))] && u.busy.Free?
      && u.starting == [] && u.registered && SameParties(s, u) && u.phone.longTerm == s.phone.longTerm
      && u.log == s.log.(initiates := s.log.initiates + 1, incomingAccepts := s.log.incomingAccepts + 1)
  {
    var a := ReachRegistered(s, t);
    var s1 := Run(s, a);
    var b := [StartFromPhone("k", t, true), TakeFrame(t, None), IncomingAccept(true)];
    RunOfThree(s1, b[0], b[1], b[2]);
    assert Next(s1, b[0]).up == [PairRequest(Some(WireKey("k", true)))];
    steps := a + b;
    RunOfConcat(s, a, b);
  }

  lemma PairDirectly(s: Sys, kit: Kit, key: FreshKey, t: int) returns (steps: seq<Step>)
    requires s.phone.state.Initiating? && s.up == [] && s.down == [PairConfirm(Some(true))] && s.busy.Free?
    requires s.starting == [] && s.registered && s.phone.longTerm == Some(s.phone.stored)
    requires UsableCertificate(s.phone.stored)
    ensures var u := Run(s, steps);
      && u.entry.session == Some(PairedS(s.phone.stored.fingerprint))
      && u.log.phonePairings == s.log.phonePairings && u.log.accepts == s.log.accepts
      && u.log.initiates == s.log.initiates && u.log.incomingAccepts == s.log.incomingAccepts
      && u.log.pairings == s.log.pairings + 1
  {
    var a := [PairStartSend(kit, true), PairStartInsert(0), PhoneReceive(t, key, true)];
    RunOfThree(s, a[0], a[1], a[2]);
    var s1 := Run(s, a);
    assert s1.up == [PairComplete(Some(s.phone.stored))];
    PairFromInitiator(s1, t);
    steps := a + [TakeFrame(t, None), InsertSession];
    RunOfConcat(s, a, [TakeFrame(t, None), InsertSession]);
  }
}
