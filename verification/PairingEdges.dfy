/**
 Runs of one attempt at the edges of `PairingAttempt.AttemptPairsIff`: each shows a promise that
 the order of steps can break, or why a hypothesis is there.
 */
module PairingEdges {
  import opened Wrappers
  import opened Protocol
  import opened Sessions
  import opened WsHandler
  import opened Center
  import opened PairingSystem
  import opened PairingProgress
  import opened PairingAttempt
  import PM = PairingMachine
  import PairingCode

  /** The user accepts before the center reads the challenge, and the center reads it too late. */
  function AcceptThenReject(t2: int, t3: int): seq<Step> {
    [Accept(t3, true), TakeFrame(t2, None), InsertSession, SendReply(true)]
  }

  function ConfirmDespiteReject(key: FreshKey, t2: int): seq<Step> {
    [TakeFrame(t2, None), InsertSession, SendReply(true), PhoneReceive(t2, key, true)]
  }

  /** The initiator goes back, and what there is to answer is queued. */
  lemma PutBackAndReply(s: Sys, x: InitiatorView, reply: Option<Body>)
    requires s.busy == MustInsert(InitiatorS(x), reply)
    ensures Next(Next(s, InsertSession), SendReply(true)) ==
      s.(entry := s.entry.(session := Some(InitiatorS(x))), busy := Free, down := Queue(s.down, reply, true))
  {
    var t := Next(s, InsertSession);
    assert t.log == s.log;
    assert reply.None? ==> Next(t, SendReply(true)) == t;
  }

  lemma TakeLateChallenge(s: Sys, kit: Kit, now: int)
    requires s.busy.Free? && Ours(s.entry.session, kit)
    requires s.up != [] && s.up[0].PairChallenge? && s.up[0].challenge.Some? && s.up[0].challenge.value.expiresAt < now
    ensures var t := Next(s, TakeFrame(now, None));
      && t.up == s.up[1..] && t.down == s.down && t.phone == s.phone && t.starting == s.starting
      && t.centerId == s.centerId
      && t.busy.MustInsert? && Ours(Some(t.busy.session), kit) && t.busy.reply.Some? && t.busy.reply.value.PairReject?
  {
  }

  lemma TakeConfirm(s: Sys, kit: Kit, now: int)
    requires s.busy.Free? && Ours(s.entry.session, kit) && s.up != [] && s.up[0] == PairConfirm(Some(true))
    ensures Next(s, TakeFrame(now, None)) ==
      s.(up := s.up[1..], entry := s.entry.(session := None),
         busy := MustInsert(s.entry.session.value, Some(PairComplete(Some(kit.identity)))))
  {
  }

  lemma AcceptThenRejectResult(s: Sys, kit: Kit, key: FreshKey, expiry: int, t2: int, t3: int)
    requires Asked(s, kit, key, expiry) && t3 <= expiry < t2
    ensures var t := Run(s, AcceptThenReject(t2, t3));
      && SameParties(s, t) && t.phone.longTerm == s.phone.longTerm
      && t.phone.state == PM.Confirming(key.code.value, s.centerId)
      && t.up == [PairConfirm(Some(true))] && |t.down| == 1 && t.down[0].PairReject?
      && t.busy.Free? && t.starting == [] && Ours(t.entry.session, kit)
  {
    var steps := AcceptThenReject(t2, t3);
    RunOfFour(s, steps[0], steps[1], steps[2], steps[3]);
    var s1 := Next(s, steps[0]);
    assert s1.up == [s.up[0], PairConfirm(Some(true))] && s1.up[1..] == [PairConfirm(Some(true))];
    TakeLateChallenge(s1, kit, t2);
    var s2 := Next(s1, steps[1]);
    PutBackAndReply(s2, s2.busy.session.initiator, s2.busy.reply);
  }

  lemma ConfirmDespiteRejectResult(s: Sys, kit: Kit, key: FreshKey, t2: int)
    requires s.up == [PairConfirm(Some(true))] && |s.down| == 1 && s.down[0].PairReject?
    requires s.busy.Free? && s.starting == [] && Ours(s.entry.session, kit)
    ensures var t := Run(s, ConfirmDespiteReject(key, t2));
      && SameParties(s, t) && t.phone.longTerm == s.phone.longTerm && t.phone.state.Failed?
      && t.up == [] && t.down == [PairComplete(Some(kit.identity))]
      && t.busy.Free? && t.starting == [] && Ours(t.entry.session, kit)
  {
    var steps := ConfirmDespiteReject(key, t2);
    RunOfFour(s, steps[0], steps[1], steps[2], steps[3]);
    TakeConfirm(s, kit, t2);
    PutBackAndReply(Next(s, steps[0]), s.entry.session.value.initiator, Some(PairComplete(Some(kit.identity))));
    var s3 := Next(Next(Next(s, steps[0]), steps[1]), steps[2]);
    assert s3.down == [s.down[0], PairComplete(Some(kit.identity))] && s3.down[1..] == [s3.down[1]];
  }

  lemma CertificatesDespiteReject(s: Sys, kit: Kit, key: FreshKey, t3: int)
    requires s.up == [] && s.down == [PairComplete(Some(kit.identity))] && s.phone.state.Failed?
    requires s.busy.Free? && s.starting == [] && Ours(s.entry.session, kit)
    requires Parties(s, kit)
    ensures var t := Run(s, CertificateSteps(key, t3)); Quiet(t) && BothPaired(t, kit)
  {
    var steps := CertificateSteps(key, t3);
    RunOfThree(s, steps[0], steps[1], steps[2]);
    var s1 := Next(s, steps[0]);
    assert s1.up == [PairComplete(Some(s.phone.stored))] && s1.down == [];
    UsableCertificatePassesCenter(s.phone.stored, s.phone.deviceId);
  }

  predicate AllLossless(steps: seq<Step>) {
    forall i | 0 <= i < |steps| :: Lossless(steps[i])
  }

  lemma {:induction false} LosslessIsAttempt(steps: seq<Step>, kit: Kit)
    requires AllLossless(steps)
    ensures IsAttempt(steps, kit, false)
    decreases |steps|
  {
    if steps != [] {
      LosslessIsAttempt(steps[1..], kit);
    }
  }

  lemma SendIsAttempt(steps: seq<Step>, kit: Kit)
    requires steps != [] && steps[0] == PairStartSend(kit, true) && AllLossless(steps[1..])
    ensures IsAttempt(steps, kit, true)
  {
    LosslessIsAttempt(steps[1..], kit);
  }

  lemma RejectedRunResult(s: Sys, kit: Kit, key: FreshKey, t1: int, t2: int, t3: int)
    requires Quiet(s) && s.registered && Parties(s, kit)
    requires key.code.Some? && t3 <= t1 + 30_000 < t2
    ensures var t := Run(Run(Run(s, AskSteps(kit, key, t1)), AcceptThenReject(t2, t3)), ConfirmDespiteReject(key, t2));
      && t.phone.state.Failed?
      && Quiet(Run(t, CertificateSteps(key, t3))) && BothPaired(Run(t, CertificateSteps(key, t3)), kit)
  {
    AskResult(s, kit, key, t1);
    var u := Run(s, AskSteps(kit, key, t1));
    AcceptThenRejectResult(u, kit, key, t1 + CODE_LIFETIME_MS, t2, t3);
    var v := Run(u, AcceptThenReject(t2, t3));
    ConfirmDespiteRejectResult(v, kit, key, t2);
    CertificatesDespiteReject(Run(v, ConfirmDespiteReject(key, t2)), kit, key, t3);
  }

  /**
   The center's expiry check does not bind: it rejects the challenge as expired, the phone
   reports failure, and then both sides pair.
   */
  lemma RejectedSessionStillPairs(s: Sys, kit: Kit, key: FreshKey, t1: int, t2: int, t3: int)
    returns (rejected: seq<Step>, rest: seq<Step>)
    requires Quiet(s) && s.registered && s.phone.longTerm == Some(s.phone.stored)
    requires UsableCertificate(kit.identity) && UsableCertificate(s.phone.stored)
    requires key.code.Some? && t3 <= t1 + 30_000 < t2
    ensures IsAttempt(rejected + rest, kit, true)
    ensures Run(s, rejected).phone.state.Failed?
    ensures Quiet(Run(s, rejected + rest)) && BothPaired(Run(s, rejected + rest), kit)
  {
    RejectedRunResult(s, kit, key, t1, t2, t3);
    var a, b, c := AskSteps(kit, key, t1), AcceptThenReject(t2, t3), ConfirmDespiteReject(key, t2);
    rejected, rest := a + b + c, CertificateSteps(key, t3);
    RunOfConcat(s, a, b);
    RunOfConcat(s, a + b, c);
    RunOfConcat(s, rejected, rest);
    RejectedIsAttempt(kit, key, t1, t2, t3);
  }

  lemma RejectedIsAttempt(kit: Kit, key: FreshKey, t1: int, t2: int, t3: int)
    ensures IsAttempt(AskSteps(kit, key, t1) + AcceptThenReject(t2, t3) + ConfirmDespiteReject(key, t2)
                      + CertificateSteps(key, t3), kit, true)
  {
    SendIsAttempt(AskSteps(kit, key, t1) + AcceptThenReject(t2, t3) + ConfirmDespiteReject(key, t2)
                  + CertificateSteps(key, t3), kit);
  }

  function AnswerBeforeInsert(kit: Kit, key: FreshKey, t1: int): seq<Step> {
    [PairStartSend(kit, true), PhoneReceive(t1, key, true), TakeFrame(t1, None)]
  }

  function ConfirmBeforeInsert(t1: int): seq<Step> {
    [Accept(t1, true), TakeFrame(t1, None), PairStartInsert(0)]
  }

  lemma AnswerBeforeInsertResult(s: Sys, kit: Kit, key: FreshKey, t1: int)
    requires Quiet(s) && s.registered && Parties(s, kit)
    requires key.code.Some? && (s.entry.session.Some? ==> !s.entry.session.value.InitiatorS?)
    ensures var t := Run(s, AnswerBeforeInsert(kit, key, t1));
      && t.up == [] && t.down == [] && t.busy.Free? && t.entry == s.entry && SameParties(s, t)
      && t.starting == [StartInitiator(s.phone.deviceId, kit.identity, kit.ephemeral)]
      && t.phone.state == PM.ShowingCode(key.code.value, t1 + CODE_LIFETIME_MS, s.centerId, kit.ephemeral)
  {
    var a := AnswerBeforeInsert(kit, key, t1);
    RunOfThree(s, a[0], a[1], a[2]);
    var s1 := Next(s, a[0]);
    assert s1.down == [PairRequest(Some(WireKey(kit.ephemeral, true)))];
    var s2 := Next(s1, a[1]);
    assert |s2.up| == 1 && s2.up[0].PairChallenge? && s2.down == [];
  }

  lemma ConfirmBeforeInsertResult(s: Sys, kit: Kit, t1: int)
    requires s.up == [] && s.down == [] && s.busy.Free?
    requires s.entry.session.Some? ==> !s.entry.session.value.InitiatorS?
    requires s.starting == [StartInitiator(s.phone.deviceId, kit.identity, kit.ephemeral)]
    requires s.phone.state.ShowingCode? && t1 <= s.phone.state.expiresAtMs
    ensures var t := Run(s, ConfirmBeforeInsert(t1));
      && Quiet(t) && t.phone.state == PM.Confirming(s.phone.state.code, s.phone.state.peerDeviceId)
      && Ours(t.entry.session, kit)
  {
    var b := ConfirmBeforeInsert(t1);
    RunOfThree(s, b[0], b[1], b[2]);
    var s1 := Next(s, b[0]);
    assert s1.up == [PairConfirm(Some(true))];
    var s2 := Next(s1, b[1]);
    assert s2.up == [] && s2.busy.Free? && s2.starting == s.starting;
  }

  /**
   Sending before inserting can lose the race: the phone's whole answer is handled before the
   session is in the map, and nothing pairs although every time is kept.
   */
  lemma LateInsertNeverPairs(s: Sys, kit: Kit, key: FreshKey, t1: int) returns (steps: seq<Step>)
    requires Quiet(s) && s.registered && Parties(s, kit)
    requires key.code.Some? && (s.entry.session.Some? ==> !s.entry.session.value.InitiatorS?)
    ensures IsAttempt(steps, kit, true)
    ensures var t := Run(s, steps);
      Quiet(t) && t.phone.state == PM.Confirming(key.code.value, s.centerId) && Ours(t.entry.session, kit)
  {
    var a, b := AnswerBeforeInsert(kit, key, t1), ConfirmBeforeInsert(t1);
    steps := a + b;
    AnswerBeforeInsertResult(s, kit, key, t1);
    ConfirmBeforeInsertResult(Run(s, a), kit, t1);
    RunOfConcat(s, a, b);
    LateInsertIsAttempt(kit, key, t1);
  }

  lemma LateInsertIsAttempt(kit: Kit, key: FreshKey, t1: int)
    ensures IsAttempt(AnswerBeforeInsert(kit, key, t1) + ConfirmBeforeInsert(t1), kit, true)
  {
    SendIsAttempt(AnswerBeforeInsert(kit, key, t1) + ConfirmBeforeInsert(t1), kit);
  }

  lemma {:induction false} HeldBusyStays(s: Sys, steps: seq<Step>)
    requires s.busy.MustInsert? && forall i | 0 <= i < |steps| :: !steps[i].InsertSession?
    ensures Run(s, steps).busy == s.busy
    decreases |steps|
  {
    if steps != [] {
      assert Next(s, steps[0]).busy == s.busy;
      HeldBusyStays(Next(s, steps[0]), steps[1..]);
    }
  }

  /**
   An insertion while a session is out of the map is always lost: whatever happens until that
   session is put back, no frame meets the inserted one, and then it is gone.
   */
  lemma InsertUnderSessionIsLost(s: Sys, k: nat, between: seq<Step>)
    requires s.busy.MustInsert? && k < |s.starting|
    requires forall i | 0 <= i < |between| :: !between[i].InsertSession?
    ensures var u := Next(s, PairStartInsert(k));
      && Run(u, between).busy == s.busy
      && Next(Run(u, between), InsertSession).entry.session == Some(s.busy.session)
      && forall i | 0 <= i < |between| && (between[i].TakeFrame? || between[i].TakeResponder?) ::
           !Enabled(Run(u, between[..i]), between[i])
  {
    InsertChangesNoBusy(s, k);
    MeetsNoFrame(Next(s, PairStartInsert(k)), between);
  }

  lemma InsertChangesNoBusy(s: Sys, k: nat)
    ensures Next(s, PairStartInsert(k)).busy == s.busy
  {
  }

  lemma MeetsNoFrame(u: Sys, between: seq<Step>)
    requires u.busy.MustInsert? && forall i | 0 <= i < |between| :: !between[i].InsertSession?
    ensures Run(u, between).busy == u.busy
    ensures Next(Run(u, between), InsertSession).entry.session == Some(u.busy.session)
    ensures forall i | 0 <= i < |between| && (between[i].TakeFrame? || between[i].TakeResponder?) ::
      !Enabled(Run(u, between[..i]), between[i])
  {
    HeldBusyStays(u, between);
    SessionComesBack(Run(u, between));
    forall i | 0 <= i < |between| && (between[i].TakeFrame? || between[i].TakeResponder?)
      ensures !Enabled(Run(u, between[..i]), between[i])
    {
      HeldBusyStays(u, between[..i]);
    }
  }

  lemma SessionComesBack(s: Sys)
    requires s.busy.MustInsert?
    ensures Next(s, InsertSession).entry.session == Some(s.busy.session)
  {
  }

  function AcceptOldCode(kit: Kit, t: int): seq<Step> {
    [PairStartSend(kit, true), PairStartInsert(0), Accept(t, true)]
  }

  function ConfirmOldCode(key: FreshKey, t: int): seq<Step> {
    [PhoneReceive(t, key, true), TakeFrame(t, None), InsertSession, SendReply(true)]
  }

  /** The certificate overtakes the phone's new challenge in neither queue, and nobody minds. */
  function CertifyOldCode(key: FreshKey, t: int): seq<Step> {
    [PhoneReceive(t, key, true), TakeFrame(t, None), InsertSession, TakeFrame(t, None)]
  }

  lemma AcceptOldCodeResult(s: Sys, kit: Kit, t: int)
    requires Quiet(s) && s.registered && Parties(s, kit)
    requires s.phone.state.ShowingCode? && t <= s.phone.state.expiresAtMs
    ensures var u := Run(s, AcceptOldCode(kit, t));
      && SameParties(s, u) && Parties(u, kit) && Ours(u.entry.session, kit) && u.busy.Free? && u.starting == []
      && u.up == [PairConfirm(Some(true))] && u.down == [PairRequest(Some(WireKey(kit.ephemeral, true)))]
    ensures Run(s, AcceptOldCode(kit, t)[..2]).phone == s.phone
  {
    var a := AcceptOldCode(kit, t);
    RunOfThree(s, a[0], a[1], a[2]);
    RunOfTwo(s, a[0], a[1]);
    assert a[..2] == [a[0], a[1]];
    var s1 := Next(s, a[0]);
    assert s1.starting == [StartInitiator(s.phone.deviceId, kit.identity, kit.ephemeral)];
  }

  /** The phone shows its new code, and the center answers the old one's confirmation. */
  lemma ConfirmOldCodeResult(s: Sys, kit: Kit, key: FreshKey, t: int)
    requires Parties(s, kit) && Ours(s.entry.session, kit) && s.busy.Free? && s.starting == [] && key.code.Some?
    requires s.up == [PairConfirm(Some(true))] && s.down == [PairRequest(Some(WireKey(kit.ephemeral, true)))]
    ensures var u := Run(s, ConfirmOldCode(key, t));
      && SameParties(s, u) && Parties(u, kit) && Ours(u.entry.session, kit) && u.busy.Free? && u.starting == []
      && u.up == [PairChallenge(Some(Challenge(WireKey(key.pub, true), key.code.value, t + CODE_LIFETIME_MS)))]
      && u.down == [PairComplete(Some(kit.identity))]
      && u.phone.state.ShowingCode? && u.phone.state.peerDeviceId == u.centerId
  {
    var b := ConfirmOldCode(key, t);
    RunOfFour(s, b[0], b[1], b[2], b[3]);
    var s1 := Next(s, b[0]);
    var challenge := PairChallenge(Some(Challenge(WireKey(key.pub, true), key.code.value, t + CODE_LIFETIME_MS)));
    assert s1.up == [PairConfirm(Some(true)), challenge] && s1.down == [];
    var s2 := Next(s1, b[1]);
    assert s2.up == [challenge] && s2.busy.MustInsert? && s2.busy.reply == Some(PairComplete(Some(kit.identity)));
  }

  lemma TakeTimelyChallenge(s: Sys, kit: Kit, now: int)
    requires s.busy.Free? && Ours(s.entry.session, kit)
    requires s.up != [] && s.up[0].PairChallenge? && s.up[0].challenge.Some?
    requires var ch := s.up[0].challenge.value;
      PairingCode.IsPairingCode(ch.code) && now <= ch.expiresAt && ch.ephemeral.decodes
    ensures var t := Next(s, TakeFrame(now, None));
      && t.busy.MustInsert? && Ours(Some(t.busy.session), kit) && t.busy.reply.None?
      && t == s.(up := s.up[1..], entry := s.entry.(session := None), busy := t.busy)
  {
  }

  lemma TakeCertificate(s: Sys, kit: Kit, now: int)
    requires s.busy.Free? && Ours(s.entry.session, kit) && UsableCertificate(s.phone.stored)
    requires s.up == [PairComplete(Some(s.phone.stored))]
    ensures var t := Next(Next(s, TakeFrame(now, None)), InsertSession);
      && t.up == [] && t.down == s.down && t.busy.Free? && t.starting == s.starting && t.phone == s.phone
      && t.centerId == s.centerId && t.entry.session == Some(PairedS(s.phone.stored.fingerprint))
  {
    UsableCertificatePassesCenter(s.phone.stored, s.phone.deviceId);
    var t := Next(s, TakeFrame(now, None));
    assert t.busy == MustInsert(PairedS(s.phone.stored.fingerprint), None);
  }

  lemma CertifyOldCodeResult(s: Sys, kit: Kit, key: FreshKey, t: int)
    requires Parties(s, kit) && Ours(s.entry.session, kit) && s.busy.Free? && s.starting == []
    requires key.code.Some? && PairingCode.IsPairingCode(key.code.value)
    requires s.up == [PairChallenge(Some(Challenge(WireKey(key.pub, true), key.code.value, t + CODE_LIFETIME_MS)))]
    requires s.down == [PairComplete(Some(kit.identity))]
    requires s.phone.state.ShowingCode? && s.phone.state.peerDeviceId == s.centerId
    ensures var u := Next(Run(s, CertifyOldCode(key, t)), InsertSession); Quiet(u) && BothPaired(u, kit)
  {
    var c := CertifyOldCode(key, t);
    RunOfFour(s, c[0], c[1], c[2], c[3]);
    var s1 := Next(s, c[0]);
    assert s1.up == [s.up[0], PairComplete(Some(s.phone.stored))] && s1.down == [];
    assert s1.up[1..] == [PairComplete(Some(s.phone.stored))];
    TakeTimelyChallenge(s1, kit, t);
    var s2 := Next(s1, c[1]);
    PutBackAndReply(s2, s2.busy.session.initiator, None);
    var s3 := Next(s2, c[2]);
    assert s3.entry.session == Some(s2.busy.session) && s3.busy.Free? && s3.phone == s1.phone && s3.up == s2.up;
    TakeCertificate(s3, kit, t);
  }

  /**
   Why the theorem asks for a phone that shows no code. From any quiet state whose phone shows an
   unexpired code, with an ordinary key and everything in time: the user accepts only that older
   code, and both sides are paired through the newer session, whose code nobody accepted.
   */
  lemma OldCodePairsNewSession(s: Sys, kit: Kit, key: FreshKey, t: int) returns (steps: seq<Step>)
    requires Quiet(s) && s.registered && Parties(s, kit)
    requires s.phone.state.ShowingCode? && t <= s.phone.state.expiresAtMs
    requires key.code.Some? && PairingCode.IsPairingCode(key.code.value)
    ensures IsAttempt(steps, kit, true)
    ensures |steps| > 2 && Run(s, steps[..2]).phone == s.phone
    ensures forall i | 0 <= i < |steps| :: steps[i].Accept? <==> i == 2
    ensures Quiet(Run(s, steps)) && BothPaired(Run(s, steps), kit)
  {
    var a, b, c := AcceptOldCode(kit, t), ConfirmOldCode(key, t), CertifyOldCode(key, t);
    steps := a + b + c + [InsertSession];
    AcceptOldCodeResult(s, kit, t);
    ConfirmOldCodeResult(Run(s, a), kit, key, t);
    CertifyOldCodeResult(Run(Run(s, a), b), kit, key, t);
    OldCodeRun(s, a, b, c);
    OldCodeIsAttempt(kit, key, t);
    assert steps[..2] == a[..2];
  }

  lemma OldCodeIsAttempt(kit: Kit, key: FreshKey, t: int)
    ensures var steps := AcceptOldCode(kit, t) + ConfirmOldCode(key, t) + CertifyOldCode(key, t) + [InsertSession];
      IsAttempt(steps, kit, true) && forall i | 0 <= i < |steps| :: steps[i].Accept? <==> i == 2
  {
    SendIsAttempt(AcceptOldCode(kit, t) + ConfirmOldCode(key, t) + CertifyOldCode(key, t) + [InsertSession], kit);
  }

  lemma OldCodeRun(s: Sys, a: seq<Step>, b: seq<Step>, c: seq<Step>)
    ensures Run(s, a + b + c + [InsertSession]) == Next(Run(Run(Run(s, a), b), c), InsertSession)
  {
    RunOfConcat(s, a, b);
    RunOfConcat(s, a + b, c);
    RunOfConcat(s, a + b + c, [InsertSession]);
    var t := Run(Run(Run(s, a), b), c);
    assert [InsertSession][1..] == [] && Run(t, [InsertSession]) == Next(t, InsertSession);
  }
}
