/**
 What one `pair_start` leaves in the center's map: whether its initiator is still there when
 nothing is in flight any more. A refusal by the phone's user takes it out, if it is in place
 when the center hears of the refusal.
 */
module PairingRefusal {
  import opened Wrappers
  import opened Protocol
  import opened Sessions
  import opened WsHandler
  import opened Center
  import opened PairingSystem
  import opened PairingProgress
  import opened PairingAttempt
  import PM = PairingMachine

  const NO := PairConfirm(Some(false))

  // ---------------------------------------------------------------------------
  // Where the session is
  // ---------------------------------------------------------------------------

  predicate InPlace(s: Sys, w: Watch, kit: Kit) {
    if w.inserted then s.starting == [] && Ours(Holder(s), kit)
    else s.starting == [StartInitiator(s.phone.deviceId, kit.identity, kit.ephemeral)] && Older(Holder(s), kit)
  }

  /** Before the insertion the center holds at most an older initiator, and so it does after a lost one. */
  predicate Tracked(s: Sys, w: Watch, kit: Kit) {
    && (s.starting == if w.inserted then []
                      else [StartInitiator(s.phone.deviceId, kit.identity, kit.ephemeral)])
    && (!w.inserted || w.overwritten ==> Older(Holder(s), kit))
    && (w.overwritten ==> w.inserted)
  }

  predicate ChallengeAtMost(s: Sys) {
    s.up == [] || (|s.up| == 1 && Challenging(s))
  }

  /** No decision yet, and none to come: the phone failed, or its code expired. */
  predicate Ignored(s: Sys, w: Watch, kit: Kit) {
    !w.refused && !w.late && InPlace(s, w, kit) && ChallengeAtMost(s)
  }

  /** The refusal is under way. */
  predicate Refusing(s: Sys, w: Watch, kit: Kit) {
    && w.refused && !w.late && InPlace(s, w, kit)
    && (s.up == [NO] || (|s.up| == 2 && Challenging(s) && s.up[1] == NO))
  }

  /** The refusal found the session and took it out. */
  predicate Dropped(s: Sys, w: Watch, kit: Kit) {
    w.refused && !w.late && s.up == [] && w.inserted && s.starting == [] && Older(Holder(s), kit)
  }

  /** The refusal came before the session. */
  predicate Missed(s: Sys, w: Watch, kit: Kit) {
    w.refused && w.late && s.up == [] && InPlace(s, w, kit)
  }

  predicate NotAgreed(s: Sys, w: Watch, kit: Kit) {
    || (Requested(s, w, kit) && !w.refused)
    || (PairingAttempt.Showing(s, w, kit) && !w.refused)
    || (s.phone.state.Failed? && Judging(s)
        && (Ignored(s, w, kit) || Refusing(s, w, kit) || Dropped(s, w, kit) || Missed(s, w, kit)))
  }

  /** The fate of the attempt's session, as long as the user has not agreed. */
  predicate Fated(s: Sys, w: Watch, kit: Kit) {
    && Parties(s, kit) && Tracked(s, w, kit)
    && (!w.inTime && !w.overwritten ==> NotAgreed(s, w, kit))
  }

  // ---------------------------------------------------------------------------
  // Every step
  // ---------------------------------------------------------------------------

  lemma StaysTracked(s: Sys, w: Watch, kit: Kit, step: Step)
    requires Parties(s, kit) && Tracked(s, w, kit) && Proper(step)
    ensures Tracked(Next(s, step), Note(w, s, step), kit)
  {
    if step.TakeFrame? {
      TakingStaysTracked(s, w, kit, step);
    } else {
      OtherStaysTracked(s, w, kit, step);
    }
  }

  lemma TakingStaysTracked(s: Sys, w: Watch, kit: Kit, step: Step)
    requires Tracked(s, w, kit) && step.TakeFrame?
    ensures Tracked(Next(s, step), Note(w, s, step), kit)
  {
  }

  lemma OtherStaysTracked(s: Sys, w: Watch, kit: Kit, step: Step)
    requires Tracked(s, w, kit) && Proper(step) && !step.TakeFrame?
    ensures Tracked(Next(s, step), Note(w, s, step), kit)
  {
  }

  lemma PartiesStay(s: Sys, kit: Kit, step: Step)
    requires Parties(s, kit) && Proper(step)
    ensures Parties(Next(s, step), kit)
  {
  }

  lemma FromRequestedUnagreed(s: Sys, w: Watch, kit: Kit, step: Step)
    requires Parties(s, kit) && Requested(s, w, kit) && !w.refused && Proper(step)
    ensures var t, v := Next(s, step), Note(w, s, step); v.inTime || v.overwritten || NotAgreed(t, v, kit)
  {
  }

  lemma DecidedWhileShowing(s: Sys, w: Watch, kit: Kit, step: Step)
    requires Parties(s, kit) && PairingAttempt.Showing(s, w, kit) && !w.refused && Proper(step)
    requires step.Accept? || step.Refuse? || step.PhoneReceive?
    ensures var t, v := Next(s, step), Note(w, s, step); v.inTime || v.overwritten || NotAgreed(t, v, kit)
  {
  }

  lemma CenterWhileShowing(s: Sys, w: Watch, kit: Kit, step: Step)
    requires Parties(s, kit) && PairingAttempt.Showing(s, w, kit) && !w.refused && Proper(step)
    requires !step.Accept? && !step.Refuse? && !step.PhoneReceive?
    ensures var t, v := Next(s, step), Note(w, s, step); v.inTime || v.overwritten || NotAgreed(t, v, kit)
  {
  }

  lemma FromIgnored(s: Sys, w: Watch, kit: Kit, step: Step)
    requires s.phone.state.Failed? && Judging(s) && Ignored(s, w, kit) && !w.inTime && !w.overwritten && Proper(step)
    ensures var t, v := Next(s, step), Note(w, s, step); v.overwritten || NotAgreed(t, v, kit)
  {
  }

  lemma RefusalIsTaken(s: Sys, w: Watch, kit: Kit, step: Step)
    requires s.phone.state.Failed? && Judging(s) && Refusing(s, w, kit) && !w.inTime && !w.overwritten
    requires step.TakeFrame? && Enabled(s, step)
    ensures NotAgreed(Next(s, step), Note(w, s, step), kit)
  {
    if |s.up| == 2 {
      assert s.up[1..] == [NO];
    } else {
      assert s.up[1..] == [];
    }
  }

  lemma FromRefusing(s: Sys, w: Watch, kit: Kit, step: Step)
    requires s.phone.state.Failed? && Judging(s) && Refusing(s, w, kit) && !w.inTime && !w.overwritten && Proper(step)
    ensures var t, v := Next(s, step), Note(w, s, step); v.overwritten || NotAgreed(t, v, kit)
  {
    if step.TakeFrame? && Enabled(s, step) {
      RefusalIsTaken(s, w, kit, step);
    }
  }

  lemma FromSettled(s: Sys, w: Watch, kit: Kit, step: Step)
    requires s.phone.state.Failed? && Judging(s) && (Dropped(s, w, kit) || Missed(s, w, kit))
    requires !w.inTime && !w.overwritten && Proper(step)
    ensures var t, v := Next(s, step), Note(w, s, step); v.overwritten || NotAgreed(t, v, kit)
  {
  }

  lemma ProperKeepsFated(s: Sys, w: Watch, kit: Kit, step: Step)
    requires Fated(s, w, kit) && Proper(step)
    ensures Fated(Next(s, step), Note(w, s, step), kit)
  {
    PartiesStay(s, kit, step);
    StaysTracked(s, w, kit, step);
    if !w.inTime && !w.overwritten {
      if Requested(s, w, kit) && !w.refused {
        FromRequestedUnagreed(s, w, kit, step);
      } else if PairingAttempt.Showing(s, w, kit) && !w.refused {
        if step.Accept? || step.Refuse? || step.PhoneReceive? {
          DecidedWhileShowing(s, w, kit, step);
        } else {
          CenterWhileShowing(s, w, kit, step);
        }
      } else if Ignored(s, w, kit) {
        FromIgnored(s, w, kit, step);
      } else if Refusing(s, w, kit) {
        FromRefusing(s, w, kit, step);
      } else {
        FromSettled(s, w, kit, step);
      }
    }
  }

  lemma GreetingKeepsFated(s: Sys, w: Watch, kit: Kit, minted: Option<Certificate>)
    requires Fated(s, w, kit) && s.busy.Free?
    ensures Fated(Greeted(s, minted), w, kit)
  {
    var t := Greeted(s, minted);
    assert Holder(t) == Holder(s) || (Holder(s).None? && Holder(t).value.ResponderS?);
  }

  lemma LosslessKeepsFated(s: Sys, w: Watch, kit: Kit, step: Step)
    requires Fated(Core(s), w, kit) && Lossless(step) && PlainReply(s.busy)
    ensures Fated(Core(Next(s, step)), Note(w, s, step), kit)
  {
    StepFollows(s, w, step);
    var c, d := Core(s), Core(Next(s, step));
    if d == c && Note(w, s, step) == w {
    } else if d == Next(c, step) && Note(w, s, step) == Note(w, c, step) && Proper(step) {
      ProperKeepsFated(c, w, kit, step);
    } else {
      GreetingKeepsFated(c, w, kit, step.minted);
    }
  }

  lemma SendingIsFated(s: Sys, w: Watch, kit: Kit)
    requires OnTheWay(Core(s), w, kit, true)
    ensures Fated(Core(Next(s, PairStartSend(kit, true))), Note(w, s, PairStartSend(kit, true)), kit)
  {
    var c := Core(s);
    Sending(c, w, kit);
    ErasedAppend(s.down, PairRequest(Some(WireKey(kit.ephemeral, true))));
    assert Core(Next(s, PairStartSend(kit, true))) == Next(c, PairStartSend(kit, true));
  }

  lemma {:induction false} AttemptIsFated(s: Sys, w: Watch, kit: Kit, steps: seq<Step>, toCome: bool)
    requires OnTheWay(Core(s), w, kit, toCome) && IsAttempt(steps, kit, toCome)
    requires toCome || Fated(Core(s), w, kit)
    ensures Fated(Core(Run(s, steps)), NoteAll(w, s, steps), kit)
    decreases |steps|
  {
    if steps != [] {
      var step := steps[0];
      if step == PairStartSend(kit, true) {
        SendKeepsOnTheWay(s, w, kit);
        SendingIsFated(s, w, kit);
        AttemptIsFated(Next(s, step), Note(w, s, step), kit, steps[1..], false);
      } else {
        LosslessKeepsOnTheWay(s, w, kit, step, toCome);
        if !toCome {
          LosslessKeepsFated(s, w, kit, step);
        }
        AttemptIsFated(Next(s, step), Note(w, s, step), kit, steps[1..], toCome);
      }
    }
  }

  // ---------------------------------------------------------------------------
  // Theorem
  // ---------------------------------------------------------------------------

  /**
   One `pair_start`, as in `AttemptPairsIff`, once nothing is left in flight. Unless the user
   accepted in time, its initiator is still in the map if and only if it was inserted under no
   other session, and the user did not refuse or the center heard of the refusal before the
   insertion. So a refusal that finds the session in place takes it out, and the phone has
   failed; a code that nobody decides on leaves the session in the map. Where both sides pair,
   it is gone as well.
   */
  lemma AttemptLeavesSessionIff(s: Sys, kit: Kit, steps: seq<Step>)
    requires Quiet(s) && s.registered && !s.phone.state.ShowingCode?
    requires s.phone.longTerm == Some(s.phone.stored)
    requires UsableCertificate(kit.identity) && UsableCertificate(s.phone.stored)
    requires Older(s.entry.session, kit) && IsAttempt(steps, kit, true)
    ensures var t, w := Run(s, steps), NoteAll(NOTHING, s, steps);
      Quiet(t) ==>
        && (!w.inTime ==> (Ours(t.entry.session, kit) <==> !w.overwritten && (!w.refused || w.late)))
        && (!w.inTime && !w.overwritten && w.refused ==> t.phone.state.Failed?)
        && (w.overwritten || w.Good() ==> !Ours(t.entry.session, kit))
  {
    assert Core(s) == s;
    AttemptIsFated(s, NOTHING, kit, steps, true);
    AttemptPairsIff(s, kit, steps);
    var t, w := Run(s, steps), NoteAll(NOTHING, s, steps);
    if Quiet(t) {
      assert Core(t) == t;
      assert Holder(t) == t.entry.session;
    }
  }
}
