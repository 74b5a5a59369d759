/**
 Where each pairing comes from. Every certificate in flight carries a tag that the machines do
 not see: which of the phone's certificates it is, which of the center's it answers, and
 whether another session has taken the place since. The tags decide, for every pairing of every
 run, whether the phone paired for it and whether it spends the session it answers.
 */
module PairingOrigins {
  import opened Wrappers
  import opened Protocol
  import opened Sessions
  import opened WsHandler
  import opened Center
  import opened PairingSystem
  import opened PairingSafety
  import opened PairingProgress
  import PM = PairingMachine
  import Fingerprint

  // ---------------------------------------------------------------------------
  // Tags
  // ---------------------------------------------------------------------------

  /**
   `serial` counts the phone's certificates; `answers` is the fingerprint of the center's
   certificate it replies to, `None` for one sent on the console's word; `crossed` says that a
   `pair_start` has put another session in place since the center's certificate was ready.
   */
  datatype Tag = Tag(serial: nat, answers: Option<string>, crossed: bool)

  const PLAIN := Tag(0, None, false)

  /** A certificate the center took, and the fingerprint of the initiator it spent on it. */
  datatype Pairing = Pairing(tag: Tag, consumed: string)

  /**
   `up`, `down` and `busy` tag the messages of `sys`. `paired` lists the phone's certificates
   that it sent on becoming paired, with the fingerprint it then stored; `onWord` those it sent
   on the console's acceptance.
   */
  datatype Traced = Traced(
    sys: Sys, up: seq<Tag>, down: seq<Tag>, busy: Tag,
    sent: nat, paired: map<nat, string>, onWord: set<nat>, pairings: seq<Pairing>)

  predicate Parallel(t: Traced) {
    |t.up| == |t.sys.up| && |t.down| == |t.sys.down|
  }

  /**
   An insertion takes the place of whatever the map holds, unless a session is out of the map:
   then that one comes back over the insertion.
   */
  predicate Crosses(s: Sys, step: Step) {
    step.PairStartInsert? && Enabled(s, step) && !s.busy.MustInsert?
  }

  function After(s: Sys, step: Step, tag: Tag): Tag {
    if Crosses(s, step) then tag.(crossed := true) else tag
  }

  function AllAfter(s: Sys, step: Step, tags: seq<Tag>): (r: seq<Tag>)
    ensures |r| == |tags| && forall i | 0 <= i < |r| :: r[i] == After(s, step, tags[i])
  {
    seq(|tags|, i requires 0 <= i < |tags| => After(s, step, tags[i]))
  }

  function Padded(tags: seq<Tag>, n: nat, tag: Tag): seq<Tag> {
    if n > |tags| then tags + [tag] else tags
  }

  function ReceiveTrace(t: Traced, step: Step): (t': Traced)
    requires Parallel(t) && step.PhoneReceive? && Enabled(t.sys, step)
    ensures Parallel(t') && t'.sys == Next(t.sys, step)
  {
    var body := t.sys.down[0];
    var (p, out) := PM.PhoneNext(t.sys.phone, PM.Receive(Envelope(t.sys.centerId, body), step.now, step.key));
    var next := Next(t.sys, step);
    if out.None? || !out.value.body.PairComplete?
    then t.(sys := next, down := t.down[1..], up := Padded(t.up, |next.up|, PLAIN))
    else
      var tag := if body.PairComplete? then t.down[0].(serial := t.sent) else Tag(t.sent, None, false);
      t.(sys := next, down := t.down[1..], up := Padded(t.up, |next.up|, tag), sent := t.sent + 1,
         paired := if p.state.Paired? then t.paired[t.sent := p.state.peerFingerprint] else t.paired,
         onWord := if body.PairConfirm? then t.onWord + {t.sent} else t.onWord)
  }

  function TakeTrace(t: Traced, step: Step): (t': Traced)
    requires Parallel(t) && step.TakeFrame? && Enabled(t.sys, step)
    ensures Parallel(t') && t'.sys == Next(t.sys, step)
  {
    var body, held, next := t.sys.up[0], t.sys.entry.session, Next(t.sys, step);
    var t' := t.(sys := next, up := t.up[1..]);
    if !IsInitiator(held) then t'
    else
      var fp := held.value.initiator.identity.fingerprint;
      if body == PairConfirm(Some(true)) then t'.(busy := Tag(0, Some(fp), false))
      else if body.PairComplete? && next.busy.MustInsert? then t'.(pairings := t.pairings + [Pairing(t.up[0], fp)])
      else t'
  }

  /** Steps that only append messages without a certificate, or touch no queue. */
  predicate Appends(step: Step) {
    && !step.PhoneReceive? && !step.TakeFrame? && !step.SendReply? && !step.PairStartInsert?
    && !step.LoseUp? && !step.LoseDown?
  }

  function AppendTrace(t: Traced, step: Step): (t': Traced)
    requires Parallel(t) && Appends(step) && Enabled(t.sys, step)
    ensures Parallel(t') && t'.sys == Next(t.sys, step)
  {
    var next := Next(t.sys, step);
    t.(sys := next, up := Padded(t.up, |next.up|, PLAIN), down := Padded(t.down, |next.down|, PLAIN))
  }

  function Trace(t: Traced, step: Step): (t': Traced)
    requires Parallel(t)
    ensures Parallel(t') && t'.sys == Next(t.sys, step)
  {
    if !Enabled(t.sys, step) then t
    else
      var next := Next(t.sys, step);
      match step
      case PhoneReceive(_, _, _) => ReceiveTrace(t, step)
      case TakeFrame(_, _) => TakeTrace(t, step)
      case SendReply(_) => t.(sys := next, down := Padded(t.down, |next.down|, t.busy))
      case LoseUp(k) => t.(sys := next, up := RemoveAt(t.up, k))
      case LoseDown(k) => t.(sys := next, down := RemoveAt(t.down, k))
      case PairStartInsert(_) =>
        t.(sys := next, up := AllAfter(t.sys, step, t.up), down := AllAfter(t.sys, step, t.down),
           busy := After(t.sys, step, t.busy))
      case _ => AppendTrace(t, step)
  }

  function TraceAll(t: Traced, steps: seq<Step>): (t': Traced)
    requires Parallel(t)
    ensures Parallel(t')
    decreases |steps|
  {
    if steps == [] then t else TraceAll(Trace(t, steps[0]), steps[1..])
  }

  function StartTraced(centerId: Uuid, deviceId: Uuid, stored: Certificate): (t: Traced)
    ensures Parallel(t)
  {
    Traced(Start(centerId, deviceId, stored), [], [], PLAIN, 0, map[], {}, [])
  }

  /** Tagging changes nothing. */
  lemma {:induction false} TracingIsRunning(t: Traced, steps: seq<Step>)
    requires Parallel(t)
    ensures TraceAll(t, steps).sys == Run(t.sys, steps)
    decreases |steps|
  {
    if steps != [] {
      TracingIsRunning(Trace(t, steps[0]), steps[1..]);
    }
  }

  /** Every identity that a `pair_start` makes has a fingerprint not seen before. */
  predicate MintsNew(s: Sys, steps: seq<Step>)
    decreases |steps|
  {
    steps == [] || (NewKit(s, steps[0]) && MintsNew(Next(s, steps[0]), steps[1..]))
  }

  predicate NewKit(s: Sys, step: Step) {
    step.PairStartSend? ==> step.kit.identity.fingerprint !in s.log.issued
  }

  // ---------------------------------------------------------------------------
  // Tags and places
  // ---------------------------------------------------------------------------

  /** The fingerprint of the initiator that the next frame will find, if any. */
  function HeldFp(s: Sys): Option<string> {
    var x := Holder(s);
    if IsInitiator(x) then Some(x.value.initiator.identity.fingerprint) else None
  }

  predicate NotStarting(s: Sys, fp: string) {
    forall i | 0 <= i < |s.starting| :: s.starting[i].identity.fingerprint != fp
  }

  /** One place per fingerprint. */
  ghost predicate Distinct(s: Sys) {
    && (forall i, j | 0 <= i < j < |s.starting| ::
          s.starting[i].identity.fingerprint != s.starting[j].identity.fingerprint)
    && (forall i | 0 <= i < |s.starting| :: s.starting[i].identity.fingerprint in s.log.issued)
    && (HeldFp(s).Some? ==> NotStarting(s, HeldFp(s).value) && HeldFp(s).value in s.log.issued)
  }

  /**
   A certificate that answers a session not crossed can only meet that session; one that is
   crossed can never meet it again.
   */
  predicate Fits(s: Sys, tag: Tag) {
    tag.answers.Some? ==>
      && tag.answers.value in s.log.issued && NotStarting(s, tag.answers.value)
      && (if tag.crossed then HeldFp(s) != tag.answers else HeldFp(s).Some? ==> HeldFp(s) == tag.answers)
  }

  lemma InsertFits(s: Sys, step: Step, tag: Tag)
    requires Distinct(s) && Fits(s, tag) && step.PairStartInsert? && Enabled(s, step)
    ensures Distinct(Next(s, step)) && Fits(Next(s, step), After(s, step, tag))
  {
    var t := Next(s, step);
    forall i | 0 <= i < |t.starting|
      ensures t.starting[i] == s.starting[if i < step.k then i else i + 1]
    {
    }
    assert HeldFp(t) == if s.busy.MustInsert? then HeldFp(s) else Some(s.starting[step.k].identity.fingerprint);
  }

  lemma SendFits(s: Sys, step: Step, tag: Tag)
    requires Distinct(s) && Fits(s, tag) && NewKit(s, step) && step.PairStartSend? && Enabled(s, step)
    ensures Distinct(Next(s, step)) && Fits(Next(s, step), tag)
  {
    assert HeldFp(Next(s, step)) == HeldFp(s);
  }

  /** All other steps leave the held initiator in place or drop it. */
  lemma OtherFits(s: Sys, step: Step, tag: Tag)
    requires Distinct(s) && Fits(s, tag) && Enabled(s, step) && !step.PairStartInsert? && !step.PairStartSend?
    ensures Distinct(Next(s, step)) && Fits(Next(s, step), tag)
  {
    if step.TakeFrame? {
      TakingHolds(s, step);
    } else {
      OtherHolds(s, step);
    }
  }

  lemma TakingHolds(s: Sys, step: Step)
    requires Enabled(s, step) && step.TakeFrame?
    ensures var t := Next(s, step);
      t.starting == s.starting && t.log.issued == s.log.issued && (HeldFp(t) == HeldFp(s) || HeldFp(t) == None)
  {
  }

  lemma OtherHolds(s: Sys, step: Step)
    requires Enabled(s, step) && !step.PairStartInsert? && !step.PairStartSend? && !step.TakeFrame?
    ensures var t := Next(s, step);
      t.starting == s.starting && t.log.issued == s.log.issued && (HeldFp(t) == HeldFp(s) || HeldFp(t) == None)
  {
  }

  lemma FitsNext(s: Sys, step: Step, tag: Tag)
    requires Distinct(s) && NewKit(s, step)
    ensures Fits(s, tag) ==> Fits(Next(s, step), After(s, step, tag))
  {
    if Enabled(s, step) && Fits(s, tag) {
      if step.PairStartInsert? {
        InsertFits(s, step, tag);
      } else if step.PairStartSend? {
        SendFits(s, step, tag);
      } else {
        OtherFits(s, step, tag);
      }
    }
  }

  // ---------------------------------------------------------------------------
  // Every certificate in flight fits
  // ---------------------------------------------------------------------------

  /** The tag names the center's own certificate. */
  predicate Names(b: Body, tag: Tag) {
    b.PairComplete? ==> b.complete.Some? && tag.answers == Some(b.complete.value.fingerprint)
  }

  predicate UpFits(t: Traced, i: nat)
    requires Parallel(t) && i < |t.up|
  {
    t.sys.up[i].PairComplete? ==> Fits(t.sys, t.up[i])
  }

  predicate DownFits(t: Traced, i: nat)
    requires Parallel(t) && i < |t.down|
  {
    Names(t.sys.down[i], t.down[i]) && (t.sys.down[i].PairComplete? ==> Fits(t.sys, t.down[i]))
  }

  predicate Ready(t: Traced, b: Body) {
    Names(b, t.busy) && (b.PairComplete? ==> Fits(t.sys, t.busy))
  }

  predicate BusyFits(t: Traced) {
    && (t.sys.busy.MustInsert? && t.sys.busy.reply.Some? ==> Ready(t, t.sys.busy.reply.value))
    && (t.sys.busy.MustReply? ==> Ready(t, t.sys.busy.reply'))
  }

  ghost predicate AllFit(t: Traced) {
    && Parallel(t) && Distinct(t.sys) && BusyFits(t)
    && (forall i | 0 <= i < |t.up| :: UpFits(t, i))
    && (forall i | 0 <= i < |t.down| :: DownFits(t, i))
  }

  lemma DistinctNext(s: Sys, step: Step)
    requires Distinct(s) && NewKit(s, step)
    ensures Distinct(Next(s, step))
  {
    if Enabled(s, step) {
      if step.PairStartInsert? {
        InsertFits(s, step, PLAIN);
      } else if step.PairStartSend? {
        SendFits(s, step, PLAIN);
      } else {
        OtherFits(s, step, PLAIN);
      }
    }
  }

  lemma ReceiveFits(t: Traced, step: Step)
    requires AllFit(t) && step.PhoneReceive? && Enabled(t.sys, step)
    ensures AllFit(Trace(t, step))
  {
    var t' := Trace(t, step);
    DistinctNext(t.sys, step);
    assert DownFits(t, 0);
    forall i | 0 <= i < |t'.up|
      ensures UpFits(t', i)
    {
      if i < |t.up| {
        assert UpFits(t, i);
        FitsNext(t.sys, step, t.up[i]);
      } else {
        FitsNext(t.sys, step, t.down[0]);
      }
    }
    forall i | 0 <= i < |t'.down|
      ensures DownFits(t', i)
    {
      assert DownFits(t, i + 1);
      FitsNext(t.sys, step, t.down[i + 1]);
    }
    FitsNext(t.sys, step, t.busy);
  }

  lemma TakeFits(t: Traced, step: Step)
    requires AllFit(t) && step.TakeFrame? && Enabled(t.sys, step)
    ensures AllFit(Trace(t, step))
  {
    var t' := Trace(t, step);
    DistinctNext(t.sys, step);
    forall i | 0 <= i < |t'.up|
      ensures UpFits(t', i)
    {
      TakeUpFits(t, step, i);
    }
    forall i | 0 <= i < |t'.down|
      ensures DownFits(t', i)
    {
      TakeDownFits(t, step, i);
    }
    TakeBusyFits(t, step);
  }

  lemma TakeUpFits(t: Traced, step: Step, i: nat)
    requires AllFit(t) && step.TakeFrame? && Enabled(t.sys, step) && i < |Trace(t, step).up|
    ensures UpFits(Trace(t, step), i)
  {
    assert UpFits(t, i + 1);
    FitsNext(t.sys, step, t.up[i + 1]);
  }

  lemma TakeDownFits(t: Traced, step: Step, i: nat)
    requires AllFit(t) && step.TakeFrame? && Enabled(t.sys, step) && i < |Trace(t, step).down|
    ensures DownFits(Trace(t, step), i)
  {
    assert DownFits(t, i);
    FitsNext(t.sys, step, t.down[i]);
  }

  lemma TakeBusyFits(t: Traced, step: Step)
    requires AllFit(t) && step.TakeFrame? && Enabled(t.sys, step)
    ensures BusyFits(Trace(t, step))
  {
    if IsInitiator(t.sys.entry.session) {
      FitsNext(t.sys, step, Tag(0, HeldFp(t.sys), false));
    }
  }

  lemma ReplyFits(t: Traced, step: Step)
    requires AllFit(t) && step.SendReply? && Enabled(t.sys, step)
    ensures AllFit(Trace(t, step))
  {
    var t' := Trace(t, step);
    DistinctNext(t.sys, step);
    FitsNext(t.sys, step, t.busy);
    forall i | 0 <= i < |t'.up|
      ensures UpFits(t', i)
    {
      assert UpFits(t, i);
      FitsNext(t.sys, step, t.up[i]);
    }
    forall i | 0 <= i < |t'.down|
      ensures DownFits(t', i)
    {
      if i < |t.down| {
        assert DownFits(t, i);
        FitsNext(t.sys, step, t.down[i]);
      }
    }
  }

  lemma InsertStepFits(t: Traced, step: Step)
    requires AllFit(t) && step.PairStartInsert? && Enabled(t.sys, step)
    ensures AllFit(Trace(t, step))
  {
    var t' := Trace(t, step);
    DistinctNext(t.sys, step);
    FitsNext(t.sys, step, t.busy);
    forall i | 0 <= i < |t'.up|
      ensures UpFits(t', i)
    {
      assert UpFits(t, i);
      FitsNext(t.sys, step, t.up[i]);
    }
    forall i | 0 <= i < |t'.down|
      ensures DownFits(t', i)
    {
      assert DownFits(t, i);
      FitsNext(t.sys, step, t.down[i]);
    }
  }

  /** Position in the old queue of what is at `i` after a loss at `k`. */
  function Origin(i: nat, k: nat): nat {
    if i < k then i else i + 1
  }

  lemma LossFits(t: Traced, step: Step)
    requires AllFit(t) && (step.LoseUp? || step.LoseDown?) && Enabled(t.sys, step)
    ensures AllFit(Trace(t, step))
  {
    var t' := Trace(t, step);
    DistinctNext(t.sys, step);
    FitsNext(t.sys, step, t.busy);
    forall i | 0 <= i < |t'.up|
      ensures UpFits(t', i)
    {
      var j := if step.LoseUp? then Origin(i, step.k) else i;
      assert UpFits(t, j) && t'.up[i] == t.up[j] && t'.sys.up[i] == t.sys.up[j];
      FitsNext(t.sys, step, t.up[j]);
    }
    forall i | 0 <= i < |t'.down|
      ensures DownFits(t', i)
    {
      var j := if step.LoseDown? then Origin(i, step.k) else i;
      assert DownFits(t, j) && t'.down[i] == t.down[j] && t'.sys.down[i] == t.sys.down[j];
      FitsNext(t.sys, step, t.down[j]);
    }
  }

  lemma AppendEffect(s: Sys, step: Step)
    requires Appends(step) && Enabled(s, step)
    ensures var t := Next(s, step);
      && (t.up == s.up || (|t.up| == |s.up| + 1 && t.up[..|s.up|] == s.up && !t.up[|s.up|].PairComplete?))
      && (t.down == s.down ||
          (|t.down| == |s.down| + 1 && t.down[..|s.down|] == s.down && !t.down[|s.down|].PairComplete?))
      && (t.busy == s.busy || step.TakeResponder? || step.InsertSession?)
      && (step.TakeResponder? && t.busy.MustInsert? ==> t.busy.reply.None?)
  {
  }

  lemma AppendUpFits(t: Traced, step: Step, i: nat)
    requires AllFit(t) && Appends(step) && Enabled(t.sys, step) && NewKit(t.sys, step) && i < |Trace(t, step).up|
    ensures UpFits(Trace(t, step), i)
  {
    AppendEffect(t.sys, step);
    if i < |t.up| {
      assert UpFits(t, i) && Trace(t, step).sys.up[i] == t.sys.up[i];
      FitsNext(t.sys, step, t.up[i]);
    }
  }

  lemma AppendDownFits(t: Traced, step: Step, i: nat)
    requires AllFit(t) && Appends(step) && Enabled(t.sys, step) && NewKit(t.sys, step) && i < |Trace(t, step).down|
    ensures DownFits(Trace(t, step), i)
  {
    AppendEffect(t.sys, step);
    if i < |t.down| {
      assert DownFits(t, i) && Trace(t, step).sys.down[i] == t.sys.down[i];
      FitsNext(t.sys, step, t.down[i]);
    }
  }

  lemma AppendBusyFits(t: Traced, step: Step)
    requires AllFit(t) && Appends(step) && Enabled(t.sys, step) && NewKit(t.sys, step)
    ensures BusyFits(Trace(t, step))
  {
    AppendEffect(t.sys, step);
    FitsNext(t.sys, step, t.busy);
  }

  lemma AppendFits(t: Traced, step: Step)
    requires AllFit(t) && Appends(step) && Enabled(t.sys, step) && NewKit(t.sys, step)
    ensures AllFit(Trace(t, step))
  {
    DistinctNext(t.sys, step);
    AppendBusyFits(t, step);
    forall i | 0 <= i < |Trace(t, step).up|
      ensures UpFits(Trace(t, step), i)
    {
      AppendUpFits(t, step, i);
    }
    forall i | 0 <= i < |Trace(t, step).down|
      ensures DownFits(Trace(t, step), i)
    {
      AppendDownFits(t, step, i);
    }
  }

  lemma TraceFits(t: Traced, step: Step)
    requires AllFit(t) && NewKit(t.sys, step)
    ensures AllFit(Trace(t, step))
  {
    if Enabled(t.sys, step) {
      if step.PhoneReceive? {
        ReceiveFits(t, step);
      } else if step.TakeFrame? {
        TakeFits(t, step);
      } else if step.SendReply? {
        ReplyFits(t, step);
      } else if step.PairStartInsert? {
        InsertStepFits(t, step);
      } else if step.LoseUp? || step.LoseDown? {
        LossFits(t, step);
      } else {
        AppendFits(t, step);
      }
    }
  }

  // ---------------------------------------------------------------------------
  // Every certificate is numbered, and every pairing takes one of its own
  // ---------------------------------------------------------------------------

  /** The certificate is one the phone sent: on pairing, with what it then stored, or on the console's word. */
  predicate Numbered(t: Traced, tag: Tag) {
    && tag.serial < t.sent
    && if tag.answers.Some?
       then tag.serial in t.paired && t.paired[tag.serial] == tag.answers.value && tag.serial !in t.onWord
       else tag.serial in t.onWord && tag.serial !in t.paired
  }

  predicate DownNames(t: Traced, i: nat)
    requires Parallel(t) && i < |t.down|
  {
    Names(t.sys.down[i], t.down[i])
  }

  predicate BusyNames(t: Traced) {
    && (t.sys.busy.MustInsert? && t.sys.busy.reply.Some? ==> Names(t.sys.busy.reply.value, t.busy))
    && (t.sys.busy.MustReply? ==> Names(t.sys.busy.reply', t.busy))
  }

  ghost predicate AllNamed(t: Traced) {
    Parallel(t) && BusyNames(t) && forall i | 0 <= i < |t.down| :: DownNames(t, i)
  }

  lemma TakeNames(t: Traced, step: Step)
    requires AllNamed(t) && step.TakeFrame? && Enabled(t.sys, step)
    ensures AllNamed(Trace(t, step))
  {
    var t' := Trace(t, step);
    forall i | 0 <= i < |t'.down|
      ensures DownNames(t', i)
    {
      assert DownNames(t, i);
    }
  }

  lemma QueueNames(t: Traced, step: Step)
    requires AllNamed(t) && Enabled(t.sys, step)
    requires step.PhoneReceive? || step.SendReply? || step.PairStartInsert? || step.LoseUp? || step.LoseDown?
    ensures AllNamed(Trace(t, step))
  {
    var t' := Trace(t, step);
    forall i | 0 <= i < |t'.down|
      ensures DownNames(t', i)
    {
      var j := if step.PhoneReceive? then i + 1 else if step.LoseDown? then Origin(i, step.k) else i;
      assert j < |t.down| ==>
          DownNames(t, j) && t'.sys.down[i] == t.sys.down[j] && t'.down[i].answers == t.down[j].answers;
    }
  }

  lemma AppendNames(t: Traced, step: Step)
    requires AllNamed(t) && Appends(step) && Enabled(t.sys, step)
    ensures AllNamed(Trace(t, step))
  {
    var t' := Trace(t, step);
    AppendEffect(t.sys, step);
    forall i | 0 <= i < |t'.down|
      ensures DownNames(t', i)
    {
      assert i < |t.down| ==> DownNames(t, i) && t'.sys.down[i] == t.sys.down[i];
    }
  }

  lemma TraceNames(t: Traced, step: Step)
    requires AllNamed(t)
    ensures AllNamed(Trace(t, step))
  {
    if Enabled(t.sys, step) {
      if step.TakeFrame? {
        TakeNames(t, step);
      } else if Appends(step) {
        AppendNames(t, step);
      } else {
        QueueNames(t, step);
      }
    }
  }

  predicate UpNumbered(t: Traced, i: nat)
    requires Parallel(t) && i < |t.up|
  {
    t.sys.up[i].PairComplete? ==>
      Numbered(t, t.up[i]) && forall r | 0 <= r < |t.pairings| :: t.pairings[r].tag.serial < t.up[i].serial
  }

  /** Certificates arrive in the order of their numbers. */
  ghost predicate InOrder(t: Traced)
    requires Parallel(t)
  {
    && (forall i, j | 0 <= i < j < |t.pairings| :: t.pairings[i].tag.serial < t.pairings[j].tag.serial)
    && (forall i, j | 0 <= i < j < |t.up| && t.sys.up[i].PairComplete? && t.sys.up[j].PairComplete? ::
          t.up[i].serial < t.up[j].serial)
  }

  ghost predicate Counted(t: Traced) {
    && (forall n | n in t.paired :: n < t.sent && n !in t.onWord)
    && (forall n | n in t.onWord :: n < t.sent)
    && |t.paired| == t.sys.log.phonePairings && |t.onWord| == t.sys.log.directCompletes
    && |t.pairings| == t.sys.log.pairings + Bit(t.sys.busy.MustInsert? && t.sys.busy.session.PairedS?)
  }

  ghost predicate AllNumbered(t: Traced) {
    && AllNamed(t) && InOrder(t) && Counted(t)
    && (forall i | 0 <= i < |t.up| :: UpNumbered(t, i))
    && (forall r | 0 <= r < |t.pairings| :: Numbered(t, t.pairings[r].tag))
  }

  /** When the phone sends a certificate, and what it then stores. */
  lemma CertificateSent(p: PM.Phone, env: Envelope, now: int, key: FreshKey)
    requires p.longTerm.Some? && !env.body.PairAccept?
    ensures var (q, out) := PM.PhoneNext(p, PM.Receive(env, now, key));
      var sends := out.Some? && out.value.body.PairComplete?;
      && (sends <==> (env.body.PairComplete? && q.state.Paired?) || (env.body.PairConfirm? && out.Some?))
      && (sends && env.body.PairConfirm? ==> !q.state.Paired?)
      && (env.body.PairComplete? && q.state.Paired? ==>
            env.body.complete.Some? && q.state.peerFingerprint == env.body.complete.value.fingerprint)
  {
  }

  /** What a delivery adds to the trace: nothing, a certificate on pairing, or one on the console's word. */
  lemma ReceiveEffect(t: Traced, step: Step)
    requires AllNamed(t) && Provenance(t.sys) && step.PhoneReceive? && Enabled(t.sys, step)
    ensures var t' := Trace(t, step);
      var body, added := t.sys.down[0], |t.up|;
      var paired := body.PairComplete? && t'.sys.phone.state.Paired?;
      && |t.up| <= |t'.up| <= |t.up| + 1 && t'.up[..|t.up|] == t.up && t'.sys.up[..|t.up|] == t.sys.up
      && t'.pairings == t.pairings && t'.sys.busy == t.sys.busy
      && t'.sys.log.phonePairings == t.sys.log.phonePairings + Bit(paired)
      && t'.sys.log.pairings == t.sys.log.pairings
      && (|t'.up| > |t.up| && t'.sys.up[added].PairComplete? ==> t'.sent == t.sent + 1)
      && (t'.sent == t.sent ==>
            t'.paired == t.paired && t'.onWord == t.onWord && !paired
            && t'.sys.log.directCompletes == t.sys.log.directCompletes)
      && (t'.sent != t.sent ==> t'.sent == t.sent + 1)
      && (t'.sent != t.sent && paired ==>
            && body.complete.Some?
            && t'.paired == t.paired[t.sent := body.complete.value.fingerprint] && t'.onWord == t.onWord
            && t'.sys.log.directCompletes == t.sys.log.directCompletes
            && (|t'.up| > |t.up| ==> t'.up[added] == t.down[0].(serial := t.sent)))
      && (t'.sent != t.sent && !paired ==>
            && t'.paired == t.paired && t'.onWord == t.onWord + {t.sent}
            && t'.sys.log.directCompletes == t.sys.log.directCompletes + 1
            && (|t'.up| > |t.up| ==> t'.up[added] == Tag(t.sent, None, false)))
  {
    assert KnownDown(t.sys.log.issued, t.sys.down[0]);
    CertificateSent(t.sys.phone, Envelope(t.sys.centerId, t.sys.down[0]), step.now, step.key);
  }

  lemma ReceiveCounts(t: Traced, step: Step)
    requires AllNamed(t) && Counted(t) && Provenance(t.sys) && step.PhoneReceive? && Enabled(t.sys, step)
    ensures Counted(Trace(t, step))
  {
    var t' := Trace(t, step);
    ReceiveEffect(t, step);
    assert t.sent !in t.paired && t.sent !in t.onWord;
    if t'.sent != t.sent && t.sys.down[0].PairComplete? && t'.sys.phone.state.Paired? {
      OneMore(t.paired, t.sent, t.sys.down[0].complete.value.fingerprint);
    }
  }

  lemma OneMore<V>(m: map<nat, V>, n: nat, v: V)
    requires n !in m
    ensures |m[n := v]| == |m| + 1
  {
    assert m[n := v].Keys == m.Keys + {n};
    assert |m.Keys| == |m| && |m[n := v].Keys| == |m[n := v]|;
  }

  /** A certificate keeps its number, and a new one gets the next. */
  lemma ReceiveKeepsNumbered(t: Traced, step: Step, tag: Tag)
    requires AllNamed(t) && Counted(t) && Provenance(t.sys) && step.PhoneReceive? && Enabled(t.sys, step)
    requires Numbered(t, tag)
    ensures Numbered(Trace(t, step), tag)
  {
    ReceiveEffect(t, step);
  }

  lemma NewIsNumbered(t: Traced, step: Step)
    requires AllNamed(t) && Counted(t) && Provenance(t.sys) && step.PhoneReceive? && Enabled(t.sys, step)
    ensures var t' := Trace(t, step);
      |t'.up| > |t.up| && t'.sys.up[|t.up|].PairComplete? ==>
        t'.up[|t.up|].serial == t.sent && Numbered(t', t'.up[|t.up|])
  {
    ReceiveEffect(t, step);
    assert DownNames(t, 0);
    assert t.sent !in t.paired && t.sent !in t.onWord;
  }

  lemma ReceiveNumbers(t: Traced, step: Step)
    requires AllNumbered(t) && Provenance(t.sys) && step.PhoneReceive? && Enabled(t.sys, step)
    ensures AllNumbered(Trace(t, step))
  {
    var t' := Trace(t, step);
    TraceNames(t, step);
    ReceiveEffect(t, step);
    ReceiveCounts(t, step);
    NewIsNumbered(t, step);
    forall r | 0 <= r < |t'.pairings|
      ensures Numbered(t', t'.pairings[r].tag) && t'.pairings[r].tag.serial < t.sent
    {
      assert Numbered(t, t.pairings[r].tag);
      ReceiveKeepsNumbered(t, step, t.pairings[r].tag);
    }
    forall i | 0 <= i < |t'.up|
      ensures UpNumbered(t', i)
      ensures i < |t.up| ==> t'.up[i] == t.up[i] && t'.sys.up[i] == t.sys.up[i]
    {
      if i < |t.up| {
        assert UpNumbered(t, i) && t'.up[i] == t.up[i] && t'.sys.up[i] == t.sys.up[i];
        if t.sys.up[i].PairComplete? {
          ReceiveKeepsNumbered(t, step, t.up[i]);
        }
      }
    }
    forall i, j | 0 <= i < j < |t'.up| && t'.sys.up[i].PairComplete? && t'.sys.up[j].PairComplete?
      ensures t'.up[i].serial < t'.up[j].serial
    {
      assert UpNumbered(t, i);
    }
  }

  /** What taking a frame adds to the trace: at most the pairing of the certificate at the head. */
  lemma TakeEffect(t: Traced, step: Step)
    requires Parallel(t) && step.TakeFrame? && Enabled(t.sys, step)
    ensures var t' := Trace(t, step);
      && t'.up == t.up[1..] && t'.sys.up == t.sys.up[1..]
      && t'.sent == t.sent && t'.paired == t.paired && t'.onWord == t.onWord && t'.sys.log == t.sys.log
      && if t'.sys.busy.MustInsert? && t'.sys.busy.session.PairedS?
         then t.sys.up[0].PairComplete? && HeldFp(t.sys).Some?
              && t'.pairings == t.pairings + [Pairing(t.up[0], HeldFp(t.sys).value)]
         else t'.pairings == t.pairings
  {
  }

  lemma TakeNumbers(t: Traced, step: Step)
    requires AllNumbered(t) && Provenance(t.sys) && step.TakeFrame? && Enabled(t.sys, step)
    ensures AllNumbered(Trace(t, step))
  {
    var t' := Trace(t, step);
    TraceNames(t, step);
    TakeEffect(t, step);
    assert UpNumbered(t, 0);
    forall r | 0 <= r < |t'.pairings|
      ensures Numbered(t', t'.pairings[r].tag)
      ensures r < |t.pairings| ==> t'.pairings[r] == t.pairings[r]
      ensures r >= |t.pairings| ==> t'.pairings[r].tag == t.up[0] && t.sys.up[0].PairComplete?
    {
      if r < |t.pairings| {
        assert Numbered(t, t.pairings[r].tag);
      }
    }
    forall i | 0 <= i < |t'.up|
      ensures UpNumbered(t', i)
    {
      assert UpNumbered(t, i + 1);
      assert t'.up[i] == t.up[i + 1] && t'.sys.up[i] == t.sys.up[i + 1];
    }
  }

  /** No step but a delivery to the phone or a frame taken adds to the counts. */
  lemma OtherCounts(s: Sys, step: Step)
    requires Provenance(s) && Enabled(s, step) && !step.PhoneReceive? && !step.TakeFrame?
    ensures var n := Next(s, step);
      && n.log.phonePairings == s.log.phonePairings && n.log.directCompletes == s.log.directCompletes
      && n.log.pairings + Bit(n.busy.MustInsert? && n.busy.session.PairedS?) ==
           s.log.pairings + Bit(s.busy.MustInsert? && s.busy.session.PairedS?)
  {
    if step.TakeResponder? && s.entry.session.Some? && s.entry.session.value.ResponderS? {
      assert Blank(s.entry.session.value.responder);
    }
  }

  lemma LossMoves(t: Traced, step: Step, i: nat)
    requires Parallel(t) && step.LoseUp? && Enabled(t.sys, step) && i < |Trace(t, step).up|
    ensures var t', j := Trace(t, step), Origin(i, step.k);
      && j < |t.up| && t'.up[i] == t.up[j] && t'.sys.up[i] == t.sys.up[j]
      && t'.sent == t.sent && t'.paired == t.paired && t'.onWord == t.onWord && t'.pairings == t.pairings
  {
  }

  lemma LossNumbers(t: Traced, step: Step)
    requires AllNumbered(t) && Provenance(t.sys) && step.LoseUp? && Enabled(t.sys, step)
    ensures AllNumbered(Trace(t, step))
  {
    var t' := Trace(t, step);
    TraceNames(t, step);
    OtherCounts(t.sys, step);
    forall i | 0 <= i < |t'.up|
      ensures UpNumbered(t', i)
      ensures t'.up[i] == t.up[Origin(i, step.k)] && t'.sys.up[i] == t.sys.up[Origin(i, step.k)]
    {
      LossMoves(t, step, i);
      assert UpNumbered(t, Origin(i, step.k));
    }
  }

  /** The other steps keep the queue to the center, its numbers, and all that was recorded. */
  lemma OtherEffect(t: Traced, step: Step)
    requires Parallel(t) && Enabled(t.sys, step)
    requires !step.PhoneReceive? && !step.TakeFrame? && !step.LoseUp?
    ensures var t' := Trace(t, step);
      && t'.sent == t.sent && t'.paired == t.paired && t'.onWord == t.onWord && t'.pairings == t.pairings
      && |t'.up| >= |t.up|
      && (forall i | 0 <= i < |t.up| ::
            t'.sys.up[i] == t.sys.up[i] && t'.up[i].serial == t.up[i].serial && t'.up[i].answers == t.up[i].answers)
      && (forall i | |t.up| <= i < |t'.up| :: !t'.sys.up[i].PairComplete?)
  {
    if Appends(step) {
      AppendEffect(t.sys, step);
    }
  }

  lemma OtherNumbers(t: Traced, step: Step)
    requires AllNumbered(t) && Provenance(t.sys) && Enabled(t.sys, step)
    requires !step.PhoneReceive? && !step.TakeFrame? && !step.LoseUp?
    ensures AllNumbered(Trace(t, step))
  {
    var t' := Trace(t, step);
    TraceNames(t, step);
    OtherCounts(t.sys, step);
    OtherEffect(t, step);
    forall i | 0 <= i < |t'.up|
      ensures UpNumbered(t', i)
    {
      if i < |t.up| {
        assert UpNumbered(t, i);
      }
    }
    forall r | 0 <= r < |t'.pairings|
      ensures Numbered(t', t'.pairings[r].tag)
    {
      assert Numbered(t, t.pairings[r].tag);
    }
  }

  lemma TraceNumbers(t: Traced, step: Step)
    requires AllNumbered(t) && Provenance(t.sys)
    ensures AllNumbered(Trace(t, step))
  {
    if Enabled(t.sys, step) {
      if step.PhoneReceive? {
        ReceiveNumbers(t, step);
      } else if step.TakeFrame? {
        TakeNumbers(t, step);
      } else if step.LoseUp? {
        LossNumbers(t, step);
      } else {
        OtherNumbers(t, step);
      }
    }
  }

  lemma {:induction false} TracesStayNumbered(t: Traced, steps: seq<Step>)
    requires AllNumbered(t) && Provenance(t.sys)
    ensures AllNumbered(TraceAll(t, steps))
    decreases |steps|
  {
    if steps != [] {
      TraceNumbers(t, steps[0]);
      NextKeepsProvenance(t.sys, steps[0]);
      TracesStayNumbered(Trace(t, steps[0]), steps[1..]);
    }
  }

  // ---------------------------------------------------------------------------
  // Every pairing spends what it should unless crossed
  // ---------------------------------------------------------------------------

  /** A pairing spends the session its certificate answers exactly if that one was not crossed. */
  predicate SpendsExactly(r: Pairing) {
    r.tag.answers.Some? ==> (r.consumed == r.tag.answers.value <==> !r.tag.crossed)
  }

  ghost predicate AllSpend(t: Traced) {
    forall r | 0 <= r < |t.pairings| :: SpendsExactly(t.pairings[r])
  }

  lemma TraceSpends(t: Traced, step: Step)
    requires AllFit(t) && AllSpend(t)
    ensures AllSpend(Trace(t, step))
  {
    if step.TakeFrame? && Enabled(t.sys, step) {
      TakeEffect(t, step);
      assert UpFits(t, 0);
    }
  }

  lemma {:induction false} TracesSpend(t: Traced, steps: seq<Step>)
    requires AllFit(t) && AllSpend(t) && MintsNew(t.sys, steps)
    ensures AllSpend(TraceAll(t, steps))
    decreases |steps|
  {
    if steps != [] {
      TraceFits(t, steps[0]);
      TraceSpends(t, steps[0]);
      TracesSpend(Trace(t, steps[0]), steps[1..]);
    }
  }

  // ---------------------------------------------------------------------------
  // Theorems
  // ---------------------------------------------------------------------------

  /**
   Which session a pairing spends: in every run whose identities are new, a pairing on a
   certificate with which the phone paired spends the very session whose fingerprint the phone
   then stored if and only if no `pair_start` put another session in place between that
   session's certificate being ready and the phone's answer being taken.
   */
  lemma PairingSpendsItsSessionIff(
      centerId: Uuid, deviceId: Uuid, stored: Certificate, steps: seq<Step>, r: nat)
    requires MintsNew(Start(centerId, deviceId, stored), steps)
    ensures var t := TraceAll(StartTraced(centerId, deviceId, stored), steps);
      && t.sys == Run(Start(centerId, deviceId, stored), steps)
      && (r < |t.pairings| && t.pairings[r].tag.serial in t.paired ==>
            (t.pairings[r].consumed == t.paired[t.pairings[r].tag.serial] <==> !t.pairings[r].tag.crossed))
  {
    var t0 := StartTraced(centerId, deviceId, stored);
    TracesStayNumbered(t0, steps);
    TracesSpend(t0, steps);
    TracingIsRunning(t0, steps);
    var t := TraceAll(t0, steps);
    if r < |t.pairings| {
      assert Numbered(t, t.pairings[r].tag) && SpendsExactly(t.pairings[r]);
    }
  }

  /**
   Whose pairing it is: each pairing of the center takes a certificate of its own, and the phone
   paired when it sent that certificate if and only if it was not sent on the console's word.
   There are as many such certificates as the phone's pairings, and as the console's words.
   */
  lemma PairingHasItsPhonePairingIff(
      centerId: Uuid, deviceId: Uuid, stored: Certificate, steps: seq<Step>)
    ensures var t := TraceAll(StartTraced(centerId, deviceId, stored), steps);
      && |t.pairings| == t.sys.log.pairings + Bit(t.sys.busy.MustInsert? && t.sys.busy.session.PairedS?)
      && |t.paired| == t.sys.log.phonePairings && |t.onWord| == t.sys.log.directCompletes
      && (forall i, j | 0 <= i < j < |t.pairings| :: t.pairings[i].tag.serial < t.pairings[j].tag.serial)
      && (forall r | 0 <= r < |t.pairings| ::
            t.pairings[r].tag.serial in t.paired <==> t.pairings[r].tag.serial !in t.onWord)
  {
    var t0 := StartTraced(centerId, deviceId, stored);
    TracesStayNumbered(t0, steps);
    var t := TraceAll(t0, steps);
    forall r | 0 <= r < |t.pairings|
      ensures t.pairings[r].tag.serial in t.paired <==> t.pairings[r].tag.serial !in t.onWord
    {
      assert Numbered(t, t.pairings[r].tag);
    }
  }

  /** In all runs with at most `a` requests of the phone and `b` acceptances on the console, the phone is first. */
  ghost predicate PhoneFirstWithin(a: nat, b: nat) {
    forall centerId: Uuid, deviceId: Uuid, stored: Certificate, steps: seq<Step> ::
      var log := Run(Start(centerId, deviceId, stored), steps).log;
      log.initiates <= a && log.incomingAccepts <= b ==> log.pairings <= log.phonePairings
  }

  lemma SomeCertificateIsUsable() returns (c: Certificate)
    ensures UsableCertificate(c)
  {
    var d: Fingerprint.Digest := seq(Fingerprint.SHA256_LEN, i => 0);
    var pem := "BEGIN CERTIFICATE";
    Fingerprint.PrintedIsValid(d);
    assert pem[0..] == pem;
    c := Certificate(pem, Fingerprint.Print(d));
  }

  /** The phone is first in every such run exactly if one of the two budgets is zero. */
  lemma PhoneFirstBudget(a: nat, b: nat)
    ensures PhoneFirstWithin(a, b) <==> a == 0 || b == 0
  {
    if a == 0 || b == 0 {
      forall centerId: Uuid, deviceId: Uuid, stored: Certificate, steps: seq<Step>
        ensures var log := Run(Start(centerId, deviceId, stored), steps).log;
          log.initiates <= a && log.incomingAccepts <= b ==> log.pairings <= log.phonePairings
      {
        PhonePairsFirst(centerId, deviceId, stored, steps);
      }
    } else {
      var stored := SomeCertificateIsUsable();
      CenterCanPairAlone(0, 1, stored, Kit(stored, "k"), FreshKey("k", None), 0);
    }
  }
}
