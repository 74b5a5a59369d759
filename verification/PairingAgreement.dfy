/**
 Whether an acceptance pairs the session whose code the user saw. Every confirmation in flight
 is tagged with the request key of the code that was accepted, and every certificate of the
 center with the confirmation it answers; the machines see neither. A request key stands for a
 session: it is the initiator's ephemeral key.
 */
module PairingAgreement {
  import opened Wrappers
  import opened Protocol
  import opened Sessions
  import opened WsHandler
  import opened Center
  import opened PairingSystem
  import opened PairingSafety
  import PM = PairingMachine

  // ---------------------------------------------------------------------------
  // Tags
  // ---------------------------------------------------------------------------

  /**
   The center's answer to a confirmation: the session whose code was `accepted`, the session
   that `answered`, and the sessions put in place until then.
   */
  datatype Grant = Grant(accepted: string, answered: string, placed: seq<string>)

  const NO_GRANT := Grant("", "", [])

  /** A phone pairing: the grant it rests on, and the fingerprint the phone stored. */
  datatype Stored = Stored(grant: Grant, fingerprint: string)

  /**
   `up` tags confirmations with accepted keys, `down` and `busy` certificates with grants;
   `placed` lists the sessions put in place, oldest first; `made` gives the fingerprint of each
   session's identity; `grants` are the center's answers; `stored` are the phone's pairings by the
   number of the certificate the phone then sent, of `sent` in all.
   */
  datatype Traced = Traced(
    sys: Sys, up: seq<string>, down: seq<Grant>, busy: Grant, placed: seq<string>, made: map<string, string>,
    grants: seq<Grant>, sent: nat, stored: map<nat, Stored>)

  predicate Parallel(t: Traced) {
    |t.up| == |t.sys.up| && |t.down| == |t.sys.down|
  }

  /** The session was put in place, and none other after it. */
  ghost predicate NoneSince(placed: seq<string>, key: string) {
    exists i | 0 <= i < |placed| :: placed[i] == key && forall j | i < j < |placed| :: placed[j] == key
  }

  predicate IsLast(placed: seq<string>, key: string) {
    placed != [] && placed[|placed| - 1] == key
  }

  lemma LastMeansNoneSince(placed: seq<string>, key: string)
    ensures IsLast(placed, key) <==> NoneSince(placed, key)
  {
    if IsLast(placed, key) {
      assert placed[|placed| - 1] == key;
    }
    if NoneSince(placed, key) {
      var i :| 0 <= i < |placed| && placed[i] == key && forall j | i < j < |placed| :: placed[j] == key;
      assert i == |placed| - 1 || placed[|placed| - 1] == key;
    }
  }

  function Padded<T>(tags: seq<T>, n: nat, tag: T): seq<T> {
    if n > |tags| then tags + [tag] else tags
  }

  function EphemeralOf(v: InitiatorView): string {
    if v.ephemeral.Some? then v.ephemeral.value else ""
  }

  function ReceiveTrace(t: Traced, step: Step): (t': Traced)
    requires Parallel(t) && step.PhoneReceive? && Enabled(t.sys, step)
    ensures Parallel(t') && t'.sys == Next(t.sys, step)
  {
    var body, next := t.sys.down[0], Next(t.sys, step);
    var out := PM.PhoneNext(t.sys.phone, PM.Receive(Envelope(t.sys.centerId, body), step.now, step.key)).1;
    var pairs := body.PairComplete? && next.phone.state.Paired?;
    t.(sys := next, down := t.down[1..], up := Padded(t.up, |next.up|, ""),
       sent := if out.Some? && out.value.body.PairComplete? then t.sent + 1 else t.sent,
       stored := if pairs then t.stored[t.sent := Stored(t.down[0], next.phone.state.peerFingerprint)] else t.stored)
  }

  function TakeTrace(t: Traced, step: Step): (t': Traced)
    requires Parallel(t) && step.TakeFrame? && Enabled(t.sys, step)
    ensures Parallel(t') && t'.sys == Next(t.sys, step)
  {
    var held := t.sys.entry.session;
    var t' := t.(sys := Next(t.sys, step), up := t.up[1..]);
    if t.sys.up[0] != PairConfirm(Some(true)) || !IsInitiator(held) then t'
    else
      var g := Grant(t.up[0], EphemeralOf(held.value.initiator), t.placed);
      t'.(busy := g, grants := t.grants + [g])
  }

  /** An insertion while a session is out of the map puts nothing in place: that session comes back. */
  function InsertTrace(t: Traced, step: Step): (t': Traced)
    requires Parallel(t) && step.PairStartInsert? && Enabled(t.sys, step)
    ensures Parallel(t') && t'.sys == Next(t.sys, step)
  {
    t.(sys := Next(t.sys, step),
       placed := if t.sys.busy.MustInsert? then t.placed else t.placed + [EphemeralOf(t.sys.starting[step.k])])
  }

  /** Steps that only append messages, none of them a certificate, or touch no queue. */
  predicate Appends(step: Step) {
    && !step.PhoneReceive? && !step.TakeFrame? && !step.SendReply? && !step.PairStartInsert?
    && !step.LoseUp? && !step.LoseDown?
  }

  function AppendTrace(t: Traced, step: Step): (t': Traced)
    requires Parallel(t) && Appends(step) && Enabled(t.sys, step)
    ensures Parallel(t') && t'.sys == Next(t.sys, step)
  {
    var next := Next(t.sys, step);
    var key := if step.Accept? && t.sys.phone.state.ShowingCode? then t.sys.phone.state.peerEphemeralPub else "";
    t.(sys := next, up := Padded(t.up, |next.up|, key), down := Padded(t.down, |next.down|, NO_GRANT),
       made := if step.PairStartSend? && step.room
               then t.made[step.kit.ephemeral := step.kit.identity.fingerprint] else t.made)
  }

  function Trace(t: Traced, step: Step): (t': Traced)
    requires Parallel(t)
    ensures Parallel(t') && t'.sys == Next(t.sys, step)
  {
    if !Enabled(t.sys, step) then t
    else
      match step
      case PhoneReceive(_, _, _) => ReceiveTrace(t, step)
      case TakeFrame(_, _) => TakeTrace(t, step)
      case PairStartInsert(_) => InsertTrace(t, step)
      case SendReply(_) =>
        t.(sys := Next(t.sys, step), down := Padded(t.down, |Next(t.sys, step).down|, t.busy))
      case LoseUp(k) => t.(sys := Next(t.sys, step), up := RemoveAt(t.up, k))
      case LoseDown(k) => t.(sys := Next(t.sys, step), down := RemoveAt(t.down, k))
      case _ => AppendTrace(t, step)
  }

  function TraceAll(t: Traced, steps: seq<Step>): (t': Traced)
    requires Parallel(t)
    ensures Parallel(t')
    decreases |steps|
  {
    if steps == [] then t else TraceAll(Trace(t, steps[0]), steps[1..])
  }

  function StartTraced(centerId: Uuid, deviceId: Uuid, stored: Certificate): (t: Traced)
    ensures Parallel(t)
  {
    Traced(Start(centerId, deviceId, stored), [], [], NO_GRANT, [], map[], [], 0, map[])
  }

  /** Tagging changes nothing. */
  lemma {:induction false} TracingIsRunning(t: Traced, steps: seq<Step>)
    requires Parallel(t)
    ensures TraceAll(t, steps).sys == Run(t.sys, steps)
    decreases |steps|
  {
    if steps != [] {
      TracingIsRunning(Trace(t, steps[0]), steps[1..]);
    }
  }

  /** Every `pair_start` makes a key and an identity not seen before. */
  predicate MintsNew(t: Traced, steps: seq<Step>)
    requires Parallel(t)
    decreases |steps|
  {
    steps == [] || (NewKit(t, steps[0]) && MintsNew(Trace(t, steps[0]), steps[1..]))
  }

  predicate NewKit(t: Traced, step: Step) {
    step.PairStartSend? ==> step.kit.ephemeral !in t.made && step.kit.identity.fingerprint !in t.made.Values
  }

  // ---------------------------------------------------------------------------
  // The session in place
  // ---------------------------------------------------------------------------

  /** The initiator that the next frame will find, if any, is the session last put in place. */
  predicate HeldIsLast(t: Traced) {
    IsInitiator(Holder(t.sys)) ==> IsLast(t.placed, EphemeralOf(Holder(t.sys).value.initiator))
  }

  lemma TraceKeepsHeld(t: Traced, step: Step)
    requires Parallel(t) && HeldIsLast(t)
    ensures HeldIsLast(Trace(t, step))
  {
  }

  /** An answer comes from the accepted session exactly if none was put in place after it. */
  predicate Exact(g: Grant) {
    g.answered == g.accepted <==> IsLast(g.placed, g.accepted)
  }

  ghost predicate AllExact(t: Traced) {
    forall i | 0 <= i < |t.grants| :: Exact(t.grants[i])
  }

  lemma TraceKeepsExact(t: Traced, step: Step)
    requires Parallel(t) && HeldIsLast(t) && AllExact(t)
    ensures AllExact(Trace(t, step))
  {
  }

  lemma {:induction false} AnswersStayExact(t: Traced, steps: seq<Step>)
    requires Parallel(t) && HeldIsLast(t) && AllExact(t)
    ensures AllExact(TraceAll(t, steps))
    decreases |steps|
  {
    if steps != [] {
      TraceKeepsHeld(t, steps[0]);
      TraceKeepsExact(t, steps[0]);
      AnswersStayExact(Trace(t, steps[0]), steps[1..]);
    }
  }

  // ---------------------------------------------------------------------------
  // Keys and fingerprints
  // ---------------------------------------------------------------------------

  /** The session is one that a `pair_start` made, with its identity. */
  predicate Made(made: map<string, string>, v: InitiatorView) {
    v.ephemeral.Some? && v.ephemeral.value in made && made[v.ephemeral.value] == v.identity.fingerprint
  }

  /** The grant is about sessions that were made, and the certificate is the answering one's. */
  predicate Speaks(made: map<string, string>, g: Grant, fingerprint: string) {
    && g.accepted in made && g.answered in made && made[g.answered] == fingerprint
    && Exact(g)
  }

  predicate Certifies(made: map<string, string>, b: Body, g: Grant) {
    b.PairComplete? ==> b.complete.Some? && Speaks(made, g, b.complete.value.fingerprint)
  }

  predicate UpMade(t: Traced, i: nat)
    requires Parallel(t) && i < |t.up|
  {
    t.sys.up[i] == PairConfirm(Some(true)) ==> t.up[i] in t.made
  }

  predicate DownMade(t: Traced, i: nat)
    requires Parallel(t) && i < |t.down|
  {
    var b := t.sys.down[i];
    && Certifies(t.made, b, t.down[i]) && !b.PairAccept?
    && (b.PairRequest? ==> b.request.Some? && b.request.value.text in t.made)
  }

  predicate ReplyMade(t: Traced, b: Body) {
    Certifies(t.made, b, t.busy) && !b.PairAccept? && !b.PairRequest?
  }

  predicate BusyMade(t: Traced) {
    && (t.sys.busy.MustInsert? && t.sys.busy.reply.Some? ==> ReplyMade(t, t.sys.busy.reply.value))
    && (t.sys.busy.MustReply? ==> ReplyMade(t, t.sys.busy.reply'))
  }

  predicate PlacesMade(t: Traced) {
    && (forall i | 0 <= i < |t.sys.starting| :: Made(t.made, t.sys.starting[i]))
    && (IsInitiator(Holder(t.sys)) ==> Made(t.made, Holder(t.sys).value.initiator))
    && (t.sys.phone.state.ShowingCode? ==> t.sys.phone.state.peerEphemeralPub in t.made)
  }

  ghost predicate OneToOne(made: map<string, string>) {
    forall a, b | a in made && b in made && a != b :: made[a] != made[b]
  }

  ghost predicate AllMade(t: Traced) {
    && Parallel(t) && OneToOne(t.made) && PlacesMade(t) && BusyMade(t) && HeldIsLast(t)
    && (forall i | 0 <= i < |t.up| :: UpMade(t, i))
    && (forall i | 0 <= i < |t.down| :: DownMade(t, i))
    && (forall n | n in t.stored :: n < t.sent && Speaks(t.made, t.stored[n].grant, t.stored[n].fingerprint))
    && |t.stored| == t.sys.log.phonePairings && t.sys.phone.longTerm.Some?
  }

  /** What the phone does with an envelope, as far as codes and pairings go. */
  lemma PhoneReceives(p: PM.Phone, env: Envelope, now: int, key: FreshKey)
    requires !env.body.PairAccept?
    ensures var (q, out) := PM.PhoneNext(p, PM.Receive(env, now, key));
      && (q.state.ShowingCode? ==>
            (env.body.PairRequest? && env.body.request.Some? && q.state.peerEphemeralPub == env.body.request.value.text)
            || q.state == p.state)
      && (env.body.PairComplete? && q.state.Paired? ==>
            env.body.complete.Some? && q.state.peerFingerprint == env.body.complete.value.fingerprint)
      && (out.Some? ==> out.value.body != PairConfirm(Some(true)))
      && (p.longTerm.Some? ==> q.longTerm == p.longTerm)
      && (p.longTerm.Some? && env.body.PairComplete? && q.state.Paired? ==> out.Some? && out.value.body.PairComplete?)
  {
  }

  lemma OneMore<V>(m: map<nat, V>, n: nat, v: V)
    requires n !in m
    ensures |m[n := v]| == |m| + 1
  {
    assert m[n := v].Keys == m.Keys + {n};
    assert |m.Keys| == |m| && |m[n := v].Keys| == |m[n := v]|;
  }

  lemma ReceiveStores(t: Traced, step: Step)
    requires AllMade(t) && step.PhoneReceive? && Enabled(t.sys, step)
    ensures var t' := Trace(t, step);
      && (forall n | n in t'.stored :: n < t'.sent && Speaks(t'.made, t'.stored[n].grant, t'.stored[n].fingerprint))
      && |t'.stored| == t'.sys.log.phonePairings && t'.sys.phone.longTerm.Some?
  {
    assert DownMade(t, 0);
    PhoneReceives(t.sys.phone, Envelope(t.sys.centerId, t.sys.down[0]), step.now, step.key);
    assert t.sent !in t.stored;
    var t' := Trace(t, step);
    if t.sys.down[0].PairComplete? && t'.sys.phone.state.Paired? {
      OneMore(t.stored, t.sent, Stored(t.down[0], t'.sys.phone.state.peerFingerprint));
    }
  }

  lemma ReceiveMade(t: Traced, step: Step)
    requires AllMade(t) && step.PhoneReceive? && Enabled(t.sys, step)
    ensures AllMade(Trace(t, step))
  {
    var t' := Trace(t, step);
    assert DownMade(t, 0);
    PhoneReceives(t.sys.phone, Envelope(t.sys.centerId, t.sys.down[0]), step.now, step.key);
    ReceiveStores(t, step);
    assert Holder(t'.sys) == Holder(t.sys);
    forall i | 0 <= i < |t'.up|
      ensures UpMade(t', i)
    {
      assert i < |t.up| ==> UpMade(t, i);
    }
    forall i | 0 <= i < |t'.down|
      ensures DownMade(t', i)
    {
      assert DownMade(t, i + 1);
    }
  }

  /** Taking a frame leaves the held initiator's key and identity alone, or takes it away. */
  lemma TakeHolds(s: Sys, step: Step)
    requires step.TakeFrame? && Enabled(s, step)
    ensures var t := Next(s, step);
      && t.down == s.down && t.starting == s.starting && t.phone == s.phone && t.log == s.log && t.up == s.up[1..]
      && (IsInitiator(Holder(t)) ==>
            IsInitiator(s.entry.session)
            && Holder(t).value.initiator.ephemeral == s.entry.session.value.initiator.ephemeral
            && Holder(t).value.initiator.identity == s.entry.session.value.initiator.identity)
  {
  }

  /** What the center prepares to send for a frame. */
  lemma TakeAnswers(s: Sys, step: Step)
    requires step.TakeFrame? && Enabled(s, step)
    ensures var b := Next(s, step).busy;
      var reply := if b.MustInsert? then b.reply else if b.MustReply? then Some(b.reply') else None;
      reply.Some? ==>
        && !reply.value.PairAccept? && !reply.value.PairRequest?
        && (reply.value.PairComplete? ==>
              && s.up[0] == PairConfirm(Some(true)) && IsInitiator(s.entry.session)
              && reply.value.complete == Some(s.entry.session.value.initiator.identity))
  {
  }

  lemma TakePlaces(t: Traced, step: Step)
    requires AllMade(t) && step.TakeFrame? && Enabled(t.sys, step)
    ensures PlacesMade(Trace(t, step)) && BusyMade(Trace(t, step)) && HeldIsLast(Trace(t, step))
  {
    TakeHolds(t.sys, step);
    TakeAnswers(t.sys, step);
    TraceKeepsHeld(t, step);
    assert UpMade(t, 0);
  }

  lemma TakeQueues(t: Traced, step: Step)
    requires AllMade(t) && step.TakeFrame? && Enabled(t.sys, step)
    ensures forall i | 0 <= i < |Trace(t, step).up| :: UpMade(Trace(t, step), i)
    ensures forall i | 0 <= i < |Trace(t, step).down| :: DownMade(Trace(t, step), i)
  {
    TakeHolds(t.sys, step);
    forall i | 0 <= i < |Trace(t, step).up|
      ensures UpMade(Trace(t, step), i)
    {
      assert UpMade(t, i + 1);
    }
    forall i | 0 <= i < |Trace(t, step).down|
      ensures DownMade(Trace(t, step), i)
    {
      assert DownMade(t, i);
    }
  }

  lemma TakeMade(t: Traced, step: Step)
    requires AllMade(t) && step.TakeFrame? && Enabled(t.sys, step)
    ensures AllMade(Trace(t, step))
  {
    TakeHolds(t.sys, step);
    TakePlaces(t, step);
    TakeQueues(t, step);
  }

  lemma ReplyStepMade(t: Traced, step: Step)
    requires AllMade(t) && step.SendReply? && Enabled(t.sys, step)
    ensures AllMade(Trace(t, step))
  {
    var t' := Trace(t, step);
    forall i | 0 <= i < |t'.up|
      ensures UpMade(t', i)
    {
      assert UpMade(t, i);
    }
    forall i | 0 <= i < |t'.down|
      ensures DownMade(t', i)
    {
      assert i < |t.down| ==> DownMade(t, i);
    }
  }

  lemma InsertMade(t: Traced, step: Step)
    requires AllMade(t) && step.PairStartInsert? && Enabled(t.sys, step)
    ensures AllMade(Trace(t, step))
  {
    var t' := Trace(t, step);
    TraceKeepsHeld(t, step);
    forall i | 0 <= i < |t'.sys.starting|
      ensures Made(t'.made, t'.sys.starting[i])
    {
      assert Made(t.made, t.sys.starting[if i < step.k then i else i + 1]);
    }
    forall i | 0 <= i < |t'.up|
      ensures UpMade(t', i)
    {
      assert UpMade(t, i);
    }
    forall i | 0 <= i < |t'.down|
      ensures DownMade(t', i)
    {
      assert DownMade(t, i);
    }
  }

  lemma LossMade(t: Traced, step: Step)
    requires AllMade(t) && (step.LoseUp? || step.LoseDown?) && Enabled(t.sys, step)
    ensures AllMade(Trace(t, step))
  {
    var t' := Trace(t, step);
    LossPlaces(t, step);
    forall i | 0 <= i < |t'.up|
      ensures UpMade(t', i)
    {
      LossUpMade(t, step, i);
    }
    forall i | 0 <= i < |t'.down|
      ensures DownMade(t', i)
    {
      LossDownMade(t, step, i);
    }
  }

  lemma LossPlaces(t: Traced, step: Step)
    requires AllMade(t) && (step.LoseUp? || step.LoseDown?) && Enabled(t.sys, step)
    ensures var t' := Trace(t, step);
      && PlacesMade(t') && BusyMade(t') && HeldIsLast(t') && t'.made == t.made
      && t'.stored == t.stored && t'.sent == t.sent && t'.sys.log == t.sys.log && t'.sys.phone == t.sys.phone
  {
  }

  lemma LossUpMade(t: Traced, step: Step, i: nat)
    requires AllMade(t) && (step.LoseUp? || step.LoseDown?) && Enabled(t.sys, step) && i < |Trace(t, step).up|
    ensures UpMade(Trace(t, step), i)
  {
    assert UpMade(t, if step.LoseUp? && i >= step.k then i + 1 else i);
  }

  lemma LossDownMade(t: Traced, step: Step, i: nat)
    requires AllMade(t) && (step.LoseUp? || step.LoseDown?) && Enabled(t.sys, step) && i < |Trace(t, step).down|
    ensures DownMade(Trace(t, step), i)
  {
    assert DownMade(t, if step.LoseDown? && i >= step.k then i + 1 else i);
  }

  /** What the appending steps add to the queues. */
  lemma AppendEffect(s: Sys, step: Step)
    requires Appends(step) && Enabled(s, step)
    ensures var t := Next(s, step);
      && (t.up == s.up || (|t.up| == |s.up| + 1 && t.up[..|s.up|] == s.up
            && (t.up[|s.up|] == PairConfirm(Some(true)) ==> step.Accept? && s.phone.state.ShowingCode?)))
      && (t.down == s.down || (|t.down| == |s.down| + 1 && t.down[..|s.down|] == s.down
            && var b := t.down[|s.down|];
               && !b.PairComplete? && !b.PairAccept?
               && (b.PairRequest? ==>
                     step.PairStartSend? && step.room
                     && b.request == Some(WireKey(step.kit.ephemeral, true)))))
  {
  }

  /** Nor do they bring in an initiator, or a code on display. */
  lemma AppendHolds(s: Sys, step: Step)
    requires Appends(step) && Enabled(s, step)
    ensures var t := Next(s, step);
      && (IsInitiator(Holder(t)) ==> Holder(t) == Holder(s))
      && (t.phone.state.ShowingCode? ==> t.phone.state == s.phone.state)
      && t.log.phonePairings == s.log.phonePairings && t.phone.longTerm == s.phone.longTerm
      && (t.starting == s.starting ||
          (step.PairStartSend? && step.room
           && t.starting == s.starting + [StartInitiator(s.phone.deviceId, step.kit.identity, step.kit.ephemeral)]))
      && (t.busy == s.busy || step.TakeResponder? || step.InsertSession?)
      && (step.TakeResponder? && t.busy.MustInsert? ==> t.busy.reply.None?)
  {
  }

  lemma AppendMakes(t: Traced, step: Step)
    requires AllMade(t) && Appends(step) && Enabled(t.sys, step) && NewKit(t, step)
    ensures var m := Trace(t, step).made;
      OneToOne(m) && forall key | key in t.made :: key in m && m[key] == t.made[key]
  {
    if step.PairStartSend? && step.room {
      forall key | key in t.made
        ensures t.made[key] != step.kit.identity.fingerprint
      {
        assert t.made[key] in t.made.Values;
      }
    }
  }

  lemma AppendPlaces(t: Traced, step: Step)
    requires AllMade(t) && Appends(step) && Enabled(t.sys, step) && NewKit(t, step)
    ensures PlacesMade(Trace(t, step)) && BusyMade(Trace(t, step)) && HeldIsLast(Trace(t, step))
  {
    AppendPlacesMade(t, step);
    AppendBusyMade(t, step);
    TraceKeepsHeld(t, step);
  }

  lemma AppendPlacesMade(t: Traced, step: Step)
    requires AllMade(t) && Appends(step) && Enabled(t.sys, step) && NewKit(t, step)
    ensures PlacesMade(Trace(t, step))
  {
    AppendMakes(t, step);
    AppendHolds(t.sys, step);
  }

  lemma AppendBusyMade(t: Traced, step: Step)
    requires AllMade(t) && Appends(step) && Enabled(t.sys, step) && NewKit(t, step)
    ensures BusyMade(Trace(t, step))
  {
    AppendMakes(t, step);
    AppendHolds(t.sys, step);
  }

  lemma AppendUpMade(t: Traced, step: Step, i: nat)
    requires AllMade(t) && Appends(step) && Enabled(t.sys, step) && NewKit(t, step) && i < |Trace(t, step).up|
    ensures UpMade(Trace(t, step), i)
  {
    AppendMakes(t, step);
    AppendEffect(t.sys, step);
    assert i < |t.up| ==> UpMade(t, i) && Trace(t, step).sys.up[i] == t.sys.up[i];
  }

  lemma AppendDownMade(t: Traced, step: Step, i: nat)
    requires AllMade(t) && Appends(step) && Enabled(t.sys, step) && NewKit(t, step) && i < |Trace(t, step).down|
    ensures DownMade(Trace(t, step), i)
  {
    AppendMakes(t, step);
    AppendEffect(t.sys, step);
    assert i < |t.down| ==> DownMade(t, i) && Trace(t, step).sys.down[i] == t.sys.down[i];
  }

  lemma AppendMade(t: Traced, step: Step)
    requires AllMade(t) && Appends(step) && Enabled(t.sys, step) && NewKit(t, step)
    ensures AllMade(Trace(t, step))
  {
    var t' := Trace(t, step);
    AppendMakes(t, step);
    AppendPlaces(t, step);
    AppendHolds(t.sys, step);
    forall i | 0 <= i < |t'.up|
      ensures UpMade(t', i)
    {
      AppendUpMade(t, step, i);
    }
    forall i | 0 <= i < |t'.down|
      ensures DownMade(t', i)
    {
      AppendDownMade(t, step, i);
    }
  }

  lemma TraceMade(t: Traced, step: Step)
    requires AllMade(t) && NewKit(t, step)
    ensures AllMade(Trace(t, step))
  {
    if Enabled(t.sys, step) {
      if step.PhoneReceive? {
        ReceiveMade(t, step);
      } else if step.TakeFrame? {
        TakeMade(t, step);
      } else if step.SendReply? {
        ReplyStepMade(t, step);
      } else if step.PairStartInsert? {
        InsertMade(t, step);
      } else if step.LoseUp? || step.LoseDown? {
        LossMade(t, step);
      } else {
        AppendMade(t, step);
      }
    }
  }

  lemma {:induction false} TracesStayMade(t: Traced, steps: seq<Step>)
    requires AllMade(t) && MintsNew(t, steps)
    ensures AllMade(TraceAll(t, steps))
    decreases |steps|
  {
    if steps != [] {
      TraceMade(t, steps[0]);
      TracesStayMade(Trace(t, steps[0]), steps[1..]);
    }
  }

  // ---------------------------------------------------------------------------
  // Theorems
  // ---------------------------------------------------------------------------

  /**
   In every run, the center answers an acceptance with the session whose code was accepted if
   and only if that session is the last that was put in place; an insertion while a session is
   out of the map puts nothing in place.
   */
  lemma AnswersAcceptedSessionIff(
      centerId: Uuid, deviceId: Uuid, stored: Certificate, steps: seq<Step>, i: nat)
    ensures var t := TraceAll(StartTraced(centerId, deviceId, stored), steps);
      && t.sys == Run(Start(centerId, deviceId, stored), steps)
      && (i < |t.grants| ==>
            var g := t.grants[i];
            (g.answered == g.accepted <==> NoneSince(g.placed, g.accepted)))
  {
    var t0 := StartTraced(centerId, deviceId, stored);
    AnswersStayExact(t0, steps);
    TracingIsRunning(t0, steps);
    var t := TraceAll(t0, steps);
    if i < |t.grants| {
      assert Exact(t.grants[i]);
      LastMeansNoneSince(t.grants[i].placed, t.grants[i].accepted);
    }
  }

  /**
   In every run whose keys and identities are new, each time the phone pairs it stores the
   fingerprint of the session whose code its user accepted if and only if, when the center
   answered that acceptance, no other session had been put in place after the accepted one was.
   */
  lemma PhoneStoresAcceptedSessionIff(
      centerId: Uuid, deviceId: Uuid, stored: Certificate, steps: seq<Step>, n: nat)
    requires MintsNew(StartTraced(centerId, deviceId, stored), steps)
    ensures var t := TraceAll(StartTraced(centerId, deviceId, stored), steps);
      && |t.stored| == t.sys.log.phonePairings
      && (n in t.stored ==>
            var g := t.stored[n].grant;
            && g.accepted in t.made
            && (t.stored[n].fingerprint == t.made[g.accepted] <==> NoneSince(g.placed, g.accepted)))
  {
    var t0 := StartTraced(centerId, deviceId, stored);
    TracesStayMade(t0, steps);
    var t := TraceAll(t0, steps);
    if n in t.stored {
      assert Speaks(t.made, t.stored[n].grant, t.stored[n].fingerprint);
      LastMeansNoneSince(t.stored[n].grant.placed, t.stored[n].grant.accepted);
    }
  }
}
