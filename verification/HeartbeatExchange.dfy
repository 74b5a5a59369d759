/**
 Heartbeats between the phone and the center, with the ids envelopes carry. Every envelope gets
 a new id when it is made, on either side, and the center's dispatcher makes a new envelope for
 its reply.
 */
module HeartbeatExchange {
  import opened Wrappers
  import opened Protocol
  import opened WsHandler
  import opened Heartbeat

  /** An envelope on the wire: its id, and what the dispatcher looks at. */
  datatype Wire = Wire(id: Uuid, env: Envelope)

  /**
   `round` is the heartbeat being waited for, with the echoes seen so far; `rounds` the finished
   ones; `sent` and `made` the ids minted by the phone and by the center.
   */
  datatype Exchange = Exchange(
    ourId: Uuid, maps: Maps, up: seq<Wire>, down: seq<Wire>, round: Option<Beat>, rounds: seq<Beat>,
    sent: set<Uuid>, made: set<Uuid>)

  datatype Step =
    | BeginRound(id: Uuid, device: Uuid, at: int, room: bool)
    | EndRound
    | PhoneSends(w: Wire)
    | CenterTakes(now: int, minted: Option<Certificate>, id: Uuid, room: bool)
    | CenterSends(w: Wire)
    | PhoneReceives
    | LoseUp
    | LoseDown

  function Next(x: Exchange, step: Step): Exchange {
    match step
    case BeginRound(id, device, at, room) =>
      if x.round.Some? then x
      else x.(round := Some(Beat(id, at, room, [])), sent := x.sent + {id},
              up := if room then x.up + [Wire(id, Envelope(device, Heartbeat))] else x.up)
    case EndRound => if x.round.None? then x else x.(round := None, rounds := x.rounds + [x.round.value])
    case PhoneSends(w) => x.(up := x.up + [w], sent := x.sent + {w.id})
    case CenterTakes(now, minted, id, room) =>
      if x.up == [] then x
      else
        var (maps, reply) := DispatchSpec(x.maps, x.ourId, x.up[0].env, now, minted);
        var x := x.(maps := maps, up := x.up[1..]);
        if reply.None? then x
        else x.(made := x.made + {id}, down := if room then x.down + [Wire(id, reply.value)] else x.down)
    case CenterSends(w) => x.(down := x.down + [w], made := x.made + {w.id})
    case PhoneReceives =>
      if x.down == [] then x
      else if x.round.Some? && x.down[0].env.body.Heartbeat?
      then x.(down := x.down[1..], round := Some(x.round.value.(echoes := x.round.value.echoes + [x.down[0].id])))
      else x.(down := x.down[1..])
    case LoseUp => if x.up == [] then x else x.(up := x.up[1..])
    case LoseDown => if x.down == [] then x else x.(down := x.down[1..])
  }

  /** A new envelope's id has been used by nobody. */
  predicate MintsNew(x: Exchange, step: Step) {
    match step
    case BeginRound(id, _, _, _) => id !in x.sent + x.made
    case PhoneSends(w) => w.id !in x.sent + x.made
    case CenterTakes(_, _, id, _) => id !in x.sent + x.made
    case CenterSends(w) => w.id !in x.sent + x.made
    case _ => true
  }

  predicate AllMintNew(x: Exchange, steps: seq<Step>)
    decreases |steps|
  {
    steps == [] || (MintsNew(x, steps[0]) && AllMintNew(Next(x, steps[0]), steps[1..]))
  }

  function Run(x: Exchange, steps: seq<Step>): Exchange
    decreases |steps|
  {
    if steps == [] then x else Run(Next(x, steps[0]), steps[1..])
  }

  function Start(ourId: Uuid, maps: Maps): Exchange {
    Exchange(ourId, maps, [], [], None, [], {}, {})
  }

  predicate Foreign(x: Exchange, b: Beat) {
    b.id in x.sent && forall e | e in b.echoes :: e in x.made
  }

  /** What comes down was made by the center, and no id was made on both sides. */
  ghost predicate Apart(x: Exchange) {
    && x.sent !! x.made
    && (forall i | 0 <= i < |x.down| :: x.down[i].id in x.made)
    && (x.round.Some? ==> Foreign(x, x.round.value))
    && (forall i | 0 <= i < |x.rounds| :: Foreign(x, x.rounds[i]))
  }

  lemma NextKeepsApart(x: Exchange, step: Step)
    requires Apart(x) && MintsNew(x, step)
    ensures Apart(Next(x, step))
  {
    var y := Next(x, step);
    assert x.sent <= y.sent && x.made <= y.made;
    forall i | 0 <= i < |y.rounds|
      ensures Foreign(y, y.rounds[i])
    {
      if i < |x.rounds| {
        assert Foreign(x, x.rounds[i]);
      }
    }
  }

  lemma {:induction false} RunKeepsApart(x: Exchange, steps: seq<Step>)
    requires Apart(x) && AllMintNew(x, steps)
    ensures Apart(Run(x, steps))
    decreases |steps|
  {
    if steps != [] {
      NextKeepsApart(x, steps[0]);
      RunKeepsApart(Next(x, steps[0]), steps[1..]);
    }
  }

  /**
   In every run of phone and center, with any other traffic, losses and timing: each heartbeat
   round that ended was a miss, so every third forces a reconnect.
   */
  lemma MintedRepliesForceReconnects(ourId: Uuid, maps: Maps, steps: seq<Step>)
    requires AllMintNew(Start(ourId, maps), steps)
    ensures var rounds := Run(Start(ourId, maps), steps).rounds;
      && (forall i | 0 <= i < |rounds| :: rounds[i].Missed())
      && Thirds(MissRuns(rounds)) == |rounds| / MISSED_BEFORE_RECONNECT
  {
    RunKeepsApart(Start(ourId, maps), steps);
    var x := Run(Start(ourId, maps), steps);
    forall i | 0 <= i < |x.rounds|
      ensures x.rounds[i].Missed()
    {
      assert Foreign(x, x.rounds[i]);
    }
    MissesForceReconnects(x.rounds);
  }

  /** The replies do arrive: a round can see one and still be a miss. */
  lemma ReplyArrivesAndIsMissed(ourId: Uuid, maps: Maps, device: Uuid, id: Uuid, reply: Uuid, now: int)
    returns (steps: seq<Step>)
    requires id != reply
    ensures AllMintNew(Start(ourId, maps), steps)
    ensures Run(Start(ourId, maps), steps).rounds == [Beat(id, now, true, [reply])]
  {
    var a, b, c, d := BeginRound(id, device, now, true), CenterTakes(now, None, reply, true), PhoneReceives, EndRound;
    steps := [a, b, c, d];
    var x0 := Start(ourId, maps);
    var x1 := Next(x0, a);
    var x2 := Next(x1, b);
    var x3 := Next(x2, c);
    assert x1.up == [Wire(id, Envelope(device, Heartbeat))];
    assert x2.down == [Wire(reply, Envelope(ourId, Heartbeat))];
    assert steps[1..] == [b, c, d] && steps[1..][1..] == [c, d] && [c, d][1..] == [d] && [d][1..] == [];
    assert Run(x3, [d]) == Next(x3, d);
    assert Run(x2, [c, d]) == Next(x3, d);
    assert Run(x1, [b, c, d]) == Next(x3, d);
    assert Run(x0, steps) == Next(x3, d);
    assert x3.round.value.echoes == [reply];
    assert AllMintNew(x3, [d]) && AllMintNew(x2, [c, d]) && AllMintNew(x1, [b, c, d]);
  }
}
