/**
 The registry of connected devices: each device id maps to the sender of a bounded FIFO
 channel. Senders are cloned freely, so several ids may share one channel.
 */
module Registry {
  import opened Wrappers
  import opened Protocol

  const CHANNEL_CAPACITY := 32

  datatype DownstreamError = NotConnected | QueueFull

  /** One mpsc channel: queued envelopes, and whether the receiver still exists. */
  datatype Channel<E> = Channel(items: seq<E>, open: bool) {
    predicate HasRoom() {
      open && |items| < CHANNEL_CAPACITY
    }
  }

  /** `senders` is the locked map; `channels` holds the channels the handles point to. */
  datatype Net<E> = Net(senders: map<Uuid, nat>, channels: seq<Channel<E>>) {
    predicate Valid() {
      forall d | d in senders :: senders[d] < |channels|
    }

    predicate CanSend(d: Uuid)
      requires Valid()
    {
      d in senders && channels[senders[d]].HasRoom()
    }

    function TrySend(d: Uuid, e: E): (Net<E>, Result<(), DownstreamError>)
      requires Valid()
    {
      if d !in senders then (this, Err(NotConnected))
      else
        var tx := senders[d];
        if channels[tx].HasRoom()
        then (this.(channels := channels[tx := channels[tx].(items := channels[tx].items + [e])]), Ok(()))
        else (this, Err(QueueFull))
    }
  }

  class DeviceRegistry<E> {
    var senders: map<Uuid, nat>
    var channels: seq<Channel<E>>

    function View(): Net<E>
      reads this
    {
      Net(senders, channels)
    }

    constructor ()
      ensures View() == Net(map[], []) && View().Valid()
    {
      senders, channels := map[], [];
    }

    /** A connection opens its channel before it registers. */
    method OpenChannel() returns (tx: nat)
      requires View().Valid()
      modifies this
      ensures View().Valid() && tx == |old(channels)|
      ensures View() == Next(old(View()), Open) == old(View()).(channels := old(channels) + [Channel([], true)])
    {
      tx := |channels|;
      channels := channels + [Channel([], true)];
    }

    method Register(d: Uuid, tx: nat)
      requires View().Valid() && tx < |channels|
      modifies this
      ensures View().Valid()
      ensures View() == Next(old(View()), Bind(d, tx)) == old(View()).(senders := old(senders)[d := tx])
    {
      senders := senders[d := tx];
    }

    method Unregister(d: Uuid)
      requires View().Valid()
      modifies this
      ensures View().Valid()
      ensures View() == Next(old(View()), Unbind(d)) == old(View()).(senders := old(senders) - {d})
    {
      senders := senders - {d};
    }

    method TrySend(d: Uuid, e: E) returns (r: Result<(), DownstreamError>)
      requires View().Valid()
      modifies this
      ensures View().Valid() && (View(), r) == old(View()).TrySend(d, e) && View() == Next(old(View()), Send(d, e))
    {
      if d !in senders {
        return Err(NotConnected);
      }
      var tx := senders[d];
      if !channels[tx].HasRoom() {
        return Err(QueueFull);
      }
      channels := channels[tx := channels[tx].(items := channels[tx].items + [e])];
      r := Ok(());
    }

    /** The writer task takes the oldest envelope. */
    method Receive(tx: nat) returns (e: Option<E>)
      requires View().Valid() && tx < |channels|
      modifies this
      ensures View().Valid() && senders == old(senders) && View() == Next(old(View()), Take(tx))
      ensures var ch := old(channels)[tx];
        if ch.items == [] then e.None? && channels == old(channels)
        else e == Some(ch.items[0]) && channels == old(channels)[tx := ch.(items := ch.items[1..])]
    {
      var ch := channels[tx];
      if ch.items == [] {
        return None;
      }
      e := Some(ch.items[0]);
      channels := channels[tx := ch.(items := ch.items[1..])];
    }
  }

  // ---------------------------------------------------------------------------
  // FIFO over runs
  // ---------------------------------------------------------------------------

  datatype Op<E> =
    | Open
    | Bind(d: Uuid, tx: nat)
    | Unbind(d: Uuid)
    | Send(d: Uuid, e: E)
    | Take(tx: nat)
    | Close(tx: nat)

  function Next<E>(n: Net<E>, op: Op<E>): (m: Net<E>)
    requires n.Valid()
    ensures m.Valid()
  {
    match op
    case Open => n.(channels := n.channels + [Channel([], true)])
    case Bind(d, tx) => if tx < |n.channels| then n.(senders := n.senders[d := tx]) else n
    case Unbind(d) => n.(senders := n.senders - {d})
    case Send(d, e) => n.TrySend(d, e).0
    case Take(tx) =>
      if tx < |n.channels| && n.channels[tx].items != []
      then n.(channels := n.channels[tx := n.channels[tx].(items := n.channels[tx].items[1..])]) else n
    case Close(tx) =>
      if tx < |n.channels| then n.(channels := n.channels[tx := n.channels[tx].(open := false)]) else n
  }

  function Run<E>(n: Net<E>, ops: seq<Op<E>>): (m: Net<E>)
    requires n.Valid()
    ensures m.Valid()
  {
    if ops == [] then n else Next(Run(n, ops[..|ops| - 1]), ops[|ops| - 1])
  }

  function AcceptedBy<E>(m: Net<E>, op: Op<E>, tx: nat): seq<E>
    requires m.Valid()
  {
    if op.Send? && m.CanSend(op.d) && m.senders[op.d] == tx then [op.e] else []
  }

  function TakenBy<E>(m: Net<E>, op: Op<E>, tx: nat): seq<E> {
    if op.Take? && op.tx == tx && Queued(m, tx) != [] then [Queued(m, tx)[0]] else []
  }

  /** What was accepted into channel `tx`, oldest first. */
  function Accepted<E>(n: Net<E>, ops: seq<Op<E>>, tx: nat): seq<E>
    requires n.Valid()
  {
    if ops == [] then []
    else
      var before := ops[..|ops| - 1];
      Accepted(n, before, tx) + AcceptedBy(Run(n, before), ops[|ops| - 1], tx)
  }

  /** What the writer of channel `tx` took, oldest first. */
  function Taken<E>(n: Net<E>, ops: seq<Op<E>>, tx: nat): seq<E>
    requires n.Valid()
  {
    if ops == [] then []
    else
      var before := ops[..|ops| - 1];
      Taken(n, before, tx) + TakenBy(Run(n, before), ops[|ops| - 1], tx)
  }

  function Queued<E>(n: Net<E>, tx: nat): seq<E> {
    if tx < |n.channels| then n.channels[tx].items else []
  }

  ghost predicate WithinCapacity<E>(n: Net<E>) {
    forall tx | 0 <= tx < |n.channels| :: |n.channels[tx].items| <= CHANNEL_CAPACITY
  }

  /** A send is refused exactly for an unknown device, or a queue that is full or abandoned. */
  lemma SendRefusedIff<E>(n: Net<E>, d: Uuid, e: E)
    requires n.Valid()
    ensures var (m, r) := n.TrySend(d, e);
      && (r == Err(NotConnected) <==> d !in n.senders)
      && (r == Err(QueueFull) <==>
            d in n.senders &&
            (!n.channels[n.senders[d]].open || |n.channels[n.senders[d]].items| >= CHANNEL_CAPACITY))
      && (r.Err? ==> m == n) && (r.Ok? <==> n.CanSend(d)) && m.senders == n.senders
      && (r.Ok? ==> m.channels == n.channels[n.senders[d] := m.channels[n.senders[d]]])
      && (r.Ok? ==> m.channels[n.senders[d]].items == n.channels[n.senders[d]].items + [e])
  {
  }

  lemma StepIsFifo<E>(m: Net<E>, op: Op<E>, tx: nat)
    requires m.Valid()
    ensures TakenBy(m, op, tx) + Queued(Next(m, op), tx) == Queued(m, tx) + AcceptedBy(m, op, tx)
    ensures WithinCapacity(m) ==> WithinCapacity(Next(m, op))
  {
    var after := Queued(Next(m, op), tx);
    if AcceptedBy(m, op, tx) != [] {
      assert after == Queued(m, tx) + [op.e];
    } else if TakenBy(m, op, tx) != [] {
      assert after == Queued(m, tx)[1..];
    } else {
      assert after == Queued(m, tx);
    }
  }

  lemma Regroup<E>(
      taken: seq<E>, more: seq<E>, left: seq<E>, queued: seq<E>, added: seq<E>, first: seq<E>, accepted: seq<E>)
    requires taken + queued == first + accepted && more + left == queued + added
    ensures (taken + more) + left == first + (accepted + added)
  {
    assert (taken + more) + left == taken + (more + left) == (taken + queued) + added;
  }

  /**
   Every channel is a bounded FIFO, whichever ids share it: what the writer took followed by
   what is still queued is what was queued at first followed by what was accepted, in order.
   */
  lemma {:induction false} ChannelsAreFifo<E>(n: Net<E>, ops: seq<Op<E>>, tx: nat)
    requires n.Valid() && WithinCapacity(n)
    ensures Taken(n, ops, tx) + Queued(Run(n, ops), tx) == Queued(n, tx) + Accepted(n, ops, tx)
    ensures WithinCapacity(Run(n, ops))
  {
    if ops != [] {
      var before, op := ops[..|ops| - 1], ops[|ops| - 1];
      ChannelsAreFifo(n, before, tx);
      var m := Run(n, before);
      StepIsFifo(m, op, tx);
      Regroup(Taken(n, before, tx), TakenBy(m, op, tx), Queued(Next(m, op), tx),
              Queued(m, tx), AcceptedBy(m, op, tx), Queued(n, tx), Accepted(n, before, tx));
    }
  }
}
