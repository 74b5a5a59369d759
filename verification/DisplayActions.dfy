/**
 Actions from desktop displays: each is checked, turned into an envelope for one phone or into
 a database write, and answered on the event bus.
 */
module DisplayActions {
  import opened Wrappers
  import opened Protocol
  import opened Registry

  datatype Action = Action(
    kind: string, deviceId: Uuid, envelopeId: Uuid, to: Option<string>, body: Option<string>)

  /** The payload of an envelope the center sends to a phone for a display. */
  datatype Order =
    | SmsSendRequest(to: string, body: string)
    | NotificationDismissed(id: Uuid)
    | CallAnswerRequest
    | CallEndRequest

  datatype Reason =
    | PhoneOffline
    | MissingTo
    | MissingBody
    | UnknownKind
    | DatabaseError
    | NotDelivered(error: DownstreamError)

  datatype Event =
    | OfflineNotice(envelopeId: Uuid, deviceId: Uuid, actionKind: string)
    | ActionResult(envelopeId: Uuid, deviceId: Uuid, actionKind: string, ok: bool, reason: Option<Reason>)

  function ResultFor(a: Action, reason: Option<Reason>): Event {
    ActionResult(a.envelopeId, a.deviceId, a.kind, reason.None?, reason)
  }

  predicate Given(field: Option<string>) {
    field.Some? && field.value != ""
  }

  /** What an action asks for: an envelope, only a database write, or nothing it may have. */
  function Plan(a: Action): Result<Option<Order>, Reason> {
    if a.kind == "sms.reply" then
      if !Given(a.to) then Err(MissingTo)
      else if !Given(a.body) then Err(MissingBody)
      else Ok(Some(SmsSendRequest(a.to.value, a.body.value)))
    else if a.kind == "notification.read" then Ok(None)
    else if a.kind == "notification.dismiss" then Ok(Some(NotificationDismissed(a.envelopeId)))
    else if a.kind == "call.answer" then Ok(Some(CallAnswerRequest))
    else if a.kind == "call.end" then Ok(Some(CallEndRequest))
    else Err(UnknownKind)
  }

  const KINDS := {"sms.reply", "notification.read", "notification.dismiss", "call.answer", "call.end"}

  /** What an order may be for an action: the right envelope for its kind, with the action's own content. */
  predicate Orders(a: Action, order: Order) {
    match order
    case SmsSendRequest(to, body) =>
      a.kind == "sms.reply" && a.to == Some(to) && to != "" && a.body == Some(body) && body != ""
    case NotificationDismissed(id) => a.kind == "notification.dismiss" && id == a.envelopeId
    case CallAnswerRequest => a.kind == "call.answer"
    case CallEndRequest => a.kind == "call.end"
  }

  /** What an action puts on phone queues: nothing without success or for a read, else one order for its device. */
  predicate Settles(a: Action, ok: bool, sent: seq<(Uuid, Order)>) {
    if !ok || a.kind == "notification.read" then sent == []
    else |sent| == 1 && sent[0].0 == a.deviceId && Orders(a, sent[0].1)
  }

  /** Only the end of the device's own queue may change, by what the action puts there. */
  ghost predicate Carries(before: Net<Order>, after: Net<Order>, a: Action, ok: bool)
    requires before.Valid()
  {
    exists sent | Settles(a, ok, sent) :: Delivered(before, after, sent)
  }

  predicate Delivered(before: Net<Order>, after: Net<Order>, sent: seq<(Uuid, Order)>)
    requires before.Valid()
  {
    if sent == [] then after == before
    else
      && |sent| == 1 && before.CanSend(sent[0].0)
      && var tx := before.senders[sent[0].0];
         after == before.(channels :=
           before.channels[tx := Channel(before.channels[tx].items + [sent[0].1], true)])
  }

  /** Why the action failed, or `None`; and the network after it. */
  function Perform(net: Net<Order>, a: Action, dbOk: bool): (Net<Order>, Option<Reason>)
    requires net.Valid()
  {
    match Plan(a)
    case Err(reason) => (net, Some(reason))
    case Ok(None) => (net, if dbOk then None else Some(DatabaseError))
    case Ok(Some(order)) =>
      var (sent, r) := net.TrySend(a.deviceId, order);
      (sent, if r.Ok? then None else Some(NotDelivered(r.error)))
  }

  /**
   An action succeeds exactly if its kind is known, a reply names a recipient and a text, the
   database takes a read, and the device's queue takes the rest; otherwise the reason is the
   first of these that failed. Either way the network changes by what the action may order.
   */
  lemma PerformDecides(net: Net<Order>, a: Action, dbOk: bool)
    requires net.Valid()
    ensures var (net', reason) := Perform(net, a, dbOk);
      var reply := a.kind == "sms.reply";
      var complete := reply ==> Given(a.to) && Given(a.body);
      && Carries(net, net', a, reason.None?)
      && (reason.None? <==>
            && a.kind in KINDS && complete
            && if a.kind == "notification.read" then dbOk else net.CanSend(a.deviceId))
      && (reason == Some(UnknownKind) <==> a.kind !in KINDS)
      && (reason == Some(MissingTo) <==> reply && !Given(a.to))
      && (reason == Some(MissingBody) <==> reply && Given(a.to) && !Given(a.body))
      && (reason == Some(DatabaseError) <==> a.kind == "notification.read" && !dbOk)
      && (reason == Some(NotDelivered(NotConnected)) ==> a.deviceId !in net.senders)
      && (reason == Some(NotDelivered(QueueFull)) ==> a.deviceId in net.senders && !net.CanSend(a.deviceId))
      && reason != Some(PhoneOffline)
  {
    var (net', reason) := Perform(net, a, dbOk);
    if Plan(a).Ok? && Plan(a).value.Some? && reason.None? {
      var sent := [(a.deviceId, Plan(a).value.value)];
      assert Settles(a, true, sent) && Delivered(net, net', sent);
    } else {
      assert Settles(a, reason.None?, []) && Delivered(net, net', []);
    }
  }

  class DisplayEndpoint {
    const registry: DeviceRegistry<Order>
    var bus: seq<Event>

    constructor (registry: DeviceRegistry<Order>)
      ensures this.registry == registry && bus == []
    {
      this.registry := registry;
      bus := [];
    }

    /** One action while no other task runs; `dbOk` says whether the database accepts the write. */
    method HandleAction(a: Action, dbOk: bool)
      requires registry.View().Valid()
      modifies this, registry
      ensures registry.View().Valid()
      ensures a.deviceId !in old(registry.senders) ==>
        && registry.View() == old(registry.View())
        && bus == old(bus) + [OfflineNotice(a.envelopeId, a.deviceId, a.kind), ResultFor(a, Some(PhoneOffline))]
      ensures a.deviceId in old(registry.senders) ==>
        && registry.View() == Perform(old(registry.View()), a, dbOk).0
        && bus == old(bus) + [ResultFor(a, Perform(old(registry.View()), a, dbOk).1)]
      ensures bus != [] && bus[|bus| - 1].ActionResult?
      ensures Carries(old(registry.View()), registry.View(), a, bus[|bus| - 1].ok)
    {
      PerformDecides(registry.View(), a, dbOk);
      assert Settles(a, false, []) && Delivered(registry.View(), registry.View(), []);
      if a.deviceId !in registry.senders {
        bus := bus + [OfflineNotice(a.envelopeId, a.deviceId, a.kind)];
        bus := bus + [ResultFor(a, Some(PhoneOffline))];
        return;
      }
      if a.kind == "sms.reply" {
        DoSmsReply(a);
      } else if a.kind == "notification.read" {
        bus := bus + [ResultFor(a, if dbOk then None else Some(DatabaseError))];
      } else if a.kind == "notification.dismiss" {
        Forward(a, NotificationDismissed(a.envelopeId));
      } else if a.kind == "call.answer" {
        Forward(a, CallAnswerRequest);
      } else if a.kind == "call.end" {
        Forward(a, CallEndRequest);
      } else {
        bus := bus + [ResultFor(a, Some(UnknownKind))];
      }
    }

    method DoSmsReply(a: Action)
      requires registry.View().Valid() && a.kind == "sms.reply"
      modifies this, registry
      ensures registry.View().Valid()
      ensures var (net, reason) := Perform(old(registry.View()), a, true);
        registry.View() == net && bus == old(bus) + [ResultFor(a, reason)]
    {
      if !Given(a.to) {
        bus := bus + [ResultFor(a, Some(MissingTo))];
        return;
      }
      if !Given(a.body) {
        bus := bus + [ResultFor(a, Some(MissingBody))];
        return;
      }
      Forward(a, SmsSendRequest(a.to.value, a.body.value));
    }

    method Forward(a: Action, order: Order)
      requires registry.View().Valid()
      modifies this, registry
      ensures registry.View().Valid()
      ensures var (net, r) := old(registry.View()).TrySend(a.deviceId, order);
        registry.View() == net &&
        bus == old(bus) + [ResultFor(a, if r.Ok? then None else Some(NotDelivered(r.error)))]
    {
      var r := registry.TrySend(a.deviceId, order);
      bus := bus + [ResultFor(a, if r.Ok? then None else Some(NotDelivered(r.error)))];
    }
  }

  // ---------------------------------------------------------------------------
  // Several displays at once
  // ---------------------------------------------------------------------------

  /** Where one display connection is; its reader takes the next action only when idle. */
  datatype Phase = Idle | Checked(action: Action) | Performed(action: Action, reason: Option<Reason>)

  datatype Entry =
    | Arrived(conn: nat, action: Action)
    | Pushed(conn: nat, d: Uuid, tx: nat, order: Order)
    | Published(conn: nat, event: Event)
    | Other(op: Op<Order>)

  datatype Sys = Sys(net: Net<Order>, phases: map<nat, Phase>, log: seq<Entry>) {
    function PhaseOf(conn: nat): Phase {
      if conn in phases then phases[conn] else Idle
    }
  }

  /** The lock on the registry is free between the steps of one action. */
  datatype Step =
    | Arrive(conn: nat, action: Action)
    | Act(conn: nat, dbOk: bool)
    | Answer(conn: nat)
    | Elsewhere(op: Op<Order>)

  function Next(s: Sys, step: Step): (t: Sys)
    requires s.net.Valid()
    ensures t.net.Valid()
  {
    match step
    case Arrive(conn, a) =>
      if !s.PhaseOf(conn).Idle? then s
      else if a.deviceId in s.net.senders
      then s.(phases := s.phases[conn := Checked(a)], log := s.log + [Arrived(conn, a)])
      else s.(phases := s.phases[conn := Performed(a, Some(PhoneOffline))],
              log := s.log + [Arrived(conn, a), Published(conn, OfflineNotice(a.envelopeId, a.deviceId, a.kind))])
    case Act(conn, dbOk) =>
      if !s.PhaseOf(conn).Checked? then s
      else
        var a := s.PhaseOf(conn).action;
        var (net, reason) := Perform(s.net, a, dbOk);
        Sys(net, s.phases[conn := Performed(a, reason)], s.log + Push(s.net, conn, a))
    case Answer(conn) =>
      if !s.PhaseOf(conn).Performed? then s
      else
        var p := s.PhaseOf(conn);
        s.(phases := s.phases[conn := Idle], log := s.log + [Published(conn, ResultFor(p.action, p.reason))])
    case Elsewhere(op) => s.(net := Registry.Next(s.net, op), log := s.log + [Other(op)])
  }

  /** The log entry of an envelope that the channel takes. */
  function Push(net: Net<Order>, conn: nat, a: Action): seq<Entry>
    requires net.Valid()
  {
    if Plan(a).Ok? && Plan(a).value.Some? && net.CanSend(a.deviceId)
    then [Pushed(conn, a.deviceId, net.senders[a.deviceId], Plan(a).value.value)] else []
  }

  function Run(s: Sys, steps: seq<Step>): (t: Sys)
    requires s.net.Valid()
    ensures t.net.Valid()
  {
    if steps == [] then s else Next(Run(s, steps[..|steps| - 1]), steps[|steps| - 1])
  }

  // ---------------------------------------------------------------------------
  // What the log says
  // ---------------------------------------------------------------------------

  function ActionsOf(log: seq<Entry>, conn: nat): seq<Action> {
    if log == [] then []
    else
      var last := log[|log| - 1];
      ActionsOf(log[..|log| - 1], conn) + if last.Arrived? && last.conn == conn then [last.action] else []
  }

  function ResultsOf(log: seq<Entry>, conn: nat): seq<Event> {
    if log == [] then []
    else
      var last := log[|log| - 1];
      ResultsOf(log[..|log| - 1], conn) +
      if last.Published? && last.conn == conn && last.event.ActionResult? then [last.event] else []
  }

  /** Envelopes a connection put on phone queues, with the device each was meant for. */
  function PushesOf(log: seq<Entry>, conn: nat): seq<(Uuid, Order)> {
    if log == [] then []
    else
      var last := log[|log| - 1];
      PushesOf(log[..|log| - 1], conn) + if last.Pushed? && last.conn == conn then [(last.d, last.order)] else []
  }

  /** The registry calls the log stands for. */
  function OpsOf(log: seq<Entry>): seq<Op<Order>> {
    if log == [] then []
    else
      var last := log[|log| - 1];
      OpsOf(log[..|log| - 1]) +
      match last
      case Pushed(_, d, _, order) => [Send(d, order)]
      case Other(op) => [op]
      case _ => []
  }

  predicate Answers(e: Event, a: Action) {
    && e.ActionResult? && e.envelopeId == a.envelopeId && e.deviceId == a.deviceId && e.actionKind == a.kind
    && e.ok == e.reason.None?
  }

  ghost predicate AnswersAll(actions: seq<Action>, results: seq<Event>) {
    |results| == |actions| && forall i | 0 <= i < |results| :: Answers(results[i], actions[i])
  }

  /** Whether each result is a success. */
  function Successes(results: seq<Event>): (oks: seq<bool>)
    requires forall i | 0 <= i < |results| :: results[i].ActionResult?
    ensures |oks| == |results|
  {
    seq(|results|, i requires 0 <= i < |results| => results[i].ok)
  }

  /** The pushes of a connection, cut into what each of its actions put on phone queues, in order. */
  ghost predicate SettlesAll(actions: seq<Action>, oks: seq<bool>, pushes: seq<(Uuid, Order)>)
    requires |actions| == |oks|
  {
    if actions == [] then pushes == []
    else
      var n := |actions| - 1;
      exists m | 0 <= m <= |pushes| ::
        Settles(actions[n], oks[n], pushes[m..]) && SettlesAll(actions[..n], oks[..n], pushes[..m])
  }

  lemma SettlesSnoc(
      actions: seq<Action>, oks: seq<bool>, pushes: seq<(Uuid, Order)>, a: Action, ok: bool, sent: seq<(Uuid, Order)>)
    requires |actions| == |oks| && SettlesAll(actions, oks, pushes) && Settles(a, ok, sent)
    ensures SettlesAll(actions + [a], oks + [ok], pushes + sent)
  {
    var all := pushes + sent;
    assert all[|pushes|..] == sent && all[..|pushes|] == pushes;
    assert (actions + [a])[..|actions|] == actions && (oks + [ok])[..|oks|] == oks;
  }

  /** The answers of a connection so far, and the action it is busy with. */
  ghost predicate Steady(phase: Phase, actions: seq<Action>, results: seq<Event>, pushes: seq<(Uuid, Order)>) {
    var n := |results|;
    && n <= |actions| && AnswersAll(actions[..n], results)
    && |actions| == n + (if phase.Idle? then 0 else 1)
    && (!phase.Idle? ==> actions[n] == phase.action)
    && if phase.Performed? then SettlesAll(actions, Successes(results) + [phase.reason.None?], pushes)
       else SettlesAll(actions[..n], Successes(results), pushes)
  }

  ghost predicate InStep(s: Sys, conn: nat) {
    Steady(s.PhaseOf(conn), ActionsOf(s.log, conn), ResultsOf(s.log, conn), PushesOf(s.log, conn))
  }

  lemma SteadyArrive(actions: seq<Action>, results: seq<Event>, pushes: seq<(Uuid, Order)>, a: Action, r: Reason)
    requires Steady(Idle, actions, results, pushes)
    ensures Steady(Checked(a), actions + [a], results, pushes)
    ensures Steady(Performed(a, Some(r)), actions + [a], results, pushes)
  {
    assert (actions + [a])[..|results|] == actions == actions[..|results|];
    SettlesSnoc(actions, Successes(results), pushes, a, false, []);
    assert pushes + [] == pushes;
  }

  lemma SteadyAct(
      actions: seq<Action>, results: seq<Event>, pushes: seq<(Uuid, Order)>, a: Action, reason: Option<Reason>,
      sent: seq<(Uuid, Order)>)
    requires Steady(Checked(a), actions, results, pushes) && Settles(a, reason.None?, sent)
    ensures Steady(Performed(a, reason), actions, results, pushes + sent)
  {
    var n := |results|;
    SettlesSnoc(actions[..n], Successes(results), pushes, a, reason.None?, sent);
    assert actions == actions[..n] + [a];
  }

  lemma SteadyAnswer(
      actions: seq<Action>, results: seq<Event>, pushes: seq<(Uuid, Order)>, a: Action, reason: Option<Reason>)
    requires Steady(Performed(a, reason), actions, results, pushes)
    ensures Steady(Idle, actions, results + [ResultFor(a, reason)], pushes)
  {
    var n, after := |results|, results + [ResultFor(a, reason)];
    assert actions[..n + 1] == actions;
    assert AnswersAll(actions, after) by {
      forall i | 0 <= i < |after|
        ensures Answers(after[i], actions[i])
      {
        assert i < n ==> Answers(results[i], actions[..n][i]);
      }
    }
    assert Successes(after) == Successes(results) + [reason.None?];
  }

  /** What one entry adds to the projections of the log. */
  lemma LogSnoc(log: seq<Entry>, e: Entry, conn: nat)
    ensures ActionsOf(log + [e], conn) ==
      if e.Arrived? && e.conn == conn then ActionsOf(log, conn) + [e.action] else ActionsOf(log, conn)
    ensures ResultsOf(log + [e], conn) ==
      if e.Published? && e.conn == conn && e.event.ActionResult?
      then ResultsOf(log, conn) + [e.event] else ResultsOf(log, conn)
    ensures PushesOf(log + [e], conn) ==
      if e.Pushed? && e.conn == conn then PushesOf(log, conn) + [(e.d, e.order)] else PushesOf(log, conn)
    ensures OpsOf(log + [e]) ==
      match e
      case Pushed(_, d, _, order) => OpsOf(log) + [Send(d, order)]
      case Other(op) => OpsOf(log) + [op]
      case _ => OpsOf(log)
  {
    var all := log + [e];
    assert all[..|all| - 1] == log;
  }

  /** What an arrival adds to each projection of the log. */
  lemma ArriveEffect(s: Sys, c: nat, a: Action, conn: nat)
    requires s.net.Valid() && s.PhaseOf(c).Idle?
    ensures var t := Next(s, Arrive(c, a));
      && ActionsOf(t.log, conn) == (if c == conn then ActionsOf(s.log, conn) + [a] else ActionsOf(s.log, conn))
      && ResultsOf(t.log, conn) == ResultsOf(s.log, conn)
      && PushesOf(t.log, conn) == PushesOf(s.log, conn)
      && OpsOf(t.log) == OpsOf(s.log)
  {
    var arrived, notice := Arrived(c, a), Published(c, OfflineNotice(a.envelopeId, a.deviceId, a.kind));
    LogSnoc(s.log, arrived, conn);
    LogSnoc(s.log + [arrived], notice, conn);
    assert s.log + [arrived, notice] == s.log + [arrived] + [notice];
  }

  lemma ArriveStays(s: Sys, c: nat, a: Action, conn: nat)
    requires s.net.Valid() && InStep(s, conn)
    ensures InStep(Next(s, Arrive(c, a)), conn)
  {
    if s.PhaseOf(c).Idle? {
      ArriveEffect(s, c, a, conn);
      if c == conn {
        SteadyArrive(ActionsOf(s.log, conn), ResultsOf(s.log, conn), PushesOf(s.log, conn), a, PhoneOffline);
      }
    }
  }

  /** A logged push is what the action may order, and is logged exactly when it succeeds. */
  lemma PushSettles(net: Net<Order>, conn: nat, a: Action, dbOk: bool)
    requires net.Valid()
    ensures var push, ok := Push(net, conn, a), Perform(net, a, dbOk).1.None?;
      if push == [] then Settles(a, ok, [])
      else push == [push[0]] && push[0].Pushed? && push[0].conn == conn && Settles(a, ok, [(push[0].d, push[0].order)])
  {
  }

  lemma ActStays(s: Sys, c: nat, dbOk: bool, conn: nat)
    requires s.net.Valid() && InStep(s, conn)
    ensures InStep(Next(s, Act(c, dbOk)), conn)
  {
    if s.PhaseOf(c).Checked? {
      var a := s.PhaseOf(c).action;
      var push := Push(s.net, c, a);
      PushSettles(s.net, c, a, dbOk);
      if push == [] {
        assert s.log + push == s.log;
        assert PushesOf(s.log, conn) + [] == PushesOf(s.log, conn);
      } else {
        LogSnoc(s.log, push[0], conn);
      }
      if c == conn {
        var sent := if push == [] then [] else [(push[0].d, push[0].order)];
        SteadyAct(
          ActionsOf(s.log, conn), ResultsOf(s.log, conn), PushesOf(s.log, conn), a, Perform(s.net, a, dbOk).1, sent);
      }
    }
  }

  lemma AnswerStays(s: Sys, c: nat, conn: nat)
    requires s.net.Valid() && InStep(s, conn)
    ensures InStep(Next(s, Answer(c)), conn)
  {
    if s.PhaseOf(c).Performed? {
      var p := s.PhaseOf(c);
      LogSnoc(s.log, Published(c, ResultFor(p.action, p.reason)), conn);
      var t := Next(s, Answer(c));
      assert t.log == s.log + [Published(c, ResultFor(p.action, p.reason))];
      assert t.PhaseOf(conn) == if c == conn then Idle else s.PhaseOf(conn);
      if c == conn {
        SteadyAnswer(ActionsOf(s.log, conn), ResultsOf(s.log, conn), PushesOf(s.log, conn), p.action, p.reason);
      }
    }
  }

  lemma StaysInStep(s: Sys, step: Step, conn: nat)
    requires s.net.Valid() && InStep(s, conn)
    ensures InStep(Next(s, step), conn)
  {
    match step {
      case Arrive(c, a) => ArriveStays(s, c, a, conn);
      case Act(c, dbOk) => ActStays(s, c, dbOk, conn);
      case Answer(c) => AnswerStays(s, c, conn);
      case Elsewhere(op) => LogSnoc(s.log, Other(op), conn);
    }
  }

  /**
   In every interleaving of any number of displays with anything else that uses the registry,
   each connection's results answer its actions one for one and in order, and the envelopes it
   queued are one per ok result other than a read, in order, each for its action's device and
   with what an action of that kind may order.
   */
  lemma {:induction false} OneResultPerAction(net: Net<Order>, steps: seq<Step>, conn: nat)
    requires net.Valid()
    ensures InStep(Run(Sys(net, map[], []), steps), conn)
  {
    if steps != [] {
      var before := steps[..|steps| - 1];
      OneResultPerAction(net, before, conn);
      StaysInStep(Run(Sys(net, map[], []), before), steps[|steps| - 1], conn);
    }
  }

  /** The bus events of a log, in order. */
  function EventsOf(log: seq<Entry>): seq<Event> {
    if log == [] then []
    else
      var last := log[|log| - 1];
      EventsOf(log[..|log| - 1]) + if last.Published? then [last.event] else []
  }

  lemma EventsSnoc(log: seq<Entry>, e: Entry)
    ensures EventsOf(log + [e]) == EventsOf(log) + if e.Published? then [e.event] else []
  {
    assert (log + [e])[..|log|] == log;
  }

  lemma ArriveAlone(net: Net<Order>, conn: nat, a: Action)
    requires net.Valid()
    ensures var t := Next(Sys(net, map[], []), Arrive(conn, a));
      && t.net == net
      && t.PhaseOf(conn) == (if a.deviceId in net.senders then Checked(a) else Performed(a, Some(PhoneOffline)))
      && EventsOf(t.log) ==
           if a.deviceId in net.senders then [] else [OfflineNotice(a.envelopeId, a.deviceId, a.kind)]
  {
    var arrived, notice := Arrived(conn, a), Published(conn, OfflineNotice(a.envelopeId, a.deviceId, a.kind));
    EventsSnoc([], arrived);
    EventsSnoc([] + [arrived], notice);
    assert [] + [arrived] == [arrived] && [arrived] + [notice] == [arrived, notice];
  }

  lemma ActAlone(s: Sys, conn: nat, dbOk: bool)
    requires s.net.Valid() && s.PhaseOf(conn).Checked?
    ensures var t, a := Next(s, Act(conn, dbOk)), s.PhaseOf(conn).action;
      && t.net == Perform(s.net, a, dbOk).0 && t.PhaseOf(conn) == Performed(a, Perform(s.net, a, dbOk).1)
      && EventsOf(t.log) == EventsOf(s.log)
  {
    var push := Push(s.net, conn, s.PhaseOf(conn).action);
    PushSettles(s.net, conn, s.PhaseOf(conn).action, dbOk);
    if push == [] {
      assert s.log + push == s.log;
    } else {
      EventsSnoc(s.log, push[0]);
    }
  }

  lemma AnswerAlone(s: Sys, conn: nat)
    requires s.net.Valid() && s.PhaseOf(conn).Performed?
    ensures var t, p := Next(s, Answer(conn)), s.PhaseOf(conn);
      t.net == s.net && EventsOf(t.log) == EventsOf(s.log) + [ResultFor(p.action, p.reason)]
  {
    EventsSnoc(s.log, Published(conn, ResultFor(s.PhaseOf(conn).action, s.PhaseOf(conn).reason)));
  }

  /** Without interleaving, the three steps of one action are the handler's one call. */
  lemma CallIsRun(net: Net<Order>, conn: nat, a: Action, dbOk: bool)
    requires net.Valid()
    ensures var t := Next(Next(Next(Sys(net, map[], []), Arrive(conn, a)), Act(conn, dbOk)), Answer(conn));
      && (a.deviceId in net.senders ==>
            t.net == Perform(net, a, dbOk).0 && EventsOf(t.log) == [ResultFor(a, Perform(net, a, dbOk).1)])
      && (a.deviceId !in net.senders ==>
            t.net == net &&
            EventsOf(t.log) == [OfflineNotice(a.envelopeId, a.deviceId, a.kind), ResultFor(a, Some(PhoneOffline))])
  {
    var s1 := Next(Sys(net, map[], []), Arrive(conn, a));
    ArriveAlone(net, conn, a);
    if a.deviceId in net.senders {
      ActAlone(s1, conn, dbOk);
    } else {
      assert Next(s1, Act(conn, dbOk)) == s1;
    }
    AnswerAlone(Next(s1, Act(conn, dbOk)), conn);
  }

  // ---------------------------------------------------------------------------
  // Where the envelopes went
  // ---------------------------------------------------------------------------

  /** Every logged push found the target's own channel with room. */
  ghost predicate Landed(net: Net<Order>, log: seq<Entry>)
    requires net.Valid()
  {
    log != [] ==>
      var before, last := log[..|log| - 1], log[|log| - 1];
      Landed(net, before) &&
      (last.Pushed? ==>
        var m := Registry.Run(net, OpsOf(before));
        m.CanSend(last.d) && m.senders[last.d] == last.tx)
  }

  lemma LandedSnoc(net: Net<Order>, log: seq<Entry>, e: Entry)
    requires net.Valid() && Landed(net, log)
    requires e.Pushed? ==>
      var m := Registry.Run(net, OpsOf(log)); m.CanSend(e.d) && m.senders[e.d] == e.tx
    ensures Landed(net, log + [e])
  {
    assert (log + [e])[..|log + [e]| - 1] == log;
  }

  lemma RunSnoc(net: Net<Order>, ops: seq<Op<Order>>, op: Op<Order>)
    requires net.Valid()
    ensures Registry.Run(net, ops + [op]) == Registry.Next(Registry.Run(net, ops), op)
  {
    assert (ops + [op])[..|ops + [op]| - 1] == ops;
  }

  ghost predicate Traced(net: Net<Order>, s: Sys)
    requires net.Valid()
  {
    Landed(net, s.log) && s.net == Registry.Run(net, OpsOf(s.log))
  }

  lemma ArriveLands(net: Net<Order>, s: Sys, c: nat, a: Action)
    requires net.Valid() && s.net.Valid() && Traced(net, s) && s.PhaseOf(c).Idle?
    ensures Traced(net, Next(s, Arrive(c, a)))
  {
    var arrived, notice := Arrived(c, a), Published(c, OfflineNotice(a.envelopeId, a.deviceId, a.kind));
    ArriveEffect(s, c, a, c);
    LandedSnoc(net, s.log, arrived);
    LandedSnoc(net, s.log + [arrived], notice);
    assert s.log + [arrived, notice] == s.log + [arrived] + [notice];
  }

  lemma ActLands(net: Net<Order>, s: Sys, c: nat, dbOk: bool)
    requires net.Valid() && s.net.Valid() && Traced(net, s) && s.PhaseOf(c).Checked?
    ensures Traced(net, Next(s, Act(c, dbOk)))
  {
    var a := s.PhaseOf(c).action;
    var push := Push(s.net, c, a);
    PushSettles(s.net, c, a, dbOk);
    if push == [] {
      assert s.log + push == s.log;
    } else {
      LogSnoc(s.log, push[0], c);
      LandedSnoc(net, s.log, push[0]);
      RunSnoc(net, OpsOf(s.log), Send(a.deviceId, push[0].order));
    }
  }

  lemma NextLands(net: Net<Order>, s: Sys, step: Step)
    requires net.Valid() && s.net.Valid() && Traced(net, s)
    ensures Traced(net, Next(s, step))
  {
    match step {
      case Arrive(c, a) =>
        if s.PhaseOf(c).Idle? {
          ArriveLands(net, s, c, a);
        }
      case Act(c, dbOk) =>
        if s.PhaseOf(c).Checked? {
          ActLands(net, s, c, dbOk);
        }
      case Answer(c) =>
        if s.PhaseOf(c).Performed? {
          var e := Published(c, ResultFor(s.PhaseOf(c).action, s.PhaseOf(c).reason));
          LogSnoc(s.log, e, c);
          LandedSnoc(net, s.log, e);
        }
      case Elsewhere(op) =>
        LogSnoc(s.log, Other(op), 0);
        LandedSnoc(net, s.log, Other(op));
        RunSnoc(net, OpsOf(s.log), op);
    }
  }

  /**
   The queues hold what the log says: the network is the run of the logged pushes and of the
   other tasks' calls, and every push went to the channel its device was registered under.
   */
  lemma {:induction false} QueuesMatchLog(net: Net<Order>, steps: seq<Step>)
    requires net.Valid()
    ensures Traced(net, Run(Sys(net, map[], []), steps))
  {
    if steps != [] {
      var before := steps[..|steps| - 1];
      QueuesMatchLog(net, before);
      NextLands(net, Run(Sys(net, map[], []), before), steps[|steps| - 1]);
    }
  }
}
