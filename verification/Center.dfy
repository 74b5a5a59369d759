/**
 The message-center's pairing code paths on shared objects: `dispatch`, the per-frame part of
 the connection loop, and the pairing REST handlers.
 */
module Center {
  import opened Wrappers
  import opened Protocol
  import opened Sessions
  import opened WsHandler
  import opened Registry
  import DeviceTable

  datatype Status = OK | NoContent | NotFound | Conflict | InternalError | Unavailable

  /** Fresh identity and ephemeral key for a new initiator. */
  datatype Kit = Kit(identity: Certificate, ephemeral: string)

  // ---------------------------------------------------------------------------
  // Specifications of the REST calls
  // ---------------------------------------------------------------------------

  function PairStartSpec(m: Maps, net: Net<Envelope>, ourId: Uuid, d: Uuid, kit: Option<Kit>)
    : (Maps, Net<Envelope>, Status)
    requires net.Valid()
  {
    if d !in net.senders then (m, net, Conflict)
    else if kit.None? then (m, net, InternalError)
    else
      var (net', r) := net.TrySend(d, Envelope(ourId, PairRequest(Some(WireKey(kit.value.ephemeral, true)))));
      if r.Err? then (m, net, Unavailable)
      else (m.(sessions := m.sessions[d := InitiatorS(StartInitiator(d, kit.value.identity, kit.value.ephemeral))]),
            net', OK)
  }

  function IncomingAcceptSpec(m: Maps, net: Net<Envelope>, ourId: Uuid, d: Uuid): (Maps, Net<Envelope>, Status)
    requires net.Valid()
  {
    var m' := m.(pending := m.pending - {d});
    if d !in m.pending then (m, net, NotFound)
    else
      var (net', r) := net.TrySend(d, Envelope(ourId, PairConfirm(Some(true))));
      if r.Err? then (m', net, Unavailable) else (m', net', OK)
  }

  function IncomingRejectSpec(m: Maps, net: Net<Envelope>, ourId: Uuid, d: Uuid): (Maps, Net<Envelope>, Status)
    requires net.Valid()
  {
    if d !in m.pending then (m, net, NotFound)
    else (m.(pending := m.pending - {d}), net.TrySend(d, Envelope(ourId, PairConfirm(Some(false)))).0, OK)
  }

  function RemoveDeviceSpec(m: Maps, net: Net<Envelope>, d: Uuid): (Maps, Net<Envelope>) {
    (m.(sessions := m.sessions - {d}), net.(senders := net.senders - {d}))
  }

  // ---------------------------------------------------------------------------
  // The shared state
  // ---------------------------------------------------------------------------

  class MessageCenter {
    const ourId: Uuid
    const pairing: PairingMap
    const pendingIncoming: PendingIncomingMap
    const registry: DeviceRegistry<Envelope>
    const devices: DeviceTable.Devices
    var pins: map<Uuid, string>

    ghost predicate Valid()
      reads pairing, registry
    {
      pairing.Valid() && registry.View().Valid()
    }

    ghost function View(): Maps
      reads pairing, pairing.Owned(), pendingIncoming
    {
      Maps(pairing.View(), pendingIncoming.inner)
    }

    constructor (ourId: Uuid)
      ensures Valid() && View() == Maps(map[], map[]) && registry.View() == Net(map[], [])
      ensures fresh(pairing) && fresh(pendingIncoming) && fresh(registry)
      ensures fresh(devices) && devices.View() == DeviceTable.Table([], 0) && pins == map[]
    {
      this.ourId := ourId;
      pairing := new PairingMap();
      pendingIncoming := new PendingIncomingMap();
      registry := new DeviceRegistry<Envelope>();
      devices := new DeviceTable.Devices();
      pins := map[];
    }

    method Dispatch(env: Envelope, now: int, minted: Option<Certificate>) returns (reply: Option<Envelope>)
      requires Valid()
      modifies pairing, pairing.Owned(), pendingIncoming
      ensures Valid() && fresh(pairing.Owned() - old(pairing.Owned()))
      ensures (View(), reply) == DispatchSpec(old(View()), ourId, env, now, minted)
    {
      var peer := env.deviceId;
      reply := None;
      if env.body.Hello? {
        DispatchHello(peer, minted);
      } else if env.body.Heartbeat? {
        reply := Some(Envelope(ourId, Heartbeat));
      } else if env.body.PairRequest? {
        pendingIncoming.Insert(peer, PendingOf(env.body.request, now));
      } else if env.body.PairChallenge? {
        reply := DispatchChallenge(env, now);
      } else if env.body.PairConfirm? {
        reply := DispatchConfirm(env);
      } else if env.body.PairComplete? {
        DispatchComplete(env);
      }
    }

    method DispatchHello(peer: Uuid, minted: Option<Certificate>)
      requires pairing.Valid()
      modifies pairing
      ensures pairing.Valid() && fresh(pairing.Owned() - old(pairing.Owned()))
      ensures pairing.View() == HelloSpec(old(pairing.View()), peer, minted)
    {
      var seen := pairing.Get(peer, Certificate("", ""));
      if seen.None? && minted.Some? {
        StartResponderSession(peer, minted.value);
      }
    }

    method StartResponderSession(peer: Uuid, identity: Certificate)
      requires pairing.Valid()
      modifies pairing
      ensures pairing.Valid() && fresh(pairing.Owned() - old(pairing.Owned()))
      ensures pairing.View() == old(pairing.View())[peer := ResponderS(StartResponder(peer, identity))]
    {
      ghost var before := pairing.View();
      var r := new Responder.Start(peer, identity);
      assert r !in pairing.Owned();
      assert pairing.View() == before;
      pairing.Insert(peer, Unpaired(ResponderSession(r)));
      assert pairing.View() == before[peer := ResponderS(StartResponder(peer, identity))];
    }

    method DispatchChallenge(env: Envelope, now: int) returns (reply: Option<Envelope>)
      requires pairing.Valid()
      modifies pairing, pairing.Owned()
      ensures pairing.Valid() && pairing.Owned() <= old(pairing.Owned())
      ensures (pairing.View(), reply) == ChallengeSpec(old(pairing.View()), ourId, env, now)
    {
      var peer := env.deviceId;
      ghost var before := pairing.View();
      var taken := pairing.TakeUnpairedInitiator(peer);
      if taken.None? {
        return None;
      }
      ghost var held := before[peer].initiator;
      assert taken.value.View() == held && pairing.View() == before - {peer};
      reply := Judge(taken.value, env, now);
      ghost var judged := taken.value.View();
      assert pairing.View() == before - {peer};
      PutBack(peer, taken.value);
      PutAfterRemove(before, peer, InitiatorS(judged));
      assert pairing.View() == before[peer := InitiatorS(judged)];
    }

    method Judge(init: Initiator, env: Envelope, now: int) returns (reply: Option<Envelope>)
      modifies init
      ensures var (v, r) := InitiatorOnChallenge(old(init.View()), env, now);
        init.View() == v && reply == Rejection(ourId, r)
    {
      var r := init.OnChallenge(env, now);
      reply := Rejection(ourId, r);
    }

    method PutBack(peer: Uuid, init: Initiator)
      requires pairing.Valid() && init !in pairing.Owned()
      modifies pairing
      ensures pairing.Valid() && pairing.Owned() <= old(pairing.Owned()) + {init}
      ensures pairing.View() == old(pairing.View())[peer := InitiatorS(init.View())]
    {
      pairing.Insert(peer, Unpaired(InitiatorSession(init)));
    }

    method DispatchConfirm(env: Envelope) returns (reply: Option<Envelope>)
      requires pairing.Valid() && env.body.PairConfirm?
      modifies pairing
      ensures pairing.Valid() && pairing.Owned() <= old(pairing.Owned())
      ensures (pairing.View(), reply) == ConfirmSpec(old(pairing.View()), ourId, env.deviceId, env.body.confirm)
    {
      var peer := env.deviceId;
      var taken := pairing.TakeUnpairedInitiator(peer);
      if taken.None? {
        return None;
      }
      var accepted := env.body.confirm.Some? && env.body.confirm.value;
      if accepted {
        reply := Some(taken.value.BuildCompleteEnvelope(ourId));
        pairing.Insert(peer, Unpaired(InitiatorSession(taken.value)));
        assert pairing.View() == old(pairing.View());
      } else {
        reply := None;
      }
    }

    method DispatchComplete(env: Envelope)
      requires pairing.Valid()
      modifies pairing
      ensures pairing.Valid() && pairing.Owned() <= old(pairing.Owned())
      ensures pairing.View() == CompleteSpec(old(pairing.View()), env)
    {
      var peer := env.deviceId;
      ghost var before := pairing.View();
      var init := pairing.TakeUnpairedInitiator(peer);
      if init.Some? {
        var outcome := init.value.OnComplete(env);
        SettledAfterTake(before, peer, outcome);
        SettleComplete(peer, outcome);
        return;
      }
      var responder := pairing.TakeUnpairedResponder(peer);
      if responder.Some? {
        var outcome := responder.value.OnComplete(env);
        SettledAfterTake(before, peer, outcome);
        SettleComplete(peer, outcome);
      }
    }

    method SettleComplete(peer: Uuid, outcome: Result<PairingOutcome, PairingError>)
      requires pairing.Valid() && peer !in pairing.inner
      modifies pairing
      ensures pairing.Valid() && pairing.Owned() <= old(pairing.Owned())
      ensures pairing.View() == Settled(old(pairing.View()), peer, outcome)
    {
      assert pairing.View() == pairing.View() - {peer};
      if outcome.Ok? {
        pairing.Insert(peer, Paired(peer, outcome.value.certificate.fingerprint));
        assert pairing.View() == old(pairing.View())[peer := PairedS(outcome.value.certificate.fingerprint)];
      }
    }

    /**
     One text frame of a connection whose own channel is `tx`: a hello registers the channel
     first, and the reply goes to the connection's channel (waiting for room there).
     */
    method HandleFrame(tx: nat, env: Envelope, now: int, minted: Option<Certificate>) returns (reply: Option<Envelope>)
      requires Valid() && tx < |registry.channels|
      modifies pairing, pairing.Owned(), pendingIncoming, registry
      ensures Valid() && fresh(pairing.Owned() - old(pairing.Owned()))
      ensures (View(), reply) == DispatchSpec(old(View()), ourId, env, now, minted)
      ensures registry.View() == if env.body.Hello?
                                 then old(registry.View()).(senders := old(registry.senders)[env.deviceId := tx])
                                 else old(registry.View())
    {
      if env.body.Hello? {
        registry.Register(env.deviceId, tx);
        assert View() == old(View());
      }
      reply := Dispatch(env, now, minted);
    }

    method PostPairStart(d: Uuid, kit: Option<Kit>) returns (status: Status)
      requires Valid()
      modifies pairing, registry
      ensures Valid() && fresh(pairing.Owned() - old(pairing.Owned()))
      ensures (View(), registry.View(), status) == PairStartSpec(old(View()), old(registry.View()), ourId, d, kit)
    {
      if d !in registry.senders {
        return Conflict;
      }
      if kit.None? {
        return InternalError;
      }
      ghost var before := pairing.View();
      var initiator := new Initiator.Start(d, kit.value.identity, kit.value.ephemeral);
      assert initiator !in pairing.Owned();
      var env := initiator.BuildRequestEnvelope(ourId);
      var sent := registry.TrySend(d, env.value);
      assert pairing.View() == before;
      if sent.Err? {
        return Unavailable;
      }
      pairing.Insert(d, Unpaired(InitiatorSession(initiator)));
      assert pairing.View() == before[d := InitiatorS(initiator.View())];
      status := OK;
    }

    /**
     `pair_accept` reads a snapshot, in which no unpaired session is an initiator, so the
     branch that sends `device.pair.accept` is never reached.
     */
    method PostPairAccept(d: Uuid) returns (status: Status)
      requires Valid()
      ensures status == Conflict
    {
      var session := pairing.Get(d, Certificate("", ""));
      if session.Some? && session.value.Unpaired? && session.value.u.InitiatorSession? {
        assert false;
      }
      status := Conflict;
    }

    /** `pair_reject` reads the same snapshot. */
    method PostPairReject(d: Uuid) returns (status: Status)
      requires Valid()
      ensures status == Conflict
    {
      var session := pairing.Get(d, Certificate("", ""));
      if session.Some? && session.value.Unpaired? && session.value.u.InitiatorSession? {
        assert false;
      }
      status := Conflict;
    }

    method PostIncomingAccept(d: Uuid) returns (status: Status)
      requires Valid()
      modifies pendingIncoming, registry
      ensures Valid()
      ensures (View(), registry.View(), status) == IncomingAcceptSpec(old(View()), old(registry.View()), ourId, d)
    {
      var pending := pendingIncoming.Remove(d);
      assert pairing.View() == old(pairing.View());
      if pending.None? {
        assert pendingIncoming.inner == old(pendingIncoming.inner);
        return NotFound;
      }
      if d !in registry.senders {
        return Unavailable;
      }
      var sent := registry.TrySend(d, Envelope(ourId, PairConfirm(Some(true))));
      assert pairing.View() == old(pairing.View());
      status := if sent.Err? then Unavailable else OK;
    }

    method PostIncomingReject(d: Uuid) returns (status: Status)
      requires Valid()
      modifies pendingIncoming, registry
      ensures Valid()
      ensures (View(), registry.View(), status) == IncomingRejectSpec(old(View()), old(registry.View()), ourId, d)
    {
      var pending := pendingIncoming.Remove(d);
      assert pairing.View() == old(pairing.View());
      if pending.None? {
        assert pendingIncoming.inner == old(pendingIncoming.inner);
        return NotFound;
      }
      if d in registry.senders {
        var _ := registry.TrySend(d, Envelope(ourId, PairConfirm(Some(false))));
      }
      assert pairing.View() == old(pairing.View());
      status := OK;
    }

    /**
     Forgets the device everywhere but among the parked requests. When the database refuses, its
     row stays although the rest is gone.
     */
    method RemoveDevice(d: Uuid, dbOk: bool) returns (status: Status)
      requires Valid()
      modifies pairing, registry, devices, this`pins
      ensures Valid() && (View(), registry.View()) == RemoveDeviceSpec(old(View()), old(registry.View()), d)
      ensures pins == old(pins) - {d}
      ensures devices.View() == if dbOk
                                then old(devices.View()).(rows := DeviceTable.Without(old(devices.rows), d))
                                else old(devices.View())
      ensures status == if dbOk then NoContent else InternalError
    {
      Forget(d);
      status := ForgetRow(d, dbOk);
    }

    method ForgetRow(d: Uuid, dbOk: bool) returns (status: Status)
      requires Valid()
      modifies devices, this`pins
      ensures Valid() && View() == old(View()) && registry.View() == old(registry.View())
      ensures pins == old(pins) - {d}
      ensures devices.View() == if dbOk
                                then old(devices.View()).(rows := DeviceTable.Without(old(devices.rows), d))
                                else old(devices.View())
      ensures status == if dbOk then NoContent else InternalError
    {
      pins := pins - {d};
      if !dbOk {
        return InternalError;
      }
      devices.RemoveDevice(d);
      status := NoContent;
    }

    method Forget(d: Uuid)
      requires Valid()
      modifies pairing, registry
      ensures Valid() && (View(), registry.View()) == RemoveDeviceSpec(old(View()), old(registry.View()), d)
    {
      pairing.Remove(d);
      registry.Unregister(d);
    }
  }
}
