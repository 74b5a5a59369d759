/**
 The REST handlers against the composed system: what a handler queues for its device, what it
 leaves of the registry and of the maps, and what the phone then does with the envelope.
 */
module RestCalls {
  import opened Wrappers
  import opened Protocol
  import opened Sessions
  import opened WsHandler
  import opened Registry
  import opened Center
  import PS = PairingSystem
  import Progress = PairingProgress
  import PM = PairingMachine

  /** The state of the single-device system stands for this device's part of the center. */
  predicate Shows(s: PS.Sys, m: Maps, net: Net<Envelope>, ourId: Uuid, d: Uuid) {
    && s.centerId == ourId && s.phone.deviceId == d && s.entry == EntryOf(m, d)
    && (s.registered <==> d in net.senders)
  }

  /** The bodies, as envelopes of the center, at the end of the device's queue, and nothing else new. */
  predicate Queues(net: Net<Envelope>, after: Net<Envelope>, ourId: Uuid, d: Uuid, bodies: seq<Body>)
    requires net.Valid()
  {
    if bodies == [] then after.channels == net.channels
    else
      && d in net.senders
      && var tx := net.senders[d];
         && |after.channels| == |net.channels|
         && after.channels == net.channels[tx := after.channels[tx]]
         && after.channels[tx].open && net.channels[tx].open
         && var had, has := net.channels[tx].items, after.channels[tx].items;
            && |has| == |had| + |bodies| && has[..|had|] == had
            && forall i | 0 <= i < |bodies| :: has[|had| + i] == Envelope(ourId, bodies[i])
  }

  /** What a step or two of the system put on the way to the phone. */
  function Sent(s: PS.Sys, t: PS.Sys): seq<Body> {
    if |s.down| <= |t.down| then t.down[|s.down|..] else []
  }

  /** The handler did to maps, registry and queue what the system did from `s` to `t`. */
  predicate Agrees(s: PS.Sys, t: PS.Sys, m: Maps, net: Net<Envelope>, m': Maps, net': Net<Envelope>, d: Uuid)
    requires net.Valid()
  {
    && s.down <= t.down && t.phone == s.phone && t.up == s.up
    && Shows(t, m', net', s.centerId, d)
    && Queues(net, net', s.centerId, d, Sent(s, t))
  }

  lemma PairStartSteps(s: PS.Sys, kit: Kit, room: bool)
    ensures var t := PS.Run(s, [PS.PairStartSend(kit, room), PS.PairStartInsert(|s.starting|)]);
      if s.registered && room
      then t == s.(down := s.down + [PairRequest(Some(WireKey(kit.ephemeral, true)))], log := t.log,
                   entry := s.entry.(
                     session := Some(InitiatorS(StartInitiator(s.phone.deviceId, kit.identity, kit.ephemeral)))))
      else t == s
  {
    Progress.RunOfTwo(s, PS.PairStartSend(kit, room), PS.PairStartInsert(|s.starting|));
    var u := PS.Next(s, PS.PairStartSend(kit, room));
    if s.registered && room {
      assert PS.RemoveAt(u.starting, |s.starting|) == s.starting;
    }
  }

  /** `pair_start` is its two steps: refused exactly for want of a connection, an identity or room. */
  lemma PairStartIsItsSteps(s: PS.Sys, m: Maps, net: Net<Envelope>, d: Uuid, kit: Option<Kit>)
    requires net.Valid() && Shows(s, m, net, s.centerId, d)
    ensures var (m', net', status) := PairStartSpec(m, net, s.centerId, d, kit);
      && (status == OK <==> kit.Some? && net.CanSend(d))
      && (status == Conflict <==> d !in net.senders)
      && (status == InternalError <==> d in net.senders && kit.None?)
      && (status == Unavailable <==> d in net.senders && kit.Some? && !net.CanSend(d))
      && net'.senders == net.senders
      && var t := if kit.None? then s
                  else PS.Run(s, [PS.PairStartSend(kit.value, net.CanSend(d)), PS.PairStartInsert(|s.starting|)]);
         Agrees(s, t, m, net, m', net', d) && (status == OK <==> |Sent(s, t)| == 1)
  {
    if kit.Some? {
      PairStartSteps(s, kit.value, net.CanSend(d));
    }
  }

  /** Accepting a parked request is its step, and is OK exactly if the device is told. */
  lemma IncomingAcceptIsItsStep(s: PS.Sys, m: Maps, net: Net<Envelope>, d: Uuid)
    requires net.Valid() && Shows(s, m, net, s.centerId, d)
    ensures var (m', net', status) := IncomingAcceptSpec(m, net, s.centerId, d);
      && (status == NotFound <==> d !in m.pending)
      && (status == OK <==> d in m.pending && net.CanSend(d))
      && (status == Unavailable <==> d in m.pending && !net.CanSend(d))
      && net'.senders == net.senders
      && var t := PS.Next(s, PS.IncomingAccept(net.CanSend(d)));
         Agrees(s, t, m, net, m', net', d) && (status == OK <==> Sent(s, t) == [PairConfirm(Some(true))])
  {
  }

  /** Rejecting a parked request is its step, and is OK whether or not the device can be told. */
  lemma IncomingRejectIsItsStep(s: PS.Sys, m: Maps, net: Net<Envelope>, d: Uuid)
    requires net.Valid() && Shows(s, m, net, s.centerId, d)
    ensures var (m', net', status) := IncomingRejectSpec(m, net, s.centerId, d);
      && (status == if d in m.pending then OK else NotFound)
      && net'.senders == net.senders
      && var t := PS.Next(s, PS.IncomingReject(net.CanSend(d)));
         && Agrees(s, t, m, net, m', net', d)
         && (d in m.pending && net.CanSend(d) <==> Sent(s, t) == [PairConfirm(Some(false))])
  {
  }

  /** Removing a device is its step: its registration goes, other devices' stay, nothing is sent. */
  lemma RemoveDeviceIsItsStep(s: PS.Sys, m: Maps, net: Net<Envelope>, d: Uuid)
    requires net.Valid() && Shows(s, m, net, s.centerId, d)
    ensures var (m', net') := RemoveDeviceSpec(m, net, d);
      && Agrees(s, PS.Next(s, PS.RemoveDevice), m, net, m', net', d)
      && Sent(s, PS.Next(s, PS.RemoveDevice)) == []
      && (forall e :: e in net'.senders <==> e in net.senders && e != d)
      && (forall e | e in net'.senders :: net'.senders[e] == net.senders[e])
  {
  }

  // ---------------------------------------------------------------------------
  // What the phone makes of it
  // ---------------------------------------------------------------------------

  /** The newest envelope in the device's queue. */
  function Newest(net: Net<Envelope>, d: Uuid): (e: Option<Envelope>)
    requires net.Valid()
  {
    if d in net.senders && net.channels[net.senders[d]].items != []
    then Some(net.channels[net.senders[d]].items[|net.channels[net.senders[d]].items| - 1]) else None
  }

  /**
   The console's word reaches the phone that asked: having taken the envelope the handler queued,
   it has failed after a rejection, and after an acceptance it awaits the desktop and has
   answered with its own certificate.
   */
  lemma PhoneHearsTheConsole(
      m: Maps, net: Net<Envelope>, ourId: Uuid, d: Uuid, phone: PM.Phone, now: int, key: FreshKey)
    requires net.Valid() && d in m.pending && net.CanSend(d)
    requires phone.state.Initiating? && phone.longTerm.Some?
    ensures var accepted := Newest(IncomingAcceptSpec(m, net, ourId, d).1, d);
      && accepted.Some?
      && var (q, out) := PM.PhoneNext(phone, PM.Receive(accepted.value, now, key));
         && q.state == PM.Confirming(PM.NO_CODE, ourId)
         && out == Some(Envelope(phone.deviceId, PairComplete(phone.longTerm)))
    ensures var rejected := Newest(IncomingRejectSpec(m, net, ourId, d).1, d);
      && rejected.Some?
      && var (q, out) := PM.PhoneNext(phone, PM.Receive(rejected.value, now, key));
         q.state.Failed? && out.None?
  {
  }

  /** The request of `pair_start` makes the phone show a code for this center and this session. */
  lemma PhoneHearsPairStart(
      m: Maps, net: Net<Envelope>, ourId: Uuid, d: Uuid, kit: Kit, phone: PM.Phone, now: int, key: FreshKey)
    requires net.Valid() && net.CanSend(d) && key.code.Some?
    ensures var (m', net', _) := PairStartSpec(m, net, ourId, d, Some(kit));
      var request := Newest(net', d);
      && request.Some?
      && var (q, out) := PM.PhoneNext(phone, PM.Receive(request.value, now, key));
         && q.state == PM.ShowingCode(key.code.value, now + CODE_LIFETIME_MS, ourId, kit.ephemeral)
         && d in m'.sessions && m'.sessions[d].InitiatorS?
         && m'.sessions[d].initiator.ephemeral == Some(q.state.peerEphemeralPub)
         && m'.sessions[d].initiator.identity == kit.identity && m'.sessions[d].initiator.peer == d
  {
  }
}
