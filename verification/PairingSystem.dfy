/**
 Center and phone composed, for one device. The center's handling of a frame is cut at every
 lock: a session is taken out, possibly a second lock is tried, the session is put back, the
 reply is queued. REST calls, the phone's user, lost messages and disconnects may come between
 any two pieces. A full queue is the environment's choice (`room`, `delivered`).
 */
module PairingSystem {
  import opened Wrappers
  import opened Protocol
  import opened Sessions
  import opened WsHandler
  import opened Center
  import PM = PairingMachine

  /** The frame the center is working on: one live connection handles one frame at a time. */
  datatype Busy =
    | Free
    | SecondLock(complete: Body)
    | MustInsert(session: Session, reply: Option<Body>)
    | MustReply(reply': Body)

  /** History: decisions of people, and what the two machines did with them. */
  datatype Log = Log(
    accepts: nat,          // the phone's user accepted and the phone sent its confirmation
    incomingAccepts: nat,  // the console user accepted a parked request
    initiates: nat,        // the phone sent a pairing request
    starts: nat,           // pair_start calls that sent their request
    pairings: nat,         // times the center stored a paired session
    phonePairings: nat,    // times the phone became paired
    directCompletes: nat,  // certificates the phone sent on the console's acceptance
    issued: set<string>)   // fingerprints of the identities made by pair_start

  /** `up` and `down` hold what the phone and the center have sent and not yet handled. */
  datatype Sys = Sys(
    centerId: Uuid, phone: PM.Phone, up: seq<Body>, down: seq<Body>, entry: Entry, registered: bool,
    busy: Busy, starting: seq<InitiatorView>, log: Log)

  datatype Step =
    | Accept(now: int, room: bool)
    | Refuse(reason: string, room: bool)
    | StartFromPhone(pub: string, now: int, room: bool)
    | ResetPhone
    | SendHello(room: bool)
    | SendHeartbeat(room: bool)
    | PhoneReceive(now: int, key: FreshKey, room: bool)
    | TakeFrame(now: int, minted: Option<Certificate>)
    | TakeResponder
    | InsertSession
    | SendReply(delivered: bool)
    | PairStartSend(kit: Kit, room: bool)
    | PairStartInsert(k: nat)
    | IncomingAccept(room: bool)
    | IncomingReject(room: bool)
    | RemoveDevice
    | Disconnect
    | LoseUp(k: nat)
    | LoseDown(k: nat)

  predicate Enabled(s: Sys, step: Step) {
    match step
    case PhoneReceive(_, _, _) => s.down != []
    case TakeFrame(_, _) => s.busy.Free? && s.up != []
    case TakeResponder => s.busy.SecondLock?
    case InsertSession => s.busy.MustInsert?
    case SendReply(_) => s.busy.MustReply?
    case PairStartSend(_, _) => s.registered
    case PairStartInsert(k) => k < |s.starting|
    case IncomingAccept(_) => s.entry.pending.Some?
    case IncomingReject(_) => s.entry.pending.Some?
    case LoseUp(k) => k < |s.up|
    case LoseDown(k) => k < |s.down|
    case _ => true
  }

  function RemoveAt<T>(q: seq<T>, k: nat): seq<T>
    requires k < |q|
  {
    q[..k] + q[k + 1..]
  }

  function Queue(q: seq<Body>, out: Option<Body>, room: bool): seq<Body> {
    if out.Some? && room then q + [out.value] else q
  }

  function BodyOf(env: Option<Envelope>): Option<Body> {
    if env.Some? then Some(env.value.body) else None
  }

  /** The session the next frame will find: one that is out of the map comes back over the entry. */
  function Holder(s: Sys): Option<Session> {
    if s.busy.MustInsert? then Some(s.busy.session) else s.entry.session
  }

  function Bit(b: bool): nat { if b then 1 else 0 }

  // ---------------------------------------------------------------------------
  // The phone's steps
  // ---------------------------------------------------------------------------

  function PhoneStep(s: Sys, input: PM.PhoneInput, room: bool): Sys {
    var (p, out) := PM.PhoneNext(s.phone, input);
    s.(phone := p, up := Queue(s.up, BodyOf(out), room))
  }

  function AcceptStep(s: Sys, now: int, room: bool): Sys {
    var sent := PM.UserAcceptsSpec(s.phone, now).1.Some?;
    PhoneStep(s, PM.UserAccepts(now), room).(log := s.log.(accepts := s.log.accepts + Bit(sent)))
  }

  function StartFromPhoneStep(s: Sys, pub: string, now: int, room: bool): Sys {
    var sent := PM.InitiateSpec(s.phone, pub, now).1.Some?;
    PhoneStep(s, PM.Initiate(pub, now), room).(log := s.log.(initiates := s.log.initiates + Bit(sent)))
  }

  function PhoneReceiveStep(s: Sys, now: int, key: FreshKey, room: bool): Sys
    requires s.down != []
  {
    var input := PM.Receive(Envelope(s.centerId, s.down[0]), now, key);
    var (p, out) := PM.PhoneNext(s.phone, input);
    PhoneStep(s, input, room).(
      down := s.down[1..],
      log := s.log.(
        phonePairings := s.log.phonePairings + Bit(s.down[0].PairComplete? && p.state.Paired?),
        directCompletes := s.log.directCompletes + Bit(s.down[0].PairConfirm? && out.Some?)))
  }

  // ---------------------------------------------------------------------------
  // The center's steps
  // ---------------------------------------------------------------------------

  function TakeFrameStep(s: Sys, now: int, minted: Option<Certificate>): Sys
    requires s.up != []
  {
    var body := s.up[0];
    var env := Envelope(s.phone.deviceId, body);
    var s := s.(up := s.up[1..]);
    var held := s.entry.session;
    var taken := s.(entry := s.entry.(session := None));
    match body
    case Hello =>
      s.(registered := true,
         busy := if held.None? && minted.Some?
                 then MustInsert(ResponderS(StartResponder(env.deviceId, minted.value)), None) else Free)
    case Heartbeat => s.(busy := MustReply(Heartbeat))
    case PairRequest(req) => s.(entry := s.entry.(pending := Some(PendingOf(req, now))))
    case PairChallenge(_) =>
      if held.None? || !held.value.InitiatorS? then s
      else
        var (init, r) := InitiatorOnChallenge(held.value.initiator, env, now);
        taken.(busy := MustInsert(InitiatorS(init), BodyOf(Rejection(s.centerId, r))))
    case PairConfirm(c) =>
      if held.None? || !held.value.InitiatorS? then s
      else if c == Some(true)
      then taken.(busy := MustInsert(held.value, Some(PairComplete(Some(held.value.initiator.identity)))))
      else taken
    case PairComplete(_) =>
      if held.None? || !held.value.InitiatorS? then s.(busy := SecondLock(body))
      else taken.(busy := AfterComplete(CheckComplete(env, held.value.initiator.peer)))
    case _ => s
  }

  function AfterComplete(outcome: Result<PairingOutcome, PairingError>): Busy {
    if outcome.Ok? then MustInsert(PairedS(outcome.value.certificate.fingerprint), None) else Free
  }

  function TakeResponderStep(s: Sys): Sys
    requires s.busy.SecondLock?
  {
    var env := Envelope(s.phone.deviceId, s.busy.complete);
    if s.entry.session.None? || !s.entry.session.value.ResponderS? then s.(busy := Free)
    else s.(entry := s.entry.(session := None),
            busy := AfterComplete(ResponderOnComplete(s.entry.session.value.responder, env)))
  }

  function InsertSessionStep(s: Sys): Sys
    requires s.busy.MustInsert?
  {
    s.(entry := s.entry.(session := Some(s.busy.session)),
       busy := if s.busy.reply.Some? then MustReply(s.busy.reply.value) else Free,
       log := s.log.(pairings := s.log.pairings + Bit(s.busy.session.PairedS?)))
  }

  function PairStartSendStep(s: Sys, kit: Kit, room: bool): Sys {
    if !room then s
    else s.(down := s.down + [PairRequest(Some(WireKey(kit.ephemeral, true)))],
            starting := s.starting + [StartInitiator(s.phone.deviceId, kit.identity, kit.ephemeral)],
            log := s.log.(starts := s.log.starts + 1, issued := s.log.issued + {kit.identity.fingerprint}))
  }

  function PairStartInsertStep(s: Sys, k: nat): Sys
    requires k < |s.starting|
  {
    s.(entry := s.entry.(session := Some(InitiatorS(s.starting[k]))), starting := RemoveAt(s.starting, k))
  }

  /** `pair_accept` and `pair_reject` have no step: they never change anything. */
  function Next(s: Sys, step: Step): Sys {
    if !Enabled(s, step) then s
    else
      match step
      case Accept(now, room) => AcceptStep(s, now, room)
      case Refuse(reason, room) => PhoneStep(s, PM.UserRejects(reason), room)
      case StartFromPhone(pub, now, room) => StartFromPhoneStep(s, pub, now, room)
      case ResetPhone => PhoneStep(s, PM.Reset, true)
      case SendHello(room) => s.(up := Queue(s.up, Some(Hello), room))
      case SendHeartbeat(room) => s.(up := Queue(s.up, Some(Heartbeat), room))
      case PhoneReceive(now, key, room) => PhoneReceiveStep(s, now, key, room)
      case TakeFrame(now, minted) => TakeFrameStep(s, now, minted)
      case TakeResponder => TakeResponderStep(s)
      case InsertSession => InsertSessionStep(s)
      case SendReply(delivered) => s.(down := Queue(s.down, Some(s.busy.reply'), delivered), busy := Free)
      case PairStartSend(kit, room) => PairStartSendStep(s, kit, room)
      case PairStartInsert(k) => PairStartInsertStep(s, k)
      case IncomingAccept(room) =>
        s.(entry := s.entry.(pending := None),
           down := Queue(s.down, Some(PairConfirm(Some(true))), room && s.registered),
           log := s.log.(incomingAccepts := s.log.incomingAccepts + 1))
      case IncomingReject(room) =>
        s.(entry := s.entry.(pending := None),
           down := Queue(s.down, Some(PairConfirm(Some(false))), room && s.registered))
      case RemoveDevice => s.(entry := s.entry.(session := None), registered := false)
      case Disconnect => s.(registered := false)
      case LoseUp(k) => s.(up := RemoveAt(s.up, k))
      case LoseDown(k) => s.(down := RemoveAt(s.down, k))
  }

  function Run(s: Sys, steps: seq<Step>): Sys
    decreases |steps|
  {
    if steps == [] then s else Run(Next(s, steps[0]), steps[1..])
  }

  /** A device the center has never heard of, and a phone that has loaded its identity. */
  function Start(centerId: Uuid, deviceId: Uuid, stored: Certificate): Sys {
    Sys(centerId, PM.Phone(PM.Idle, None, Some(stored), stored, deviceId), [], [], Entry(None, None), false,
        Free, [], Log(0, 0, 0, 0, 0, 0, 0, {}))
  }
}
