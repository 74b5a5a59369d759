/**
 The message-center's pairing bookkeeping: the two shared maps with their locked operations,
 and the specification of one frame (`dispatch`) and of each pairing REST call on them.
 */
module WsHandler {
  import opened Wrappers
  import opened Protocol
  import opened Sessions

  // ---------------------------------------------------------------------------
  // Views
  // ---------------------------------------------------------------------------

  datatype Session =
    | InitiatorS(initiator: InitiatorView)
    | ResponderS(responder: ResponderView)
    | PairedS(fingerprint: string)

  /** A parked phone request: arrival time and the non-empty key it carried, if any. */
  datatype Pending = Pending(receivedAt: int, peerKey: Option<string>)

  /** What the center knows about one device. */
  datatype Entry = Entry(session: Option<Session>, pending: Option<Pending>)

  datatype Maps = Maps(sessions: map<Uuid, Session>, pending: map<Uuid, Pending>)

  function Lookup<V>(m: map<Uuid, V>, d: Uuid): Option<V> {
    if d in m then Some(m[d]) else None
  }

  function EntryOf(m: Maps, d: Uuid): Entry {
    Entry(Lookup(m.sessions, d), Lookup(m.pending, d))
  }

  lemma PutAfterRemove<V>(m: map<Uuid, V>, d: Uuid, v: V)
    ensures (m - {d})[d := v] == m[d := v]
  {
  }

  // ---------------------------------------------------------------------------
  // PairingMap
  // ---------------------------------------------------------------------------

  datatype UnpairedSession = InitiatorSession(i: Initiator) | ResponderSession(r: Responder)

  datatype DeviceSession = Unpaired(u: UnpairedSession) | Paired(deviceId: Uuid, certFingerprint: string)

  function Machine(s: DeviceSession): (o: object)
    requires s.Unpaired?
    ensures o is Initiator || o is Responder
  {
    match s.u case InitiatorSession(i) => i case ResponderSession(r) => r
  }

  function ViewOf(s: DeviceSession): Session
    reads if s.Unpaired? then {Machine(s)} else {}
  {
    match s
    case Paired(_, fp) => PairedS(fp)
    case Unpaired(InitiatorSession(i)) => InitiatorS(i.View())
    case Unpaired(ResponderSession(r)) => ResponderS(r.View())
  }

  class PairingMap {
    var inner: map<Uuid, DeviceSession>

    /** The state machines the map owns. */
    ghost function Owned(): (machines: set<object>)
      reads this
      ensures forall o | o in machines :: o is Initiator || o is Responder
    {
      set d | d in inner && inner[d].Unpaired? :: Machine(inner[d])
    }

    /** No machine is owned twice: sessions are moved in and out, never shared. */
    ghost predicate Valid()
      reads this
    {
      forall d, e | d in inner && e in inner && d != e && inner[d].Unpaired? && inner[e].Unpaired? ::
        Machine(inner[d]) != Machine(inner[e])
    }

    ghost function View(): (v: map<Uuid, Session>)
      reads this, Owned()
      ensures v.Keys == inner.Keys
    {
      map d | d in inner :: (assert inner[d].Unpaired? ==> Machine(inner[d]) in Owned(); ViewOf(inner[d]))
    }

    constructor ()
      ensures Valid() && View() == map[] && Owned() == {}
    {
      inner := map[];
    }

    method Insert(d: Uuid, s: DeviceSession)
      requires Valid() && (s.Unpaired? ==> Machine(s) !in Owned())
      modifies this
      ensures Valid() && inner == old(inner)[d := s]
      ensures View() == old(View())[d := old(ViewOf(s))]
      ensures Owned() <= old(Owned()) + (if s.Unpaired? then {Machine(s)} else {})
    {
      inner := inner[d := s];
    }

    /** A snapshot. An unpaired session comes back as a blank responder for the nil device. */
    method Get(d: Uuid, dummy: Certificate) returns (s: Option<DeviceSession>)
      ensures s.Some? <==> d in inner
      ensures s.Some? && inner[d].Paired? ==> s.value == inner[d]
      ensures s.Some? && inner[d].Unpaired? ==>
        && s.value.Unpaired? && s.value.u.ResponderSession? && fresh(s.value.u.r)
        && s.value.u.r.View() == StartResponder(0, dummy)
    {
      if d !in inner {
        return None;
      }
      if inner[d].Paired? {
        return Some(inner[d]);
      }
      var r := new Responder.Start(0, dummy);
      s := Some(Unpaired(ResponderSession(r)));
    }

    method TakeUnpairedInitiator(d: Uuid) returns (i: Option<Initiator>)
      requires Valid()
      modifies this
      ensures Valid() && Owned() <= old(Owned())
      ensures i.Some? <==> d in old(View()) && old(View())[d].InitiatorS?
      ensures i.Some? ==> old(View())[d] == InitiatorS(i.value.View())
      ensures i.Some? ==> i.value in old(Owned()) && i.value !in Owned()
      ensures View() == if i.Some? then old(View()) - {d} else old(View())
    {
      if d in inner && inner[d].Unpaired? && inner[d].u.InitiatorSession? {
        i := Some(inner[d].u.i);
        inner := inner - {d};
      } else {
        i := None;
      }
    }

    method TakeUnpairedResponder(d: Uuid) returns (r: Option<Responder>)
      requires Valid()
      modifies this
      ensures Valid() && Owned() <= old(Owned())
      ensures r.Some? <==> d in old(View()) && old(View())[d].ResponderS?
      ensures r.Some? ==> old(View())[d] == ResponderS(r.value.View())
      ensures r.Some? ==> r.value in old(Owned()) && r.value !in Owned()
      ensures View() == if r.Some? then old(View()) - {d} else old(View())
    {
      if d in inner && inner[d].Unpaired? && inner[d].u.ResponderSession? {
        r := Some(inner[d].u.r);
        inner := inner - {d};
      } else {
        r := None;
      }
    }

    method Remove(d: Uuid)
      requires Valid()
      modifies this
      ensures Valid() && Owned() <= old(Owned())
      ensures View() == old(View()) - {d}
    {
      inner := inner - {d};
    }
  }

  class PendingIncomingMap {
    var inner: map<Uuid, Pending>

    constructor ()
      ensures inner == map[]
    {
      inner := map[];
    }

    method Insert(d: Uuid, p: Pending)
      modifies this
      ensures inner == old(inner)[d := p]
    {
      inner := inner[d := p];
    }

    method Remove(d: Uuid) returns (p: Option<Pending>)
      modifies this
      ensures p == Lookup(old(inner), d) && inner == old(inner) - {d}
    {
      p := Lookup(inner, d);
      inner := inner - {d};
    }
  }

  // ---------------------------------------------------------------------------
  // Specification of a frame, on the maps
  // ---------------------------------------------------------------------------

  function PendingOf(request: Option<WireKey>, now: int): Pending {
    var text := if request.Some? then request.value.text else "";
    Pending(now, if text == "" then None else Some(text))
  }

  type SessionMap = map<Uuid, Session>

  function HelloSpec(s: SessionMap, d: Uuid, minted: Option<Certificate>): SessionMap {
    if d in s || minted.None? then s else s[d := ResponderS(StartResponder(d, minted.value))]
  }

  /** A challenge the initiator refuses is answered with the error text. */
  function Rejection(ourId: Uuid, r: Result<int, PairingError>): Option<Envelope> {
    if r.Err? then Some(Envelope(ourId, PairReject(Some(ErrorText(r.error))))) else None
  }

  function ChallengeSpec(s: SessionMap, ourId: Uuid, env: Envelope, now: int): (SessionMap, Option<Envelope>) {
    var d := env.deviceId;
    if !(d in s && s[d].InitiatorS?) then (s, None)
    else
      var (init, r) := InitiatorOnChallenge(s[d].initiator, env, now);
      (s[d := InitiatorS(init)],
       Rejection(ourId, r))
  }

  /** A confirm that does not parse counts as a refusal. */
  function ConfirmSpec(s: SessionMap, ourId: Uuid, d: Uuid, confirm: Option<bool>): (SessionMap, Option<Envelope>) {
    if !(d in s && s[d].InitiatorS?) then (s, None)
    else if confirm == Some(true) then (s, Some(Envelope(ourId, PairComplete(Some(s[d].initiator.identity)))))
    else (s - {d}, None)
  }

  /** The session after its machine judged a certificate: paired, or dropped. */
  function Settled(s: SessionMap, d: Uuid, outcome: Result<PairingOutcome, PairingError>): SessionMap {
    if outcome.Ok? then (s - {d})[d := PairedS(outcome.value.certificate.fingerprint)] else s - {d}
  }

  /** Taking the session out first makes no difference. */
  lemma SettledAfterTake(s: SessionMap, d: Uuid, outcome: Result<PairingOutcome, PairingError>)
    ensures Settled(s - {d}, d, outcome) == Settled(s, d, outcome)
  {
    assert s - {d} - {d} == s - {d};
  }

  function CompleteSpec(s: SessionMap, env: Envelope): SessionMap {
    var d := env.deviceId;
    if d !in s || s[d].PairedS? then s
    else
      var outcome := match s[d]
        case InitiatorS(i) => CheckComplete(env, i.peer)
        case ResponderS(r) => ResponderOnComplete(r, env);
      Settled(s, d, outcome)
  }

  /** `minted` is the new identity of a responder, `None` when generating it fails. */
  function DispatchSpec(m: Maps, ourId: Uuid, env: Envelope, now: int, minted: Option<Certificate>)
    : (Maps, Option<Envelope>)
  {
    var d := env.deviceId;
    match env.body
    case Hello => (m.(sessions := HelloSpec(m.sessions, d, minted)), None)
    case Heartbeat => (m, Some(Envelope(ourId, Heartbeat)))
    case PairRequest(req) => (m.(pending := m.pending[d := PendingOf(req, now)]), None)
    case PairChallenge(_) =>
      var (s, reply) := ChallengeSpec(m.sessions, ourId, env, now);
      (m.(sessions := s), reply)
    case PairConfirm(c) =>
      var (s, reply) := ConfirmSpec(m.sessions, ourId, d, c);
      (m.(sessions := s), reply)
    case PairComplete(_) => (m.(sessions := CompleteSpec(m.sessions, env)), None)
    case PairAccept => (m, None)
    case PairReject(_) => (m, None)
    case Unrelated => (m, None)
  }

  // ---------------------------------------------------------------------------
  // Exactly when a frame pairs, drops or answers
  // ---------------------------------------------------------------------------

  predicate HoldsInitiator(e: Entry) {
    e.session.Some? && e.session.value.InitiatorS?
  }

  /** A certificate in front of a machine that takes it. */
  predicate PairsNow(e: Entry, env: Envelope) {
    && e.session.Some? && CheckComplete(env, 0).Ok?
    && (e.session.value.InitiatorS? ||
        (e.session.value.ResponderS? && e.session.value.responder.accepted == Some(true)))
  }

  /**
   A frame turns its device paired exactly when a certificate meets an initiator, or a responder
   with a positive verdict; it drops the session exactly when a certificate is refused or a
   confirm is not `true`; it answers exactly a heartbeat, a refused challenge and a `true`. A
   challenge or a `true` keeps the initiator's identity and key; a first hello brings a blank
   responder; a request is parked with its time and key.
   */
  lemma FrameDecides(m: Maps, ourId: Uuid, env: Envelope, now: int, minted: Option<Certificate>)
    ensures var (m', reply) := DispatchSpec(m, ourId, env, now, minted);
      var before, after := EntryOf(m, env.deviceId), EntryOf(m', env.deviceId);
      var paired := before.session.Some? && before.session.value.PairedS?;
      && (after.session.Some? && after.session.value.PairedS? <==> paired || PairsNow(before, env))
      && (PairsNow(before, env) ==> after.session.value.fingerprint == env.body.complete.value.fingerprint)
      && (before.session.Some? && after.session.None? <==>
            || (HoldsInitiator(before) && env.body.PairConfirm? && env.body.confirm != Some(true))
            || (before.session.Some? && !paired && env.body.PairComplete? && !PairsNow(before, env)))
      && (before.session.None? && after.session.Some? <==> before.session.None? && env.body.Hello? && minted.Some?)
      && (before.session.None? && after.session.Some? ==>
            after.session == Some(ResponderS(ResponderView(minted.value, env.deviceId, None, None, None, None))))
      && (HoldsInitiator(before) && (env.body.PairChallenge? || env.body == PairConfirm(Some(true))) ==>
            && HoldsInitiator(after)
            && after.session.value.initiator.identity == before.session.value.initiator.identity
            && after.session.value.initiator.ephemeral == before.session.value.initiator.ephemeral)
      && (before.pending != after.pending ==> env.body.PairRequest?)
      && (env.body.PairRequest? ==>
            && after.pending.Some? && after.pending.value.receivedAt == now
            && (forall text :: after.pending.value.peerKey == Some(text) <==>
                  text != "" && env.body.request.Some? && env.body.request.value.text == text))
      && (reply.Some? <==>
            || env.body.Heartbeat?
            || (HoldsInitiator(before) && env.body == PairConfirm(Some(true)))
            || (HoldsInitiator(before) && env.body.PairChallenge?
                && InitiatorOnChallenge(before.session.value.initiator, env, now).1.Err?))
      && (reply.Some? ==>
            && reply.value.deviceId == ourId
            && (env.body.Heartbeat? <==> reply.value.body.Heartbeat?)
            && (env.body.PairChallenge? <==> reply.value.body.PairReject?)
            && (env.body.PairChallenge? ==>
                  var judged := InitiatorOnChallenge(before.session.value.initiator, env, now).1;
                  judged.Err? && reply.value.body.reason == Some(ErrorText(judged.error)))
            && (env.body.PairConfirm? <==> reply.value.body.PairComplete?)
            && (env.body.PairConfirm? ==> reply.value.body.complete == Some(before.session.value.initiator.identity)))
  {
    CheckIgnoresPeer(env);
  }

  /** The certificate check looks only at the certificate. */
  lemma CheckIgnoresPeer(env: Envelope)
    ensures forall peer :: CheckComplete(env, peer).Ok? <==> CheckComplete(env, 0).Ok?
    ensures forall peer :: CheckComplete(env, peer).Ok? ==>
      env.body.PairComplete? && env.body.complete == Some(CheckComplete(env, peer).value.certificate)
  {
  }
}
