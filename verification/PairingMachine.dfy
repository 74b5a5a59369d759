/**
 The phone's side of pairing. The class holds the mutable fields of `PairingMachine`; the
 function `PhoneNext` is its specification, about which the conservation laws are proved.
 */
module PairingMachine {
  import opened Wrappers
  import opened Protocol
  import opened Sessions
  import Fingerprint

  datatype PairingState =
    | Idle
    | ShowingCode(code: string, expiresAtMs: int, peerDeviceId: Uuid, peerEphemeralPub: string)
    | Confirming(code: string, peerDeviceId: Uuid)
    | Paired(ourDeviceId: Uuid, peerDeviceId: Uuid, peerFingerprint: string)
    | Failed(reason: string)
    | Initiating(startedAtMs: int)

  /** `stored` is what the identity store returns; `longTerm` is the cached copy. */
  datatype Phone = Phone(
    state: PairingState, ephemeral: Option<string>, longTerm: Option<Certificate>, stored: Certificate, deviceId: Uuid)

  /** What the phone reacts to. Clock readings and fresh keys come with the input. */
  datatype PhoneInput =
    | Receive(env: Envelope, now: int, key: FreshKey)
    | UserAccepts(now: int)
    | UserRejects(reason: string)
    | Initiate(pub: string, now: int)
    | Reset

  const NO_CODE := "(phone-initiated, no code)"

  function ConfirmEnvelope(ourId: Uuid, accepted: bool): Envelope {
    Envelope(ourId, PairConfirm(Some(accepted)))
  }

  function OnRequestSpec(p: Phone, env: Envelope, now: int, key: FreshKey): (Phone, Option<Envelope>)
    requires env.body.PairRequest?
  {
    var p := p.(longTerm := if p.longTerm.Some? then p.longTerm else Some(p.stored));
    if env.body.request.None? then (p.(state := Failed("bad pair.request payload")), None)
    else
      var req := env.body.request.value;
      if !req.decodes then (p.(state := Failed("bad peer pubkey")), None)
      else if key.code.None? then (p.(state := Failed("ECDH failed"), ephemeral := Some(key.pub)), None)
      else
        var expiresAt := now + CODE_LIFETIME_MS;
        (p.(state := ShowingCode(key.code.value, expiresAt, env.deviceId, req.text), ephemeral := Some(key.pub)),
         Some(Envelope(p.deviceId,
                       PairChallenge(Some(Challenge(WireKey(key.pub, true), key.code.value, expiresAt))))))
  }

  function UserAcceptsSpec(p: Phone, now: int): (Phone, Option<Envelope>) {
    if !p.state.ShowingCode? then (p, None)
    else if now > p.state.expiresAtMs then (p.(state := Failed("code expired")), None)
    else (p.(state := Confirming(p.state.code, p.state.peerDeviceId)), Some(ConfirmEnvelope(p.deviceId, true)))
  }

  function UserRejectsSpec(p: Phone, reason: string): (Phone, Option<Envelope>) {
    if !p.state.ShowingCode? then (p, None)
    else (p.(state := Failed(reason)), Some(ConfirmEnvelope(p.deviceId, false)))
  }

  function OnAcceptSpec(p: Phone, env: Envelope, now: int): (Phone, Option<Envelope>) {
    if !p.state.ShowingCode? then (p, Some(ConfirmEnvelope(p.deviceId, false)))
    else if now > p.state.expiresAtMs
    then (p.(state := Failed("code expired")), Some(ConfirmEnvelope(p.deviceId, false)))
    else (p.(state := Confirming(p.state.code, env.deviceId)), Some(ConfirmEnvelope(p.deviceId, true)))
  }

  function OnRejectSpec(p: Phone, env: Envelope): Phone
    requires env.body.PairReject?
  {
    p.(state := Failed(if env.body.reason.Some? then env.body.reason.value else "rejected by peer"))
  }

  function OnCompleteSpec(p: Phone, env: Envelope): (Phone, Option<Envelope>)
    requires env.body.PairComplete?
  {
    if env.body.complete.None? then (p.(state := Failed("bad pair.complete")), None)
    else
      var cert := env.body.complete.value;
      if !HasPemHeader(cert.pem) then (p.(state := Failed("peer cert missing BEGIN CERTIFICATE")), None)
      else if !Fingerprint.IsValidFingerprint(cert.fingerprint)
      then (p.(state := Failed("peer fingerprint malformed")), None)
      else
        var peer := if p.state.Confirming? || p.state.ShowingCode? then p.state.peerDeviceId else env.deviceId;
        (p.(state := Paired(p.deviceId, peer, cert.fingerprint)),
         if p.longTerm.None? then None else Some(Envelope(p.deviceId, PairComplete(p.longTerm))))
  }

  function InitiateSpec(p: Phone, pub: string, now: int): (Phone, Option<Envelope>) {
    if !p.state.Idle? then (p, None)
    else (p.(state := Initiating(now), ephemeral := Some(pub)),
          Some(Envelope(p.deviceId, PairRequest(Some(WireKey(pub, true))))))
  }

  function OnInitiatorConfirmSpec(p: Phone, env: Envelope): (Phone, Option<Envelope>)
    requires env.body.PairConfirm?
  {
    if !p.state.Initiating? || env.body.confirm.None? then (p, None)
    else if !env.body.confirm.value then (p.(state := Failed("desktop rejected pairing")), None)
    else if p.longTerm.None? then (p, None)
    else (p.(state := Confirming(NO_CODE, env.deviceId)), Some(Envelope(p.deviceId, PairComplete(p.longTerm))))
  }

  /** `BridgeService.handleIncoming` and the user's buttons. */
  function PhoneNext(p: Phone, input: PhoneInput): (Phone, Option<Envelope>) {
    match input
    case Receive(env, now, key) => (
      match env.body
      case PairRequest(_) => OnRequestSpec(p, env, now, key)
      case PairAccept => OnAcceptSpec(p, env, now)
      case PairReject(_) => (OnRejectSpec(p, env), None)
      case PairConfirm(_) => OnInitiatorConfirmSpec(p, env)
      case PairComplete(_) => OnCompleteSpec(p, env)
      case _ => (p, None)
    )
    case UserAccepts(now) => UserAcceptsSpec(p, now)
    case UserRejects(reason) => UserRejectsSpec(p, reason)
    case Initiate(pub, now) => InitiateSpec(p, pub, now)
    case Reset => (p.(state := Idle, ephemeral := None), None)
  }

  // ---------------------------------------------------------------------------
  // The class
  // ---------------------------------------------------------------------------

  class PairingMachine {
    const stored: Certificate
    const deviceId: Uuid
    var state: PairingState
    var ephemeral: Option<string>
    var longTerm: Option<Certificate>

    function View(): Phone
      reads this
    {
      Phone(state, ephemeral, longTerm, stored, deviceId)
    }

    constructor (stored: Certificate, deviceId: Uuid)
      ensures View() == Phone(Idle, None, None, stored, deviceId)
    {
      this.stored, this.deviceId := stored, deviceId;
      state, ephemeral, longTerm := Idle, None, None;
    }

    method EnsureIdentity()
      modifies this`longTerm
      ensures View() == old(View()).(longTerm := if old(longTerm).Some? then old(longTerm) else Some(stored))
    {
      if longTerm.Some? {
        return;
      }
      longTerm := Some(stored);
    }

    method OnRequest(env: Envelope, now: int, key: FreshKey) returns (reply: Option<Envelope>)
      requires env.body.PairRequest?
      modifies this
      ensures (View(), reply) == OnRequestSpec(old(View()), env, now, key)
    {
      EnsureIdentity();
      if env.body.request.None? {
        state := Failed("bad pair.request payload");
        return None;
      }
      var req := env.body.request.value;
      if !req.decodes {
        state := Failed("bad peer pubkey");
        return None;
      }
      ephemeral := Some(key.pub);
      if key.code.None? {
        state := Failed("ECDH failed");
        return None;
      }
      var expiresAt := now + CODE_LIFETIME_MS;
      state := ShowingCode(key.code.value, expiresAt, env.deviceId, req.text);
      reply := Some(Envelope(deviceId, PairChallenge(Some(
                                         Challenge(WireKey(key.pub, true), key.code.value, expiresAt)))));
    }

    method AcceptByUser(now: int) returns (reply: Option<Envelope>)
      modifies this
      ensures (View(), reply) == UserAcceptsSpec(old(View()), now)
    {
      if !state.ShowingCode? {
        return None;
      }
      if now > state.expiresAtMs {
        state := Failed("code expired");
        return None;
      }
      state := Confirming(state.code, state.peerDeviceId);
      reply := Some(ConfirmEnvelope(deviceId, true));
    }

    method RejectByUser(reason: string) returns (reply: Option<Envelope>)
      modifies this
      ensures (View(), reply) == UserRejectsSpec(old(View()), reason)
    {
      if !state.ShowingCode? {
        return None;
      }
      reply := Some(ConfirmEnvelope(deviceId, false));
      state := Failed(reason);
    }

    method OnAccept(env: Envelope, now: int) returns (reply: Envelope)
      modifies this
      ensures (View(), Some(reply)) == OnAcceptSpec(old(View()), env, now)
    {
      if !state.ShowingCode? {
        return ConfirmEnvelope(deviceId, false);
      }
      if now > state.expiresAtMs {
        state := Failed("code expired");
        return ConfirmEnvelope(deviceId, false);
      }
      state := Confirming(state.code, env.deviceId);
      reply := ConfirmEnvelope(deviceId, true);
    }

    method OnReject(env: Envelope)
      requires env.body.PairReject?
      modifies this
      ensures View() == OnRejectSpec(old(View()), env)
    {
      state := Failed(if env.body.reason.Some? then env.body.reason.value else "rejected by peer");
    }

    method OnComplete(env: Envelope) returns (reply: Option<Envelope>)
      requires env.body.PairComplete?
      modifies this
      ensures (View(), reply) == OnCompleteSpec(old(View()), env)
    {
      if env.body.complete.None? {
        state := Failed("bad pair.complete");
        return None;
      }
      var cert := env.body.complete.value;
      if !HasPemHeader(cert.pem) {
        state := Failed("peer cert missing BEGIN CERTIFICATE");
        return None;
      }
      if !Fingerprint.IsValidFingerprint(cert.fingerprint) {
        state := Failed("peer fingerprint malformed");
        return None;
      }
      var peer := if state.Confirming? || state.ShowingCode? then state.peerDeviceId else env.deviceId;
      state := Paired(deviceId, peer, cert.fingerprint);
      if longTerm.None? {
        return None;
      }
      reply := Some(Envelope(deviceId, PairComplete(longTerm)));
    }

    method Initiate(pub: string, now: int) returns (reply: Option<Envelope>)
      modifies this
      ensures (View(), reply) == InitiateSpec(old(View()), pub, now)
    {
      if !state.Idle? {
        return None;
      }
      ephemeral := Some(pub);
      reply := Some(Envelope(deviceId, PairRequest(Some(WireKey(pub, true)))));
      state := Initiating(now);
    }

    method OnInitiatorConfirm(env: Envelope) returns (reply: Option<Envelope>)
      requires env.body.PairConfirm?
      modifies this
      ensures (View(), reply) == OnInitiatorConfirmSpec(old(View()), env)
    {
      if !state.Initiating? {
        return None;
      }
      if env.body.confirm.None? {
        return None;
      }
      if !env.body.confirm.value {
        state := Failed("desktop rejected pairing");
        return None;
      }
      if longTerm.None? {
        return None;
      }
      state := Confirming(NO_CODE, env.deviceId);
      reply := Some(Envelope(deviceId, PairComplete(longTerm)));
    }

    method Reset()
      modifies this
      ensures View() == old(View()).(state := Idle, ephemeral := None)
    {
      state, ephemeral := Idle, None;
    }
  }

  const OUTGOING_CAPACITY := 64

  /** The service: routes incoming envelopes to the machine and replies to the bounded channel. */
  class BridgeService {
    const machine: PairingMachine
    var outgoing: seq<Envelope>

    constructor (machine: PairingMachine)
      ensures this.machine == machine && outgoing == []
    {
      this.machine := machine;
      outgoing := [];
    }

    /** `BridgeClient.send`: a full channel drops the envelope. */
    method Send(env: Envelope) returns (ok: bool)
      modifies this`outgoing
      ensures ok == (|old(outgoing)| < OUTGOING_CAPACITY)
      ensures outgoing == if ok then old(outgoing) + [env] else old(outgoing)
    {
      ok := |outgoing| < OUTGOING_CAPACITY;
      if ok {
        outgoing := outgoing + [env];
      }
    }

    method HandleIncoming(env: Envelope, now: int, key: FreshKey)
      modifies this`outgoing, machine
      ensures var (p, reply) := PhoneNext(old(machine.View()), Receive(env, now, key));
        && machine.View() == p
        && outgoing == if reply.Some? && |old(outgoing)| < OUTGOING_CAPACITY
                       then old(outgoing) + [reply.value] else old(outgoing)
    {
      var reply: Option<Envelope> := None;
      match env.body {
        case PairRequest(_) => reply := machine.OnRequest(env, now, key);
        case PairAccept =>
          var r := machine.OnAccept(env, now);
          reply := Some(r);
        case PairReject(_) => machine.OnReject(env);
        case PairConfirm(_) => reply := machine.OnInitiatorConfirm(env);
        case PairComplete(_) => reply := machine.OnComplete(env);
        case _ =>
      }
      if reply.Some? {
        var _ := Send(reply.value);
      }
    }
  }

  // ---------------------------------------------------------------------------
  // Exactly when the phone decides what
  // ---------------------------------------------------------------------------

  /** A certificate the phone takes. */
  predicate GoodCertificate(body: Body) {
    && body.PairComplete? && body.complete.Some?
    && HasPemHeader(body.complete.value.pem) && Fingerprint.IsValidFingerprint(body.complete.value.fingerprint)
  }

  /** Someone agrees while a code is shown and in time: the user, or the desktop by `device.pair.accept`. */
  predicate AgreesInTime(p: Phone, input: PhoneInput) {
    && p.state.ShowingCode?
    && (input.UserAccepts? || (input.Receive? && input.env.body.PairAccept?))
    && input.now <= p.state.expiresAtMs
  }

  /** What ends a pairing on the phone: a reset, any request, any rejection, or a bad certificate. */
  predicate Unpairs(input: PhoneInput) {
    input.Reset? ||
    (input.Receive? &&
     (input.env.body.PairRequest? || input.env.body.PairReject? ||
      (input.env.body.PairComplete? && !GoodCertificate(input.env.body))))
  }

  /**
   The paired state is entered exactly on a good certificate, and left exactly on one of the
   inputs above; an acceptance takes exactly a timely agreement to a shown code; a challenge
   exactly a usable request; a request exactly the user's wish in the idle state; a refusal exactly
   the user's while a code is shown, or an agreement of the desktop's that comes out of time; a
   certificate exactly a good one received or, while initiating, the desktop's acceptance, once
   the own identity is loaded.
   */
  lemma PhoneDecides(p: Phone, input: PhoneInput)
    ensures var (q, out) := PhoneNext(p, input);
      var good := input.Receive? && GoodCertificate(input.env.body);
      && (q.state.Paired? <==> good || (p.state.Paired? && !Unpairs(input)))
      && (p.state.Paired? && q.state.Paired? && !good ==> q.state == p.state)
      && (good ==> q.state == Paired(
                     p.deviceId,
                     if p.state.ShowingCode? || p.state.Confirming? then p.state.peerDeviceId else input.env.deviceId,
                     input.env.body.complete.value.fingerprint))
      && (out.Some? && out.value.body == PairConfirm(Some(true)) <==> AgreesInTime(p, input))
      && (out.Some? && out.value.body == PairConfirm(Some(false)) <==>
            || (input.UserRejects? && p.state.ShowingCode?)
            || (input.Receive? && input.env.body.PairAccept? && !AgreesInTime(p, input)))
      && (q.state.Confirming? && !p.state.Confirming? ==> out.Some?)
      && (q.longTerm != p.longTerm ==> p.longTerm.None? && q.longTerm == Some(p.stored)
                                       && input.Receive? && input.env.body.PairRequest?)
      && (out.Some? && out.value.body.PairChallenge? <==>
            Challenges(input))
      && (out.Some? && out.value.body.PairRequest? <==> input.Initiate? && p.state.Idle?)
      && (out.Some? && out.value.body.PairComplete? <==>
            p.longTerm.Some? &&
            (good || (p.state.Initiating? && input.Receive? && input.env.body == PairConfirm(Some(true)))))
      && (out.Some? && out.value.body.PairComplete? ==> out.value.body.complete == p.longTerm)
      && (out.Some? ==> out.value.deviceId == p.deviceId)
  {
  }

  /** A request with a usable key, which the phone meets with a key of its own. */
  predicate Agrees(input: PhoneInput) {
    && input.Receive? && input.env.body.PairRequest? && input.env.body.request.Some?
    && input.env.body.request.value.decodes
  }

  /** What brings the phone to show a code: such a request and a good key agreement. */
  predicate Challenges(input: PhoneInput) {
    Agrees(input) && input.key.code.Some?
  }

  /** What takes a shown code away: any decision on it, and anything that ends a pairing. */
  predicate TakesCode(input: PhoneInput) {
    || input.UserAccepts? || input.UserRejects? || Unpairs(input)
    || (input.Receive? && (input.env.body.PairAccept? || input.env.body.PairComplete?))
  }

  predicate Hears(p: Phone, input: PhoneInput, verdict: bool) {
    p.state.Initiating? && input.Receive? && input.env.body == PairConfirm(Some(verdict))
  }

  /** What makes the phone give up, whatever it was doing. */
  predicate Fails(p: Phone, input: PhoneInput) {
    || (Unpairs(input) && !input.Reset? && !Challenges(input))
    || (p.state.ShowingCode? && input.UserRejects?)
    || (p.state.ShowingCode? && (input.UserAccepts? || (input.Receive? && input.env.body.PairAccept?))
        && input.now > p.state.expiresAtMs)
    || Hears(p, input, false)
  }

  /**
   Exactly what each other state is entered by. A code is shown from a usable request until it is
   decided or superseded, and it is the one the challenge carries, for 30 seconds; the phone fails
   exactly on the inputs above, and a refusal gives the user's reason; it waits for the desktop's
   certificate exactly after agreeing, or after the desktop's acceptance of its own request.
   */
  lemma PhoneStates(p: Phone, input: PhoneInput)
    ensures var (q, out) := PhoneNext(p, input);
      && (q.state.ShowingCode? <==> Challenges(input) || (p.state.ShowingCode? && !TakesCode(input)))
      && (Challenges(input) ==>
            && q.state == ShowingCode(
                 input.key.code.value, input.now + 30_000, input.env.deviceId, input.env.body.request.value.text)
            && q.ephemeral == Some(input.key.pub)
            && out.Some? && out.value.body.challenge ==
                 Some(Challenge(WireKey(input.key.pub, true), q.state.code, q.state.expiresAtMs)))
      && (q.state.Failed? && q.state != p.state ==> Fails(p, input))
      && (Fails(p, input) ==> q.state.Failed?)
      && (p.state.ShowingCode? && input.UserRejects? ==> q.state.reason == input.reason)
      && (input.Receive? && input.env.body.PairReject? && input.env.body.reason.Some? ==>
            q.state.reason == input.env.body.reason.value)
      && (Agrees(input) ==> q.ephemeral == Some(input.key.pub))
      && (q.ephemeral != p.ephemeral ==> input.Reset? || input.Initiate? || Agrees(input))
      && (q.state.Initiating? && q.state != p.state <==> input.Initiate? && p.state.Idle?)
      && (input.Initiate? && p.state.Idle? ==>
            && q.state == Initiating(input.now) && q.ephemeral == Some(input.pub)
            && out.Some? && out.value.body == PairRequest(Some(WireKey(input.pub, true))))
      && (q.state.Confirming? && q.state != p.state ==>
            AgreesInTime(p, input) || (Hears(p, input, true) && p.longTerm.Some?))
      && (AgreesInTime(p, input) ==>
            q.state == Confirming(p.state.code, if input.Receive? then input.env.deviceId else p.state.peerDeviceId))
      && (Hears(p, input, true) && p.longTerm.Some? ==> q.state == Confirming(NO_CODE, input.env.deviceId))
      && (q.state.Idle? && q.state != p.state ==> input.Reset?)
      && (input.Reset? ==> q.state.Idle? && q.ephemeral.None? && out.None?)
  {
  }

  // ---------------------------------------------------------------------------
  // Conservation over any run, whatever arrives
  // ---------------------------------------------------------------------------

  /** A phone with the count of everything it has emitted. */
  datatype Trace = Trace(
    phone: Phone, challenges: nat, acceptances: nat, requests: nat, directCompletes: nat, replyCompletes: nat,
    lastExpiry: Option<int>)

  function Emits(env: Option<Envelope>, body: Body): nat {
    if env.Some? && env.value.body == body then 1 else 0
  }

  function TraceNext(t: Trace, input: PhoneInput): Trace {
    var (p, out) := PhoneNext(t.phone, input);
    var kind := if out.Some? then out.value.body else Unrelated;
    var direct := kind.PairComplete? && t.phone.state.Initiating? && input.Receive? && input.env.body.PairConfirm?;
    Trace(
      p,
      t.challenges + (if kind.PairChallenge? then 1 else 0),
      t.acceptances + Emits(out, PairConfirm(Some(true))),
      t.requests + (if kind.PairRequest? then 1 else 0),
      t.directCompletes + (if direct then 1 else 0),
      t.replyCompletes + (if kind.PairComplete? && !direct then 1 else 0),
      if kind.PairChallenge? && kind.challenge.Some? then Some(kind.challenge.value.expiresAt) else t.lastExpiry)
  }

  function TraceRun(t: Trace, inputs: seq<PhoneInput>): Trace {
    if inputs == [] then t
    else TraceNext(TraceRun(t, inputs[..|inputs| - 1]), inputs[|inputs| - 1])
  }

  function Fresh(stored: Certificate, deviceId: Uuid): Trace {
    Trace(Phone(Idle, None, None, stored, deviceId), 0, 0, 0, 0, 0, None)
  }

  ghost predicate Conserved(t: Trace) {
    && t.acceptances + (if t.phone.state.ShowingCode? then 1 else 0) <= t.challenges
    && t.directCompletes + (if t.phone.state.Initiating? then 1 else 0) <= t.requests
    && (t.phone.state.Paired? ==> Fingerprint.IsValidFingerprint(t.phone.state.peerFingerprint))
    && (t.phone.state.ShowingCode? ==> t.lastExpiry == Some(t.phone.state.expiresAtMs))
    && (t.phone.longTerm.Some? ==> t.phone.longTerm.value == t.phone.stored)
  }

  lemma NextConserves(t: Trace, input: PhoneInput)
    requires Conserved(t)
    ensures Conserved(TraceNext(t, input))
  {
  }

  /**
   Over any inputs, malformed or out of order: acceptances sent (plus one while a code is
   shown) never exceed challenges sent, certificates sent on the desktop's word (plus one
   while initiating) never exceed requests sent, and a paired phone holds a well-formed
   fingerprint.
   */
  lemma {:induction false} PhoneConserves(stored: Certificate, deviceId: Uuid, inputs: seq<PhoneInput>)
    ensures Conserved(TraceRun(Fresh(stored, deviceId), inputs))
  {
    if inputs != [] {
      PhoneConserves(stored, deviceId, inputs[..|inputs| - 1]);
      NextConserves(TraceRun(Fresh(stored, deviceId), inputs[..|inputs| - 1]), inputs[|inputs| - 1]);
    }
  }

  /** Every acceptance leaves the phone no later than the expiry of the latest challenge it sent. */
  lemma {:induction false} AcceptanceInTime(
      stored: Certificate, deviceId: Uuid, inputs: seq<PhoneInput>, input: PhoneInput)
    requires var (_, out) := PhoneNext(TraceRun(Fresh(stored, deviceId), inputs).phone, input);
      out.Some? && out.value.body == PairConfirm(Some(true))
    ensures (input.UserAccepts? || input.Receive?)
    ensures var t := TraceRun(Fresh(stored, deviceId), inputs);
      t.lastExpiry.Some? && input.now <= t.lastExpiry.value
  {
    PhoneConserves(stored, deviceId, inputs);
  }
}
