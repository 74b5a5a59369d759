/**
 The message-center's two pairing state machines, `Initiator` and `Responder`. Each class
 is proved against a function on its view; the lemmas are about those functions.
 */
module Sessions {
  import opened Wrappers
  import opened Protocol
  import opened Text
  import Fingerprint
  import PairingCode

  datatype PairingError =
    | BadState
    | BadPayload
    | BadKey
    | BadCode(code: string)
    | BadCert
    | Expired(now: int, expires: int)

  /** The `Display` text, without the interpolated numbers. */
  function ErrorText(e: PairingError): string {
    match e
    case BadState => "invalid state transition"
    case BadPayload => "serialize error"
    case BadKey => "ECDH error"
    case BadCode(code) => "malformed pairing code: " + code
    case BadCert => "malformed cert"
    case Expired(_, _) => "pairing code expired"
  }

  /** The text says which error it was. */
  lemma ErrorTextsDiffer(a: PairingError, b: PairingError)
    requires ErrorText(a) == ErrorText(b)
    ensures a == b || (a.Expired? && b.Expired?)
  {
    if a.BadCode? {
      CodeTextStarts(a);
    }
    if b.BadCode? {
      CodeTextStarts(b);
    }
    assert "invalid state transition"[0] == 'i';
  }

  lemma CodeTextStarts(e: PairingError)
    requires e.BadCode?
    ensures ErrorText(e)[0] == 'm' && |ErrorText(e)| >= 24 && ErrorText(e)[24..] == e.code
  {
    assert |"malformed pairing code: "| == 24;
  }

  datatype PairingOutcome = PairingOutcome(peerDeviceId: Uuid, certificate: Certificate)

  /** The certificate check both machines run on `device.pair.complete`. */
  function CheckComplete(env: Envelope, peer: Uuid): Result<PairingOutcome, PairingError> {
    if !env.body.PairComplete? then Err(BadState)
    else if env.body.complete.None? then Err(BadPayload)
    else
      var cert := env.body.complete.value;
      if Fingerprint.Parse(cert.fingerprint).Err? then Err(BadCert)
      else if !HasPemHeader(cert.pem) then Err(BadCert)
      else Ok(PairingOutcome(peer, cert))
  }

  // ---------------------------------------------------------------------------
  // Initiator
  // ---------------------------------------------------------------------------

  datatype InitiatorView = InitiatorView(
    identity: Certificate, peer: Uuid, ephemeral: Option<string>, peerKey: Option<string>, code: Option<string>)

  function StartInitiator(peer: Uuid, identity: Certificate, ephemeral: string): InitiatorView {
    InitiatorView(identity, peer, Some(ephemeral), None, None)
  }

  function InitiatorOnChallenge(v: InitiatorView, env: Envelope, now: int)
    : (InitiatorView, Result<int, PairingError>)
  {
    if !env.body.PairChallenge? then (v, Err(BadState))
    else if env.body.challenge.None? then (v, Err(BadPayload))
    else
      var ch := env.body.challenge.value;
      if !PairingCode.IsPairingCode(ch.code) then (v, Err(BadCode(ch.code)))
      else if now > ch.expiresAt then (v, Err(Expired(now, ch.expiresAt)))
      else if !ch.ephemeral.decodes then (v, Err(BadKey))
      else (v.(peerKey := Some(ch.ephemeral.text), code := Some(ch.code)), Ok(ch.expiresAt))
  }

  class Initiator {
    const identity: Certificate
    const peerDeviceId: Uuid
    var ephemeral: Option<string>
    var peerEphemeralPub: Option<string>
    var challengeCode: Option<string>

    function View(): InitiatorView
      reads this
    {
      InitiatorView(identity, peerDeviceId, ephemeral, peerEphemeralPub, challengeCode)
    }

    constructor Start(peerDeviceId: Uuid, identity: Certificate, ephemeral: string)
      ensures View() == StartInitiator(peerDeviceId, identity, ephemeral)
    {
      this.identity, this.peerDeviceId := identity, peerDeviceId;
      this.ephemeral, peerEphemeralPub, challengeCode := Some(ephemeral), None, None;
    }

    method BuildRequestEnvelope(ourId: Uuid) returns (r: Result<Envelope, PairingError>)
      ensures r == match View().ephemeral
                   case None => Err(BadState)
                   case Some(key) => Ok(Envelope(ourId, PairRequest(Some(WireKey(key, true)))))
    {
      if ephemeral.None? {
        return Err(BadState);
      }
      r := Ok(Envelope(ourId, PairRequest(Some(WireKey(ephemeral.value, true)))));
    }

    method OnChallenge(env: Envelope, now: int) returns (r: Result<int, PairingError>)
      modifies this
      ensures (View(), r) == InitiatorOnChallenge(old(View()), env, now)
    {
      if !env.body.PairChallenge? {
        return Err(BadState);
      }
      if env.body.challenge.None? {
        return Err(BadPayload);
      }
      var challenge := env.body.challenge.value;
      if !PairingCode.IsPairingCode(challenge.code) {
        return Err(BadCode(challenge.code));
      }
      if now > challenge.expiresAt {
        return Err(Expired(now, challenge.expiresAt));
      }
      if !challenge.ephemeral.decodes {
        return Err(BadKey);
      }
      peerEphemeralPub := Some(challenge.ephemeral.text);
      challengeCode := Some(challenge.code);
      r := Ok(challenge.expiresAt);
    }

    function BuildCompleteEnvelope(ourId: Uuid): Envelope {
      Envelope(ourId, PairComplete(Some(identity)))
    }

    /** No earlier challenge or confirm is asked for. */
    function OnComplete(env: Envelope): Result<PairingOutcome, PairingError> {
      CheckComplete(env, peerDeviceId)
    }
  }

  // ---------------------------------------------------------------------------
  // Responder
  // ---------------------------------------------------------------------------

  datatype ResponderView = ResponderView(
    identity: Certificate, peer: Uuid, ephemeralPub: Option<string>, code: Option<string>,
    expiresAt: Option<int>, accepted: Option<bool>)

  function StartResponder(peer: Uuid, identity: Certificate): ResponderView {
    ResponderView(identity, peer, None, None, None, None)
  }

  predicate Blank(v: ResponderView) {
    v.code.None? && v.accepted.None?
  }

  /** Fresh material for `on_request`: our public key and, when ECDH succeeds, the code. */
  datatype FreshKey = FreshKey(pub: string, code: Option<string>)

  const CODE_LIFETIME_MS := 30_000

  function ResponderOnRequest(v: ResponderView, env: Envelope, now: int, key: FreshKey)
    : (ResponderView, Result<(), PairingError>)
  {
    if !env.body.PairRequest? then (v, Err(BadState))
    else if env.body.request.None? then (v, Err(BadPayload))
    else if !env.body.request.value.decodes || key.code.None? then (v, Err(BadKey))
    else (v.(ephemeralPub := Some(key.pub), code := key.code, expiresAt := Some(now + CODE_LIFETIME_MS)), Ok(()))
  }

  function ResponderChallenge(v: ResponderView, ourId: Uuid): Result<Envelope, PairingError> {
    if v.ephemeralPub.None? || v.code.None? || v.expiresAt.None? then Err(BadState)
    else Ok(Envelope(ourId, PairChallenge(Some(
                       Challenge(WireKey(v.ephemeralPub.value, true), v.code.value, v.expiresAt.value)))))
  }

  function ResponderConfirm(v: ResponderView, ourId: Uuid, accepted: bool)
    : (ResponderView, Result<Envelope, PairingError>)
  {
    if v.code.None? then (v, Err(BadState))
    else (v.(accepted := Some(accepted)), Ok(Envelope(ourId, PairConfirm(Some(accepted)))))
  }

  function ResponderOnComplete(v: ResponderView, env: Envelope): Result<PairingOutcome, PairingError> {
    if v.accepted != Some(true) then Err(BadState) else CheckComplete(env, v.peer)
  }

  class Responder {
    const identity: Certificate
    const peerDeviceId: Uuid
    var ephemeralPub: Option<string>
    var code: Option<string>
    var expiresAt: Option<int>
    var accepted: Option<bool>

    function View(): ResponderView
      reads this
    {
      ResponderView(identity, peerDeviceId, ephemeralPub, code, expiresAt, accepted)
    }

    constructor Start(peerDeviceId: Uuid, identity: Certificate)
      ensures View() == StartResponder(peerDeviceId, identity)
    {
      this.identity, this.peerDeviceId := identity, peerDeviceId;
      ephemeralPub, code, expiresAt, accepted := None, None, None, None;
    }

    method OnRequest(env: Envelope, now: int, key: FreshKey) returns (r: Result<(), PairingError>)
      modifies this
      ensures (View(), r) == ResponderOnRequest(old(View()), env, now, key)
    {
      if !env.body.PairRequest? {
        return Err(BadState);
      }
      if env.body.request.None? {
        return Err(BadPayload);
      }
      if !env.body.request.value.decodes || key.code.None? {
        return Err(BadKey);
      }
      ephemeralPub := Some(key.pub);
      code := key.code;
      expiresAt := Some(now + CODE_LIFETIME_MS);
      r := Ok(());
    }

    method BuildChallengeEnvelope(ourId: Uuid) returns (r: Result<Envelope, PairingError>)
      ensures r == ResponderChallenge(View(), ourId)
    {
      if ephemeralPub.None? || code.None? || expiresAt.None? {
        return Err(BadState);
      }
      r := Ok(Envelope(ourId, PairChallenge(Some(
                       Challenge(WireKey(ephemeralPub.value, true), code.value, expiresAt.value)))));
    }

    method BuildConfirmEnvelope(ourId: Uuid, accept: bool) returns (r: Result<Envelope, PairingError>)
      modifies this
      ensures (View(), r) == ResponderConfirm(old(View()), ourId, accept)
    {
      if code.None? {
        return Err(BadState);
      }
      accepted := Some(accept);
      r := Ok(Envelope(ourId, PairConfirm(Some(accept))));
    }

    function OnComplete(env: Envelope): (r: Result<PairingOutcome, PairingError>)
      reads this
      ensures r == ResponderOnComplete(View(), env)
    {
      if accepted != Some(true) then Err(BadState) else CheckComplete(env, peerDeviceId)
    }
  }

  // ---------------------------------------------------------------------------
  // Properties of the guards
  // ---------------------------------------------------------------------------

  /** A pair of hex digits, the first of which may be a plus sign, 32 times between colons. */
  predicate IsHexFingerprint(s: string) {
    var parts := Split(s, ':');
    |parts| == 32 && forall i | 0 <= i < |parts| :: Fingerprint.IsHexPairOrSigned(parts[i])
  }

  /**
   A certificate is taken exactly if it is one, with the PEM header and a fingerprint the parser
   can read, and then the outcome is that certificate for the expected peer; the error says which
   of the three is missing.
   */
  lemma CertificateTakenIff(env: Envelope, peer: Uuid)
    ensures var r := CheckComplete(env, peer);
      && (r.Ok? <==> env.body.PairComplete? && env.body.complete.Some?
                     && HasPemHeader(env.body.complete.value.pem)
                     && IsHexFingerprint(env.body.complete.value.fingerprint))
      && (r.Ok? ==> r.value.peerDeviceId == peer && Some(r.value.certificate) == env.body.complete)
      && (r == Err(BadState) <==> !env.body.PairComplete?)
      && (r == Err(BadPayload) <==> env.body == PairComplete(None))
      && (r.Err? ==> r.error in {BadState, BadPayload, BadCert})
  {
    if env.body.PairComplete? && env.body.complete.Some? {
      Fingerprint.ParserLanguage(env.body.complete.value.fingerprint);
    }
  }

  /** A challenge is either taken over completely or leaves no trace, and the first fault is named. */
  lemma ChallengeAllOrNothing(v: InitiatorView, env: Envelope, now: int)
    ensures var (w, r) := InitiatorOnChallenge(v, env, now);
      && w.identity == v.identity && w.peer == v.peer && w.ephemeral == v.ephemeral
      && (r.Err? ==> w == v)
      && (r.Ok? <==> env.body.PairChallenge? && env.body.challenge.Some? &&
                     var ch := env.body.challenge.value;
                     PairingCode.IsPairingCode(ch.code) && now <= ch.expiresAt && ch.ephemeral.decodes)
      && (r.Ok? ==>
            && w.code == Some(env.body.challenge.value.code) && r.value == env.body.challenge.value.expiresAt
            && w.peerKey == Some(env.body.challenge.value.ephemeral.text))
      && (r == Err(BadState) <==> !env.body.PairChallenge?)
      && (r == Err(BadPayload) <==> env.body == PairChallenge(None))
      && (r.Err? && r.error.BadCode? <==>
            env.body.PairChallenge? && env.body.challenge.Some?
            && !PairingCode.IsPairingCode(env.body.challenge.value.code))
      && (r.Err? && r.error.Expired? <==>
            env.body.PairChallenge? && env.body.challenge.Some?
            && PairingCode.IsPairingCode(env.body.challenge.value.code) && now > env.body.challenge.value.expiresAt)
  {
  }

  /**
   The two machines of the center fit each other: a fresh responder takes exactly a usable request
   and a good key agreement, its challenge is taken by the initiator that asked exactly if it
   arrives within 30 seconds with a well-formed code, and then both hold the same code.
   */
  lemma ResponderMeetsInitiator(
      i: InitiatorView, r: ResponderView, request: Envelope, key: FreshKey, asked: int, now: int, ourId: Uuid)
    requires i.ephemeral.Some? && request.body == PairRequest(Some(WireKey(i.ephemeral.value, true))) && Blank(r)
    ensures var (r', taken) := ResponderOnRequest(r, request, asked, key);
      && (taken.Ok? <==> key.code.Some?) && (taken.Err? ==> r' == r)
      && (taken.Ok? ==>
            var challenge := ResponderChallenge(r', ourId);
            && challenge.Ok? && challenge.value.deviceId == ourId
            && var (i', ok) := InitiatorOnChallenge(i, challenge.value, now);
               && (ok.Ok? <==> now <= asked + 30_000 && PairingCode.IsPairingCode(key.code.value))
               && (ok.Ok? ==> i'.code == r'.code == key.code && i'.peerKey == r'.ephemeralPub == Some(key.pub)))
  {
  }

  /** A verdict takes a code, is the one given, and decides whether a certificate is looked at. */
  lemma ResponderVerdict(r: ResponderView, ourId: Uuid, accepted: bool, env: Envelope)
    ensures var (r', sent) := ResponderConfirm(r, ourId, accepted);
      && (sent.Ok? <==> r.code.Some?) && (sent.Err? ==> r' == r)
      && (sent.Ok? ==>
            && sent.value == Envelope(ourId, PairConfirm(Some(accepted)))
            && (ResponderOnComplete(r', env).Ok? <==> accepted && CheckComplete(env, r.peer).Ok?)
            && (!accepted ==> ResponderOnComplete(r', env) == Err(BadState)))
  {
  }

  datatype ResponderCall =
    | Request(env: Envelope, now: int, key: FreshKey)
    | Confirm(ourId: Uuid, accepted: bool)

  function ResponderRun(v: ResponderView, calls: seq<ResponderCall>): ResponderView {
    if calls == [] then v
    else
      var last := calls[|calls| - 1];
      var w := ResponderRun(v, calls[..|calls| - 1]);
      match last
      case Request(env, now, key) => ResponderOnRequest(w, env, now, key).0
      case Confirm(ourId, accepted) => ResponderConfirm(w, ourId, accepted).0
  }

  /**
   Over any sequence of calls on a fresh responder: key, code and expiry appear together, and
   there is no verdict, hence no accepted certificate, before a code.
   */
  lemma {:induction false} ResponderNeedsRequestFirst(
    peer: Uuid, identity: Certificate, calls: seq<ResponderCall>, env: Envelope)
    ensures var w := ResponderRun(StartResponder(peer, identity), calls);
      && (w.code.Some? <==> w.ephemeralPub.Some?) && (w.code.Some? <==> w.expiresAt.Some?)
      && (w.accepted.Some? ==> w.code.Some?)
      && (ResponderOnComplete(w, env).Ok? ==> w.code.Some?)
      && w.identity == identity && w.peer == peer
  {
    if calls != [] {
      ResponderNeedsRequestFirst(peer, identity, calls[..|calls| - 1], env);
    }
  }
}
