/**
 Envelopes of protocol v1, as far as pairing and liveness look at them. A payload that does
 not parse is `None`.
 */
module Protocol {
  import opened Wrappers
  import opened Text

  type Uuid = nat

  /** A base64 public key on the wire; `decodes` says whether the receiver can parse it. */
  datatype WireKey = WireKey(text: string, decodes: bool)

  datatype Challenge = Challenge(ephemeral: WireKey, code: string, expiresAt: int)

  datatype Certificate = Certificate(pem: string, fingerprint: string)

  datatype Body =
    | Hello
    | Heartbeat
    | PairRequest(request: Option<WireKey>)
    | PairChallenge(challenge: Option<Challenge>)
    | PairConfirm(confirm: Option<bool>)
    | PairAccept
    | PairReject(reason: Option<string>)
    | PairComplete(complete: Option<Certificate>)
    | Unrelated

  datatype Envelope = Envelope(deviceId: Uuid, body: Body)

  predicate HasPemHeader(pem: string) {
    Contains(pem, "BEGIN CERTIFICATE")
  }
}
