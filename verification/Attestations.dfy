/** Signing and verifying verdict attestations. */
module Attestations {
  import opened Options
  import opened Verdicts
  import opened JtiRegistries

  /** A public key, as the text of its PEM form. */
  type Key = string

  /** The nested claim block. */
  datatype Block = Block(verdict: string, engine: string, sender: string, receiver: string,
                         deploymentId: string, sessionId: Option<string>)

  /** The typed top-level claims. */
  datatype Envelope = Envelope(iss: string, sub: string, jti: string)

  /** What decoding yields; `None` where a part is missing or ill-typed. */
  datatype Body = Body(iat: real, exp: real, envelope: Option<Envelope>, block: Option<Block>)

  /** A token: its header's key identifier, its body if it has the required claims, and who signed it. */
  datatype Token = Token(kid: Option<string>, body: Option<Body>, signer: Key)

  /** Whether the token's signature verifies under a key. */
  type Verifier = (Token, Key) -> bool

  datatype OwnKey = OwnKey(key: Key, kid: string)

  /** What stays fixed about a service; `ownKey` is `None` on a verifier-only node. */
  datatype Service = Service(issuerId: string, deploymentId: string, ownKey: Option<OwnKey>, validity: int)

  datatype Context = Context(sender: string, receiver: string, payloadHash: string, sessionId: Option<string>)

  datatype Reason =
    | NoKeys | ExpiredToken | KidMismatch | NoTrustedKey
    | BadStructure | WrongDeployment | WrongSender | WrongReceiver | WrongPayload | WrongSession
    | MissingJti | Replayed

  datatype Outcome = Accepted(body: Body) | Rejected(reason: Reason)

  // --------------------------------------------------------------------
  // Candidate keys
  // --------------------------------------------------------------------

  /** A configured key; `pem` is `None` when it is not a usable P-256 key. */
  datatype JwkKey = JwkKey(pem: Option<Key>, kid: Option<string>)

  datatype IssuerEntry = IssuerEntry(deploymentId: Option<string>, keys: seq<JwkKey>)

  /** The trusted issuers in configuration order, every issuer once. */
  type Issuers = seq<(string, IssuerEntry)>

  datatype Candidate = Candidate(issuer: string, key: Key, deploymentId: string, kid: Option<string>)

  /** The ASCII characters `strip` removes. */
  predicate IsWhitespace(c: char) {
    9 <= c as int <= 13 || 28 <= c as int <= 31 || c == ' '
  }

  predicate HasText(s: string) {
    exists i | 0 <= i < |s| :: !IsWhitespace(s[i])
  }

  predicate UsableEntry(id: string, entry: IssuerEntry) {
    HasText(id) && entry.deploymentId.Some? && HasText(entry.deploymentId.value)
  }

  /** The first issuer each fingerprint was seen under. */
  type Owners = map<string, string>

  predicate MayUse(fingerprint: Key -> string, owners: Owners, id: string, k: JwkKey) {
    k.pem.Some? && (fingerprint(k.pem.value) in owners ==> owners[fingerprint(k.pem.value)] == id)
  }

  function Claim(fingerprint: Key -> string, owners: Owners, id: string, k: JwkKey): Owners {
    if k.pem.None? || fingerprint(k.pem.value) in owners then owners else owners[fingerprint(k.pem.value) := id]
  }

  /** The candidates one entry contributes. */
  function EntryCandidates(fingerprint: Key -> string, owners: Owners, id: string, deploymentId: string,
                           keys: seq<JwkKey>): seq<Candidate>
    decreases |keys|
  {
    if keys == [] then []
    else
      (if MayUse(fingerprint, owners, id, keys[0]) then [Candidate(id, keys[0].pem.value, deploymentId, keys[0].kid)]
       else [])
      + EntryCandidates(fingerprint, Claim(fingerprint, owners, id, keys[0]), id, deploymentId, keys[1..])
  }

  function EntryOwners(fingerprint: Key -> string, owners: Owners, id: string, keys: seq<JwkKey>): Owners
    decreases |keys|
  {
    if keys == [] then owners
    else EntryOwners(fingerprint, Claim(fingerprint, owners, id, keys[0]), id, keys[1..])
  }

  /** Candidates from the trusted issuers, given the fingerprints already owned. */
  function PeerCandidates(fingerprint: Key -> string, owners: Owners, issuers: Issuers): seq<Candidate>
    decreases |issuers|
  {
    if issuers == [] then []
    else
      var (id, entry) := issuers[0];
      if UsableEntry(id, entry)
      then EntryCandidates(fingerprint, owners, id, entry.deploymentId.value, entry.keys)
           + PeerCandidates(fingerprint, EntryOwners(fingerprint, owners, id, entry.keys), issuers[1..])
      else PeerCandidates(fingerprint, owners, issuers[1..])
  }

  function OwnCandidates(s: Service): seq<Candidate> {
    if s.ownKey.None? then []
    else [Candidate(s.issuerId, s.ownKey.value.key, s.deploymentId, Some(s.ownKey.value.kid))]
  }

  function OwnOwners(s: Service, fingerprint: Key -> string): Owners {
    if s.ownKey.None? then map[] else map[fingerprint(s.ownKey.value.key) := s.issuerId]
  }

  function Candidates(s: Service, fingerprint: Key -> string, issuers: Issuers): seq<Candidate> {
    OwnCandidates(s) + PeerCandidates(fingerprint, OwnOwners(s, fingerprint), issuers)
  }

  /** One entry's keys, each kept unless another issuer owns its fingerprint. */
  method EntryKeys(fingerprint: Key -> string, owners: Owners, id: string, deploymentId: string, keys: seq<JwkKey>)
      returns (candidates: seq<Candidate>, now: Owners)
    ensures candidates == EntryCandidates(fingerprint, owners, id, deploymentId, keys)
    ensures now == EntryOwners(fingerprint, owners, id, keys)
  {
    candidates, now := [], owners;
    for j := 0 to |keys|
      invariant EntryCandidates(fingerprint, owners, id, deploymentId, keys)
                == candidates + EntryCandidates(fingerprint, now, id, deploymentId, keys[j..])
      invariant EntryOwners(fingerprint, owners, id, keys) == EntryOwners(fingerprint, now, id, keys[j..])
    {
      var k := keys[j];
      assert keys[j..][1..] == keys[j + 1..] && keys[j..][0] == k;
      ghost var before, rest := candidates,
        EntryCandidates(fingerprint, Claim(fingerprint, now, id, k), id, deploymentId, keys[j + 1..]);
      if MayUse(fingerprint, now, id, k) {
        candidates := candidates + [Candidate(id, k.pem.value, deploymentId, k.kid)];
        assert candidates + rest == before + ([Candidate(id, k.pem.value, deploymentId, k.kid)] + rest);
      } else {
        assert candidates + rest == before + ([] + rest);
      }
      now := Claim(fingerprint, now, id, k);
    }
  }

  /** The local key first, then each peer key not already owned by another issuer. */
  method CandidateKeys(s: Service, fingerprint: Key -> string, issuers: Issuers) returns (candidates: seq<Candidate>)
    ensures candidates == Candidates(s, fingerprint, issuers)
  {
    candidates := OwnCandidates(s);
    var owners := OwnOwners(s, fingerprint);
    for i := 0 to |issuers|
      invariant Candidates(s, fingerprint, issuers) == candidates + PeerCandidates(fingerprint, owners, issuers[i..])
    {
      var (id, entry) := issuers[i];
      assert issuers[i..][1..] == issuers[i + 1..];
      if UsableEntry(id, entry) {
        var more;
        more, owners := EntryKeys(fingerprint, owners, id, entry.deploymentId.value, entry.keys);
        candidates := candidates + more;
      }
    }
  }

  // --------------------------------------------------------------------
  // Verification
  // --------------------------------------------------------------------

  datatype Status = Verified | Mismatched | Expired | NoMatch

  /** One candidate key: the signature, then expiry, then the binding of issuer and key identifier. */
  function Attempt(verifies: Verifier, t: Token, c: Candidate, now: real): Status {
    if !verifies(t, c.key) || t.body.None? || t.body.value.iat > now then NoMatch
    else if t.body.value.exp <= now then Expired
    else if t.body.value.envelope.None? || t.body.value.envelope.value.iss != c.issuer then NoMatch
    else if t.kid.Some? && t.kid != c.kid then Mismatched
    else Verified
  }

  /** Issuers reusing an identifier must not shadow each other; the service's own tokens keep the bare one. */
  function RegistryKey(self: string, iss: string, jti: string): string {
    if iss != self then iss + ['\0'] + jti else jti
  }

  /** The checks on verified claims that come before the replay check. */
  function ContextError(body: Body, deploymentId: string, context: Context): Option<Reason> {
    if body.block.None? || Parse(body.block.value.verdict).None? then Some(BadStructure)
    else if body.block.value.deploymentId != deploymentId then Some(WrongDeployment)
    else if body.block.value.sender != context.sender then Some(WrongSender)
    else if body.block.value.receiver != context.receiver then Some(WrongReceiver)
    else if body.envelope.None? || body.envelope.value.sub != context.payloadHash then Some(WrongPayload)
    else if context.sessionId.Some? && body.block.value.sessionId != context.sessionId then Some(WrongSession)
    else if body.envelope.value.jti == "" then Some(MissingJti)
    else None
  }

  /** What scanning the candidates in order decides. */
  datatype Decision = Use(deploymentId: string) | Refuse(reason: Reason)

  function Scan(verifies: Verifier, t: Token, candidates: seq<Candidate>, now: real, expired: bool,
                mismatched: bool): Decision {
    if candidates == [] then
      Refuse(if expired then ExpiredToken else if mismatched then KidMismatch else NoTrustedKey)
    else match Attempt(verifies, t, candidates[0], now)
      case Verified => Use(candidates[0].deploymentId)
      case Expired => Scan(verifies, t, candidates[1..], now, true, mismatched)
      case Mismatched => Scan(verifies, t, candidates[1..], now, expired, true)
      case NoMatch => Scan(verifies, t, candidates[1..], now, expired, mismatched)
  }

  function Decide(verifies: Verifier, t: Token, candidates: seq<Candidate>, now: real): Decision {
    if candidates == [] then Refuse(NoKeys) else Scan(verifies, t, candidates, now, false, false)
  }

  /** The clocks a verification reads: when decoding, and before asking the registry. */
  datatype Clock = Clock(decode: real, register: real)

  function Verify(s: Service, verifies: Verifier, fingerprint: Key -> string, t: Token, context: Context,
                  issuers: Issuers, seen: Seen, ttl: real, clock: Clock): (Seen, Outcome) {
    match Decide(verifies, t, Candidates(s, fingerprint, issuers), clock.decode)
    case Refuse(reason) => (seen, Rejected(reason))
    case Use(deploymentId) =>
      // Only a token with a body is ever used.
      if t.body.None? then (seen, Rejected(NoTrustedKey))
      else CheckVerifiedClaims(s, t.body.value, deploymentId, context, seen, ttl, clock.register)
  }

  function CheckVerifiedClaims(s: Service, body: Body, deploymentId: string, context: Context, seen: Seen, ttl: real,
                               now: real): (Seen, Outcome) {
    var error := ContextError(body, deploymentId, context);
    if error.Some? then (seen, Rejected(error.value))
    else
      var key := RegistryKey(s.issuerId, body.envelope.value.iss, body.envelope.value.jti);
      var answer := Registered(seen, ttl, key, now, Some(body.exp));
      (answer.0, if answer.1 then Accepted(body) else Rejected(Replayed))
  }

  // --------------------------------------------------------------------
  // Signing
  // --------------------------------------------------------------------

  datatype SignError = UnknownVerdict | NoSigningKey | DuplicateTrace | EncodingFailed

  datatype Signed = Minted(token: Token) | Failed(error: SignError)

  datatype Claims = Claims(traceId: string, verdict: string, engine: string, sender: string, receiver: string,
                           payloadHash: string, sessionId: Option<string>)

  /** The token for a known verdict; `t` is the issuing time in whole seconds. */
  function Mint(s: Service, own: OwnKey, c: Claims, verdict: VerdictStatus, t: int): Token {
    Token(Some(own.kid),
          Some(Body(t as real, (t + s.validity) as real,
                    Some(Envelope(s.issuerId, c.payloadHash, c.traceId)),
                    Some(Block(WireValue(verdict), c.engine, c.sender, c.receiver, s.deploymentId, c.sessionId)))),
          own.key)
  }

  /** Verdict first, then the key, then the reservation of the trace, then the encoding. */
  function Sign(s: Service, c: Claims, issued: Seen, ttl: real, t: int, now: real, encodes: bool): (Seen, Signed) {
    var verdict := Parse(c.verdict);
    if verdict.None? then (issued, Failed(UnknownVerdict))
    else if s.ownKey.None? then (issued, Failed(NoSigningKey))
    else
      var (reserved, isFresh) := Registered(issued, ttl, c.traceId, now, Some((t + s.validity) as real));
      if !isFresh then (reserved, Failed(DuplicateTrace))
      else if !encodes then (reserved - {c.traceId}, Failed(EncodingFailed))
      else (reserved, Minted(Mint(s, s.ownKey.value, c, verdict.value, t)))
  }

  /** The service: `consumed` records tokens it verified, `issued` traces it signed. */
  class CryptoService {
    const service: Service
    const consumed: JtiRegistry
    const issued: JtiRegistry

    constructor (service: Service, consumed: JtiRegistry)
      ensures this.service == service && this.consumed == consumed
      ensures fresh(issued) && issued.seen == map[] && issued.ttl == service.validity as real
    {
      this.service := service;
      this.consumed := consumed;
      issued := new JtiRegistry(service.validity as real);
    }

    method SignVerdict(c: Claims, t: int, now: real, encodes: bool) returns (result: Signed)
      requires issued != consumed
      modifies issued
      ensures (issued.seen, result) == Sign(service, c, old(issued.seen), issued.ttl, t, now, encodes)
      ensures consumed.seen == old(consumed.seen)
    {
      var verdict := Parse(c.verdict);
      if verdict.None? {
        return Failed(UnknownVerdict);
      }
      if service.ownKey.None? {
        return Failed(NoSigningKey);
      }
      var exp := t + service.validity;
      var reserved := issued.CheckAndRegister(c.traceId, now, Some(exp as real));
      if !reserved {
        return Failed(DuplicateTrace);
      }
      if !encodes {
        issued.Release(c.traceId);
        return Failed(EncodingFailed);
      }
      return Minted(Mint(service, service.ownKey.value, c, verdict.value, t));
    }

    method VerifyAttestation(verifies: Verifier, fingerprint: Key -> string, t: Token, context: Context,
                             issuers: Issuers, clock: Clock)
        returns (outcome: Outcome)
      modifies consumed
      ensures (consumed.seen, outcome)
              == Verify(service, verifies, fingerprint, t, context, issuers, old(consumed.seen), consumed.ttl, clock)
    {
      var candidates := CandidateKeys(service, fingerprint, issuers);
      if candidates == [] {
        return Rejected(NoKeys);
      }
      var expiredSeen, mismatchSeen := false, false;
      for i := 0 to |candidates|
        invariant consumed.seen == old(consumed.seen)
        invariant Scan(verifies, t, candidates, clock.decode, false, false)
                  == Scan(verifies, t, candidates[i..], clock.decode, expiredSeen, mismatchSeen)
      {
        assert candidates[i..][1..] == candidates[i + 1..];
        var status := Attempt(verifies, t, candidates[i], clock.decode);
        if status == Expired {
          expiredSeen := true;
        } else if status == Mismatched {
          mismatchSeen := true;
        } else if status == Verified {
          outcome := CheckClaims(t.body.value, candidates[i].deploymentId, context, clock.register);
          return;
        }
      }
      return Rejected(if expiredSeen then ExpiredToken else if mismatchSeen then KidMismatch else NoTrustedKey);
    }

    method CheckClaims(body: Body, deploymentId: string, context: Context, now: real) returns (outcome: Outcome)
      modifies consumed
      ensures (consumed.seen, outcome)
              == CheckVerifiedClaims(service, body, deploymentId, context, old(consumed.seen), consumed.ttl, now)
    {
      var error := ContextError(body, deploymentId, context);
      if error.Some? {
        return Rejected(error.value);
      }
      var key := RegistryKey(service.issuerId, body.envelope.value.iss, body.envelope.value.jti);
      var isNew := consumed.CheckAndRegister(key, now, Some(body.exp));
      return if isNew then Accepted(body) else Rejected(Replayed);
    }
  }
}
