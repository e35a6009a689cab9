/** Which tokens a verifier accepts, by its configuration alone. */
module Acceptance {
  import opened Options
  import opened Verdicts
  import opened JtiRegistries
  import opened Attestations
  import opened AttestationTheorems

  // --------------------------------------------------------------------
  // What a token needs
  // --------------------------------------------------------------------

  /** The signature, the times, the issuer it names, and its key identifier, if it has one. */
  predicate SignedBy(verifies: Verifier, t: Token, key: Key, kid: Option<string>, issuer: string, now: real) {
    && verifies(t, key)
    && t.body.Some? && t.body.value.iat <= now < t.body.value.exp
    && t.body.value.envelope.Some? && t.body.value.envelope.value.iss == issuer
    && (t.kid == None || t.kid == kid)
  }

  /** The token says what the verifier asks about. */
  predicate MatchesContext(body: Body, deploymentId: string, context: Context) {
    && body.block.Some? && body.envelope.Some?
    && (|| body.block.value.verdict == "verified" || body.block.value.verdict == "forwarded"
        || body.block.value.verdict == "blocked" || body.block.value.verdict == "unverifiable"
        || body.block.value.verdict == "heuristic_pass" || body.block.value.verdict == "error")
    && body.block.value.deploymentId == deploymentId
    && body.block.value.sender == context.sender && body.block.value.receiver == context.receiver
    && body.envelope.value.sub == context.payloadHash
    && (context.sessionId == None || body.block.value.sessionId == context.sessionId)
    && body.envelope.value.jti != ""
  }

  /** The identifier under which the verifier files the token is not held. */
  predicate IsUnused(s: Service, body: Body, seen: Seen, now: real)
    requires body.envelope.Some?
  {
    var jti, iss := body.envelope.value.jti, body.envelope.value.iss;
    var key := if iss == s.issuerId then jti else iss + ['\0'] + jti;
    key !in seen || seen[key] <= now
  }

  lemma ContextExactly(body: Body, deploymentId: string, context: Context)
    ensures ContextError(body, deploymentId, context).None? <==> MatchesContext(body, deploymentId, context)
  {
  }

  /** A token used under a deployment is accepted exactly if it matches the context and is unused. */
  lemma ClaimsAreAcceptedExactly(s: Service, body: Body, deploymentId: string, context: Context, seen: Seen, ttl: real,
                                 now: real)
    ensures CheckVerifiedClaims(s, body, deploymentId, context, seen, ttl, now).1 == Accepted(body)
            <==> MatchesContext(body, deploymentId, context) && IsUnused(s, body, seen, now)
  {
    ContextExactly(body, deploymentId, context);
  }

  lemma SignedByIsVerified(verifies: Verifier, t: Token, c: Candidate, now: real)
    ensures Attempt(verifies, t, c, now) == Verified <==> SignedBy(verifies, t, c.key, c.kid, c.issuer, now)
  {
  }

  // --------------------------------------------------------------------
  // Configured keys
  // --------------------------------------------------------------------

  /** Key `k` of entry `i` is usable, and neither the service itself nor an earlier entry has a key with the
      same fingerprint under another issuer. */
  ghost predicate IsConfigured(s: Service, fingerprint: Key -> string, issuers: Issuers, i: nat, k: JwkKey) {
    && i < |issuers| && UsableEntry(issuers[i].0, issuers[i].1) && k in issuers[i].1.keys && k.pem.Some?
    && (s.ownKey.Some? && fingerprint(s.ownKey.value.key) == fingerprint(k.pem.value) ==> s.issuerId == issuers[i].0)
    && (forall j, other | 0 <= j < i && UsableEntry(issuers[j].0, issuers[j].1) && other in issuers[j].1.keys
                          && other.pem.Some? && fingerprint(other.pem.value) == fingerprint(k.pem.value) ::
          issuers[j].0 == issuers[i].0)
  }

  function KeyCandidate(issuers: Issuers, i: nat, k: JwkKey): Candidate
    requires i < |issuers| && issuers[i].1.deploymentId.Some? && k.pem.Some?
  {
    Candidate(issuers[i].0, k.pem.value, issuers[i].1.deploymentId.value, k.kid)
  }

  /** No key in the list has the fingerprint. */
  predicate NoneHas(fingerprint: Key -> string, keys: seq<JwkKey>, f: string) {
    forall k | k in keys :: k.pem.Some? ==> fingerprint(k.pem.value) != f
  }

  /** Who owns a fingerprint once an entry is read: whoever did, or the entry if it has a key with it. */
  lemma {:induction false} OwnerAfterEntry(fingerprint: Key -> string, owners: Owners, id: string, keys: seq<JwkKey>,
                                           f: string)
    ensures var after := EntryOwners(fingerprint, owners, id, keys);
            && (f in owners ==> f in after && after[f] == owners[f])
            && (f !in owners && NoneHas(fingerprint, keys, f) ==> f !in after)
            && (f !in owners && !NoneHas(fingerprint, keys, f) ==> f in after && after[f] == id)
    decreases |keys|
  {
    if keys != [] {
      OwnerAfterEntry(fingerprint, Claim(fingerprint, owners, id, keys[0]), id, keys[1..], f);
      assert keys == [keys[0]] + keys[1..];
    }
  }

  /** Whoever owns the fingerprint, as far as the entries from `j` to `i - 1` go, is `id`. */
  ghost predicate OwnedOnlyBy(fingerprint: Key -> string, owners: Owners, issuers: Issuers, i: nat, f: string,
                              id: string)
    requires i <= |issuers|
  {
    && (f in owners ==> owners[f] == id)
    && (forall j, other | 0 <= j < i && UsableEntry(issuers[j].0, issuers[j].1) && other in issuers[j].1.keys
                          && other.pem.Some? && fingerprint(other.pem.value) == f :: issuers[j].0 == id)
  }

  lemma {:induction false} KeyIsCandidate(fingerprint: Key -> string, owners: Owners, issuers: Issuers, i: nat,
                                          k: JwkKey)
    requires i < |issuers| && UsableEntry(issuers[i].0, issuers[i].1) && k in issuers[i].1.keys && k.pem.Some?
    requires OwnedOnlyBy(fingerprint, owners, issuers, i, fingerprint(k.pem.value), issuers[i].0)
    ensures KeyCandidate(issuers, i, k) in PeerCandidates(fingerprint, owners, issuers)
    decreases |issuers|
  {
    var (id, entry) := issuers[0];
    if i == 0 {
      EntryCandidateIff(fingerprint, owners, id, entry.deploymentId.value, entry.keys, KeyCandidate(issuers, 0, k));
    } else {
      RestIsOwned(fingerprint, owners, issuers, i, k);
      if UsableEntry(id, entry) {
        KeyIsCandidate(fingerprint, EntryOwners(fingerprint, owners, id, entry.keys), issuers[1..], i - 1, k);
      } else {
        KeyIsCandidate(fingerprint, owners, issuers[1..], i - 1, k);
      }
    }
  }

  lemma RestIsOwned(fingerprint: Key -> string, owners: Owners, issuers: Issuers, i: nat, k: JwkKey)
    requires 0 < i < |issuers| && k.pem.Some?
    requires OwnedOnlyBy(fingerprint, owners, issuers, i, fingerprint(k.pem.value), issuers[i].0)
    ensures var (id, entry) := issuers[0];
            var after := if UsableEntry(id, entry) then EntryOwners(fingerprint, owners, id, entry.keys) else owners;
            OwnedOnlyBy(fingerprint, after, issuers[1..], i - 1, fingerprint(k.pem.value), issuers[i].0)
  {
    var (id, entry) := issuers[0];
    var f := fingerprint(k.pem.value);
    OwnerAfterEntry(fingerprint, owners, id, entry.keys, f);
    forall j, other | && 0 <= j < i - 1 && UsableEntry(issuers[1..][j].0, issuers[1..][j].1)
                      && other in issuers[1..][j].1.keys && other.pem.Some? && fingerprint(other.pem.value) == f
      ensures issuers[1..][j].0 == issuers[i].0
    {
      assert issuers[j + 1] == issuers[1..][j];
    }
  }

  lemma ConfiguredIsCandidate(s: Service, fingerprint: Key -> string, issuers: Issuers, i: nat, k: JwkKey)
    requires IsConfigured(s, fingerprint, issuers, i, k)
    ensures KeyCandidate(issuers, i, k) in Candidates(s, fingerprint, issuers)
  {
    KeyIsCandidate(fingerprint, OwnOwners(s, fingerprint), issuers, i, k);
  }

  /** A peer candidate comes of some usable entry. */
  lemma {:induction false} CandidateIsKey(fingerprint: Key -> string, owners: Owners, issuers: Issuers, c: Candidate)
      returns (i: nat, k: JwkKey)
    requires c in PeerCandidates(fingerprint, owners, issuers)
    ensures i < |issuers| && UsableEntry(issuers[i].0, issuers[i].1) && k in issuers[i].1.keys && k.pem.Some?
    ensures c == KeyCandidate(issuers, i, k)
    decreases |issuers|
  {
    var (id, entry) := issuers[0];
    if UsableEntry(id, entry) && c in EntryCandidates(fingerprint, owners, id, entry.deploymentId.value, entry.keys) {
      EntryCandidateIff(fingerprint, owners, id, entry.deploymentId.value, entry.keys, c);
      i := 0;
      k :| k in entry.keys && MayUse(fingerprint, owners, id, k)
           && c == Candidate(id, k.pem.value, entry.deploymentId.value, k.kid);
    } else if UsableEntry(id, entry) {
      i, k := CandidateIsKey(fingerprint, EntryOwners(fingerprint, owners, id, entry.keys), issuers[1..], c);
      i := i + 1;
    } else {
      i, k := CandidateIsKey(fingerprint, owners, issuers[1..], c);
      i := i + 1;
    }
  }

  // --------------------------------------------------------------------
  // Scanning
  // --------------------------------------------------------------------

  /** The scan uses the first candidate that verifies; all of one deployment are alike. */
  lemma {:induction false} ScanFinds(verifies: Verifier, t: Token, candidates: seq<Candidate>, now: real, e: bool,
                                     m: bool, deploymentId: string)
    requires exists c | c in candidates :: Attempt(verifies, t, c, now) == Verified
    requires forall c | c in candidates && Attempt(verifies, t, c, now) == Verified :: c.deploymentId == deploymentId
    ensures Scan(verifies, t, candidates, now, e, m) == Use(deploymentId)
    decreases |candidates|
  {
    assert candidates == [candidates[0]] + candidates[1..];
    if Attempt(verifies, t, candidates[0], now) != Verified {
      match Attempt(verifies, t, candidates[0], now)
      case Expired => ScanFinds(verifies, t, candidates[1..], now, true, m, deploymentId);
      case Mismatched => ScanFinds(verifies, t, candidates[1..], now, e, true, deploymentId);
      case NoMatch => ScanFinds(verifies, t, candidates[1..], now, e, m, deploymentId);
    }
  }

  lemma UsedIsAcceptedExactly(s: Service, verifies: Verifier, fingerprint: Key -> string, t: Token, context: Context,
                              issuers: Issuers, seen: Seen, ttl: real, clock: Clock, deploymentId: string)
    requires t.body.Some?
    requires Decide(verifies, t, Candidates(s, fingerprint, issuers), clock.decode) == Use(deploymentId)
    ensures Verify(s, verifies, fingerprint, t, context, issuers, seen, ttl, clock).1 == Accepted(t.body.value)
            <==> MatchesContext(t.body.value, deploymentId, context) && IsUnused(s, t.body.value, seen, clock.register)
  {
    ClaimsAreAcceptedExactly(s, t.body.value, deploymentId, context, seen, ttl, clock.register);
  }

  // --------------------------------------------------------------------
  // Acceptance
  // --------------------------------------------------------------------

  /**
   Tokens of the service itself: one signed under its own key, that names it and
   has no key identifier or the key's own, is accepted if and only if it matches
   the context under the service's deployment and is unused, whatever peers are
   configured.
   */
  lemma OwnTokenIsAcceptedExactly(s: Service, verifies: Verifier, fingerprint: Key -> string, t: Token,
                                  context: Context, issuers: Issuers, seen: Seen, ttl: real, clock: Clock)
    requires s.ownKey.Some?
    requires SignedBy(verifies, t, s.ownKey.value.key, Some(s.ownKey.value.kid), s.issuerId, clock.decode)
    ensures Verify(s, verifies, fingerprint, t, context, issuers, seen, ttl, clock).1 == Accepted(t.body.value)
            <==> MatchesContext(t.body.value, s.deploymentId, context)
                 && IsUnused(s, t.body.value, seen, clock.register)
  {
    var own := OwnCandidates(s)[0];
    SignedByIsVerified(verifies, t, own, clock.decode);
    assert Candidates(s, fingerprint, issuers)[0] == own;
    UsedIsAcceptedExactly(s, verifies, fingerprint, t, context, issuers, seen, ttl, clock, s.deploymentId);
  }

  /** Every issuer is configured once, and the service itself does not vouch for the issuer at another deployment. */
  ghost predicate IsSettled(s: Service, verifies: Verifier, t: Token, issuers: Issuers, i: nat)
    requires i < |issuers|
  {
    && (forall j | 0 <= j < |issuers| && issuers[j].0 == issuers[i].0 :: j == i)
    && (s.issuerId == issuers[i].0 && s.ownKey.Some? && verifies(t, s.ownKey.value.key) ==>
          Some(s.deploymentId) == issuers[i].1.deploymentId)
  }

  lemma VerifiedIsOfEntry(s: Service, verifies: Verifier, fingerprint: Key -> string, t: Token, issuers: Issuers,
                          i: nat, c: Candidate, now: real)
    requires i < |issuers| && UsableEntry(issuers[i].0, issuers[i].1) && IsSettled(s, verifies, t, issuers, i)
    requires t.body.Some? && t.body.value.envelope.Some? && t.body.value.envelope.value.iss == issuers[i].0
    requires c in Candidates(s, fingerprint, issuers) && Attempt(verifies, t, c, now) == Verified
    ensures c.deploymentId == issuers[i].1.deploymentId.value
  {
    if c in PeerCandidates(fingerprint, OwnOwners(s, fingerprint), issuers) {
      var j, k := CandidateIsKey(fingerprint, OwnOwners(s, fingerprint), issuers, c);
    }
  }

  /**
   Tokens of a peer: one signed under a configured key of the issuer it names, with
   no key identifier or that key's, is accepted if and only if it matches the
   context under the entry's deployment and is unused; whatever other keys and
   issuers are configured, and in whatever order.
   */
  lemma PeerTokenIsAcceptedExactly(s: Service, verifies: Verifier, fingerprint: Key -> string, t: Token,
                                   context: Context,
                                   issuers: Issuers, i: nat, k: JwkKey, seen: Seen, ttl: real, clock: Clock)
    requires IsConfigured(s, fingerprint, issuers, i, k) && IsSettled(s, verifies, t, issuers, i)
    requires SignedBy(verifies, t, k.pem.value, k.kid, issuers[i].0, clock.decode)
    ensures Verify(s, verifies, fingerprint, t, context, issuers, seen, ttl, clock).1 == Accepted(t.body.value)
            <==> MatchesContext(t.body.value, issuers[i].1.deploymentId.value, context)
                 && IsUnused(s, t.body.value, seen, clock.register)
  {
    var candidates, deploymentId := Candidates(s, fingerprint, issuers), issuers[i].1.deploymentId.value;
    var mine := KeyCandidate(issuers, i, k);
    ConfiguredIsCandidate(s, fingerprint, issuers, i, k);
    SignedByIsVerified(verifies, t, mine, clock.decode);
    forall c | c in candidates && Attempt(verifies, t, c, clock.decode) == Verified
      ensures c.deploymentId == deploymentId
    {
      VerifiedIsOfEntry(s, verifies, fingerprint, t, issuers, i, c, clock.decode);
    }
    ScanFinds(verifies, t, candidates, clock.decode, false, false, deploymentId);
    UsedIsAcceptedExactly(s, verifies, fingerprint, t, context, issuers, seen, ttl, clock, deploymentId);
  }

  /** No other tokens are accepted. */
  lemma OnlyConfiguredAreAccepted(s: Service, verifies: Verifier, fingerprint: Key -> string, t: Token,
                                  context: Context, issuers: Issuers, seen: Seen, ttl: real, clock: Clock)
    requires Verify(s, verifies, fingerprint, t, context, issuers, seen, ttl, clock).1.Accepted?
    ensures || (s.ownKey.Some? && SignedBy(verifies, t, s.ownKey.value.key, Some(s.ownKey.value.kid), s.issuerId,
                                           clock.decode))
            || exists i: nat, k :: && i < |issuers| && UsableEntry(issuers[i].0, issuers[i].1)
                                   && k in issuers[i].1.keys && k.pem.Some?
                                   && SignedBy(verifies, t, k.pem.value, k.kid, issuers[i].0, clock.decode)
  {
    var candidates := Candidates(s, fingerprint, issuers);
    var c := ScanUsesVerified(verifies, t, candidates, clock.decode, false, false);
    SignedByIsVerified(verifies, t, c, clock.decode);
    if c in PeerCandidates(fingerprint, OwnOwners(s, fingerprint), issuers) {
      var i, k := CandidateIsKey(fingerprint, OwnOwners(s, fingerprint), issuers, c);
    } else {
      assert c in OwnCandidates(s);
    }
  }

  // --------------------------------------------------------------------
  // Expiry
  // --------------------------------------------------------------------

  /** The token is signed under the key, but past its end. */
  predicate LateFor(verifies: Verifier, t: Token, key: Key, now: real) {
    verifies(t, key) && t.body.Some? && t.body.value.iat <= now && t.body.value.exp <= now
  }

  /** The key would verify the token, but for the key identifier it names. */
  predicate MislabelledFor(verifies: Verifier, t: Token, c: Candidate, now: real) {
    && verifies(t, c.key)
    && t.body.Some? && t.body.value.iat <= now < t.body.value.exp
    && t.body.value.envelope.Some? && t.body.value.envelope.value.iss == c.issuer
    && t.kid.Some? && t.kid != c.kid
  }

  /** What a token no candidate verifies is refused for: its end, else its key identifier, else the lack of a key. */
  lemma {:induction false} ScanRefuses(verifies: Verifier, t: Token, candidates: seq<Candidate>, now: real, e: bool,
                                       m: bool)
    requires forall c | c in candidates :: !SignedBy(verifies, t, c.key, c.kid, c.issuer, now)
    ensures Scan(verifies, t, candidates, now, e, m)
            == Refuse(if e || exists c | c in candidates :: LateFor(verifies, t, c.key, now) then ExpiredToken
                      else if m || exists c | c in candidates :: MislabelledFor(verifies, t, c, now) then KidMismatch
                      else NoTrustedKey)
    decreases |candidates|
  {
    if candidates != [] {
      var c, rest := candidates[0], candidates[1..];
      assert candidates == [c] + rest;
      SignedByIsVerified(verifies, t, c, now);
      ScanRefuses(verifies, t, rest, now, e || Attempt(verifies, t, c, now) == Expired,
                  m || Attempt(verifies, t, c, now) == Mismatched);
    }
  }

  /** Every refusal before the claims are looked at, exactly. */
  lemma RefusedExactly(s: Service, verifies: Verifier, fingerprint: Key -> string, t: Token, context: Context,
                       issuers: Issuers, seen: Seen, ttl: real, clock: Clock)
    requires var candidates := Candidates(s, fingerprint, issuers);
             forall c | c in candidates :: !SignedBy(verifies, t, c.key, c.kid, c.issuer, clock.decode)
    ensures var candidates := Candidates(s, fingerprint, issuers);
            Verify(s, verifies, fingerprint, t, context, issuers, seen, ttl, clock)
            == (seen,
                Rejected(if candidates == [] then NoKeys
                         else if exists c | c in candidates :: LateFor(verifies, t, c.key, clock.decode)
                         then ExpiredToken
                         else if exists c | c in candidates :: MislabelledFor(verifies, t, c, clock.decode)
                         then KidMismatch
                         else NoTrustedKey))
  {
    ScanRefuses(verifies, t, Candidates(s, fingerprint, issuers), clock.decode, false, false);
  }

  /** A token past its end, signed under the service's own key or a configured one, is refused as expired:
      whoever it names, and whatever other keys fail on it. */
  lemma ExpiredIsReported(s: Service, verifies: Verifier, fingerprint: Key -> string, t: Token, context: Context,
                          issuers: Issuers, i: nat, k: JwkKey, seen: Seen, ttl: real, clock: Clock)
    requires t.body.Some? && t.body.value.iat <= clock.decode && t.body.value.exp <= clock.decode
    requires || (s.ownKey.Some? && verifies(t, s.ownKey.value.key))
             || (IsConfigured(s, fingerprint, issuers, i, k) && verifies(t, k.pem.value))
    ensures Verify(s, verifies, fingerprint, t, context, issuers, seen, ttl, clock) == (seen, Rejected(ExpiredToken))
  {
    var candidates := Candidates(s, fingerprint, issuers);
    if s.ownKey.Some? && verifies(t, s.ownKey.value.key) {
      assert OwnCandidates(s)[0] in candidates;
    } else {
      ConfiguredIsCandidate(s, fingerprint, issuers, i, k);
      assert Attempt(verifies, t, KeyCandidate(issuers, i, k), clock.decode) == Expired;
    }
    RefusedExactly(s, verifies, fingerprint, t, context, issuers, seen, ttl, clock);
  }

  // --------------------------------------------------------------------
  // Refusals
  // --------------------------------------------------------------------

  /** Each context check names a field that does differ. */
  lemma ReasonsAreAccurate(body: Body, deploymentId: string, context: Context)
    ensures match ContextError(body, deploymentId, context)
            case None => true
            case Some(WrongDeployment) => body.block.Some? && body.block.value.deploymentId != deploymentId
            case Some(WrongSender) => body.block.Some? && body.block.value.sender != context.sender
            case Some(WrongReceiver) => body.block.Some? && body.block.value.receiver != context.receiver
            case Some(WrongPayload) => body.envelope.None? || body.envelope.value.sub != context.payloadHash
            case Some(WrongSession) =>
              body.block.Some? && context.sessionId.Some? && body.block.value.sessionId != context.sessionId
            case Some(MissingJti) => body.envelope.Some? && body.envelope.value.jti == ""
            case Some(reason) =>
              reason == BadStructure && (body.block.None? || Parse(body.block.value.verdict).None?)
  {
  }

  // --------------------------------------------------------------------
  // Entries without names
  // --------------------------------------------------------------------

  /** Nothing but the characters `strip` removes. */
  predicate IsBlank(s: string) {
    forall c | c in s :: c == ' ' || 9 <= c as int <= 13 || 28 <= c as int <= 31
  }

  lemma BlankHasNoText(s: string)
    ensures HasText(s) <==> !IsBlank(s)
  {
    if i :| 0 <= i < |s| && !IsWhitespace(s[i]) { assert s[i] in s; }
  }

  /** An entry whose issuer or deployment ID is absent or blank is as good as not there. */
  lemma {:induction false} NamelessEntryIsIgnored(fingerprint: Key -> string, owners: Owners, front: Issuers,
                                                  id: string, entry: IssuerEntry, back: Issuers)
    requires IsBlank(id) || entry.deploymentId == None || IsBlank(entry.deploymentId.value)
    ensures PeerCandidates(fingerprint, owners, front + [(id, entry)] + back)
            == PeerCandidates(fingerprint, owners, front + back)
    decreases |front|
  {
    if front == [] {
      BlankHasNoText(id);
      if entry.deploymentId.Some? { BlankHasNoText(entry.deploymentId.value); }
      assert front + [(id, entry)] + back == [(id, entry)] + back && front + back == back;
      assert ([(id, entry)] + back)[1..] == back;
    } else {
      assert (front + [(id, entry)] + back)[1..] == front[1..] + [(id, entry)] + back;
      assert (front + back)[1..] == front[1..] + back;
      var (first, keys) := front[0];
      if UsableEntry(first, keys) {
        NamelessEntryIsIgnored(fingerprint, EntryOwners(fingerprint, owners, first, keys.keys), front[1..], id, entry,
                               back);
      } else {
        NamelessEntryIsIgnored(fingerprint, owners, front[1..], id, entry, back);
      }
    }
  }

  // --------------------------------------------------------------------
  // Wire values
  // --------------------------------------------------------------------

  /** A wire value is read as the verdict it was written for; "forwarded" too is read as VERIFIED, and nothing else
      is read. */
  lemma WireValuesExactly(text: string, status: VerdictStatus)
    ensures Parse(text) == Some(status) <==> text == WireValue(status) || (text == "forwarded" && status == VERIFIED)
  {
  }
}
