/** What verification guarantees, over single calls and over whole runs. */
module AttestationTheorems {
  import opened Options
  import opened Verdicts
  import opened JtiRegistries
  import opened Attestations

  // --------------------------------------------------------------------
  // One owner per key
  // --------------------------------------------------------------------

  /** The owner of every fingerprint once all entries are read. */
  function FinalOwners(fingerprint: Key -> string, owners: Owners, issuers: Issuers): Owners
    decreases |issuers|
  {
    if issuers == [] then owners
    else
      var (id, entry) := issuers[0];
      if UsableEntry(id, entry)
      then FinalOwners(fingerprint, EntryOwners(fingerprint, owners, id, entry.keys), issuers[1..])
      else FinalOwners(fingerprint, owners, issuers[1..])
  }

  lemma {:induction false} EntryOwnersExtend(fingerprint: Key -> string, owners: Owners, id: string, keys: seq<JwkKey>)
    ensures forall f | f in owners ::
            f in EntryOwners(fingerprint, owners, id, keys)
              && EntryOwners(fingerprint, owners, id, keys)[f] == owners[f]
    decreases |keys|
  {
    if keys != [] { EntryOwnersExtend(fingerprint, Claim(fingerprint, owners, id, keys[0]), id, keys[1..]); }
  }

  lemma {:induction false} FinalOwnersExtend(fingerprint: Key -> string, owners: Owners, issuers: Issuers)
    ensures forall f | f in owners ::
            f in FinalOwners(fingerprint, owners, issuers) && FinalOwners(fingerprint, owners, issuers)[f] == owners[f]
    decreases |issuers|
  {
    if issuers != [] {
      var (id, entry) := issuers[0];
      if UsableEntry(id, entry) {
        EntryOwnersExtend(fingerprint, owners, id, entry.keys);
        FinalOwnersExtend(fingerprint, EntryOwners(fingerprint, owners, id, entry.keys), issuers[1..]);
      } else {
        FinalOwnersExtend(fingerprint, owners, issuers[1..]);
      }
    }
  }

  lemma {:induction false} EntryCandidateIsOwned(fingerprint: Key -> string, owners: Owners, id: string,
                                                 deploymentId: string,
                                                keys: seq<JwkKey>, c: Candidate)
    requires c in EntryCandidates(fingerprint, owners, id, deploymentId, keys)
    ensures c.issuer == id && c.deploymentId == deploymentId
    ensures fingerprint(c.key) in EntryOwners(fingerprint, owners, id, keys)
    ensures EntryOwners(fingerprint, owners, id, keys)[fingerprint(c.key)] == id
    decreases |keys|
  {
    var more := Claim(fingerprint, owners, id, keys[0]);
    EntryOwnersExtend(fingerprint, more, id, keys[1..]);
    if c in EntryCandidates(fingerprint, more, id, deploymentId, keys[1..]) {
      EntryCandidateIsOwned(fingerprint, more, id, deploymentId, keys[1..], c);
    }
  }

  lemma {:induction false} PeerCandidateIsOwned(fingerprint: Key -> string, owners: Owners, issuers: Issuers,
                                                c: Candidate)
    requires c in PeerCandidates(fingerprint, owners, issuers)
    ensures fingerprint(c.key) in FinalOwners(fingerprint, owners, issuers)
    ensures FinalOwners(fingerprint, owners, issuers)[fingerprint(c.key)] == c.issuer
    decreases |issuers|
  {
    var (id, entry) := issuers[0];
    if UsableEntry(id, entry) {
      var more := EntryOwners(fingerprint, owners, id, entry.keys);
      FinalOwnersExtend(fingerprint, more, issuers[1..]);
      if c in EntryCandidates(fingerprint, owners, id, entry.deploymentId.value, entry.keys) {
        EntryCandidateIsOwned(fingerprint, owners, id, entry.deploymentId.value, entry.keys, c);
      } else {
        PeerCandidateIsOwned(fingerprint, more, issuers[1..], c);
      }
    } else {
      PeerCandidateIsOwned(fingerprint, owners, issuers[1..], c);
    }
  }

  /** One key never verifies as two issuers: candidates with the same fingerprint have the same issuer. */
  lemma OneIssuerPerKey(s: Service, fingerprint: Key -> string, issuers: Issuers, c: Candidate, d: Candidate)
    requires c in Candidates(s, fingerprint, issuers) && d in Candidates(s, fingerprint, issuers)
    requires fingerprint(c.key) == fingerprint(d.key)
    ensures c.issuer == d.issuer
  {
    var owners := OwnOwners(s, fingerprint);
    FinalOwnersExtend(fingerprint, owners, issuers);
    if c in PeerCandidates(fingerprint, owners, issuers) { PeerCandidateIsOwned(fingerprint, owners, issuers, c); }
    if d in PeerCandidates(fingerprint, owners, issuers) { PeerCandidateIsOwned(fingerprint, owners, issuers, d); }
  }

  // --------------------------------------------------------------------
  // What acceptance means
  // --------------------------------------------------------------------

  lemma {:induction false} ScanUsesVerified(verifies: Verifier, t: Token, candidates: seq<Candidate>, now: real,
                                            e: bool, m: bool)
      returns (c: Candidate)
    requires Scan(verifies, t, candidates, now, e, m).Use?
    ensures c in candidates && Attempt(verifies, t, c, now) == Verified
    ensures Scan(verifies, t, candidates, now, e, m) == Use(c.deploymentId)
    decreases |candidates|
  {
    match Attempt(verifies, t, candidates[0], now)
    case Verified => c := candidates[0];
    case Expired => c := ScanUsesVerified(verifies, t, candidates[1..], now, true, m);
    case Mismatched => c := ScanUsesVerified(verifies, t, candidates[1..], now, e, true);
    case NoMatch => c := ScanUsesVerified(verifies, t, candidates[1..], now, e, m);
  }

  /**
   An accepted token is unexpired, signed under a configured key of the very
   issuer it names, bound to that issuer's deployment and to the context; no
   other issuer's candidate has that key; and its slot was free and is now taken.
   */
  lemma AcceptanceMeans(s: Service, verifies: Verifier, fingerprint: Key -> string, t: Token, context: Context,
                        issuers: Issuers, seen: Seen, ttl: real, clock: Clock) returns (c: Candidate)
    requires Verify(s, verifies, fingerprint, t, context, issuers, seen, ttl, clock).1.Accepted?
    ensures t.body.Some? && t.body.value.envelope.Some? && t.body.value.block.Some?
    ensures t.body.value.iat <= clock.decode < t.body.value.exp
    ensures c in Candidates(s, fingerprint, issuers) && verifies(t, c.key)
            && t.body.value.envelope.value.iss == c.issuer
    ensures t.kid.Some? ==> t.kid == c.kid
    ensures forall d | d in Candidates(s, fingerprint, issuers) && fingerprint(d.key) == fingerprint(c.key) ::
            d.issuer == c.issuer
    ensures var block := t.body.value.block.value;
            && block.deploymentId == c.deploymentId && Parse(block.verdict).Some?
            && block.sender == context.sender && block.receiver == context.receiver
            && t.body.value.envelope.value.sub == context.payloadHash
            && (context.sessionId.Some? ==> block.sessionId == context.sessionId)
    ensures var key := RegistryKey(s.issuerId, t.body.value.envelope.value.iss, t.body.value.envelope.value.jti);
            && key !in Live(seen, clock.register)
            && Verify(s, verifies, fingerprint, t, context, issuers, seen, ttl, clock).0
               == Live(seen, clock.register)[key := Expiry(ttl, clock.register, Some(t.body.value.exp))]
  {
    var candidates := Candidates(s, fingerprint, issuers);
    c := ScanUsesVerified(verifies, t, candidates, clock.decode, false, false);
    forall d | d in candidates && fingerprint(d.key) == fingerprint(c.key)
      ensures d.issuer == c.issuer
    {
      OneIssuerPerKey(s, fingerprint, issuers, c, d);
    }
  }

  /** A rejected token adds no entry; one rejected before the replay check changes nothing at all. */
  lemma RejectionAddsNothing(s: Service, verifies: Verifier, fingerprint: Key -> string, t: Token, context: Context,
                             issuers: Issuers, seen: Seen, ttl: real, clock: Clock)
    requires Verify(s, verifies, fingerprint, t, context, issuers, seen, ttl, clock).1.Rejected?
    ensures Verify(s, verifies, fingerprint, t, context, issuers, seen, ttl, clock).0
            == if Verify(s, verifies, fingerprint, t, context, issuers, seen, ttl, clock).1 == Rejected(Replayed)
               then Live(seen, clock.register) else seen
  {
    var candidates := Candidates(s, fingerprint, issuers);
    if candidates != [] { ScanReasons(verifies, t, candidates, clock.decode, false, false); }
  }

  lemma {:induction false} ScanReasons(verifies: Verifier, t: Token, candidates: seq<Candidate>, now: real, e: bool,
                                       m: bool)
    ensures Scan(verifies, t, candidates, now, e, m) != Refuse(Replayed)
    decreases |candidates|
  {
    if candidates != [] {
      match Attempt(verifies, t, candidates[0], now)
      case Verified =>
      case Expired => ScanReasons(verifies, t, candidates[1..], now, true, m);
      case Mismatched => ScanReasons(verifies, t, candidates[1..], now, e, true);
      case NoMatch => ScanReasons(verifies, t, candidates[1..], now, e, m);
    }
  }

  // --------------------------------------------------------------------
  // The order of keys inside an entry does not matter
  // --------------------------------------------------------------------

  /** The same issuers in the same order, each with its keys in any order. */
  ghost predicate SameUpToKeyOrder(a: Issuers, b: Issuers) {
    && |a| == |b|
    && forall i | 0 <= i < |a| ::
         a[i].0 == b[i].0 && a[i].1.deploymentId == b[i].1.deploymentId
           && multiset(a[i].1.keys) == multiset(b[i].1.keys)
  }

  /** Which of an entry's keys are used depends on what was owned before the entry alone. */
  lemma {:induction false} EntryCandidateIff(fingerprint: Key -> string, owners: Owners, id: string,
                                             deploymentId: string,
                                            keys: seq<JwkKey>, c: Candidate)
    ensures c in EntryCandidates(fingerprint, owners, id, deploymentId, keys) <==>
            exists k :: k in keys && MayUse(fingerprint, owners, id, k)
              && c == Candidate(id, k.pem.value, deploymentId, k.kid)
    decreases |keys|
  {
    if keys != [] {
      var more := Claim(fingerprint, owners, id, keys[0]);
      EntryCandidateIff(fingerprint, more, id, deploymentId, keys[1..], c);
      assert forall k :: MayUse(fingerprint, more, id, k) <==> MayUse(fingerprint, owners, id, k);
      assert forall k :: k in keys <==> k == keys[0] || k in keys[1..];
    }
  }

  lemma {:induction false} EntryOwnersAt(fingerprint: Key -> string, owners: Owners, id: string, keys: seq<JwkKey>,
                                         f: string)
    ensures f in EntryOwners(fingerprint, owners, id, keys) <==>
            f in owners || exists k :: k in keys && k.pem.Some? && fingerprint(k.pem.value) == f
    ensures f in EntryOwners(fingerprint, owners, id, keys) ==>
              EntryOwners(fingerprint, owners, id, keys)[f] == if f in owners then owners[f] else id
    decreases |keys|
  {
    if keys != [] {
      EntryOwnersAt(fingerprint, Claim(fingerprint, owners, id, keys[0]), id, keys[1..], f);
      assert forall k :: k in keys <==> k == keys[0] || k in keys[1..];
    }
  }

  lemma EntryOwnersIgnoreOrder(fingerprint: Key -> string, owners: Owners, id: string, keys: seq<JwkKey>,
                               other: seq<JwkKey>)
    requires multiset(keys) == multiset(other)
    ensures EntryOwners(fingerprint, owners, id, keys) == EntryOwners(fingerprint, owners, id, other)
  {
    SameMembers(keys, other);
    var x, y := EntryOwners(fingerprint, owners, id, keys), EntryOwners(fingerprint, owners, id, other);
    forall f
      ensures f in x <==> f in y
      ensures f in x ==> x[f] == y[f]
    {
      EntryOwnersAt(fingerprint, owners, id, keys, f);
      EntryOwnersAt(fingerprint, owners, id, other, f);
    }
  }

  lemma SameMembers<T>(a: seq<T>, b: seq<T>)
    requires multiset(a) == multiset(b)
    ensures forall x :: x in a <==> x in b
  {
    forall x ensures x in a <==> x in b {
      assert x in a <==> x in multiset(a);
      assert x in b <==> x in multiset(b);
    }
  }

  ghost predicate Occurs(verifies: Verifier, t: Token, block: seq<Candidate>, now: real, status: Status) {
    exists c :: c in block && Attempt(verifies, t, c, now) == status
  }

  lemma SameOccurrences(verifies: Verifier, t: Token, x: seq<Candidate>, y: seq<Candidate>, now: real)
    requires forall c :: c in x <==> c in y
    ensures forall status :: Occurs(verifies, t, x, now, status) <==> Occurs(verifies, t, y, now, status)
  {
    forall status
      ensures Occurs(verifies, t, x, now, status) <==> Occurs(verifies, t, y, now, status)
    {
      if c :| c in x && Attempt(verifies, t, c, now) == status { assert c in y; }
      if c :| c in y && Attempt(verifies, t, c, now) == status { assert c in x; }
    }
  }

  /** Scanning a block of one deployment: only which statuses occur in it matters. */
  lemma {:induction false} ScanBlock(verifies: Verifier, t: Token, block: seq<Candidate>, rest: seq<Candidate>,
                                     deploymentId: string,
                                    now: real, e: bool, m: bool)
    requires forall c | c in block :: c.deploymentId == deploymentId
    ensures Scan(verifies, t, block + rest, now, e, m)
            == if Occurs(verifies, t, block, now, Verified) then Use(deploymentId)
               else Scan(verifies, t, rest, now, e || Occurs(verifies, t, block, now, Expired),
                         m || Occurs(verifies, t, block, now, Mismatched))
    decreases |block|
  {
    if block == [] {
      assert block + rest == rest;
    } else {
      var c := block[0];
      assert (block + rest)[0] == c && (block + rest)[1..] == block[1..] + rest;
      assert forall d :: d in block <==> d == c || d in block[1..];
      var status := Attempt(verifies, t, c, now);
      ScanBlock(verifies, t, block[1..], rest, deploymentId, now, e || status == Expired, m || status == Mismatched);
      forall st
        ensures Occurs(verifies, t, block, now, st) <==> status == st || Occurs(verifies, t, block[1..], now, st)
      {
        if status == st { assert c in block; }
      }
    }
  }

  lemma {:induction false} ScanIgnoresKeyOrder(verifies: Verifier, fingerprint: Key -> string, t: Token,
                                               owners: Owners, a: Issuers, b: Issuers,
                                              now: real, e: bool, m: bool)
    requires SameUpToKeyOrder(a, b)
    ensures Scan(verifies, t, PeerCandidates(fingerprint, owners, a), now, e, m)
            == Scan(verifies, t, PeerCandidates(fingerprint, owners, b), now, e, m)
    ensures PeerCandidates(fingerprint, owners, a) == [] <==> PeerCandidates(fingerprint, owners, b) == []
    decreases |a|
  {
    if a != [] {
      var (id, entry) := a[0];
      var other := b[0].1;
      assert SameUpToKeyOrder(a[1..], b[1..]);
      if UsableEntry(id, entry) {
        var deploymentId := entry.deploymentId.value;
        var x, y := EntryCandidates(fingerprint, owners, id, deploymentId, entry.keys),
                    EntryCandidates(fingerprint, owners, id, deploymentId, other.keys);
        EntryBlocksAgree(fingerprint, owners, id, deploymentId, entry.keys, other.keys, x, y);
        EntryOwnersIgnoreOrder(fingerprint, owners, id, entry.keys, other.keys);
        var more := EntryOwners(fingerprint, owners, id, entry.keys);
        var restA, restB := PeerCandidates(fingerprint, more, a[1..]), PeerCandidates(fingerprint, more, b[1..]);
        ScanBlock(verifies, t, x, restA, deploymentId, now, e, m);
        ScanBlock(verifies, t, y, restB, deploymentId, now, e, m);
        SameOccurrences(verifies, t, x, y, now);
        ScanIgnoresKeyOrder(verifies, fingerprint, t, more, a[1..], b[1..], now,
                            e || Occurs(verifies, t, x, now, Expired), m || Occurs(verifies, t, x, now, Mismatched));
        assert x == [] <==> y == [] by {
          if x != [] { assert x[0] in y; }
          if y != [] { assert y[0] in x; }
        }
      } else {
        ScanIgnoresKeyOrder(verifies, fingerprint, t, owners, a[1..], b[1..], now, e, m);
      }
    }
  }

  lemma EntryBlocksAgree(fingerprint: Key -> string, owners: Owners, id: string, deploymentId: string,
                         keys: seq<JwkKey>, other: seq<JwkKey>,
                         x: seq<Candidate>, y: seq<Candidate>)
    requires multiset(keys) == multiset(other)
    requires x == EntryCandidates(fingerprint, owners, id, deploymentId, keys)
    requires y == EntryCandidates(fingerprint, owners, id, deploymentId, other)
    ensures forall c :: c in x <==> c in y
    ensures forall c | c in x || c in y :: c.deploymentId == deploymentId
  {
    SameMembers(keys, other);
    forall c
      ensures c in x <==> c in y
      ensures c in x ==> c.deploymentId == deploymentId
    {
      EntryCandidateIff(fingerprint, owners, id, deploymentId, keys, c);
      EntryCandidateIff(fingerprint, owners, id, deploymentId, other, c);
    }
  }

  /**
   The order in which an issuer lists its keys never decides anything: permuting
   the keys inside any entry, whatever their labels or duplicates, leaves the
   outcome of every verification and the registry the same.
   */
  lemma KeyOrderIsIrrelevant(s: Service, verifies: Verifier, fingerprint: Key -> string, t: Token, context: Context,
                             a: Issuers, b: Issuers, seen: Seen, ttl: real, clock: Clock)
    requires SameUpToKeyOrder(a, b)
    ensures Verify(s, verifies, fingerprint, t, context, a, seen, ttl, clock)
            == Verify(s, verifies, fingerprint, t, context, b, seen, ttl, clock)
  {
    var owners := OwnOwners(s, fingerprint);
    var own := OwnCandidates(s);
    var peersA, peersB := PeerCandidates(fingerprint, owners, a), PeerCandidates(fingerprint, owners, b);
    ScanBlock(verifies, t, own, peersA, s.deploymentId, clock.decode, false, false);
    ScanBlock(verifies, t, own, peersB, s.deploymentId, clock.decode, false, false);
    ScanIgnoresKeyOrder(verifies, fingerprint, t, owners, a, b, clock.decode,
                        Occurs(verifies, t, own, clock.decode, Expired),
                          Occurs(verifies, t, own, clock.decode, Mismatched));
  }

  // --------------------------------------------------------------------
  // Sign, then verify
  // --------------------------------------------------------------------

  ghost predicate SignaturesVerify(verifies: Verifier) {
    forall t: Token :: verifies(t, t.signer)
  }

  ghost predicate Matches(context: Context, c: Claims) {
    && context.sender == c.sender && context.receiver == c.receiver && context.payloadHash == c.payloadHash
    && (context.sessionId.Some? ==> context.sessionId == c.sessionId)
  }

  function IsAdmissible(body: Body): bool {
    body.block.Some? && Parse(body.block.value.verdict).Some?
      && Parse(body.block.value.verdict).value in ADMISSIBLE_VERDICTS
  }

  /**
   A minted token verifies at its own issuer, in the matching context and
   before it expires, exactly if its trace is not empty and not yet consumed;
   and it is admissible exactly if it was minted for VERIFIED.
   */
  lemma MintedTokenVerifies(s: Service, verifies: Verifier, fingerprint: Key -> string, c: Claims, issued: Seen,
                            issueTtl: real, t: int,
                            signNow: real, context: Context, issuers: Issuers, seen: Seen, ttl: real, clock: Clock)
    requires SignaturesVerify(verifies) && Matches(context, c)
    requires Sign(s, c, issued, issueTtl, t, signNow, true).1.Minted?
    requires t as real <= clock.decode < (t + s.validity) as real
    ensures var token := Sign(s, c, issued, issueTtl, t, signNow, true).1.token;
            && Verify(s, verifies, fingerprint, token, context, issuers, seen, ttl, clock).1
               == (if c.traceId == "" then Rejected(MissingJti)
                   else if c.traceId in Live(seen, clock.register) then Rejected(Replayed)
                   else Accepted(token.body.value))
            && (IsAdmissible(token.body.value) <==> Parse(c.verdict) == Some(VERIFIED))
  {
    var token := Sign(s, c, issued, issueTtl, t, signNow, true).1.token;
    var own := OwnCandidates(s)[0];
    assert verifies(token, token.signer);
    assert Attempt(verifies, token, own, clock.decode) == Verified;
    assert Candidates(s, fingerprint, issuers)[0] == own;
    assert Parse(WireValue(Parse(c.verdict).value)) == Parse(c.verdict);
  }

  /** Once accepted, it is refused at every later reading before its expiry, in any context it matches. */
  lemma MintedTokenVerifiesOnce(s: Service, verifies: Verifier, fingerprint: Key -> string, c: Claims, issued: Seen,
                                issueTtl: real, t: int,
                                signNow: real, context: Context, issuers: Issuers, seen: Seen, ttl: real, clock: Clock,
                                context': Context, issuers': Issuers, clock': Clock)
    requires SignaturesVerify(verifies) && Matches(context, c) && Matches(context', c) && c.traceId != ""
    requires Sign(s, c, issued, issueTtl, t, signNow, true).1.Minted?
    requires t as real <= clock.decode < (t + s.validity) as real
    requires t as real <= clock'.decode < (t + s.validity) as real
    requires c.traceId !in Live(seen, clock.register) && clock'.register < (t + s.validity) as real
    ensures var token := Sign(s, c, issued, issueTtl, t, signNow, true).1.token;
            var (after, first) := Verify(s, verifies, fingerprint, token, context, issuers, seen, ttl, clock);
            && first == Accepted(token.body.value)
            && Verify(s, verifies, fingerprint, token, context', issuers', after, ttl, clock').1 == Rejected(Replayed)
  {
    var token := Sign(s, c, issued, issueTtl, t, signNow, true).1.token;
    MintedTokenVerifies(s, verifies, fingerprint, c, issued, issueTtl, t, signNow, context, issuers, seen, ttl, clock);
    var after := Verify(s, verifies, fingerprint, token, context, issuers, seen, ttl, clock).0;
    var cand := AcceptanceMeans(s, verifies, fingerprint, token, context, issuers, seen, ttl, clock);
    assert c.traceId in Live(after, clock'.register);
    MintedTokenVerifies(s, verifies, fingerprint, c, issued, issueTtl, t, signNow, context', issuers', after, ttl,
                        clock');
  }

  // --------------------------------------------------------------------
  // Registry keys
  // --------------------------------------------------------------------

  predicate NoNul(s: string) {
    '\0' !in s
  }

  function FirstNul(s: string): nat {
    if s == "" || s[0] == '\0' then 0 else 1 + FirstNul(s[1..])
  }

  lemma {:induction false} FirstNulAfter(a: string, x: string)
    requires NoNul(a)
    ensures FirstNul(a + ['\0'] + x) == |a|
    decreases |a|
  {
    if a != "" {
      assert a[0] in a;
      assert (a + ['\0'] + x)[1..] == a[1..] + ['\0'] + x;
      FirstNulAfter(a[1..], x);
    }
  }

  lemma NulSplitsUniquely(a: string, x: string, b: string, y: string)
    requires NoNul(a) && NoNul(b) && a + ['\0'] + x == b + ['\0'] + y
    ensures a == b && x == y
  {
    FirstNulAfter(a, x);
    FirstNulAfter(b, y);
    assert a == (a + ['\0'] + x)[..|a|] && b == (b + ['\0'] + y)[..|b|];
    assert x == (a + ['\0'] + x)[|a| + 1..] && y == (b + ['\0'] + y)[|b| + 1..];
  }

  /** Exactly when two tokens share a registry key, for issuer IDs without NUL:
      they are the same pair, or one is self-issued with an identifier that
      spells out the other's issuer, a NUL and its identifier. */
  lemma RegistryKeysCollideExactly(self: string, iss: string, jti: string, iss': string, jti': string)
    requires NoNul(iss) && NoNul(iss')
    ensures RegistryKey(self, iss, jti) == RegistryKey(self, iss', jti') <==>
            || (iss == iss' && jti == jti')
            || (iss == self && iss' != self && jti == iss' + ['\0'] + jti')
            || (iss' == self && iss != self && jti' == iss + ['\0'] + jti)
  {
    if iss != self && iss' != self && RegistryKey(self, iss, jti) == RegistryKey(self, iss', jti') {
      NulSplitsUniquely(iss, jti, iss', jti');
    }
  }

  /** Registry keys are injective when issuer IDs and self-issued identifiers contain no NUL. */
  lemma RegistryKeysAreInjective(self: string, iss: string, jti: string, iss': string, jti': string)
    requires NoNul(iss) && NoNul(iss')
    requires (iss == self ==> NoNul(jti)) && (iss' == self ==> NoNul(jti'))
    requires RegistryKey(self, iss, jti) == RegistryKey(self, iss', jti')
    ensures iss == iss' && jti == jti'
  {
    RegistryKeysCollideExactly(self, iss, jti, iss', jti');
    assert (iss + ['\0'] + jti)[|iss|] == '\0' && (iss' + ['\0'] + jti')[|iss'|] == '\0';
  }

  /** Two services give a token the same registry key exactly if both or neither are its issuer. */
  lemma SharedKeysExactly(self: string, self': string, iss: string, jti: string)
    ensures RegistryKey(self, iss, jti) == RegistryKey(self', iss, jti) <==> ((iss == self) <==> (iss == self'))
  {
    assert |iss + ['\0'] + jti| > |jti|;
  }

  // --------------------------------------------------------------------
  // No replay over whole runs
  // --------------------------------------------------------------------

  /** One verification, by any service, as the shared registry's lock orders them. */
  datatype Call = Call(s: Service, t: Token, context: Context, issuers: Issuers, clock: Clock)

  function SeenBy(verifies: Verifier, fingerprint: Key -> string, ttl: real, calls: seq<Call>, n: nat): Seen
    requires n <= |calls|
  {
    if n == 0 then map[]
    else
      var c := calls[n - 1];
      Verify(c.s, verifies, fingerprint, c.t, c.context, c.issuers, SeenBy(verifies, fingerprint, ttl, calls, n - 1),
             ttl, c.clock).0
  }

  function OutcomeOf(verifies: Verifier, fingerprint: Key -> string, ttl: real, calls: seq<Call>, n: nat): Outcome
    requires n < |calls|
  {
    var c := calls[n];
    Verify(c.s, verifies, fingerprint, c.t, c.context, c.issuers, SeenBy(verifies, fingerprint, ttl, calls, n), ttl,
           c.clock).1
  }

  lemma VerifyKeepsLive(s: Service, verifies: Verifier, fingerprint: Key -> string, t: Token, context: Context,
                        issuers: Issuers, seen: Seen, ttl: real, clock: Clock, key: string)
    requires key in seen && seen[key] > clock.register
    ensures var after := Verify(s, verifies, fingerprint, t, context, issuers, seen, ttl, clock).0;
            key in after && after[key] == seen[key]
  {
    var outcome := Verify(s, verifies, fingerprint, t, context, issuers, seen, ttl, clock).1;
    if outcome.Accepted? {
      var c := AcceptanceMeans(s, verifies, fingerprint, t, context, issuers, seen, ttl, clock);
    } else {
      RejectionAddsNothing(s, verifies, fingerprint, t, context, issuers, seen, ttl, clock);
    }
  }

  lemma {:induction false} SlotLasts(verifies: Verifier, fingerprint: Key -> string, ttl: real, calls: seq<Call>,
                                     i: nat, n: nat, key: string, exp: real)
    requires i < n <= |calls|
    requires key in SeenBy(verifies, fingerprint, ttl, calls, i + 1)
             && SeenBy(verifies, fingerprint, ttl, calls, i + 1)[key] >= exp
    requires forall m | i < m < n :: calls[m].clock.register < exp
    ensures key in SeenBy(verifies, fingerprint, ttl, calls, n)
            && SeenBy(verifies, fingerprint, ttl, calls, n)[key] >= exp
    decreases n
  {
    if n > i + 1 {
      SlotLasts(verifies, fingerprint, ttl, calls, i, n - 1, key, exp);
      var c := calls[n - 1];
      VerifyKeepsLive(c.s, verifies, fingerprint, c.t, c.context, c.issuers,
                      SeenBy(verifies, fingerprint, ttl, calls, n - 1), ttl, c.clock, key);
    }
  }

  /**
   Replay safety. Over any run of verifications sharing one registry, with
   readings that do not run backwards in lock order, a second acceptance of the
   same issuer and identifier reads a time at or after the first token's
   expiry, provided both or neither of the two verifiers are that issuer.
   */
  lemma NoReplay(verifies: Verifier, fingerprint: Key -> string, ttl: real, calls: seq<Call>, i: nat, k: nat)
    requires i < k < |calls|
    requires OutcomeOf(verifies, fingerprint, ttl, calls, i).Accepted?
             && OutcomeOf(verifies, fingerprint, ttl, calls, k).Accepted?
    requires calls[i].t.body.Some? && calls[k].t.body.Some?
    requires calls[i].t.body.value.envelope.Some? && calls[k].t.body.value.envelope.Some?
    requires calls[i].t.body.value.envelope.value.iss == calls[k].t.body.value.envelope.value.iss
    requires calls[i].t.body.value.envelope.value.jti == calls[k].t.body.value.envelope.value.jti
    requires var iss := calls[i].t.body.value.envelope.value.iss;
             (iss == calls[i].s.issuerId) <==> (iss == calls[k].s.issuerId)
    requires forall m, n | 0 <= m <= n < |calls| :: calls[m].clock.register <= calls[n].clock.register
    ensures calls[k].clock.register >= calls[i].t.body.value.exp
  {
    var a, b := calls[i], calls[k];
    var exp := a.t.body.value.exp;
    var key := RegistryKey(a.s.issuerId, a.t.body.value.envelope.value.iss, a.t.body.value.envelope.value.jti);
    SharedKeysExactly(a.s.issuerId, b.s.issuerId, a.t.body.value.envelope.value.iss, a.t.body.value.envelope.value.jti);
    var ca := AcceptanceMeans(a.s, verifies, fingerprint, a.t, a.context, a.issuers,
                              SeenBy(verifies, fingerprint, ttl, calls, i), ttl, a.clock);
    var cb := AcceptanceMeans(b.s, verifies, fingerprint, b.t, b.context, b.issuers,
                              SeenBy(verifies, fingerprint, ttl, calls, k), ttl, b.clock);
    if b.clock.register < exp {
      SlotLasts(verifies, fingerprint, ttl, calls, i, k, key, exp);
    }
  }

  // --------------------------------------------------------------------
  // Why both or neither must be the issuer
  // --------------------------------------------------------------------

  /** The configuration of a peer that trusts one issuer. */
  function Trusting(s: Service, own: OwnKey): Issuers {
    [(s.issuerId, IssuerEntry(Some(s.deploymentId), [JwkKey(Some(own.key), Some(own.kid))]))]
  }

  lemma PeerCandidate(s: Service, own: OwnKey, peer: Service, fingerprint: Key -> string)
    requires peer.ownKey.None? && HasText(s.issuerId) && HasText(s.deploymentId)
    ensures Candidates(peer, fingerprint, Trusting(s, own))
            == [Candidate(s.issuerId, own.key, s.deploymentId, Some(own.kid))]
  {
    var issuers := Trusting(s, own);
    var entry := issuers[0].1;
    var c := Candidate(s.issuerId, own.key, s.deploymentId, Some(own.kid));
    assert entry.keys[1..] == [] && issuers[1..] == [] && UsableEntry(s.issuerId, entry);
    var owners := Claim(fingerprint, map[], s.issuerId, entry.keys[0]);
    assert EntryCandidates(fingerprint, owners, s.issuerId, s.deploymentId, []) == [];
    assert EntryCandidates(fingerprint, map[], s.issuerId, s.deploymentId, entry.keys) == [c];
    var after := EntryOwners(fingerprint, map[], s.issuerId, entry.keys);
    assert PeerCandidates(fingerprint, after, []) == [];
    assert PeerCandidates(fingerprint, map[], issuers) == [c];
  }

  /** A peer accepts what an issuer it trusts minted, unless its own key for the token is taken. */
  lemma PeerAccepts(s: Service, own: OwnKey, peer: Service, verifies: Verifier, fingerprint: Key -> string, c: Claims,
                    verdict: VerdictStatus, t: int, context: Context, seen: Seen, ttl: real, clock: Clock)
    requires SignaturesVerify(verifies) && Matches(context, c) && c.traceId != ""
    requires peer.ownKey.None? && HasText(s.issuerId) && HasText(s.deploymentId)
    requires t as real <= clock.decode < (t + s.validity) as real
    requires RegistryKey(peer.issuerId, s.issuerId, c.traceId) !in Live(seen, clock.register)
    ensures Verify(peer, verifies, fingerprint, Mint(s, own, c, verdict, t), context, Trusting(s, own), seen, ttl,
                   clock).1.Accepted?
  {
    var token := Mint(s, own, c, verdict, t);
    var candidate := Candidate(s.issuerId, own.key, s.deploymentId, Some(own.kid));
    PeerCandidate(s, own, peer, fingerprint);
    assert verifies(token, token.signer);
    assert Attempt(verifies, token, candidate, clock.decode) == Verified;
    assert Parse(WireValue(verdict)) == Some(verdict);
  }

  /** The issuer's verification, then a peer's, over one registry. */
  function TwoVerifiers(s: Service, own: OwnKey, peer: Service, token: Token, context: Context, first: Clock,
                        second: Clock): seq<Call> {
    [Call(s, token, context, [], first), Call(peer, token, context, Trusting(s, own), second)]
  }

  /**
   The condition of replay safety is needed. Whenever a service and a peer with
   another issuer ID that trusts it share a registry, any token the service
   minted is accepted by both, the second time at any reading before it expires.
   */
  lemma PeerReplays(s: Service, own: OwnKey, peer: Service, verifies: Verifier, fingerprint: Key -> string, c: Claims,
                    verdict: VerdictStatus, t: int, context: Context, ttl: real, first: Clock, second: Clock)
    requires SignaturesVerify(verifies) && Matches(context, c) && c.traceId != ""
    requires s.ownKey == Some(own) && peer.ownKey.None? && peer.issuerId != s.issuerId
    requires HasText(s.issuerId) && HasText(s.deploymentId)
    requires Parse(c.verdict) == Some(verdict)
    requires t as real <= first.decode < (t + s.validity) as real
             && t as real <= second.decode < (t + s.validity) as real
    requires first.register <= second.register < (t + s.validity) as real
    ensures var calls := TwoVerifiers(s, own, peer, Mint(s, own, c, verdict, t), context, first, second);
            && OutcomeOf(verifies, fingerprint, ttl, calls, 0).Accepted?
            && OutcomeOf(verifies, fingerprint, ttl, calls, 1).Accepted?
            && calls[1].clock.register < calls[0].t.body.value.exp
  {
    var token := Mint(s, own, c, verdict, t);
    var calls := TwoVerifiers(s, own, peer, token, context, first, second);
    assert Live(map[], first.register) == map[];
    OwnTokenIsAccepted(s, own, verifies, fingerprint, c, verdict, t, context, map[], ttl, first);
    var seen := SeenBy(verifies, fingerprint, ttl, calls, 1);
    assert SeenBy(verifies, fingerprint, ttl, calls, 0) == map[];
    SharedKeysExactly(s.issuerId, peer.issuerId, s.issuerId, c.traceId);
    assert seen.Keys == {c.traceId};
    PeerAccepts(s, own, peer, verifies, fingerprint, c, verdict, t, context, seen, ttl, second);
  }

  lemma OwnTokenIsAccepted(s: Service, own: OwnKey, verifies: Verifier, fingerprint: Key -> string, c: Claims,
                           verdict: VerdictStatus, t: int, context: Context, seen: Seen, ttl: real, clock: Clock)
    requires SignaturesVerify(verifies) && Matches(context, c) && c.traceId != "" && s.ownKey == Some(own)
    requires Parse(c.verdict) == Some(verdict)
    requires t as real <= clock.decode < (t + s.validity) as real && Live(seen, clock.register) == map[]
    ensures var (after, outcome) :=
            Verify(s, verifies, fingerprint, Mint(s, own, c, verdict, t), context, [], seen, ttl, clock);
            outcome.Accepted? && after.Keys == {c.traceId}
  {
    var token := Mint(s, own, c, verdict, t);
    assert Sign(s, c, map[], s.validity as real, t, 0.0, true).1 == Minted(token);
    MintedTokenVerifies(s, verifies, fingerprint, c, map[], s.validity as real, t, 0.0, context, [], seen, ttl, clock);
    var _ := AcceptanceMeans(s, verifies, fingerprint, token, context, [], seen, ttl, clock);
  }
}
