/** From an attestation a consumer accepts, back to the checks the gateway made. */
module Consumers {
  import opened Options
  import opened EngineRouting
  import opened Interceptor
  import opened FailClosed
  import opened JtiRegistries
  import opened Attestations
  import AttestationTheorems

  /** Only the gateway signs with its key: whatever verifies under it is the attestation of one of its calls. */
  ghost predicate Unforgeable(verifies: Verifier, key: Key, g: Gateway) {
    forall t: Token | verifies(t, key) :: exists i :: IssuedBy(g, i, t)
  }

  ghost predicate IssuedBy(g: Gateway, i: nat, t: Token) {
    i < |g.calls| && g.calls[i].reply.Verdict? && g.calls[i].reply.token == Some(t)
  }

  /** The consumer knows the gateway by its own key alone. */
  ghost predicate KnowsByKey(consumer: Service, fingerprint: Key -> string, issuers: Issuers, gateway: Service) {
    && gateway.ownKey.Some?
    && forall c | c in Candidates(consumer, fingerprint, issuers) && c.issuer == gateway.issuerId ::
         c.key == gateway.ownKey.value.key
  }

  /** The call was fully checked, and is about what the consumer asked about. */
  ghost predicate CheckedFor(s: Setup, g: Gateway, c: Interceptor.Call, context: Context) {
    && FullyChecked(s, g, c)
    && c.msg.sender == context.sender && c.msg.receiver == context.receiver
    && c.msg.hash == Some(context.payloadHash)
  }

  lemma IssuedIsChecked(s: Setup, g: Gateway, i: nat, t: Token)
    requires Reachable(s, g) && IssuedBy(g, i, t)
    ensures TokenFits(s, g.calls[i], g.calls[i].reply.status, t)
    ensures t.body.Some? && (AttestationTheorems.IsAdmissible(t.body.value) <==> FullyChecked(s, g, g.calls[i]))
  {
    AdmissibleTokenMeansChecked(s, g, i);
    ReachableInv(s, g);
    assert CallFits(s, g, g.calls[i]);
  }

  /**
   What a consumer may rely on. If a token that names the gateway as its issuer
   is accepted in some context, and is admissible, then a call of the gateway for
   that sender, receiver and payload was fully checked: size, trust boundary,
   and the finance guard itself, finished in time for that call.
   */
  lemma AcceptedMeansChecked(s: Setup, g: Gateway, consumer: Service, verifies: Verifier, fingerprint: Key -> string,
                             t: Token, body: Body, context: Context, issuers: Issuers, seen: Seen, ttl: real,
                             clock: Clock) returns (i: nat)
    requires Reachable(s, g) && KnowsByKey(consumer, fingerprint, issuers, s.service)
    requires Unforgeable(verifies, s.service.ownKey.value.key, g)
    requires Verify(consumer, verifies, fingerprint, t, context, issuers, seen, ttl, clock).1 == Accepted(body)
    requires body.envelope.Some? && body.envelope.value.iss == s.service.issuerId
    requires AttestationTheorems.IsAdmissible(body)
    ensures IssuedBy(g, i, t) && CheckedFor(s, g, g.calls[i], context)
    ensures g.calls[i].traceId == body.envelope.value.jti
  {
    var c := AttestationTheorems.AcceptanceMeans(consumer, verifies, fingerprint, t, context, issuers, seen, ttl,
                                                 clock);
    assert t.body == Some(body);
    assert c.issuer == s.service.issuerId && verifies(t, s.service.ownKey.value.key);
    i :| IssuedBy(g, i, t);
    IssuedIsChecked(s, g, i, t);
  }
}
