/** Who may talk to whom: the trust decision in the grants' own fields. */
module TrustGates {
  import opened Options
  import opened TrustBoundaries
  import opened TrustHistory

  /** There is a grant, and it has not run out. */
  predicate Holds(grant: Option<TrustEntry>, wall: real) {
    grant.Some? && (grant.value.validUntil.Some? ==> wall <= grant.value.validUntil.value)
  }

  /** The grant's sets contain the peer and the type, where it has such sets and a type is given. */
  predicate Permits(grant: TrustEntry, peer: string, payloadType: Option<string>) {
    && (grant.allowedReceivers.Some? ==> peer in grant.allowedReceivers.value)
    && (grant.allowedPayloadTypes.Some? && payloadType.Some? ==> payloadType.value in grant.allowedPayloadTypes.value)
  }

  /** Neither agent nor the pair is blocked; the sender has a grant, or everyone is allowed; and each
      grant there is permits the peer and the type. */
  predicate IsOpen(senderBlocked: bool, receiverBlocked: bool, pairBlocked: bool, sender: Option<TrustEntry>,
                   receiver: Option<TrustEntry>, defaultAllow: bool, senderId: string, receiverId: string,
                   payloadType: Option<string>, wall: real) {
    && !senderBlocked && !receiverBlocked && !pairBlocked
    && (defaultAllow || Holds(sender, wall))
    && (Holds(sender, wall) ==> Permits(sender.value, receiverId, payloadType))
    && (Holds(receiver, wall) ==> Permits(receiver.value, senderId, payloadType))
  }

  lemma CheckTrustExactly(sender: Option<TrustEntry>, receiver: Option<TrustEntry>, senderId: string,
                          receiverId: string, payloadType: Option<string>, wall: real, enforceAllowlist: bool)
    ensures CheckTrust(sender, receiver, senderId, receiverId, payloadType, wall, enforceAllowlist).None? <==>
            IsOpen(false, false, false, sender, receiver, !enforceAllowlist, senderId, receiverId, payloadType, wall)
  {
  }

  /** The gate of a boundary is open exactly if its own fields say so. */
  predicate BoundaryIsOpen(b: Boundary, senderId: string, receiverId: string, payloadType: Option<string>, wall: real) {
    IsOpen(senderId in b.blockedAgents, receiverId in b.blockedAgents, (senderId, receiverId) in b.blockedPairs,
           if senderId in b.trustedAgents then Some(b.trustedAgents[senderId]) else None,
           if receiverId in b.trustedAgents then Some(b.trustedAgents[receiverId]) else None,
           b.defaultAllow, senderId, receiverId, payloadType, wall)
  }

  lemma GateOpensExactly(b: Boundary, senderId: string, receiverId: string, payloadType: Option<string>, wall: real)
    ensures Gate(b.blockedAgents, b.blockedPairs, Lookup(b.trustedAgents, senderId),
                 Lookup(b.trustedAgents, receiverId),
                 b.defaultAllow, senderId, receiverId, payloadType, wall).None?
            <==> BoundaryIsOpen(b, senderId, receiverId, payloadType, wall)
  {
    CheckTrustExactly(Lookup(b.trustedAgents, senderId), Lookup(b.trustedAgents, receiverId), senderId, receiverId,
                      payloadType, wall, !b.defaultAllow);
  }

  /**
   Every evaluation, on any boundary: it passes if and only if the gate is open by
   the grants' fields and the pair's bucket holds a token; and a closed gate leaves
   the boundary as it is.
   */
  lemma EvaluatePassesExactly(b: Boundary, senderId: string, receiverId: string, payloadType: Option<string>,
                              wall: real, mono: real, monoRate: real)
    ensures var (after, rejection) := b.Evaluate(senderId, receiverId, payloadType, wall, mono, monoRate);
            var kept := b.EvictColdBuckets(monoRate).rateLimits;
            var bucket := if (senderId, receiverId) in kept then kept[(senderId, receiverId)]
                          else FreshBucket(b.maxPerMinute, monoRate);
            && (rejection.None? <==>
                  BoundaryIsOpen(b, senderId, receiverId, payloadType, wall) && bucket.Admits(monoRate))
            && (!BoundaryIsOpen(b, senderId, receiverId, payloadType, wall)
                ==> after == b && rejection != Some(RateLimited))
  {
    GateOpensExactly(b, senderId, receiverId, payloadType, wall);
    EvictionKeepsBuckets(b, wall, mono);
  }

  /** What eviction drops, exactly: at most once in 60 seconds, buckets idle for more than 300. */
  lemma ColdBucketsExactly(b: Boundary, now: real, pair: Pair)
    ensures var kept := b.EvictColdBuckets(now).rateLimits;
            && (pair in kept <==>
                  && pair in b.rateLimits
                  && (|| (b.lastEviction.Some? && now - b.lastEviction.value < 60.0)
                      || now - b.rateLimits[pair].lastRefill <= 300.0))
            && (pair in kept ==> kept[pair] == b.rateLimits[pair])
  {
  }

  /** And, as often by its own clock, grants whose end has passed. */
  lemma ExpiredGrantsExactly(b: Boundary, now: real, mono: real, agent: string)
    ensures var kept := b.EvictExpiredTrust(now, mono).trustedAgents;
            && (agent in kept <==>
                  && agent in b.trustedAgents
                  && (|| (b.lastTrustEviction.Some? && mono - b.lastTrustEviction.value < 60.0)
                      || Holds(Some(b.trustedAgents[agent]), now)))
            && (agent in kept ==> kept[agent] == b.trustedAgents[agent])
  {
  }

  /** A payload type outside the sender's grant is refused; so is a receiver, and likewise for the receiver's grant. */
  lemma OutOfScopeIsRefused(b: Boundary, senderId: string, receiverId: string, payloadType: string, grant: TrustEntry,
                            wall: real, mono: real, monoRate: real)
    requires grant.validUntil.None? || wall <= grant.validUntil.value
    requires || (&& senderId in b.trustedAgents && b.trustedAgents[senderId] == grant
                 && (|| (grant.allowedPayloadTypes.Some? && payloadType !in grant.allowedPayloadTypes.value)
                     || (grant.allowedReceivers.Some? && receiverId !in grant.allowedReceivers.value)))
             || (&& receiverId in b.trustedAgents && b.trustedAgents[receiverId] == grant
                 && (|| (grant.allowedPayloadTypes.Some? && payloadType !in grant.allowedPayloadTypes.value)
                     || (grant.allowedReceivers.Some? && senderId !in grant.allowedReceivers.value)))
    ensures b.Evaluate(senderId, receiverId, Some(payloadType), wall, mono, monoRate).1.Some?
    ensures b.Evaluate(senderId, receiverId, Some(payloadType), wall, mono, monoRate).0 == b
  {
    EvaluatePassesExactly(b, senderId, receiverId, Some(payloadType), wall, mono, monoRate);
  }

  /** An untrusted sender learns nothing of the receiver's grant: whatever it is, the answer is the same. */
  lemma ReceiverGrantIsHidden(blockedAgents: set<string>, blockedPairs: set<Pair>, sender: Option<TrustEntry>,
                              receiver: Option<TrustEntry>, other: Option<TrustEntry>, senderId: string,
                              receiverId: string, payloadType: Option<string>, wall: real)
    requires !Holds(sender, wall)
    ensures Gate(blockedAgents, blockedPairs, sender, receiver, false, senderId, receiverId, payloadType, wall)
            == Gate(blockedAgents, blockedPairs, sender, other, false, senderId, receiverId, payloadType, wall)
  {
  }

  // --------------------------------------------------------------------
  // By the log alone
  // --------------------------------------------------------------------

  /** The last block or grant for the agent is a block. */
  ghost predicate LastBlocked(log: seq<Op>, agent: string) {
    exists i: nat :: i < |log| && log[i] == Block(agent) && NotTrustedFrom(log, agent, i + 1)
  }

  /** The last block, grant or revocation for the agent is this grant, and it has not run out. */
  ghost predicate LastGranted(log: seq<Op>, agent: string, grant: TrustEntry, wall: real) {
    && (exists i: nat :: i < |log| && log[i] == Trust(agent, grant) && UntouchedFrom(log, agent, i + 1))
    && (grant.validUntil.Some? ==> wall <= grant.validUntil.value)
  }

  /** No operation from `i` on unblocks the pair. */
  ghost predicate NotUnblockedFrom(log: seq<Op>, pair: Pair, i: nat) {
    forall j | i <= j < |log| :: log[j] != UnblockPair(pair)
  }

  ghost predicate LastPairBlocked(log: seq<Op>, pair: Pair) {
    exists i: nat :: i < |log| && log[i] == TrustHistory.BlockPair(pair) && NotUnblockedFrom(log, pair, i + 1)
  }

  lemma NotUnblockedSnoc(log: seq<Op>, pair: Pair, i: nat)
    requires i < |log|
    ensures NotUnblockedFrom(log, pair, i) <==> NotUnblockedFrom(Init(log), pair, i) && Last(log) != UnblockPair(pair)
  {
    assert forall j | 0 <= j < |Init(log)| :: Init(log)[j] == log[j];
  }

  /** A pair is blocked exactly if the last block or unblock of it is a block. */
  lemma {:induction false} PairBlockedMeansLastBlocked(log: seq<Op>, pair: Pair)
    ensures IsPairBlocked(log, pair) <==> LastPairBlocked(log, pair)
    decreases |log|
  {
    if log != [] {
      var init, n := Init(log), |log| - 1;
      PairBlockedMeansLastBlocked(init, pair);
      if IsPairBlocked(log, pair) {
        if log[n] == TrustHistory.BlockPair(pair) {
          assert NotUnblockedFrom(log, pair, n + 1);
        } else {
          var i: nat :| i < n && init[i] == TrustHistory.BlockPair(pair) && NotUnblockedFrom(init, pair, i + 1);
          NotUnblockedSnoc(log, pair, i + 1);
          assert log[i] == TrustHistory.BlockPair(pair);
        }
      }
      if i: nat :| i < n && log[i] == TrustHistory.BlockPair(pair) && NotUnblockedFrom(log, pair, i + 1) {
        NotUnblockedSnoc(log, pair, i + 1);
        assert init[i] == TrustHistory.BlockPair(pair);
      }
    }
  }

  /** The decision by the log, in the grants' own fields. */
  ghost predicate OpenByLog(c: Config, log: seq<Op>, senderId: string, receiverId: string, payloadType: Option<string>,
                            wall: real) {
    && !LastBlocked(log, senderId) && !LastBlocked(log, receiverId) && !LastPairBlocked(log, (senderId, receiverId))
    && (c.defaultAllow || exists grant :: LastGranted(log, senderId, grant, wall))
    && (forall grant | LastGranted(log, senderId, grant, wall) :: Permits(grant, receiverId, payloadType))
    && (forall grant | LastGranted(log, receiverId, grant, wall) :: Permits(grant, senderId, payloadType))
  }

  lemma HoldsByLog(log: seq<Op>, agent: string, grant: TrustEntry, wall: real)
    ensures LastGranted(log, agent, grant, wall) <==> GrantOf(log, agent) == Some(grant) && Holds(Some(grant), wall)
  {
    GrantedMeansLastGranted(log, agent, grant);
  }

  lemma GrantsByLog(log: seq<Op>, agent: string, wall: real, peer: string, payloadType: Option<string>)
    ensures Holds(GrantOf(log, agent), wall) <==> exists grant :: LastGranted(log, agent, grant, wall)
    ensures (Holds(GrantOf(log, agent), wall) ==> Permits(GrantOf(log, agent).value, peer, payloadType))
            <==> forall grant | LastGranted(log, agent, grant, wall) :: Permits(grant, peer, payloadType)
  {
    forall grant
      ensures LastGranted(log, agent, grant, wall) <==> GrantOf(log, agent) == Some(grant) && Holds(Some(grant), wall)
    {
      HoldsByLog(log, agent, grant, wall);
    }
    if Holds(GrantOf(log, agent), wall) {
      assert GrantOf(log, agent) == Some(GrantOf(log, agent).value);
      assert LastGranted(log, agent, GrantOf(log, agent).value, wall);
    }
  }

  /**
   The gate by the log: it is open if and only if neither agent's, nor the pair's,
   last block stands; the sender's last grant stands, or everyone is allowed; and
   each standing grant's own sets contain the peer and the payload type.
   */
  lemma LogGateExactly(c: Config, log: seq<Op>, senderId: string, receiverId: string, payloadType: Option<string>,
                       wall: real)
    ensures LogGate(c, log, senderId, receiverId, payloadType, wall).None?
            <==> OpenByLog(c, log, senderId, receiverId, payloadType, wall)
  {
    BlockedMeansLastBlocked(log, senderId);
    BlockedMeansLastBlocked(log, receiverId);
    PairBlockedMeansLastBlocked(log, (senderId, receiverId));
    GrantsByLog(log, senderId, wall, receiverId, payloadType);
    GrantsByLog(log, receiverId, wall, senderId, payloadType);
    CheckTrustExactly(GrantOf(log, senderId), GrantOf(log, receiverId), senderId, receiverId, payloadType, wall,
                      !c.defaultAllow);
  }
}
