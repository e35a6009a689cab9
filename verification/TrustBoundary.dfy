/** The trust boundary: blocklists, scoped expiring grants and rate limits. */
module TrustBoundaries {
  import opened Options
  import opened TokenBuckets

  /** A scoped, expiring grant. */
  datatype TrustEntry = TrustEntry(
    allowedReceivers: Option<set<string>>,
    allowedPayloadTypes: Option<set<string>>,
    validUntil: Option<real>)
  {
    predicate IsValid(now: real) {
      validUntil.None? || now <= validUntil.value
    }
  }

  datatype Rejection =
    | SenderBlocked
    | ReceiverBlocked
    | PairBlocked
    | SenderScope
    | NotAllowlisted
    | ReceiverScope
    | RateLimited

  type Pair = (string, string)

  /** The value of a boundary. */
  datatype Boundary = Boundary(
    maxPerMinute: int,
    defaultAllow: bool,
    blockedAgents: set<string>,
    trustedAgents: map<string, TrustEntry>,
    blockedPairs: set<Pair>,
    rateLimits: map<Pair, Bucket>,
    lastEviction: Option<real>,
    lastTrustEviction: Option<real>)
  {
    function EvictExpiredTrust(now: real, mono: real): Boundary {
      if !Due(lastTrustEviction, mono) then this
      else this.(lastTrustEviction := Some(mono),
              trustedAgents := map a | a in trustedAgents && trustedAgents[a].IsValid(now) :: trustedAgents[a])
    }

    function EvictColdBuckets(now: real): Boundary {
      if !Due(lastEviction, now) then this
      else this.(lastEviction := Some(now),
              rateLimits := map p | p in rateLimits && now - rateLimits[p].lastRefill <= EVICTION_TTL :: rateLimits[p])
    }

    /** The rate limit of a pair that passed every other check. */
    function Limit(pair: Pair, now: real): (Boundary, Option<Rejection>) {
      var bucket := if pair in rateLimits then rateLimits[pair] else FreshBucket(maxPerMinute, now);
      (this.(rateLimits := rateLimits[pair := bucket.Consume(now)]),
       if bucket.Admits(now) then None else Some(RateLimited))
    }

    /** One decision; the wall clock is read once, the monotonic clock twice, all under the lock. */
    function Evaluate(senderId: string, receiverId: string, payloadType: Option<string>,
                      wall: real, mono: real, monoRate: real): (Boundary, Option<Rejection>) {
      var gate := Gate(blockedAgents, blockedPairs, Lookup(trustedAgents, senderId), Lookup(trustedAgents, receiverId),
                       defaultAllow, senderId, receiverId, payloadType, wall);
      if gate.Some? then (this, gate)
      else EvictExpiredTrust(wall, mono).EvictColdBuckets(monoRate).Limit((senderId, receiverId), monoRate)
    }

    predicate IsTrusted(agent: string, now: real) {
      agent in trustedAgents && trustedAgents[agent].IsValid(now)
    }

    function CountTrusted(now: real): nat {
      |ValidAgents(trustedAgents, now)|
    }

    function BlockAgent(agent: string): Boundary {
      this.(blockedAgents := blockedAgents + {agent}, trustedAgents := trustedAgents - {agent})
    }

    function TrustAgent(agent: string, entry: TrustEntry): Boundary {
      this.(trustedAgents := trustedAgents[agent := entry], blockedAgents := blockedAgents - {agent})
    }
  }

  const EVICTION_TTL: real := 300.0
  const EVICTION_INTERVAL: real := 60.0

  /** `peer` is the receiver for a sender's grant, and the sender for a receiver's. */
  predicate ScopeBlocks(entry: Option<TrustEntry>, peer: string, payloadType: Option<string>) {
    && entry.Some?
    && (|| (entry.value.allowedReceivers.Some? && peer !in entry.value.allowedReceivers.value)
        || (&& payloadType.Some?
            && entry.value.allowedPayloadTypes.Some?
            && payloadType.value !in entry.value.allowedPayloadTypes.value))
  }

  /** Expired means non-existent. */
  function NullifyIfExpired(entry: Option<TrustEntry>, now: real): Option<TrustEntry> {
    if entry.Some? && !entry.value.IsValid(now) then None else entry
  }

  function CheckTrust(sender: Option<TrustEntry>, receiver: Option<TrustEntry>, senderId: string, receiverId: string,
                      payloadType: Option<string>, now: real, enforceAllowlist: bool): Option<Rejection> {
    var s := NullifyIfExpired(sender, now);
    var r := NullifyIfExpired(receiver, now);
    if ScopeBlocks(s, receiverId, payloadType) then Some(SenderScope)
    else if enforceAllowlist && s.None? then Some(NotAllowlisted)
    else if ScopeBlocks(r, senderId, payloadType) then Some(ReceiverScope)
    else None
  }

  function Lookup<K, V>(m: map<K, V>, k: K): Option<V> {
    if k in m then Some(m[k]) else None
  }

  /** Every check that comes before the rate limit. */
  function Gate(blockedAgents: set<string>, blockedPairs: set<Pair>, sender: Option<TrustEntry>,
                receiver: Option<TrustEntry>, defaultAllow: bool, senderId: string, receiverId: string,
                payloadType: Option<string>, now: real): Option<Rejection> {
    if senderId in blockedAgents then Some(SenderBlocked)
    else if receiverId in blockedAgents then Some(ReceiverBlocked)
    else if (senderId, receiverId) in blockedPairs then Some(PairBlocked)
    else CheckTrust(sender, receiver, senderId, receiverId, payloadType, now, !defaultAllow)
  }

  predicate Due(last: Option<real>, now: real) {
    last.None? || now - last.value >= EVICTION_INTERVAL
  }

  function FreshBucket(maxPerMinute: int, now: real): Bucket {
    Fresh(maxPerMinute as real, maxPerMinute as real / 60.0, now)
  }

  function ValidAgents(trusted: map<string, TrustEntry>, now: real): set<string> {
    set a | a in trusted && trusted[a].IsValid(now)
  }

  lemma SameBuckets(a: map<Pair, Bucket>, b: map<Pair, Bucket>)
    requires a.Keys == b.Keys && forall p | p in a :: a[p] == b[p]
    ensures a == b
  {
  }

  /** The boundary as it is used: every method runs under one lock. */
  class TrustBoundary {
    const maxPerMinute: int
    const defaultAllow: bool
    var blockedAgents: set<string>
    var trustedAgents: map<string, TrustEntry>
    var blockedPairs: set<Pair>
    var rateLimits: map<Pair, TokenBucket>
    var lastEviction: Option<real>
    var lastTrustEviction: Option<real>

    constructor (maxPerMinute: int, defaultAllow: bool)
      ensures Valid() && rateLimits == map[]
      ensures Value() == Boundary(maxPerMinute, defaultAllow, {}, map[], {}, map[], None, None)
    {
      this.maxPerMinute, this.defaultAllow := maxPerMinute, defaultAllow;
      blockedAgents, trustedAgents, blockedPairs := {}, map[], {};
      rateLimits, lastEviction, lastTrustEviction := map[], None, None;
      new;
      assert Value().rateLimits.Keys == {};
    }

    /** No two pairs share a bucket. */
    ghost predicate Valid()
      reads this
    {
      forall p, q | p in rateLimits && q in rateLimits && p != q :: rateLimits[p] != rateLimits[q]
    }

    ghost function Value(): Boundary
      reads this, rateLimits.Values
    {
      Boundary(maxPerMinute, defaultAllow, blockedAgents, trustedAgents, blockedPairs,
               map p | p in rateLimits :: rateLimits[p].Value(), lastEviction, lastTrustEviction)
    }

    method BlockAgent(agent: string)
      modifies this`blockedAgents, this`trustedAgents
      ensures Value() == old(Value()).BlockAgent(agent)
    {
      blockedAgents := blockedAgents + {agent};
      trustedAgents := trustedAgents - {agent};
    }

    method TrustAgent(agent: string, entry: TrustEntry)
      modifies this`blockedAgents, this`trustedAgents
      ensures Value() == old(Value()).TrustAgent(agent, entry)
    {
      trustedAgents := trustedAgents[agent := entry];
      blockedAgents := blockedAgents - {agent};
    }

    method RevokeAgent(agent: string) returns (wasTrusted: bool)
      modifies this`trustedAgents
      ensures wasTrusted == (agent in old(trustedAgents))
      ensures Value() == old(Value()).(trustedAgents := old(trustedAgents) - {agent})
    {
      wasTrusted := agent in trustedAgents;
      if wasTrusted {
        trustedAgents := trustedAgents - {agent};
      }
    }

    method BlockPair(sender: string, receiver: string)
      modifies this`blockedPairs
      ensures Value() == old(Value()).(blockedPairs := old(blockedPairs) + {(sender, receiver)})
    {
      blockedPairs := blockedPairs + {(sender, receiver)};
    }

    method UnblockPair(sender: string, receiver: string)
      modifies this`blockedPairs
      ensures Value() == old(Value()).(blockedPairs := old(blockedPairs) - {(sender, receiver)})
    {
      blockedPairs := blockedPairs - {(sender, receiver)};
    }

    method DropAgents(agents: set<string>)
      modifies this`trustedAgents
      ensures trustedAgents == old(trustedAgents) - agents
    {
      var left := agents;
      while left != {}
        invariant left <= agents
        invariant trustedAgents == old(trustedAgents) - (agents - left)
        decreases left
      {
        var agent :| agent in left;
        left := left - {agent};
        trustedAgents := trustedAgents - {agent};
      }
    }

    method EvictExpiredTrust(now: real, mono: real)
      modifies this`trustedAgents, this`lastTrustEviction
      ensures Value() == old(Value()).EvictExpiredTrust(now, mono)
    {
      if Due(lastTrustEviction, mono) {
        lastTrustEviction := Some(mono);
        var expired := set a | a in trustedAgents && !trustedAgents[a].IsValid(now);
        DropAgents(expired);
        assert trustedAgents == old(Value()).EvictExpiredTrust(now, mono).trustedAgents;
      }
    }

    method DropBuckets(pairs: set<Pair>)
      modifies this`rateLimits
      ensures rateLimits == old(rateLimits) - pairs
    {
      var left := pairs;
      while left != {}
        invariant left <= pairs
        invariant rateLimits == old(rateLimits) - (pairs - left)
        decreases left
      {
        var pair :| pair in left;
        left := left - {pair};
        rateLimits := rateLimits - {pair};
      }
    }

    method EvictColdBuckets(now: real)
      requires Valid()
      modifies this`rateLimits, this`lastEviction
      ensures Valid() && rateLimits.Values <= old(rateLimits.Values)
      ensures Value() == old(Value()).EvictColdBuckets(now)
    {
      ghost var was := Value();
      if Due(lastEviction, now) {
        lastEviction := Some(now);
        var cold := set p | p in rateLimits && now - rateLimits[p].lastRefill > EVICTION_TTL;
        assert forall p | p in rateLimits :: p in cold <==> now - was.rateLimits[p].lastRefill > EVICTION_TTL;
        DropBuckets(cold);
        SameBuckets(Value().rateLimits, was.EvictColdBuckets(now).rateLimits);
      }
    }

    /** The pair's bucket, created full on first use, and one token taken from it. */
    method TakeToken(pair: Pair, now: real) returns (ok: bool)
      requires Valid()
      modifies this`rateLimits, rateLimits.Values
      ensures Valid() && fresh(rateLimits.Values - old(rateLimits.Values))
      ensures (Value(), if ok then None else Some(RateLimited)) == old(Value()).Limit(pair, now)
    {
      if pair !in rateLimits {
        var created := new TokenBucket(maxPerMinute as real, maxPerMinute as real, maxPerMinute as real / 60.0, now);
        rateLimits := rateLimits[pair := created];
      }
      var bucket := rateLimits[pair];
      ok := bucket.Consume(now);
      assert Value().rateLimits == old(Value()).Limit(pair, now).0.rateLimits;
    }

    method Evaluate(senderId: string, receiverId: string, payloadType: Option<string>, wall: real, mono: real,
                    monoRate: real)
        returns (rejection: Option<Rejection>)
      requires Valid()
      modifies this`trustedAgents, this`rateLimits, this`lastEviction, this`lastTrustEviction, rateLimits.Values
      ensures Valid() && fresh(rateLimits.Values - old(rateLimits.Values))
      ensures (Value(), rejection)
              == old(Value()).Evaluate(senderId, receiverId, payloadType, wall, mono, monoRate)
    {
      rejection := Gate(blockedAgents, blockedPairs, Lookup(trustedAgents, senderId), Lookup(trustedAgents, receiverId),
                        defaultAllow, senderId, receiverId, payloadType, wall);
      if rejection.Some? {
        return;
      }
      EvictExpiredTrust(wall, mono);
      EvictColdBuckets(monoRate);
      var ok := TakeToken((senderId, receiverId), monoRate);
      rejection := if ok then None else Some(RateLimited);
    }

    method IsTrusted(agent: string, now: real) returns (trusted: bool)
      ensures trusted == Value().IsTrusted(agent, now)
      // A grant without an end, or asked about no later than its end.
      ensures trusted <==> && agent in trustedAgents
                           && (trustedAgents[agent].validUntil.None? || now <= trustedAgents[agent].validUntil.value)
    {
      if agent !in trustedAgents {
        return false;
      }
      return trustedAgents[agent].IsValid(now);
    }

    method CountTrusted(now: real) returns (n: nat)
      ensures n == Value().CountTrusted(now)
    {
      n := 0;
      ghost var counted: set<string> := {};
      var left := trustedAgents.Keys;
      while left != {}
        invariant left <= trustedAgents.Keys && counted !! left
        invariant counted == (set a | a in trustedAgents && a !in left && trustedAgents[a].IsValid(now))
        invariant n == |counted|
        decreases left
      {
        var agent :| agent in left;
        left := left - {agent};
        if trustedAgents[agent].IsValid(now) {
          n := n + 1;
          counted := counted + {agent};
        }
      }
      assert counted == ValidAgents(trustedAgents, now);
    }
  }
}
