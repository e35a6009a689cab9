/** The replay registry: which token identifiers are currently taken. */
module JtiRegistries {
  import opened Options

  type Seen = map<string, real>

  /** A slot is kept until the later of the retention window and the token's own expiry. */
  function Expiry(ttl: real, now: real, validUntil: Option<real>): real {
    if validUntil.Some? && validUntil.value > now + ttl then validUntil.value else now + ttl
  }

  /** The entries still live at `now`. */
  function Live(seen: Seen, now: real): Seen {
    map j | j in seen && seen[j] > now :: seen[j]
  }

  /** Register `jti` unless a live slot already holds it. */
  function Registered(seen: Seen, ttl: real, jti: string, now: real, validUntil: Option<real>): (Seen, bool) {
    var live := Live(seen, now);
    if jti in live then (live, false) else (live[jti := Expiry(ttl, now, validUntil)], true)
  }

  class JtiRegistry {
    var seen: Seen
    const ttl: real

    constructor (ttl: real)
      ensures seen == map[] && this.ttl == ttl
    {
      seen := map[];
      this.ttl := ttl;
    }

    /** Drop every expired entry, wherever it sits. */
    method Evict(now: real)
      modifies this
      ensures seen == Live(old(seen), now)
    {
      var expired := set j | j in seen && seen[j] <= now;
      while expired != {}
        invariant expired <= seen.Keys
        invariant forall j :: j in seen ==> j in old(seen) && seen[j] == old(seen)[j]
        invariant forall j :: j in old(seen) ==> (j in seen <==> old(seen)[j] > now || j in expired)
        invariant forall j :: j in expired ==> seen[j] <= now
        decreases expired
      {
        var jti :| jti in expired;
        expired := expired - {jti};
        seen := seen - {jti};
      }
    }

    method CheckAndRegister(jti: string, now: real, validUntil: Option<real>) returns (accepted: bool)
      modifies this
      ensures (seen, accepted) == Registered(old(seen), ttl, jti, now, validUntil)
    {
      Evict(now);
      if jti in seen {
        return false;
      }
      var expiry := now + ttl;
      if validUntil.Some? && validUntil.value > expiry {
        expiry := validUntil.value;
      }
      seen := seen[jti := expiry];
      return true;
    }

    method Release(jti: string)
      modifies this
      ensures seen == old(seen) - {jti}
    {
      if jti in seen {
        seen := seen - {jti};
      }
    }
  }

  // --------------------------------------------------------------------
  // Whole runs, in the order in which calls hold the lock
  // --------------------------------------------------------------------

  /** `now` is whatever the caller read before taking the lock. */
  datatype Event = Check(jti: string, now: real, validUntil: Option<real>) | Release(jti: string)

  function SeenAfter(ttl: real, log: seq<Event>, n: nat): Seen
    requires n <= |log|
  {
    if n == 0 then map[]
    else
      var before := SeenAfter(ttl, log, n - 1);
      match log[n - 1]
      case Check(j, now, until) => Registered(before, ttl, j, now, until).0
      case Release(j) => before - {j}
  }

  /** Call `k` was answered with true. */
  predicate Accepted(ttl: real, log: seq<Event>, k: nat)
    requires k < |log|
  {
    log[k].Check? && Registered(SeenAfter(ttl, log, k), ttl, log[k].jti, log[k].now, log[k].validUntil).1
  }

  function ExpiryAt(ttl: real, log: seq<Event>, i: nat): real
    requires i < |log| && log[i].Check?
  {
    Expiry(ttl, log[i].now, log[i].validUntil)
  }

  /** Neither a release of `jti` nor a call at or after `expiry` among the events from `i` to `n - 1`. */
  ghost predicate Undisturbed(log: seq<Event>, jti: string, expiry: real, i: nat, n: nat)
    requires n <= |log|
  {
    forall m | i <= m < n ::
      match log[m]
      case Check(_, now, _) => now < expiry
      case Release(j) => j != jti
  }

  /** Before call `n`, the slot of `jti` is the one taken by call `i`. */
  ghost predicate HeldSince(ttl: real, log: seq<Event>, jti: string, i: nat, n: nat)
    requires n <= |log|
  {
    && i < n && Accepted(ttl, log, i) && log[i].jti == jti
    && Undisturbed(log, jti, ExpiryAt(ttl, log, i), i + 1, n)
  }

  lemma {:induction false} StoredIsHeld(ttl: real, log: seq<Event>, jti: string, n: nat) returns (i: nat)
    requires n <= |log| && jti in SeenAfter(ttl, log, n)
    ensures HeldSince(ttl, log, jti, i, n) && SeenAfter(ttl, log, n)[jti] == ExpiryAt(ttl, log, i)
  {
    var event := log[n - 1];
    if Accepted(ttl, log, n - 1) && event.jti == jti {
      i := n - 1;
    } else {
      i := StoredIsHeld(ttl, log, jti, n - 1);
    }
  }

  lemma {:induction false} HeldIsStored(ttl: real, log: seq<Event>, jti: string, i: nat, n: nat)
    requires n <= |log| && HeldSince(ttl, log, jti, i, n)
    ensures jti in SeenAfter(ttl, log, n) && SeenAfter(ttl, log, n)[jti] == ExpiryAt(ttl, log, i)
    decreases n
  {
    if i < n - 1 { HeldIsStored(ttl, log, jti, i, n - 1); }
  }

  /**
   The registry against a log that forgets nothing: a call is refused exactly
   if an earlier call for the same identifier was accepted, and since then, up
   to and including this call, nothing released the identifier and no call
   read a time at or after that slot's expiry.
   */
  lemma RegistryRefinesLog(ttl: real, log: seq<Event>, k: nat)
    requires k < |log| && log[k].Check?
    ensures !Accepted(ttl, log, k) <==>
            exists i: nat :: HeldSince(ttl, log, log[k].jti, i, k) && log[k].now < ExpiryAt(ttl, log, i)
  {
    var jti := log[k].jti;
    if !Accepted(ttl, log, k) {
      var i := StoredIsHeld(ttl, log, jti, k);
    }
    if i: nat :| HeldSince(ttl, log, jti, i, k) && log[k].now < ExpiryAt(ttl, log, i) {
      HeldIsStored(ttl, log, jti, i, k);
    }
  }

  /** After a call every entry it did not make itself is live at the time it read, wherever it sits. */
  lemma OnlyLiveEntriesRemain(ttl: real, log: seq<Event>, k: nat, jti: string)
    requires k < |log| && log[k].Check? && jti in SeenAfter(ttl, log, k + 1)
    ensures SeenAfter(ttl, log, k + 1)[jti] > log[k].now || (ttl <= 0.0 && jti == log[k].jti && Accepted(ttl, log, k))
  {
  }

  /**
   At most once: with readings that do not run backwards in lock order and no
   release, a second acceptance of an identifier reads a time at or after the
   first token's own expiry.
   */
  lemma AcceptedAtMostOnce(ttl: real, log: seq<Event>, i: nat, k: nat)
    requires i < k < |log| && Accepted(ttl, log, i) && Accepted(ttl, log, k) && log[i].jti == log[k].jti
    requires forall m | 0 <= m < |log| :: log[m].Check?
    requires forall m, n | 0 <= m <= n < |log| :: log[m].now <= log[n].now
    ensures log[k].now >= ExpiryAt(ttl, log, i)
    ensures log[i].validUntil.Some? ==> log[k].now >= log[i].validUntil.value
  {
    if log[k].now < ExpiryAt(ttl, log, i) {
      assert HeldSince(ttl, log, log[k].jti, i, k);
      RegistryRefinesLog(ttl, log, k);
    }
  }

  // --------------------------------------------------------------------
  // How long an identifier is held
  // --------------------------------------------------------------------

  /**
   In plain times: a call accepted at `now` holds its identifier at every reading
   before `now + ttl`, and before the token's own expiry if that is later, and at
   no reading after; so a call in lock order is refused exactly before the later
   of the two, unless the identifier is released.
   */
  lemma HeldExactlyUntil(ttl: real, seen: Seen, jti: string, now: real, validUntil: Option<real>, next: real,
                         until: Option<real>)
    requires Registered(seen, ttl, jti, now, validUntil).1
    ensures var after := Registered(seen, ttl, jti, now, validUntil).0;
            !Registered(after, ttl, jti, next, until).1 <==>
            next < now + ttl || (validUntil.Some? && next < validUntil.value)
  {
  }
}
