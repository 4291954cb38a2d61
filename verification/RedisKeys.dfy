/** What the two Redis limiters have in common: lazy key expiry and a limit on admissions. */
module RedisKeys {

  /** A key is dropped at the first access after its deadline.  Whether a key read exactly at its
      deadline is still there is left to each access (`goneAtDeadline`), so every result holds under
      either convention. */
  predicate Expired(deadline: real, clock: real, goneAtDeadline: bool) {
    clock > deadline || (clock == deadline && goneAtDeadline)
  }

  /** A configured limit; a negative one admits as little as zero. */
  function Cap(limit: int): nat {
    if limit < 0 then 0 else limit
  }

  lemma NextMultiple(n: nat, k: nat)
    ensures n * (k + 1) == n * k + n
  {
  }
}
