/** The expiring blocklist: the management API that writes it (ebpf/loader/main.go) and the packet
    filter that reads it (tc_blocker.c), with 64-bit wrap-around written out.  The API reads Unix
    seconds; the filter reads its own clock, in nanoseconds. */
module Blocklist {
  import opened Runs

  const TWO_63: int := 0x8000_0000_0000_0000
  const TWO_64: int := 0x1_0000_0000_0000_0000

  type Int64 = x: int | -TWO_63 <= x < TWO_63
  type UInt64 = x: int | 0 <= x < TWO_64

  /** A source address as the map's key. */
  type Address = nat

  function Wrap(x: int): Int64 {
    (x + TWO_63) % TWO_64 - TWO_63
  }

  function ToUInt64(x: Int64): UInt64 {
    x % TWO_64
  }

  function ToInt64(x: UInt64): Int64 {
    if x < TWO_63 then x else x - TWO_64
  }

  // ----- the management API -----------------------------------------------------------------

  /** The ip text of a request. */
  datatype Text = Empty | Unparsable | Parsed(key: Address)

  datatype BlockRequest = InvalidJson | Block(ip: Text, ttlSeconds: Int64)

  datatype Status = Ok | Created | BadRequest | NotFound | InternalError

  datatype BlockEntry = BlockEntry(ip: Address, ttlRemaining: Int64)

  datatype Listing = Entries(results: seq<BlockEntry>) | IterationError

  type BlockMap = map<Address, UInt64>

  /** The stored expiry: zero, for ever, unless the ttl is positive. */
  function ExpiryFor(now: Int64, ttlSeconds: Int64): UInt64 {
    if ttlSeconds > 0 then ToUInt64(Wrap(now + ttlSeconds)) else 0
  }

  /** The listed remaining time: -1 for ever, 0 once expired. */
  function Remaining(expiry: UInt64, now: Int64): Int64 {
    if expiry == 0 then -1
    else
      var remaining := Wrap(ToInt64(expiry) - now);
      if remaining < 0 then 0 else remaining
  }

  function EntryFor(m: BlockMap, key: Address, now: Int64): BlockEntry
    requires key in m
  {
    BlockEntry(key, Remaining(m[key], now))
  }

  class ManagementApi {
    var blockedIPs: BlockMap

    constructor ()
      ensures blockedIPs == map[]
    {
      blockedIPs := map[];
    }

    method HandleAddBlock(req: BlockRequest, now: Int64, putWorks: bool) returns (status: Status)
      modifies this
      ensures status == Created <==> req.Block? && req.ip.Parsed? && putWorks
      ensures status == InternalError <==> req.Block? && req.ip.Parsed? && !putWorks
      ensures status == Created || status == InternalError || status == BadRequest
      ensures blockedIPs == if status == Created then old(blockedIPs)[req.ip.key := ExpiryFor(now, req.ttlSeconds)]
                            else old(blockedIPs)
    {
      if req.InvalidJson? || req.ip.Empty? || req.ip.Unparsable? {
        return BadRequest;
      }
      var expiry: UInt64 := 0;
      if req.ttlSeconds > 0 {
        expiry := ToUInt64(Wrap(now + req.ttlSeconds));
      }
      if !putWorks {
        return InternalError;
      }
      blockedIPs := blockedIPs[req.ip.key := expiry];
      return Created;
    }

    method HandleRemoveBlock(ip: Text, deleteWorks: bool) returns (status: Status)
      modifies this
      ensures status == BadRequest <==> !ip.Parsed?
      ensures status == Ok <==> ip.Parsed? && deleteWorks && ip.key in old(blockedIPs)
      ensures status == Ok || status == BadRequest || status == NotFound
      ensures blockedIPs == if status == Ok then old(blockedIPs) - {ip.key} else old(blockedIPs)
    {
      if !ip.Parsed? {
        return BadRequest;
      }
      if !deleteWorks || ip.key !in blockedIPs {
        return NotFound;
      }
      blockedIPs := blockedIPs - {ip.key};
      return Ok;
    }

    /** One entry per key, in whatever order the map iterates. */
    method HandleListBlocks(now: Int64, iterationWorks: bool) returns (listing: Listing)
      ensures listing.IterationError? <==> !iterationWorks
      ensures listing.Entries? ==>
                && |listing.results| == |blockedIPs|
                && (forall key :: key in blockedIPs ==> EntryFor(blockedIPs, key, now) in listing.results)
                && (forall e :: e in listing.results ==> e.ip in blockedIPs && e == EntryFor(blockedIPs, e.ip, now))
    {
      var results: seq<BlockEntry> := [];
      var left := blockedIPs.Keys;
      while left != {}
        invariant left <= blockedIPs.Keys
        invariant |results| + |left| == |blockedIPs.Keys|
        invariant forall key :: key in blockedIPs && key !in left ==> EntryFor(blockedIPs, key, now) in results
        invariant forall e :: e in results ==> e.ip in blockedIPs && e == EntryFor(blockedIPs, e.ip, now)
        decreases |left|
      {
        var key :| key in left;
        left := left - {key};
        var expiry := blockedIPs[key];
        var entry;
        if expiry == 0 {
          entry := BlockEntry(key, -1);
        } else {
          var remaining := Wrap(ToInt64(expiry) - now);
          if remaining < 0 {
            remaining := 0;
          }
          entry := BlockEntry(key, remaining);
        }
        results := results + [entry];
      }
      return if iterationWorks then Entries(results) else IterationError;
    }
  }

  // ----- the packet filter ------------------------------------------------------------------

  datatype Packet = Packet(hasEthernetHeader: bool, isIPv4: bool, hasIpHeader: bool, source: Address)

  datatype Verdict = Pass | Drop

  function Filter(m: BlockMap, p: Packet, clockNanos: UInt64): Verdict {
    if !p.hasEthernetHeader then Pass
    else if !p.isIPv4 then Pass
    else if !p.hasIpHeader then Pass
    else if p.source !in m then Pass
    else if m[p.source] != 0 && clockNanos / 1_000_000_000 >= m[p.source] then Pass
    else Drop
  }

  predicate Readable(p: Packet) {
    p.hasEthernetHeader && p.isIPv4 && p.hasIpHeader
  }

  // ----- runs ---------------------------------------------------------------------------------

  /** What happens to the map: accepted API calls, and evictions by the kernel at any time; and the
      API reading its clock, as a listing does, which changes nothing. */
  datatype Event =
    | Added(key: Address, ttlSeconds: Int64, now: Int64)
    | Removed(key: Address)
    | Evicted(key: Address)
    | Tick(now: Int64)

  function MapAfter(run: Run<Event>): BlockMap {
    match run
    case Start => map[]
    case Then(before, e) =>
      match e
      case Added(key, ttlSeconds, now) => MapAfter(before)[key := ExpiryFor(now, ttlSeconds)]
      case Removed(key) => MapAfter(before) - {key}
      case Evicted(key) => MapAfter(before) - {key}
      case Tick(_) => MapAfter(before)
  }

  datatype Latest = Never | Last(event: Event)

  /** The most recent event on one address. */
  function LatestOn(run: Run<Event>, key: Address): Latest {
    match run
    case Start => Never
    case Then(before, e) => if !e.Tick? && e.key == key then Last(e) else LatestOn(before, key)
  }

  predicate ReadsClock(e: Event) { e.Added? || e.Tick? }

  /** What the API's clock said last; before any reading, the epoch. */
  function ApiNow(run: Run<Event>): Int64 {
    match run
    case Start => 0
    case Then(before, e) => if ReadsClock(e) then e.now else ApiNow(before)
  }

  /** The API adds at clocks past the epoch, in whatever order its clock shows them. */
  ghost predicate PastEpoch(run: Run<Event>) {
    run.Then? ==> PastEpoch(run.before) && (run.last.Added? ==> 0 <= run.last.now)
  }

  /** The API's clock is past the epoch, never goes back, and has reached `last`. */
  ghost predicate ApiClock(run: Run<Event>, last: Int64) {
    match run
    case Start => 0 <= last
    case Then(before, e) =>
      if ReadsClock(e) then e.now <= last && ApiClock(before, e.now) else ApiClock(before, last)
  }

  /** The unsigned expiry is the true sum even when the signed addition overflows. */
  lemma ExpiryIsExact(now: Int64, ttlSeconds: Int64)
    requires 0 <= now && ttlSeconds > 0
    ensures ExpiryFor(now, ttlSeconds) == now + ttlSeconds
  {
    var sum := now + ttlSeconds;
    if sum < TWO_63 {
      assert (sum + TWO_63) % TWO_64 == sum + TWO_63;
    } else {
      assert (sum + TWO_63) % TWO_64 == sum - TWO_63;
      assert (sum - TWO_64) % TWO_64 == sum;
    }
  }

  /** A block is in force at second t: added for ever, or for longer than until t. */
  predicate InForce(latest: Latest, t: int) {
    && latest.Last? && latest.event.Added?
    && (latest.event.ttlSeconds <= 0 || t < latest.event.now + latest.event.ttlSeconds)
  }

  lemma {:induction false} StoredIffLatestAdded(run: Run<Event>, key: Address)
    requires PastEpoch(run)
    ensures var latest := LatestOn(run, key);
            && (key in MapAfter(run) <==> latest.Last? && latest.event.Added?)
            && (key in MapAfter(run) ==>
                  && MapAfter(run)[key] == ExpiryFor(latest.event.now, latest.event.ttlSeconds)
                  && 0 <= latest.event.now)
  {
    if run.Then? {
      StoredIffLatestAdded(run.before, key);
    }
  }

  /** Over any run of adds, removals and evictions, and even if the API's clock steps back, a readable
      packet is dropped exactly when the latest event on its source is an add that is for ever or not
      past its ttl on the filter's clock. */
  lemma {:induction false} DroppedIffInForce(run: Run<Event>, p: Packet, clockNanos: UInt64)
    requires PastEpoch(run)
    ensures Filter(MapAfter(run), p, clockNanos) == Drop
            <==> && p.hasEthernetHeader && p.isIPv4 && p.hasIpHeader
                 && InForce(LatestOn(run, p.source), clockNanos / 1_000_000_000)
  {
    StoredIffLatestAdded(run, p.source);
    var latest := LatestOn(run, p.source);
    if p.source in MapAfter(run) && latest.event.ttlSeconds > 0 {
      ExpiryIsExact(latest.event.now, latest.event.ttlSeconds);
    }
  }

  /** While the filter's clock is not ahead of what the API's clock has reached, a block that is
      neither removed, evicted nor replaced is not lifted before the API's own clock reaches the end
      of its ttl, even if now + ttl overflows. */
  lemma {:induction false} NeverLiftedEarly(run: Run<Event>, p: Packet, clockNanos: UInt64)
    requires PastEpoch(run) && Readable(p)
    requires clockNanos / 1_000_000_000 <= ApiNow(run)
    ensures InForce(LatestOn(run, p.source), ApiNow(run)) ==> Filter(MapAfter(run), p, clockNanos) == Drop
  {
    DroppedIffInForce(run, p, clockNanos);
  }

  /** For an arbitrary stored value, the listing agrees with the filter at the same second exactly
      when the value is less than 2^63 seconds ahead. */
  lemma ListingAgreesIff(expiry: UInt64, now: Int64)
    requires 0 <= now && expiry != 0
    ensures (Remaining(expiry, now) != 0 <==> now < expiry) <==> expiry < TWO_63 + now
    ensures expiry < TWO_63 + now ==> Remaining(expiry, now) == if now < expiry then expiry - now else 0
  {
    var difference := ToInt64(expiry) - now;
    if expiry < TWO_63 {
      assert (difference + TWO_63) % TWO_64 == difference + TWO_63;
    } else if expiry < TWO_63 + now {
      assert (difference + TWO_63) % TWO_64 == difference + TWO_63 + TWO_64;
    } else {
      assert (difference + TWO_63) % TWO_64 == difference + TWO_63;
    }
  }

  lemma {:induction false} AddsAreReached(run: Run<Event>, last: Int64, key: Address)
    requires ApiClock(run, last)
    ensures 0 <= last && PastEpoch(run)
    ensures var latest := LatestOn(run, key); latest.Last? && latest.event.Added? ==> latest.event.now <= last
  {
    if run.Then? {
      AddsAreReached(run.before, if ReadsClock(run.last) then run.last.now else last, key);
    }
  }

  /** For every reachable map and equal clocks, an entry is listed with the true remaining time, and
      with a nonzero one exactly when the filter drops that source: when now + ttl overflows, the
      listing's own subtraction overflows back. */
  lemma {:induction false} ListingAgreesWithFilter(run: Run<Event>, now: Int64, p: Packet, clockNanos: UInt64)
    requires ApiClock(run, now)
    requires Readable(p) && p.source in MapAfter(run)
    requires clockNanos / 1_000_000_000 == now
    ensures var m, latest := MapAfter(run), LatestOn(run, p.source);
            && latest.Last? && latest.event.Added?
            && (Remaining(m[p.source], now) != 0 <==> Filter(m, p, clockNanos) == Drop)
            && Remaining(m[p.source], now)
               == if latest.event.ttlSeconds <= 0 then -1
                  else if now < latest.event.now + latest.event.ttlSeconds
                  then latest.event.now + latest.event.ttlSeconds - now else 0
  {
    AddsAreReached(run, now, p.source);
    StoredIffLatestAdded(run, p.source);
    var latest := LatestOn(run, p.source);
    if latest.event.ttlSeconds > 0 {
      ExpiryIsExact(latest.event.now, latest.event.ttlSeconds);
      ListingAgreesIff(MapAfter(run)[p.source], now);
    }
  }
}
