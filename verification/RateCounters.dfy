/** The per-address request counters of counter.lua: three expiring cells per address in a shared
    dictionary, whose time to live is set when a cell is created and never refreshed.  A cell is
    gone from the instant of its expiry on. */
module RateCounters {
  import opened Runs

  datatype Window = Window(suffix: string, ttl: int)

  const WINDOWS: seq<Window> := [Window("1s", 1), Window("10s", 10), Window("60s", 60)]

  datatype Cell = Cell(count: int, expiry: real)

  type Dict = map<string, Cell>

  datatype Value = Nil | Number(n: int)

  function KeyFor(ip: string, w: Window): string {
    "ip:" + ip + ":" + w.suffix
  }

  function Read(d: Dict, key: string, now: real): int {
    if key in d && now < d[key].expiry then d[key].count else 0
  }

  /** incr by one with an initial value of zero. */
  function Bumped(d: Dict, key: string, ttl: int, now: real): Dict {
    if key in d && now < d[key].expiry then d[key := d[key].(count := d[key].count + 1)]
    else d[key := Cell(1, now + ttl as real)]
  }

  /** The dictionary after the first n windows have been bumped; a failing incr changes nothing. */
  function BumpedWindows(d: Dict, ip: string, now: real, fails: set<int>, n: nat): Dict
    requires n <= |WINDOWS|
  {
    if n == 0 then d
    else
      var before := BumpedWindows(d, ip, now, fails, n - 1);
      if n - 1 in fails then before else Bumped(before, KeyFor(ip, WINDOWS[n - 1]), WINDOWS[n - 1].ttl, now)
  }

  /** The shared dictionary and the module's two operations on it. */
  class Counters {
    var dict: Dict

    constructor ()
      ensures dict == map[]
    {
      dict := map[];
    }

    method Incr(key: string, initTtl: int, now: real, fails: bool) returns (newVal: Value)
      modifies this
      ensures dict == if fails then old(dict) else Bumped(old(dict), key, initTtl, now)
      ensures newVal == if fails then Nil else Number(Read(old(dict), key, now) + 1)
    {
      if fails {
        return Nil;
      }
      if key in dict && now < dict[key].expiry {
        dict := dict[key := dict[key].(count := dict[key].count + 1)];
      } else {
        dict := dict[key := Cell(1, now + initTtl as real)];
      }
      return Number(dict[key].count);
    }

    method Increment(ip: string, now: real, fails: set<int>) returns (rates: seq<int>)
      modifies this
      ensures dict == BumpedWindows(old(dict), ip, now, fails, |WINDOWS|)
      ensures |rates| == |WINDOWS|
      ensures forall i :: 0 <= i < |WINDOWS| ==>
                rates[i] == if i in fails then 0 else Read(old(dict), KeyFor(ip, WINDOWS[i]), now) + 1
      ensures forall ip', w :: ip' != ip && w in WINDOWS ==>
                Read(dict, KeyFor(ip', w), now) == Read(old(dict), KeyFor(ip', w), now)
    {
      rates := [];
      var i := 0;
      while i < |WINDOWS|
        invariant 0 <= i <= |WINDOWS| && |rates| == i
        invariant dict == BumpedWindows(old(dict), ip, now, fails, i)
        invariant forall j :: 0 <= j < i ==>
                    rates[j] == if j in fails then 0 else Read(old(dict), KeyFor(ip, WINDOWS[j]), now) + 1
      {
        OwnKeysDiffer(ip, i);
        BumpsTouchOwnKeys(old(dict), ip, now, fails, i, KeyFor(ip, WINDOWS[i]));
        var newVal := Incr(KeyFor(ip, WINDOWS[i]), WINDOWS[i].ttl, now, i in fails);
        rates := rates + [if newVal == Nil then 0 else newVal.n];
        i := i + 1;
      }
      OtherAddressesUntouched(old(dict), ip, now, fails);
    }

    method GetRates(ip: string, now: real) returns (rates: seq<int>)
      ensures |rates| == |WINDOWS|
      ensures forall i :: 0 <= i < |WINDOWS| ==> rates[i] == Read(dict, KeyFor(ip, WINDOWS[i]), now)
    {
      rates := [];
      var i := 0;
      while i < |WINDOWS|
        invariant 0 <= i <= |WINDOWS| && |rates| == i
        invariant forall j :: 0 <= j < i ==> rates[j] == Read(dict, KeyFor(ip, WINDOWS[j]), now)
      {
        var key := KeyFor(ip, WINDOWS[i]);
        rates := rates + [if key in dict && now < dict[key].expiry then dict[key].count else 0];
        i := i + 1;
      }
    }
  }

  function Decimal(n: nat): string {
    (if n < 10 then "" else Decimal(n / 10)) + [['0', '1', '2', '3', '4', '5', '6', '7', '8', '9'][n % 10]]
  }

  /** Every cell lives as long as its key says. */
  lemma KeysNameTheirTtl(ip: string, i: nat)
    requires i < |WINDOWS|
    ensures WINDOWS[i].ttl > 0 && KeyFor(ip, WINDOWS[i]) == "ip:" + ip + ":" + Decimal(WINDOWS[i].ttl) + "s"
  {
    assert Decimal(1) == "1" && Decimal(10) == "10" && Decimal(60) == "60";
    assert WINDOWS[i].suffix == Decimal(WINDOWS[i].ttl) + "s";
  }

  /** Different addresses or windows never share a key, even though addresses may contain colons. */
  lemma KeysAreInjective(ip1: string, i: nat, ip2: string, j: nat)
    requires i < |WINDOWS| && j < |WINDOWS|
    ensures KeyFor(ip1, WINDOWS[i]) == KeyFor(ip2, WINDOWS[j]) <==> ip1 == ip2 && i == j
  {
    var k1, k2 := KeyFor(ip1, WINDOWS[i]), KeyFor(ip2, WINDOWS[j]);
    if k1 == k2 {
      assert k1[|k1| - 2] == k2[|k2| - 2] && k1[|k1| - 3] == k2[|k2| - 3];
      assert i == j;
      assert k1[3..3 + |ip1|] == ip1 && k2[3..3 + |ip2|] == ip2;
    }
  }

  lemma OwnKeysDiffer(ip: string, i: nat)
    requires i < |WINDOWS|
    ensures forall j :: 0 <= j < |WINDOWS| && j != i ==> KeyFor(ip, WINDOWS[j]) != KeyFor(ip, WINDOWS[i])
  {
    forall j | 0 <= j < |WINDOWS| && j != i ensures KeyFor(ip, WINDOWS[j]) != KeyFor(ip, WINDOWS[i]) {
      KeysAreInjective(ip, j, ip, i);
    }
  }

  lemma {:induction false} BumpsTouchOwnKeys(d: Dict, ip: string, now: real, fails: set<int>, n: nat, key: string)
    requires n <= |WINDOWS|
    requires forall j :: 0 <= j < n ==> KeyFor(ip, WINDOWS[j]) != key
    ensures var d' := BumpedWindows(d, ip, now, fails, n);
            (key in d' <==> key in d) && (key in d ==> d'[key] == d[key])
  {
    if n > 0 {
      BumpsTouchOwnKeys(d, ip, now, fails, n - 1, key);
    }
  }

  lemma OtherAddressesUntouched(d: Dict, ip: string, now: real, fails: set<int>)
    ensures var d' := BumpedWindows(d, ip, now, fails, |WINDOWS|);
            forall ip', w, t :: ip' != ip && w in WINDOWS ==> Read(d', KeyFor(ip', w), t) == Read(d, KeyFor(ip', w), t)
  {
    forall ip', w, t | ip' != ip && w in WINDOWS
      ensures Read(BumpedWindows(d, ip, now, fails, |WINDOWS|), KeyFor(ip', w), t) == Read(d, KeyFor(ip', w), t)
    {
      var i :| 0 <= i < |WINDOWS| && WINDOWS[i] == w;
      forall j | 0 <= j < |WINDOWS| ensures KeyFor(ip, WINDOWS[j]) != KeyFor(ip', w) {
        KeysAreInjective(ip, j, ip', i);
      }
      BumpsTouchOwnKeys(d, ip, now, fails, |WINDOWS|, KeyFor(ip', w));
    }
  }

  // ----- runs -----------------------------------------------------------------------

  datatype Hit = Hit(ip: string, now: real)

  /** The dictionary after a run of increments without failures or evictions. */
  function DictAfter(run: Run<Hit>): Dict {
    match run
    case Start => map[]
    case Then(before, h) => BumpedWindows(DictAfter(before), h.ip, h.now, {}, |WINDOWS|)
  }

  /** The times at which one address was counted. */
  function TimesOf(run: Run<Hit>, ip: string): Run<real> {
    match run
    case Start => Start
    case Then(before, h) => if h.ip == ip then Then(TimesOf(before, ip), h.now) else TimesOf(before, ip)
  }

  /** A fixed window: when its cell was created and how often it was bumped. */
  datatype Span = Span(start: real, count: nat)

  function LastSpan(spans: seq<Span>): Span
    requires spans != []
  {
    spans[|spans| - 1]
  }

  /** The last of these windows is still open at t. */
  predicate IsOpen(ttl: int, spans: seq<Span>, t: real) {
    spans != [] && t < LastSpan(spans).start + ttl as real
  }

  function Counted(ttl: int, spans: seq<Span>, t: real): seq<Span> {
    if IsOpen(ttl, spans, t)
    then spans[..|spans| - 1] + [Span(LastSpan(spans).start, LastSpan(spans).count + 1)]
    else spans + [Span(t, 1)]
  }

  /** The fixed windows that a run of increments falls into. */
  function Spans(ttl: int, times: Run<real>): seq<Span> {
    match times
    case Start => []
    case Then(before, t) => Counted(ttl, Spans(ttl, before), t)
  }

  function TimeOf(t: real): real { t }

  ghost predicate Monotone(times: Run<real>) {
    NonDecreasing(times, TimeOf)
  }

  function CountAfter(times: Run<real>, x: real): nat {
    match times
    case Start => 0
    case Then(before, t) => CountAfter(before, x) + if t > x then 1 else 0
  }

  /** Times in the half-open interval [lo, hi). */
  function CountFrom(times: Run<real>, lo: real, hi: real): nat {
    match times
    case Start => 0
    case Then(before, t) => CountFrom(before, lo, hi) + if lo <= t < hi then 1 else 0
  }

  /** A window counts exactly the times in the ttl from its start. */
  predicate CountsItsTtl(ttl: int, times: Run<real>, s: Span) {
    s.count == CountFrom(times, s.start, s.start + ttl as real)
  }

  function TotalCount(spans: seq<Span>): nat {
    if spans == [] then 0 else TotalCount(spans[..|spans| - 1]) + LastSpan(spans).count
  }

  /** The cell under a key is the last fixed window of that address and ttl, whatever other
      addresses do. */
  ghost predicate CellIs(d: Dict, key: string, ttl: int, spans: seq<Span>) {
    if spans == [] then key !in d
    else key in d && d[key] == Cell(LastSpan(spans).count, LastSpan(spans).start + ttl as real)
  }

  lemma BumpCountsInCell(d: Dict, key: string, ttl: int, spans: seq<Span>, now: real)
    requires CellIs(d, key, ttl, spans)
    ensures CellIs(Bumped(d, key, ttl, now), key, ttl, Counted(ttl, spans, now))
  {
  }

  lemma OtherBumpKeepsCell(d: Dict, key: string, ttl: int, spans: seq<Span>, other: string, otherTtl: int, now: real)
    requires CellIs(d, key, ttl, spans) && other != key
    ensures CellIs(Bumped(d, other, otherTtl, now), key, ttl, spans)
  {
  }

  lemma {:induction false} BumpsKeepCell(d: Dict, h: Hit, n: nat, i: nat, spans: seq<Span>)
    requires n <= |WINDOWS| && i < |WINDOWS|
    requires CellIs(d, KeyFor(h.ip, WINDOWS[i]), WINDOWS[i].ttl, spans)
    ensures CellIs(BumpedWindows(d, h.ip, h.now, {}, n), KeyFor(h.ip, WINDOWS[i]), WINDOWS[i].ttl,
                   if i < n then Counted(WINDOWS[i].ttl, spans, h.now) else spans)
  {
    if n > 0 {
      var before, key, ttl := BumpedWindows(d, h.ip, h.now, {}, n - 1), KeyFor(h.ip, WINDOWS[i]), WINDOWS[i].ttl;
      BumpsKeepCell(d, h, n - 1, i, spans);
      if n - 1 == i {
        BumpCountsInCell(before, key, ttl, spans, h.now);
      } else {
        OwnKeysDiffer(h.ip, i);
        OtherBumpKeepsCell(before, key, ttl, if i < n - 1 then Counted(ttl, spans, h.now) else spans,
                           KeyFor(h.ip, WINDOWS[n - 1]), WINDOWS[n - 1].ttl, h.now);
      }
    }
  }

  lemma {:induction false} CellsAreLastSpans(run: Run<Hit>, ip: string, i: nat)
    requires i < |WINDOWS|
    ensures CellIs(DictAfter(run), KeyFor(ip, WINDOWS[i]), WINDOWS[i].ttl, Spans(WINDOWS[i].ttl, TimesOf(run, ip)))
  {
    if run.Then? {
      var h := run.last;
      CellsAreLastSpans(run.before, ip, i);
      if h.ip == ip {
        BumpsKeepCell(DictAfter(run.before), h, |WINDOWS|, i, Spans(WINDOWS[i].ttl, TimesOf(run.before, ip)));
      } else {
        forall j | 0 <= j < |WINDOWS| ensures KeyFor(h.ip, WINDOWS[j]) != KeyFor(ip, WINDOWS[i]) {
          KeysAreInjective(h.ip, j, ip, i);
        }
        BumpsTouchOwnKeys(DictAfter(run.before), h.ip, h.now, {}, |WINDOWS|, KeyFor(ip, WINDOWS[i]));
      }
    }
  }

  // ----- the windows partition the requests -----------------------------------------------------

  ghost predicate Spaced(ttl: int, spans: seq<Span>) {
    forall j, k :: 0 <= j < k < |spans| ==> spans[j].start + ttl as real <= spans[k].start
  }

  lemma ExtendsLast(ttl: int, spans: seq<Span>, t: real)
    requires IsOpen(ttl, spans, t)
    ensures var next := Counted(ttl, spans, t);
            && |next| == |spans| && next[..|next| - 1] == spans[..|spans| - 1]
            && LastSpan(next) == Span(LastSpan(spans).start, LastSpan(spans).count + 1)
  {
  }

  lemma OpensNew(ttl: int, spans: seq<Span>, t: real)
    requires !IsOpen(ttl, spans, t)
    ensures var next := Counted(ttl, spans, t);
            |next| == |spans| + 1 && next[..|next| - 1] == spans && LastSpan(next) == Span(t, 1)
  {
  }

  lemma CountedKeepsSpaced(ttl: int, spans: seq<Span>, t: real)
    requires ttl > 0 && Spaced(ttl, spans)
    ensures Spaced(ttl, Counted(ttl, spans, t))
  {
    var next := Counted(ttl, spans, t);
    forall j, k | 0 <= j < k < |next| ensures next[j].start + ttl as real <= next[k].start {
      assert j < |spans| && next[j].start == spans[j].start;
      if k < |spans| {
        assert next[k].start == spans[k].start;
      } else if j < |spans| - 1 {
        assert spans[j].start + ttl as real <= LastSpan(spans).start;
      }
    }
  }

  lemma {:induction false} SpansAreSpaced(ttl: int, times: Run<real>)
    requires ttl > 0 && Monotone(times)
    ensures var spans := Spans(ttl, times);
            && Spaced(ttl, spans) && (spans == [] <==> times == Start)
            && (times.Then? ==> LastSpan(spans).start <= times.last < LastSpan(spans).start + ttl as real)
  {
    if times.Then? {
      SpansAreSpaced(ttl, times.before);
      CountedKeepsSpaced(ttl, Spans(ttl, times.before), times.last);
    }
  }

  lemma {:induction false} NothingBeyondLast(times: Run<real>, lo: real, hi: real)
    requires Monotone(times) && (times.Then? ==> times.last < lo)
    ensures CountFrom(times, lo, hi) == 0
  {
    if times.Then? {
      NothingBeyondLast(times.before, lo, hi);
    }
  }

  /** An earlier window stays as it was: it is already over. */
  lemma EarlierSpanStays(ttl: int, spans: seq<Span>, t: real, k: nat)
    requires Spaced(ttl, spans) && (spans != [] ==> LastSpan(spans).start <= t)
    requires k + 1 < |Counted(ttl, spans, t)|
    ensures k < |spans| && Counted(ttl, spans, t)[k] == spans[k] && spans[k].start + ttl as real <= t
  {
    if k + 1 < |spans| {
      assert spans[k].start + ttl as real <= LastSpan(spans).start;
    }
  }

  /** An increment either extends the last window or opens a new one, which no earlier one is in. */
  lemma LastSpanGrows(ttl: int, before: Run<real>, t: real)
    requires ttl > 0 && Monotone(Then(before, t))
    ensures var was, s := Spans(ttl, before), LastSpan(Spans(ttl, Then(before, t)));
            && s.start <= t < s.start + ttl as real
            && if IsOpen(ttl, was, t) then s == Span(LastSpan(was).start, LastSpan(was).count + 1)
               else s == Span(t, 1) && (before.Then? ==> before.last < t)
  {
    var was := Spans(ttl, before);
    SpansAreSpaced(ttl, before);
    if IsOpen(ttl, was, t) {
      ExtendsLast(ttl, was, t);
    } else {
      OpensNew(ttl, was, t);
    }
  }

  lemma {:induction false} LastSpanCounts(ttl: int, times: Run<real>)
    requires ttl > 0 && Monotone(times) && times.Then?
    ensures CountsItsTtl(ttl, times, LastSpan(Spans(ttl, times)))
  {
    var before, t := times.before, times.last;
    LastSpanGrows(ttl, before, t);
    if IsOpen(ttl, Spans(ttl, before), t) {
      LastSpanCounts(ttl, before);
    } else {
      NothingBeyondLast(before, t, t + ttl as real);
    }
  }

  lemma {:induction false} SpanCounts(ttl: int, times: Run<real>, k: nat)
    requires ttl > 0 && Monotone(times) && k < |Spans(ttl, times)|
    ensures CountsItsTtl(ttl, times, Spans(ttl, times)[k])
  {
    var before, t := times.before, times.last;
    var was, spans := Spans(ttl, before), Spans(ttl, times);
    SpansAreSpaced(ttl, before);
    if k == |spans| - 1 {
      LastSpanCounts(ttl, times);
    } else {
      EarlierSpanStays(ttl, was, t, k);
      SpanCounts(ttl, before, k);
    }
  }

  lemma {:induction false} SpansAddUp(ttl: int, times: Run<real>)
    ensures TotalCount(Spans(ttl, times)) == times.Length()
  {
    if times.Then? {
      SpansAddUp(ttl, times.before);
      var was := Spans(ttl, times.before);
      if IsOpen(ttl, was, times.last) {
        ExtendsLast(ttl, was, times.last);
      } else {
        OpensNew(ttl, was, times.last);
      }
    }
  }

  /** The fixed windows start at least ttl apart, each counts exactly the increments in the ttl from
      its start, and their counts add up to all increments. */
  lemma {:induction false} SpansPartition(ttl: int, times: Run<real>)
    requires ttl > 0 && Monotone(times)
    ensures var spans := Spans(ttl, times);
            && Spaced(ttl, spans)
            && (forall k :: 0 <= k < |spans| ==> CountsItsTtl(ttl, times, spans[k]))
            && TotalCount(spans) == times.Length()
  {
    var spans := Spans(ttl, times);
    SpansAreSpaced(ttl, times);
    SpansAddUp(ttl, times);
    forall k | 0 <= k < |spans| ensures CountsItsTtl(ttl, times, spans[k]) {
      SpanCounts(ttl, times, k);
    }
  }

  // ----- how far a fixed window is from a sliding one ----------------------------------------------

  /** The count of the window still open at `now`, if any, and of the one closed most recently before. */
  function Current(ttl: int, spans: seq<Span>, now: real): nat {
    if IsOpen(ttl, spans, now) then LastSpan(spans).count else 0
  }

  function Previous(ttl: int, spans: seq<Span>, now: real): nat {
    if spans == [] then 0
    else if IsOpen(ttl, spans, now) then BeforeLast(spans)
    else LastSpan(spans).count
  }

  function BeforeLast(spans: seq<Span>): nat {
    if |spans| >= 2 then spans[|spans| - 2].count else 0
  }

  lemma {:induction false} NothingAfterLast(times: Run<real>, x: real)
    requires Monotone(times) && (times.Then? ==> times.last <= x)
    ensures CountAfter(times, x) == 0
  {
    if times.Then? {
      NothingAfterLast(times.before, x);
    }
  }

  lemma {:induction false} OpenSpanIsRecent(ttl: int, times: Run<real>, x: real)
    requires ttl > 0 && Monotone(times) && times.Then? && x < LastSpan(Spans(ttl, times)).start
    ensures CountAfter(times, x) >= LastSpan(Spans(ttl, times)).count
  {
    LastSpanGrows(ttl, times.before, times.last);
    if IsOpen(ttl, Spans(ttl, times.before), times.last) {
      SpansAreSpaced(ttl, times.before);
      OpenSpanIsRecent(ttl, times.before, x);
    }
  }

  lemma {:induction false} AtMostLastSpan(ttl: int, times: Run<real>, x: real)
    requires ttl > 0 && Monotone(times) && times.Then? && x >= LastSpan(Spans(ttl, times)).start
    ensures CountAfter(times, x) <= LastSpan(Spans(ttl, times)).count
  {
    LastSpanGrows(ttl, times.before, times.last);
    if IsOpen(ttl, Spans(ttl, times.before), times.last) {
      SpansAreSpaced(ttl, times.before);
      AtMostLastSpan(ttl, times.before, x);
    } else {
      NothingAfterLast(times.before, x);
    }
  }

  /** x is no earlier than the start of the last window but one. */
  predicate WithinLastTwo(spans: seq<Span>, x: real) {
    |spans| >= 2 ==> x >= spans[|spans| - 2].start
  }

  lemma BeforeLastStays(ttl: int, spans: seq<Span>, t: real, x: real)
    requires IsOpen(ttl, spans, t)
    ensures var next := Counted(ttl, spans, t);
            BeforeLast(next) == BeforeLast(spans) && (WithinLastTwo(next, x) <==> WithinLastTwo(spans, x))
  {
    ExtendsLast(ttl, spans, t);
  }

  lemma LastIsBeforeLast(ttl: int, spans: seq<Span>, t: real, x: real)
    requires spans != [] && !IsOpen(ttl, spans, t)
    ensures var next := Counted(ttl, spans, t);
            BeforeLast(next) == LastSpan(spans).count && (WithinLastTwo(next, x) <==> x >= LastSpan(spans).start)
  {
    OpensNew(ttl, spans, t);
  }

  lemma {:induction false} AtMostLastTwoSpans(ttl: int, times: Run<real>, x: real)
    requires ttl > 0 && Monotone(times) && times.Then? && WithinLastTwo(Spans(ttl, times), x)
    ensures CountAfter(times, x) <= LastSpan(Spans(ttl, times)).count + BeforeLast(Spans(ttl, times))
  {
    var before, t := times.before, times.last;
    LastSpanGrows(ttl, before, t);
    if before.Then? {
      SpansAreSpaced(ttl, before);
      if IsOpen(ttl, Spans(ttl, before), t) {
        BeforeLastStays(ttl, Spans(ttl, before), t, x);
        AtMostLastTwoSpans(ttl, before, x);
      } else {
        LastIsBeforeLast(ttl, Spans(ttl, before), t, x);
        AtMostLastSpan(ttl, before, x);
      }
    }
  }

  lemma LastSpanIsLate(ttl: int, times: Run<real>)
    requires ttl > 0 && Monotone(times) && times.Then?
    ensures var spans := Spans(ttl, times);
            spans != [] && LastSpan(spans).start <= times.last < LastSpan(spans).start + ttl as real
  {
    SpansAreSpaced(ttl, times);
  }

  lemma LastTwoCoverTtl(ttl: int, times: Run<real>, now: real)
    requires ttl > 0 && Monotone(times) && times.Then? && times.last <= now
    ensures WithinLastTwo(Spans(ttl, times), now - ttl as real)
  {
    SpansAreSpaced(ttl, times);
  }

  /** A count between the open window's and the last two windows', or at most the last one's if it is
      closed, is as close to the reported rate as the bound below says. */
  predicate Near(ttl: int, spans: seq<Span>, now: real, count: nat) {
    Current(ttl, spans, now) <= count <= Current(ttl, spans, now) + Previous(ttl, spans, now)
  }

  lemma OpenIsNear(ttl: int, spans: seq<Span>, now: real, count: nat)
    requires IsOpen(ttl, spans, now) && LastSpan(spans).count <= count <= LastSpan(spans).count + BeforeLast(spans)
    ensures Near(ttl, spans, now, count)
  {
  }

  lemma ClosedIsNear(ttl: int, spans: seq<Span>, now: real, count: nat)
    requires !IsOpen(ttl, spans, now) && (if spans == [] then count == 0 else count <= LastSpan(spans).count)
    ensures Near(ttl, spans, now, count)
  {
  }

  lemma OpenCountBounds(ttl: int, times: Run<real>, now: real)
    requires ttl > 0 && Monotone(times) && times.Then? && times.last <= now
    requires IsOpen(ttl, Spans(ttl, times), now)
    ensures Near(ttl, Spans(ttl, times), now, CountAfter(times, now - ttl as real))
  {
    LastSpanIsLate(ttl, times);
    LastTwoCoverTtl(ttl, times, now);
    OpenSpanIsRecent(ttl, times, now - ttl as real);
    AtMostLastTwoSpans(ttl, times, now - ttl as real);
    OpenIsNear(ttl, Spans(ttl, times), now, CountAfter(times, now - ttl as real));
  }

  lemma ClosedCountBounds(ttl: int, times: Run<real>, now: real)
    requires ttl > 0 && Monotone(times) && times.Then? && times.last <= now
    requires !IsOpen(ttl, Spans(ttl, times), now)
    ensures Near(ttl, Spans(ttl, times), now, CountAfter(times, now - ttl as real))
  {
    LastSpanIsLate(ttl, times);
    AtMostLastSpan(ttl, times, now - ttl as real);
    ClosedIsNear(ttl, Spans(ttl, times), now, CountAfter(times, now - ttl as real));
  }

  lemma {:induction false} TrailingCountBounds(ttl: int, times: Run<real>, now: real)
    requires ttl > 0 && Monotone(times) && (times.Then? ==> times.last <= now)
    ensures Near(ttl, Spans(ttl, times), now, CountAfter(times, now - ttl as real))
  {
    if times.Then? {
      if IsOpen(ttl, Spans(ttl, times), now) {
        OpenCountBounds(ttl, times, now);
      } else {
        ClosedCountBounds(ttl, times, now);
      }
    }
  }

  /** What get_rates reads is the count of the window that is still open. */
  lemma ReadsTheOpenWindow(run: Run<Hit>, ip: string, i: nat, now: real)
    requires i < |WINDOWS|
    ensures Read(DictAfter(run), KeyFor(ip, WINDOWS[i]), now)
            == Current(WINDOWS[i].ttl, Spans(WINDOWS[i].ttl, TimesOf(run, ip)), now)
  {
    CellsAreLastSpans(run, ip, i);
  }

  /** The rate that get_rates reports is never more than the number of requests in the trailing
      (now - ttl, now], and falls short of it by at most the final count of the preceding window. */
  lemma {:induction false} FixedWindowBoundsSlidingRate(run: Run<Hit>, ip: string, i: nat, now: real)
    requires i < |WINDOWS|
    requires var times := TimesOf(run, ip); Monotone(times) && (times.Then? ==> times.last <= now)
    ensures var times, ttl := TimesOf(run, ip), WINDOWS[i].ttl;
            var rate := Read(DictAfter(run), KeyFor(ip, WINDOWS[i]), now);
            var trailing := CountAfter(times, now - ttl as real);
            rate <= trailing <= rate + Previous(ttl, Spans(ttl, times), now)
  {
    ReadsTheOpenWindow(run, ip, i, now);
    TrailingCountBounds(WINDOWS[i].ttl, TimesOf(run, ip), now);
  }

  // ----- exactly when the rate is the sliding one ----------------------------------------------------

  /** The times before x. */
  function Before(times: Run<real>, x: real): Run<real> {
    match times
    case Start => Start
    case Then(before, t) => if t < x then times else Before(before, x)
  }

  /** The requests that fell into windows already closed at `now`. */
  function Closed(ttl: int, times: Run<real>, now: real): Run<real> {
    var spans := Spans(ttl, times);
    if IsOpen(ttl, spans, now) then Before(times, LastSpan(spans).start) else times
  }

  lemma {:induction false} CountAfterSplits(times: Run<real>, x: real, y: real, top: real)
    requires x < y && Monotone(times) && (times.Then? ==> times.last < top)
    ensures Monotone(Before(times, y))
    ensures CountAfter(times, x) == CountAfter(Before(times, y), x) + CountFrom(times, y, top)
  {
    if times.Then? {
      if times.last < y {
        NothingBeyondLast(times, y, top);
      } else {
        CountAfterSplits(times.before, x, y, top);
      }
    }
  }

  lemma ShortByTheClosed(ttl: int, times: Run<real>, now: real)
    requires ttl > 0 && Monotone(times) && (times.Then? ==> times.last <= now)
    ensures Monotone(Closed(ttl, times, now))
    ensures var x := now - ttl as real;
            CountAfter(times, x) == Current(ttl, Spans(ttl, times), now) + CountAfter(Closed(ttl, times, now), x)
  {
    var spans := Spans(ttl, times);
    SpansAreSpaced(ttl, times);
    if IsOpen(ttl, spans, now) {
      LastSpanCounts(ttl, times);
      CountAfterSplits(times, now - ttl as real, LastSpan(spans).start, LastSpan(spans).start + ttl as real);
    }
  }

  lemma NoneAfterIffLastIsNot(times: Run<real>, x: real)
    requires Monotone(times)
    ensures CountAfter(times, x) == 0 <==> times == Start || times.last <= x
  {
    if times.Then? && times.last <= x {
      NothingAfterLast(times, x);
    }
  }

  /** The reported rate is the sliding one if and only if the last request of the windows that are
      already closed is a ttl or more ago (or there is none); in general it is short by exactly the
      number of their requests in the trailing ttl. */
  lemma {:induction false} SlidingIffClosedIsOld(run: Run<Hit>, ip: string, i: nat, now: real)
    requires i < |WINDOWS|
    requires var times := TimesOf(run, ip); Monotone(times) && (times.Then? ==> times.last <= now)
    ensures var times, ttl := TimesOf(run, ip), WINDOWS[i].ttl;
            var rate := Read(DictAfter(run), KeyFor(ip, WINDOWS[i]), now);
            var trailing, closed := CountAfter(times, now - ttl as real), Closed(ttl, times, now);
            && trailing == rate + CountAfter(closed, now - ttl as real)
            && (rate == trailing <==> closed == Start || closed.last <= now - ttl as real)
  {
    var times, ttl := TimesOf(run, ip), WINDOWS[i].ttl;
    ReadsTheOpenWindow(run, ip, i, now);
    ShortByTheClosed(ttl, times, now);
    NoneAfterIffLastIsNot(Closed(ttl, times, now), now - ttl as real);
  }

  /** Increments at 0, at some time before that window ends, and at its end. */
  function ThreeTimes(middle: real, end: real): Run<real> {
    Then(Then(Then(Start, 0.0), middle), end)
  }

  lemma ThreeTimesSpans(ttl: int, middle: real)
    requires 0.0 < middle < ttl as real
    ensures var spans := Spans(ttl, ThreeTimes(middle, ttl as real));
            spans != [] && LastSpan(spans) == Span(ttl as real, 1)
  {
    var one := Then(Start, 0.0);
    assert Spans(ttl, Start) == [];
    assert Spans(ttl, one) == [Span(0.0, 1)];
    ExtendsLast(ttl, Spans(ttl, one), middle);
    OpensNew(ttl, Spans(ttl, Then(one, middle)), ttl as real);
  }

  lemma ThreeTimesCount(middle: real, end: real)
    requires 0.0 < middle < end
    ensures Monotone(ThreeTimes(middle, end)) && CountAfter(ThreeTimes(middle, end), 0.0) == 2
  {
    assert CountAfter(Then(Start, 0.0), 0.0) == 0;
    assert Monotone(Then(Then(Start, 0.0), middle));
  }

  /** A request just before a window closes is missed as soon as the next window opens. */
  lemma CountersAreNotSliding(ip: string, i: nat)
    requires i < |WINDOWS|
    ensures var ttl := WINDOWS[i].ttl as real;
            var run := Then(Then(Then(Start, Hit(ip, 0.0)), Hit(ip, ttl / 2.0)), Hit(ip, ttl));
            && Monotone(TimesOf(run, ip))
            && Read(DictAfter(run), KeyFor(ip, WINDOWS[i]), ttl) == 1
            && CountAfter(TimesOf(run, ip), 0.0) == 2
  {
    var ttl := WINDOWS[i].ttl as real;
    var run1 := Then(Start, Hit(ip, 0.0));
    var run := Then(Then(run1, Hit(ip, ttl / 2.0)), Hit(ip, ttl));
    assert TimesOf(run1, ip) == Then(Start, 0.0);
    assert TimesOf(run, ip) == ThreeTimes(ttl / 2.0, ttl);
    ThreeTimesSpans(WINDOWS[i].ttl, ttl / 2.0);
    ThreeTimesCount(ttl / 2.0, ttl);
    CellsAreLastSpans(run, ip, i);
  }
}
