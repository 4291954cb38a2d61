/** push_feature_vector as the sidecar's thread pool runs it: the read and the write are separate
    steps with no lock between them, and a key may expire at any time. */
module ConcurrentPushes {
  import opened Runs
  import opened Sequences
  import opened SequenceStore
  import Subnets

  type PushId = nat

  /** A stored vector; `push` records which call stored it and is read by no step. */
  datatype Item = Item(push: PushId, vec: Vec)

  /** A call between its read and its write, with what it read and how many writes to its key had
      happened by then; or finished. */
  datatype Phase = Reading(snapshot: seq<Item>, seen: nat) | Written

  datatype Call = Call(key: string, vec: Vec, phase: Phase)

  /** `writes` and `expired` are history: every write to a key, in order, and how many of them there
      were when the key last expired. */
  datatype State = State(
    store: map<string, seq<Item>>,
    calls: map<PushId, Call>,
    writes: map<string, seq<Item>>,
    expired: map<string, nat>)

  datatype Step = Get(p: PushId, ip: string, fv: FeatureVector) | SetEx(p: PushId) | Expire(key: string)

  const INITIAL: State := State(map[], map[], map[], map[])

  function Stored(s: State, key: string): seq<Item> {
    if key in s.store then s.store[key] else []
  }

  function Writes(s: State, key: string): seq<Item> {
    if key in s.writes then s.writes[key] else []
  }

  function ExpiredAt(s: State, key: string): nat {
    if key in s.expired then s.expired[key] else 0
  }

  predicate Enabled(s: State, step: Step) {
    match step
    case Get(p, _, _) => p !in s.calls
    case SetEx(p) => p in s.calls && s.calls[p].phase.Reading?
    case Expire(_) => true
  }

  function Apply(s: State, step: Step): State
    requires Enabled(s, step)
  {
    match step
    case Get(p, ip, fv) =>
      var key := KeyFor(ip);
      s.(calls := s.calls[p := Call(key, FvToArray(fv), Reading(Stored(s, key), |Writes(s, key)|))])
    case SetEx(p) =>
      var call := s.calls[p];
      var item := Item(p, call.vec);
      s.(store := s.store[call.key := LastN(call.phase.snapshot + [item], MAX_SEQ_LEN)],
         calls := s.calls[p := call.(phase := Written)],
         writes := s.writes[call.key := Writes(s, call.key) + [item]])
    case Expire(key) => s.(store := s.store - {key}, expired := s.expired[key := |Writes(s, key)|])
  }

  /** Every state the threads can reach; a step that is not enabled does nothing. */
  function After(run: Run<Step>): State {
    match run
    case Start => INITIAL
    case Then(before, step) => var s := After(before); if Enabled(s, step) then Apply(s, step) else s
  }

  // ----- what survives every interleaving -----------------------------------------------------

  /** What a key may hold: recent writes to it, in write order, the newest last. */
  predicate Plausible(items: seq<Item>, writes: seq<Item>) {
    && |items| <= MAX_SEQ_LEN
    && IsSubsequence(items, writes)
    && (items != [] ==> writes != [] && items[|items| - 1] == writes[|writes| - 1])
  }

  predicate CallOk(s: State, p: PushId, call: Call) {
    call.phase.Reading? ==>
      && call.phase.seen <= |Writes(s, call.key)|
      && Plausible(call.phase.snapshot, Writes(s, call.key)[..call.phase.seen])
  }

  /** A write was made by a finished call for this key, with that call's vector. */
  predicate Genuine(s: State, key: string, item: Item) {
    item.push in s.calls && s.calls[item.push] == Call(key, item.vec, Written)
  }

  predicate Distinct(items: seq<Item>) {
    forall i, j :: 0 <= i < j < |items| ==> items[i].push != items[j].push
  }

  predicate KeyOk(s: State, key: string) {
    && Plausible(Stored(s, key), Writes(s, key))
    && Distinct(Writes(s, key))
    && forall item :: item in Writes(s, key) ==> Genuine(s, key, item)
  }

  ghost predicate Inv(s: State) {
    && (forall key :: KeyOk(s, key))
    && (forall p :: p in s.calls ==> CallOk(s, p, s.calls[p]))
  }

  /** The written value: whatever the snapshot lacks, it is in order and ends with the new item. */
  lemma WriteIsPlausible(snapshot: seq<Item>, writes: seq<Item>, seen: nat, item: Item)
    requires seen <= |writes| && Plausible(snapshot, writes[..seen])
    ensures Plausible(LastN(snapshot + [item], MAX_SEQ_LEN), writes + [item])
  {
    SubsequenceOfExtension(snapshot, writes, seen);
    SubsequenceAppends(snapshot, writes, item);
    var all := snapshot + [item];
    if |all| > MAX_SEQ_LEN {
      SubsequenceDropsFirst(all, writes + [item], |all| - MAX_SEQ_LEN);
    }
  }

  lemma SetExKeepsCall(s: State, p: PushId, q: PushId)
    requires Inv(s) && Enabled(s, SetEx(p)) && q in s.calls
    ensures var s' := Apply(s, SetEx(p)); CallOk(s', q, s'.calls[q])
  {
    if q != p {
      assert CallOk(s, q, s.calls[q]);
      if s.calls[q].phase.Reading? && s.calls[q].key == s.calls[p].key {
        var key, seen := s.calls[q].key, s.calls[q].phase.seen;
        assert Writes(Apply(s, SetEx(p)), key)[..seen] == Writes(s, key)[..seen];
      }
    }
  }

  lemma SetExKeepsWrites(s: State, p: PushId, key: string)
    requires Inv(s) && Enabled(s, SetEx(p))
    ensures var s' := Apply(s, SetEx(p));
            && Distinct(Writes(s', key))
            && forall item :: item in Writes(s', key) ==> Genuine(s', key, item)
  {
    assert KeyOk(s, key);
    forall i | i in Writes(s, key) ensures Genuine(Apply(s, SetEx(p)), key, i) && i.push != p {
      assert Genuine(s, key, i);
    }
  }

  lemma SetExKeepsStored(s: State, p: PushId, key: string)
    requires Inv(s) && Enabled(s, SetEx(p))
    ensures var s' := Apply(s, SetEx(p)); Plausible(Stored(s', key), Writes(s', key))
  {
    var s', call := Apply(s, SetEx(p)), s.calls[p];
    if key == call.key {
      assert CallOk(s, p, call);
      WriteIsPlausible(call.phase.snapshot, Writes(s, key), call.phase.seen, Item(p, call.vec));
    } else {
      assert KeyOk(s, key) && Stored(s', key) == Stored(s, key) && Writes(s', key) == Writes(s, key);
    }
  }

  lemma SetExKeepsInv(s: State, p: PushId)
    requires Inv(s) && Enabled(s, SetEx(p))
    ensures Inv(Apply(s, SetEx(p)))
  {
    var s' := Apply(s, SetEx(p));
    forall q | q in s'.calls ensures CallOk(s', q, s'.calls[q]) {
      SetExKeepsCall(s, p, q);
    }
    forall key ensures KeyOk(s', key) {
      SetExKeepsWrites(s, p, key);
      SetExKeepsStored(s, p, key);
    }
  }

  lemma StepKeepsInv(s: State, step: Step)
    requires Inv(s) && Enabled(s, step)
    ensures Inv(Apply(s, step))
  {
    if step.SetEx? {
      SetExKeepsInv(s, step.p);
    } else {
      var s' := Apply(s, step);
      forall key ensures KeyOk(s', key) {
        assert KeyOk(s, key) && Writes(s', key) == Writes(s, key);
        assert forall item :: item in Writes(s, key) ==> Genuine(s, key, item);
      }
      forall p | p in s'.calls ensures CallOk(s', p, s'.calls[p]) {
        if p in s.calls {
          assert CallOk(s, p, s.calls[p]);
        } else {
          var key := s'.calls[p].key;
          assert Writes(s, key)[..|Writes(s, key)|] == Writes(s, key);
          assert KeyOk(s, key);
        }
      }
    }
  }

  lemma {:induction false} ReachableInv(run: Run<Step>)
    ensures Inv(After(run))
  {
    if run.Then? {
      ReachableInv(run.before);
      var s := After(run.before);
      if Enabled(s, run.last) {
        StepKeepsInv(s, run.last);
      }
    }
  }

  /** Under any interleaving, each stored sequence has at most MAX_SEQ_LEN entries and is a
      subsequence of its subnet's write order ending with the newest write; and every entry was
      written once, by a finished call for that subnet with that call's own vector.  So updates may
      be lost, but never invented, reordered, duplicated or mixed across subnets. */
  lemma {:induction false} PushesAreNeverCorrupted(run: Run<Step>, key: string)
    ensures var s := After(run);
            var items, writes := Stored(s, key), Writes(s, key);
            && |items| <= MAX_SEQ_LEN
            && IsSubsequence(items, writes)
            && (items != [] ==> items[|items| - 1] == writes[|writes| - 1])
            && Distinct(writes)
            && (forall item :: item in items ==> Genuine(s, key, item))
  {
    ReachableInv(run);
    var s := After(run);
    assert KeyOk(s, key);
    forall item | item in Stored(s, key) ensures Genuine(s, key, item) {
      SubsequenceMembers(Stored(s, key), Writes(s, key), item);
    }
  }

  // ----- what was stored was pushed -----------------------------------------------------------------

  /** What a call was given: the address and feature vector of the read it began with. */
  datatype Given = Nothing | Pushed(ip: string, fv: FeatureVector)

  /** The first read of this call that took effect. */
  function GivenTo(run: Run<Step>, p: PushId): Given {
    match run
    case Start => Nothing
    case Then(before, step) =>
      if GivenTo(before, p).Nothing? && step.Get? && step.p == p && Enabled(After(before), step)
      then Pushed(step.ip, step.fv) else GivenTo(before, p)
  }

  /** How many reads of this call took effect. */
  function TimesRead(run: Run<Step>, p: PushId): nat {
    match run
    case Start => 0
    case Then(before, step) =>
      TimesRead(before, p) + if step.Get? && step.p == p && Enabled(After(before), step) then 1 else 0
  }

  /** The call works for the subnet of the address it was given, with that vector's encoding. */
  predicate DoesAsGiven(call: Call, given: Given) {
    && given.Pushed?
    && call.key == KEY_PREFIX + Subnets.IpToSubnet(given.ip)
    && call.vec == EncodeFeatureVector(given.fv)
  }

  lemma {:induction false} CallsDoAsGiven(run: Run<Step>, p: PushId)
    ensures var calls := After(run).calls;
            && TimesRead(run, p) == (if p in calls then 1 else 0)
            && (p in calls <==> GivenTo(run, p).Pushed?)
            && (p in calls ==> DoesAsGiven(calls[p], GivenTo(run, p)))
  {
    if run.Then? {
      CallsDoAsGiven(run.before, p);
      if run.last.Get? {
        EncodersAgree(run.last.fv);
      }
    }
  }

  /** Every vector stored for a subnet in any reachable state is the encoding of the feature vector that
      exactly one call of the run was given, for an address of that subnet. */
  lemma {:induction false} StoredWasPushed(run: Run<Step>, key: string, item: Item)
    requires item in Stored(After(run), key)
    ensures var given := GivenTo(run, item.push);
            && given.Pushed? && TimesRead(run, item.push) == 1
            && key == KEY_PREFIX + Subnets.IpToSubnet(given.ip)
            && item.vec == EncodeFeatureVector(given.fv)
  {
    PushesAreNeverCorrupted(run, key);
    CallsDoAsGiven(run, item.push);
    assert Genuine(After(run), key, item);
  }

  /** Conversely every finished call has written its vector, once, to its own key. */
  lemma {:induction false} FinishedIsWritten(run: Run<Step>, p: PushId)
    ensures var s := After(run);
            p in s.calls && s.calls[p].phase.Written? ==>
              Item(p, s.calls[p].vec) in Writes(s, s.calls[p].key) && Distinct(Writes(s, s.calls[p].key))
  {
    if run.Then? {
      FinishedIsWritten(run.before, p);
    }
    ReachableInv(run);
    if p in After(run).calls {
      assert KeyOk(After(run), After(run).calls[p].key);
    }
  }

  // ----- exactly when nothing is lost --------------------------------------------------------------

  /** The writes to a key since it last expired. */
  function WritesSince(s: State, key: string): seq<Item> {
    if ExpiredAt(s, key) <= |Writes(s, key)| then Writes(s, key)[ExpiredAt(s, key)..] else []
  }

  /** What has happened to a call's key since the call read it: whether what it read has expired, and how
      many writes by other calls the key has seen since then, or since it last expired. */
  datatype Meanwhile = Meanwhile(lapsed: bool, missed: nat)

  function MeanwhileFor(run: Run<Step>, p: PushId): Meanwhile {
    match run
    case Start => Meanwhile(false, 0)
    case Then(before, step) =>
      var s, m := After(before), MeanwhileFor(before, p);
      if step.Get? then
        if step.p == p && Enabled(s, step) then Meanwhile(false, 0) else m
      else if p !in s.calls || !s.calls[p].phase.Reading? then m
      else if step.Expire? then
        if step.key == s.calls[p].key then Meanwhile(m.lapsed || s.calls[p].phase.snapshot != [], 0) else m
      else if Enabled(s, step) && step.p != p && s.calls[step.p].key == s.calls[p].key
      then m.(missed := m.missed + 1) else m
  }

  /** No call is overtaken: between a call's read and its write, what it read does not expire, and no
      other call's write is made that the key still holds. */
  predicate NoOverlap(run: Run<Step>) {
    match run
    case Start => true
    case Then(before, step) =>
      && NoOverlap(before)
      && (step.SetEx? && Enabled(After(before), step) ==> MeanwhileFor(before, step.p) == Meanwhile(false, 0))
  }

  /** Every key holds exactly the last writes to it since it last expired. */
  predicate ExactAt(s: State, key: string) {
    Stored(s, key) == LastN(WritesSince(s, key), MAX_SEQ_LEN)
  }

  ghost predicate Exact(s: State) {
    forall key :: ExactAt(s, key)
  }

  ghost predicate AlwaysExact(run: Run<Step>) {
    Exact(After(run)) && (run.Then? ==> AlwaysExact(run.before))
  }

  lemma {:induction false} ExpiredInPast(run: Run<Step>, key: string)
    ensures ExpiredAt(After(run), key) <= |Writes(After(run), key)|
  {
    if run.Then? {
      ExpiredInPast(run.before, key);
    }
  }

  /** How the history of a waiting call's key shows what happened meanwhile. */
  predicate MeanwhileShows(s: State, call: Call, m: Meanwhile)
    requires call.phase.Reading?
  {
    var written, gone := |Writes(s, call.key)|, ExpiredAt(s, call.key);
    && call.phase.seen + m.missed <= written
    && gone + m.missed <= written
    && (m.lapsed ==> call.phase.snapshot != [] && call.phase.seen <= gone)
    && (m == Meanwhile(false, 0) ==> call.phase.snapshot == Stored(s, call.key))
  }

  lemma MeanwhileStep(before: Run<Step>, step: Step, p: PushId)
    requires var s := After(before);
             p in s.calls && s.calls[p].phase.Reading? && MeanwhileShows(s, s.calls[p], MeanwhileFor(before, p))
    requires !(step == SetEx(p))
    ensures var run := Then(before, step);
            MeanwhileShows(After(run), After(before).calls[p], MeanwhileFor(run, p))
  {
  }

  lemma {:induction false} MeanwhileIsShown(run: Run<Step>, p: PushId)
    requires p in After(run).calls && After(run).calls[p].phase.Reading?
    ensures MeanwhileShows(After(run), After(run).calls[p], MeanwhileFor(run, p))
  {
    if p in After(run.before).calls {
      MeanwhileIsShown(run.before, p);
      MeanwhileStep(run.before, run.last, p);
    } else {
      ExpiredInPast(run, After(run).calls[p].key);
    }
  }

  lemma WriteSince(s: State, p: PushId)
    requires Enabled(s, SetEx(p)) && ExpiredAt(s, s.calls[p].key) <= |Writes(s, s.calls[p].key)|
    ensures var call := s.calls[p];
            WritesSince(Apply(s, SetEx(p)), call.key) == WritesSince(s, call.key) + [Item(p, call.vec)]
  {
  }

  /** A write that nothing came before is one more of the writes the key holds the last of. */
  lemma UndisturbedWriteIsExact(s: State, p: PushId)
    requires Exact(s) && Enabled(s, SetEx(p)) && s.calls[p].phase.snapshot == Stored(s, s.calls[p].key)
    requires ExpiredAt(s, s.calls[p].key) <= |Writes(s, s.calls[p].key)|
    ensures Exact(Apply(s, SetEx(p)))
  {
    var s', mine := Apply(s, SetEx(p)), s.calls[p].key;
    WriteSince(s, p);
    forall key ensures ExactAt(s', key) {
      assert ExactAt(s, key);
      if key == mine {
        TrimmedAppend(WritesSince(s, key), Item(p, s.calls[p].vec), MAX_SEQ_LEN);
      } else {
        assert Writes(s', key) == Writes(s, key) && Stored(s', key) == Stored(s, key);
      }
    }
  }

  lemma OtherStepIsExact(s: State, step: Step)
    requires Exact(s) && Enabled(s, step) && !step.SetEx?
    ensures Exact(Apply(s, step))
  {
    var s' := Apply(s, step);
    forall key ensures ExactAt(s', key) {
      assert ExactAt(s, key);
    }
  }

  /** If what is written equals the last writes, the snapshot ended with the newest of them. */
  lemma LastTwo(snapshot: seq<Item>, writes: seq<Item>, item: Item)
    requires writes != [] && |snapshot| <= MAX_SEQ_LEN
    requires LastN(snapshot + [item], MAX_SEQ_LEN) == LastN(writes + [item], MAX_SEQ_LEN)
    ensures snapshot != [] && snapshot[|snapshot| - 1] == writes[|writes| - 1]
  {
    var kept, last := LastN(snapshot + [item], MAX_SEQ_LEN), LastN(writes + [item], MAX_SEQ_LEN);
    var n := |last| - 2;
    assert |kept| <= |snapshot| + 1;
    assert last[n] == (writes + [item])[|writes| - 1] == writes[|writes| - 1];
    assert kept[n] == (snapshot + [item])[|snapshot| - 1] == snapshot[|snapshot| - 1];
  }

  lemma LoneWrite(snapshot: seq<Item>, item: Item)
    ensures |LastN(snapshot + [item], MAX_SEQ_LEN)| == 1 <==> snapshot == []
  {
  }

  /** A write that comes after another loses it, and one that comes after an expiry brings back what had
      expired. */
  lemma DisturbedWriteIsNotExact(s: State, p: PushId, m: Meanwhile)
    requires Inv(s) && Enabled(s, SetEx(p)) && ExpiredAt(s, s.calls[p].key) <= |Writes(s, s.calls[p].key)|
    requires MeanwhileShows(s, s.calls[p], m) && m != Meanwhile(false, 0)
    ensures !ExactAt(Apply(s, SetEx(p)), s.calls[p].key)
  {
    var s', call := Apply(s, SetEx(p)), s.calls[p];
    var writes, since := Writes(s, call.key), WritesSince(s, call.key);
    var snapshot, seen, item := call.phase.snapshot, call.phase.seen, Item(p, call.vec);
    assert CallOk(s, p, call) && KeyOk(s, call.key);
    WriteSince(s, p);
    if ExactAt(s', call.key) {
      assert LastN(snapshot + [item], MAX_SEQ_LEN) == LastN(since + [item], MAX_SEQ_LEN);
      LoneWrite(snapshot, item);
      if since != [] {
        LastTwo(snapshot, since, item);
        SubsequenceMembers(snapshot, writes[..seen], writes[|writes| - 1]);
      }
      assert false;
    }
  }

  lemma SetExIsExactIffUndisturbed(before: Run<Step>, p: PushId)
    requires Exact(After(before)) && Enabled(After(before), SetEx(p))
    ensures Exact(Apply(After(before), SetEx(p))) <==> MeanwhileFor(before, p) == Meanwhile(false, 0)
  {
    var s := After(before);
    ReachableInv(before);
    ExpiredInPast(before, s.calls[p].key);
    MeanwhileIsShown(before, p);
    if MeanwhileFor(before, p) == Meanwhile(false, 0) {
      UndisturbedWriteIsExact(s, p);
    } else {
      DisturbedWriteIsNotExact(s, p, MeanwhileFor(before, p));
    }
  }

  /** Every subnet holds exactly the last MAX_SEQ_LEN writes since it last expired, throughout a run, if
      and only if no call is overtaken between its read and its write by another write to its subnet or by
      the expiry of what it read. */
  lemma {:induction false} LosesNothingIffNoOverlap(run: Run<Step>)
    ensures AlwaysExact(run) <==> NoOverlap(run)
  {
    if run.Then? {
      LosesNothingIffNoOverlap(run.before);
      var s := After(run.before);
      if AlwaysExact(run.before) && Enabled(s, run.last) {
        if run.last.SetEx? {
          SetExIsExactIffUndisturbed(run.before, run.last.p);
        } else {
          OtherStepIsExact(s, run.last);
        }
      }
    }
  }

  /** Two calls for one subnet that both read before either writes. */
  function Race(p: PushId, ip1: string, fv1: FeatureVector, q: PushId, ip2: string, fv2: FeatureVector): Run<Step> {
    Then(Then(Then(Then(Start, Get(p, ip1, fv1)), Get(q, ip2, fv2)), SetEx(p)), SetEx(q))
  }

  /** What the missing lock costs: of two such calls the first one's vector is lost, for any two addresses
      of a subnet and any vectors. */
  lemma RaceLosesAPush(p: PushId, ip1: string, fv1: FeatureVector, q: PushId, ip2: string, fv2: FeatureVector)
    requires p != q && SameSubnet(ip1, ip2)
    ensures var s := After(Race(p, ip1, fv1, q, ip2, fv2));
            && Stored(s, KeyFor(ip1)) == [Item(q, EncodeFeatureVector(fv2))]
            && Writes(s, KeyFor(ip1)) == [Item(p, EncodeFeatureVector(fv1)), Item(q, EncodeFeatureVector(fv2))]
  {
    var run, key := Race(p, ip1, fv1, q, ip2, fv2), KeyFor(ip1);
    var call1, call2 := Call(key, FvToArray(fv1), Reading([], 0)), Call(key, FvToArray(fv2), Reading([], 0));
    KeysAreSubnets(ip1, ip2);
    EncodersAgree(fv1);
    EncodersAgree(fv2);
    assert After(run.before.before.before) == INITIAL.(calls := map[p := call1]) by {
      assert After(run.before.before.before.before) == INITIAL;
    }
    assert After(run.before.before) == INITIAL.(calls := map[p := call1, q := call2]);
    var item1 := Item(p, call1.vec);
    assert [] + [item1] == [item1];
    assert After(run.before).writes == map[key := [item1]] && After(run.before).calls[q] == call2;
  }
}
