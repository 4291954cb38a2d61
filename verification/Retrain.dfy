/** The grouping done by retrain.py: messages consumed into one list per client, per-client refits,
    and the flattened list for the baseline. */
module Retrain {

  const MIN_SAMPLES_FOR_FIT: nat := 20

  /** A decoded value: a feature vector with its client_ip ("" when missing), or something without
      fields, on which the loop's `get` raises. */
  datatype Value = Vector(clientIp: string, id: nat) | NotADict

  /** A log record; one whose payload cannot be decoded raises before the loop sees it. */
  datatype Message = Message(timestamp: int, value: Value) | Undecodable

  /** An insertion-ordered dictionary of lists. */
  datatype Groups = Groups(order: seq<string>, lists: map<string, seq<Value>>)

  predicate Raises(m: Message, cutoff: int) {
    m.Undecodable? || (m.timestamp >= cutoff && m.value.NotADict?)
  }

  predicate Accepted(m: Message, cutoff: int) {
    m.Message? && m.timestamp >= cutoff && m.value.Vector? && m.value.clientIp != ""
  }

  /** The index of the first message from i on that raises: the loop ends there. */
  function FirstRaise(log: seq<Message>, cutoff: int, i: nat): (end: nat)
    requires i <= |log|
    ensures i <= end <= |log|
    decreases |log| - i
  {
    if i == |log| || Raises(log[i], cutoff) then i else FirstRaise(log, cutoff, i + 1)
  }

  /** The accepted vectors, in log order. */
  function AcceptedOf(log: seq<Message>, cutoff: int): seq<Value> {
    if log == [] then []
    else
      var m := log[|log| - 1];
      AcceptedOf(log[..|log| - 1], cutoff) + if Accepted(m, cutoff) then [m.value] else []
  }

  function AcceptedBeforeError(log: seq<Message>, cutoff: int): seq<Value> {
    AcceptedOf(log[..FirstRaise(log, cutoff, 0)], cutoff)
  }

  predicate NoneRaises(log: seq<Message>, cutoff: int) {
    forall m :: m in log ==> !Raises(m, cutoff)
  }

  /** The loop over this log ends here: nothing before raises, and either this does or the log is over. */
  ghost predicate EndsAt(log: seq<Message>, cutoff: int, end: nat) {
    && end <= |log|
    && (forall k :: 0 <= k < end ==> !Raises(log[k], cutoff))
    && (end == |log| || Raises(log[end], cutoff))
  }

  lemma {:induction false} FirstRaiseIsFirst(log: seq<Message>, cutoff: int, i: nat)
    requires i <= |log|
    ensures var end := FirstRaise(log, cutoff, i);
            && (forall k :: i <= k < end ==> !Raises(log[k], cutoff))
            && (end < |log| ==> Raises(log[end], cutoff))
    decreases |log| - i
  {
    if i < |log| && !Raises(log[i], cutoff) {
      FirstRaiseIsFirst(log, cutoff, i + 1);
    }
  }

  /** There is exactly one such place in every log. */
  lemma EndIsFirstRaise(log: seq<Message>, cutoff: int, end: nat)
    ensures EndsAt(log, cutoff, end) <==> end == FirstRaise(log, cutoff, 0)
  {
    FirstRaiseIsFirst(log, cutoff, 0);
  }

  lemma {:induction false} AcceptedOfConcat(a: seq<Message>, b: seq<Message>, cutoff: int)
    ensures AcceptedOf(a + b, cutoff) == AcceptedOf(a, cutoff) + AcceptedOf(b, cutoff)
  {
    if b == [] {
      assert a + b == a;
    } else {
      AcceptedOfConcat(a, b[..|b| - 1], cutoff);
      assert (a + b)[..|a + b| - 1] == a + b[..|b| - 1];
    }
  }

  /** What is consumed, on the log alone: of a log in which nothing raises, all of it, in order; of any
      other, nothing from the first message that raises on, whatever follows it. */
  lemma ConsumedUpToError(a: seq<Message>, b: seq<Message>, cutoff: int)
    ensures if NoneRaises(a, cutoff)
            then AcceptedBeforeError(a + b, cutoff) == AcceptedOf(a, cutoff) + AcceptedBeforeError(b, cutoff)
            else AcceptedBeforeError(a + b, cutoff) == AcceptedBeforeError(a, cutoff)
    ensures NoneRaises(a, cutoff) ==> AcceptedBeforeError(a, cutoff) == AcceptedOf(a, cutoff)
  {
    if NoneRaises(a, cutoff) {
      var endB := FirstRaise(b, cutoff, 0);
      EndIsFirstRaise(a, cutoff, |a|);
      EndIsFirstRaise(b, cutoff, endB);
      EndIsFirstRaise(a + b, cutoff, |a| + endB);
      assert a[..|a|] == a && (a + b)[..|a| + endB] == a + b[..endB];
      AcceptedOfConcat(a, b[..endB], cutoff);
    } else {
      var endA := FirstRaise(a, cutoff, 0);
      EndIsFirstRaise(a, cutoff, endA);
      EndIsFirstRaise(a + b, cutoff, endA);
      assert (a + b)[..endA] == a[..endA];
    }
  }

  /** A message is consumed exactly if it can be decoded, is no older than the cutoff and names a client. */
  lemma OneMessageConsumed(m: Message, cutoff: int)
    ensures AcceptedOf([m], cutoff)
            == if m.Undecodable? || m.timestamp < cutoff || m.value.NotADict? || m.value.clientIp == "" then []
               else [m.value]
  {
    assert AcceptedOf([m][..0], cutoff) == [];
  }

  /** Those of one client. */
  function ForClient(vs: seq<Value>, ip: string): seq<Value> {
    if vs == [] then []
    else
      var v := vs[|vs| - 1];
      ForClient(vs[..|vs| - 1], ip) + if v.Vector? && v.clientIp == ip then [v] else []
  }

  lemma {:induction false} ForClientConcat(a: seq<Value>, b: seq<Value>, ip: string)
    ensures ForClient(a + b, ip) == ForClient(a, ip) + ForClient(b, ip)
  {
    if b == [] {
      assert a + b == a;
    } else {
      ForClientConcat(a, b[..|b| - 1], ip);
      assert (a + b)[..|a + b| - 1] == a + b[..|b| - 1];
    }
  }

  predicate DistinctKeys(order: seq<string>) {
    forall i, j :: 0 <= i < j < |order| ==> order[i] != order[j]
  }

  /** Each client's list is its in-order share of the vectors, and exactly the clients with a vector
      have a list. */
  ghost predicate GroupsBy(g: Groups, vs: seq<Value>) {
    && DistinctKeys(g.order)
    && (forall ip :: ip in g.order <==> ip in g.lists)
    && (forall ip :: ip in g.lists ==> g.lists[ip] == ForClient(vs, ip) && g.lists[ip] != [])
    && (forall ip :: ip !in g.lists ==> ForClient(vs, ip) == [])
  }

  /** defaultdict(list): append to the client's list, creating it at the end of the order. */
  function Appended(g: Groups, v: Value): Groups
    requires v.Vector?
  {
    var ip := v.clientIp;
    if ip in g.lists then Groups(g.order, g.lists[ip := g.lists[ip] + [v]])
    else Groups(g.order + [ip], g.lists[ip := [v]])
  }

  lemma AppendKeepsGroups(g: Groups, vs: seq<Value>, v: Value)
    requires GroupsBy(g, vs) && v.Vector?
    ensures GroupsBy(Appended(g, v), vs + [v])
  {
    var g' := Appended(g, v);
    assert (vs + [v])[..|vs|] == vs;
    forall ip ensures ForClient(vs + [v], ip) == ForClient(vs, ip) + if v.clientIp == ip then [v] else [] {}
    forall ip ensures ip in g'.order <==> ip in g'.lists {
      assert ip in g.order <==> ip in g.lists;
    }
  }

  lemma AcceptedOfNext(log: seq<Message>, cutoff: int, i: nat)
    requires i < |log|
    ensures AcceptedOf(log[..i + 1], cutoff)
            == if Accepted(log[i], cutoff) then AcceptedOf(log[..i], cutoff) + [log[i].value]
               else AcceptedOf(log[..i], cutoff)
  {
    assert log[..i + 1][..i] == log[..i];
  }

  method ConsumeFeatureVectors(log: seq<Message>, cutoff: int) returns (g: Groups, total: nat)
    ensures forall end: nat :: EndsAt(log, cutoff, end) ==>
              GroupsBy(g, AcceptedOf(log[..end], cutoff)) && total == |AcceptedOf(log[..end], cutoff)|
    ensures GroupsBy(g, AcceptedBeforeError(log, cutoff))
    ensures total == |AcceptedBeforeError(log, cutoff)|
  {
    forall end: nat | EndsAt(log, cutoff, end) ensures end == FirstRaise(log, cutoff, 0) {
      EndIsFirstRaise(log, cutoff, end);
    }
    g := Groups([], map[]);
    total := 0;
    var i := 0;
    while i < |log| && !Raises(log[i], cutoff)
      invariant 0 <= i <= |log|
      invariant FirstRaise(log, cutoff, i) == FirstRaise(log, cutoff, 0)
      invariant GroupsBy(g, AcceptedOf(log[..i], cutoff))
      invariant total == |AcceptedOf(log[..i], cutoff)|
    {
      ghost var before := AcceptedOf(log[..i], cutoff);
      AcceptedOfNext(log, cutoff, i);
      var msg := log[i];
      i := i + 1;
      if msg.timestamp < cutoff {
        continue;
      }
      if msg.value.clientIp != "" {
        AppendKeepsGroups(g, before, msg.value);
        g := Appended(g, msg.value);
        total := total + 1;
      }
    }
  }

  /** One call of fit: the client and the list it is fitted on. */
  datatype Fit = Fit(ip: string, vectors: seq<Value>)

  predicate DistinctClients(fits: seq<Fit>) {
    forall i, j :: 0 <= i < j < |fits| ==> fits[i].ip != fits[j].ip
  }

  /** Each of these clients with enough vectors is fitted once, on exactly its own list, in order. */
  function FitsOf(order: seq<string>, lists: map<string, seq<Value>>): seq<Fit>
    requires forall ip :: ip in order ==> ip in lists
  {
    if order == [] then []
    else
      var ip := order[|order| - 1];
      FitsOf(order[..|order| - 1], lists)
      + if |lists[ip]| >= MIN_SAMPLES_FOR_FIT then [Fit(ip, lists[ip])] else []
  }

  lemma {:induction false} FitsAreTheFullClients(order: seq<string>, lists: map<string, seq<Value>>)
    requires DistinctKeys(order) && forall ip :: ip in order ==> ip in lists
    ensures var fits := FitsOf(order, lists);
            && DistinctClients(fits)
            && forall f :: f in fits <==> f.ip in order && f.vectors == lists[f.ip]
                                          && |f.vectors| >= MIN_SAMPLES_FOR_FIT
  {
    if order != [] {
      var n := |order| - 1;
      FitsAreTheFullClients(order[..n], lists);
      assert order == order[..n] + [order[n]];
      forall f | f in FitsOf(order[..n], lists) ensures f.ip != order[n] {
        assert f.ip in order[..n];
      }
    }
  }

  method RetrainPerClient(g: Groups) returns (fits: seq<Fit>, retrained: nat, skipped: nat)
    requires DistinctKeys(g.order) && forall ip :: ip in g.order <==> ip in g.lists
    ensures DistinctClients(fits)
    ensures forall f :: f in fits <==> f.ip in g.lists && f.vectors == g.lists[f.ip]
                                       && |f.vectors| >= MIN_SAMPLES_FOR_FIT
    ensures retrained == |fits| && retrained + skipped == |g.order|
  {
    fits, retrained, skipped := [], 0, 0;
    var i := 0;
    while i < |g.order|
      invariant 0 <= i <= |g.order|
      invariant fits == FitsOf(g.order[..i], g.lists)
      invariant retrained == |fits| && retrained + skipped == i
    {
      assert g.order[..i + 1][..i] == g.order[..i];
      var ip := g.order[i];
      if |g.lists[ip]| >= MIN_SAMPLES_FOR_FIT {
        fits := fits + [Fit(ip, g.lists[ip])];
        retrained := retrained + 1;
      } else {
        skipped := skipped + 1;
      }
      i := i + 1;
    }
    assert g.order[..i] == g.order;
    FitsAreTheFullClients(g.order, g.lists);
  }

  /** [fv for vectors in vectors_by_ip.values() for fv in vectors] */
  function Flatten(order: seq<string>, lists: map<string, seq<Value>>): seq<Value>
    requires forall ip :: ip in order ==> ip in lists
  {
    if order == [] then [] else lists[order[0]] + Flatten(order[1..], lists)
  }

  // ----- grouping loses nothing ------------------------------------------------------------------

  ghost predicate AllVectors(vs: seq<Value>) {
    forall v :: v in vs ==> v.Vector?
  }

  lemma {:induction false} AcceptedAreVectors(log: seq<Message>, cutoff: int)
    ensures AllVectors(AcceptedOf(log, cutoff))
  {
    if log != [] {
      AcceptedAreVectors(log[..|log| - 1], cutoff);
    }
  }

  lemma {:induction false} ClientShareCounts(vs: seq<Value>, ip: string, x: Value)
    requires AllVectors(vs)
    ensures multiset(ForClient(vs, ip))[x] == if x.Vector? && x.clientIp == ip then multiset(vs)[x] else 0
  {
    if vs != [] {
      var before, v := vs[..|vs| - 1], vs[|vs| - 1];
      assert vs == before + [v];
      ClientShareCounts(before, ip, x);
    }
  }

  lemma {:induction false} FlattenCounts(order: seq<string>, lists: map<string, seq<Value>>, vs: seq<Value>, x: Value)
    requires DistinctKeys(order) && AllVectors(vs) && x.Vector?
    requires forall ip :: ip in order ==> ip in lists && lists[ip] == ForClient(vs, ip)
    ensures multiset(Flatten(order, lists))[x] == if x.clientIp in order then multiset(vs)[x] else 0
  {
    if order != [] {
      FlattenCounts(order[1..], lists, vs, x);
      ClientShareCounts(vs, order[0], x);
      assert order == [order[0]] + order[1..];
    }
  }

  lemma {:induction false} FlattenHoldsVectors(order: seq<string>, lists: map<string, seq<Value>>, vs: seq<Value>)
    requires AllVectors(vs) && forall ip :: ip in order ==> ip in lists && lists[ip] == ForClient(vs, ip)
    ensures AllVectors(Flatten(order, lists))
  {
    if order != [] {
      FlattenHoldsVectors(order[1..], lists, vs);
      forall v | v in lists[order[0]] ensures v.Vector? {
        ClientShareCounts(vs, order[0], v);
        assert multiset(lists[order[0]])[v] > 0;
      }
    }
  }

  /** The flattened list is a permutation of the accepted vectors. */
  lemma FlattenIsPermutation(g: Groups, vs: seq<Value>)
    requires GroupsBy(g, vs) && AllVectors(vs)
    ensures multiset(Flatten(g.order, g.lists)) == multiset(vs)
  {
    FlattenHoldsVectors(g.order, g.lists, vs);
    var flat := Flatten(g.order, g.lists);
    forall x ensures multiset(flat)[x] == multiset(vs)[x] {
      if x.Vector? {
        FlattenCounts(g.order, g.lists, vs, x);
        ClientShareCounts(vs, x.clientIp, x);
      } else {
        assert x !in flat && x !in vs;
      }
    }
  }

  /** The whole job.  For any log: exactly the clients with enough accepted vectors are refitted, each
      once and on exactly its own accepted vectors in log order; and the baseline is refitted on a
      permutation of all accepted vectors, if there are enough. */
  method RetrainJob(log: seq<Message>, cutoff: int) returns (fits: seq<Fit>, baseline: seq<Value>)
    ensures var accepted := AcceptedBeforeError(log, cutoff);
            && DistinctClients(fits)
            && (forall f :: f in fits <==> f.vectors == ForClient(accepted, f.ip) && |f.vectors| >= 20)
            && multiset(baseline) == if |accepted| >= 20 then multiset(accepted) else multiset{}
  {
    ghost var accepted := AcceptedBeforeError(log, cutoff);
    var g, total := ConsumeFeatureVectors(log, cutoff);
    AcceptedAreVectors(log[..FirstRaise(log, cutoff, 0)], cutoff);
    FlattenIsPermutation(g, accepted);
    assert |Flatten(g.order, g.lists)| == |multiset(Flatten(g.order, g.lists))| == |multiset(accepted)| == |accepted|;
    if g.order == [] {
      assert forall ip :: ForClient(accepted, ip) == [];
      return [], [];
    }
    var retrained, skipped;
    fits, retrained, skipped := RetrainPerClient(g);
    var allVectors := Flatten(g.order, g.lists);
    baseline := if |allVectors| < MIN_SAMPLES_FOR_FIT then [] else allVectors;
  }
}
