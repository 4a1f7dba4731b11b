/**
 * Object-location memory: what a workload remembers of the nodes its pods lived on, how the
 * memory is written down, and how it is brought up to date.
 */
module Placement {
  import opened Base
  import opened Text
  import opened Sorting

  const MAX_REMEMBERED := 16

  datatype Kind = Deployment | ReplicaSet | StatefulSet

  /** Where the running pods are: node to ordinals. The ordinals matter for a StatefulSet only. */
  type Running = map<string, seq<int>>

  // ---------- Fading: keep every current home and the first others that fit ----------

  ghost function CurrentOf<T>(xs: seq<T>, current: set<T>): seq<T> {
    if xs == [] then []
    else (if xs[0] in current then [xs[0]] else []) + CurrentOf(xs[1..], current)
  }

  ghost function Keep<T>(xs: seq<T>, current: set<T>, room: nat): seq<T> {
    if xs == [] then []
    else if xs[0] in current then [xs[0]] + Keep(xs[1..], current, room)
    else if room > 0 then [xs[0]] + Keep(xs[1..], current, room - 1)
    else Keep(xs[1..], current, room)
  }

  /** How many homes that are not current still fit. */
  ghost function Room<T>(xs: seq<T>, current: set<T>): nat {
    var n := |CurrentOf(xs, current)|;
    if n >= MAX_REMEMBERED then 0 else MAX_REMEMBERED - n
  }

  ghost function Fit<T>(xs: seq<T>, current: set<T>): seq<T> {
    Keep(xs, current, Room(xs, current))
  }

  lemma CurrentCons<T>(x: T, xs: seq<T>, current: set<T>)
    ensures CurrentOf([x] + xs, current) == (if x in current then [x] else []) + CurrentOf(xs, current)
  {
    assert ([x] + xs)[1..] == xs;
  }

  lemma {:induction false} CurrentSplits<T>(a: seq<T>, b: seq<T>, current: set<T>)
    ensures CurrentOf(a + b, current) == CurrentOf(a, current) + CurrentOf(b, current)
  {
    if a == [] {
      assert a + b == b;
    } else {
      assert a + b == [a[0]] + (a[1..] + b);
      CurrentCons(a[0], a[1..] + b, current);
      CurrentSplits(a[1..], b, current);
    }
  }

  lemma {:induction false} KeepsNoOther<T>(xs: seq<T>, current: set<T>)
    ensures Keep(xs, current, 0) == CurrentOf(xs, current)
  {
    if xs == [] {
    } else {
      KeepsNoOther(xs[1..], current);
    }
  }

  lemma {:induction false} KeepsAll<T>(xs: seq<T>, current: set<T>, room: nat)
    requires |xs| - |CurrentOf(xs, current)| <= room
    ensures Keep(xs, current, room) == xs
  {
    if xs == [] {
    } else {
      CurrentIsShorter(xs[1..], current);
      KeepsAll(xs[1..], current, if xs[0] in current then room else room - 1);
    }
  }

  lemma {:induction false} CurrentIsShorter<T>(xs: seq<T>, current: set<T>)
    ensures |CurrentOf(xs, current)| <= |xs|
  {
    if xs == [] {
    } else {
      CurrentIsShorter(xs[1..], current);
    }
  }

  lemma KeepCons<T>(x: T, xs: seq<T>, current: set<T>, room: nat)
    ensures Keep([x] + xs, current, room) ==
            if x in current then [x] + Keep(xs, current, room)
            else if room > 0 then [x] + Keep(xs, current, room - 1)
            else Keep(xs, current, room)
  {
    assert ([x] + xs)[1..] == xs;
  }

  lemma {:induction false} KeepSplits<T>(a: seq<T>, b: seq<T>, current: set<T>, room: nat)
    requires |a| - |CurrentOf(a, current)| == room
    ensures Keep(a + b, current, room) == a + CurrentOf(b, current)
  {
    if a == [] {
      assert a + b == b;
      KeepsNoOther(b, current);
    } else {
      var x, rest := a[0], a[1..];
      var less := if x in current then room else room - 1;
      assert a == [x] + rest;
      CurrentCons(x, rest, current);
      CurrentIsShorter(rest, current);
      KeepSplits(rest, b, current, less);
      assert Keep(a + b, current, room) == [x] + Keep(rest + b, current, less) by {
        assert a + b == [x] + (rest + b);
        KeepCons(x, rest + b, current, room);
      }
      assert [x] + (rest + CurrentOf(b, current)) == a + CurrentOf(b, current);
    }
  }

  /** What deleting from the end has left once it has looked at the homes from the k-th on. */
  ghost function LeftAt<T>(xs: seq<T>, k: nat, current: set<T>): (left: seq<T>)
    requires k <= |xs|
    ensures |left| >= k
    decreases |xs| - k
  {
    if k == |xs| then xs
    else
      var left := LeftAt(xs, k + 1, current);
      if xs[k] in current then left else left[..k] + left[k + 1..]
  }

  lemma {:induction false} LeftIs<T>(xs: seq<T>, k: nat, current: set<T>)
    requires k <= |xs|
    ensures LeftAt(xs, k, current) == xs[..k] + CurrentOf(xs[k..], current)
    decreases |xs| - k
  {
    if k < |xs| {
      LeftIs(xs, k + 1, current);
      var tail := CurrentOf(xs[k + 1..], current);
      assert xs[k..] == [xs[k]] + xs[k + 1..];
      CurrentCons(xs[k], xs[k + 1..], current);
      var left := xs[..k] + [xs[k]] + tail;
      assert xs[..k + 1] + tail == left;
      assert left[..k] + left[k + 1..] == xs[..k] + tail;
    }
  }

  lemma LeftNext<T>(xs: seq<T>, k: nat, current: set<T>)
    requires k < |xs|
    ensures var left := LeftAt(xs, k + 1, current);
      && left[k] == xs[k]
      && LeftAt(xs, k, current) == if xs[k] in current then left else left[..k] + left[k + 1..]
  {
    LeftIs(xs, k + 1, current);
    hide CurrentOf;
  }

  /** Where deleting from the end stops, it has left exactly what fits. */
  lemma CountdownFits<T>(xs: seq<T>, k: nat, current: set<T>)
    requires k <= |xs|
    requires k == |xs| || |LeftAt(xs, k, current)| >= MAX_REMEMBERED
    requires k == 0 || |LeftAt(xs, k, current)| <= MAX_REMEMBERED
    ensures LeftAt(xs, k, current) == Fit(xs, current)
  {
    LeftIs(xs, k, current);
    var a, b := xs[..k], xs[k..];
    assert xs == a + b;
    CurrentSplits(a, b, current);
    CurrentIsShorter(a, current);
    CurrentIsShorter(b, current);
    if k + |CurrentOf(b, current)| > MAX_REMEMBERED {
      KeepsNoOther(xs, current);
    } else if k == |xs| {
      KeepsAll(xs, current, Room(xs, current));
    } else {
      KeepSplits(a, b, current, Room(xs, current));
    }
  }

  /** Everything current stays, nothing new appears, and the size is as announced. */
  lemma {:induction false} KeepFacts<T>(xs: seq<T>, current: set<T>, room: nat)
    ensures var ys := Keep(xs, current, room);
            var n := |CurrentOf(xs, current)|;
      && (forall x :: x in ys ==> x in xs)
      && (forall x :: x in xs && x in current ==> x in ys)
      && CurrentOf(ys, current) == CurrentOf(xs, current)
      && |ys| == (if |xs| - n <= room then |xs| else n + room)
      && (NoRepeats(xs) ==> NoRepeats(ys))
  {
    if xs == [] {
    } else {
      KeepFacts(xs[1..], current, room);
      CurrentIsShorter(xs[1..], current);
      if xs[0] !in current && room > 0 {
        KeepFacts(xs[1..], current, room - 1);
      }
      assert xs == [xs[0]] + xs[1..];
      assert NoRepeats(xs) ==> NoRepeats(xs[1..]) && xs[0] !in xs[1..];
    }
  }

  lemma FitFacts<T>(xs: seq<T>, current: set<T>)
    ensures var ys := Fit(xs, current);
      && (forall x :: x in ys ==> x in xs)
      && (forall x :: x in xs && x in current ==> x in ys)
      && CurrentOf(ys, current) == CurrentOf(xs, current)
      && (NoRepeats(xs) ==> NoRepeats(ys))
      && (|xs| <= MAX_REMEMBERED ==> ys == xs)
      && (|xs| > MAX_REMEMBERED ==>
            |ys| == if |CurrentOf(xs, current)| > MAX_REMEMBERED then |CurrentOf(xs, current)| else MAX_REMEMBERED)
      && Fit(ys, current) == ys
  {
    CurrentIsShorter(xs, current);
    KeepFacts(xs, current, Room(xs, current));
    if |xs| <= MAX_REMEMBERED {
      KeepsAll(xs, current, Room(xs, current));
    }
    var ys := Fit(xs, current);
    KeepsAll(ys, current, Room(ys, current));
  }

  /** Among the homes that are not current, the ones kept come before the ones let go. */
  lemma {:induction false} KeepsTheFirst(xs: seq<int>, current: set<int>, room: nat, kept: int, gone: int)
    requires Ascending(IntLe, xs) && NoRepeats(xs)
    requires kept in Keep(xs, current, room) && kept !in current
    requires gone in xs && gone !in Keep(xs, current, room)
    ensures kept < gone
  {
    KeepFacts(xs, current, room);
    var rest := xs[1..];
    assert xs == [xs[0]] + rest;
    assert gone != xs[0] || xs[0] !in current;
    if xs[0] !in current && room == 0 {
      KeepsNoOther(rest, current);
      OnlyCurrent(rest, current, kept);
    } else if kept == xs[0] {
      var i :| 0 <= i < |xs| && xs[i] == gone;
      assert IntLe(xs[0], xs[i]);
    } else {
      KeepsTheFirst(rest, current, if xs[0] in current then room else room - 1, kept, gone);
    }
  }

  /** The same in a list in any order: what is kept stands before what is let go. */
  lemma {:induction false} KeepsTheEarlier<T>(xs: seq<T>, current: set<T>, room: nat, kept: nat, gone: nat)
    requires NoRepeats(xs) && kept < |xs| && gone < |xs|
    requires xs[kept] in Keep(xs, current, room) && xs[kept] !in current && xs[gone] !in Keep(xs, current, room)
    ensures kept < gone
  {
    var rest := xs[1..];
    assert forall i :: 0 < i < |xs| ==> rest[i - 1] == xs[i];
    if xs[0] !in current && room == 0 {
      KeepsNoOther(rest, current);
      OnlyCurrent(rest, current, xs[kept]);
    } else if kept > 0 {
      assert xs[0] in Keep(xs, current, room);
      KeepsTheEarlier(rest, current, if xs[0] in current then room else room - 1, kept - 1, gone - 1);
    }
  }

  lemma {:induction false} OnlyCurrent<T>(xs: seq<T>, current: set<T>, x: T)
    requires x in CurrentOf(xs, current)
    ensures x in current && x in xs
  {
    if x != xs[0] || xs[0] !in current {
      OnlyCurrent(xs[1..], current, x);
    }
  }

  lemma {:induction false} CurrentCounts<T>(xs: seq<T>, current: set<T>)
    requires NoRepeats(xs)
    ensures |CurrentOf(xs, current)| <= |current|
  {
    if xs == [] {
    } else {
      assert NoRepeats(xs[1..]) && xs[0] !in xs[1..];
      if xs[0] in current {
        forall x | x in xs[1..] ensures x in current - {xs[0]} <==> x in current {}
        SameCurrent(xs[1..], current, current - {xs[0]});
        CurrentCounts(xs[1..], current - {xs[0]});
      } else {
        CurrentCounts(xs[1..], current);
      }
    }
  }

  lemma {:induction false} SameCurrent<T>(xs: seq<T>, a: set<T>, b: set<T>)
    requires forall x :: x in xs ==> (x in a <==> x in b)
    ensures CurrentOf(xs, a) == CurrentOf(xs, b)
  {
    if xs == [] {
    } else {
      SameCurrent(xs[1..], a, b);
    }
  }

  // ---------- Deployments and ReplicaSets: a list of nodes, most recent first ----------

  function Decode(value: string): seq<string> {
    if value == "" then [] else Split(value, ',')
  }

  function Encode(nodes: seq<string>): string {
    Join(nodes, ',')
  }

  function Elements<T>(xs: seq<T>): set<T> {
    set x | x in xs
  }

  ghost function Sorted(nodes: set<string>): (r: seq<string>)
    ensures |r| == |nodes| && NoRepeats(r) && forall x :: x in r <==> x in nodes
  {
    StringOrder();
    ListingOf(StringLe, nodes);
    Listing(StringLe, nodes)
  }

  /** New homes first, in order of name; then what was remembered; as much as fits. */
  ghost function RecalledNodes(previous: seq<string>, current: set<string>): seq<string> {
    Fit(Sorted(current - Elements(previous)) + previous, current)
  }

  /** The running nodes that are not remembered yet, in order of name. */
  method NewHomes(previous: seq<string>, running: Running) returns (added: seq<string>)
    ensures added == Sorted(running.Keys - Elements(previous))
  {
    var known := Elements(previous);
    ghost var newcomers := running.Keys - known;
    added := [];
    var rest := running.Keys;
    assert newcomers - rest == {};
    while rest != {}
      invariant rest <= running.Keys
      invariant multiset(added) == multiset(newcomers - rest)
    {
      var node :| node in rest;
      ghost var done := newcomers - rest;
      rest := rest - {node};
      if node !in known {
        assert newcomers - rest == done + {node};
        added := added + [node];
      } else {
        assert newcomers - rest == done;
      }
    }
    assert newcomers - rest == newcomers;
    StringOrder();
    SortIsListing(StringLe, added, newcomers);
    added := Sort(StringLe, added);
  }

  /** Deletes from the end, over the running nodes, until the rest fits. */
  method FadeNodes(all: seq<string>, running: Running) returns (nodes: seq<string>)
    ensures nodes == Fit(all, running.Keys)
  {
    nodes := all;
    var i := |nodes| - 1;
    assert LeftAt(all, |all|, running.Keys) == all;
    hide LeftAt;
    hide Fit;
    while i >= 0 && |nodes| > MAX_REMEMBERED
      invariant -1 <= i < |all|
      invariant nodes == LeftAt(all, i + 1, running.Keys)
      invariant i + 1 == |all| || |nodes| >= MAX_REMEMBERED
      decreases i
    {
      LeftNext(all, i, running.Keys);
      if nodes[i] !in running {
        nodes := nodes[..i] + nodes[i + 1..];
      }
      i := i - 1;
    }
    CountdownFits(all, i + 1, running.Keys);
  }

  method RecallNodes(previous: seq<string>, running: Running) returns (value: string)
    ensures value == Encode(RecalledNodes(previous, running.Keys))
  {
    var added := NewHomes(previous, running);
    var nodes := FadeNodes(added + previous, running);
    value := Encode(nodes);
  }

  // ---------- StatefulSets: a node for each ordinal ----------

  /** "ordinal=node"; anything else is not a pair. */
  function ParsePair(pair: string): Option<(int, string)> {
    var i := IndexOf(pair, '=');
    if i == |pair| then None
    else match Atoi(pair[..i])
      case None => None
      case Some(n) => if pair[i + 1..] == "" then None else Some((n, pair[i + 1..]))
  }

  function DecodePairs(pairs: seq<string>): map<int, string> {
    if pairs == [] then map[]
    else
      var m := DecodePairs(pairs[..|pairs| - 1]);
      match ParsePair(pairs[|pairs| - 1])
      case Some((n, node)) => m[n := node]
      case None => m
  }

  /** What a StatefulSet's annotation says. */
  function OrdinalsIn(value: string): map<int, string> {
    DecodePairs(Decode(value))
  }

  method DecodeOrdinals(value: string) returns (m: map<int, string>)
    ensures m == OrdinalsIn(value)
  {
    m := map[];
    if value == "" {
      return;
    }
    var pairs := Split(value, ',');
    for i := 0 to |pairs|
      invariant m == DecodePairs(pairs[..i])
    {
      assert pairs[..i + 1][..i] == pairs[..i];
      var pair := ParsePair(pairs[i]);
      if pair.Some? {
        m := m[pair.value.0 := pair.value.1];
      }
    }
    assert pairs[..|pairs|] == pairs;
  }

  ghost function SortedOrdinals(ords: set<int>): (r: seq<int>)
    ensures Ascending(IntLe, r) && |r| == |ords| && NoRepeats(r) && forall x :: x in r <==> x in ords
  {
    IntOrder();
    ListingOf(IntLe, ords);
    Listing(IntLe, ords)
  }

  function PairOf(o: int, node: string): string {
    Itoa(o) + "=" + node
  }

  function Pairs(ords: seq<int>, m: map<int, string>): (pairs: seq<string>)
    requires Elements(ords) <= m.Keys
    ensures |pairs| == |ords|
  {
    if ords == [] then []
    else
      var n := |ords| - 1;
      assert ords[n] in Elements(ords) && Elements(ords[..n]) <= Elements(ords);
      Pairs(ords[..n], m) + [PairOf(ords[n], m[ords[n]])]
  }

  /** How a StatefulSet's memory is written. */
  ghost function OrdinalsValue(m: map<int, string>): string {
    Join(Pairs(SortedOrdinals(m.Keys), m), ',')
  }

  method EncodeOrdinals(m: map<int, string>) returns (value: string)
    ensures value == OrdinalsValue(m)
  {
    var ords := SortedKeys(m);
    assert Elements(ords) == m.Keys;
    var pairs: seq<string> := [];
    for i := 0 to |ords|
      invariant Elements(ords[..i]) <= m.Keys && pairs == Pairs(ords[..i], m)
    {
      assert ords[..i + 1][..i] == ords[..i] && ords[i] in Elements(ords);
      pairs := pairs + [PairOf(ords[i], m[ords[i]])];
    }
    assert ords[..|ords|] == ords;
    value := Join(pairs, ',');
  }

  method SortedKeys(m: map<int, string>) returns (ords: seq<int>)
    ensures ords == SortedOrdinals(m.Keys)
  {
    ords := Range(m.Keys);
    IntOrder();
    SortIsListing(IntLe, ords, m.Keys);
    ords := Sort(IntLe, ords);
  }

  ghost function OrdinalsAt(running: Running, nodes: set<string>): set<int> {
    set node, o | node in nodes && node in running && o in running[node] :: o
  }

  ghost function Ordinals(running: Running): set<int> {
    OrdinalsAt(running, running.Keys)
  }

  /** An ordinal is one pod, so it runs on one node. */
  ghost predicate OneHomeEach(running: Running) {
    forall a, b, o :: a in running && b in running && o in running[a] && o in running[b] ==> a == b
  }

  ghost function HomeOf(running: Running, o: int): (node: string)
    requires o in Ordinals(running)
    ensures node in running && o in running[node]
  {
    var node :| node in running && o in running[node];
    node
  }

  ghost function Homes(running: Running): map<int, string> {
    map o | o in Ordinals(running) :: HomeOf(running, o)
  }

  /** Every running ordinal where it runs now; then the lowest others that fit. */
  ghost function KeptOrdinals(m: map<int, string>, running: Running): seq<int> {
    Fit(SortedOrdinals((m + Homes(running)).Keys), Ordinals(running))
  }

  ghost function Only(m: map<int, string>, ords: set<int>): map<int, string> {
    map o | o in m && o in ords :: m[o]
  }

  ghost function RecalledOrdinals(m: map<int, string>, running: Running): map<int, string> {
    Only(m + Homes(running), Elements(KeptOrdinals(m, running)))
  }

  method Merge(m: map<int, string>, running: Running) returns (merged: map<int, string>, current: set<int>)
    requires OneHomeEach(running)
    ensures merged == m + Homes(running) && current == Ordinals(running)
  {
    merged, current := m, {};
    var rest := running.Keys;
    while rest != {}
      invariant rest <= running.Keys
      invariant current == OrdinalsAt(running, running.Keys - rest)
      invariant MergedSoFar(m, running, current, merged)
    {
      var node :| node in rest;
      ghost var before := current;
      merged, current := MergeNode(m, running, node, merged, current);
      assert running.Keys - (rest - {node}) == (running.Keys - rest) + {node};
      assert OrdinalsAt(running, (running.Keys - rest) + {node}) == before + Elements(running[node]);
      rest := rest - {node};
    }
    assert running.Keys - {} == running.Keys;
    AllMerged(m, running, current, merged);
  }

  lemma AllMerged(m: map<int, string>, running: Running, current: set<int>, merged: map<int, string>)
    requires MergedSoFar(m, running, current, merged) && current == Ordinals(running)
    ensures merged == m + Homes(running)
  {
    var homes := Homes(running);
    assert homes.Keys == current;
    assert (m + homes).Keys == merged.Keys;
    forall o | o in merged
      ensures merged[o] == (m + homes)[o]
    {
    }
  }

  method MergeNode(ghost m: map<int, string>, running: Running, node: string, merged: map<int, string>,
                   current: set<int>)
    returns (merged': map<int, string>, current': set<int>)
    requires OneHomeEach(running) && node in running && MergedSoFar(m, running, current, merged)
    ensures current' == current + Elements(running[node]) && MergedSoFar(m, running, current', merged')
  {
    merged', current' := merged, current;
    var ords := running[node];
    for k := 0 to |ords|
      invariant current' == current + Elements(ords[..k])
      invariant MergedSoFar(m, running, current', merged')
    {
      RunsThere(running, node, ords[k]);
      assert Elements(ords[..k + 1]) == Elements(ords[..k]) + {ords[k]};
      merged' := merged'[ords[k] := node];
      current' := current' + {ords[k]};
    }
    assert ords[..|ords|] == ords;
  }

  lemma RunsThere(running: Running, node: string, o: int)
    requires OneHomeEach(running) && node in running && o in running[node]
    ensures o in Ordinals(running) && HomeOf(running, o) == node
  {
    assert node in running.Keys;
  }

  ghost predicate MergedSoFar(m: map<int, string>, running: Running, current: set<int>, merged: map<int, string>) {
    && current <= Ordinals(running)
    && merged.Keys == m.Keys + current
    && forall o :: o in merged ==> merged[o] == if o in current then HomeOf(running, o) else m[o]
  }

  /** Deletes from the highest ordinal down what does not run, until the rest fits. */
  method FadeOrdinals(merged: map<int, string>, ords: seq<int>, current: set<int>) returns (m: map<int, string>)
    requires |ords| == |merged| && Elements(ords) == merged.Keys
    ensures m == Only(merged, Elements(Fit(ords, current)))
  {
    m := merged;
    var i := |ords| - 1;
    while i >= 0 && |m| > MAX_REMEMBERED
      invariant -1 <= i < |ords|
      invariant m == FadedTo(merged, ords, i + 1, current)
      invariant i + 1 == |ords| || |m| >= MAX_REMEMBERED
      decreases i
    {
      if ords[i] !in current {
        OneLess(merged, ords, i, current);
        m := m - {ords[i]};
      }
      i := i - 1;
    }
    FadedFits(merged, ords, i + 1, current);
  }

  /** What is left once the ordinals from the k-th on have been looked at, highest first. */
  ghost function FadedTo(merged: map<int, string>, ords: seq<int>, k: nat, current: set<int>): map<int, string>
    requires k <= |ords|
    decreases |ords| - k
  {
    if k == |ords| then merged
    else
      var m := FadedTo(merged, ords, k + 1, current);
      if ords[k] in current then m else m - {ords[k]}
  }

  lemma {:induction false} FadedListed(merged: map<int, string>, ords: seq<int>, k: nat, current: set<int>)
    requires k <= |ords| && NoRepeats(ords) && Elements(ords) == merged.Keys
    ensures Listed(merged, LeftAt(ords, k, current), FadedTo(merged, ords, k, current))
    decreases |ords| - k
  {
    if k == |ords| {
      Distinct(ords);
      assert Only(merged, merged.Keys) == merged;
    } else {
      FadedListed(merged, ords, k + 1, current);
      if ords[k] !in current {
        var left := LeftAt(ords, k + 1, current);
        LeftNext(ords, k, current);
        Unlist(merged, left, FadedTo(merged, ords, k + 1, current), k);
      }
    }
  }

  lemma OneLess(merged: map<int, string>, ords: seq<int>, i: nat, current: set<int>)
    requires i < |ords| == |merged| && Elements(ords) == merged.Keys && ords[i] !in current
    ensures |FadedTo(merged, ords, i, current)| == |FadedTo(merged, ords, i + 1, current)| - 1
  {
    AllDifferent(ords);
    FadedListed(merged, ords, i, current);
    FadedListed(merged, ords, i + 1, current);
  }

  lemma FadedFits(merged: map<int, string>, ords: seq<int>, k: nat, current: set<int>)
    requires k <= |ords| == |merged| && Elements(ords) == merged.Keys
    requires k == |ords| || |FadedTo(merged, ords, k, current)| >= MAX_REMEMBERED
    requires k == 0 || |FadedTo(merged, ords, k, current)| <= MAX_REMEMBERED
    ensures FadedTo(merged, ords, k, current) == Only(merged, Elements(Fit(ords, current)))
  {
    AllDifferent(ords);
    FadedListed(merged, ords, k, current);
    CountdownFits(ords, k, current);
  }

  /** As many different elements as places: no repeats. */
  lemma {:induction false} AllDifferent<T>(xs: seq<T>)
    requires |Elements(xs)| == |xs|
    ensures NoRepeats(xs)
  {
    if xs == [] {
    } else {
      assert Elements(xs) == Elements(xs[1..]) + {xs[0]};
      ManyAtMost(xs[1..]);
      AllDifferent(xs[1..]);
    }
  }

  lemma {:induction false} ManyAtMost<T>(xs: seq<T>)
    ensures |Elements(xs)| <= |xs|
  {
    if xs == [] {
    } else {
      ManyAtMost(xs[1..]);
      assert Elements(xs) == Elements(xs[1..]) + {xs[0]};
    }
  }

  lemma {:induction false} Distinct<T>(xs: seq<T>)
    requires NoRepeats(xs)
    ensures |Elements(xs)| == |xs|
  {
    if xs == [] {
    } else {
      Distinct(xs[1..]);
      assert xs[0] !in xs[1..];
      assert Elements(xs) == Elements(xs[1..]) + {xs[0]};
    }
  }

  ghost predicate Listed(merged: map<int, string>, left: seq<int>, m: map<int, string>) {
    NoRepeats(left) && |m| == |left| && Elements(left) <= merged.Keys && m == Only(merged, Elements(left))
  }

  lemma Unlist(merged: map<int, string>, left: seq<int>, m: map<int, string>, i: nat)
    requires Listed(merged, left, m) && i < |left|
    ensures Listed(merged, left[..i] + left[i + 1..], m - {left[i]})
  {
    var o := left[i];
    assert o in Elements(left);
    assert o in m && |m - {o}| == |m| - 1 by {
      assert (m - {o}).Keys == m.Keys - {o};
    }
    WithoutOne(left, i);
    assert m - {o} == Only(merged, Elements(left) - {o});
  }

  lemma WithoutOne<T>(xs: seq<T>, i: nat)
    requires i < |xs| && NoRepeats(xs)
    ensures var ys := xs[..i] + xs[i + 1..];
            NoRepeats(ys) && Elements(ys) == Elements(xs) - {xs[i]}
  {
    var ys := xs[..i] + xs[i + 1..];
    forall x
      ensures x in ys <==> x in xs && x != xs[i]
    {
      if x in xs && x != xs[i] {
        var k :| 0 <= k < |xs| && xs[k] == x;
        assert if k < i then ys[k] == x else ys[k - 1] == x;
      }
    }
  }

  method RecallOrdinals(previous: map<int, string>, running: Running) returns (value: string)
    requires OneHomeEach(running)
    ensures value == OrdinalsValue(RecalledOrdinals(previous, running))
  {
    var merged, current := Merge(previous, running);
    var ords := SortedKeys(merged);
    assert Elements(ords) == merged.Keys && |merged.Keys| == |merged|;
    var m := FadeOrdinals(merged, ords, current);
    value := EncodeOrdinals(m);
  }

  // ---------- Recall ----------

  /** The annotation that the present one and the running pods give. */
  ghost function Recalled(kind: Kind, previous: string, running: Running): string {
    if |running| > MAX_REMEMBERED then ""
    else if kind.StatefulSet? then OrdinalsValue(RecalledOrdinals(OrdinalsIn(previous), running))
    else Encode(RecalledNodes(Decode(previous), running.Keys))
  }

  method Recall(kind: Kind, previous: string, running: Running) returns (value: string)
    requires kind.StatefulSet? ==> OneHomeEach(running)
    ensures value == Recalled(kind, previous, running)
  {
    if |running| > MAX_REMEMBERED {
      return "";
    }
    if kind.StatefulSet? {
      var m := DecodeOrdinals(previous);
      value := RecallOrdinals(m, running);
    } else {
      value := RecallNodes(Decode(previous), running);
    }
  }

  // ---------- What memory promises ----------

  /** Node names are non-empty and hold no comma; ordinals are ints, each on one node. */
  ghost predicate ProperNodes(running: Running) {
    forall node :: node in running ==> node != "" && ',' !in node
  }

  ghost predicate Proper(kind: Kind, running: Running) {
    && ProperNodes(running)
    && (kind.StatefulSet? ==> OneHomeEach(running) && forall o :: o in Ordinals(running) ==> MIN_INT <= o <= MAX_INT)
  }

  /** Nodes with names that can be written down come back as they were. */
  lemma DecodeOfEncode(nodes: seq<string>)
    requires nodes != [""] && forall n :: n in nodes ==> ',' !in n
    ensures Decode(Encode(nodes)) == nodes
  {
    if nodes != [] {
      SplitOfJoin(nodes, ',');
      if Encode(nodes) == "" {
        SplitParts("", ',');
      }
    }
  }

  lemma DecodeParts(value: string)
    ensures Decode(value) != [""] && forall n :: n in Decode(value) ==> ',' !in n
  {
    SplitParts(value, ',');
  }

  /** A memory without repeats stays so, within bounds, and holds every current home. */
  lemma NodesBounded(previous: seq<string>, current: set<string>)
    requires |current| <= MAX_REMEMBERED
    ensures var r := RecalledNodes(previous, current);
      && (NoRepeats(previous) ==> NoRepeats(r) && |r| <= MAX_REMEMBERED)
      && (forall node :: node in current ==> node in r)
      && (forall node :: node in r ==> node in current || node in previous)
  {
    var added := Sorted(current - Elements(previous));
    var xs := added + previous;
    FitFacts(xs, current);
    if NoRepeats(previous) {
      forall i, j | 0 <= i < j < |xs|
        ensures xs[i] != xs[j]
      {
        if i < |added| <= j {
          assert xs[i] in added && xs[j] in previous;
        }
      }
      CurrentCounts(xs, current);
    }
    forall node | node in current
      ensures node in xs
    {
      assert node in added || node in previous;
    }
  }

  /** The oldest homes fade first: of those remembered that do not run, the ones kept come first. */
  lemma OldestFade(previous: seq<string>, current: set<string>, kept: nat, gone: nat)
    requires NoRepeats(previous) && kept < |previous| && gone < |previous| && previous[kept] !in current
    requires previous[kept] in RecalledNodes(previous, current) && previous[gone] !in RecalledNodes(previous, current)
    ensures kept < gone
  {
    var added := Sorted(current - Elements(previous));
    var xs := added + previous;
    forall i, j | 0 <= i < j < |xs|
      ensures xs[i] != xs[j]
    {
      if i < |added| <= j {
        assert xs[i] in added && xs[j] in previous;
      }
    }
    KeepsTheEarlier(xs, current, Room(xs, current), |added| + kept, |added| + gone);
  }

  lemma NodesIdempotent(previous: seq<string>, current: set<string>)
    requires |current| <= MAX_REMEMBERED
    ensures var r := RecalledNodes(previous, current); RecalledNodes(r, current) == r
  {
    var r := RecalledNodes(previous, current);
    NodesBounded(previous, current);
    FitFacts(Sorted(current - Elements(previous)) + previous, current);
    assert current - Elements(r) == {};
    assert Sorted({}) + r == r;
  }

  lemma NodesAreWritable(previous: string, running: Running)
    requires ProperNodes(running) && |running| <= MAX_REMEMBERED
    ensures var r := RecalledNodes(Decode(previous), running.Keys);
            r != [""] && forall n :: n in r ==> ',' !in n
  {
    DecodeParts(previous);
    NodesBounded(Decode(previous), running.Keys);
    var r := RecalledNodes(Decode(previous), running.Keys);
    var added := Sorted(running.Keys - Elements(Decode(previous)));
    FitFacts(added + Decode(previous), running.Keys);
    assert "" !in added;
    assert r == [""] ==> r == added + Decode(previous);
    assert added + Decode(previous) == [""] ==> added == [] by {
      assert added != [] ==> (added + Decode(previous))[0] == added[0];
    }
    assert [] + Decode(previous) == Decode(previous);
  }

  lemma PairParses(o: int, node: string)
    requires MIN_INT <= o <= MAX_INT && node != ""
    ensures ParsePair(PairOf(o, node)) == Some((o, node))
  {
    var pair, n := PairOf(o, node), |Itoa(o)|;
    ItoaChars(o);
    AtoiOfItoa(o);
    assert forall k :: 0 <= k < n ==> pair[k] == Itoa(o)[k] && Itoa(o)[k] in Itoa(o);
    assert pair[n] == '=';
    assert IndexOf(pair, '=') == n;
    assert pair[..n] == Itoa(o) && pair[n + 1..] == node;
  }

  lemma OnePairMore(pairs: seq<string>, o: int, node: string)
    requires MIN_INT <= o <= MAX_INT && node != ""
    ensures DecodePairs(pairs + [PairOf(o, node)]) == DecodePairs(pairs)[o := node]
  {
    PairParses(o, node);
    assert (pairs + [PairOf(o, node)])[..|pairs|] == pairs;
  }

  lemma {:induction false} DecodePairsOf(ords: seq<int>, m: map<int, string>)
    requires Elements(ords) <= m.Keys && Writable(m)
    ensures DecodePairs(Pairs(ords, m)) == Only(m, Elements(ords))
  {
    if ords == [] {
    } else {
      var n := |ords| - 1;
      LastElement(ords);
      DecodePairsOf(ords[..n], m);
      OnePairMore(Pairs(ords[..n], m), ords[n], m[ords[n]]);
      OnlyOneMore(m, Elements(ords[..n]), ords[n]);
    }
  }

  lemma LastElement<T>(xs: seq<T>)
    requires xs != []
    ensures var n := |xs| - 1;
            xs[n] in Elements(xs) && Elements(xs) == Elements(xs[..n]) + {xs[n]}
  {
    assert xs == xs[..|xs| - 1] + [xs[|xs| - 1]];
  }

  lemma OnlyOneMore(m: map<int, string>, ords: set<int>, o: int)
    requires o in m
    ensures Only(m, ords + {o}) == Only(m, ords)[o := m[o]]
  {
  }

  lemma {:induction false} PairsAreProper(ords: seq<int>, m: map<int, string>)
    requires Elements(ords) <= m.Keys && Writable(m)
    ensures forall p :: p in Pairs(ords, m) ==> ',' !in p && p != ""
  {
    if ords == [] {
    } else {
      var n := |ords| - 1;
      LastElement(ords);
      PairsAreProper(ords[..n], m);
      ItoaChars(ords[n]);
    }
  }

  ghost predicate Writable(m: map<int, string>) {
    forall o :: o in m ==> MIN_INT <= o <= MAX_INT && m[o] != "" && ',' !in m[o]
  }

  /** A StatefulSet's memory comes back as it was written. */
  lemma OrdinalsRoundTrip(m: map<int, string>)
    requires Writable(m)
    ensures OrdinalsIn(OrdinalsValue(m)) == m
  {
    var ords := SortedOrdinals(m.Keys);
    assert Elements(ords) == m.Keys;
    DecodePairsOf(ords, m);
    OnlyAll(m);
    PairsAreProper(ords, m);
    DecodeOfEncode(Pairs(ords, m));
  }

  /** The ordinals remembered are exactly the ones kept, without repeats and in order. */
  lemma RecalledShape(m: map<int, string>, running: Running)
    ensures var kept := KeptOrdinals(m, running);
            var r := RecalledOrdinals(m, running);
      && NoRepeats(kept) && Ascending(IntLe, kept)
      && r.Keys == Elements(kept) && |r| == |kept|
      && (forall o :: o in Ordinals(running) ==> o in r && r[o] == HomeOf(running, o))
  {
    var ords := SortedOrdinals((m + Homes(running)).Keys);
    var kept := KeptOrdinals(m, running);
    var r := RecalledOrdinals(m, running);
    FitFacts(ords, Ordinals(running));
    KeepAscends(ords, Ordinals(running), Room(ords, Ordinals(running)));
    assert r.Keys == Elements(kept);
    Distinct(kept);
    forall o | o in Ordinals(running)
      ensures o in r && r[o] == HomeOf(running, o)
    {
      assert o in ords;
    }
  }

  /**
   * Every running ordinal keeps its current node, every other keeps the one it had, and no
   * more than the larger of the bound and the running ordinals are remembered.
   */
  lemma OrdinalsKept(m: map<int, string>, running: Running)
    requires OneHomeEach(running)
    ensures var r := RecalledOrdinals(m, running);
            var current := Ordinals(running);
      && (forall node, o :: node in running && o in running[node] ==> o in r && r[o] == node)
      && (forall o :: o in r && o !in current ==> o in m && r[o] == m[o])
      && |r| <= (if |current| > MAX_REMEMBERED then |current| else MAX_REMEMBERED)
  {
    var current := Ordinals(running);
    var ords := SortedOrdinals((m + Homes(running)).Keys);
    var r := RecalledOrdinals(m, running);
    RecalledShape(m, running);
    FitFacts(ords, current);
    CurrentCounts(ords, current);
    forall node, o | node in running && o in running[node]
      ensures o in r && r[o] == node
    {
      RunsThere(running, node, o);
    }
  }

  /** Only the highest of the ordinals that do not run fade. */
  lemma HighestFade(m: map<int, string>, running: Running, kept: int, gone: int)
    requires kept in RecalledOrdinals(m, running) && kept !in Ordinals(running)
    requires gone in m && gone !in RecalledOrdinals(m, running)
    ensures kept < gone
  {
    var current := Ordinals(running);
    var ords := SortedOrdinals((m + Homes(running)).Keys);
    RecalledShape(m, running);
    KeepsTheFirst(ords, current, Room(ords, current), kept, gone);
  }

  lemma OrdinalsIdempotent(m: map<int, string>, running: Running)
    requires OneHomeEach(running)
    ensures var r := RecalledOrdinals(m, running); RecalledOrdinals(r, running) == r
  {
    var r := RecalledOrdinals(m, running);
    var kept := KeptOrdinals(m, running);
    RecalledShape(m, running);
    FitFacts(SortedOrdinals((m + Homes(running)).Keys), Ordinals(running));
    IntOrder();
    OnlyListing(IntLe, kept, r.Keys);
    NothingToDo(r, running);
  }

  lemma NothingToDo(r: map<int, string>, running: Running)
    requires forall o :: o in Ordinals(running) ==> o in r && r[o] == HomeOf(running, o)
    requires Fit(SortedOrdinals(r.Keys), Ordinals(running)) == SortedOrdinals(r.Keys)
    ensures RecalledOrdinals(r, running) == r
  {
    SameWithHomes(r, running);
    var ords := SortedOrdinals(r.Keys);
    assert KeptOrdinals(r, running) == ords;
    assert Elements(ords) == r.Keys;
    OnlyAll(r);
  }

  lemma SameWithHomes(r: map<int, string>, running: Running)
    requires forall o :: o in Ordinals(running) ==> o in r && r[o] == HomeOf(running, o)
    ensures r + Homes(running) == r
  {
    var homes := Homes(running);
    assert homes.Keys <= r.Keys;
    assert (r + homes).Keys == r.Keys;
  }

  lemma OnlyAll(m: map<int, string>)
    ensures Only(m, m.Keys) == m
  {
  }

  lemma {:induction false} KeepAscends(xs: seq<int>, current: set<int>, room: nat)
    requires Ascending(IntLe, xs)
    ensures Ascending(IntLe, Keep(xs, current, room))
  {
    if xs == [] {
    } else {
      var x, rest := xs[0], xs[1..];
      var left := if x in current || room == 0 then room else room - 1;
      var kept := Keep(rest, current, left);
      KeepAscends(rest, current, left);
      KeepFacts(rest, current, left);
      forall y | y in kept
        ensures IntLe(x, y)
      {
        var i :| 0 <= i < |rest| && rest[i] == y;
        assert xs[i + 1] == y;
      }
      assert Keep(xs, current, room) == [x] + kept || Keep(xs, current, room) == kept;
    }
  }

  lemma DecodedIsWritable(previous: string)
    ensures Writable(OrdinalsIn(previous))
  {
    DecodeParts(previous);
    PairsAreWritable(Decode(previous));
  }

  lemma {:induction false} PairsAreWritable(pairs: seq<string>)
    requires forall p :: p in pairs ==> ',' !in p
    ensures Writable(DecodePairs(pairs))
  {
    if pairs == [] {
    } else {
      var n := |pairs| - 1;
      PairsAreWritable(pairs[..n]);
      assert pairs[n] in pairs;
    }
  }

  lemma OrdinalsValueIdempotent(previous: string, running: Running)
    requires Proper(StatefulSet, running)
    ensures var value := OrdinalsValue(RecalledOrdinals(OrdinalsIn(previous), running));
            OrdinalsValue(RecalledOrdinals(OrdinalsIn(value), running)) == value
  {
    var m := OrdinalsIn(previous);
    DecodedIsWritable(previous);
    OrdinalsRoundTrip(RecalledOrdinals(m, running));
    OrdinalsIdempotent(m, running);
  }

  lemma NodesValueIdempotent(previous: string, running: Running)
    requires ProperNodes(running) && |running| <= MAX_REMEMBERED
    ensures var value := Encode(RecalledNodes(Decode(previous), running.Keys));
            Encode(RecalledNodes(Decode(value), running.Keys)) == value
  {
    NodesAreWritable(previous, running);
    DecodeOfEncode(RecalledNodes(Decode(previous), running.Keys));
    NodesIdempotent(Decode(previous), running.Keys);
  }

  /** Bringing the memory up to date a second time, on an unchanged cluster, changes no character of it. */
  lemma RecallIsIdempotent(kind: Kind, previous: string, running: Running)
    requires Proper(kind, running)
    ensures var value := Recalled(kind, previous, running);
            Recalled(kind, value, running) == value
  {
    if |running| <= MAX_REMEMBERED {
      if kind.StatefulSet? {
        OrdinalsValueIdempotent(previous, running);
      } else {
        NodesValueIdempotent(previous, running);
      }
    }
  }
}
