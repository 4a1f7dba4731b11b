/** What the annotation says after a recall, told from what it said before and where the pods run. */
module PlacementValues {
  import opened Base
  import opened Placement
  import opened Sorting
  import opened Text

  // ---------- A list of nodes: the new homes, and then the remembered ones ----------

  /** Nodes are read between commas. */
  lemma NodesAreRead(first: string, rest: string)
    requires ',' !in first
    ensures Decode("") == []
    ensures first != "" ==> Decode(first) == [first]
    ensures rest != "" ==> Decode(first + "," + rest) == [first] + Decode(rest)
  {
    SplitWithout(first, ',');
    SplitFirst(first, rest, ',');
  }

  ghost predicate Increasing(at: seq<nat>) {
    forall i, j :: 0 <= i < j < |at| ==> at[i] < at[j]
  }

  /** Where the homes stand that are kept, when the first one stands at `from`. */
  ghost function KeptAt<T>(xs: seq<T>, current: set<T>, room: nat, from: nat): seq<nat> {
    if xs == [] then []
    else if xs[0] in current then [from] + KeptAt(xs[1..], current, room, from + 1)
    else if room > 0 then [from] + KeptAt(xs[1..], current, room - 1, from + 1)
    else KeptAt(xs[1..], current, room, from + 1)
  }

  /** These are places of the list, in order, and what stands there is what is kept. */
  ghost predicate Picks<T>(xs: seq<T>, from: nat, at: seq<nat>, ys: seq<T>) {
    && |at| == |ys| && Increasing(at)
    && forall k :: 0 <= k < |at| ==> from <= at[k] < from + |xs| && ys[k] == xs[at[k] - from]
  }

  lemma PickedLater<T>(x: T, xs: seq<T>, from: nat, at: seq<nat>, ys: seq<T>)
    requires Picks(xs, from + 1, at, ys)
    ensures Picks([x] + xs, from, at, ys)
    ensures Picks([x] + xs, from, [from] + at, [x] + ys)
  {
    var all, more, picked := [x] + xs, [from] + at, [x] + ys;
    forall k | 0 <= k < |at|
      ensures from <= at[k] < from + |all| && ys[k] == all[at[k] - from]
    {
    }
    forall k | 0 <= k < |more|
      ensures from <= more[k] < from + |all| && picked[k] == all[more[k] - from]
    {
    }
    assert forall j :: 0 < j < |more| ==> more[j] == at[j - 1];
  }

  lemma {:induction false} KeptArePicked<T>(xs: seq<T>, current: set<T>, room: nat, from: nat)
    ensures Picks(xs, from, KeptAt(xs, current, room, from), Keep(xs, current, room))
  {
    if xs == [] {
    } else {
      var left := if xs[0] in current || room == 0 then room else room - 1;
      KeptArePicked(xs[1..], current, left, from + 1);
      PickedLater(xs[0], xs[1..], from, KeptAt(xs[1..], current, left, from + 1), Keep(xs[1..], current, left));
      hide Picks;
      assert xs == [xs[0]] + xs[1..];
    }
  }

  lemma {:induction false} KeptWithoutRoom<T>(xs: seq<T>, current: set<T>, from: nat)
    ensures forall k :: k in KeptAt(xs, current, 0, from) ==> from <= k < from + |xs| && xs[k - from] in current
  {
    if xs == [] {
    } else {
      KeptWithoutRoom(xs[1..], current, from + 1);
    }
  }

  /** A home that is let go does not run, and neither does any after it that is kept. */
  lemma {:induction false} GoneAt<T>(xs: seq<T>, current: set<T>, room: nat, from: nat, p: nat)
    requires p < |xs| && from + p !in KeptAt(xs, current, room, from)
    ensures xs[p] !in current
    ensures forall q :: p < q < |xs| && xs[q] !in current ==> from + q !in KeptAt(xs, current, room, from)
  {
    var rest := xs[1..];
    assert forall i :: 0 < i < |xs| ==> xs[i] == rest[i - 1];
    if p == 0 {
      assert room == 0;
      KeptWithoutRoom(rest, current, from + 1);
    } else {
      var left := if xs[0] in current || room == 0 then room else room - 1;
      var at := KeptAt(rest, current, left, from + 1);
      assert forall q :: q in at ==> q in KeptAt(xs, current, room, from);
      GoneAt(rest, current, left, from + 1, p - 1);
      forall q | p < q < |xs| && xs[q] !in current
        ensures from + q !in KeptAt(xs, current, room, from)
      {
        assert rest[q - 1] !in current && from + 1 + (q - 1) !in at;
      }
    }
  }

  lemma {:induction false} HomesAreKept<T>(homes: seq<T>, xs: seq<T>, current: set<T>, room: nat)
    requires forall x :: x in homes ==> x in current
    ensures Keep(homes + xs, current, room) == homes + Keep(xs, current, room)
    ensures CurrentOf(homes + xs, current) == homes + CurrentOf(xs, current)
  {
    if homes == [] {
      assert homes + xs == xs;
    } else {
      var x, more := homes[0], homes[1..];
      HomesAreKept(more, xs, current, room);
      assert homes + xs == [x] + (more + xs);
      KeepCons(x, more + xs, current, room);
      CurrentCons(x, more + xs, current);
    }
  }

  /** First the new homes in order of name, then what stood at these places of the old list. */
  ghost predicate Remembers(known: seq<string>, running: set<string>, nodes: seq<string>, added: nat, at: seq<nat>) {
    && |nodes| == added + |at|
    && (forall i :: 0 <= i < added ==> nodes[i] in running && nodes[i] !in known)
    && (forall i, j :: 0 <= i < j < added ==> nodes[i] != nodes[j] && StringLe(nodes[i], nodes[j]))
    && (forall k :: 0 <= k < |at| ==> at[k] < |known| && nodes[added + k] == known[at[k]])
    && Increasing(at)
  }

  /** Only homes without a pod are let go, and none while a later one without a pod stays. */
  ghost predicate OldestFaded(known: seq<string>, running: set<string>, at: seq<nat>) {
    && (forall p :: 0 <= p < |known| && p !in at ==> known[p] !in running)
    && (forall p, q | 0 <= p < q < |known| :: p !in at && known[q] !in running ==> q !in at)
  }

  lemma GoneInOrder(known: seq<string>, running: set<string>, room: nat)
    ensures OldestFaded(known, running, KeptAt(known, running, room, 0))
  {
    var at := KeptAt(known, running, room, 0);
    hide KeptAt;
    forall p | 0 <= p < |known| && p !in at
      ensures known[p] !in running
      ensures forall q :: p < q < |known| && known[q] !in running ==> q !in at
    {
      GoneAt(known, running, room, 0, p);
      assert forall q :: p < q < |known| && known[q] !in running ==> 0 + q !in at;
    }
  }

  lemma NewcomersFirst(known: seq<string>, running: set<string>, newcomers: seq<string>, at: seq<nat>,
                       kept: seq<string>)
    requires Ascending(StringLe, newcomers) && NoRepeats(newcomers)
    requires forall node :: node in newcomers ==> node in running && node !in known
    requires Picks(known, 0, at, kept)
    ensures Remembers(known, running, newcomers + kept, |newcomers|, at)
  {
    var nodes, added := newcomers + kept, |newcomers|;
    assert forall i :: 0 <= i < added ==> nodes[i] == newcomers[i] && newcomers[i] in newcomers;
    assert forall k :: 0 <= k < |at| ==> nodes[added + k] == kept[k] == known[at[k] - 0];
    hide StringLe;
  }

  lemma RecalledRemembers(known: seq<string>, running: set<string>) returns (added: nat, at: seq<nat>)
    ensures var nodes := RecalledNodes(known, running);
      && Remembers(known, running, nodes, added, at) && OldestFaded(known, running, at)
      && added == |running - Elements(known)|
      && (added + |known| <= MAX_REMEMBERED ==> nodes[added..] == known)
  {
    var newcomers := Sorted(running - Elements(known));
    var xs := newcomers + known;
    var room := Room(xs, running);
    added, at := |newcomers|, KeptAt(known, running, room, 0);
    assert forall node :: node in newcomers ==> node in running && node !in known;
    assert Ascending(StringLe, newcomers) by {
      StringOrder();
    }
    HomesAreKept(newcomers, known, running, room);
    KeptArePicked(known, running, room, 0);
    GoneInOrder(known, running, room);
    FitFacts(xs, running);
    hide StringLe;
    hide Ascending;
    hide Picks;
    hide Remembers;
    hide OldestFaded;
    hide KeptAt;
    hide Keep;
    hide Room;
    NewcomersFirst(known, running, newcomers, at, Keep(known, running, room));
  }

  lemma NewBeforeKnown(known: seq<string>, running: set<string>, nodes: seq<string>, added: nat, at: seq<nat>)
    requires Remembers(known, running, nodes, added, at)
    ensures forall i, j | 0 <= i < |nodes| && 0 <= j < |nodes| :: nodes[i] !in known && nodes[j] in known ==> i < j
  {
    forall i | added <= i < |nodes|
      ensures nodes[i] in known
    {
      assert nodes[added + (i - added)] == known[at[i - added]];
    }
  }

  lemma NewOnes(known: seq<string>, running: set<string>, nodes: seq<string>, added: nat, at: seq<nat>)
    requires Remembers(known, running, nodes, added, at) && nodes[added..] == known
    ensures nodes == nodes[..added] + known
  {
  }

  lemma HowMany(known: seq<string>, running: set<string>)
    requires |running| <= MAX_REMEMBERED
    ensures var nodes, added := RecalledNodes(known, running), |running - Elements(known)|;
      added + |known| > MAX_REMEMBERED ==>
        && |nodes| >= MAX_REMEMBERED
        && (|nodes| > MAX_REMEMBERED ==> forall node :: node in nodes ==> node in running)
        && (NoRepeats(known) ==> |nodes| == MAX_REMEMBERED)
  {
    var xs := Sorted(running - Elements(known)) + known;
    var nodes := RecalledNodes(known, running);
    FitFacts(xs, running);
    NodesBounded(known, running);
    if |nodes| > MAX_REMEMBERED {
      KeepsNoOther(xs, running);
      forall node | node in nodes
        ensures node in running
      {
        OnlyCurrent(xs, running, node);
      }
    }
  }

  /**
   * New homes stand first and remembered ones behind them; up to sixteen that is all, and beyond
   * that only as many are left as must run or fit.
   */
  ghost predicate NewestFirst(known: seq<string>, running: set<string>, nodes: seq<string>, added: nat, at: seq<nat>) {
    && Remembers(known, running, nodes, added, at) && OldestFaded(known, running, at)
    && (forall node :: node in running ==> node in nodes)
    && (forall i, j | 0 <= i < |nodes| && 0 <= j < |nodes| :: nodes[i] !in known && nodes[j] in known ==> i < j)
    && (added + |known| <= 16 ==> nodes == nodes[..added] + known)
    && (added + |known| > 16 ==>
          && |nodes| >= 16 && (|nodes| > 16 ==> forall node :: node in nodes ==> node in running)
          && (NoRepeats(known) ==> |nodes| == 16))
  }

  lemma RecalledNewestFirst(known: seq<string>, running: set<string>) returns (added: nat, at: seq<nat>)
    requires |running| <= 16
    ensures NewestFirst(known, running, RecalledNodes(known, running), added, at)
  {
    var nodes := RecalledNodes(known, running);
    added, at := RecalledRemembers(known, running);
    NodesBounded(known, running);
    HowMany(known, running);
    NewBeforeKnown(known, running, nodes, added, at);
    if added + |known| <= 16 {
      NewOnes(known, running, nodes, added, at);
    }
    hide RecalledNodes;
    hide Remembers;
    hide OldestFaded;
    hide Elements;
  }

  /**
   * The memory of a Deployment or a ReplicaSet: its new homes stand first, in order of name, then
   * what it remembered, in its old order; while all of it is at most sixteen nothing else
   * happens, and beyond that sixteen are left, homes without a pod going from the end. A
   * workload on more than sixteen nodes remembers none.
   */
  lemma NewestHomesFirst(kind: Kind, previous: string, running: Running) returns (added: nat, at: seq<nat>)
    requires !kind.StatefulSet? && ProperNodes(running)
    ensures var value := Recalled(kind, previous, running);
      if |running| > 16 then value == ""
      else NewestFirst(Decode(previous), running.Keys, Decode(value), added, at)
  {
    added, at := 0, [];
    if |running| <= 16 {
      NodesAreWritable(previous, running);
      DecodeOfEncode(RecalledNodes(Decode(previous), running.Keys));
      assert |running.Keys| == |running|;
      added, at := RecalledNewestFirst(Decode(previous), running.Keys);
      hide NewestFirst;
      hide RecalledNodes;
      hide Decode;
    }
  }

  // ---------- A StatefulSet's pairs ----------

  /** A pair is an int, the first equals sign and a node. */
  lemma PairIsRead(ord: string, node: string)
    requires '=' !in ord
    ensures ParsePair(ord) == None
    ensures ParsePair(ord + "=" + node) ==
            if node != "" && Atoi(ord).Some? then Some((Atoi(ord).value, node)) else None
  {
    var pair := ord + "=" + node;
    assert forall k :: 0 <= k < |ord| ==> pair[k] == ord[k];
    assert pair[|ord|] == '=';
    assert IndexOf(pair, '=') == |ord|;
    assert pair[..|ord|] == ord && pair[|ord| + 1..] == node;
    hide Atoi;
  }

  /** Pairs are read between commas; of two pairs for an ordinal the later one counts, and others are skipped. */
  lemma OrdinalsAreRead(value: string, pair: string)
    requires value != "" && ',' !in pair && pair != ""
    ensures OrdinalsIn("") == map[]
    ensures var read := ParsePair(pair);
      && OrdinalsIn(pair) == (if read.Some? then map[read.value.0 := read.value.1] else map[])
      && OrdinalsIn(value + "," + pair) ==
         if read.Some? then OrdinalsIn(value)[read.value.0 := read.value.1] else OrdinalsIn(value)
  {
    SplitWithout(pair, ',');
    SplitLast(value, pair, ',');
    assert [pair][..0] == [];
    assert (Split(value, ',') + [pair])[..|Split(value, ',')|] == Split(value, ',');
    hide ParsePair;
    hide Split;
  }

  /** These are the pairs of a map, ordinal by ordinal. */
  ghost predicate PairsOf(ords: seq<int>, m: map<int, string>, pairs: seq<string>) {
    && |pairs| == |ords|
    && forall i :: 0 <= i < |ords| ==> ords[i] in m && pairs[i] == Itoa(ords[i]) + "=" + m[ords[i]]
  }

  lemma LastPairIs(ords: seq<int>, m: map<int, string>)
    requires ords != [] && Elements(ords) <= m.Keys
    ensures var n := |ords| - 1;
      && Elements(ords[..n]) <= m.Keys && ords[n] in m
      && Pairs(ords, m) == Pairs(ords[..n], m) + [PairOf(ords[n], m[ords[n]])]
  {
    LastElement(ords);
    hide PairOf;
    hide Elements;
  }

  lemma LastPairOf(ords: seq<int>, m: map<int, string>, pairs: seq<string>)
    requires ords != [] && PairsOf(ords, m, pairs)
    ensures var n := |ords| - 1;
      && PairsOf(ords[..n], m, pairs[..n]) && ords[n] in m
      && pairs == pairs[..n] + [PairOf(ords[n], m[ords[n]])]
  {
    hide Itoa;
  }

  lemma {:induction false} PairsAre(ords: seq<int>, m: map<int, string>, pairs: seq<string>)
    requires Elements(ords) <= m.Keys && PairsOf(ords, m, pairs)
    ensures Pairs(ords, m) == pairs
  {
    if ords == [] {
    } else {
      LastPairIs(ords, m);
      LastPairOf(ords, m, pairs);
      hide Elements;
      hide PairsOf;
      hide PairOf;
      hide Pairs;
      PairsAre(ords[..|ords| - 1], m, pairs[..|ords| - 1]);
    }
  }

  /** Pairs are written with commas between them, in order of the ordinals. */
  lemma OrdinalsAreWritten(ords: seq<int>, m: map<int, string>, pairs: seq<string>)
    requires (forall i, j :: 0 <= i < j < |ords| ==> ords[i] < ords[j]) && (forall o :: o in ords <==> o in m)
    requires PairsOf(ords, m, pairs)
    ensures OrdinalsValue(m) == Join(pairs, ',')
  {
    IntOrder();
    assert forall o :: o in ords <==> o in m.Keys;
    OnlyListing(IntLe, ords, m.Keys);
    assert Elements(ords) == m.Keys;
    PairsAre(ords, m, pairs);
    hide PairsOf;
  }

  /** The ordinals that run. */
  ghost function Runs(running: Running): set<int> {
    set node, o | node in running && o in running[node] :: o
  }

  /** Every running ordinal is at its node, and every other one where it was. */
  ghost predicate HomesFollow(before: map<int, string>, running: Running, after: map<int, string>) {
    && (forall node, o :: node in running && o in running[node] ==> o in after && after[o] == node)
    && (forall o :: o in after && o !in Runs(running) ==> o in before && after[o] == before[o])
  }

  /** None is let go as long as all are at most sixteen, or all run; otherwise as many stay. */
  ghost predicate SizeFollows(before: map<int, string>, running: Running, after: map<int, string>) {
    var all, bound := before.Keys + Runs(running), if |Runs(running)| > 16 then |Runs(running)| else 16;
    if |all| <= bound then after.Keys == all else |after| == bound
  }

  /** What was let go is above every ordinal that stays and does not run. */
  ghost predicate HighestGo(before: map<int, string>, running: Running, after: map<int, string>) {
    forall kept, gone | kept in after && gone in before ::
      gone !in after && kept !in Runs(running) ==> kept < gone
  }

  lemma RunningAreCurrent(running: Running)
    ensures Ordinals(running) == Runs(running)
  {
  }

  lemma FirstElement<T>(xs: seq<T>)
    requires xs != []
    ensures Elements(xs) == {xs[0]} + Elements(xs[1..])
  {
    assert xs == [xs[0]] + xs[1..];
  }

  lemma {:induction false} CurrentAreAll(xs: seq<int>, current: set<int>)
    requires NoRepeats(xs) && current <= Elements(xs)
    ensures |CurrentOf(xs, current)| == |current|
  {
    if xs == [] {
      assert Elements(xs) == {};
    } else {
      var x, rest := xs[0], xs[1..];
      FirstElement(xs);
      assert NoRepeats(rest) && x !in rest;
      SameCurrent(rest, current, current - {x});
      hide Elements;
      hide NoRepeats;
      CurrentAreAll(rest, current - {x});
      assert x in current ==> |current| == |current - {x}| + 1;
      assert x !in current ==> current - {x} == current;
    }
  }

  lemma HowManyFit(ords: seq<int>, current: set<int>)
    requires NoRepeats(ords) && current <= Elements(ords)
    ensures var bound := if |current| > 16 then |current| else 16;
      |Fit(ords, current)| == if |ords| <= bound then |ords| else bound
  {
    FitFacts(ords, current);
    CurrentAreAll(ords, current);
    CurrentIsShorter(ords, current);
    hide Fit;
  }

  lemma AllOrdinals(m: map<int, string>, running: Running)
    ensures (m + Homes(running)).Keys == m.Keys + Ordinals(running)
  {
    hide HomeOf;
    hide Ordinals;
  }

  lemma KeptAreListed(m: map<int, string>, running: Running)
    ensures var all, r := m.Keys + Ordinals(running), RecalledOrdinals(m, running);
      r.Keys <= all && |r| == |Fit(SortedOrdinals(all), Ordinals(running))|
  {
    AllOrdinals(m, running);
    RecalledShape(m, running);
    hide Homes;
    hide Ordinals;
    hide Fit;
    hide SortedOrdinals;
  }

  lemma HowManyOrdinals(m: map<int, string>, running: Running)
    ensures SizeFollows(m, running, RecalledOrdinals(m, running))
  {
    RunningAreCurrent(running);
    KeptAreListed(m, running);
    hide RecalledOrdinals;
    hide Ordinals;
    hide Runs;
    var current, all, r := Ordinals(running), m.Keys + Ordinals(running), RecalledOrdinals(m, running);
    assert Elements(SortedOrdinals(all)) == all;
    HowManyFit(SortedOrdinals(all), current);
    hide SortedOrdinals;
    hide Fit;
    assert |r| == |r.Keys|;
    if |all| <= |r| {
      SameSet(all, r.Keys);
    }
  }

  lemma SameSet(a: set<int>, b: set<int>)
    requires b <= a && |a| <= |b|
    ensures a == b
  {
    assert a == b + (a - b);
    assert |a| == |b| + |a - b|;
  }

  /**
   * The memory of a StatefulSet: every running ordinal is at its node, every other one where it
   * was; while all of them are at most sixteen none is let go, and beyond that the highest that
   * do not run go until sixteen are left, or only the running ones.
   */
  lemma OrdinalsAreRemembered(previous: string, running: Running)
    requires Proper(StatefulSet, running)
    ensures var value := Recalled(StatefulSet, previous, running);
      if |running| > 16 then value == ""
      else
        var before, after := OrdinalsIn(previous), OrdinalsIn(value);
        HomesFollow(before, running, after) && SizeFollows(before, running, after) && HighestGo(before, running, after)
  {
    if |running| <= 16 {
      var m := OrdinalsIn(previous);
      DecodedIsWritable(previous);
      RecalledIsWritable(m, running);
      OrdinalsRoundTrip(RecalledOrdinals(m, running));
      HomesAreFollowed(m, running);
      HowManyOrdinals(m, running);
      HighestAreGone(m, running);
      hide RecalledOrdinals;
      hide OrdinalsValue;
      hide OrdinalsIn;
      hide HomesFollow;
      hide SizeFollows;
      hide HighestGo;
    }
  }

  lemma RunningStays(m: map<int, string>, running: Running, node: string, o: int)
    requires OneHomeEach(running) && node in running && o in running[node]
    ensures var r := RecalledOrdinals(m, running); o in r && r[o] == node
  {
    RunsThere(running, node, o);
    RecalledShape(m, running);
    hide OneHomeEach;
    hide RecalledOrdinals;
    hide KeptOrdinals;
    hide Ordinals;
    hide Elements;
  }

  lemma OtherStays(m: map<int, string>, running: Running, o: int)
    requires OneHomeEach(running) && o in RecalledOrdinals(m, running) && o !in Ordinals(running)
    ensures o in m && RecalledOrdinals(m, running)[o] == m[o]
  {
    OrdinalsKept(m, running);
    hide RecalledOrdinals;
    hide OneHomeEach;
  }

  lemma HomesAreFollowed(m: map<int, string>, running: Running)
    requires OneHomeEach(running)
    ensures HomesFollow(m, running, RecalledOrdinals(m, running))
  {
    RunningAreCurrent(running);
    hide OneHomeEach;
    hide RecalledOrdinals;
    hide Ordinals;
    hide Runs;
    var r := RecalledOrdinals(m, running);
    forall node, o | node in running && o in running[node]
      ensures o in r && r[o] == node
    {
      RunningStays(m, running, node, o);
    }
    forall o | o in r && o !in Runs(running)
      ensures o in m && r[o] == m[o]
    {
      OtherStays(m, running, o);
    }
  }

  lemma HighestAreGone(m: map<int, string>, running: Running)
    ensures HighestGo(m, running, RecalledOrdinals(m, running))
  {
    var r := RecalledOrdinals(m, running);
    RunningAreCurrent(running);
    hide RecalledOrdinals;
    hide Ordinals;
    hide Runs;
    forall kept, gone | kept in r && gone in m && gone !in r && kept !in Ordinals(running)
      ensures kept < gone
    {
      HighestFade(m, running, kept, gone);
    }
  }

  lemma RecalledIsWritable(m: map<int, string>, running: Running)
    requires Writable(m) && Proper(StatefulSet, running)
    ensures Writable(RecalledOrdinals(m, running))
  {
    OrdinalsKept(m, running);
    hide RecalledOrdinals;
    var r := RecalledOrdinals(m, running);
    forall o | o in r
      ensures MIN_INT <= o <= MAX_INT && r[o] != "" && ',' !in r[o]
    {
      if o in Ordinals(running) {
        var node :| node in running && o in running[node];
        assert r[o] == node;
      }
    }
  }
}
