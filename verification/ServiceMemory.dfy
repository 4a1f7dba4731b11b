/** A bounded memory of past and present services: what is written, what is kept and what is let go. */
module ServiceMemory {
  import opened Base
  import opened Sorting
  import opened Text
  import Gestation

  /** RFC 3339 stamps, as ordered values; 0 is the empty one. */
  type Stamp = nat

  datatype Record = Record(ns: string, name: string, uid: string, born: Stamp, left: Stamp,
                           owners: seq<string>, dependencies: seq<string>, digest: string)

  type Data = map<string, Record>

  const MAX_RECORDS := 256
  const MAX_LISTED := 16
  const MAX_FIELD := 253

  function KeyOf(ns: string, name: string, uid: string): string {
    ns + "." + name + "." + (if |uid| > 8 then uid[..8] else uid)
  }

  function Key(r: Record): string {
    KeyOf(r.ns, r.name, r.uid)
  }

  /** Names of namespaces and UIDs have no dots: a key tells the namespace, the name and the first of the UID. */
  lemma KeyTellsApart(a: Record, b: Record)
    requires '.' !in a.ns && '.' !in b.ns && '.' !in a.uid && '.' !in b.uid
    ensures Key(a) == Key(b) <==>
      && a.ns == b.ns && a.name == b.name
      && (a.uid == b.uid || (|a.uid| >= 8 && |b.uid| >= 8 && a.uid[..8] == b.uid[..8]))
  {
    if Key(a) == Key(b) {
      var ua, ub := if |a.uid| > 8 then a.uid[..8] else a.uid, if |b.uid| > 8 then b.uid[..8] else b.uid;
      assert Key(a) == a.ns + "." + (a.name + "." + ua) && Key(b) == b.ns + "." + (b.name + "." + ub);
      FirstDot(a.ns, a.name + "." + ua, b.ns, b.name + "." + ub);
      LastDot(a.name, ua, b.name, ub);
    }
  }

  lemma FirstDot(a: string, x: string, b: string, y: string)
    requires '.' !in a && '.' !in b && a + "." + x == b + "." + y
    ensures a == b && x == y
  {
    if |a| < |b| {
      DotInside(a, x, b, y);
    } else if |b| < |a| {
      DotInside(b, y, a, x);
    }
    SameParts(a, x, b, y);
  }

  lemma LastDot(x: string, a: string, y: string, b: string)
    requires '.' !in a && '.' !in b && x + "." + a == y + "." + b
    ensures a == b && x == y
  {
    if |x| < |y| {
      DotInside(x, a, y, b);
    } else if |y| < |x| {
      DotInside(y, b, x, a);
    }
    SameParts(x, a, y, b);
  }

  lemma DotInside(a: string, x: string, b: string, y: string)
    requires |a| < |b| && a + "." + x == b + "." + y
    ensures '.' in b && '.' in x
  {
    var s := a + "." + x;
    assert s[|a|] == '.' && s[..|b|] == b && b[|a|] == s[|a|];
    assert s[|b|] == (b + "." + y)[|b|] == '.' && s[|a| + 1..] == x && x[|b| - |a| - 1] == s[|b|];
  }

  lemma SameParts(a: string, x: string, b: string, y: string)
    requires |a| == |b| && a + "." + x == b + "." + y
    ensures a == b && x == y
  {
    var s := a + "." + x;
    assert s[..|a|] == a && (b + "." + y)[..|b|] == b;
    assert s[|a| + 1..] == x && (b + "." + y)[|b| + 1..] == y;
  }

  predicate Departed(r: Record) {
    r.left != 0
  }

  // ---------- Bounds ----------

  function Cut(s: string): string {
    if |s| > MAX_FIELD then s[..MAX_FIELD] else s
  }

  function Entry(s: string): string {
    Cut(Gestation.TrimSpace(s))
  }

  /** What a list says, whatever its order and repeats. */
  function Entries(list: seq<string>): set<string> {
    set s | s in list && Entry(s) != "" :: Entry(s)
  }

  function FirstFew(list: seq<string>): seq<string> {
    if |list| > MAX_LISTED then list[..MAX_LISTED] else list
  }

  ghost function BoundedList(list: seq<string>): seq<string> {
    StringOrder();
    FirstFew(Listing(StringLe, Entries(list)))
  }

  ghost function Bounded(r: Record): Record {
    r.(ns := Cut(r.ns), name := Cut(r.name), uid := Cut(r.uid),
       owners := BoundedList(r.owners), dependencies := BoundedList(r.dependencies))
  }

  /** What is kept of an entry: no white space around it, and 253 characters at most. */
  ghost predicate IsKept(kept: string, said: string) {
    var trimmed := Gestation.TrimSpace(said);
    if |trimmed| > 253 then kept == trimmed[..253] else kept == trimmed
  }

  lemma InEntries(list: seq<string>, e: string)
    ensures e in Entries(list) <==> e != "" && exists said | said in list :: IsKept(e, said)
  {
    hide Gestation.TrimSpace;
  }

  /**
   * The list that is kept is in order and without repeats, has 16 entries at most, and says
   * nothing that was not said; what it leaves out comes after all of a full list.
   */
  lemma ListIsBounded(list: seq<string>, said: string, e: string)
    ensures var kept := BoundedList(list);
      && |kept| <= 16
      && (forall i, j :: 0 <= i < j < |kept| ==> kept[i] != kept[j] && StringLe(kept[i], kept[j]))
      && (e in kept ==> e != "" && exists from | from in list :: IsKept(e, from))
      && (said in list && IsKept(e, said) && e != "" && e !in kept ==>
            |kept| == 16 && forall k :: k in kept ==> StringLe(k, e))
  {
    StringOrder();
    var all := Listing(StringLe, Entries(list));
    ListingOf(StringLe, Entries(list));
    InEntries(list, e);
    hide IsKept;
    hide Entries;
    hide StringLe;
    var kept := BoundedList(list);
    assert forall k :: k in kept ==> k in all;
    if e in all && e !in kept {
      var i :| 0 <= i < |all| && all[i] == e;
      assert i >= 16;
    }
  }

  method BoundList(list: seq<string>) returns (out: seq<string>)
    ensures out == BoundedList(list)
  {
    out := [];
    var seen: set<string> := {};
    for i := 0 to |list|
      invariant seen == Entries(list[..i]) && multiset(out) == multiset(seen)
    {
      assert list[..i + 1] == list[..i] + [list[i]];
      var s := Entry(list[i]);
      if s != "" && s !in seen {
        seen := seen + {s};
        out := out + [s];
      }
    }
    assert list[..|list|] == list;
    StringOrder();
    SortIsListing(StringLe, out, seen);
    out := FirstFew(Sort(StringLe, out));
  }

  method Bound(r: Record) returns (b: Record)
    ensures b == Bounded(r)
  {
    var owners := BoundList(r.owners);
    var dependencies := BoundList(r.dependencies);
    b := r.(ns := Cut(r.ns), name := Cut(r.name), uid := Cut(r.uid), owners := owners, dependencies := dependencies);
  }

  // ---------- The order records are let go in ----------

  /** Oldest birth first, then by key. */
  predicate ByBirth(a: Record, b: Record) {
    a.born < b.born || (a.born == b.born && StringLe(Key(a), Key(b)))
  }

  /** The departed first, the oldest departure first; then the living, the oldest birth first. */
  predicate ByLeaving(a: Record, b: Record) {
    if Departed(a) != Departed(b) then Departed(a)
    else if Departed(a) then a.left <= b.left
    else a.born <= b.born
  }

  predicate LetGoBefore(a: Record, b: Record) {
    ByLeaving(a, b) && (ByLeaving(b, a) ==> ByBirth(a, b))
  }

  /** Which of two records is let go first. */
  ghost predicate GoesFirst(a: Record, b: Record) {
    var older := a.born < b.born || (a.born == b.born && StringLe(Key(a), Key(b)));
    || (a.left != 0 && b.left == 0)
    || (a.left != 0 && b.left != 0 && (a.left < b.left || (a.left == b.left && older)))
    || (a.left == 0 && b.left == 0 && older)
  }

  /** The departed go before the living, the earliest departure or birth first; births and keys decide the rest. */
  lemma LeavingOrder(a: Record, b: Record)
    ensures LetGoBefore(a, b) <==> GoesFirst(a, b)
  {
    hide Key;
    hide StringLe;
  }

  lemma ByBirthIsOrder()
    ensures TotalPreorder(ByBirth)
  {
    StringOrder();
    hide Key;
    hide StringLe;
  }

  lemma {:induction false} InsertStable(x: Record, s: seq<Record>)
    requires Ascending(LetGoBefore, s) && forall y :: y in s ==> ByBirth(x, y)
    ensures Ascending(LetGoBefore, Insert(ByLeaving, x, s))
  {
    hide ByBirth;
    if s != [] && !ByLeaving(x, s[0]) {
      InsertStable(x, s[1..]);
      InsertContents(ByLeaving, x, s[1..]);
      SameElements(Insert(ByLeaving, x, s[1..]), s[1..] + [x]);
      var r := Insert(ByLeaving, x, s);
      forall i, j | 0 <= i < j < |r|
        ensures LetGoBefore(r[i], r[j])
      {
        if i == 0 {
          assert r[j] in Insert(ByLeaving, x, s[1..]);
          assert r[j] in s[1..] + [x];
        }
      }
    } else {
      var r := [x] + s;
      forall i, j | 0 <= i < j < |r|
        ensures LetGoBefore(r[i], r[j])
      {
        if i == 0 {
          assert r[j] in s;
          assert j > 1 ==> LetGoBefore(s[0], s[j - 1]);
        }
      }
    }
  }

  /** The second sort is stable: among equals, the order of the first one stays. */
  lemma {:induction false} SortsByBoth(s: seq<Record>)
    requires Ascending(ByBirth, s)
    ensures Ascending(LetGoBefore, Sort(ByLeaving, s))
  {
    hide ByBirth;
    if s == [] {
    } else {
      SortsByBoth(s[1..]);
      SortContents(ByLeaving, s[1..]);
      SameElements(Sort(ByLeaving, s[1..]), s[1..]);
      InsertStable(s[0], Sort(ByLeaving, s[1..]));
    }
  }

  // ---------- Reading and pruning ----------

  /** Kubernetes keeps names within these bounds. */
  predicate Fits(r: Record) {
    r.name != "" && |r.ns| <= MAX_FIELD && |r.name| <= MAX_FIELD
  }

  ghost predicate Keyed(data: Data) {
    forall k :: k in data ==> Key(data[k]) == k && Fits(data[k])
  }

  /** These are the records of the memory, each once. */
  ghost predicate Lists(out: seq<Record>, data: Data) {
    && (forall i, j | 0 <= i < j < |out| :: Key(out[i]) != Key(out[j]))
    && (forall r :: r in out <==> Key(r) in data && data[Key(r)] == r)
  }

  lemma SortedLists(out: seq<Record>, data: Data, le: (Record, Record) -> bool)
    requires Lists(out, data)
    ensures Lists(Sort(le, out), data)
  {
    var sorted := Sort(le, out);
    SortContents(le, out);
    SameElements(sorted, out);
    assert NoRepeats(out);
    SameRepeats(out, sorted);
    forall i, j | 0 <= i < j < |sorted|
      ensures Key(sorted[i]) != Key(sorted[j])
    {
      assert sorted[i] in out && sorted[j] in out;
    }
    hide Key;
  }

  method Records(data: Data) returns (out: seq<Record>)
    requires Keyed(data)
    ensures Ascending(ByBirth, out) && Lists(out, data)
  {
    hide Key;
    hide ByBirth;
    hide Ascending;
    var keys := Range(data.Keys);
    RangeOnce(keys, data.Keys);
    out := [];
    for i := 0 to |keys|
      invariant |out| == i && forall j :: 0 <= j < i ==> out[j] == data[keys[j]]
    {
      var r := data[keys[i]];
      if r.name != "" {
        out := out + [r];
      }
    }
    forall r
      ensures r in out <==> Key(r) in data && data[Key(r)] == r
    {
      if Key(r) in data && data[Key(r)] == r {
        assert Key(r) in keys;
        var i :| 0 <= i < |keys| && keys[i] == Key(r);
        assert out[i] == r;
      }
    }
    assert Lists(out, data);
    SortedLists(out, data, ByBirth);
    ByBirthIsOrder();
    SortAscends(ByBirth, out);
    out := Sort(ByBirth, out);
  }

  /** What is left after letting go of as few as must go, `keep` never among them. */
  ghost predicate Pruned(before: Data, keep: string, after: Data) {
    && after.Keys <= before.Keys && (forall k :: k in after ==> after[k] == before[k]) && keep in after
    && |after| == (if |before| <= MAX_RECORDS then |before| else MAX_RECORDS)
    && (forall gone, stays | gone in before && gone !in after && stays in after && stays != keep ::
          LetGoBefore(before[gone], before[stays]))
  }

  /** The keys of the first i, except `keep`. */
  ghost function FirstKeys(order: seq<Record>, i: nat, keep: string): set<string>
    requires i <= |order|
  {
    (set j | 0 <= j < i :: Key(order[j])) - {keep}
  }

  lemma OneMoreKey(order: seq<Record>, i: nat, keep: string)
    requires i < |order|
    ensures FirstKeys(order, i + 1, keep) ==
            if Key(order[i]) == keep then FirstKeys(order, i, keep) else FirstKeys(order, i, keep) + {Key(order[i])}
  {
    hide Key;
  }

  lemma LetGoInOrder(before: Data, keep: string, order: seq<Record>, i: nat, gone: string, stays: string)
    requires Lists(order, before) && Keyed(before) && Ascending(LetGoBefore, order) && i <= |order|
    requires gone in before && gone in FirstKeys(order, i, keep)
    requires stays in before && stays !in FirstKeys(order, i, keep) && stays != keep
    ensures LetGoBefore(before[gone], before[stays])
  {
    var a :| 0 <= a < i && Key(order[a]) == gone;
    assert order[a] in order && before[gone] == order[a];
    IsListed(order, before, stays);
    var b :| 0 <= b < |order| && order[b] == before[stays];
    hide Key;
    hide LetGoBefore;
    assert b >= i;
  }

  /** Everything but the first i of the order is left, and `keep`. */
  lemma LeftInOrder(before: Data, keep: string, order: seq<Record>, i: nat, after: Data)
    requires Lists(order, before) && Keyed(before) && Ascending(LetGoBefore, order) && i <= |order| && keep in before
    requires after == before - FirstKeys(order, i, keep)
    requires |after| == if |before| <= MAX_RECORDS then |before| else MAX_RECORDS
    ensures Pruned(before, keep, after)
  {
    assert keep !in FirstKeys(order, i, keep);
    hide FirstKeys;
    hide Lists;
    hide Keyed;
    hide Ascending;
    hide LetGoBefore;
    forall gone, stays | gone in before && gone !in after && stays in after && stays != keep
      ensures LetGoBefore(before[gone], before[stays])
    {
      LetGoInOrder(before, keep, order, i, gone, stays);
    }
  }

  lemma IsListed(order: seq<Record>, data: Data, k: string)
    requires Lists(order, data) && Keyed(data) && k in data
    ensures data[k] in order && Key(data[k]) == k
  {
  }

  lemma LetOneGo(before: Data, keep: string, order: seq<Record>, i: nat, data: Data)
    requires Lists(order, before) && i < |order| && data == before - FirstKeys(order, i, keep)
    ensures var rest := if Key(order[i]) == keep then data else data - {Key(order[i])};
      rest == before - FirstKeys(order, i + 1, keep) && |rest| >= |data| - 1
  {
    OneMoreKey(order, i, keep);
    hide Lists;
    hide FirstKeys;
    hide Key;
    if Key(order[i]) != keep {
      OneLess(data, Key(order[i]));
      WithoutBoth(before, FirstKeys(order, i, keep), Key(order[i]));
    }
  }

  lemma WithoutBoth(data: Data, gone: set<string>, k: string)
    ensures data - gone - {k} == data - (gone + {k})
  {
  }

  lemma OneLess(data: Data, k: string)
    ensures |data - {k}| >= |data| - 1
  {
    assert (data - {k}).Keys == data.Keys - {k};
    assert |data| == |data.Keys| && |data - {k}| == |(data - {k}).Keys|;
    assert data.Keys <= (data.Keys - {k}) + {k};
    SetSize(data.Keys, data.Keys - {k}, {k});
  }

  lemma SetSize<T>(s: set<T>, a: set<T>, b: set<T>)
    requires s <= a + b
    ensures |s| <= |a| + |b|
  {
    SubsetSize(s, a + b);
    assert |a + b| == |a| + |b - a|;
    SubsetSize(b - a, b);
  }

  lemma SubsetSize<T>(s: set<T>, t: set<T>)
    requires s <= t
    ensures |s| <= |t|
  {
    assert t == s + (t - s);
  }

  method Prune(before: Data, keep: string) returns (data: Data)
    requires Keyed(before) && keep in before
    ensures Pruned(before, keep, data)
  {
    hide Key;
    hide Keyed;
    hide Lists;
    hide Ascending;
    hide FirstKeys;
    data := before;
    if |data| <= MAX_RECORDS {
      return;
    }
    hide Pruned;
    var records := Records(data);
    SortsByBoth(records);
    SortedLists(records, data, ByLeaving);
    records := Sort(ByLeaving, records);
    var i := 0;
    assert FirstKeys(records, 0, keep) == {} by { NoKeys(records, keep); }
    while i < |records| && |data| > MAX_RECORDS
      invariant i <= |records| && |data| >= MAX_RECORDS
      invariant data == before - FirstKeys(records, i, keep)
    {
      LetOneGo(before, keep, records, i, data);
      if Key(records[i]) != keep {
        data := data - {Key(records[i])};
      }
      i := i + 1;
    }
    if i == |records| {
      AllGone(before, keep, records, data);
    }
    LeftInOrder(before, keep, records, i, data);
  }

  lemma NoKeys(order: seq<Record>, keep: string)
    ensures FirstKeys(order, 0, keep) == {}
  {
  }

  lemma AllGone(before: Data, keep: string, order: seq<Record>, data: Data)
    requires Lists(order, before) && Keyed(before) && data == before - FirstKeys(order, |order|, keep)
    ensures |data| <= 1
  {
    forall k | k in data
      ensures k == keep
    {
      IsListed(order, before, k);
    }
    hide Key;
    assert data.Keys <= {keep};
    SmallSet(data.Keys, keep);
    assert |data| == |data.Keys|;
  }

  lemma SmallSet(s: set<string>, x: string)
    requires s <= {x}
    ensures |s| <= 1
  {
    if x in s {
      assert s == {x};
    } else {
      assert s == {};
    }
  }

  // ---------- Putting and closing records ----------

  /** What the cluster still knows of a living service goes with what it now knows. */
  function Merged(data: Data, r: Record): Record {
    if Key(r) in data then
      var known := data[Key(r)];
      r.(born := if known.born != 0 then known.born else r.born, left := if r.left == 0 then known.left else r.left)
    else r
  }

  /** The record is stored, and no more let go than must be. */
  ghost predicate Stored(before: Data, r: Record, after: Data) {
    var b := Bounded(r);
    if Key(b) in before && before[Key(b)] == b then after == before
    else Pruned(before[Key(b) := b], Key(b), after)
  }

  lemma BoundedKey(r: Record)
    requires Fits(r)
    ensures Fits(Bounded(r)) && Key(Bounded(r)) == Key(r)
  {
  }

  method PutRecord(before: Data, r: Record) returns (data: Data, changed: bool)
    requires Keyed(before) && Fits(r)
    ensures Stored(before, r, data) && (changed <==> !(Key(r) in before && before[Key(r)] == Bounded(r)))
  {
    hide Pruned;
    hide Bounded;
    hide Fits;
    BoundedKey(r);
    var b := Bound(r);
    var key := Key(b);
    if key in before && before[key] == b {
      return before, false;
    }
    hide Key;
    data := before[key := b];
    data := Prune(data, key);
    return data, true;
  }

  /** The record under this key gets its departure, if it is there and has none. */
  ghost predicate Closed(before: Data, key: string, at: Stamp, after: Data) {
    if key in before && !Departed(before[key]) then Stored(before, before[key].(left := at), after)
    else after == before
  }

  class Memory {
    var data: Data
    var changed: bool

    constructor ()
      ensures Valid() && data == map[] && !changed
    {
      data, changed := map[], false;
    }

    ghost predicate Valid()
      reads this
    {
      Kept(data)
    }

    /** Dates that are already on record win over the new ones. */
    method Put(r: Record)
      requires Valid() && Fits(r)
      modifies this
      ensures Valid() && Stored(old(data), Merged(old(data), r), data)
      ensures changed == (old(changed) || data != old(data))
    {
      var m := r;
      if Key(r) in data {
        var known := data[Key(r)];
        if known.born != 0 {
          m := m.(born := known.born);
        }
        if m.left == 0 {
          m := m.(left := known.left);
        }
      }
      ghost var before := data;
      var now, more := PutRecord(data, m);
      StoredKept(before, m, now);
      StoredChanges(before, m, now);
      data := now;
      if more {
        changed := true;
      }
      hide Stored;
      hide Kept;
      hide Bounded;
    }

    method Depart(ns: string, name: string, uid: string, at: Stamp)
      requires Valid() && at > 0
      modifies this
      ensures Valid() && Closed(old(data), KeyOf(ns, name, uid), at, data)
      ensures changed == (old(changed) || data != old(data))
    {
      var key := KeyOf(ns, name, uid);
      if key !in data || Departed(data[key]) {
        return;
      }
      var r := data[key].(left := at);
      ghost var before := data;
      KeyOfClosed(data, key, at);
      var now, more := PutRecord(data, r);
      StoredKept(before, r, now);
      StoredChanges(before, r, now);
      data := now;
      if more {
        changed := true;
      }
      hide Stored;
      hide Kept;
      hide Bounded;
      hide KeyOf;
    }

    /** Gives a departure to every record without a Deployment; `living` has the UIDs of the Deployments. */
    method CloseDeparted(living: map<(string, string), string>, now: Stamp)
      requires Valid() && now > 0
      modifies this
      ensures Valid() && data == AllClosed(old(data), living, now)
    {
      hide Kept;
      hide Key;
      hide KeyOf;
      hide Closed;
      hide Bounded;
      hide PartlyClosed;
      hide ClosedIfGone;
      hide FirstKeys;
      hide Lists;
      hide Ascending;
      ghost var before := data;
      assert Keyed(before) by { KeptIsKeyed(before); }
      hide Keyed;
      NothingClosed(before, living, now);
      var records := Records(data);
      for i := 0 to |records|
        invariant Valid() && data == PartlyClosed(before, FirstKeys(records, i, ""), living, now)
      {
        var r := records[i];
        NextRecord(before, records, i);
        OneMoreClosed(before, FirstKeys(records, i, ""), r, living, now);
        if Departed(r) {
          continue;
        }
        if (r.ns, r.name) !in living || living[(r.ns, r.name)] != r.uid {
          ghost var was := data;
          SameKey(r);
          Depart(r.ns, r.name, r.uid, now);
          ClosedInPlace(was, Key(r), now, data);
        }
      }
      AllListed(before, records);
      EverythingClosed(before, FirstKeys(records, |records|, ""), living, now);
    }
  }

  /** The records under these keys are closed, if they must be. */
  ghost function PartlyClosed(data: Data, done: set<string>, living: map<(string, string), string>, now: Stamp): Data {
    map k | k in data :: if k in done then ClosedIfGone(data[k], living, now) else data[k]
  }

  lemma NothingClosed(data: Data, living: map<(string, string), string>, now: Stamp)
    ensures forall order :: PartlyClosed(data, FirstKeys(order, 0, ""), living, now) == data
  {
    forall order
      ensures PartlyClosed(data, FirstKeys(order, 0, ""), living, now) == data
    {
      NoKeys(order, "");
    }
  }

  lemma OneMoreClosed(data: Data, done: set<string>, r: Record, living: map<(string, string), string>, now: Stamp)
    requires Key(r) in data && data[Key(r)] == r && Key(r) !in done
    ensures var partly := PartlyClosed(data, done, living, now);
      && Key(r) in partly && partly[Key(r)] == r
      && PartlyClosed(data, done + {Key(r)}, living, now) ==
         (if !Departed(r) && ((r.ns, r.name) !in living || living[(r.ns, r.name)] != r.uid)
          then partly[Key(r) := Bounded(r.(left := now))] else partly)
  {
    hide Key;
    hide Bounded;
  }

  lemma EverythingClosed(data: Data, done: set<string>, living: map<(string, string), string>, now: Stamp)
    requires forall k :: k in data ==> k in done
    ensures PartlyClosed(data, done, living, now) == AllClosed(data, living, now)
  {
    hide ClosedIfGone;
  }

  lemma KeptIsKeyed(data: Data)
    requires Kept(data)
    ensures Keyed(data)
  {
  }

  lemma SameKey(r: Record)
    ensures Key(r) == KeyOf(r.ns, r.name, r.uid)
  {
  }

  /** The i-th record is the memory's under its key, and was not there before. */
  lemma NextRecord(data: Data, records: seq<Record>, i: nat)
    requires Lists(records, data) && Keyed(data) && i < |records|
    ensures Key(records[i]) in data && data[Key(records[i])] == records[i]
    ensures Key(records[i]) !in FirstKeys(records, i, "")
    ensures FirstKeys(records, i + 1, "") == FirstKeys(records, i, "") + {Key(records[i])}
  {
    assert records[i] in records;
    assert Key(records[i]) != "";
    OneMoreKey(records, i, "");
  }

  lemma AllListed(data: Data, records: seq<Record>)
    requires Lists(records, data) && Keyed(data)
    ensures forall k :: k in data ==> k in FirstKeys(records, |records|, "")
  {
    forall k | k in data
      ensures k in FirstKeys(records, |records|, "")
    {
      IsListed(records, data, k);
      var j :| 0 <= j < |records| && records[j] == data[k];
      assert Key(records[j]) == k != "";
    }
  }

  ghost function ClosedIfGone(r: Record, living: map<(string, string), string>, now: Stamp): Record {
    if !Departed(r) && ((r.ns, r.name) !in living || living[(r.ns, r.name)] != r.uid) then Bounded(r.(left := now))
    else r
  }

  ghost function AllClosed(data: Data, living: map<(string, string), string>, now: Stamp): Data {
    map k | k in data :: ClosedIfGone(data[k], living, now)
  }

  /** A record gets this departure where it has none and its Deployment, told by its UID, is not among the living. */
  lemma WhoIsClosed(data: Data, living: map<(string, string), string>, now: Stamp, k: string)
    requires k in data
    ensures var r, closed := data[k], AllClosed(data, living, now);
      && closed.Keys == data.Keys
      && (if r.left == 0 && !((r.ns, r.name) in living && living[(r.ns, r.name)] == r.uid)
          then closed[k].left == now && closed[k].born == r.born && closed[k].digest == r.digest
          else closed[k] == r)
  {
  }

  /** Closing a record lets no other go. */
  lemma ClosedInPlace(before: Data, key: string, at: Stamp, after: Data)
    requires Kept(before) && key in before && !Departed(before[key]) && at > 0 && Closed(before, key, at, after)
    ensures after == before[key := Bounded(before[key].(left := at))]
  {
    var r := before[key].(left := at);
    KeyOfClosed(before, key, at);
    BoundedKey(r);
    hide Key;
    hide Fits;
    hide LetGoBefore;
    assert Bounded(r).left == at;
    hide Bounded;
    var more := before[key := Bounded(r)];
    assert more.Keys == before.Keys;
    assert |more| == |more.Keys| == |before|;
    SameSize(after.Keys, more.Keys);
  }

  lemma SameSize<T>(a: set<T>, b: set<T>)
    requires a <= b && |a| == |b|
    ensures a == b
  {
    assert b == a + (b - a);
    assert |b| == |a| + |b - a|;
  }

  /** Every key is its record's, and there are at most 256. */
  ghost predicate Kept(data: Data) {
    Keyed(data) && |data| <= MAX_RECORDS
  }

  lemma KeyOfClosed(data: Data, key: string, at: Stamp)
    requires Keyed(data) && key in data
    ensures var r := data[key].(left := at); Fits(r) && Key(r) == key
  {
  }

  lemma StoredKept(before: Data, r: Record, after: Data)
    requires Kept(before) && Fits(r) && Stored(before, r, after)
    ensures Kept(after)
  {
    BoundedKey(r);
    hide Bounded;
    hide Key;
    hide Fits;
    hide LetGoBefore;
  }

  /** Storing leaves the memory alone exactly when it already says so. */
  lemma StoredChanges(before: Data, r: Record, after: Data)
    requires Fits(r) && Stored(before, r, after)
    ensures Key(r) in after && after[Key(r)] == Bounded(r)
    ensures after == before <==> Key(r) in before && before[Key(r)] == Bounded(r)
  {
    BoundedKey(r);
    hide Bounded;
    hide Key;
    hide Fits;
    hide LetGoBefore;
  }

  // ---------- Every sequence of operations ----------

  datatype Op = Put(r: Record) | Depart(key: string, at: Stamp)

  /** A record is put with its birth date and no departure. */
  ghost predicate Steps(before: Data, op: Op, after: Data) {
    match op
    case Put(r) => Fits(r) && r.born != 0 && r.left == 0 && Stored(before, Merged(before, r), after)
    case Depart(key, at) => at > 0 && Closed(before, key, at, after)
  }

  ghost predicate Runs(states: seq<Data>, ops: seq<Op>) {
    && |states| == |ops| + 1 && states[0] == map[]
    && forall i :: 0 <= i < |ops| ==> Steps(states[i], ops[i], states[i + 1])
  }

  lemma StepKept(before: Data, op: Op, after: Data)
    requires Kept(before) && Steps(before, op, after)
    ensures Kept(after)
  {
    hide Stored;
    if op.Put? {
      StoredKept(before, Merged(before, op.r), after);
    } else if op.key in before && !Departed(before[op.key]) {
      KeyOfClosed(before, op.key, op.at);
      StoredKept(before, before[op.key].(left := op.at), after);
    }
  }

  /** In every state of every run, each key is its record's, and there are at most 256. */
  lemma {:induction false} AlwaysKept(states: seq<Data>, ops: seq<Op>, i: nat)
    requires Runs(states, ops) && i < |states|
    ensures Kept(states[i])
    ensures |states[i]| <= 256 && forall k :: k in states[i] ==> Key(states[i][k]) == k
  {
    if i == 0 {
    } else {
      AlwaysKept(states, ops, i - 1);
      StepKept(states[i - 1], ops[i - 1], states[i]);
    }
  }

  lemma SizesTell(before: Data, key: string, more: Data, after: Data)
    requires |before| <= MAX_RECORDS && more.Keys == before.Keys + {key} && after.Keys <= more.Keys && key in after
    requires |after| == (if |more| <= MAX_RECORDS then |more| else MAX_RECORDS)
    ensures |before.Keys - after.Keys| == (if |before| == MAX_RECORDS && key !in before then 1 else 0)
  {
    assert |more| == |more.Keys| && |after| == |after.Keys| && |before| == |before.Keys|;
    assert more.Keys == after.Keys + (more.Keys - after.Keys);
    assert before.Keys - after.Keys == more.Keys - after.Keys;
    assert key in before ==> more.Keys == before.Keys;
  }

  lemma PrunedTells(before: Data, key: string, b: Record, after: Data)
    requires |before| <= MAX_RECORDS && Pruned(before[key := b], key, after)
    ensures key in after && after[key] == b
    ensures forall k :: k in after && k != key ==> k in before && after[k] == before[k]
    ensures forall gone, stays | gone in before && gone !in after && stays in after && stays != key ::
      LetGoBefore(before[gone], before[stays])
    ensures |before.Keys - after.Keys| == (if |before| == MAX_RECORDS && key !in before then 1 else 0)
  {
    SizesTell(before, key, before[key := b], after);
    hide LetGoBefore;
  }

  /** What the memory says of a record that was put: the first birth on record, and the last departure. */
  ghost predicate Says(r: Record, known: Option<Record>, kept: Record) {
    && IsCut(r.ns, kept.ns) && IsCut(r.name, kept.name) && IsCut(r.uid, kept.uid)
    && kept.owners == BoundedList(r.owners) && kept.dependencies == BoundedList(r.dependencies)
    && kept.digest == r.digest
    && kept.born == (if known.Some? && known.value.born != 0 then known.value.born else r.born)
    && kept.left == (if r.left != 0 || known.None? then r.left else known.value.left)
  }

  ghost predicate IsCut(said: string, kept: string) {
    if |said| > 253 then kept == said[..253] else kept == said
  }

  /** After a put, what is kept under the record's key is what was said, with the dates already on record. */
  lemma WhatIsPut(before: Data, r: Record, after: Data)
    requires Kept(before) && Fits(r) && Stored(before, Merged(before, r), after)
    ensures Key(r) in after
    ensures Says(r, if Key(r) in before then Some(before[Key(r)]) else None, after[Key(r)])
  {
    StoredChanges(before, Merged(before, r), after);
    hide Stored;
    hide Kept;
    hide BoundedList;
    hide KeyOf;
  }

  /** The record that was put is there, the others are as they were; without room the least of them goes. */
  lemma OnlyTheLeastGoes(before: Data, r: Record, after: Data)
    requires Kept(before) && Fits(r) && Stored(before, r, after)
    ensures Key(r) in after && after[Key(r)] == Bounded(r)
    ensures forall k :: k in after && k != Key(r) ==> k in before && after[k] == before[k]
    ensures forall gone, stays | gone in before && gone !in after && stays in after && stays != Key(r) ::
      GoesFirst(before[gone], before[stays])
    ensures |before.Keys - after.Keys| == (if |before| == 256 && Key(r) !in before then 1 else 0)
  {
    BoundedKey(r);
    var b := Bounded(r);
    hide Bounded;
    hide Key;
    hide Fits;
    hide LetGoBefore;
    hide Keyed;
    hide Pruned;
    if after == before {
      StoredChanges(before, r, after);
      assert before.Keys - after.Keys == {};
    } else {
      PrunedTells(before, Key(r), b, after);
      forall gone, stays | gone in before && gone !in after && stays in after && stays != Key(r)
        ensures GoesFirst(before[gone], before[stays])
      {
        LeavingOrder(before[gone], before[stays]);
      }
    }
  }

  lemma StepKeepsDates(before: Data, op: Op, after: Data, k: string)
    requires Kept(before) && Steps(before, op, after) && k in before && k in after
    ensures before[k].born != 0 ==> after[k].born == before[k].born
    ensures Departed(before[k]) ==> after[k].left == before[k].left
  {
    if op.Put? {
      OnlyTheLeastGoes(before, Merged(before, op.r), after);
    } else if op.key in before && !Departed(before[op.key]) {
      ClosedInPlace(before, op.key, op.at, after);
    }
    hide Stored;
    hide KeyOf;
    hide BoundedList;
  }

  /** As long as a record is kept, its birth date and its departure do not change. */
  lemma {:induction false} DatesNeverChange(states: seq<Data>, ops: seq<Op>, i: nat, j: nat, k: string)
    requires Runs(states, ops) && i <= j < |states|
    requires forall m :: i <= m <= j ==> k in states[m]
    ensures states[i][k].born != 0 ==> states[j][k].born == states[i][k].born
    ensures Departed(states[i][k]) ==> states[j][k].left == states[i][k].left
    decreases j - i
  {
    hide Steps;
    hide Kept;
    if i < j {
      DatesNeverChange(states, ops, i, j - 1, k);
      AlwaysKept(states, ops, j - 1);
      StepKeepsDates(states[j - 1], ops[j - 1], states[j], k);
    }
  }
}
