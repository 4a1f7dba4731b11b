/** The namespace annotation that lists newborns, its writer in the controller and its reader in admission. */
module Newborns {
  import opened Base
  import opened Gestation
  import GestationStates
  import Sorting
  import Text

  datatype Entry = Entry(selector: string, priority: string)

  /** An annotation: JSON is taken as an injective encoding of a list of entries. */
  datatype Annotation = Absent | Listed(entries: seq<Entry>) | Junk(text: string)

  predicate BySelector(a: Entry, b: Entry) {
    Text.StringLe(a.selector, b.selector)
  }

  function EncodeNewborns(entries: seq<Entry>): Annotation {
    if entries == [] then Absent else Listed(Sorting.Sort(BySelector, entries))
  }

  /** None is an error. */
  function DecodeNewborns(raw: Annotation): Option<seq<Entry>> {
    match raw
    case Absent => Some([])
    case Listed(entries) => Some(entries)
    case Junk(_) => None
  }

  /** What is decoded is what was encoded, in order of the selectors. */
  lemma DecodeOfEncode(entries: seq<Entry>)
    ensures DecodeNewborns(EncodeNewborns(entries)).Some?
    ensures var read := DecodeNewborns(EncodeNewborns(entries)).value;
      && multiset(read) == multiset(entries)
      && forall i, j :: 0 <= i < j < |read| ==> Text.StringLe(read[i].selector, read[j].selector)
  {
    Sorting.StringOrder();
    assert Sorting.TotalPreorder(BySelector);
    Sorting.SortContents(BySelector, entries);
    Sorting.SortAscends(BySelector, entries);
  }

  // ---------- The controller's side ----------

  /** A Gestation: its namespace and its status. */
  datatype Gestating = Gestating(ns: string, status: Status)

  predicate IsListed(g: Gestating, ns: string) {
    g.ns == ns && InCare(g.status) && g.status.birth.Some? && g.status.care.value.priority != ""
  }

  function EntryOf(g: Gestating): Entry
    requires InCare(g.status) && g.status.birth.Some?
  {
    Entry(g.status.birth.value.selector, g.status.care.value.priority)
  }

  /** The services in care in a namespace, in order. */
  function Desired(all: seq<Gestating>, ns: string): seq<Entry> {
    if all == [] then []
    else
      var g := all[|all| - 1];
      Desired(all[..|all| - 1], ns) + (if IsListed(g, ns) then [EntryOf(g)] else [])
  }

  function Get(m: map<string, seq<Entry>>, ns: string): seq<Entry> {
    if ns in m then m[ns] else []
  }

  function Others(entries: seq<Entry>, selector: string): seq<Entry> {
    if entries == [] then []
    else
      var e := entries[|entries| - 1];
      Others(entries[..|entries| - 1], selector) + (if e.selector != selector then [e] else [])
  }

  /** One workload's entry set or, with no class, removed; the others stay. */
  function WithNewborn(raw: Annotation, selector: string, priority: string): Annotation {
    var entries := if DecodeNewborns(raw).Some? then DecodeNewborns(raw).value else [];
    EncodeNewborns(Others(entries, selector) + if priority != "" then [Entry(selector, priority)] else [])
  }

  class Namespaces {
    var annotations: map<string, Annotation>

    /** Sets the annotation, or takes it off where the value is Absent. */
    method PatchNewborns(ns: string, value: Annotation)
      requires ns in annotations
      modifies this
      ensures annotations == old(annotations)[ns := value]
    {
      if annotations[ns] == value {
        return;
      }
      annotations := annotations[ns := value];
    }

    method SetNewborn(ns: string, selector: string, priority: string)
      requires ns in annotations
      modifies this
      ensures annotations == old(annotations)[ns := WithNewborn(old(annotations)[ns], selector, priority)]
    {
      var decoded := DecodeNewborns(annotations[ns]);
      var entries := if decoded.Some? then decoded.value else [];
      var out := [];
      for i := 0 to |entries|
        invariant out == Others(entries[..i], selector)
      {
        assert entries[..i + 1][..i] == entries[..i];
        if entries[i].selector != selector {
          out := out + [entries[i]];
        }
      }
      assert entries[..|entries|] == entries;
      if priority != "" {
        out := out + [Entry(selector, priority)];
      } else {
        assert out + [] == out;
      }
      PatchNewborns(ns, EncodeNewborns(out));
    }

    /** Every namespace lists exactly its services in care, where the lister's copy said otherwise. */
    method SyncNewborns(all: seq<Gestating>, listed: map<string, Annotation>)
      requires listed.Keys <= annotations.Keys
      modifies this
      ensures annotations.Keys == old(annotations).Keys
      ensures forall ns :: ns in annotations ==>
        annotations[ns] == if ns in listed && listed[ns] != EncodeNewborns(Desired(all, ns))
                           then EncodeNewborns(Desired(all, ns)) else old(annotations)[ns]
    {
      var desired := DesiredByNamespace(all);
      ghost var before := annotations;
      hide EncodeNewborns;
      var rest := listed.Keys;
      while rest != {}
        invariant rest <= listed.Keys && annotations.Keys == before.Keys
        invariant forall ns :: ns in annotations ==>
          annotations[ns] == if ns in listed && ns !in rest && listed[ns] != EncodeNewborns(Desired(all, ns))
                             then EncodeNewborns(Desired(all, ns)) else before[ns]
      {
        var ns :| ns in rest;
        rest := rest - {ns};
        var want := EncodeNewborns(Get(desired, ns));
        if listed[ns] == want {
          continue;
        }
        PatchNewborns(ns, want);
      }
    }
  }

  method DesiredByNamespace(all: seq<Gestating>) returns (desired: map<string, seq<Entry>>)
    ensures forall ns :: Get(desired, ns) == Desired(all, ns)
  {
    desired := map[];
    for i := 0 to |all|
      invariant forall ns :: Get(desired, ns) == Desired(all[..i], ns)
    {
      assert all[..i + 1][..i] == all[..i];
      var g := all[i];
      if InCare(g.status) && g.status.birth.Some? && g.status.care.value.priority != "" {
        desired := desired[g.ns := Get(desired, g.ns) + [EntryOf(g)]];
      }
    }
    assert all[..|all|] == all;
  }

  /** The service is in care in this namespace, with this selector and this class. */
  ghost predicate CaresFor(g: Gestating, ns: string, selector: string, priority: string) {
    && g.ns == ns && (g.status.phase.NewbornCare? || g.status.phase.NeedsCaregivers?)
    && g.status.birth.Some? && g.status.birth.value.selector == selector
    && g.status.care.Some? && g.status.care.value.priority == priority && priority != ""
  }

  lemma {:induction false} InDesired(all: seq<Gestating>, ns: string, e: Entry)
    ensures e in Desired(all, ns) <==> exists g | g in all :: CaresFor(g, ns, e.selector, e.priority)
  {
    if all == [] {
    } else {
      var n := |all| - 1;
      InDesired(all[..n], ns, e);
      assert all == all[..n] + [all[n]];
      assert IsListed(all[n], ns) && EntryOf(all[n]) == e <==> CaresFor(all[n], ns, e.selector, e.priority);
    }
  }

  /** What an annotation says of each selector. */
  ghost predicate Says(raw: Annotation, selector: string, priority: string) {
    DecodeNewborns(raw).Some? && Entry(selector, priority) in DecodeNewborns(raw).value
  }

  ghost predicate Protects(all: seq<Gestating>, ns: string, selector: string, priority: string) {
    exists g | g in all :: CaresFor(g, ns, selector, priority)
  }

  /** The annotation lists exactly the services in care, each with its class. */
  lemma SyncedSays(all: seq<Gestating>, ns: string, selector: string, priority: string)
    ensures Says(EncodeNewborns(Desired(all, ns)), selector, priority) <==> Protects(all, ns, selector, priority)
  {
    var e := Entry(selector, priority);
    DecodeOfEncode(Desired(all, ns));
    var read := DecodeNewborns(EncodeNewborns(Desired(all, ns))).value;
    Sorting.SameElements(read, Desired(all, ns));
    InDesired(all, ns, e);
  }

  /** The annotation can be read, and says of every selector and class what is so. */
  ghost predicate SaysExactly(raw: Annotation, all: seq<Gestating>, ns: string) {
    && DecodeNewborns(raw).Some?
    && forall s, p :: Says(raw, s, p) <==> Protects(all, ns, s, p)
  }

  lemma SyncedSaysExactly(all: seq<Gestating>, ns: string)
    ensures SaysExactly(EncodeNewborns(Desired(all, ns)), all, ns)
  {
    DecodeOfEncode(Desired(all, ns));
    forall s, p
      ensures Says(EncodeNewborns(Desired(all, ns)), s, p) <==> Protects(all, ns, s, p)
    {
      SyncedSays(all, ns, s, p);
    }
  }

  /** No two services in care in a namespace share a selector. */
  ghost predicate DistinctSelectors(all: seq<Gestating>) {
    forall a, b, ns, selector, p, q | a in all && b in all ::
      CaresFor(a, ns, selector, p) && CaresFor(b, ns, selector, q) ==> p == q
  }

  /** With distinct selectors, that is a map: a selector has one class. */
  lemma SyncedIsMap(all: seq<Gestating>, ns: string, selector: string, p: string, q: string)
    requires DistinctSelectors(all)
    requires Says(EncodeNewborns(Desired(all, ns)), selector, p) && Says(EncodeNewborns(Desired(all, ns)), selector, q)
    ensures p == q
  {
    SyncedSays(all, ns, selector, p);
    SyncedSays(all, ns, selector, q);
    var a :| a in all && CaresFor(a, ns, selector, p);
    var b :| b in all && CaresFor(b, ns, selector, q);
  }

  lemma {:induction false} InOthers(entries: seq<Entry>, selector: string, e: Entry)
    ensures e in Others(entries, selector) <==> e in entries && e.selector != selector
  {
    if entries == [] {
    } else {
      var n := |entries| - 1;
      InOthers(entries[..n], selector, e);
      assert entries == entries[..n] + [entries[n]];
    }
  }

  /** Setting one workload's entry leaves it the only one with that selector, and the others as they were. */
  lemma SetSays(raw: Annotation, selector: string, priority: string, s: string, p: string)
    ensures Says(WithNewborn(raw, selector, priority), s, p) <==>
            if s == selector then p == priority != "" else Says(raw, s, p)
  {
    var entries := if DecodeNewborns(raw).Some? then DecodeNewborns(raw).value else [];
    var out := Others(entries, selector) + if priority != "" then [Entry(selector, priority)] else [];
    DecodeOfEncode(out);
    Sorting.SameElements(DecodeNewborns(EncodeNewborns(out)).value, out);
    InOthers(entries, selector, Entry(s, p));
  }

  // ---------- Births announced within a pass ----------

  /** The selectors announced in a pass have the first tier; of the others the annotations say what they said. */
  ghost predicate Announcements(before: map<string, Annotation>, after: map<string, Annotation>,
                                told: set<(string, string)>) {
    && after.Keys == before.Keys
    && (forall ns :: ns in after && DecodeNewborns(before[ns]).Some? ==> DecodeNewborns(after[ns]).Some?)
    && forall ns, s, p :: ns in after ==>
         (Says(after[ns], s, p) <==> if (ns, s) in told then p == TierClass(1) else Says(before[ns], s, p))
  }

  /** What was announced is so. */
  ghost predicate Backed(told: set<(string, string)>, all: seq<Gestating>) {
    forall ns, s :: (ns, s) in told ==> Protects(all, ns, s, TierClass(1))
  }

  lemma OneMoreAnnouncement(before: map<string, Annotation>, after: map<string, Annotation>,
                            told: set<(string, string)>, ns: string, selector: string)
    requires Announcements(before, after, told) && ns in after
    ensures Announcements(before, after[ns := WithNewborn(after[ns], selector, TierClass(1))], told + {(ns, selector)})
  {
    assert TIERS[0][0] == 'k';
    var more := after[ns := WithNewborn(after[ns], selector, TierClass(1))];
    forall n, s, p | n in more
      ensures Says(more[n], s, p) <==>
              if (n, s) in told + {(ns, selector)} then p == TierClass(1) else Says(before[n], s, p)
    {
      SetSays(after[ns], selector, TierClass(1), s, p);
    }
    WithNewbornReads(after[ns], selector, TierClass(1));
    hide Says;
    hide WithNewborn;
  }

  lemma WithNewbornReads(raw: Annotation, selector: string, priority: string)
    ensures DecodeNewborns(WithNewborn(raw, selector, priority)).Some?
  {
  }

  lemma BackedMore(told: set<(string, string)>, all: seq<Gestating>, g: Gestating)
    requires Backed(told, all)
    ensures Backed(told, all + [g])
  {
    forall ns, s | (ns, s) in told
      ensures Protects(all + [g], ns, s, TierClass(1))
    {
      var h :| h in all && CaresFor(h, ns, s, TierClass(1));
      assert h in all + [g];
    }
  }

  /** An annotation that said exactly what is so, and was told only of what is so, still does. */
  lemma AnnouncedExactly(before: map<string, Annotation>, after: map<string, Annotation>, told: set<(string, string)>,
                         all: seq<Gestating>, ns: string)
    requires Announcements(before, after, told) && Backed(told, all) && DistinctSelectors(all)
    requires ns in before && SaysExactly(before[ns], all, ns)
    ensures SaysExactly(after[ns], all, ns)
  {
    forall s, p
      ensures Says(after[ns], s, p) <==> Protects(all, ns, s, p)
    {
      if (ns, s) in told {
        assert Protects(all, ns, s, TierClass(1));
        OneClass(all, ns, s, p, TierClass(1));
      }
    }
    hide Says;
    hide Protects;
    hide DecodeNewborns;
  }

  lemma OneClass(all: seq<Gestating>, ns: string, s: string, p: string, q: string)
    requires DistinctSelectors(all) && Protects(all, ns, s, q)
    ensures Protects(all, ns, s, p) <==> p == q
  {
    if Protects(all, ns, s, p) {
      var a :| a in all && CaresFor(a, ns, s, p);
      var b :| b in all && CaresFor(b, ns, s, q);
    }
  }

  // ---------- The admission plugin's side ----------

  type Labels = map<string, string>

  datatype PriorityClass = PriorityClass(value: int, globalDefault: bool)

  type Classes = map<string, PriorityClass>

  predicate IsNewbornClass(name: string) {
    name in TIERS
  }

  /** The cluster's global default already protects as much. */
  ghost predicate Outdone(classes: Classes, value: int) {
    exists c :: c in classes && classes[c].globalDefault && classes[c].value >= value
  }

  /** The entry is one of the care tiers' and selects the pod; `selects` parses and matches a non-empty selector. */
  predicate Matches(e: Entry, pod: Labels, selects: (string, Labels) -> bool) {
    IsNewbornClass(e.priority) && selects(e.selector, pod)
  }

  /** The first entry that matches decides, if its class exists and is above every global default. */
  ghost function ClassOf(entries: seq<Entry>, pod: Labels, classes: Classes, selects: (string, Labels) -> bool): string
  {
    if entries == [] then ""
    else if !Matches(entries[0], pod, selects) then ClassOf(entries[1..], pod, classes, selects)
    else if entries[0].priority !in classes || Outdone(classes, classes[entries[0].priority].value) then ""
    else entries[0].priority
  }

  method ClassFor(raw: Annotation, pod: Labels, classes: Classes, selects: (string, Labels) -> bool)
    returns (name: string)
    ensures name == match DecodeNewborns(raw)
                    case None => ""
                    case Some(entries) => ClassOf(entries, pod, classes, selects)
  {
    var decoded := DecodeNewborns(raw);
    if decoded.None? {
      return "";
    }
    var entries := decoded.value;
    for i := 0 to |entries|
      invariant ClassOf(entries, pod, classes, selects) == ClassOf(entries[i..], pod, classes, selects)
    {
      var e := entries[i];
      assert entries[i..][1..] == entries[i + 1..];
      if !IsNewbornClass(e.priority) {
        continue; // nothing else is handed out
      }
      if !selects(e.selector, pod) {
        continue;
      }
      if e.priority !in classes {
        return "";
      }
      var pc := classes[e.priority];
      var rest := classes.Keys;
      while rest != {}
        invariant rest <= classes.Keys
        invariant forall c :: c in classes && c !in rest ==> !(classes[c].globalDefault && classes[c].value >= pc.value)
      {
        var other :| other in rest;
        if classes[other].globalDefault && classes[other].value >= pc.value {
          return ""; // the tier would add nothing
        }
        rest := rest - {other};
      }
      return e.priority;
    }
    return "";
  }

  class Pod {
    var priorityClass: string
    var priority: Option<int>
    var mirror: bool
    var labels: Labels
    var newborn: Option<string>
  }

  /** `raw` is None when the namespace could not be read. */
  method Admit(pod: Pod, isPod: bool, ready: bool, raw: Option<Annotation>, classes: Classes,
               selects: (string, Labels) -> bool)
    modifies pod`priorityClass, pod`newborn
    ensures var chosen := if && isPod && ready && raw.Some? && DecodeNewborns(raw.value).Some?
                             && old(pod.priorityClass) == "" && pod.priority.None? && !pod.mirror
                         then ClassOf(DecodeNewborns(raw.value).value, pod.labels, classes, selects) else "";
      if chosen == "" then pod.priorityClass == old(pod.priorityClass) && pod.newborn == old(pod.newborn)
      else pod.priorityClass == chosen && pod.newborn == Some(chosen)
  {
    if !isPod {
      return;
    }
    if pod.priorityClass != "" || pod.priority.Some? || pod.mirror {
      return; // its creator chose, or the kubelet mirrors it
    }
    if !ready {
      return; // without its caches it lets the pod pass
    }
    if raw.None? || raw.value == Absent {
      return;
    }
    var chosen := ClassFor(raw.value, pod.labels, classes, selects);
    if chosen == "" {
      return;
    }
    pod.priorityClass := chosen;
    pod.newborn := Some(chosen);
  }

  /** The three classes care hands out. */
  ghost predicate Named(name: string) {
    name == "kyvernetria-newborn-1" || name == "kyvernetria-newborn-2" || name == "kyvernetria-newborn-3"
  }

  lemma NewbornClassesAre(name: string)
    ensures IsNewbornClass(name) <==> Named(name)
  {
    assert TIERS[0] == "kyvernetria-newborn-1" && TIERS[1] == "kyvernetria-newborn-2";
    assert TIERS[2] == "kyvernetria-newborn-3";
  }

  /** The class exists and every global default is lower. */
  ghost predicate Raises(classes: Classes, name: string) {
    name in classes && forall c :: c in classes && classes[c].globalDefault ==> classes[c].value < classes[name].value
  }

  /** The first entry with one of care's classes whose selector selects the pod decides, for or against a class. */
  lemma {:induction false} FirstMatchDecides(entries: seq<Entry>, pod: Labels, classes: Classes,
                                             selects: (string, Labels) -> bool, i: nat)
    requires i < |entries| && Named(entries[i].priority) && selects(entries[i].selector, pod)
    requires forall j :: 0 <= j < i ==> !(Named(entries[j].priority) && selects(entries[j].selector, pod))
    ensures ClassOf(entries, pod, classes, selects) ==
            if Raises(classes, entries[i].priority) then entries[i].priority else ""
  {
    NewbornClassesAre(entries[0].priority);
    hide IsNewbornClass;
    hide Named;
    if i > 0 {
      FirstMatchDecides(entries[1..], pod, classes, selects, i - 1);
    }
  }

  lemma {:induction false} NoMatchNoClass(entries: seq<Entry>, pod: Labels, classes: Classes,
                                          selects: (string, Labels) -> bool)
    requires forall e :: e in entries ==> !(Named(e.priority) && selects(e.selector, pod))
    ensures ClassOf(entries, pod, classes, selects) == ""
  {
    if entries == [] {
    } else {
      NewbornClassesAre(entries[0].priority);
      hide IsNewbornClass;
      hide Named;
      NoMatchNoClass(entries[1..], pod, classes, selects);
    }
  }

  /** The index of the first entry that decides, or the number of entries. */
  ghost function Decider(entries: seq<Entry>, pod: Labels, selects: (string, Labels) -> bool): (i: nat)
    ensures i <= |entries|
    ensures i < |entries| ==> Named(entries[i].priority) && selects(entries[i].selector, pod)
    ensures forall j :: 0 <= j < i ==> !(Named(entries[j].priority) && selects(entries[j].selector, pod))
  {
    if entries == [] || (Named(entries[0].priority) && selects(entries[0].selector, pod)) then 0
    else 1 + Decider(entries[1..], pod, selects)
  }

  /** A class belongs to an entry that selects the pod, and raises it. */
  lemma ClassIsEarned(entries: seq<Entry>, pod: Labels, classes: Classes, selects: (string, Labels) -> bool)
    ensures var chosen := ClassOf(entries, pod, classes, selects);
      chosen != "" ==>
        && Named(chosen) && Raises(classes, chosen)
        && exists e | e in entries :: selects(e.selector, pod) && e.priority == chosen
  {
    var i := Decider(entries, pod, selects);
    hide Named;
    hide Raises;
    hide ClassOf;
    if i < |entries| {
      FirstMatchDecides(entries, pod, classes, selects, i);
    } else {
      NoMatchNoClass(entries, pod, classes, selects);
    }
  }

  /** The care tiers exist, above every global default. */
  ghost predicate TiersStand(classes: Classes) {
    forall name :: Named(name) ==> Raises(classes, name)
  }

  lemma MatchIsServed(entries: seq<Entry>, pod: Labels, classes: Classes, selects: (string, Labels) -> bool, e: Entry)
    requires e in entries && Named(e.priority) && selects(e.selector, pod) && TiersStand(classes)
    ensures ClassOf(entries, pod, classes, selects) != ""
  {
    var i := Decider(entries, pod, selects);
    assert i < |entries|;
    FirstMatchDecides(entries, pod, classes, selects, i);
    hide Raises;
    hide ClassOf;
  }

  // ---------- From a birth to a pod ----------

  /** A service in care in this namespace whose selector selects the pod, and its class. */
  ghost predicate CaredFor(all: seq<Gestating>, ns: string, pod: Labels, selects: (string, Labels) -> bool,
                           named: string)
  {
    exists g, selector | g in all :: CaresFor(g, ns, selector, named) && selects(selector, pod)
  }

  ghost predicate AllSound(all: seq<Gestating>) {
    forall g :: g in all ==> GestationStates.Sound(g.status)
  }

  lemma TierIsNamed(g: Gestating, ns: string, selector: string, priority: string)
    requires GestationStates.Sound(g.status) && CaresFor(g, ns, selector, priority)
    ensures Named(priority)
  {
    NewbornClassesAre(priority);
    assert priority == TIERS[g.status.care.value.tier - 1];
  }

  /**
   * From an annotation that says exactly which services are in care, a new pod gets a class only
   * if one of them in its namespace selects it, and then that one's tier, above every global default.
   */
  lemma OnlyNewbornsAreProtected(raw: Annotation, all: seq<Gestating>, ns: string, pod: Labels, classes: Classes,
                                 selects: (string, Labels) -> bool)
    requires SaysExactly(raw, all, ns) && ClassOf(DecodeNewborns(raw).value, pod, classes, selects) != ""
    ensures var chosen := ClassOf(DecodeNewborns(raw).value, pod, classes, selects);
      CaredFor(all, ns, pod, selects, chosen) && Named(chosen) && Raises(classes, chosen)
  {
    var entries := DecodeNewborns(raw).value;
    var chosen := ClassOf(entries, pod, classes, selects);
    ClassIsEarned(entries, pod, classes, selects);
    hide Raises;
    hide ClassOf;
    var e :| e in entries && selects(e.selector, pod) && e.priority == chosen;
    assert Says(raw, e.selector, e.priority);
    var g :| g in all && CaresFor(g, ns, e.selector, e.priority);
  }

  /** And where the care tiers stand above every global default, every pod that one of them selects gets one. */
  lemma NewbornsAreProtected(raw: Annotation, all: seq<Gestating>, ns: string, pod: Labels, classes: Classes,
                             selects: (string, Labels) -> bool, named: string)
    requires SaysExactly(raw, all, ns)
    requires AllSound(all) && TiersStand(classes) && CaredFor(all, ns, pod, selects, named)
    ensures ClassOf(DecodeNewborns(raw).value, pod, classes, selects) != ""
  {
    var g, selector :| g in all && CaresFor(g, ns, selector, named) && selects(selector, pod);
    TierIsNamed(g, ns, selector, named);
    var e := Entry(selector, named);
    assert Protects(all, ns, e.selector, e.priority);
    assert Says(raw, e.selector, e.priority);
    hide AllSound;
    MatchIsServed(DecodeNewborns(raw).value, pod, classes, selects, e);
  }

  /** A class only with a service in care behind it, and always with one where the tiers stand. */
  ghost predicate IsDue(named: string, all: seq<Gestating>, ns: string, pod: Labels, classes: Classes,
                        selects: (string, Labels) -> bool)
  {
    && (named != "" ==> CaredFor(all, ns, pod, selects, named) && Named(named) && Raises(classes, named))
    && (AllSound(all) && TiersStand(classes) && (exists p :: CaredFor(all, ns, pod, selects, p)) ==> named != "")
  }

  lemma ClassIsDue(raw: Annotation, all: seq<Gestating>, ns: string, pod: Labels, classes: Classes,
                   selects: (string, Labels) -> bool)
    requires SaysExactly(raw, all, ns)
    ensures IsDue(ClassOf(DecodeNewborns(raw).value, pod, classes, selects), all, ns, pod, classes, selects)
  {
    if ClassOf(DecodeNewborns(raw).value, pod, classes, selects) != "" {
      OnlyNewbornsAreProtected(raw, all, ns, pod, classes, selects);
    }
    if p :| AllSound(all) && TiersStand(classes) && CaredFor(all, ns, pod, selects, p) {
      NewbornsAreProtected(raw, all, ns, pod, classes, selects, p);
    }
    hide ClassOf;
    hide CaredFor;
    hide AllSound;
    hide TiersStand;
    hide Raises;
    hide SaysExactly;
  }
}
