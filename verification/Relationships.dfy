/** The cluster's social graph: which Service serves which workload, and which workload talks to which Service. */
module Relationships {
  import opened Base
  import opened HostTokens
  import opened RelationshipNames
  import opened ServiceIndex
  import Sorting
  import Text

  /** A text of a pod template: where it stands, and whether its place says that it is an address. */
  datatype TextAt = TextAt(place: string, value: string, hostish: bool)

  datatype Workload = Workload(ref: Ref, labels: map<string, string>, texts: seq<TextAt>)

  predicate Serves(svc: Service, w: Workload) {
    && svc.selector != map[]
    && w.ref.ns == svc.ns
    && forall k :: k in svc.selector ==> k in w.labels && w.labels[k] == svc.selector[k]
  }

  function ServiceRef(svc: Service): Ref {
    Ref(Kind.Service, svc.ns, svc.name, svc.uid)
  }

  function ServesEdge(svc: Service, w: Workload): Relationship {
    Relationship(ServiceRef(svc), w.ref, Type.Serves, BySelector(svc.selector))
  }

  /** A host-like token and the text it stands in. */
  datatype Mention = Mention(place: string, token: Token)

  function TalksEdge(w: Workload, svc: Service, m: Mention): Relationship {
    Relationship(w.ref, ServiceRef(svc), TalksTo, Mentions(m.place, m.token.host))
  }

  function InPlace(place: string, tokens: seq<Token>): seq<Mention> {
    if tokens == [] then []
    else InPlace(place, tokens[..|tokens| - 1]) + [Mention(place, tokens[|tokens| - 1])]
  }

  /** The mentions of a template, in the order of its texts. */
  function MentionsOf(texts: seq<TextAt>): seq<Mention> {
    if texts == [] then []
    else
      var t := texts[|texts| - 1];
      MentionsOf(texts[..|texts| - 1]) + InPlace(t.place, Tokens(t.value, t.hostish))
  }

  lemma {:induction false} PlacesAre(place: string, tokens: seq<Token>)
    ensures |InPlace(place, tokens)| == |tokens|
    ensures forall i :: 0 <= i < |tokens| ==> InPlace(place, tokens)[i] == Mention(place, tokens[i])
  {
    if tokens == [] {
    } else {
      PlacesAre(place, tokens[..|tokens| - 1]);
    }
  }

  /** The mentions of a text are its tokens with its place, and those of a text come after those of the texts before. */
  lemma MentionsAre(texts: seq<TextAt>, t: TextAt)
    ensures MentionsOf([]) == []
    ensures var before, all, tokens := MentionsOf(texts), MentionsOf(texts + [t]), Tokens(t.value, t.hostish);
      && |all| == |before| + |tokens| && all[..|before|] == before
      && forall i :: 0 <= i < |tokens| ==> all[|before| + i] == Mention(t.place, tokens[i])
  {
    hide Tokens;
    assert (texts + [t])[..|texts|] == texts;
    PlacesAre(t.place, Tokens(t.value, t.hostish));
  }

  /** Every token of every text is mentioned. */
  lemma {:induction false} TokenIsMentioned(texts: seq<TextAt>, i: nat, t: Token)
    requires i < |texts| && t in Tokens(texts[i].value, texts[i].hostish)
    ensures Mention(texts[i].place, t) in MentionsOf(texts)
  {
    hide Tokens;
    var n := |texts| - 1;
    var init, last := texts[..n], texts[n];
    assert texts == init + [last];
    MentionsAre(init, last);
    if i < n {
      TokenIsMentioned(init, i, t);
      var k :| 0 <= k < |MentionsOf(init)| && MentionsOf(init)[k] == Mention(texts[i].place, t);
      assert MentionsOf(texts)[k] == Mention(texts[i].place, t);
    } else {
      var k :| 0 <= k < |Tokens(last.value, last.hostish)| && Tokens(last.value, last.hostish)[k] == t;
      assert MentionsOf(texts)[|MentionsOf(init)| + k] == Mention(last.place, t);
    }
  }

  // ---------- The graph as a product ----------

  ghost predicate IsServes(services: seq<Service>, workloads: seq<Workload>, r: Relationship) {
    exists svc, w | svc in services && w in workloads :: Serves(svc, w) && r == ServesEdge(svc, w)
  }

  /** The k-th mention is the first that reaches the Service. */
  ghost predicate FirstTo(ms: seq<Mention>, k: nat, svc: Service, ns: string) {
    k < |ms| && Reaches(ms[k].token, svc, ns) && forall j :: 0 <= j < k ==> !Reaches(ms[j].token, svc, ns)
  }

  /** The workload mentions the Service, first with this evidence, and is not served by it. */
  ghost predicate TalksWith(w: Workload, svc: Service, r: Relationship) {
    && !Serves(svc, w)
    && exists k: nat :: FirstTo(MentionsOf(w.texts), k, svc, w.ref.ns) && r == TalksEdge(w, svc, MentionsOf(w.texts)[k])
  }

  ghost predicate IsTalks(services: seq<Service>, workloads: seq<Workload>, r: Relationship) {
    exists svc, w | svc in services && w in workloads :: TalksWith(w, svc, r)
  }

  ghost predicate IsEdge(services: seq<Service>, workloads: seq<Workload>, r: Relationship) {
    IsServes(services, workloads, r) || IsTalks(services, workloads, r)
  }

  predicate SameParty(a: Ref, b: Ref) {
    a.kind == b.kind && a.ns == b.ns && a.name == b.name
  }

  /** No two workloads share a kind, a namespace and a name; namespaces are labels. */
  ghost predicate ProperWorkloads(workloads: seq<Workload>) {
    && (forall i, j | 0 <= i < j < |workloads| :: !SameParty(workloads[i].ref, workloads[j].ref))
    && (forall w :: w in workloads ==> IsLabel(w.ref.ns) && !w.ref.kind.Service?)
  }

  // ---------- Who is served ----------

  datatype Key = Key(ns: string, name: string, workload: Ref)

  function KeyOf(r: Relationship): Key {
    Key(r.from.ns, r.from.name, r.to)
  }

  function KeysOf(edges: seq<Relationship>): set<Key> {
    set r | r in edges :: KeyOf(r)
  }

  function ServesRow(svc: Service, workloads: seq<Workload>): seq<Relationship> {
    if workloads == [] then []
    else
      var w := workloads[|workloads| - 1];
      ServesRow(svc, workloads[..|workloads| - 1]) + (if Serves(svc, w) then [ServesEdge(svc, w)] else [])
  }

  function ServesRows(services: seq<Service>, workloads: seq<Workload>): seq<Relationship> {
    if services == [] then []
    else ServesRows(services[..|services| - 1], workloads) + ServesRow(services[|services| - 1], workloads)
  }

  lemma KeysOfMore(edges: seq<Relationship>, r: Relationship)
    ensures KeysOf(edges + [r]) == KeysOf(edges) + {KeyOf(r)}
  {
  }

  method Served(services: seq<Service>, workloads: seq<Workload>)
    returns (out: seq<Relationship>, served: set<Key>)
    ensures out == ServesRows(services, workloads) && served == KeysOf(out)
  {
    hide KeyOf;
    hide Serves;
    out, served := [], {};
    for i := 0 to |services|
      invariant out == ServesRows(services[..i], workloads) && served == KeysOf(out)
    {
      assert services[..i + 1][..i] == services[..i];
      var svc := services[i];
      if svc.selector == map[] {
        NoRow(svc, workloads);
        continue;
      }
      ghost var before := out;
      for j := 0 to |workloads|
        invariant out == before + ServesRow(svc, workloads[..j]) && served == KeysOf(out)
      {
        assert workloads[..j + 1][..j] == workloads[..j];
        var w := workloads[j];
        if Serves(svc, w) {
          var r := ServesEdge(svc, w);
          KeysOfMore(out, r);
          out, served := out + [r], served + {KeyOf(r)};
        }
      }
      assert workloads[..|workloads|] == workloads;
    }
    assert services[..|services|] == services;
  }

  lemma {:induction false} NoRow(svc: Service, workloads: seq<Workload>)
    requires svc.selector == map[]
    ensures ServesRow(svc, workloads) == []
  {
    if workloads == [] {
    } else {
      NoRow(svc, workloads[..|workloads| - 1]);
    }
  }

  // ---------- Who is talked to ----------

  /** The Services seen so far, and the edges found. */
  datatype Talk = Talk(seen: set<Service>, out: seq<Relationship>)

  function Hear(idx: Index, served: set<Key>, w: Workload, t: Talk, m: Mention): Talk {
    match Lookup(idx, m.token, w.ref.ns)
    case None => t
    case Some(svc) =>
      if svc in t.seen then t
      else if Key(svc.ns, svc.name, w.ref) in served then Talk(t.seen + {svc}, t.out)
      else Talk(t.seen + {svc}, t.out + [TalksEdge(w, svc, m)])
  }

  function Heard(idx: Index, served: set<Key>, w: Workload, ms: seq<Mention>): Talk {
    if ms == [] then Talk({}, [])
    else Hear(idx, served, w, Heard(idx, served, w, ms[..|ms| - 1]), ms[|ms| - 1])
  }

  lemma HeardMore(idx: Index, served: set<Key>, w: Workload, ms: seq<Mention>, m: Mention)
    ensures Heard(idx, served, w, ms + [m]) == Hear(idx, served, w, Heard(idx, served, w, ms), m)
  {
    assert (ms + [m])[..|ms|] == ms;
  }

  /** One text: `before` are the mentions of the texts before it. */
  method HearText(idx: Index, served: set<Key>, w: Workload, text: TextAt, t: Talk, ghost before: seq<Mention>)
    returns (seen: set<Service>, out: seq<Relationship>)
    requires t == Heard(idx, served, w, before)
    ensures Talk(seen, out) ==
            Heard(idx, served, w, before + InPlace(text.place, Tokens(text.value, text.hostish)))
  {
    hide Heard;
    hide Tokens;
    hide Lookup;
    var tokens := HostTokens.HostTokens(text.value, text.hostish);
    seen, out := t.seen, t.out;
    assert before + InPlace(text.place, []) == before;
    for j := 0 to |tokens|
      invariant Talk(seen, out) == Heard(idx, served, w, before + InPlace(text.place, tokens[..j]))
    {
      var m := Mention(text.place, tokens[j]);
      assert tokens[..j + 1][..j] == tokens[..j];
      HeardMore(idx, served, w, before + InPlace(text.place, tokens[..j]), m);
      assert before + InPlace(text.place, tokens[..j + 1]) == before + InPlace(text.place, tokens[..j]) + [m];
      var found := Lookup(idx, m.token, w.ref.ns);
      if found.None? || found.value in seen {
        continue;
      }
      var svc := found.value;
      seen := seen + {svc};
      if Key(svc.ns, svc.name, w.ref) in served {
        continue; // the workload stands behind this Service itself
      }
      out := out + [TalksEdge(w, svc, m)];
    }
    assert tokens[..|tokens|] == tokens;
  }

  method TalksOf(idx: Index, served: set<Key>, w: Workload) returns (out: seq<Relationship>)
    ensures out == Heard(idx, served, w, MentionsOf(w.texts)).out
  {
    hide Hear;
    hide Tokens;
    out := [];
    var seen: set<Service> := {};
    for i := 0 to |w.texts|
      invariant Talk(seen, out) == Heard(idx, served, w, MentionsOf(w.texts[..i]))
    {
      assert w.texts[..i + 1][..i] == w.texts[..i];
      seen, out := HearText(idx, served, w, w.texts[i], Talk(seen, out), MentionsOf(w.texts[..i]));
    }
    assert w.texts[..|w.texts|] == w.texts;
  }

  // ---------- The index agrees with the naive scan ----------

  ghost predicate FoundIn(idx: Index, ms: seq<Mention>, svc: Service, ns: string) {
    exists k: nat :: k < |ms| && Lookup(idx, ms[k].token, ns) == Some(svc)
  }

  lemma FoundInMore(idx: Index, ms: seq<Mention>, m: Mention, svc: Service, ns: string)
    ensures FoundIn(idx, ms + [m], svc, ns) <==> FoundIn(idx, ms, svc, ns) || Lookup(idx, m.token, ns) == Some(svc)
  {
    hide Lookup;
    var more := ms + [m];
    assert more[|ms|] == m;
    assert forall k :: 0 <= k < |ms| ==> more[k] == ms[k];
    if FoundIn(idx, ms, svc, ns) {
      var k: nat :| k < |ms| && Lookup(idx, ms[k].token, ns) == Some(svc);
      assert Lookup(idx, more[k].token, ns) == Some(svc);
    }
  }

  lemma {:induction false} SeenAreFound(idx: Index, served: set<Key>, w: Workload, ms: seq<Mention>, svc: Service)
    ensures svc in Heard(idx, served, w, ms).seen <==> FoundIn(idx, ms, svc, w.ref.ns)
  {
    hide Lookup;
    if ms == [] {
    } else {
      var n := |ms| - 1;
      SeenAreFound(idx, served, w, ms[..n], svc);
      FoundInMore(idx, ms[..n], ms[n], svc, w.ref.ns);
      assert ms == ms[..n] + [ms[n]];
    }
  }

  /** An edge the index leads to. */
  ghost predicate HeardAt(idx: Index, served: set<Key>, w: Workload, ms: seq<Mention>, k: nat, r: Relationship) {
    && k < |ms|
    && Lookup(idx, ms[k].token, w.ref.ns).Some?
    && var svc := Lookup(idx, ms[k].token, w.ref.ns).value;
       && !FoundIn(idx, ms[..k], svc, w.ref.ns)
       && Key(svc.ns, svc.name, w.ref) !in served
       && r == TalksEdge(w, svc, ms[k])
  }

  lemma {:induction false} HeardEdges(idx: Index, served: set<Key>, w: Workload, ms: seq<Mention>, r: Relationship)
    ensures r in Heard(idx, served, w, ms).out <==> exists k: nat :: HeardAt(idx, served, w, ms, k, r)
  {
    hide Lookup;
    hide FoundIn;
    if ms == [] {
      return;
    }
    var n := |ms| - 1;
    var init, m := ms[..n], ms[n];
    HeardEdges(idx, served, w, init, r);
    forall k: nat | k < n
      ensures HeardAt(idx, served, w, ms, k, r) <==> HeardAt(idx, served, w, init, k, r)
    {
      assert ms[..k] == init[..k];
    }
    if Lookup(idx, m.token, w.ref.ns).Some? {
      SeenAreFound(idx, served, w, init, Lookup(idx, m.token, w.ref.ns).value);
    }
    assert r in Heard(idx, served, w, ms).out <==>
      r in Heard(idx, served, w, init).out || HeardAt(idx, served, w, ms, n, r);
    if k: nat :| HeardAt(idx, served, w, init, k, r) {
      assert HeardAt(idx, served, w, ms, k, r);
    }
    if k: nat :| HeardAt(idx, served, w, ms, k, r) {
      assert k == n || HeardAt(idx, served, w, init, k, r);
    }
  }

  /** Resolving each name through the index is scanning all Services for one that it addresses. */
  lemma FoundMeansReached(idx: Index, services: seq<Service>, ms: seq<Mention>, svc: Service, ns: string)
    requires Indexes(idx, services) && ServiceIndex.Proper(services) && svc in services && IsLabel(ns)
    ensures FoundIn(idx, ms, svc, ns) <==> exists k: nat :: k < |ms| && Reaches(ms[k].token, svc, ns)
  {
    forall k: nat | k < |ms|
      ensures Lookup(idx, ms[k].token, ns) == Some(svc) <==> Reaches(ms[k].token, svc, ns)
    {
      LookupFinds(idx, services, ms[k].token, ns, svc);
    }
  }

  /** The keys of what is served tell who serves whom. */
  ghost predicate KnowsServed(served: set<Key>, services: seq<Service>, w: Workload) {
    forall svc :: svc in services ==> (Key(svc.ns, svc.name, w.ref) in served <==> Serves(svc, w))
  }

  lemma FirstIsFirst(idx: Index, services: seq<Service>, ms: seq<Mention>, k: nat, svc: Service, ns: string)
    requires Indexes(idx, services) && ServiceIndex.Proper(services) && svc in services && IsLabel(ns) && k < |ms|
    ensures FirstTo(ms, k, svc, ns) <==> Lookup(idx, ms[k].token, ns) == Some(svc) && !FoundIn(idx, ms[..k], svc, ns)
  {
    LookupFinds(idx, services, ms[k].token, ns, svc);
    FoundMeansReached(idx, services, ms[..k], svc, ns);
    hide Reaches;
    hide Lookup;
    assert forall j :: 0 <= j < k ==> ms[..k][j] == ms[j];
  }

  /** The edges found through the index are those of the naive scan, with the first mention as evidence. */
  lemma TalkEdges(idx: Index, services: seq<Service>, served: set<Key>, w: Workload, r: Relationship)
    requires Indexes(idx, services) && ServiceIndex.Proper(services) && IsLabel(w.ref.ns)
    requires KnowsServed(served, services, w)
    ensures r in Heard(idx, served, w, MentionsOf(w.texts)).out <==>
            exists svc | svc in services :: TalksWith(w, svc, r)
  {
    hide Lookup;
    hide Reaches;
    hide FoundIn;
    hide Serves;
    hide ServiceIndex.Proper;
    hide Indexes;
    var ms := MentionsOf(w.texts);
    HeardEdges(idx, served, w, ms, r);
    if k: nat :| HeardAt(idx, served, w, ms, k, r) {
      var svc := Lookup(idx, ms[k].token, w.ref.ns).value;
      LookupIsService(idx, services, ms[k].token, w.ref.ns);
      FirstIsFirst(idx, services, ms, k, svc, w.ref.ns);
      assert TalksWith(w, svc, r);
    }
    if svc :| svc in services && TalksWith(w, svc, r) {
      var k: nat :| FirstTo(ms, k, svc, w.ref.ns) && r == TalksEdge(w, svc, ms[k]);
      FirstIsFirst(idx, services, ms, k, svc, w.ref.ns);
      assert HeardAt(idx, served, w, ms, k, r);
    }
  }

  lemma {:induction false} InServesRow(svc: Service, workloads: seq<Workload>, r: Relationship)
    ensures r in ServesRow(svc, workloads) <==> exists w | w in workloads :: Serves(svc, w) && r == ServesEdge(svc, w)
  {
    hide Serves;
    if workloads == [] {
    } else {
      var n := |workloads| - 1;
      InServesRow(svc, workloads[..n], r);
      assert workloads == workloads[..n] + [workloads[n]];
    }
  }

  lemma {:induction false} InServesRows(services: seq<Service>, workloads: seq<Workload>, r: Relationship)
    ensures r in ServesRows(services, workloads) <==> IsServes(services, workloads, r)
  {
    hide Serves;
    if services == [] {
    } else {
      var n := |services| - 1;
      InServesRows(services[..n], workloads, r);
      InServesRow(services[n], workloads, r);
      assert services == services[..n] + [services[n]];
    }
  }

  lemma SameService(services: seq<Service>, a: Service, b: Service)
    requires Distinct(services) && a in services && b in services && a.ns == b.ns && a.name == b.name
    ensures a == b
  {
  }

  lemma SameWorkload(workloads: seq<Workload>, a: Workload, b: Workload)
    requires ProperWorkloads(workloads) && a in workloads && b in workloads && SameParty(a.ref, b.ref)
    ensures a == b
  {
  }

  lemma ServedIsKnown(services: seq<Service>, workloads: seq<Workload>, w: Workload)
    requires ServiceIndex.Proper(services) && ProperWorkloads(workloads) && w in workloads
    ensures KnowsServed(KeysOf(ServesRows(services, workloads)), services, w)
  {
    var rows := ServesRows(services, workloads);
    forall svc | svc in services
      ensures Key(svc.ns, svc.name, w.ref) in KeysOf(rows) <==> Serves(svc, w)
    {
      hide Serves;
      var r := ServesEdge(svc, w);
      InServesRows(services, workloads, r);
      if Serves(svc, w) {
        assert r in rows && KeyOf(r) == Key(svc.ns, svc.name, w.ref);
      }
      if Key(svc.ns, svc.name, w.ref) in KeysOf(rows) {
        var e :| e in rows && KeyOf(e) == Key(svc.ns, svc.name, w.ref);
        InServesRows(services, workloads, e);
        var svc', w' :| svc' in services && w' in workloads && Serves(svc', w') && e == ServesEdge(svc', w');
        SameService(services, svc, svc');
        SameWorkload(workloads, w, w');
      }
    }
  }

  // ---------- Each edge once ----------

  /** Edges between the same parties, of the same type, are the same edge. */
  lemma OneEdgeEach(services: seq<Service>, workloads: seq<Workload>, a: Relationship, b: Relationship)
    requires ServiceIndex.Proper(services) && ProperWorkloads(workloads)
    requires IsEdge(services, workloads, a) && IsEdge(services, workloads, b) && SameEdge(a, b)
    ensures a == b
  {
    hide Serves;
    hide Reaches;
    if a.typ.Serves? {
      var svc, w :| svc in services && w in workloads && Serves(svc, w) && a == ServesEdge(svc, w);
      var svc', w' :| svc' in services && w' in workloads && Serves(svc', w') && b == ServesEdge(svc', w');
      SameService(services, svc, svc');
      SameWorkload(workloads, w, w');
    } else {
      var svc, w :| svc in services && w in workloads && TalksWith(w, svc, a);
      var svc', w' :| svc' in services && w' in workloads && TalksWith(w', svc', b);
      SameService(services, svc, svc');
      SameWorkload(workloads, w, w');
    }
  }

  lemma {:induction false} ServesRowOnce(svc: Service, workloads: seq<Workload>)
    requires ProperWorkloads(workloads)
    ensures NoRepeats(ServesRow(svc, workloads))
  {
    hide Serves;
    if workloads == [] {
    } else {
      var n := |workloads| - 1;
      assert workloads == workloads[..n] + [workloads[n]];
      ServesRowOnce(svc, workloads[..n]);
      InServesRow(svc, workloads[..n], ServesEdge(svc, workloads[n]));
    }
  }

  lemma {:induction false} ServesRowsOnce(services: seq<Service>, workloads: seq<Workload>)
    requires Distinct(services) && ProperWorkloads(workloads)
    ensures NoRepeats(ServesRows(services, workloads))
  {
    hide Serves;
    if services == [] {
    } else {
      var n := |services| - 1;
      var init, last := ServesRows(services[..n], workloads), ServesRow(services[n], workloads);
      ServesRowsOnce(services[..n], workloads);
      ServesRowOnce(services[n], workloads);
      forall r | r in last
        ensures r !in init
      {
        InServesRow(services[n], workloads, r);
        InServesRows(services[..n], workloads, r);
      }
      AppendOnce(init, last);
    }
  }

  lemma AppendOnce<T>(a: seq<T>, b: seq<T>)
    requires NoRepeats(a) && NoRepeats(b) && forall x :: x in b ==> x !in a
    ensures NoRepeats(a + b)
  {
    var c := a + b;
    forall i, j | 0 <= i < j < |c|
      ensures c[i] != c[j]
    {
      if i < |a| <= j {
        assert c[i] in a && c[j] in b;
      }
    }
  }

  lemma {:induction false} HeardOnce(idx: Index, services: seq<Service>, served: set<Key>, w: Workload,
                                     ms: seq<Mention>)
    requires Indexes(idx, services) && Distinct(services)
    ensures NoRepeats(Heard(idx, served, w, ms).out)
  {
    hide Lookup;
    hide Distinct;
    hide Indexes;
    if ms == [] {
    } else {
      var n := |ms| - 1;
      var m, t := ms[n], Heard(idx, served, w, ms[..n]);
      HeardOnce(idx, services, served, w, ms[..n]);
      var found := Lookup(idx, m.token, w.ref.ns);
      if found.Some? && found.value !in t.seen {
        var r := TalksEdge(w, found.value, m);
        NewEdge(idx, services, served, w, ms[..n], found.value, r);
        AppendOnce(t.out, [r]);
      }
    }
  }

  lemma NewEdge(idx: Index, services: seq<Service>, served: set<Key>, w: Workload, ms: seq<Mention>,
                svc: Service, r: Relationship)
    requires Indexes(idx, services) && Distinct(services) && svc !in Heard(idx, served, w, ms).seen
    requires exists m :: Lookup(idx, m, w.ref.ns) == Some(svc)
    requires r.to == ServiceRef(svc)
    ensures r !in Heard(idx, served, w, ms).out
  {
    HeardEdges(idx, served, w, ms, r);
    SeenAreFound(idx, served, w, ms, svc);
    var m :| Lookup(idx, m, w.ref.ns) == Some(svc);
    LookupIsService(idx, services, m, w.ref.ns);
    hide Lookup;
    if k: nat :| HeardAt(idx, served, w, ms, k, r) {
      LookupIsService(idx, services, ms[k].token, w.ref.ns);
      SameService(services, svc, Lookup(idx, ms[k].token, w.ref.ns).value);
    }
  }

  // ---------- The graph ----------

  function TalksRows(idx: Index, served: set<Key>, workloads: seq<Workload>): seq<Relationship> {
    if workloads == [] then []
    else
      var w := workloads[|workloads| - 1];
      TalksRows(idx, served, workloads[..|workloads| - 1]) + Heard(idx, served, w, MentionsOf(w.texts)).out
  }

  lemma OneMoreTalker(services: seq<Service>, workloads: seq<Workload>, w: Workload, r: Relationship)
    ensures IsTalks(services, workloads + [w], r) <==>
            IsTalks(services, workloads, r) || exists svc | svc in services :: TalksWith(w, svc, r)
  {
    hide TalksWith;
    forall v
      ensures v in workloads + [w] <==> v in workloads || v == w
    {
    }
  }

  lemma {:induction false} InTalksRows(idx: Index, services: seq<Service>, served: set<Key>,
                                       workloads: seq<Workload>, r: Relationship)
    requires Indexes(idx, services) && ServiceIndex.Proper(services) && ProperWorkloads(workloads)
    requires forall w :: w in workloads ==> KnowsServed(served, services, w)
    ensures r in TalksRows(idx, served, workloads) <==> IsTalks(services, workloads, r)
  {
    hide KnowsServed;
    hide TalksWith;
    hide Indexes;
    hide ServiceIndex.Proper;
    hide Heard;
    hide MentionsOf;
    if workloads == [] {
    } else {
      hide IsTalks;
      var n := |workloads| - 1;
      assert workloads == workloads[..n] + [workloads[n]];
      InTalksRows(idx, services, served, workloads[..n], r);
      TalkEdges(idx, services, served, workloads[n], r);
      OneMoreTalker(services, workloads[..n], workloads[n], r);
    }
  }

  lemma {:induction false} TalksRowsOnce(idx: Index, services: seq<Service>, served: set<Key>, workloads: seq<Workload>)
    requires Indexes(idx, services) && ServiceIndex.Proper(services) && ProperWorkloads(workloads)
    requires forall w :: w in workloads ==> KnowsServed(served, services, w)
    ensures NoRepeats(TalksRows(idx, served, workloads))
  {
    hide KnowsServed;
    hide Indexes;
    if workloads == [] {
    } else {
      var n := |workloads| - 1;
      var w := workloads[n];
      assert workloads == workloads[..n] + [w];
      TalksRowsOnce(idx, services, served, workloads[..n]);
      HeardOnce(idx, services, served, w, MentionsOf(w.texts));
      var init, last := TalksRows(idx, served, workloads[..n]), Heard(idx, served, w, MentionsOf(w.texts)).out;
      forall r | r in last
        ensures r !in init
      {
        TalkEdges(idx, services, served, w, r);
        InTalksRows(idx, services, served, workloads[..n], r);
      }
      AppendOnce(init, last);
    }
  }

  function ByName(digest: string -> string): (Relationship, Relationship) -> bool {
    (a, b) => Text.StringLe(Name(a, digest), Name(b, digest))
  }

  lemma ByNameIsOrder(digest: string -> string)
    ensures Sorting.TotalPreorder(ByName(digest))
  {
    Sorting.StringOrder();
    hide Name;
    hide Text.StringLe;
  }

  /** These are the edges of the naive product, each once. */
  ghost predicate IsGraph(services: seq<Service>, workloads: seq<Workload>, edges: seq<Relationship>) {
    NoRepeats(edges) && forall r :: r in edges <==> IsEdge(services, workloads, r)
  }

  lemma SortedGraph(services: seq<Service>, workloads: seq<Workload>, digest: string -> string,
                    edges: seq<Relationship>)
    requires IsGraph(services, workloads, edges)
    ensures IsGraph(services, workloads, Sorting.Sort(ByName(digest), edges))
    ensures Sorting.Ascending(ByName(digest), Sorting.Sort(ByName(digest), edges))
  {
    hide IsEdge;
    var le := ByName(digest);
    ByNameIsOrder(digest);
    Sorting.SortAscends(le, edges);
    Sorting.SortContents(le, edges);
    Sorting.SameElements(Sorting.Sort(le, edges), edges);
    Sorting.SameRepeats(edges, Sorting.Sort(le, edges));
  }

  lemma GraphEdges(services: seq<Service>, workloads: seq<Workload>, idx: Index, served: set<Key>)
    requires ServiceIndex.Proper(services) && ProperWorkloads(workloads) && Indexes(idx, services)
    requires served == KeysOf(ServesRows(services, workloads))
    ensures IsGraph(services, workloads, ServesRows(services, workloads) + TalksRows(idx, served, workloads))
  {
    hide KnowsServed;
    hide Indexes;
    forall w | w in workloads
      ensures KnowsServed(served, services, w)
    {
      ServedIsKnown(services, workloads, w);
    }
    var serves, talks := ServesRows(services, workloads), TalksRows(idx, served, workloads);
    forall r
      ensures r in serves <==> IsServes(services, workloads, r)
      ensures r in talks <==> IsTalks(services, workloads, r)
    {
      InServesRows(services, workloads, r);
      InTalksRows(idx, services, served, workloads, r);
    }
    ServesRowsOnce(services, workloads);
    TalksRowsOnce(idx, services, served, workloads);
    AppendOnce(serves, talks);
  }

  lemma NextTalksRow(idx: Index, served: set<Key>, workloads: seq<Workload>, n: nat)
    requires n < |workloads|
    ensures TalksRows(idx, served, workloads[..n + 1]) ==
            TalksRows(idx, served, workloads[..n]) +
            Heard(idx, served, workloads[n], MentionsOf(workloads[n].texts)).out
  {
    hide Heard;
    hide MentionsOf;
    assert workloads[..n + 1][..n] == workloads[..n];
  }

  /**
   * One pass over the texts, through the index, gives exactly the edges of the naive product
   * of Services, workloads and mentions: each once, ordered by name.
   */
  method Graph(services: seq<Service>, workloads: seq<Workload>, digest: string -> string)
    returns (out: seq<Relationship>)
    requires ServiceIndex.Proper(services) && ProperWorkloads(workloads)
    ensures IsGraph(services, workloads, out) && Sorting.Ascending(ByName(digest), out)
  {
    hide Indexes;
    hide ServiceIndex.Proper;
    hide ProperWorkloads;
    hide IsGraph;
    hide ByName;
    hide Heard;
    hide KeysOf;
    hide ServesRows;
    hide TalksRows;
    hide MentionsOf;
    hide Sorting.Ascending;
    hide Sorting.Sort;
    var serves, served := Served(services, workloads);
    var idx := NewServiceIndex(services);
    out := serves;
    assert TalksRows(idx, served, []) == [] by { NoTalks(idx, served); }
    for n := 0 to |workloads|
      invariant out == serves + TalksRows(idx, served, workloads[..n])
    {
      NextTalksRow(idx, served, workloads, n);
      var more := TalksOf(idx, served, workloads[n]);
      out := out + more;
    }
    assert workloads[..|workloads|] == workloads;
    GraphEdges(services, workloads, idx, served);
    SortedGraph(services, workloads, digest, out);
    out := Sorting.Sort(ByName(digest), out);
  }

  lemma NoTalks(idx: Index, served: set<Key>)
    ensures TalksRows(idx, served, []) == []
  {
  }

  // ---------- Object names ----------

  lemma EdgesAreProducible(services: seq<Service>, workloads: seq<Workload>, r: Relationship)
    requires ServiceIndex.Proper(services) && ProperWorkloads(workloads) && IsEdge(services, workloads, r)
    requires forall w :: w in workloads ==> IsSubdomain(w.ref.name)
    ensures Producible(r)
  {
    hide Reaches;
    hide IsLabel;
    hide IsSubdomain;
  }

  /** No two edges of a graph are stored under one name in one namespace, unless a name is cut. */
  lemma EdgesHaveTheirOwnNames(services: seq<Service>, workloads: seq<Workload>, digest: string -> string,
                               a: Relationship, b: Relationship)
    requires ServiceIndex.Proper(services) && ProperWorkloads(workloads)
    requires forall w :: w in workloads ==> IsSubdomain(w.ref.name)
    requires IsEdge(services, workloads, a) && IsEdge(services, workloads, b)
    requires |FullName(a)| <= MAX_NAME && |FullName(b)| <= MAX_NAME
    requires a.from.ns == b.from.ns && Name(a, digest) == Name(b, digest)
    ensures a == b
  {
    EdgesAreProducible(services, workloads, a);
    EdgesAreProducible(services, workloads, b);
    NamesDoNotCollide(a, b, digest);
    OneEdgeEach(services, workloads, a, b);
  }
}
