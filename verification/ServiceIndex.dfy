/** The index that resolves a host name to a Service, as a workload's namespace would. */
module ServiceIndex {
  import opened Base
  import opened HostTokens
  import opened RelationshipNames

  datatype Service = Service(ns: string, name: string, uid: string, selector: map<string, string>)

  /** Namespaces and Service names are dotless DNS labels. */
  predicate Labelled(svc: Service) {
    IsLabel(svc.ns) && IsLabel(svc.name)
  }

  /** No two Services share a namespace and a name. */
  ghost predicate Distinct(services: seq<Service>) {
    forall i, j | 0 <= i < j < |services| :: services[i].ns != services[j].ns || services[i].name != services[j].name
  }

  ghost predicate Proper(services: seq<Service>) {
    Distinct(services) && forall svc :: svc in services ==> Labelled(svc)
  }

  /** Services by name.namespace, and by namespace/name. */
  datatype Index = Index(qualified: map<string, Service>, short: map<string, Service>)

  function Qualified(svc: Service): string {
    svc.name + "." + svc.ns
  }

  function Short(ns: string, name: string): string {
    ns + "/" + name
  }

  function Get<T>(m: map<string, T>, key: string): Option<T> {
    if key in m then Some(m[key]) else None
  }

  /** name.namespace of the qualified forms. */
  function Stripped(host: string): string {
    match Find(host, ".svc.")
    case Some(i) => host[..i]
    case None => TrimSuffix(host, ".svc")
  }

  function Lookup(idx: Index, t: Token, ns: string): Option<Service> {
    if '.' in t.host then Get(idx.qualified, Stripped(t.host))
    else if t.strong then Get(idx.short, Short(ns, t.host))
    else None
  }

  // ---------- What a host name means ----------

  /** name.ns, name.ns.svc and name.ns.svc.<anything>. */
  predicate IsQualifiedFor(host: string, svc: Service) {
    var qualified := svc.name + "." + svc.ns;
    host == qualified || host == qualified + ".svc" || qualified + ".svc." <= host
  }

  /** A qualified name from anywhere; the short name from the same namespace, where it is used as a host. */
  predicate Addresses(t: Token, svc: Service, ns: string) {
    IsQualifiedFor(t.host, svc) || (t.strong && t.host == svc.name && ns == svc.ns)
  }

  /** As above, except that a namespace called svc hides its Services' qualified names. */
  predicate Reaches(t: Token, svc: Service, ns: string) {
    Addresses(t, svc, ns) && (svc.ns != "svc" || '.' !in t.host)
  }

  lemma DotsOfQualified(svc: Service)
    requires Labelled(svc)
    ensures var q := Qualified(svc);
      && q[|svc.name|] == '.' && q[|svc.name| + 1..] == svc.ns
      && forall k :: 0 <= k < |q| && q[k] == '.' ==> k == |svc.name|
  {
    var q := Qualified(svc);
    assert forall k :: 0 <= k < |svc.name| ==> q[k] == svc.name[k] && svc.name[k] in svc.name;
    assert forall k :: |svc.name| < k < |q| ==> q[k] == svc.ns[k - |svc.name| - 1] && q[k] in svc.ns;
  }

  lemma HasMarker(s: string, k: nat)
    ensures HasAt(s, ".svc.", k) <==>
      k + 5 <= |s| && s[k] == '.' && s[k + 1] == 's' && s[k + 2] == 'v' && s[k + 3] == 'c' && s[k + 4] == '.'
  {
    if k + 5 <= |s| {
      assert s[k..k + 5] == [s[k], s[k + 1], s[k + 2], s[k + 3], s[k + 4]];
    }
  }

  /** Past name.ns comes nothing, or a dot. */
  lemma NoMarkerInside(host: string, svc: Service, k: nat)
    requires Labelled(svc) && svc.ns != "svc" && Qualified(svc) <= host && k < |Qualified(svc)|
    requires |host| == |Qualified(svc)| || host[|Qualified(svc)|] == '.'
    ensures !HasAt(host, ".svc.", k)
  {
    var q, n := Qualified(svc), |svc.name|;
    DotsOfQualified(svc);
    HasMarker(host, k);
    assert forall i :: 0 <= i < |q| ==> host[i] == q[i];
    assert |svc.ns| == 3 ==> svc.ns == [q[n + 1], q[n + 2], q[n + 3]];
  }

  lemma MarkerAfter(svc: Service, host: string)
    requires Labelled(svc) && svc.ns == "svc" && Qualified(svc) + "." <= host
    ensures HasAt(host, ".svc.", |svc.name|)
  {
    DotsOfQualified(svc);
    var q, n := Qualified(svc) + ".", |svc.name|;
    assert forall i :: 0 <= i < |q| ==> host[i] == q[i];
    assert q[n + 1..n + 4] == "svc";
    assert q[n + 1] == 's' && q[n + 2] == 'v' && q[n + 3] == 'c';
    HasMarker(host, n);
  }

  lemma QualifiedIsStripped(host: string, svc: Service)
    requires Labelled(svc) && IsQualifiedFor(host, svc) && svc.ns != "svc"
    ensures Stripped(host) == Qualified(svc)
  {
    var q := Qualified(svc);
    forall k | 0 <= k < |q|
      ensures !HasAt(host, ".svc.", k)
    {
      NoMarkerInside(host, svc, k);
    }
    if q + ".svc." <= host {
      assert host[|q|..|q| + 5] == ".svc.";
      assert HasAt(host, ".svc.", |q|);
    } else {
      EndsInSvc(svc);
      assert Find(host, ".svc.").None?;
    }
  }

  lemma EndsInSvc(svc: Service)
    requires Labelled(svc)
    ensures var q := Qualified(svc); 4 <= |q| && q[|q| - 4..] == ".svc" <==> svc.ns == "svc"
  {
    var q := Qualified(svc);
    DotsOfQualified(svc);
    if 4 <= |q| && q[|q| - 4..] == ".svc" {
      assert q[|q| - 4] == ".svc"[0];
      assert svc.ns == ".svc"[1..];
    }
    if svc.ns == "svc" {
      assert q[|q| - 4..] == ".svc";
    }
  }

  lemma StrippedIsQualified(host: string, svc: Service)
    requires Labelled(svc) && Stripped(host) == Qualified(svc)
    ensures IsQualifiedFor(host, svc) && svc.ns != "svc"
  {
    var q := Qualified(svc);
    match Find(host, ".svc.")
    case Some(i) =>
      assert host == q + host[i..] && host[i..i + 5] == ".svc.";
      assert q + ".svc." <= host;
      if svc.ns == "svc" {
        MarkerAfter(svc, host);
      }
    case None =>
      if host != q {
        assert host == q + ".svc";
        if svc.ns == "svc" {
          MarkerAfter(svc, host);
        }
      } else {
        EndsInSvc(svc);
      }
  }

  // ---------- The index ----------

  /** Every Service is found under its key, and only Services are found, under their keys. */
  ghost predicate Finds(m: map<string, Service>, key: Service -> string, services: seq<Service>) {
    && (forall svc :: svc in services ==> key(svc) in m && m[key(svc)] == svc)
    && (forall k :: k in m ==> m[k] in services && key(m[k]) == k)
  }

  ghost predicate Indexes(idx: Index, services: seq<Service>) {
    Finds(idx.qualified, Qualified, services) && Finds(idx.short, ShortOf, services)
  }

  function ShortOf(svc: Service): string {
    Short(svc.ns, svc.name)
  }

  lemma FindsMore(m: map<string, Service>, key: Service -> string, services: seq<Service>, svc: Service)
    requires Finds(m, key, services) && forall other :: other in services ==> key(other) != key(svc)
    ensures Finds(m[key(svc) := svc], key, services + [svc])
  {
  }

  lemma SplitAt(a: string, c: char, s: string, b: string, t: string)
    requires c !in a && c !in b && a + [c] + s == b + [c] + t
    ensures a == b && s == t
  {
    var w := a + [c] + s;
    assert forall k :: 0 <= k < |a| ==> w[k] == a[k] && a[k] in a;
    assert forall k :: 0 <= k < |b| ==> w[k] == b[k] && b[k] in b;
    assert w[|a|] == c && w[|b|] == c;
    assert a == w[..|a|] && b == w[..|b|] && s == w[|a| + 1..] && t == w[|b| + 1..];
  }

  lemma KeysDiffer(a: Service, b: Service)
    requires Labelled(a) && Labelled(b) && (Qualified(a) == Qualified(b) || Short(a.ns, a.name) == Short(b.ns, b.name))
    ensures a.ns == b.ns && a.name == b.name
  {
    if Qualified(a) == Qualified(b) {
      SplitAt(a.name, '.', a.ns, b.name, b.ns);
    } else {
      SplitAt(a.ns, '/', a.name, b.ns, b.name);
    }
  }

  lemma NewKeys(services: seq<Service>, n: nat)
    requires Proper(services) && n < |services|
    ensures forall svc :: svc in services[..n] ==>
      Qualified(svc) != Qualified(services[n]) && ShortOf(svc) != ShortOf(services[n])
  {
    forall i | 0 <= i < n
      ensures Qualified(services[i]) != Qualified(services[n]) && ShortOf(services[i]) != ShortOf(services[n])
    {
      assert services[i] in services && services[n] in services;
      if Qualified(services[i]) == Qualified(services[n]) || ShortOf(services[i]) == ShortOf(services[n]) {
        KeysDiffer(services[i], services[n]);
      }
    }
  }

  method NewServiceIndex(services: seq<Service>) returns (idx: Index)
    requires Proper(services)
    ensures Indexes(idx, services)
  {
    hide Finds;
    idx := Index(map[], map[]);
    assert Indexes(idx, []) by { NothingFound(); }
    for n := 0 to |services|
      invariant Indexes(idx, services[..n])
    {
      var svc := services[n];
      NewKeys(services, n);
      FindsMore(idx.qualified, Qualified, services[..n], svc);
      FindsMore(idx.short, ShortOf, services[..n], svc);
      assert services[..n + 1] == services[..n] + [svc];
      idx := Index(idx.qualified[Qualified(svc) := svc], idx.short[ShortOf(svc) := svc]);
    }
    assert services[..|services|] == services;
  }

  lemma NothingFound()
    ensures Indexes(Index(map[], map[]), [])
  {
  }

  /** The index finds a Service for exactly the names that reach it. */
  lemma LookupFinds(idx: Index, services: seq<Service>, t: Token, ns: string, svc: Service)
    requires Indexes(idx, services) && Proper(services) && svc in services && IsLabel(ns)
    ensures Lookup(idx, t, ns) == Some(svc) <==> Reaches(t, svc, ns)
  {
    if '.' in t.host {
      if IsQualifiedFor(t.host, svc) && svc.ns != "svc" {
        QualifiedIsStripped(t.host, svc);
      }
      if Stripped(t.host) == Qualified(svc) {
        StrippedIsQualified(t.host, svc);
      }
    } else {
      NotQualified(t.host, svc);
      if Short(ns, t.host) == Short(svc.ns, svc.name) {
        SplitAt(ns, '/', t.host, svc.ns, svc.name);
      }
    }
  }

  /** A Service in a namespace called svc, and how it is addressed. */
  function DbInSvc(): Service {
    Service.Service("svc", "db", "uid", map[])
  }

  /** It is addressed by its qualified name, and yet not found. */
  lemma NamespaceSvcHides(idx: Index, ns: string)
    requires Indexes(idx, [DbInSvc()]) && IsLabel(ns)
    ensures Addresses(Token("db.svc", true), DbInSvc(), ns) && Lookup(idx, Token("db.svc", true), ns) == None
  {
    var t := Token("db.svc", true);
    assert Qualified(DbInSvc()) == "db.svc";
    LookupFinds(idx, [DbInSvc()], t, ns, DbInSvc());
    assert t.host[2] == '.';
    if Lookup(idx, t, ns).Some? {
      LookupIsService(idx, [DbInSvc()], t, ns);
    }
  }

  lemma PrefixChars(p: string, s: string)
    requires p <= s
    ensures forall c :: c in p ==> c in s
  {
    assert forall i :: 0 <= i < |p| ==> s[i] == p[i];
  }

  lemma NotQualified(host: string, svc: Service)
    requires '.' !in host
    ensures !IsQualifiedFor(host, svc)
  {
    var q := Qualified(svc);
    assert q[|svc.name|] == '.';
    assert '.' in q;
    if q <= host {
      PrefixChars(q, host);
    }
  }

  lemma LookupIsService(idx: Index, services: seq<Service>, t: Token, ns: string)
    requires Indexes(idx, services) && Lookup(idx, t, ns).Some?
    ensures Lookup(idx, t, ns).value in services
  {
  }
}
