/** The edges of the graph in terms of labels and host names, and the texts that make them. */
module NamedEdges {
  import opened Base
  import opened FieldTokens
  import opened HostTokens
  import opened RelationshipNames
  import opened Relationships
  import opened ServiceIndex

  // ---------- What an edge stands for ----------

  /** The Service selects something, and in its namespace the workload has every label it selects. */
  ghost predicate Selects(svc: Service, w: Workload) {
    && w.ref.ns == svc.ns && |svc.selector| > 0
    && forall k :: k in svc.selector ==> k in w.labels && w.labels[k] == svc.selector[k]
  }

  /** A host is name.namespace, with .svc and what may follow that; or, where it is one for sure, the name alone. */
  ghost predicate Names(t: Token, svc: Service, ns: string) {
    var qualified := svc.name + "." + svc.ns;
    || (svc.ns != "svc" &&
        (t.host == qualified || t.host == qualified + ".svc" ||
         exists rest :: t.host == qualified + ".svc." + rest))
    || (t.strong && t.host == svc.name && ns == svc.ns)
  }

  lemma StartsBefore(s: string, host: string)
    ensures s <= host <==> exists rest :: host == s + rest
  {
    if s <= host {
      assert host == s + host[|s|..];
    }
  }

  lemma ReachedByName(t: Token, svc: Service, ns: string)
    requires Labelled(svc)
    ensures Reaches(t, svc, ns) <==> Names(t, svc, ns)
  {
    StartsBefore(svc.name + "." + svc.ns + ".svc.", t.host);
    if '.' !in t.host {
      NotQualified(t.host, svc);
    }
    hide StartsWith;
    var q := svc.name + "." + svc.ns;
    assert q[|svc.name|] == '.';
    if t.host == svc.name {
      assert '.' !in t.host;
    }
  }

  /** The edge of a Service that selects a workload. */
  ghost predicate ServingEdge(svc: Service, w: Workload, r: Relationship) {
    && Selects(svc, w) && r.typ.Serves?
    && r.from == Ref(Kind.Service, svc.ns, svc.name, svc.uid) && r.to == w.ref
    && r.evidence == BySelector(svc.selector)
  }

  /** The edge of a workload that names a Service which does not select it, with the first place that does. */
  ghost predicate TalkingEdge(svc: Service, w: Workload, k: nat, r: Relationship) {
    var ms := MentionsOf(w.texts);
    && !Selects(svc, w) && r.typ.TalksTo?
    && r.from == w.ref && r.to == Ref(Kind.Service, svc.ns, svc.name, svc.uid)
    && k < |ms| && Names(ms[k].token, svc, w.ref.ns)
    && (forall j :: 0 <= j < k ==> !Names(ms[j].token, svc, w.ref.ns))
    && r.evidence == Mentions(ms[k].place, ms[k].token.host)
  }

  lemma ServingEdgeIs(svc: Service, w: Workload, r: Relationship)
    ensures Relationships.Serves(svc, w) <==> Selects(svc, w)
    ensures Relationships.Serves(svc, w) && r == ServesEdge(svc, w) <==> ServingEdge(svc, w, r)
  {
    assert |svc.selector| == 0 <==> svc.selector == map[];
  }

  lemma TalkingEdgeIs(svc: Service, w: Workload, r: Relationship)
    requires Labelled(svc)
    ensures TalksWith(w, svc, r) <==> exists k: nat :: TalkingEdge(svc, w, k, r)
  {
    var ms := MentionsOf(w.texts);
    ServingEdgeIs(svc, w, r);
    forall k: nat | k < |ms|
      ensures Reaches(ms[k].token, svc, w.ref.ns) <==> Names(ms[k].token, svc, w.ref.ns)
    {
      ReachedByName(ms[k].token, svc, w.ref.ns);
    }
    hide Relationships.Serves;
    hide Selects;
    hide Reaches;
    hide Names;
    hide MentionsOf;
    if k: nat :| FirstTo(ms, k, svc, w.ref.ns) && r == TalksEdge(w, svc, ms[k]) && !Relationships.Serves(svc, w) {
      assert TalkingEdge(svc, w, k, r);
    }
    if k: nat :| TalkingEdge(svc, w, k, r) {
      assert FirstTo(ms, k, svc, w.ref.ns) && r == TalksEdge(w, svc, ms[k]);
    }
  }

  lemma ServingEdges(services: seq<Service>, workloads: seq<Workload>, r: Relationship)
    ensures IsServes(services, workloads, r) <==>
            exists svc, w | svc in services && w in workloads :: ServingEdge(svc, w, r)
  {
    if svc, w :| svc in services && w in workloads && Relationships.Serves(svc, w) && r == ServesEdge(svc, w) {
      ServingEdgeIs(svc, w, r);
    }
    if svc, w :| svc in services && w in workloads && ServingEdge(svc, w, r) {
      ServingEdgeIs(svc, w, r);
    }
    hide ServingEdge;
    hide Relationships.Serves;
    hide ServesEdge;
  }

  lemma TalkingEdges(services: seq<Service>, workloads: seq<Workload>, r: Relationship)
    requires forall svc :: svc in services ==> Labelled(svc)
    ensures IsTalks(services, workloads, r) <==>
            exists svc, w, k: nat | svc in services && w in workloads :: TalkingEdge(svc, w, k, r)
  {
    if svc, w :| svc in services && w in workloads && TalksWith(w, svc, r) {
      TalkingEdgeIs(svc, w, r);
    }
    if svc, w, k: nat :| svc in services && w in workloads && TalkingEdge(svc, w, k, r) {
      TalkingEdgeIs(svc, w, r);
    }
    hide TalkingEdge;
    hide TalksWith;
    hide Labelled;
  }

  /**
   * The edges of a graph: a Service serves each workload of its namespace whose labels it
   * selects, and a workload talks to each other Service that one of its texts names.
   */
  lemma EdgesAre(services: seq<Service>, workloads: seq<Workload>, edges: seq<Relationship>, r: Relationship)
    requires (forall svc :: svc in services ==> Labelled(svc)) && IsGraph(services, workloads, edges)
    ensures r in edges <==>
      || (exists svc, w | svc in services && w in workloads :: ServingEdge(svc, w, r))
      || (exists svc, w, k: nat | svc in services && w in workloads :: TalkingEdge(svc, w, k, r))
  {
    ServingEdges(services, workloads, r);
    TalkingEdges(services, workloads, r);
    hide IsServes;
    hide IsTalks;
    hide TalkingEdge;
    hide ServingEdge;
    hide Labelled;
  }

  // ---------- From a text to an edge ----------

  lemma {:induction false} FirstNaming(ms: seq<Mention>, k: nat, svc: Service, ns: string) returns (at: nat)
    requires k < |ms| && Names(ms[k].token, svc, ns)
    ensures at < |ms| && Names(ms[at].token, svc, ns) && forall j :: 0 <= j < at ==> !Names(ms[j].token, svc, ns)
  {
    hide Names;
    if j: nat :| j < k && Names(ms[j].token, svc, ns) {
      at := FirstNaming(ms, j, svc, ns);
    } else {
      at := k;
    }
  }

  /** There is an edge from the workload to the Service. */
  ghost predicate Talks(edges: seq<Relationship>, w: Workload, svc: Service) {
    exists r :: r in edges && r.typ.TalksTo? && r.from == w.ref && r.to == Ref(Kind.Service, svc.ns, svc.name, svc.uid)
  }

  /** A token that names a Service, in any text of a workload it does not select, makes an edge. */
  lemma NamingMakesEdge(services: seq<Service>, workloads: seq<Workload>, edges: seq<Relationship>,
                        svc: Service, w: Workload, i: nat, t: Token)
    requires (forall svc :: svc in services ==> Labelled(svc)) && IsGraph(services, workloads, edges)
    requires svc in services && w in workloads && !Selects(svc, w) && i < |w.texts|
    requires t in Tokens(w.texts[i].value, w.texts[i].hostish) && Names(t, svc, w.ref.ns)
    ensures Talks(edges, w, svc)
  {
    var ms := MentionsOf(w.texts);
    TokenIsMentioned(w.texts, i, t);
    var k :| 0 <= k < |ms| && ms[k] == Mention(w.texts[i].place, t);
    hide MentionsOf;
    hide Tokens;
    hide Names;
    hide Selects;
    var at := FirstNaming(ms, k, svc, w.ref.ns);
    var r := Relationship(w.ref, Ref(Kind.Service, svc.ns, svc.name, svc.uid), Type.TalksTo,
                          Mentions(ms[at].place, ms[at].token.host));
    assert TalkingEdge(svc, w, at, r);
    EdgesAre(services, workloads, edges, r);
    hide IsGraph;
    hide TalkingEdge;
  }

  /**
   * An argument or a variable of the form key=[user@]name[:port][tail] makes an edge to the
   * Service of that name in the workload's namespace, where a user, a port or its place says
   * that it is a host.
   */
  lemma AssignedHostMakesEdge(services: seq<Service>, workloads: seq<Workload>, edges: seq<Relationship>,
                              svc: Service, w: Workload, i: nat, key: string, a: Authority, tail: string)
    requires (forall svc :: svc in services ==> Labelled(svc)) && IsGraph(services, workloads, edges)
    requires svc in services && w in workloads && !Selects(svc, w) && i < |w.texts|
    requires w.texts[i].value == key + "=" + (Written(a) + tail) && IsKey(key)
    requires WellFormed(a) && IsTail(tail) && '@' !in tail && Find(Written(a) + tail, "://").None?
    requires forall c :: c in Written(a) + tail ==> !Separates(c)
    requires a.host == svc.name && w.ref.ns == svc.ns && (w.texts[i].hostish || a.user.Some? || a.port.Some?)
    ensures Talks(edges, w, svc)
  {
    AssignedHostIsRead(key, a, tail, w.texts[i].hostish);
    assert Labelled(svc);
    PlainNameIsRead(svc.name, true);
    var t := Token(svc.name, true);
    assert Names(t, svc, w.ref.ns);
    hide Tokens;
    hide Names;
    hide IsGraph;
    hide Selects;
    hide Labelled;
    hide NamedHost;
    hide Written;
    hide WellFormed;
    hide Find;
    NamingMakesEdge(services, workloads, edges, svc, w, i, t);
  }
}
