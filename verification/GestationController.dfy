/** The gestation controller's pass, step by step as the API sees it. */
module GestationController {
  import opened Base
  import opened Text
  import opened G = Gestation
  import opened Newborns
  import GestationPasses
  import GestationStates

  /** The API server's copies: the Gestation's status, its Deployment, the budget of newborn care, the namespaces. */
  class Api {
    const ns: string
    const namespaces: Namespaces
    var status: Status
    var deployment: Option<Deployment>
    var budget: Option<Budget>

    constructor (ns: string, namespaces: Namespaces, c: Case)
      ensures this.ns == ns && this.namespaces == namespaces && Stored() == c
    {
      this.ns, this.namespaces := ns, namespaces;
      status, deployment, budget := c.status, c.deployment, c.budget;
    }

    function Stored(): Case
      reads this
    {
      Case(status, deployment, budget)
    }
  }

  /** The newborn annotations after a delivery. */
  ghost function Announced(c: Case, seen: Seen, ns: string, annotations: map<string, Annotation>)
    : map<string, Annotation>
    requires ns in annotations
  {
    if Waits(c, seen) then annotations
    else annotations[ns := WithNewborn(annotations[ns], c.deployment.value.selector.value, TierClass(1))]
  }

  /** A Gestation in memory during one pass. */
  class Life {
    const spec: Spec
    const api: Api
    var status: Status

    constructor (spec: Spec, api: Api)
      ensures this.spec == spec && this.api == api && Now() == api.Stored()
    {
      this.spec, this.api, status := spec, api, api.status;
    }

    /** The status in memory, and the other objects as the API holds them. */
    function Now(): Case
      reads this, api
    {
      Case(status, api.deployment, api.budget)
    }

    method DeletePDB()
      modifies api`budget
      ensures api.budget == WithoutBudget(status.birth, old(api.budget))
    {
      if status.birth.None? || !status.birth.value.budget {
        return;
      }
      if api.budget.None? {
        return;
      }
      if !api.budget.value.managed {
        return; // another owner has taken it over
      }
      api.budget := None;
    }

    method CreatePDB(replicas: int)
      modifies api`budget
      ensures api.budget == if old(api.budget).Some? then old(api.budget) else Some(NewBudget(replicas))
    {
      var minAvailable := replicas - 1;
      if minAvailable < 1 {
        minAvailable := 1;
      }
      if api.budget.None? {
        api.budget := Some(Budget(true, true, minAvailable));
      }
    }

    lemma FirstTier()
      ensures TierClass(1) != ""
    {
      assert TIERS[0][0] == 'k';
    }

    method Announce(selector: string, priority: string)
      requires api.ns in api.namespaces.annotations && priority != ""
      modifies api.namespaces
      ensures var before := old(api.namespaces.annotations);
        api.namespaces.annotations == before[api.ns := WithNewborn(before[api.ns], selector, priority)]
      ensures Says(api.namespaces.annotations[api.ns], selector, priority)
    {
      SetSays(api.namespaces.annotations[api.ns], selector, priority, selector, priority);
      hide WithNewborn;
      hide Says;
      api.namespaces.SetNewborn(api.ns, selector, priority);
    }

    method Deliver(seen: Seen)
      requires api.ns in api.namespaces.annotations
      modifies this`status, api`deployment, api`budget, api.namespaces
      ensures Now() == Delivered(spec, old(Now()), seen) && api.status == old(api.status)
      ensures api.namespaces.annotations == Announced(old(Now()), seen, api.ns, old(api.namespaces.annotations))
    {
      hide WithNewborn;
      hide Born;
      hide TierClass;
      var started := seen.now;
      if status.started.Some? {
        started := status.started.value;
      }
      if seen.held > 0 && seen.now - started < PLACENTA_GRACE {
        return;
      }
      if api.deployment.None? {
        return;
      }
      var d := api.deployment.value;
      if d.selector.None? {
        return;
      }
      // First, so that no pod of the launch is created without its class.
      FirstTier();
      Announce(d.selector.value, TierClass(1));
      Bear(d, d.selector.value, seen);
    }

    method Bear(d: Deployment, selector: string, seen: Seen)
      requires api.deployment == Some(d)
      modifies this`status, api`deployment, api`budget
      ensures Now() == Born(spec, old(Now()), d, selector, seen) && api.status == old(api.status)
    {
      var birth := Birth(seen.now, d.uid, "", "", selector, false, false, "");
      var care := Care(CareTier(0), TierClass(CareTier(0)), seen.now + CARE_PERIOD, None, None);
      var want := Deref(d.replicas);
      if want == 0 {
        want := spec.replicas;
      }
      if !seen.autoscaled {
        want := want + 1;
        birth := birth.(addedReplica := true);
      }
      if !seen.covered && !(api.budget.Some? && api.budget.value.covers) {
        CreatePDB(want);
        birth := birth.(budget := true);
      }
      api.deployment :=
        Some(d.(replicas := Some(want), paused := false, newborn := true, born := Some(Unix(seen.now))));
      status := status.(birth := Some(birth), care := Some(care), apgar := []);
      status := status.(phase := NewbornCare);
    }

    method OwnedReplicaSets(rss: seq<ReplicaSet>, uid: string) returns (out: seq<ReplicaSet>)
      ensures out == OwnedBy(rss, uid)
    {
      out := [];
      for i := 0 to |rss|
        invariant out == OwnedBy(rss[..i], uid)
      {
        assert rss[..i + 1][..i] == rss[..i];
        if rss[i].owner == uid {
          out := out + [rss[i]];
        }
      }
      assert rss[..|rss|] == rss;
    }

    method NewReplicaSet(rss: seq<ReplicaSet>, template: string) returns (newest: Option<ReplicaSet>)
      ensures newest == WithTemplate(rss, template)
    {
      for i := 0 to |rss|
        invariant WithTemplate(rss, template) == WithTemplate(rss[i..], template)
      {
        if rss[i].template == template {
          return Some(rss[i]);
        }
        assert rss[i..][1..] == rss[i + 1..];
      }
      return None;
    }

    method ReplicaSetAt(rss: seq<ReplicaSet>, revision: string) returns (found: Option<ReplicaSet>)
      ensures found == AtRevision(rss, revision)
    {
      for i := 0 to |rss|
        invariant AtRevision(rss, revision) == AtRevision(rss[i..], revision)
      {
        if rss[i].revision == revision {
          return Some(rss[i]);
        }
        assert rss[i..][1..] == rss[i + 1..];
      }
      return None;
    }

    method ResolveRevisions(d: Deployment, seen: Seen)
      requires status.birth.Some?
      modifies this`status
      ensures status == old(status).(birth := Some(Resolved(old(status).birth.value, d, seen)))
    {
      var b := status.birth.value;
      if b.revision != "" || !seen.observed {
        return;
      }
      var rss := OwnedReplicaSets(seen.replicaSets, d.uid);
      var newest := NewReplicaSet(rss, d.template);
      if newest.None? {
        return;
      }
      b := b.(revision := newest.value.revision);
      var born := RevisionNumber(newest.value.revision);
      var prev := 0;
      for i := 0 to |rss|
        invariant prev == Before(rss[..i], born)
      {
        assert rss[..i + 1][..i] == rss[..i];
        var n := RevisionNumber(rss[i].revision);
        if n < born && n > prev {
          prev := n;
        }
      }
      assert rss[..|rss|] == rss;
      if prev > 0 {
        b := b.(previous := Itoa(prev));
      }
      status := status.(birth := Some(b));
    }

    /** The Deployment as it is without what care put on it. */
    method EndCare(d: Deployment, b: Birth) returns (updated: Deployment)
      ensures updated == WithoutCare(d, b)
    {
      updated := d;
      if b.addedReplica && Deref(d.replicas) > 1 {
        updated := updated.(replicas := Some(Deref(d.replicas) - 1));
      }
      updated := updated.(newborn := false);
    }

    /** Fails, changing nothing, when the earlier revision is gone. */
    method Rollback(d: Deployment, seen: Seen) returns (ok: bool)
      requires status.birth.Some? && api.deployment == Some(d)
      modifies this`status, api`deployment, api`budget
      ensures api.status == old(api.status)
      ensures var b := old(status).birth.value;
        match AtRevision(OwnedBy(seen.replicaSets, d.uid), b.previous)
        case None => !ok && Now() == old(Now())
        case Some(rs) => ok && Now() == WentBack(old(Now()), b, d, rs)
      ensures if ok then
          && status.birth.Some? && api.deployment.Some?
          && exists rs ::
               && GestationPasses.FirstOf(seen.replicaSets, d.uid, status.birth.value.rolledBackTo, rs)
               && api.deployment.value.template == rs.template
        else
          forall rs :: rs in seen.replicaSets && rs.owner == d.uid ==> rs.revision != old(status).birth.value.previous
    {
      GestationPasses.RevisionIsFound(seen.replicaSets, d.uid, status.birth.value.previous);
      hide GestationPasses.FirstOf;
      var b := status.birth.value;
      var rss := OwnedReplicaSets(seen.replicaSets, d.uid);
      var rs := ReplicaSetAt(rss, b.previous);
      if rs.None? {
        return false;
      }
      var updated := EndCare(d.(template := rs.value.template), b);
      api.deployment := Some(updated);
      status := status.(birth := Some(b.(rolledBackTo := b.previous)), care := None);
      DeletePDB();
      return true;
    }

    method ScorePass(d: Deployment, seen: Seen)
      requires status.birth.Some? && api.deployment == Some(d)
      modifies this`status, api`deployment, api`budget
      ensures Now() == Scored(spec, old(Now()), old(status).birth.value, d, seen) && api.status == old(api.status)
    {
      var b := status.birth.value;
      var next := NextMinute(status.apgar);
      if next == 0 || b.revision == "" || seen.now < b.time + next * MINUTE {
        return;
      }
      var score := Apgar(next, seen.now, Total(seen.signs));
      var roll := RollsBack(score, spec.autoRollback, b.previous);
      if roll {
        var ok := Rollback(d, seen);
        if !ok {
          return; // the score stays due
        }
      }
      status := status.(apgar := status.apgar + [score]);
      if roll {
        status := status.(phase := RolledBack);
      }
    }

    method Discharge(d: Deployment, now: int)
      requires status.birth.Some? && status.care.Some? && api.deployment == Some(d)
      modifies this`status, api`deployment, api`budget
      ensures Now() == WentHome(old(Now()), old(status).birth.value, d, old(status).care.value, now)
      ensures api.status == old(api.status)
    {
      var updated := EndCare(d, status.birth.value);
      api.deployment := Some(updated);
      DeletePDB();
      status := status.(care := Some(status.care.value.(tier := 0, priority := "", discharged := Some(now))));
      status := status.(phase := Grown);
    }

    method CarePass(d: Deployment, seen: Seen)
      requires status.birth.Some? && status.care.Some? && api.deployment == Some(d)
      modifies this`status, api`deployment, api`budget
      ensures Now() == Cared(old(Now()), old(status).birth.value, d, old(status).care.value, seen.now)
      ensures api.status == old(api.status)
      ensures status.care.Some?
      ensures var age := seen.now - old(status).birth.value.time;
        if age >= 72 * HOUR && TwoNamed(CaregiversOf(d)) then status.phase.Grown?
        else GestationPasses.TierOfAge(status.care.value, status.phase, age) &&
             (status.phase.NewbornCare? || status.phase.NeedsCaregivers?)
    {
      var since := seen.now - status.birth.value.time;
      var cg := CaregiversOf(d);
      status := status.(caregivers := None);
      if cg.primary != "" || cg.secondary != "" {
        status := status.(caregivers := Some(cg));
      }
      var care := status.care.value;
      var tier := CareTier(since);
      if tier > 0 {
        status := status.(care := Some(care.(tier := tier, priority := TierClass(tier))));
        status := status.(phase := NewbornCare);
        return;
      }
      if TwoNamed(cg) {
        Discharge(d, seen.now);
        return;
      }
      care := care.(tier := 3, priority := TierClass(3));
      status := status.(phase := NeedsCaregivers);
      if care.lastNag.None? || seen.now - care.lastNag.value >= NAG_INTERVAL {
        care := care.(lastNag := Some(seen.now));
      }
      status := status.(care := Some(care));
    }

    method Depart()
      modifies this`status, api`budget
      ensures Now() == Gone(old(Now())) && api.status == old(api.status)
    {
      if status.phase.Departed? {
        return;
      }
      DeletePDB();
      status := status.(phase := Departed, care := None);
    }

    lemma StillInCare(c: Case, b: Birth, d: Deployment, seen: Seen)
      requires c.status.birth == Some(b) && c.deployment == Some(d)
      ensures var scored := Scored(spec, c, b, d, seen);
        InCare(scored.status) ==> scored.status.birth == Some(b) && scored.deployment == Some(d)
    {
    }

    method LookAfter(seen: Seen)
      requires status.birth.Some?
      modifies this`status, api`deployment, api`budget
      ensures Now() == AfterBirth(spec, old(Now()), old(status).birth.value, seen) && api.status == old(api.status)
    {
      hide Resolved;
      hide Scored;
      hide Cared;
      hide Gone;
      var d := api.deployment;
      if d.None? || d.value.uid != status.birth.value.uid {
        Depart();
        return;
      }
      ResolveRevisions(d.value, seen);
      if InCare(status) {
        StillInCare(Now(), status.birth.value, d.value, seen);
        ScorePass(d.value, seen);
      }
      if InCare(status) {
        CarePass(d.value, seen);
      }
    }

    method Pregnancy(seen: Seen)
      modifies this`status
      ensures Now() == Pregnant(old(Now()), seen) && api.status == old(api.status)
    {
      if seen.trimester.None? {
        status := status.(phase := Expecting);
        return;
      }
      if seen.trimester.value == 0 {
        status := status.(phase := Due);
      } else {
        status := status.(phase := Expecting);
      }
    }
  }

  /** The newborn annotations after a pass over one Gestation. */
  ghost function AnnouncedBy(spec: Spec, c: Case, seen: Seen, ns: string, annotations: map<string, Annotation>)
    : map<string, Annotation>
    requires ns in annotations
  {
    var begun := c.(status := Begun(spec, c.status, seen.now));
    if begun.status.phase.Delivering? then Announced(begun, seen, ns, annotations) else annotations
  }

  /** A whole pass over one Gestation, status write included. */
  method Reconcile(spec: Spec, api: Api, seen: Seen)
    requires api.ns in api.namespaces.annotations
    modifies api, api.namespaces
    ensures api.Stored() == Pass(spec, old(api.Stored()), seen)
    ensures api.namespaces.annotations ==
            AnnouncedBy(spec, old(api.Stored()), seen, api.ns, old(api.namespaces.annotations))
    ensures api.namespaces.annotations.Keys == old(api.namespaces.annotations.Keys)
  {
    hide Delivered;
    hide AfterBirth;
    hide Written;
    hide WithNewborn;
    hide Waits;
    var g := new Life(spec, api);
    var before := g.status;
    if spec.delivery > g.status.delivery && (g.status.birth.None? || g.status.phase.RolledBack?) {
      g.status := g.status.(delivery := spec.delivery, started := Some(seen.now));
      g.status := g.status.(birth := None, apgar := [], care := None);
      g.status := g.status.(phase := Delivering);
    }
    if g.status.phase.Delivering? {
      g.Deliver(seen);
    } else if g.status.birth.None? {
      g.Pregnancy(seen);
    } else {
      g.LookAfter(seen);
    }
    var after := Written(g.status);
    if after != before {
      api.status := after;
    }
  }

  /** Every Gestation with the status that was recorded. */
  function Recorded(apis: seq<Api>): seq<Gestating>
    reads apis
  {
    if apis == [] then []
    else
      var api := apis[|apis| - 1];
      Recorded(apis[..|apis| - 1]) + [Gestating(api.ns, api.status)]
  }

  /** A launch is in care, in the first tier, under the selector that was announced. */
  lemma BirthIsListed(spec: Spec, c: Case, seen: Seen, ns: string, annotations: map<string, Annotation>)
    requires ns in annotations
    ensures if !GestationStates.GivesBirth(spec, c, seen)
      then AnnouncedBy(spec, c, seen, ns, annotations) == annotations
      else
        var selector := c.deployment.value.selector.value;
        var g := Gestating(ns, Pass(spec, c, seen).status);
        && AnnouncedBy(spec, c, seen, ns, annotations) ==
           annotations[ns := WithNewborn(annotations[ns], selector, TierClass(1))]
        && CaresFor(g, ns, selector, TierClass(1))
  {
    assert TIERS[0][0] == 'k';
    hide AfterBirth;
    hide WithNewborn;
  }

  /** One Gestation's turn, with what it announced. */
  method Turn(spec: Spec, api: Api, seen: Seen, ghost before: map<string, Annotation>,
              ghost told: set<(string, string)>, ghost all: seq<Gestating>)
    returns (ghost more: set<(string, string)>)
    requires api.ns in api.namespaces.annotations
    requires Announcements(before, api.namespaces.annotations, told) && Backed(told, all)
    modifies api, api.namespaces
    ensures api.Stored() == Pass(spec, old(api.Stored()), seen)
    ensures Announcements(before, api.namespaces.annotations, more)
    ensures Backed(more, all + [Gestating(api.ns, api.status)])
  {
    ghost var c, was := api.Stored(), api.namespaces.annotations;
    hide Announcements;
    hide Backed;
    hide Pass;
    BirthIsListed(spec, c, seen, api.ns, was);
    hide AnnouncedBy;
    Reconcile(spec, api, seen);
    ghost var g := Gestating(api.ns, api.status);
    BackedMore(told, all, g);
    if GestationStates.GivesBirth(spec, c, seen) {
      ghost var selector := c.deployment.value.selector.value;
      more := told + {(api.ns, selector)};
      OneMoreAnnouncement(before, was, told, api.ns, selector);
      OneMoreBacked(told, all + [g], g, api.ns, selector);
    } else {
      more := told;
    }
  }

  lemma OneMoreBacked(told: set<(string, string)>, all: seq<Gestating>, g: Gestating, ns: string, selector: string)
    requires Backed(told, all) && g in all && CaresFor(g, ns, selector, TierClass(1))
    ensures Backed(told + {(ns, selector)}, all)
  {
    assert Protects(all, ns, selector, TierClass(1));
    hide Protects;
  }

  /** Every Gestation's turn. */
  method TakeTurns(namespaces: Namespaces, specs: seq<Spec>, apis: seq<Api>, seens: seq<Seen>)
    returns (ghost told: set<(string, string)>)
    requires |specs| == |apis| == |seens|
    requires forall i, j | 0 <= i < j < |apis| :: apis[i] != apis[j]
    requires forall api :: api in apis ==> api.namespaces == namespaces && api.ns in namespaces.annotations
    modifies apis, namespaces
    ensures forall i :: 0 <= i < |apis| ==> apis[i].Stored() == Pass(specs[i], old(apis[i].Stored()), seens[i])
    ensures namespaces.annotations.Keys == old(namespaces.annotations.Keys)
    ensures Announcements(old(namespaces.annotations), namespaces.annotations, told) && Backed(told, Recorded(apis))
  {
    hide Pass;
    hide Announcements;
    hide Backed;
    hide GestationStates.GivesBirth;
    ghost var before := namespaces.annotations;
    ghost var cases := seq(|apis|, i requires 0 <= i < |apis| reads apis => apis[i].Stored());
    told := {};
    NothingAnnounced(before);
    for n := 0 to |apis|
      invariant namespaces.annotations.Keys == before.Keys
      invariant Announcements(before, namespaces.annotations, told) && Backed(told, Recorded(apis[..n]))
      invariant forall i :: 0 <= i < n ==> apis[i].Stored() == Pass(specs[i], cases[i], seens[i])
      invariant forall i :: n <= i < |apis| ==> apis[i].Stored() == cases[i]
    {
      assert apis[n] in apis;
      assert apis[n] !in apis[..n] && apis[..n + 1][..n] == apis[..n];
      ghost var all := Recorded(apis[..n]);
      told := Turn(specs[n], apis[n], seens[n], before, told, all);
      assert Recorded(apis[..n]) == all;
      SameNamespaces(before, namespaces.annotations, told);
    }
    assert apis[..|apis|] == apis;
  }

  /**
   * One pass over every Gestation, and then over the namespaces. Each namespace of which the
   * lister has a copy from before the pass, or a newer one, then says exactly which services
   * are in care in it. `held` is what the namespaces held between the two.
   */
  method Sync(namespaces: Namespaces, specs: seq<Spec>, apis: seq<Api>, seens: seq<Seen>,
              listed: map<string, Annotation>)
    returns (ghost held: map<string, Annotation>)
    requires |specs| == |apis| == |seens| && listed.Keys <= namespaces.annotations.Keys
    requires forall i, j | 0 <= i < j < |apis| :: apis[i] != apis[j]
    requires forall api :: api in apis ==> api.namespaces == namespaces && api.ns in namespaces.annotations
    modifies apis, namespaces
    ensures forall i :: 0 <= i < |apis| ==> apis[i].Stored() == Pass(specs[i], old(apis[i].Stored()), seens[i])
    ensures held.Keys == namespaces.annotations.Keys == old(namespaces.annotations.Keys)
    ensures forall ns :: ns in listed && listed[ns] == held[ns] ==>
      namespaces.annotations[ns] == EncodeNewborns(Desired(Recorded(apis), ns))
    ensures DistinctSelectors(Recorded(apis)) ==>
      forall ns :: ns in listed && listed[ns] == old(namespaces.annotations)[ns] ==>
        SaysExactly(namespaces.annotations[ns], Recorded(apis), ns)
  {
    hide Pass;
    hide Announcements;
    hide Backed;
    hide DistinctSelectors;
    hide SaysExactly;
    hide EncodeNewborns;
    ghost var before := namespaces.annotations;
    ghost var told := TakeTurns(namespaces, specs, apis, seens);
    held := namespaces.annotations;
    var all := Collect(apis);
    namespaces.SyncNewborns(all, listed);
    SyncedExactly(before, held, namespaces.annotations, listed, told, all);
  }

  method Collect(apis: seq<Api>) returns (all: seq<Gestating>)
    ensures all == Recorded(apis)
  {
    all := [];
    for n := 0 to |apis|
      invariant all == Recorded(apis[..n])
    {
      assert apis[..n + 1][..n] == apis[..n];
      all := all + [Gestating(apis[n].ns, apis[n].status)];
    }
    assert apis[..|apis|] == apis;
  }

  lemma SyncedExactly(before: map<string, Annotation>, held: map<string, Annotation>, after: map<string, Annotation>,
                      listed: map<string, Annotation>, told: set<(string, string)>, all: seq<Gestating>)
    requires Announcements(before, held, told) && Backed(told, all)
    requires listed.Keys <= before.Keys && held.Keys == before.Keys == after.Keys
    requires forall ns :: ns in listed ==>
      after[ns] == if listed[ns] != EncodeNewborns(Desired(all, ns)) then EncodeNewborns(Desired(all, ns)) else held[ns]
    ensures DistinctSelectors(all) ==>
      forall ns :: ns in listed && listed[ns] == before[ns] ==> SaysExactly(after[ns], all, ns)
  {
    hide Announcements;
    hide Backed;
    hide DistinctSelectors;
    hide SaysExactly;
    hide EncodeNewborns;
    if DistinctSelectors(all) {
      forall ns | ns in listed && listed[ns] == before[ns]
        ensures SaysExactly(after[ns], all, ns)
      {
        SyncedSaysExactly(all, ns);
        if listed[ns] == EncodeNewborns(Desired(all, ns)) {
          AnnouncedExactly(before, held, told, all, ns);
        }
      }
    }
  }

  lemma NothingAnnounced(before: map<string, Annotation>)
    ensures Announcements(before, before, {}) && Backed({}, [])
  {
  }

  lemma SameNamespaces(before: map<string, Annotation>, after: map<string, Annotation>, told: set<(string, string)>)
    requires Announcements(before, after, told)
    ensures after.Keys == before.Keys
  {
  }

  /**
   * From a pass to a pod: a pod that chose its priority is left alone; any other gets a class
   * only if a service in care in its namespace selects it, and then a care tier that exists and
   * is above every global default; and where the tiers stand, each pod so selected gets one.
   */
  method AdmitAfterSync(namespaces: Namespaces, specs: seq<Spec>, apis: seq<Api>, seens: seq<Seen>,
                        listed: map<string, Annotation>, ns: string, pod: Pod, classes: Classes,
                        selects: (string, Labels) -> bool)
    requires |specs| == |apis| == |seens| && listed.Keys <= namespaces.annotations.Keys
    requires forall i, j | 0 <= i < j < |apis| :: apis[i] != apis[j]
    requires forall api :: api in apis ==> api.namespaces == namespaces && api.ns in namespaces.annotations
    requires ns in listed && listed[ns] == namespaces.annotations[ns]
    modifies apis, namespaces, pod`priorityClass, pod`newborn
    ensures old(pod.priorityClass) != "" || pod.priority.Some? || pod.mirror ==>
      pod.priorityClass == old(pod.priorityClass) && pod.newborn == old(pod.newborn)
    ensures old(pod.priorityClass) == "" && pod.priority.None? && !pod.mirror && DistinctSelectors(Recorded(apis)) ==>
      && IsDue(pod.priorityClass, Recorded(apis), ns, pod.labels, classes, selects)
      && (pod.priorityClass != "" ==> pod.newborn == Some(pod.priorityClass))
    ensures old(AllSound(Recorded(apis))) ==> AllSound(Recorded(apis))
  {
    hide SaysExactly;
    hide DistinctSelectors;
    hide IsDue;
    hide ClassOf;
    SyncSoundly(namespaces, specs, apis, seens, listed);
    var raw := namespaces.annotations[ns];
    ghost var all := Recorded(apis);
    Admit(pod, true, true, Some(raw), classes, selects);
    if DistinctSelectors(all) {
      Readable(raw, all, ns);
      ClassIsDue(raw, all, ns, pod.labels, classes, selects);
    }
  }

  /** A pass keeps every status sound. */
  method SyncSoundly(namespaces: Namespaces, specs: seq<Spec>, apis: seq<Api>, seens: seq<Seen>,
                     listed: map<string, Annotation>)
    requires |specs| == |apis| == |seens| && listed.Keys <= namespaces.annotations.Keys
    requires forall i, j | 0 <= i < j < |apis| :: apis[i] != apis[j]
    requires forall api :: api in apis ==> api.namespaces == namespaces && api.ns in namespaces.annotations
    modifies apis, namespaces
    ensures namespaces.annotations.Keys == old(namespaces.annotations.Keys)
    ensures DistinctSelectors(Recorded(apis)) ==>
      forall ns :: ns in listed && listed[ns] == old(namespaces.annotations)[ns] ==>
        SaysExactly(namespaces.annotations[ns], Recorded(apis), ns)
    ensures old(AllSound(Recorded(apis))) ==> AllSound(Recorded(apis))
  {
    hide SaysExactly;
    hide DistinctSelectors;
    hide AllSound;
    hide Pass;
    ghost var before := Recorded(apis);
    ghost var cases := seq(|apis|, i requires 0 <= i < |apis| reads apis => apis[i].Stored());
    RecordedAt(apis);
    ghost var _ := Sync(namespaces, specs, apis, seens, listed);
    RecordedAt(apis);
    if AllSound(before) {
      PassesKeepSound(specs, cases, seens, before, Recorded(apis));
    }
  }

  lemma {:induction false} RecordedAt(apis: seq<Api>)
    ensures |Recorded(apis)| == |apis|
    ensures forall i :: 0 <= i < |apis| ==> Recorded(apis)[i] == Gestating(apis[i].ns, apis[i].status)
  {
    if apis == [] {
    } else {
      RecordedAt(apis[..|apis| - 1]);
    }
  }

  /** Statuses that were sound before a pass are after it. */
  lemma PassesKeepSound(specs: seq<Spec>, cases: seq<Case>, seens: seq<Seen>, before: seq<Gestating>,
                        all: seq<Gestating>)
    requires |specs| == |cases| == |seens| == |before| == |all| && AllSound(before)
    requires forall i :: 0 <= i < |all| ==> before[i].status == cases[i].status
    requires forall i :: 0 <= i < |all| ==> all[i].status == Pass(specs[i], cases[i], seens[i]).status
    ensures AllSound(all)
  {
    hide GestationStates.Sound;
    hide Pass;
    forall i | 0 <= i < |all|
      ensures GestationStates.Sound(all[i].status)
    {
      assert before[i] in before;
      GestationStates.PassKeepsSound(specs[i], cases[i], seens[i]);
    }
  }

  lemma Readable(raw: Annotation, all: seq<Gestating>, ns: string)
    requires SaysExactly(raw, all, ns)
    ensures DecodeNewborns(raw).Some?
  {
  }
}
