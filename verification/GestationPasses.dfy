/** What one pass makes of the objects, told from what they held before and hold after it. */
module GestationPasses {
  import opened Base
  import opened Text
  import opened Gestation
  import opened GestationStates

  // ---------- Times and statuses as they are written ----------

  /** A time is written as the start of its second. */
  lemma SecondIs(t: int)
    ensures Second(t) % 1_000_000_000 == 0 && Second(t) <= t < Second(t) + 1_000_000_000
  {
  }

  lemma WrittenIs(st: Status)
    ensures var w := Written(st);
      && w.phase == st.phase && w.delivery == st.delivery && w.caregivers == st.caregivers
      && w.started == SecondOf(st.started)
      && |w.apgar| == |st.apgar|
      && (forall i :: 0 <= i < |st.apgar| ==> w.apgar[i] == st.apgar[i].(time := Second(st.apgar[i].time)))
      && (w.birth.Some? <==> st.birth.Some?) && (w.care.Some? <==> st.care.Some?)
      && (st.birth.Some? ==> w.birth.value == st.birth.value.(time := Second(st.birth.value.time)))
      && (st.care.Some? ==>
            && w.care.value.tier == st.care.value.tier && w.care.value.priority == st.care.value.priority
            && w.care.value.until == Second(st.care.value.until)
            && w.care.value.discharged == SecondOf(st.care.value.discharged)
            && w.care.value.lastNag == SecondOf(st.care.value.lastNag))
  {
  }

  // ---------- What a pass over a born service is made of ----------

  /** A born service that no new delivery is asked for is looked after. */
  lemma PassOfBorn(spec: Spec, c: Case, seen: Seen)
    requires Sound(c.status) && c.status.birth.Some? && !Begins(spec, c.status)
    ensures var looked := AfterBirth(spec, c, c.status.birth.value, seen);
      Pass(spec, c, seen) == looked.(status := Written(looked.status))
  {
    hide AfterBirth;
    hide ScoresFit;
    hide EarlierRevision;
  }

  // ---------- The clinical course: tiers, caregivers and reminders ----------

  /** In care, in the words of the phases. */
  ghost predicate Protected(st: Status) {
    (st.phase.NewbornCare? || st.phase.NeedsCaregivers?) && st.care.Some? && st.birth.Some?
  }

  /** Two steps of a day each and a third that is held; from 72 hours on the service waits. */
  ghost predicate TierOfAge(care: Care, phase: Phase, age: int) {
    && (care.tier == 1 <==> age < 24 * HOUR)
    && (care.tier == 2 <==> 24 * HOUR <= age < 48 * HOUR)
    && (care.tier == 3 <==> 48 * HOUR <= age)
    && (care.tier == 1 ==> care.priority == "kyvernetria-newborn-1")
    && (care.tier == 2 ==> care.priority == "kyvernetria-newborn-2")
    && (care.tier == 3 ==> care.priority == "kyvernetria-newborn-3")
    && (phase.NeedsCaregivers? <==> 72 * HOUR <= age)
  }

  /** After every pass, a service in care has the tier and the class of its age, counted from its recorded birth. */
  lemma TiersByAge(spec: Spec, c: Case, seen: Seen)
    requires Sound(c.status) && c.status == Written(c.status)
    ensures var after := Pass(spec, c, seen).status;
      Protected(after) ==> TierOfAge(after.care.value, after.phase, seen.now - after.birth.value.time)
  {
    PassTier(spec, c, seen);
    PassKeepsSound(spec, c, seen);
    hide Pass;
    hide ScoresFit;
    hide EarlierRevision;
  }

  lemma CaredCourse(c: Case, b: Birth, d: Deployment, care: Care, now: int)
    requires c.status.birth == Some(b)
    ensures var after := Cared(c, b, d, care, now).status;
      && (after.caregivers.Some? <==> TrimSpace(d.primary) != "" || TrimSpace(d.secondary) != "")
      && (after.caregivers.Some? ==>
            after.caregivers.value.primary == TrimSpace(d.primary) &&
            after.caregivers.value.secondary == TrimSpace(d.secondary))
      && (after.care.Some? && (after.phase.NewbornCare? || after.phase.NeedsCaregivers?) ==>
            after.care.value.lastNag ==
            if now - b.time >= 72 * HOUR && (care.lastNag.None? || now - care.lastNag.value >= 12 * HOUR)
            then Some(now) else care.lastNag)
      && after.care.Some?
      && (if after.phase.Grown? then after.care.value == care.(tier := 0, priority := "", discharged := Some(now))
          else after.care.value.until == care.until && after.care.value.discharged == care.discharged)
  {
    hide TrimSpace;
    hide TwoNamed;
  }

  /**
   * A pass over a service in care records the two people its Deployment names, reminds of them
   * exactly when care should be over, they are not both there, and the last reminder of the
   * delivery, if there was one, is twelve hours old, and dates a discharge.
   */
  lemma CourseOfCare(spec: Spec, c: Case, seen: Seen)
    requires Sound(c.status) && c.status == Written(c.status) && Lives(c) && Protected(c.status)
    ensures var after, d := Pass(spec, c, seen).status, c.deployment.value;
      var age, last := seen.now - c.status.birth.value.time, c.status.care.value.lastNag;
      && (after.phase.RolledBack? ||
          ((after.caregivers.Some? <==> TrimSpace(d.primary) != "" || TrimSpace(d.secondary) != "")
           && (after.caregivers.Some? ==>
                 after.caregivers.value.primary == TrimSpace(d.primary) &&
                 after.caregivers.value.secondary == TrimSpace(d.secondary))))
      && (Protected(after) ==>
            && after.care.value.until == c.status.care.value.until
            && after.care.value.lastNag ==
               if age >= 72 * HOUR && (last.None? || seen.now - last.value >= 12 * HOUR)
               then Some(Second(seen.now)) else last)
      && (after.phase.Grown? ==>
            after.care == Some(c.status.care.value.(tier := 0, priority := "", discharged := Some(Second(seen.now)))))
  {
    var b, d := c.status.birth.value, c.deployment.value;
    PassOfBorn(spec, c, seen);
    hide Pass;
    ResolvedEarlier(b, d, seen);
    hide EarlierRevision;
    hide Resolved;
    hide ScoresFit;
    hide TrimSpace;
    var r := Resolved(b, d, seen);
    var c1 := c.(status := c.status.(birth := Some(r)));
    ScoredKeepsBirth(spec, c1, r, d, seen);
    ScoredLeads(spec, c1, r, d, seen);
    var c2 := Scored(spec, c1, r, d, seen);
    WrittenIs(c.status);
    WrittenIs(AfterBirth(spec, c, b, seen).status);
    if InCare(c2.status) {
      CaredCourse(c2, r, d, c2.status.care.value, seen.now);
    } else {
      ScoredLeavesCare(spec, c1, r, d, seen);
    }
    hide Scored;
    hide Cared;
    hide Written;
    hide Sound;
  }

  /** Scoring ends care only by going back. */
  lemma ScoredLeavesCare(spec: Spec, c: Case, b: Birth, d: Deployment, seen: Seen)
    requires c.status.birth == Some(b) && InCare(c.status)
    ensures var scored := Scored(spec, c, b, d, seen).status; InCare(scored) || scored.phase.RolledBack?
  {
    hide ScoreDue;
  }

  // ---------- When a service departs ----------

  /** A born service departs in the pass that does not find the Deployment it was born with, and only there. */
  lemma DepartsExactlyWhen(spec: Spec, c: Case, seen: Seen)
    requires Sound(c.status) && c.status.birth.Some? && !Begins(spec, c.status) && !c.status.phase.Departed?
    ensures var after := Pass(spec, c, seen);
      && (after.status.phase.Departed? <==>
            c.deployment == None || c.deployment.value.uid != c.status.birth.value.uid)
      && (after.status.phase.Departed? ==> after.status.care.None?)
  {
    PassOfBorn(spec, c, seen);
    var b := c.status.birth.value;
    if Lives(c) {
      var d := c.deployment.value;
      ResolvedEarlier(b, d, seen);
      var r := Resolved(b, d, seen);
      hide Resolved;
      var c1 := c.(status := c.status.(birth := Some(r)));
      if InCare(c1.status) {
        ScoredLeads(spec, c1, r, d, seen);
        ScoredStays(spec, c1, r, d, seen);
        ScoredKeepsBirth(spec, c1, r, d, seen);
      }
      hide Scored;
      hide CaregiversOf;
      hide TwoNamed;
    }
    hide Pass;
    hide ScoresFit;
    hide RevisionNumber;
  }

  lemma ScoredStays(spec: Spec, c: Case, b: Birth, d: Deployment, seen: Seen)
    requires InCare(c.status)
    ensures !Scored(spec, c, b, d, seen).status.phase.Departed?
  {
    hide ScoreDue;
  }

  // ---------- Rolling back ----------

  /** The first ReplicaSet of this owner and revision. */
  ghost predicate FirstOf(rss: seq<ReplicaSet>, uid: string, revision: string, rs: ReplicaSet) {
    exists k :: 0 <= k < |rss| && rss[k] == rs && rs.owner == uid && rs.revision == revision &&
                forall i :: 0 <= i < k ==> rss[i].owner != uid || rss[i].revision != revision
  }

  lemma {:induction false} AtRevisionSplits(a: seq<ReplicaSet>, b: seq<ReplicaSet>, revision: string)
    ensures AtRevision(a + b, revision) ==
            if AtRevision(a, revision).Some? then AtRevision(a, revision) else AtRevision(b, revision)
  {
    if a == [] {
      assert a + b == b;
    } else {
      assert (a + b)[1..] == a[1..] + b;
      AtRevisionSplits(a[1..], b, revision);
    }
  }

  /** The search for a revision among the owned ReplicaSets finds the first one listed, wherever one is. */
  lemma {:induction false} RevisionIsFound(rss: seq<ReplicaSet>, uid: string, revision: string)
    ensures match AtRevision(OwnedBy(rss, uid), revision)
            case None => forall rs :: rs in rss && rs.owner == uid ==> rs.revision != revision
            case Some(rs) => FirstOf(rss, uid, revision, rs)
  {
    if rss == [] {
    } else {
      var n := |rss| - 1;
      var last := rss[n];
      RevisionIsFound(rss[..n], uid, revision);
      var tail := if last.owner == uid then [last] else [];
      AtRevisionSplits(OwnedBy(rss[..n], uid), tail, revision);
      assert rss == rss[..n] + [last];
      if AtRevision(OwnedBy(rss[..n], uid), revision).Some? {
        var rs := AtRevision(OwnedBy(rss[..n], uid), revision).value;
        var k :| 0 <= k < n && rss[..n][k] == rs && rs.owner == uid && rs.revision == revision &&
                 forall i :: 0 <= i < k ==> rss[..n][i].owner != uid || rss[..n][i].revision != revision;
        assert rss[k] == rs && forall i :: 0 <= i < k ==> rss[i] == rss[..n][i];
        assert FirstOf(rss, uid, revision, rs);
      } else {
        assert forall i :: 0 <= i < n ==> rss[i] in rss[..n];
        assert last.owner == uid && last.revision == revision ==> FirstOf(rss, uid, revision, rss[n]);
      }
    }
  }

  lemma ScoredTemplate(spec: Spec, c: Case, b: Birth, d: Deployment, seen: Seen)
    requires InCare(c.status) && c.status.birth == Some(b) && c.deployment == Some(d)
    ensures var scored := Scored(spec, c, b, d, seen);
      && scored.deployment.Some? && scored.status.birth.Some?
      && (if scored.status.phase.RolledBack?
          then && scored.status.birth.value.rolledBackTo == b.previous != ""
               && AtRevision(OwnedBy(seen.replicaSets, d.uid), b.previous).Some?
               && scored.deployment.value.template ==
                  AtRevision(OwnedBy(seen.replicaSets, d.uid), b.previous).value.template
          else scored.deployment == c.deployment)
  {
    hide NextMinute;
    hide Total;
  }

  lemma AfterBirthTemplate(spec: Spec, c: Case, b: Birth, seen: Seen)
    requires Sound(c.status) && c.status.birth == Some(b) && !c.status.phase.RolledBack?
    ensures var after := AfterBirth(spec, c, b, seen);
      if after.status.phase.RolledBack?
      then && Lives(c) && after.deployment.Some? && after.status.birth.Some?
           && after.status.birth.value.rolledBackTo != ""
           && var found := AtRevision(OwnedBy(seen.replicaSets, b.uid), after.status.birth.value.rolledBackTo);
              found.Some? && after.deployment.value.template == found.value.template
      else && (after.deployment.Some? <==> c.deployment.Some?)
           && (c.deployment.Some? ==> after.deployment.value.template == c.deployment.value.template)
  {
    if Lives(c) {
      var d := c.deployment.value;
      ResolvedEarlier(b, d, seen);
      var r := Resolved(b, d, seen);
      hide Resolved;
      var c1 := c.(status := c.status.(birth := Some(r)));
      if InCare(c1.status) {
        ScoredTemplate(spec, c1, r, d, seen);
        ScoredKeepsBirth(spec, c1, r, d, seen);
      }
    }
    hide Scored;
    hide CaregiversOf;
    hide TwoNamed;
    hide AtRevision;
    hide OwnedBy;
    hide ScoresFit;
    hide RevisionNumber;
  }

  lemma PassTemplate(spec: Spec, c: Case, seen: Seen)
    requires Sound(c.status)
    ensures var before, after := c.status, Pass(spec, c, seen);
      if after.status.phase.RolledBack? && !before.phase.RolledBack?
      then && Lives(c) && after.deployment.Some? && after.status.birth.Some?
           && after.status.birth.value.rolledBackTo != ""
           && var found := AtRevision(OwnedBy(seen.replicaSets, c.deployment.value.uid),
                                      after.status.birth.value.rolledBackTo);
              found.Some? && after.deployment.value.template == found.value.template
      else && (after.deployment.Some? <==> c.deployment.Some?)
           && (c.deployment.Some? ==> after.deployment.value.template == c.deployment.value.template)
  {
    if c.status.birth.Some? && !Begins(spec, c.status) {
      PassOfBorn(spec, c, seen);
      if !c.status.phase.RolledBack? {
        AfterBirthTemplate(spec, c, c.status.birth.value, seen);
        hide AfterBirth;
      }
      hide Pass;
    }
    hide Resolved;
    hide AtRevision;
    hide OwnedBy;
    hide ScoresFit;
    hide EarlierRevision;
  }

  /**
   * A rollback returns the Deployment to the template of the first ReplicaSet it owns at the
   * revision that is recorded; no other pass changes the template.
   */
  lemma TemplateFollowsTheRecord(spec: Spec, c: Case, seen: Seen)
    requires Sound(c.status)
    ensures var before, after := c.status, Pass(spec, c, seen);
      if after.status.phase.RolledBack? && !before.phase.RolledBack?
      then && c.deployment.Some? && after.deployment.Some? && after.status.birth.Some?
           && after.status.birth.value.rolledBackTo != ""
           && exists rs ::
                && FirstOf(seen.replicaSets, c.deployment.value.uid, after.status.birth.value.rolledBackTo, rs)
                && after.deployment.value.template == rs.template
      else && (after.deployment.Some? <==> c.deployment.Some?)
           && (c.deployment.Some? ==> after.deployment.value.template == c.deployment.value.template)
  {
    PassTemplate(spec, c, seen);
    var after := Pass(spec, c, seen);
    if after.status.phase.RolledBack? && !c.status.phase.RolledBack? {
      RevisionIsFound(seen.replicaSets, c.deployment.value.uid, after.status.birth.value.rolledBackTo);
    }
    hide Pass;
    hide Sound;
    hide FirstOf;
  }

  /**
   * A pass rolls back exactly when the one-minute score is all there is, the launch is five
   * minutes old, both revisions are known, the signs come to less than 7, going back was asked
   * for, and the Deployment still owns a ReplicaSet of the revision before.
   */
  lemma GoesBackExactlyWhen(spec: Spec, c: Case, seen: Seen)
    requires Sound(c.status) && Lives(c) && !Begins(spec, c.status) && !c.status.phase.RolledBack?
    ensures var b, after := c.status.birth.value, Pass(spec, c, seen).status;
      && after.birth.Some?
      && (after.phase.RolledBack? <==>
            && Protected(c.status) && |c.status.apgar| == 1 && seen.now >= b.time + 5 * MINUTE
            && after.birth.value.revision != "" && after.birth.value.previous != ""
            && Total(seen.signs) < 7 && spec.autoRollback
            && exists rs :: rs in seen.replicaSets && rs.owner == b.uid && rs.revision == after.birth.value.previous)
  {
    var b := c.status.birth.value;
    var r := Resolved(b, c.deployment.value, seen);
    ResolvedEarlier(b, c.deployment.value, seen);
    RollsBackExactlyWhen(spec, c, seen);
    RevisionIsFound(seen.replicaSets, b.uid, r.previous);
    PassOfBorn(spec, c, seen);
    AfterBirthResolves(spec, c, b, seen);
    hide Pass;
    hide AfterBirth;
    hide Resolved;
    hide AtRevision;
    hide OwnedBy;
    hide Total;
    hide EarlierRevision;
    hide ScoresFit;
  }

  // ---------- What becomes of the Deployment and the budget ----------

  /** Care gives back the replica it added, never the last one. */
  ghost predicate ReplicaComesOff(b: Birth, before: Option<int>, after: Option<int>) {
    if b.addedReplica && before.Some? && before.value > 1 then after == Some(before.value - 1) else after == before
  }

  /** Care takes away the budget it made, as long as that one is still marked as managed. */
  ghost predicate BudgetComesOff(b: Birth, before: Option<Budget>, after: Option<Budget>) {
    if b.budget && before.Some? && before.value.managed then after.None? else after == before
  }

  lemma ScoredObjects(spec: Spec, c: Case, b: Birth, d: Deployment, seen: Seen)
    requires InCare(c.status) && c.status.birth == Some(b) && c.deployment == Some(d)
    ensures var scored := Scored(spec, c, b, d, seen);
      && scored.deployment.Some?
      && (if scored.status.phase.RolledBack?
          then var e := scored.deployment.value;
            && e == d.(replicas := e.replicas, newborn := false, template := e.template)
            && ReplicaComesOff(b, d.replicas, e.replicas) && BudgetComesOff(b, c.budget, scored.budget)
          else scored == c.(status := scored.status))
  {
    hide ScoreDue;
    hide Total;
    hide AtRevision;
    hide OwnedBy;
  }

  lemma CaredObjects(c: Case, b: Birth, d: Deployment, care: Care, now: int)
    requires InCare(c.status) && c.status.birth == Some(b) && c.deployment == Some(d)
    ensures var cared := Cared(c, b, d, care, now);
      && cared.deployment.Some?
      && (if cared.status.phase.Grown?
          then var e := cared.deployment.value;
            && e == d.(replicas := e.replicas, newborn := false)
            && ReplicaComesOff(b, d.replicas, e.replicas) && BudgetComesOff(b, c.budget, cared.budget)
          else cared == c.(status := cared.status))
  {
    hide CaregiversOf;
    hide TwoNamed;
  }

  /** A pass that ends care, well or badly, and no other pass over a born service, changes the objects. */
  ghost predicate CareEnds(before: Phase, after: Phase) {
    (after.RolledBack? && !before.RolledBack?) || (after.Grown? && !before.Grown?)
  }

  /** What a pass that makes no launch does to the Deployment and the budget. */
  ghost predicate ObjectsFollow(b: Birth, before: Case, after: Case) {
    if CareEnds(before.status.phase, after.status.phase) then
      && before.deployment.Some? && after.deployment.Some?
      && (var d, e := before.deployment.value, after.deployment.value;
          && e == d.(replicas := e.replicas, newborn := false, template := e.template)
          && (after.status.phase.Grown? ==> e.template == d.template)
          && ReplicaComesOff(b, d.replicas, e.replicas))
      && BudgetComesOff(b, before.budget, after.budget)
    else
      && after.deployment == before.deployment
      && (if after.status.phase.Departed? && !before.status.phase.Departed?
          then BudgetComesOff(b, before.budget, after.budget)
          else after.budget == before.budget)
  }

  lemma AfterBirthObjects(spec: Spec, c: Case, b: Birth, seen: Seen)
    requires Sound(c.status) && c.status.birth == Some(b)
    ensures ObjectsFollow(b, c, AfterBirth(spec, c, b, seen))
  {
    if Lives(c) {
      var d := c.deployment.value;
      ResolvedEarlier(b, d, seen);
      var r := Resolved(b, d, seen);
      hide Resolved;
      var c1 := c.(status := c.status.(birth := Some(r)));
      if InCare(c1.status) {
        ScoredStays(spec, c1, r, d, seen);
        ScoredObjects(spec, c1, r, d, seen);
        ScoredKeepsBirth(spec, c1, r, d, seen);
        ScoredLeads(spec, c1, r, d, seen);
        ScoredLeavesCare(spec, c1, r, d, seen);
        var c2 := Scored(spec, c1, r, d, seen);
        if InCare(c2.status) {
          CaredObjects(c2, r, d, c2.status.care.value, seen.now);
          CaredLeadsOn(c2, r, d, c2.status.care.value, seen.now);
        }
      }
    }
    hide Scored;
    hide Cared;
    hide ScoresFit;
    hide EarlierRevision;
  }

  lemma CaredLeadsOn(c: Case, b: Birth, d: Deployment, care: Care, now: int)
    ensures var phase := Cared(c, b, d, care, now).status.phase;
      phase.NewbornCare? || phase.NeedsCaregivers? || phase.Grown?
  {
    hide CaregiversOf;
    hide TwoNamed;
  }

  /**
   * Between a launch and the next one, the Deployment changes only in the pass that ends care: the
   * added replica and the label come off, and the template only when it rolls back. The budget
   * goes in that pass or in the one that departs.
   */
  lemma ObjectsOfAPass(spec: Spec, c: Case, seen: Seen)
    requires Sound(c.status) && !c.status.phase.Delivering? && !Begins(spec, c.status)
    ensures var after := Pass(spec, c, seen);
      if c.status.birth.Some? then ObjectsFollow(c.status.birth.value, c, after)
      else after.deployment == c.deployment && after.budget == c.budget
  {
    if c.status.birth.Some? {
      PassOfBorn(spec, c, seen);
      AfterBirthObjects(spec, c, c.status.birth.value, seen);
      hide Pass;
      hide AfterBirth;
    }
    hide Sound;
  }

  // ---------- Before birth ----------

  /** Of a service that is not delivered yet, the phase tells whether a placeholder is at trimester 0. */
  lemma PhaseBeforeBirth(spec: Spec, c: Case, seen: Seen)
    requires Sound(c.status) && c.status.birth.None? && !c.status.phase.Delivering? && !Begins(spec, c.status)
    ensures var after := Pass(spec, c, seen).status;
      && after.phase == (if seen.trimester == Some(0) then Due else Expecting)
      && after == Written(c.status).(phase := after.phase)
  {
    hide ScoresFit;
    hide EarlierRevision;
  }

  /** A delivery that begins is dated, and what is recorded of a launch before it is dropped. */
  lemma DeliveryIsDated(spec: Spec, c: Case, seen: Seen)
    requires Sound(c.status)
    ensures var before, after := c.status, Pass(spec, c, seen).status;
      if spec.delivery > before.delivery && (before.birth.None? || before.phase.RolledBack?)
      then && after.delivery == spec.delivery && after.started == Some(Second(seen.now)) && after.apgar == []
           && after.caregivers == before.caregivers
           && (after.phase.Delivering? || after.phase.NewbornCare?)
      else after.delivery == before.delivery && after.started == Written(before).started
  {
    if !Begins(spec, c.status) && c.status.birth.Some? {
      PassOfBorn(spec, c, seen);
      AfterBirthLeads(spec, c, c.status.birth.value, seen);
      hide Pass;
    }
    hide AfterBirth;
    hide ScoresFit;
    hide EarlierRevision;
    hide NewBudget;
  }

  // ---------- Scores ----------

  /** Each sign is 2, 1 or 0: when it is the best and when it is the worst. */
  lemma SignsAre(s: Signs)
    ensures Appearance(s) == 2 <==> s.desired > 0 && s.ready >= s.desired
    ensures Appearance(s) == 0 <==> s.ready <= 0 || (s.ready < s.desired && 2 * s.ready < s.desired)
    ensures Pulse(s) == 0 <==> s.crashLooping || s.restarts > s.desired
    ensures Pulse(s) == 2 <==> !s.crashLooping && s.restarts <= s.desired && s.restarts <= 0 && s.livenessFailures <= 0
    ensures Grimace(s) == 2 <==> s.warnings == 0
    ensures Grimace(s) == 0 <==> s.warnings > 5
    ensures var have := if s.services == 0 then s.running else s.readyEndpoints;
      (Activity(s) == 2 <==> s.desired > 0 && have >= s.desired) && (Activity(s) == 0 <==> have <= 0)
    ensures Respiration(s) == 0 <==> s.oomKills >= 2
    ensures Respiration(s) == 2 <==> s.oomKills <= 0 && s.evictions <= 0
    ensures Total(s) == Appearance(s) + Pulse(s) + Grimace(s) + Activity(s) + Respiration(s) <= 10
  {
  }

  /** After these scores this minute comes next: 1, then 5, then one more every five while the last one is low. */
  ghost predicate Awaits(scores: seq<Apgar>, minute: int) {
    || (|scores| == 0 && minute == 1)
    || (|scores| == 1 && minute == 5)
    || (2 <= |scores| <= 4 && scores[|scores| - 1].total < 7 && minute == 5 * |scores|)
  }

  lemma NextIsAwaited(scores: seq<Apgar>, birth: Option<Birth>)
    requires ScoresFit(scores, birth)
    ensures NextMinute(scores) != 0 ==> Awaits(scores, NextMinute(scores))
    ensures forall minute :: Awaits(scores, minute) ==> minute == NextMinute(scores) != 0
  {
    NextIsNext(scores, birth);
    if scores != [] {
      assert scores[|scores| - 1].minute == MinuteAt(|scores| - 1);
    }
  }

  /** The launch would go back, but its Deployment owns no ReplicaSet of the revision before. */
  ghost predicate Stuck(spec: Spec, b: Birth, minute: int, seen: Seen) {
    && minute == 5 && Total(seen.signs) < 7 && spec.autoRollback && b.previous != ""
    && forall rs :: rs in seen.replicaSets && rs.owner == b.uid ==> rs.revision != b.previous
  }

  lemma ScoredAdds(spec: Spec, c: Case, b: Birth, d: Deployment, seen: Seen)
    requires c.status.birth == Some(b) && InCare(c.status) && d.uid == b.uid
    requires ScoresFit(c.status.apgar, c.status.birth)
    ensures var scores, next := Scored(spec, c, b, d, seen).status.apgar, NextMinute(c.status.apgar);
      if next != 0 && b.revision != "" && seen.now >= b.time + next * MINUTE && !Stuck(spec, b, next, seen)
      then scores == c.status.apgar + [Apgar(next, seen.now, Total(seen.signs))]
      else scores == c.status.apgar
  {
    RevisionIsFound(seen.replicaSets, d.uid, b.previous);
    if AtRevision(OwnedBy(seen.replicaSets, d.uid), b.previous).Some? {
      var rs := AtRevision(OwnedBy(seen.replicaSets, d.uid), b.previous).value;
      assert rs in seen.replicaSets;
    }
    hide NextMinute;
    hide Total;
    hide AtRevision;
    hide OwnedBy;
  }

  lemma AfterBirthScores(spec: Spec, c: Case, b: Birth, seen: Seen)
    requires Sound(c.status) && c.status.birth == Some(b) && Lives(c) && InCare(c.status)
    ensures var after := AfterBirth(spec, c, b, seen).status;
      var scores, next := c.status.apgar, NextMinute(c.status.apgar);
      && after.birth.Some?
      && (var r := after.birth.value;
          if next != 0 && r.revision != "" && seen.now >= r.time + next * MINUTE && !Stuck(spec, r, next, seen)
          then after.apgar == scores + [Apgar(next, seen.now, Total(seen.signs))]
          else after.apgar == scores)
  {
    var d := c.deployment.value;
    ResolvedEarlier(b, d, seen);
    ResolvedSound(c.status, d, seen);
    var r := Resolved(b, d, seen);
    hide Resolved;
    var c1 := c.(status := c.status.(birth := Some(r)));
    ScoredAdds(spec, c1, r, d, seen);
    ScoredKeepsBirth(spec, c1, r, d, seen);
    ScoredLeads(spec, c1, r, d, seen);
    var c2 := Scored(spec, c1, r, d, seen);
    BackKeepsRevisions(spec, c1, r, d, seen);
    if InCare(c2.status) {
      CaredKeepsScores(c2, r, d, c2.status.care.value, seen.now);
    }
    hide Scored;
    hide Cared;
    hide NextMinute;
    hide Total;
    hide ScoresFit;
    hide EarlierRevision;
  }

  lemma BackKeepsRevisions(spec: Spec, c: Case, b: Birth, d: Deployment, seen: Seen)
    requires c.status.birth == Some(b)
    ensures var scored := Scored(spec, c, b, d, seen).status;
      scored.birth.Some? && scored.birth.value == b.(rolledBackTo := scored.birth.value.rolledBackTo)
  {
    hide ScoreDue;
  }

  lemma CaredKeepsScores(c: Case, b: Birth, d: Deployment, care: Care, now: int)
    ensures var cared := Cared(c, b, d, care, now).status;
      cared.apgar == c.status.apgar && cared.birth == c.status.birth
  {
    hide CaregiversOf;
    hide TwoNamed;
  }

  /**
   * A pass over a service in care takes the score that comes next exactly when its minute has
   * come, a revision is known, and no rollback fails on it; otherwise the scores stay.
   */
  lemma ScoresExactlyWhen(spec: Spec, c: Case, seen: Seen, minute: int)
    requires Sound(c.status) && c.status == Written(c.status) && Lives(c) && Protected(c.status)
    ensures var scores, after := c.status.apgar, Pass(spec, c, seen).status;
      && after.birth.Some?
      && (after.apgar == scores || exists next :: Awaits(scores, next) && |after.apgar| == |scores| + 1)
      && (Awaits(scores, minute) ==>
            var b := after.birth.value;
            if b.revision != "" && seen.now >= b.time + minute * MINUTE && !Stuck(spec, b, minute, seen)
            then after.apgar == scores + [Apgar(minute, Second(seen.now), Total(seen.signs))]
            else after.apgar == scores)
  {
    var b := c.status.birth.value;
    PassOfBorn(spec, c, seen);
    AfterBirthScores(spec, c, b, seen);
    AfterBirthLeads(spec, c, b, seen);
    NextIsAwaited(c.status.apgar, c.status.birth);
    var looked := AfterBirth(spec, c, b, seen).status;
    WrittenIs(looked);
    WrittenIs(c.status);
    hide AfterBirth;
    hide Pass;
    hide Written;
    hide NextMinute;
    hide Total;
    hide Sound;
    var after := Written(looked);
    if |looked.apgar| == |c.status.apgar| {
      assert after.apgar == c.status.apgar;
    } else {
      var score := Apgar(NextMinute(c.status.apgar), Second(seen.now), Total(seen.signs));
      assert after.apgar == c.status.apgar + [score];
    }
  }

  // ---------- Revisions ----------

  lemma {:induction false} OwnedAre(rss: seq<ReplicaSet>, uid: string)
    ensures forall rs :: rs in OwnedBy(rss, uid) <==> rs in rss && rs.owner == uid
  {
    if rss == [] {
    } else {
      OwnedAre(rss[..|rss| - 1], uid);
      assert rss == rss[..|rss| - 1] + [rss[|rss| - 1]];
    }
  }

  /** The first ReplicaSet of this owner and template. */
  ghost predicate FirstLike(rss: seq<ReplicaSet>, uid: string, template: string, rs: ReplicaSet) {
    exists k :: 0 <= k < |rss| && rss[k] == rs && rs.owner == uid && rs.template == template &&
                forall i :: 0 <= i < k ==> rss[i].owner != uid || rss[i].template != template
  }

  lemma {:induction false} WithTemplateSplits(a: seq<ReplicaSet>, b: seq<ReplicaSet>, template: string)
    ensures WithTemplate(a + b, template) ==
            if WithTemplate(a, template).Some? then WithTemplate(a, template) else WithTemplate(b, template)
  {
    if a == [] {
      assert a + b == b;
    } else {
      assert (a + b)[1..] == a[1..] + b;
      WithTemplateSplits(a[1..], b, template);
    }
  }

  lemma {:induction false} TemplateIsFound(rss: seq<ReplicaSet>, uid: string, template: string)
    ensures match WithTemplate(OwnedBy(rss, uid), template)
            case None => forall rs :: rs in rss && rs.owner == uid ==> rs.template != template
            case Some(rs) => FirstLike(rss, uid, template, rs)
  {
    if rss == [] {
    } else {
      var n := |rss| - 1;
      var last := rss[n];
      TemplateIsFound(rss[..n], uid, template);
      var tail := if last.owner == uid then [last] else [];
      WithTemplateSplits(OwnedBy(rss[..n], uid), tail, template);
      assert rss == rss[..n] + [last];
      if WithTemplate(OwnedBy(rss[..n], uid), template).Some? {
        var rs := WithTemplate(OwnedBy(rss[..n], uid), template).value;
        var k :| 0 <= k < n && rss[..n][k] == rs && rs.owner == uid && rs.template == template &&
                 forall i :: 0 <= i < k ==> rss[..n][i].owner != uid || rss[..n][i].template != template;
        assert rss[k] == rs && forall i :: 0 <= i < k ==> rss[i] == rss[..n][i];
        assert FirstLike(rss, uid, template, rs);
      } else {
        assert forall i :: 0 <= i < n ==> rss[i] in rss[..n];
        assert last.owner == uid && last.template == template ==> FirstLike(rss, uid, template, rss[n]);
      }
    }
  }

  lemma FirstLikeIsOne(rss: seq<ReplicaSet>, uid: string, template: string, a: ReplicaSet, b: ReplicaSet)
    requires FirstLike(rss, uid, template, a) && FirstLike(rss, uid, template, b)
    ensures a == b
  {
  }

  /** The number of the latest revision before this one among the owned ReplicaSets, or nothing. */
  ghost predicate IsPrevious(rss: seq<ReplicaSet>, uid: string, born: int, previous: string) {
    if exists rs :: rs in rss && rs.owner == uid && 0 < RevisionNumber(rs.revision) < born then
      exists latest | latest in rss && latest.owner == uid && RevisionNumber(latest.revision) < born ::
        && previous == Itoa(RevisionNumber(latest.revision))
        && forall rs :: rs in rss && rs.owner == uid && RevisionNumber(rs.revision) < born ==>
             RevisionNumber(rs.revision) <= RevisionNumber(latest.revision)
    else previous == ""
  }

  lemma PreviousIsFound(rss: seq<ReplicaSet>, uid: string, born: int)
    ensures var prev := Before(OwnedBy(rss, uid), born);
      IsPrevious(rss, uid, born, if prev > 0 then Itoa(prev) else "")
  {
    OwnedAre(rss, uid);
    BeforeIsLatest(OwnedBy(rss, uid), born);
    hide OwnedBy;
    hide Before;
    hide RevisionNumber;
    hide Itoa;
    var prev := Before(OwnedBy(rss, uid), born);
    if prev > 0 {
      var latest :| latest in OwnedBy(rss, uid) && RevisionNumber(latest.revision) == prev;
      assert latest in rss && latest.owner == uid && 0 < RevisionNumber(latest.revision) < born;
    }
  }

  /** What is no number after its sign counts as revision 0, which is before no birth. */
  lemma NoRevisionNumber(s: string, i: nat)
    requires i < |s| && !IsDigit(s[i]) && (i > 0 || (s[0] != '-' && s[0] != '+'))
    ensures RevisionNumber(s) == 0
  {
    if s[0] == '-' || s[0] == '+' {
      assert s[1..][i - 1] == s[i];
    }
    assert s[i] in s;
  }

  lemma ResolvedIs(b: Birth, d: Deployment, seen: Seen, newest: ReplicaSet)
    requires EarlierRevision(b)
    ensures var r := Resolved(b, d, seen);
      if b.revision == "" && seen.observed && FirstLike(seen.replicaSets, d.uid, d.template, newest)
      then && r.revision == newest.revision
           && IsPrevious(seen.replicaSets, d.uid, RevisionNumber(newest.revision), r.previous)
      else if b.revision == "" && seen.observed
      then (forall rs :: rs in seen.replicaSets && rs.owner == d.uid ==> rs.template != d.template) ==> r == b
      else r == b
  {
    var rss := seen.replicaSets;
    TemplateIsFound(rss, d.uid, d.template);
    var found := WithTemplate(OwnedBy(rss, d.uid), d.template);
    if found.Some? {
      if FirstLike(rss, d.uid, d.template, newest) {
        FirstLikeIsOne(rss, d.uid, d.template, newest, found.value);
        PreviousIsFound(rss, d.uid, RevisionNumber(newest.revision));
      }
      assert found.value in rss;
    } else {
      assert !FirstLike(rss, d.uid, d.template, newest);
    }
    hide FirstLike;
    hide IsPrevious;
    hide WithTemplate;
    hide OwnedBy;
    hide Before;
    hide RevisionNumber;
  }

  lemma AfterBirthResolves(spec: Spec, c: Case, b: Birth, seen: Seen)
    requires Lives(c) && c.status.birth == Some(b)
    ensures var after := AfterBirth(spec, c, b, seen).status.birth;
      && after.Some?
      && (var r := Resolved(b, c.deployment.value, seen); after.value == r.(rolledBackTo := after.value.rolledBackTo))
  {
    var d := c.deployment.value;
    var r := Resolved(b, d, seen);
    hide Resolved;
    var c1 := c.(status := c.status.(birth := Some(r)));
    if InCare(c1.status) {
      BackKeepsRevisions(spec, c1, r, d, seen);
      var c2 := Scored(spec, c1, r, d, seen);
      if InCare(c2.status) {
        CaredKeepsScores(c2, r, d, c2.status.care.value, seen.now);
      }
    }
    hide Scored;
    hide Cared;
  }

  /**
   * Once the Deployment has been observed, a pass records the revision of the first ReplicaSet it
   * owns with its template, and the latest one before that; recorded revisions stay.
   */
  lemma RevisionsAreFound(spec: Spec, c: Case, seen: Seen, newest: ReplicaSet)
    requires Sound(c.status) && Lives(c) && !Begins(spec, c.status)
    ensures var b, after, d := c.status.birth.value, Pass(spec, c, seen).status.birth, c.deployment.value;
      var rss := seen.replicaSets;
      && after.Some?
      && (var r := after.value;
          if b.revision == "" && seen.observed && FirstLike(rss, d.uid, d.template, newest)
          then && r.revision == newest.revision
               && IsPrevious(rss, d.uid, RevisionNumber(newest.revision), r.previous)
          else if b.revision == "" && seen.observed
          then (forall rs :: rs in rss && rs.owner == d.uid ==> rs.template != d.template) ==>
                 r.revision == "" && r.previous == ""
          else r.revision == b.revision && r.previous == b.previous)
  {
    var b := c.status.birth.value;
    PassOfBorn(spec, c, seen);
    AfterBirthResolves(spec, c, b, seen);
    ResolvedIs(b, c.deployment.value, seen, newest);
    WrittenIs(AfterBirth(spec, c, b, seen).status);
    hide FirstLike;
    hide IsPrevious;
    hide RevisionNumber;
    hide Resolved;
    hide AfterBirth;
    hide Pass;
    hide Written;
    hide ScoresFit;
  }

  // ---------- Caregivers' names ----------

  lemma {:induction false} TrimRightDrops(t: string, space: string, cut: char -> bool)
    requires forall c :: c in space ==> cut(c)
    requires t == "" || !cut(t[|t| - 1])
    ensures TrimRight(t + space, cut) == t
  {
    if space == "" {
      assert t + space == t;
    } else {
      var n := |space| - 1;
      assert space[n] in space;
      assert (t + space)[..|t + space| - 1] == t + space[..n];
      TrimRightDrops(t, space[..n], cut);
    }
  }

  lemma {:induction false} TrimLeftDrops(space: string, t: string, cut: char -> bool)
    requires forall c :: c in space ==> cut(c)
    requires t == "" || !cut(t[0])
    ensures TrimLeft(space + t, cut) == t
  {
    if space == "" {
      assert space + t == t;
    } else {
      assert space[0] in space;
      assert (space + t)[1..] == space[1..] + t;
      TrimLeftDrops(space[1..], t, cut);
    }
  }

  /** White space before and after a name does not count. */
  lemma NamesAreTrimmed(before: string, name: string, after: string)
    requires forall c :: c in before + after ==> c in " \t\n\r" || c == 11 as char || c == 12 as char
    requires name != "" ==> name[0] !in " \t\n\r" && name[0] > 13 as char
    requires name != "" ==> name[|name| - 1] !in " \t\n\r" && name[|name| - 1] > 13 as char
    ensures TrimSpace(before + name + after) == name
  {
    assert forall c :: c in before ==> c in before + after;
    assert forall c :: c in after ==> c in before + after;
    assert before + name + after == before + (name + after);
    if name != "" {
      TrimLeftDrops(before, name + after, IsSpace);
      TrimRightDrops(name, after, IsSpace);
    } else {
      assert name + after == after;
      TrimLeftDrops(before + after, "", IsSpace);
      assert before + after + "" == before + after;
    }
  }

  /** The same, or a capital and its small letter. */
  ghost predicate SameLetter(a: char, b: char) {
    a == b || ('A' <= a <= 'Z' && b == a - 'A' + 'a') || ('A' <= b <= 'Z' && a == b - 'A' + 'a')
  }

  /** Two caregivers are two names that differ in more than the case of their ASCII letters. */
  lemma TwoAreNamed(primary: string, secondary: string)
    ensures TwoNamed(Caregivers(primary, secondary)) <==>
      && primary != "" && secondary != ""
      && (|primary| != |secondary| ||
          exists i :: 0 <= i < |primary| && !SameLetter(primary[i], secondary[i]))
  {
    hide Lower;
    if |primary| == |secondary| {
      forall i | 0 <= i < |primary|
        ensures Lower(primary)[i] == Lower(secondary)[i] <==> SameLetter(primary[i], secondary[i])
      {
      }
    }
  }
}
