/** What every pass of the controller keeps of a Gestation's status, and when it rolls back and discharges. */
module GestationStates {
  import opened Base
  import opened Text
  import opened Gestation

  // ---------- The phase fits the records ----------

  /** An earlier revision is named only when it is one. */
  ghost predicate EarlierRevision(b: Birth) {
    b.previous != "" ==> b.revision != "" && 0 < RevisionNumber(b.previous) < RevisionNumber(b.revision)
  }

  ghost predicate Unborn(st: Status) {
    st.birth.None? && st.care.None? && st.apgar == []
  }

  ghost predicate CareFits(care: Care) {
    care.discharged.None? && 1 <= care.tier <= 3 && care.priority == TierClass(care.tier)
  }

  ghost predicate PhaseFits(st: Status) {
    && (st.birth.Some? ==> EarlierRevision(st.birth.value))
    && match st.phase
       case Unset => Unborn(st)
       case Expecting => Unborn(st)
       case Due => Unborn(st)
       case Delivering => Unborn(st) && st.started.Some?
       case NewbornCare =>
         st.birth.Some? && st.birth.value.rolledBackTo == "" && st.care.Some? && CareFits(st.care.value)
       case NeedsCaregivers =>
         st.birth.Some? && st.birth.value.rolledBackTo == "" &&
         st.care.Some? && CareFits(st.care.value) && st.care.value.tier == 3
       case Grown =>
         && st.birth.Some? && st.birth.value.rolledBackTo == ""
         && st.care.Some? && st.care.value.tier == 0 && st.care.value.discharged.Some?
         && st.care.value.discharged.value >= st.birth.value.time + CARE_PERIOD
         && st.caregivers.Some? && TwoNamed(st.caregivers.value)
       case RolledBack =>
         st.birth.Some? && st.birth.value.rolledBackTo == st.birth.value.previous != "" && st.care.None?
       case Departed => st.birth.Some? && st.care.None?
  }

  // ---------- Scores ----------

  /** 1, 5, 10, 15, 20. */
  function MinuteAt(i: nat): int {
    if i == 0 then 1 else 5 * i
  }

  /** A prefix of the minutes, none early; every score from the second on, except the last, is low. */
  ghost predicate ScoresFit(apgar: seq<Apgar>, birth: Option<Birth>) {
    && |apgar| <= 5
    && (apgar != [] ==> birth.Some?)
    && (forall i :: 0 <= i < |apgar| ==>
          apgar[i].minute == MinuteAt(i) && apgar[i].time >= birth.value.time + MinuteAt(i) * MINUTE)
    && (forall i :: 1 <= i < |apgar| - 1 ==> apgar[i].total < REASSURING)
  }

  /** A launch was rolled back by a low second score. */
  ghost predicate RollbackFits(st: Status) {
    st.birth.Some? && st.birth.value.rolledBackTo != "" ==> |st.apgar| == 2 && st.apgar[1].total < REASSURING
  }

  ghost predicate Sound(st: Status) {
    PhaseFits(st) && ScoresFit(st.apgar, st.birth) && RollbackFits(st)
  }

  lemma NextIsNext(apgar: seq<Apgar>, birth: Option<Birth>)
    requires ScoresFit(apgar, birth)
    ensures NextMinute(apgar) != 0 ==>
      |apgar| < 5 && NextMinute(apgar) == MinuteAt(|apgar|) && (|apgar| > 1 ==> apgar[|apgar| - 1].total < REASSURING)
  {
  }

  lemma OneMoreScore(apgar: seq<Apgar>, birth: Option<Birth>, score: Apgar)
    requires ScoresFit(apgar, birth) && birth.Some? && NextMinute(apgar) != 0 && score.minute == NextMinute(apgar)
    requires score.time >= birth.value.time + NextMinute(apgar) * MINUTE
    ensures ScoresFit(apgar + [score], birth)
  {
    NextIsNext(apgar, birth);
  }

  // ---------- Writing a status down ----------

  lemma SecondLater(a: int, b: int, minutes: int)
    requires a >= b + minutes * MINUTE
    ensures Second(a) >= Second(b) + minutes * MINUTE
  {
    assert minutes * MINUTE == minutes * 60 * SECOND;
    assert Second(b + minutes * MINUTE) == Second(b) + minutes * MINUTE;
  }

  lemma WrittenSound(st: Status)
    requires Sound(st)
    ensures Sound(Written(st))
  {
    var w := Written(st);
    forall i | 0 <= i < |st.apgar|
      ensures w.apgar[i].time >= w.birth.value.time + MinuteAt(i) * MINUTE
    {
      SecondLater(st.apgar[i].time, st.birth.value.time, MinuteAt(i));
    }
    assert ScoresFit(w.apgar, w.birth);
    if st.phase.Grown? {
      SecondLater(st.care.value.discharged.value, st.birth.value.time, 72 * 60);
    }
  }

  lemma WrittenTwice(st: Status)
    ensures Written(Written(st)) == Written(st)
  {
    var once, twice := Written(st), Written(Written(st));
    forall i | 0 <= i < |st.apgar|
      ensures twice.apgar[i] == once.apgar[i]
    {
    }
    assert twice.apgar == once.apgar;
  }

  // ---------- One step at a time ----------

  lemma BegunSound(spec: Spec, st: Status, now: int)
    requires Sound(st)
    ensures Sound(Begun(spec, st, now))
  {
  }

  lemma DeliveredSound(spec: Spec, c: Case, seen: Seen)
    requires Sound(c.status) && c.status.phase.Delivering?
    ensures Sound(Delivered(spec, c, seen).status)
  {
  }

  lemma {:induction false} BeforeIsRevision(rss: seq<ReplicaSet>, born: int)
    ensures Before(rss, born) <= MAX_INT
  {
    if rss == [] {
    } else {
      BeforeIsRevision(rss[..|rss| - 1], born);
    }
  }

  /** The revision before is the latest one below the birth's, if there is any. */
  lemma {:induction false} BeforeIsLatest(rss: seq<ReplicaSet>, born: int)
    ensures forall rs :: rs in rss && RevisionNumber(rs.revision) < born ==>
      RevisionNumber(rs.revision) <= Before(rss, born)
    ensures Before(rss, born) > 0 ==> exists rs | rs in rss :: RevisionNumber(rs.revision) == Before(rss, born)
  {
    hide RevisionNumber;
    if rss == [] {
    } else {
      var n := |rss| - 1;
      BeforeIsLatest(rss[..n], born);
      assert rss == rss[..n] + [rss[n]];
      if Before(rss[..n], born) > 0 {
        var rs :| rs in rss[..n] && RevisionNumber(rs.revision) == Before(rss[..n], born);
        assert rs in rss;
      }
      assert rss[n] in rss;
    }
  }

  lemma RevisionOfItoa(n: int)
    requires 0 < n <= MAX_INT
    ensures RevisionNumber(Itoa(n)) == n && Itoa(n) != ""
  {
    ParseOfDigits(n);
    assert Itoa(n)[0] in Digits(n);
  }

  lemma ResolvedEarlier(b: Birth, d: Deployment, seen: Seen)
    requires EarlierRevision(b)
    ensures EarlierRevision(Resolved(b, d, seen))
    ensures var r := Resolved(b, d, seen); r == b.(revision := r.revision, previous := r.previous)
    ensures b.revision != "" ==> Resolved(b, d, seen) == b
  {
    hide RevisionNumber;
    if b.revision == "" && seen.observed {
      var rss := OwnedBy(seen.replicaSets, d.uid);
      var newest := WithTemplate(rss, d.template);
      if newest.Some? {
        var born := RevisionNumber(newest.value.revision);
        var prev := Before(rss, born);
        if prev > 0 {
          BeforeIsRevision(rss, born);
          RevisionOfItoa(prev);
          NumberOfNothing();
        }
      }
    }
  }

  lemma NumberOfNothing()
    ensures RevisionNumber("") == 0
  {
  }

  lemma ScoredSound(spec: Spec, c: Case, b: Birth, d: Deployment, seen: Seen)
    requires Sound(c.status) && c.status.birth == Some(b) && InCare(c.status)
    ensures Sound(Scored(spec, c, b, d, seen).status)
  {
    hide RevisionNumber;
    if ScoreDue(c.status, b, seen.now) {
      var score := Apgar(NextMinute(c.status.apgar), seen.now, Total(seen.signs));
      NextIsNext(c.status.apgar, c.status.birth);
      OneMoreScore(c.status.apgar, c.status.birth, score);
      hide NextMinute;
      hide Total;
      hide ScoreDue;
      assert ScoresFit(c.status.apgar + [score], Some(b.(rolledBackTo := b.previous)));
    }
  }

  lemma CaredSound(c: Case, b: Birth, d: Deployment, care: Care, now: int)
    requires Sound(c.status) && c.status.birth == Some(b) && InCare(c.status) && c.status.care == Some(care)
    ensures Sound(Cared(c, b, d, care, now).status)
  {
    hide RevisionNumber;
    hide CaregiversOf;
    hide EqualFold;
    hide ScoresFit;
    hide WithoutCare;
  }

  lemma ResolvedSound(st: Status, d: Deployment, seen: Seen)
    requires Sound(st) && st.birth.Some?
    ensures Sound(st.(birth := Some(Resolved(st.birth.value, d, seen))))
  {
    ResolvedEarlier(st.birth.value, d, seen);
    hide Resolved;
    hide RevisionNumber;
  }

  lemma AfterBirthSound(spec: Spec, c: Case, b: Birth, seen: Seen)
    requires Sound(c.status) && c.status.birth == Some(b)
    ensures Sound(AfterBirth(spec, c, b, seen).status)
  {
    if c.deployment.None? || c.deployment.value.uid != b.uid {
      return;
    }
    var d := c.deployment.value;
    var r := Resolved(b, d, seen);
    var c1 := c.(status := c.status.(birth := Some(r)));
    ResolvedSound(c.status, d, seen);
    hide Resolved;
    if InCare(c1.status) {
      ScoredSound(spec, c1, r, d, seen);
      var c2 := Scored(spec, c1, r, d, seen);
      if InCare(c2.status) {
        ScoredKeepsBirth(spec, c1, r, d, seen);
        hide Scored;
        CaredSound(c2, r, d, c2.status.care.value, seen.now);
      }
    }
  }

  /** A score that does not roll back changes nothing but the scores. */
  lemma ScoredKeepsBirth(spec: Spec, c: Case, b: Birth, d: Deployment, seen: Seen)
    requires c.status.birth == Some(b)
    ensures var scored := Scored(spec, c, b, d, seen);
      InCare(scored.status) ==>
        scored == c.(status := c.status.(apgar := scored.status.apgar)) && c.status.apgar <= scored.status.apgar
  {
  }

  /** Every pass leaves a phase that fits the records, and scores taken in order and in time. */
  lemma PassKeepsSound(spec: Spec, c: Case, seen: Seen)
    requires Sound(c.status)
    ensures Sound(Pass(spec, c, seen).status)
  {
    var begun := c.(status := Begun(spec, c.status, seen.now));
    BegunSound(spec, c.status, seen.now);
    if begun.status.phase.Delivering? {
      DeliveredSound(spec, begun, seen);
    } else if begun.status.birth.Some? {
      AfterBirthSound(spec, begun, begun.status.birth.value, seen);
    }
    hide Delivered;
    hide AfterBirth;
    hide Begun;
    WrittenSound(Stepped(spec, begun, seen).status);
  }

  // ---------- Where a pass can lead ----------

  /** A delivery was asked for, and nothing born stands in its way. */
  predicate Begins(spec: Spec, st: Status) {
    spec.delivery > st.delivery && (st.birth.None? || st.phase.RolledBack?)
  }

  /** The same launch, whatever else is recorded of it. */
  predicate SameBirth(a: Birth, b: Birth) {
    && a.time == b.time && a.uid == b.uid && a.selector == b.selector
    && a.addedReplica == b.addedReplica && a.budget == b.budget
  }

  /** How a born service's status may change within a pass. */
  predicate Leads(a: Status, b: Status) {
    && a.birth.Some? && b.birth.Some? && SameBirth(a.birth.value, b.birth.value)
    && a.delivery == b.delivery && a.started == b.started && !b.phase.Delivering?
    && (!InCare(a) ==> b.phase == a.phase || b.phase.Departed?)
    && (b.birth.value.rolledBackTo != a.birth.value.rolledBackTo ==> InCare(a) && b.phase.RolledBack?)
  }

  lemma ScoredLeads(spec: Spec, c: Case, b: Birth, d: Deployment, seen: Seen)
    requires c.status.birth == Some(b) && InCare(c.status)
    ensures Leads(c.status, Scored(spec, c, b, d, seen).status)
  {
    hide ScoreDue;
  }

  lemma CaredLeads(c: Case, b: Birth, d: Deployment, care: Care, now: int)
    requires c.status.birth == Some(b) && InCare(c.status)
    ensures Leads(c.status, Cared(c, b, d, care, now).status)
  {
    hide CaregiversOf;
    hide TwoNamed;
  }

  lemma AfterBirthLeads(spec: Spec, c: Case, b: Birth, seen: Seen)
    requires Sound(c.status) && c.status.birth == Some(b)
    ensures Leads(c.status, AfterBirth(spec, c, b, seen).status)
  {
    hide ScoresFit;
    hide RevisionNumber;
    if c.deployment.None? || c.deployment.value.uid != b.uid {
      return;
    }
    var d := c.deployment.value;
    ResolvedEarlier(b, d, seen);
    hide Resolved;
    var r := Resolved(b, d, seen);
    var c1 := c.(status := c.status.(birth := Some(r)));
    if InCare(c1.status) {
      ScoredLeads(spec, c1, r, d, seen);
      ScoredKeepsBirth(spec, c1, r, d, seen);
      var c2 := Scored(spec, c1, r, d, seen);
      if InCare(c2.status) {
        CaredLeads(c2, r, d, c2.status.care.value, seen.now);
      }
    }
    hide Scored;
    hide Cared;
  }

  /**
   * The delivery number rises exactly when a delivery begins; once born, only a rolled-back
   * service is delivered again; a departure is final.
   */
  lemma PassMoves(spec: Spec, c: Case, seen: Seen)
    requires Sound(c.status)
    ensures var before, after := c.status, Pass(spec, c, seen).status;
      && after.delivery == (if Begins(spec, before) then spec.delivery else before.delivery)
      && (after.phase.Delivering? && before.birth.Some? ==>
            before.phase.RolledBack? && after.delivery > before.delivery)
      && (before.birth.Some? && !Begins(spec, before) ==>
            after.birth.Some? && SameBirth(after.birth.value, Written(before).birth.value))
      && (before.phase.Departed? ==> after.phase.Departed?)
      && (before.phase.Grown? ==> after.phase.Grown? || after.phase.Departed?)
  {
    var begun := c.(status := Begun(spec, c.status, seen.now));
    BegunSound(spec, c.status, seen.now);
    if begun.status.birth.Some? {
      AfterBirthLeads(spec, begun, begun.status.birth.value, seen);
    }
    hide AfterBirth;
    hide RevisionNumber;
    hide ScoresFit;
  }

  // ---------- When a pass delivers ----------

  /** The pass makes the launch. */
  predicate GivesBirth(spec: Spec, c: Case, seen: Seen) {
    var begun := c.(status := Begun(spec, c.status, seen.now));
    begun.status.phase.Delivering? && !Waits(begun, seen)
  }

  /** A birth that was not there before: the first, or that of another delivery. */
  predicate IsBorn(before: Status, after: Status) {
    after.birth.Some? && (before.birth.None? || before.delivery != after.delivery)
  }

  /** A pass that makes a launch can be told from the statuses before and after it. */
  lemma BornExactlyWhen(spec: Spec, c: Case, seen: Seen)
    requires Sound(c.status)
    ensures IsBorn(c.status, Pass(spec, c, seen).status) <==> GivesBirth(spec, c, seen)
  {
    var begun := c.(status := Begun(spec, c.status, seen.now));
    BegunSound(spec, c.status, seen.now);
    if begun.status.birth.Some? {
      AfterBirthLeads(spec, begun, begun.status.birth.value, seen);
    }
    hide AfterBirth;
    hide ScoresFit;
    hide RevisionNumber;
    hide TierClass;
  }

  /** How many replicas a launch has: what the Deployment asks for, or the plan where that is none. */
  ghost predicate Replicas(spec: Spec, asked: Option<int>, extra: int, got: Option<int>) {
    && (asked == Some(0) ==> got == Some(spec.replicas + extra))
    && (asked == None ==> got == Some(1 + extra))
    && (asked.Some? && asked.value != 0 ==> got == Some(asked.value + extra))
  }

  /** What becomes of the budget: care adds its own where the pods have none and the name is free. */
  ghost predicate Covered(before: Option<Budget>, after: Option<Budget>, other: bool, added: bool, replicas: int) {
    && (added <==> !other && (before.Some? ==> !before.value.covers))
    && (!added || before.Some? ==> after == before)
    && (added && before.None? ==>
          && after.Some? && after.value.managed && after.value.covers
          && (replicas >= 2 ==> after.value.minAvailable == replicas - 1)
          && (replicas < 2 ==> after.value.minAvailable == 1))
  }

  /** What is recorded of a launch in the pass that makes it, and what it does to the objects. */
  ghost predicate IsBirth(spec: Spec, c: Case, after: Case, seen: Seen)
    requires c.deployment.Some? && c.deployment.value.selector.Some?
  {
    var st, d := after.status, c.deployment.value;
    && st.phase.NewbornCare? && st.birth.Some? && st.care.Some? && st.apgar == []
    && st.birth.value.time == Second(seen.now) && st.birth.value.uid == d.uid
    && st.birth.value.selector == d.selector.value && (st.birth.value.addedReplica <==> !seen.autoscaled)
    && st.birth.value.revision == st.birth.value.previous == st.birth.value.rolledBackTo == ""
    && st.care.value.tier == 1 && st.care.value.priority == "kyvernetria-newborn-1"
    && st.care.value.until == Second(seen.now) + 72 * HOUR
    && st.care.value.discharged.None? && st.care.value.lastNag.None?
    && after.deployment.Some? && !after.deployment.value.paused && after.deployment.value.newborn
    && after.deployment.value.born == Some(seen.now / SECOND)
    && Replicas(spec, d.replicas, if seen.autoscaled then 0 else 1, after.deployment.value.replicas)
    && after.deployment.value.template == d.template && after.deployment.value.uid == d.uid
    && after.deployment.value.selector == d.selector
    && after.deployment.value.primary == d.primary && after.deployment.value.secondary == d.secondary
    && Covered(c.budget, after.budget, seen.covered, st.birth.value.budget, after.deployment.value.replicas.value)
  }

  lemma BornObjects(spec: Spec, c: Case, d: Deployment, selector: string, seen: Seen)
    ensures var born := Born(spec, c, d, selector, seen);
      && born.deployment.Some? && born.deployment.value.replicas.Some? && born.status.birth.Some?
      && Replicas(spec, d.replicas, if seen.autoscaled then 0 else 1, born.deployment.value.replicas)
      && Covered(c.budget, born.budget, seen.covered, born.status.birth.value.budget,
                 born.deployment.value.replicas.value)
  {
  }

  /**
   * A pass in a delivery makes the launch exactly when there is a Deployment with a usable
   * selector and no placeholder is held, or two minutes have gone by since the delivery began.
   */
  lemma DeliversExactlyWhen(spec: Spec, c: Case, seen: Seen)
    requires Sound(c.status) && (c.status.phase.Delivering? || Begins(spec, c.status))
    ensures var after := Pass(spec, c, seen);
      var waited := if Begins(spec, c.status) then 0 else seen.now - c.status.started.value;
      if c.deployment.Some? && c.deployment.value.selector.Some? && (seen.held == 0 || waited >= 2 * MINUTE)
      then IsBirth(spec, c, after, seen)
      else after.status.phase.Delivering? && after.deployment == c.deployment && after.budget == c.budget
  {
    assert Second(seen.now + CARE_PERIOD) == Second(seen.now) + CARE_PERIOD;
    var begun := c.(status := Begun(spec, c.status, seen.now));
    if c.deployment.Some? && c.deployment.value.selector.Some? {
      BornObjects(spec, begun, c.deployment.value, c.deployment.value.selector.value, seen);
    }
    hide Replicas;
    hide Covered;
    hide Launch;
    hide NewBudget;
    hide AfterBirth;
    hide ScoresFit;
    hide EarlierRevision;
  }

  // ---------- When a pass rolls back, and when it discharges ----------

  /** The Deployment that was born is there. */
  predicate Lives(c: Case) {
    c.status.birth.Some? && c.deployment.Some? && c.deployment.value.uid == c.status.birth.value.uid
  }

  /** The pass takes the five-minute score, it is low, and there is a revision to return to. */
  ghost predicate RollbackDue(spec: Spec, c: Case, seen: Seen)
    requires Lives(c)
  {
    var b := Resolved(c.status.birth.value, c.deployment.value, seen);
    && InCare(c.status) && |c.status.apgar| == 1
    && b.revision != "" && seen.now >= b.time + 5 * MINUTE
    && Total(seen.signs) < REASSURING && spec.autoRollback && b.previous != ""
    && AtRevision(OwnedBy(seen.replicaSets, b.uid), b.previous).Some?
  }

  lemma ScoredRollsBack(spec: Spec, c: Case, b: Birth, d: Deployment, seen: Seen)
    requires c.status.birth == Some(b) && InCare(c.status) && ScoresFit(c.status.apgar, c.status.birth)
    ensures Scored(spec, c, b, d, seen).status.phase.RolledBack? <==>
      && |c.status.apgar| == 1 && b.revision != "" && seen.now >= b.time + 5 * MINUTE
      && Total(seen.signs) < REASSURING && spec.autoRollback && b.previous != ""
      && AtRevision(OwnedBy(seen.replicaSets, d.uid), b.previous).Some?
  {
    NextIsNext(c.status.apgar, c.status.birth);
    assert |c.status.apgar| == 1 ==> c.status.apgar[0].minute == MinuteAt(0);
  }

  /** A pass rolls a launch back exactly when the five-minute score is due, low and has somewhere to return to. */
  lemma RollsBackExactlyWhen(spec: Spec, c: Case, seen: Seen)
    requires Sound(c.status) && Lives(c) && !Begins(spec, c.status) && !c.status.phase.RolledBack?
    ensures Pass(spec, c, seen).status.phase.RolledBack? <==> RollbackDue(spec, c, seen)
  {
    var b, d := c.status.birth.value, c.deployment.value;
    ResolvedEarlier(b, d, seen);
    ResolvedSound(c.status, d, seen);
    hide Resolved;
    hide RevisionNumber;
    var r := Resolved(b, d, seen);
    var c1 := c.(status := c.status.(birth := Some(r)));
    if InCare(c1.status) {
      ScoredRollsBack(spec, c1, r, d, seen);
      ScoredLeads(spec, c1, r, d, seen);
      ScoredKeepsBirth(spec, c1, r, d, seen);
    }
    hide Scored;
    hide ScoresFit;
    hide CaregiversOf;
    hide TwoNamed;
  }

  /** A pass discharges exactly at 72 hours or later, with two different caregivers named, unless it rolls back. */
  lemma DischargesExactlyWhen(spec: Spec, c: Case, seen: Seen)
    requires Sound(c.status) && Lives(c) && !Begins(spec, c.status) && !c.status.phase.Grown?
    ensures Pass(spec, c, seen).status.phase.Grown? <==>
      && InCare(c.status) && !RollbackDue(spec, c, seen)
      && seen.now >= c.status.birth.value.time + CARE_PERIOD && TwoNamed(CaregiversOf(c.deployment.value))
  {
    var b, d := c.status.birth.value, c.deployment.value;
    ResolvedEarlier(b, d, seen);
    ResolvedSound(c.status, d, seen);
    hide Resolved;
    hide RevisionNumber;
    var r := Resolved(b, d, seen);
    var c1 := c.(status := c.status.(birth := Some(r)));
    if InCare(c1.status) {
      ScoredRollsBack(spec, c1, r, d, seen);
      ScoredLeads(spec, c1, r, d, seen);
      ScoredKeepsBirth(spec, c1, r, d, seen);
    }
    hide Scored;
    hide ScoresFit;
    hide CaregiversOf;
    hide TwoNamed;
  }

  /** A rollback is recorded with the score that caused it. */
  lemma RollbackRecordsItsScore(spec: Spec, c: Case, seen: Seen)
    requires Sound(c.status) && !c.status.phase.RolledBack? && Pass(spec, c, seen).status.phase.RolledBack?
    ensures var after := Pass(spec, c, seen).status;
      && |c.status.apgar| == 1 && |after.apgar| == 2 && after.apgar[1].minute == 5
      && after.apgar[1].total == Total(seen.signs) && after.apgar[1].time == Second(seen.now)
  {
    PassKeepsSound(spec, c, seen);
    var begun := c.(status := Begun(spec, c.status, seen.now));
    BegunSound(spec, c.status, seen.now);
    if begun.status.birth.Some? && Lives(begun) {
      var b, d := begun.status.birth.value, begun.deployment.value;
      ResolvedEarlier(b, d, seen);
      ResolvedSound(begun.status, d, seen);
      var c1 := begun.(status := begun.status.(birth := Some(Resolved(b, d, seen))));
      if InCare(c1.status) {
        ScoredRollsBack(spec, c1, c1.status.birth.value, d, seen);
        ScoredKeepsBirth(spec, c1, c1.status.birth.value, d, seen);
      }
    }
    hide Resolved;
    hide RevisionNumber;
    hide ScoresFit;
    hide CaregiversOf;
    hide TwoNamed;
  }

  // ---------- Tiers and reminders ----------

  /** The tier of care at this age; the last one is held. */
  function HeldTier(since: int): nat {
    if CareTier(since) == 0 then 3 else CareTier(since)
  }

  /** The tier is that of the age at the last pass; past 72 hours the service waits for its caregivers. */
  ghost predicate TierFits(st: Status, now: int) {
    InCare(st) ==>
      && st.birth.Some?
      && st.care.value.tier == HeldTier(now - st.birth.value.time)
      && (st.phase.NeedsCaregivers? <==> now - st.birth.value.time >= CARE_PERIOD)
  }

  lemma CaredTier(c: Case, b: Birth, d: Deployment, care: Care, now: int)
    requires c.status.birth == Some(b)
    ensures TierFits(Cared(c, b, d, care, now).status, now)
  {
    hide CaregiversOf;
    hide TwoNamed;
  }

  lemma AfterBirthTier(spec: Spec, c: Case, b: Birth, seen: Seen)
    requires Sound(c.status) && c.status.birth == Some(b)
    ensures TierFits(AfterBirth(spec, c, b, seen).status, seen.now)
  {
    hide ScoresFit;
    hide RevisionNumber;
    hide Cared;
    if Lives(c) {
      var d := c.deployment.value;
      var r := Resolved(b, d, seen);
      var c1 := c.(status := c.status.(birth := Some(r)));
      if InCare(c1.status) {
        ScoredKeepsBirth(spec, c1, r, d, seen);
        var c2 := Scored(spec, c1, r, d, seen);
        if InCare(c2.status) {
          CaredTier(c2, r, d, c2.status.care.value, seen.now);
        }
      }
    }
    hide Resolved;
    hide Scored;
  }

  lemma PassTier(spec: Spec, c: Case, seen: Seen)
    requires Sound(c.status) && c.status == Written(c.status)
    ensures TierFits(Pass(spec, c, seen).status, seen.now)
  {
    var begun := c.(status := Begun(spec, c.status, seen.now));
    BegunSound(spec, c.status, seen.now);
    if begun.status.birth.Some? {
      AfterBirthTier(spec, begun, begun.status.birth.value, seen);
      AfterBirthLeads(spec, begun, begun.status.birth.value, seen);
    }
    hide AfterBirth;
    hide ScoresFit;
    hide RevisionNumber;
  }

  /** A reminder is noted only when it is due; otherwise the last one stays noted. */
  ghost predicate NagMoves(a: Option<Care>, b: Option<Care>, now: int) {
    b.Some? ==>
      && a.Some?
      && (b.value.lastNag == a.value.lastNag || (b.value.lastNag == Some(now) && NagDue(a.value, now)))
  }

  lemma AfterBirthNags(spec: Spec, c: Case, b: Birth, seen: Seen)
    requires c.status.birth == Some(b)
    ensures NagMoves(c.status.care, AfterBirth(spec, c, b, seen).status.care, seen.now)
  {
    hide NagDue;
    if Lives(c) {
      var d := c.deployment.value;
      var r := Resolved(b, d, seen);
      var c1 := c.(status := c.status.(birth := Some(r)));
      if InCare(c1.status) {
        ScoredKeepsBirth(spec, c1, r, d, seen);
      }
    }
    hide Resolved;
    hide Scored;
    hide CaregiversOf;
    hide TwoNamed;
    hide WithoutCare;
  }

  lemma SteppedNags(spec: Spec, c: Case, seen: Seen)
    requires Sound(c.status)
    ensures var begun := c.(status := Begun(spec, c.status, seen.now));
      var care := Stepped(spec, begun, seen).status.care;
      if c.status.birth.None? || Begins(spec, c.status) then care.Some? ==> care.value.lastNag.None?
      else NagMoves(c.status.care, care, seen.now)
  {
    var begun := c.(status := Begun(spec, c.status, seen.now));
    BegunSound(spec, c.status, seen.now);
    if begun.status.birth.Some? {
      AfterBirthNags(spec, begun, begun.status.birth.value, seen);
    }
    hide AfterBirth;
    hide ScoresFit;
    hide RevisionNumber;
  }

  lemma WrittenNag(st: Status)
    ensures Written(st).care.Some? <==> st.care.Some?
    ensures st.care.Some? ==> Written(st).care.value.lastNag == SecondOf(st.care.value.lastNag)
  {
  }

  lemma DueLater(last: int, now: int)
    requires last == Second(last) && now - last >= NAG_INTERVAL
    ensures Second(now) >= last + NAG_INTERVAL
  {
    assert Second(last + NAG_INTERVAL) == last + NAG_INTERVAL;
  }

  /** A reminder follows the one before it by twelve hours at least, in recorded seconds. */
  ghost predicate NagsInTime(a: Option<Care>, b: Option<Care>, now: int) {
    b.Some? ==>
      && a.Some?
      && (b.value.lastNag == a.value.lastNag ||
          (b.value.lastNag == Some(Second(now)) &&
           (a.value.lastNag.Some? ==> Second(now) >= a.value.lastNag.value + NAG_INTERVAL)))
  }

  lemma PassNags(spec: Spec, c: Case, seen: Seen)
    requires Sound(c.status) && c.status == Written(c.status)
    ensures var before, after := c.status, Pass(spec, c, seen).status;
      if before.birth.None? || Begins(spec, before) then after.care.Some? ==> after.care.value.lastNag.None?
      else NagsInTime(before.care, after.care, seen.now)
  {
    hide Sound;
    var stepped := Stepped(spec, c.(status := Begun(spec, c.status, seen.now)), seen);
    SteppedNags(spec, c, seen);
    WrittenNag(stepped.status);
    WrittenNag(c.status);
    var last := if c.status.care.Some? then c.status.care.value.lastNag else None;
    if last.Some? && seen.now - last.value >= NAG_INTERVAL {
      DueLater(last.value, seen.now);
    }
    hide Stepped;
    hide Begun;
    hide Written;
  }
}
