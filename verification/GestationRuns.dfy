/** Whole runs of the gestation controller, against people and controllers that change what it watches. */
module GestationRuns {
  import opened Base
  import opened Gestation
  import opened GestationStates

  /** A reminder that a service needs caregivers: in which delivery, and the second it was recorded. */
  datatype Nag = Nag(delivery: nat, at: int)

  /** What the statuses written so far show: deliveries begun, births, rollbacks and reminders. */
  datatype Log = Log(deliveries: seq<nat>, births: seq<nat>, rollbacks: seq<nat>, nags: seq<Nag>)

  /**
   * `uids` are all Deployment UIDs used so far; `asked` is what the present Deployment was created
   * with, and `launch` how many replicas it launched with at its last birth, if it was born.
   */
  datatype World =
    World(spec: Spec, c: Case, uids: set<string>, asked: Option<int>, launch: Option<int>, log: Log)

  datatype Label =
    | Pass(seen: Seen)
    | Ask(delivery: nat)                              // kyvctl deliver
    | Edit(planned: int, autoRollback: bool)          // another launch plan
    | Delete
    | Create(d: Deployment)
    | Annotate(primary: string, secondary: string)
    | Apply(template: string, paused: bool)           // a new version
    | Others(budget: Option<Budget>)                  // someone else's budget under that name, or none
    | Scale(replicas: Option<int>)                    // someone else edits the replicas

  /** UIDs are never used twice, nobody else takes the controller's labels, and a plan has a replica at least. */
  ghost predicate Can(w: World, l: Label) {
    match l
    case Create(d) => w.c.deployment.None? && d.uid !in w.uids && !d.newborn && Deref(d.replicas) >= 0
    case Others(b) => b.Some? ==> !b.value.managed
    case Edit(n, _) => n >= 1
    case _ => true
  }

  function Added<T>(s: seq<T>, x: T, more: bool): seq<T> {
    if more then s + [x] else s
  }

  predicate IsRolledBack(st: Status) {
    st.birth.Some? && st.birth.value.rolledBackTo != ""
  }

  predicate Reminded(before: Status, after: Status) {
    && after.care.Some? && after.care.value.lastNag.Some?
    && (before.care.None? || before.delivery != after.delivery || before.care.value.lastNag != after.care.value.lastNag)
  }

  function Observed(log: Log, before: Status, after: Status): Log {
    Log(Added(log.deliveries, after.delivery, after.delivery != before.delivery),
        Added(log.births, after.delivery, IsBorn(before, after)),
        Added(log.rollbacks, after.delivery, IsRolledBack(after) && !IsRolledBack(before)),
        Added(log.nags, Nag(after.delivery, if Reminded(before, after) then after.care.value.lastNag.value else 0),
              Reminded(before, after)))
  }

  /** The launch count once a pass has led from one status to another. */
  function Launched(launch: Option<int>, spec: Spec, before: Case, after: Status): Option<int> {
    if before.deployment.Some? && IsBorn(before.status, after) then Some(Launch(before.deployment.value.replicas, spec))
    else launch
  }

  function Changed(w: World, d: Option<Deployment>): World {
    w.(c := w.c.(deployment := d))
  }

  ghost function Next(w: World, l: Label): World {
    match l
    case Pass(seen) =>
      var c := Gestation.Pass(w.spec, w.c, seen);
      w.(c := c, launch := Launched(w.launch, w.spec, w.c, c.status), log := Observed(w.log, w.c.status, c.status))
    case Ask(n) => w.(spec := w.spec.(delivery := n))
    case Edit(n, rollback) => w.(spec := w.spec.(replicas := n, autoRollback := rollback))
    case Delete => Changed(w, None)
    case Create(d) => Changed(w, Some(d)).(uids := w.uids + {d.uid}, asked := d.replicas, launch := None)
    case Others(b) => w.(c := w.c.(budget := b))
    case Annotate(p, s) =>
      if w.c.deployment.None? then w else Changed(w, Some(w.c.deployment.value.(primary := p, secondary := s)))
    case Apply(t, paused) =>
      if w.c.deployment.None? then w else Changed(w, Some(w.c.deployment.value.(template := t, paused := paused)))
    case Scale(n) =>
      if w.c.deployment.None? then w else Changed(w, Some(w.c.deployment.value.(replicas := n)))
  }

  ghost predicate Happens(w: World, run: seq<Label>)
    decreases |run|
  {
    run == [] || (Can(w, run[0]) && Happens(Next(w, run[0]), run[1..]))
  }

  ghost function After(w: World, run: seq<Label>): World
    requires Happens(w, run)
    decreases |run|
  {
    if run == [] then w else After(Next(w, run[0]), run[1..])
  }

  const NEW := Status(Unset, 0, None, None, [], None, None)

  /** A Gestation just created, beside whatever Deployment there is. */
  ghost predicate Fresh(w: World) {
    && w.c.status == NEW && w.log == Log([], [], [], []) && w.spec.replicas >= 1 && Deref(w.asked) >= 0
    && w.launch.None?
    && (w.c.budget.Some? ==> !w.c.budget.value.managed)
    && (w.c.deployment.Some? ==>
          var d := w.c.deployment.value; d.uid in w.uids && !d.newborn && d.replicas == w.asked)
  }

  // ---------- Deliveries, births and rollbacks ----------

  ghost predicate Increasing(s: seq<nat>, last: nat) {
    (forall i, j | 0 <= i < j < |s| :: s[i] < s[j]) && forall i :: 0 <= i < |s| ==> s[i] <= last
  }

  /** Each number is used once; a service is born again only after it was rolled back. */
  ghost predicate Counted(st: Status, log: Log) {
    && Increasing(log.deliveries, st.delivery)
    && Increasing(log.births, st.delivery) && Increasing(log.rollbacks, st.delivery)
    && (st.delivery > 0 ==> log.deliveries != [] && log.deliveries[|log.deliveries| - 1] == st.delivery)
    && (st.birth.None? && log.births != [] ==> log.births[|log.births| - 1] < st.delivery)
    && (!IsRolledBack(st) && log.rollbacks != [] ==> log.rollbacks[|log.rollbacks| - 1] < st.delivery)
    && |log.births| == |log.rollbacks| + (if st.birth.Some? && !IsRolledBack(st) then 1 else 0)
  }

  /** What a pass may do to deliveries, births and rollbacks. */
  ghost predicate Counts(spec: Spec, before: Status, after: Status) {
    && after.delivery == (if Begins(spec, before) then spec.delivery else before.delivery)
    && (before.birth.None? || Begins(spec, before) ==> !IsRolledBack(after))
    && (before.birth.Some? && !Begins(spec, before) ==>
          after.birth.Some? && (IsRolledBack(before) ==> IsRolledBack(after)))
  }

  lemma PassCounts(spec: Spec, c: Case, seen: Seen)
    requires Sound(c.status)
    ensures Counts(spec, c.status, Gestation.Pass(spec, c, seen).status)
  {
    var begun := c.(status := Begun(spec, c.status, seen.now));
    BegunSound(spec, c.status, seen.now);
    if begun.status.birth.Some? {
      AfterBirthLeads(spec, begun, begun.status.birth.value, seen);
      AfterBirthSound(spec, begun, begun.status.birth.value, seen);
    }
    hide AfterBirth;
    hide ScoresFit;
    hide EarlierRevision;
  }

  lemma CountedStep(spec: Spec, before: Status, after: Status, log: Log)
    requires Counted(before, log) && Counts(spec, before, after) && (before.phase.RolledBack? ==> IsRolledBack(before))
    ensures Counted(after, Observed(log, before, after))
  {
    var begins := Begins(spec, before);
    AddedIncreasing(log.deliveries, before.delivery, after.delivery, begins);
    AddedIncreasing(log.births, before.delivery, after.delivery, after.birth.Some? && (before.birth.None? || begins));
    AddedIncreasing(log.rollbacks, before.delivery, after.delivery, IsRolledBack(after) && !IsRolledBack(before));
    hide Increasing;
    hide Reminded;
  }

  lemma AddedIncreasing(s: seq<nat>, last: nat, x: nat, more: bool)
    requires Increasing(s, last) && last <= x
    requires more && s != [] ==> s[|s| - 1] < x
    ensures Increasing(Added(s, x, more), x)
  {
  }

  // ---------- Reminders ----------

  ghost predicate Spaced(nags: seq<Nag>) {
    forall i, j | 0 <= i < j < |nags| ::
      && nags[i].delivery <= nags[j].delivery
      && (nags[i].delivery == nags[j].delivery ==> nags[j].at >= nags[i].at + (j - i) * NAG_INTERVAL)
  }

  /** The last reminder of this delivery is the one noted in the status. */
  ghost predicate NagsFit(st: Status, nags: seq<Nag>) {
    && Spaced(nags)
    && (nags != [] ==> nags[|nags| - 1].delivery <= st.delivery)
    && (if nags != [] && nags[|nags| - 1].delivery == st.delivery then
          st.birth.Some? && (st.care.Some? ==> st.care.value.lastNag == Some(nags[|nags| - 1].at))
        else st.care.Some? ==> st.care.value.lastNag.None?)
  }

  lemma OneMoreNag(nags: seq<Nag>, nag: Nag)
    requires Spaced(nags) && (nags != [] ==> nags[|nags| - 1].delivery <= nag.delivery)
    requires nags != [] && nags[|nags| - 1].delivery == nag.delivery ==> nag.at >= nags[|nags| - 1].at + NAG_INTERVAL
    ensures Spaced(nags + [nag])
  {
    var more := nags + [nag];
    forall i, j | 0 <= i < j < |more|
      ensures more[i].delivery <= more[j].delivery
      ensures more[i].delivery == more[j].delivery ==> more[j].at >= more[i].at + (j - i) * NAG_INTERVAL
    {
      if j < |nags| {
        assert more[j] == nags[j];
      } else if i < |nags| - 1 {
        assert nags[i].delivery <= nags[|nags| - 1].delivery;
      }
    }
  }

  lemma NagsStep(spec: Spec, c: Case, seen: Seen, nags: seq<Nag>)
    requires Sound(c.status) && c.status == Written(c.status) && NagsFit(c.status, nags)
    ensures var after := Gestation.Pass(spec, c, seen).status;
      var at := if Reminded(c.status, after) then after.care.value.lastNag.value else 0;
      NagsFit(after, Added(nags, Nag(after.delivery, at), Reminded(c.status, after)))
  {
    PassNags(spec, c, seen);
    PassMoves(spec, c, seen);
    PassKeepsSound(spec, c, seen);
    hide Gestation.Pass;
    hide ScoresFit;
    hide EarlierRevision;
    hide RollbackFits;
    hide Written;
    var after := Gestation.Pass(spec, c, seen).status;
    if Reminded(c.status, after) {
      OneMoreNag(nags, Nag(after.delivery, after.care.value.lastNag.value));
    }
  }

  // ---------- Replicas, the label and the budget ----------

  /** The launch count is what the Deployment was created with, or the plan's where that was zero. */
  ghost predicate LaunchFits(asked: Option<int>, launch: Option<int>) {
    launch.Some? ==> launch.value >= 1 && (Deref(asked) != 0 ==> launch.value == Deref(asked))
  }

  /** What the Deployment holds, before, during and after care. */
  ghost predicate ReplicasFit(st: Status, d: Deployment, asked: Option<int>, launch: Option<int>) {
    if st.birth.Some? && st.birth.value.uid == d.uid then
      && launch.Some?
      && (if InCare(st) then
            d.newborn && d.replicas == Some(launch.value + if st.birth.value.addedReplica then 1 else 0)
          else !st.phase.Departed? && !d.newborn && d.replicas == launch)
    else !d.newborn && d.replicas == if launch.Some? then launch else asked
  }

  /** Newborn care's own budget is there only during care, and keeps what was launched. */
  ghost predicate BudgetFits(c: Case, launch: Option<int>) {
    c.budget.Some? && c.budget.value.managed ==>
      && InCare(c.status) && c.status.birth.Some? && c.status.birth.value.budget
      && (Lives(c) ==>
            && launch.Some?
            && c.budget.value.minAvailable ==
               if c.status.birth.value.addedReplica || launch.value == 1 then launch.value else launch.value - 1)
  }

  ghost predicate Kept(c: Case, uids: set<string>, asked: Option<int>, launch: Option<int>) {
    && Deref(asked) >= 0 && LaunchFits(asked, launch)
    && (c.status.birth.Some? ==> c.status.birth.value.uid in uids)
    && (c.deployment.Some? ==>
          c.deployment.value.uid in uids && ReplicasFit(c.status, c.deployment.value, asked, launch))
    && BudgetFits(c, launch)
  }

  /** A launch, again or for the first time: the count once recorded does not change. */
  lemma DeliveredKept(spec: Spec, c: Case, seen: Seen, uids: set<string>, asked: Option<int>, launch: Option<int>)
    requires Kept(c, uids, asked, launch) && c.status.phase.Delivering? && Unborn(c.status) && spec.replicas >= 1
    ensures Waits(c, seen) ==> Delivered(spec, c, seen) == c
    ensures !Waits(c, seen) ==>
      var now := Launch(c.deployment.value.replicas, spec);
      Kept(Delivered(spec, c, seen), uids, asked, Some(now)) && (launch.Some? ==> now == launch.value)
  {
    hide TierClass;
  }

  lemma ScoredKept(spec: Spec, c: Case, b: Birth, d: Deployment, seen: Seen, uids: set<string>, asked: Option<int>,
                   launch: Option<int>)
    requires Kept(c, uids, asked, launch) && InCare(c.status) && c.status.birth == Some(b)
    requires c.deployment == Some(d) && d.uid == b.uid
    ensures Kept(Scored(spec, c, b, d, seen), uids, asked, launch)
  {
    hide ScoreDue;
    hide Total;
  }

  lemma CaredKept(c: Case, b: Birth, d: Deployment, care: Care, now: int, uids: set<string>, asked: Option<int>,
                  launch: Option<int>)
    requires Kept(c, uids, asked, launch) && InCare(c.status) && c.status.birth == Some(b)
    requires c.deployment == Some(d) && d.uid == b.uid
    ensures Kept(Cared(c, b, d, care, now), uids, asked, launch)
  {
    hide CaregiversOf;
    hide TwoNamed;
    hide TierClass;
    hide LaunchFits;
    assert launch.Some? && launch.value >= 1 by { LaunchIsPositive(asked, launch); }
  }

  lemma LaunchIsPositive(asked: Option<int>, launch: Option<int>)
    requires LaunchFits(asked, launch)
    ensures launch.Some? ==> launch.value >= 1
  {
  }

  lemma GoneKept(c: Case, uids: set<string>, asked: Option<int>, launch: Option<int>)
    requires Kept(c, uids, asked, launch) && c.status.birth.Some? && !Lives(c)
    ensures Kept(Gone(c), uids, asked, launch)
  {
  }

  lemma ResolvedKept(c: Case, b: Birth, d: Deployment, seen: Seen, uids: set<string>, asked: Option<int>,
                     launch: Option<int>)
    requires Kept(c, uids, asked, launch) && c.status.birth == Some(b) && EarlierRevision(b)
    ensures Kept(c.(status := c.status.(birth := Some(Resolved(b, d, seen)))), uids, asked, launch)
  {
    ResolvedEarlier(b, d, seen);
    hide Resolved;
    hide EarlierRevision;
  }

  lemma AfterBirthKept(spec: Spec, c: Case, b: Birth, seen: Seen, uids: set<string>, asked: Option<int>,
                       launch: Option<int>)
    requires Kept(c, uids, asked, launch) && Sound(c.status) && c.status.birth == Some(b)
    ensures Kept(AfterBirth(spec, c, b, seen), uids, asked, launch)
  {
    hide Kept;
    hide EarlierRevision;
    hide ScoresFit;
    if !Lives(c) {
      GoneKept(c, uids, asked, launch);
      return;
    }
    var d := c.deployment.value;
    ResolvedEarlier(b, d, seen);
    ResolvedKept(c, b, d, seen, uids, asked, launch);
    hide Resolved;
    hide Sound;
    var r := Resolved(b, d, seen);
    var c1 := c.(status := c.status.(birth := Some(r)));
    if InCare(c1.status) {
      ScoredKept(spec, c1, r, d, seen, uids, asked, launch);
      ScoredKeepsBirth(spec, c1, r, d, seen);
      hide Scored;
      var c2 := Scored(spec, c1, r, d, seen);
      if InCare(c2.status) {
        CaredKept(c2, r, d, c2.status.care.value, seen.now, uids, asked, launch);
      }
    }
    hide Cared;
    hide Gone;
  }

  lemma SteppedKept(spec: Spec, c: Case, seen: Seen, uids: set<string>, asked: Option<int>, launch: Option<int>)
    requires Kept(c, uids, asked, launch) && Sound(c.status) && spec.replicas >= 1
    ensures var delivers := c.status.phase.Delivering? && !Waits(c, seen);
      var now := if delivers then Some(Launch(c.deployment.value.replicas, spec)) else launch;
      Kept(Stepped(spec, c, seen), uids, asked, now) && (launch.Some? ==> now == launch)
  {
    if c.status.phase.Delivering? {
      DeliveredKept(spec, c, seen, uids, asked, launch);
    } else if c.status.birth.Some? {
      AfterBirthKept(spec, c, c.status.birth.value, seen, uids, asked, launch);
    }
    hide Delivered;
    hide AfterBirth;
    hide ScoresFit;
    hide RevisionNumber;
    hide Waits;
  }

  lemma WrittenKept(c: Case, uids: set<string>, asked: Option<int>, launch: Option<int>)
    requires Kept(c, uids, asked, launch)
    ensures Kept(c.(status := Written(c.status)), uids, asked, launch)
  {
  }

  /** A pass keeps replicas, label and budget right for the launch count, and that count once it is known. */
  lemma PassKeepsKept(spec: Spec, c: Case, seen: Seen, uids: set<string>, asked: Option<int>, launch: Option<int>)
    requires Kept(c, uids, asked, launch) && Sound(c.status) && spec.replicas >= 1
    ensures var after := Gestation.Pass(spec, c, seen);
      var now := Launched(launch, spec, c, after.status);
      Kept(after, uids, asked, now) && (launch.Some? ==> now == launch)
  {
    BornExactlyWhen(spec, c, seen);
    hide Kept;
    hide Sound;
    hide Stepped;
    hide Begun;
    hide Written;
    hide Launch;
    var begun := c.(status := Begun(spec, c.status, seen.now));
    BegunSound(spec, c.status, seen.now);
    BegunKept(spec, c, seen.now, uids, asked, launch);
    SteppedKept(spec, begun, seen, uids, asked, launch);
    var after := Gestation.Pass(spec, c, seen).status;
    WrittenKept(Stepped(spec, begun, seen), uids, asked, Launched(launch, spec, c, after));
  }

  lemma BegunKept(spec: Spec, c: Case, now: int, uids: set<string>, asked: Option<int>, launch: Option<int>)
    requires Kept(c, uids, asked, launch) && Sound(c.status)
    ensures Kept(c.(status := Begun(spec, c.status, now)), uids, asked, launch)
  {
    hide ScoresFit;
    hide RevisionNumber;
  }

  // ---------- Every run ----------

  ghost predicate Good(w: World) {
    && Sound(w.c.status) && w.c.status == Written(w.c.status)
    && Counted(w.c.status, w.log) && NagsFit(w.c.status, w.log.nags)
  }

  lemma PassGood(w: World, seen: Seen)
    requires Good(w)
    ensures Good(Next(w, Pass(seen)))
  {
    hide Counted;
    hide NagsFit;
    hide Sound;
    PassKeepsSound(w.spec, w.c, seen);
    PassCounts(w.spec, w.c, seen);
    NagsStep(w.spec, w.c, seen, w.log.nags);
    RolledBackIsRecorded(w.c.status);
    CountedStep(w.spec, w.c.status, Gestation.Pass(w.spec, w.c, seen).status, w.log);
    WrittenTwice(Stepped(w.spec, w.c.(status := Begun(w.spec, w.c.status, seen.now)), seen).status);
    hide Stepped;
    hide Written;
    hide Begun;
    hide Counts;
    hide Reminded;
    hide IsRolledBack;
  }

  lemma RolledBackIsRecorded(st: Status)
    requires Sound(st)
    ensures st.phase.RolledBack? ==> IsRolledBack(st)
  {
  }

  lemma GoodStep(w: World, l: Label)
    requires Good(w) && Can(w, l)
    ensures Good(Next(w, l))
  {
    if l.Pass? {
      PassGood(w, l.seen);
    }
    hide Gestation.Pass;
    hide Sound;
    hide Written;
    hide Counted;
    hide NagsFit;
  }

  lemma {:induction false} GoodRun(w: World, run: seq<Label>)
    requires Good(w) && Happens(w, run)
    ensures Good(After(w, run))
    decreases |run|
  {
    hide Good;
    hide Next;
    if run == [] {
    } else {
      GoodStep(w, run[0]);
      GoodRun(Next(w, run[0]), run[1..]);
    }
  }

  lemma FreshIsGood(w: World)
    requires Fresh(w)
    ensures Good(w)
  {
    assert Written(NEW).apgar == [];
  }

  /**
   * In every run, whatever people and other controllers do: the phase fits the records, scores
   * are taken in order, in time and at most five per launch; a delivery number is used once;
   * a delivery is rolled back at most once, and a service is born again only after that; and
   * reminders within a delivery are twelve hours apart.
   */
  lemma EveryRun(w: World, run: seq<Label>)
    requires Fresh(w) && Happens(w, run)
    ensures var end := After(w, run);
      Sound(end.c.status) && Counted(end.c.status, end.log) && Spaced(end.log.nags)
  {
    FreshIsGood(w);
    GoodRun(w, run);
    hide After;
    hide Sound;
    hide Counted;
    hide Spaced;
  }

  // ---------- Nobody else edits replicas ----------

  ghost predicate NobodyScales(run: seq<Label>) {
    forall l :: l in run ==> !l.Scale?
  }

  ghost predicate KeptIn(w: World) {
    w.spec.replicas >= 1 && Kept(w.c, w.uids, w.asked, w.launch)
  }

  lemma KeptStep(w: World, l: Label)
    requires Good(w) && KeptIn(w) && Can(w, l) && !l.Scale?
    ensures KeptIn(Next(w, l))
    ensures w.launch.Some? && !l.Create? ==> Next(w, l).launch == w.launch
  {
    if l.Pass? {
      PassKeepsKept(w.spec, w.c, l.seen, w.uids, w.asked, w.launch);
      hide Kept;
    }
    hide Gestation.Pass;
    hide Observed;
    hide Launched;
    hide Good;
  }

  lemma {:induction false} KeptRun(w: World, run: seq<Label>)
    requires Good(w) && KeptIn(w) && Happens(w, run) && NobodyScales(run)
    ensures KeptIn(After(w, run))
    ensures w.launch.Some? && (forall l :: l in run ==> !l.Create?) ==> After(w, run).launch == w.launch
    decreases |run|
  {
    hide Good;
    hide KeptIn;
    hide Next;
    if run == [] {
    } else {
      GoodStep(w, run[0]);
      KeptStep(w, run[0]);
      KeptRun(Next(w, run[0]), run[1..]);
    }
  }

  /**
   * Over any number of deliveries, rollbacks, departures and edits of the launch plan, with nobody
   * else editing replicas: a service in care has one replica more than it launched with, unless it
   * is autoscaled; one that was rolled back or went home has exactly its launch count again; and
   * newborn care's label and budget are there only during care.
   */
  lemma ReplicasAreConserved(w: World, run: seq<Label>)
    requires Fresh(w) && Happens(w, run) && NobodyScales(run)
    ensures var end := After(w, run);
      && LaunchFits(end.asked, end.launch)
      && (end.c.deployment.Some? ==> ReplicasFit(end.c.status, end.c.deployment.value, end.asked, end.launch))
      && BudgetFits(end.c, end.launch)
  {
    FreshIsGood(w);
    assert KeptIn(w);
    KeptRun(w, run);
  }

  /** However often a Deployment is delivered and rolled back, it launches with the same count each time. */
  lemma LaunchCountStays(w: World, run: seq<Label>, more: seq<Label>)
    requires Fresh(w) && Happens(w, run) && NobodyScales(run) && After(w, run).launch.Some?
    requires Happens(After(w, run), more) && NobodyScales(more) && forall l :: l in more ==> !l.Create?
    ensures After(After(w, run), more).launch == After(w, run).launch
  {
    FreshIsGood(w);
    assert KeptIn(w);
    KeptRun(w, run);
    GoodRun(w, run);
    KeptRun(After(w, run), more);
  }

  // ---------- One launch, over time ----------

  lemma StepKeepsBirth(w: World, l: Label)
    requires Good(w) && Can(w, l)
    ensures var before, after := w.c.status, Next(w, l).c.status;
      && after.delivery >= before.delivery
      && (after.delivery == before.delivery && before.birth.Some? ==>
            after.birth.Some? && SameBirth(after.birth.value, before.birth.value))
      && (before.phase.Departed? ==> after.phase.Departed?)
  {
    if l.Pass? {
      PassMoves(w.spec, w.c, l.seen);
    }
    hide Gestation.Pass;
    hide Sound;
    hide Written;
    hide Counted;
    hide NagsFit;
  }

  /** Delivery numbers only rise; until the next delivery the launch stays the same; a departure is final. */
  lemma {:induction false} LaunchStays(w: World, run: seq<Label>)
    requires Good(w) && Happens(w, run)
    ensures var before, after := w.c.status, After(w, run).c.status;
      && after.delivery >= before.delivery
      && (after.delivery == before.delivery && before.birth.Some? ==>
            after.birth.Some? && SameBirth(after.birth.value, before.birth.value))
      && (before.phase.Departed? ==> after.phase.Departed?)
    decreases |run|
  {
    hide Good;
    hide Next;
    if run == [] {
    } else {
      StepKeepsBirth(w, run[0]);
      GoodStep(w, run[0]);
      LaunchStays(Next(w, run[0]), run[1..]);
    }
  }

  lemma HeldTierRises(a: int, b: int)
    requires a <= b
    ensures HeldTier(a) <= HeldTier(b) <= 3
  {
  }

  /** The tier of the second is that of the first or a later one; waiting for caregivers goes on. */
  ghost predicate CareGoesOn(a: Status, b: Status) {
    InCare(a) && InCare(b) && a.delivery == b.delivery ==>
      && 1 <= a.care.value.tier <= b.care.value.tier <= 3
      && (a.phase.NeedsCaregivers? ==> b.phase.NeedsCaregivers?)
  }

  lemma CareRises(a: Status, first: int, b: Status, second: int)
    requires TierFits(a, first) && TierFits(b, second) && first <= second
    requires a.delivery == b.delivery && a.birth.Some? ==> b.birth.Some? && SameBirth(b.birth.value, a.birth.value)
    ensures CareGoesOn(a, b)
  {
    if InCare(a) && InCare(b) && a.delivery == b.delivery {
      HeldTierRises(first - a.birth.value.time, second - a.birth.value.time);
    }
    hide HeldTier;
  }

  /** Under a clock that does not go back, the tier of care only rises, to 3, and is held there. */
  lemma TierOnlyRises(w: World, first: Seen, run: seq<Label>, second: Seen)
    requires Good(w) && first.now <= second.now && Happens(Next(w, Pass(first)), run)
    ensures var a := Next(w, Pass(first));
      var b := Next(After(a, run), Pass(second));
      CareGoesOn(a.c.status, b.c.status)
  {
    var a := Next(w, Pass(first));
    var m := After(a, run);
    var b := Next(m, Pass(second));
    GoodStep(w, Pass(first));
    GoodRun(a, run);
    LaunchStays(a, run);
    StepKeepsBirth(m, Pass(second));
    PassTier(w.spec, w.c, first);
    PassTier(m.spec, m.c, second);
    assert SameBirthAgain(a.c.status, m.c.status, b.c.status);
    CareRises(a.c.status, first.now, b.c.status, second.now);
    hide Gestation.Pass;
    hide TierFits;
    hide CareGoesOn;
    hide After;
    hide Happens;
    hide Sound;
    hide Written;
    hide Counted;
    hide NagsFit;
    hide Observed;
  }

  ghost predicate SameBirthAgain(a: Status, m: Status, b: Status) {
    a.delivery == b.delivery && a.birth.Some? ==>
      m.birth.Some? && b.birth.Some? && SameBirth(b.birth.value, a.birth.value)
  }
}
