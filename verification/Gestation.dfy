/** A service's launch: what the API holds of it, and what one pass of the controller makes of that. */
module Gestation {
  import opened Base
  import opened Text

  // ---------- What the API holds ----------

  datatype Phase =
    | Unset | Expecting | Due | Delivering | NewbornCare | NeedsCaregivers | Grown | RolledBack | Departed

  /** The plan: which delivery is asked for, with how many replicas, and whether a bad launch goes back. */
  datatype Spec = Spec(delivery: nat, replicas: int, autoRollback: bool)

  /** The launch: the Deployment that was born, its revisions ("" while unknown), and what care added to it. */
  datatype Birth = Birth(time: int, uid: string, revision: string, previous: string, selector: string,
                         addedReplica: bool, budget: bool, rolledBackTo: string)

  datatype Apgar = Apgar(minute: int, time: int, total: nat)

  datatype Care = Care(tier: nat, priority: string, until: int, discharged: Option<int>, lastNag: Option<int>)

  datatype Caregivers = Caregivers(primary: string, secondary: string)

  datatype Status = Status(phase: Phase, delivery: nat, started: Option<int>, birth: Option<Birth>,
                           apgar: seq<Apgar>, care: Option<Care>, caregivers: Option<Caregivers>)

  /** The service's Deployment; `selector` is None where it has no usable one. */
  datatype Deployment = Deployment(uid: string, replicas: Option<int>, paused: bool, newborn: bool, born: Option<int>,
                                   selector: Option<string>, template: string, primary: string, secondary: string)

  /** The PodDisruptionBudget under the name newborn care uses; `managed` is the controller's label on it. */
  datatype Budget = Budget(managed: bool, covers: bool, minAvailable: int)

  datatype ReplicaSet = ReplicaSet(owner: string, revision: string, template: string)

  /** A Gestation's status, its Deployment if it exists, and the budget of that name. */
  datatype Case = Case(status: Status, deployment: Option<Deployment>, budget: Option<Budget>)

  /** What a pass observes besides: the clock, placeholders still held, autoscalers, other budgets, pods. */
  datatype Seen = Seen(now: int, trimester: Option<nat>, held: nat, autoscaled: bool, covered: bool,
                       observed: bool, replicaSets: seq<ReplicaSet>, signs: Signs)

  // ---------- Apgar ----------

  datatype Signs = Signs(desired: int, ready: int, running: int, restarts: int, crashLooping: bool,
                         livenessFailures: int, warnings: int, services: int, readyEndpoints: int,
                         oomKills: int, evictions: int)

  const REASSURING := 7
  const LAST_MINUTE := 20

  function Appearance(s: Signs): nat {
    if s.desired > 0 && s.ready >= s.desired then 2 else if s.ready > 0 && 2 * s.ready >= s.desired then 1 else 0
  }

  function Pulse(s: Signs): nat {
    if s.crashLooping || s.restarts > s.desired then 0 else if s.restarts > 0 || s.livenessFailures > 0 then 1 else 2
  }

  function Grimace(s: Signs): nat {
    if s.warnings == 0 then 2 else if s.warnings <= 5 then 1 else 0
  }

  function Activity(s: Signs): nat {
    var have := if s.services == 0 then s.running else s.readyEndpoints;
    if s.desired > 0 && have >= s.desired then 2 else if have > 0 then 1 else 0
  }

  function Respiration(s: Signs): nat {
    if s.oomKills >= 2 then 0 else if s.oomKills == 1 || s.evictions > 0 then 1 else 2
  }

  function Total(s: Signs): nat {
    Appearance(s) + Pulse(s) + Grimace(s) + Activity(s) + Respiration(s)
  }

  /** When the launch is scored next, in minutes of its age; 0 for never again. */
  function NextMinute(scores: seq<Apgar>): int {
    if scores == [] then 1
    else
      var last := scores[|scores| - 1];
      if last.minute < 5 then 5
      else if last.total < REASSURING && last.minute < LAST_MINUTE then last.minute + 5
      else 0
  }

  predicate RollsBack(score: Apgar, enabled: bool, previous: string) {
    score.minute == 5 && score.total < REASSURING && enabled && previous != ""
  }

  // ---------- Care ----------

  const PLACENTA_GRACE := 2 * MINUTE
  const NAG_INTERVAL := 12 * HOUR
  const CARE_PERIOD := 72 * HOUR

  /** The step of care at an age: three steps of a day each, and then none. */
  function CareTier(since: int): nat {
    if since < 24 * HOUR then 1 else if since < 48 * HOUR then 2 else if since < CARE_PERIOD then 3 else 0
  }

  const TIERS := ["kyvernetria-newborn-1", "kyvernetria-newborn-2", "kyvernetria-newborn-3"]

  function TierClass(tier: nat): string {
    if 1 <= tier <= 3 then TIERS[tier - 1] else ""
  }

  predicate IsSpace(c: char) {
    c == ' ' || '\t' <= c <= '\r'
  }

  /** strings.TrimSpace, of ASCII white space. */
  function TrimSpace(s: string): string {
    Trim(s, IsSpace)
  }

  /** strings.EqualFold, of ASCII letters. */
  predicate EqualFold(a: string, b: string) {
    Lower(a) == Lower(b)
  }

  function CaregiversOf(d: Deployment): Caregivers {
    Caregivers(TrimSpace(d.primary), TrimSpace(d.secondary))
  }

  /** Two names, and not the same one in another case. */
  predicate TwoNamed(c: Caregivers) {
    c.primary != "" && c.secondary != "" && !EqualFold(c.primary, c.secondary)
  }

  predicate InCare(st: Status) {
    st.care.Some? && (st.phase.NewbornCare? || st.phase.NeedsCaregivers?)
  }

  // ---------- Revisions ----------

  /** The ReplicaSets the Deployment owns. */
  function OwnedBy(rss: seq<ReplicaSet>, uid: string): seq<ReplicaSet> {
    if rss == [] then []
    else
      var last := rss[|rss| - 1];
      OwnedBy(rss[..|rss| - 1], uid) + (if last.owner == uid then [last] else [])
  }

  /** strconv.ParseInt, its error ignored: 0 for what is no number, and the nearest bound for what is too large. */
  function RevisionNumber(s: string): int {
    var signed := s != "" && (s[0] == '-' || s[0] == '+');
    var digits := if signed then s[1..] else s;
    if !AllDigits(digits) then 0
    else if signed && s[0] == '-' then (if 0 - ParseDigits(digits) < MIN_INT then MIN_INT else 0 - ParseDigits(digits))
    else if ParseDigits(digits) > MAX_INT then MAX_INT
    else ParseDigits(digits)
  }

  /** The first ReplicaSet with this template. */
  function WithTemplate(rss: seq<ReplicaSet>, template: string): Option<ReplicaSet> {
    if rss == [] then None
    else if rss[0].template == template then Some(rss[0])
    else WithTemplate(rss[1..], template)
  }

  /** The first ReplicaSet with this revision. */
  function AtRevision(rss: seq<ReplicaSet>, revision: string): Option<ReplicaSet> {
    if rss == [] then None
    else if rss[0].revision == revision then Some(rss[0])
    else AtRevision(rss[1..], revision)
  }

  /** The highest positive revision number below `born`, or 0. */
  function Before(rss: seq<ReplicaSet>, born: int): (prev: int)
    ensures prev >= 0 && (prev > 0 ==> prev < born)
  {
    if rss == [] then 0
    else
      var prev := Before(rss[..|rss| - 1], born);
      var n := RevisionNumber(rss[|rss| - 1].revision);
      if n < born && n > prev then n else prev
  }

  function Resolved(b: Birth, d: Deployment, seen: Seen): Birth {
    if b.revision != "" || !seen.observed then b
    else
      var rss := OwnedBy(seen.replicaSets, d.uid);
      match WithTemplate(rss, d.template)
      case None => b
      case Some(newest) =>
        var prev := Before(rss, RevisionNumber(newest.revision));
        b.(revision := newest.revision, previous := if prev > 0 then Itoa(prev) else b.previous)
  }

  // ---------- One pass ----------

  function Deref(replicas: Option<int>): int {
    if replicas.Some? then replicas.value else 1
  }

  /** The replicas of a launch without care's extra one: a Deployment scaled to zero launches as planned. */
  function Launch(replicas: Option<int>, spec: Spec): int {
    if Deref(replicas) == 0 then spec.replicas else Deref(replicas)
  }

  /** A delivery that was asked for begins; a birth ends only by being rolled back. */
  function Begun(spec: Spec, st: Status, now: int): Status {
    if spec.delivery > st.delivery && (st.birth.None? || st.phase.RolledBack?) then
      Status(Delivering, spec.delivery, Some(now), None, [], None, st.caregivers)
    else st
  }

  function Pregnant(c: Case, seen: Seen): Case {
    c.(status := c.status.(phase := if seen.trimester == Some(0) then Due else Expecting))
  }

  predicate Waits(c: Case, seen: Seen) {
    var started := if c.status.started.Some? then c.status.started.value else seen.now;
    (seen.held > 0 && seen.now - started < PLACENTA_GRACE) || c.deployment.None? || c.deployment.value.selector.None?
  }

  function NewBudget(replicas: int): Budget {
    Budget(true, true, if replicas - 1 < 1 then 1 else replicas - 1)
  }

  function Born(spec: Spec, c: Case, d: Deployment, selector: string, seen: Seen): Case {
    var want := Launch(d.replicas, spec) + if seen.autoscaled then 0 else 1;
    var covered := seen.covered || (c.budget.Some? && c.budget.value.covers);
    var birth := Birth(seen.now, d.uid, "", "", selector, !seen.autoscaled, !covered, "");
    var care := Care(1, TierClass(1), seen.now + CARE_PERIOD, None, None);
    Case(c.status.(birth := Some(birth), care := Some(care), apgar := [], phase := NewbornCare),
         Some(d.(replicas := Some(want), paused := false, newborn := true, born := Some(Unix(seen.now)))),
         if covered || c.budget.Some? then c.budget else Some(NewBudget(want)))
  }

  function Delivered(spec: Spec, c: Case, seen: Seen): Case {
    if Waits(c, seen) then c
    else Born(spec, c, c.deployment.value, c.deployment.value.selector.value, seen)
  }

  function WithoutCare(d: Deployment, b: Birth): Deployment {
    d.(replicas := if b.addedReplica && Deref(d.replicas) > 1 then Some(Deref(d.replicas) - 1) else d.replicas,
       newborn := false)
  }

  function WithoutBudget(birth: Option<Birth>, budget: Option<Budget>): Option<Budget> {
    if birth.Some? && birth.value.budget && budget.Some? && budget.value.managed then None else budget
  }

  function WentBack(c: Case, b: Birth, d: Deployment, rs: ReplicaSet): Case {
    Case(c.status.(birth := Some(b.(rolledBackTo := b.previous)), care := None),
         Some(WithoutCare(d.(template := rs.template), b)),
         WithoutBudget(Some(b), c.budget))
  }

  predicate ScoreDue(st: Status, b: Birth, now: int) {
    NextMinute(st.apgar) != 0 && b.revision != "" && now >= b.time + NextMinute(st.apgar) * MINUTE
  }

  function Scored(spec: Spec, c: Case, b: Birth, d: Deployment, seen: Seen): Case {
    if !ScoreDue(c.status, b, seen.now) then c
    else
      var score := Apgar(NextMinute(c.status.apgar), seen.now, Total(seen.signs));
      if !RollsBack(score, spec.autoRollback, b.previous) then
        c.(status := c.status.(apgar := c.status.apgar + [score]))
      else
        match AtRevision(OwnedBy(seen.replicaSets, d.uid), b.previous)
        case None => c // fails, and leaves the score due
        case Some(rs) =>
          var back := WentBack(c, b, d, rs);
          back.(status := back.status.(apgar := c.status.apgar + [score], phase := RolledBack))
  }

  function WentHome(c: Case, b: Birth, d: Deployment, care: Care, now: int): Case {
    Case(c.status.(care := Some(care.(tier := 0, priority := "", discharged := Some(now))), phase := Grown),
         Some(WithoutCare(d, b)), WithoutBudget(Some(b), c.budget))
  }

  predicate NagDue(care: Care, now: int) {
    care.lastNag.None? || now - care.lastNag.value >= NAG_INTERVAL
  }

  function Cared(c: Case, b: Birth, d: Deployment, care: Care, now: int): Case {
    var cg := CaregiversOf(d);
    var named := c.status.(caregivers := if cg.primary != "" || cg.secondary != "" then Some(cg) else None);
    var tier := CareTier(now - b.time);
    if tier > 0 then
      c.(status := named.(care := Some(care.(tier := tier, priority := TierClass(tier))), phase := NewbornCare))
    else if TwoNamed(cg) then WentHome(c.(status := named), b, d, care, now)
    else
      var held := care.(tier := 3, priority := TierClass(3),
                        lastNag := if NagDue(care, now) then Some(now) else care.lastNag);
      c.(status := named.(care := Some(held), phase := NeedsCaregivers))
  }

  function Gone(c: Case): Case {
    if c.status.phase.Departed? then c
    else Case(c.status.(phase := Departed, care := None), c.deployment, WithoutBudget(c.status.birth, c.budget))
  }

  function AfterBirth(spec: Spec, c: Case, b: Birth, seen: Seen): Case {
    if c.deployment.None? || c.deployment.value.uid != b.uid then Gone(c)
    else
      var d := c.deployment.value;
      var r := Resolved(b, d, seen);
      var c1 := c.(status := c.status.(birth := Some(r)));
      var c2 := if InCare(c1.status) then Scored(spec, c1, r, d, seen) else c1;
      if InCare(c2.status) then Cared(c2, r, d, c2.status.care.value, seen.now) else c2
  }

  function Stepped(spec: Spec, c: Case, seen: Seen): Case {
    if c.status.phase.Delivering? then Delivered(spec, c, seen)
    else if c.status.birth.None? then Pregnant(c, seen)
    else AfterBirth(spec, c, c.status.birth.value, seen)
  }

  /** Times are written in whole seconds. */
  function Second(t: int): int {
    Unix(t) * SECOND
  }

  function SecondOf(t: Option<int>): Option<int> {
    if t.Some? then Some(Second(t.value)) else None
  }

  function Written(st: Status): Status {
    st.(started := SecondOf(st.started),
        birth := if st.birth.Some? then Some(st.birth.value.(time := Second(st.birth.value.time))) else None,
        apgar := seq(|st.apgar|, i requires 0 <= i < |st.apgar| => st.apgar[i].(time := Second(st.apgar[i].time))),
        care := if st.care.None? then None
                else Some(st.care.value.(until := Second(st.care.value.until),
                                         discharged := SecondOf(st.care.value.discharged),
                                         lastNag := SecondOf(st.care.value.lastNag))))
  }

  /** One pass over one Gestation whose API writes all succeed. */
  function Pass(spec: Spec, c: Case, seen: Seen): Case {
    var stepped := Stepped(spec, c.(status := Begun(spec, c.status, seen.now)), seen);
    stepped.(status := Written(stepped.status))
  }
}
