/**
 * What holds over whole runs of the state directory, in every interleaving of starters,
 * supervisors, crash reporters, kills and reboots.
 */
module CellRuns {
  import opened Base
  import opened Cell
  import opened CellProtocol

  // ---------- Reading the log ----------

  predicate IsEscape(e: Event) {
    e.Crash? && e.d.escaped
  }

  /** When, and in which boot, the node escaped. */
  datatype Jump = Jump(now: int, boot: string)

  function Escapes(log: seq<Event>): seq<Jump> {
    if log == [] then []
    else
      var e := log[|log| - 1];
      Escapes(log[..|log| - 1]) + (if IsEscape(e) then [Jump(e.now, e.boot)] else [])
  }

  function CrashTimes(log: seq<Event>): seq<int> {
    if log == [] then []
    else CrashTimes(log[..|log| - 1]) + (if log[|log| - 1].Crash? then [log[|log| - 1].now] else [])
  }

  /** How many crashes were reported since the last escape. */
  function FreshCrashes(log: seq<Event>): nat {
    if log == [] then 0
    else
      var e := log[|log| - 1];
      if IsEscape(e) then 0 else FreshCrashes(log[..|log| - 1]) + (if e.Crash? then 1 else 0)
  }

  /** Every crash of one component reported since the last escape, as recorded seconds, unpruned. */
  function FullHistory(log: seq<Event>, component: string): seq<int> {
    if log == [] then []
    else
      var e := log[|log| - 1];
      if IsEscape(e) then []
      else FullHistory(log[..|log| - 1], component) +
           (if e.Crash? && e.r.component == component then [Unix(e.now)] else [])
  }

  predicate FirstBoot(e: Event) {
    e.Answer? && e.e.Expressed? && e.e.firstBoot
  }

  predicate GaveAllele(e: Event) {
    e.Answer? && e.e.Expressed?
  }

  /** How many starters were told that this is the first boot. */
  function Firsts(log: seq<Event>): nat {
    if log == [] then 0
    else Firsts(log[..|log| - 1]) + (if FirstBoot(log[|log| - 1]) then 1 else 0)
  }

  /** Every starter answered before the first escape was given this allele. */
  ghost predicate AllGiven(log: seq<Event>, founder: Allele) {
    log == [] ||
    (var n := |log| - 1;
     AllGiven(log[..n], founder) &&
     (GaveAllele(log[n]) && Escapes(log[..n]) == [] ==> log[n].e.allele == founder))
  }

  /** Each report's crash count is the count over the full history of that moment, plus itself. */
  ghost predicate CountsFullLog(cfg: Config, log: seq<Event>) {
    log == [] ||
    (var n := |log| - 1;
     CountsFullLog(cfg, log[..n]) &&
     (log[n].Crash? ==>
        log[n].d.crashes ==
        |Recent(Lines(FullHistory(log[..n], log[n].r.component)), log[n].now, cfg.escapeWindow)| + 1))
  }

  lemma LogGrows(log: seq<Event>, e: Event)
    ensures Escapes(log + [e]) == Escapes(log) + (if IsEscape(e) then [Jump(e.now, e.boot)] else [])
    ensures CrashTimes(log + [e]) == CrashTimes(log) + (if e.Crash? then [e.now] else [])
    ensures FreshCrashes(log + [e]) == if IsEscape(e) then 0 else FreshCrashes(log) + (if e.Crash? then 1 else 0)
    ensures Firsts(log + [e]) == Firsts(log) + (if FirstBoot(e) then 1 else 0)
  {
    assert (log + [e])[..|log|] == log;
  }

  lemma HistoryGrows(log: seq<Event>, e: Event, component: string)
    ensures FullHistory(log + [e], component) ==
            if IsEscape(e) then []
            else FullHistory(log, component) + (if e.Crash? && e.r.component == component then [Unix(e.now)] else [])
  {
    assert (log + [e])[..|log|] == log;
  }

  // ---------- What one step does ----------

  /** A move outside the lock reports no crash and touches neither histories nor the stamp. */
  lemma QuietMove(w: World, m: Move)
    requires CanMove(w, m)
    ensures var w' := Moved(w, m);
      && (w'.log == w.log || (w'.log != [] && w'.log == w.log + [w'.log[|w'.log| - 1]] && !w'.log[|w'.log| - 1].Crash?))
      && w'.disk.histories == w.disk.histories && w'.disk.lastEscape == w.disk.lastEscape
      && w'.boots == (if m.Reboot? then w.boots + [m.boot] else w.boots)
  {
  }

  lemma QuietCounts(w: World, m: Move)
    requires CanMove(w, m)
    ensures var log' := Moved(w, m).log;
      && Escapes(log') == Escapes(w.log) && CrashTimes(log') == CrashTimes(w.log)
      && FreshCrashes(log') == FreshCrashes(w.log)
  {
    QuietMove(w, m);
    var log' := Moved(w, m).log;
    if log' != w.log {
      LogGrows(w.log, log'[|log'| - 1]);
    }
  }

  /** What an indivisible report adds to the log. */
  function Entry(cfg: Config, w: World, p: Pid, now: int): Event
    requires AtomicCan(w, RecordCrash(p, now))
  {
    var r := w.procs[p].r;
    Crash(p, r, now, Boot(w), Decide(cfg, w.disk, r.component, r.allele, now, Boot(w)))
  }

  /** What an indivisible report does to the disk. */
  lemma ReportEffect(cfg: Config, w: World, p: Pid, now: int)
    requires AtomicCan(w, RecordCrash(p, now))
    ensures var w' := AtomicNext(cfg, w, RecordCrash(p, now));
            var e := Entry(cfg, w, p, now);
            var r := w.procs[p].r;
      && w'.boots == w.boots && w'.log == w.log + [e] && w'.procs == w.procs[p := Reported(r, e.d)]
      && e.d.crashes == |Noted(cfg, w.disk, r.component, now)|
      && (IsEscape(e) ==>
            && e.d.crashes >= cfg.escapeCrashes
            && StampBlocks(cfg, w.disk.lastEscape, now, Boot(w)).None?
            && w.disk.choice == Holds(r.allele)
            && w'.disk.choice == Holds(Other(r.allele))
            && w'.disk.lastEscape == EscapeStamp(now, Boot(w))
            && w'.disk.histories == map[])
      && (!IsEscape(e) ==>
            && w'.disk.choice == w.disk.choice
            && w'.disk.lastEscape == w.disk.lastEscape
            && w'.disk.histories ==
               w.disk.histories[Crashes(r.component) := Lines(Noted(cfg, w.disk, r.component, now))])
  {
  }

  // ---------- The choice ----------

  /** The allele the cell chose first: escapes alternate, so their parity tells. */
  function Founder(now: Allele, escapes: nat): Allele {
    if escapes % 2 == 0 then now else Other(now)
  }

  /** At most one starter won the link, and it is the one that will report the first boot. */
  ghost predicate WinnersOk(had: bool, procs: map<Pid, Pc>, firsts: nat) {
    && firsts <= (if had then 0 else 1)
    && (forall p :: p in procs && procs[p].Winning? ==> !had && firsts == 0)
    && (forall p, q :: p in procs && q in procs && procs[p].Winning? && procs[q].Winning? ==> p == q)
  }

  ghost predicate NoWinners(procs: map<Pid, Pc>) {
    forall p :: p in procs ==> !procs[p].Winning?
  }

  ghost predicate WinnersHave(procs: map<Pid, Pc>, founder: Allele) {
    forall p :: p in procs && procs[p].Winning? ==> procs[p].pick == founder
  }

  ghost predicate ChoiceInv(had: bool, w: World) {
    && WinnersOk(had, w.procs, Firsts(w.log))
    && match w.disk.choice
       case Garbled => false
       case Absent =>
         && !had && Escapes(w.log) == [] && Firsts(w.log) == 0 && NoWinners(w.procs)
         && AllGiven(w.log, Xm) && AllGiven(w.log, Xp)
       case Holds(a) =>
         && AllGiven(w.log, Founder(a, |Escapes(w.log)|))
         && WinnersHave(w.procs, Founder(a, |Escapes(w.log)|))
  }

  lemma GivenGrows(log: seq<Event>, e: Event, founder: Allele)
    requires AllGiven(log, founder)
    requires GaveAllele(e) && Escapes(log) == [] ==> e.e.allele == founder
    ensures AllGiven(log + [e], founder)
  {
    assert (log + [e])[..|log|] == log;
  }

  /** A starter that read the choice, or was refused, changes nothing for the others. */
  lemma ChoiceAnswer(had: bool, w: World, p: Pid, e: Expression)
    requires ChoiceInv(had, w) && p in w.procs
    requires e.Expressed? ==> w.disk.choice.Holds?
    requires e.Expressed? ==> if e.firstBoot then w.procs[p] == Winning(e.allele) else e.allele == w.disk.choice.allele
    ensures ChoiceInv(had, Answered(w, p, e))
  {
    LogGrows(w.log, Answer(p, e));
    match w.disk.choice {
      case Absent =>
        GivenGrows(w.log, Answer(p, e), Xm);
        GivenGrows(w.log, Answer(p, e), Xp);
      case Holds(a) =>
        GivenGrows(w.log, Answer(p, e), Founder(a, |Escapes(w.log)|));
    }
  }

  lemma ChoiceOwnStep(had: bool, w: World, p: Pid)
    requires ChoiceInv(had, w) && CanMove(w, Step(p))
    ensures ChoiceInv(had, Moved(w, Step(p)))
  {
    var pc := w.procs[p];
    if pc.Linking? {
      if w.disk.choice.Absent? {
        assert AllGiven(w.log, pc.pick) by { if pc.pick == Xm {} else {} }
      }
    } else if pc.Winning? {
      ChoiceAnswer(had, w, p, Expressed(pc.pick, true));
    } else if pc.Watching? {
      var e := Glance(p, w.disk.choice);
      LogGrows(w.log, e);
      match w.disk.choice {
        case Absent => GivenGrows(w.log, e, Xm); GivenGrows(w.log, e, Xp);
        case Holds(a) => GivenGrows(w.log, e, Founder(a, |Escapes(w.log)|));
      }
    } else if w.disk.choice.Holds? {
      ChoiceAnswer(had, w, p, Expressed(w.disk.choice.allele, false));
    } else if pc.Losing? {
      ChoiceAnswer(had, w, p, Refused);
    }
  }

  lemma ChoiceReport(cfg: Config, had: bool, w: World, p: Pid, now: int)
    requires ChoiceInv(had, w) && AtomicCan(w, RecordCrash(p, now))
    ensures ChoiceInv(had, AtomicNext(cfg, w, RecordCrash(p, now)))
  {
    ReportEffect(cfg, w, p, now);
    var e := Entry(cfg, w, p, now);
    LogGrows(w.log, e);
    match w.disk.choice {
      case Absent => GivenGrows(w.log, e, Xm); GivenGrows(w.log, e, Xp);
      case Holds(b) => GivenGrows(w.log, e, Founder(b, |Escapes(w.log)|));
    }
  }

  lemma ChoiceStep(cfg: Config, had: bool, w: World, a: Atomic)
    requires ChoiceInv(had, w) && AtomicCan(w, a)
    ensures ChoiceInv(had, AtomicNext(cfg, w, a))
  {
    if a.RecordCrash? {
      ChoiceReport(cfg, had, w, a.pid, a.now);
    } else if a.m.Step? {
      ChoiceOwnStep(had, w, a.m.pid);
    } else if a.m.Pick? && a.m.random.None? {
      ChoiceAnswer(had, w, a.m.pid, Refused);
    }
  }

  // ---------- Escape rates ----------

  /** No boot id is unknown, and none comes back. */
  ghost predicate KnownBoots(boots: seq<string>) {
    "" !in boots && NoRepeats(boots)
  }

  ghost predicate BootInv(boots: seq<string>, stamp: Stamp, es: seq<Jump>) {
    && boots != []
    && (KnownBoots(boots) ==>
          && (forall i :: 0 <= i < |es| ==> es[i].boot in boots)
          && (forall i, j :: 0 <= i < j < |es| ==> es[i].boot != es[j].boot)
          && (forall i :: 0 <= i < |es| && es[i].boot == boots[|boots| - 1] ==>
                stamp.Stamp? && stamp.boot == Some(boots[|boots| - 1])))
  }

  lemma RebootKeeps(boots: seq<string>, stamp: Stamp, es: seq<Jump>, boot: string)
    requires BootInv(boots, stamp, es)
    ensures BootInv(boots + [boot], stamp, es)
  {
    var boots' := boots + [boot];
    if KnownBoots(boots') {
      assert forall i :: 0 <= i < |boots| ==> boots[i] == boots'[i];
      assert boots'[|boots|] == boot;
      assert KnownBoots(boots);
      assert boot !in boots;
    }
  }

  lemma BootStep(cfg: Config, w: World, a: Atomic)
    requires BootInv(w.boots, w.disk.lastEscape, Escapes(w.log)) && AtomicCan(w, a)
    ensures var w' := AtomicNext(cfg, w, a); BootInv(w'.boots, w'.disk.lastEscape, Escapes(w'.log))
  {
    match a {
      case RecordCrash(p, now) =>
        ReportEffect(cfg, w, p, now);
        LogGrows(w.log, Entry(cfg, w, p, now));
      case Shared(m) =>
        QuietMove(w, m);
        QuietCounts(w, m);
        if m.Reboot? {
          RebootKeeps(w.boots, w.disk.lastEscape, Escapes(w.log), m.boot);
        }
    }
  }

  /** Consecutive escapes are this many recorded seconds apart, at the least. */
  function Apart(cfg: Config): int {
    cfg.cooldown / SECOND
  }

  ghost predicate Spaced(cfg: Config, es: seq<Jump>) {
    forall i :: 0 < i < |es| ==>
      Unix(es[i].now) - Unix(es[i - 1].now) >= Apart(cfg) && es[i].now - es[i - 1].now > cfg.cooldown - SECOND
  }

  ghost predicate RateInv(cfg: Config, stamp: Stamp, es: seq<Jump>, times: seq<int>) {
    NonDecreasing(times) ==>
      && Spaced(cfg, es)
      && (es != [] ==>
            var last := es[|es| - 1];
            times != [] && last.now <= times[|times| - 1] && stamp == EscapeStamp(last.now, last.boot))
  }

  /** A clock that moved on past a stamp, and is not blocked by it, moved on by the cooldown. */
  lemma UnblockedMeansApart(cfg: Config, before: int, stamped: string, now: int, boot: string)
    requires before <= now && StampBlocks(cfg, EscapeStamp(before, stamped), now, boot).None?
    ensures Unix(now) - Unix(before) >= Apart(cfg) && now - before > cfg.cooldown - SECOND
  {
    var sec := Unix(before);
    assert sec * SECOND <= before < (sec + 1) * SECOND;
    assert now - sec * SECOND >= cfg.cooldown;
  }

  lemma PrefixInOrder(times: seq<int>, now: int)
    requires NonDecreasing(times + [now])
    ensures NonDecreasing(times) && (times != [] ==> times[|times| - 1] <= now)
  {
    var all := times + [now];
    assert forall i :: 0 <= i < |times| ==> times[i] == all[i];
    assert all[|times|] == now;
  }

  /** One more report, escape or not, under any clock. */
  lemma RateGrows(cfg: Config, stamp: Stamp, es: seq<Jump>, times: seq<int>, e: Jump, escaped: bool)
    requires RateInv(cfg, stamp, es, times)
    requires escaped ==> StampBlocks(cfg, stamp, e.now, e.boot).None?
    ensures RateInv(cfg, if escaped then EscapeStamp(e.now, e.boot) else stamp,
                    if escaped then es + [e] else es, times + [e.now])
  {
    if NonDecreasing(times + [e.now]) {
      PrefixInOrder(times, e.now);
      if escaped && es != [] {
        var last := es[|es| - 1];
        UnblockedMeansApart(cfg, last.now, last.boot, e.now, e.boot);
      }
    }
  }

  lemma RateStep(cfg: Config, w: World, a: Atomic)
    requires RateInv(cfg, w.disk.lastEscape, Escapes(w.log), CrashTimes(w.log)) && AtomicCan(w, a)
    ensures var w' := AtomicNext(cfg, w, a); RateInv(cfg, w'.disk.lastEscape, Escapes(w'.log), CrashTimes(w'.log))
  {
    match a {
      case Shared(m) =>
        QuietMove(w, m);
        QuietCounts(w, m);
      case RecordCrash(p, now) =>
        ReportEffect(cfg, w, p, now);
        LogGrows(w.log, Entry(cfg, w, p, now));
        var e := Entry(cfg, w, p, now);
        RateGrows(cfg, w.disk.lastEscape, Escapes(w.log), CrashTimes(w.log), Jump(now, Boot(w)), IsEscape(e));
    }
  }

  // ---------- Counting crashes ----------

  lemma {:induction false} RecentIsShorter(lines: seq<Line>, now: int, window: int)
    ensures |Recent(lines, now, window)| <= |lines|
  {
    if lines == [] {
    } else {
      RecentIsShorter(lines[..|lines| - 1], now, window);
    }
  }

  /** Escapes are paid for: each used up its number of crashes, and the rest are still on file. */
  ghost predicate PaidInv(cfg: Config, w: World) {
    && |Escapes(w.log)| * cfg.escapeCrashes + FreshCrashes(w.log) <= |CrashTimes(w.log)|
    && (forall c :: |HistoryOf(w.disk, c)| <= FreshCrashes(w.log))
  }

  lemma PaidStep(cfg: Config, w: World, a: Atomic)
    requires PaidInv(cfg, w) && AtomicCan(w, a)
    ensures PaidInv(cfg, AtomicNext(cfg, w, a))
  {
    var w' := AtomicNext(cfg, w, a);
    match a {
      case Shared(m) =>
        QuietMove(w, m);
        QuietCounts(w, m);
        forall c ensures HistoryOf(w'.disk, c) == HistoryOf(w.disk, c) {}
      case RecordCrash(p, now) =>
        ReportEffect(cfg, w, p, now);
        var e := Entry(cfg, w, p, now);
        LogGrows(w.log, e);
        var lines := HistoryOf(w.disk, e.r.component);
        RecentIsShorter(lines, now, cfg.escapeWindow);
        assert e.d.crashes <= |lines| + 1 <= FreshCrashes(w.log) + 1;
        assert (|Escapes(w.log)| + 1) * cfg.escapeCrashes == |Escapes(w.log)| * cfg.escapeCrashes + cfg.escapeCrashes;
        forall c
          ensures |HistoryOf(w'.disk, c)| <= FreshCrashes(w'.log)
        {
          assert |HistoryOf(w.disk, c)| <= FreshCrashes(w.log);
        }
    }
  }

  /** Nothing in the full history lies in the future of `now`. */
  ghost predicate AllPast(secs: seq<int>, now: int) {
    forall i :: 0 <= i < |secs| ==> secs[i] * SECOND <= now
  }

  /** From some moment on, the pruned file counts what the full history counts. */
  ghost predicate SameCount(file: seq<Line>, full: seq<int>, from: int, window: int) {
    && AllPast(full, from)
    && forall later :: from <= later ==> Recent(file, later, window) == Recent(Lines(full), later, window)
  }

  ghost predicate CountInv(cfg: Config, w: World) {
    var times := CrashTimes(w.log);
    NonDecreasing(times) ==>
      && CountsFullLog(cfg, w.log)
      && forall c ::
           if times == [] then HistoryOf(w.disk, c) == [] && FullHistory(w.log, c) == []
           else SameCount(HistoryOf(w.disk, c), FullHistory(w.log, c), times[|times| - 1], cfg.escapeWindow)
  }

  /** One more report: the pruned file and the full history stay in step. */
  lemma OneMoreCounted(file: seq<Line>, full: seq<int>, now: int, window: int)
    requires SameCount(file, full, now, window)
    ensures SameCount(Lines(Recent(file, now, window) + [Unix(now)]), full + [Unix(now)], now, window)
  {
    forall later | now <= later
      ensures Recent(Lines(Recent(file, now, window) + [Unix(now)]), later, window) ==
              Recent(Lines(full + [Unix(now)]), later, window)
    {
      PruningIsLossless(Lines(full), now, later, window);
      RecentOfLines(Recent(file, now, window), Unix(now), later, window);
      RecentOfLines(full, Unix(now), later, window);
    }
  }

  /** Before a report at `now`, whatever came before, file and full history agree from `now` on. */
  lemma AgreeSoFar(cfg: Config, w: World, now: int, c: string)
    requires CountInv(cfg, w) && NonDecreasing(CrashTimes(w.log) + [now])
    ensures CountsFullLog(cfg, w.log)
    ensures SameCount(HistoryOf(w.disk, c), FullHistory(w.log, c), now, cfg.escapeWindow)
  {
    PrefixInOrder(CrashTimes(w.log), now);
    assert Lines([]) == [];
  }

  lemma CountsGrow(cfg: Config, log: seq<Event>, e: Event)
    requires CountsFullLog(cfg, log)
    requires e.Crash? ==>
      e.d.crashes == |Recent(Lines(FullHistory(log, e.r.component)), e.now, cfg.escapeWindow)| + 1
    ensures CountsFullLog(cfg, log + [e])
  {
    assert (log + [e])[..|log|] == log;
  }

  lemma CountReport(cfg: Config, w: World, p: Pid, now: int)
    requires CountInv(cfg, w) && AtomicCan(w, RecordCrash(p, now))
    requires NonDecreasing(CrashTimes(w.log) + [now])
    ensures CountInv(cfg, AtomicNext(cfg, w, RecordCrash(p, now)))
  {
    var w' := AtomicNext(cfg, w, RecordCrash(p, now));
    var e := Entry(cfg, w, p, now);
    ReportEffect(cfg, w, p, now);
    LogGrows(w.log, e);
    AgreeSoFar(cfg, w, now, e.r.component);
    CountsGrow(cfg, w.log, e);
    forall c
      ensures SameCount(HistoryOf(w'.disk, c), FullHistory(w'.log, c), now, cfg.escapeWindow)
    {
      HistoryGrows(w.log, e, c);
      AgreeSoFar(cfg, w, now, c);
      if IsEscape(e) {
        assert Lines([]) == [] && HistoryOf(w'.disk, c) == [] && FullHistory(w'.log, c) == [];
        assert SameCount([], [], now, cfg.escapeWindow);
      } else if c == e.r.component {
        assert HistoryOf(w'.disk, c) == Lines(Recent(HistoryOf(w.disk, c), now, cfg.escapeWindow) + [Unix(now)]);
        OneMoreCounted(HistoryOf(w.disk, c), FullHistory(w.log, c), now, cfg.escapeWindow);
        assert FullHistory(w'.log, c) == FullHistory(w.log, c) + [Unix(now)];
      } else {
        assert HistoryOf(w'.disk, c) == HistoryOf(w.disk, c);
        assert FullHistory(w'.log, c) == FullHistory(w.log, c);
      }
    }
  }

  lemma CountStep(cfg: Config, w: World, a: Atomic)
    requires CountInv(cfg, w) && AtomicCan(w, a)
    ensures CountInv(cfg, AtomicNext(cfg, w, a))
  {
    hide Recent;
    match a {
      case RecordCrash(p, now) =>
        LogGrows(w.log, Entry(cfg, w, p, now));
        if NonDecreasing(CrashTimes(w.log) + [now]) {
          CountReport(cfg, w, p, now);
        }
      case Shared(m) =>
        QuietMove(w, m);
        QuietCounts(w, m);
        var w' := Moved(w, m);
        if w'.log != w.log {
          var e := w'.log[|w'.log| - 1];
          forall c ensures FullHistory(w'.log, c) == FullHistory(w.log, c) { HistoryGrows(w.log, e, c); }
          if NonDecreasing(CrashTimes(w.log)) {
            CountsGrow(cfg, w.log, e);
          }
        }
        forall c ensures HistoryOf(w'.disk, c) == HistoryOf(w.disk, c) {}
    }
  }

  // ---------- What the history files hold ----------

  predicate IsCrashOf(e: Event, c: string) {
    e.Crash? && e.r.component == c
  }

  /** A report that made no escape: no escape has come after it, and no later report of its component pruned it. */
  ghost predicate Stands(cfg: Config, log: seq<Event>, c: string, i: nat) {
    && i < |log| && IsCrashOf(log[i], c) && !IsEscape(log[i])
    && forall k | i < k < |log| ::
         !IsEscape(log[k]) && (IsCrashOf(log[k], c) ==> InWindow(Unix(log[i].now), log[k].now, cfg.escapeWindow))
  }

  /** The seconds of those of the first m reports that stand, in the order of the log. */
  ghost function StandingOf(cfg: Config, log: seq<Event>, c: string, m: nat): seq<int>
    requires m <= |log|
  {
    if m == 0 then []
    else
      StandingOf(cfg, log, c, m - 1) + (if Stands(cfg, log, c, m - 1) then [Unix(log[m - 1].now)] else [])
  }

  ghost function Standing(cfg: Config, log: seq<Event>, c: string): seq<int> {
    StandingOf(cfg, log, c, |log|)
  }

  /** What is left of the lines that a history file held before the log began. */
  function Survivors(cfg: Config, lines: seq<Line>, log: seq<Event>, c: string): seq<Line> {
    if log == [] then lines
    else
      var e, left := log[|log| - 1], Survivors(cfg, lines, log[..|log| - 1], c);
      if IsEscape(e) then []
      else if IsCrashOf(e, c) then Lines(Recent(left, e.now, cfg.escapeWindow))
      else left
  }

  /** The whole of a history file: what survived of it, then every report that stands. */
  ghost function OnFile(cfg: Config, lines: seq<Line>, log: seq<Event>, c: string): seq<Line> {
    Survivors(cfg, lines, log, c) + Lines(Standing(cfg, log, c))
  }

  lemma StandsMore(cfg: Config, log: seq<Event>, e: Event, c: string, i: nat)
    requires i < |log|
    ensures Stands(cfg, log + [e], c, i) <==>
            && Stands(cfg, log, c, i) && !IsEscape(e)
            && (IsCrashOf(e, c) ==> InWindow(Unix(log[i].now), e.now, cfg.escapeWindow))
  {
    var more := log + [e];
    assert more[|log|] == e;
    assert forall k :: 0 <= k < |log| ==> more[k] == log[k];
  }

  lemma {:induction false} StandingMore(cfg: Config, log: seq<Event>, e: Event, c: string, m: nat)
    requires m <= |log|
    ensures StandingOf(cfg, log + [e], c, m) ==
            if IsEscape(e) then []
            else if IsCrashOf(e, c) then Recent(Lines(StandingOf(cfg, log, c, m)), e.now, cfg.escapeWindow)
            else StandingOf(cfg, log, c, m)
  {
    if m == 0 {
      assert Lines([]) == [];
    } else {
      var before := StandingOf(cfg, log, c, m - 1);
      assert before + [] == before && StandingOf(cfg, log + [e], c, m - 1) + [] == StandingOf(cfg, log + [e], c, m - 1);
      StandingMore(cfg, log, e, c, m - 1);
      StandsMore(cfg, log, e, c, m - 1);
      if IsCrashOf(e, c) && Stands(cfg, log, c, m - 1) {
        RecentOfLines(before, Unix(log[m - 1].now), e.now, cfg.escapeWindow);
      }
      assert (log + [e])[m - 1] == log[m - 1];
      hide Recent;
    }
  }

  lemma LinesSplit(a: seq<int>, b: seq<int>)
    ensures Lines(a + b) == Lines(a) + Lines(b)
  {
  }

  lemma LastStands(cfg: Config, log: seq<Event>, e: Event, c: string)
    ensures Standing(cfg, log + [e], c) ==
            if IsEscape(e) then []
            else if IsCrashOf(e, c) then
              Recent(Lines(Standing(cfg, log, c)), e.now, cfg.escapeWindow) + [Unix(e.now)]
            else Standing(cfg, log, c)
  {
    var more := log + [e];
    assert more[|log|] == e;
    StandingMore(cfg, log, e, c, |log|);
    assert Stands(cfg, more, c, |log|) <==> IsCrashOf(e, c) && !IsEscape(e);
    hide Stands;
    hide Recent;
  }

  lemma SurvivorsMore(cfg: Config, lines: seq<Line>, log: seq<Event>, e: Event, c: string)
    ensures var left := Survivors(cfg, lines, log, c);
      Survivors(cfg, lines, log + [e], c) ==
      if IsEscape(e) then [] else if IsCrashOf(e, c) then Lines(Recent(left, e.now, cfg.escapeWindow)) else left
  {
    assert (log + [e])[..|log|] == log;
    hide Recent;
  }

  /** Pruning a file and noting one more second is pruning both of its parts. */
  lemma NotedInParts(left: seq<Line>, standing: seq<int>, now: int, window: int)
    ensures Lines(Recent(left, now, window)) + Lines(Recent(Lines(standing), now, window) + [Unix(now)]) ==
            Lines(Recent(left + Lines(standing), now, window) + [Unix(now)])
  {
    RecentSplits(left, Lines(standing), now, window);
    var a, b := Recent(left, now, window), Recent(Lines(standing), now, window);
    LinesSplit(a, b + [Unix(now)]);
    assert a + b + [Unix(now)] == a + (b + [Unix(now)]);
  }

  /** One more event: the file is emptied, or pruned and added to, or left alone. */
  lemma OnFileMore(cfg: Config, lines: seq<Line>, log: seq<Event>, e: Event, c: string)
    ensures OnFile(cfg, lines, log + [e], c) ==
            if IsEscape(e) then []
            else if IsCrashOf(e, c) then
              Lines(Recent(OnFile(cfg, lines, log, c), e.now, cfg.escapeWindow) + [Unix(e.now)])
            else OnFile(cfg, lines, log, c)
  {
    LastStands(cfg, log, e, c);
    SurvivorsMore(cfg, lines, log, e, c);
    if IsCrashOf(e, c) {
      NotedInParts(Survivors(cfg, lines, log, c), Standing(cfg, log, c), e.now, cfg.escapeWindow);
    }
    assert Lines([]) == [];
    hide Standing;
    hide Survivors;
    hide Recent;
  }

  /** Each report counted every line on file at that moment that its window reaches, and itself. */
  ghost predicate CountsTheFile(cfg: Config, start: Disk, log: seq<Event>) {
    log == [] ||
    (var e, before := log[|log| - 1], log[..|log| - 1];
     && CountsTheFile(cfg, start, before)
     && (e.Crash? ==>
           var c := e.r.component;
           e.d.crashes == |Recent(OnFile(cfg, HistoryOf(start, c), before, c), e.now, cfg.escapeWindow)| + 1))
  }

  ghost predicate FileInv(cfg: Config, start: Disk, w: World) {
    && CountsTheFile(cfg, start, w.log)
    && forall c :: HistoryOf(w.disk, c) == OnFile(cfg, HistoryOf(start, c), w.log, c)
  }

  lemma FileReport(cfg: Config, start: Disk, w: World, p: Pid, now: int)
    requires FileInv(cfg, start, w) && AtomicCan(w, RecordCrash(p, now))
    ensures FileInv(cfg, start, AtomicNext(cfg, w, RecordCrash(p, now)))
  {
    var w' := AtomicNext(cfg, w, RecordCrash(p, now));
    var e := Entry(cfg, w, p, now);
    ReportEffect(cfg, w, p, now);
    assert e.Crash? && e.r == w.procs[p].r && e.now == now;
    hide AtomicNext;
    hide Entry;
    hide OnFile;
    hide Recent;
    assert w'.log[..|w.log|] == w.log;
    forall c
      ensures HistoryOf(w'.disk, c) == OnFile(cfg, HistoryOf(start, c), w'.log, c)
    {
      OnFileMore(cfg, HistoryOf(start, c), w.log, e, c);
    }
  }

  lemma FileStep(cfg: Config, start: Disk, w: World, a: Atomic)
    requires FileInv(cfg, start, w) && AtomicCan(w, a)
    ensures FileInv(cfg, start, AtomicNext(cfg, w, a))
  {
    match a {
      case RecordCrash(p, now) => FileReport(cfg, start, w, p, now);
      case Shared(m) =>
        QuietMove(w, m);
        var w' := Moved(w, m);
        if w'.log != w.log {
          var e := w'.log[|w'.log| - 1];
          assert w'.log[..|w.log|] == w.log;
          forall c
            ensures OnFile(cfg, HistoryOf(start, c), w'.log, c) == OnFile(cfg, HistoryOf(start, c), w.log, c)
          {
            OnFileMore(cfg, HistoryOf(start, c), w.log, e, c);
          }
        }
        forall c ensures HistoryOf(w'.disk, c) == HistoryOf(w.disk, c) {}
        hide OnFile;
        hide Moved;
    }
  }

  lemma {:induction false} StandingHas(cfg: Config, log: seq<Event>, c: string, i: nat, m: nat)
    requires i < m <= |log| && Stands(cfg, log, c, i)
    ensures Unix(log[i].now) in StandingOf(cfg, log, c, m)
  {
    if i < m - 1 {
      StandingHas(cfg, log, c, i, m - 1);
    }
    hide Stands;
  }

  // ---------- Each report is decided once ----------

  predicate ReportOf(e: Event, p: Pid) {
    e.Crash? && e.pid == p
  }

  /** Where the log holds the report of a process. */
  function ReportsOf(log: seq<Event>, p: Pid): seq<Event> {
    if log == [] then []
    else ReportsOf(log[..|log| - 1], p) + (if ReportOf(log[|log| - 1], p) then [log[|log| - 1]] else [])
  }

  /** A process has finished its report exactly when the log holds it, once, with its decision. */
  ghost predicate ReportInv(w: World) {
    forall p ::
      if p in w.procs && w.procs[p].Reported?
      then exists now, boot :: ReportsOf(w.log, p) == [Crash(p, w.procs[p].r, now, boot, w.procs[p].d)]
      else ReportsOf(w.log, p) == []
  }

  lemma ReportsGrow(log: seq<Event>, e: Event, p: Pid)
    ensures ReportsOf(log + [e], p) == ReportsOf(log, p) + (if ReportOf(e, p) then [e] else [])
  {
    assert (log + [e])[..|log|] == log;
  }

  lemma ReportReport(cfg: Config, w: World, q: Pid, now: int)
    requires ReportInv(w) && AtomicCan(w, RecordCrash(q, now))
    ensures ReportInv(AtomicNext(cfg, w, RecordCrash(q, now)))
  {
    var w' := AtomicNext(cfg, w, RecordCrash(q, now));
    var e := Entry(cfg, w, q, now);
    ReportEffect(cfg, w, q, now);
    assert e == Crash(q, w.procs[q].r, now, e.boot, e.d);
    hide AtomicNext;
    hide Entry;
    forall p
      ensures ReportsOf(w'.log, p) == ReportsOf(w.log, p) + (if p == q then [e] else [])
    {
      ReportsGrow(w.log, e, p);
    }
    hide ReportsOf;
    assert ReportsOf(w'.log, q) == [Crash(q, w'.procs[q].r, now, e.boot, w'.procs[q].d)];
  }

  lemma ReportStep(cfg: Config, w: World, a: Atomic)
    requires ReportInv(w) && AtomicCan(w, a)
    ensures ReportInv(AtomicNext(cfg, w, a))
  {
    match a {
      case RecordCrash(q, now) => ReportReport(cfg, w, q, now);
      case Shared(m) =>
        QuietMove(w, m);
        var w' := Moved(w, m);
        FinishedStays(w, m);
        hide Moved;
        forall p
          ensures ReportsOf(w'.log, p) == ReportsOf(w.log, p)
        {
          if w'.log != w.log {
            ReportsGrow(w.log, w'.log[|w'.log| - 1], p);
          }
        }
        hide ReportsOf;
    }
  }

  /** Moves outside the lock finish no report and undo none. */
  lemma FinishedStays(w: World, m: Move)
    requires CanMove(w, m)
    ensures var procs' := Moved(w, m).procs;
      forall p :: (p in w.procs && w.procs[p].Reported?) <==> (p in procs' && procs'[p].Reported?)
    ensures var procs' := Moved(w, m).procs;
      forall p :: p in w.procs && w.procs[p].Reported? ==> procs'[p] == w.procs[p]
  {
  }

  // ---------- Whole runs ----------

  /** Everything above; what depends on how the directory looked at first is conditional on it. */
  ghost predicate Good(cfg: Config, start: Disk, w: World) {
    && (!start.choice.Garbled? ==> ChoiceInv(start.choice.Holds?, w))
    && BootInv(w.boots, w.disk.lastEscape, Escapes(w.log))
    && RateInv(cfg, w.disk.lastEscape, Escapes(w.log), CrashTimes(w.log))
    && (start.histories == map[] ==> PaidInv(cfg, w) && CountInv(cfg, w))
    && FileInv(cfg, start, w)
    && ReportInv(w)
  }

  lemma GoodStep(cfg: Config, start: Disk, w: World, a: Atomic)
    requires Good(cfg, start, w) && AtomicCan(w, a)
    ensures Good(cfg, start, AtomicNext(cfg, w, a))
  {
    var w' := AtomicNext(cfg, w, a);
    assert !start.choice.Garbled? ==> ChoiceInv(start.choice.Holds?, w') by {
      if !start.choice.Garbled? { ChoiceStep(cfg, start.choice.Holds?, w, a); }
    }
    BootStep(cfg, w, a);
    RateStep(cfg, w, a);
    assert start.histories == map[] ==> PaidInv(cfg, w') && CountInv(cfg, w') by {
      if start.histories == map[] {
        PaidStep(cfg, w, a);
        CountStep(cfg, w, a);
      }
    }
    FileStep(cfg, start, w, a);
    ReportStep(cfg, w, a);
    hide FileInv;
    hide ReportInv;
    hide RateInv;
    hide BootInv;
    hide PaidInv;
    hide CountInv;
    hide ChoiceInv;
    hide AtomicNext;
  }

  lemma {:induction false} GoodRun(cfg: Config, start: Disk, w: World, run: seq<Atomic>)
    requires Good(cfg, start, w) && AtomicRun(cfg, w, run)
    ensures Good(cfg, start, AtomicEnd(cfg, w, run))
    decreases |run|
  {
    if run == [] {
    } else {
      GoodStep(cfg, start, w, run[0]);
      GoodRun(cfg, start, AtomicNext(cfg, w, run[0]), run[1..]);
    }
  }

  lemma FreshIsGood(cfg: Config, s: System)
    requires Fresh(s)
    ensures Inv(cfg, s) && Abs(s) == s.w && Good(cfg, s.w.disk, s.w)
  {
    assert SeenAll(s.w.procs) == s.w.procs;
    forall c
      ensures OnFile(cfg, HistoryOf(s.w.disk, c), [], c) == HistoryOf(s.w.disk, c)
    {
      assert Lines([]) == [];
    }
  }

  /** Every state an interleaved run ends in satisfies all of it, seen as an indivisible run. */
  lemma Interleaved(cfg: Config, s: System, run: seq<Label>)
    requires Fresh(s) && Run(cfg, s, run)
    ensures Inv(cfg, End(cfg, s, run))
    ensures Good(cfg, s.w.disk, Abs(End(cfg, s, run)))
  {
    FreshIsGood(cfg, s);
    RunRefines(cfg, s, run);
    GoodRun(cfg, s.w.disk, s.w, Effects(cfg, s, run));
  }

  // ---------- The main results ----------

  lemma {:induction false} FirstsAreFew(log: seq<Event>, i: nat, j: nat)
    requires i < j < |log| && FirstBoot(log[i]) && FirstBoot(log[j])
    ensures Firsts(log) >= 2
  {
    var n := |log| - 1;
    if j < n {
      FirstsAreFew(log[..n], i, j);
    } else {
      FirstsPositive(log[..n], i);
    }
  }

  lemma {:induction false} FirstsPositive(log: seq<Event>, i: nat)
    requires i < |log| && FirstBoot(log[i])
    ensures Firsts(log) >= 1
  {
    if i < |log| - 1 {
      FirstsPositive(log[..|log| - 1], i);
    }
  }

  lemma {:induction false} GivenAt(log: seq<Event>, founder: Allele, i: nat)
    requires AllGiven(log, founder) && i < |log| && GaveAllele(log[i]) && Escapes(log[..i]) == []
    ensures log[i].e.allele == founder
  {
    var n := |log| - 1;
    if i < n {
      assert log[..n][..i] == log[..i];
      GivenAt(log[..n], founder, i);
    }
  }

  /**
   * Once the choice exists it holds an allele. At most one starter is told it is the first
   * boot, and none when there was a choice already. All starters answered before the first
   * escape were given one and the same allele.
   */
  lemma OneCellOneChoice(cfg: Config, s: System, run: seq<Label>)
    requires Fresh(s) && Run(cfg, s, run) && !s.w.disk.choice.Garbled?
    ensures var w := End(cfg, s, run).w;
      && !w.disk.choice.Garbled?
      && (s.w.disk.choice.Holds? ==> w.disk.choice.Holds?)
      && (forall i, j :: 0 <= i < j < |w.log| && FirstBoot(w.log[i]) ==> !FirstBoot(w.log[j]))
      && (s.w.disk.choice.Holds? ==> forall i :: 0 <= i < |w.log| ==> !FirstBoot(w.log[i]))
      && (forall i, j | 0 <= i < j < |w.log| && GaveAllele(w.log[i]) && GaveAllele(w.log[j]) ::
            Escapes(w.log[..i]) == [] && Escapes(w.log[..j]) == [] ==> w.log[i].e.allele == w.log[j].e.allele)
  {
    Interleaved(cfg, s, run);
    var w := End(cfg, s, run).w;
    var seen := Abs(End(cfg, s, run));
    assert seen.disk.choice == w.disk.choice;
    forall i, j | 0 <= i < j < |w.log| && FirstBoot(w.log[i])
      ensures !FirstBoot(w.log[j])
    {
      if FirstBoot(w.log[j]) { FirstsAreFew(w.log, i, j); }
    }
    if s.w.disk.choice.Holds? {
      forall i | 0 <= i < |w.log|
        ensures !FirstBoot(w.log[i])
      {
        if FirstBoot(w.log[i]) { FirstsPositive(w.log, i); }
      }
    }
    var founder := if w.disk.choice.Holds? then Founder(w.disk.choice.allele, |Escapes(w.log)|) else Xm;
    forall i, j | 0 <= i < j < |w.log| && GaveAllele(w.log[i]) && GaveAllele(w.log[j]) &&
                  Escapes(w.log[..i]) == [] && Escapes(w.log[..j]) == []
      ensures w.log[i].e.allele == w.log[j].e.allele
    {
      GivenAt(w.log, founder, i);
      GivenAt(w.log, founder, j);
    }
  }

  /** Only an escape changes a choice, and always to the other allele. */
  lemma OnlyEscapesSwitch(cfg: Config, s: System, l: Label)
    requires Inv(cfg, s) && Can(s, l)
    requires Next(cfg, s, l).w.disk.choice != s.w.disk.choice
    ensures var s' := Next(cfg, s, l);
      || (s.w.disk.choice.Absent? && s'.w.disk.choice.Holds? && s'.w.log == s.w.log)
      || (&& s.w.disk.choice.Holds?
          && s'.w.disk.choice == Holds(Other(s.w.disk.choice.allele))
          && s.lock.Some?
          && |s'.w.log| == |s.w.log| + 1 && IsEscape(s'.w.log[|s.w.log|])
          && s'.w.log[|s.w.log|].pid == s.lock.value)
  {
    if l.Advance? && Effect(cfg, s, l).Some? {
      DecidesAsAtOnce(cfg, s, l.pid);
    }
  }

  /** No two escapes share a boot, whatever the clock does. */
  lemma OneEscapePerBoot(cfg: Config, s: System, run: seq<Label>)
    requires Fresh(s) && Run(cfg, s, run) && KnownBoots(End(cfg, s, run).w.boots)
    ensures var es := Escapes(End(cfg, s, run).w.log);
            forall i, j :: 0 <= i < j < |es| ==> es[i].boot != es[j].boot
  {
    Interleaved(cfg, s, run);
  }

  lemma {:induction false} GapsAddUp(cfg: Config, es: seq<Jump>, i: nat, j: nat)
    requires i <= j < |es| && Spaced(cfg, es)
    ensures Unix(es[j].now) - Unix(es[i].now) >= (j - i) * Apart(cfg)
    decreases j - i
  {
    if i < j {
      GapsAddUp(cfg, es, i, j - 1);
      assert (j - i) * Apart(cfg) == (j - 1 - i) * Apart(cfg) + Apart(cfg);
    }
  }

  lemma {:induction false} FitsInto(n: nat, step: int, span: int)
    requires step > 0 && n * step <= span
    ensures n <= span / step
  {
    var q := span / step;
    assert span < (q + 1) * step;
    if n >= q + 1 {
      MulMono(q + 1, n, step);
    }
  }

  lemma MulMono(a: int, b: int, step: int)
    requires a <= b && step > 0
    ensures a * step <= b * step
  {
  }

  /** From any escape to any later one there are a cooldown for each between; so L seconds hold 1 + L / cooldown. */
  ghost predicate Rare(cfg: Config, es: seq<Jump>) {
    forall i, j | 0 <= i <= j < |es| ::
      && Unix(es[j].now) - Unix(es[i].now) >= (j - i) * Apart(cfg)
      && (Apart(cfg) > 0 ==> j - i + 1 <= 1 + (Unix(es[j].now) - Unix(es[i].now)) / Apart(cfg))
  }

  /**
   * Under a clock that never goes back, escapes are a cooldown apart in recorded seconds, so
   * a span of L seconds holds at most 1 + L / cooldown of them; in real time the gap is less
   * than a second short of the cooldown.
   */
  lemma EscapesAreRare(cfg: Config, s: System, run: seq<Label>)
    requires Fresh(s) && Run(cfg, s, run)
    requires NonDecreasing(CrashTimes(End(cfg, s, run).w.log))
    ensures var es := Escapes(End(cfg, s, run).w.log);
      Spaced(cfg, es) && Rare(cfg, es)
  {
    Interleaved(cfg, s, run);
    var es := Escapes(End(cfg, s, run).w.log);
    SpacedIsRare(cfg, es);
    hide Run;
    hide End;
    hide Good;
    hide Escapes;
    hide Spaced;
    hide Rare;
  }

  lemma SpacedIsRare(cfg: Config, es: seq<Jump>)
    requires Spaced(cfg, es)
    ensures Rare(cfg, es)
  {
    hide Unix;
    hide Apart;
    forall i, j | 0 <= i <= j < |es|
      ensures Unix(es[j].now) - Unix(es[i].now) >= (j - i) * Apart(cfg)
      ensures Apart(cfg) > 0 ==> j - i + 1 <= 1 + (Unix(es[j].now) - Unix(es[i].now)) / Apart(cfg)
    {
      GapsAddUp(cfg, es, i, j);
      if Apart(cfg) > 0 {
        FitsInto(j - i, Apart(cfg), Unix(es[j].now) - Unix(es[i].now));
      }
    }
    hide Spaced;
  }

  /**
   * The cooldown is measured from the start of the second of the escape: an escape at `t`
   * holds the node back exactly until that second plus the cooldown, so up to a second less.
   */
  lemma CooldownStartsAtTheSecond(cfg: Config, t: int, stamped: string, now: int, boot: string)
    requires t <= now && stamped != boot
    ensures StampBlocks(cfg, EscapeStamp(t, stamped), now, boot).Some? <==> now - t < cfg.cooldown - t % SECOND
  {
    assert Unix(t) * SECOND == t - t % SECOND;
  }

  /** An escape at 1.9 s with a cooldown of 10 s no longer holds the node back at 11 s, 9.1 s later. */
  lemma CooldownCanEndEarly()
    ensures var cfg := Config(5, 60 * SECOND, 10 * SECOND);
      var t, now := 19 * SECOND / 10, 11 * SECOND;
      now - t < cfg.cooldown && StampBlocks(cfg, EscapeStamp(t, "boot-1"), now, "boot-2") == None
  {
    assert "boot-1"[5] != "boot-2"[5];
    CooldownStartsAtTheSecond(Config(5, 60 * SECOND, 10 * SECOND), 19 * SECOND / 10, "boot-1", 11 * SECOND, "boot-2");
  }

  /** From an empty history, under any clock, every escape used up its crashes. */
  lemma EscapesArePaidFor(cfg: Config, s: System, run: seq<Label>)
    requires Fresh(s) && Run(cfg, s, run) && s.w.disk.histories == map[]
    ensures var log := End(cfg, s, run).w.log;
            |Escapes(log)| * cfg.escapeCrashes + FreshCrashes(log) <= |CrashTimes(log)|
  {
    Interleaved(cfg, s, run);
  }

  /** Under a clock that never goes back, pruning the file never changes a count. */
  lemma PruningNeverMiscounts(cfg: Config, s: System, run: seq<Label>)
    requires Fresh(s) && Run(cfg, s, run) && s.w.disk.histories == map[]
    requires NonDecreasing(CrashTimes(End(cfg, s, run).w.log))
    ensures CountsFullLog(cfg, End(cfg, s, run).w.log)
  {
    Interleaved(cfg, s, run);
  }

  /** A finished report is in the log exactly once, with its decision; an unfinished one is not. */
  lemma EachReportIsDecidedOnce(cfg: Config, s: System, run: seq<Label>, p: Pid)
    requires Fresh(s) && Run(cfg, s, run) && p in End(cfg, s, run).w.procs
    ensures var w := End(cfg, s, run).w;
      && (w.procs[p].Reported? ==>
            exists now, boot :: ReportsOf(w.log, p) == [Crash(p, w.procs[p].r, now, boot, w.procs[p].d)])
      && (!Critical(w.procs[p]) && !w.procs[p].Reported? ==> ReportsOf(w.log, p) == [])
  {
    Interleaved(cfg, s, run);
    var w := Abs(End(cfg, s, run));
    assert w.procs[p] == Seen(End(cfg, s, run).w.procs[p]);
  }

  /**
   * Under any clock and from any directory: whenever nobody is inside, a component's history
   * file is what survived of its first contents and then every report that stands, each once
   * and in order. So no report overwrites another: only an escape forgets it, or a later
   * report of its component whose window does not reach it.
   */
  lemma NoReportIsLost(cfg: Config, s: System, run: seq<Label>, c: string)
    requires Fresh(s) && Run(cfg, s, run) && End(cfg, s, run).lock.None?
    ensures var w := End(cfg, s, run).w;
      && HistoryOf(w.disk, c) == Survivors(cfg, HistoryOf(s.w.disk, c), w.log, c) + Lines(Standing(cfg, w.log, c))
      && (forall i: nat :: Stands(cfg, w.log, c, i) ==> Some(Unix(w.log[i].now)) in HistoryOf(w.disk, c))
  {
    Interleaved(cfg, s, run);
    var w := End(cfg, s, run).w;
    assert Abs(End(cfg, s, run)).disk == w.disk;
    var file := HistoryOf(w.disk, c);
    assert file == OnFile(cfg, HistoryOf(s.w.disk, c), w.log, c);
    hide Run;
    hide End;
    hide Good;
    forall i: nat | Stands(cfg, w.log, c, i)
      ensures Some(Unix(w.log[i].now)) in file
    {
      StandingHas(cfg, w.log, c, i, |w.log|);
      var standing := Standing(cfg, w.log, c);
      var k :| 0 <= k < |standing| && standing[k] == Unix(w.log[i].now);
      assert Lines(standing)[k] == Some(standing[k]);
      assert Lines(standing)[k] in file;
    }
  }

  lemma {:induction false} CountedAt(cfg: Config, start: Disk, log: seq<Event>, i: nat)
    requires CountsTheFile(cfg, start, log) && i < |log| && log[i].Crash?
    ensures var c := log[i].r.component;
      log[i].d.crashes == |Recent(OnFile(cfg, HistoryOf(start, c), log[..i], c), log[i].now, cfg.escapeWindow)| + 1
  {
    var n := |log| - 1;
    if i < n {
      assert log[..n][..i] == log[..i];
      CountedAt(cfg, start, log[..n], i);
    }
    hide OnFile;
    hide Recent;
  }

  /** However reports interleave, each counts every report before it that stands and that its window reaches. */
  lemma EachReportCountsTheOthers(cfg: Config, s: System, run: seq<Label>, i: nat)
    requires Fresh(s) && Run(cfg, s, run)
    requires i < |End(cfg, s, run).w.log| && End(cfg, s, run).w.log[i].Crash?
    ensures var log := End(cfg, s, run).w.log;
      var c, now := log[i].r.component, log[i].now;
      log[i].d.crashes ==
      |Recent(Survivors(cfg, HistoryOf(s.w.disk, c), log[..i], c), now, cfg.escapeWindow)| +
      |Recent(Lines(Standing(cfg, log[..i], c)), now, cfg.escapeWindow)| + 1
  {
    Interleaved(cfg, s, run);
    var log := End(cfg, s, run).w.log;
    var c := log[i].r.component;
    CountedAt(cfg, s.w.disk, log, i);
    RecentSplits(Survivors(cfg, HistoryOf(s.w.disk, c), log[..i], c), Lines(Standing(cfg, log[..i], c)),
                 log[i].now, cfg.escapeWindow);
    hide Run;
    hide End;
    hide Good;
    hide Standing;
    hide Survivors;
    hide Recent;
  }

  // ---------- When nodes escape ----------

  /** The i-th entry was decided in this state, and made an escape exactly where the disk there asked for one. */
  ghost predicate DecidedIn(cfg: Config, at: System, log: seq<Event>, i: nat) {
    && i < |log| && log[i].Crash? && at.w.boots != [] && at.w.log == log[..i]
    && log[i].boot == Boot(at.w)
    && var e := log[i];
       e.d.escaped <==> EscapeDue(cfg, at.w.disk, e.r.component, e.r.allele, e.now, e.boot)
  }

  lemma StepLogs(cfg: Config, s: System, l: Label)
    requires Inv(cfg, s) && Can(s, l)
    ensures var log, log' := s.w.log, Next(cfg, s, l).w.log;
      log' == log || (|log'| == |log| + 1 && log' == log + [log'[|log|]] &&
                      (log'[|log|].Crash? ==> DecidedIn(cfg, s, log', |log|)))
  {
    if l.Unlocked? {
      QuietMove(s.w, l.m);
    } else if l.Advance? && Effect(cfg, s, l).Some? {
      DecidesAsAtOnce(cfg, s, l.pid);
      var r, now := s.w.procs[l.pid].r, s.w.procs[l.pid].now;
      EscapesExactlyWhen(cfg, s.w.disk, r.component, r.allele, now, Boot(s.w));
      hide EscapeDue;
      hide Decide;
      hide Noted;
      hide Recorded;
      assert Next(cfg, s, l).w == Advanced(cfg, s.w, l.pid);
      hide Advanced;
    }
  }

  lemma {:induction false} LogOnlyGrows(cfg: Config, s: System, run: seq<Label>)
    requires Inv(cfg, s) && Run(cfg, s, run)
    ensures s.w.log <= End(cfg, s, run).w.log
    decreases |run|
  {
    if run == [] {
    } else {
      StepLogs(cfg, s, run[0]);
      StepRefines(cfg, s, run[0]);
      hide Inv;
      hide Next;
      hide DecidedIn;
      LogOnlyGrows(cfg, Next(cfg, s, run[0]), run[1..]);
    }
  }

  lemma {:induction false} DecidedSomewhere(cfg: Config, s: System, run: seq<Label>, i: nat)
    requires Inv(cfg, s) && Run(cfg, s, run)
    requires |s.w.log| <= i < |End(cfg, s, run).w.log| && End(cfg, s, run).w.log[i].Crash?
    ensures exists k :: 0 <= k < |run| && Run(cfg, s, run[..k]) &&
                        DecidedIn(cfg, End(cfg, s, run[..k]), End(cfg, s, run).w.log, i)
    decreases |run|
  {
    if run == [] {
    } else {
      var next := Next(cfg, s, run[0]);
      StepLogs(cfg, s, run[0]);
      StepRefines(cfg, s, run[0]);
      LogOnlyGrows(cfg, next, run[1..]);
      var log := End(cfg, s, run).w.log;
      hide Inv;
      hide Next;
      hide EscapeDue;
      if |next.w.log| > i {
        assert log[..i] == s.w.log && log[i] == next.w.log[i];
        assert run[..0] == [];
        assert DecidedIn(cfg, End(cfg, s, run[..0]), log, i);
      } else {
        hide DecidedIn;
        DecidedSomewhere(cfg, next, run[1..], i);
        var k :| 0 <= k < |run[1..]| && Run(cfg, next, run[1..][..k]) &&
                 DecidedIn(cfg, End(cfg, next, run[1..][..k]), log, i);
        OneStepSooner(cfg, s, run, k);
      }
    }
  }

  lemma OneStepSooner(cfg: Config, s: System, run: seq<Label>, k: nat)
    requires run != [] && k < |run[1..]| && Can(s, run[0])
    requires Run(cfg, Next(cfg, s, run[0]), run[1..][..k])
    ensures Run(cfg, s, run[..k + 1])
    ensures End(cfg, s, run[..k + 1]) == End(cfg, Next(cfg, s, run[0]), run[1..][..k])
  {
    assert run[..k + 1][0] == run[0] && run[..k + 1][1..] == run[1..][..k];
    hide Next;
    hide Can;
  }

  /**
   * In every interleaving, each report was decided in some state of the run, and it made the
   * node escape exactly where the files of that state asked for it: enough crashes within
   * reach, a choice that holds the reported allele, no upgrade going on, and no last escape in
   * the way. A node that has never escaped has none in its way.
   */
  lemma EscapesHappenWhenDue(cfg: Config, s: System, run: seq<Label>, i: nat)
    requires Fresh(s) && Run(cfg, s, run)
    requires i < |End(cfg, s, run).w.log| && End(cfg, s, run).w.log[i].Crash?
    ensures exists k :: 0 <= k < |run| && Run(cfg, s, run[..k]) &&
                        DecidedIn(cfg, End(cfg, s, run[..k]), End(cfg, s, run).w.log, i)
  {
    FreshIsGood(cfg, s);
    DecidedSomewhere(cfg, s, run, i);
    hide Inv;
    hide DecidedIn;
    hide Good;
  }

  /** What starters are told is so: the choice they read or made, or a refusal for one of the code's three reasons. */
  lemma AnswersAreHonest(w: World, m: Move)
    requires CanMove(w, m) && (m.Step? || m.Pick?)
    ensures var w' := Moved(w, m);
      var pc := w.procs[m.pid];
      && ((pc.Starting? || pc.Losing?) && w.disk.choice.Holds? ==>
            w'.log == w.log + [Answer(m.pid, Expressed(w.disk.choice.allele, false))])
      && ((pc.Starting? || pc.Losing?) && w.disk.choice.Garbled? ==> w'.log == w.log + [Answer(m.pid, Refused)])
      && (pc.Losing? && w.disk.choice.Absent? ==> w'.log == w.log + [Answer(m.pid, Refused)])
      && (pc.Starting? && w.disk.choice.Absent? ==> w'.procs[m.pid] == Choosing && w'.log == w.log)
      && (m.Pick? && m.random.None? ==> w'.log == w.log + [Answer(m.pid, Refused)])
      && (m.Pick? && m.random.Some? ==> w'.procs[m.pid] == Linking(m.random.value))
      && (pc.Linking? && w.disk.choice.Absent? ==>
            w'.disk.choice == Holds(pc.pick) && w'.procs[m.pid] == Winning(pc.pick))
      && (pc.Linking? && !w.disk.choice.Absent? ==> w'.disk == w.disk && w'.procs[m.pid] == Losing)
      && (pc.Winning? ==> w'.log == w.log + [Answer(m.pid, Expressed(pc.pick, true))])
      && (pc.Watching? ==> w'.log == w.log + [Glance(m.pid, w.disk.choice)] && w'.procs == w.procs)
      && (!pc.Linking? ==> w'.disk == w.disk)
  {
  }
}
