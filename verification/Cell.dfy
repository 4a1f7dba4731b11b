/**
 * The files that say which allele a node expresses, and what is done to them: founding the
 * choice, and noting a crash, which at times turns the choice over.
 */
module Cell {
  import opened Base

  datatype Allele = Xm | Xp

  function Other(a: Allele): Allele {
    if a == Xm then Xp else Xm
  }

  /** The choice file: missing, holding anything but an allele, or holding one. */
  datatype Choice = Absent | Garbled | Holds(allele: Allele)

  /** One line of a history file; None when it does not parse as a number. */
  type Line = Option<int>

  /** The files that clearing forgets: crash histories, and start histories of older releases. */
  datatype HistoryFile = Crashes(component: string) | Starts(component: string)

  /** The last-escape file: a second and, where it was known, the boot of the escape. */
  datatype Stamp = NoStamp | Stamp(sec: Option<int>, boot: Option<string>)

  datatype Disk = Disk(choice: Choice, histories: map<HistoryFile, seq<Line>>, lastEscape: Stamp, upgrading: bool)

  datatype Config = Config(escapeCrashes: int, escapeWindow: int, cooldown: int)

  /** Why a crash did or did not make the node escape. */
  datatype Reason =
    | TooFewCrashes
    | UnreadableChoice
    | AlreadySwitched
    | Upgrading
    | AlreadyEscapedThisBoot
    | CoolingDown
    | CrashLoop

  datatype Decision = Decision(crashes: nat, escaped: bool, to: Allele, reason: Reason)

  // ---------- What each operation should do, as functions of the disk ----------

  /** A recorded second counts when it is not in the future and not older than the window. */
  predicate InWindow(sec: int, now: int, window: int) {
    sec * SECOND <= now && now - sec * SECOND <= window
  }

  /** The recorded seconds of a history file that count at `now`, in order. */
  function Recent(lines: seq<Line>, now: int, window: int): seq<int> {
    if lines == [] then []
    else
      var last := lines[|lines| - 1];
      Recent(lines[..|lines| - 1], now, window) +
      (if last.Some? && InWindow(last.value, now, window) then [last.value] else [])
  }

  function Lines(secs: seq<int>): seq<Line> {
    seq(|secs|, i requires 0 <= i < |secs| => Some(secs[i]))
  }

  function HistoryOf(disk: Disk, component: string): seq<Line> {
    if Crashes(component) in disk.histories then disk.histories[Crashes(component)] else []
  }

  /** What the crash history holds once the crash at `now` is noted. */
  function Noted(cfg: Config, disk: Disk, component: string, now: int): (ts: seq<int>)
    ensures |ts| > 0
  {
    Recent(HistoryOf(disk, component), now, cfg.escapeWindow) + [Unix(now)]
  }

  /** What holds an escape back at `now`, if anything does. */
  function EscapeBlocked(cfg: Config, disk: Disk, now: int, boot: string): Option<Reason> {
    if disk.upgrading then Some(Upgrading)
    else StampBlocks(cfg, disk.lastEscape, now, boot)
  }

  function StampBlocks(cfg: Config, stamp: Stamp, now: int, boot: string): Option<Reason> {
    if stamp.NoStamp? then None
    else if stamp.boot == Some(boot) then Some(AlreadyEscapedThisBoot)
    else if stamp.sec.None? then None
    else if stamp.sec.value * SECOND <= now && now - stamp.sec.value * SECOND < cfg.cooldown then Some(CoolingDown)
    else None
  }

  /** What an escape writes to the last-escape file; an unknown boot ("") is left out. */
  function EscapeStamp(now: int, boot: string): Stamp {
    Stamp(Some(Unix(now)), if boot == "" then None else Some(boot))
  }

  /** The decision about a crash, read off the disk in one glance. */
  function Decide(cfg: Config, disk: Disk, component: string, allele: Allele, now: int, boot: string): Decision {
    var n := |Noted(cfg, disk, component, now)|;
    if n < cfg.escapeCrashes then Decision(n, false, allele, TooFewCrashes)
    else if !disk.choice.Holds? then Decision(n, false, allele, UnreadableChoice)
    else if disk.choice.allele != allele then Decision(n, false, disk.choice.allele, AlreadySwitched)
    else match EscapeBlocked(cfg, disk, now, boot)
      case Some(why) => Decision(n, false, allele, why)
      case None => Decision(n, true, Other(allele), CrashLoop)
  }

  /** The disk after recording a crash in one indivisible step. */
  function Recorded(cfg: Config, disk: Disk, component: string, allele: Allele, now: int, boot: string): Disk {
    var d := Decide(cfg, disk, component, allele, now, boot);
    if d.escaped then
      disk.(choice := Holds(d.to), lastEscape := EscapeStamp(now, boot), histories := map[])
    else
      disk.(histories := disk.histories[Crashes(component) := Lines(Noted(cfg, disk, component, now))])
  }

  // ---------- Facts about histories ----------

  lemma {:induction false} RecentSplits(a: seq<Line>, b: seq<Line>, now: int, window: int)
    ensures Recent(a + b, now, window) == Recent(a, now, window) + Recent(b, now, window)
  {
    if b == [] {
      assert a + b == a;
    } else {
      var n := |b| - 1;
      assert (a + b)[..|a + b| - 1] == a + b[..n];
      RecentSplits(a, b[..n], now, window);
    }
  }

  /** Reading back what formatting wrote gives the seconds that still count. */
  lemma {:induction false} RecentOfLines(secs: seq<int>, sec: int, now: int, window: int)
    ensures Recent(Lines(secs + [sec]), now, window) ==
            Recent(Lines(secs), now, window) + (if InWindow(sec, now, window) then [sec] else [])
  {
    assert Lines(secs + [sec])[..|secs|] == Lines(secs);
  }

  /** Pruning at one moment loses nothing a later moment would count. */
  lemma {:induction false} PruningIsLossless(lines: seq<Line>, now: int, later: int, window: int)
    requires now <= later
    requires forall i :: 0 <= i < |lines| && lines[i].Some? ==> lines[i].value * SECOND <= now
    ensures Recent(Lines(Recent(lines, now, window)), later, window) == Recent(lines, later, window)
  {
    if lines != [] {
      var n := |lines| - 1;
      var last := lines[n];
      PruningIsLossless(lines[..n], now, later, window);
      if last.Some? && InWindow(last.value, now, window) {
        RecentOfLines(Recent(lines[..n], now, window), last.value, later, window);
      } else {
        assert Recent(lines, now, window) == Recent(lines[..n], now, window);
      }
    } else {
      assert Lines([]) == [];
    }
  }

  // ---------- When a node escapes, in terms of what is on disk ----------

  /** The lines that a crash at `now` is counted with: none from the future, none older than the window. */
  ghost function Reached(lines: seq<Line>, now: int, window: int): set<nat> {
    set i: nat | i < |lines| && lines[i].Some? &&
                 lines[i].value * SECOND <= now && now <= lines[i].value * SECOND + window
  }

  lemma {:induction false} RecentCounts(lines: seq<Line>, now: int, window: int)
    ensures |Recent(lines, now, window)| == |Reached(lines, now, window)|
  {
    if lines == [] {
    } else {
      var n := |lines| - 1;
      RecentCounts(lines[..n], now, window);
      var before, after := Reached(lines[..n], now, window), Reached(lines, now, window);
      assert forall i :: 0 <= i < n ==> lines[..n][i] == lines[i];
      if n in after {
        assert after == before + {n};
      } else {
        assert after == before;
      }
    }
  }

  /** Enough crashes within reach of this one, itself included. */
  ghost predicate Enough(cfg: Config, disk: Disk, component: string, now: int) {
    var file := Crashes(component);
    var lines := if file in disk.histories then disk.histories[file] else [];
    |Reached(lines, now, cfg.escapeWindow)| + 1 >= cfg.escapeCrashes
  }

  /** The last escape, if there was one, was in another boot, and is unreadable, in the future or long enough ago. */
  ghost predicate Rested(cfg: Config, stamp: Stamp, now: int, boot: string) {
    stamp.Stamp? ==>
      && stamp.boot != Some(boot)
      && (stamp.sec.Some? ==> stamp.sec.value * SECOND > now || now >= stamp.sec.value * SECOND + cfg.cooldown)
  }

  /** Everything an escape takes. */
  ghost predicate EscapeDue(cfg: Config, disk: Disk, component: string, allele: Allele, now: int, boot: string) {
    && Enough(cfg, disk, component, now)
    && disk.choice == Holds(allele)
    && !disk.upgrading
    && Rested(cfg, disk.lastEscape, now, boot)
  }

  /** What a crash leaves on disk where it makes the node escape: the other allele, the stamp and no history. */
  ghost predicate HasEscaped(before: Disk, after: Disk, allele: Allele, now: int, boot: string) {
    && after.choice == Holds(if allele == Xm then Xp else Xm)
    && after.lastEscape == Stamp(Some(now / SECOND), if boot == "" then None else Some(boot))
    && after.histories == map[]
    && after.upgrading == before.upgrading
  }

  /** And where it does not: one more line in the component's history, behind the lines within reach. */
  ghost predicate HasNoted(cfg: Config, before: Disk, after: Disk, component: string, now: int) {
    var file := Crashes(component);
    && after == before.(histories := after.histories)
    && file in after.histories && after.histories - {file} == before.histories - {file}
    && after.histories[file] != [] && after.histories[file][|after.histories[file]| - 1] == Some(now / SECOND)
    && |after.histories[file]| ==
       |Reached(if file in before.histories then before.histories[file] else [], now, cfg.escapeWindow)| + 1
  }

  /** A crash makes the node escape exactly when an escape is due, and then does all of it, and otherwise none. */
  lemma EscapesExactlyWhen(cfg: Config, disk: Disk, component: string, allele: Allele, now: int, boot: string)
    ensures var d := Decide(cfg, disk, component, allele, now, boot);
      var after := Recorded(cfg, disk, component, allele, now, boot);
      && (d.escaped <==> EscapeDue(cfg, disk, component, allele, now, boot))
      && (if d.escaped then HasEscaped(disk, after, allele, now, boot) else HasNoted(cfg, disk, after, component, now))
  {
    RecentCounts(HistoryOf(disk, component), now, cfg.escapeWindow);
    hide Recent;
    hide Reached;
  }

  /** What a report is told: how many crashes count, what the node expresses now, and why. */
  lemma DecisionSays(cfg: Config, disk: Disk, component: string, allele: Allele, now: int, boot: string)
    ensures var d := Decide(cfg, disk, component, allele, now, boot);
      var file := Crashes(component);
      var lines := if file in disk.histories then disk.histories[file] else [];
      && d.crashes == |Reached(lines, now, cfg.escapeWindow)| + 1
      && (d.reason == TooFewCrashes <==> !Enough(cfg, disk, component, now))
      && (d.reason == UnreadableChoice <==> Enough(cfg, disk, component, now) && !disk.choice.Holds?)
      && (d.reason == AlreadySwitched <==>
            Enough(cfg, disk, component, now) && disk.choice.Holds? && disk.choice.allele != allele)
      && (d.reason == CrashLoop <==> d.escaped)
      && (d.reason in {Upgrading, AlreadyEscapedThisBoot, CoolingDown} ==> disk.choice == Holds(allele))
      && (d.reason == Upgrading ==> disk.upgrading)
      && (d.reason == AlreadyEscapedThisBoot ==> disk.lastEscape.Stamp? && disk.lastEscape.boot == Some(boot))
      && (d.reason == CoolingDown ==>
            && disk.lastEscape.Stamp? && disk.lastEscape.boot != Some(boot) && disk.lastEscape.sec.Some?
            && var s := disk.lastEscape.sec.value * SECOND; s <= now < s + cfg.cooldown)
      && d.to == (if d.escaped then (if allele == Xm then Xp else Xm)
                  else if d.reason == AlreadySwitched then disk.choice.allele else allele)
  {
    RecentCounts(HistoryOf(disk, component), now, cfg.escapeWindow);
    hide Recent;
    hide Reached;
  }

  // ---------- The operations, step by step ----------

  datatype Expression = Expressed(allele: Allele, firstBoot: bool) | Refused

  /** One node's state directory. The files are fields; each method is one run of the code. */
  class StateDir {
    const cfg: Config
    var choice: Choice
    var histories: map<HistoryFile, seq<Line>>
    var lastEscape: Stamp
    var upgrading: bool

    constructor (cfg: Config)
      ensures this.cfg == cfg && State() == Disk(Absent, map[], NoStamp, false)
    {
      this.cfg := cfg;
      choice, histories, lastEscape, upgrading := Absent, map[], NoStamp, false;
    }

    function State(): Disk
      reads this
    {
      Disk(choice, histories, lastEscape, upgrading)
    }

    /** link(2): publishes the choice unless one exists already. */
    method Link(pick: Allele) returns (linked: bool)
      modifies this`choice
      ensures linked <==> old(choice).Absent?
      ensures choice == if linked then Holds(pick) else old(choice)
    {
      linked := choice.Absent?;
      if linked {
        choice := Holds(pick);
      }
    }

    /** Another starter of the same node may publish its own pick at any moment. */
    method Rival(pick: Option<Allele>)
      modifies this`choice
      ensures choice == if pick.Some? && old(choice).Absent? then Holds(pick.value) else old(choice)
    {
      if pick.Some? {
        var _ := Link(pick.value);
      }
    }

    /**
     * What a starter is told to express; `random` is what it would found the choice with. `rival` is the pick
     * that another starter publishes between our look and our link, if one does.
     */
    method Express(random: Option<Allele>, rival: Option<Allele>) returns (e: Expression)
      modifies this`choice
      ensures match old(choice)
        case Holds(a) => e == Expressed(a, false) && choice == old(choice)
        case Garbled => e == Refused && choice == old(choice)
        case Absent =>
          if random.None? then e == Refused && choice == old(choice)
          else choice.Holds? && e == Expressed(choice.allele, rival.None?) &&
               choice.allele == (if rival.Some? then rival.value else random.value)
    {
      if choice.Holds? {
        return Expressed(choice.allele, false);
      } else if choice.Garbled? || random.None? {
        return Refused;
      }
      Rival(rival);
      var linked := Link(random.value);
      if !linked {
        return if choice.Holds? then Expressed(choice.allele, false) else Refused;
      }
      return Expressed(random.value, true);
    }

    /** Reads one history file, as far as it counts at `now`. */
    method RecentCrashes(file: HistoryFile, now: int) returns (out: seq<int>)
      ensures out == Recent(if file in histories then histories[file] else [], now, cfg.escapeWindow)
    {
      out := [];
      if file !in histories {
        return;
      }
      var lines := histories[file];
      for i := 0 to |lines|
        invariant out == Recent(lines[..i], now, cfg.escapeWindow)
      {
        assert lines[..i + 1][..i] == lines[..i];
        if lines[i].Some? {
          var sec := lines[i].value;
          if !(sec * SECOND > now || now - sec * SECOND > cfg.escapeWindow) {
            out := out + [sec];
          }
        }
      }
      assert lines[..|lines|] == lines;
    }

    /** Forgets every history, file by file. */
    method ClearHistories()
      modifies this`histories
      ensures histories == map[]
    {
      while histories.Keys != {}
        decreases |histories.Keys|
      {
        var file :| file in histories.Keys;
        var rest := histories - {file};
        assert rest.Keys == histories.Keys - {file};
        histories := rest;
      }
    }

    method BlockedBy(now: int, boot: string) returns (why: Option<Reason>)
      ensures why == EscapeBlocked(cfg, State(), now, boot)
    {
      if upgrading {
        return Some(Upgrading);
      }
      match lastEscape {
        case NoStamp => return None;
        case Stamp(sec, stamped) =>
          if stamped == Some(boot) {
            return Some(AlreadyEscapedThisBoot);
          }
          if sec.Some? && !(sec.value * SECOND > now) && now - sec.value * SECOND < cfg.cooldown {
            return Some(CoolingDown);
          }
          return None;
      }
    }

    /** What a crash reporter does between taking and releasing the lock. */
    method RecordCrash(component: string, allele: Allele, now: int, boot: string) returns (d: Decision)
      modifies this
      ensures d == Decide(cfg, old(State()), component, allele, now, boot)
      ensures State() == Recorded(cfg, old(State()), component, allele, now, boot)
      ensures d.escaped <==> EscapeDue(cfg, old(State()), component, allele, now, boot)
      ensures if d.escaped then HasEscaped(old(State()), State(), allele, now, boot)
              else HasNoted(cfg, old(State()), State(), component, now)
    {
      EscapesExactlyWhen(cfg, State(), component, allele, now, boot);
      hide EscapeDue;
      hide HasEscaped;
      hide HasNoted;
      var history := Crashes(component);
      var recent := RecentCrashes(history, now);
      recent := recent + [Unix(now)];
      d := Decision(|recent|, false, allele, TooFewCrashes);
      if |recent| < cfg.escapeCrashes {
        histories := histories[history := Lines(recent)];
        return;
      }
      if !choice.Holds? {
        d := d.(reason := UnreadableChoice);
        histories := histories[history := Lines(recent)];
        return;
      }
      if choice.allele != allele {
        d := d.(to := choice.allele, reason := AlreadySwitched);
        histories := histories[history := Lines(recent)];
        return;
      }
      var why := BlockedBy(now, boot);
      if why.Some? {
        d := d.(reason := why.value);
        histories := histories[history := Lines(recent)];
        return;
      }
      var to := Other(allele);
      choice := Holds(to);
      d := d.(escaped := true, to := to, reason := CrashLoop);
      lastEscape := Stamp(Some(Unix(now)), if boot != "" then Some(boot) else None);
      ClearHistories();
    }
  }
}
