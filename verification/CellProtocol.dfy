/**
 * Many processes share one state directory: starters that choose or read the allele
 * without a lock, supervisors that glance at the choice without a lock, and crash reporters
 * that run a read-check-write under a lock. Two machines are defined here over the same
 * processes: one in which a crash report takes a step per system call, and one in which it
 * is a single indivisible step. The first refines the second.
 */
module CellProtocol {
  import opened Base
  import opened Cell

  type Pid = nat

  datatype Report = Report(component: string, allele: Allele)

  /** Where a process is. */
  datatype Pc =
    // A starter (Expressed)
    | Starting
    | Choosing
    | Linking(pick: Allele)
    | Losing
    | Winning(pick: Allele)
    | Returned(e: Expression)
    // A supervisor polling the choice
    | Watching
    // A crash reporter (RecordCrash): before, inside and after its critical section
    | Waiting(r: Report)
    | Locked(r: Report)
    | Timed(r: Report, now: int)
    | Counted(r: Report, now: int, ts: seq<int>)
    | Matched(r: Report, now: int, ts: seq<int>)
    | Unflagged(r: Report, now: int, ts: seq<int>)
    | Renaming(r: Report, now: int, ts: seq<int>)
    | Stamping(r: Report, now: int, d: Decision)
    | Clearing(r: Report, d: Decision)
    | Writing(r: Report, ts: seq<int>, d: Decision)
    | Unlocking(r: Report, d: Decision)
    | Reported(r: Report, d: Decision)
    // Killed, or gone with a reboot
    | Dead

  predicate Critical(pc: Pc) {
    pc.Locked? || pc.Timed? || pc.Counted? || pc.Matched? || pc.Unflagged? || pc.Renaming? ||
    pc.Stamping? || pc.Clearing? || pc.Writing? || pc.Unlocking?
  }

  predicate Ended(pc: Pc) {
    pc.Returned? || pc.Reported? || pc.Dead?
  }

  /** The ghost log: every decided crash report, every answer to a starter, every glance. */
  datatype Event =
    | Crash(pid: Pid, r: Report, now: int, boot: string, d: Decision)
    | Answer(pid: Pid, e: Expression)
    | Glance(pid: Pid, seen: Choice)

  /** What both machines share. `boots` lists the boots so far; the last one is running. */
  datatype World = World(disk: Disk, boots: seq<string>, procs: map<Pid, Pc>, log: seq<Event>)

  function Boot(w: World): string
    requires w.boots != []
  {
    w.boots[|w.boots| - 1]
  }

  // ---------- Moves outside the lock, common to both machines ----------

  datatype Move =
    | Spawn(pid: Pid, pc: Pc)
    | Step(pid: Pid)
    | Pick(pid: Pid, random: Option<Allele>)
    | Kill(pid: Pid)
    | SetUpgrading(on: bool)
    | Reboot(boot: string)

  predicate CanMove(w: World, m: Move) {
    match m
    case Spawn(p, pc) => p !in w.procs && (pc.Starting? || pc.Watching? || pc.Waiting?)
    case Step(p) => p in w.procs &&
                    var pc := w.procs[p]; (pc.Starting? || pc.Linking? || pc.Losing? || pc.Winning? || pc.Watching?)
    case Pick(p, _) => p in w.procs && w.procs[p].Choosing?
    case Kill(p) => p in w.procs && !Ended(w.procs[p]) && !Critical(w.procs[p])
    case SetUpgrading(_) => true
    case Reboot(_) => true
  }

  function Answered(w: World, p: Pid, e: Expression): World {
    w.(procs := w.procs[p := Returned(e)], log := w.log + [Answer(p, e)])
  }

  function Gone(procs: map<Pid, Pc>): map<Pid, Pc> {
    map p | p in procs :: if Ended(procs[p]) then procs[p] else Dead
  }

  function Moved(w: World, m: Move): World
    requires CanMove(w, m)
  {
    match m
    case Spawn(p, pc) => w.(procs := w.procs[p := pc])
    case Pick(p, random) =>
      if random.None? then Answered(w, p, Refused) else w.(procs := w.procs[p := Linking(random.value)])
    case Kill(p) => w.(procs := w.procs[p := Dead])
    case SetUpgrading(on) => w.(disk := w.disk.(upgrading := on))
    case Reboot(boot) => w.(boots := w.boots + [boot], procs := Gone(w.procs))
    case Step(p) =>
      match w.procs[p]
      case Linking(pick) =>
        if w.disk.choice.Absent? then
          w.(disk := w.disk.(choice := Holds(pick)), procs := w.procs[p := Winning(pick)])
        else
          w.(procs := w.procs[p := Losing])
      case Winning(pick) => Answered(w, p, Expressed(pick, true))
      case Watching => w.(log := w.log + [Glance(p, w.disk.choice)])
      case pc =>
        // Starting or Losing: read the choice
        match w.disk.choice
        case Holds(a) => Answered(w, p, Expressed(a, false))
        case Garbled => Answered(w, p, Refused)
        case Absent => if pc.Starting? then w.(procs := w.procs[p := Choosing]) else Answered(w, p, Refused)
  }

  // ---------- The machine with indivisible crash reports ----------

  datatype Atomic = Shared(m: Move) | RecordCrash(pid: Pid, now: int)

  predicate AtomicCan(w: World, a: Atomic) {
    && w.boots != []
    && match a
       case Shared(m) => CanMove(w, m)
       case RecordCrash(p, _) => p in w.procs && w.procs[p].Waiting?
  }

  function AtomicNext(cfg: Config, w: World, a: Atomic): World
    requires AtomicCan(w, a)
  {
    match a
    case Shared(m) => Moved(w, m)
    case RecordCrash(p, now) =>
      var r := w.procs[p].r;
      var d := Decide(cfg, w.disk, r.component, r.allele, now, Boot(w));
      w.(disk := Recorded(cfg, w.disk, r.component, r.allele, now, Boot(w)),
         procs := w.procs[p := Reported(r, d)],
         log := w.log + [Crash(p, r, now, Boot(w), d)])
  }

  predicate AtomicRun(cfg: Config, w: World, run: seq<Atomic>)
    decreases |run|
  {
    run == [] || (AtomicCan(w, run[0]) && AtomicRun(cfg, AtomicNext(cfg, w, run[0]), run[1..]))
  }

  function AtomicEnd(cfg: Config, w: World, run: seq<Atomic>): World
    requires AtomicRun(cfg, w, run)
    decreases |run|
  {
    if run == [] then w else AtomicEnd(cfg, AtomicNext(cfg, w, run[0]), run[1..])
  }

  // ---------- The machine with a step per system call ----------

  datatype System = System(w: World, lock: Option<Pid>)

  datatype Label =
    | Unlocked(m: Move)                       // anything that needs no lock
    | Acquire(pid: Pid)                       // flock
    | ReadClock(pid: Pid, now: int)
    | Advance(pid: Pid)                       // the next system call of the critical section
    | Forget(pid: Pid, file: HistoryFile)     // remove one history file

  /** The assumptions on the environment: no flag change and no reboot inside a critical section. */
  predicate Can(s: System, l: Label) {
    && s.w.boots != []
    && match l
       case Unlocked(m) => CanMove(s.w, m) && (m.SetUpgrading? || m.Reboot? ==> s.lock.None?)
       case Acquire(p) => p in s.w.procs && s.w.procs[p].Waiting? && s.lock.None?
       case ReadClock(p, _) => p in s.w.procs && s.w.procs[p].Locked?
       case Forget(p, file) => p in s.w.procs && s.w.procs[p].Clearing? && file in s.w.disk.histories
       case Advance(p) => p in s.w.procs && var pc := s.w.procs[p];
                          && Critical(pc) && !pc.Locked? && (pc.Clearing? ==> s.w.disk.histories == map[])
  }

  function Goto(w: World, p: Pid, pc: Pc): World {
    w.(procs := w.procs[p := pc])
  }

  /** The report is decided without an escape; its history is still to be written. */
  function Conclude(w: World, p: Pid, r: Report, now: int, ts: seq<int>, d: Decision): World
    requires w.boots != []
  {
    w.(procs := w.procs[p := Writing(r, ts, d)], log := w.log + [Crash(p, r, now, Boot(w), d)])
  }

  function Advanced(cfg: Config, w: World, p: Pid): World
    requires w.boots != [] && p in w.procs && Critical(w.procs[p]) && !w.procs[p].Locked? && !w.procs[p].Unlocking?
  {
    match w.procs[p]
    case Timed(r, now) =>
      var ts := Noted(cfg, w.disk, r.component, now);
      if |ts| < cfg.escapeCrashes then Conclude(w, p, r, now, ts, Decision(|ts|, false, r.allele, TooFewCrashes))
      else Goto(w, p, Counted(r, now, ts))
    case Counted(r, now, ts) =>
      if !w.disk.choice.Holds? then Conclude(w, p, r, now, ts, Decision(|ts|, false, r.allele, UnreadableChoice))
      else if w.disk.choice.allele != r.allele then
        Conclude(w, p, r, now, ts, Decision(|ts|, false, w.disk.choice.allele, AlreadySwitched))
      else Goto(w, p, Matched(r, now, ts))
    case Matched(r, now, ts) =>
      if w.disk.upgrading then Conclude(w, p, r, now, ts, Decision(|ts|, false, r.allele, Upgrading))
      else Goto(w, p, Unflagged(r, now, ts))
    case Unflagged(r, now, ts) =>
      (match StampBlocks(cfg, w.disk.lastEscape, now, Boot(w))
       case Some(why) => Conclude(w, p, r, now, ts, Decision(|ts|, false, r.allele, why))
       case None => Goto(w, p, Renaming(r, now, ts)))
    case Renaming(r, now, ts) =>
      var d := Decision(|ts|, true, Other(r.allele), CrashLoop);
      w.(disk := w.disk.(choice := Holds(d.to)),
         procs := w.procs[p := Stamping(r, now, d)],
         log := w.log + [Crash(p, r, now, Boot(w), d)])
    case Stamping(r, now, d) =>
      w.(disk := w.disk.(lastEscape := EscapeStamp(now, Boot(w))), procs := w.procs[p := Clearing(r, d)])
    case Clearing(r, d) => Goto(w, p, Unlocking(r, d))
    case Writing(r, ts, d) =>
      w.(disk := w.disk.(histories := w.disk.histories[Crashes(r.component) := Lines(ts)]),
         procs := w.procs[p := Unlocking(r, d)])
  }

  function Next(cfg: Config, s: System, l: Label): System
    requires Can(s, l)
  {
    match l
    case Unlocked(m) => s.(w := Moved(s.w, m))
    case Acquire(p) => System(Goto(s.w, p, Locked(s.w.procs[p].r)), Some(p))
    case ReadClock(p, now) => s.(w := Goto(s.w, p, Timed(s.w.procs[p].r, now)))
    case Forget(p, file) => s.(w := s.w.(disk := s.w.disk.(histories := s.w.disk.histories - {file})))
    case Advance(p) =>
      if s.w.procs[p].Unlocking? then
        System(Goto(s.w, p, Reported(s.w.procs[p].r, s.w.procs[p].d)), None)
      else
        s.(w := Advanced(cfg, s.w, p))
  }

  predicate Run(cfg: Config, s: System, run: seq<Label>)
    decreases |run|
  {
    run == [] || (Can(s, run[0]) && Run(cfg, Next(cfg, s, run[0]), run[1..]))
  }

  function End(cfg: Config, s: System, run: seq<Label>): System
    requires Run(cfg, s, run)
    decreases |run|
  {
    if run == [] then s else End(cfg, Next(cfg, s, run[0]), run[1..])
  }

  /** Before anything runs: nobody holds the lock, and the directory may hold anything. */
  predicate Fresh(s: System) {
    s.lock.None? && s.w.procs == map[] && s.w.log == [] && |s.w.boots| == 1
  }

  // ---------- The refinement ----------

  /** What the lock holder has learned is still so. */
  ghost predicate HolderOk(cfg: Config, w: World, pc: Pc)
    requires w.boots != []
  {
    match pc
    case Counted(r, now, ts) => ts == Noted(cfg, w.disk, r.component, now) && |ts| >= cfg.escapeCrashes
    case Matched(r, now, ts) =>
      && ts == Noted(cfg, w.disk, r.component, now) && |ts| >= cfg.escapeCrashes
      && w.disk.choice == Holds(r.allele)
    case Unflagged(r, now, ts) =>
      && ts == Noted(cfg, w.disk, r.component, now) && |ts| >= cfg.escapeCrashes
      && w.disk.choice == Holds(r.allele) && !w.disk.upgrading
    case Renaming(r, now, ts) =>
      && ts == Noted(cfg, w.disk, r.component, now) && |ts| >= cfg.escapeCrashes
      && w.disk.choice == Holds(r.allele) && EscapeBlocked(cfg, w.disk, now, Boot(w)).None?
    case _ => true
  }

  ghost predicate Inv(cfg: Config, s: System) {
    && s.w.boots != []
    && (forall p :: p in s.w.procs ==> (Critical(s.w.procs[p]) <==> s.lock == Some(p)))
    && (s.lock.Some? ==> s.lock.value in s.w.procs && HolderOk(cfg, s.w, s.w.procs[s.lock.value]))
  }

  /** How a process looks when crash reports are indivisible. */
  function Seen(pc: Pc): Pc {
    match pc
    case Locked(r) => Waiting(r)
    case Timed(r, _) => Waiting(r)
    case Counted(r, _, _) => Waiting(r)
    case Matched(r, _, _) => Waiting(r)
    case Unflagged(r, _, _) => Waiting(r)
    case Renaming(r, _, _) => Waiting(r)
    case Stamping(r, _, d) => Reported(r, d)
    case Clearing(r, d) => Reported(r, d)
    case Writing(r, _, d) => Reported(r, d)
    case Unlocking(r, d) => Reported(r, d)
    case _ => pc
  }

  function SeenAll(procs: map<Pid, Pc>): map<Pid, Pc> {
    map p | p in procs :: Seen(procs[p])
  }

  /** The disk once the lock holder has done what it has already decided. */
  function Settled(disk: Disk, boot: string, pc: Pc): Disk {
    match pc
    case Stamping(_, now, _) => disk.(lastEscape := EscapeStamp(now, boot), histories := map[])
    case Clearing(_, _) => disk.(histories := map[])
    case Writing(r, ts, _) => disk.(histories := disk.histories[Crashes(r.component) := Lines(ts)])
    case _ => disk
  }

  ghost function Abs(s: System): World
    requires s.w.boots != []
  {
    World(
      if s.lock.Some? && s.lock.value in s.w.procs
      then Settled(s.w.disk, Boot(s.w), s.w.procs[s.lock.value]) else s.w.disk,
      s.w.boots, SeenAll(s.w.procs), s.w.log)
  }

  /** The indivisible step a step stands for, if it is the one at which it takes effect. */
  function Effect(cfg: Config, s: System, l: Label): Option<Atomic>
    requires Can(s, l)
  {
    match l
    case Unlocked(m) => Some(Shared(m))
    case Advance(p) =>
      if s.w.procs[p].Unlocking? || s.w.procs[p].Stamping? || s.w.procs[p].Clearing? || s.w.procs[p].Writing? then None
      else if |Advanced(cfg, s.w, p).log| == |s.w.log| then None
      else Some(RecordCrash(p, s.w.procs[p].now))
    case _ => None
  }

  lemma SeenUpdate(procs: map<Pid, Pc>, p: Pid, pc: Pc)
    ensures SeenAll(procs[p := pc]) == SeenAll(procs)[p := Seen(pc)]
  {
  }

  lemma SeenStutter(procs: map<Pid, Pc>, p: Pid, pc: Pc)
    requires p in procs && Seen(procs[p]) == Seen(pc)
    ensures SeenAll(procs[p := pc]) == SeenAll(procs)
  {
  }

  /** A choice that comes to be where there was none is nothing the holder has learned of. */
  lemma HolderUndisturbed(cfg: Config, w: World, w': World, pc: Pc)
    requires w.boots != [] && w.boots == w'.boots && HolderOk(cfg, w, pc)
    requires w'.disk == w.disk || (w.disk.choice.Absent? && w'.disk == w.disk.(choice := w'.disk.choice))
    ensures HolderOk(cfg, w', pc)
  {
    hide Recent;
    hide EscapeBlocked;
  }

  /** A step of a process that does not hold the lock, and leaves the holder's learning alone. */
  lemma OutsideStep(cfg: Config, s: System, p: Pid, pc: Pc, w': World)
    requires Inv(cfg, s) && (p in s.w.procs ==> !Critical(s.w.procs[p])) && !Critical(pc)
    requires w'.procs == s.w.procs[p := pc] && w'.boots == s.w.boots
    requires w'.disk == s.w.disk || (s.w.disk.choice.Absent? && w'.disk == s.w.disk.(choice := w'.disk.choice))
    ensures Inv(cfg, s.(w := w'))
  {
    if s.lock.Some? {
      HolderUndisturbed(cfg, s.w, w', s.w.procs[s.lock.value]);
    }
    hide HolderOk;
  }

  /** A starter's or supervisor's own step, while someone else may hold the lock. */
  lemma OwnStep(cfg: Config, s: System, p: Pid)
    requires Inv(cfg, s) && CanMove(s.w, Step(p))
    ensures Inv(cfg, s.(w := Moved(s.w, Step(p))))
    ensures CanMove(Abs(s), Step(p)) && Abs(s.(w := Moved(s.w, Step(p)))) == Moved(Abs(s), Step(p))
  {
    hide HolderOk;
    var w' := Moved(s.w, Step(p));
    assert Abs(s).disk.choice == s.w.disk.choice;
    assert w'.procs == s.w.procs[p := w'.procs[p]];
    SeenUpdate(s.w.procs, p, w'.procs[p]);
    OutsideStep(cfg, s, p, w'.procs[p], w');
  }

  lemma RebootStep(cfg: Config, s: System, boot: string)
    requires Inv(cfg, s) && Can(s, Unlocked(Reboot(boot)))
    ensures Inv(cfg, Next(cfg, s, Unlocked(Reboot(boot))))
    ensures Abs(Next(cfg, s, Unlocked(Reboot(boot)))) == Moved(Abs(s), Reboot(boot))
  {
    assert SeenAll(Gone(s.w.procs)) == Gone(SeenAll(s.w.procs));
    hide HolderOk;
  }

  /** A step outside the lock disturbs neither the holder nor the picture of it. */
  lemma UnlockedStep(cfg: Config, s: System, m: Move)
    requires Inv(cfg, s) && Can(s, Unlocked(m))
    ensures Inv(cfg, Next(cfg, s, Unlocked(m)))
    ensures CanMove(Abs(s), m) && Abs(Next(cfg, s, Unlocked(m))) == Moved(Abs(s), m)
  {
    hide HolderOk;
    match m {
      case Reboot(boot) => RebootStep(cfg, s, boot);
      case SetUpgrading(_) =>
      case Spawn(p, pc) =>
        SeenUpdate(s.w.procs, p, pc);
        OutsideStep(cfg, s, p, pc, Moved(s.w, m));
      case Pick(p, _) =>
        SeenUpdate(s.w.procs, p, Moved(s.w, m).procs[p]);
        OutsideStep(cfg, s, p, Moved(s.w, m).procs[p], Moved(s.w, m));
      case Kill(p) =>
        SeenUpdate(s.w.procs, p, Dead);
        OutsideStep(cfg, s, p, Dead, Moved(s.w, m));
      case Step(p) => OwnStep(cfg, s, p);
    }
  }

  /** Whether a step belongs to what follows the decision of a report. */
  predicate Finishing(s: System, l: Label) {
    l.Forget? || (l.Advance? && l.pid in s.w.procs &&
                  var pc := s.w.procs[l.pid]; (pc.Stamping? || pc.Clearing? || pc.Writing? || pc.Unlocking?))
  }

  /** Getting the lock, reading the clock, counting and looking are invisible. */
  lemma LookingStep(cfg: Config, s: System, l: Label)
    requires Inv(cfg, s) && Can(s, l) && !l.Unlocked? && !Finishing(s, l) && Effect(cfg, s, l).None?
    ensures Inv(cfg, Next(cfg, s, l)) && Abs(Next(cfg, s, l)) == Abs(s)
  {
    var p := l.pid;
    var pc' := Next(cfg, s, l).w.procs[p];
    assert Next(cfg, s, l).w.procs == s.w.procs[p := pc'];
    SeenStutter(s.w.procs, p, pc');
  }

  /** Doing what was decided, and letting go of the lock, is invisible. */
  lemma FinishingStep(cfg: Config, s: System, l: Label)
    requires Inv(cfg, s) && Can(s, l) && Finishing(s, l)
    ensures Effect(cfg, s, l).None? && Inv(cfg, Next(cfg, s, l)) && Abs(Next(cfg, s, l)) == Abs(s)
  {
    if l.Advance? {
      var p := l.pid;
      var pc' := Next(cfg, s, l).w.procs[p];
      assert Next(cfg, s, l).w.procs == s.w.procs[p := pc'];
      SeenStutter(s.w.procs, p, pc');
    }
  }

  /** What the separate looks inside the critical section decide is what one glance would. */
  lemma DecidesAsAtOnce(cfg: Config, s: System, p: Pid)
    requires Inv(cfg, s) && Can(s, Advance(p)) && Effect(cfg, s, Advance(p)).Some?
    ensures var r := s.w.procs[p].r;
            var now := s.w.procs[p].now;
            var ts := Noted(cfg, s.w.disk, r.component, now);
            var d := Decide(cfg, s.w.disk, r.component, r.allele, now, Boot(s.w));
            Advanced(cfg, s.w, p) ==
            if d.escaped then
              s.w.(disk := s.w.disk.(choice := Holds(d.to)), procs := s.w.procs[p := Stamping(r, now, d)],
                   log := s.w.log + [Crash(p, r, now, Boot(s.w), d)])
            else Conclude(s.w, p, r, now, ts, d)
  {
  }

  /** The deciding step of a crash reporter is exactly one indivisible crash report. */
  lemma DecidingStep(cfg: Config, s: System, p: Pid)
    requires Inv(cfg, s) && Can(s, Advance(p)) && Effect(cfg, s, Advance(p)).Some?
    ensures Inv(cfg, Next(cfg, s, Advance(p)))
    ensures AtomicCan(Abs(s), RecordCrash(p, s.w.procs[p].now))
    ensures Abs(Next(cfg, s, Advance(p))) == AtomicNext(cfg, Abs(s), RecordCrash(p, s.w.procs[p].now))
  {
    DecidesAsAtOnce(cfg, s, p);
    var pc' := Next(cfg, s, Advance(p)).w.procs[p];
    SeenUpdate(s.w.procs, p, pc');
    assert Abs(s).disk == s.w.disk;
  }

  lemma StepRefines(cfg: Config, s: System, l: Label)
    requires Inv(cfg, s) && Can(s, l)
    ensures Inv(cfg, Next(cfg, s, l))
    ensures match Effect(cfg, s, l)
      case None => Abs(Next(cfg, s, l)) == Abs(s)
      case Some(a) => AtomicCan(Abs(s), a) && Abs(Next(cfg, s, l)) == AtomicNext(cfg, Abs(s), a)
  {
    if l.Unlocked? {
      UnlockedStep(cfg, s, l.m);
    } else if Finishing(s, l) {
      FinishingStep(cfg, s, l);
    } else if Effect(cfg, s, l).None? {
      LookingStep(cfg, s, l);
    } else {
      DecidingStep(cfg, s, l.pid);
    }
  }

  /** The indivisible run that an interleaved run stands for. */
  function Effects(cfg: Config, s: System, run: seq<Label>): seq<Atomic>
    requires Run(cfg, s, run)
    decreases |run|
  {
    if run == [] then []
    else
      var rest := Effects(cfg, Next(cfg, s, run[0]), run[1..]);
      match Effect(cfg, s, run[0])
      case None => rest
      case Some(a) => [a] + rest
  }

  /** Every interleaved run is an indivisible run, seen through Abs. */
  lemma {:induction false} RunRefines(cfg: Config, s: System, run: seq<Label>)
    requires Inv(cfg, s) && Run(cfg, s, run)
    ensures Inv(cfg, End(cfg, s, run))
    ensures AtomicRun(cfg, Abs(s), Effects(cfg, s, run))
    ensures AtomicEnd(cfg, Abs(s), Effects(cfg, s, run)) == Abs(End(cfg, s, run))
    decreases |run|
  {
    if run == [] {
    } else {
      StepRefines(cfg, s, run[0]);
      RunRefines(cfg, Next(cfg, s, run[0]), run[1..]);
      match Effect(cfg, s, run[0]) {
        case None =>
        case Some(a) =>
          var rest := Effects(cfg, Next(cfg, s, run[0]), run[1..]);
          assert ([a] + rest)[1..] == rest;
      }
    }
  }
}
