/**
 * The wrapper around one control-plane component: it chooses the allele, supervises the
 * component, and reports a crash to the cell, for kube-apiserver only.
 */
module Wrapper {
  import opened Base
  import opened Cell

  const MOSAIC := "kube-apiserver"

  /** KYVERNETRIA_ALLELE: unset, an allele, or something else. */
  datatype Pin = NoPin | PinnedTo(allele: Allele) | BadPin

  /** What the supervisor's loop wakes up for. A tick comes with what the choice file held then. */
  datatype Event =
    | Signal
    | Tick(seen: Choice)
    | KillTimer
    | Exit(code: int, ran: int)

  /** What the supervisor sends to the component. */
  datatype Sent = Forwarded | Terminate | Kill

  /** The component was asked to stop: by a forwarded signal, or to follow a switch that a tick saw. */
  ghost predicate Asked(allele: Allele, events: seq<Event>) {
    exists k :: 0 <= k < |events| && Asks(allele, events[k])
  }

  predicate Asks(allele: Allele, e: Event) {
    e.Signal? || (e.Tick? && e.seen.Holds? && e.seen.allele != allele)
  }

  /** The first tick that sees the other allele, before any signal: the wrapper follows the switch. */
  ghost predicate Follows(allele: Allele, events: seq<Event>, k: nat) {
    && k < |events| && events[k].Tick? && events[k].seen.Holds? && events[k].seen.allele != allele
    && forall j :: 0 <= j < k ==>
         !events[j].Signal? && (events[j].Tick? && events[j].seen.Holds? ==> events[j].seen.allele == allele)
  }

  /** The kill timer that following a switch started has not fired before the n-th event. */
  ghost predicate Armed(allele: Allele, events: seq<Event>, n: nat)
    requires n <= |events|
  {
    exists j :: 0 <= j < n && Follows(allele, events, j) && forall m :: j < m < n ==> !events[m].KillTimer?
  }

  /** What the k-th event makes the wrapper send; only a kube-apiserver that may escape `follows` switches. */
  ghost function SentFor(allele: Allele, follows: bool, events: seq<Event>, k: nat): seq<Sent>
    requires k < |events|
  {
    if events[k].Signal? then [Forwarded]
    else if events[k].Tick? && follows && Follows(allele, events, k) then [Terminate]
    else if events[k].KillTimer? && follows && Armed(allele, events, k) then [Kill]
    else []
  }

  /** All that is sent in answer to the first n events. */
  ghost function SentBefore(allele: Allele, follows: bool, events: seq<Event>, n: nat): seq<Sent>
    requires n <= |events|
  {
    if n == 0 then [] else SentBefore(allele, follows, events, n - 1) + SentFor(allele, follows, events, n - 1)
  }

  lemma ArmedNext(allele: Allele, events: seq<Event>, n: nat)
    requires n < |events|
    ensures Armed(allele, events, n + 1) <==>
            (Armed(allele, events, n) && !events[n].KillTimer?) || Follows(allele, events, n)
  {
    if Armed(allele, events, n) && !events[n].KillTimer? {
      var j :| 0 <= j < n && Follows(allele, events, j) && forall m :: j < m < n ==> !events[m].KillTimer?;
      assert forall m :: j < m < n + 1 ==> !events[m].KillTimer?;
    }
    hide Follows;
  }

  ghost predicate Followed(allele: Allele, events: seq<Event>, n: nat)
    requires n <= |events|
  {
    exists j :: 0 <= j < n && Follows(allele, events, j)
  }

  lemma FollowedNext(allele: Allele, events: seq<Event>, n: nat)
    requires n < |events|
    ensures Followed(allele, events, n + 1) <==> Followed(allele, events, n) || Follows(allele, events, n)
    ensures Follows(allele, events, n) ==> !Followed(allele, events, n)
    ensures Armed(allele, events, n) ==> Followed(allele, events, n)
  {
    if Follows(allele, events, n) {
      forall j | 0 <= j < n
        ensures !Follows(allele, events, j)
      {
      }
    }
    hide Follows;
  }

  ghost function Times(allele: Allele, follows: bool, events: seq<Event>, n: nat, what: Sent): nat
    requires n <= |events|
  {
    multiset(SentBefore(allele, follows, events, n))[what]
  }

  lemma TimesNext(allele: Allele, follows: bool, events: seq<Event>, n: nat)
    requires n < |events|
    ensures Times(allele, follows, events, n + 1, Terminate) ==
            Times(allele, follows, events, n, Terminate) + (if follows && Follows(allele, events, n) then 1 else 0)
    ensures Times(allele, follows, events, n + 1, Kill) == Times(allele, follows, events, n, Kill) +
            (if follows && events[n].KillTimer? && Armed(allele, events, n) then 1 else 0)
  {
    var before, out := SentBefore(allele, follows, events, n), SentFor(allele, follows, events, n);
    assert SentBefore(allele, follows, events, n + 1) == before + out;
    SentForCounts(allele, follows, events, n);
    CountsAdd(before, out);
    hide SentBefore;
    hide SentFor;
    hide Follows;
    hide Armed;
  }

  /** A switch is followed once, and the component is killed at most once, after that. */
  lemma {:induction false} SentAtMostOnce(allele: Allele, follows: bool, events: seq<Event>, n: nat)
    requires n <= |events|
    ensures Times(allele, follows, events, n, Terminate) == (if follows && Followed(allele, events, n) then 1 else 0)
    ensures Times(allele, follows, events, n, Kill) + (if follows && Armed(allele, events, n) then 1 else 0) <=
            Times(allele, follows, events, n, Terminate)
  {
    hide Armed;
    hide Followed;
    hide Follows;
    hide Times;
    if n == 0 {
      NothingSentYet(allele, follows, events);
    } else {
      SentAtMostOnce(allele, follows, events, n - 1);
      TimesNext(allele, follows, events, n - 1);
      ArmedNext(allele, events, n - 1);
      FollowedNext(allele, events, n - 1);
    }
  }

  lemma NothingSentYet(allele: Allele, follows: bool, events: seq<Event>)
    ensures Times(allele, follows, events, 0, Terminate) == Times(allele, follows, events, 0, Kill) == 0
    ensures !Followed(allele, events, 0) && !Armed(allele, events, 0)
  {
  }

  /** One SIGTERM at most, SIGKILL only after it, and neither where no switch is followed. */
  ghost predicate Restrained(follows: bool, sent: seq<Sent>) {
    && multiset(sent)[Terminate] <= 1 && multiset(sent)[Kill] <= multiset(sent)[Terminate]
    && (!follows ==> Terminate !in sent)
  }

  lemma SilenceIsRestrained(follows: bool)
    ensures Restrained(follows, [])
  {
  }

  lemma SentCounts(allele: Allele, follows: bool, events: seq<Event>, n: nat)
    requires n <= |events|
    ensures Restrained(follows, SentBefore(allele, follows, events, n))
  {
    SentAtMostOnce(allele, follows, events, n);
    hide SentBefore;
    assert Terminate in SentBefore(allele, follows, events, n) ==>
      multiset(SentBefore(allele, follows, events, n))[Terminate] > 0;
  }

  lemma SentForCounts(allele: Allele, follows: bool, events: seq<Event>, k: nat)
    requires k < |events|
    ensures var out := multiset(SentFor(allele, follows, events, k));
      && out[Terminate] == (if follows && Follows(allele, events, k) then 1 else 0)
      && out[Kill] == (if follows && events[k].KillTimer? && Armed(allele, events, k) then 1 else 0)
  {
    assert Follows(allele, events, k) ==> events[k].Tick?;
    hide Follows;
    hide Armed;
  }

  lemma CountsAdd(a: seq<Sent>, b: seq<Sent>)
    ensures multiset(a + b)[Terminate] == multiset(a)[Terminate] + multiset(b)[Terminate]
    ensures multiset(a + b)[Kill] == multiset(a)[Kill] + multiset(b)[Kill]
  {
  }

  lemma AskedNext(allele: Allele, events: seq<Event>, n: nat)
    requires n < |events|
    ensures Asked(allele, events[..n + 1]) <==> Asked(allele, events[..n]) || Asks(allele, events[n])
  {
    if Asked(allele, events[..n]) {
      var k :| 0 <= k < n && Asks(allele, events[..n][k]);
      assert Asks(allele, events[..n + 1][k]);
    }
    assert events[..n + 1][n] == events[n];
    assert forall k :: 0 <= k < n ==> events[..n + 1][k] == events[..n][k];
  }

  /** Nothing asked for a stop before the n-th event. */
  lemma NotAskedBefore(allele: Allele, events: seq<Event>, n: nat)
    requires n < |events| && events[n].Tick? && events[n].seen.Holds? && events[n].seen.allele != allele
    ensures Follows(allele, events, n) <==> !Asked(allele, events[..n])
  {
    if !Follows(allele, events, n) {
      var j :| 0 <= j < n && Asks(allele, events[j]);
      assert Asks(allele, events[..n][j]);
    }
  }

  /** The index of the component's exit; the number of events if it has not exited. */
  function ExitAt(events: seq<Event>): (i: nat)
    ensures i <= |events|
    ensures i < |events| ==> events[i].Exit?
    ensures forall k :: 0 <= k < i ==> !events[k].Exit?
  {
    if events == [] || events[0].Exit? then 0 else 1 + ExitAt(events[1..])
  }

  /** What the choice file holds once a starter has asked for its allele. */
  function Founded(choice: Choice, random: Option<Allele>, rival: Option<Allele>): Choice {
    if choice.Absent? && random.Some? then Holds(if rival.Some? then rival.value else random.value) else choice
  }

  /** What a component expresses; None where it refuses to start. */
  function AlleleOf(component: string, pin: Pin, choice: Choice, random: Option<Allele>, rival: Option<Allele>)
    : Option<Allele>
  {
    match pin
    case BadPin => None
    case PinnedTo(a) => Some(a)
    case NoPin =>
      if component != MOSAIC then Some(Xp)
      else
        var founded := Founded(choice, random, rival);
        if founded.Holds? then Some(founded.allele) else None
  }

  /** What one event does to a component that runs: whether it is now stopping, the kill timer, and what is sent. */
  method React(allele: Allele, follows: bool, e: Event, stopping: bool, armed: bool)
    returns (stops: bool, arms: bool, out: seq<Sent>)
    requires !e.Exit?
    ensures var turns := e.Tick? && follows && !stopping && e.seen.Holds? && e.seen.allele != allele;
      && stops == (stopping || e.Signal? || turns)
      && arms == ((armed && !e.KillTimer?) || turns)
      && out == (if e.Signal? then [Forwarded]
                 else if turns then [Terminate]
                 else if e.KillTimer? && armed then [Kill] else [])
  {
    stops, arms, out := stopping, armed, [];
    match e {
      case Signal =>
        stops := true;
        out := [Forwarded];
      case KillTimer =>
        if armed {
          arms := false;
          out := [Kill];
        }
      case Tick(seen) =>
        if follows && !stopping && seen.Holds? && seen.allele != allele {
          stops, arms := true, true;
          out := [Terminate];
        }
    }
  }

  /** The reaction to the n-th event carries the whole account of what was asked and sent one event further. */
  lemma Reacted(allele: Allele, follows: bool, events: seq<Event>, n: nat, stopping: bool, stops: bool)
    requires n < |events| && (follows ==> (stopping <==> Asked(allele, events[..n])))
    requires stops == (stopping || events[n].Signal? ||
                       (events[n].Tick? && follows && !stopping &&
                        events[n].seen.Holds? && events[n].seen.allele != allele))
    ensures follows ==> (stops <==> Asked(allele, events[..n + 1]))
    ensures follows ==>
      (Follows(allele, events, n) <==>
       events[n].Tick? && !stopping && events[n].seen.Holds? && events[n].seen.allele != allele)
  {
    AskedNext(allele, events, n);
    if events[n].Tick? && events[n].seen.Holds? && events[n].seen.allele != allele {
      NotAskedBefore(allele, events, n);
    }
    hide Asked;
  }

  /** Attends to a running component until it exits: where that is, whether it was stopping, and what was sent. */
  method Attend(allele: Allele, follows: bool, events: seq<Event>) returns (i: nat, stopping: bool, sent: seq<Sent>)
    ensures i == ExitAt(events)
    ensures follows ==> (stopping <==> Asked(allele, events[..i]))
    ensures sent == SentBefore(allele, follows, events, i)
    ensures Restrained(follows, sent)
  {
    hide Armed;
    hide Asked;
    hide Follows;
    hide Restrained;
    var armed := false;
    i, stopping, sent := 0, false, [];
    assert !Asked(allele, events[..0]) && !Armed(allele, events, 0) by { NothingYet(allele, events); }
    while i < |events| && !events[i].Exit?
      invariant i <= |events| && forall k :: 0 <= k < i ==> !events[k].Exit?
      invariant follows ==> (stopping <==> Asked(allele, events[..i]))
      invariant armed <==> follows && Armed(allele, events, i)
      invariant sent == SentBefore(allele, follows, events, i)
    {
      ArmedNext(allele, events, i);
      var stops, arms, out := React(allele, follows, events[i], stopping, armed);
      Reacted(allele, follows, events, i, stopping, stops);
      stopping, armed, sent, i := stops, arms, sent + out, i + 1;
    }
    SentCounts(allele, follows, events, i);
  }

  lemma NothingYet(allele: Allele, events: seq<Event>)
    ensures !Asked(allele, events[..0]) && !Armed(allele, events, 0)
  {
  }

  datatype Ending = StillRunning | Ended(code: int, report: Option<Decision>)

  class Supervisor {
    const component: string
    const cell: StateDir
    const minUptime: int
    var pinned: bool

    constructor (component: string, cell: StateDir, minUptime: int)
      ensures this.component == component && this.cell == cell && this.minUptime == minUptime && !pinned
    {
      this.component, this.cell, this.minUptime := component, cell, minUptime;
      pinned := false;
    }

    /** A crash the node cares about: early, unasked for, and of a kube-apiserver that may escape. */
    ghost predicate IsCrash(code: int, ran: int, asked: bool)
      reads this
    {
      code != 0 && !asked && ran < minUptime && component == MOSAIC && !pinned
    }

    /** The allele this component expresses; None when it refuses to start. */
    method Choose(pin: Pin, random: Option<Allele>, rival: Option<Allele>) returns (allele: Option<Allele>)
      requires !pinned
      modifies this`pinned, cell`choice
      ensures pinned <==> pin.PinnedTo?
      ensures allele == AlleleOf(component, pin, old(cell.choice), random, rival)
      ensures cell.choice ==
              if pin.NoPin? && component == MOSAIC then Founded(old(cell.choice), random, rival) else old(cell.choice)
      ensures pin.NoPin? && component == MOSAIC && old(cell.choice).Holds? ==> allele == Some(old(cell.choice).allele)
      ensures pin.BadPin? ==> allele.None?
      ensures pin.PinnedTo? ==> allele == Some(pin.allele)
      ensures pin.NoPin? && component != MOSAIC ==> allele == Some(Xp)
      ensures pin.NoPin? && component == MOSAIC && allele.Some? ==> cell.choice == Holds(allele.value)
      ensures !old(cell.choice).Absent? || !pin.NoPin? || component != MOSAIC ==> cell.choice == old(cell.choice)
      ensures pin.NoPin? && component == MOSAIC && old(cell.choice).Garbled? ==> allele.None?
    {
      match pin {
        case BadPin => return None;
        case PinnedTo(a) =>
          pinned := true;
          return Some(a);
        case NoPin =>
      }
      if component != MOSAIC {
        return Some(Xp);
      }
      var e := cell.Express(random, rival);
      return if e.Refused? then None else Some(e.allele);
    }

    /** Tells the cell about an exit, if it is one that the cell should hear of. */
    method Exited(allele: Allele, code: int, ran: int, stopping: bool, now: int, boot: string)
      returns (report: Option<Decision>)
      modifies cell
      ensures if code != 0 && !stopping && ran < minUptime && component == "kube-apiserver" && !pinned
              then report == Some(Decide(cell.cfg, old(cell.State()), component, allele, now, boot)) &&
                   cell.State() == Recorded(cell.cfg, old(cell.State()), component, allele, now, boot)
              else report == None && cell.State() == old(cell.State())
    {
      if code == 0 || stopping || ran >= minUptime || component != MOSAIC || pinned {
        return None;
      }
      var d := cell.RecordCrash(component, allele, now, boot);
      return Some(d);
    }

    /**
     * How a supervised life ends, and what it leaves on disk: a life that has not started ends
     * with code 1 at once, any other with its exit, and a crash is on record exactly once.
     */
    ghost predicate EndsWith(disk: Disk, allele: Allele, starts: bool, events: seq<Event>, now: int, boot: string,
                             ending: Ending, disk': Disk)
      reads this
    {
      var i := ExitAt(events);
      var code := if !starts then 1 else if i < |events| then events[i].code else 0;
      var ran := if !starts then 0 else if i < |events| then events[i].ran else 0;
      var crashed := (!starts || i < |events|) && IsCrash(code, ran, starts && Asked(allele, events[..i]));
      && (ending.StillRunning? <==> starts && i == |events|)
      && (ending.Ended? ==> ending.code == code && (ending.report.Some? <==> crashed))
      && (if crashed
          then disk' == Recorded(cell.cfg, disk, component, allele, now, boot) &&
               ending == Ended(code, Some(Decide(cell.cfg, disk, component, allele, now, boot)))
          else disk' == disk)
    }

    /**
     * Runs the component through a sequence of events. The crash is reported at most once,
     * when the component exits, and exactly when the exit is a crash nobody asked for. Every
     * signal is forwarded; a switch is followed once, by SIGTERM, and by SIGKILL when its timer
     * fires first.
     */
    method Supervise(allele: Allele, starts: bool, events: seq<Event>, now: int, boot: string)
      returns (ending: Ending, sent: seq<Sent>)
      modifies cell
      ensures EndsWith(old(cell.State()), allele, starts, events, now, boot, ending, cell.State())
      ensures component != MOSAIC || pinned ==> cell.State() == old(cell.State())
      ensures var follows := component == "kube-apiserver" && !pinned;
        sent == if starts then SentBefore(allele, follows, events, ExitAt(events)) else []
      ensures Restrained(component == "kube-apiserver" && !pinned, sent)
    {
      hide Restrained;
      sent := [];
      SilenceIsRestrained(component == MOSAIC && !pinned);
      if !starts {
        var report := Exited(allele, 1, 0, false, now, boot);
        return Ended(1, report), sent;
      }
      hide SentBefore;
      hide Recorded;
      hide Decide;
      var follows := component == MOSAIC && !pinned;
      var i, stopping;
      i, stopping, sent := Attend(allele, follows, events);
      hide Asked;
      hide ExitAt;
      if i == |events| {
        return StillRunning, sent;
      }
      var report := Exited(allele, events[i].code, events[i].ran, stopping, now, boot);
      return Ended(events[i].code, report), sent;
    }

    /**
     * One life of the wrapper, from choosing to the end of the component. A component other
     * than kube-apiserver, or a pinned one, never changes the cell; and a kube-apiserver that
     * was told an allele expresses the node's.
     */
    method Run(pin: Pin, random: Option<Allele>, rival: Option<Allele>, emulates: bool, starts: bool,
               events: seq<Event>, now: int, boot: string)
      returns (ending: Ending)
      requires !pinned
      modifies this`pinned, cell
      ensures pinned <==> pin.PinnedTo?
      ensures var disk := old(cell.State());
        var allele := AlleleOf(component, pin, disk.choice, random, rival);
        var founded := if !pin.NoPin? || component != MOSAIC then disk
                       else disk.(choice := Founded(disk.choice, random, rival));
        if allele.None? || (component == MOSAIC && allele == Some(Xm) && !emulates)
        then ending == Ended(1, None) && cell.State() == founded
        else EndsWith(founded, allele.value, starts, events, now, boot, ending, cell.State())
      ensures component != MOSAIC || !pin.NoPin? ==> cell.State() == old(cell.State())
      ensures old(cell.choice).Garbled? ==> cell.choice.Garbled?
      ensures component == MOSAIC && pin.NoPin? && old(cell.choice).Garbled? ==> ending == Ended(1, None)
      ensures pin.BadPin? ==> ending == Ended(1, None)
      ensures ending.Ended? && ending.report.Some? ==> component == MOSAIC && pin.NoPin?
    {
      var allele := Choose(pin, random, rival);
      if allele.None? {
        return Ended(1, None);
      }
      if component == MOSAIC && allele == Some(Xm) && !emulates {
        return Ended(1, None);
      }
      var sent;
      ending, sent := Supervise(allele.value, starts, events, now, boot);
    }
  }
}
