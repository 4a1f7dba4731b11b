/**
 * How a workload's memory of its nodes is brought up to date on the server: from where its pods
 * run now, and only on top of the very version that was read.
 */
module PlaceMemory {
  import opened Base
  import opened Placement

  // ---------- Where the pods of a holder run ----------

  datatype Holder = Holder(kind: Kind, ns: string, name: string)

  /** What matters of a pod: its node ("" if none), its phase, its holder and its ordinal, if it has them. */
  datatype Pod = Pod(node: string, phaseRunning: bool, deleting: bool, holder: Option<Holder>, ordinal: Option<int>)

  predicate IsRunning(pod: Pod) {
    pod.node != "" && pod.phaseRunning && !pod.deleting
  }

  /** The pod counts for the holder, with this ordinal (-1 where ordinals mean nothing). */
  function Counted(pod: Pod, h: Holder): Option<int> {
    if !IsRunning(pod) || pod.holder != Some(h) then None
    else if h.kind.StatefulSet? then pod.ordinal
    else Some(-1)
  }

  /** The ordinals of the pods that count and run on one node, in the order of the list. */
  function OrdinalsOn(pods: seq<Pod>, h: Holder, node: string): seq<int> {
    if pods == [] then []
    else
      var pod := pods[|pods| - 1];
      OrdinalsOn(pods[..|pods| - 1], h, node) +
      (if pod.node == node && Counted(pod, h).Some? then [Counted(pod, h).value] else [])
  }

  method RunningPods(pods: seq<Pod>, h: Holder) returns (out: Running)
    ensures forall node ::
      if node in out then out[node] == OrdinalsOn(pods, h, node) != [] else OrdinalsOn(pods, h, node) == []
  {
    out := map[];
    for i := 0 to |pods|
      invariant forall node ::
        if node in out then out[node] == OrdinalsOn(pods[..i], h, node) != [] else OrdinalsOn(pods[..i], h, node) == []
    {
      assert pods[..i + 1][..i] == pods[..i];
      var pod := pods[i];
      if !IsRunning(pod) || pod.holder != Some(h) {
        continue;
      }
      var ord := -1;
      if h.kind.StatefulSet? {
        if pod.ordinal.None? {
          continue;
        }
        ord := pod.ordinal.value;
      }
      out := out[pod.node := (if pod.node in out then out[pod.node] else []) + [ord]];
    }
    assert pods[..|pods|] == pods;
  }

  /** The holder's pod runs on this node, and is not going away; of a StatefulSet it must have its ordinal. */
  ghost predicate RunsOn(pod: Pod, h: Holder, node: string) {
    && pod.node == node != "" && pod.phaseRunning && !pod.deleting && pod.holder == Some(h)
    && (h.kind.StatefulSet? ==> pod.ordinal.Some?)
  }

  /** A node is listed exactly when a pod of the holder runs there, and with the ordinals of the pods that do. */
  lemma {:induction false} ListedWhereRunning(pods: seq<Pod>, h: Holder, node: string, o: int)
    ensures OrdinalsOn(pods, h, node) != [] <==> exists pod | pod in pods :: RunsOn(pod, h, node)
    ensures o in OrdinalsOn(pods, h, node) <==>
            exists pod | pod in pods ::
              RunsOn(pod, h, node) && (if h.kind.StatefulSet? then pod.ordinal == Some(o) else o == -1)
  {
    if pods == [] {
    } else {
      var n := |pods| - 1;
      ListedWhereRunning(pods[..n], h, node, o);
      assert pods == pods[..n] + [pods[n]];
      assert pods[n].node == node && Counted(pods[n], h).Some? <==> RunsOn(pods[n], h, node);
    }
  }

  // ---------- One sync against a server that others write to ----------

  /** A copy of the holder's annotation and the version it was read at. */
  datatype Copy = Copy(value: string, version: nat)

  datatype Result = Done | NotThere | GaveUp

  /** The live object. Each write makes a version; `past` holds the annotation at each of them. */
  class LiveHolder {
    var past: seq<string>
    var present: bool

    constructor (value: string)
      ensures past == [value] && present
    {
      past, present := [value], true;
    }

    ghost predicate Valid()
      reads this
    {
      past != []
    }

    function Current(): Copy
      requires past != []
      reads this
    {
      Copy(past[|past| - 1], |past| - 1)
    }

    /** Other writers' updates, of this annotation or of anything else; and maybe a deletion. */
    method Interfere(writes: seq<string>, delete: bool)
      requires Valid()
      modifies this
      ensures Valid() && past == old(past) + writes && present == (old(present) && !delete)
    {
      past, present := past + writes, present && !delete;
    }

    /** A merge patch that names the version it was computed from. */
    method Patch(version: nat, value: string) returns (conflict: bool, missing: bool)
      requires Valid()
      modifies this`past
      ensures Valid() && (missing <==> !present) && (conflict <==> present && version != |old(past)| - 1)
      ensures past == if conflict || missing then old(past) else old(past) + [value]
    {
      missing := !present;
      conflict := present && version != |past| - 1;
      if !conflict && !missing {
        past := past + [value];
      }
    }
  }

  /** A copy is honest when it is what the object held at that version. */
  ghost predicate Honest(past: seq<string>, copy: Copy) {
    copy.version < |past| && past[copy.version] == copy.value
  }

  /** What other writers do just before one API call of ours. */
  datatype Meanwhile = Meanwhile(writes: seq<string>, delete: bool)

  const ATTEMPTS := 5

  /** Nobody else writes. */
  ghost predicate Quiet(meanwhile: nat -> Meanwhile) {
    forall k :: meanwhile(k) == Meanwhile([], false)
  }

  datatype Tried = Unneeded | Missing | Conflict | Written

  /** One attempt: computes the memory from a copy and writes it, unless that changes nothing. */
  method TryOnce(kind: Kind, live: LiveHolder, copy: Copy, pods: Running, now: Meanwhile) returns (tried: Tried)
    requires live.Valid() && Honest(live.past, copy) && (kind.StatefulSet? ==> OneHomeEach(pods))
    modifies live
    ensures live.Valid()
    ensures tried.Unneeded? <==> Recalled(kind, copy.value, pods) == copy.value
    ensures tried.Unneeded? ==> live.past == old(live.past) && live.present == old(live.present)
    ensures !tried.Unneeded? ==>
      && live.present == (old(live.present) && !now.delete) == !tried.Missing?
      && (tried.Written? <==> live.present && copy.version + 1 == |old(live.past) + now.writes|)
      && live.past == old(live.past) + now.writes +
                      (if tried.Written? then [Recalled(kind, copy.value, pods)] else [])
  {
    var want := Recall(kind, copy.value, pods);
    if want == copy.value {
      return Unneeded;
    }
    live.Interfere(now.writes, now.delete);
    var conflict, missing := live.Patch(copy.version, want);
    return if missing then Missing else if conflict then Conflict else Written;
  }

  /** What a sync wrote at this version, if anything, is Recall of exactly the value it replaced. */
  ghost predicate WroteRecall(kind: Kind, before: seq<string>, past: seq<string>, wrote: Option<nat>, pods: Running)
    requires kind.StatefulSet? ==> OneHomeEach(pods)
  {
    wrote.Some? ==>
      && |before| <= wrote.value + 1 && wrote.value + 1 < |past|
      && past[wrote.value + 1] == Recalled(kind, past[wrote.value], pods) != past[wrote.value]
  }

  /** The values after a write of what should be remembered, if that is not what is there. */
  ghost function Remembering(kind: Kind, past: seq<string>, pods: Running): seq<string>
    requires past != [] && (kind.StatefulSet? ==> OneHomeEach(pods))
  {
    var value := past[|past| - 1];
    if Recalled(kind, value, pods) == value then past else past + [Recalled(kind, value, pods)]
  }

  /**
   * Recomputes the memory and writes it if it really changed, starting again from the live
   * object when someone else was faster. `meanwhile(k)` happens before our k-th API call.
   */
  method Sync(kind: Kind, live: LiveHolder, cached: Copy, pods: Running, meanwhile: nat -> Meanwhile)
    returns (result: Result, wrote: Option<nat>, patches: nat)
    requires live.Valid() && Honest(live.past, cached)
    requires kind.StatefulSet? ==> OneHomeEach(pods)
    modifies live
    ensures live.Valid() && old(live.past) <= live.past && patches <= 5
    ensures WroteRecall(kind, old(live.past), live.past, wrote, pods) && (wrote.Some? ==> result == Done)
    ensures result == GaveUp ==> patches == 5 && wrote.None?
    ensures Quiet(meanwhile) ==> live.present == old(live.present) && result != GaveUp
    ensures Quiet(meanwhile) && live.present ==>
      live.past == old(live.past) || live.past == Remembering(kind, old(live.past), pods)
    ensures Quiet(meanwhile) && live.present && cached == old(live.Current()) ==>
      result == Done && live.past == Remembering(kind, old(live.past), pods)
  {
    hide Recalled;
    hide OneHomeEach;
    var current := cached;
    patches, wrote := 0, None;
    ghost var before := live.past;
    for attempt := 0 to ATTEMPTS
      invariant live.Valid() && before <= live.past && Honest(live.past, current)
      invariant patches == attempt && wrote.None?
      invariant Quiet(meanwhile) ==> live.past == before && live.present == old(live.present) && attempt <= 1
      invariant Quiet(meanwhile) ==> current == (if attempt == 0 then cached else live.Current())
      invariant Quiet(meanwhile) && attempt == 1 ==> cached != old(live.Current())
    {
      var tried := TryOnce(kind, live, current, pods, meanwhile(2 * attempt));
      if tried.Unneeded? {
        return Done, None, patches;
      }
      patches := patches + 1;
      if tried.Missing? {
        return NotThere, None, patches;
      }
      if tried.Written? {
        return Done, Some(current.version), patches;
      }
      // The copy is out of date, so a fresh one is taken for the next attempt.
      var now := meanwhile(2 * attempt + 1);
      live.Interfere(now.writes, now.delete);
      if !live.present {
        return Done, None, patches;
      }
      current := live.Current();
    }
    return GaveUp, None, patches;
  }

  /** A sync from a fresh copy, with nobody else writing. */
  method SyncAlone(kind: Kind, live: LiveHolder, pods: Running)
    requires live.Valid() && live.present && Proper(kind, pods)
    modifies live
    ensures live.Valid() && live.present
    ensures live.past == Remembering(kind, old(live.past), pods)
  {
    var _, _, _ := Sync(kind, live, live.Current(), pods, (k: nat) => Meanwhile([], false));
  }

  lemma RememberingTwice(kind: Kind, past: seq<string>, pods: Running)
    requires past != [] && Proper(kind, pods)
    ensures Remembering(kind, Remembering(kind, past, pods), pods) == Remembering(kind, past, pods)
  {
    RecallIsIdempotent(kind, past[|past| - 1], pods);
  }

  /** Once written, never again: on an unchanged cluster a second sync finds nothing to write. */
  method SyncTwice(kind: Kind, live: LiveHolder, pods: Running)
    requires live.Valid() && live.present && Proper(kind, pods)
    modifies live
    ensures live.past == Remembering(kind, old(live.past), pods)
  {
    RememberingTwice(kind, live.past, pods);
    SyncAlone(kind, live, pods);
    SyncAlone(kind, live, pods);
  }

  // ---------- Any number of workers, in any interleaving ----------

  type Pid = nat

  datatype Worker =
    | Trying(pods: Running, copy: Copy, attempts: nat)
    | Refetching(pods: Running, attempts: nat)
    | Stopped(result: Result)

  /** Who made a version out of the one before. */
  datatype Writer = Foreign | Ours(pid: Pid, pods: Running)

  /** The object's values, version by version, and who wrote each but the first. */
  datatype Cluster = Cluster(past: seq<string>, writers: seq<Writer>, there: bool, workers: map<Pid, Worker>)

  /** A way to compute the next annotation from the present one and the pods. */
  type Memory = (string, Running) -> string

  ghost predicate IdempotentAt(recall: Memory, pods: Running) {
    forall value :: recall(recall(value, pods), pods) == recall(value, pods)
  }

  datatype Action =
    | Start(pid: Pid, version: nat, pods: Running)   // from the cache, however stale
    | Attempt(pid: Pid)
    | Refetch(pid: Pid)
    | ForeignWrite(value: string)
    | Delete

  predicate Can(c: Cluster, a: Action) {
    match a
    case Start(p, v, _) => p !in c.workers && v < |c.past|
    case Attempt(p) => p in c.workers && c.workers[p].Trying?
    case Refetch(p) => p in c.workers && c.workers[p].Refetching?
    case ForeignWrite(_) => c.there
    case Delete => true
  }

  ghost function Act(recall: Memory, c: Cluster, a: Action): Cluster
    requires Can(c, a) && c.past != []
  {
    match a
    case Start(p, v, pods) => c.(workers := c.workers[p := Trying(pods, Copy(c.past[v], v), 0)])
    case ForeignWrite(value) => c.(past := c.past + [value], writers := c.writers + [Foreign])
    case Delete => c.(there := false)
    case Attempt(p) =>
      var w := c.workers[p];
      var want := recall(w.copy.value, w.pods);
      if want == w.copy.value then c.(workers := c.workers[p := Stopped(Done)])
      else if !c.there then c.(workers := c.workers[p := Stopped(NotThere)])
      else if w.copy.version == |c.past| - 1 then
        c.(past := c.past + [want], writers := c.writers + [Ours(p, w.pods)], workers := c.workers[p := Stopped(Done)])
      else c.(workers := c.workers[p := Refetching(w.pods, w.attempts + 1)])
    case Refetch(p) =>
      var w := c.workers[p];
      if !c.there then c.(workers := c.workers[p := Stopped(Done)])
      else if w.attempts >= ATTEMPTS then c.(workers := c.workers[p := Stopped(GaveUp)])
      else c.(workers := c.workers[p := Trying(w.pods, Copy(c.past[|c.past| - 1], |c.past| - 1), w.attempts)])
  }

  ghost predicate Acts(recall: Memory, c: Cluster, run: seq<Action>)
    decreases |run|
  {
    c.past != [] && (run == [] || (Can(c, run[0]) && Acts(recall, Act(recall, c, run[0]), run[1..])))
  }

  ghost function After(recall: Memory, c: Cluster, run: seq<Action>): Cluster
    requires Acts(recall, c, run)
    decreases |run|
  {
    if run == [] then c else After(recall, Act(recall, c, run[0]), run[1..])
  }

  /** Every write of ours is Recall of the value it replaced, and changed it. */
  ghost predicate Chain(recall: Memory, past: seq<string>, writers: seq<Writer>) {
    && |past| == |writers| + 1
    && forall i :: 0 <= i < |writers| && writers[i].Ours? ==>
         past[i + 1] == recall(past[i], writers[i].pods) && past[i + 1] != past[i]
  }

  ghost predicate SoundWorker(past: seq<string>, w: Worker) {
    && (w.Trying? ==> Honest(past, w.copy) && w.attempts < ATTEMPTS)
    && (w.Refetching? ==> 0 < w.attempts <= ATTEMPTS)
  }

  ghost predicate Sound(recall: Memory, c: Cluster) {
    Chain(recall, c.past, c.writers) && forall p :: p in c.workers ==> SoundWorker(c.past, c.workers[p])
  }

  lemma ActKeepsChain(recall: Memory, c: Cluster, a: Action)
    requires Sound(recall, c) && Can(c, a)
    ensures Chain(recall, Act(recall, c, a).past, Act(recall, c, a).writers)
    ensures c.past <= Act(recall, c, a).past && c.writers <= Act(recall, c, a).writers
  {
    var c' := Act(recall, c, a);
    assert forall i :: 0 <= i < |c.past| ==> c.past[i] == c'.past[i];
    assert forall i :: 0 <= i < |c.writers| ==> c.writers[i] == c'.writers[i];
  }

  lemma ActKeepsSound(recall: Memory, c: Cluster, a: Action)
    requires Sound(recall, c) && Can(c, a)
    ensures Sound(recall, Act(recall, c, a))
    ensures c.past <= Act(recall, c, a).past && c.writers <= Act(recall, c, a).writers
  {
    ActKeepsChain(recall, c, a);
    var c' := Act(recall, c, a);
    forall p | p in c'.workers
      ensures SoundWorker(c'.past, c'.workers[p])
    {
      assert p in c.workers ==> SoundWorker(c.past, c.workers[p]);
    }
  }

  /**
   * Under any interleaving of any number of workers, however stale their caches, and other
   * writers, the stored values form a chain of Recall steps and foreign writes.
   */
  lemma {:induction false} WritesFormAChain(recall: Memory, c: Cluster, run: seq<Action>)
    requires Sound(recall, c) && Acts(recall, c, run)
    ensures Sound(recall, After(recall, c, run))
    ensures c.past <= After(recall, c, run).past && c.writers <= After(recall, c, run).writers
    decreases |run|
  {
    if run == [] {
    } else {
      ActKeepsSound(recall, c, run[0]);
      var c' := Act(recall, c, run[0]);
      WritesFormAChain(recall, c', run[1..]);
    }
  }

  /** No other writer, and every worker sees the pods where they are. */
  ghost predicate Unchanged(c: Cluster, run: seq<Action>, pods: Running) {
    && (forall p :: p in c.workers && !c.workers[p].Stopped? ==> c.workers[p].pods == pods)
    && (forall i :: 0 <= i < |run| ==> !run[i].ForeignWrite? && (run[i].Start? ==> run[i].pods == pods))
  }

  /** Nothing has been written since; or one thing was, and nothing more is left to write. */
  ghost predicate Settled(recall: Memory, before: seq<string>, past: seq<string>, pods: Running) {
    past == before ||
    (|past| == |before| + 1 && before < past && recall(past[|past| - 1], pods) == past[|past| - 1])
  }

  lemma {:induction false} SettledRun(recall: Memory, before: seq<string>, c: Cluster, run: seq<Action>, pods: Running)
    requires Sound(recall, c) && Acts(recall, c, run) && IdempotentAt(recall, pods) && before != []
    requires Unchanged(c, run, pods) && Settled(recall, before, c.past, pods)
    ensures Settled(recall, before, After(recall, c, run).past, pods)
    decreases |run|
  {
    if run == [] {
    } else {
      var c' := Act(recall, c, run[0]);
      ActKeepsSound(recall, c, run[0]);
      if c'.past != c.past {
        var last := c.past[|c.past| - 1];
        assert SoundWorker(c.past, c.workers[run[0].pid]);
        assert c.workers[run[0].pid].copy.value == last;
      }
      assert Unchanged(c', run[1..], pods) by {
        assert forall i :: 0 <= i < |run[1..]| ==> run[1..][i] == run[i + 1];
      }
      SettledRun(recall, before, c', run[1..], pods);
    }
  }

  /** Recall, as a function of the annotation and the pods. */
  ghost function RecallOf(kind: Kind): Memory {
    (value, pods) => Recalled(kind, value, pods)
  }

  /**
   * On an unchanged cluster with no other writer, all the workers together write at most
   * once, however many there are and however they interleave, and then there is nothing
   * left to write.
   */
  lemma QuietClusterWritesOnce(kind: Kind, c: Cluster, run: seq<Action>, pods: Running)
    requires Sound(RecallOf(kind), c) && Acts(RecallOf(kind), c, run) && Proper(kind, pods) && Unchanged(c, run, pods)
    ensures var past := After(RecallOf(kind), c, run).past;
      |past| <= |c.past| + 1 &&
      (|past| == |c.past| + 1 ==> Recalled(kind, past[|past| - 1], pods) == past[|past| - 1])
  {
    var recall := RecallOf(kind);
    forall value
      ensures recall(recall(value, pods), pods) == recall(value, pods)
    {
      RecallIsIdempotent(kind, value, pods);
    }
    SettledRun(recall, c.past, c, run, pods);
  }

  /** How many more steps a worker can take. */
  function StepsLeft(w: Worker): nat {
    match w
    case Trying(_, _, n) => if n < ATTEMPTS then 2 * (ATTEMPTS - n) else 0
    case Refetching(_, n) => if n <= ATTEMPTS then 2 * (ATTEMPTS - n) + 1 else 0
    case Stopped(_) => 0
  }

  /** A worker that has not started has all its steps left. */
  function StepsLeftOf(c: Cluster, p: Pid): nat {
    if p in c.workers then StepsLeft(c.workers[p]) else 2 * ATTEMPTS
  }

  predicate IsStepOf(a: Action, p: Pid) {
    (a.Attempt? || a.Refetch?) && a.pid == p
  }

  function StepsOf(run: seq<Action>, p: Pid): nat {
    if run == [] then 0 else (if IsStepOf(run[0], p) then 1 else 0) + StepsOf(run[1..], p)
  }

  lemma StepIsUsedUp(recall: Memory, c: Cluster, a: Action, p: Pid)
    requires Sound(recall, c) && Can(c, a)
    ensures StepsLeftOf(Act(recall, c, a), p) + (if IsStepOf(a, p) then 1 else 0) <= StepsLeftOf(c, p)
  {
    if p in c.workers {
      assert SoundWorker(c.past, c.workers[p]);
    }
  }

  /** However others interfere, a sync stops within five attempts: each worker takes ten steps at most. */
  lemma {:induction false} WorkersStop(recall: Memory, c: Cluster, run: seq<Action>, p: Pid)
    requires Sound(recall, c) && Acts(recall, c, run)
    ensures StepsOf(run, p) <= StepsLeftOf(c, p)
    ensures p !in c.workers ==> StepsOf(run, p) <= 10
    decreases |run|
  {
    if run == [] {
    } else {
      StepIsUsedUp(recall, c, run[0], p);
      ActKeepsSound(recall, c, run[0]);
      WorkersStop(recall, Act(recall, c, run[0]), run[1..], p);
    }
  }
}
