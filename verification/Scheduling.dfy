/** The scheduler's run loop as steps of its workers: which task a worker takes, and the accounting of tasks. */
module Scheduling {
  import opened Wrappers

  datatype FiberState = INIT | HOLD | EXEC | TERM | READY | EXCEPT

  /** What an entry of the queue asks for. */
  datatype Work = Resume(fiber: nat) | Invoke(callback: nat)

  /** FiberAndThread, with a number that tells entries apart. `thread` is None for any thread. */
  datatype Task = Task(id: nat, work: Work, thread: Option<nat>)

  /** Where a worker is in its loop. `Holding`: between taking a task and counting itself out. `HandingBack`:
      counted out, about to queue a fiber that is ready again. */
  datatype Phase = Looking | Holding(task: Task) | HandingBack(fiber: nat) | Idling

  datatype State = State(queue: seq<Task>, active: nat, idle: nat, stopping: bool, autoStop: bool,
                         fibers: map<nat, FiberState>, workers: map<nat, Phase>, next: nat, done: set<nat>)

  /** A worker passes over tasks for other threads and fibers that are running somewhere. */
  predicate Eligible(t: Task, worker: nat, fibers: map<nat, FiberState>) {
    && (t.thread == None || t.thread == Some(worker))
    && !(t.work.Resume? && t.work.fiber in fibers && fibers[t.work.fiber] == EXEC)
  }

  /** The first eligible task of the queue, or its length. */
  function FirstEligible(queue: seq<Task>, worker: nat, fibers: map<nat, FiberState>): (i: nat)
    ensures i <= |queue| && (i < |queue| ==> Eligible(queue[i], worker, fibers))
    ensures forall j :: 0 <= j < i ==> !Eligible(queue[j], worker, fibers)
  {
    if queue == [] || Eligible(queue[0], worker, fibers) then 0 else 1 + FirstEligible(queue[1..], worker, fibers)
  }

  datatype Step =
    | Push(work: Work, thread: Option<nat>)        // schedule
    | PushAll(works: seq<Work>)                    // schedule of a range
    | Take(worker: nat)                            // the selection, under the lock
    | Finish(worker: nat, end: FiberState, on: nat)  // resume until it comes back, and count out
    | HandBack(worker: nat)                        // schedule of a fiber that is ready again
    | Sleep(worker: nat) | Wake(worker: nat)       // around the idle fiber
    | Change(fiber: nat, state: FiberState)        // whatever fibers do meanwhile
    | Stop                                         // stop

  /** scheduleNoLock */
  function Pushed(s: State, work: Work, thread: Option<nat>): State {
    s.(queue := s.queue + [Task(s.next, work, thread)], next := s.next + 1)
  }

  function PushedAll(s: State, works: seq<Work>): State
    decreases |works|
  {
    if works == [] then s else PushedAll(Pushed(s, works[0], None), works[1..])
  }

  predicate Ended(e: FiberState) {
    e == TERM || e == EXCEPT
  }

  /** The fiber a held task runs on: its own, or the one `on` that the worker keeps for callbacks. */
  function RunsOn(t: Task, on: nat): nat {
    if t.work.Resume? then t.work.fiber else on
  }

  /** The four completion branches: a fiber already ended is dropped; else it has run, and is to be handed back
      when READY, is left alone when ended, and is put on HOLD otherwise. */
  function Finished(s: State, worker: nat, end: FiberState, on: nat): State
    requires worker in s.workers && s.workers[worker].Holding? && s.active > 0
  {
    var t := s.workers[worker].task;
    var f := RunsOn(t, on);
    var out := s.(active := s.active - 1, done := s.done + {t.id});
    if t.work.Resume? && f in s.fibers && Ended(s.fibers[f]) then out.(workers := s.workers[worker := Looking])
    else if end == READY then out.(workers := s.workers[worker := HandingBack(f)], fibers := s.fibers[f := READY])
    else out.(workers := s.workers[worker := Looking], fibers := s.fibers[f := if Ended(end) then end else HOLD])
  }

  function Taken(s: State, worker: nat): State {
    var i := FirstEligible(s.queue, worker, s.fibers);
    if i == |s.queue| then s
    else s.(queue := s.queue[..i] + s.queue[i + 1..], active := s.active + 1,
            workers := s.workers[worker := Holding(s.queue[i])])
  }

  /** One step, or None when the worker is not where it would have to be. */
  function Apply(s: State, step: Step): Option<State> {
    match step
    case Push(work, thread) => Some(Pushed(s, work, thread))
    case PushAll(works) => Some(PushedAll(s, works))
    case Take(w) => if w in s.workers && s.workers[w].Looking? then Some(Taken(s, w)) else None
    case Finish(w, end, on) =>
      if w in s.workers && s.workers[w].Holding? && s.active > 0 then Some(Finished(s, w, end, on)) else None
    case HandBack(w) =>
      if w in s.workers && s.workers[w].HandingBack? then
        Some(Pushed(s, Resume(s.workers[w].fiber), None).(workers := s.workers[w := Looking]))
      else None
    case Sleep(w) =>
      if w in s.workers && s.workers[w].Looking? then Some(s.(idle := s.idle + 1, workers := s.workers[w := Idling])) else None
    case Wake(w) =>
      if w in s.workers && s.workers[w].Idling? && s.idle > 0 then Some(s.(idle := s.idle - 1, workers := s.workers[w := Looking]))
      else None
    case Change(f, state) => Some(s.(fibers := s.fibers[f := state]))
    case Stop => Some(s.(autoStop := true, stopping := true))
  }

  /** The steps one after the other, in any interleaving of workers; None when one is not possible. */
  function Run(s: State, steps: seq<Step>): Option<State> {
    if steps == [] then Some(s)
    else match Run(s, steps[..|steps| - 1])
      case None => None
      case Some(t) => Apply(t, steps[|steps| - 1])
  }

  /** stopping() of the base class */
  predicate Stopping(s: State) {
    s.autoStop && s.stopping && s.queue == [] && s.active == 0
  }

  function Initial(workers: set<nat>): State {
    State([], 0, 0, false, false, map[], map w | w in workers :: Looking, 0, {})
  }

  // ---- the accounting ----

  function Holders(workers: map<nat, Phase>): set<nat> {
    set w | w in workers && workers[w].Holding?
  }

  function Idlers(workers: map<nat, Phase>): set<nat> {
    set w | w in workers && workers[w].Idling?
  }

  predicate InQueue(s: State, id: nat) {
    exists i :: 0 <= i < |s.queue| && s.queue[i].id == id
  }

  predicate Held(s: State, id: nat) {
    exists w :: w in s.workers && s.workers[w].Holding? && s.workers[w].task.id == id
  }

  /** Every entry ever pushed is in exactly one place: queued once, held by one worker, or done. */
  ghost predicate Accounted(s: State) {
    && (forall i, j :: 0 <= i < j < |s.queue| ==> s.queue[i].id != s.queue[j].id)
    && (forall v, w :: v in s.workers && w in s.workers && v != w && s.workers[v].Holding? && s.workers[w].Holding? ==>
          s.workers[v].task.id != s.workers[w].task.id)
    && (forall id: nat :: InQueue(s, id) ==> id < s.next && !Held(s, id) && id !in s.done)
    && (forall id: nat :: Held(s, id) ==> id < s.next && id !in s.done)
    && (forall id :: id in s.done ==> id < s.next)
    && (forall id: nat :: id < s.next ==> InQueue(s, id) || Held(s, id) || id in s.done)
  }

  /** active_thread_count_ is the number of workers between taking a task and counting out. */
  predicate Counted(s: State) {
    s.active == |Holders(s.workers)| && s.idle == |Idlers(s.workers)|
  }

  ghost predicate Inv(s: State) {
    Accounted(s) && Counted(s)
  }

  lemma InitialInv(workers: set<nat>)
    ensures Inv(Initial(workers))
  {
    assert Holders(Initial(workers).workers) == {} && Idlers(Initial(workers).workers) == {};
  }

  /** How the two sets of workers change when one worker moves on. */
  lemma Moved(workers: map<nat, Phase>, w: nat, p: Phase)
    requires w in workers
    ensures Holders(workers[w := p]) == if p.Holding? then Holders(workers) + {w} else Holders(workers) - {w}
    ensures Idlers(workers[w := p]) == if p.Idling? then Idlers(workers) + {w} else Idlers(workers) - {w}
    ensures w in Holders(workers) <==> workers[w].Holding?
    ensures w in Idlers(workers) <==> workers[w].Idling?
  {
  }

  lemma PushedInv(s: State, work: Work, thread: Option<nat>)
    requires Inv(s)
    ensures Inv(Pushed(s, work, thread))
  {
    var t := Pushed(s, work, thread);
    assert t.queue[|s.queue|].id == s.next;
    assert forall i :: 0 <= i < |s.queue| ==> t.queue[i] == s.queue[i] && InQueue(s, s.queue[i].id);
    assert forall id :: Held(t, id) <==> Held(s, id);
    forall id ensures InQueue(t, id) <==> InQueue(s, id) || id == s.next {
      if InQueue(s, id) {
        var i :| 0 <= i < |s.queue| && s.queue[i].id == id;
        assert t.queue[i].id == id;
      }
    }
  }

  lemma {:induction false} PushedAllInv(s: State, works: seq<Work>)
    requires Inv(s)
    ensures Inv(PushedAll(s, works))
    decreases |works|
  {
    hide Inv, Pushed;
    if works == [] {
    } else {
      PushedInv(s, works[0], None);
      PushedAllInv(Pushed(s, works[0], None), works[1..]);
    }
  }

  /** The entries left in the queue when the one at `i` is taken out. */
  lemma RemovedIds(s: State, t: State, i: nat)
    requires i < |s.queue| && t.queue == s.queue[..i] + s.queue[i + 1..]
    requires forall j, k :: 0 <= j < k < |s.queue| ==> s.queue[j].id != s.queue[k].id
    ensures forall j, k :: 0 <= j < k < |t.queue| ==> t.queue[j].id != t.queue[k].id
    ensures InQueue(s, s.queue[i].id) && forall id :: InQueue(t, id) <==> InQueue(s, id) && id != s.queue[i].id
  {
    var task := s.queue[i];
    forall j | 0 <= j < |t.queue| ensures t.queue[j] == s.queue[if j < i then j else j + 1] {
    }
    forall id ensures InQueue(t, id) <==> InQueue(s, id) && id != task.id {
      if InQueue(s, id) && id != task.id {
        var j :| 0 <= j < |s.queue| && s.queue[j].id == id;
        assert t.queue[if j < i then j else j - 1].id == id;
      }
      if InQueue(t, id) {
        var j :| 0 <= j < |t.queue| && t.queue[j].id == id;
        assert s.queue[if j < i then j else j + 1].id == id;
      }
    }
  }

  /** Taking a task moves one entry from the queue to the worker. */
  lemma TakenAccounted(s: State, w: nat)
    requires Accounted(s) && w in s.workers && s.workers[w].Looking?
    ensures Accounted(Taken(s, w))
  {
    var i := FirstEligible(s.queue, w, s.fibers);
    if i < |s.queue| {
      var t, task := Taken(s, w), s.queue[i];
      RemovedIds(s, t, i);
      hide InQueue, Held, Eligible;
      forall id ensures Held(t, id) <==> Held(s, id) || id == task.id {
        HeldIs(s, t, w, id);
      }
      forall v | v in t.workers && v != w && t.workers[v].Holding? ensures t.workers[v].task.id != task.id {
        HolderHolds(s, v);
      }
    }
  }

  lemma HolderHolds(s: State, v: nat)
    requires v in s.workers && s.workers[v].Holding?
    ensures Held(s, s.workers[v].task.id)
  {
  }

  /** Another worker than `w` holds the entry. */
  predicate HeldElsewhere(workers: map<nat, Phase>, w: nat, id: nat) {
    exists v :: v in workers && v != w && workers[v].Holding? && workers[v].task.id == id
  }

  lemma HeldSplit(s: State, w: nat, id: nat)
    requires w in s.workers
    ensures Held(s, id) <==> HeldElsewhere(s.workers, w, id) || (s.workers[w].Holding? && s.workers[w].task.id == id)
  {
    if Held(s, id) {
      var v :| v in s.workers && s.workers[v].Holding? && s.workers[v].task.id == id;
      assert v != w ==> HeldElsewhere(s.workers, w, id);
    }
    if HeldElsewhere(s.workers, w, id) {
      var v :| v in s.workers && v != w && s.workers[v].Holding? && s.workers[v].task.id == id;
      assert Held(s, id);
    }
  }

  /** What workers hold before and after one of them has moved on. */
  lemma HeldIs(s: State, t: State, w: nat, id: nat)
    requires w in s.workers && w in t.workers && t.workers == s.workers[w := t.workers[w]]
    ensures Held(s, id) <==> HeldElsewhere(s.workers, w, id) || (s.workers[w].Holding? && s.workers[w].task.id == id)
    ensures Held(t, id) <==> HeldElsewhere(s.workers, w, id) || (t.workers[w].Holding? && t.workers[w].task.id == id)
  {
    HeldSplit(s, w, id);
    HeldSplit(t, w, id);
    if HeldElsewhere(t.workers, w, id) {
      var v :| v in t.workers && v != w && t.workers[v].Holding? && t.workers[v].task.id == id;
      assert s.workers[v] == t.workers[v];
    }
    if HeldElsewhere(s.workers, w, id) {
      var v :| v in s.workers && v != w && s.workers[v].Holding? && s.workers[v].task.id == id;
      assert s.workers[v] == t.workers[v];
    }
  }

  lemma TakenInv(s: State, w: nat)
    requires Inv(s) && w in s.workers && s.workers[w].Looking?
    ensures Inv(Taken(s, w))
  {
    hide Accounted;
    TakenAccounted(s, w);
    var i := FirstEligible(s.queue, w, s.fibers);
    if i < |s.queue| {
      Moved(s.workers, w, Holding(s.queue[i]));
      assert Idlers(s.workers) - {w} == Idlers(s.workers);
    }
  }

  /** Counting out moves the entry held to those that are done. */
  lemma FinishedAccounted(s: State, t: State, w: nat)
    requires Accounted(s) && w in s.workers && s.workers[w].Holding? && w in t.workers && !t.workers[w].Holding?
    requires t.workers == s.workers[w := t.workers[w]] && t.queue == s.queue && t.next == s.next
    requires t.done == s.done + {s.workers[w].task.id}
    ensures Accounted(t)
  {
    var out := s.workers[w].task.id;
    assert Held(s, out);
    forall id ensures InQueue(t, id) <==> InQueue(s, id) {
    }
    forall id ensures Held(t, id) <==> Held(s, id) && id != out {
      HeldIs(s, t, w, id);
    }
  }

  lemma FinishedInv(s: State, w: nat, end: FiberState, on: nat)
    requires Inv(s) && w in s.workers && s.workers[w].Holding? && s.active > 0
    ensures Inv(Finished(s, w, end, on))
  {
    hide Accounted;
    var t := Finished(s, w, end, on);
    FinishedAccounted(s, t, w);
    Moved(s.workers, w, t.workers[w]);
    assert Idlers(s.workers) - {w} == Idlers(s.workers);
  }

  /** A worker that holds nothing before and after changes no account. */
  lemma IdleAccounted(s: State, t: State, w: nat)
    requires Accounted(s) && w in s.workers && w in t.workers && !s.workers[w].Holding? && !t.workers[w].Holding?
    requires t.workers == s.workers[w := t.workers[w]] && t.queue == s.queue && t.next == s.next && t.done == s.done
    ensures Accounted(t)
  {
    forall id ensures InQueue(t, id) <==> InQueue(s, id) {
    }
    forall id ensures Held(t, id) <==> Held(s, id) {
      HeldIs(s, t, w, id);
    }
  }

  lemma SameAccounted(s: State, t: State)
    requires Inv(s) && t.workers == s.workers && t.queue == s.queue && t.next == s.next && t.done == s.done
    requires t.active == s.active && t.idle == s.idle
    ensures Inv(t)
  {
    forall id ensures (InQueue(t, id) <==> InQueue(s, id)) && (Held(t, id) <==> Held(s, id)) {
    }
  }

  /** What every step keeps. */
  lemma StepInv(s: State, step: Step)
    requires Inv(s) && Apply(s, step).Some?
    ensures Inv(Apply(s, step).value)
  {
    hide Inv, Accounted, Taken, Finished, Pushed, PushedAll;
    var t := Apply(s, step).value;
    match step {
      case Push(work, thread) => PushedInv(s, work, thread);
      case PushAll(works) => PushedAllInv(s, works);
      case Take(w) => TakenInv(s, w);
      case Finish(w, end, on) => FinishedInv(s, w, end, on);
      case HandBack(w) => HandBackInv(s, w);
      case Sleep(w) => SleepInv(s, t, w);
      case Wake(w) => SleepInv(s, t, w);
      case Change(f, state) => SameAccounted(s, t);
      case Stop => SameAccounted(s, t);
    }
  }

  lemma HandBackInv(s: State, w: nat)
    requires Inv(s) && w in s.workers && s.workers[w].HandingBack?
    ensures Inv(Pushed(s, Resume(s.workers[w].fiber), None).(workers := s.workers[w := Looking]))
  {
    hide Accounted;
    var t := Pushed(s, Resume(s.workers[w].fiber), None);
    PushedInv(s, Resume(s.workers[w].fiber), None);
    IdleAccounted(t, t.(workers := t.workers[w := Looking]), w);
    Moved(s.workers, w, Looking);
    assert Idlers(s.workers) - {w} == Idlers(s.workers) && Holders(s.workers) - {w} == Holders(s.workers);
  }

  lemma SleepInv(s: State, t: State, w: nat)
    requires Inv(s) && w in s.workers
    requires (s.workers[w].Looking? && t == s.(idle := s.idle + 1, workers := s.workers[w := Idling]))
             || (s.workers[w].Idling? && s.idle > 0 && t == s.(idle := s.idle - 1, workers := s.workers[w := Looking]))
    ensures Inv(t)
  {
    hide Accounted;
    IdleAccounted(s, t, w);
    Moved(s.workers, w, t.workers[w]);
    assert Holders(s.workers) - {w} == Holders(s.workers);
  }

  /** Accounting over any interleaving of any workers. */
  lemma {:induction false} Accounting(workers: set<nat>, steps: seq<Step>)
    requires Run(Initial(workers), steps).Some?
    ensures Inv(Run(Initial(workers), steps).value)
    decreases |steps|
  {
    hide Inv, Initial, Apply;
    if steps == [] {
      InitialInv(workers);
    } else {
      var init := steps[..|steps| - 1];
      Accounting(workers, init);
      StepInv(Run(Initial(workers), init).value, steps[|steps| - 1]);
    }
  }

  /** No step is refused for want of a count: a worker that holds a task is counted, and so is one that idles. */
  lemma CountsSuffice(s: State, w: nat)
    requires Inv(s) && w in s.workers
    ensures s.workers[w].Holding? ==> s.active > 0
    ensures s.workers[w].Idling? ==> s.idle > 0
  {
    hide Accounted;
    assert s.workers[w].Holding? ==> w in Holders(s.workers);
    assert s.workers[w].Idling? ==> w in Idlers(s.workers);
  }

  lemma NoHolders(s: State)
    requires Inv(s)
    ensures (forall w :: w in s.workers ==> !s.workers[w].Holding?) ==> s.active == 0
  {
    hide Accounted;
    if forall w :: w in s.workers ==> !s.workers[w].Holding? {
      assert Holders(s.workers) == {};
    }
  }

  /** Every task that names a thread is held by the worker of that thread, if by any. */
  predicate Placed(s: State) {
    forall w :: w in s.workers && s.workers[w].Holding? ==>
      s.workers[w].task.thread == None || s.workers[w].task.thread == Some(w)
  }

  lemma {:induction false} PushedAllWorkers(s: State, works: seq<Work>)
    ensures PushedAll(s, works).workers == s.workers
    decreases |works|
  {
    if works == [] {
    } else {
      PushedAllWorkers(Pushed(s, works[0], None), works[1..]);
    }
  }

  lemma StepPlaced(s: State, step: Step)
    requires Placed(s) && Apply(s, step).Some?
    ensures Placed(Apply(s, step).value)
  {
    hide PushedAll;
    if step.PushAll? {
      PushedAllWorkers(s, step.works);
    }
  }

  /** In every state of every run, whichever way workers interleave, a task that names a thread is held by no other
      worker. */
  lemma {:induction false} HeldWhereAsked(workers: set<nat>, steps: seq<Step>)
    requires Run(Initial(workers), steps).Some?
    ensures var s := Run(Initial(workers), steps).value;
            forall w :: w in s.workers && s.workers[w].Holding? ==>
              s.workers[w].task.thread == None || s.workers[w].task.thread == Some(w)
    decreases |steps|
  {
    hide Apply;
    if steps == [] {
    } else {
      HeldWhereAsked(workers, steps[..|steps| - 1]);
      StepPlaced(Run(Initial(workers), steps[..|steps| - 1]).value, steps[|steps| - 1]);
    }
  }

  /** Stopping is true only when nothing is queued and no worker is between taking a task and counting out; every
      entry is then done. */
  lemma StoppingMeansQuiet(workers: set<nat>, steps: seq<Step>)
    requires Run(Initial(workers), steps).Some? && Stopping(Run(Initial(workers), steps).value)
    ensures var s := Run(Initial(workers), steps).value;
            && s.queue == [] && (forall w :: w in s.workers ==> !s.workers[w].Holding?)
            && forall id: nat :: id < s.next <==> id in s.done
  {
    hide Run, Initial;
    Accounting(workers, steps);
    var s := Run(Initial(workers), steps).value;
    forall w | w in s.workers ensures !s.workers[w].Holding? {
      CountsSuffice(s, w);
    }
  }

  /** The window that stopping does not cover: a worker has counted itself out but not yet queued the fiber that
      is ready again. */
  lemma HandBackWindow()
    ensures var steps := [Push(Resume(7), None), Take(1), Stop, Finish(1, READY, 0)];
            && Run(Initial({1}), steps).Some?
            && var s := Run(Initial({1}), steps).value;
               Stopping(s) && Apply(s, HandBack(1)).Some? && Apply(s, HandBack(1)).value.queue != []
  {
    var push, take, finish := Push(Resume(7), None), Take(1), Finish(1, READY, 0);
    var t := Task(0, Resume(7), None);
    var s0, s1, s2 := One([], 0, 0, false, map[], Looking, {}), One([t], 1, 0, false, map[], Looking, {}),
                      One([], 1, 1, false, map[], Holding(t), {});
    var s3, s4 := One([], 1, 1, true, map[], Holding(t), {}), One([], 1, 0, true, map[7 := READY], HandingBack(7), {0});
    OneTask(t);
    OneEnds(t);
    hide *;
    RunNone(s0);
    RunOn(s0, [], s0, push, [push]);
    RunOn(s0, [push], s1, take, [push, take]);
    RunOn(s0, [push, take], s2, Stop, [push, take, Stop]);
    RunOn(s0, [push, take, Stop], s3, finish, [push, take, Stop, finish]);
  }

  /** A scheduler with one worker. */
  function One(queue: seq<Task>, next: nat, active: nat, stop: bool, fibers: map<nat, FiberState>, w: Phase, done: set<nat>): State {
    State(queue, active, 0, stop, stop, fibers, map[1 := w], next, done)
  }

  lemma OneTask(t: Task)
    requires t == Task(0, Resume(7), None)
    ensures Initial({1}) == One([], 0, 0, false, map[], Looking, {})
    ensures Apply(One([], 0, 0, false, map[], Looking, {}), Push(Resume(7), None)) == Some(One([t], 1, 0, false, map[], Looking, {}))
    ensures Apply(One([t], 1, 0, false, map[], Looking, {}), Take(1)) == Some(One([], 1, 1, false, map[], Holding(t), {}))
  {
    assert Initial({1}).workers == map[1 := Looking];
    assert FirstEligible([t], 1, map[]) == 0;
    assert [t][..0] + [t][1..] == [] && [] + [t] == [t];
    assert map[1 := Looking][1 := Holding(t)] == map[1 := Holding(t)];
  }

  lemma OneEnds(t: Task)
    requires t == Task(0, Resume(7), None)
    ensures Apply(One([], 1, 1, false, map[], Holding(t), {}), Stop) == Some(One([], 1, 1, true, map[], Holding(t), {}))
    ensures var s := One([], 1, 0, true, map[7 := READY], HandingBack(7), {0});
            && Apply(One([], 1, 1, true, map[], Holding(t), {}), Finish(1, READY, 0)) == Some(s)
            && Stopping(s) && Apply(s, HandBack(1)).Some? && Apply(s, HandBack(1)).value.queue != []
  {
    assert map[1 := Holding(t)][1 := HandingBack(7)] == map[1 := HandingBack(7)];
    assert map[][7 := READY] == map[7 := READY] && {} + {0} == {0};
  }

  lemma RunNone(s: State)
    ensures Run(s, []) == Some(s)
  {
  }

  lemma RunOn(s: State, steps: seq<Step>, t: State, step: Step, all: seq<Step>)
    requires Run(s, steps) == Some(t) && all == steps + [step]
    ensures Run(s, all) == Apply(t, step)
  {
    assert all[..|steps|] == steps;
  }

  /** Once stopping is true and nothing new is scheduled from outside, only such a hand-back makes it false again. */
  lemma StoppingLasts(s: State, step: Step)
    requires Inv(s) && Stopping(s) && Apply(s, step).Some? && !step.Push? && !step.PushAll?
    ensures Stopping(Apply(s, step).value) <==> !step.HandBack?
  {
  }

  // ---- the scheduler ----

  class Scheduler {
    var queue: seq<Task>
    var active: nat
    var idle: nat
    var stopping: bool
    var autoStop: bool
    var fibers: map<nat, FiberState>
    ghost var workers: map<nat, Phase>
    var next: nat
    ghost var done: set<nat>

    ghost function View(): State
      reads this
    {
      State(queue, active, idle, stopping, autoStop, fibers, workers, next, done)
    }

    constructor (ghost threads: set<nat>)
      ensures View() == Initial(threads)
    {
      queue, active, idle, stopping, autoStop, fibers, next := [], 0, 0, false, false, map[], 0;
      workers, done := map w | w in threads :: Looking, {};
    }

    /** scheduleNoLock: the queue was empty, so somebody must be woken. */
    method ScheduleNoLock(work: Work, thread: Option<nat>) returns (tickle: bool)
      modifies this
      ensures View() == Pushed(old(View()), work, thread) && (tickle <==> old(queue) == [])
    {
      tickle := |queue| == 0;
      queue := queue + [Task(next, work, thread)];
      next := next + 1;
    }

    /** schedule of a range. */
    method ScheduleAll(works: seq<Work>) returns (tickle: bool)
      modifies this
      ensures Apply(old(View()), PushAll(works)) == Some(View()) && (tickle <==> works != [] && old(queue) == [])
      ensures |queue| == |old(queue)| + |works| && old(queue) <= queue
      ensures forall i :: 0 <= i < |works| ==> queue[|old(queue)| + i] == Task(old(next) + i, works[i], None)
    {
      tickle := false;
      ghost var s := View();
      for i := 0 to |works|
        invariant PushedAll(View(), works[i..]) == PushedAll(s, works)
        invariant |queue| == |old(queue)| + i && old(queue) <= queue && next == old(next) + i
        invariant forall k :: 0 <= k < i ==> queue[|old(queue)| + k] == Task(old(next) + k, works[k], None)
        invariant tickle <==> i > 0 && old(queue) == []
      {
        assert works[i..][0] == works[i] && works[i..][1..] == works[i + 1..];
        var need := ScheduleNoLock(works[i], None);
        tickle := need || tickle;
      }
    }

    /** The selection of run, under the lock. `tickle`: there is something left that others should look at. The task
        taken is the first that this thread may run and whose fiber is not running. */
    method Take(worker: nat) returns (task: Option<Task>, tickle: bool)
      requires worker in workers && workers[worker].Looking?
      modifies this
      ensures Apply(old(View()), Step.Take(worker)) == Some(View())
      ensures task.Some? ==>
                var t := task.value;
                && (t.thread == None || t.thread == Some(worker))
                && !(t.work.Resume? && t.work.fiber in old(fibers) && old(fibers)[t.work.fiber] == EXEC)
      ensures var i := FirstEligible(old(queue), worker, old(fibers));
              && task == (if i == |old(queue)| then None else Some(old(queue)[i]))
              && queue == (if i == |old(queue)| then old(queue) else old(queue)[..i] + old(queue)[i + 1..])
              && (forall j :: 0 <= j < i ==>
                    var t := old(queue)[j];
                    || (t.thread.Some? && t.thread.value != worker)
                    || (t.work.Resume? && t.work.fiber in old(fibers) && old(fibers)[t.work.fiber] == EXEC))
              && (tickle <==> i + 1 < |old(queue)|
                              || exists j :: 0 <= j < i && old(queue)[j].thread.Some? && old(queue)[j].thread.value != worker)
    {
      hide *;
      task, tickle := None, false;
      var it: nat := 0;
      ghost var s := View();
      ViewIs();
      while it < |queue| && task == None
        invariant it <= |queue| && task == None
        invariant forall j :: 0 <= j < it ==>
                    || (queue[j].thread.Some? && queue[j].thread.value != worker)
                    || (queue[j].work.Resume? && queue[j].work.fiber in fibers && fibers[queue[j].work.fiber] == EXEC)
        invariant tickle <==> exists j :: 0 <= j < it && queue[j].thread.Some? && queue[j].thread.value != worker
      {
        var t := queue[it];
        if t.thread.Some? && t.thread.value != worker {
          it := it + 1;
          tickle := true;
          continue;
        }
        if t.work.Resume? && t.work.fiber in fibers && fibers[t.work.fiber] == EXEC {
          it := it + 1;
          continue;
        }
        break;
      }
      PassedOver(queue, worker, fibers, it);
      FirstIs(queue, worker, fibers, it);
      TakenIs(s, worker);
      ViewIs();
      if it < |queue| {
        task := Some(queue[it]);
        tickle := tickle || it + 1 != |queue|;
        queue, active := queue[..it] + queue[it + 1..], active + 1;
        workers := workers[worker := Holding(task.value)];
        ViewIs();
      }
    }

    lemma ViewIs()
      ensures View() == State(queue, active, idle, stopping, autoStop, fibers, workers, next, done)
    {
    }

    /** What run does with a task once its fiber has come back: `end` is how the fiber comes back and `on` the
        fiber that callbacks run on. */
    method Finish(worker: nat, task: Task, end: FiberState, on: nat) returns (handBack: bool)
      requires Inv(View()) && worker in workers && workers[worker] == Holding(task)
      modifies this
      ensures Apply(old(View()), Step.Finish(worker, end, on)) == Some(View()) && Inv(View())
      ensures active == old(active) - 1 && queue == old(queue) && task.id in done
      ensures var f := if task.work.Resume? then task.work.fiber else on;
              var over := task.work.Resume? && f in old(fibers) && (old(fibers)[f] == TERM || old(fibers)[f] == EXCEPT);
              && (handBack <==> !over && end == READY)
              && workers[worker] == (if handBack then HandingBack(f) else Looking)
              && (over ==> fibers == old(fibers))
              && (!over ==> fibers == old(fibers)[f := if end == READY || end == TERM || end == EXCEPT then end else HOLD])
    {
      hide *;
      ViewIs();
      ghost var s := View();
      CountsSuffice(s, worker);
      FinishedIs(s, worker, end, on);
      StepInv(s, Step.Finish(worker, end, on));
      EndedIs();
      RunsOnIs(task, on);
      var f := RunsOn(task, on);
      active := active - 1;
      done := done + {task.id};
      handBack := false;
      if task.work.Resume? && f in fibers && Ended(fibers[f]) {
        workers := workers[worker := Looking];
      } else if end == READY {
        fibers := fibers[f := READY];
        workers := workers[worker := HandingBack(f)];
        handBack := true;
      } else {
        fibers := fibers[f := if Ended(end) then end else HOLD];
        workers := workers[worker := Looking];
      }
      ViewIs();
    }

    /** The fiber that is ready again goes to the end of the queue, for any thread. */
    method HandBack(worker: nat, fiber: nat) returns (tickle: bool)
      requires Inv(View()) && worker in workers && workers[worker] == HandingBack(fiber)
      modifies this
      ensures Apply(old(View()), Step.HandBack(worker)) == Some(View()) && Inv(View())
      ensures tickle <==> old(queue) == []
    {
      StepInv(View(), Step.HandBack(worker));
      tickle := ScheduleNoLock(Resume(fiber), None);
      workers := workers[worker := Looking];
    }

    /** stopping */
    method IsStopping() returns (b: bool)
      requires Inv(View())
      ensures b <==> Stopping(View())
      ensures b <==> autoStop && stopping && queue == [] && forall w :: w in workers ==> !workers[w].Holding?
      ensures b ==> queue == [] && forall w :: w in workers ==> !workers[w].Holding?
    {
      b := autoStop && stopping && |queue| == 0 && active == 0;
      NoHolders(View());
      forall w | w in workers && workers[w].Holding? ensures active > 0 {
        CountsSuffice(View(), w);
      }
    }
  }

  lemma EndedIs()
    ensures forall e :: Ended(e) <==> e == TERM || e == EXCEPT
  {
  }

  lemma RunsOnIs(t: Task, on: nat)
    ensures RunsOn(t, on) == if t.work.Resume? then t.work.fiber else on
  {
  }

  lemma FinishedIs(s: State, w: nat, end: FiberState, on: nat)
    requires w in s.workers && s.workers[w].Holding? && s.active > 0
    ensures var t := s.workers[w].task;
            var f := RunsOn(t, on);
            Apply(s, Step.Finish(w, end, on))
            == if t.work.Resume? && f in s.fibers && Ended(s.fibers[f]) then
                 Some(s.(active := s.active - 1, done := s.done + {t.id}, workers := s.workers[w := Looking]))
               else if end == READY then
                 Some(s.(active := s.active - 1, done := s.done + {t.id}, workers := s.workers[w := HandingBack(f)],
                         fibers := s.fibers[f := READY]))
               else
                 Some(s.(active := s.active - 1, done := s.done + {t.id}, workers := s.workers[w := Looking],
                         fibers := s.fibers[f := if Ended(end) then end else HOLD]))
  {
    hide Ended, RunsOn;
  }

  lemma TakenIs(s: State, w: nat)
    requires w in s.workers && s.workers[w].Looking?
    ensures var i := FirstEligible(s.queue, w, s.fibers);
            Apply(s, Step.Take(w))
            == Some(if i == |s.queue| then s
                    else s.(queue := s.queue[..i] + s.queue[i + 1..], active := s.active + 1,
                            workers := s.workers[w := Holding(s.queue[i])]))
  {
    hide Eligible, FirstEligible;
    assert Apply(s, Step.Take(w)) == Some(Taken(s, w));
  }

  /** Which tasks a worker passes over. */
  lemma PassedOver(queue: seq<Task>, worker: nat, fibers: map<nat, FiberState>, i: nat)
    requires i <= |queue|
    requires forall j :: 0 <= j < i ==>
               || (queue[j].thread.Some? && queue[j].thread.value != worker)
               || (queue[j].work.Resume? && queue[j].work.fiber in fibers && fibers[queue[j].work.fiber] == EXEC)
    ensures forall j :: 0 <= j < i ==> !Eligible(queue[j], worker, fibers)
    ensures i < |queue| && (queue[i].thread.Some? ==> queue[i].thread.value == worker)
            && !(queue[i].work.Resume? && queue[i].work.fiber in fibers && fibers[queue[i].work.fiber] == EXEC)
            ==> Eligible(queue[i], worker, fibers)
  {
  }

  /** Everything before the first eligible task is not eligible, so it is the first one that is. */
  lemma FirstIs(queue: seq<Task>, worker: nat, fibers: map<nat, FiberState>, i: nat)
    requires i <= |queue| && forall j :: 0 <= j < i ==> !Eligible(queue[j], worker, fibers)
    requires i < |queue| ==> Eligible(queue[i], worker, fibers)
    ensures FirstEligible(queue, worker, fibers) == i
  {
    hide Eligible;
  }
}
