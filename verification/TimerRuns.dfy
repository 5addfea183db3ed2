/** Whole runs of a timer manager: any calls of any threads, in the order in which they take the lock. */
module TimerRuns {
  import opened Wrappers
  import opened Timers

  /** One step. Timers are named by the order in which they were made. `ago` is how long before it takes the lock a
      thread has read the clock. */
  datatype Op =
    | Tick(d: nat)
    | Add(ms: nat, cb: Option<Callback>, recurring: bool, address: nat, ago: nat)
    | Notify                                     // a thread that owes the poller a call makes it
    | Cancel(i: nat)
    | Refresh(i: nat)
    | Reset(i: nat, ms: nat, fromNow: bool)
    | GetNext
    | Expire(ago: nat, address: nat)
    | Release(i: nat)                            // the last pointer to a timer goes away

  /** A manager, the timers made for it, and which of them are still alive. */
  class Run {
    const m: TimerManager
    var made: seq<Timer>
    var alive: seq<bool>
    var owed: nat  // how many threads are about to notify the poller

    ghost predicate Valid()
      reads this, m, m.known
    {
      && m.Valid() && m.owed == owed && |alive| == |made|
      && (forall i :: 0 <= i < |made| ==> made[i] in m.ever && (alive[i] <==> made[i] in m.known))
      && (forall i, j :: 0 <= i < j < |made| ==> made[i] != made[j])
      && (forall t <- m.known :: t in made)
    }

    constructor ()
      ensures Valid() && fresh(m) && m.known == {}
    {
      m := new TimerManager();
      made, alive, owed := [], [], 0;
    }

    /** One step, if it is possible: nobody uses a timer that is gone, and no timer is made where another one lies. */
    method Do(op: Op)
      requires Valid()
      modifies this, m, m.known
      ensures Valid() && fresh(m.known - old(m.known)) && old(m.log) <= m.log
    {
      hide TimerManager.Valid;
      match op {
        case Tick(d) => m.Tick(d);
        case Add(ms, cb, recurring, address, ago) => Add(ms, cb, recurring, address, ago);
        case Notify =>
          if owed > 0 {
            m.OnTimerInsertedAtFront();
            owed := owed - 1;
          }
        case Cancel(i) =>
          if i < |made| && alive[i] {
            var ok := m.Cancel(made[i]);
          }
        case Refresh(i) =>
          if i < |made| && alive[i] {
            var ok := m.Refresh(made[i]);
          }
        case Reset(i, ms, fromNow) =>
          if i < |made| && alive[i] {
            var ok, notify := m.ResetUnderLock(made[i], ms, fromNow);
            owed := owed + if notify then 1 else 0;
          }
        case GetNext => var wait := m.GetNextTimer();
        case Expire(ago, address) =>
          if ago <= m.clock {
            var cbs, who := m.ListExpired(m.clock - ago, address, []);
          }
        case Release(i) =>
          if i < |made| && alive[i] && made[i] !in m.timers {
            m.Release(made[i]);
            alive := alive[i := false];
          }
      }
    }

    method Add(ms: nat, cb: Option<Callback>, recurring: bool, address: nat, ago: nat)
      requires Valid()
      modifies this, m
      ensures Valid() && fresh(m.known - old(m.known)) && m.log == old(m.log)
    {
      hide TimerManager.Valid;
      if ago <= m.clock && forall i :: 0 <= i < |made| && alive[i] ==> made[i].address != address {
        var t, notify := m.AddUnderLock(ms, cb, recurring, address, m.clock - ago);
        assert t !in old(m.ever);
        made, alive := made + [t], alive + [true];
        assert made[|made| - 1] == t;
        assert forall s <- old(m.known) :: s in old(made) && s in made;
        owed := owed + if notify then 1 else 0;
      }
    }
  }

  /** Any run from a new manager. As this holds of every list of steps, it holds after every step of a run.
      No wake-up is lost: the poller has been notified since it last asked, or some thread is just about to notify it,
      or no pending timer expires before the deadline it was given. One-shot timers fire at most once; a timer
      made with a callback never fires after a cancel; and a cancel says true exactly when the timer was pending: made
      with a callback, never cancelled before, and not fired as a one-shot. */
  method RunAll(ops: seq<Op>) returns (r: Run)
    ensures r.Valid()
    ensures r.m.notified || r.owed > 0 || forall t :: t in r.m.timers ==> NotAfter(r.m.deadline, t.expiration)
    ensures var log := r.m.log;
            && (forall i, j :: 0 <= i < j < |log| && log[i].Fired? && log[j] == log[i] ==> log[i].t.recurring)
            && (forall i, j :: 0 <= i < j < |log| && log[i].Cancelled? && log[i].t.armed ==> log[j] != Fired(log[i].t))
            && (forall j :: 0 <= j < |log| && log[j].Cancelled? ==>
                  var t := log[j].t;
                  log[j].ok <==> t.armed && (forall i :: 0 <= i < j ==> !(log[i].Cancelled? && log[i].t == t))
                                 && (t.recurring || forall i :: 0 <= i < j ==> log[i] != Fired(t)))
  {
    r := new Run();
    for k := 0 to |ops|
      invariant r.Valid() && fresh(r) && fresh(r.m) && fresh(r.m.known)
    {
      r.Do(ops[k]);
    }
    r.m.ValidHas();
    Awake(r.m);
    LogRight(r.m);
    LifeCycle(r.m.log);
  }

  lemma Awake(m: TimerManager)
    requires m.Valid()
    ensures m.notified || m.owed > 0 || forall t :: t in m.timers ==> NotAfter(m.deadline, t.expiration)
  {
    hide Agrees, Sorted;
  }

  lemma LogRight(m: TimerManager)
    requires m.Valid()
    ensures forall j :: 0 <= j < |m.log| ==> Right(m.log, j)
  {
    hide Sorted, Right;
  }
}
