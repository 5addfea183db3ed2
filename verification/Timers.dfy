/** The timer manager: an ordered set keyed by a field that changes, the wake-up protocol with the poller, and the
    life cycle of timers. */
module Timers {
  import opened Wrappers

  /** A callback, by name. */
  type Callback = nat

  class Timer {
    const address: nat    // where the object lies: the tie-break of the order
    const recurring: bool
    const armed: bool     // made with a callback
    var ms: nat
    var expiration: nat
    var cb: Option<Callback>

    /** Timer(ms, cb, recurring, manager), at time `now`. */
    constructor (address: nat, ms: nat, cb: Option<Callback>, recurring: bool, now: nat)
      ensures this.address == address && this.ms == ms && this.cb == cb && this.recurring == recurring
      ensures armed == cb.Some? && expiration == now + ms
    {
      this.address, this.ms, this.cb, this.recurring, expiration := address, ms, cb, recurring, now + ms;
      armed := cb.Some?;
    }
  }

  /** Timer::Comparator on two timers. */
  predicate Before(a: Timer, b: Timer)
    reads a, b
  {
    a.expiration < b.expiration || (a.expiration == b.expiration && a.address < b.address)
  }

  /** The order of a std::set: strictly increasing. */
  predicate Sorted(ts: seq<Timer>)
    reads ts
  {
    forall i, j :: 0 <= i < j < |ts| ==> Before(ts[i], ts[j])
  }

  /** `d`, the deadline the poller knows, is not after `e`; without a deadline it sleeps for ever. */
  predicate NotAfter(d: Option<nat>, e: nat) {
    d.Some? && d.value <= e
  }

  // ---- the past of a manager ----

  /** What has happened to timers: a callback appended by listExpiredCb, and a cancel with its answer. */
  datatype Event = Fired(t: Timer) | Cancelled(t: Timer, ok: bool)

  /** What is still to come for a timer after these events: one-shot timers fire once, and a cancel ends a timer
      that was made with a callback. */
  predicate ToCome(log: seq<Event>, t: Timer) {
    && (t.recurring || Fired(t) !in log)
    && !(t.armed && (Cancelled(t, true) in log || Cancelled(t, false) in log))
  }

  /** Event `j` is right after those before it. */
  predicate Right(log: seq<Event>, j: nat)
    requires j < |log|
  {
    match log[j]
    case Fired(t) => ToCome(log[..j], t)
    case Cancelled(t, ok) => ok <==> t.armed && ToCome(log[..j], t)
  }

  /** The log is right, it speaks of timers made, and the timers pending are those with something to come. */
  ghost predicate Agrees(log: seq<Event>, ever: set<Timer>, pending: seq<Timer>) {
    && (forall j :: 0 <= j < |log| ==> Right(log, j))
    && (forall e <- log :: e.t in ever)
    && (forall t :: t in pending ==> t in ever)
    && (forall t <- ever :: t in pending <==> ToCome(log, t))
  }

  function Firings(who: seq<Timer>): (log: seq<Event>)
    ensures |log| == |who| && forall i :: 0 <= i < |who| ==> log[i] == Fired(who[i])
  {
    if who == [] then [] else Firings(who[..|who| - 1]) + [Fired(who[|who| - 1])]
  }

  lemma RightStays(log: seq<Event>, e: Event)
    requires forall j :: 0 <= j < |log| ==> Right(log, j)
    ensures forall j :: 0 <= j < |log| ==> Right(log + [e], j)
  {
    forall j | 0 <= j < |log| ensures Right(log + [e], j) {
      assert Right(log, j) && (log + [e])[..j] == log[..j];
    }
  }

  lemma OneMore(log: seq<Event>, e: Event, ever: set<Timer>, before: seq<Timer>, after: seq<Timer>)
    requires Agrees(log, ever, before) && e.t in ever
    requires match e case Fired(t) => ToCome(log, t) case Cancelled(t, ok) => ok <==> t.armed && ToCome(log, t)
    requires forall t :: t in after <==>
               if t == e.t then t in before && (if e.Fired? then t.recurring else !t.armed) else t in before
    ensures Agrees(log + [e], ever, after)
  {
    RightStays(log, e);
    assert (log + [e])[..|log|] == log;
    forall t | t in ever && t != e.t ensures ToCome(log + [e], t) <==> ToCome(log, t) {
    }
  }

  lemma {:induction false} AllFired(log: seq<Event>, who: seq<Timer>, ever: set<Timer>, before: seq<Timer>, after: seq<Timer>)
    requires Agrees(log, ever, before)
    requires forall i :: 0 <= i < |who| ==> who[i] in before
    requires forall i, j :: 0 <= i < j < |who| ==> who[i] != who[j]
    requires forall t :: t in after <==> t in before && (t in who ==> t.recurring)
    ensures Agrees(log + Firings(who), ever, after)
    decreases |who|
  {
    if who == [] {
      assert log + Firings(who) == log;
    } else {
      var init, last := who[..|who| - 1], who[|who| - 1];
      assert who == init + [last] && last !in init;
      var between := Without(before, init);
      WithoutIs(before, init);
      AllFired(log, init, ever, before, between);
      OneMore(log + Firings(init), Fired(last), ever, between, after);
      assert log + Firings(who) == log + Firings(init) + [Fired(last)];
    }
  }

  /** The timers left pending when those of `who` have fired. */
  function Without(pending: seq<Timer>, who: seq<Timer>): seq<Timer> {
    if pending == [] then []
    else (if pending[0] in who && !pending[0].recurring then [] else [pending[0]]) + Without(pending[1..], who)
  }

  lemma {:induction false} WithoutIs(pending: seq<Timer>, who: seq<Timer>)
    ensures forall t :: t in Without(pending, who) <==> t in pending && (t in who ==> t.recurring)
  {
    if pending == [] {
    } else {
      WithoutIs(pending[1..], who);
    }
  }

  lemma OneMade(log: seq<Event>, t: Timer, ever: set<Timer>, before: seq<Timer>, after: seq<Timer>)
    requires Agrees(log, ever, before) && t !in ever
    requires forall s :: s in after <==> s == t || s in before
    ensures Agrees(log, ever + {t}, after)
  {
    assert forall e <- log :: e.t != t;
    assert Fired(t).t == t && Cancelled(t, true).t == t && Cancelled(t, false).t == t;
  }

  /** The life cycle, read off a log that is right at every event: a one-shot timer fires at most once; a timer
      made with a callback never fires after a cancel; and a cancel says true exactly when the timer was made with
      a callback, had not been cancelled, and had not fired as a one-shot. */
  lemma LifeCycle(log: seq<Event>)
    requires forall j :: 0 <= j < |log| ==> Right(log, j)
    ensures forall i, j :: 0 <= i < j < |log| && log[i].Fired? && log[j] == log[i] ==> log[i].t.recurring
    ensures forall i, j :: 0 <= i < j < |log| && log[i].Cancelled? && log[i].t.armed ==> log[j] != Fired(log[i].t)
    ensures forall j :: 0 <= j < |log| && log[j].Cancelled? ==>
              var t := log[j].t;
              log[j].ok <==> t.armed && (forall i :: 0 <= i < j ==> !(log[i].Cancelled? && log[i].t == t))
                             && (t.recurring || forall i :: 0 <= i < j ==> log[i] != Fired(t))
  {
    forall i, j | 0 <= i < j < |log|
      ensures log[i].Fired? && log[j] == log[i] ==> log[i].t.recurring
      ensures log[i].Cancelled? && log[i].t.armed ==> log[j] != Fired(log[i].t)
    {
      assert Right(log, j) && log[..j][i] == log[i];
    }
    forall j | 0 <= j < |log| && log[j].Cancelled?
      ensures var t := log[j].t;
              log[j].ok <==> t.armed && (forall i :: 0 <= i < j ==> !(log[i].Cancelled? && log[i].t == t))
                             && (t.recurring || forall i :: 0 <= i < j ==> log[i] != Fired(t))
    {
      CancelAnswer(log, j);
    }
  }

  lemma CancelAnswer(log: seq<Event>, j: nat)
    requires j < |log| && log[j].Cancelled? && Right(log, j)
    ensures var t := log[j].t;
            log[j].ok <==> t.armed && (forall i :: 0 <= i < j ==> !(log[i].Cancelled? && log[i].t == t))
                           && (t.recurring || forall i :: 0 <= i < j ==> log[i] != Fired(t))
  {
    var t, before := log[j].t, log[..j];
    assert forall i :: 0 <= i < j ==> before[i] == log[i];
    assert forall i :: 0 <= i < j && log[i].Cancelled? && log[i].t == t ==> log[i] == Cancelled(t, log[i].ok);
  }

  /** getNextTimer's answer when no timer is pending: ~0ull. */
  const FOREVER: nat := 0xFFFF_FFFF_FFFF_FFFF

  class TimerManager {
    var timers: seq<Timer>
    var tickled: bool
    var clock: nat                    // GetElapsedMS, which never runs backwards
    ghost var deadline: Option<nat>   // what the last getNextTimer told the poller to wait for
    ghost var notified: bool          // onTimerInsertedAtFront has been called since then
    ghost var owed: nat               // calls of it that threads have decided on but not made yet
    ghost var known: set<Timer>       // the timers of this manager that are still alive
    ghost var ever: set<Timer>        // all timers it has ever made
    ghost var log: seq<Event>

    /** The set is in order, of timers that are alive, none of which lies where another does; and no timer starts in
        the future. */
    ghost predicate Ordered()
      reads this`timers, this`clock, this`known, known
    {
      && (forall i :: 0 <= i < |timers| ==> timers[i] in known)
      && Sorted(timers)
      && (forall s, t :: s in known && t in known && s != t ==> s.address != t.address)
      && (forall t :: t in known ==> t.ms <= t.expiration <= clock + t.ms)
    }

    /** No lost wake-up: the poller has been notified since it last asked, or a thread is about to notify it, or no
        pending timer expires before the deadline it was given. */
    ghost predicate Wakes()
      reads this`timers, this`tickled, this`deadline, this`notified, this`owed, this`known, known
    {
      && (tickled ==> notified || owed > 0)
      && (tickled || forall i :: 0 <= i < |timers| && timers[i] in known ==> NotAfter(deadline, timers[i].expiration))
    }

    /** A timer made with a callback has it exactly while it is pending. */
    ghost predicate Armed()
      reads this`timers, this`known, known
    {
      forall t <- known :: t.cb.Some? <==> t.armed && t in timers
    }

    ghost predicate Valid()
      reads this, known
    {
      Ordered() && Wakes() && Armed() && known <= ever && Agrees(log, ever, timers)
    }

    constructor ()
      ensures Valid() && known == ever == {} && timers == [] && log == [] && owed == 0
    {
      timers, tickled, clock := [], false, 0;
      deadline, notified, owed := None, false, 0;
      known, ever, log := {}, {}, [];
    }

    /** Time passes. */
    method Tick(d: nat)
      requires Valid()
      modifies this`clock
      ensures Valid() && clock == old(clock) + d
    {
      clock := clock + d;
    }

    /** The last pointer to a timer that is not pending goes away, and with it the timer. */
    method Release(t: Timer)
      requires Valid() && t in known && t !in timers
      modifies this`known
      ensures Valid() && known == old(known) - {t}
    {
      hide Agrees, Sorted;
      known := known - {t};
    }

    /** lower_bound: the first timer that is not before the key. */
    method LowerBound(expiration: nat, address: nat) returns (i: nat)
      requires Sorted(timers)
      ensures i <= |timers|
      ensures forall j :: 0 <= j < i ==>
                timers[j].expiration < expiration || (timers[j].expiration == expiration && timers[j].address < address)
      ensures forall j :: i <= j < |timers| ==>
                !(timers[j].expiration < expiration || (timers[j].expiration == expiration && timers[j].address < address))
    {
      i := 0;
      while i < |timers|
            && (timers[i].expiration < expiration || (timers[i].expiration == expiration && timers[i].address < address))
        invariant i <= |timers|
        invariant forall j :: 0 <= j < i ==>
                    timers[j].expiration < expiration || (timers[j].expiration == expiration && timers[j].address < address)
      {
        i := i + 1;
      }
      forall j | i <= j < |timers|
        ensures !(timers[j].expiration < expiration || (timers[j].expiration == expiration && timers[j].address < address))
      {
        assert j == i || Before(timers[i], timers[j]);
      }
    }

    /** insert: the timer goes where the order has it. */
    method Insert(t: Timer) returns (i: nat)
      requires Sorted(timers) && t !in timers && forall s :: s in timers ==> s.address != t.address
      modifies this`timers
      ensures i <= |old(timers)| && timers == old(timers)[..i] + [t] + old(timers)[i..] && Sorted(timers)
    {
      i := LowerBound(t.expiration, t.address);
      timers := timers[..i] + [t] + timers[i..];
      Inserted(old(timers), t, i);
    }

    static lemma Inserted(ts: seq<Timer>, t: Timer, i: nat)
      requires Sorted(ts) && i <= |ts|
      requires forall j :: 0 <= j < i ==> Before(ts[j], t)
      requires forall j :: i <= j < |ts| ==> !Before(ts[j], t) && ts[j].address != t.address
      ensures Sorted(ts[..i] + [t] + ts[i..])
    {
      var more := ts[..i] + [t] + ts[i..];
      forall x, y | 0 <= x < y < |more| ensures Before(more[x], more[y]) {
        var a, b := if x <= i then x else x - 1, if y <= i then y else y - 1;
        if x != i && y != i {
          assert Before(ts[a], ts[b]);
        }
      }
    }

    /** find and erase. */
    method Erase(t: Timer) returns (found: bool)
      requires Sorted(timers)
      requires forall s :: s in timers && s != t ==> s.address != t.address
      modifies this`timers
      ensures found <==> t in old(timers)
      ensures !found ==> timers == old(timers)
      ensures found ==> exists i :: 0 <= i < |old(timers)| && old(timers)[i] == t
                                    && timers == old(timers)[..i] + old(timers)[i + 1..]
      ensures Sorted(timers) && t !in timers && forall s :: s in old(timers) && s != t <==> s in timers
    {
      var i := LowerBound(t.expiration, t.address);
      if i < |timers| && !Before(t, timers[i]) {
        assert timers[i] == t;
        timers := timers[..i] + timers[i + 1..];
        Erased(old(timers), i);
        return true;
      }
      assert forall j :: i < j < |timers| ==> Before(timers[i], timers[j]);
      found := false;
    }

    static lemma Erased(ts: seq<Timer>, i: nat)
      requires Sorted(ts) && i < |ts|
      ensures var less := ts[..i] + ts[i + 1..];
              Sorted(less) && ts[i] !in less && forall s :: s in ts && s != ts[i] <==> s in less
    {
      var less := ts[..i] + ts[i + 1..];
      forall x | 0 <= x < |less| ensures less[x] != ts[i] && less[x] in ts {
        var a := if x < i then x else x + 1;
        assert Before(ts[a], ts[i]) || Before(ts[i], ts[a]);
      }
      forall s | s in ts && s != ts[i] ensures s in less {
        var a :| 0 <= a < |ts| && ts[a] == s;
        assert less[if a < i then a else a - 1] == s;
      }
      forall x, y | 0 <= x < y < |less| ensures Before(less[x], less[y]) {
        assert Before(ts[if x < i then x else x + 1], ts[if y < i then y else y + 1]);
      }
    }
  
    /** addTimer under the lock: inserts, and decides whether the poller must be notified. */
    method AddLocked(t: Timer) returns (notify: bool)
      requires Ordered() && Wakes() && t in known && t !in timers
      modifies this`timers, this`tickled, this`owed
      ensures Ordered() && Wakes() && forall s :: s in timers <==> s == t || s in old(timers)
      ensures notify <==> !old(tickled) && timers[0] == t
      ensures tickled == (old(tickled) || notify) && owed == old(owed) + if notify then 1 else 0
    {
      var it := Insert(t);
      notify := it == 0 && !tickled;
      if notify {
        tickled := true;
        owed := owed + 1;
      }
      assert timers[it] == t;
      assert forall j :: 0 <= j < it ==> timers[j] == old(timers)[j];
      assert forall j :: it < j < |timers| ==> timers[j] == old(timers)[j - 1];
      assert it != 0 ==> Before(timers[0], t);
    }

    /** The call that wakes the poller, after the lock has been released. */
    method OnTimerInsertedAtFront()
      requires Valid() && owed > 0
      modifies this`notified, this`owed
      ensures Valid() && notified && owed == old(owed) - 1
    {
      hide Agrees, Sorted;
      notified := true;
      owed := owed - 1;
    }

    /** addTimer, up to the release of the lock. The timer was made at time `made`, before the lock was taken, and
        lies where no timer lies that is alive. */
    method AddUnderLock(ms: nat, cb: Option<Callback>, recurring: bool, address: nat, made: nat)
        returns (t: Timer, notify: bool)
      requires Valid() && made <= clock && forall s <- known :: s.address != address
      modifies this`timers, this`tickled, this`owed, this`known, this`ever
      ensures Valid() && fresh(t) && known == old(known) + {t} && ever == old(ever) + {t}
      ensures t.cb == cb && t.armed == cb.Some? && t.recurring == recurring && t.ms == ms && t.expiration == made + ms
      ensures forall s :: s in timers <==> s == t || s in old(timers)
      ensures notify <==> !old(tickled) && timers[0] == t
      ensures tickled == (old(tickled) || notify) && owed == old(owed) + if notify then 1 else 0
    {
      hide Agrees;
      t := new Timer(address, ms, cb, recurring, made);
      ghost var before := timers;
      assert t !in ever;
      AgreesHas(log, ever, timers);
      known, ever := known + {t}, ever + {t};
      notify := AddLocked(t);
      OneMade(log, t, old(ever), before, timers);
    }

    static lemma AgreesHas(log: seq<Event>, ever: set<Timer>, pending: seq<Timer>)
      requires Agrees(log, ever, pending)
      ensures forall t :: t in pending ==> t in ever
      ensures forall t <- ever :: t in pending <==> ToCome(log, t)
    {
    }

    static lemma SameAgrees(log: seq<Event>, ever: set<Timer>, a: seq<Timer>, b: seq<Timer>)
      requires Agrees(log, ever, a) && forall t :: t in a <==> t in b
      ensures Agrees(log, ever, b)
    {
    }

    /** addTimer: the poller is woken exactly when the timer is the first and nobody has woken it since it asked. */
    method AddTimer(ms: nat, cb: Option<Callback>, recurring: bool, address: nat, made: nat)
        returns (t: Timer, notify: bool)
      requires Valid() && made <= clock && forall s <- known :: s.address != address
      modifies this`timers, this`tickled, this`owed, this`notified, this`known, this`ever
      ensures Valid() && fresh(t) && known == old(known) + {t} && ever == old(ever) + {t}
      ensures t.cb == cb && t.armed == cb.Some? && t.recurring == recurring && t.ms == ms && t.expiration == made + ms
      ensures forall s :: s in timers <==> s == t || s in old(timers)
      ensures notify <==> !old(tickled) && timers[0] == t
      ensures tickled == (old(tickled) || notify) && notified == (old(notified) || notify) && owed == old(owed)
    {
      t, notify := AddUnderLock(ms, cb, recurring, address, made);
      if notify {
        OnTimerInsertedAtFront();
      }
    }

    /** Timer::cancel */
    method Cancel(t: Timer) returns (ok: bool)
      requires Valid() && t in known
      modifies this`timers, this`log, t`cb
      ensures Valid() && log == old(log) + [Cancelled(t, ok)]
      ensures ok <==> t.armed && t in old(timers)
      ensures forall s :: s in timers <==> s in old(timers) && (s == t ==> !t.armed)
      ensures t.cb == None
    {
      hide Agrees;
      ghost var before := timers;
      AgreesHas(log, ever, timers);
      if t.cb.Some? {
        t.cb := None;
        ok := Erase(t);
        StillOrdered(t);
      } else {
        ok := false;
      }
      OneMore(log, Cancelled(t, ok), ever, before, timers);
      log := log + [Cancelled(t, ok)];
    }

    /** A timer has left the set. */
    twostate lemma StillOrdered(t: Timer)
      requires old(Ordered()) && old(Wakes()) && Sorted(timers) && known == old(known) && clock == old(clock)
      requires unchanged(this`tickled, this`deadline, this`notified, this`owed)
      requires forall s :: s in timers ==> s in old(timers)
      requires forall s :: s in known ==> s.ms == old(s.ms) && s.expiration == old(s.expiration)
      ensures Ordered() && Wakes()
    {
      hide Sorted;
      forall i | 0 <= i < |timers|
        ensures timers[i] in known && (tickled || NotAfter(deadline, timers[i].expiration))
      {
        assert timers[i] in timers && timers[i] in old(timers);
        var j :| 0 <= j < |old(timers)| && old(timers)[j] == timers[i];
      }
    }

    /** Timer::refresh */
    method Refresh(t: Timer) returns (ok: bool)
      requires Valid() && t in known
      modifies this`timers, t`expiration
      ensures Valid()
      ensures ok <==> t.armed && t in old(timers)
      ensures forall s :: s in timers <==> s in old(timers)
      ensures t.expiration == if ok then clock + t.ms else old(t.expiration)
      ensures ok ==> t.expiration >= old(t.expiration)
    {
      hide Agrees;
      if t.cb == None {
        return false;
      }
      ghost var before := timers;
      var found := Erase(t);
      if !found {
        return false;
      }
      StillOrdered(t);
      WasNotAfter(t);
      t.expiration := clock + t.ms;
      PutBack(t);
      SameAgrees(log, ever, before, timers);
      ok := true;
    }

    twostate lemma WasNotAfter(t: Timer)
      requires old(Ordered()) && old(Wakes()) && t in old(timers)
      requires unchanged(this`tickled, this`deadline) && t.expiration == old(t.expiration)
      ensures tickled || NotAfter(deadline, t.expiration)
    {
      hide Sorted;
      var j :| 0 <= j < |old(timers)| && old(timers)[j] == t;
    }

    /** A timer taken out that now expires no earlier goes back into the set; nobody is notified. */
    method PutBack(t: Timer)
      requires Ordered() && t in known && t !in timers
      requires Wakes() && (tickled || NotAfter(deadline, t.expiration))
      modifies this`timers
      ensures Ordered() && Wakes() && forall s :: s in timers <==> s == t || s in old(timers)
    {
      var it := Insert(t);
      assert forall s :: s in timers <==> s == t || s in old(timers);
      assert forall j :: 0 <= j < |timers| ==> timers[j] in timers;
      assert forall j :: 0 <= j < |old(timers)| ==> old(timers)[j] in old(timers);
    }

    /** Timer::reset, up to the release of the lock. */
    method ResetUnderLock(t: Timer, ms: nat, fromNow: bool) returns (ok: bool, notify: bool)
      requires Valid() && t in known
      modifies this`timers, this`tickled, this`owed, t`expiration, t`ms
      ensures Valid()
      ensures ok <==> (ms == old(t.ms) && !fromNow) || (t.armed && t in old(timers))
      ensures forall s :: s in timers <==> s in old(timers)
      ensures if ok && (ms != old(t.ms) || fromNow)
              then t.ms == ms && t.expiration == (if fromNow then clock else old(t.expiration) - old(t.ms)) + ms
              else t.ms == old(t.ms) && t.expiration == old(t.expiration)
      ensures notify <==> ok && (ms != old(t.ms) || fromNow) && !old(tickled) && timers[0] == t
      ensures tickled == (old(tickled) || notify) && owed == old(owed) + if notify then 1 else 0
    {
      hide Agrees;
      notify := false;
      if ms == t.ms && !fromNow {
        return true, false;
      }
      if t.cb == None {
        return false, false;
      }
      ghost var before := timers;
      var found := Erase(t);
      if !found {
        return false, false;
      }
      StillOrdered(t);
      var start := if fromNow then clock else t.expiration - t.ms;
      t.ms := ms;
      t.expiration := start + ms;
      notify := AddLocked(t);
      SameAgrees(log, ever, before, timers);
      ok := true;
    }

    /** Timer::reset */
    method Reset(t: Timer, ms: nat, fromNow: bool) returns (ok: bool, notify: bool)
      requires Valid() && t in known
      modifies this`timers, this`tickled, this`owed, this`notified, t`expiration, t`ms
      ensures Valid()
      ensures ok <==> (ms == old(t.ms) && !fromNow) || (t.armed && t in old(timers))
      ensures forall s :: s in timers <==> s in old(timers)
      ensures if ok && (ms != old(t.ms) || fromNow)
              then t.ms == ms && t.expiration == (if fromNow then clock else old(t.expiration) - old(t.ms)) + ms
              else t.ms == old(t.ms) && t.expiration == old(t.expiration)
      ensures notify <==> ok && (ms != old(t.ms) || fromNow) && !old(tickled) && timers[0] == t
      ensures tickled == (old(tickled) || notify) && notified == (old(notified) || notify) && owed == old(owed)
    {
      ok, notify := ResetUnderLock(t, ms, fromNow);
      if notify {
        OnTimerInsertedAtFront();
      }
    }

    /** getNextTimer: how long the poller may sleep. From here on it knows this deadline. */
    method GetNextTimer() returns (wait: nat)
      requires Valid()
      modifies this`tickled, this`deadline, this`notified
      ensures Valid() && !tickled && !notified
      ensures timers == [] ==> wait == FOREVER && deadline == None
      ensures timers != [] ==>
                && deadline == Some(timers[0].expiration) && (forall t :: t in timers ==> timers[0].expiration <= t.expiration)
                && wait == if timers[0].expiration <= clock then 0 else timers[0].expiration - clock
    {
      hide Agrees;
      tickled := false;
      notified := false;
      if |timers| == 0 {
        deadline := None;
        return FOREVER;
      }
      deadline := Some(timers[0].expiration);
      assert forall i :: 0 < i < |timers| ==> Before(timers[0], timers[i]);
      wait := if clock >= timers[0].expiration then 0 else timers[0].expiration - clock;
    }

    /** Timers taken out of the set because they are due. */
    ghost predicate Due(expired: seq<Timer>, now: nat)
      reads this, known
    {
      && (forall i :: 0 <= i < |expired| ==> expired[i] in known && expired[i] !in timers && expired[i].expiration <= now)
      && (forall i, j :: 0 <= i < j < |expired| ==> expired[i] != expired[j])
      && (tickled || forall i :: 0 <= i < |expired| ==> NotAfter(deadline, expired[i].expiration))
    }

    /** One turn of the last loop of listExpiredCb. */
    method FireOne(now: nat, t: Timer) returns (cb: Option<Callback>)
      requires Ordered() && Wakes() && now <= clock && t in known && t !in timers && t.expiration <= now
      requires tickled || NotAfter(deadline, t.expiration)
      modifies this`timers, t`expiration, t`cb
      ensures Ordered() && Wakes() && cb == old(t.cb)
      ensures forall s :: s in timers <==> s in old(timers) || (s == t && t.recurring)
      ensures if t.recurring then t.expiration == now + t.ms && t.cb == old(t.cb)
              else t.expiration == old(t.expiration) && t.cb == None
    {
      cb := t.cb;
      if t.recurring {
        t.expiration := now + t.ms;
        PutBack(t);
      } else {
        t.cb := None;
      }
    }

    /** The last loop of listExpiredCb: collects the callbacks, puts recurring timers back and finishes the others. */
    method Fire(now: nat, expired: seq<Timer>, cbs0: seq<Option<Callback>>) returns (cbs: seq<Option<Callback>>)
      requires Ordered() && Wakes() && Due(expired, now) && now <= clock
      modifies this`timers, expired
      ensures Ordered() && Wakes() && |cbs| == |cbs0| + |expired| && cbs0 <= cbs
      ensures forall i :: 0 <= i < |expired| ==> cbs[|cbs0| + i] == old(expired[i].cb)
      ensures forall t :: t in timers <==> t in old(timers) || (t in expired && t.recurring)
      ensures forall t :: t in expired ==> if t.recurring then t.expiration == now + t.ms && t.cb == old(t.cb) else t.cb == None
      ensures forall t :: t in known ==> t.ms == old(t.ms)
      ensures forall t :: t in known && t !in expired ==> t.expiration == old(t.expiration) && t.cb == old(t.cb)
    {
      hide *;
      cbs := cbs0;
      assert expired[0..] == expired;
      DueDiffer(expired, now);
      for i := 0 to |expired|
        invariant Ordered() && Wakes() && Due(expired[i..], now) && |cbs| == |cbs0| + i && cbs0 <= cbs
        invariant forall j :: 0 <= j < i ==> cbs[|cbs0| + j] == old(expired[j].cb)
        invariant forall t :: t in timers <==> t in old(timers) || (t in expired[..i] && t.recurring)
        invariant forall t :: t in expired[..i] ==> if t.recurring then t.expiration == now + t.ms && t.cb == old(t.cb)
                                                    else t.cb == None
        invariant forall t :: t in known ==> t.ms == old(t.ms)
        invariant forall t :: t in known && t !in expired[..i] ==> t.expiration == old(t.expiration) && t.cb == old(t.cb)
      {
        var t := expired[i];
        assert expired[..i + 1] == expired[..i] + [t];
        DueFirst(expired, i, now);
        label before: {}
        var cb := FireOne(now, t);
        StillDue@before(expired, i, now);
        cbs := cbs + [cb];
      }
      assert expired[..|expired|] == expired;
    }

    lemma DueDiffer(expired: seq<Timer>, now: nat)
      requires Due(expired, now)
      ensures forall i, j :: 0 <= i < j < |expired| ==> expired[i] != expired[j]
    {
    }

    lemma DueFirst(expired: seq<Timer>, i: nat, now: nat)
      requires i < |expired| && Due(expired[i..], now)
      ensures var t := expired[i];
              && t in known && t !in timers && t.expiration <= now && t !in expired[i + 1..]
              && (tickled || NotAfter(deadline, t.expiration))
    {
      assert expired[i] == expired[i..][0];
      var rest := expired[i + 1..];
      forall k | 0 <= k < |rest| ensures rest[k] != expired[i] {
        assert rest[k] == expired[i..][k + 1];
      }
    }

    /** The timers that remain are untouched when the first of them has been dealt with. */
    twostate lemma StillDue(expired: seq<Timer>, new i: nat, new now: nat)
      requires i < |expired| && old(Due(expired[i..], now)) && known == old(known)
      requires tickled == old(tickled) && deadline == old(deadline)
      requires forall s :: s in timers ==> s in old(timers) || s == expired[i]
      requires forall s :: s in known && s != expired[i] ==> s.expiration == old(s.expiration)
      ensures Due(expired[i + 1..], now)
    {
      var rest := expired[i + 1..];
      assert rest == expired[i..][1..] && expired[i..][0] == expired[i];
    }

    /** listExpiredCb at time `now`, read before the lock was taken. `address` is where the timer made for the
        search lies. `who` are the timers whose callbacks were appended. */
    method ListExpired(now: nat, address: nat, cbs0: seq<Option<Callback>>)
        returns (cbs: seq<Option<Callback>>, ghost who: seq<Timer>)
      requires Valid() && now <= clock
      modifies this`timers, this`log, known
      ensures Valid() && log == old(log) + Firings(who)
      ensures who <= old(timers) && |cbs| == |cbs0| + |who| && cbs0 <= cbs
      ensures forall i :: 0 <= i < |who| ==> cbs[|cbs0| + i] == old(who[i].cb)
      ensures forall i :: 0 <= i < |old(timers)| ==> (i < |who| <==> old(timers[i].expiration) <= now)
      ensures forall i, j :: 0 <= i < j < |who| ==> old(who[i].expiration) <= old(who[j].expiration) && who[i] != who[j]
      ensures forall t :: t in timers <==> (t in old(timers) && t !in who) || (t in who && t.recurring)
      ensures forall t :: t in who ==> if t.recurring then t.expiration == now + t.ms && t.cb == old(t.cb) else t.cb == None
      ensures forall t :: t in known ==> t.ms == old(t.ms)
      ensures forall t :: t in known && t !in who ==> t.expiration == old(t.expiration) && t.cb == old(t.cb)
    {
      hide *;
      ValidHas();
      cbs, who := cbs0, [];
      assert log + Firings(who) == log;
      if |timers| == 0 {
        return;
      }
      var it := FirstLater(now, address);
      ghost var before := timers;
      var expired := TakeDue(now, it);
      who := expired;
      cbs := Fire(now, expired, cbs0);
      ExpiredParts(before, it);
      AllFired(log, who, ever, before, timers);
      log := log + Firings(who);
      ArmedAfter(who);
      ValidIs();
    }

    lemma ValidHas()
      requires Valid()
      ensures Ordered() && Wakes() && Armed() && known <= ever && Agrees(log, ever, timers)
      ensures Sorted(timers) && forall i :: 0 <= i < |timers| ==> timers[i] in known
    {
      hide Agrees, Sorted;
    }

    lemma ValidIs()
      requires Ordered() && Wakes() && Armed() && known <= ever && Agrees(log, ever, timers)
      ensures Valid()
    {
      hide Ordered, Wakes, Armed, Agrees;
    }

    twostate lemma ArmedAfter(who: seq<Timer>)
      requires old(Armed()) && known == old(known) && forall t :: t in who ==> t in old(timers)
      requires forall t :: t in timers <==> (t in old(timers) && t !in who) || (t in who && t.recurring)
      requires forall t :: t in who ==> if t.recurring then t.cb == old(t.cb) else t.cb == None
      requires forall t :: t in known && t !in who ==> t.cb == old(t.cb)
      ensures Armed()
    {
    }

    /** lower_bound with a timer made for `now`, then past all timers of that very time: whatever the address of
        that timer, these are the timers due. */
    method FirstLater(now: nat, address: nat) returns (it: nat)
      requires Sorted(timers)
      ensures it <= |timers| && forall j :: 0 <= j < |timers| ==> (j < it <==> timers[j].expiration <= now)
    {
      it := LowerBound(now, address);
      while it < |timers| && timers[it].expiration == now
        invariant it <= |timers|
        invariant forall j :: 0 <= j < it ==> timers[j].expiration <= now
        invariant forall j :: it <= j < |timers| ==> timers[j].expiration >= now
      {
        it := it + 1;
      }
      assert forall j :: it < j < |timers| ==> Before(timers[it], timers[j]);
    }

    /** The timers due leave the set. */
    method TakeDue(now: nat, it: nat) returns (expired: seq<Timer>)
      requires Ordered() && Wakes() && it <= |timers|
      requires forall j :: 0 <= j < |timers| ==> (j < it <==> timers[j].expiration <= now)
      modifies this`timers
      ensures expired == old(timers)[..it] && timers == old(timers)[it..] && Ordered() && Wakes() && Due(expired, now)
      ensures forall i, j :: 0 <= i < j < it ==> expired[i].expiration <= expired[j].expiration && expired[i] != expired[j]
    {
      expired := timers[..it];
      timers := timers[it..];
      assert forall i, j :: 0 <= i < j < |old(timers)| ==> Before(old(timers)[i], old(timers)[j]);
    }

    static lemma ExpiredParts(ts: seq<Timer>, it: nat)
      requires it <= |ts|
      ensures forall t :: t in ts <==> t in ts[..it] || t in ts[it..]
    {
    }
  }
}
