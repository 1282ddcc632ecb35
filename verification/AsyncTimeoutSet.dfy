/**
 * AsyncTimeoutSet as the source builds it: callbacks linked both ways through their own fields, a head and a
 * tail, and one timer.  Every method is proved to do to the linked list what TimeoutQueue says.
 */
module AsyncTimeoutSet {
  import opened HttpTypes
  import opened TimeoutQueue

  class Callback {
    var timeoutSet: AsyncTimeoutSet?
    var prev: Callback?
    var next: Callback?
    var expiration: nat

    constructor ()
      ensures timeoutSet == null && prev == null && next == null && expiration == 0
    {
      timeoutSet, prev, next, expiration := null, null, null, 0;
    }
  }

  class AsyncTimeoutSet {
    const interval: nat
    var atMostEveryN: nat
    var head: Callback?
    var tail: Callback?
    var inTimeoutExpired: bool

    /** The AsyncTimeout: when it fires, if it is scheduled. */
    var timer: Option<nat>

    /** What the clock shows. */
    var now: nat

    /** The scheduled callbacks from head to tail. */
    ghost var list: seq<Callback>

    ghost predicate Linked()
      reads this`head, this`tail, this`list, list
    {
      && (forall i | 0 <= i < |list| :: list[i].timeoutSet == this)
      && (forall i, j | 0 <= i < j < |list| :: list[i] != list[j])
      && (forall i {:trigger list[i].prev} | 0 <= i < |list| :: list[i].prev == if i == 0 then null else list[i - 1])
      && (forall i {:trigger list[i].next} | 0 <= i < |list| ::
            list[i].next == if i == |list| - 1 then null else list[i + 1])
      && head == (if list == [] then null else list[0])
      && tail == (if list == [] then null else list[|list| - 1])
    }

    ghost function State(): Timers<Callback>
      reads this, list
    {
      Timers(now, seq(|list|, i requires 0 <= i < |list| reads this, list => Entry(list[i], list[i].expiration)),
             timer, inTimeoutExpired)
    }

    /** A callback that is not in the list is not scheduled. */
    ghost predicate Free(cb: Callback)
      reads cb
    {
      cb.timeoutSet == null && cb.prev == null && cb.next == null && cb.expiration == 0
    }

    constructor (interval: nat, atMostEveryN: nat, now: nat)
      ensures Linked() && list == [] && this.interval == interval && this.atMostEveryN == atMostEveryN
      ensures State() == Timers(now, [], None, false)
    {
      this.interval, this.atMostEveryN, this.now := interval, atMostEveryN, now;
      head, tail, timer, inTimeoutExpired, list := null, null, None, false, [];
    }

    method HeadChanged()
      requires head != null ==> head.expiration >= 0
      modifies this`timer
      ensures timer == if inTimeoutExpired then old(timer)
                       else if head == null then None else Some(Max(now, head.expiration))
    {
      if inTimeoutExpired {
        return;
      }
      if head == null {
        timer := None;
      } else {
        var delta := if now >= head.expiration then 0 else head.expiration - now;
        timer := Some(now + delta);
      }
    }

    /** The callbacks of `l` are linked past the i-th of them. */
    ghost predicate LinkedPast(l: seq<Callback>, i: nat)
      reads this`head, this`tail, l
    {
      && i < |l|
      && (forall k | 0 <= k < |l| && k != i :: l[k].timeoutSet == this)
      && (forall j, k | 0 <= j < k < |l| :: l[j] != l[k])
      && (forall k {:trigger l[k].prev} | 0 <= k < |l| && k != i ::
            l[k].prev == (if k == 0 || (k == 1 && i == 0) then null else if k == i + 1 then l[k - 2] else l[k - 1]))
      && (forall k {:trigger l[k].next} | 0 <= k < |l| && k != i ::
            l[k].next == (if k == |l| - 1 || (k == |l| - 2 && i == |l| - 1) then null
                          else if k == i - 1 then l[k + 2] else l[k + 1]))
      && head == (if i > 0 then l[0] else if |l| > 1 then l[1] else null)
      && tail == (if i < |l| - 1 then l[|l| - 1] else if |l| > 1 then l[|l| - 2] else null)
    }

    lemma LinkedWithout(l: seq<Callback>, i: nat)
      requires LinkedPast(l, i) && list == l[..i] + l[i + 1..]
      ensures Linked() && l[i] !in list
    {
      assert forall k | 0 <= k < |list| :: list[k] == if k < i then l[k] else l[k + 1];
    }

    /** Links the neighbours of a callback, the head and the tail past it. */
    method Bypass(cb: Callback, ghost i: nat)
      requires Linked() && i < |list| && list[i] == cb
      modifies this`head, this`tail, this`timer, list`prev, list`next
      ensures LinkedPast(list, i)
      ensures timer == if i > 0 || inTimeoutExpired then old(timer)
                       else if |list| == 1 then None else Some(Max(now, list[1].expiration))
    {
      hide Max;
      assert cb.next == (if i == |list| - 1 then null else list[i + 1]);
      assert cb.prev == (if i == 0 then null else list[i - 1]);
      if cb.next == null {
        tail := cb.prev;
      } else {
        cb.next.prev := cb.prev;
      }
      if cb.prev == null {
        head := cb.next;
        HeadChanged();
      } else {
        cb.prev.next := cb.next;
      }
    }

    /** Takes a callback out of the list. */
    method Unlink(cb: Callback, ghost i: nat)
      requires Linked() && i < |list| && list[i] == cb
      modifies this`head, this`tail, this`timer, this`list, list
      ensures Linked() && list == old(list)[..i] + old(list)[i + 1..] && Free(cb) && cb !in list
      ensures forall c | c in list :: c.expiration == old(c.expiration)
      ensures timer == if i > 0 || inTimeoutExpired then old(timer)
                       else if list == [] then None else Some(Max(now, list[0].expiration))
    {
      hide Max;
      ghost var l := list;
      Bypass(cb, i);
      cb.timeoutSet, cb.prev, cb.next, cb.expiration := null, null, null, 0;
      list := l[..i] + l[i + 1..];
      LinkedWithout(l, i);
    }

    /** Callback::cancelTimeout */
    method CancelTimeout(cb: Callback)
      requires Linked() && (cb in list || Free(cb))
      modifies this`head, this`tail, this`timer, this`list, list, cb
      ensures Linked() && Free(cb) && cb !in list
      ensures State() == CancelIn(old(State()), cb)
      ensures forall c :: c in list <==> c in old(list) && c != cb
      ensures tail != null ==> tail in old(list)
    {
      hide Without, Max;
      ghost var s := State();
      if cb.timeoutSet == null {
        assert cb !in list;
        NotThere(s.items, cb);
        return;
      }
      ghost var i :| 0 <= i < |list| && list[i] == cb;
      assert s.items[i] == Entry(cb, cb.expiration);
      There(s.items, cb, i);
      Unlink(cb, i);
      assert State().items == s.items[..i] + s.items[i + 1..];
    }

    /** Links a callback behind the tail. */
    method Append(cb: Callback)
      requires Linked() && Free(cb) && cb !in list
      modifies this`head, this`tail, this`timer, this`list, tail, cb
      ensures Linked() && list == old(list) + [cb] && cb.expiration == now + interval
      ensures forall c | c in old(list) :: c.expiration == old(c.expiration)
      ensures timer == if old(list) == [] && !inTimeoutExpired then Some(now + interval) else old(timer)
    {
      var oldTail := tail;
      if head == null {
        if !inTimeoutExpired {
          timer := Some(now + interval);
        }
        head := cb;
        tail := cb;
      } else {
        tail.next := cb;
        tail := cb;
      }
      cb.timeoutSet, cb.prev, cb.next, cb.expiration := this, oldTail, null, now + interval;
      list := list + [cb];
    }

    method ScheduleTimeout(cb: Callback)
      requires Linked() && (cb in list || Free(cb))
      modifies this`head, this`tail, this`timer, this`list, list, cb
      ensures Linked() && forall c :: c in list <==> c in old(list) || c == cb
      ensures State() == ScheduleIn(old(State()), cb, interval)
    {
      hide CancelIn, Linked;
      CancelTimeout(cb);
      ghost var s := State();
      Append(cb);
      assert State().items == s.items + [Entry(cb, now + interval)];
    }

    /** The callbacks that exist: those in the list, and others that are not scheduled. */
    ghost predicate Owns(all: set<Callback>)
      reads this`list, all
    {
      && (forall c | c in list :: c in all)
      && (forall c | c in all :: c in list || Free(c))
    }

    method Do(a: Action<Callback>, ghost all: set<Callback>)
      requires Linked() && Owns(all) && (!a.Wait? ==> a.cb in all)
      modifies this`head, this`tail, this`timer, this`list, this`now, all
      ensures Linked() && Owns(all) && State() == Act(old(State()), a, interval)
    {
      hide CancelIn, ScheduleIn, Linked;
      match a
      case Schedule(cb) => ScheduleTimeout(cb);
      case Cancel(cb) => CancelTimeout(cb);
      case Wait(ms) =>
        now := now + ms;
    }

    /** What a callback does when it fires. */
    method RunActions(actions: seq<Action<Callback>>, ghost all: set<Callback>)
      requires Linked() && Owns(all) && Within(actions, all)
      modifies this`head, this`tail, this`timer, this`list, this`now, all
      ensures Linked() && Owns(all) && State() == ActAll(old(State()), actions, interval)
    {
      hide Act, Linked, Owns, State;
      for i := 0 to |actions|
        invariant Linked() && Owns(all)
        invariant ActAll(State(), actions[i..], interval) == ActAll(old(State()), actions, interval)
      {
        assert actions[i..][1..] == actions[i + 1..];
        Do(actions[i], all);
      }
    }

    lemma HeadFirst(all: set<Callback>)
      requires Linked() && Owns(all)
      ensures head != null ==> list != [] && list[0] == head && head in all
      ensures head == null ==> list == []
    {
    }

    /** The loop: every callback that was due at `time` leaves the list and fires. */
    method FireDue(script: Script<Callback>, time: nat, ghost all: set<Callback>) returns (fired: seq<Entry<Callback>>)
      requires Linked() && Owns(all) && inTimeoutExpired && interval > 0 && Inv(State(), interval) && time <= now
      requires timer.None? && forall k: nat :: Within(script(k), all)
      modifies this`head, this`tail, this`timer, this`list, this`now, all
      ensures Linked() && Owns(all) && timer.None? && (head != null ==> head.expiration > time)
      ensures PassFrom(old(State()), script, 0, time, interval, atMostEveryN)
              == (PassStop(State(), time, atMostEveryN), fired)
    {
      hide Linked, Owns, Inv, Within, CancelIn, ActAll, Due, PassFrom;
      var k: nat := 0;
      fired := [];
      ghost var goal := PassFrom(State(), script, 0, time, interval, atMostEveryN);
      assert [] + goal.1 == goal.1;
      while head != null && head.expiration <= time
        invariant Linked() && Owns(all) && timer.None?
        invariant Inv(State(), interval) && time <= now
        invariant var r := PassFrom(State(), script, k, time, interval, atMostEveryN);
                  goal == (r.0, fired + r.1)
        decreases |Due(State().items, time)|
      {
        HeadFirst(all);
        var cb: Callback := head;
        ghost var s := State();
        assert s.items[0] == Entry(cb, cb.expiration);
        FireHeadKeeps(s, script(k), interval, time);
        PassStep(s, script, k, time, interval, atMostEveryN);
        fired := fired + [Entry(cb, cb.expiration)];
        Do(Cancel(cb), all);
        RunActions(script(k), all);
        k := k + 1;
        ghost var rest := PassFrom(State(), script, k, time, interval, atMostEveryN).1;
        assert (fired[..|fired| - 1] + [s.items[0]]) + rest == fired[..|fired| - 1] + ([s.items[0]] + rest);
      }
      HeadFirst(all);
      PassEnd(State(), script, k, time, interval, atMostEveryN);
      assert fired + [] == fired;
    }

    /**
     * timeoutExpired: the timer has fired.  Calls every callback that is due now, each of which may schedule
     * and cancel, and arms the timer again for whoever is left.
     */
    method TimeoutExpired(script: Script<Callback>, ghost all: set<Callback>) returns (fired: seq<Entry<Callback>>)
      requires Linked() && Owns(all) && !inTimeoutExpired && interval > 0 && Inv(State(), interval)
      requires forall k: nat :: Within(script(k), all)
      modifies this, all
      ensures Linked() && Owns(all)
      ensures (State(), fired) == Expire(old(State()), script, interval, old(atMostEveryN))
    {
      hide Linked, Owns, Inv, Within, PassFrom;
      ghost var s0 := State();
      inTimeoutExpired := true;
      timer := None;
      var time := now;
      BusyKeeps(s0, interval);
      assert State().items == s0.items;
      fired := FireDue(script, time, all);
      HeadFirst(all);
      ghost var s := State();
      if head != null {
        var delta := head.expiration - time;
        if delta < atMostEveryN {
          delta := atMostEveryN;
        }
        timer := Some(now + delta);
      }
      inTimeoutExpired := false;
      assert State().items == s.items;
    }
  }

  /** The end of a pass: the timer for the first that still waits. */
  ghost function PassStop<T>(s: Timers<T>, time: nat, atMostEvery: nat): Timers<T>
  {
    if s.items == [] || s.items[0].due <= time then s
    else s.(timer := Some(s.now + Max(s.items[0].due - time, atMostEvery)))
  }

  ghost predicate Within(actions: seq<Action<Callback>>, all: set<Callback>)
  {
    forall i | 0 <= i < |actions| :: !actions[i].Wait? ==> actions[i].cb in all
  }

  lemma PassStep<T>(s: Timers<T>, script: Script<T>, k: nat, time: nat, interval: nat, atMostEvery: nat)
    requires Inv(s, interval) && interval > 0 && time <= s.now && s.busy && s.items != [] && s.items[0].due <= time
    ensures Inv(FireHead(s, script(k), interval), interval)
    ensures FireHead(s, script(k), interval).busy && FireHead(s, script(k), interval).now >= time
    ensures var r := PassFrom(FireHead(s, script(k), interval), script, k + 1, time, interval, atMostEvery);
            PassFrom(s, script, k, time, interval, atMostEvery) == (r.0, [s.items[0]] + r.1)
  {
    hide Inv, FireHead, Due;
    FireHeadKeeps(s, script(k), interval, time);
  }

  lemma PassEnd<T>(s: Timers<T>, script: Script<T>, k: nat, time: nat, interval: nat, atMostEvery: nat)
    requires Inv(s, interval) && interval > 0 && time <= s.now && s.busy && (s.items != [] ==> s.items[0].due > time)
    ensures PassFrom(s, script, k, time, interval, atMostEvery) == (PassStop(s, time, atMostEvery), [])
  {
    hide Inv;
  }

  lemma BusyKeeps<T>(s: Timers<T>, interval: nat)
    requires Inv(s, interval)
    ensures Inv(s.(busy := true, timer := None), interval)
  {
  }

  lemma NotThere<T>(items: seq<Entry<T>>, cb: T)
    requires forall i | 0 <= i < |items| :: items[i].cb != cb
    ensures Without(items, cb) == items && !IsHead(items, cb)
  {
  }

  lemma There<T>(items: seq<Entry<T>>, cb: T, i: nat)
    requires Distinct(items) && i < |items| && items[i].cb == cb
    ensures Without(items, cb) == items[..i] + items[i + 1..] && (IsHead(items, cb) <==> i == 0)
  {
    hide Place;
    assert Place(items, cb) == i;
  }
}
