/**
 * What AsyncTimeoutSet means: a queue of callbacks with their expiration times, one timer, a clock, and
 * expiry passes whose callbacks may schedule and cancel while the pass runs.
 */
module TimeoutQueue {
  import opened HttpTypes

  datatype Entry<T> = Entry(cb: T, due: nat)

  /** What a callback, or anyone else, may do; time may pass at any moment. */
  datatype Action<T> = Schedule(cb: T) | Cancel(cb: T) | Wait(ms: nat)

  /** The clock, the queue, when the timer will fire if it is armed, and whether an expiry pass is running. */
  datatype Timers<T> = Timers(now: nat, items: seq<Entry<T>>, timer: Option<nat>, busy: bool)

  /** Where a callback is in the queue; its length if it is not. */
  function Place<T(==)>(items: seq<Entry<T>>, cb: T): (i: nat)
    ensures i <= |items| && (i < |items| ==> items[i].cb == cb) && forall j | 0 <= j < i :: items[j].cb != cb
  {
    if items == [] || items[0].cb == cb then 0 else 1 + Place(items[1..], cb)
  }

  function Without<T(==)>(items: seq<Entry<T>>, cb: T): (r: seq<Entry<T>>)
    ensures |r| <= |items|
  {
    var i := Place(items, cb);
    if i < |items| then items[..i] + items[i + 1..] else items
  }

  predicate IsHead<T(==)>(items: seq<Entry<T>>, cb: T) { items != [] && items[0].cb == cb }

  function Max(a: nat, b: nat): nat { if a < b then b else a }

  /** headChanged */
  function Rearm<T>(s: Timers<T>): Timers<T>
  {
    if s.busy then s
    else s.(timer := if s.items == [] then None else Some(Max(s.now, s.items[0].due)))
  }

  function CancelIn<T(==)>(s: Timers<T>, cb: T): Timers<T>
  {
    var r := s.(items := Without(s.items, cb));
    if IsHead(s.items, cb) then Rearm(r) else r
  }

  function ScheduleIn<T(==)>(s: Timers<T>, cb: T, interval: nat): Timers<T>
  {
    var r := CancelIn(s, cb);
    r.(timer := if r.items == [] && !r.busy then Some(r.now + interval) else r.timer,
       items := r.items + [Entry(cb, r.now + interval)])
  }

  function Act<T(==)>(s: Timers<T>, a: Action<T>, interval: nat): Timers<T>
  {
    match a
    case Schedule(cb) => ScheduleIn(s, cb, interval)
    case Cancel(cb) => CancelIn(s, cb)
    case Wait(ms) => s.(now := s.now + ms)
  }

  function ActAll<T(==)>(s: Timers<T>, actions: seq<Action<T>>, interval: nat): Timers<T>
    decreases |actions|
  {
    if actions == [] then s else ActAll(Act(s, actions[0], interval), actions[1..], interval)
  }

  // ----- what every action keeps -----

  predicate Sorted<T>(items: seq<Entry<T>>) { forall i, j | 0 <= i < j < |items| :: items[i].due <= items[j].due }

  predicate Distinct<T(==)>(items: seq<Entry<T>>) { forall i, j | 0 <= i < j < |items| :: items[i].cb != items[j].cb }

  /** The timer is armed exactly when someone waits, and does not fire before the first of them is due. */
  predicate Armed<T>(s: Timers<T>)
  {
    && (s.timer.Some? <==> s.items != [])
    && (s.timer.Some? ==> s.timer.value >= s.items[0].due)
  }

  predicate Inv<T(==)>(s: Timers<T>, interval: nat)
  {
    && Sorted(s.items) && Distinct(s.items)
    && (forall i | 0 <= i < |s.items| :: s.items[i].due <= s.now + interval)
    && (!s.busy ==> Armed(s))
  }

  lemma WithoutIs<T>(items: seq<Entry<T>>, cb: T)
    requires Distinct(items)
    ensures var r := Without(items, cb);
            && (Sorted(items) ==> Sorted(r)) && Distinct(r)
            && (forall i | 0 <= i < |r| :: r[i].cb != cb)
            && (!IsHead(items, cb) && items != [] ==> r != [] && r[0] == items[0])
  {
    hide Place;
  }

  lemma WithoutDue<T>(items: seq<Entry<T>>, cb: T, bound: nat)
    requires forall i | 0 <= i < |items| :: items[i].due <= bound
    ensures forall i | 0 <= i < |Without(items, cb)| :: Without(items, cb)[i].due <= bound
  {
    hide Place;
  }

  lemma ActKeeps<T>(s: Timers<T>, a: Action<T>, interval: nat)
    requires Inv(s, interval)
    ensures Inv(Act(s, a, interval), interval) && Act(s, a, interval).now >= s.now
    ensures Act(s, a, interval).busy == s.busy && (s.busy ==> Act(s, a, interval).timer == s.timer)
  {
    hide Without;
    if !a.Wait? {
      WithoutIs(s.items, a.cb);
      WithoutDue(s.items, a.cb, s.now + interval);
    }
  }

  /**
   * Who waits after an action.  Whoever is not concerned keeps the entry; a callback that is cancelled has none;
   * one that is scheduled has the last, and is due exactly an interval from now.
   */
  lemma ActExact<T>(s: Timers<T>, a: Action<T>, interval: nat, e: Entry<T>)
    requires Inv(s, interval) && !a.Wait?
    ensures var r := Act(s, a, interval);
            && (e.cb != a.cb ==> (e in r.items <==> e in s.items))
            && (a.Cancel? && e in r.items ==> e.cb != a.cb)
            && (a.Schedule? && e.cb == a.cb ==> (e in r.items <==> e.due == s.now + interval))
            && (a.Schedule? ==> r.items != [] && r.items[|r.items| - 1].cb == a.cb)
  {
    hide Without;
    WithoutIs(s.items, a.cb);
    WithoutIn(s.items, a.cb);
    if a.Schedule? {
      var r := Act(s, a, interval).items;
      assert r == Without(s.items, a.cb) + [Entry(a.cb, s.now + interval)];
    }
  }

  lemma {:induction false} ActAllKeeps<T>(s: Timers<T>, actions: seq<Action<T>>, interval: nat)
    requires Inv(s, interval)
    ensures var r := ActAll(s, actions, interval);
            Inv(r, interval) && r.now >= s.now && r.busy == s.busy && (s.busy ==> r.timer == s.timer)
    decreases |actions|
  {
    hide Act, Inv;
    if actions != [] {
      ActKeeps(s, actions[0], interval);
      ActAllKeeps(Act(s, actions[0], interval), actions[1..], interval);
    }
  }

  // ----- an expiry pass -----

  /** The entries that are due at a time. */
  function Due<T>(items: seq<Entry<T>>, time: nat): (r: seq<Entry<T>>)
    ensures r <= items && (forall i | 0 <= i < |r| :: r[i].due <= time)
    ensures |r| < |items| ==> items[|r|].due > time
  {
    if items == [] || items[0].due > time then [] else [items[0]] + Due(items[1..], time)
  }

  lemma DueIs<T>(items: seq<Entry<T>>, time: nat, n: nat)
    requires n <= |items| && (forall i | 0 <= i < n :: items[i].due <= time) && (n < |items| ==> items[n].due > time)
    ensures Due(items, time) == items[..n]
  {
    hide Due;
    var r := Due(items, time);
    assert forall i | 0 <= i < |r| :: r[i] == items[i];
    assert |r| == n;
  }

  /** The entries left after those that the actions schedule again or cancel. */
  function Untouched<T(==)>(entries: seq<Entry<T>>, actions: seq<Action<T>>): (r: seq<Entry<T>>)
    ensures |r| <= |entries|
    decreases |actions|
  {
    if actions == [] then entries
    else Untouched(if actions[0].Wait? then entries else Without(entries, actions[0].cb), actions[1..])
  }

  /** What each callback does when it fires, by the order of firing. */
  type Script<!T> = nat -> seq<Action<T>>

  /**
   * Who fires: the entries that are due, first in first out, apart from those that an earlier one of them
   * has cancelled or scheduled again.
   */
  function Fires<T(==)>(due: seq<Entry<T>>, script: Script<T>, k: nat): seq<Entry<T>>
    decreases |due|
  {
    if due == [] then [] else [due[0]] + Fires(Untouched(due[1..], script(k)), script, k + 1)
  }

  lemma PlaceIs<T>(items: seq<Entry<T>>, cb: T, i: nat)
    requires i <= |items| && (i < |items| ==> items[i].cb == cb) && forall j | 0 <= j < i :: items[j].cb != cb
    ensures Place(items, cb) == i
  {
    hide Place;
  }

  /** Removing an entry that is due. */
  lemma DueLess<T>(items: seq<Entry<T>>, i: nat, n: nat, time: nat)
    requires i < n <= |items| && Due(items, time) == items[..n]
    ensures Due(items[..i] + items[i + 1..], time) == items[..i] + items[i + 1..n]
  {
    hide Due;
    var r := items[..i] + items[i + 1..];
    assert forall j | 0 <= j < n - 1 :: r[j] == if j < i then items[..n][j] else items[..n][j + 1];
    assert n < |items| ==> r[n - 1] == items[n];
    DueIs(r, time, n - 1);
    assert r[..n - 1] == items[..i] + items[i + 1..n];
  }

  /** Removing one that is not. */
  lemma DueSame<T>(items: seq<Entry<T>>, i: nat, n: nat, time: nat)
    requires Sorted(items) && n <= i < |items| && Due(items, time) == items[..n]
    ensures Due(items[..i] + items[i + 1..], time) == items[..n]
  {
    hide Due;
    var r := items[..i] + items[i + 1..];
    assert forall j | 0 <= j < n :: r[j] == items[..n][j];
    assert n < |r| ==> r[n] == if n < i then items[n] else items[n + 1];
    DueIs(r, time, n);
    assert r[..n] == items[..n];
  }

  lemma DueWithout<T>(items: seq<Entry<T>>, cb: T, time: nat)
    requires Sorted(items) && Distinct(items)
    ensures Due(Without(items, cb), time) == Without(Due(items, time), cb)
  {
    hide Due, Place, Sorted, Distinct;
    var n, i := |Due(items, time)|, Place(items, cb);
    assert Due(items, time) == items[..n];
    if i < n {
      PlaceIs(items[..n], cb, i);
      DueLess(items, i, n, time);
      assert items[..n][..i] == items[..i] && items[..n][i + 1..] == items[i + 1..n];
    } else {
      PlaceIs(items[..n], cb, n);
      if i < |items| {
        DueSame(items, i, n, time);
      }
    }
  }

  lemma DueAppend<T>(items: seq<Entry<T>>, e: Entry<T>, time: nat)
    requires e.due > time
    ensures Due(items + [e], time) == Due(items, time)
  {
    hide Due;
    var due := Due(items, time);
    assert forall k | 0 <= k < |due| :: due[k] == items[k];
    DueIs(items + [e], time, |due|);
    assert (items + [e])[..|due|] == due;
  }

  lemma ActDue<T>(s: Timers<T>, a: Action<T>, interval: nat, time: nat)
    requires Inv(s, interval) && interval > 0 && time <= s.now
    ensures Due(Act(s, a, interval).items, time)
            == if a.Wait? then Due(s.items, time) else Without(Due(s.items, time), a.cb)
  {
    hide Due, Without;
    if !a.Wait? {
      DueWithout(s.items, a.cb, time);
      if a.Schedule? {
        DueAppend(Without(s.items, a.cb), Entry(a.cb, s.now + interval), time);
      }
    }
  }

  /**
   * Whatever callbacks do, they only take away from the entries that were due: with a positive interval
   * nothing becomes due again in the same pass.
   */
  lemma {:induction false} ActAllDue<T>(s: Timers<T>, actions: seq<Action<T>>, interval: nat, time: nat)
    requires Inv(s, interval) && interval > 0 && time <= s.now
    ensures Due(ActAll(s, actions, interval).items, time) == Untouched(Due(s.items, time), actions)
    decreases |actions|
  {
    hide Act, Inv, Due;
    if actions != [] {
      ActKeeps(s, actions[0], interval);
      ActDue(s, actions[0], interval, time);
      ActAllDue(Act(s, actions[0], interval), actions[1..], interval, time);
    }
  }

  /** Firing the head: it leaves the queue, then its script runs. */
  function FireHead<T(==)>(s: Timers<T>, actions: seq<Action<T>>, interval: nat): Timers<T>
    requires s.items != []
  {
    ActAll(CancelIn(s, s.items[0].cb), actions, interval)
  }

  lemma FireHeadKeeps<T>(s: Timers<T>, actions: seq<Action<T>>, interval: nat, time: nat)
    requires Inv(s, interval) && interval > 0 && time <= s.now && s.busy && s.items != [] && s.items[0].due <= time
    ensures var r := FireHead(s, actions, interval);
            && Inv(r, interval) && r.busy && r.now >= s.now && r.timer == s.timer
            && Due(s.items, time) == [s.items[0]] + Due(s.items[1..], time)
            && Due(r.items, time) == Untouched(Due(s.items[1..], time), actions)
  {
    hide Inv, ActAll, Untouched;
    var c := CancelIn(s, s.items[0].cb);
    assert c == s.(items := s.items[1..]);
    ActKeeps(s, Cancel(s.items[0].cb), interval);
    ActAllKeeps(c, actions, interval);
    ActAllDue(c, actions, interval, time);
  }

  /** The loop of an expiry pass that started at `time`: the state it ends in and the entries it fired. */
  function PassFrom<T(==)>(s: Timers<T>, script: Script<T>, k: nat, time: nat, interval: nat, atMostEvery: nat)
    : (r: (Timers<T>, seq<Entry<T>>))
    requires Inv(s, interval) && interval > 0 && time <= s.now && s.busy
    decreases |Due(s.items, time)|
  {
    if s.items == [] then (s, [])
    else if s.items[0].due > time then
      (s.(timer := Some(s.now + Max(s.items[0].due - time, atMostEvery))), [])
    else
      FireHeadKeeps(s, script(k), interval, time);
      var (r, fired) := PassFrom(FireHead(s, script(k), interval), script, k + 1, time, interval, atMostEvery);
      (r, [s.items[0]] + fired)
  }

  /** timeoutExpired: the timer has fired, and is armed again at the end if anyone still waits. */
  function Expire<T(==)>(s: Timers<T>, script: Script<T>, interval: nat, atMostEvery: nat)
    : (r: (Timers<T>, seq<Entry<T>>))
    requires Inv(s, interval) && interval > 0 && !s.busy
  {
    var (t, fired) := PassFrom(s.(busy := true, timer := None), script, 0, s.now, interval, atMostEvery);
    (t.(busy := false), fired)
  }

  /**
   * Where the timer stands at the end of a pass that began at `time`: at the first expiration, late by as much as
   * the pass took, but not within `atMostEvery` from now.
   */
  predicate AimsAt<T>(r: Timers<T>, time: nat, atMostEvery: nat)
  {
    r.items != [] ==>
      && r.timer.Some? && time <= r.now
      && r.timer.value == Max(r.items[0].due + (r.now - time), r.now + atMostEvery)
  }

  lemma {:induction false} PassFires<T>(
    s: Timers<T>, script: Script<T>, k: nat, time: nat, interval: nat, atMostEvery: nat)
    requires Inv(s, interval) && interval > 0 && time <= s.now && s.busy && s.timer.None?
    ensures var (r, fired) := PassFrom(s, script, k, time, interval, atMostEvery);
            && fired == Fires(Due(s.items, time), script, k)
            && Inv(r, interval) && Armed(r) && r.now >= s.now && r.busy && Due(r.items, time) == []
            && AimsAt(r, time, atMostEvery)
    decreases |Due(s.items, time)|
  {
    hide Inv, FireHead, Untouched;
    if s.items != [] && s.items[0].due <= time {
      FireHeadKeeps(s, script(k), interval, time);
      PassFires(FireHead(s, script(k), interval), script, k + 1, time, interval, atMostEvery);
    } else if s.items != [] {
      TimerKeeps(s, Some(s.now + Max(s.items[0].due - time, atMostEvery)), interval);
    }
  }

  lemma TimerKeeps<T>(s: Timers<T>, timer: Option<nat>, interval: nat)
    requires Inv(s, interval) && s.busy
    ensures Inv(s.(timer := timer), interval)
  {
  }

  lemma {:induction false} UntouchedIs<T>(entries: seq<Entry<T>>, actions: seq<Action<T>>)
    requires Distinct(entries)
    ensures var r := Untouched(entries, actions); Distinct(r) && forall i | 0 <= i < |r| :: r[i] in entries
    decreases |actions|
  {
    hide Without;
    if actions != [] && !actions[0].Wait? {
      WithoutIs(entries, actions[0].cb);
      WithoutIn(entries, actions[0].cb);
      UntouchedIs(Without(entries, actions[0].cb), actions[1..]);
    } else if actions != [] {
      UntouchedIs(entries, actions[1..]);
    }
  }

  lemma WithoutIn<T>(items: seq<Entry<T>>, cb: T)
    ensures forall e :: e in Without(items, cb) ==> e in items
    ensures forall e :: e in items && e.cb != cb ==> e in Without(items, cb)
  {
    hide Place;
    var i := Place(items, cb);
    if i < |items| {
      assert items == items[..i] + [items[i]] + items[i + 1..];
    }
  }

  /** Only entries that were due fire, and each of them once. */
  lemma {:induction false} FiresOnce<T>(due: seq<Entry<T>>, script: Script<T>, k: nat)
    requires Distinct(due)
    ensures var f := Fires(due, script, k); Distinct(f) && forall i | 0 <= i < |f| :: f[i] in due
    decreases |due|
  {
    hide Untouched;
    if due != [] {
      assert due == [due[0]] + due[1..];
      UntouchedIs(due[1..], script(k));
      var rest := Untouched(due[1..], script(k));
      FiresOnce(rest, script, k + 1);
      var f := Fires(rest, script, k + 1);
      forall i | 0 <= i < |f|
        ensures f[i].cb != due[0].cb && f[i] in due
      {
        assert f[i] in due[1..];
      }
    }
  }

  predicate Touches<T(==)>(actions: seq<Action<T>>, cb: T)
  {
    exists i | 0 <= i < |actions| :: !actions[i].Wait? && actions[i].cb == cb
  }

  lemma {:induction false} UntouchedStays<T>(entries: seq<Entry<T>>, actions: seq<Action<T>>, e: Entry<T>)
    requires e in entries && !Touches(actions, e.cb)
    ensures e in Untouched(entries, actions)
    decreases |actions|
  {
    hide Without;
    if actions != [] {
      assert !Touches(actions[1..], e.cb) by {
        assert forall i | 0 <= i < |actions[1..]| :: actions[1..][i] == actions[i + 1];
      }
      if actions[0].Wait? {
        UntouchedStays(entries, actions[1..], e);
      } else {
        assert actions[0].cb != e.cb;
        WithoutIn(entries, actions[0].cb);
        UntouchedStays(Without(entries, actions[0].cb), actions[1..], e);
      }
    }
  }

  lemma {:induction false} TouchedGoes<T>(entries: seq<Entry<T>>, actions: seq<Action<T>>, e: Entry<T>)
    requires Distinct(entries) && Touches(actions, e.cb)
    ensures e !in Untouched(entries, actions)
    decreases |actions|
  {
    hide Without;
    var first := actions[0];
    var left := if first.Wait? then entries else Without(entries, first.cb);
    if !first.Wait? {
      WithoutIs(entries, first.cb);
    }
    if !first.Wait? && first.cb == e.cb {
      assert e !in left;
      UntouchedIs(left, actions[1..]);
    } else {
      var i :| 0 <= i < |actions| && !actions[i].Wait? && actions[i].cb == e.cb;
      assert actions[1..][i - 1] == actions[i];
      TouchedGoes(left, actions[1..], e);
    }
  }

  // ----- the order of firing -----

  /** One entry stands before another. */
  predicate Before<T(==)>(s: seq<Entry<T>>, x: Entry<T>, y: Entry<T>)
  {
    exists a, b | 0 <= a < b < |s| :: s[a] == x && s[b] == y
  }

  lemma OrderKept<T>(items: seq<Entry<T>>, i: nat, x: Entry<T>, y: Entry<T>)
    requires i < |items| && Before(items[..i] + items[i + 1..], x, y)
    ensures Before(items, x, y)
  {
    var r := items[..i] + items[i + 1..];
    var a, b :| 0 <= a < b < |r| && r[a] == x && r[b] == y;
    assert items[if a < i then a else a + 1] == x;
    assert items[if b < i then b else b + 1] == y;
  }

  lemma OrderWas<T>(items: seq<Entry<T>>, i: nat, x: Entry<T>, y: Entry<T>)
    requires i < |items| && Before(items, x, y) && x != items[i] && y != items[i]
    ensures Before(items[..i] + items[i + 1..], x, y)
  {
    var r := items[..i] + items[i + 1..];
    var a, b :| 0 <= a < b < |items| && items[a] == x && items[b] == y;
    assert r[if a < i then a else a - 1] == x;
    assert r[if b < i then b else b - 1] == y;
  }

  lemma WithoutOrder<T>(items: seq<Entry<T>>, cb: T, x: Entry<T>, y: Entry<T>)
    requires Distinct(items) && x in Without(items, cb) && y in Without(items, cb)
    ensures Before(Without(items, cb), x, y) <==> Before(items, x, y)
  {
    hide Place, Before;
    WithoutIs(items, cb);
    hide Distinct;
    var i := Place(items, cb);
    if i < |items| {
      if Before(items, x, y) {
        OrderWas(items, i, x, y);
      }
      if Before(Without(items, cb), x, y) {
        OrderKept(items, i, x, y);
      }
    }
  }

  lemma {:induction false} UntouchedOrder<T>(entries: seq<Entry<T>>, actions: seq<Action<T>>, x: Entry<T>, y: Entry<T>)
    requires Distinct(entries) && x in Untouched(entries, actions) && y in Untouched(entries, actions)
    ensures Before(Untouched(entries, actions), x, y) <==> Before(entries, x, y)
    decreases |actions|
  {
    hide Without, Before;
    if actions != [] {
      var cb := actions[0];
      if cb.Wait? {
        UntouchedOrder(entries, actions[1..], x, y);
      } else {
        WithoutIs(entries, cb.cb);
        UntouchedIs(Without(entries, cb.cb), actions[1..]);
        UntouchedOrder(Without(entries, cb.cb), actions[1..], x, y);
        WithoutOrder(entries, cb.cb, x, y);
      }
    }
  }

  lemma BeforeTail<T>(s: seq<Entry<T>>, x: Entry<T>, y: Entry<T>)
    requires Distinct(s) && s != [] && y != s[0]
    ensures Before(s, s[0], y) <==> y in s
    ensures x != s[0] ==> (Before(s, x, y) <==> Before(s[1..], x, y))
  {
    if y in s {
      var b :| 0 <= b < |s| && s[b] == y;
      assert s[0] == s[0] && s[b] == y;
    }
    assert forall i | 0 <= i < |s| - 1 :: s[1..][i] == s[i + 1];
    if x != s[0] && Before(s, x, y) {
      var a, b :| 0 <= a < b < |s| && s[a] == x && s[b] == y;
      assert s[1..][a - 1] == x && s[1..][b - 1] == y;
    }
    if Before(s[1..], x, y) {
      var a, b :| 0 <= a < b < |s| - 1 && s[1..][a] == x && s[1..][b] == y;
      assert s[a + 1] == x && s[b + 1] == y;
    }
  }

  /** No entry that fires before `e`, in the order in which they were due, touches it. */
  ghost predicate Spared<T(!new)>(due: seq<Entry<T>>, script: Script<T>, k: nat, f: seq<Entry<T>>, e: Entry<T>)
  {
    forall j | 0 <= j < |f| && Before(due, f[j], e) :: !Touches(script(k + j), e.cb)
  }

  /** One firing later. */
  lemma SparedShift<T(!new)>(due: seq<Entry<T>>, rest: seq<Entry<T>>, script: Script<T>, k: nat, f: seq<Entry<T>>,
                             g: seq<Entry<T>>, e: Entry<T>)
    requires |f| == |g| + 1 && !Touches(script(k), e.cb)
    requires forall j | 0 <= j < |g| :: Before(due, f[j + 1], e) <==> Before(rest, g[j], e)
    ensures Spared(due, script, k, f, e) <==> Spared(rest, script, k + 1, g, e)
  {
    hide Touches, Before;
    if Spared(due, script, k, f, e) {
      forall j | 0 <= j < |g| && Before(rest, g[j], e)
        ensures !Touches(script(k + 1 + j), e.cb)
      {
        assert Before(due, f[j + 1], e);
        assert !Touches(script(k + (j + 1)), e.cb);
      }
    }
    if Spared(rest, script, k + 1, g, e) {
      forall j | 0 <= j < |f| && Before(due, f[j], e)
        ensures !Touches(script(k + j), e.cb)
      {
        if j > 0 {
          assert f[(j - 1) + 1] == f[j];
          assert Before(rest, g[j - 1], e);
          assert !Touches(script(k + 1 + (j - 1)), e.cb);
        }
      }
    }
  }

  lemma SparedStep<T(!new)>(due: seq<Entry<T>>, script: Script<T>, k: nat, e: Entry<T>)
    requires Distinct(due) && due != [] && e in due && e != due[0]
    requires e in Untouched(due[1..], script(k)) && !Touches(script(k), e.cb)
    ensures var rest := Untouched(due[1..], script(k));
            Spared(due, script, k, Fires(due, script, k), e)
            <==> Spared(rest, script, k + 1, Fires(rest, script, k + 1), e)
  {
    hide Untouched, Touches, Before, Spared;
    var rest := Untouched(due[1..], script(k));
    var f, g := Fires(due, script, k), Fires(rest, script, k + 1);
    UntouchedIs(due[1..], script(k));
    FiresOnce(rest, script, k + 1);
    assert f == [due[0]] + g;
    forall j | 0 <= j < |g|
      ensures Before(due, f[j + 1], e) <==> Before(rest, g[j], e)
    {
      assert f[j + 1] == g[j] && g[j] in rest && g[j] in due[1..];
      UntouchedOrder(due[1..], script(k), g[j], e);
      HeadOnce(due, g[j]);
      BeforeTail(due, g[j], e);
    }
    SparedShift(due, rest, script, k, f, g, e);
  }

  lemma HeadOnce<T>(s: seq<Entry<T>>, x: Entry<T>)
    requires Distinct(s) && s != [] && x in s[1..]
    ensures x != s[0]
  {
  }

  /** A due entry fires exactly if no entry that fires before it cancels it or schedules it again. */
  lemma {:induction false} FiresExactly<T(!new)>(due: seq<Entry<T>>, script: Script<T>, k: nat, e: Entry<T>)
    requires Distinct(due) && e in due
    ensures e in Fires(due, script, k) <==> Spared(due, script, k, Fires(due, script, k), e)
    decreases |due|
  {
    hide Untouched, Touches, Before, Spared;
    var f := Fires(due, script, k);
    var rest := Untouched(due[1..], script(k));
    assert due == [due[0]] + due[1..];
    UntouchedIs(due[1..], script(k));
    FiresOnce(rest, script, k + 1);
    if e == due[0] {
      FirstSpared(due, script, k, f);
    } else if Touches(script(k), e.cb) {
      TouchedGoes(due[1..], script(k), e);
      NotSpared(due, script, k, f, e);
    } else {
      UntouchedStays(due[1..], script(k), e);
      FiresExactly(rest, script, k + 1, e);
      SparedStep(due, script, k, e);
    }
  }

  lemma FirstSpared<T(!new)>(due: seq<Entry<T>>, script: Script<T>, k: nat, f: seq<Entry<T>>)
    requires Distinct(due) && due != []
    ensures Spared(due, script, k, f, due[0])
  {
    hide Touches;
    forall x
      ensures !Before(due, x, due[0])
    {
    }
  }

  lemma NotSpared<T(!new)>(due: seq<Entry<T>>, script: Script<T>, k: nat, f: seq<Entry<T>>, e: Entry<T>)
    requires Distinct(due) && due != [] && e in due && e != due[0] && f != [] && f[0] == due[0]
    requires Touches(script(k), e.cb)
    ensures !Spared(due, script, k, f, e)
  {
    hide Touches, Before;
    BeforeTail(due, due[0], e);
    assert Before(due, f[0], e) && Touches(script(k + 0), e.cb);
  }

  /** They fire in the order in which they were due. */
  lemma {:induction false} FiresInOrder<T>(due: seq<Entry<T>>, script: Script<T>, k: nat)
    requires Distinct(due)
    ensures var f := Fires(due, script, k); forall i, j | 0 <= i < j < |f| :: Before(due, f[i], f[j])
    decreases |due|
  {
    hide Untouched, Before;
    if due != [] {
      var rest := Untouched(due[1..], script(k));
      UntouchedIs(due[1..], script(k));
      FiresOnce(rest, script, k + 1);
      FiresInOrder(rest, script, k + 1);
      var f, g := Fires(due, script, k), Fires(rest, script, k + 1);
      assert due == [due[0]] + due[1..];
      assert forall i | 0 <= i < |g| :: f[i + 1] == g[i];
      forall i, j | 0 <= i < j < |f|
        ensures Before(due, f[i], f[j])
      {
        assert g[j - 1] in rest && f[j] in due[1..];
        if i == 0 {
          BeforeTail(due, due[0], f[j]);
        } else {
          assert g[i - 1] in rest && f[i] in due[1..];
          assert Before(rest, g[i - 1], g[j - 1]);
          UntouchedOrder(due[1..], script(k), f[i], f[j]);
          BeforeTail(due, f[i], f[j]);
        }
      }
    }
  }

  /**
   * An expiry pass: it fires, in their order, exactly the entries that were due when it started and that no
   * earlier callback of the pass took away; none of them early and none twice; and it leaves nothing that
   * was due then.
   */
  lemma ExpiryPass<T>(s: Timers<T>, script: Script<T>, interval: nat, atMostEvery: nat)
    requires Inv(s, interval) && interval > 0 && !s.busy
    ensures var (r, fired) := Expire(s, script, interval, atMostEvery);
            && fired == Fires(Due(s.items, s.now), script, 0)
            && Inv(r, interval) && !r.busy && r.now >= s.now
            && Distinct(fired) && (forall i | 0 <= i < |fired| :: fired[i] in s.items && fired[i].due <= s.now)
            && (forall i | 0 <= i < |r.items| :: r.items[i].due > s.now)
            && AimsAt(r, s.now, atMostEvery)
  {
    hide PassFrom, Fires;
    var b := s.(busy := true, timer := None);
    PassFires(b, script, 0, s.now, interval, atMostEvery);
    var due := Due(s.items, s.now);
    assert Distinct(due);
    FiresOnce(due, script, 0);
    var fired := Fires(due, script, 0);
    forall i | 0 <= i < |fired|
      ensures fired[i] in s.items && fired[i].due <= s.now
    {
      assert fired[i] in due;
    }
  }

  /** Why the interval must be positive: with zero, a callback that schedules itself is due again at once. */
  lemma ZeroIntervalStalls<T>(s: Timers<T>, cb: T)
    requires s.items == [Entry(cb, s.now)] && s.busy
    ensures FireHead(s, [Schedule(cb)], 0) == s
  {
    var c := CancelIn(s, cb);
    assert Place(s.items, cb) == 0 && c == s.(items := []);
    assert CancelIn(c, cb) == c;
    var actions := [Schedule(cb)];
    assert actions[1..] == [];
    assert ActAll(c, actions, 0) == ActAll(ScheduleIn(c, cb, 0), [], 0);
  }

  // ----- whole runs -----

  datatype Event<!T> = Do(action: Action<T>) | Pass(script: Script<T>)

  ghost function RunEvents<T>(s: Timers<T>, events: seq<Event<T>>, interval: nat, atMostEvery: nat): (r: Timers<T>)
    requires Inv(s, interval) && interval > 0 && !s.busy
    ensures Inv(r, interval) && !r.busy && r.now >= s.now
    decreases |events|
  {
    if events == [] then s
    else
      var p := RunEvents(s, events[..|events| - 1], interval, atMostEvery);
      match events[|events| - 1]
      case Do(a) =>
        ActKeeps(p, a, interval);
        Act(p, a, interval)
      case Pass(script) =>
        ExpiryPass(p, script, interval, atMostEvery);
        Expire(p, script, interval, atMostEvery).0
  }

  // ----- lateness -----

  /** The timer has not gone by, and is set for no later than `slack` after the first expiration. */
  predicate Timely<T>(s: Timers<T>, slack: nat)
  {
    s.timer.Some? ==> s.items != [] && s.now <= s.timer.value <= s.items[0].due + slack
  }

  /** The event loop runs the timer when it is due, and no pass takes longer than `lag`. */
  ghost predicate Prompt<T>(s: Timers<T>, e: Event<T>, interval: nat, atMostEvery: nat, lag: nat)
    requires Inv(s, interval) && interval > 0 && !s.busy
  {
    match e
    case Do(a) => a.Wait? && s.timer.Some? ==> s.now + a.ms <= s.timer.value
    case Pass(script) => Expire(s, script, interval, atMostEvery).0.now <= s.now + lag
  }

  ghost predicate PromptRun<T>(
    s: Timers<T>, events: seq<Event<T>>, interval: nat, atMostEvery: nat, lag: nat)
    requires Inv(s, interval) && interval > 0 && !s.busy
    decreases |events|
  {
    events == [] ||
    (var front := events[..|events| - 1];
     && PromptRun(s, front, interval, atMostEvery, lag)
     && Prompt(RunEvents(s, front, interval, atMostEvery), events[|events| - 1], interval, atMostEvery, lag))
  }

  lemma ActTimely<T>(s: Timers<T>, a: Action<T>, interval: nat, slack: nat)
    requires Inv(s, interval) && !s.busy && Timely(s, slack)
    requires a.Wait? && s.timer.Some? ==> s.now + a.ms <= s.timer.value
    ensures Timely(Act(s, a, interval), slack)
  {
    hide Without;
    if !a.Wait? {
      WithoutIs(s.items, a.cb);
      WithoutLater(s.items, a.cb);
    }
  }

  /** Whoever comes first without a callback is due no earlier. */
  lemma WithoutLater<T>(items: seq<Entry<T>>, cb: T)
    requires Sorted(items)
    ensures Without(items, cb) != [] ==> items != [] && items[0].due <= Without(items, cb)[0].due
  {
    hide Place;
  }

  lemma PassTimely<T>(s: Timers<T>, script: Script<T>, interval: nat, atMostEvery: nat, lag: nat)
    requires Inv(s, interval) && interval > 0 && !s.busy
    requires Expire(s, script, interval, atMostEvery).0.now <= s.now + lag
    ensures Timely(Expire(s, script, interval, atMostEvery).0, lag + atMostEvery)
  {
    hide Expire;
    ExpiryPass(s, script, interval, atMostEvery);
  }

  /**
   * Over whole runs with a prompt event loop, in which no pass takes longer than `lag`: the timer always stands
   * between the first expiration and `lag + atMostEvery` after it, and no callback ever waits longer than that.
   */
  lemma {:induction false} NoneOverdue<T>(
    s: Timers<T>, events: seq<Event<T>>, interval: nat, atMostEvery: nat, lag: nat)
    requires Inv(s, interval) && interval > 0 && !s.busy && Timely(s, lag + atMostEvery)
    requires PromptRun(s, events, interval, atMostEvery, lag)
    ensures var r := RunEvents(s, events, interval, atMostEvery);
            && Armed(r) && Timely(r, lag + atMostEvery)
            && forall i | 0 <= i < |r.items| :: r.now <= r.items[i].due + lag + atMostEvery
    decreases |events|
  {
    hide Act, Expire;
    if events != [] {
      var front, e := events[..|events| - 1], events[|events| - 1];
      NoneOverdue(s, front, interval, atMostEvery, lag);
      var p := RunEvents(s, front, interval, atMostEvery);
      match e
      case Do(a) => ActTimely(p, a, interval, lag + atMostEvery);
      case Pass(script) => PassTimely(p, script, interval, atMostEvery, lag);
    }
  }
}
