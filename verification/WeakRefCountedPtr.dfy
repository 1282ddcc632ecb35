/**
 * WeakRefCountedPtr: handles that count themselves in a state shared with their target.  Memory that the source
 * frees is marked `freed` here; the fields of a state are only reachable through members that ask for a state
 * that is not, so that no access comes after the free.
 */
module WeakRefCountedPtr {

  /** The shared state; `owner` is the target that made it, `attached` are the handles that `count` counts. */
  class State {
    ghost const owner: Target
    var ptr: Target?
    var count: nat
    ghost var attached: set<Handle>
    ghost var freed: bool

    constructor (ptr: Target)
      ensures owner == this.ptr == ptr && count == 0 && attached == {} && !freed
    {
      this.owner, this.ptr, count, attached, freed := ptr, ptr, 0, {}, false;
    }

    function Ptr(): Target?
      requires !freed
      reads this
    {
      ptr
    }

    function Count(): nat
      requires !freed
      reads this
    {
      count
    }

    method ClearPtr()
      requires !freed
      modifies this`ptr
      ensures ptr == null
    {
      ptr := null;
    }

    method Increment(ghost h: Handle)
      requires !freed && h !in attached && count == |attached|
      modifies this`count, this`attached
      ensures attached == old(attached) + {h} && count == |attached|
    {
      count, attached := count + 1, attached + {h};
    }

    method Decrement(ghost h: Handle)
      requires !freed && h in attached && count == |attached|
      modifies this`count, this`attached
      ensures attached == old(attached) - {h} && count == |attached|
    {
      assert attached == (attached - {h}) + {h};
      count, attached := count - 1, attached - {h};
    }
  }

  /** An object that hands out handles to itself; `gone` once it is destroyed. */
  class Target {
    var state: State?
    var gone: bool

    constructor ()
      ensures state == null && !gone
    {
      state, gone := null, false;
    }
  }

  class Handle {
    var state: State?

    constructor ()
      ensures state == null
    {
      state := null;
    }
  }

  /** No element occurs twice. */
  predicate Once<T(==)>(s: seq<T>) { forall i, j | 0 <= i < j < |s| :: s[i] != s[j] }

  /** Everything that exists, and the states in the order in which they were freed. */
  class World {
    ghost var states: set<State>
    ghost var targets: set<Target>
    ghost var handles: set<Handle>
    ghost var frees: seq<State>

    constructor ()
      ensures Valid() && states == {} && targets == {} && handles == {} && frees == []
    {
      states, targets, handles, frees := {}, {}, {}, [];
    }

    ghost predicate StateOk(s: State)
      reads this, s, targets
    {
      && s.attached <= handles && s.count == |s.attached|
      && s.owner in targets && s.owner.state == s && s.ptr == (if s.owner.gone then null else s.owner)
      && (s.freed <==> s.owner.gone && s.attached == {})
      && (s.freed <==> s in frees)
    }

    ghost predicate TargetOk(t: Target)
      reads this, t, states
    {
      t.state != null ==> t.state in states && t.state.owner == t
    }

    /** `x` is a handle that is being detached: it may still hold a state that no longer counts it. */
    ghost predicate HandleOk(h: Handle, x: Handle?)
      reads this, h, states
    {
      if h == x then forall s | s in states :: h !in s.attached
      else
        && (h.state != null ==> h.state in states && h in h.state.attached)
        && (forall s | s in states && h in s.attached :: h.state == s)
    }

    ghost predicate Log()
      reads this
    {
      Once(frees) && forall s | s in frees :: s in states
    }

    ghost predicate ValidBut(x: Handle?)
      reads this, states, targets, handles
    {
      && (forall s | s in states :: StateOk(s))
      && (forall t | t in targets :: TargetOk(t))
      && (forall h | h in handles :: HandleOk(h, x))
      && Log()
    }

    /**
     * The count is the number of attached handles, a state leads to its target until that is destroyed, and it
     * has been freed, once, exactly when the target is gone and nobody is attached.
     */
    ghost predicate Valid()
      reads this, states, targets, handles
    {
      ValidBut(null)
    }

    ghost function Holders(s: State): set<Handle>
      reads this, handles
    {
      set h | h in handles && h.state == s
    }

    ghost function PtrOf(h: Handle): Target?
      reads h, h.state
    {
      if h.state == null then null else h.state.ptr
    }

    /** What an operation may do besides its own: destroy some targets, and free states for good. */
    twostate predicate Destroys(dead: set<Target?>)
      reads this, targets
    {
      && targets == old(targets) && old(frees) <= frees
      && (forall t | t in targets :: t.gone == (old(t.gone) || t in dead) && t.state == old(t.state))
    }

    /** Only some handles changed. */
    twostate predicate HandlesBut(some: set<Handle>)
      reads this, handles
    {
      handles == old(handles) && forall x | x in handles && x !in some :: x.state == old(x.state)
    }

    // ----- the two sides -----

    /** `delete state_` */
    method Delete(s: State)
      requires s in states && !s.freed && s !in frees
      modifies s`freed, this`frees
      ensures s.freed && frees == old(frees) + [s]
    {
      s.freed := true;
      frees := frees + [s];
    }

    /** The state of a target that is going: it leads nowhere, and is freed unless handles are attached. */
    method Orphan(t: Target, s: State, ghost x: Handle?)
      requires ValidBut(x) && s in states && s.ptr == t && t in targets && t.state == s
      modifies this`frees, s`ptr, s`freed
      ensures s.ptr == null && (s.freed <==> s.attached == {}) && (s.freed <==> s in frees)
      ensures old(frees) <= frees && Log()
      ensures (forall y | y in states && y != s :: StateOk(y)) && (forall h | h in handles :: HandleOk(h, x))
    {
      assert TargetOk(t) && StateOk(s) && !s.freed;
      s.ClearPtr();
      if s.Count() == 0 {
        Delete(s);
      }
    }

    /** ~EnableWeakRefCountedPtr */
    method DestroyTarget(t: Target, ghost x: Handle?)
      requires ValidBut(x) && t in targets && !t.gone
      modifies this`frees, t`gone, states
      ensures ValidBut(x) && states == old(states) && Destroys({t}) && HandlesBut({})
      ensures forall s | s in states :: s.attached == old(s.attached)
    {
      hide HandleOk, Log;
      assert TargetOk(t);
      if t.state != null {
        assert StateOk(t.state);
        Orphan(t, t.state, x);
      }
      assert forall y | y in states && y != t.state :: y.owner != t;
      t.gone := true;
    }

    lemma AttachedTo(h: Handle)
      requires Valid() && h in handles && h.state != null
      ensures h.state in states && h in h.state.attached && StateOk(h.state) && !h.state.freed
    {
      assert HandleOk(h, null);
    }

    lemma PtrOk(s: State, x: Handle?)
      requires ValidBut(x) && s in states && s.ptr != null
      ensures s.ptr in targets && !s.ptr.gone && s.ptr.state == s && !s.freed
    {
      assert StateOk(s);
    }

    /** The count goes down; a state without target and handles is freed. */
    method Release(h: Handle, s: State) returns (p: Target?)
      requires Valid() && h in handles && s in states && h.state == s
      modifies this`frees, s
      ensures ValidBut(h) && p == s.ptr == old(s.ptr) && old(frees) <= frees
    {
      AttachedTo(h);
      s.Decrement(h);
      p := s.Ptr();
      if p == null {
        if s.Count() == 0 {
          Delete(s);
        }
      }
    }

    /** The handle forgets a state that may be gone. */
    method Forget(h: Handle)
      requires ValidBut(h) && h in handles
      modifies h
      ensures Valid() && h.state == null
    {
      assert HandleOk(h, h);
      h.state := null;
    }

    /** destroyPtr; `destroys` says whether the target answers its hook by destroying itself. */
    method DestroyPtr(h: Handle, destroys: bool)
      requires Valid() && h in handles
      modifies this`frees, h, states, targets
      ensures Valid() && states == old(states) && h.state == null && HandlesBut({h})
      ensures Destroys(if destroys then {old(PtrOf(h))} else {})
    {
      hide StateOk, HandleOk, TargetOk, Log;
      if h.state == null {
        return;
      }
      AttachedTo(h);
      var s := h.state;
      var p := Release(h, s);
      if p != null && destroys {
        PtrOk(s, h);
        DestroyTarget(p, h);
      }
      Forget(h);
    }

    method Attach(h: Handle, s: State)
      requires Valid() && h in handles && h.state == null && s in states && !s.freed
      modifies h, s`count, s`attached
      ensures Valid() && h.state == s && s.attached != {}
    {
      hide Log;
      assert HandleOk(h, null) && StateOk(s);
      h.state := s;
      s.Increment(h);
      assert StateOk(s);
    }

    /** initPtr: one handle more.  The state must not have been freed, and is not freed by the hook. */
    method InitPtr(h: Handle, s: State?, destroys: bool)
      requires Valid() && h in handles && h.state == null && (s != null ==> s in states && !s.freed)
      modifies this`frees, h, states, targets
      ensures Valid() && states == old(states) && h.state == s && HandlesBut({h})
      ensures Destroys(if destroys && s != null then {old(s.ptr)} else {})
    {
      hide StateOk, HandleOk, TargetOk, Log;
      if s == null {
        return;
      }
      Attach(h, s);
      var p := s.Ptr();
      if p != null && destroys {
        PtrOk(s, null);
        DestroyTarget(p, null);
      }
      AttachedTo(h);
      assert s.Count() >= 1 by { assert StateOk(s) && h in s.attached; }
    }

    // ----- targets -----

    method NewTarget() returns (t: Target)
      requires Valid()
      modifies this`targets
      ensures Valid() && fresh(t) && targets == old(targets) + {t} && !t.gone && t.state == null
    {
      t := new Target();
      targets := targets + {t};
      assert TargetOk(t);
      assert forall s | s in states :: StateOk(s);
    }

    /** The first handle makes the shared state. */
    method NewState(t: Target)
      requires Valid() && t in targets && !t.gone && t.state == null
      modifies this`states, t`state
      ensures Valid() && t.state != null && fresh(t.state) && states == old(states) + {t.state}
    {
      var s := new State(t);
      t.state := s;
      states := states + {s};
      assert forall x | x in old(states) :: StateOk(x);
      assert StateOk(s);
    }

    lemma TargetState(t: Target)
      requires Valid() && t in targets && !t.gone && t.state != null
      ensures t.state in states && t.state.ptr == t && !t.state.freed
    {
      assert TargetOk(t) && StateOk(t.state);
    }

    /** getWeakRefCountedPtr */
    method GetWeakRefCountedPtr(t: Target, destroys: bool) returns (h: Handle)
      requires Valid() && t in targets && !t.gone
      modifies this`states, this`handles, this`frees, t, states, targets
      ensures Valid() && fresh(h) && handles == old(handles) + {h} && old(frees) <= frees
      ensures old(states) <= states && fresh(states - old(states))
      ensures h.state != null && h.state == t.state && (old(t.state) != null ==> t.state == old(t.state))
      ensures forall x | x in old(handles) :: x.state == old(x.state)
      ensures targets == old(targets)
      ensures forall u | u in targets :: u.gone == (old(u.gone) || (destroys && u == t))
      ensures forall u | u in targets && u != t :: u.state == old(u.state)
    {
      hide StateOk, HandleOk, TargetOk, Log;
      if t.state == null {
        NewState(t);
      }
      TargetState(t);
      h := NewHandle();
      InitPtr(h, t.state, destroys);
    }

    /** numWeakRefCountedPtrs */
    method NumWeakRefCountedPtrs(t: Target) returns (n: nat)
      requires Valid() && t in targets && !t.gone
      ensures n == if t.state == null then 0 else |Holders(t.state)|
    {
      if t.state == null {
        return 0;
      }
      TargetState(t);
      CountIs(t.state);
      n := t.state.Count();
    }

    /** The count of a state is the number of handles that hold it. */
    lemma CountIs(s: State)
      requires Valid() && s in states
      ensures s.count == |Holders(s)|
    {
      assert StateOk(s);
      forall h | h in handles
        ensures h in s.attached <==> h.state == s
      {
        assert HandleOk(h, null);
      }
      assert s.attached == Holders(s);
    }

    /** A state has been freed exactly if its target is gone and no handle holds it. */
    lemma FreedExactly()
      requires Valid()
      ensures Once(frees) && forall s | s in states :: s in frees <==> s.owner.gone && Holders(s) == {}
    {
      forall s | s in states
        ensures s in frees <==> s.owner.gone && Holders(s) == {}
      {
        CountIs(s);
        assert StateOk(s);
      }
    }

    /** When all targets and handles are gone, every state has been freed. */
    lemma NothingLeaks()
      requires Valid() && handles == {} && forall t | t in targets :: t.gone
      ensures Once(frees) && forall s :: s in states <==> s in frees
    {
      forall s | s in states
        ensures s in frees
      {
        assert StateOk(s);
      }
    }

    // ----- handles -----

    /** The default constructor. */
    method NewHandle() returns (h: Handle)
      requires Valid()
      modifies this`handles
      ensures Valid() && fresh(h) && handles == old(handles) + {h} && h.state == null
    {
      h := new Handle();
      assert forall s | s in states :: StateOk(s);
      handles := handles + {h};
      assert forall s | s in states :: h !in s.attached;
      assert HandleOk(h, null);
    }

    /** The destructor. */
    method DropHandle(h: Handle, destroys: bool)
      requires Valid() && h in handles
      modifies this`frees, this`handles, h, states, targets
      ensures Valid() && states == old(states) && handles == old(handles) - {h}
      ensures forall x | x in handles :: x.state == old(x.state)
      ensures Destroys(if destroys then {old(PtrOf(h))} else {})
    {
      hide StateOk, HandleOk, TargetOk, Log;
      DestroyPtr(h, destroys);
      Remove(h);
    }

    method Remove(h: Handle)
      requires Valid() && h in handles && h.state == null
      modifies this`handles
      ensures Valid() && handles == old(handles) - {h}
    {
      assert HandleOk(h, null);
      assert forall s | s in states :: StateOk(s) && h !in s.attached;
      handles := handles - {h};
    }

    /** get: the target, if it still exists. */
    method Get(h: Handle) returns (t: Target?)
      requires Valid() && h in handles
      ensures t == PtrOf(h) && (t != null ==> t in targets && !t.gone)
      ensures h.state != null && t == null ==> forall u | u in targets && u.state == h.state :: u.gone
    {
      if h.state == null {
        return null;
      }
      AttachedTo(h);
      t := h.state.Ptr();
      assert forall u | u in targets :: TargetOk(u);
    }

    /** The copy constructor. */
    method Copy(rhs: Handle, destroys: bool) returns (h: Handle)
      requires Valid() && rhs in handles
      modifies this`handles, this`frees, states, targets
      ensures Valid() && states == old(states) && fresh(h) && handles == old(handles) + {h}
      ensures h.state == old(rhs.state) && forall x | x in old(handles) :: x.state == old(x.state)
      ensures Destroys(if destroys then {old(PtrOf(rhs))} else {})
    {
      hide StateOk, HandleOk, TargetOk, Log;
      if rhs.state != null {
        AttachedTo(rhs);
      }
      h := NewHandle();
      InitPtr(h, rhs.state, destroys);
    }

    /** The state changes hands; the count stays. */
    method HandOver(h: Handle, rhs: Handle)
      requires Valid() && h in handles && rhs in handles && h.state == null && h != rhs
      modifies h, rhs, states
      ensures Valid() && states == old(states) && h.state == old(rhs.state) && rhs.state == null
      ensures HandlesBut({h, rhs}) && Destroys({})
    {
      if rhs.state == null {
        return;
      }
      AttachedTo(rhs);
      var s := rhs.state;
      NotAttached(h);
      SwapSize(s.attached, rhs, h);
      Replace(h, rhs, s);
      Forget(rhs);
    }

    lemma NotAttached(h: Handle)
      requires Valid() && h in handles && h.state == null
      ensures forall s | s in states :: h !in s.attached
    {
      assert HandleOk(h, null);
    }

    method Replace(h: Handle, rhs: Handle, s: State)
      requires Valid() && h in handles && rhs in handles && h.state == null && rhs.state == s && s in states && h != rhs
      requires rhs in s.attached && (forall x | x in states :: h !in x.attached)
      requires |s.attached - {rhs} + {h}| == |s.attached|
      modifies h`state, s`attached
      ensures ValidBut(rhs) && h.state == s
    {
      hide Log;
      assert HandleOk(rhs, null);
      h.state := s;
      s.attached := s.attached - {rhs} + {h};
      assert StateOk(s);
    }

    /** The move constructor. */
    method Move(rhs: Handle) returns (h: Handle)
      requires Valid() && rhs in handles
      modifies this`handles, rhs, states
      ensures Valid() && states == old(states) && fresh(h) && handles == old(handles) + {h}
      ensures h.state == old(rhs.state) && rhs.state == null
      ensures forall x | x in old(handles) && x != rhs :: x.state == old(x.state)
      ensures Destroys({})
    {
      hide StateOk, HandleOk, TargetOk, Log;
      h := NewHandle();
      HandOver(h, rhs);
    }

    /** A handle leads to the one target of its state that is not gone, if there is one. */
    lemma OwnTarget(h: Handle)
      requires Valid() && h in handles
      ensures h.state != null ==> h.state in states && !h.state.freed
      ensures PtrOf(h) != null ==> PtrOf(h) in targets && !PtrOf(h).gone && PtrOf(h).state == h.state
      ensures forall u | u in targets && u.state != null && u.state == h.state && !u.gone :: u == PtrOf(h)
    {
      if h.state != null {
        AttachedTo(h);
        assert forall u | u in targets :: TargetOk(u);
      }
    }

    /** Copy assignment.  Assigning a handle to itself detaches it. */
    method Assign(h: Handle, rhs: Handle, onDestroy: bool, onCreate: bool)
      requires Valid() && h in handles && rhs in handles
      modifies this`frees, h, states, targets
      ensures Valid() && states == old(states) && h.state == (if h == rhs then null else old(rhs.state))
      ensures HandlesBut({h})
      ensures Destroys((if onDestroy then {old(PtrOf(h))} else {})
                       + if onCreate && h != rhs then {old(PtrOf(rhs))} else {})
    {
      hide StateOk, HandleOk, TargetOk, Log;
      ghost var p := PtrOf(rhs);
      OwnTarget(rhs);
      DestroyPtr(h, onDestroy);
      OwnTarget(rhs);
      assert PtrOf(rhs) == null || PtrOf(rhs) == p;
      InitPtr(h, rhs.state, onCreate);
    }

    /** Move assignment. */
    method MoveAssign(h: Handle, rhs: Handle, onDestroy: bool)
      requires Valid() && h in handles && rhs in handles
      modifies this`frees, h, rhs, states, targets
      ensures Valid() && states == old(states) && rhs.state == null
      ensures h.state == (if h == rhs then null else old(rhs.state)) && HandlesBut({h, rhs})
      ensures Destroys(if onDestroy then {old(PtrOf(h))} else {})
    {
      hide StateOk, HandleOk, TargetOk, Log;
      DestroyPtr(h, onDestroy);
      if h != rhs {
        HandOver(h, rhs);
      }
    }
  }

  // ----- runs -----

  /** What a client may do; handles and targets are numbered in the order in which they were made. */
  datatype Op =
    | MakeTarget
    | DestroyTargetOp(t: nat)
    | MakeHandle
    | Take(t: nat, hook: bool)
    | CopyOf(h: nat, hook: bool)
    | MoveOf(h: nat)
    | AssignOp(h: nat, rhs: nat, onDestroy: bool, onCreate: bool)
    | MoveAssignOp(h: nat, rhs: nat, onDestroy: bool)
    | Reset(h: nat, hook: bool)
    | Drop(h: nat, hook: bool)

  /** A client, which knows its objects by number and uses none that it has destroyed. */
  class Client {
    const world: World
    var ts: seq<Target>
    var hs: map<nat, Handle>
    var made: nat

    constructor ()
      ensures Valid() && fresh(world) && ts == [] && hs == map[] && world.states == {} && world.frees == []
    {
      world := new World();
      ts, hs, made := [], map[], 0;
    }

    ghost predicate Valid()
      reads this, world, world.states, world.targets, world.handles
    {
      && world.Valid()
      && (forall t | t in ts :: t in world.targets)
      && (forall i | i in hs :: i < made && hs[i] in world.handles)
      && (forall i, j | i in hs && j in hs && i != j :: hs[i] != hs[j])
    }

    /** States are only added, and a freed state stays freed. */
    twostate predicate Grows()
      reads this, world
    {
      && old(world.states) <= world.states && old(world.frees) <= world.frees
      && fresh(world.states - old(world.states)) && fresh(world.targets - old(world.targets))
      && fresh(world.handles - old(world.handles))
    }

    method Keep(h: Handle)
      requires world.Valid() && h in world.handles && (forall t | t in ts :: t in world.targets)
      requires (forall i | i in hs :: i < made && hs[i] in world.handles && hs[i] != h)
      requires forall i, j | i in hs && j in hs && i != j :: hs[i] != hs[j]
      modifies this`hs, this`made
      ensures Valid()
    {
      hs := hs[made := h];
      made := made + 1;
    }

    /** Operations on targets. */
    method StepTarget(op: Op)
      requires Valid() && (op.MakeTarget? || op.DestroyTargetOp? || op.Take?)
      modifies this, world, world.states, world.targets, world.handles
      ensures Valid() && Grows()
    {
      hide World.ValidBut, World.PtrOf;
      match op
      case MakeTarget =>
        var t := world.NewTarget();
        ts := ts + [t];
      case DestroyTargetOp(t) =>
        if t < |ts| && !ts[t].gone {
          world.DestroyTarget(ts[t], null);
        }
      case Take(t, hook) =>
        if t < |ts| && !ts[t].gone {
          var h := world.GetWeakRefCountedPtr(ts[t], hook);
          Keep(h);
        }
    }

    /** Operations that make a handle. */
    method StepMake(op: Op)
      requires Valid() && (op.MakeHandle? || op.CopyOf? || op.MoveOf?)
      modifies this, world, world.states, world.targets, world.handles
      ensures Valid() && Grows()
    {
      hide World.ValidBut, World.PtrOf;
      match op
      case MakeHandle =>
        var h := world.NewHandle();
        Keep(h);
      case CopyOf(rhs, hook) =>
        if rhs in hs {
          var h := world.Copy(hs[rhs], hook);
          Keep(h);
        }
      case MoveOf(rhs) =>
        if rhs in hs {
          var h := world.Move(hs[rhs]);
          Keep(h);
        }
    }

    /** Operations on handles. */
    method StepHandle(op: Op)
      requires Valid() && (op.AssignOp? || op.MoveAssignOp? || op.Reset? || op.Drop?)
      modifies this, world, world.states, world.targets, world.handles
      ensures Valid() && Grows()
    {
      hide World.ValidBut, World.PtrOf;
      match op
      case AssignOp(h, rhs, onDestroy, onCreate) =>
        if h in hs && rhs in hs {
          world.Assign(hs[h], hs[rhs], onDestroy, onCreate);
        }
      case MoveAssignOp(h, rhs, onDestroy) =>
        if h in hs && rhs in hs {
          world.MoveAssign(hs[h], hs[rhs], onDestroy);
        }
      case Reset(h, hook) =>
        if h in hs {
          world.DestroyPtr(hs[h], hook);
        }
      case Drop(h, hook) =>
        if h in hs {
          world.DropHandle(hs[h], hook);
          hs := hs - {h};
        }
    }

    method Step(op: Op)
      requires Valid()
      modifies this, world, world.states, world.targets, world.handles
      ensures Valid() && Grows()
    {
      hide Valid;
      if op.MakeTarget? || op.DestroyTargetOp? || op.Take? {
        StepTarget(op);
      } else if op.MakeHandle? || op.CopyOf? || op.MoveOf? {
        StepMake(op);
      } else {
        StepHandle(op);
      }
    }

    lemma Outcome()
      requires Valid()
      ensures Once(world.frees)
      ensures forall s | s in world.states :: s in world.frees <==> s.owner.gone && world.Holders(s) == {}
    {
      world.FreedExactly();
    }

    /**
     * Whatever a client does, in any order: every access is to a state that has not been freed, and after every
     * operation a state has been freed, once and for good, exactly if its target is gone and no handle holds it.
     */
    method Run(ops: seq<Op>)
      requires Valid()
      modifies this, world, world.states, world.targets, world.handles
      ensures Valid() && Grows() && Once(world.frees)
      ensures forall s | s in world.states :: s in world.frees <==> s.owner.gone && world.Holders(s) == {}
    {
      hide Valid;
      for i := 0 to |ops|
        invariant Valid() && Grows()
      {
        Step(ops[i]);
      }
      Outcome();
    }
  }

  lemma SwapSize<T>(a: set<T>, x: T, y: T)
    requires x in a && y !in a
    ensures |a - {x} + {y}| == |a|
  {
    assert |a - {x}| == |a| - 1;
  }
}
