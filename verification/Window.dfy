/** Flow-control windows (sections 6.9.1 and 6.9.2 of RFC 7540) in 32-bit arithmetic. */
module Window {

  const INT32_MAX: int := 0x7fff_ffff
  const INT32_MIN: int := -0x8000_0000
  const TWO_TO_THE_32: int := 0x1_0000_0000

  newtype Int32 = x: int | -0x8000_0000 <= x < 0x8000_0000

  newtype Uint32 = x: int | 0 <= x < 0x1_0000_0000

  /** Signed plus unsigned: the sum is taken modulo 2^32 and read as a signed number. */
  function Wrap(x: int): (r: Int32)
    ensures INT32_MIN <= x <= INT32_MAX ==> r as int == x
  {
    var m := x % TWO_TO_THE_32;
    (if m > INT32_MAX then m - TWO_TO_THE_32 else m) as Int32
  }

  /** A window: what may be outstanding, and what is. */
  datatype Flow = Flow(capacity: int, outstanding: int)

  predicate Inv(w: Flow)
  {
    && 0 <= w.capacity <= INT32_MAX && INT32_MIN <= w.outstanding <= INT32_MAX
    && w.capacity - w.outstanding <= INT32_MAX
  }

  datatype Op = Reserve(amount: nat, strict: bool) | Free(amount: nat) | SetCapacity(capacity: nat)

  /** When a call succeeds, in unbounded arithmetic. */
  predicate Succeeds(w: Flow, op: Op)
  {
    match op
    case Reserve(n, strict) =>
      w.outstanding + n <= INT32_MAX && n <= INT32_MAX && (strict ==> w.outstanding + n <= w.capacity)
    case Free(n) => n <= INT32_MAX && w.capacity - w.outstanding + n <= INT32_MAX
    case SetCapacity(c) => c <= INT32_MAX && c - w.outstanding <= INT32_MAX
  }

  /** A call that fails changes nothing. */
  function Apply(w: Flow, op: Op): (r: Flow)
  {
    if !Succeeds(w, op) then w
    else
      match op
      case Reserve(n, _) => w.(outstanding := w.outstanding + n)
      case Free(n) => w.(outstanding := w.outstanding - n)
      case SetCapacity(c) => w.(capacity := c)
  }

  function Run(w: Flow, ops: seq<Op>): Flow
  {
    if ops == [] then w else Apply(Run(w, ops[..|ops| - 1]), ops[|ops| - 1])
  }

  /** What the successful calls have reserved, less what they have freed. */
  function Balance(w: Flow, ops: seq<Op>): int
  {
    if ops == [] then 0
    else
      var op, v := ops[|ops| - 1], Run(w, ops[..|ops| - 1]);
      var change: int :=
        if !Succeeds(v, op) || op.SetCapacity? then 0 else if op.Reserve? then op.amount else -(op.amount as int);
      Balance(w, ops[..|ops| - 1]) + change
  }

  /** The capacity that was accepted last. */
  function LastCapacity(w: Flow, ops: seq<Op>): int
  {
    if ops == [] then w.capacity
    else
      var op := ops[|ops| - 1];
      if op.SetCapacity? && Succeeds(Run(w, ops[..|ops| - 1]), op) then op.capacity
      else LastCapacity(w, ops[..|ops| - 1])
  }

  /** The window if nothing were refused. */
  function Wanted(w: Flow, op: Op): Flow
  {
    Flow(if op.SetCapacity? then op.capacity else w.capacity,
         w.outstanding + if op.Reserve? then op.amount else if op.Free? then -(op.amount as int) else 0)
  }

  /** A call is refused exactly if it would break the bounds, or if a strict one would overdraw the window. */
  lemma RefusedExactly(w: Flow, op: Op)
    requires Inv(w)
    ensures var v := Wanted(w, op);
            Succeeds(w, op) <==>
            && Inv(v) && (op.Reserve? || op.Free? ==> op.amount <= INT32_MAX)
            && (op.Reserve? && op.strict ==> v.outstanding <= v.capacity)
    ensures Apply(w, op) == if Succeeds(w, op) then Wanted(w, op) else w
  {
  }

  /** Over every run: the bounds hold, the account is exact, and the capacity is the one accepted last. */
  lemma {:induction false} EveryRunKeepsAccount(w: Flow, ops: seq<Op>)
    requires Inv(w)
    ensures Inv(Run(w, ops)) && Run(w, ops).outstanding == w.outstanding + Balance(w, ops)
    ensures Run(w, ops).capacity == LastCapacity(w, ops)
  {
    if ops != [] {
      EveryRunKeepsAccount(w, ops[..|ops| - 1]);
    }
  }

  class Window {
    var outstanding: Int32
    var capacity: Int32

    ghost function State(): Flow
      reads this
    {
      Flow(capacity as int, outstanding as int)
    }

    constructor (capacity: Uint32)
      requires capacity as int <= INT32_MAX
      ensures Inv(State()) && State() == Flow(capacity as int, 0)
    {
      outstanding := 0;
      this.capacity := capacity as int as Int32;
    }

    /** Negative when the capacity was lowered below what is outstanding. */
    function GetSize(): (size: Int32)
      requires Inv(State())
      reads this
      ensures size as int == State().capacity - State().outstanding
    {
      capacity - outstanding
    }

    method Reserve(amount: Uint32, strict: bool) returns (ok: bool)
      requires Inv(State())
      modifies this`outstanding
      ensures Inv(State()) && ok == Succeeds(old(State()), Op.Reserve(amount as int, strict))
      ensures State() == Apply(old(State()), Op.Reserve(amount as int, strict))
      ensures ok && strict ==> GetSize() >= 0
    {
      if amount as int > INT32_MAX {
        return false;
      }
      var limit: Int32 := INT32_MAX as Int32 - amount as int as Int32;
      if outstanding > 0 && limit < outstanding {
        return false;
      }
      var newOutstanding := Wrap(outstanding as int + amount as int);
      if strict && newOutstanding > capacity {
        return false;
      }
      outstanding := newOutstanding;
      return true;
    }

    method Free(amount: Uint32) returns (ok: bool)
      requires Inv(State())
      modifies this`outstanding
      ensures Inv(State()) && ok == Succeeds(old(State()), Op.Free(amount as int))
      ensures State() == Apply(old(State()), Op.Free(amount as int))
    {
      if amount as int > INT32_MAX {
        return false;
      }
      var limit: Int32 := INT32_MIN as Int32 + amount as int as Int32;
      if outstanding < 0 && limit > outstanding {
        return false;
      }
      var newOutstanding := Wrap(outstanding as int - amount as int);
      if newOutstanding < capacity - INT32_MAX as Int32 {
        return false;
      }
      outstanding := newOutstanding;
      return true;
    }

    method SetCapacity(c: Uint32) returns (ok: bool)
      requires Inv(State())
      modifies this`capacity
      ensures Inv(State()) && ok == Succeeds(old(State()), Op.SetCapacity(c as int))
      ensures State() == Apply(old(State()), Op.SetCapacity(c as int))
    {
      if c as int > INT32_MAX {
        return false;
      }
      var diff: Int32 := c as int as Int32 - capacity;
      if diff > 0 {
        var size := GetSize();
        if size > 0 && diff > INT32_MAX as Int32 - size {
          return false;
        }
      }
      capacity := c as int as Int32;
      return true;
    }
  }
}
