/**
 * What a PerfectIndexMap means: an ordered multimap.  Cells are the positions of its vectors; a removed entry
 * leaves a dead cell.
 */
module IndexMapList {
  import opened HttpTypes

  type Key = nat

  const NONE: Key := 0
  const OTHER: Key := 1

  /** A key with a code of its own, or the name of one of the others. */
  datatype Id = Known(key: Key) | Named(name: Bytes)

  datatype Item = Item(id: Id, value: Bytes)

  datatype Cell = Removed | Live(item: Item)

  function LiveOf(cells: seq<Cell>): seq<Item>
  {
    if cells == [] then []
    else LiveOf(cells[..|cells| - 1]) + if cells[|cells| - 1].Removed? then [] else [cells[|cells| - 1].item]
  }

  function DeadCount(cells: seq<Cell>): (n: nat)
    ensures n <= |cells|
  {
    if cells == [] then 0 else DeadCount(cells[..|cells| - 1]) + if cells[|cells| - 1].Removed? then 1 else 0
  }

  lemma {:induction false} LiveCount(cells: seq<Cell>)
    ensures |LiveOf(cells)| == |cells| - DeadCount(cells)
  {
    if cells != [] {
      LiveCount(cells[..|cells| - 1]);
    }
  }

  lemma LiveMore(cells: seq<Cell>, c: Cell)
    ensures LiveOf(cells + [c]) == if c.Removed? then LiveOf(cells) else LiveOf(cells) + [c.item]
    ensures DeadCount(cells + [c]) == DeadCount(cells) + if c.Removed? then 1 else 0
  {
    assert (cells + [c])[..|cells|] == cells;
  }

  lemma {:induction false} DeadAt(cells: seq<Cell>, i: nat, c: Cell)
    requires i < |cells|
    ensures DeadCount(cells[i := c])
            == DeadCount(cells) + (if c.Removed? then 1 else 0) - (if cells[i].Removed? then 1 else 0)
    decreases |cells|
  {
    if i < |cells| - 1 {
      DeadAt(cells[..|cells| - 1], i, c);
      assert cells[i := c][..|cells| - 1] == cells[..|cells| - 1][i := c];
    } else {
      assert cells[i := c][..|cells| - 1] == cells[..|cells| - 1];
    }
  }

  // ----- the operations on the list -----

  function Matches(s: seq<Item>, id: Id): seq<Item>
  {
    if s == [] then [] else Matches(s[..|s| - 1], id) + if s[|s| - 1].id == id then [s[|s| - 1]] else []
  }

  function Others(s: seq<Item>, id: Id): seq<Item>
  {
    if s == [] then [] else Others(s[..|s| - 1], id) + if s[|s| - 1].id == id then [] else [s[|s| - 1]]
  }

  /** The first entry of a key gets the value and the others go; and whether there was one. */
  function SetFirst(s: seq<Item>, id: Id, value: Bytes): (r: (seq<Item>, bool))
  {
    if s == [] then ([], false)
    else
      var (p, found) := SetFirst(s[..|s| - 1], id, value);
      var last := s[|s| - 1];
      if last.id != id then (p + [last], found) else if found then (p, true) else (p + [Item(id, value)], true)
  }

  function SetIn(s: seq<Item>, id: Id, value: Bytes): seq<Item>
  {
    var (r, found) := SetFirst(s, id, value);
    if found then r else r + [Item(id, value)]
  }

  lemma {:induction false} SetFirstIs(s: seq<Item>, id: Id, value: Bytes)
    ensures var (r, found) := SetFirst(s, id, value);
            && Others(r, id) == Others(s, id) && found == (Matches(s, id) != [])
            && Matches(r, id) == if found then [Item(id, value)] else []
  {
    if s != [] {
      var front, last := s[..|s| - 1], s[|s| - 1];
      SetFirstIs(front, id, value);
      var p := SetFirst(front, id, value).0;
      More(p, last, id);
      More(p, Item(id, value), id);
    }
  }

  lemma More(s: seq<Item>, x: Item, id: Id)
    ensures Matches(s + [x], id) == Matches(s, id) + if x.id == id then [x] else []
    ensures Others(s + [x], id) == Others(s, id) + if x.id == id then [] else [x]
  {
    assert (s + [x])[..|s|] == s;
  }

  /** Setting leaves exactly one entry of the key, with the value, and all other entries as they were. */
  lemma SetLeavesOne(s: seq<Item>, id: Id, value: Bytes)
    ensures Matches(SetIn(s, id, value), id) == [Item(id, value)] && Others(SetIn(s, id, value), id) == Others(s, id)
  {
    SetFirstIs(s, id, value);
    More(SetFirst(s, id, value).0, Item(id, value), id);
  }

  /** The entries of a key and the other ones are the entries there are. */
  lemma {:induction false} MatchesSplit(s: seq<Item>, id: Id)
    ensures forall x :: x in Matches(s, id) <==> x in s && x.id == id
    ensures forall x :: x in Others(s, id) <==> x in s && x.id != id
    ensures |Matches(s, id)| + |Others(s, id)| == |s|
  {
    if s != [] {
      MatchesSplit(s[..|s| - 1], id);
      assert s == s[..|s| - 1] + [s[|s| - 1]];
    }
  }

  lemma {:induction false} SetFirstAt(s: seq<Item>, i: nat, id: Id, value: Bytes)
    requires i <= |s| && (forall j | 0 <= j < i :: s[j].id != id) && (i < |s| ==> s[i].id == id)
    ensures SetFirst(s, id, value) ==
            if i == |s| then (s, false) else (s[..i] + [Item(id, value)] + Others(s[i + 1..], id), true)
    decreases |s|
  {
    hide Others;
    if s != [] {
      var front, last := s[..|s| - 1], s[|s| - 1];
      assert s == front + [last];
      SetFirstAt(front, if i == |s| then i - 1 else i, id, value);
      if i < |front| {
        assert s[i + 1..] == front[i + 1..] + [last] && front[..i] == s[..i];
        More(front[i + 1..], last, id);
        var kept, rest := s[..i] + [Item(id, value)], Others(front[i + 1..], id);
        assert kept + rest + [last] == kept + (rest + [last]);
        assert kept + (rest + []) == kept + rest;
      } else if i == |front| {
        NoOthers(id);
        assert s[i + 1..] == [] && front == s[..i];
        assert front + [Item(id, value)] + [] == front + [Item(id, value)];
      }
    }
  }

  lemma NoOthers(id: Id)
    ensures Others([], id) == []
  {
  }

  /** The value is set where the first entry of the key was, and at the end if there was none. */
  lemma SetExact(s: seq<Item>, i: nat, id: Id, value: Bytes)
    requires i <= |s| && (forall j | 0 <= j < i :: s[j].id != id) && (i < |s| ==> s[i].id == id)
    ensures SetIn(s, id, value) == s[..i] + [Item(id, value)] + if i < |s| then Others(s[i + 1..], id) else []
  {
    hide SetFirst;
    SetFirstAt(s, i, id, value);
    assert s[..|s|] == s;
    assert s + [Item(id, value)] + [] == s + [Item(id, value)];
  }

  /** No key twice. */
  ghost predicate Unique(s: seq<Item>) { forall id: Id :: |Matches(s, id)| <= 1 }

  // ----- the same on cells -----

  predicate Hit(c: Cell, id: Id) { c.Live? && c.item.id == id }

  function SetCells(c: seq<Cell>, id: Id, value: Bytes): (r: (seq<Cell>, bool))
    ensures |r.0| == |c|
  {
    if c == [] then ([], false)
    else
      var (p, found) := SetCells(c[..|c| - 1], id, value);
      var last := c[|c| - 1];
      if !Hit(last, id) then (p + [last], found)
      else if found then (p + [Removed], true)
      else (p + [Live(Item(id, value))], true)
  }

  lemma SetFirstMore(s: seq<Item>, x: Item, id: Id, value: Bytes)
    ensures var (p, found) := SetFirst(s, id, value);
            SetFirst(s + [x], id, value) ==
            if x.id != id then (p + [x], found) else if found then (p, true) else (p + [Item(id, value)], true)
  {
    assert (s + [x])[..|s|] == s;
  }

  lemma SetNothing(id: Id, value: Bytes)
    ensures SetFirst([], id, value) == ([], false) && LiveOf([]) == []
  {
  }

  lemma {:induction false} SetCellsIs(c: seq<Cell>, id: Id, value: Bytes)
    ensures (LiveOf(SetCells(c, id, value).0), SetCells(c, id, value).1) == SetFirst(LiveOf(c), id, value)
  {
    hide LiveOf, SetFirst;
    if c == [] {
      SetNothing(id, value);
    } else {
      var front, last := c[..|c| - 1], c[|c| - 1];
      assert c == front + [last];
      SetCellsIs(front, id, value);
      var p := SetCells(front, id, value).0;
      LiveMore(front, last);
      LiveMore(p, last);
      LiveMore(p, Removed);
      LiveMore(p, Live(Item(id, value)));
      if last.Live? {
        SetFirstMore(LiveOf(front), last.item, id, value);
      }
    }
  }

  function KillCells(c: seq<Cell>, id: Id): (r: seq<Cell>)
    ensures |r| == |c| && forall i | 0 <= i < |c| :: r[i] == if Hit(c[i], id) then Removed else c[i]
  {
    seq(|c|, i requires 0 <= i < |c| => if Hit(c[i], id) then Removed else c[i])
  }

  lemma {:induction false} KillCellsIs(c: seq<Cell>, id: Id)
    ensures LiveOf(KillCells(c, id)) == Others(LiveOf(c), id)
  {
    hide Hit, KillCells;
    if c != [] {
      var front, last := c[..|c| - 1], c[|c| - 1];
      KillCellsIs(front, id);
      KillLast(front, last, id);
      assert c == front + [last];
    }
  }

  lemma KillLast(front: seq<Cell>, last: Cell, id: Id)
    requires LiveOf(KillCells(front, id)) == Others(LiveOf(front), id)
    ensures LiveOf(KillCells(front + [last], id)) == Others(LiveOf(front + [last]), id)
  {
    hide LiveOf, Others, Matches;
    var now := if Hit(last, id) then Removed else last;
    assert KillCells(front + [last], id) == KillCells(front, id) + [now];
    LiveMore(KillCells(front, id), now);
    LiveMore(front, last);
    if last.Live? {
      More(LiveOf(front), last.item, id);
    }
  }

  lemma HitLast(front: seq<Cell>, last: Cell, id: Id)
    ensures HitBefore(front + [last], |front| + 1, id) <==> HitBefore(front, |front|, id) || Hit(last, id)
  {
    hide Hit;
    var c := front + [last];
    assert c[|front|] == last;
    assert forall i | 0 <= i < |front| :: front[i] == c[i];
    assert forall i | 0 <= i < |front| :: c[i] == front[i];
  }

  lemma MatchLast(front: seq<Cell>, last: Cell, id: Id)
    ensures Matches(LiveOf(front + [last]), id) != [] <==> Matches(LiveOf(front), id) != [] || Hit(last, id)
  {
    hide LiveOf, Matches, Others;
    LiveMore(front, last);
    if last.Live? {
      More(LiveOf(front), last.item, id);
    }
  }

  lemma {:induction false} HitIsMatch(c: seq<Cell>, id: Id)
    ensures HitBefore(c, |c|, id) <==> Matches(LiveOf(c), id) != []
  {
    hide Hit, HitBefore;
    if c == [] {
      KillBegins(c, id);
    } else {
      var front, last := c[..|c| - 1], c[|c| - 1];
      HitIsMatch(front, id);
      assert c == front + [last];
      HitLast(front, last, id);
      MatchLast(front, last, id);
    }
  }

  // ----- loops over the cells -----

  /** The cells before `pos` have been looked at, and hits removed. */
  predicate KilledUpTo(now: seq<Cell>, was: seq<Cell>, pos: nat, id: Id)
  {
    |now| == |was| && forall i | 0 <= i < |was| :: now[i] == if i < pos && Hit(was[i], id) then Removed else was[i]
  }

  predicate HitBefore(c: seq<Cell>, pos: nat, id: Id) { exists i | 0 <= i < pos && i < |c| :: Hit(c[i], id) }

  lemma KillBegins(was: seq<Cell>, id: Id)
    ensures KilledUpTo(was, was, 0, id) && !HitBefore(was, 0, id)
  {
  }

  lemma KillStep(now: seq<Cell>, was: seq<Cell>, pos: nat, id: Id)
    requires KilledUpTo(now, was, pos, id) && pos < |was|
    ensures |now| == |was| && now[pos] == was[pos]
    ensures KilledUpTo(if Hit(was[pos], id) then now[pos := Removed] else now, was, pos + 1, id)
    ensures HitBefore(was, pos + 1, id) <==> HitBefore(was, pos, id) || Hit(was[pos], id)
  {
  }

  lemma KilledAll(now: seq<Cell>, was: seq<Cell>, id: Id)
    requires KilledUpTo(now, was, |was|, id)
    ensures LiveOf(now) == Others(LiveOf(was), id) && (HitBefore(was, |was|, id) <==> Matches(LiveOf(was), id) != [])
  {
    assert now == KillCells(was, id);
    KillCellsIs(was, id);
    HitIsMatch(was, id);
  }

  /** No cell from `from` up to `stop` is a hit. */
  predicate NoHit(c: seq<Cell>, from: nat, stop: nat, id: Id)
  {
    forall i | from <= i < stop && i < |c| :: !Hit(c[i], id)
  }

  lemma KilledFurther(now: seq<Cell>, was: seq<Cell>, pos: nat, stop: nat, id: Id)
    requires KilledUpTo(now, was, pos, id) && pos <= stop && NoHit(was, pos, stop, id)
    ensures KilledUpTo(now, was, stop, id) && (HitBefore(was, stop, id) <==> HitBefore(was, pos, id))
  {
  }

  /** The cells before `pos` have been looked at: the first hit has the value, later ones are removed. */
  predicate SetUpTo(now: seq<Cell>, was: seq<Cell>, pos: nat, id: Id, value: Bytes, found: bool)
  {
    pos <= |was| && now == SetCells(was[..pos], id, value).0 + was[pos..] && found == SetCells(was[..pos], id, value).1
  }

  lemma SetStep(now: seq<Cell>, was: seq<Cell>, pos: nat, id: Id, value: Bytes, found: bool)
    requires SetUpTo(now, was, pos, id, value, found) && pos < |was|
    ensures |now| == |was| && now[pos] == was[pos]
    ensures if !Hit(was[pos], id) then SetUpTo(now, was, pos + 1, id, value, found)
            else SetUpTo(now[pos := if found then Removed else Live(Item(id, value))], was, pos + 1, id, value, true)
  {
    assert was[..pos + 1][..pos] == was[..pos];
    assert was[pos..] == [was[pos]] + was[pos + 1..];
  }

  lemma {:induction false} SetFurther(
    now: seq<Cell>, was: seq<Cell>, pos: nat, stop: nat, id: Id, value: Bytes, found: bool)
    requires SetUpTo(now, was, pos, id, value, found) && pos <= stop <= |was| && NoHit(was, pos, stop, id)
    ensures SetUpTo(now, was, stop, id, value, found)
    decreases stop - pos
  {
    if pos < stop {
      SetStep(now, was, pos, id, value, found);
      SetFurther(now, was, pos + 1, stop, id, value, found);
    }
  }

  lemma SetAll(now: seq<Cell>, was: seq<Cell>, id: Id, value: Bytes, found: bool)
    requires SetUpTo(now, was, |was|, id, value, found)
    ensures (LiveOf(now), found) == SetFirst(LiveOf(was), id, value)
  {
    assert was[..|was|] == was && was[|was|..] == [];
    assert now == SetCells(was, id, value).0;
    SetCellsIs(was, id, value);
  }

  lemma SetBegins(was: seq<Cell>, id: Id, value: Bytes)
    ensures SetUpTo(was, was, 0, id, value, false)
  {
    assert was[..0] == [] && was[0..] == was;
  }

  /** How often a key is found in the cells before `pos`. */
  lemma {:induction false} HitsCount(c: seq<Cell>, pos: nat, id: Id)
    requires pos <= |c|
    ensures |Matches(LiveOf(c[..pos]), id)| <= |Matches(LiveOf(c), id)|
    ensures NoHit(c, pos, |c|, id) ==> Matches(LiveOf(c[..pos]), id) == Matches(LiveOf(c), id)
    decreases |c| - pos
  {
    hide LiveOf, Matches;
    if pos == |c| {
      assert c[..pos] == c;
    } else {
      HitStep(c, pos, id);
      HitsCount(c, pos + 1, id);
    }
  }

  lemma HitStep(c: seq<Cell>, pos: nat, id: Id)
    requires pos < |c|
    ensures var before := Matches(LiveOf(c[..pos]), id);
            Matches(LiveOf(c[..pos + 1]), id) == if Hit(c[pos], id) then before + [c[pos].item] else before
  {
    assert c[..pos + 1] == c[..pos] + [c[pos]];
    LiveMore(c[..pos], c[pos]);
    if c[pos].Live? {
      More(LiveOf(c[..pos]), c[pos].item, id);
    }
  }

  /** In a map without duplicates nothing is hit after the first hit. */
  lemma {:induction false} OnlyHit(c: seq<Cell>, pos: nat, stop: nat, id: Id)
    requires pos < |c| && Hit(c[pos], id) && |Matches(LiveOf(c), id)| <= 1 && pos < stop <= |c|
    ensures NoHit(c, pos + 1, stop, id) && |Matches(LiveOf(c[..stop]), id)| >= 1
    decreases stop
  {
    hide LiveOf, Matches;
    HitStep(c, stop - 1, id);
    if pos + 1 < stop {
      OnlyHit(c, pos, stop - 1, id);
    }
    HitsCount(c, stop, id);
  }

  lemma {:induction false} MatchesOthers(s: seq<Item>, id: Id, x: Id)
    ensures Matches(Others(s, id), x) == if x == id then [] else Matches(s, x)
  {
    if s != [] {
      var front, last := s[..|s| - 1], s[|s| - 1];
      MatchesOthers(front, id, x);
      More(Others(front, id), last, x);
      assert Others(front, id) + [] == Others(front, id) && Matches(front, x) + [] == Matches(front, x);
    }
  }

  lemma OthersUnique(s: seq<Item>, id: Id)
    ensures Unique(s) ==> Unique(Others(s, id))
  {
    hide Others, Matches;
    forall x: Id
      ensures |Matches(Others(s, id), x)| <= |Matches(s, x)|
    {
      MatchesOthers(s, id, x);
    }
  }

  lemma SetUnique(s: seq<Item>, id: Id, value: Bytes)
    ensures Unique(s) ==> Unique(SetIn(s, id, value))
  {
    hide Others, Matches, SetIn;
    SetLeavesOne(s, id, value);
    var r := SetIn(s, id, value);
    forall x: Id
      ensures x == id ==> |Matches(r, x)| <= 1
      ensures x != id ==> Matches(r, x) == Matches(s, x)
    {
      MatchesOthers(s, id, x);
      MatchesOthers(r, id, x);
    }
  }

  /** Once a key that occurs once has been found, nothing more is hit. */
  lemma AfterFound(was: seq<Cell>, pos: nat, id: Id, value: Bytes)
    requires pos <= |was| && SetCells(was[..pos], id, value).1 && |Matches(LiveOf(was), id)| <= 1
    ensures NoHit(was, pos, |was|, id)
  {
    hide LiveOf, Matches, SetCells, SetFirst, Others;
    SetCellsIs(was[..pos], id, value);
    SetFirstIs(LiveOf(was[..pos]), id, value);
    forall i | pos <= i < |was|
      ensures !Hit(was[i], id)
    {
      HitsCount(was[..i], pos, id);
      assert was[..i][..pos] == was[..pos];
      HitStep(was, i, id);
      HitsCount(was, i + 1, id);
    }
  }
}
