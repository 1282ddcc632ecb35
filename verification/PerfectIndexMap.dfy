/**
 * PerfectIndexMap: two vectors indexed by position, and two more that give the names of the keys without a code.
 * Proved to be the multimap, or without duplicates the map, that IndexMapList describes.
 */
module PerfectIndexMap {
  import opened HttpTypes
  import opened IndexMapList

  // ----- the vectors -----

  /** The four vectors; `slot` gives for each position where its name is, and -1 for keys with a code. */
  datatype Vectors = Vectors(keys: seq<Key>, values: seq<Bytes>, names: seq<Bytes>, index: seq<nat>, slot: seq<int>)

  /** Every position that holds a name has exactly one name entry, and the entries are in order. */
  predicate Shape(v: Vectors)
  {
    && |v.keys| == |v.values| == |v.slot| && |v.names| == |v.index|
    && (forall j | 0 <= j < |v.index| :: Entry(v, j))
    && (forall i | 0 <= i < |v.keys| :: Position(v, i))
    && (forall j, k | 0 <= j < k < |v.index| :: v.index[j] < v.index[k])
  }

  predicate Entry(v: Vectors, j: nat)
    requires |v.keys| == |v.slot| && j < |v.index|
  {
    v.index[j] < |v.keys| && v.slot[v.index[j]] == j && v.keys[v.index[j]] <= OTHER
  }

  predicate Position(v: Vectors, i: nat)
    requires |v.keys| == |v.slot| && i < |v.keys|
  {
    && -1 <= v.slot[i] < |v.index| && (v.slot[i] >= 0 ==> v.index[v.slot[i]] == i)
    && (v.keys[i] == OTHER ==> v.slot[i] >= 0) && (v.keys[i] > OTHER ==> v.slot[i] == -1)
  }

  function CellAt(v: Vectors, canon: Bytes -> Bytes, i: nat): Cell
    requires Shape(v) && i < |v.keys|
  {
    assert Position(v, i);
    if v.keys[i] == NONE then Removed
    else if v.keys[i] == OTHER then Live(Item(Named(canon(v.names[v.slot[i]])), v.values[i]))
    else Live(Item(Known(v.keys[i]), v.values[i]))
  }

  function Cells(v: Vectors, canon: Bytes -> Bytes): (c: seq<Cell>)
    requires Shape(v)
    ensures |c| == |v.keys| && forall i | 0 <= i < |c| :: c[i] == CellAt(v, canon, i)
  {
    seq(|v.keys|, i requires 0 <= i < |v.keys| => CellAt(v, canon, i))
  }

  function OtherCount(keys: seq<Key>): (n: nat)
  {
    if keys == [] then 0 else OtherCount(keys[..|keys| - 1]) + if keys[|keys| - 1] == OTHER then 1 else 0
  }

  lemma {:induction false} OtherAt(keys: seq<Key>, i: nat, k: Key)
    requires i < |keys|
    ensures OtherCount(keys[i := k])
            == OtherCount(keys) + (if k == OTHER then 1 else 0) - (if keys[i] == OTHER then 1 else 0)
    ensures keys[i] == OTHER ==> OtherCount(keys) > 0
    decreases |keys|
  {
    if i < |keys| - 1 {
      OtherAt(keys[..|keys| - 1], i, k);
      assert keys[i := k][..|keys| - 1] == keys[..|keys| - 1][i := k];
    } else {
      assert keys[i := k][..|keys| - 1] == keys[..|keys| - 1];
    }
  }

  lemma OtherMore(keys: seq<Key>, k: Key)
    ensures OtherCount(keys + [k]) == OtherCount(keys) + if k == OTHER then 1 else 0
  {
    assert (keys + [k])[..|keys|] == keys;
  }

  function RemoveAt(v: Vectors, i: nat): Vectors
    requires i < |v.keys|
  {
    v.(keys := v.keys[i := NONE])
  }

  lemma RemoveAtIs(v: Vectors, canon: Bytes -> Bytes, i: nat)
    requires Shape(v) && i < |v.keys|
    ensures Shape(RemoveAt(v, i)) && Cells(RemoveAt(v, i), canon) == Cells(v, canon)[i := Removed]
  {
    var r := RemoveAt(v, i);
    forall j | 0 <= j < |v.index|
      ensures Entry(r, j)
    {
      assert Entry(v, j);
    }
    forall k | 0 <= k < |v.keys|
      ensures Position(v, k) && Position(r, k)
    {
      assert Position(v, k);
    }
  }

  function SetValue(v: Vectors, i: nat, value: Bytes): Vectors
    requires i < |v.values|
  {
    v.(values := v.values[i := value])
  }

  lemma SetValueIs(v: Vectors, canon: Bytes -> Bytes, i: nat, value: Bytes)
    requires Shape(v) && i < |v.keys| && v.keys[i] != NONE
    ensures Shape(SetValue(v, i, value))
    ensures Cells(SetValue(v, i, value), canon) == Cells(v, canon)[i := Live(Cells(v, canon)[i].item.(value := value))]
  {
    var r := SetValue(v, i, value);
    forall j | 0 <= j < |v.index|
      ensures Entry(r, j)
    {
      assert Entry(v, j);
    }
    forall k | 0 <= k < |v.keys|
      ensures Position(v, k) && Position(r, k)
    {
      assert Position(v, k);
    }
  }

  function AddKey(v: Vectors, key: Key, value: Bytes): Vectors
  {
    v.(keys := v.keys + [key], values := v.values + [value], slot := v.slot + [-1])
  }

  lemma AddKeyIs(v: Vectors, canon: Bytes -> Bytes, key: Key, value: Bytes)
    requires Shape(v) && key > OTHER
    ensures Shape(AddKey(v, key, value))
    ensures Cells(AddKey(v, key, value), canon) == Cells(v, canon) + [Live(Item(Known(key), value))]
  {
    var r := AddKey(v, key, value);
    forall j | 0 <= j < |v.index|
      ensures Entry(r, j)
    {
      assert Entry(v, j);
    }
    forall k | 0 <= k < |v.keys|
      ensures Position(v, k) && Position(r, k)
    {
      assert Position(v, k);
    }
    assert Position(r, |v.keys|);
  }

  function AddOther(v: Vectors, name: Bytes, value: Bytes): Vectors
  {
    Vectors(v.keys + [OTHER], v.values + [value], v.names + [name], v.index + [|v.keys|], v.slot + [|v.index|])
  }

  lemma AddOtherIs(v: Vectors, canon: Bytes -> Bytes, name: Bytes, value: Bytes)
    requires Shape(v)
    ensures Shape(AddOther(v, name, value))
    ensures Cells(AddOther(v, name, value), canon) == Cells(v, canon) + [Live(Item(Named(canon(name)), value))]
  {
    var r := AddOther(v, name, value);
    forall j | 0 <= j < |v.index|
      ensures Entry(r, j) && v.index[j] < |v.keys|
    {
      assert Entry(v, j);
    }
    assert Entry(r, |v.index|);
    forall k | 0 <= k < |v.keys|
      ensures Position(v, k) && Position(r, k)
    {
      assert Position(v, k);
    }
    assert Position(r, |v.keys|);
    assert Shape(r) by {
      assert forall j | 0 <= j < |v.index| :: r.index[j] == v.index[j];
    }
    forall k | 0 <= k < |v.keys|
      ensures CellAt(v, canon, k) == CellAt(r, canon, k)
    {
      assert Position(v, k) && r.keys[k] == v.keys[k] && r.slot[k] == v.slot[k] && r.values[k] == v.values[k];
      assert v.slot[k] >= 0 ==> r.names[v.slot[k]] == v.names[v.slot[k]];
    }
    assert CellAt(r, canon, |v.keys|) == Live(Item(Named(canon(name)), value));
  }

  // ----- the object -----

  class PerfectIndexMap {
    /** The perfect hash, and what two equal keys have in common. */
    const hash: Bytes -> Key
    const canon: Bytes -> Bytes
    const allowDuplicates: bool

    var keys: seq<Key>
    var values: seq<Bytes>
    var names: seq<Bytes>
    var index: seq<nat>
    var otherCount: nat
    var noneCount: nat
    ghost var slot: seq<int>

    ghost function Vec(): Vectors
      reads this
    {
      Vectors(keys, values, names, index, slot)
    }

    ghost predicate Good()
      reads this
    {
      Shape(Vec()) && noneCount == DeadCount(Cells(Vec(), canon)) && otherCount == OtherCount(keys)
    }

    ghost function Here(): seq<Cell>
      requires Good()
      reads this
    {
      Cells(Vec(), canon)
    }

    /** The entries, in order. */
    ghost function Entries(): seq<Item>
      requires Good()
      reads this
    {
      LiveOf(Here())
    }

    /** The hash respects equality of keys, and no string has the code of a removed entry. */
    ghost predicate HashOk()
    {
      && (forall a: Bytes, b: Bytes {:trigger hash(a), hash(b)} | canon(a) == canon(b) :: hash(a) == hash(b))
      && (forall a: Bytes :: hash(a) != NONE)
    }

    ghost predicate Valid()
      reads this
    {
      Good() && HashOk() && (!allowDuplicates ==> Unique(Entries()))
    }

    ghost function IdOf(name: Bytes): Id { if hash(name) == OTHER then Named(canon(name)) else Known(hash(name)) }

    constructor (hash: Bytes -> Key, canon: Bytes -> Bytes, allowDuplicates: bool)
      requires forall a: Bytes, b: Bytes {:trigger hash(a), hash(b)} | canon(a) == canon(b) :: hash(a) == hash(b)
      requires forall a: Bytes :: hash(a) != NONE
      ensures Valid() && Entries() == []
      ensures this.hash == hash && this.canon == canon && this.allowDuplicates == allowDuplicates
    {
      this.hash, this.canon, this.allowDuplicates := hash, canon, allowDuplicates;
      keys, values, names, index, slot, otherCount, noneCount := [], [], [], [], [], 0, 0;
    }

    function Size(): int
      reads this
    {
      |keys| - noneCount
    }

    lemma SizeIsLive()
      requires Good()
      ensures Size() == |Entries()|
    {
      LiveCount(Here());
    }

    method RemoveAtIndex(i: nat)
      requires Good() && i < |keys| && keys[i] != NONE
      modifies this`keys, this`otherCount, this`noneCount
      ensures Good() && Vec() == RemoveAt(old(Vec()), i) && Here() == old(Here())[i := Removed]
    {
      hide Shape, Cells, DeadCount, OtherCount;
      ghost var c, v := Here(), Vec();
      LiveAt(v, canon, i);
      RemoveAtIs(v, canon, i);
      DeadAt(c, i, Removed);
      OtherAt(keys, i, NONE);
      if keys[i] == OTHER {
        otherCount := otherCount - 1;
      }
      keys := keys[i := NONE];
      noneCount := noneCount + 1;
    }

    method ReplaceValue(i: nat, value: Bytes)
      requires Good() && i < |keys| && keys[i] != NONE
      modifies this`values
      ensures Good() && Vec() == SetValue(old(Vec()), i, value)
      ensures Here() == old(Here())[i := Live(old(Here())[i].item.(value := value))]
    {
      hide Shape, Cells, DeadCount, OtherCount;
      ghost var c, v := Here(), Vec();
      LiveAt(v, canon, i);
      SetValueIs(v, canon, i, value);
      DeadAt(c, i, Live(c[i].item.(value := value)));
      values := values[i := value];
    }

    method AddKeyToIndex(key: Key, value: Bytes)
      requires Good() && key > OTHER
      modifies this`keys, this`values, this`slot
      ensures Good() && Here() == old(Here()) + [Live(Item(Known(key), value))]
      ensures Entries() == old(Entries()) + [Item(Known(key), value)]
    {
      hide Shape, Cells, DeadCount, OtherCount, LiveOf;
      ghost var c, v := Here(), Vec();
      AddKeyIs(v, canon, key, value);
      LiveMore(c, Live(Item(Known(key), value)));
      OtherMore(keys, key);
      keys, values, slot := keys + [key], values + [value], slot + [-1];
    }

    method AddOtherKeyToIndex(name: Bytes, value: Bytes)
      requires Good()
      modifies this`keys, this`values, this`names, this`index, this`slot, this`otherCount
      ensures Good() && Here() == old(Here()) + [Live(Item(Named(canon(name)), value))]
      ensures Entries() == old(Entries()) + [Item(Named(canon(name)), value)]
    {
      hide Shape, Cells, DeadCount, OtherCount, LiveOf;
      ghost var c, v := Here(), Vec();
      AddOtherIs(v, canon, name, value);
      LiveMore(c, Live(Item(Named(canon(name)), value)));
      OtherMore(keys, OTHER);
      slot := slot + [|index|];
      keys := keys + [OTHER];
      names := names + [name];
      index := index + [|keys| - 1];
      values := values + [value];
      otherCount := otherCount + 1;
    }

    // ----- keys with a code: searches over the keys -----

    method RemoveKey(key: Key) returns (removed: bool)
      requires Valid() && key > OTHER
      modifies this`keys, this`otherCount, this`noneCount
      ensures Valid() && Entries() == Others(old(Entries()), Known(key))
      ensures removed == (Matches(old(Entries()), Known(key)) != [])
    {
      hide Shape, Cells, DeadCount, OtherCount, LiveOf, Matches, Others, HashOk, KilledUpTo, HitBefore, Hit;
      ghost var was, id := Here(), Known(key);
      removed := false;
      KillBegins(was, id);
      var pos := 0;
      while pos < |keys|
        invariant Good() && pos <= |keys| == |was|
        invariant KilledUpTo(Here(), was, pos, id) && removed == HitBefore(was, pos, id)
        decreases |keys| - pos
      {
        KnownAt(Vec(), canon, pos, key);
        KillStep(Here(), was, pos, id);
        if keys[pos] == key {
          RemoveAtIndex(pos);
          removed := true;
          if !allowDuplicates {
            OnlyHit(was, pos, |was|, id);
            KilledFurther(Here(), was, pos + 1, |was|, id);
            pos := |keys|;
            break;
          }
        }
        pos := pos + 1;
      }
      KilledAll(Here(), was, id);
      OthersUnique(LiveOf(was), id);
    }

    method SetKey(key: Key, value: Bytes)
      requires Valid() && key > OTHER
      modifies this
      ensures Valid() && Entries() == SetIn(old(Entries()), Known(key), value)
    {
      hide Shape, Cells, DeadCount, OtherCount, LiveOf, Matches, Others, HashOk, SetCells, SetFirst, SetUpTo;
      ghost var was, id := Here(), Known(key);
      var found := false;
      SetBegins(was, id, value);
      var pos := 0;
      while pos < |keys|
        invariant Good() && pos <= |keys| == |was|
        invariant SetUpTo(Here(), was, pos, id, value, found)
        decreases |keys| - pos
      {
        KnownAt(Vec(), canon, pos, key);
        SetStep(Here(), was, pos, id, value, found);
        if keys[pos] == key {
          if !found {
            ReplaceValue(pos, value);
            found := true;
            if !allowDuplicates {
              OnlyHit(was, pos, |was|, id);
              SetFurther(Here(), was, pos + 1, |was|, id, value, true);
              break;
            }
          } else {
            RemoveAtIndex(pos);
          }
        }
        pos := pos + 1;
      }
      SetAll(Here(), was, id, value, found);
      if !found {
        AddKeyToIndex(key, value);
      }
      SetUnique(LiveOf(was), id, value);
    }

    /** The value of a key that occurs exactly once. */
    method GetSingleKey(key: Key) returns (value: Option<Bytes>)
      requires Valid() && key > OTHER
      ensures var m := Matches(Entries(), Known(key)); value == if |m| == 1 then Some(m[0].value) else None
    {
      hide Shape, Cells, DeadCount, OtherCount, LiveOf, Matches, HashOk;
      ghost var c, id := Here(), Known(key);
      value := None;
      NothingMatches(id);
      assert c[..0] == [];
      for pos := 0 to |keys|
        invariant var m := Matches(LiveOf(c[..pos]), id);
                  |m| <= 1 && value == if |m| == 1 then Some(m[0].value) else None
      {
        KnownAt(Vec(), canon, pos, key);
        HitStep(c, pos, id);
        if keys[pos] == key {
          if value.Some? {
            HitsCount(c, pos + 1, id);
            return None;
          }
          value := Some(values[pos]);
          if !allowDuplicates {
            OnlyHit(c, pos, |c|, id);
            HitsCount(c, pos + 1, id);
            return;
          }
        }
      }
      assert c[..|c|] == c;
    }

    // ----- keys without a code: searches over the names -----

    method RemoveOtherKey(name: Bytes) returns (removed: bool)
      requires Valid()
      modifies this`keys, this`otherCount, this`noneCount
      ensures Valid() && Entries() == Others(old(Entries()), Named(canon(name)))
      ensures removed == (Matches(old(Entries()), Named(canon(name))) != [])
    {
      hide Shape, Cells, DeadCount, OtherCount, LiveOf, Matches, Others, HashOk, KilledUpTo, HitBefore, Hit, NoHit;
      ghost var v, was, id := Vec(), Here(), Named(canon(name));
      removed := false;
      var j := 0;
      KillBegins(was, id);
      GapBefore(v, canon, id);
      KilledFurther(was, was, 0, Reached(index, |keys|, 0), id);
      while j < |index|
        invariant Good() && j <= |index| && |was| == |keys| && index == old(index) && names == old(names)
        invariant KilledUpTo(Here(), was, Reached(index, |keys|, j), id)
                  && removed == HitBefore(was, Reached(index, |keys|, j), id)
        decreases |index| - j
      {
        NamedAt(Vec(), canon, j, name);
        KillStep(Here(), was, index[j], id);
        if keys[index[j]] == OTHER && canon(names[j]) == canon(name) {
          RemoveAtIndex(index[j]);
          removed := true;
          if !allowDuplicates {
            OnlyHit(was, index[j], |was|, id);
            KilledFurther(Here(), was, index[j] + 1, |was|, id);
            j := |index|;
            break;
          }
        }
        GapAfter(v, canon, j, id);
        KilledFurther(Here(), was, index[j] + 1, Reached(index, |keys|, j + 1), id);
        j := j + 1;
      }
      KilledAll(Here(), was, id);
      OthersUnique(LiveOf(was), id);
    }

    method ReplaceOtherKeyAtIndex(j: nat, name: Bytes, value: Bytes)
      requires Good() && j < |names| == |index| && canon(name) == canon(names[j])
               && index[j] < |keys| && keys[index[j]] == OTHER
      modifies this`names, this`values
      ensures Good() && index == old(index) && keys == old(keys) && slot == old(slot)
      ensures Here() == old(Here())[index[j] := Live(Item(Named(canon(name)), value))]
    {
      hide Shape, Cells, DeadCount, OtherCount;
      NamedAt(Vec(), canon, j, name);
      SetNameIs(Vec(), canon, j, name);
      names := names[j := name];
      ReplaceValue(index[j], value);
    }

    /** One hit: the first gets the value, later ones are removed. */
    method SetHit(j: nat, name: Bytes, value: Bytes, found: bool)
      requires Good() && j < |names| == |index| && canon(name) == canon(names[j])
               && index[j] < |keys| && keys[index[j]] == OTHER
      modifies this`names, this`values, this`keys, this`otherCount, this`noneCount
      ensures Good() && index == old(index) && |keys| == old(|keys|) && |names| == old(|names|)
      ensures Here() == old(Here())[index[j] := if found then Removed else Live(Item(Named(canon(name)), value))]
    {
      hide Shape, Cells, DeadCount, OtherCount;
      NamedAt(Vec(), canon, j, name);
      if !found {
        ReplaceOtherKeyAtIndex(j, name, value);
      } else {
        RemoveAtIndex(index[j]);
      }
      NamedAt(Vec(), canon, j, name);
    }

    lemma GoodShape()
      requires Good()
      ensures Shape(Vec()) && |Here()| == |keys|
    {
    }

    /** One name entry, and the positions up to the next. */
    method SetEntry(j: nat, name: Bytes, value: Bytes, ghost v: Vectors, found: bool) returns (hit: bool)
      requires Good() && Shape(v) && v.index == index && |v.keys| == |keys| && j < |index|
      requires SetUpTo(Here(), Cells(v, canon), index[j], Named(canon(name)), value, found)
      modifies this`names, this`values, this`keys, this`otherCount, this`noneCount
      ensures Good() && index == old(index) && |keys| == old(|keys|)
      ensures SetUpTo(Here(), Cells(v, canon), Reached(index, |keys|, j + 1), Named(canon(name)), value, found || hit)
      ensures index[j] < |Cells(v, canon)| == |keys| && hit == Hit(Cells(v, canon)[index[j]], Named(canon(name)))
    {
      hide Shape, Cells, DeadCount, OtherCount, SetUpTo, Hit, NoHit;
      ghost var was, id := Cells(v, canon), Named(canon(name));
      NamedAt(Vec(), canon, j, name);
      GapAfter(v, canon, j, id);
      SetStep(Here(), was, index[j], id, value, found);
      hit := keys[index[j]] == OTHER && canon(names[j]) == canon(name);
      if hit {
        SetHit(j, name, value, found);
      }
      SetFurther(Here(), was, index[j] + 1, Reached(index, |keys|, j + 1), id, value, found || hit);
    }

    /** The search: every entry of the key, in order; or the first, if there can only be one. */
    method SetNamed(name: Bytes, value: Bytes) returns (found: bool)
      requires Good() && (!allowDuplicates ==> |Matches(Entries(), Named(canon(name)))| <= 1)
      modifies this`names, this`values, this`keys, this`otherCount, this`noneCount
      ensures Good() && (Entries(), found) == SetFirst(old(Entries()), Named(canon(name)), value)
    {
      hide Good, Cells, LiveOf, Matches, SetCells, SetFirst, SetUpTo, Hit, NoHit, Shape;
      GoodShape();
      ghost var v, was, id := Vec(), Here(), Named(canon(name));
      found := false;
      SetBegins(was, id, value);
      GapBefore(v, canon, id);
      SetFurther(was, was, 0, Reached(index, |keys|, 0), id, value, false);
      var j := 0;
      while j < |index| && (allowDuplicates || !found)
        invariant Good() && j <= |index| && |was| == |keys| && index == old(index)
        invariant SetUpTo(Here(), was, Reached(index, |keys|, j), id, value, found)
      {
        var hit := SetEntry(j, name, value, v, found);
        found := found || hit;
        j := j + 1;
      }
      SetRest(Here(), was, Reached(index, |keys|, j), id, value, found, allowDuplicates);
      SetAll(Here(), was, id, value, found);
    }

    method SetOtherKey(name: Bytes, value: Bytes)
      requires Valid()
      modifies this
      ensures Valid() && Entries() == SetIn(old(Entries()), Named(canon(name)), value)
    {
      hide Good, Here, Matches, HashOk, SetFirst;
      ghost var was := Entries();
      SetUnique(was, Named(canon(name)), value);
      var found := SetNamed(name, value);
      if !found {
        AddOtherKeyToIndex(name, value);
      }
    }

    method GetSingleOtherKey(name: Bytes) returns (value: Option<Bytes>)
      requires Valid()
      ensures var m := Matches(Entries(), Named(canon(name))); value == if |m| == 1 then Some(m[0].value) else None
    {
      hide Shape, Cells, DeadCount, OtherCount, LiveOf, Matches, HashOk, Hit, NoHit;
      ghost var c, id := Here(), Named(canon(name));
      value := None;
      NothingMatches(id);
      assert c[..0] == [];
      GapBefore(Vec(), canon, id);
      SameMatches(c, 0, Reached(index, |keys|, 0), id);
      for j := 0 to |index|
        invariant Reached(index, |keys|, j) <= |c| == |keys|
        invariant var m := Matches(LiveOf(c[..Reached(index, |keys|, j)]), id);
                  |m| <= 1 && value == if |m| == 1 then Some(m[0].value) else None
      {
        NamedAt(Vec(), canon, j, name);
        HitStep(c, index[j], id);
        GapAfter(Vec(), canon, j, id);
        SameMatches(c, index[j] + 1, Reached(index, |keys|, j + 1), id);
        if keys[index[j]] == OTHER && canon(names[j]) == canon(name) {
          if value.Some? {
            HitsCount(c, index[j] + 1, id);
            return None;
          }
          value := Some(values[index[j]]);
          if !allowDuplicates {
            OnlyHit(c, index[j], |c|, id);
            HitsCount(c, index[j] + 1, id);
            return;
          }
        }
      }
      assert c[..|c|] == c;
    }

    // ----- by name -----

    method Add(name: Bytes, value: Bytes)
      requires Valid() && allowDuplicates
      modifies this
      ensures Valid() && Entries() == old(Entries()) + [Item(IdOf(name), value)]
    {
      hide Shape, Cells, DeadCount, OtherCount, LiveOf;
      var key := hash(name);
      if key == OTHER {
        AddOtherKeyToIndex(name, value);
      } else {
        assert key > OTHER;
        AddKeyToIndex(key, value);
      }
    }

    method Set(name: Bytes, value: Bytes)
      requires Valid()
      modifies this
      ensures Valid() && Entries() == SetIn(old(Entries()), IdOf(name), value)
    {
      hide Good, Unique, SetIn;
      var key := hash(name);
      if key == OTHER {
        SetOtherKey(name, value);
      } else {
        SetKey(key, value);
      }
    }

    method Remove(name: Bytes) returns (removed: bool)
      requires Valid()
      modifies this
      ensures Valid() && Entries() == Others(old(Entries()), IdOf(name))
      ensures removed == (Matches(old(Entries()), IdOf(name)) != [])
    {
      hide Good, Unique, Matches, Others;
      var key := hash(name);
      if key == OTHER {
        removed := RemoveOtherKey(name);
      } else {
        removed := RemoveKey(key);
      }
    }

    method GetSingleOrNone(name: Bytes) returns (value: Option<Bytes>)
      requires Valid()
      ensures var m := Matches(Entries(), IdOf(name)); value == if |m| == 1 then Some(m[0].value) else None
    {
      hide Good, Unique, Matches;
      var key := hash(name);
      if key == OTHER {
        value := GetSingleOtherKey(name);
      } else {
        value := GetSingleKey(key);
      }
    }
  }

  lemma SetRest(now: seq<Cell>, was: seq<Cell>, pos: nat, id: Id, value: Bytes, found: bool, all: bool)
    requires SetUpTo(now, was, pos, id, value, found) && (pos == |was| || (found && !all))
    requires !all ==> |Matches(LiveOf(was), id)| <= 1
    ensures SetUpTo(now, was, |was|, id, value, found)
  {
    hide LiveOf, Matches, SetCells;
    if pos < |was| {
      AfterFound(was, pos, id, value);
      SetFurther(now, was, pos, |was|, id, value, found);
    }
  }

  lemma SetNameIs(v: Vectors, canon: Bytes -> Bytes, j: nat, name: Bytes)
    requires Shape(v) && j < |v.names| && canon(name) == canon(v.names[j])
    ensures var r := v.(names := v.names[j := name]); Shape(r) && Cells(r, canon) == Cells(v, canon)
  {
    var r := v.(names := v.names[j := name]);
    forall k | 0 <= k < |v.index|
      ensures Entry(r, k)
    {
      assert Entry(v, k);
    }
    forall k | 0 <= k < |v.keys|
      ensures Position(r, k)
    {
      assert Position(v, k);
    }
    forall k | 0 <= k < |v.keys|
      ensures CellAt(r, canon, k) == CellAt(v, canon, k)
    {
      assert Position(v, k);
    }
  }

  lemma {:induction false} SameMatches(c: seq<Cell>, pos: nat, stop: nat, id: Id)
    requires pos <= stop <= |c| && NoHit(c, pos, stop, id)
    ensures Matches(LiveOf(c[..stop]), id) == Matches(LiveOf(c[..pos]), id)
    decreases stop - pos
  {
    hide LiveOf, Matches;
    if pos < stop {
      HitStep(c, pos, id);
      SameMatches(c, pos + 1, stop, id);
    }
  }

  /** The position that a search over the names has come to: all positions before it have been dealt with. */
  function Reached(index: seq<nat>, n: nat, j: nat): nat { if j < |index| then index[j] else n }

  /** Between two name entries no position holds a name. */
  lemma GapBefore(v: Vectors, canon: Bytes -> Bytes, id: Id)
    requires Shape(v) && id.Named?
    ensures NoHit(Cells(v, canon), 0, if |v.index| > 0 then v.index[0] else |v.keys|, id)
    ensures |v.index| > 0 ==> v.index[0] < |v.keys|
  {
    var c := Cells(v, canon);
    if |v.index| > 0 {
      assert Entry(v, 0);
    }
    forall i | 0 <= i < |c| && i < if |v.index| > 0 then v.index[0] else |v.keys|
      ensures !Hit(c[i], id)
    {
      assert Position(v, i);
    }
  }

  lemma GapAfter(v: Vectors, canon: Bytes -> Bytes, j: nat, id: Id)
    requires Shape(v) && id.Named? && j < |v.index|
    ensures v.index[j] + 1 <= (if j + 1 < |v.index| then v.index[j + 1] else |v.keys|) <= |v.keys|
    ensures NoHit(Cells(v, canon), v.index[j] + 1, if j + 1 < |v.index| then v.index[j + 1] else |v.keys|, id)
  {
    var c := Cells(v, canon);
    assert Entry(v, j);
    if j + 1 < |v.index| {
      assert Entry(v, j + 1);
    }
    var stop := if j + 1 < |v.index| then v.index[j + 1] else |v.keys|;
    forall i | v.index[j] + 1 <= i < stop && i < |c|
      ensures !Hit(c[i], id)
    {
      assert Position(v, i);
    }
  }

  /** A name entry is a hit exactly when its position is live and the names are equal keys. */
  lemma NamedAt(v: Vectors, canon: Bytes -> Bytes, j: nat, name: Bytes)
    requires Shape(v) && j < |v.index|
    ensures var i := v.index[j];
            && i < |v.keys| == |v.values| == |Cells(v, canon)| && |v.index| == |v.names|
            && (Hit(Cells(v, canon)[i], Named(canon(name))) <==> v.keys[i] == OTHER && canon(v.names[j]) == canon(name))
            && (v.keys[i] == OTHER ==> Cells(v, canon)[i] == Live(Item(Named(canon(v.names[j])), v.values[i])))
  {
    assert Entry(v, j);
  }

  /** A position is hit by a key with a code exactly when it holds that code. */
  lemma KnownAt(v: Vectors, canon: Bytes -> Bytes, i: nat, key: Key)
    requires Shape(v) && i < |v.keys| && key > OTHER
    ensures i < |Cells(v, canon)| == |v.keys| == |v.values|
            && (Hit(Cells(v, canon)[i], Known(key)) <==> v.keys[i] == key)
    ensures v.keys[i] == key ==> Cells(v, canon)[i] == Live(Item(Known(key), v.values[i]))
  {
  }

  lemma NothingMatches(id: Id)
    ensures Matches(LiveOf([]), id) == []
  {
  }

  lemma LiveAt(v: Vectors, canon: Bytes -> Bytes, i: nat)
    requires Shape(v) && i < |v.keys|
    ensures |Cells(v, canon)| == |v.keys| == |v.values| && (Cells(v, canon)[i].Removed? <==> v.keys[i] == NONE)
  {
  }
}
