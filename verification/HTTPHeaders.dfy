/**
 * HTTPHeaders: parallel arrays of codes, names and values with tombstones, proved to be the list of headers
 * that HeaderList describes.
 */
module HTTPHeaders {
  import opened HttpTypes
  import opened HeaderList
  import opened HeaderStrip

  const INITIAL_RESERVE: nat := 16

  /** A live slot has the code of its name, and a value without white space at its end. */
  ghost predicate SlotsOk(slots: seq<Slot>, hash: Bytes -> Code)
  {
    forall i | 0 <= i < |slots| && slots[i].code != NONE ::
      slots[i].code == hash(slots[i].name) && Trimmed(slots[i].value)
  }

  lemma {:induction false} TombstoneAt(slots: seq<Slot>, i: nat, s: Slot)
    requires i < |slots|
    ensures Tombstones(slots[i := s]) == Tombstones(slots) + (if s.code == NONE then 1 else 0)
                                         - (if slots[i].code == NONE then 1 else 0)
    decreases |slots|
  {
    if i < |slots| - 1 {
      TombstoneAt(slots[..|slots| - 1], i, s);
      assert slots[i := s][..|slots| - 1] == slots[..|slots| - 1][i := s];
    } else {
      assert slots[i := s][..|slots| - 1] == slots[..|slots| - 1];
    }
  }

  class HTTPHeaders {
    /** HTTPCommonHeaders::hash */
    const hash: Bytes -> Code

    /** HTTPCommonHeaders::getPointerToName */
    const nameOf: Code -> Bytes

    var codes: array<Code>
    var names: array<Bytes>
    var values: array<Bytes>
    var length: nat
    var deletedCount: nat

    ghost function Slots(): seq<Slot>
      reads this, codes, names, values
    {
      if length <= codes.Length && length <= names.Length && length <= values.Length then
        seq(length, i requires 0 <= i < length reads this, codes, names, values
                      requires length <= codes.Length && length <= names.Length && length <= values.Length
                    => Slot(codes[i], names[i], values[i]))
      else []
    }

    /** Everything but the count of the removed headers. */
    ghost predicate Shape()
      reads this, codes, names, values
    {
      && codes.Length == names.Length == values.Length && length <= codes.Length && names != values
      && HashOk(hash) && TableOk(hash, nameOf) && SlotsOk(Slots(), hash)
    }

    ghost predicate Valid()
      reads this, codes, names, values
    {
      Shape() && deletedCount == Tombstones(Slots())
    }

    /** The headers, in order. */
    ghost function Live(): seq<Header>
      reads this, codes, names, values
    {
      LiveOf(Slots())
    }

    constructor (hash: Bytes -> Code, nameOf: Code -> Bytes)
      requires HashOk(hash) && TableOk(hash, nameOf)
      ensures Valid() && Live() == [] && fresh(codes) && fresh(names) && fresh(values)
      ensures this.hash == hash && this.nameOf == nameOf
    {
      this.hash, this.nameOf := hash, nameOf;
      codes := new Code[INITIAL_RESERVE](_ => NONE);
      names := new Bytes[INITIAL_RESERVE](_ => []);
      values := new Bytes[INITIAL_RESERVE](_ => []);
      length, deletedCount := 0, 0;
    }

    /** The number of headers, without looking at them. */
    function Size(): (n: int)
      reads this
    {
      length - deletedCount
    }

    lemma SizeIsLive()
      requires Valid()
      ensures Size() == |Live()|
    {
      LiveCount(Slots());
    }

    /** Grows the arrays; no header changes. */
    method Resize(capacity: nat)
      requires Valid()
      modifies this`codes, this`names, this`values
      ensures Valid() && Slots() == old(Slots()) && codes.Length >= capacity && codes.Length >= old(codes.Length)
      ensures codes == old(codes) || fresh(codes)
      ensures names == old(names) || fresh(names)
      ensures values == old(values) || fresh(values)
    {
      hide HashOk, TableOk, Tombstones, SlotsOk;
      if capacity <= codes.Length {
        return;
      }
      ghost var s := Slots();
      codes := Copied(codes, length, capacity, NONE);
      names := Copied(names, length, capacity, []);
      values := Copied(values, length, capacity, []);
      assert Slots() == s;
    }

    /** Room for `minCapacity` headers, growing by half at a time. */
    method Ensure(minCapacity: nat)
      requires Valid()
      modifies this`codes, this`names, this`values
      ensures Valid() && Slots() == old(Slots()) && codes.Length >= minCapacity
      ensures codes == old(codes) || fresh(codes)
      ensures names == old(names) || fresh(names)
      ensures values == old(values) || fresh(values)
    {
      if codes.Length >= minCapacity {
        return;
      }
      var target := codes.Length as real;
      while target < minCapacity as real
        invariant target == 0.0 || target >= 1.0
        decreases if target == 0.0 then 1 else 0, (minCapacity as real * 2.0 - target * 2.0).Floor
      {
        target := if target == 0.0 then INITIAL_RESERVE as real else target * 3.0 / 2.0;
      }
      Resize(target.Floor);
    }

    method EmplaceBack(code: Code, name: Bytes, value: Bytes)
      requires Valid() && code == hash(name)
      modifies this, codes, names, values
      ensures Valid() && Slots() == old(Slots()) + [Slot(code, name, RTrim(value))]
      ensures Live() == old(Live()) + [Header(name, RTrim(value))]
      ensures codes == old(codes) || fresh(codes)
      ensures names == old(names) || fresh(names)
      ensures values == old(values) || fresh(values)
    {
      hide HashOk, TableOk, RTrim, Tombstones, LiveOf;
      ghost var s := Slots();
      Ensure(length + 1);
      HashNotNone(hash, name);
      codes[length] := code;
      names[length] := name;
      values[length] := RTrim(value);
      length := length + 1;
      assert Slots() == s + [Slot(code, name, RTrim(value))];
      LiveMore(s, Slot(code, name, RTrim(value)));
    }

    method Add(name: Bytes, value: Bytes)
      requires Valid()
      modifies this, codes, names, values
      ensures Valid() && Live() == old(Live()) + [Header(Spelling(hash, nameOf, name), RTrim(value))]
      ensures codes == old(codes) || fresh(codes)
      ensures names == old(names) || fresh(names)
      ensures values == old(values) || fresh(values)
    {
      hide RTrim, Tombstones, LiveOf, SlotsOk;
      var code := hash(name);
      SpelledSame(hash, nameOf, name);
      EmplaceBack(code, if code == OTHER then name else nameOf(code), value);
    }

    /** A position becomes a tombstone, and is counted as one more. */
    method Kill(pos: nat)
      requires Shape() && pos < length
      modifies this`deletedCount, codes
      ensures Shape() && Slots() == old(Slots())[pos := old(Slots())[pos].(code := NONE)]
      ensures deletedCount == old(deletedCount) + 1
      ensures Tombstones(Slots()) == old(Tombstones(Slots())) + if old(codes[pos]) == NONE then 0 else 1
    {
      hide HashOk, TableOk, Tombstones, LiveOf;
      ghost var s := Slots();
      codes[pos] := NONE;
      deletedCount := deletedCount + 1;
      assert Slots() == s[pos := s[pos].(code := NONE)];
      TombstoneAt(s, pos, s[pos].(code := NONE));
    }

    /** The code itself says which headers go; with NONE the tombstones are counted once more. */
    method RemoveCode(code: Code) returns (removed: bool)
      requires Valid()
      modifies this`deletedCount, codes
      ensures Shape() && Live() == Select(old(Live()), Not(Coded(hash, code)))
      ensures deletedCount == Tombstones(Slots()) + if code == NONE then old(deletedCount) else 0
      ensures removed == (deletedCount != old(deletedCount)) && deletedCount >= old(deletedCount)
      ensures code != NONE ==> Valid() && removed == (Live() != old(Live()))
    {
      hide HashOk, TableOk, Tombstones, LiveOf, Select, SlotsOk, ErasedUpTo;
      ghost var s, m := Slots(), SlotCoded(code);
      removed := false;
      NothingErased(s, m);
      NoTombstones(s);
      for pos := 0 to length
        invariant Shape() && length == old(length) && codes == old(codes)
        invariant ErasedUpTo(Slots(), s, pos, m)
        invariant deletedCount == Tombstones(Slots()) + if code == NONE then Tombstones(s[..pos]) else 0
        invariant deletedCount >= old(deletedCount) && (removed <==> deletedCount != old(deletedCount))
      {
        ErasedStep(Slots(), s, pos, m);
        OneMoreSlot(s, pos);
        assert Slots()[pos] == Slot(codes[pos], names[pos], values[pos]);
        if codes[pos] == code {
          ghost var now := Slots();
          Kill(pos);
          removed := true;
          assert code == NONE ==> Slots() == now;
        }
      }
      assert s[..length] == s;
      CodeErased(Slots(), s, hash, code);
    }

    /** Removes every header with a name. */
    method Remove(name: Bytes) returns (removed: bool)
      requires Valid()
      modifies this`deletedCount, codes
      ensures Valid() && Live() == Select(old(Live()), Not(WithName(Fold(name))))
      ensures removed == (Live() != old(Live()))
    {
      hide HashOk, TableOk, Tombstones, LiveOf, Select, SlotsOk;
      var code := hash(name);
      SameName(hash, nameOf, name);
      HashNotNone(hash, name);
      if code != OTHER {
        CodedIsNamed(Slots(), hash, name);
        removed := RemoveCode(code);
        return;
      }
      ghost var s, n := Slots(), Fold(name);
      removed := false;
      for pos := 0 to length
        invariant Valid() && length == old(length) && codes == old(codes)
        invariant ErasedUpTo(Slots(), s, pos, SlotNamed(n))
        invariant removed <==> exists j | 0 <= j < pos :: s[j].code != NONE && SlotNamed(n)(s[j])
      {
        assert Slots()[pos] == s[pos];
        OtherIsName(s, hash, name, pos);
        if codes[pos] == OTHER && Fold(names[pos]) == Fold(name) {
          Kill(pos);
          removed := true;
        }
      }
      NamedErased(Slots(), s, n);
    }

    /** For a name, a single header with a value. */
    method Set(name: Bytes, value: Bytes)
      requires Valid()
      modifies this, codes, names, values
      ensures Valid()
      ensures Live() == Select(old(Live()), Not(WithName(Fold(name))))
                        + [Header(Spelling(hash, nameOf, name), RTrim(value))]
    {
      hide HashOk, TableOk, Tombstones, LiveOf, Select, SlotsOk, RTrim;
      var _ := Remove(name);
      Add(name, value);
    }

    /** The value of a header that occurs exactly once; nothing if there are none or several. */
    method GetSingle(name: Bytes) returns (value: Option<Bytes>)
      requires Valid()
      ensures var found := Select(Live(), WithName(Fold(name)));
              value == if |found| == 1 then Some(found[0].value) else None
    {
      hide HashOk, TableOk, Tombstones, LiveOf, Select, SlotsOk;
      var code := hash(name);
      SameName(hash, nameOf, name);
      HashNotNone(hash, name);
      value := None;
      ghost var s, p := Slots(), WithName(Fold(name));
      NothingLive(p);
      for pos := 0 to length
        invariant var found := Select(LiveOf(s[..pos]), p);
                  |found| <= 1 && value == if |found| == 1 then Some(found[0].value) else None
      {
        LiveStep(s, pos, p);
        if code == OTHER {
          OtherIsName(s, hash, name, pos);
        } else {
          CodeIsName(s, hash, nameOf, code, pos);
        }
        if codes[pos] == code && (code != OTHER || Fold(names[pos]) == Fold(name)) {
          if value.Some? {
            MoreFound(s, pos + 1, p);
            return None;
          }
          value := Some(values[pos]);
        }
      }
      assert s[..length] == s;
    }

    /** Two collections that share no memory. */
    ghost predicate Apart(dst: HTTPHeaders)
      reads this, dst
    {
      && dst != this && codes != dst.codes && names != dst.names && names != dst.values
      && values != dst.names && values != dst.values
    }

    /** Moves one header to the end of another collection. */
    method MoveOne(pos: nat, dst: HTTPHeaders)
      requires Valid() && dst.Valid() && Apart(dst) && dst.hash == hash && pos < length && codes[pos] != NONE
      modifies this`deletedCount, codes, dst, dst.codes, dst.names, dst.values
      ensures Valid() && dst.Valid() && Apart(dst)
      ensures dst.codes == old(dst.codes) || fresh(dst.codes)
      ensures dst.names == old(dst.names) || fresh(dst.names)
      ensures dst.values == old(dst.values) || fresh(dst.values)
      ensures Slots() == old(Slots())[pos := old(Slots())[pos].(code := NONE)]
      ensures dst.Live() == old(dst.Live()) + [HeaderOf(old(Slots())[pos])]
    {
      hide HashOk, TableOk, Tombstones, LiveOf, RTrim, SlotsOk;
      TrimmedAt(Slots(), hash, pos);
      assert Slots()[pos] == Slot(codes[pos], names[pos], values[pos]);
      dst.EmplaceBack(codes[pos], names[pos], values[pos]);
      Kill(pos);
    }

    /** Moves every header with a name to the end of another collection. */
    method TransferHeaderIfPresent(name: Bytes, dst: HTTPHeaders) returns (transferred: bool)
      requires Valid() && dst.Valid() && Apart(dst) && dst.hash == hash
      modifies this`deletedCount, codes, dst, dst.codes, dst.names, dst.values
      ensures Valid() && dst.Valid() && Apart(dst)
      ensures dst.codes == old(dst.codes) || fresh(dst.codes)
      ensures dst.names == old(dst.names) || fresh(dst.names)
      ensures dst.values == old(dst.values) || fresh(dst.values)
      ensures Live() == Select(old(Live()), Not(WithName(Fold(name))))
      ensures dst.Live() == old(dst.Live()) + Select(old(Live()), WithName(Fold(name)))
      ensures ErasedUpTo(Slots(), old(Slots()), |old(Slots())|, SlotNamed(Fold(name)))
      ensures transferred == (Live() != old(Live()))
    {
      hide HashOk, TableOk, Tombstones, LiveOf, Select, SlotsOk, ErasedUpTo, Fold;
      var code := hash(name);
      SameName(hash, nameOf, name);
      HashNotNone(hash, name);
      ghost var s, n := Slots(), Fold(name);
      transferred := false;
      NothingLive(WithName(n));
      NothingErased(s, SlotNamed(n));
      assert dst.Live() + [] == dst.Live();
      for pos := 0 to length
        invariant Valid() && dst.Valid() && Apart(dst)
        invariant dst.codes == old(dst.codes) || fresh(dst.codes)
        invariant dst.names == old(dst.names) || fresh(dst.names)
        invariant dst.values == old(dst.values) || fresh(dst.values)
        invariant ErasedUpTo(Slots(), s, pos, SlotNamed(n))
        invariant dst.Live() == old(dst.Live()) + Select(LiveOf(s[..pos]), WithName(n))
        invariant transferred == (Select(LiveOf(s[..pos]), WithName(n)) != [])
      {
        ErasedStep(Slots(), s, pos, SlotNamed(n));
        LiveStep(s, pos, WithName(n));
        if code == OTHER {
          OtherIsName(s, hash, name, pos);
        } else {
          CodeIsName(s, hash, nameOf, code, pos);
        }
        assert Slots()[pos] == Slot(codes[pos], names[pos], values[pos]);
        if codes[pos] == code && (code != OTHER || Fold(names[pos]) == Fold(name)) {
          MoveOne(pos, dst);
          transferred := true;
        }
      }
      assert s[..length] == s;
      NamedErased(Slots(), s, n);
      SelectLost(LiveOf(s), WithName(n));
    }

    /** One more token of a Connection header. */
    method MoveToken(token: Bytes, dst: HTTPHeaders, ghost b: Both, ghost s: seq<Slot>, ghost done: seq<Bytes>)
      requires Valid() && dst.Valid() && Apart(dst) && dst.hash == hash
      requires (Live(), dst.Live()) == MoveNamed(b, done) && Thinned(Slots(), s, done)
      modifies this`deletedCount, codes, dst, dst.codes, dst.names, dst.values
      ensures Valid() && dst.Valid() && Apart(dst)
      ensures dst.codes == old(dst.codes) || fresh(dst.codes)
      ensures dst.names == old(dst.names) || fresh(dst.names)
      ensures dst.values == old(dst.values) || fresh(dst.values)
      ensures (Live(), dst.Live()) == MoveNamed(b, done + [token]) && Thinned(Slots(), s, done + [token])
    {
      hide Valid, Apart, Slots, LiveOf, Select, Thinned, ErasedUpTo, MoveNamed, Not, WithName, Fold;
      ghost var before := Slots();
      var _ := TransferHeaderIfPresent(token, dst);
      MoveNamedConcat(b, done, [token]);
      MoveOneToken(MoveNamed(b, done), token);
      ThinnedMore(Slots(), before, s, done, token);
    }

    /** Moves the headers that one Connection value names. */
    method StripNamed(text: Bytes, dst: HTTPHeaders)
      requires Valid() && dst.Valid() && Apart(dst) && dst.hash == hash
      modifies this`deletedCount, codes, dst, dst.codes, dst.names, dst.values
      ensures Valid() && dst.Valid() && Apart(dst)
      ensures dst.codes == old(dst.codes) || fresh(dst.codes)
      ensures dst.names == old(dst.names) || fresh(dst.names)
      ensures dst.values == old(dst.values) || fresh(dst.values)
      ensures (Live(), dst.Live()) == MoveNamed((old(Live()), old(dst.Live())), Tokens(text))
      ensures Thinned(Slots(), old(Slots()), Tokens(text))
    {
      hide Valid, Apart, Slots, LiveOf, Thinned, Tokens, SkipLws, MoveNamed;
      ghost var s, b, done := Slots(), (Live(), dst.Live()), [];
      NotThinned(s);
      NothingNamed(b);
      var str := SkipSpaces(text);
      TokensSkip(text);
      assert [] + Tokens(text) == Tokens(text);
      while str != []
        invariant Valid() && dst.Valid() && Apart(dst)
        invariant dst.codes == old(dst.codes) || fresh(dst.codes)
        invariant dst.names == old(dst.names) || fresh(dst.names)
        invariant dst.values == old(dst.values) || fresh(dst.values)
        invariant SkipLws(str) == str && done + Tokens(str) == Tokens(text)
        invariant (Live(), dst.Live()) == MoveNamed(b, done) && Thinned(Slots(), s, done)
        decreases |str|
      {
        var token, rest := NextToken(str);
        if token != [] {
          MoveToken(token, dst, b, s, done);
          done := done + [token];
        }
        str := rest;
      }
      NoTokens();
      assert done + [] == done;
    }

    /** The first loop: every Connection header, in order. */
    method StripConnection(connection: Code, dst: HTTPHeaders)
      requires Valid() && dst.Valid() && Apart(dst) && dst.hash == hash
      requires connection > OTHER && hash(nameOf(connection)) == connection
      requires var conn := Fold(nameOf(connection)); !Names(AllTokens(Live(), conn), conn)
      modifies this`deletedCount, codes, dst, dst.codes, dst.names, dst.values
      ensures Valid() && dst.Valid() && Apart(dst)
      ensures dst.codes == old(dst.codes) || fresh(dst.codes)
      ensures dst.names == old(dst.names) || fresh(dst.names)
      ensures dst.values == old(dst.values) || fresh(dst.values)
      ensures var b := (old(Live()), old(dst.Live()));
              (Live(), dst.Live()) == MoveNamed(b, AllTokens(b.0, Fold(nameOf(connection))))
    {
      hide HashOk, TableOk, Tombstones, SlotsOk, LiveOf, Select, Thinned, MoveNamed,
           AllTokens, Fold, Names, First, Tokens;
      ghost var s, b, conn := Slots(), (Live(), dst.Live()), Fold(nameOf(connection));
      NotThinned(s);
      NothingNamed(b);
      NoLiveTokens(conn);
      for pos := 0 to length
        invariant Valid() && dst.Valid() && Apart(dst)
        invariant dst.codes == old(dst.codes) || fresh(dst.codes)
        invariant dst.names == old(dst.names) || fresh(dst.names)
        invariant dst.values == old(dst.values) || fresh(dst.values)
        invariant (Live(), dst.Live()) == MoveNamed(b, AllTokens(LiveOf(s[..pos]), conn))
        invariant Thinned(Slots(), s, AllTokens(LiveOf(s[..pos]), conn))
      {
        ghost var before := Slots();
        TokensUpTo(s, pos, conn);
        StillThere(before, s, pos, conn);
        CodeIsName(s, hash, nameOf, connection, pos);
        CodeIsName(before, hash, nameOf, connection, pos);
        assert before[pos] == Slot(codes[pos], names[pos], values[pos]);
        if codes[pos] == connection {
          var text := values[pos][..First(values[pos], '\0')];
          StripNamed(text, dst);
          MoveNamedConcat(b, AllTokens(LiveOf(s[..pos]), conn), Tokens(text));
          ThinnedTrans(Slots(), before, s, AllTokens(LiveOf(s[..pos]), conn), Tokens(text));
        }
      }
      assert s[..length] == s;
    }

    /** The second loop: every header with one of the codes. */
    method StripCodes(perHop: set<Code>, dst: HTTPHeaders)
      requires Valid() && dst.Valid() && Apart(dst) && dst.hash == hash && NONE !in perHop && OTHER !in perHop
      modifies this`deletedCount, codes, dst, dst.codes, dst.names, dst.values
      ensures Valid() && dst.Valid() && Apart(dst)
      ensures (Live(), dst.Live()) == Move((old(Live()), old(dst.Live())), PerHop(hash, perHop))
    {
      hide HashOk, TableOk, Tombstones, SlotsOk, LiveOf, Select, ErasedUpTo;
      ghost var s, m, p := Slots(), SlotIn(perHop), PerHop(hash, perHop);
      NothingLive(p);
      NothingErased(s, m);
      assert dst.Live() + [] == dst.Live();
      for i := 0 to length
        invariant Valid() && dst.Valid() && Apart(dst)
        invariant dst.codes == old(dst.codes) || fresh(dst.codes)
        invariant dst.names == old(dst.names) || fresh(dst.names)
        invariant dst.values == old(dst.values) || fresh(dst.values)
        invariant ErasedUpTo(Slots(), s, i, m)
        invariant dst.Live() == old(dst.Live()) + Select(LiveOf(s[..i]), p)
      {
        ErasedStep(Slots(), s, i, m);
        LiveStep(s, i, p);
        PerHopSlot(s, hash, perHop, i);
        assert Slots()[i] == Slot(codes[i], names[i], values[i]);
        if codes[i] in perHop {
          MoveOne(i, dst);
        }
      }
      assert s[..length] == s;
      PerHopErased(Slots(), s, hash, perHop);
    }

    /**
     * Moves the per-hop headers, and those that a Connection header names, to another collection.  What that
     * leaves is in HeaderStrip.StripIsPartition.
     */
    method StripPerHopHeaders(dst: HTTPHeaders)
      requires Valid() && dst.Valid() && Apart(dst) && dst.hash == hash
      requires forall i | 0 <= i < |PER_HOP| :: hash(PER_HOP[i]) > OTHER
      requires !Names(AllTokens(Live(), Fold(CONNECTION)), Fold(CONNECTION))
      modifies this`deletedCount, codes, dst, dst.codes, dst.names, dst.values
      ensures Valid() && dst.Valid()
      ensures (Live(), dst.Live()) == Strip((old(Live()), old(dst.Live())), Fold(CONNECTION), NamedIn(PER_HOP))
    {
      hide Live, MoveNamed, AllTokens, Fold, Names, Move, LiveOf, SlotsOk, Tombstones, Slots;
      assert PER_HOP[0] == CONNECTION;
      var connection, perHop := hash(CONNECTION), CodesOf(hash, PER_HOP);
      assert hash(nameOf(connection)) == connection && Fold(nameOf(connection)) == Fold(CONNECTION);
      StripConnection(connection, dst);
      MoveByName((Live(), dst.Live()), hash, PER_HOP);
      StripCodes(perHop, dst);
    }

    /** Removes every header that the caller picks by its code, name and value. */
    method RemoveByPredicate(func: Slot -> bool) returns (removed: bool)
      requires Valid()
      modifies this`deletedCount, codes
      ensures Valid() && Slots() == Erase(old(Slots()), func)
      ensures Live() == LiveUnless(old(Slots()), func) && removed == (Live() != old(Live()))
    {
      hide HashOk, TableOk, Tombstones, SlotsOk, LiveOf;
      ghost var s := Slots();
      removed := false;
      for pos := 0 to length
        invariant Valid() && ErasedUpTo(Slots(), s, pos, func)
        invariant removed <==> exists j | 0 <= j < pos :: s[j].code != NONE && func(s[j])
      {
        assert Slots()[pos] == s[pos] == Slot(codes[pos], names[pos], values[pos]);
        if codes[pos] != NONE && func(Slot(codes[pos], names[pos], values[pos])) {
          Kill(pos);
          removed := true;
        }
      }
      assert Slots() == Erase(s, func);
      EraseUnless(s, func);
      UnlessPicked(s, func);
    }

    /** Adds every header to the end of another collection. */
    method CopyTo(dst: HTTPHeaders)
      requires Valid() && dst.Valid() && Apart(dst) && dst.hash == hash
      modifies dst, dst.codes, dst.names, dst.values
      ensures Valid() && dst.Valid() && Live() == old(Live()) && dst.Live() == old(dst.Live()) + Live()
    {
      hide HashOk, TableOk, Tombstones, SlotsOk, LiveOf, RTrim;
      ghost var s := Slots();
      LiveNothing();
      assert dst.Live() + [] == dst.Live();
      for i := 0 to length
        invariant Valid() && Slots() == s && dst.Valid() && Apart(dst)
        invariant dst.codes == old(dst.codes) || fresh(dst.codes)
        invariant dst.names == old(dst.names) || fresh(dst.names)
        invariant dst.values == old(dst.values) || fresh(dst.values)
        invariant dst.Live() == old(dst.Live()) + LiveOf(s[..i])
      {
        assert s[..i + 1] == s[..i] + [s[i]];
        LiveMore(s[..i], s[i]);
        TrimmedAt(s, hash, i);
        assert s[i] == Slot(codes[i], names[i], values[i]);
        if codes[i] != NONE {
          dst.EmplaceBack(codes[i], names[i], values[i]);
        }
      }
      assert s[..length] == s;
    }

    /** Is there a header with this code?  A search for NONE finds the tombstones. */
    method ExistsCode(code: Code) returns (found: bool)
      requires Valid()
      ensures found <==> if code == NONE then deletedCount > 0 else exists h | h in Live() :: hash(h.name) == code
    {
      hide HashOk, TableOk, Tombstones, LiveOf, SlotsOk;
      ghost var s := Slots();
      CodeThere(s, hash, code);
      for pos := 0 to length
        invariant forall j | 0 <= j < pos :: s[j].code != code
      {
        assert s[pos] == Slot(codes[pos], names[pos], values[pos]);
        if codes[pos] == code {
          return true;
        }
      }
      return false;
    }

    /**
     * operator=, whose removeAll has just reset the count: the tombstones of the other collection are copied
     * with its headers, and are not counted.
     */
    method Assign(other: HTTPHeaders)
      requires Shape() && other.Valid() && other != this && other.hash == hash && other.nameOf == nameOf
      modifies this
      ensures Shape() && Slots() == other.Slots() && Live() == other.Live() && deletedCount == 0
      ensures Size() == |Live()| <==> other.deletedCount == 0
    {
      hide HashOk, TableOk, Tombstones, LiveOf, SlotsOk;
      ghost var s := other.Slots();
      length, deletedCount := other.length, 0;
      codes := Copied(other.codes, length, other.codes.Length, NONE);
      names := Copied(other.names, length, other.names.Length, []);
      values := Copied(other.values, length, other.values.Length, []);
      assert Slots() == s;
      LiveCount(s);
    }

    /** Is there a header with this name? */
    method Exists(name: Bytes) returns (found: bool)
      requires Valid()
      ensures found <==> exists h | h in Live() :: Fold(h.name) == Fold(name)
    {
      hide HashOk, TableOk, Tombstones, LiveOf, SlotsOk;
      var code := hash(name);
      SameName(hash, nameOf, name);
      HashNotNone(hash, name);
      ghost var s := Slots();
      NamedThere(s, Fold(name));
      for pos := 0 to length
        invariant forall j | 0 <= j < pos :: s[j].code == NONE || !SlotNamed(Fold(name))(s[j])
      {
        assert s[pos] == Slot(codes[pos], names[pos], values[pos]);
        if code == OTHER {
          OtherIsName(s, hash, name, pos);
        } else {
          CodeIsName(s, hash, nameOf, code, pos);
        }
        if codes[pos] == code && (code != OTHER || Fold(names[pos]) == Fold(name)) {
          assert SlotNamed(Fold(name))(s[pos]);
          return true;
        }
      }
      return false;
    }

    /**
     * Removes the headers with a code, and those without a common name whose names differ from `name` at most in
     * case and in '_' for '-'.
     */
    method RemoveAllVersions(code: Code, name: Bytes) returns (removed: bool)
      requires Valid()
      modifies this`deletedCount, codes
      ensures Shape() && Live() == Select(old(Live()), Not(Version(hash, code, name)))
      ensures deletedCount == Tombstones(Slots()) + if code == NONE then old(deletedCount) else 0
      ensures Valid() <==> code != NONE || old(deletedCount) == 0
      ensures removed == (deletedCount != old(deletedCount))
    {
      hide HashOk, TableOk, Tombstones, LiveOf, SlotsOk, Select, ErasedUpTo, Fold, FoldDash;
      removed := false;
      ghost var was := Live();
      if code != OTHER {
        removed := RemoveCode(code);
      }
      ghost var s, m := Slots(), OtherVersion(name);
      ghost var extra := if code == NONE then old(deletedCount) else 0;
      NothingErased(s, m);
      for pos := 0 to length
        invariant Shape() && ErasedUpTo(Slots(), s, pos, m)
        invariant deletedCount == Tombstones(Slots()) + extra
        invariant deletedCount >= old(deletedCount) && (removed <==> deletedCount != old(deletedCount))
      {
        ErasedStep(Slots(), s, pos, m);
        assert Slots()[pos] == Slot(codes[pos], names[pos], values[pos]);
        if codes[pos] == OTHER && FoldDash(names[pos]) == FoldDash(name) {
          Kill(pos);
          removed := true;
        }
      }
      VersionsErased(Slots(), s, hash, code, name, was);
    }
  }

  /** The headers of the live slots that a caller does not pick, in order. */
  function LiveUnless(slots: seq<Slot>, func: Slot -> bool): seq<Header>
  {
    if slots == [] then []
    else
      var front, last := LiveUnless(slots[..|slots| - 1], func), slots[|slots| - 1];
      if last.code == NONE || func(last) then front else front + [HeaderOf(last)]
  }

  lemma {:induction false} EraseUnless(slots: seq<Slot>, func: Slot -> bool)
    ensures LiveOf(Erase(slots, func)) == LiveUnless(slots, func)
  {
    if slots != [] {
      var front := slots[..|slots| - 1];
      EraseUnless(front, func);
      assert Erase(slots, func)[..|front|] == Erase(front, func);
    }
  }

  predicate Picked(slots: seq<Slot>, func: Slot -> bool)
  {
    exists i | 0 <= i < |slots| :: slots[i].code != NONE && func(slots[i])
  }

  lemma {:induction false} UnlessPicked(slots: seq<Slot>, func: Slot -> bool)
    ensures if Picked(slots, func) then |LiveUnless(slots, func)| < |LiveOf(slots)|
            else LiveUnless(slots, func) == LiveOf(slots)
  {
    if slots != [] {
      var front, last := slots[..|slots| - 1], slots[|slots| - 1];
      UnlessPicked(front, func);
      PickedLast(front, last, func);
      assert slots == front + [last];
    }
  }

  lemma PickedLast(front: seq<Slot>, last: Slot, func: Slot -> bool)
    ensures Picked(front + [last], func) <==> Picked(front, func) || (last.code != NONE && func(last))
  {
    var s := front + [last];
    assert s[|front|] == last;
    if Picked(front, func) {
      var i :| 0 <= i < |front| && front[i].code != NONE && func(front[i]);
      assert s[i] == front[i];
    }
  }

  lemma {:induction false} TombstoneThere(s: seq<Slot>)
    ensures Tombstones(s) > 0 <==> exists i | 0 <= i < |s| :: s[i].code == NONE
  {
    if s != [] {
      TombstoneThere(s[..|s| - 1]);
      assert s == s[..|s| - 1] + [s[|s| - 1]];
    }
  }

  lemma CodeThere(s: seq<Slot>, hash: Bytes -> Code, code: Code)
    requires HashOk(hash) && SlotsOk(s, hash)
    ensures (exists i | 0 <= i < |s| :: s[i].code == code) <==>
            if code == NONE then Tombstones(s) > 0 else exists h | h in LiveOf(s) :: hash(h.name) == code
  {
    hide HashOk, SlotsOk, LiveOf, Tombstones;
    TombstoneThere(s);
    if code != NONE {
      LiveIs(s);
      forall i | 0 <= i < |s| && s[i].code != NONE
        ensures hash(HeaderOf(s[i]).name) == s[i].code && HeaderOf(s[i]) in LiveOf(s)
      {
        SlotHash(s, hash, i);
      }
      forall h | h in LiveOf(s) && hash(h.name) == code
        ensures exists i | 0 <= i < |s| :: s[i].code == code
      {
        var i :| 0 <= i < |s| && s[i].code != NONE && HeaderOf(s[i]) == h;
      }
    }
  }

  // ----- a table of common names -----

  /** The names of a table, folded, are all different. */
  predicate Different(table: seq<Bytes>) { forall i, j | 0 <= i < j < |table| :: Fold(table[i]) != Fold(table[j]) }

  function Index(table: seq<Bytes>, name: Bytes): (i: nat)
    ensures i <= |table| && (i < |table| ==> Fold(table[i]) == Fold(name))
    ensures forall j | 0 <= j < i :: Fold(table[j]) != Fold(name)
  {
    if table == [] || Fold(table[0]) == Fold(name) then 0 else 1 + Index(table[1..], name)
  }

  /** The hash of a table: codes from 2 on, in order. */
  function HashOf(table: seq<Bytes>): Bytes -> Code
  {
    (name: Bytes) => if Index(table, name) < |table| then Index(table, name) + 2 else OTHER
  }

  function NameOf(table: seq<Bytes>): Code -> Bytes
  {
    (code: Code) => if 2 <= code < |table| + 2 then table[code - 2] else []
  }

  /** Every table of up to 254 different names has a hash with codes of one byte, as the collection asks for. */
  lemma AnyTable(table: seq<Bytes>)
    requires Different(table) && |table| <= 254
    ensures HashOk(HashOf(table)) && TableOk(HashOf(table), NameOf(table))
    ensures forall name: Bytes :: HashOf(table)(name) <= 255
  {
    hide Fold;
    forall a: Bytes, b: Bytes | Fold(a) == Fold(b)
      ensures HashOf(table)(a) == HashOf(table)(b)
    {
      SameIndex(table, a, b);
    }
    forall i | 0 <= i < |table|
      ensures Index(table, table[i]) == i
    {
      OwnIndex(table, i);
    }
  }

  lemma SameIndex(table: seq<Bytes>, a: Bytes, b: Bytes)
    requires Fold(a) == Fold(b)
    ensures Index(table, a) == Index(table, b)
  {
    hide Fold, Index;
  }

  lemma OwnIndex(table: seq<Bytes>, i: nat)
    requires Different(table) && i < |table|
    ensures Index(table, table[i]) == i
  {
    hide Fold, Index;
  }

  const CONTENT_TYPE: Bytes := "content-type"
  const CONTENT_TYPE_: Bytes := "content_type"
  const HOST: Bytes := "host"

  /**
   * Where the promise fails: called with the code of its own name, OTHER, "content_type" leaves the common
   * header "content-type"; called with the code of another name it takes that name's headers too.
   */
  lemma VersionsLeft(value: Bytes)
    ensures var hash := HashOf([CONTENT_TYPE, HOST]);
            var live := [Header(CONTENT_TYPE, value), Header(HOST, value)];
            && hash(CONTENT_TYPE_) == OTHER
            && SameVersion(CONTENT_TYPE_)(live[0]) && !SameVersion(CONTENT_TYPE_)(live[1])
            && Select(live, Not(Version(hash, OTHER, CONTENT_TYPE_))) == live
            && Select(live, Not(Version(hash, 3, CONTENT_TYPE_))) == [live[0]]
  {
    hide Index, Select;
    Spellings();
    var table := [CONTENT_TYPE, HOST];
    var hash := HashOf(table);
    OwnIndex(table, 0);
    OwnIndex(table, 1);
    var live := [Header(CONTENT_TYPE, value), Header(HOST, value)];
    forall h: Header, code: Code
      ensures Version(hash, code, CONTENT_TYPE_)(h)
              <==> (code != OTHER && hash(h.name) == code) || (hash(h.name) == OTHER && SameVersion(CONTENT_TYPE_)(h))
    {
      VersionIs(h, hash, code, CONTENT_TYPE_);
    }
    SelectPair(live[0], live[1], Not(Version(hash, OTHER, CONTENT_TYPE_)));
    SelectPair(live[0], live[1], Not(Version(hash, 3, CONTENT_TYPE_)));
  }

  lemma Spellings()
    ensures Fold(CONTENT_TYPE) != Fold(CONTENT_TYPE_) && Fold(HOST) != Fold(CONTENT_TYPE_)
            && Fold(CONTENT_TYPE) != Fold(HOST)
    ensures FoldDash(CONTENT_TYPE) == FoldDash(CONTENT_TYPE_) && FoldDash(HOST) != FoldDash(CONTENT_TYPE_)
  {
    assert Fold(CONTENT_TYPE)[7] == '-' && Fold(CONTENT_TYPE_)[7] == '_';
    assert |HOST| == 4 && |CONTENT_TYPE| == 12 && |CONTENT_TYPE_| == 12;
  }

  lemma SelectPair(x: Header, y: Header, p: Header -> bool)
    ensures Select([x, y], p) == (if p(x) then [x] else []) + if p(y) then [y] else []
  {
    assert [x, y][..1] == [x] && [x][..0] == [];
    assert Select([x], p) == if p(x) then [x] else [];
  }

  function SlotCoded(code: Code): Slot -> bool { (s: Slot) => s.code == code }

  function Coded(hash: Bytes -> Code, code: Code): Header -> bool { (h: Header) => hash(h.name) == code }

  lemma NoTombstones(s: seq<Slot>)
    ensures Tombstones(s[..0]) == 0
  {
  }

  lemma OneMoreSlot(s: seq<Slot>, pos: nat)
    requires pos < |s|
    ensures Tombstones(s[..pos + 1]) == Tombstones(s[..pos]) + if s[pos].code == NONE then 1 else 0
  {
    assert s[..pos + 1] == s[..pos] + [s[pos]];
    LiveMore(s[..pos], s[pos]);
  }

  /** A live slot has the code that the hash gives its folded name. */
  lemma SlotHash(s: seq<Slot>, hash: Bytes -> Code, i: nat)
    requires HashOk(hash) && SlotsOk(s, hash) && i < |s| && s[i].code != NONE
    ensures hash(HeaderOf(s[i]).name) == s[i].code
  {
  }

  lemma CodeErased(now: seq<Slot>, was: seq<Slot>, hash: Bytes -> Code, code: Code)
    requires HashOk(hash) && SlotsOk(was, hash) && ErasedUpTo(now, was, |was|, SlotCoded(code))
    ensures LiveOf(now) == Select(LiveOf(was), Not(Coded(hash, code)))
    ensures LiveOf(now) != LiveOf(was) <==> Tombstones(now) != Tombstones(was)
  {
    hide HashOk, TableOk, LiveOf, Select, SlotsOk, Tombstones;
    assert now == Erase(was, SlotCoded(code));
    forall i | 0 <= i < |was| && was[i].code != NONE
      ensures SlotCoded(code)(was[i]) == Coded(hash, code)(HeaderOf(was[i]))
    {
      SlotHash(was, hash, i);
    }
    EraseLive(was, SlotCoded(code), Coded(hash, code));
    SelectLost(LiveOf(was), Coded(hash, code));
  }

  /** For a common name, the code says the same as the name. */
  lemma CodedIsNamed(s: seq<Slot>, hash: Bytes -> Code, name: Bytes)
    requires HashOk(hash) && hash(name) != OTHER
    ensures Select(LiveOf(s), Not(Coded(hash, hash(name)))) == Select(LiveOf(s), Not(WithName(Fold(name))))
  {
    hide LiveOf, Select;
    LiveIs(s);
    forall h | h in LiveOf(s)
      ensures Coded(hash, hash(name))(h) == WithName(Fold(name))(h)
    {
      var i :| 0 <= i < |s| && s[i].code != NONE && HeaderOf(s[i]) == h;
      assert hash(Fold(name)) == hash(name);
    }
    SelectSame(LiveOf(s), Not(Coded(hash, hash(name))), Not(WithName(Fold(name))));
  }

  function OtherVersion(name: Bytes): Slot -> bool
  {
    (s: Slot) => s.code == OTHER && FoldDash(s.name) == FoldDash(name)
  }

  function Uncommon(hash: Bytes -> Code, name: Bytes): Header -> bool
  {
    (h: Header) => hash(h.name) == OTHER && FoldDash(h.name) == FoldDash(name)
  }

  /** The headers that removeAllVersions removes. */
  function Version(hash: Bytes -> Code, code: Code, name: Bytes): Header -> bool
  {
    (h: Header) => (code != OTHER && hash(h.name) == code) || Uncommon(hash, name)(h)
  }

  lemma VersionsErased(now: seq<Slot>, s: seq<Slot>, hash: Bytes -> Code, code: Code, name: Bytes, was: seq<Header>)
    requires HashOk(hash) && SlotsOk(s, hash) && ErasedUpTo(now, s, |s|, OtherVersion(name))
    requires LiveOf(s) == if code != OTHER then Select(was, Not(Coded(hash, code))) else was
    ensures LiveOf(now) == Select(was, Not(Version(hash, code, name)))
  {
    hide HashOk, TableOk, LiveOf, Select, SlotsOk, Fold, FoldDash;
    assert now == Erase(s, OtherVersion(name));
    var p, v := Uncommon(hash, name), Version(hash, code, name);
    forall i | 0 <= i < |s| && s[i].code != NONE
      ensures OtherVersion(name)(s[i]) == p(HeaderOf(s[i]))
    {
      VersionSlot(s, hash, name, i);
    }
    EraseLive(s, OtherVersion(name), p);
    if code != OTHER {
      SelectTwice(was, Not(Coded(hash, code)), Not(p), Not(v));
    } else {
      SelectSame(was, Not(p), Not(v));
    }
  }

  /** Is this header one of the versions of the name that should go? */
  function SameVersion(name: Bytes): Header -> bool { (h: Header) => FoldDash(h.name) == FoldDash(name) }

  /**
   * When removeAllVersions keeps its promise: no version of the name is left exactly if every common one among
   * them has the code of the call, and nothing else goes exactly if all headers with that code are versions.
   */
  lemma VersionsExact(live: seq<Header>, hash: Bytes -> Code, code: Code, name: Bytes)
    ensures var left := Select(live, Not(Version(hash, code, name)));
            && ((forall h | h in left :: !SameVersion(name)(h)) <==>
                (forall h | h in live && SameVersion(name)(h) && hash(h.name) != OTHER :: hash(h.name) == code))
            && ((forall h | h in live && !SameVersion(name)(h) :: h in left) <==>
                (code != OTHER ==> forall h | h in live && hash(h.name) == code :: SameVersion(name)(h)))
  {
    hide Select, FoldDash;
    var v, left := Version(hash, code, name), Select(live, Not(Version(hash, code, name)));
    SelectIs(live, Not(v));
    forall h: Header
      ensures v(h) <==> (code != OTHER && hash(h.name) == code) || (hash(h.name) == OTHER && SameVersion(name)(h))
      ensures Not(v)(h) == !v(h)
    {
      VersionIs(h, hash, code, name);
    }
    hide Version, SameVersion;
    assert forall h | h in live :: h in left <==> !v(h);
  }

  lemma VersionIs(h: Header, hash: Bytes -> Code, code: Code, name: Bytes)
    ensures Version(hash, code, name)(h)
            <==> (code != OTHER && hash(h.name) == code) || (hash(h.name) == OTHER && SameVersion(name)(h))
  {
  }

  lemma VersionSlot(s: seq<Slot>, hash: Bytes -> Code, name: Bytes, i: nat)
    requires HashOk(hash) && SlotsOk(s, hash) && i < |s| && s[i].code != NONE
    ensures OtherVersion(name)(s[i]) == Uncommon(hash, name)(HeaderOf(s[i]))
  {
  }

  lemma LiveNothing()
    ensures LiveOf([]) == []
  {
  }

  function SlotIn(codes: set<Code>): Slot -> bool { (s: Slot) => s.code in codes }

  function PerHop(hash: Bytes -> Code, codes: set<Code>): Header -> bool { (h: Header) => hash(h.name) in codes }

  const CONNECTION: Bytes := "Connection"

  /** perHopHeaderCodes, as names */
  const PER_HOP: seq<Bytes> := [
    CONNECTION, "Keep-Alive", "Proxy-Authenticate", "Proxy-Authorization", "Proxy-Connection", "TE", "Trailer",
    "Transfer-Encoding", "Upgrade"]

  function CodesOf(hash: Bytes -> Code, names: seq<Bytes>): set<Code> { set i | 0 <= i < |names| :: hash(names[i]) }

  function NamedIn(names: seq<Bytes>): Header -> bool
  {
    (h: Header) => exists i | 0 <= i < |names| :: Fold(names[i]) == Fold(h.name)
  }

  /** To have one of the codes is to have one of the names. */
  lemma CodeOrName(hash: Bytes -> Code, names: seq<Bytes>, h: Header)
    requires HashOk(hash) && forall i | 0 <= i < |names| :: hash(names[i]) > OTHER
    ensures PerHop(hash, CodesOf(hash, names))(h) <==> NamedIn(names)(h)
  {
    hide Fold;
    if i :| 0 <= i < |names| && Fold(names[i]) == Fold(h.name) {
      assert hash(names[i]) == hash(h.name);
    }
    if i :| 0 <= i < |names| && hash(names[i]) == hash(h.name) {
      assert Fold(names[i]) == Fold(h.name);
    }
  }

  lemma MoveByName(b: Both, hash: Bytes -> Code, names: seq<Bytes>)
    requires HashOk(hash) && forall i | 0 <= i < |names| :: hash(names[i]) > OTHER
    ensures Move(b, PerHop(hash, CodesOf(hash, names))) == Move(b, NamedIn(names))
  {
    hide HashOk, Select, PerHop, NamedIn;
    var p, q := PerHop(hash, CodesOf(hash, names)), NamedIn(names);
    forall h: Header
      ensures p(h) == q(h)
    {
      CodeOrName(hash, names, h);
    }
    SelectSame(b.0, p, q);
    SelectSame(b.0, Not(p), Not(q));
  }

  lemma PerHopSlot(slots: seq<Slot>, hash: Bytes -> Code, codes: set<Code>, i: nat)
    requires HashOk(hash) && SlotsOk(slots, hash) && NONE !in codes && i < |slots|
    ensures slots[i].code in codes <==> slots[i].code != NONE && PerHop(hash, codes)(HeaderOf(slots[i]))
  {
  }

  lemma PerHopErased(now: seq<Slot>, was: seq<Slot>, hash: Bytes -> Code, codes: set<Code>)
    requires HashOk(hash) && SlotsOk(was, hash) && NONE !in codes && ErasedUpTo(now, was, |was|, SlotIn(codes))
    ensures LiveOf(now) == Select(LiveOf(was), Not(PerHop(hash, codes)))
  {
    hide LiveOf, Select, HashOk, SlotsOk;
    assert now == Erase(was, SlotIn(codes));
    forall i | 0 <= i < |was| && was[i].code != NONE
      ensures SlotIn(codes)(was[i]) == PerHop(hash, codes)(HeaderOf(was[i]))
    {
      PerHopSlot(was, hash, codes, i);
    }
    EraseLive(was, SlotIn(codes), PerHop(hash, codes));
  }

  lemma NoLiveTokens(conn: Bytes)
    ensures AllTokens(LiveOf([]), conn) == []
  {
  }

  /** The tokens of one slot more. */
  lemma TokensUpTo(s: seq<Slot>, pos: nat, conn: Bytes)
    requires pos < |s|
    ensures var before := AllTokens(LiveOf(s[..pos]), conn);
            AllTokens(LiveOf(s[..pos + 1]), conn) ==
            if s[pos].code != NONE && Fold(s[pos].name) == conn then before + Tokens(UpToNul(s[pos].value)) else before
  {
    hide Fold, First, Tokens;
    assert s[..pos + 1] == s[..pos] + [s[pos]];
    LiveMore(s[..pos], s[pos]);
    TokensMore(LiveOf(s[..pos]), HeaderOf(s[pos]), conn);
  }

  /** The tokens of a part are among the tokens of the whole. */
  lemma {:induction false} FewerTokens(s: seq<Slot>, pos: nat, conn: Bytes)
    requires pos <= |s|
    ensures AllTokens(LiveOf(s[..pos]), conn) <= AllTokens(LiveOf(s), conn)
    decreases |s| - pos
  {
    hide Fold, First, Tokens, LiveOf, AllTokens;
    if pos < |s| {
      TokensUpTo(s, pos, conn);
      FewerTokens(s, pos + 1, conn);
    } else {
      assert s[..pos] == s;
    }
  }

  /** If no Connection header names Connection, they stay where they are. */
  lemma StillThere(now: seq<Slot>, was: seq<Slot>, pos: nat, conn: Bytes)
    requires pos < |was| && Thinned(now, was, AllTokens(LiveOf(was[..pos]), conn))
    requires !Names(AllTokens(LiveOf(was), conn), conn)
    ensures |now| == |was| && (Fold(was[pos].name) == conn ==> now[pos] == was[pos])
    ensures now[pos].name == was[pos].name && now[pos].value == was[pos].value
  {
    hide Fold, LiveOf, AllTokens;
    FewerTokens(was, pos, conn);
    var few, all := AllTokens(LiveOf(was[..pos]), conn), AllTokens(LiveOf(was), conn);
    assert forall i | 0 <= i < |few| :: few[i] == all[i];
  }

  lemma ThinnedTrans(now: seq<Slot>, mid: seq<Slot>, was: seq<Slot>, x: seq<Bytes>, y: seq<Bytes>)
    requires Thinned(mid, was, x) && Thinned(now, mid, y)
    ensures Thinned(now, was, x + y)
  {
    hide Fold;
    forall name | Names(x, name) || Names(y, name)
      ensures Names(x + y, name)
    {
      if Names(x, name) {
        var i :| 0 <= i < |x| && Fold(x[i]) == name;
        assert (x + y)[i] == x[i];
      } else {
        var i :| 0 <= i < |y| && Fold(y[i]) == name;
        assert (x + y)[|x| + i] == y[i];
      }
    }
  }

  lemma TokensSkip(t: Bytes)
    ensures Tokens(SkipLws(t)) == Tokens(t) && SkipLws(SkipLws(t)) == SkipLws(t)
  {
  }

  lemma NothingNamed(b: Both)
    ensures MoveNamed(b, []) == b
  {
  }

  lemma NoTokens()
    ensures Tokens([]) == []
  {
  }

  lemma TokensStep(str: Bytes)
    requires str != [] && SkipLws(str) == str
    ensures var i := First(str, ',');
            var token := if i == |str| then Word(str) else RTrim(str[..i]);
            var rest := if i == |str| then [] else str[i + 1..];
            Tokens(str) == (if token == [] then [] else [token]) + Tokens(rest) && |rest| < |str|
  {
    NoTokens();
  }

  lemma MoveOneToken(b: Both, token: Bytes)
    ensures MoveNamed(b, [token]) == Move(b, WithName(Fold(token)))
  {
    assert [token][1..] == [];
  }

  lemma ThinnedMore(now: seq<Slot>, mid: seq<Slot>, was: seq<Slot>, tokens: seq<Bytes>, token: Bytes)
    requires Thinned(mid, was, tokens) && ErasedUpTo(now, mid, |mid|, SlotNamed(Fold(token)))
    ensures Thinned(now, was, tokens + [token])
  {
    hide Fold, Names;
    forall name | Names(tokens, name) || name == Fold(token)
      ensures Names(tokens + [token], name)
    {
      NamesMore(tokens, token, name);
    }
  }

  lemma NamesMore(tokens: seq<Bytes>, token: Bytes, name: Bytes)
    ensures Names(tokens, name) || name == Fold(token) ==> Names(tokens + [token], name)
  {
    hide Fold;
    if i :| 0 <= i < |tokens| && Fold(tokens[i]) == name {
      assert (tokens + [token])[i] == tokens[i];
    }
    assert (tokens + [token])[|tokens|] == token;
  }

  /** Slots that were taken away have a name among the tokens. */
  ghost predicate Thinned(now: seq<Slot>, was: seq<Slot>, tokens: seq<Bytes>)
  {
    && |now| == |was|
    && forall j | 0 <= j < |was| ::
         now[j] == was[j] || (now[j] == was[j].(code := NONE) && Names(tokens, Fold(was[j].name)))
  }

  lemma NotThinned(s: seq<Slot>)
    ensures Thinned(s, s, [])
  {
  }

  /** The first n elements, in new memory. */
  method Copied<T>(a: array<T>, n: nat, capacity: nat, filler: T) returns (b: array<T>)
    requires n <= a.Length && n <= capacity
    ensures fresh(b) && b.Length == capacity && forall i | 0 <= i < n :: b[i] == a[i]
  {
    b := new T[capacity](_ => filler);
    for i := 0 to n
      invariant forall j | 0 <= j < i :: b[j] == a[j]
    {
      b[i] := a[i];
    }
  }

  method SkipSpaces(text: Bytes) returns (str: Bytes)
    ensures str == SkipLws(text)
  {
    str := text;
    while str != [] && IsLws(str[0])
      invariant SkipLws(str) == SkipLws(text)
    {
      str := str[1..];
    }
  }

  /** Cuts the next token off a list; the last one ends at white space, the others are trimmed. */
  method NextToken(str: Bytes) returns (token: Bytes, rest: Bytes)
    requires str != [] && SkipLws(str) == str
    ensures Tokens(str) == (if token == [] then [] else [token]) + Tokens(rest)
    ensures |rest| < |str| && SkipLws(rest) == rest
  {
    hide Tokens, SkipLws, RTrim, First, Word;
    TokensStep(str);
    var pos := First(str, ',');
    if pos == |str| {
      token := FirstWord(str);
      rest := [];
    } else {
      token := RTrim(str[..pos]);
      rest := str[pos + 1..];
    }
    TokensSkip(rest);
    rest := SkipSpaces(rest);
  }

  method FirstWord(str: Bytes) returns (word: Bytes)
    ensures word == Word(str)
  {
    var len := 0;
    assert str[0..] == str;
    while len < |str| && !IsLws(str[len])
      invariant len <= |str| && str[..len] + Word(str[len..]) == Word(str)
    {
      assert str[len..][1..] == str[len + 1..];
      len := len + 1;
    }
    word := str[..len];
  }

  lemma NothingErased(s: seq<Slot>, m: Slot -> bool)
    ensures ErasedUpTo(s, s, 0, m)
  {
  }

  lemma ErasedStep(now: seq<Slot>, was: seq<Slot>, pos: nat, m: Slot -> bool)
    requires ErasedUpTo(now, was, pos, m) && pos < |was|
    ensures |now| == |was| && now[pos] == was[pos]
    ensures ErasedUpTo(if was[pos].code != NONE && m(was[pos]) then now[pos := now[pos].(code := NONE)] else now,
                       was, pos + 1, m)
  {
  }

  lemma NothingLive(p: Header -> bool)
    ensures Select(LiveOf([]), p) == []
  {
  }

  /** One slot more. */
  lemma LiveStep(s: seq<Slot>, pos: nat, p: Header -> bool)
    requires pos < |s|
    ensures var before := Select(LiveOf(s[..pos]), p);
            Select(LiveOf(s[..pos + 1]), p) ==
            if s[pos].code != NONE && p(HeaderOf(s[pos])) then before + [HeaderOf(s[pos])] else before
  {
    assert s[..pos + 1] == s[..pos] + [s[pos]];
    LiveMore(s[..pos], s[pos]);
    SelectMore(LiveOf(s[..pos]), HeaderOf(s[pos]), p);
  }

  /** What is found in a part is found in the whole. */
  lemma {:induction false} MoreFound(s: seq<Slot>, pos: nat, p: Header -> bool)
    requires pos <= |s|
    ensures |Select(LiveOf(s[..pos]), p)| <= |Select(LiveOf(s), p)|
    decreases |s| - pos
  {
    if pos < |s| {
      LiveStep(s, pos, p);
      MoreFound(s, pos + 1, p);
    } else {
      assert s[..pos] == s;
    }
  }

  lemma TrimmedAt(s: seq<Slot>, hash: Bytes -> Code, i: nat)
    requires SlotsOk(s, hash) && i < |s|
    ensures s[i].code != NONE ==> RTrim(s[i].value) == s[i].value && s[i].code == hash(s[i].name)
  {
  }

  /** The slots before `pos` have been looked at. */
  ghost predicate ErasedUpTo(now: seq<Slot>, was: seq<Slot>, pos: nat, m: Slot -> bool)
  {
    && |now| == |was|
    && forall j | 0 <= j < |was| ::
         now[j] == if j < pos && was[j].code != NONE && m(was[j]) then was[j].(code := NONE) else was[j]
  }

  /** After the loop: the headers with the name are gone and the others are as they were. */
  lemma NamedErased(now: seq<Slot>, was: seq<Slot>, n: Bytes)
    requires ErasedUpTo(now, was, |was|, SlotNamed(n))
    ensures LiveOf(now) == Select(LiveOf(was), Not(WithName(n)))
    ensures LiveOf(now) != LiveOf(was) <==> exists j | 0 <= j < |was| :: was[j].code != NONE && SlotNamed(n)(was[j])
  {
    hide LiveOf, Select;
    assert now == Erase(was, SlotNamed(n));
    EraseLive(was, SlotNamed(n), WithName(n));
    SelectLoses(LiveOf(was), Not(WithName(n)));
    NamedThere(was, n);
  }

  lemma NamedThere(slots: seq<Slot>, n: Bytes)
    ensures (exists j | 0 <= j < |slots| :: slots[j].code != NONE && SlotNamed(n)(slots[j]))
            <==> exists h | h in LiveOf(slots) :: !Not(WithName(n))(h)
  {
    hide LiveOf;
    LiveIs(slots);
    if j :| 0 <= j < |slots| && slots[j].code != NONE && SlotNamed(n)(slots[j]) {
      assert HeaderOf(slots[j]) in LiveOf(slots);
    }
    forall h | h in LiveOf(slots) && !Not(WithName(n))(h)
      ensures exists j | 0 <= j < |slots| :: slots[j].code != NONE && SlotNamed(n)(slots[j])
    {
      var j :| 0 <= j < |slots| && slots[j].code != NONE && HeaderOf(slots[j]) == h;
    }
  }

  /** A live slot has a common code exactly when it has the name of that code. */
  lemma CodeIsName(slots: seq<Slot>, hash: Bytes -> Code, nameOf: Code -> Bytes, code: Code, i: nat)
    requires HashOk(hash) && SlotsOk(slots, hash) && code > OTHER && hash(nameOf(code)) == code && i < |slots|
    ensures slots[i].code == code <==> slots[i].code != NONE && Fold(slots[i].name) == Fold(nameOf(code))
  {
  }

  lemma OtherIsName(slots: seq<Slot>, hash: Bytes -> Code, name: Bytes, i: nat)
    requires HashOk(hash) && SlotsOk(slots, hash) && hash(name) == OTHER && i < |slots|
    ensures slots[i].code == OTHER && Fold(slots[i].name) == Fold(name)
            <==> slots[i].code != NONE && Fold(slots[i].name) == Fold(name)
  {
  }

  lemma HashNotNone(hash: Bytes -> Code, name: Bytes)
    requires HashOk(hash)
    ensures hash(name) != NONE
  {
  }

  /** The name that is kept for a common header differs at most in case. */
  /** How a name is kept: a common one as the table spells it, and any other as it came. */
  function Spelling(hash: Bytes -> Code, nameOf: Code -> Bytes, name: Bytes): Bytes
  {
    if hash(name) == OTHER then name else nameOf(hash(name))
  }

  /** A name is the same in either spelling. */
  lemma SpelledSame(hash: Bytes -> Code, nameOf: Code -> Bytes, name: Bytes)
    requires HashOk(hash) && TableOk(hash, nameOf)
    ensures var kept := Spelling(hash, nameOf, name); hash(kept) == hash(name) && Fold(kept) == Fold(name)
  {
    SameName(hash, nameOf, name);
  }

  lemma SameName(hash: Bytes -> Code, nameOf: Code -> Bytes, name: Bytes)
    requires HashOk(hash) && TableOk(hash, nameOf)
    ensures hash(name) != OTHER ==> hash(nameOf(hash(name))) == hash(name) && Fold(nameOf(hash(name))) == Fold(name)
  {
    assert hash(name) != NONE;
  }
}
