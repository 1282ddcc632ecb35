/**
 * What a collection of HTTP headers means: an ordered list of headers with case-insensitive names.  Slots are
 * the positions of the source's parallel arrays; a removed header leaves a tombstone.
 */
module HeaderList {
  import opened HttpTypes

  // ----- names and values -----

  /** Names are compared without regard to case. */
  function Fold(name: Bytes): (r: Bytes)
    ensures |r| == |name| && forall i | 0 <= i < |r| :: r[i] == TokenLower(name[i])
  {
    seq(|name|, i requires 0 <= i < |name| => TokenLower(name[i]))
  }

  /** ... and for removeAllVersions, with '_' as '-'. */
  function FoldDash(name: Bytes): (r: Bytes)
    ensures |r| == |name|
  {
    seq(|name|, i requires 0 <= i < |name| => if name[i] == '_' then '-' else TokenLower(name[i]))
  }

  predicate SameByte(a: Byte, b: Byte)
  {
    Fold([a]) == Fold([b]) || (a == '-' && b == '_') || (a == '_' && b == '-')
  }

  /** Two names are versions of one another if they differ in case and in '-' against '_' alone. */
  lemma SameVersionIs(a: Bytes, b: Bytes)
    ensures FoldDash(a) == FoldDash(b) <==> |a| == |b| && forall i | 0 <= i < |a| :: SameByte(a[i], b[i])
  {
    hide SameByte;
    if |a| == |b| {
      forall i | 0 <= i < |a|
        ensures FoldDash(a)[i] == FoldDash(b)[i] <==> SameByte(a[i], b[i])
      {
        SameByteIs(a[i], b[i]);
      }
      if FoldDash(a) == FoldDash(b) {
        assert forall i | 0 <= i < |a| :: FoldDash(a)[i] == FoldDash(b)[i];
      }
    }
  }

  lemma SameByteIs(a: Byte, b: Byte)
    ensures SameByte(a, b) <==>
            (if a == '_' then '-' else TokenLower(a)) == (if b == '_' then '-' else TokenLower(b))
  {
    assert Fold([a]) == Fold([b]) <==> Fold([a])[0] == Fold([b])[0];
  }

  /** Case is that of the 26 letters. */
  lemma FoldLetters(a: Byte, b: Byte)
    ensures Fold([a]) == Fold([b]) <==> a == b || (IsAlpha(a) && IsAlpha(b) && a as int % 32 == b as int % 32)
  {
    assert Fold([a]) == Fold([b]) <==> Fold([a])[0] == Fold([b])[0];
  }

  predicate IsLws(c: Byte) { c == ' ' || c == '\n' || c == '\t' || c == '\r' }

  predicate Trimmed(v: Bytes) { v != [] ==> !IsLws(v[|v| - 1]) }

  /** A value without white space at its end. */
  function RTrim(v: Bytes): (r: Bytes)
    ensures Trimmed(r) && (Trimmed(v) ==> r == v)
    ensures r <= v && forall i | |r| <= i < |v| :: IsLws(v[i])
  {
    if v != [] && IsLws(v[|v| - 1]) then RTrim(v[..|v| - 1]) else v
  }

  // ----- slots -----

  type Code = nat

  const NONE: Code := 0
  const OTHER: Code := 1

  datatype Slot = Slot(code: Code, name: Bytes, value: Bytes)

  /**
   * What is taken as known of the generated hash: it depends on the folded name alone, never yields the code of
   * a removed header, and tells the common names apart.
   */
  ghost predicate HashOk(hash: Bytes -> Code)
  {
    && (forall a: Bytes, b: Bytes {:trigger hash(a), hash(b)} | Fold(a) == Fold(b) :: hash(a) == hash(b))
    && (forall a: Bytes :: hash(a) != NONE)
    && (forall a: Bytes, b: Bytes {:trigger hash(a), hash(b)} | hash(a) == hash(b) != OTHER :: Fold(a) == Fold(b))
  }

  /** getPointerToName gives every common name back, as the table spells it. */
  ghost predicate TableOk(hash: Bytes -> Code, nameOf: Code -> Bytes)
  {
    forall a: Bytes | hash(a) > OTHER :: hash(nameOf(hash(a))) == hash(a)
  }

  /** Names are kept as they are spelled, and compared without regard to case. */
  function HeaderOf(s: Slot): Header { Header(s.name, s.value) }

  /** The headers that have not been removed, in order. */
  function LiveOf(slots: seq<Slot>): seq<Header>
  {
    if slots == [] then []
    else
      var front, last := LiveOf(slots[..|slots| - 1]), slots[|slots| - 1];
      if last.code == NONE then front else front + [HeaderOf(last)]
  }

  function Tombstones(slots: seq<Slot>): (n: nat)
    ensures n <= |slots|
  {
    if slots == [] then 0
    else Tombstones(slots[..|slots| - 1]) + if slots[|slots| - 1].code == NONE then 1 else 0
  }

  lemma {:induction false} LiveCount(slots: seq<Slot>)
    ensures |LiveOf(slots)| == |slots| - Tombstones(slots)
  {
    if slots != [] {
      LiveCount(slots[..|slots| - 1]);
    }
  }

  lemma LiveMore(slots: seq<Slot>, s: Slot)
    ensures LiveOf(slots + [s]) == if s.code == NONE then LiveOf(slots) else LiveOf(slots) + [HeaderOf(s)]
    ensures Tombstones(slots + [s]) == Tombstones(slots) + if s.code == NONE then 1 else 0
  {
    assert (slots + [s])[..|slots|] == slots;
  }

  function Not(p: Header -> bool): Header -> bool { (h: Header) => !p(h) }

  function WithName(n: Bytes): Header -> bool { (h: Header) => Fold(h.name) == n }

  function SlotNamed(n: Bytes): Slot -> bool { (s: Slot) => Fold(s.name) == n }

  /** The headers that satisfy `p`, in order. */
  function Select(s: seq<Header>, p: Header -> bool): seq<Header>
  {
    if s == [] then []
    else Select(s[..|s| - 1], p) + if p(s[|s| - 1]) then [s[|s| - 1]] else []
  }

  lemma SelectMore(s: seq<Header>, h: Header, p: Header -> bool)
    ensures Select(s + [h], p) == Select(s, p) + if p(h) then [h] else []
  {
    assert (s + [h])[..|s|] == s;
  }

  /** Each matching live slot becomes a tombstone. */
  function Erase(slots: seq<Slot>, match_: Slot -> bool): (r: seq<Slot>)
    ensures |r| == |slots|
    ensures forall i | 0 <= i < |slots| ::
              r[i] == if slots[i].code != NONE && match_(slots[i]) then slots[i].(code := NONE) else slots[i]
  {
    seq(|slots|, i requires 0 <= i < |slots| =>
      if slots[i].code != NONE && match_(slots[i]) then slots[i].(code := NONE) else slots[i])
  }

  /** Erasing by a property of the header keeps the others, and makes as many tombstones as it takes headers. */
  lemma {:induction false} EraseLive(slots: seq<Slot>, m: Slot -> bool, p: Header -> bool)
    requires forall i | 0 <= i < |slots| && slots[i].code != NONE :: m(slots[i]) == p(HeaderOf(slots[i]))
    ensures LiveOf(Erase(slots, m)) == Select(LiveOf(slots), Not(p))
    ensures Tombstones(Erase(slots, m)) == Tombstones(slots) + |Select(LiveOf(slots), p)|
    decreases |slots|
  {
    if slots != [] {
      var front, last := slots[..|slots| - 1], slots[|slots| - 1];
      EraseLive(front, m, p);
      assert Erase(slots, m)[..|front|] == Erase(front, m);
      if last.code != NONE {
        SelectMore(LiveOf(front), HeaderOf(last), Not(p));
        SelectMore(LiveOf(front), HeaderOf(last), p);
      }
    }
  }

  /** A list is its selected and its other headers together. */
  lemma {:induction false} SelectSplits(s: seq<Header>, p: Header -> bool)
    ensures multiset(s) == multiset(Select(s, p)) + multiset(Select(s, Not(p)))
  {
    if s != [] {
      var front, last := s[..|s| - 1], s[|s| - 1];
      SelectSplits(front, p);
      MoreCounted(front, last);
      MoreCounted(Select(front, p), last);
      MoreCounted(Select(front, Not(p)), last);
      assert s == front + [last];
    }
  }

  lemma MoreCounted(s: seq<Header>, h: Header)
    ensures multiset(s + [h]) == multiset(s) + multiset{h} && s + [] == s
  {
  }

  lemma {:induction false} SelectIs(s: seq<Header>, p: Header -> bool)
    ensures forall h :: h in Select(s, p) <==> h in s && p(h)
  {
    if s != [] {
      SelectIs(s[..|s| - 1], p);
      assert s == s[..|s| - 1] + [s[|s| - 1]];
    }
  }

  lemma {:induction false} SelectTwice(s: seq<Header>, p: Header -> bool, q: Header -> bool, both: Header -> bool)
    requires forall h :: both(h) == (p(h) && q(h))
    ensures Select(Select(s, p), q) == Select(s, both)
  {
    if s != [] {
      var front, last := s[..|s| - 1], s[|s| - 1];
      SelectTwice(front, p, q, both);
      SelectMore(Select(front, p), last, q);
      assert Select(front, p) + [] == Select(front, p);
    }
  }

  lemma {:induction false} SelectSame(s: seq<Header>, p: Header -> bool, q: Header -> bool)
    requires forall h | h in s :: p(h) == q(h)
    ensures Select(s, p) == Select(s, q)
  {
    if s != [] {
      SelectSame(s[..|s| - 1], p, q);
    }
  }

  /** Selecting changes a list exactly when something is left out. */
  lemma {:induction false} SelectLoses(s: seq<Header>, p: Header -> bool)
    ensures |Select(s, p)| <= |s| && (Select(s, p) == s <==> forall h | h in s :: p(h))
  {
    if s != [] {
      var front, last := s[..|s| - 1], s[|s| - 1];
      SelectLoses(front, p);
      assert s == front + [last];
    }
  }

  lemma {:induction false} SelectLost(s: seq<Header>, p: Header -> bool)
    ensures Select(s, Not(p)) != s <==> |Select(s, p)| != 0
  {
    if s != [] {
      var front, last := s[..|s| - 1], s[|s| - 1];
      SelectLost(front, p);
      SelectLoses(front, Not(p));
      assert s == front + [last];
    }
  }

  /** The live headers are those of the live slots. */
  lemma {:induction false} LiveIs(slots: seq<Slot>)
    ensures forall h ::
              h in LiveOf(slots) <==> exists i | 0 <= i < |slots| :: slots[i].code != NONE && HeaderOf(slots[i]) == h
  {
    if slots != [] {
      var front, last := slots[..|slots| - 1], slots[|slots| - 1];
      LiveIs(front);
      assert slots == front + [last];
    }
  }
}
