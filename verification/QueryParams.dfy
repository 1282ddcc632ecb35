/**
 * Query strings and parameter maps: HTTPMessage::splitNameValue, parseQueryParams and createQueryString, and
 * the round trip between them.
 */
module QueryParams {
  import opened HttpTypes
  import opened UrlReading

  // ----- std::map<string, string>: pairs in increasing order of their names -----

  type Pair = (Bytes, Bytes)
  type Params = seq<Pair>

  /** The order of std::string. */
  predicate Less(a: Bytes, b: Bytes)
  {
    b != [] && (a == [] || a[0] < b[0] || (a[0] == b[0] && Less(a[1..], b[1..])))
  }

  lemma {:induction false} LessTotal(a: Bytes, b: Bytes)
    ensures Less(a, b) || Less(b, a) || a == b
    ensures !(Less(a, b) && Less(b, a)) && !Less(a, a)
  {
    if a != [] && b != [] {
      LessTotal(a[1..], b[1..]);
      assert a == [a[0]] + a[1..] && b == [b[0]] + b[1..];
    }
    if a != [] {
      LessTotal(a[1..], a[1..]);
    }
  }

  lemma {:induction false} LessTrans(a: Bytes, b: Bytes, c: Bytes)
    requires Less(a, b) && Less(b, c)
    ensures Less(a, c)
  {
    if a != [] && a[0] == b[0] && b[0] == c[0] {
      LessTrans(a[1..], b[1..], c[1..]);
    }
  }

  predicate Sorted(m: Params) { forall i, j | 0 <= i < j < |m| :: Less(m[i].0, m[j].0) }

  /** `m[name] = value` */
  function Insert(m: Params, name: Bytes, value: Bytes): Params
  {
    if m == [] || Less(name, m[0].0) then [(name, value)] + m
    else if m[0].0 == name then [(name, value)] + m[1..]
    else [m[0]] + Insert(m[1..], name, value)
  }

  function Erase(m: Params, name: Bytes): Params
  {
    if m == [] then [] else if m[0].0 == name then m[1..] else [m[0]] + Erase(m[1..], name)
  }

  function Lookup(m: Params, name: Bytes): Option<Bytes>
  {
    if m == [] then None else if m[0].0 == name then Some(m[0].1) else Lookup(m[1..], name)
  }

  lemma {:induction false} InsertNames(m: Params, name: Bytes, value: Bytes)
    requires Sorted(m)
    ensures var r := Insert(m, name, value);
            && r != [] && (forall i | 0 <= i < |r| :: r[i] in m || r[i] == (name, value))
            && Sorted(r)
  {
    if m != [] {
      LessTotal(name, m[0].0);
      if Less(name, m[0].0) {
        forall i | 0 < i < |m|
          ensures Less(name, m[i].0)
        {
          LessTrans(name, m[0].0, m[i].0);
        }
      } else if m[0].0 != name {
        InsertNames(m[1..], name, value);
        var r := Insert(m[1..], name, value);
        forall i | 0 <= i < |r|
          ensures Less(m[0].0, r[i].0) && (r[i] in m || r[i] == (name, value))
        {
          assert r[i] in m[1..] ==> r[i] in m;
        }
      }
    }
  }

  lemma {:induction false} EraseNames(m: Params, name: Bytes)
    requires Sorted(m)
    ensures var r := Erase(m, name); Sorted(r) && (forall i | 0 <= i < |r| :: r[i] in m)
  {
    if m != [] && m[0].0 != name {
      EraseNames(m[1..], name);
      var r := Erase(m[1..], name);
      forall i | 0 <= i < |r|
        ensures Less(m[0].0, r[i].0) && r[i] in m
      {
        assert r[i] in m[1..] ==> r[i] in m;
      }
    }
  }

  /** A name above all others goes to the end. */
  lemma {:induction false} InsertLast(m: Params, name: Bytes, value: Bytes)
    requires forall i | 0 <= i < |m| :: Less(m[i].0, name)
    ensures Insert(m, name, value) == m + [(name, value)]
  {
    if m != [] {
      LessTotal(name, m[0].0);
      InsertLast(m[1..], name, value);
      assert m == [m[0]] + m[1..];
    }
  }

  function InsertAll(m: Params, pairs: seq<Pair>): Params
    decreases |pairs|
  {
    if pairs == [] then m else InsertAll(Insert(m, pairs[0].0, pairs[0].1), pairs[1..])
  }

  /** Inserting a sorted list in order gives the list. */
  lemma {:induction false} InsertSorted(m: Params, pairs: seq<Pair>)
    requires Sorted(m + pairs)
    ensures InsertAll(m, pairs) == m + pairs
    decreases |pairs|
  {
    if pairs == [] {
      assert m + pairs == m;
    } else {
      var all := m + pairs;
      assert all[|m|] == pairs[0] && forall i | 0 <= i < |m| :: all[i] == m[i];
      InsertLast(m, pairs[0].0, pairs[0].1);
      assert m + [pairs[0]] + pairs[1..] == all;
      InsertSorted(m + [pairs[0]], pairs[1..]);
    }
  }

  // ----- what the map holds -----

  lemma {:induction false} LookupNone(m: Params, name: Bytes)
    ensures Lookup(m, name).None? <==> forall i | 0 <= i < |m| :: m[i].0 != name
  {
    if m != [] {
      LookupNone(m[1..], name);
      assert forall i | 0 < i < |m| :: m[i] == m[1..][i - 1];
    }
  }

  /** A name has the value that stands beside it. */
  lemma {:induction false} LookupIs(m: Params, name: Bytes, value: Bytes)
    requires Sorted(m)
    ensures Lookup(m, name) == Some(value) <==> (name, value) in m
  {
    if m != [] {
      LookupIs(m[1..], name, value);
      assert m == [m[0]] + m[1..];
      LessTotal(name, name);
    }
  }

  /** A name below all of a sorted map is not in it. */
  lemma LookupBelow(m: Params, name: Bytes)
    requires Sorted(m) && m != [] && Less(name, m[0].0)
    ensures Lookup(m, name).None?
  {
    hide Less;
    LookupNone(m, name);
    forall i | 0 <= i < |m|
      ensures m[i].0 != name
    {
      LessTotal(name, m[0].0);
    }
  }

  /** Setting a name gives it the value, and changes no other name. */
  lemma {:induction false} LookupInsert(m: Params, name: Bytes, value: Bytes, k: Bytes)
    requires Sorted(m)
    ensures Lookup(Insert(m, name, value), k) == if k == name then Some(value) else Lookup(m, k)
  {
    if m != [] {
      LessTotal(name, m[0].0);
      LookupInsert(m[1..], name, value, k);
    }
  }

  /** Erasing a name takes it away, and changes no other name. */
  lemma {:induction false} LookupErase(m: Params, name: Bytes, k: Bytes)
    requires Sorted(m)
    ensures Lookup(Erase(m, name), k) == if k == name then None else Lookup(m, k)
  {
    if m != [] {
      LookupErase(m[1..], name, k);
      LookupNone(m[1..], name);
      LessTotal(name, name);
    }
  }

  /** A map is what its names have for values. */
  lemma {:induction false} SameValues(m: Params, n: Params)
    requires Sorted(m) && Sorted(n) && forall k: Bytes :: Lookup(m, k) == Lookup(n, k)
    ensures m == n
    decreases |m|
  {
    if n != [] {
      assert Lookup(m, n[0].0) == Lookup(n, n[0].0);
    }
    if m != [] {
      SameFirst(m, n);
      forall k: Bytes
        ensures Lookup(m[1..], k) == Lookup(n[1..], k)
      {
        TailValue(m, k);
        TailValue(n, k);
        assert Lookup(m, k) == Lookup(n, k);
      }
      SameValues(m[1..], n[1..]);
      assert m == [m[0]] + m[1..] && n == [n[0]] + n[1..];
    }
  }

  lemma SameFirst(m: Params, n: Params)
    requires Sorted(m) && Sorted(n) && m != [] && forall k: Bytes :: Lookup(m, k) == Lookup(n, k)
    ensures n != [] && m[0] == n[0]
  {
    hide Less, Sorted;
    assert Lookup(m, m[0].0) == Lookup(n, m[0].0);
    assert Lookup(n, n[0].0) == Lookup(m, n[0].0);
    LessTotal(m[0].0, n[0].0);
    if Less(m[0].0, n[0].0) {
      LookupBelow(n, m[0].0);
    } else if Less(n[0].0, m[0].0) {
      LookupBelow(m, n[0].0);
    }
  }

  lemma TailValue(m: Params, k: Bytes)
    requires Sorted(m) && m != []
    ensures Lookup(m[1..], k) == if k == m[0].0 then None else Lookup(m, k)
  {
    LookupNone(m[1..], k);
    LessTotal(k, k);
  }

  /** The value of a name after entering pairs in order: that of the last pair with the name. */
  function LastValue(pairs: seq<Pair>, k: Bytes, before: Option<Bytes>): Option<Bytes>
  {
    if pairs == [] then before
    else if pairs[|pairs| - 1].0 == k then Some(pairs[|pairs| - 1].1)
    else LastValue(pairs[..|pairs| - 1], k, before)
  }

  lemma {:induction false} LastValueCons(p: Pair, pairs: seq<Pair>, k: Bytes, before: Option<Bytes>)
    ensures LastValue([p] + pairs, k, before) == LastValue(pairs, k, if p.0 == k then Some(p.1) else before)
  {
    var all := [p] + pairs;
    if pairs != [] {
      LastValueCons(p, pairs[..|pairs| - 1], k, before);
      assert all[..|all| - 1] == [p] + pairs[..|pairs| - 1];
    }
  }

  /** The last of several values of a name wins. */
  lemma {:induction false} LastWins(m: Params, pairs: seq<Pair>, k: Bytes)
    requires Sorted(m)
    ensures Lookup(InsertAll(m, pairs), k) == LastValue(pairs, k, Lookup(m, k)) && Sorted(InsertAll(m, pairs))
    decreases |pairs|
  {
    hide Sorted, Insert, Lookup;
    if pairs != [] {
      var p := pairs[0];
      InsertNames(m, p.0, p.1);
      LookupInsert(m, p.0, p.1, k);
      LastWins(Insert(m, p.0, p.1), pairs[1..], k);
      LastValueCons(p, pairs[1..], k, Lookup(m, k));
      assert pairs == [p] + pairs[1..];
    }
  }

  // ----- splitting and joining -----

  predicate IsSpace(c: Byte) { c == ' ' || 9 <= c as int <= 13 }

  function TrimLeft(t: Bytes): Bytes { if t != [] && IsSpace(t[0]) then TrimLeft(t[1..]) else t }

  function TrimRight(t: Bytes): Bytes
  {
    if t != [] && IsSpace(t[|t| - 1]) then TrimRight(t[..|t| - 1]) else t
  }

  /** boost::trim */
  function Trim(t: Bytes): Bytes { TrimRight(TrimLeft(t)) }

  function PairOf(kv: Bytes): Pair
  {
    var j := First(kv, '=');
    if j == |kv| then (Trim(kv), []) else (Trim(kv[..j]), Trim(kv[j + 1..]))
  }

  /** The pairs that splitNameValue reports, in order. */
  function Pairs(q: Bytes): seq<Pair>
    decreases |q|
  {
    if q == [] then []
    else
      var i := First(q, '&');
      var rest := if i < |q| then Pairs(q[i + 1..]) else [];
      if i == 0 then rest else [PairOf(q[..i])] + rest
  }

  lemma {:induction false} TrimLeftIs(t: Bytes) returns (a: Bytes)
    ensures t == a + TrimLeft(t) && (forall c | c in a :: IsSpace(c))
    ensures TrimLeft(t) != [] ==> !IsSpace(TrimLeft(t)[0])
  {
    a := [];
    if t != [] && IsSpace(t[0]) {
      a := TrimLeftIs(t[1..]);
      a := [t[0]] + a;
    }
  }

  lemma {:induction false} TrimRightIs(t: Bytes) returns (b: Bytes)
    ensures t == TrimRight(t) + b && (forall c | c in b :: IsSpace(c))
    ensures TrimRight(t) != [] ==> !IsSpace(TrimRight(t)[|TrimRight(t)| - 1])
  {
    b := [];
    if t != [] && IsSpace(t[|t| - 1]) {
      b := TrimRightIs(t[..|t| - 1]);
      b := b + [t[|t| - 1]];
    }
  }

  /** Trimming takes away exactly the white space at both ends. */
  lemma TrimExact(t: Bytes) returns (a: Bytes, b: Bytes)
    ensures t == a + Trim(t) + b && (forall c | c in a + b :: IsSpace(c))
    ensures Trim(t) != [] ==> !IsSpace(Trim(t)[0]) && !IsSpace(Trim(t)[|Trim(t)| - 1])
  {
    hide IsSpace, TrimLeft, TrimRight;
    a := TrimLeftIs(t);
    b := TrimRightIs(TrimLeft(t));
  }

  /** The text before the first '=' is the name and that after it the value; without '=' all is the name. */
  lemma PairSplit(name: Bytes, value: Bytes)
    requires '=' !in name
    ensures PairOf(name) == (Trim(name), []) && PairOf(name + ['='] + value) == (Trim(name), Trim(value))
  {
    hide Trim, First;
    var kv := name + ['='] + value;
    assert name[..|name|] == name && kv[..|name|] == name && kv[|name| + 1..] == value;
    FirstIs(name, '=', |name|);
    FirstIs(kv, '=', |name|);
  }

  /** The pairs of the texts that are not empty. */
  function PairsOf(parts: seq<Bytes>): seq<Pair>
  {
    if parts == [] then [] else (if parts[0] == [] then [] else [PairOf(parts[0])]) + PairsOf(parts[1..])
  }

  /** A query is split at '&' and nowhere else, and texts that are empty are left out. */
  lemma {:induction false} PairsExact(parts: seq<Bytes>)
    requires parts != [] && Apart(parts, '&')
    ensures Pairs(Glue(parts, '&')) == PairsOf(parts)
    decreases |parts|
  {
    hide PairOf, First;
    var one, q := parts[0], Glue(parts, '&');
    if |parts| == 1 {
      assert one[..|one|] == one;
      FirstIs(one, '&', |one|);
    } else {
      var rest := Glue(parts[1..], '&');
      PairsExact(parts[1..]);
      assert q == one + ['&'] + rest && q[..|one|] == one && q[|one| + 1..] == rest;
      FirstIs(q, '&', |one|);
    }
  }

  /** A fresh parse of a query string; the last of several values of a name wins. */
  function ParamsOf(q: Bytes): Params { InsertAll([], Pairs(q)) }

  function PrintPair(p: Pair): Bytes { p.0 + ['='] + p.1 }

  function CreateQueryString(m: Params): Bytes
  {
    if m == [] then []
    else if |m| == 1 then PrintPair(m[0])
    else PrintPair(m[0]) + ['&'] + CreateQueryString(m[1..])
  }

  /** Text that a query may hold: no controls, no space and no '#'. */
  predicate Clean(t: Bytes) { forall i | 0 <= i < |t| :: t[i] as int > 0x20 && t[i] as int != 0x7f && t[i] != '#' }

  predicate GoodPair(p: Pair)
  {
    Clean(p.0) && Clean(p.1) && '&' !in p.0 && '=' !in p.0 && '&' !in p.1
  }

  predicate GoodParams(m: Params) { Sorted(m) && forall i | 0 <= i < |m| :: GoodPair(m[i]) }

  lemma CleanTrim(t: Bytes)
    requires Clean(t)
    ensures Trim(t) == t
  {
  }

  lemma PairPrinted(p: Pair)
    requires GoodPair(p)
    ensures var t := PrintPair(p); t != [] && '&' !in t && PairOf(t) == p && Clean(t)
  {
    var t := PrintPair(p);
    assert t[..|p.0|] == p.0 && t[|p.0| + 1..] == p.1;
    FirstIs(t, '=', |p.0|);
    CleanTrim(p.0);
    CleanTrim(p.1);
  }

  lemma PairsCons(one: Bytes, rest: Bytes)
    requires one != [] && '&' !in one
    ensures Pairs(one) == [PairOf(one)] && Pairs(one + ['&'] + rest) == [PairOf(one)] + Pairs(rest)
  {
    hide PairOf, First;
    assert one[..|one|] == one;
    FirstIs(one, '&', |one|);
    var q := one + ['&'] + rest;
    assert q[..|one|] == one && q[|one| + 1..] == rest;
    FirstIs(q, '&', |one|);
  }

  lemma {:induction false} PairsPrinted(m: Params)
    requires forall i | 0 <= i < |m| :: GoodPair(m[i])
    ensures Pairs(CreateQueryString(m)) == m && Clean(CreateQueryString(m))
    ensures CreateQueryString(m) == [] <==> m == []
    decreases |m|
  {
    hide GoodPair, PairOf, PrintPair, First, Pairs;
    if m == [] {
      assert Pairs([]) == [] by { PairsNothing(); }
    } else {
      PairPrinted(m[0]);
      PairsCons(PrintPair(m[0]), CreateQueryString(m[1..]));
      if |m| > 1 {
        PairsPrinted(m[1..]);
        assert m == [m[0]] + m[1..];
      }
    }
  }

  lemma PairsNothing()
    ensures Pairs([]) == []
  {
  }

  /** The round trip: a fresh parse of a printed map gives the map. */
  lemma QueryRoundTrip(m: Params)
    requires GoodParams(m)
    ensures ParamsOf(CreateQueryString(m)) == m && Clean(CreateQueryString(m))
    ensures CreateQueryString(m) == [] <==> m == []
  {
    hide GoodPair;
    PairsPrinted(m);
    assert [] + m == m;
    InsertSorted([], m);
  }

  /** Every pair that is read from clean text is good. */
  lemma {:induction false} PairsGood(q: Bytes)
    requires Clean(q)
    ensures forall i | 0 <= i < |Pairs(q)| :: GoodPair(Pairs(q)[i])
    decreases |q|
  {
    if q != [] {
      var i := First(q, '&');
      if i < |q| {
        PairsGood(q[i + 1..]);
      }
      OnePairGood(q[..i]);
    }
  }

  lemma OnePairGood(kv: Bytes)
    requires Clean(kv) && '&' !in kv
    ensures GoodPair(PairOf(kv))
  {
    var j := First(kv, '=');
    assert forall k | 0 <= k < j :: kv[k] in kv[..j];
    CleanTrim(kv);
    CleanTrim(kv[..j]);
    if j < |kv| {
      CleanTrim(kv[j + 1..]);
    }
  }

  lemma {:induction false} InsertAllGood(m: Params, pairs: seq<Pair>)
    requires GoodParams(m) && forall i | 0 <= i < |pairs| :: GoodPair(pairs[i])
    ensures GoodParams(InsertAll(m, pairs))
    decreases |pairs|
  {
    hide GoodPair;
    if pairs != [] {
      InsertNames(m, pairs[0].0, pairs[0].1);
      assert pairs[0] == (pairs[0].0, pairs[0].1);
      InsertAllGood(Insert(m, pairs[0].0, pairs[0].1), pairs[1..]);
    }
  }

  /** A fresh parse of clean text is a map that prints and parses back to itself. */
  lemma ParamsGood(q: Bytes)
    requires Clean(q)
    ensures GoodParams(ParamsOf(q))
  {
    hide GoodPair;
    PairsGood(q);
    InsertAllGood([], Pairs(q));
  }
}
