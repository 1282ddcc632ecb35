/** What stripping per-hop headers means (section 6.1 of RFC 7230, section 13.5.1 of RFC 2616). */
module HeaderStrip {
  import opened HttpTypes
  import opened HeaderList

  // ----- the tokens of a Connection value -----

  /** The value as a C string. */
  function UpToNul(v: Bytes): Bytes { v[..First(v, '\0')] }

  function SkipLws(t: Bytes): (r: Bytes)
    ensures |r| <= |t| && (r != [] ==> !IsLws(r[0]))
  {
    if t != [] && IsLws(t[0]) then SkipLws(t[1..]) else t
  }

  /** The bytes before the first white space. */
  function Word(t: Bytes): Bytes
  {
    if t == [] || IsLws(t[0]) then [] else [t[0]] + Word(t[1..])
  }

  /** Tokens are separated by commas; of the text after the last comma only the first word counts. */
  function Tokens(t: Bytes): seq<Bytes>
    decreases |t|
  {
    var s := SkipLws(t);
    if s == [] then []
    else
      var i := First(s, ',');
      if i == |s| then [Word(s)]
      else
        var tok := RTrim(s[..i]);
        (if tok == [] then [] else [tok]) + Tokens(s[i + 1..])
  }

  /** The tokens of all headers with the name `conn`, in order. */
  function AllTokens(live: seq<Header>, conn: Bytes): seq<Bytes>
  {
    if live == [] then []
    else
      var last := live[|live| - 1];
      AllTokens(live[..|live| - 1], conn) + if Fold(last.name) == conn then Tokens(UpToNul(last.value)) else []
  }

  lemma TokensMore(live: seq<Header>, h: Header, conn: Bytes)
    ensures AllTokens(live + [h], conn)
            == AllTokens(live, conn) + if Fold(h.name) == conn then Tokens(UpToNul(h.value)) else []
  {
    assert (live + [h])[..|live|] == live;
  }

  // ----- what the tokens are -----

  predicate AllLws(t: Bytes) { forall i | 0 <= i < |t| :: IsLws(t[i]) }

  /** A text without the white space around it. */
  function Bare(t: Bytes): Bytes { RTrim(SkipLws(t)) }

  lemma {:induction false} SkipBlank(a: Bytes, t: Bytes)
    requires AllLws(a)
    ensures SkipLws(a + t) == SkipLws(t)
    decreases |a|
  {
    if a == [] {
      assert a + t == t;
    } else {
      assert (a + t)[1..] == a[1..] + t;
      SkipBlank(a[1..], t);
    }
  }

  lemma {:induction false} SkipIs(t: Bytes) returns (a: Bytes)
    ensures AllLws(a) && t == a + SkipLws(t)
  {
    a := [];
    if t != [] && IsLws(t[0]) {
      a := SkipIs(t[1..]);
      a := [t[0]] + a;
    }
  }

  /** White space around a text is taken away exactly, and no more than that. */
  lemma BareExact(a: Bytes, t: Bytes, b: Bytes)
    requires AllLws(a) && AllLws(b) && (t != [] ==> !IsLws(t[0]) && !IsLws(t[|t| - 1]))
    ensures Bare(a + t + b) == t
  {
    hide IsLws, SkipLws, RTrim;
    assert a + t + b == a + (t + b);
    SkipBlank(a, t + b);
    SkipStays(t, b);
    TrimBlank(t, b);
  }

  lemma SkipStays(t: Bytes, b: Bytes)
    requires AllLws(b) && (t != [] ==> !IsLws(t[0]))
    ensures SkipLws(t + b) == if t == [] then [] else t + b
  {
    hide IsLws;
    if t == [] {
      SkipBlank(b, []);
      assert b + [] == b == t + b;
    }
  }

  lemma TrimBlank(t: Bytes, b: Bytes)
    requires AllLws(b) && Trimmed(t)
    ensures RTrim(t + b) == t && RTrim([]) == []
  {
    hide RTrim;
    var r := RTrim(t + b);
    assert r <= t + b;
    assert forall i | 0 <= i < |b| :: (t + b)[|t| + i] == b[i];
    assert |r| <= |t|;
    assert t != [] ==> (t + b)[|t| - 1] == t[|t| - 1];
    assert r == (t + b)[..|t|] == t;
  }

  /** The first word of a text: up to the next white space. */
  lemma {:induction false} WordExact(w: Bytes, rest: Bytes)
    requires (forall i | 0 <= i < |w| :: !IsLws(w[i])) && (rest != [] ==> IsLws(rest[0]))
    ensures Word(w + rest) == w
    decreases |w|
  {
    if w == [] {
      assert w + rest == rest;
    } else {
      assert (w + rest)[1..] == w[1..] + rest;
      WordExact(w[1..], rest);
    }
  }

  function NonEmpty(t: Bytes): seq<Bytes> { if t == [] then [] else [t] }

  /** Each text but the last counts as a whole, and of the last one the first word; empty ones do not count. */
  function TokensOf(parts: seq<Bytes>): seq<Bytes>
    requires parts != []
  {
    if |parts| == 1 then NonEmpty(Word(SkipLws(parts[0]))) else NonEmpty(Bare(parts[0])) + TokensOf(parts[1..])
  }

  lemma SkipHead(one: Bytes, rest: Bytes)
    requires rest != [] && !IsLws(rest[0])
    ensures SkipLws(one + rest) == SkipLws(one) + rest
  {
    hide IsLws;
    var a := SkipIs(one);
    var s := SkipLws(one);
    assert one + rest == a + (s + rest);
    SkipBlank(a, s + rest);
    assert s + rest != [] && (s + rest)[0] == if s == [] then rest[0] else s[0];
  }

  lemma LastToken(one: Bytes)
    requires ',' !in one
    ensures Tokens(one) == NonEmpty(Word(SkipLws(one)))
  {
    hide IsLws, First;
    var a := SkipIs(one);
    var s := SkipLws(one);
    assert forall c | c in s :: c in one;
    assert s[..|s|] == s;
    FirstIs(s, ',', |s|);
  }

  lemma NextTokens(one: Bytes, rest: Bytes)
    requires ',' !in one
    ensures Tokens(one + [','] + rest) == NonEmpty(Bare(one)) + Tokens(rest)
  {
    hide First, RTrim, SkipLws;
    var a := SkipIs(one);
    var s := SkipLws(one);
    assert forall c | c in s :: c in one;
    assert one + [','] + rest == one + ([','] + rest);
    SkipHead(one, [','] + rest);
    var u := s + ([','] + rest);
    assert u[..|s|] == s && u[|s| + 1..] == rest;
    FirstIs(u, ',', |s|);
  }

  /** The exact law: a value is split at its commas. */
  lemma {:induction false} TokensExact(parts: seq<Bytes>)
    requires parts != [] && Apart(parts, ',')
    ensures Tokens(Glue(parts, ',')) == TokensOf(parts)
    decreases |parts|
  {
    hide Tokens, Bare, Word, SkipLws;
    if |parts| == 1 {
      LastToken(parts[0]);
    } else {
      TokensExact(parts[1..]);
      NextTokens(parts[0], Glue(parts[1..], ','));
    }
  }

  /** A word that can name a header, with white space around it. */
  datatype Spaced = Spaced(before: Bytes, word: Bytes, behind: Bytes)

  predicate PlainWord(w: Bytes) { w != [] && forall i | 0 <= i < |w| :: w[i] != ',' && !IsLws(w[i]) && w[i] != '\0' }

  predicate ProperSpaced(x: Spaced) { AllLws(x.before) && PlainWord(x.word) && AllLws(x.behind) }

  function SpacedText(x: Spaced): Bytes { x.before + x.word + x.behind }

  function Texts(xs: seq<Spaced>): (r: seq<Bytes>)
    ensures |r| == |xs|
  {
    if xs == [] then [] else [SpacedText(xs[0])] + Texts(xs[1..])
  }

  function Words(xs: seq<Spaced>): (r: seq<Bytes>)
    ensures |r| == |xs| && forall i | 0 <= i < |r| :: r[i] == xs[i].word
  {
    seq(|xs|, i requires 0 <= i < |xs| => xs[i].word)
  }

  lemma SpacedIs(x: Spaced)
    requires ProperSpaced(x)
    ensures ',' !in SpacedText(x) && '\0' !in SpacedText(x)
    ensures Bare(SpacedText(x)) == x.word && Word(SkipLws(SpacedText(x))) == x.word
  {
    hide Bare, SkipLws, Word;
    BareExact(x.before, x.word, x.behind);
    assert SpacedText(x) == x.before + (x.word + x.behind);
    SkipBlank(x.before, x.word + x.behind);
    SkipStays(x.word, x.behind);
    WordExact(x.word, x.behind);
  }

  lemma {:induction false} TextsApart(xs: seq<Spaced>)
    requires xs != [] && forall i | 0 <= i < |xs| :: ProperSpaced(xs[i])
    ensures Apart(Texts(xs), ',') && '\0' !in Glue(Texts(xs), ',') && TokensOf(Texts(xs)) == Words(xs)
    decreases |xs|
  {
    hide Bare, SkipLws, Word, ProperSpaced, SpacedText;
    SpacedIs(xs[0]);
    assert xs[0].word != [] by { WordThere(xs[0]); }
    if |xs| == 1 {
      assert Texts(xs) == [SpacedText(xs[0])] + Texts(xs[1..]) == [SpacedText(xs[0])];
    } else {
      TextsApart(xs[1..]);
      assert Texts(xs)[1..] == Texts(xs[1..]);
      assert Words(xs) == [xs[0].word] + Words(xs[1..]);
    }
  }

  lemma WordThere(x: Spaced)
    requires ProperSpaced(x)
    ensures x.word != []
  {
  }

  /** The round trip: words joined by commas, with any white space around them, are the tokens of the value. */
  lemma TokensRoundTrip(xs: seq<Spaced>, junk: Bytes)
    requires xs != [] && forall i | 0 <= i < |xs| :: ProperSpaced(xs[i])
    requires junk != [] ==> junk[0] == '\0'
    ensures Tokens(UpToNul(Glue(Texts(xs), ',') + junk)) == Words(xs)
  {
    hide ProperSpaced, First, Tokens, TokensOf;
    TextsApart(xs);
    TokensExact(Texts(xs));
    var t := Glue(Texts(xs), ',');
    assert (t + junk)[..|t|] == t;
    FirstIs(t + junk, '\0', |t|);
  }

  /** The tokens of a list are those of its Connection headers. */
  lemma {:induction false} AllTokensIs(live: seq<Header>, conn: Bytes, token: Bytes)
    ensures token in AllTokens(live, conn) <==>
            exists i | 0 <= i < |live| :: Fold(live[i].name) == conn && token in Tokens(UpToNul(live[i].value))
    decreases |live|
  {
    hide Tokens, UpToNul;
    if live != [] {
      var front, last := live[..|live| - 1], live[|live| - 1];
      AllTokensIs(front, conn, token);
      assert forall i | 0 <= i < |front| :: front[i] == live[i];
      if Fold(last.name) == conn && token in Tokens(UpToNul(last.value)) {
        assert Fold(live[|live| - 1].name) == conn;
      }
    }
  }

  // ----- stripping -----

  /** Two lists of headers: those that stay and those that were stripped. */
  type Both = (seq<Header>, seq<Header>)

  function Move(b: Both, p: Header -> bool): Both { (Select(b.0, Not(p)), b.1 + Select(b.0, p)) }

  function MoveNamed(b: Both, tokens: seq<Bytes>): Both
    decreases |tokens|
  {
    if tokens == [] then b else MoveNamed(Move(b, WithName(Fold(tokens[0]))), tokens[1..])
  }

  lemma {:induction false} MoveNamedConcat(b: Both, x: seq<Bytes>, y: seq<Bytes>)
    ensures MoveNamed(b, x + y) == MoveNamed(MoveNamed(b, x), y)
    decreases |x|
  {
    hide Move;
    if x == [] {
      assert x + y == y;
    } else {
      assert (x + y)[1..] == x[1..] + y;
      MoveNamedConcat(Move(b, WithName(Fold(x[0]))), x[1..], y);
    }
  }

  /** The headers named by a Connection header, then the per-hop headers. */
  function Strip(b: Both, conn: Bytes, perHop: Header -> bool): Both
  {
    Move(MoveNamed(b, AllTokens(b.0, conn)), perHop)
  }

  predicate Names(tokens: seq<Bytes>, name: Bytes) { exists i | 0 <= i < |tokens| :: Fold(tokens[i]) == name }

  function Unnamed(tokens: seq<Bytes>): Header -> bool { (h: Header) => !Names(tokens, Fold(h.name)) }

  /** What moves is what leaves: nothing is lost, nothing is made up, and what stays keeps its order. */
  predicate Partition(b: Both, r: Both, stays: Header -> bool)
  {
    && r.0 == Select(b.0, stays)
    && b.1 <= r.1
    && multiset(r.0) + multiset(r.1[|b.1|..]) == multiset(b.0)
  }

  lemma MoveIsPartition(b: Both, p: Header -> bool)
    ensures Partition(b, Move(b, p), Not(p))
  {
    SelectSplits(b.0, p);
    assert Move(b, p).1[|b.1|..] == Select(b.0, p);
  }

  lemma PartitionTrans(a: Both, b: Both, c: Both, p: Header -> bool, q: Header -> bool, both: Header -> bool)
    requires Partition(a, b, p) && Partition(b, c, q) && forall h :: both(h) == (p(h) && q(h))
    ensures Partition(a, c, both)
  {
    hide Select;
    SelectTwice(a.0, p, q, both);
    assert c.1[|a.1|..] == b.1[|a.1|..] + c.1[|b.1|..];
  }

  lemma {:induction false} MoveNamedIsPartition(b: Both, tokens: seq<Bytes>)
    ensures Partition(b, MoveNamed(b, tokens), Unnamed(tokens))
    decreases |tokens|
  {
    hide Move, Partition;
    if tokens == [] {
      NothingMoves(b, Unnamed(tokens));
    } else {
      var p := WithName(Fold(tokens[0]));
      MoveIsPartition(b, p);
      MoveNamedIsPartition(Move(b, p), tokens[1..]);
      forall h: Header
        ensures Unnamed(tokens)(h) == (Not(p)(h) && Unnamed(tokens[1..])(h))
      {
        NamesSplit(tokens, Fold(h.name));
      }
      PartitionTrans(b, Move(b, p), MoveNamed(b, tokens), Not(p), Unnamed(tokens[1..]), Unnamed(tokens));
    }
  }

  lemma NamesSplit(tokens: seq<Bytes>, name: Bytes)
    requires tokens != []
    ensures Names(tokens, name) <==> Fold(tokens[0]) == name || Names(tokens[1..], name)
  {
    hide Fold;
    assert forall i | 0 < i < |tokens| :: tokens[i] == tokens[1..][i - 1];
    if Names(tokens[1..], name) {
      var i :| 0 <= i < |tokens[1..]| && Fold(tokens[1..][i]) == name;
      assert tokens[i + 1] == tokens[1..][i];
    }
  }

  lemma NothingMoves(b: Both, p: Header -> bool)
    requires forall h :: p(h)
    ensures Partition(b, b, p)
  {
    SelectLoses(b.0, p);
    assert b.1[|b.1|..] == [];
  }

  function Survives(tokens: seq<Bytes>, perHop: Header -> bool): Header -> bool
  {
    (h: Header) => !Names(tokens, Fold(h.name)) && !perHop(h)
  }

  /**
   * Stripping is a partition: what is left are, in their order, exactly the headers that are neither per-hop nor
   * named by a Connection header, and together with what was newly stripped they are the headers there were.
   */
  lemma StripIsPartition(b: Both, conn: Bytes, perHop: Header -> bool)
    ensures Partition(b, Strip(b, conn, perHop), Survives(AllTokens(b.0, conn), perHop))
  {
    hide Move, Partition, AllTokens, Names;
    var tokens := AllTokens(b.0, conn);
    var m := MoveNamed(b, tokens);
    MoveNamedIsPartition(b, tokens);
    MoveIsPartition(m, perHop);
    PartitionTrans(b, m, Move(m, perHop), Unnamed(tokens), Not(perHop), Survives(tokens, perHop));
  }
}
