/** The fields of an accepted URL tile it: in order, without overlap, and with only delimiters in between. */
module UrlTiling {
  import opened HttpTypes
  import opened UrlOuter
  import opened UrlHost
  import opened UrlParser

  /** The order of the fields in a URL. */
  function Order(f: Field): nat
  {
    match f
    case Schema => 0
    case Userinfo => 1
    case Host => 2
    case Port => 3
    case Path => 4
    case Query => 5
    case Fragment => 6
  }

  function TextIn(o: Outer, n: Inner, f: Field): Bytes
  {
    match f
    case Schema => o.scheme
    case Userinfo => n.userinfo
    case Host => n.host
    case Port => n.port
    case Path => o.path
    case Query => o.query
    case Fragment => o.fragment
  }

  function Offset(o: Outer, n: Inner, f: Field): int
  {
    match f
    case Schema => 0
    case Userinfo => ServerAt(o)
    case Host => ServerAt(o) + |HostFront(n)|
    case Port => ServerAt(o) + |RenderHost(n)| - |n.port|
    case Path => PathAt(o)
    case Query => QueryAt(o)
    case Fragment => FragmentAt(o)
  }

  predicate IsDelimiter(c: Byte)
  {
    c == ':' || c == '/' || c == '@' || c == '[' || c == ']' || c == '?' || c == '#'
  }

  predicate Inside(i: nat, s: Span) { s.off <= i < s.off + s.len }

  predicate Tiles(buf: Bytes, m: Spans, text: Field -> Bytes)
  {
    && (forall f | f in m :: m[f].len > 0 && m[f].off + m[f].len <= |buf|
                             && buf[m[f].off..m[f].off + m[f].len] == text(f))
    && (forall f, g | f in m && g in m && Order(f) < Order(g) :: m[f].off + m[f].len <= m[g].off)
    && (forall i | 0 <= i < |buf| && (forall f | f in m :: !Inside(i, m[f])) :: IsDelimiter(buf[i]))
  }

  lemma FieldPlace(o: Outer, n: Inner, f: Field)
    requires if HasServer(o) then n.host != [] && RenderHost(n) == o.server else n == NOTHING
    ensures var m := Fields(o, n);
            && (f in m <==> TextIn(o, n, f) != [])
            && (f in m ==> m[f].off == Offset(o, n, f) && m[f].len == |TextIn(o, n, f)|)
  {
    hide RenderHost, HostFront;
  }

  lemma HostSlices(n: Inner)
    ensures |RenderHost(n)| == |HostFront(n)| + |n.host| + |HostBack(n)|
    ensures |n.userinfo| <= |HostFront(n)| && RenderHost(n)[..|n.userinfo|] == n.userinfo
    ensures RenderHost(n)[|HostFront(n)|..|HostFront(n)| + |n.host|] == n.host
    ensures |HostBack(n)| >= |n.port| && RenderHost(n)[|RenderHost(n)| - |n.port|..] == n.port
    ensures forall i | |n.userinfo| <= i < |HostFront(n)| :: IsDelimiter(RenderHost(n)[i])
    ensures forall i | |HostFront(n)| + |n.host| <= i < |RenderHost(n)| - |n.port| :: IsDelimiter(RenderHost(n)[i])
  {
  }

  lemma OuterSlices(o: Outer)
    requires o.delim <= 3 && (!o.mark ==> o.query == [])
    ensures var buf := Render(o);
            && |buf| == FragmentAt(o) + |o.fragment|
            && buf[..|o.scheme|] == o.scheme
            && buf[ServerAt(o)..PathAt(o)] == o.server
            && buf[PathAt(o)..PathAt(o) + |o.path|] == o.path
            && (o.mark ==> buf[QueryAt(o)..QueryAt(o) + |o.query|] == o.query && buf[QueryAt(o) - 1] == '?')
            && buf[FragmentAt(o)..] == o.fragment
  {
    var front, back := Front(o), QueryPart(o) + Hashes(o.hashes) + o.fragment;
    assert Render(o) == front + back;
    assert front[..|o.scheme|] == o.scheme;
    assert front[ServerAt(o)..PathAt(o)] == o.server;
    assert front[PathAt(o)..] == o.path;
    assert o.mark ==> back[1..1 + |o.query|] == o.query && back[0] == '?';
  }

  /** The bytes of "://" and the bytes '#'. */
  lemma OuterMarks(o: Outer, i: nat)
    requires o.delim <= 3
    requires |o.scheme| <= i < ServerAt(o) || FragmentAt(o) - o.hashes <= i < FragmentAt(o)
    ensures i < |Render(o)| && IsDelimiter(Render(o)[i])
  {
    if i < ServerAt(o) {
      assert Front(o)[i] == DELIM[i - |o.scheme|];
    } else {
      assert Render(o)[i] == Hashes(o.hashes)[i - FragmentAt(o) + o.hashes];
    }
  }

  /** Where the pieces of the server are in the URL. */
  lemma ServerSlice(buf: Bytes, at: nat, server: Bytes, i: nat, j: nat)
    requires at + |server| <= |buf| && buf[at..at + |server|] == server && i <= j <= |server|
    ensures buf[at + i..at + j] == server[i..j]
  {
    var x, y := buf[at + i..at + j], server[i..j];
    forall k | 0 <= k < |x|
      ensures x[k] == y[k]
    {
      assert buf[at..at + |server|][i + k] == buf[at + (i + k)];
    }
  }

  lemma LegalBasics(buf: Bytes, connect: bool, mode: Mode, o: Outer, n: Inner)
    requires Described(buf, connect, mode, o, n)
    ensures o.delim <= 3 && (!o.mark ==> o.query == []) && Render(o) == buf
    ensures HasServer(o) ==> RenderHost(n) == o.server && n.host != []
    ensures !HasServer(o) ==> n == NOTHING && RenderHost(n) == []
  {
  }

  lemma ServerTextThere(buf: Bytes, at: nat, n: Inner)
    requires at + |RenderHost(n)| <= |buf| && buf[at..at + |RenderHost(n)|] == RenderHost(n)
    ensures |n.userinfo| <= |RenderHost(n)| && buf[at..at + |n.userinfo|] == n.userinfo
    ensures var i := |HostFront(n)|; i + |n.host| <= |RenderHost(n)| && buf[at + i..at + i + |n.host|] == n.host
    ensures var i := |RenderHost(n)| - |n.port|; i >= 0 && buf[at + i..at + i + |n.port|] == n.port
  {
    hide RenderHost, HostFront, HostBack, IsDelimiter;
    HostSlices(n);
    var server := RenderHost(n);
    ServerSlice(buf, at, server, 0, |n.userinfo|);
    ServerSlice(buf, at, server, |HostFront(n)|, |HostFront(n)| + |n.host|);
    ServerSlice(buf, at, server, |server| - |n.port|, |server|);
  }

  predicate InServer(f: Field) { f.Userinfo? || f.Host? || f.Port? }

  lemma ServerFieldThere(buf: Bytes, connect: bool, mode: Mode, o: Outer, n: Inner, f: Field)
    requires Described(buf, connect, mode, o, n) && TextIn(o, n, f) != [] && InServer(f)
    ensures 0 <= Offset(o, n, f) && Offset(o, n, f) + |TextIn(o, n, f)| <= |buf|
    ensures buf[Offset(o, n, f)..Offset(o, n, f) + |TextIn(o, n, f)|] == TextIn(o, n, f)
  {
    hide Described, Render, RenderHost, HostFront, HostBack;
    LegalBasics(buf, connect, mode, o, n);
    OuterSlices(o);
    ServerTextThere(buf, ServerAt(o), n);
  }

  lemma OuterFieldThere(buf: Bytes, connect: bool, mode: Mode, o: Outer, n: Inner, f: Field)
    requires Described(buf, connect, mode, o, n) && TextIn(o, n, f) != [] && !InServer(f)
    ensures 0 <= Offset(o, n, f) && Offset(o, n, f) + |TextIn(o, n, f)| <= |buf|
    ensures buf[Offset(o, n, f)..Offset(o, n, f) + |TextIn(o, n, f)|] == TextIn(o, n, f)
  {
    hide Described, Render, RenderHost, HostFront, HostBack;
    LegalBasics(buf, connect, mode, o, n);
    OuterSlices(o);
  }

  lemma TextThere(buf: Bytes, connect: bool, mode: Mode, o: Outer, n: Inner, f: Field)
    requires Described(buf, connect, mode, o, n) && TextIn(o, n, f) != []
    ensures 0 <= Offset(o, n, f) && Offset(o, n, f) + |TextIn(o, n, f)| <= |buf|
    ensures buf[Offset(o, n, f)..Offset(o, n, f) + |TextIn(o, n, f)|] == TextIn(o, n, f)
  {
    hide Described, Offset, TextIn;
    if InServer(f) {
      ServerFieldThere(buf, connect, mode, o, n, f);
    } else {
      OuterFieldThere(buf, connect, mode, o, n, f);
    }
  }

  lemma InOrder(buf: Bytes, connect: bool, mode: Mode, o: Outer, n: Inner, f: Field, g: Field)
    requires Described(buf, connect, mode, o, n)
             && TextIn(o, n, f) != [] && TextIn(o, n, g) != [] && Order(f) < Order(g)
    ensures Offset(o, n, f) + |TextIn(o, n, f)| <= Offset(o, n, g)
  {
    hide Described, Render, RenderHost, HostBack, IsDelimiter;
    LegalBasics(buf, connect, mode, o, n);
    HostSlices(n);
  }

  /** The byte is part of some field. */
  predicate Covers(o: Outer, n: Inner, i: nat, f: Field)
  {
    Offset(o, n, f) <= i < Offset(o, n, f) + |TextIn(o, n, f)|
  }

  /** A byte of the server. */
  lemma ServerByte(n: Inner, i: nat)
    requires i < |RenderHost(n)|
    ensures i < |n.userinfo| || |HostFront(n)| <= i < |HostFront(n)| + |n.host| || |RenderHost(n)| - |n.port| <= i
            || IsDelimiter(RenderHost(n)[i])
  {
    HostSlices(n);
  }

  /** A byte outside of the outer parts. */
  lemma OuterByte(o: Outer, i: nat)
    requires o.delim <= 3 && (!o.mark ==> o.query == []) && i < |Render(o)|
    requires |o.scheme| <= i && !(ServerAt(o) <= i < PathAt(o) + |o.path|) && i < FragmentAt(o)
    requires !(QueryAt(o) <= i < QueryAt(o) + |o.query|)
    ensures IsDelimiter(Render(o)[i])
  {
    hide Render;
    if i < ServerAt(o) || FragmentAt(o) - o.hashes <= i {
      OuterMarks(o, i);
    } else {
      OuterSlices(o);
    }
  }

  lemma Between(buf: Bytes, connect: bool, mode: Mode, o: Outer, n: Inner, i: nat)
    requires Described(buf, connect, mode, o, n) && i < |buf| && forall f: Field :: !Covers(o, n, i, f)
    ensures IsDelimiter(buf[i])
  {
    hide Described, Render, RenderHost, HostFront, HostBack;
    assert !Covers(o, n, i, Schema) && !Covers(o, n, i, Path) && !Covers(o, n, i, Query) && !Covers(o, n, i, Fragment);
    assert !Covers(o, n, i, Userinfo) && !Covers(o, n, i, Host) && !Covers(o, n, i, Port);
    LegalBasics(buf, connect, mode, o, n);
    if ServerAt(o) <= i < PathAt(o) {
      ServerIn(o);
      assert buf[i] == buf[ServerAt(o)..PathAt(o)][i - ServerAt(o)];
      ServerByte(n, i - ServerAt(o));
    } else {
      RenderLength(o);
      OuterByte(o, i);
    }
  }

  /** The fields of a URL hold its parts, in order, and every byte outside of them is a delimiter. */
  lemma FieldsTile(buf: Bytes, connect: bool, mode: Mode, o: Outer, n: Inner)
    requires Accepted(buf, connect, mode, o, n)
    ensures Tiles(buf, Fields(o, n), f => TextIn(o, n, f))
    ensures o.scheme != [] ==> Host in Fields(o, n)
  {
    var m := Fields(o, n);
    hide Legal, LegalHost, Render, RenderHost, Fields, Offset;
    forall f: Field
      ensures f in m <==> TextIn(o, n, f) != []
      ensures f in m ==> m[f].off == Offset(o, n, f) && m[f].len == |TextIn(o, n, f)|
      ensures f in m ==> m[f].off + m[f].len <= |buf| && buf[m[f].off..m[f].off + m[f].len] == TextIn(o, n, f)
    {
      FieldPlace(o, n, f);
      if f in m {
        TextThere(buf, connect, mode, o, n, f);
      }
    }
    forall f, g | f in m && g in m && Order(f) < Order(g)
      ensures m[f].off + m[f].len <= m[g].off
    {
      InOrder(buf, connect, mode, o, n, f, g);
    }
    forall i | 0 <= i < |buf| && (forall f | f in m :: !Inside(i, m[f]))
      ensures IsDelimiter(buf[i])
    {
      forall f: Field
        ensures !Covers(o, n, i, f)
      {
        if TextIn(o, n, f) != [] {
          assert !Inside(i, m[f]);
        }
      }
      Between(buf, connect, mode, o, n, i);
    }
  }
}
