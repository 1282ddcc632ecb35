/**
 * ParseURL.cpp and HTTPMessage::createUrl: reading a URL into scheme, authority, path, query and fragment,
 * printing them back, and exactly when that gives the URL again.
 */
module UrlText {
  import opened HttpTypes
  import opened UrlOuter
  import opened UrlHost
  import opened UrlParser
  import opened UrlTiling

  /** What a parsed URL shows to its user. */
  datatype View = View(
    scheme: Bytes, authority: Bytes, host: Bytes, port: nat, path: Bytes, query: Bytes, fragment: Bytes)

  // ----- numbers -----

  /** A number as folly::to prints it. */
  function ToDecimal(v: nat): (t: Bytes)
    ensures t != [] && AllDigits(t) && Decimal(t) == v && (v > 0 ==> t[0] != '0')
  {
    var last := (v % 10 + '0' as int) as char;
    if v < 10 then
      assert [last][..0] == [];
      [last]
    else
      var front := ToDecimal(v / 10);
      assert (front + [last])[..|front|] == front;
      front + [last]
  }

  /** Digits without leading zeros are what a number is printed as. */
  lemma {:induction false} CanonicalDigits(t: Bytes)
    requires AllDigits(t) && t != []
    ensures t[0] != '0' ==> Decimal(t) > 0 && ToDecimal(Decimal(t)) == t
    ensures t[0] == '0' ==> Decimal(t) == 0 || |ToDecimal(Decimal(t))| < |t|
    decreases |t|
  {
    var front, last := t[..|t| - 1], t[|t| - 1];
    assert t == front + [last];
    if front != [] {
      CanonicalDigits(front);
      var v := Decimal(front);
      assert Decimal(t) == 10 * v + Digit(last);
      assert Decimal(t) / 10 == v && Decimal(t) % 10 == Digit(last);
      if Decimal(t) < 10 && Decimal(t) > 0 {
        assert |ToDecimal(Decimal(t))| == 1;
      }
    } else {
      assert Decimal(front) == 0;
    }
  }

  // ----- printing -----

  function CreateUrl(scheme: Bytes, authority: Bytes, path: Bytes, query: Bytes, fragment: Bytes): Bytes
  {
    (if scheme == [] then [] else scheme + DELIM) + authority + path
    + (if query == [] then [] else ['?'] + query)
    + (if fragment == [] then [] else ['#'] + fragment)
  }

  function Print(v: View): Bytes { CreateUrl(v.scheme, v.authority, v.path, v.query, v.fragment) }

  // ----- URLs with a scheme -----

  /** The host as it is shown: with its brackets. */
  function ShownHost(n: Inner): Bytes { if n.brackets > 0 then ['['] + n.host + [']'] else n.host }

  /** The authority as it is shown: without userinfo, and with the port only if it is not zero. */
  function ShownAuthority(host: Bytes, port: nat): Bytes
  {
    if port == 0 then host else host + [':'] + ToDecimal(port)
  }

  function Slice(url: Bytes, s: Span): Bytes
  {
    if s.off + s.len <= |url| then url[s.off..s.off + s.len] else []
  }

  /** The host field, with the bracket before it and the byte after it if it is in brackets. */
  function HostSlice(url: Bytes, h: Span): Bytes
  {
    if 0 < h.off <= |url| && url[h.off - 1] == '[' then Slice(url, Span(h.off - 1, h.len + 2)) else Slice(url, h)
  }

  /** How `parse` reads the fields of the struct. */
  function ViewOf(url: Bytes, m: Spans, port: nat): View
  {
    var host := HostSlice(url, SpanOf(m, Host));
    View(Slice(url, SpanOf(m, Schema)), ShownAuthority(host, port), host, port, Slice(url, SpanOf(m, Path)),
         Slice(url, SpanOf(m, Query)), Slice(url, SpanOf(m, Fragment)))
  }

  /** The same, from the parts of the URL. */
  function FullView(o: Outer, n: Inner): View
    requires AllDigits(n.port)
  {
    var host := ShownHost(n);
    View(o.scheme, ShownAuthority(host, Decimal(n.port)), host, Decimal(n.port), o.path, o.query, o.fragment)
  }

  lemma SliceIs(buf: Bytes, connect: bool, mode: Mode, o: Outer, n: Inner, f: Field)
    requires Accepted(buf, connect, mode, o, n)
    ensures Slice(buf, SpanOf(Fields(o, n), f)) == TextIn(o, n, f)
  {
    hide Legal, LegalHost, Render, RenderHost, Fields;
    FieldsTile(buf, connect, mode, o, n);
    FieldPlace(o, n, f);
  }

  /** What stands before and around the host. */
  lemma AroundHost(n: Inner, foundAt: bool)
    requires WholeHost(n, foundAt)
    ensures var t, i := RenderHost(n), |HostFront(n)|;
            && i + |n.host| <= |t| && t[i..i + |n.host|] == n.host
            && (n.brackets == 2 ==>
                  i > 0 && i + |n.host| < |t| && t[i - 1] == '[' && t[i - 1..i + |n.host| + 1] == ShownHost(n))
            && (n.brackets == 0 && i > 0 ==> t[i - 1] == '@')
            && (n.brackets == 0 || n.brackets == 2)
  {
    hide HostText, AllUserinfo, AllDigits;
    var t, i := RenderHost(n), |HostFront(n)|;
    assert t == HostFront(n) + n.host + HostBack(n);
    assert t[i..i + |n.host|] == n.host;
    if n.brackets == 2 {
      assert t[i - 1..i + |n.host| + 1] == [t[i - 1]] + t[i..i + |n.host|] + [t[i + |n.host|]];
    }
  }

  lemma SliceThere(buf: Bytes, at: nat, t: Bytes, i: nat, j: nat)
    requires at + |t| <= |buf| && buf[at..at + |t|] == t && i <= j <= |t|
    ensures Slice(buf, Span(at + i, j - i)) == t[i..j]
  {
    ServerSlice(buf, at, t, i, j);
  }

  lemma HostSliceIs(buf: Bytes, at: nat, n: Inner, foundAt: bool)
    requires WholeHost(n, foundAt) && 0 < at && at + |RenderHost(n)| <= |buf| && buf[at - 1] != '['
    requires buf[at..at + |RenderHost(n)|] == RenderHost(n)
    ensures HostSlice(buf, Span(at + |HostFront(n)|, |n.host|)) == ShownHost(n)
  {
    hide WholeHost, RenderHost, HostFront, HostBack, ShownHost, Slice;
    AroundHost(n, foundAt);
    BeforeHost(buf, at, n, foundAt);
    var t, i := RenderHost(n), |HostFront(n)|;
    if n.brackets == 2 {
      SliceThere(buf, at, t, i - 1, i + |n.host| + 1);
    } else {
      SliceThere(buf, at, t, i, i + |n.host|);
      NoBrackets(n);
    }
  }

  lemma NoBrackets(n: Inner)
    requires n.brackets == 0
    ensures ShownHost(n) == n.host
  {
  }

  /** The byte before the host is a bracket exactly if the host is in brackets. */
  lemma BeforeHost(buf: Bytes, at: nat, n: Inner, foundAt: bool)
    requires WholeHost(n, foundAt) && 0 < at && at + |RenderHost(n)| <= |buf| && buf[at - 1] != '['
    requires buf[at..at + |RenderHost(n)|] == RenderHost(n)
    ensures |HostFront(n)| <= |RenderHost(n)| && (buf[at + |HostFront(n)| - 1] == '[' <==> n.brackets == 2)
  {
    hide LegalHost, RenderHost, HostFront, HostBack, ShownHost;
    AroundHost(n, foundAt);
    var i := |HostFront(n)|;
    if i > 0 {
      assert buf[at + (i - 1)] == buf[at..at + |RenderHost(n)|][i - 1];
    }
  }

  lemma HostShown(buf: Bytes, mode: Mode, o: Outer, n: Inner)
    requires Accepted(buf, false, mode, o, n) && o.scheme != []
    ensures HostSlice(buf, SpanOf(Fields(o, n), Host)) == ShownHost(n)
  {
    hide Legal, LegalHost, Render, RenderHost, HostFront, Fields, HostSlice, ShownHost, HostAndPort, PortFits;
    LegalBasics(buf, false, mode, o, n);
    FieldPlace(o, n, Host);
    WholeNotEmpty(n, '@' in o.server);
    SchemeFull(o, mode);
    ServerIn(o);
    SlashBefore(o);
    HostSliceIs(buf, ServerAt(o), n, '@' in o.server);
  }

  /** A URL with a server has all of "://". */
  lemma SchemeFull(o: Outer, mode: Mode)
    requires Legal(o, false, mode) && o.server != []
    ensures o.delim == 3
  {
    hide ServerText, PathText, QueryText, FragmentText, AllAlpha;
  }

  lemma SlashBefore(o: Outer)
    requires o.delim == 3
    ensures ServerAt(o) <= |Render(o)| && Render(o)[ServerAt(o) - 1] == '/'
  {
    assert Front(o)[ServerAt(o) - 1] == DELIM[2];
  }

  lemma ViewIs(buf: Bytes, mode: Mode, o: Outer, n: Inner)
    requires Accepted(buf, false, mode, o, n) && o.scheme != []
    ensures ViewOf(buf, Fields(o, n), Decimal(n.port)) == FullView(o, n)
  {
    hide Legal, LegalHost, Render, RenderHost, Fields, Slice, HostSlice, ShownHost;
    HostShown(buf, mode, o, n);
    SliceIs(buf, false, mode, o, n, Schema);
    SliceIs(buf, false, mode, o, n, Path);
    SliceIs(buf, false, mode, o, n, Query);
    SliceIs(buf, false, mode, o, n, Fragment);
  }

  // ----- the round trip -----

  /** A URL that shows all that it says: no userinfo, no leading zero in the port, nothing empty after '?' or '#'. */
  predicate Plain(o: Outer, n: Inner)
  {
    PlainHost(n) && (o.mark ==> o.query != []) && o.hashes == (if o.fragment == [] then 0 else 1)
  }

  lemma RenderedLength(n: Inner)
    ensures |RenderHost(n)| == |n.userinfo| + (if n.at then 1 else 0) + (if n.brackets > 0 then 1 else 0) + |n.host|
                               + (if n.brackets > 1 then 1 else 0) + (if n.colon then 1 else 0) + |n.port|
  {
  }

  lemma ShownLength(n: Inner, port: nat)
    ensures |ShownAuthority(ShownHost(n), port)| ==
            |n.host| + (if n.brackets > 0 then 2 else 0) + (if port == 0 then 0 else 1 + |ToDecimal(port)|)
  {
    hide ToDecimal;
  }

  predicate PlainHost(n: Inner) { !n.at && (n.port != [] ==> n.port[0] != '0') }

  lemma WholeFacts(n: Inner, foundAt: bool)
    requires WholeHost(n, foundAt)
    ensures (!n.at ==> n.userinfo == []) && (n.brackets == 0 || n.brackets == 2) && (n.colon <==> n.port != [])
    ensures AllDigits(n.port)
  {
    hide HostText, AllUserinfo;
  }

  lemma PlainPort(n: Inner)
    requires AllDigits(n.port) && (n.port != [] ==> n.port[0] != '0')
    ensures Decimal(n.port) == 0 <==> n.port == []
    ensures n.port != [] ==> ToDecimal(Decimal(n.port)) == n.port
  {
    hide ToDecimal;
    if n.port != [] {
      CanonicalDigits(n.port);
    }
  }

  lemma PlainAuthority(n: Inner, foundAt: bool)
    requires WholeHost(n, foundAt) && PlainHost(n)
    ensures ShownAuthority(ShownHost(n), Decimal(n.port)) == RenderHost(n)
  {
    hide WholeHost, Decimal, ToDecimal;
    WholeFacts(n, foundAt);
    PlainPort(n);
    assert HostFront(n) == if n.brackets > 0 then ['['] else [];
    assert HostBack(n) == (if n.brackets > 0 then [']'] else []) + (if n.port != [] then [':'] + n.port else []);
  }

  /** The shown authority is never longer than the server, and the same only without userinfo and zeros. */
  lemma AuthorityFits(n: Inner, foundAt: bool)
    requires WholeHost(n, foundAt)
    ensures var shown := ShownAuthority(ShownHost(n), Decimal(n.port));
            && |shown| <= |RenderHost(n)|
            && (|shown| == |RenderHost(n)| <==> PlainHost(n))
            && (PlainHost(n) ==> shown == RenderHost(n))
  {
    hide LegalHost, Decimal, ToDecimal, ShownAuthority, ShownHost, RenderHost;
    WholeFacts(n, foundAt);
    RenderedLength(n);
    if n.port != [] {
      CanonicalDigits(n.port);
    } else {
      DecimalNothing();
    }
    ShownLength(n, Decimal(n.port));
    if PlainHost(n) {
      PlainAuthority(n, foundAt);
    }
  }

  lemma DecimalNothing()
    ensures AllDigits([]) && Decimal([]) == 0
  {
  }

  function PrintedTail(query: Bytes, fragment: Bytes): Bytes
  {
    (if query == [] then [] else ['?'] + query) + (if fragment == [] then [] else ['#'] + fragment)
  }

  /** The printed query and fragment are never longer than what was there. */
  lemma TailFits(o: Outer)
    requires (!o.mark ==> o.query == []) && (o.hashes == 0 ==> o.fragment == [])
    ensures var shown, there := PrintedTail(o.query, o.fragment), QueryPart(o) + Hashes(o.hashes) + o.fragment;
            var plain := (o.mark ==> o.query != []) && o.hashes == (if o.fragment == [] then 0 else 1);
            && |shown| <= |there| && (|shown| == |there| <==> plain) && (plain ==> shown == there)
  {
    assert Hashes(1) == ['#'] && Hashes(0) == [];
  }

  lemma Assemble(o: Outer, authority: Bytes)
    requires o.delim == 3 && o.scheme != []
    ensures Render(o) == o.scheme + DELIM + o.server + o.path + (QueryPart(o) + Hashes(o.hashes) + o.fragment)
    ensures CreateUrl(o.scheme, authority, o.path, o.query, o.fragment)
            == o.scheme + DELIM + authority + o.path + PrintedTail(o.query, o.fragment)
  {
    assert DELIM[..3] == DELIM;
  }

  /** The exact round trip for URLs with a scheme: printing gives the URL again exactly when it is plain. */
  lemma FullRoundTrip(buf: Bytes, mode: Mode, o: Outer, n: Inner)
    requires Accepted(buf, false, mode, o, n) && o.scheme != []
    ensures Print(FullView(o, n)) == buf <==> Plain(o, n)
  {
    hide Legal, LegalHost, Render, RenderHost, ShownAuthority, ShownHost, Decimal, HostAndPort, CreateUrl, QueryPart,
         PrintedTail;
    LegalBasics(buf, false, mode, o, n);
    LegalTail(o, mode);
    WholeNotEmpty(n, '@' in o.server);
    AuthorityFits(n, '@' in o.server);
    SchemeFull(o, mode);
    TailFits(o);
    Assemble(o, FullView(o, n).authority);
  }

  lemma LegalTail(o: Outer, mode: Mode)
    requires Legal(o, false, mode)
    ensures o.hashes == 0 ==> o.fragment == []
  {
  }
}
