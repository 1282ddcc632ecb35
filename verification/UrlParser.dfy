/** http_parser_parse_url_options: the struct it fills in, its two passes and its port loop. */
module UrlParser {
  import opened HttpTypes
  import opened UrlOuter
  import opened UrlHost

  // ----- what is accepted -----

  /** The number that decimal digits denote. */
  function Decimal(t: Bytes): (v: nat)
    requires AllDigits(t)
    decreases |t|
  {
    if t == [] then 0 else 10 * Decimal(t[..|t| - 1]) + Digit(t[|t| - 1])
  }

  const MAX_PORT: nat := 0xffff

  /** The pass over the server is made. */
  predicate HasServer(o: Outer) { o.scheme != [] || o.server != [] }

  /** `buf` is the text of outer parts `o`, whose server, if any, is the text of `n`. */
  predicate Described(buf: Bytes, connect: bool, mode: Mode, o: Outer, n: Inner)
  {
    && Legal(o, connect, mode) && Render(o) == buf
    && if HasServer(o) then RenderHost(n) == o.server && WholeHost(n, '@' in o.server) else n == NOTHING
  }

  /** A CONNECT target is a host and a port. */
  predicate HostAndPort(o: Outer, n: Inner)
  {
    HasServer(o) && n.userinfo == [] && n.port != [] && o.path == [] && o.query == [] && o.fragment == []
  }

  predicate PortFits(n: Inner) { AllDigits(n.port) && Decimal(n.port) <= MAX_PORT }

  /** `buf` is a URL with these parts. */
  predicate Accepted(buf: Bytes, connect: bool, mode: Mode, o: Outer, n: Inner)
  {
    Described(buf, connect, mode, o, n) && (connect ==> HostAndPort(o, n)) && PortFits(n)
  }

  /** The fields of such a URL. */
  function Fields(o: Outer, n: Inner): Spans
  {
    if HasServer(o) then HostSpans(n, ServerAt(o), SpansOf(o)) else SpansOf(o)
  }

  // ----- the two passes on an accepted URL -----

  lemma FieldsSet(o: Outer)
    ensures Schema in SpansOf(o) <==> o.scheme != []
    ensures Host in SpansOf(o) <==> o.server != []
    ensures Userinfo !in SpansOf(o) && Port !in SpansOf(o)
    ensures o.server != [] ==> SpansOf(o)[Host] == Span(ServerAt(o), |o.server|)
  {
  }

  lemma ServerIn(o: Outer)
    requires o.delim <= 3
    ensures ServerAt(o) + |o.server| <= |Render(o)|
    ensures Render(o)[ServerAt(o)..ServerAt(o) + |o.server|] == o.server
  {
    assert Front(o)[..ServerAt(o)] == o.scheme + DELIM[..o.delim];
    assert Render(o) == Front(o) + (QueryPart(o) + Hashes(o.hashes) + o.fragment);
  }

  /** The second pass, over the server that the first pass marked. */
  function SecondPass(buf: Bytes, w: Walk): HostWalk
  {
    var h := SpanOf(w.spans, Host);
    if h.off + h.len <= |buf| then WalkText(HostBegin(w.foundAt, h.off, w.spans), h.off, buf[h.off..h.off + h.len])
    else HostWalk(HostDead, map[])
  }

  /** Both passes: the fields, unless one of them fails. */
  function Passes(buf: Bytes, connect: bool, mode: Mode): Option<Spans>
  {
    var w := WalkAll(Start(connect), buf, mode);
    if w.s.Dead? then None
    else if Schema in w.spans || Host in w.spans then
      var t := SecondPass(buf, w);
      if t.s.HostDead? || EndsBadly(t.s) then None else Some(t.spans)
    else Some(w.spans)
  }

  lemma SecondPassOn(buf: Bytes, connect: bool, mode: Mode, o: Outer)
    requires Legal(o, connect, mode) && Render(o) == buf
    ensures var foundAt := '@' in o.server;
            var base := if o.server == [] then 0 else ServerAt(o);
            SecondPass(buf, Found(o, connect)) == WalkText(HostBegin(foundAt, base, SpansOf(o)), base, o.server)
  {
    hide Legal, Render, SpansOf, FinalState, LastField, WalkText, HostBegin;
    FieldsSet(o);
    DelimSmall(o, connect, mode);
    ServerIn(o);
    assert o.server == [] ==> buf[0..0] == o.server;
  }

  /** Both passes find the parts of a URL. */
  lemma PassesDescribed(buf: Bytes, connect: bool, mode: Mode, o: Outer, n: Inner)
    requires Described(buf, connect, mode, o, n)
    ensures Passes(buf, connect, mode) == Some(Fields(o, n))
  {
    hide Legal, Render, SpansOf, LastField, WalkAll, WalkText, HostSpans, HostBegin, LegalHost, RenderHost,
         SecondPass;
    WalkRender(o, connect, mode);
    FieldsSet(o);
    NeverDead(o, connect);
    hide FinalState;
    if HasServer(o) {
      WholeNotEmpty(n, '@' in o.server);
      SecondPassOn(buf, connect, mode, o);
      WalkHostText(n, '@' in o.server, ServerAt(o), SpansOf(o));
    }
  }

  lemma NeverDead(o: Outer, connect: bool)
    ensures !FinalState(o, connect).Dead?
  {
  }

  /** Passes that succeed have found the parts of a URL. */
  lemma PassesShape(buf: Bytes, connect: bool, mode: Mode) returns (o: Outer, n: Inner)
    requires Passes(buf, connect, mode).Some?
    ensures Described(buf, connect, mode, o, n) && Passes(buf, connect, mode) == Some(Fields(o, n))
  {
    hide Legal, Render, SpansOf, LastField, FinalState, WalkAll, WalkText, HostSpans, HostBegin, LegalHost,
         RenderHost, SecondPass;
    o := Shape(buf, connect, mode);
    n := NOTHING;
    FieldsSet(o);
    if HasServer(o) {
      SecondPassOn(buf, connect, mode, o);
      var base := if o.server == [] then 0 else ServerAt(o);
      n := HostShape(o.server, '@' in o.server, base, SpansOf(o));
      WholeAtEnd(n, '@' in o.server);
      WholeNotEmpty(n, '@' in o.server);
    }
  }

  lemma WholeNotEmpty(n: Inner, foundAt: bool)
    requires WholeHost(n, foundAt)
    ensures RenderHost(n) != []
  {
    hide LegalHost;
  }

  lemma DelimSmall(o: Outer, connect: bool, mode: Mode)
    requires Legal(o, connect, mode)
    ensures o.delim <= 3
  {
  }

  lemma WholeAtEnd(n: Inner, foundAt: bool)
    requires LegalHost(n, foundAt) && !EndsBadly(HostFinal(n, foundAt))
    ensures WholeHost(n, foundAt)
  {
    hide HostText, AllUserinfo, AllDigits;
  }

  // ----- which fields are set, and where the port is -----

  lemma KeysAre(o: Outer, n: Inner)
    requires HasServer(o) || n == NOTHING
    ensures var m := Fields(o, n);
            && (Schema in m <==> o.scheme != []) && (Host in m <==> HasServer(o))
            && (Port in m <==> n.port != []) && (Userinfo in m <==> n.userinfo != [])
            && (Path in m <==> o.path != []) && (Query in m <==> o.query != [])
            && (Fragment in m <==> o.fragment != [])
  {
  }

  lemma ConnectKeys(o: Outer, n: Inner)
    requires (HasServer(o) || n == NOTHING) && o.scheme == []
    ensures Fields(o, n).Keys == {Host, Port} <==> HostAndPort(o, n)
  {
    KeysAre(o, n);
    var m := Fields(o, n);
    hide Fields;
    if m.Keys == {Host, Port} {
      assert Host in m.Keys && Port in m.Keys;
      assert Userinfo !in m.Keys && Path !in m.Keys && Query !in m.Keys && Fragment !in m.Keys;
    }
    if HostAndPort(o, n) {
      assert forall f: Field :: f in m.Keys <==> f in {Host, Port};
    }
  }

  lemma PortIn(buf: Bytes, o: Outer, n: Inner)
    requires o.delim <= 3 && Render(o) == buf && HasServer(o) && RenderHost(n) == o.server && n.port != []
    ensures var m := Fields(o, n);
            && Port in m && m[Port].off + m[Port].len <= |buf|
            && buf[m[Port].off..m[Port].off + m[Port].len] == n.port
  {
    hide Render, SpansOf, RenderHost;
    ServerIn(o);
    HostEndsInPort(n);
    var k := |o.server| - |n.port|;
    assert buf[ServerAt(o) + k..ServerAt(o) + |o.server|] == buf[ServerAt(o)..ServerAt(o) + |o.server|][k..];
  }

  lemma HostEndsInPort(n: Inner)
    ensures |RenderHost(n)| >= |n.port| && RenderHost(n)[|RenderHost(n)| - |n.port|..] == n.port
  {
  }

  // ----- the struct and the passes that fill it in -----

  class UrlFields {
    var spans: Spans
    var port: nat

    constructor ()
      ensures spans == map[] && port == 0
    {
      spans := map[];
      port := 0;
    }

    method ParseHost(buf: Bytes, foundAt: bool) returns (failed: bool)
      requires SpanOf(spans, Host).off + SpanOf(spans, Host).len <= |buf|
      modifies this`spans
      ensures var h := SpanOf(old(spans), Host);
              var w := WalkText(HostBegin(foundAt, h.off, old(spans)), h.off, buf[h.off..h.off + h.len]);
              failed == (w.s.HostDead? || EndsBadly(w.s)) && (!failed ==> spans == w.spans)
    {
      hide ParseHostChar, WalkText, EndsBadly;
      var h := SpanOf(spans, Host);
      ghost var begin := HostBegin(foundAt, h.off, spans);
      ghost var text := buf[h.off..h.off + h.len];
      spans := spans[Host := Span(h.off, 0)];
      var s := if foundAt then UserinfoStart else HostStart;
      var p := h.off;
      WalkNothing(begin, h.off);
      while p < h.off + h.len
        invariant h.off <= p <= h.off + h.len
        invariant HostWalk(s, spans) == WalkText(begin, h.off, text[..p - h.off]) && !s.HostDead?
      {
        var t := ParseHostChar(s, buf[p]);
        ghost var k := p - h.off;
        assert text[..k + 1] == text[..k] + [buf[p]];
        WalkTextMore(begin, h.off, text[..k], buf[p]);
        if t.HostDead? {
          HostDeadForever(begin, h.off, text[..k + 1], text[k + 1..]);
          assert text == text[..k + 1] + text[k + 1..];
          return true;
        }
        match t {
          case InHost | InV6 =>
            var prev := SpanOf(spans, Host);
            spans := spans[Host := Span(if s != t then p else prev.off, prev.len + 1)];
          case InPort =>
            var prev := SpanOf(spans, Port);
            spans := spans[Port := if s != t then Span(p, 1) else Span(prev.off, prev.len + 1)];
          case InUserinfo =>
            var prev := SpanOf(spans, Userinfo);
            spans := spans[Userinfo := if s != t then Span(p, 1) else Span(prev.off, prev.len + 1)];
          case _ =>
        }
        s := t;
        p := p + 1;
      }
      assert text[..h.len] == text;
      failed := EndsBadly(s);
    }

    /** The first pass: fills in the fields and says whether a '@' was found in the server. */
    method MarkFields(buf: Bytes, connect: bool, mode: Mode) returns (failed: bool, foundAt: bool)
      requires spans == map[]
      modifies this`spans
      ensures var w := WalkAll(Start(connect), buf, mode);
              failed == w.s.Dead? && (!failed ==> spans == w.spans && foundAt == w.foundAt)
    {
      hide ParseUrlChar, WalkAll;
      var s := if connect then ReqServerStart else ReqSpacesBeforeUrl;
      var last: Option<Field> := None;
      foundAt := false;
      WalkStart(Start(connect), mode);
      for i := 0 to |buf|
        invariant Walk(s, last, spans, foundAt) == WalkAll(Start(connect), buf[..i], mode) && !s.Dead?
      {
        assert buf[..i + 1] == buf[..i] + [buf[i]];
        WalkMore(Start(connect), buf[..i], buf[i], mode);
        s := ParseUrlChar(s, buf[i], mode);
        if s.Dead? {
          DeadForever(Start(connect), buf[..i + 1], buf[i + 1..], mode);
          assert buf == buf[..i + 1] + buf[i + 1..];
          return true, foundAt;
        }
        var uf := FieldOf(s);
        if uf.None? {
          continue;
        }
        if s.ReqServerWithAt? {
          foundAt := true;
        }
        if uf == last {
          var prev := SpanOf(spans, uf.value);
          spans := spans[uf.value := Span(prev.off, prev.len + 1)];
          continue;
        }
        spans := spans[uf.value := Span(i, 1)];
        last := uf;
      }
      assert buf[..|buf|] == buf;
      failed := false;
    }

    /** The port loop. */
    method ReadPort(buf: Bytes) returns (failed: bool)
      requires Port in spans && spans[Port].off + spans[Port].len <= |buf|
      requires AllDigits(buf[spans[Port].off..spans[Port].off + spans[Port].len])
      modifies this`port
      ensures var digits := buf[spans[Port].off..spans[Port].off + spans[Port].len];
              failed == (Decimal(digits) > MAX_PORT) && (!failed ==> port == Decimal(digits))
    {
      var off, len := spans[Port].off, spans[Port].len;
      ghost var digits := buf[off..off + len];
      var v := 0;
      for k := 0 to len
        invariant AllDigits(digits[..k]) && v == Decimal(digits[..k]) <= MAX_PORT
      {
        assert digits[..k + 1][..k] == digits[..k];
        assert digits[k] == buf[off + k];
        v := 10 * v + Digit(buf[off + k]);
        if v > MAX_PORT {
          DecimalGrows(digits, k + 1);
          return true;
        }
      }
      assert digits[..len] == digits;
      port := v;
      failed := false;
    }

    /** Both passes. */
    method TwoPasses(buf: Bytes, connect: bool, mode: Mode) returns (failed: bool)
      requires spans == map[]
      modifies this`spans
      ensures var r := Passes(buf, connect, mode); failed == r.None? && (!failed ==> spans == r.value)
    {
      hide WalkAll, WalkText, HostBegin, EndsBadly;
      var foundAt;
      failed, foundAt := MarkFields(buf, connect, mode);
      if !failed && (Schema in spans || Host in spans) {
        HostBounded(buf, connect, mode);
        failed := ParseHost(buf, foundAt);
      }
    }

    /**
     * A URL is accepted exactly when it is the text of some parts, and then the fields mark those parts and
     * the port is the number its digits denote.
     */
    method ParseUrl(buf: Bytes, connect: bool, mode: Mode) returns (failed: bool)
      requires |buf| <= 0xffff
      modifies this
      ensures !failed <==> exists o: Outer, n: Inner :: Accepted(buf, connect, mode, o, n)
      ensures !failed ==> forall o: Outer, n: Inner | Accepted(buf, connect, mode, o, n) ::
                            spans == Fields(o, n) && port == Decimal(n.port)
    {
      hide Passes, Fields, Described, HostAndPort;
      spans := map[];
      port := 0;
      failed := TwoPasses(buf, connect, mode);
      forall o: Outer, n: Inner | Described(buf, connect, mode, o, n)
        ensures Passes(buf, connect, mode) == Some(Fields(o, n))
      {
        PassesDescribed(buf, connect, mode, o, n);
      }
      if failed {
        return;
      }
      ghost var o, n := PassesShape(buf, connect, mode);
      forall o: Outer, n: Inner | Described(buf, connect, mode, o, n)
        ensures connect ==> (spans.Keys == {Host, Port} <==> HostAndPort(o, n))
        ensures Port in spans ==>
                  && spans[Port].off + spans[Port].len <= |buf|
                  && buf[spans[Port].off..spans[Port].off + spans[Port].len] == n.port && AllDigits(n.port)
        ensures Port !in spans ==> n.port == []
      {
        FieldsOf(buf, connect, mode, o, n);
      }
      if connect && spans.Keys != {Host, Port} {
        return true;
      }
      if Port in spans {
        failed := ReadPort(buf);
      }
      assert !failed ==> Accepted(buf, connect, mode, o, n);
    }
  }

  lemma HostBounded(buf: Bytes, connect: bool, mode: Mode)
    requires !WalkAll(Start(connect), buf, mode).s.Dead?
    ensures var h := SpanOf(WalkAll(Start(connect), buf, mode).spans, Host); h.off + h.len <= |buf|
  {
    hide WalkAll, SpansOf, Render, FinalState, LastField;
    var o := Shape(buf, connect, mode);
    FieldsSet(o);
    DelimSmall(o, connect, mode);
    ServerIn(o);
  }

  lemma FieldsOf(buf: Bytes, connect: bool, mode: Mode, o: Outer, n: Inner)
    requires Described(buf, connect, mode, o, n)
    ensures var m := Fields(o, n);
            && (connect ==> (m.Keys == {Host, Port} <==> HostAndPort(o, n)))
            && (Port in m ==>
                  && m[Port].off + m[Port].len <= |buf|
                  && buf[m[Port].off..m[Port].off + m[Port].len] == n.port && AllDigits(n.port))
            && (Port !in m ==> n.port == [])
  {
    KeysAre(o, n);
    DelimSmall(o, connect, mode);
    if connect {
      ConnectKeys(o, n);
    }
    hide Fields, Render, RenderHost, HostAndPort;
    if n.port != [] {
      PortIn(buf, o, n);
    }
  }

  lemma WalkStart(w: Walk, mode: Mode)
    ensures WalkAll(w, [], mode) == w
  {
  }

  /** Decimal digits only add to the value. */
  lemma {:induction false} DecimalGrows(t: Bytes, k: nat)
    requires AllDigits(t) && k <= |t|
    ensures Decimal(t[..k]) <= Decimal(t)
    decreases |t|
  {
    if k < |t| {
      DecimalGrows(t[..|t| - 1], k);
      assert t[..|t| - 1][..k] == t[..k];
    } else {
      assert t[..k] == t;
    }
  }
}
