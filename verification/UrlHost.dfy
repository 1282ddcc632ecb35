/**
 * http_parse_host: the second pass, over the server part of a URL.  As in UrlOuter, `HostWalk` is the loop of
 * the source and `Inner` an independent description of the text, and each determines the other.
 */
module UrlHost {
  import opened HttpTypes
  import opened UrlOuter

  datatype HostState =
    | HostDead | UserinfoStart | InUserinfo | HostStart | V6Start | InHost | InV6 | V6End | PortStart | InPort

  predicate IsV6Char(c: Byte) { IsHex(c) || c == ':' || c == '.' }

  function ParseHostChar(s: HostState, ch: Byte): HostState
  {
    match s
    case InUserinfo | UserinfoStart =>
      if ch == '@' then HostStart else if IsUserinfoChar(ch) then InUserinfo else HostDead
    case HostStart => if ch == '[' then V6Start else if IsHostChar(ch) then InHost else HostDead
    case InHost => if IsHostChar(ch) then InHost else if ch == ':' then PortStart else HostDead
    case V6End => if ch == ':' then PortStart else HostDead
    case InV6 => if ch == ']' then V6End else if IsV6Char(ch) then InV6 else HostDead
    case V6Start => if IsV6Char(ch) then InV6 else HostDead
    case InPort | PortStart => if IsNum(ch) then InPort else HostDead
    case HostDead => HostDead
  }

  /** The states that the source rejects at the end. */
  predicate EndsBadly(s: HostState)
  {
    s.HostStart? || s.V6Start? || s.InV6? || s.PortStart? || s.InUserinfo? || s.UserinfoStart?
  }

  // ----- the loop -----

  datatype HostWalk = HostWalk(s: HostState, spans: Spans)

  function FieldAt(t: HostState): Option<Field>
  {
    match t
    case InHost | InV6 => Some(Host)
    case InPort => Some(Port)
    case InUserinfo => Some(Userinfo)
    case _ => None
  }

  /** One more byte of a field; the host's length was set to zero before the loop. */
  function Extended(m: Spans, f: Field, begun: bool, i: nat): Spans
  {
    m[f := Span(if begun then SpanOf(m, f).off else i, if begun || f.Host? then SpanOf(m, f).len + 1 else 1)]
  }

  function StepHost(w: HostWalk, i: nat, ch: Byte): HostWalk
  {
    var t := ParseHostChar(w.s, ch);
    var f := FieldAt(t);
    if f.None? then w.(s := t) else HostWalk(t, Extended(w.spans, f.value, w.s == t, i))
  }

  function HostBegin(foundAt: bool, base: nat, m: Spans): HostWalk
  {
    HostWalk(if foundAt then UserinfoStart else HostStart, m[Host := Span(base, 0)])
  }

  /** The walk over `text`, which starts at offset `base` of the URL. */
  function WalkText(w: HostWalk, base: nat, text: Bytes): HostWalk
    decreases |text|
  {
    if text == [] then w
    else StepHost(WalkText(w, base, text[..|text| - 1]), base + |text| - 1, text[|text| - 1])
  }

  lemma WalkNothing(w: HostWalk, base: nat)
    ensures WalkText(w, base, []) == w
  {
  }

  lemma WalkTextMore(w: HostWalk, base: nat, text: Bytes, ch: Byte)
    ensures WalkText(w, base, text + [ch]) == StepHost(WalkText(w, base, text), base + |text|, ch)
  {
    assert (text + [ch])[..|text|] == text;
  }

  lemma {:induction false} HostDeadForever(w: HostWalk, base: nat, a: Bytes, b: Bytes)
    requires WalkText(w, base, a).s.HostDead?
    ensures WalkText(w, base, a + b).s.HostDead?
    decreases |b|
  {
    if b == [] {
      assert a + b == a;
    } else {
      HostDeadForever(w, base, a, b[..|b| - 1]);
      assert a + b == (a + b[..|b| - 1]) + [b[|b| - 1]];
      WalkTextMore(w, base, a + b[..|b| - 1], b[|b| - 1]);
    }
  }

  // ----- the text of a server -----

  /** Userinfo and '@', then a host, in brackets if `brackets` is 2 (1 while still open), and a port. */
  datatype Inner = Inner(userinfo: Bytes, at: bool, brackets: nat, host: Bytes, colon: bool, port: Bytes)

  const NOTHING: Inner := Inner([], false, 0, [], false, [])

  predicate AllUserinfo(t: Bytes) { forall i | 0 <= i < |t| :: IsUserinfoChar(t[i]) }

  predicate HostText(t: Bytes, v6: bool)
  {
    forall i | 0 <= i < |t| :: if v6 then IsV6Char(t[i]) else IsHostChar(t[i])
  }

  predicate AllDigits(t: Bytes) { forall i | 0 <= i < |t| :: IsNum(t[i]) }

  /** The beginning of a server, or all of it. */
  predicate LegalHost(n: Inner, foundAt: bool)
  {
    && AllUserinfo(n.userinfo) && HostText(n.host, n.brackets > 0) && AllDigits(n.port)
    && (!foundAt ==> n.userinfo == [] && !n.at)
    && (foundAt && !n.at ==> n.brackets == 0 && n.host == [] && !n.colon)
    && n.brackets <= 2 && (n.brackets == 2 ==> n.host != [])
    && (n.colon ==> n.host != [] && n.brackets != 1)
    && (!n.colon ==> n.port == [])
  }

  /** A whole server. */
  predicate WholeHost(n: Inner, foundAt: bool)
  {
    LegalHost(n, foundAt) && n.host != [] && n.brackets != 1 && (n.colon ==> n.port != [])
  }

  function HostFront(n: Inner): Bytes
  {
    n.userinfo + (if n.at then ['@'] else []) + (if n.brackets > 0 then ['['] else [])
  }

  function HostBack(n: Inner): Bytes
  {
    (if n.brackets > 1 then [']'] else []) + (if n.colon then [':'] else []) + n.port
  }

  function RenderHost(n: Inner): Bytes { HostFront(n) + n.host + HostBack(n) }

  function HostFinal(n: Inner, foundAt: bool): HostState
  {
    if n.port != [] then InPort
    else if n.colon then PortStart
    else if n.brackets == 2 then V6End
    else if n.host != [] then if n.brackets == 1 then InV6 else InHost
    else if n.brackets == 1 then V6Start
    else if n.at || !foundAt then HostStart
    else if n.userinfo != [] then InUserinfo
    else UserinfoStart
  }

  function HostSpans(n: Inner, base: nat, m: Spans): Spans
  {
    Put(Put(m[Host := Span(base + if n.host == [] then 0 else |HostFront(n)|, |n.host|)],
            Userinfo, base, n.userinfo), Port, base + |RenderHost(n)| - |n.port|, n.port)
  }

  function HostFound(n: Inner, foundAt: bool, base: nat, m: Spans): HostWalk
  {
    HostWalk(HostFinal(n, foundAt), HostSpans(n, base, m))
  }

  // ----- one more byte -----

  datatype HostPart = ToUser | ToAt | ToOpen | ToHost | ToClose | ToColon | ToPort

  function HostPartFor(s: HostState, ch: Byte): HostPart
  {
    match s
    case UserinfoStart | InUserinfo => if ch == '@' then ToAt else ToUser
    case HostStart => if ch == '[' then ToOpen else ToHost
    case InHost => if ch == ':' then ToColon else ToHost
    case V6End => ToColon
    case InV6 => if ch == ']' then ToClose else ToHost
    case V6Start => ToHost
    case _ => ToPort
  }

  function AddHost(n: Inner, part: HostPart, ch: Byte): Inner
  {
    match part
    case ToUser => n.(userinfo := n.userinfo + [ch])
    case ToAt => n.(at := true)
    case ToOpen => n.(brackets := 1)
    case ToHost => n.(host := n.host + [ch])
    case ToClose => n.(brackets := 2)
    case ToColon => n.(colon := true)
    case ToPort => n.(port := n.port + [ch])
  }

  predicate HostRoom(n: Inner, part: HostPart, ch: Byte)
  {
    && (part.ToPort? || n.port == [])
    && (part.ToPort? || !n.colon)
    && (part.ToPort? || part.ToColon? || n.brackets < 2)
    && (part.ToClose? ==> n.brackets == 1 && ch == ']')
    && (part.ToUser? || part.ToAt? || part.ToOpen? ==> n.host == [] && n.brackets == 0)
    && (part.ToUser? || part.ToAt? ==> !n.at)
    && (part.ToAt? ==> ch == '@') && (part.ToOpen? ==> ch == '[') && (part.ToColon? ==> ch == ':')
    && (part.ToPort? ==> n.colon)
  }

  lemma HostRoomFor(n: Inner, foundAt: bool, ch: Byte)
    requires LegalHost(n, foundAt) && !ParseHostChar(HostFinal(n, foundAt), ch).HostDead?
    ensures HostRoom(n, HostPartFor(HostFinal(n, foundAt), ch), ch)
  {
    hide IsUserinfoChar, IsV6Char, IsNum, AllUserinfo, HostText, AllDigits;
  }

  lemma LegalHostAdd(n: Inner, foundAt: bool, ch: Byte)
    requires LegalHost(n, foundAt) && !ParseHostChar(HostFinal(n, foundAt), ch).HostDead?
    ensures LegalHost(AddHost(n, HostPartFor(HostFinal(n, foundAt), ch), ch), foundAt)
  {
    hide IsUserinfoChar, IsV6Char, IsNum;
  }

  lemma RenderHostAdd(n: Inner, part: HostPart, ch: Byte)
    requires HostRoom(n, part, ch)
    ensures RenderHost(AddHost(n, part, ch)) == RenderHost(n) + [ch]
  {
  }

  lemma HostStateAdd(n: Inner, foundAt: bool, ch: Byte)
    requires LegalHost(n, foundAt) && !ParseHostChar(HostFinal(n, foundAt), ch).HostDead?
    ensures var s := HostFinal(n, foundAt);
            HostFinal(AddHost(n, HostPartFor(s, ch), ch), foundAt) == ParseHostChar(s, ch)
  {
    hide IsUserinfoChar, AllUserinfo, HostText, AllDigits;
  }

  /** The field that a byte extends, and whether it starts it. */
  lemma HostMove(n: Inner, foundAt: bool, ch: Byte)
    requires LegalHost(n, foundAt) && !ParseHostChar(HostFinal(n, foundAt), ch).HostDead?
    ensures var s, t := HostFinal(n, foundAt), ParseHostChar(HostFinal(n, foundAt), ch);
            var part := HostPartFor(s, ch);
            && (part.ToUser? ==> FieldAt(t) == Some(Userinfo) && (s == t <==> n.userinfo != []))
            && (part.ToHost? ==> FieldAt(t) == Some(Host) && (s == t <==> n.host != []))
            && (part.ToPort? ==> FieldAt(t) == Some(Port) && (s == t <==> n.port != []))
            && (part.ToAt? || part.ToOpen? || part.ToClose? || part.ToColon? ==> FieldAt(t).None?)
  {
    hide IsUserinfoChar, AllUserinfo, HostText, AllDigits;
  }

  lemma TextSpansAdd(n: Inner, part: HostPart, base: nat, m: Spans, ch: Byte)
    requires HostRoom(n, part, ch) && Userinfo !in m && Port !in m
    ensures var q, x := AddHost(n, part, ch), HostSpans(n, base, m);
            var i := base + |RenderHost(n)|;
            && (part.ToUser? ==> HostSpans(q, base, m) == Extended(x, Userinfo, n.userinfo != [], i))
            && (part.ToHost? ==> HostSpans(q, base, m) == Extended(x, Host, n.host != [], i))
            && (part.ToPort? ==> HostSpans(q, base, m) == Extended(x, Port, n.port != [], i))
  {
    RenderHostAdd(n, part, ch);
    hide RenderHost;
    assert part.ToHost? ==> |RenderHost(n)| == |HostFront(n)| + |n.host| by { HostLength(n); }
    assert part.ToUser? ==> |RenderHost(n)| == |n.userinfo| by { HostLength(n); }
  }

  lemma HostLength(n: Inner)
    ensures |RenderHost(n)| == |HostFront(n)| + |n.host| + |HostBack(n)|
  {
  }

  lemma MarkSpansAdd(n: Inner, part: HostPart, base: nat, m: Spans, ch: Byte)
    requires HostRoom(n, part, ch) && (part.ToAt? || part.ToOpen? || part.ToClose? || part.ToColon?)
    ensures HostSpans(AddHost(n, part, ch), base, m) == HostSpans(n, base, m)
  {
    hide RenderHost;
  }

  lemma HostSpansAdd(n: Inner, foundAt: bool, base: nat, m: Spans, ch: Byte)
    requires LegalHost(n, foundAt) && !ParseHostChar(HostFinal(n, foundAt), ch).HostDead?
    requires Userinfo !in m && Port !in m
    ensures var s := HostFinal(n, foundAt);
            HostSpans(AddHost(n, HostPartFor(s, ch), ch), base, m)
            == StepHost(HostFound(n, foundAt, base, m), base + |RenderHost(n)|, ch).spans
  {
    HostRoomFor(n, foundAt, ch);
    HostMove(n, foundAt, ch);
    hide LegalHost, ParseHostChar, HostFinal, FieldAt, HostSpans, RenderHost, HostRoom;
    var part := HostPartFor(HostFinal(n, foundAt), ch);
    hide HostPartFor;
    if part.ToAt? || part.ToOpen? || part.ToClose? || part.ToColon? {
      MarkSpansAdd(n, part, base, m, ch);
    } else {
      TextSpansAdd(n, part, base, m, ch);
    }
    hide AddHost;
  }

  /** One more byte that the machine accepts. */
  lemma GrowHost(n: Inner, foundAt: bool, base: nat, m: Spans, ch: Byte)
    requires LegalHost(n, foundAt) && !ParseHostChar(HostFinal(n, foundAt), ch).HostDead?
    requires Userinfo !in m && Port !in m
    ensures var q := AddHost(n, HostPartFor(HostFinal(n, foundAt), ch), ch);
            && LegalHost(q, foundAt) && RenderHost(q) == RenderHost(n) + [ch]
            && HostFound(q, foundAt, base, m) == StepHost(HostFound(n, foundAt, base, m), base + |RenderHost(n)|, ch)
  {
    LegalHostAdd(n, foundAt, ch);
    HostRoomFor(n, foundAt, ch);
    HostStateAdd(n, foundAt, ch);
    HostSpansAdd(n, foundAt, base, m, ch);
    hide LegalHost, ParseHostChar, HostFinal, FieldAt, HostSpans, RenderHost, AddHost, HostPartFor, HostRoom;
    RenderHostAdd(n, HostPartFor(HostFinal(n, foundAt), ch), ch);
  }

  lemma HostNothing(foundAt: bool, base: nat, m: Spans)
    requires Userinfo !in m && Port !in m
    ensures LegalHost(NOTHING, foundAt) && RenderHost(NOTHING) == []
    ensures HostFound(NOTHING, foundAt, base, m) == HostBegin(foundAt, base, m)
  {
  }

  lemma StepHostState(w: HostWalk, i: nat, ch: Byte)
    ensures StepHost(w, i, ch).s == ParseHostChar(w.s, ch)
    ensures w.s.HostDead? ==> StepHost(w, i, ch).s.HostDead?
  {
  }

  /** Every text that is not dead is the text of a legal `Inner`. */
  lemma {:induction false} HostShape(text: Bytes, foundAt: bool, base: nat, m: Spans) returns (n: Inner)
    requires !WalkText(HostBegin(foundAt, base, m), base, text).s.HostDead? && Userinfo !in m && Port !in m
    ensures LegalHost(n, foundAt) && RenderHost(n) == text
    ensures HostFound(n, foundAt, base, m) == WalkText(HostBegin(foundAt, base, m), base, text)
    decreases |text|
  {
    hide LegalHost, HostFinal, HostSpans, RenderHost, StepHost, ParseHostChar, AddHost, HostPartFor, HostBegin;
    HostNothing(foundAt, base, m);
    if text == [] {
      n := NOTHING;
    } else {
      var front, ch := text[..|text| - 1], text[|text| - 1];
      assert text == front + [ch];
      StepHostState(WalkText(HostBegin(foundAt, base, m), base, front), base + |front|, ch);
      var p := HostShape(front, foundAt, base, m);
      GrowHost(p, foundAt, base, m, ch);
      n := AddHost(p, HostPartFor(HostFinal(p, foundAt), ch), ch);
    }
  }

  // ----- the other way: the machine reads every legal server -----

  /** The last byte of a server, and the server before it. */
  function DropHost(n: Inner): (r: (Inner, HostPart, Byte))
  {
    if n.port != [] then (n.(port := n.port[..|n.port| - 1]), ToPort, n.port[|n.port| - 1])
    else if n.colon then (n.(colon := false), ToColon, ':')
    else if n.brackets > 1 then (n.(brackets := 1), ToClose, ']')
    else if n.host != [] then (n.(host := n.host[..|n.host| - 1]), ToHost, n.host[|n.host| - 1])
    else if n.brackets > 0 then (n.(brackets := 0), ToOpen, '[')
    else if n.at then (n.(at := false), ToAt, '@')
    else if n.userinfo != [] then (n.(userinfo := n.userinfo[..|n.userinfo| - 1]), ToUser, n.userinfo[|n.userinfo| - 1])
    else (n, ToUser, 'a')
  }

  lemma DropHostLegal(n: Inner, foundAt: bool)
    requires LegalHost(n, foundAt) && n != NOTHING
    ensures var (p, part, ch) := DropHost(n); LegalHost(p, foundAt) && AddHost(p, part, ch) == n
  {
    hide IsUserinfoChar, IsV6Char, IsNum, IsHostChar;
  }

  /** What each state does with the bytes of its parts. */
  lemma HostAccepts(s: HostState, ch: Byte)
    ensures IsUserinfoChar(ch) && (s.UserinfoStart? || s.InUserinfo?) ==>
              HostPartFor(s, ch).ToUser? && !ParseHostChar(s, ch).HostDead?
    ensures IsHostChar(ch) && (s.HostStart? || s.InHost?) ==>
              HostPartFor(s, ch).ToHost? && !ParseHostChar(s, ch).HostDead?
    ensures IsV6Char(ch) && (s.V6Start? || s.InV6?) ==>
              HostPartFor(s, ch).ToHost? && !ParseHostChar(s, ch).HostDead?
    ensures IsNum(ch) && (s.PortStart? || s.InPort?) ==>
              HostPartFor(s, ch).ToPort? && !ParseHostChar(s, ch).HostDead?
  {
  }

  lemma DropHostAccepted(n: Inner, foundAt: bool)
    requires LegalHost(n, foundAt) && n != NOTHING
    ensures var (p, part, ch) := DropHost(n);
            HostPartFor(HostFinal(p, foundAt), ch) == part && !ParseHostChar(HostFinal(p, foundAt), ch).HostDead?
  {
    var (p, part, ch) := DropHost(n);
    HostAccepts(HostFinal(p, foundAt), ch);
    hide IsUserinfoChar, IsV6Char, IsNum, IsAlphaNum;
  }

  /** The machine reads every legal server to its end and marks its pieces. */
  lemma {:induction false} WalkHostText(n: Inner, foundAt: bool, base: nat, m: Spans)
    requires LegalHost(n, foundAt) && Userinfo !in m && Port !in m
    ensures WalkText(HostBegin(foundAt, base, m), base, RenderHost(n)) == HostFound(n, foundAt, base, m)
    decreases |n.userinfo| + (if n.at then 1 else 0) + n.brackets + |n.host| + (if n.colon then 1 else 0) + |n.port|
  {
    hide LegalHost, HostFinal, HostSpans, RenderHost, StepHost, ParseHostChar, AddHost, HostPartFor, HostBegin,
         WalkText;
    HostNothing(foundAt, base, m);
    if n == NOTHING {
      WalkNothing(HostBegin(foundAt, base, m), base);
    } else {
      var (p, part, ch) := DropHost(n);
      DropHostLegal(n, foundAt);
      DropHostAccepted(n, foundAt);
      WalkHostText(p, foundAt, base, m);
      GrowHost(p, foundAt, base, m, ch);
      WalkTextMore(HostBegin(foundAt, base, m), base, RenderHost(p), ch);
    }
  }
}
