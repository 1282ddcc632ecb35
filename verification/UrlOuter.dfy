/**
 * The first half of http_parser_parse_url_options: the byte-by-byte URL machine and the fields it marks.
 *
 * `WalkAll` is the loop of the source over a whole prefix.  `Outer` is an independent description of a URL
 * as text between delimiters, and the theorems relate the two both ways: a prefix is not dead exactly when it
 * is the text of a legal `Outer`, and then the marked fields are the pieces of that `Outer`.
 */
module UrlOuter {
  import opened HttpTypes

  /** The three ways the URL character class can be built and asked for. */
  datatype Mode = Loose | Compat | Strict

  const FF: Byte := 12 as char

  predicate IsMark(c: Byte)
  {
    c == '-' || c == '_' || c == '.' || c == '!' || c == '~' || c == '*' || c == '\'' || c == '(' || c == ')'
  }

  predicate IsUserinfoChar(c: Byte)
  {
    IsAlphaNum(c) || IsMark(c) || c == '%' || c == ';' || c == ':' || c == '&' || c == '=' || c == '+'
    || c == '$' || c == ','
  }

  /** All visible bytes but these may stand in userinfo (section 3.2.2 of RFC 2396). */
  lemma UserinfoBytes(c: Byte)
    ensures IsUserinfoChar(c) <==> '!' <= c <= '~' && c !in "\"#/<>?@[\\]^`{|}"
  {
    var reserved := "\"#/<>?@[\\]^`{|}";
    assert reserved == ['\"', '#', '/', '<', '>', '?', '@', '[', '\\', ']', '^', '`', '{', '|', '}'];
  }

  /** IS_URL_CHAR: the table, and bytes above 127 unless strict. */
  predicate IsUrlByte(c: Byte, mode: Mode)
  {
    c == HT || c == FF || ('!' <= c <= '~' && c != '#' && c != '?') || (c as int >= 128 && mode != Mode.Strict)
  }

  /** Bytes that kill every state. */
  predicate Deadly(c: Byte, mode: Mode)
  {
    c == ' ' || c == CR || c == LF || (mode != Loose && (c == HT || c == FF))
  }

  predicate IsServerChar(c: Byte) { IsUserinfoChar(c) || c == '[' || c == ']' || c == '@' }

  function ServerMove(ch: Byte): State
  {
    if ch == '/' then ReqPath
    else if ch == '?' then ReqQueryStringStart
    else if ch == '@' then ReqServerWithAt
    else if IsUserinfoChar(ch) || ch == '[' || ch == ']' then ReqServer
    else Dead
  }

  function ParseUrlChar(s: State, ch: Byte, mode: Mode): State
  {
    if Deadly(ch, mode) then Dead
    else
      match s
      case ReqSpacesBeforeUrl =>
        if ch == '/' || ch == '*' then ReqPath else if IsAlpha(ch) then ReqSchema else Dead
      case ReqSchema => if IsAlpha(ch) then s else if ch == ':' then ReqSchemaSlash else Dead
      case ReqSchemaSlash => if ch == '/' then ReqSchemaSlashSlash else Dead
      case ReqSchemaSlashSlash => if ch == '/' then ReqServerStart else Dead
      case ReqServerWithAt => if ch == '@' then Dead else ServerMove(ch)
      case ReqServerStart | ReqServer => ServerMove(ch)
      case ReqPath =>
        if IsUrlByte(ch, mode) then s
        else if ch == '?' then ReqQueryStringStart
        else if ch == '#' then ReqFragmentStart
        else Dead
      case ReqQueryStringStart | ReqQueryString =>
        if IsUrlByte(ch, mode) || ch == '?' then ReqQueryString
        else if ch == '#' then ReqFragmentStart
        else Dead
      case ReqFragmentStart =>
        if IsUrlByte(ch, mode) || ch == '?' then ReqFragment else if ch == '#' then s else Dead
      case ReqFragment => if IsUrlByte(ch, mode) || ch == '?' || ch == '#' then s else Dead
      case _ => Dead
  }

  // ----- the loop -----

  datatype Field = Schema | Host | Port | Path | Query | Fragment | Userinfo

  datatype Span = Span(off: nat, len: nat)

  /** The fields that are set; a field that is not set reads as (0, 0), for the struct is zeroed. */
  type Spans = map<Field, Span>

  function SpanOf(m: Spans, f: Field): Span { if f in m then m[f] else Span(0, 0) }

  /** The loop's variables: the state, `old_uf`, the fields and `found_at`. */
  datatype Walk = Walk(s: State, last: Option<Field>, spans: Spans, foundAt: bool)

  /** The field a state belongs to; none for the delimiter states. */
  function FieldOf(s: State): Option<Field>
  {
    match s
    case ReqSchema => Some(Schema)
    case ReqServerWithAt | ReqServer => Some(Host)
    case ReqPath => Some(Path)
    case ReqQueryString => Some(Query)
    case ReqFragment => Some(Fragment)
    case _ => None
  }

  function StepWalk(w: Walk, i: nat, ch: Byte, mode: Mode): Walk
  {
    var s := ParseUrlChar(w.s, ch, mode);
    var f := FieldOf(s);
    if f.None? then w.(s := s)
    else
      var prev := SpanOf(w.spans, f.value);
      var span := if w.last == f then Span(prev.off, prev.len + 1) else Span(i, 1);
      Walk(s, f, w.spans[f.value := span], w.foundAt || s.ReqServerWithAt?)
  }

  function Start(connect: bool): Walk
  {
    Walk(if connect then ReqServerStart else ReqSpacesBeforeUrl, None, map[], false)
  }

  function WalkAll(w: Walk, buf: Bytes, mode: Mode): Walk
    decreases |buf|
  {
    if buf == [] then w
    else StepWalk(WalkAll(w, buf[..|buf| - 1], mode), |buf| - 1, buf[|buf| - 1], mode)
  }

  lemma WalkMore(w: Walk, buf: Bytes, ch: Byte, mode: Mode)
    ensures WalkAll(w, buf + [ch], mode) == StepWalk(WalkAll(w, buf, mode), |buf|, ch, mode)
  {
    assert (buf + [ch])[..|buf|] == buf;
  }

  /** A dead walk stays dead. */
  lemma DeadStep(w: Walk, i: nat, ch: Byte, mode: Mode)
    requires w.s.Dead?
    ensures StepWalk(w, i, ch, mode).s.Dead?
  {
  }

  lemma {:induction false} DeadForever(w: Walk, a: Bytes, b: Bytes, mode: Mode)
    requires WalkAll(w, a, mode).s.Dead?
    ensures WalkAll(w, a + b, mode).s.Dead?
    decreases |b|
  {
    hide StepWalk, WalkAll;
    if b == [] {
      assert a + b == a;
    } else {
      DeadForever(w, a, b[..|b| - 1], mode);
      assert a + b == (a + b[..|b| - 1]) + [b[|b| - 1]];
      WalkMore(w, a + b[..|b| - 1], b[|b| - 1], mode);
      DeadStep(WalkAll(w, a + b[..|b| - 1], mode), |a + b[..|b| - 1]|, b[|b| - 1], mode);
    }
  }

  // ----- the text of a URL -----

  /**
   * A URL as text: a scheme and `delim` bytes of "://", the server, the path, a query if `mark`, and a
   * fragment after `hashes` bytes '#'.
   */
  datatype Outer = Outer(
    scheme: Bytes, delim: nat, server: Bytes, path: Bytes, mark: bool, query: Bytes, hashes: nat, fragment: Bytes)

  const DELIM: Bytes := [':', '/', '/']

  function Hashes(n: nat): (r: Bytes)
    ensures |r| == n && forall i | 0 <= i < n :: r[i] == '#'
  {
    seq(n, _ => '#')
  }

  predicate AllAlpha(t: Bytes) { forall i | 0 <= i < |t| :: IsAlpha(t[i]) }

  predicate ServerText(t: Bytes)
  {
    && (forall i | 0 <= i < |t| :: IsServerChar(t[i]))
    && (forall i | 0 <= i < |t| - 1 :: t[i] == '@' ==> t[i + 1] != '@')
  }

  predicate PathText(t: Bytes, mode: Mode) { forall i | 0 < i < |t| :: IsUrlByte(t[i], mode) && !Deadly(t[i], mode) }

  predicate QueryText(t: Bytes, mode: Mode)
  {
    forall i | 0 <= i < |t| :: (IsUrlByte(t[i], mode) || t[i] == '?') && !Deadly(t[i], mode)
  }

  predicate FragmentText(t: Bytes, mode: Mode)
  {
    && (forall i | 0 <= i < |t| :: (IsUrlByte(t[i], mode) || t[i] == '?' || t[i] == '#') && !Deadly(t[i], mode))
    && (t != [] ==> t[0] != '#')
  }

  /** The server may start here. */
  predicate ServerOpen(o: Outer, connect: bool) { connect || o.delim == 3 }

  /** The conditions on the parts that are not about their bytes. */
  predicate Fitting(o: Outer, connect: bool)
  {
    && o.delim <= 3
    && (o.scheme == [] ==> o.delim == 0)
    && (connect ==> o.scheme == [])
    && (o.server != [] ==> ServerOpen(o, connect))
    && (o.path != [] ==> o.path[0] == '/' || (o.path[0] == '*' && o.scheme == [] && !connect))
    && (o.path != [] && (connect || o.scheme != []) ==> ServerOpen(o, connect))
    && (o.mark ==> o.path != [] || ServerOpen(o, connect))
    && (!o.mark ==> o.query == [])
    && (o.hashes > 0 ==> o.path != [] || o.mark)
    && (o.hashes == 0 ==> o.fragment == [])
  }

  /** The beginning of a URL, or all of it. */
  predicate Legal(o: Outer, connect: bool, mode: Mode)
  {
    && AllAlpha(o.scheme) && ServerText(o.server) && PathText(o.path, mode) && QueryText(o.query, mode)
    && FragmentText(o.fragment, mode) && Fitting(o, connect)
  }

  function Front(o: Outer): Bytes
    requires o.delim <= 3
  {
    o.scheme + DELIM[..o.delim] + o.server + o.path
  }

  function QueryPart(o: Outer): Bytes { if o.mark then ['?'] + o.query else [] }

  function Render(o: Outer): Bytes
    requires o.delim <= 3
  {
    Front(o) + QueryPart(o) + Hashes(o.hashes) + o.fragment
  }

  function FinalState(o: Outer, connect: bool): State
  {
    if o.fragment != [] then ReqFragment
    else if o.hashes > 0 then ReqFragmentStart
    else if o.query != [] then ReqQueryString
    else if o.mark then ReqQueryStringStart
    else if o.path != [] then ReqPath
    else if o.server != [] then if o.server[|o.server| - 1] == '@' then ReqServerWithAt else ReqServer
    else if connect || o.delim == 3 then ReqServerStart
    else if o.delim == 2 then ReqSchemaSlashSlash
    else if o.delim == 1 then ReqSchemaSlash
    else if o.scheme != [] then ReqSchema
    else ReqSpacesBeforeUrl
  }

  function LastField(o: Outer): Option<Field>
  {
    if o.fragment != [] then Some(Fragment)
    else if o.query != [] then Some(Query)
    else if o.path != [] then Some(Path)
    else if o.server != [] then Some(Host)
    else if o.scheme != [] then Some(Schema)
    else None
  }

  function Put(m: Spans, f: Field, off: nat, text: Bytes): Spans
  {
    if text == [] then m else m[f := Span(off, |text|)]
  }

  function ServerAt(o: Outer): nat { |o.scheme| + o.delim }
  function PathAt(o: Outer): nat { ServerAt(o) + |o.server| }
  function QueryAt(o: Outer): nat { PathAt(o) + |o.path| + 1 }
  function FragmentAt(o: Outer): nat { PathAt(o) + |o.path| + |QueryPart(o)| + o.hashes }

  function SpansOf(o: Outer): Spans
  {
    Put(Put(Put(Put(Put(map[], Schema, 0, o.scheme), Host, ServerAt(o), o.server), Path, PathAt(o), o.path),
            Query, QueryAt(o), o.query), Fragment, FragmentAt(o), o.fragment)
  }

  /** What the loop has found after the text of `o`. */
  function Found(o: Outer, connect: bool): Walk
  {
    Walk(FinalState(o, connect), LastField(o), SpansOf(o), '@' in o.server)
  }

  // ----- one more byte -----

  datatype Part = InScheme | InDelim | InServer | InPath | InMark | InQuery | InHash | InFragment

  /** The part that the next byte belongs to. */
  function PartFor(s: State, ch: Byte): Part
  {
    match s
    case ReqSpacesBeforeUrl => if ch == '/' || ch == '*' then InPath else InScheme
    case ReqSchema => if ch == ':' then InDelim else InScheme
    case ReqSchemaSlash | ReqSchemaSlashSlash => InDelim
    case ReqServerStart | ReqServer | ReqServerWithAt =>
      if ch == '/' then InPath else if ch == '?' then InMark else InServer
    case ReqPath => if ch == '?' then InMark else if ch == '#' then InHash else InPath
    case ReqQueryStringStart | ReqQueryString => if ch == '#' then InHash else InQuery
    case ReqFragmentStart => if ch == '#' then InHash else InFragment
    case _ => InFragment
  }

  /** The parts after this one are still empty, and the byte is the one this part needs. */
  predicate Room(o: Outer, part: Part, ch: Byte)
  {
    && o.delim <= 3
    && (part.InFragment? || o.fragment == [])
    && (part.InFragment? || part.InHash? || o.hashes == 0)
    && (part.InFragment? || part.InHash? || part.InQuery? || (o.query == [] && !o.mark))
    && (part.InScheme? || part.InDelim? || part.InServer? ==> o.path == [])
    && (part.InScheme? || part.InDelim? ==> o.server == [])
    && (part.InScheme? ==> o.delim == 0)
    && (part.InDelim? ==> o.delim < 3 && ch == DELIM[o.delim])
    && (part.InMark? ==> ch == '?') && (part.InQuery? ==> o.mark) && (part.InHash? ==> ch == '#')
  }

  function Add(o: Outer, part: Part, ch: Byte): Outer
  {
    match part
    case InScheme => o.(scheme := o.scheme + [ch])
    case InDelim => o.(delim := o.delim + 1)
    case InServer => o.(server := o.server + [ch])
    case InPath => o.(path := o.path + [ch])
    case InMark => o.(mark := true)
    case InQuery => o.(query := o.query + [ch])
    case InHash => o.(hashes := o.hashes + 1)
    case InFragment => o.(fragment := o.fragment + [ch])
  }

  lemma RenderFront(o: Outer, part: Part, ch: Byte)
    requires Room(o, part, ch) && (part.InScheme? || part.InDelim? || part.InServer? || part.InPath?)
    ensures var q := Add(o, part, ch); q.delim <= 3 && Front(q) == Front(o) + [ch]
  {
    assert DELIM[..0] == [] && DELIM[..1] == [':'] && DELIM[..2] == [':', '/'] && DELIM[..3] == [':', '/', '/'];
  }

  lemma RenderFrontAdd(o: Outer, part: Part, ch: Byte)
    requires Room(o, part, ch) && (part.InScheme? || part.InDelim? || part.InServer? || part.InPath?)
    ensures var q := Add(o, part, ch); q.delim <= 3 && Render(q) == Render(o) + [ch]
  {
    hide Front;
    RenderFront(o, part, ch);
    assert Hashes(0) == [];
  }

  lemma RenderBackAdd(o: Outer, part: Part, ch: Byte)
    requires Room(o, part, ch) && (part.InMark? || part.InQuery? || part.InHash? || part.InFragment?)
    ensures var q := Add(o, part, ch); q.delim <= 3 && Render(q) == Render(o) + [ch]
  {
    hide Front;
    var q := Add(o, part, ch);
    SameFront(o, q);
    assert Hashes(o.hashes + 1) == Hashes(o.hashes) + ['#'] && Hashes(0) == [];
  }

  lemma SameFront(o: Outer, q: Outer)
    requires o.delim == q.delim <= 3 && o.scheme == q.scheme && o.server == q.server && o.path == q.path
    ensures Front(o) == Front(q)
  {
  }

  lemma RenderAdd(o: Outer, part: Part, ch: Byte)
    requires Room(o, part, ch)
    ensures var q := Add(o, part, ch); q.delim <= 3 && Render(q) == Render(o) + [ch]
  {
    hide Render, Add, Room;
    SmallRoom(o, part, ch);
    if part.InScheme? || part.InDelim? || part.InServer? || part.InPath? {
      RenderFrontAdd(o, part, ch);
    } else {
      RenderBackAdd(o, part, ch);
    }
  }

  lemma SmallRoom(o: Outer, part: Part, ch: Byte)
    requires Room(o, part, ch)
    ensures o.delim <= 3
  {
  }

  lemma RenderLength(o: Outer)
    requires o.delim <= 3
    ensures |Render(o)| == FragmentAt(o) + |o.fragment|
  {
  }

  /** Extending the field that was extended last, or starting a new one. */
  lemma PutMore(m: Spans, f: Field, off: nat, text: Bytes, ch: Byte)
    ensures Put(m, f, off, text + [ch]) == m[f := Span(off, |text| + 1)]
    ensures text != [] ==>
              SpanOf(Put(m, f, off, text), f) == Span(off, |text|)
              && Put(m, f, off, text)[f := Span(off, |text| + 1)] == Put(m, f, off, text + [ch])
  {
  }

  /** The field a part belongs to, if any. */
  function FieldFor(part: Part): Option<Field>
  {
    match part
    case InScheme => Some(Schema)
    case InServer => Some(Host)
    case InPath => Some(Path)
    case InQuery => Some(Query)
    case InFragment => Some(Fragment)
    case _ => None
  }

  function Base(o: Outer, part: Part): Spans
  {
    match part
    case InScheme => map[]
    case InServer => Put(map[], Schema, 0, o.scheme)
    case InPath => Put(Put(map[], Schema, 0, o.scheme), Host, ServerAt(o), o.server)
    case InQuery =>
      Put(Put(Put(map[], Schema, 0, o.scheme), Host, ServerAt(o), o.server), Path, PathAt(o), o.path)
    case _ =>
      Put(Put(Put(Put(map[], Schema, 0, o.scheme), Host, ServerAt(o), o.server), Path, PathAt(o), o.path),
            Query, QueryAt(o), o.query)
  }

  function TextOf(o: Outer, part: Part): Bytes
  {
    match part
    case InScheme => o.scheme
    case InServer => o.server
    case InPath => o.path
    case InQuery => o.query
    case _ => o.fragment
  }

  lemma SpansAdd(o: Outer, part: Part, ch: Byte)
    requires Room(o, part, ch) && FieldFor(part).Some?
    ensures var q, f := Add(o, part, ch), FieldFor(part).value;
            var off := |Render(o)| - |TextOf(o, part)|;
            && off >= 0
            && SpansOf(o) == Put(Base(o, part), f, off, TextOf(o, part))
            && SpansOf(q) == Put(Base(o, part), f, off, TextOf(o, part) + [ch])
  {
    RenderLength(o);
  }

  lemma LastAdd(o: Outer, part: Part, ch: Byte)
    requires Room(o, part, ch) && FieldFor(part).Some?
    ensures LastField(Add(o, part, ch)) == FieldFor(part)
    ensures LastField(o) == FieldFor(part) <==> TextOf(o, part) != []
  {
  }

  /** One byte of a field, as the loop counts it. */
  lemma FieldAdd(o: Outer, part: Part, ch: Byte)
    requires Room(o, part, ch) && FieldFor(part).Some?
    ensures var q, f := Add(o, part, ch), FieldFor(part).value;
            var prev := SpanOf(SpansOf(o), f);
            SpansOf(q) == SpansOf(o)[f := if LastField(o) == Some(f) then Span(prev.off, prev.len + 1)
                                         else Span(|Render(o)|, 1)]
  {
    hide Render, SpansOf, Base;
    SpansAdd(o, part, ch);
    LastAdd(o, part, ch);
    hide LastField;
    PutMore(Base(o, part), FieldFor(part).value, |Render(o)| - |TextOf(o, part)|, TextOf(o, part), ch);
  }

  lemma NoFieldAdd(o: Outer, part: Part, ch: Byte)
    requires Room(o, part, ch) && FieldFor(part).None?
    ensures var q := Add(o, part, ch); SpansOf(q) == SpansOf(o) && LastField(q) == LastField(o)
  {
  }

  // ----- the state machine on the text -----

  lemma RoomFor(o: Outer, connect: bool, mode: Mode, ch: Byte)
    requires Legal(o, connect, mode) && !ParseUrlChar(FinalState(o, connect), ch, mode).Dead?
    ensures Room(o, PartFor(FinalState(o, connect), ch), ch)
  {
    hide IsUserinfoChar, IsUrlByte, IsAlpha, Deadly, ServerText, PathText, QueryText, FragmentText, AllAlpha;
  }

  /** What a state accepts into a part. */
  lemma ByteFor(s: State, ch: Byte, mode: Mode)
    requires !ParseUrlChar(s, ch, mode).Dead?
    ensures var part := PartFor(s, ch);
            && !Deadly(ch, mode)
            && (part.InScheme? ==> IsAlpha(ch))
            && (part.InServer? ==> IsServerChar(ch) && (s.ReqServerWithAt? ==> ch != '@'))
            && (part.InPath? && s.ReqPath? ==> IsUrlByte(ch, mode))
            && (part.InQuery? ==> IsUrlByte(ch, mode) || ch == '?')
            && (part.InFragment? ==> IsUrlByte(ch, mode) || ch == '?' || ch == '#')
            && (part.InFragment? && s.ReqFragmentStart? ==> ch != '#')
  {
    hide IsUrlByte, IsAlpha, Deadly, IsUserinfoChar;
  }

  predicate FragmentByte(t: Bytes, ch: Byte, mode: Mode)
  {
    (IsUrlByte(ch, mode) || ch == '?' || ch == '#') && !Deadly(ch, mode) && (t == [] ==> ch != '#')
  }

  /** A text with one more byte of its kind. */
  lemma TextMore(t: Bytes, ch: Byte, mode: Mode)
    ensures AllAlpha(t) && IsAlpha(ch) ==> AllAlpha(t + [ch])
    ensures ServerText(t) && IsServerChar(ch) && (t != [] && t[|t| - 1] == '@' ==> ch != '@') ==> ServerText(t + [ch])
    ensures PathText(t, mode) && (t == [] || (IsUrlByte(ch, mode) && !Deadly(ch, mode))) ==> PathText(t + [ch], mode)
    ensures QueryText(t, mode) && (IsUrlByte(ch, mode) || ch == '?') && !Deadly(ch, mode) ==> QueryText(t + [ch], mode)
    ensures FragmentText(t, mode) && FragmentByte(t, ch, mode) ==> FragmentText(t + [ch], mode)
  {
    hide IsUrlByte, IsAlpha, Deadly, IsServerChar;
  }

  /** What the state says about the text before the next byte. */
  lemma LastByte(o: Outer, connect: bool, ch: Byte)
    ensures var s := FinalState(o, connect);
            var part := PartFor(s, ch);
            && (part.InServer? && o.server != [] && o.server[|o.server| - 1] == '@' ==> s.ReqServerWithAt?)
            && (part.InPath? && o.path != [] ==> s.ReqPath?)
            && (part.InFragment? && o.fragment == [] ==> s.ReqFragmentStart?)
  {
  }

  lemma TextAdd(o: Outer, connect: bool, mode: Mode, ch: Byte)
    requires Legal(o, connect, mode) && !ParseUrlChar(FinalState(o, connect), ch, mode).Dead?
    ensures var q := Add(o, PartFor(FinalState(o, connect), ch), ch);
            AllAlpha(q.scheme) && ServerText(q.server) && PathText(q.path, mode) && QueryText(q.query, mode)
            && FragmentText(q.fragment, mode)
  {
    hide Fitting, ParseUrlChar, FinalState, PartFor, IsUrlByte, IsAlpha, Deadly, IsServerChar, AllAlpha, ServerText,
         PathText, QueryText, FragmentText;
    var s := FinalState(o, connect);
    ByteFor(s, ch, mode);
    LastByte(o, connect, ch);
    match PartFor(s, ch)
    case InScheme => TextMore(o.scheme, ch, mode);
    case InServer => TextMore(o.server, ch, mode);
    case InPath => TextMore(o.path, ch, mode);
    case InQuery => TextMore(o.query, ch, mode);
    case InFragment => TextMore(o.fragment, ch, mode);
    case _ =>
  }

  lemma FittingEarly(o: Outer, connect: bool, mode: Mode, ch: Byte)
    requires Fitting(o, connect) && !ParseUrlChar(FinalState(o, connect), ch, mode).Dead?
    requires o.path == [] && !o.mark && o.hashes == 0
    ensures Fitting(Add(o, PartFor(FinalState(o, connect), ch), ch), connect)
  {
    hide IsUserinfoChar, IsAlpha, Deadly;
  }

  lemma FittingFragment(o: Outer, connect: bool, ch: Byte)
    requires Fitting(o, connect) && o.hashes > 0
    ensures Fitting(Add(o, PartFor(FinalState(o, connect), ch), ch), connect)
  {
  }

  lemma FittingQuery(o: Outer, connect: bool, ch: Byte)
    requires Fitting(o, connect) && o.hashes == 0 && o.mark
    ensures Fitting(Add(o, PartFor(FinalState(o, connect), ch), ch), connect)
  {
  }

  lemma FittingPath(o: Outer, connect: bool, ch: Byte)
    requires Fitting(o, connect) && o.hashes == 0 && !o.mark && o.path != []
    ensures Fitting(Add(o, PartFor(FinalState(o, connect), ch), ch), connect)
  {
  }

  lemma LegalAdd(o: Outer, connect: bool, mode: Mode, ch: Byte)
    requires Legal(o, connect, mode) && !ParseUrlChar(FinalState(o, connect), ch, mode).Dead?
    ensures Legal(Add(o, PartFor(FinalState(o, connect), ch), ch), connect, mode)
  {
    hide Fitting, ParseUrlChar, FinalState, PartFor, Add, AllAlpha, ServerText, PathText, QueryText, FragmentText;
    TextAdd(o, connect, mode, ch);
    if o.path == [] && !o.mark && o.hashes == 0 {
      FittingEarly(o, connect, mode, ch);
    } else if o.hashes > 0 {
      FittingFragment(o, connect, ch);
    } else if o.mark {
      FittingQuery(o, connect, ch);
    } else {
      FittingPath(o, connect, ch);
    }
  }

  /** Where a state goes with a byte of a part. */
  lemma MoveFor(s: State, ch: Byte, mode: Mode)
    requires !ParseUrlChar(s, ch, mode).Dead?
    ensures var part, t := PartFor(s, ch), ParseUrlChar(s, ch, mode);
            && FieldOf(t) == FieldFor(part)
            && (part.InScheme? ==> t.ReqSchema?)
            && (part.InDelim? ==> t == if s.ReqSchema? then ReqSchemaSlash
                                       else if s.ReqSchemaSlash? then ReqSchemaSlashSlash else ReqServerStart)
            && (part.InServer? ==> t == if ch == '@' then ReqServerWithAt else ReqServer)
            && (part.InPath? ==> t.ReqPath?)
            && (part.InMark? ==> t.ReqQueryStringStart?)
            && (part.InQuery? ==> t.ReqQueryString?)
            && (part.InHash? ==> t.ReqFragmentStart?)
            && (part.InFragment? ==> t.ReqFragment?)
            && (t.ReqServerWithAt? ==> part.InServer?)
  {
    hide Deadly, IsUserinfoChar;
  }

  lemma StateAdd(o: Outer, connect: bool, mode: Mode, ch: Byte)
    requires Legal(o, connect, mode) && !ParseUrlChar(FinalState(o, connect), ch, mode).Dead?
    ensures var s, part := FinalState(o, connect), PartFor(FinalState(o, connect), ch);
            var q := Add(o, part, ch);
            && FinalState(q, connect) == ParseUrlChar(s, ch, mode)
            && FieldOf(ParseUrlChar(s, ch, mode)) == FieldFor(part)
            && (('@' in q.server) <==> ('@' in o.server) || ParseUrlChar(s, ch, mode).ReqServerWithAt?)
  {
    MoveFor(FinalState(o, connect), ch, mode);
    RoomFor(o, connect, mode, ch);
    hide ParseUrlChar, ServerText, PathText, QueryText, FragmentText, AllAlpha, FieldOf, FieldFor;
  }

  /** One more byte that the machine accepts. */
  lemma Grow(o: Outer, connect: bool, mode: Mode, ch: Byte)
    requires Legal(o, connect, mode) && !ParseUrlChar(FinalState(o, connect), ch, mode).Dead?
    ensures var q := Add(o, PartFor(FinalState(o, connect), ch), ch);
            && Legal(q, connect, mode) && Render(q) == Render(o) + [ch]
            && Found(q, connect) == StepWalk(Found(o, connect), |Render(o)|, ch, mode)
  {
    hide Fitting, AllAlpha, ServerText, PathText, QueryText, FragmentText, ParseUrlChar, FinalState, SpansOf,
         LastField, Render, Room, PartFor, Add, FieldFor, TextOf, SpanOf;
    var part := PartFor(FinalState(o, connect), ch);
    SmallDelim(o, connect);
    LegalAdd(o, connect, mode, ch);
    StateAdd(o, connect, mode, ch);
    RoomFor(o, connect, mode, ch);
    RenderAdd(o, part, ch);
    if FieldFor(part).Some? {
      FieldAdd(o, part, ch);
      LastAdd(o, part, ch);
    } else {
      NoFieldAdd(o, part, ch);
    }
  }

  const EMPTY: Outer := Outer([], 0, [], [], false, [], 0, [])

  /** Every prefix that is not dead is the text of a legal `Outer`. */
  lemma {:induction false} Shape(buf: Bytes, connect: bool, mode: Mode) returns (o: Outer)
    requires !WalkAll(Start(connect), buf, mode).s.Dead?
    ensures Legal(o, connect, mode) && Render(o) == buf && Found(o, connect) == WalkAll(Start(connect), buf, mode)
    decreases |buf|
  {
    if buf == [] {
      o := EMPTY;
      assert Hashes(0) == [];
    } else {
      var front, ch := buf[..|buf| - 1], buf[|buf| - 1];
      assert buf == front + [ch];
      hide Legal, ParseUrlChar, FinalState, FieldOf, SpansOf, LastField, Render;
      var p := Shape(front, connect, mode);
      Grow(p, connect, mode, ch);
      o := Add(p, PartFor(FinalState(p, connect), ch), ch);
    }
  }

  // ----- the other way: the machine reads every legal text -----

  /** The last byte of a text, and the text before it. */
  function Drop(o: Outer): (r: (Outer, Part, Byte))
    requires o.delim <= 3
  {
    if o.fragment != [] then
      (o.(fragment := o.fragment[..|o.fragment| - 1]), InFragment, o.fragment[|o.fragment| - 1])
    else if o.hashes > 0 then (o.(hashes := o.hashes - 1), InHash, '#')
    else if o.query != [] then (o.(query := o.query[..|o.query| - 1]), InQuery, o.query[|o.query| - 1])
    else if o.mark then (o.(mark := false), InMark, '?')
    else if o.path != [] then (o.(path := o.path[..|o.path| - 1]), InPath, o.path[|o.path| - 1])
    else if o.server != [] then (o.(server := o.server[..|o.server| - 1]), InServer, o.server[|o.server| - 1])
    else if o.delim > 0 then (o.(delim := o.delim - 1), InDelim, DELIM[o.delim - 1])
    else if o.scheme != [] then (o.(scheme := o.scheme[..|o.scheme| - 1]), InScheme, o.scheme[|o.scheme| - 1])
    else (o, InScheme, 'a')
  }

  lemma DropLegal(o: Outer, connect: bool, mode: Mode)
    requires Legal(o, connect, mode)
    ensures Legal(Drop(o).0, connect, mode)
  {
    hide AllAlpha, ServerText, PathText, QueryText, FragmentText, Fitting;
    SmallDelim(o, connect);
    DropTexts(o, mode);
    DropFitting(o, connect);
  }

  lemma SmallDelim(o: Outer, connect: bool)
    requires Fitting(o, connect)
    ensures o.delim <= 3
  {
  }

  lemma DropFitting(o: Outer, connect: bool)
    requires Fitting(o, connect)
    ensures Fitting(Drop(o).0, connect)
  {
  }

  /** A text without its last byte. */
  lemma TextLess(t: Bytes, mode: Mode)
    requires t != []
    ensures var u := t[..|t| - 1];
            && (AllAlpha(t) ==> AllAlpha(u)) && (ServerText(t) ==> ServerText(u))
            && (PathText(t, mode) ==> PathText(u, mode))
            && (QueryText(t, mode) ==> QueryText(u, mode)) && (FragmentText(t, mode) ==> FragmentText(u, mode))
  {
    hide IsUrlByte, IsAlpha, Deadly, IsServerChar;
  }

  lemma DropTexts(o: Outer, mode: Mode)
    requires o.delim <= 3 && AllAlpha(o.scheme) && ServerText(o.server) && PathText(o.path, mode)
    requires QueryText(o.query, mode) && FragmentText(o.fragment, mode)
    ensures var p := Drop(o).0;
            && AllAlpha(p.scheme) && ServerText(p.server) && PathText(p.path, mode) && QueryText(p.query, mode)
            && FragmentText(p.fragment, mode)
  {
    hide AllAlpha, ServerText, PathText, QueryText, FragmentText;
    if o.fragment != [] {
      TextLess(o.fragment, mode);
    } else if o.query != [] {
      TextLess(o.query, mode);
    } else if o.path != [] {
      TextLess(o.path, mode);
    } else if o.server != [] {
      TextLess(o.server, mode);
    } else if o.scheme != [] {
      TextLess(o.scheme, mode);
    }
  }

  lemma DropAdd(o: Outer)
    requires o.delim <= 3 && o != EMPTY && (!o.mark ==> o.query == [])
    ensures var (p, part, ch) := Drop(o); Add(p, part, ch) == o
  {
  }

  /** What each state does with the bytes of its parts. */
  lemma Accepts(s: State, ch: Byte, mode: Mode)
    ensures IsAlpha(ch) && (s.ReqSpacesBeforeUrl? || s.ReqSchema?) ==>
              PartFor(s, ch).InScheme? && ParseUrlChar(s, ch, mode).ReqSchema?
    ensures IsServerChar(ch) && (s.ReqServerStart? || s.ReqServer? || (s.ReqServerWithAt? && ch != '@')) ==>
              PartFor(s, ch).InServer? && !ParseUrlChar(s, ch, mode).Dead?
    ensures IsUrlByte(ch, mode) && !Deadly(ch, mode) && s.ReqPath? ==>
              PartFor(s, ch).InPath? && !ParseUrlChar(s, ch, mode).Dead?
    ensures (IsUrlByte(ch, mode) || ch == '?') && !Deadly(ch, mode) && (s.ReqQueryStringStart? || s.ReqQueryString?) ==>
              PartFor(s, ch).InQuery? && !ParseUrlChar(s, ch, mode).Dead?
    ensures FragmentByte([], ch, mode) && (s.ReqFragmentStart? || s.ReqFragment?) ==>
              PartFor(s, ch).InFragment? && !ParseUrlChar(s, ch, mode).Dead?
  {
  }

  predicate TakesBack(o: Outer, connect: bool, mode: Mode)
    requires o.delim <= 3
  {
    var (p, part, ch) := Drop(o);
    PartFor(FinalState(p, connect), ch) == part && !ParseUrlChar(FinalState(p, connect), ch, mode).Dead?
  }

  lemma DropLate(o: Outer, connect: bool, mode: Mode)
    requires Legal(o, connect, mode) && (o.fragment != [] || o.query != []) && (o.hashes > 0 ==> o.fragment != [])
    ensures TakesBack(o, connect, mode)
  {
    var (p, part, ch) := Drop(o);
    Accepts(FinalState(p, connect), ch, mode);
    hide IsAlpha, IsServerChar, IsUrlByte, Deadly, AllAlpha, ServerText, PathText, Front;
    if |o.fragment| > 1 {
      assert FinalState(p, connect).ReqFragment?;
    }
  }

  lemma DropMarks(o: Outer, connect: bool, mode: Mode)
    requires Legal(o, connect, mode) && o.fragment == [] && (o.hashes > 0 || (o.query == [] && o.mark))
    ensures TakesBack(o, connect, mode)
  {
    hide IsAlpha, IsServerChar, AllAlpha, ServerText, PathText, QueryText, FragmentText;
  }

  lemma DropPath(o: Outer, connect: bool, mode: Mode)
    requires Legal(o, connect, mode) && o.fragment == [] && o.hashes == 0 && !o.mark && o.path != []
    ensures TakesBack(o, connect, mode)
  {
    var (p, part, ch) := Drop(o);
    Accepts(FinalState(p, connect), ch, mode);
    hide IsAlpha, IsServerChar, IsUrlByte, AllAlpha, ServerText, QueryText, FragmentText;
  }

  lemma DropEarly(o: Outer, connect: bool, mode: Mode)
    requires Legal(o, connect, mode) && o.fragment == [] && o.hashes == 0 && !o.mark && o.path == [] && o != EMPTY
    ensures TakesBack(o, connect, mode)
  {
    var (p, part, ch) := Drop(o);
    Accepts(FinalState(p, connect), ch, mode);
    hide IsAlpha, IsServerChar, IsUrlByte, PathText, QueryText, FragmentText;
  }

  /** The machine takes the dropped byte back. */
  lemma DropAccepted(o: Outer, connect: bool, mode: Mode)
    requires Legal(o, connect, mode) && o != EMPTY
    ensures TakesBack(o, connect, mode)
  {
    if (o.fragment != [] || o.query != []) && (o.hashes > 0 ==> o.fragment != []) {
      DropLate(o, connect, mode);
    } else if o.hashes > 0 || o.mark {
      DropMarks(o, connect, mode);
    } else if o.path != [] {
      DropPath(o, connect, mode);
    } else {
      DropEarly(o, connect, mode);
    }
  }

  /** The machine reads every legal text to its end and marks its pieces. */
  lemma {:induction false} WalkRender(o: Outer, connect: bool, mode: Mode)
    requires Legal(o, connect, mode)
    ensures WalkAll(Start(connect), Render(o), mode) == Found(o, connect)
    decreases |o.scheme| + o.delim + |o.server| + |o.path|
              + (if o.mark then 1 else 0) + |o.query| + o.hashes + |o.fragment|
  {
    if o == EMPTY {
      assert Hashes(0) == [];
    } else {
      var (p, part, ch) := Drop(o);
      DropLegal(o, connect, mode);
      DropAdd(o);
      DropAccepted(o, connect, mode);
      WalkRender(p, connect, mode);
      hide Legal, ParseUrlChar, FinalState, FieldOf, SpansOf, LastField, Render, PartFor, Drop;
      Grow(p, connect, mode, ch);
      WalkMore(Start(connect), Render(p), ch, mode);
    }
  }
}
