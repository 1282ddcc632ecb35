/**
 * Header lines, as a client prints them: each delivers exactly its name and its value, and the lines of a
 * block together say how the message is framed.
 */
module HttpFields {
  import opened HttpTypes
  import opened HttpSwitch
  import opened HttpMachine
  import opened HttpFast
  import opened HttpLengths
  import opened HttpTokens
  import opened HttpCoding

  function Line(h: Header): Bytes { h.name + [':', ' '] + h.value + [CR, LF] }

  function Block(hs: seq<Header>): Bytes
  {
    if hs == [] then [] else Line(hs[0]) + Block(hs[1..])
  }

  // ----- quoted strings in values -----

  /** What a byte does to the quoting of an ordinary value. */
  function Quote(h: HeaderState, ch: Byte): HeaderState
  {
    match h
    case General => if ch == QT then GeneralAndQuote else General
    case GeneralAndQuote => if ch == QT then General else if ch == BS then GeneralAndQuoteAndEscape else GeneralAndQuote
    case _ => GeneralAndQuote
  }

  function Quoting(h: HeaderState, t: Bytes): HeaderState
    decreases |t|
  {
    if t == [] then h else Quoting(Quote(h, t[0]), t[1..])
  }

  predicate Quotes(h: HeaderState) { h.General? || h.GeneralAndQuote? || h.GeneralAndQuoteAndEscape? }

  /** A value that ends in the middle of an escape would swallow its line end. */
  predicate Closed(t: Bytes) { !Quoting(General, t).GeneralAndQuoteAndEscape? }

  // ----- what a header says about the framing -----

  datatype Frame = Frame(length: int, chunked: bool, upgrade: bool)

  function FrameOf(p: Parser): Frame { Frame(p.contentLength, p.chunked, p.upgradeSeen) }

  predicate ProperText(v: Bytes)
  {
    (forall i | 0 <= i < |v| :: ValueByte(v[i])) && (v != [] ==> v[0] != ' ' && v[0] != HT)
  }

  /** A header that the parser does not refuse. */
  predicate ProperHeader(h: Header)
  {
    var w := Lowered(h.name);
    && h.name != [] && AllTokens(h.name) && ProperText(h.value)
    && if w == CONTENT_LENGTH then
         h.value != [] && IsNum(h.value[0]) && NumberText(h.value) && DecValue(h.value) < HUGE_LENGTH
       else if w == TRANSFER_ENCODING then h.value != [] && BS !in h.value
       else if w == UPGRADE then h.value != [] && Closed(h.value[1..])
       else Closed(h.value)
  }

  /** The last Content-Length counts; any one Transfer-Encoding that says so makes the body chunked. */
  function Says(f: Frame, h: Header): Frame
    requires ProperHeader(h)
  {
    var w := Lowered(h.name);
    if w == CONTENT_LENGTH then f.(length := DecValue(h.value))
    else if w == TRANSFER_ENCODING then f.(chunked := f.chunked || SaysChunked(h.value))
    else if w == UPGRADE then f.(upgrade := true)
    else f
  }

  function SaysAll(f: Frame, hs: seq<Header>): Frame
    requires forall i | 0 <= i < |hs| :: ProperHeader(hs[i])
    decreases |hs|
  {
    if hs == [] then f else SaysAll(Says(f, hs[0]), hs[1..])
  }

  function HeaderItems(hs: seq<Header>): Trace
  {
    if hs == [] then [] else [Text(Field, hs[0].name), Text(Value, hs[0].value)] + HeaderItems(hs[1..])
  }

  // ----- the name -----

  /** Before the first header, or after one. */
  predicate AtLine(c: Config)
  {
    (c.p.state.HeaderFieldStart? || c.p.state.HeaderValueLws?) && c.live.None? && c.held == [] && c.p.errno == Ok
  }

  function Fresh(c: Config): Config { c.(p := c.p.(state := HeaderFieldStart)) }

  /** A line that does not begin with white space begins a header of its own. */
  lemma LineStarts(sw: Switcher, settings: Settings, c: Config, data: Bytes)
    requires Runs(sw, settings) && AtLine(c) && data != [] && data[0] != ' ' && data[0] != HT
    ensures FeedAll(sw, c, data) == FeedAll(sw, Fresh(c), data)
  {
    hide Runs, Feed;
    if c.p.state.HeaderValueLws? {
      VisitsHeader(sw, settings, c.p, data[0]);
      FeedTwice(sw, c, data[0]);
      assert Perform(c, sw(c.p, data[0]), data[0]) == Fresh(c);
    } else {
      assert Fresh(c) == c;
    }
  }

  /** The configuration at the value of a header with this name. */
  predicate AtValue(c: Config, d: Config, name: Bytes)
  {
    && d == c.(p := d.p, out := Put(c.out, Field, name), used := c.used + |name| + 2)
    && d.p == c.p.(state := HeaderValueStart, hstate := NameState(Lowered(name)), index := d.p.index)
  }

  lemma Colon(sw: Switcher, settings: Settings, c: Config)
    requires Runs(sw, settings) && c.p.state.HeaderField? && c.live == Some(Field) && c.p.errno == Ok
    ensures FeedAll(sw, c, [':']) ==
            Running(c.(p := c.p.(state := HeaderValueStart), live := None, held := [], out := Put(c.out, Field, c.held),
                       used := c.used + 1))
  {
    hide Runs, Feed, FeedAll, Put, MatchName;
    VisitsHeader(sw, settings, c.p, ':');
    FeedSingle(sw, c, ':');
    FeedOnce(sw, c, ':');
  }

  lemma Blank(sw: Switcher, settings: Settings, c: Config)
    requires Runs(sw, settings) && c.p.state.HeaderValueStart? && c.live.None? && c.p.errno == Ok
    ensures FeedAll(sw, c, [' ']) == Running(c.(used := c.used + 1))
  {
    hide Runs, Feed, FeedAll, Put;
    VisitsHeader(sw, settings, c.p, ' ');
    FeedSingle(sw, c, ' ');
    FeedOnce(sw, c, ' ');
  }

  lemma ReadName(sw: Switcher, settings: Settings, c: Config, name: Bytes)
    requires Runs(sw, settings) && AtName(c) && c.held == [] && name != [] && AllTokens(name)
    ensures FeedAll(sw, c, name + [':', ' ']).Running? && AtValue(c, FeedAll(sw, c, name + [':', ' ']).c, name)
  {
    hide Runs, FeedAll, Put, NameState, Lowered, IsToken;
    NameExact(sw, settings, c, name);
    var d := FeedAll(sw, c, name).c;
    var e := d.(p := d.p.(state := HeaderValueStart), live := None, held := [], out := Put(d.out, Field, d.held),
                used := d.used + 1);
    Colon(sw, settings, d);
    Blank(sw, settings, e);
    Then(sw, d, [':'], e, [' ']);
    assert [':'] + [' '] == [':', ' '];
    Then(sw, c, name, d, [':', ' ']);
  }

  // ----- the value -----

  predicate InValue(c: Config)
  {
    c.p.state.HeaderValue? && Quotes(c.p.hstate) && c.live == Some(Value) && c.p.errno == Ok
  }

  function Quoted(c: Config, h: HeaderState): Config { c.(p := c.p.(hstate := h)) }

  lemma ValueStep(sw: Switcher, settings: Settings, c: Config, ch: Byte)
    requires Runs(sw, settings) && InValue(c) && ValueByte(ch)
    ensures Feed(sw, c, ch) == Running(Extend(Quoted(c, Quote(c.p.hstate, ch)), [ch]))
  {
    hide Runs, Feed, Put, IsHeaderChar;
    VisitsHeader(sw, settings, c.p, ch);
    FeedOnce(sw, c, ch);
  }

  lemma {:induction false} ValueRun(sw: Switcher, settings: Settings, c: Config, t: Bytes)
    requires Runs(sw, settings) && InValue(c) && forall i | 0 <= i < |t| :: ValueByte(t[i])
    ensures FeedAll(sw, c, t) == Running(Extend(Quoted(c, Quoting(c.p.hstate, t)), t))
    decreases |t|
  {
    hide Runs, Feed, ValueByte;
    if t == [] {
      assert c.held + t == c.held;
    } else {
      var d := Quoted(c, Quote(c.p.hstate, t[0]));
      ValueStep(sw, settings, c, t[0]);
      ValueRun(sw, settings, Extend(d, [t[0]]), t[1..]);
      ExtendTwice(Quoted(d, Quoting(d.p.hstate, t[1..])), t[0], t[1..]);
      assert t == [t[0]] + t[1..];
    }
  }

  /** The text of a value has been read. */
  predicate ValueRead(c: Config, d: Config, h: Header)
    requires ProperHeader(h)
  {
    && d == c.(p := d.p, live := Some(Value), held := h.value, used := c.used + |h.value|)
    && d.p == c.p.(state := HeaderValue, hstate := d.p.hstate, index := d.p.index, contentLength := d.p.contentLength,
                   upgradeSeen := d.p.upgradeSeen)
    && !d.p.hstate.GeneralAndQuoteAndEscape?
    && FrameOf(d.p.(chunked := d.p.chunked || d.p.hstate.TransferEncodingChunked?)) == Says(FrameOf(c.p), h)
  }

  predicate BeforeValue(c: Config, h: Header)
  {
    && c.p.state.HeaderValueStart? && c.p.hstate == NameState(Lowered(h.name))
    && c.live.None? && c.held == [] && c.p.errno == Ok
  }

  lemma NumberValue(sw: Switcher, settings: Settings, c: Config, h: Header)
    requires Runs(sw, settings) && ProperHeader(h) && BeforeValue(c, h) && Lowered(h.name) == CONTENT_LENGTH
    ensures FeedAll(sw, c, h.value).Running? && ValueRead(c, FeedAll(sw, c, h.value).c, h)
  {
    hide Runs, FeedAll, IsToken, IsNum, DecValue, NumberText, ValueByte, Lowered;
    ContentLengthExact(sw, settings, c, h.value);
  }

  lemma CodingValue(sw: Switcher, settings: Settings, c: Config, h: Header)
    requires Runs(sw, settings) && ProperHeader(h) && BeforeValue(c, h) && Lowered(h.name) == TRANSFER_ENCODING
    ensures FeedAll(sw, c, h.value).Running? && ValueRead(c, FeedAll(sw, c, h.value).c, h)
  {
    hide Runs, FeedAll, IsToken, IsNum, CodingKnown, ValueByte, SaysChunked, Lowered;
    CodingExact(sw, settings, c, h.value);
    CodingSays(FeedAll(sw, c, h.value).c.p, h.value);
  }

  lemma FirstOutcome(p: Parser, ch: Byte)
    requires p.state.HeaderValueStart? && ValueByte(ch) && ch != ' ' && ch != HT
    requires !p.hstate.ContentLength? && !p.hstate.TransferEncoding?
    ensures SwitchValueStart(p, ch)
            == Go(if p.hstate.Upgrade? then p.(index := 0, hstate := General, upgradeSeen := true)
                  else p.(index := 0, hstate := Quote(General, ch)), HeaderValue).(mark := Some(Value))
  {
  }

  lemma FirstOfValue(sw: Switcher, settings: Settings, c: Config, ch: Byte)
    requires Runs(sw, settings) && c.p.state.HeaderValueStart? && c.live.None? && c.p.errno == Ok && ValueByte(ch)
    requires ch != ' ' && ch != HT && !c.p.hstate.ContentLength? && !c.p.hstate.TransferEncoding?
    ensures var q := c.p.(state := HeaderValue, index := 0);
            Feed(sw, c, ch) ==
            Running(c.(p := if c.p.hstate.Upgrade? then q.(hstate := General, upgradeSeen := true)
                            else q.(hstate := Quote(General, ch)),
                       live := Some(Value), held := [ch], used := c.used + 1))
  {
    hide Runs, Feed, Put, SwitchValueStart, Quote;
    VisitsHeader(sw, settings, c.p, ch);
    FirstOutcome(c.p, ch);
    FeedOnce(sw, c, ch);
  }

  lemma OtherName(w: string)
    requires w != CONTENT_LENGTH && w != TRANSFER_ENCODING
    ensures !NameState(w).ContentLength? && !NameState(w).TransferEncoding?
    ensures NameState(w).Upgrade? <==> w == UPGRADE
  {
  }

  lemma OtherValue(sw: Switcher, settings: Settings, c: Config, h: Header)
    requires Runs(sw, settings) && ProperHeader(h) && BeforeValue(c, h) && h.value != []
    requires Lowered(h.name) != CONTENT_LENGTH && Lowered(h.name) != TRANSFER_ENCODING
    ensures FeedAll(sw, c, h.value).Running? && ValueRead(c, FeedAll(sw, c, h.value).c, h)
  {
    hide Runs, Feed, FeedAll, IsToken, ValueByte, Lowered, Quote, NameState;
    var v := h.value;
    OtherName(Lowered(h.name));
    FirstOfValue(sw, settings, c, v[0]);
    var d := Feed(sw, c, v[0]).c;
    FeedSingle(sw, c, v[0]);
    Then(sw, c, [v[0]], d, v[1..]);
    assert [v[0]] + v[1..] == v;
    QuoteQuotes(General, v[0]);
    ValueRun(sw, settings, d, v[1..]);
    QuotingQuotes(d.p.hstate, v[1..]);
  }

  lemma QuoteQuotes(h: HeaderState, ch: Byte)
    ensures Quotes(Quote(h, ch))
  {
  }

  lemma {:induction false} QuotingQuotes(h: HeaderState, t: Bytes)
    requires Quotes(h)
    ensures Quotes(Quoting(h, t))
    decreases |t|
  {
    if t != [] {
      QuotingQuotes(Quote(h, t[0]), t[1..]);
    }
  }

  lemma ReadValue(sw: Switcher, settings: Settings, c: Config, h: Header)
    requires Runs(sw, settings) && ProperHeader(h) && BeforeValue(c, h) && h.value != []
    ensures FeedAll(sw, c, h.value).Running? && ValueRead(c, FeedAll(sw, c, h.value).c, h)
  {
    hide Runs, FeedAll, ProperHeader, BeforeValue, ValueRead, Lowered;
    if Lowered(h.name) == CONTENT_LENGTH {
      NumberValue(sw, settings, c, h);
    } else if Lowered(h.name) == TRANSFER_ENCODING {
      CodingValue(sw, settings, c, h);
    } else {
      OtherValue(sw, settings, c, h);
    }
  }

  // ----- the line -----

  /** A header line has been read. */
  predicate LineRead(c: Config, d: Config, h: Header)
    requires ProperHeader(h)
  {
    && d == c.(p := d.p, out := Put(Put(c.out, Field, h.name), Value, h.value), used := c.used + |Line(h)|)
    && d.p == c.p.(state := HeaderValueLws, hstate := d.p.hstate, index := d.p.index,
                   contentLength := d.p.contentLength, chunked := d.p.chunked, upgradeSeen := d.p.upgradeSeen)
    && FrameOf(d.p) == Says(FrameOf(c.p), h)
  }

  lemma EmptyOutcome(p: Parser)
    requires p.state.HeaderValueStart? && !p.hstate.ContentLength? && !p.hstate.TransferEncoding? && !p.hstate.Upgrade?
    ensures SwitchValueStart(p, CR)
            == Go(p.(index := 0, hstate := General), HeaderAlmostDone)
               .(mark := Some(Value), flush := FlushBefore(Value))
  {
  }

  /** A header without a value is delivered with an empty one. */
  lemma EmptyValue(sw: Switcher, settings: Settings, c: Config)
    requires Runs(sw, settings) && c.p.state.HeaderValueStart? && c.live.None? && c.held == [] && c.p.errno == Ok
    requires !c.p.hstate.ContentLength? && !c.p.hstate.TransferEncoding? && !c.p.hstate.Upgrade?
    ensures FeedAll(sw, c, [CR, LF]) ==
            Running(c.(p := c.p.(state := HeaderValueLws, index := 0, hstate := General),
                       out := Put(c.out, Value, []), used := c.used + 2))
  {
    hide Runs, Feed, FeedAll, Put, SwitchValueStart;
    VisitsHeader(sw, settings, c.p, CR);
    EmptyOutcome(c.p);
    FeedSingle(sw, c, CR);
    FeedOnce(sw, c, CR);
    var d := c.(p := c.p.(state := HeaderAlmostDone, index := 0, hstate := General), out := Put(c.out, Value, []),
                used := c.used + 1);
    LineLf(sw, settings, d);
    Then(sw, c, [CR], d, [LF]);
    assert [CR] + [LF] == [CR, LF];
  }

  lemma ReadRest(sw: Switcher, settings: Settings, c: Config, d: Config, h: Header)
    requires Runs(sw, settings) && ProperHeader(h) && AtName(c) && c.held == [] && AtValue(c, d, h.name)
    ensures var s := FeedAll(sw, d, h.value + [CR, LF]); s.Running? && LineRead(c, s.c, h)
  {
    hide Runs, FeedAll, Put, NameState, Lowered, IsToken, ValueByte, SaysChunked;
    if h.value == [] {
      assert h.value + [CR, LF] == [CR, LF];
      OtherName(Lowered(h.name));
      EmptyValue(sw, settings, d);
    } else {
      ReadValue(sw, settings, d, h);
      var e := FeedAll(sw, d, h.value).c;
      ValueEnds(sw, settings, e);
      Then(sw, d, h.value, e, [CR, LF]);
    }
  }

  /** One header line, after any number of others. */
  lemma HeaderLine(sw: Switcher, settings: Settings, c: Config, h: Header)
    requires Runs(sw, settings) && AtLine(c) && ProperHeader(h)
    ensures var s := FeedAll(sw, c, Line(h)); s.Running? && LineRead(c, s.c, h)
  {
    hide Runs, FeedAll, Put, IsToken, AtValue, ValueByte, Lowered, Says;
    var b := Fresh(c);
    NotBlank(h);
    LineStarts(sw, settings, c, Line(h));
    ReadName(sw, settings, b, h.name);
    var d := FeedAll(sw, b, h.name + [':', ' ']).c;
    ReadRest(sw, settings, b, d, h);
    Then(sw, b, h.name + [':', ' '], d, h.value + [CR, LF]);
    assert Line(h) == h.name + [':', ' '] + (h.value + [CR, LF]);
  }

  lemma NotBlank(h: Header)
    requires ProperHeader(h)
    ensures Line(h) != [] && Line(h)[0] != ' ' && Line(h)[0] != HT && Line(h)[0] != CR && Line(h)[0] != LF
  {
    hide Lowered;
    assert Line(h)[0] == h.name[0];
    assert IsToken(h.name[0]);
  }

  // ----- the block -----

  predicate ProperHeaders(hs: seq<Header>) { forall i | 0 <= i < |hs| :: ProperHeader(hs[i]) }

  predicate BlockRead(c: Config, d: Config, hs: seq<Header>)
    requires ProperHeaders(hs)
  {
    && d == c.(p := d.p, out := c.out + HeaderItems(hs), used := c.used + |Block(hs)|)
    && d.p == c.p.(state := d.p.state, hstate := d.p.hstate, index := d.p.index,
                   contentLength := d.p.contentLength, chunked := d.p.chunked, upgradeSeen := d.p.upgradeSeen)
    && AtLine(d) && FrameOf(d.p) == SaysAll(FrameOf(c.p), hs)
  }

  /** Nothing is joined to a header: the callbacks alternate between names and values. */
  predicate EndsHeader(t: Trace)
  {
    t == [] || t[|t| - 1].Note? || !t[|t| - 1].kind.Field?
  }

  lemma TwoTexts(t: Trace, n: Bytes, v: Bytes)
    requires EndsHeader(t)
    ensures Put(Put(t, Field, n), Value, v) == t + [Text(Field, n), Text(Value, v)]
    ensures EndsHeader(t + [Text(Field, n), Text(Value, v)])
  {
    assert Put(t, Field, n) == t + [Text(Field, n)];
    assert t + [Text(Field, n)] + [Text(Value, v)] == t + [Text(Field, n), Text(Value, v)];
  }

  lemma EmptyBlock(sw: Switcher, c: Config)
    requires AtLine(c)
    ensures FeedAll(sw, c, Block([])) == Running(c) && BlockRead(c, c, [])
  {
    assert c.out + [] == c.out;
  }

  lemma LineDone(c: Config, d: Config, h: Header)
    requires ProperHeader(h) && AtLine(c) && EndsHeader(c.out) && LineRead(c, d, h)
    ensures AtLine(d) && EndsHeader(d.out) && d.out == c.out + [Text(Field, h.name), Text(Value, h.value)]
  {
    hide Put, ProperHeader, Line, Says, EndsHeader;
    TwoTexts(c.out, h.name, h.value);
  }

  lemma LineThenBlock(c: Config, d: Config, e: Config, hs: seq<Header>)
    requires hs != [] && ProperHeaders(hs) && LineRead(c, d, hs[0]) && BlockRead(d, e, hs[1..])
    requires d.out == c.out + [Text(Field, hs[0].name), Text(Value, hs[0].value)]
    ensures BlockRead(c, e, hs)
  {
    hide Put, ProperHeader, Line, Says, AtLine;
    var two := [Text(Field, hs[0].name), Text(Value, hs[0].value)];
    assert c.out + two + HeaderItems(hs[1..]) == c.out + (two + HeaderItems(hs[1..]));
  }

  /** Every header of a block is delivered, in order, and the framing is what the headers say. */
  lemma {:induction false} HeaderBlock(sw: Switcher, settings: Settings, c: Config, hs: seq<Header>)
    requires Runs(sw, settings) && AtLine(c) && ProperHeaders(hs) && EndsHeader(c.out)
    ensures var s := FeedAll(sw, c, Block(hs)); s.Running? && BlockRead(c, s.c, hs)
    decreases |hs|
  {
    hide Runs, FeedAll, ProperHeader, Line, EndsHeader, LineRead, BlockRead, AtLine;
    if hs == [] {
      EmptyBlock(sw, c);
    } else {
      HeaderLine(sw, settings, c, hs[0]);
      var d := FeedAll(sw, c, Line(hs[0])).c;
      LineDone(c, d, hs[0]);
      HeaderBlock(sw, settings, d, hs[1..]);
      Then(sw, c, Line(hs[0]), d, Block(hs[1..]));
      LineThenBlock(c, d, FeedAll(sw, d, Block(hs[1..])).c, hs);
    }
  }
}
