/**
 * Whole responses: what a server prints is what the callbacks are told, in one buffer or in any pieces; a body
 * without a length is over when the connection is.
 */
module HttpResponse {
  import opened HttpTypes
  import opened HttpSwitch
  import opened HttpMachine
  import opened HttpCuts
  import opened HttpInvariant
  import opened HttpFast
  import opened HttpLengths
  import opened HttpTokens
  import opened HttpBodies
  import opened HttpSegments
  import opened HttpBodyCuts
  import opened HttpFields
  import opened HttpTarget
  import opened HttpRequest

  // ----- the numbers of a status line -----

  datatype Place = InMajor | InMinor | InStatus

  predicate AtPlace(c: Config, place: Place)
  {
    && c.live.None? && c.p.errno == Ok
    && match place
       case InMajor => c.p.state.ResFirstHttpMajor?
       case InMinor => c.p.state.ResFirstHttpMinor?
       case InStatus => c.p.state.ResFirstStatusCode?
  }

  /** Behind some digits that denote `n`. */
  function NumberIn(c: Config, place: Place, n: nat, used: nat): Config
  {
    c.(p := match place
            case InMajor => c.p.(state := ResHttpMajor, major := n)
            case InMinor => c.p.(state := ResHttpMinor, minor := n)
            case InStatus => c.p.(state := ResStatusCode, status := n),
       used := used)
  }

  function Refusal(place: Place): Errno { if place.InStatus? then InvalidStatus else InvalidVersion }

  predicate NumberRead(c: Config, place: Place, ds: Bytes, s: Step)
    requires NumberText(ds)
  {
    if DecValue(ds) <= 999 then s == Running(NumberIn(c, place, DecValue(ds), c.used + |ds|))
    else s.Failed? && s.c.p.errno == Refusal(place)
  }

  lemma FirstFigure(sw: Switcher, settings: Settings, c: Config, place: Place, ch: Byte)
    requires Runs(sw, settings) && AtPlace(c, place) && IsNum(ch)
    ensures Feed(sw, c, ch) == Running(NumberIn(c, place, Digit(ch), c.used + 1))
  {
    hide Runs, Feed, Put, Digit;
    VisitsResponse(sw, settings, c.p, ch);
    FeedOnce(sw, c, ch);
  }

  lemma FigureOutcome(p: Parser, place: Place, n: nat, ch: Byte)
    requires IsNum(ch)
    requires match place
             case InMajor => p.state.ResHttpMajor? && p.major == n
             case InMinor => p.state.ResHttpMinor? && p.minor == n
             case InStatus => p.state.ResStatusCode? && p.status == n
    ensures var k := n * 10 + Digit(ch);
            var q := match place
                     case InMajor => p.(major := k)
                     case InMinor => p.(minor := k)
                     case InStatus => p.(status := k);
            SwitchResponse(p, ch) == if k > 999 then Fails(q, Refusal(place)) else Stay(q)
  {
    hide Digit;
  }

  lemma NextFigure(sw: Switcher, settings: Settings, c: Config, place: Place, n: nat, used: nat, ch: Byte)
    requires Runs(sw, settings) && AtPlace(c, place) && IsNum(ch)
    ensures var s := Feed(sw, NumberIn(c, place, n, used), ch);
            if n * 10 + Digit(ch) <= 999 then s == Running(NumberIn(c, place, n * 10 + Digit(ch), used + 1))
            else s.Failed? && s.c.p.errno == Refusal(place)
  {
    hide Runs, Feed, Put, Digit, SwitchResponse;
    var d := NumberIn(c, place, n, used);
    VisitsResponse(sw, settings, d.p, ch);
    FigureOutcome(d.p, place, n, ch);
    FeedStops(sw, d, ch);
    if n * 10 + Digit(ch) <= 999 {
      FeedOnce(sw, d, ch);
    }
  }

  lemma FigureStep(sw: Switcher, settings: Settings, c: Config, place: Place, front: Bytes, last: Byte, s: Step)
    requires Runs(sw, settings) && AtPlace(c, place) && NumberText(front) && NumberText(front + [last]) && IsNum(last)
    requires NumberRead(c, place, front, s)
    ensures NumberRead(c, place, front + [last], if s.Running? then Feed(sw, s.c, last) else s)
  {
    hide Runs, Feed, NumberIn, AtPlace;
    assert (front + [last])[..|front|] == front && (front + [last])[|front|] == last;
    if s.Running? {
      NextFigure(sw, settings, c, place, DecValue(front), c.used + |front|, last);
    }
  }

  lemma OneFigure(c: Config, place: Place, ch: Byte, s: Step)
    requires IsNum(ch) && s == Running(NumberIn(c, place, Digit(ch), c.used + 1))
    ensures NumberText([ch]) && NumberRead(c, place, [ch], s)
  {
    hide NumberIn;
    assert [ch][..0] == [];
    assert DecValue([]) == 0;
    assert DecValue([ch]) == Digit(ch);
  }

  /** A number of the status line is its decimal value, and is refused exactly when that exceeds 999. */
  lemma {:induction false} NumberExact(sw: Switcher, settings: Settings, c: Config, place: Place, ds: Bytes)
    requires Runs(sw, settings) && AtPlace(c, place) && Digits(ds)
    ensures NumberText(ds) && NumberRead(c, place, ds, FeedAll(sw, c, ds))
    decreases |ds|
  {
    hide Runs, Feed, FeedAll, NumberRead, IsNum, AtPlace;
    var front, last := ds[..|ds| - 1], ds[|ds| - 1];
    assert ds == front + [last];
    if |ds| == 1 {
      assert ds == [last];
      FirstFigure(sw, settings, c, place, last);
      FeedSingle(sw, c, last);
      OneFigure(c, place, last, Feed(sw, c, last));
    } else {
      NumberExact(sw, settings, c, place, front);
      FeedAllConcat(sw, c, front, [last]);
      var s := FeedAll(sw, c, front);
      FeedSingle(sw, s.c, last);
      FigureStep(sw, settings, c, place, front, last, s);
    }
  }

  // ----- bytes that only change the state -----

  predicate Moves(p: Parser, ch: Byte, s: State)
  {
    || (p.state.ResH? && s.ResHT?)
    || (p.state.ResHT? && s.ResHTT?)
    || (p.state.ResHTT? && s.ResHTTP?)
    || (p.state.ResHTTP? && s.ResFirstHttpMajor?)
    || (p.state.ResHttpMajor? && ch == '.' && s.ResFirstHttpMinor?)
    || (p.state.ResHttpMinor? && ch == ' ' && s.ResFirstStatusCode?)
    || (p.state.ResFirstStatusCode? && ch == ' ' && s.ResFirstStatusCode?)
    || (p.state.ResStatusCode? && ch == ' ' && s.ResStatus?)
    || (p.state.ResStatusCode? && ch == CR && s.ResLineAlmostDone?)
    || (p.state.ResStatusCode? && ch == LF && s.HeaderFieldStart?)
    || (p.state.ResLineAlmostDone? && s.HeaderFieldStart?)
  }

  lemma MovesThere(p: Parser, ch: Byte, s: State)
    requires Moves(p, ch, s)
    ensures RegionOf(p.state).AtResponse? && SwitchResponse(p, ch) == Go(p, s)
  {
    hide Digit, Accumulate;
  }

  lemma MoveByte(sw: Switcher, settings: Settings, c: Config, ch: Byte, s: State)
    requires Runs(sw, settings) && Moves(c.p, ch, s) && c.live.None? && c.p.errno == Ok
    ensures FeedAll(sw, c, [ch]) == Running(In(c, s).(used := c.used + 1))
  {
    hide Runs, Feed, FeedAll, Put, SwitchResponse, Moves;
    MovesThere(c.p, ch, s);
    VisitsResponse(sw, settings, c.p, ch);
    FeedSingle(sw, c, ch);
    FeedOnce(sw, c, ch);
  }

  lemma MoveTwice(sw: Switcher, settings: Settings, c: Config, x: Byte, s: State, y: Byte, u: State)
    requires Runs(sw, settings) && c.live.None? && c.p.errno == Ok
    requires Moves(c.p, x, s) && Moves(In(c, s).p, y, u)
    ensures FeedAll(sw, c, [x, y]) == Running(In(c, u).(used := c.used + 2))
  {
    hide Runs, FeedAll, Moves;
    var d := In(c, s).(used := c.used + 1);
    MoveByte(sw, settings, c, x, s);
    MoveByte(sw, settings, d, y, u);
    Then(sw, c, [x], d, [y]);
    assert [x] + [y] == [x, y];
  }

  predicate Spaces(t: Bytes) { forall i | 0 <= i < |t| :: t[i] == ' ' }

  lemma {:induction false} Pad(sw: Switcher, settings: Settings, c: Config, pad: Bytes)
    requires Runs(sw, settings) && AtPlace(c, InStatus) && Spaces(pad)
    ensures FeedAll(sw, c, pad) == Running(c.(used := c.used + |pad|))
    decreases |pad|
  {
    hide Runs, FeedAll;
    if pad == [] {
      FeedNothing(sw, c);
    } else {
      MoveByte(sw, settings, c, ' ', ResFirstStatusCode);
      var d := c.(used := c.used + 1);
      assert In(c, ResFirstStatusCode) == c;
      Pad(sw, settings, d, pad[1..]);
      Then(sw, c, [' '], d, pad[1..]);
      assert pad == [' '] + pad[1..];
    }
  }

  lemma FeedNothing(sw: Switcher, c: Config)
    ensures FeedAll(sw, c, []) == Running(c)
  {
  }

  /** What a byte behind the status code leads to. */
  function StatusEnd(end: Byte): State
    requires end == ' ' || end == CR || end == LF
  {
    if end == ' ' then ResStatus else if end == CR then ResLineAlmostDone else HeaderFieldStart
  }

  function StatusRead(c: Config, n: nat, end: Byte, used: nat): Config
    requires end == ' ' || end == CR || end == LF
  {
    c.(p := c.p.(state := StatusEnd(end), status := n), used := used)
  }

  lemma StatusMoves(sw: Switcher, settings: Settings, c: Config, n: nat, used: nat, end: Byte)
    requires Runs(sw, settings) && AtPlace(c, InStatus) && (end == ' ' || end == CR || end == LF)
    ensures FeedAll(sw, NumberIn(c, InStatus, n, used), [end]) == Running(StatusRead(c, n, end, used + 1))
  {
    hide Runs, FeedAll;
    MoveByte(sw, settings, NumberIn(c, InStatus, n, used), end, StatusEnd(end));
  }

  lemma StatusDigits(sw: Switcher, settings: Settings, c: Config, ds: Bytes, end: Byte)
    requires Runs(sw, settings) && AtPlace(c, InStatus) && Digits(ds) && (end == ' ' || end == CR || end == LF)
    ensures NumberText(ds)
    ensures var s := FeedAll(sw, c, ds + [end]);
            if DecValue(ds) <= 999 then s == Running(StatusRead(c, DecValue(ds), end, c.used + |ds| + 1))
            else s.Failed? && s.c.p.errno == InvalidStatus
  {
    hide Runs, FeedAll, Digits, NumberText, DecValue, AtPlace, NumberIn, StatusRead;
    NumberExact(sw, settings, c, InStatus, ds);
    FeedAllConcat(sw, c, ds, [end]);
    StatusMoves(sw, settings, c, DecValue(ds), c.used + |ds|, end);
  }

  /**
   * A status code, after any spaces and up to a space or a line end: it is the decimal value of its digits, and is
   * refused exactly when that exceeds 999.
   */
  lemma StatusExact(sw: Switcher, settings: Settings, c: Config, pad: Bytes, ds: Bytes, end: Byte)
    requires Runs(sw, settings) && AtPlace(c, InStatus) && Spaces(pad) && Digits(ds)
    requires end == ' ' || end == CR || end == LF
    ensures NumberText(ds)
    ensures var s := FeedAll(sw, c, pad + ds + [end]);
            if DecValue(ds) <= 999
            then s == Running(c.(p := c.p.(state := StatusEnd(end), status := DecValue(ds)),
                                 used := c.used + |pad| + |ds| + 1))
            else s.Failed? && s.c.p.errno == InvalidStatus
  {
    hide Runs, FeedAll, Digits, NumberText, DecValue, Spaces;
    var b := c.(used := c.used + |pad|);
    Pad(sw, settings, c, pad);
    Then(sw, c, pad, b, ds + [end]);
    assert pad + ds + [end] == pad + (ds + [end]);
    StatusDigits(sw, settings, b, ds, end);
  }

  // ----- the reason -----

  predicate ReasonBytes(r: Bytes) { forall i | 0 <= i < |r| :: r[i] != CR && r[i] != LF }

  predicate AtReason(c: Config)
  {
    c.p.state.ResStatus? && c.p.errno == Ok && (if c.live.None? then c.held == [] else c.live == Some(Reason))
  }

  lemma ReasonByte(sw: Switcher, settings: Settings, c: Config, ch: Byte)
    requires Runs(sw, settings) && AtReason(c) && ch != CR && ch != LF
    ensures Feed(sw, c, ch) == Running(Extend(c.(live := Some(Reason)), [ch]))
  {
    hide Runs, Feed, Put;
    VisitsResponse(sw, settings, c.p, ch);
    FeedOnce(sw, c, ch);
  }

  lemma {:induction false} ReasonRun(sw: Switcher, settings: Settings, c: Config, r: Bytes)
    requires Runs(sw, settings) && AtReason(c) && ReasonBytes(r)
    ensures FeedAll(sw, c, r) == Running(if r == [] then c else Extend(c.(live := Some(Reason)), r))
    decreases |r|
  {
    hide Runs, Feed;
    if r != [] {
      var d := Extend(c.(live := Some(Reason)), [r[0]]);
      ReasonByte(sw, settings, c, r[0]);
      ReasonRun(sw, settings, d, r[1..]);
      ExtendTwice(c.(live := Some(Reason)), r[0], r[1..]);
      assert r == [r[0]] + r[1..];
    }
  }

  lemma ReasonEnds(sw: Switcher, settings: Settings, c: Config)
    requires Runs(sw, settings) && AtReason(c)
    ensures FeedAll(sw, c, [CR]) ==
            Running(c.(p := c.p.(state := ResLineAlmostDone), live := None, held := [],
                       out := Put(c.out, Reason, c.held), used := c.used + 1))
  {
    hide Runs, Feed, FeedAll, Put;
    VisitsResponse(sw, settings, c.p, CR);
    FeedSingle(sw, c, CR);
    FeedOnce(sw, c, CR);
  }

  lemma LineFeed(sw: Switcher, settings: Settings, c: Config)
    requires Runs(sw, settings) && c.p.state.ResLineAlmostDone? && c.live.None? && c.p.errno == Ok
    ensures FeedAll(sw, c, [LF]) == Running(In(c, HeaderFieldStart).(used := c.used + 1))
  {
    hide Runs, FeedAll;
    MoveByte(sw, settings, c, LF, HeaderFieldStart);
  }

  // ----- the status line -----

  /** A body is delimited by the message itself, or by the end of the connection. */
  datatype Payload = Delimited(content: Content) | Open(bytes: Bytes)

  datatype Response = Response(
    major: Bytes, minor: Bytes, status: Bytes, reason: Option<Bytes>, headers: seq<Header>, payload: Payload)

  function ReasonText(r: Option<Bytes>): Bytes { if r.Some? then [' '] + r.value else [] }

  function StatusTail(m: Response): Bytes { m.status + (ReasonText(m.reason) + [CR, LF]) }

  function StatusLine(m: Response): Bytes
  {
    PROTOCOL + (m.major + ['.'] + (m.minor + [' '] + StatusTail(m)))
  }

  predicate ProperStatusLine(m: Response)
  {
    && Digits(m.major) && NumberText(m.major) && DecValue(m.major) <= 999
    && Digits(m.minor) && NumberText(m.minor) && DecValue(m.minor) <= 999
    && Digits(m.status) && NumberText(m.status) && DecValue(m.status) <= 999
    && (m.reason.Some? ==> ReasonBytes(m.reason.value))
  }

  function ReasonItems(r: Option<Bytes>): Trace { if r.Some? then [Text(Reason, r.value)] else [] }

  /** Before a response.  Responses never change the method, which may be left from anything. */
  predicate AtResponse(c: Config)
  {
    && c.p.state.PreStartRes? && c.p.kind == ParserType.Response && c.live.None? && c.held == [] && c.p.errno == Ok
    && c.p.verb != CONNECT
  }

  lemma FirstH(sw: Switcher, settings: Settings, c: Config)
    requires Runs(sw, settings) && AtResponse(c)
    ensures FeedAll(sw, c, ['H']) ==
            Running(c.(p := ClearMessage(c.p).(state := ResH), out := c.out + [Note(MessageBegin)], used := c.used + 1))
  {
    hide Runs, Feed, FeedAll, Put;
    var d := c.(p := c.p.(state := StartRes), out := c.out + [Note(MessageBegin)]);
    FeedSingle(sw, c, 'H');
    VisitsStart(sw, settings, c.p, 'H');
    FeedTwice(sw, c, 'H');
    assert Perform(c, sw(c.p, 'H'), 'H') == d;
    VisitsStart(sw, settings, d.p, 'H');
    FeedOnce(sw, d, 'H');
  }

  lemma ProtocolText()
    ensures PROTOCOL == ['H'] + (['T', 'T'] + ['P', '/'])
  {
  }

  lemma ReadHttp(sw: Switcher, settings: Settings, c: Config)
    requires Runs(sw, settings) && AtResponse(c)
    ensures FeedAll(sw, c, PROTOCOL) ==
            Running(c.(p := ClearMessage(c.p).(state := ResFirstHttpMajor), out := c.out + [Note(MessageBegin)],
                       used := c.used + 5))
  {
    hide Runs, FeedAll;
    var d := c.(p := ClearMessage(c.p).(state := ResH), out := c.out + [Note(MessageBegin)], used := c.used + 1);
    var e := In(d, ResHTT).(used := c.used + 3);
    FirstH(sw, settings, c);
    ProtocolText();
    MoveTwice(sw, settings, d, 'T', ResHT, 'T', ResHTT);
    MoveTwice(sw, settings, e, 'P', ResHTTP, '/', ResFirstHttpMajor);
    Then(sw, d, ['T', 'T'], e, ['P', '/']);
    Then(sw, c, ['H'], d, ['T', 'T'] + ['P', '/']);
  }

  lemma ReadNumber(sw: Switcher, settings: Settings, c: Config, place: Place, ds: Bytes)
    requires Runs(sw, settings) && AtPlace(c, place) && !place.InStatus?
    requires Digits(ds) && NumberText(ds) && DecValue(ds) <= 999
    ensures var end: Byte := if place.InMajor? then '.' else ' ';
            FeedAll(sw, c, ds + [end]) ==
            Running(c.(p := if place.InMajor? then c.p.(state := ResFirstHttpMinor, major := DecValue(ds))
                            else c.p.(state := ResFirstStatusCode, minor := DecValue(ds)),
                       used := c.used + |ds| + 1))
  {
    hide Runs, FeedAll, DecValue, Digits, NumberText;
    var d := NumberIn(c, place, DecValue(ds), c.used + |ds|);
    NumberExact(sw, settings, c, place, ds);
    if place.InMajor? {
      MoveByte(sw, settings, d, '.', ResFirstHttpMinor);
      Then(sw, c, ds, d, ['.']);
    } else {
      MoveByte(sw, settings, d, ' ', ResFirstStatusCode);
      Then(sw, c, ds, d, [' ']);
    }
  }

  /** The reason with the space before it, if there is one, and the line end. */
  lemma ReadReason(sw: Switcher, settings: Settings, c: Config, r: Bytes)
    requires Runs(sw, settings) && c.p.state.ResStatus? && c.live.None? && c.held == [] && c.p.errno == Ok
    requires ReasonBytes(r)
    ensures FeedAll(sw, c, r + [CR, LF]) ==
            Running(c.(p := c.p.(state := HeaderFieldStart), out := Put(c.out, Reason, r), used := c.used + |r| + 2))
  {
    hide Runs, FeedAll, Put, ReasonBytes;
    ReasonRun(sw, settings, c, r);
    var d := if r == [] then c else Extend(c.(live := Some(Reason)), r);
    assert d.held == r;
    ReasonEnds(sw, settings, d);
    var e := d.(p := d.p.(state := ResLineAlmostDone), live := None, held := [], out := Put(d.out, Reason, d.held),
                used := d.used + 1);
    LineFeed(sw, settings, e);
    Then(sw, d, [CR], e, [LF]);
    assert [CR] + [LF] == [CR, LF];
    Then(sw, c, r, d, [CR, LF]);
  }

  /** The configuration after a status line with this reason. */
  function Reasoned(c: Config, n: nat, r: Bytes, used: nat): Config
  {
    c.(p := c.p.(state := HeaderFieldStart, status := n), out := Put(c.out, Reason, r), used := used)
  }

  lemma ReasonBehind(sw: Switcher, settings: Settings, c: Config, n: nat, used: nat, r: Bytes)
    requires Runs(sw, settings) && c.live.None? && c.held == [] && c.p.errno == Ok && ReasonBytes(r)
    ensures FeedAll(sw, StatusRead(c, n, ' ', used), r + [CR, LF]) == Running(Reasoned(c, n, r, used + |r| + 2))
  {
    hide Runs, FeedAll, ReasonBytes, Put;
    ReadReason(sw, settings, StatusRead(c, n, ' ', used), r);
  }

  lemma StatusAndReason(sw: Switcher, settings: Settings, c: Config, ds: Bytes, r: Bytes)
    requires Runs(sw, settings) && AtPlace(c, InStatus) && c.held == [] && ReasonBytes(r)
    requires Digits(ds) && NumberText(ds) && DecValue(ds) <= 999
    ensures FeedAll(sw, c, ds + [' '] + (r + [CR, LF])) ==
            Running(Reasoned(c, DecValue(ds), r, c.used + |ds| + 1 + |r| + 2))
  {
    hide Runs, FeedAll, DecValue, Digits, NumberText, ReasonBytes, StatusRead, Reasoned;
    var n, used := DecValue(ds), c.used + |ds| + 1;
    StatusDigits(sw, settings, c, ds, ' ');
    ReasonBehind(sw, settings, c, n, used, r);
    Then(sw, c, ds + [' '], StatusRead(c, n, ' ', used), r + [CR, LF]);
  }

  lemma StatusAlone(sw: Switcher, settings: Settings, c: Config, ds: Bytes)
    requires Runs(sw, settings) && AtPlace(c, InStatus) && Digits(ds) && NumberText(ds) && DecValue(ds) <= 999
    ensures FeedAll(sw, c, ds + [CR] + [LF]) ==
            Running(c.(p := c.p.(state := HeaderFieldStart, status := DecValue(ds)), used := c.used + |ds| + 2))
  {
    hide Runs, FeedAll, DecValue, Digits, NumberText;
    var d := StatusRead(c, DecValue(ds), CR, c.used + |ds| + 1);
    StatusDigits(sw, settings, c, ds, CR);
    LineFeed(sw, settings, d);
    Then(sw, c, ds + [CR], d, [LF]);
  }

  lemma ReadStatus(sw: Switcher, settings: Settings, c: Config, m: Response)
    requires Runs(sw, settings) && AtPlace(c, InStatus) && c.held == [] && ProperStatusLine(m)
    requires c.out != [] && c.out[|c.out| - 1].Note?
    ensures FeedAll(sw, c, StatusTail(m)) ==
            Running(c.(p := c.p.(state := HeaderFieldStart, status := DecValue(m.status)),
                       out := c.out + ReasonItems(m.reason), used := c.used + |StatusTail(m)|))
  {
    hide Runs, FeedAll, DecValue, Digits, NumberText, ReasonBytes, AtPlace;
    if m.reason.Some? {
      StatusAndReason(sw, settings, c, m.status, m.reason.value);
      assert StatusTail(m) == m.status + [' '] + (m.reason.value + [CR, LF]);
    } else {
      StatusAlone(sw, settings, c, m.status);
      assert StatusTail(m) == m.status + [CR] + [LF];
      assert c.out + [] == c.out;
    }
  }

  /** The configuration after the status line. */
  function AfterStatusLine(c: Config, m: Response): Config
    requires ProperStatusLine(m)
  {
    c.(p := ClearMessage(c.p).(state := HeaderFieldStart, major := DecValue(m.major), minor := DecValue(m.minor),
                               status := DecValue(m.status)),
       out := c.out + [Note(MessageBegin)] + ReasonItems(m.reason), used := c.used + |StatusLine(m)|)
  }

  /** A status line is read as its version, its status code and exactly its reason. */
  lemma ReadStatusLine(sw: Switcher, settings: Settings, c: Config, m: Response)
    requires Runs(sw, settings) && AtResponse(c) && ProperStatusLine(m)
    ensures FeedAll(sw, c, StatusLine(m)) == Running(AfterStatusLine(c, m))
  {
    hide Runs, FeedAll, DecValue, Digits, NumberText, ReasonBytes, StatusTail, ReasonItems;
    var b := c.(p := ClearMessage(c.p).(state := ResFirstHttpMajor), out := c.out + [Note(MessageBegin)],
                used := c.used + 5);
    var d := b.(p := b.p.(state := ResFirstHttpMinor, major := DecValue(m.major)), used := b.used + |m.major| + 1);
    var e := d.(p := d.p.(state := ResFirstStatusCode, minor := DecValue(m.minor)), used := d.used + |m.minor| + 1);
    ReadHttp(sw, settings, c);
    ReadNumber(sw, settings, b, InMajor, m.major);
    ReadNumber(sw, settings, d, InMinor, m.minor);
    ReadStatus(sw, settings, e, m);
    Then(sw, d, m.minor + [' '], e, StatusTail(m));
    Then(sw, b, m.major + ['.'], d, m.minor + [' '] + StatusTail(m));
    Then(sw, c, PROTOCOL, b, m.major + ['.'] + (m.minor + [' '] + StatusTail(m)));
  }

  // ----- the head -----

  function ResponseFields(m: Response): Bytes { StatusLine(m) + Block(m.headers) }

  function ResponseHead(m: Response): Bytes { ResponseFields(m) + [CR, LF] }

  predicate LegalResponse(m: Response) { ProperStatusLine(m) && ProperHeaders(m.headers) }

  /** What the headers of a response say about its framing. */
  function ResponseFrame(m: Response): Frame
    requires LegalResponse(m)
  {
    SaysAll(NOTHING_SAID, m.headers)
  }

  function AfterResponse(m: Response, skip: bool): Rest
    requires LegalResponse(m)
  {
    Follows(ResponseFrame(m), false, !Bodiless(DecValue(m.status)), skip)
  }

  function ResponseStart(m: Response): Trace { [Note(MessageBegin)] + ReasonItems(m.reason) + HeaderItems(m.headers) }

  /** What is told of a response up to the end of its headers. */
  function ResponseItems(m: Response, skip: bool): Trace
    requires LegalResponse(m)
  {
    var f := ResponseFrame(m);
    ResponseStart(m) + [Note(HeadersComplete(f.length, f.chunked, f.upgrade, skip))]
  }

  /** What the parser has kept of a response. */
  predicate KeepsResponse(p: Parser, q: Parser, m: Response)
    requires LegalResponse(m)
  {
    && q.kind == ParserType.Response && q.errno == Ok && q.verb == p.verb && q.answered == p.answered + 1
    && q.major == DecValue(m.major) && q.minor == DecValue(m.minor) && q.status == DecValue(m.status)
  }

  predicate ResponseHeadRead(c: Config, d: Config, m: Response, skip: bool)
    requires LegalResponse(m)
  {
    var f, rest := ResponseFrame(m), AfterResponse(m, skip);
    && KeepsResponse(c.p, d.p, m) && !d.p.trailing && d.p.contentLength == f.length && d.p.chunked == f.chunked
    && d.p.skipBody == skip && d.p.upgrade == f.upgrade && d.p.state == RestState(d.p, rest)
    && d.out == c.out + ResponseItems(m, skip) + RestNote(rest)
    && d.live.None? && d.held == [] && d.nread == 0
    && d.used == c.used + |ResponseHead(m)| && d.start == d.used - 1
  }

  /** The configuration before the empty line, in terms of the one before the response. */
  predicate ResponseFieldsRead(c: Config, e: Config, m: Response)
    requires LegalResponse(m)
  {
    && AtLine(e) && FrameOf(e.p) == ResponseFrame(m) && InHead(e.p) && e.p.kind == c.p.kind && e.p.verb == c.p.verb
    && e.p.major == DecValue(m.major) && e.p.minor == DecValue(m.minor) && e.p.status == DecValue(m.status)
    && e.p.answered == c.p.answered && e.out == c.out + ResponseStart(m)
    && e.used + 2 == c.used + |ResponseHead(m)|
  }

  lemma StatusTold(c: Config, m: Response)
    requires LegalResponse(m)
    ensures var d := AfterStatusLine(c, m);
            d.out == c.out + ([Note(MessageBegin)] + ReasonItems(m.reason)) && EndsHeader(d.out)
            && FrameOf(d.p) == NOTHING_SAID
  {
    hide ProperHeaders, ProperStatusLine, StatusLine, DecValue;
  }

  lemma ResponseFieldsAre(c: Config, d: Config, e: Config, m: Response)
    requires LegalResponse(m) && AtResponse(c) && d == AfterStatusLine(c, m) && BlockRead(d, e, m.headers)
    ensures ResponseFieldsRead(c, e, m)
  {
    hide ProperHeaders, StatusLine, SaysAll, Block, HeaderItems, DecValue, ReasonItems, ProperStatusLine;
    StatusTold(c, m);
    var start := [Note(MessageBegin)] + ReasonItems(m.reason);
    assert c.out + start + HeaderItems(m.headers) == c.out + (start + HeaderItems(m.headers));
  }

  lemma ReadResponseFields(sw: Switcher, settings: Settings, c: Config, m: Response)
    requires Runs(sw, settings) && AtResponse(c) && LegalResponse(m)
    ensures var s := FeedAll(sw, c, ResponseFields(m)); s.Running? && ResponseFieldsRead(c, s.c, m)
  {
    hide Runs, FeedAll, StatusLine, Block, ResponseFieldsRead, BlockRead, ProperHeaders, ProperStatusLine,
         EndsHeader;
    var d := AfterStatusLine(c, m);
    ReadStatusLine(sw, settings, c, m);
    StatusTold(c, m);
    HeaderBlock(sw, settings, d, m.headers);
    ResponseFieldsAre(c, d, FeedAll(sw, d, Block(m.headers)).c, m);
    Then(sw, c, StatusLine(m), d, Block(m.headers));
  }

  lemma ResponseRest(p: Parser, m: Response, skip: bool)
    requires LegalResponse(m) && p.kind == ParserType.Response && p.verb != CONNECT
    requires FrameOf(p) == ResponseFrame(m) && p.status == DecValue(m.status)
    ensures RestOf(p, skip) == AfterResponse(m, skip) && Upgrades(p) == ResponseFrame(m).upgrade
  {
    hide Follows, SaysAll, LegalResponse;
  }

  lemma ResponseHeadOver(c: Config, e: Config, m: Response, skip: bool)
    requires LegalResponse(m) && AtResponse(c) && ResponseFieldsRead(c, e, m)
    ensures ResponseHeadRead(c, AfterHeaders(e, skip), m, skip) && RestOf(e.p, skip) == AfterResponse(m, skip)
  {
    hide LegalResponse, SaysAll, ResponseHead, ResponseStart, DecValue, RestNote, Follows, RestOf, Upgrades;
    ResponseRest(e.p, m, skip);
    RestStates(e.p, AfterHeaders(e, skip).p, RestOf(e.p, skip));
    var f := ResponseFrame(m);
    assert c.out + ResponseStart(m) + [Note(HeadersComplete(f.length, f.chunked, f.upgrade, skip))]
        == c.out + ResponseItems(m, skip);
  }

  /** The head of a response, whatever its headers announce and whatever on_headers_complete answers. */
  lemma ReadResponseHead(sw: Switcher, settings: Settings, c: Config, m: Response)
    requires Runs(sw, settings) && AtResponse(c) && LegalResponse(m)
    ensures var s, skip := FeedAll(sw, c, ResponseHead(m)), settings(c.p.answered);
            && (if AfterResponse(m, skip).OtherProtocol? then s.Exited? else s.Running?)
            && ResponseHeadRead(c, s.c, m, skip)
  {
    hide Runs, FeedAll, ResponseHeadRead, ResponseFieldsRead, AfterHeaders, LegalResponse, ResponseFields, RestOf,
         AfterResponse;
    ReadResponseFields(sw, settings, c, m);
    var e := FeedAll(sw, c, ResponseFields(m)).c;
    ResponseFieldsReady(c, e, m);
    HeadersEnd(sw, settings, e);
    ResponseHeadOver(c, e, m, settings(c.p.answered));
    Then(sw, c, ResponseFields(m), e, [CR, LF]);
  }

  lemma ResponseFieldsReady(c: Config, e: Config, m: Response)
    requires LegalResponse(m) && ResponseFieldsRead(c, e, m)
    ensures AtLine(e) && InHead(e.p) && e.p.answered == c.p.answered
  {
    hide LegalResponse, ResponseHead, ResponseStart;
  }

  // ----- the content -----

  /** The payload is the one that the head announces. */
  predicate Carries(rest: Rest, f: Frame, payload: Payload)
  {
    match rest
    case Nothing => payload == Delimited(NoContent)
    case OtherProtocol => false
    case SizedBody => payload.Delimited? && payload.content.Sized? && |payload.content.bytes| == f.length
    case ChunkedBody => payload.Delimited? && payload.content.InChunks? && ProperChunks(payload.content.chunks)
    case BodyUntilEof => payload.Open?
  }

  predicate ProperResponse(m: Response, skip: bool)
  {
    LegalResponse(m) && !ResponseFrame(m).upgrade && Carries(AfterResponse(m, skip), ResponseFrame(m), m.payload)
  }

  function PayloadText(b: Payload): Bytes { if b.Open? then b.bytes else ContentText(b.content) }

  function PrintResponse(m: Response): Bytes { ResponseHead(m) + PayloadText(m.payload) }

  function OpenItems(bytes: Bytes): Trace { if bytes == [] then [] else [Text(Body, bytes)] }

  /** What the callbacks have been told when all bytes of a response have been read. */
  function SoFar(m: Response, skip: bool): Trace
    requires LegalResponse(m)
  {
    ResponseItems(m, skip) + if m.payload.Open? then OpenItems(m.payload.bytes) else ContentItems(m.payload.content)
  }

  /** All of it: an open body is complete when the connection ends. */
  function ToldResponse(m: Response, skip: bool): Trace
    requires LegalResponse(m)
  {
    SoFar(m, skip) + if m.payload.Open? then [Note(MessageComplete)] else []
  }

  /** In a body that lasts as long as the connection. */
  predicate Lasting(c: Config)
  {
    c.p.state.BodyIdentityEof? && c.p.errno == Ok && (if c.live.None? then c.held == [] else c.live == Some(Body))
  }

  predicate ResponseRead(c: Config, d: Config, m: Response, skip: bool)
    requires LegalResponse(m)
  {
    && KeepsResponse(c.p, d.p, m) && d.used == c.used + |PrintResponse(m)|
    && if m.payload.Open? then Lasting(d) && Total(d) == c.out + SoFar(m, skip)
       else AtResponse(d) && d.out == c.out + SoFar(m, skip) && d.nread == 0 && d.start == d.used - 1
  }

  lemma CarriesFacts(c: Config, d: Config, m: Response, skip: bool)
    requires ProperResponse(m, skip) && ResponseHeadRead(c, d, m, skip) && c.p.verb != CONNECT
    ensures !d.p.upgrade && d.p.verb != CONNECT && d.p.kind == ParserType.Response && d.p.errno == Ok
    ensures m.payload.Open? ==> d.p.state.BodyIdentityEof? && d.out == c.out + ResponseItems(m, skip)
    ensures m.payload == Delimited(NoContent) ==>
              d.p.state.PreStartRes? && d.out == c.out + ResponseItems(m, skip) + [Note(MessageComplete)]
    ensures m.payload.Delimited? && m.payload.content.Sized? ==>
              && d.p.state.BodyIdentity? && d.p.contentLength == |m.payload.content.bytes| > 0
              && d.out == c.out + ResponseItems(m, skip)
    ensures m.payload.Delimited? && m.payload.content.InChunks? ==>
              && d.p.state.ChunkSizeStart? && d.p.chunked && ProperChunks(m.payload.content.chunks)
              && d.out == c.out + ResponseItems(m, skip)
  {
    hide LegalResponse, SaysAll, ResponseHead, ResponseItems, DecValue, ProperChunks;
    assert c.out + ResponseItems(m, skip) + [] == c.out + ResponseItems(m, skip);
  }

  lemma SizedPayload(sw: Switcher, settings: Settings, c: Config, d: Config, m: Response, skip: bool)
    requires Runs(sw, settings) && ProperResponse(m, skip) && ResponseHeadRead(c, d, m, skip) && c.p.verb != CONNECT
    requires m.payload.Delimited? && m.payload.content.Sized?
    ensures var s := FeedAll(sw, d, PayloadText(m.payload)); s.Running? && ResponseRead(c, s.c, m, skip)
  {
    hide Runs, FeedAll, LegalResponse, ResponseHead, ResponseItems, SaysAll, DecValue, Put, Carries, AfterResponse;
    var bs, t := m.payload.content.bytes, c.out + ResponseItems(m, skip);
    CarriesFacts(c, d, m, skip);
    IdentityBody(sw, settings, d, bs);
    EndsInNote(c.out, m, skip);
    PutAfterNote(t, bs);
    assert t + [Text(Body, bs)] + [Note(MessageComplete)] == c.out + SoFar(m, skip);
  }

  lemma PutAfterNote(t: Trace, bs: Bytes)
    requires t != [] && t[|t| - 1].Note?
    ensures Put(t, Body, bs) == t + [Text(Body, bs)]
  {
  }

  lemma EndsInNote(out: Trace, m: Response, skip: bool)
    requires LegalResponse(m)
    ensures var t := out + ResponseItems(m, skip); t != [] && t[|t| - 1].Note?
  {
    hide LegalResponse, ResponseStart;
  }

  lemma ChunkedPayload(sw: Switcher, settings: Settings, c: Config, d: Config, m: Response, skip: bool)
    requires Runs(sw, settings) && ProperResponse(m, skip) && ResponseHeadRead(c, d, m, skip) && c.p.verb != CONNECT
    requires m.payload.Delimited? && m.payload.content.InChunks?
    ensures var s := FeedAll(sw, d, PayloadText(m.payload)); s.Running? && ResponseRead(c, s.c, m, skip)
  {
    hide Runs, FeedAll, LegalResponse, ResponseHead, ResponseItems, SaysAll, DecValue, Encode, AllItems, ProperChunks,
         Carries, AfterResponse;
    var chunks := m.payload.content.chunks;
    CarriesFacts(c, d, m, skip);
    ChunkedRoundTrip(sw, settings, d, chunks);
    assert c.out + ResponseItems(m, skip) + AllItems(chunks) == c.out + (ResponseItems(m, skip) + AllItems(chunks));
  }

  lemma EmptyPayload(sw: Switcher, c: Config, d: Config, m: Response, skip: bool)
    requires ProperResponse(m, skip) && ResponseHeadRead(c, d, m, skip) && c.p.verb != CONNECT
    requires m.payload == Delimited(NoContent)
    ensures FeedAll(sw, d, PayloadText(m.payload)) == Running(d) && ResponseRead(c, d, m, skip)
  {
    hide FeedAll, LegalResponse, ResponseHead, ResponseItems, SaysAll, DecValue, Carries, AfterResponse;
    CarriesFacts(c, d, m, skip);
    FeedNothing(sw, d);
    var items := ResponseItems(m, skip);
    assert c.out + items + [Note(MessageComplete)] == c.out + (items + [Note(MessageComplete)]);
    assert ResponseHead(m) + [] == ResponseHead(m);
  }

  lemma EofMarks(sw: Switcher, settings: Settings, c: Config, b: Bytes)
    requires Runs(sw, settings) && b != [] && c.live.None? && c.held == [] && c.p.state.BodyIdentityEof?
    ensures FeedAll(sw, c, b) == FeedAll(sw, c.(live := Some(Body)), b)
  {
    hide Runs, Feed;
    VisitsBody(sw, settings, c.p, b[0]);
    BodyMark(sw, c, b[0]);
  }

  lemma OpenBytes(sw: Switcher, settings: Settings, d: Config, bs: Bytes)
    requires Runs(sw, settings) && d.live.None? && d.held == [] && d.p.state.BodyIdentityEof? && d.p.errno == Ok
    ensures FeedAll(sw, d, bs) ==
            Running(if bs == [] then d else d.(live := Some(Body), held := bs, used := d.used + |bs|))
  {
    hide Runs, FeedAll;
    if bs == [] {
      FeedNothing(sw, d);
    } else {
      EofMarks(sw, settings, d, bs);
      EofRun(sw, settings, d.(live := Some(Body)), bs);
      assert [] + bs == bs;
    }
  }

  lemma OpenPayload(sw: Switcher, settings: Settings, c: Config, d: Config, m: Response, skip: bool)
    requires Runs(sw, settings) && ProperResponse(m, skip) && ResponseHeadRead(c, d, m, skip) && c.p.verb != CONNECT
    requires m.payload.Open?
    ensures var s := FeedAll(sw, d, PayloadText(m.payload)); s.Running? && ResponseRead(c, s.c, m, skip)
  {
    hide Runs, FeedAll, LegalResponse, ResponseHead, ResponseItems, SaysAll, DecValue, Put, Carries, AfterResponse;
    var bs, t := m.payload.bytes, c.out + ResponseItems(m, skip);
    CarriesFacts(c, d, m, skip);
    OpenBytes(sw, settings, d, bs);
    EndsInNote(c.out, m, skip);
    PutAfterNote(t, bs);
    assert t + [] == t;
    assert t + OpenItems(bs) == c.out + SoFar(m, skip);
  }

  lemma ReadPayload(sw: Switcher, settings: Settings, c: Config, d: Config, m: Response, skip: bool)
    requires Runs(sw, settings) && ProperResponse(m, skip) && ResponseHeadRead(c, d, m, skip) && c.p.verb != CONNECT
    ensures var s := FeedAll(sw, d, PayloadText(m.payload)); s.Running? && ResponseRead(c, s.c, m, skip)
  {
    hide Runs, FeedAll, ProperResponse, ResponseHeadRead, ResponseRead, PayloadText;
    if m.payload.Open? {
      OpenPayload(sw, settings, c, d, m, skip);
    } else {
      match m.payload.content {
        case NoContent => EmptyPayload(sw, c, d, m, skip);
        case Sized(_) => SizedPayload(sw, settings, c, d, m, skip);
        case InChunks(_) => ChunkedPayload(sw, settings, c, d, m, skip);
      }
    }
  }

  lemma ResponseGoesOn(m: Response, skip: bool)
    requires ProperResponse(m, skip)
    ensures LegalResponse(m) && !AfterResponse(m, skip).OtherProtocol?
  {
    hide LegalResponse, AfterResponse;
  }

  /** A printed response is told to the callbacks: version, status code, reason, headers, framing and body. */
  lemma ResponseRoundTrip(sw: Switcher, settings: Settings, c: Config, m: Response)
    requires Runs(sw, settings) && AtResponse(c) && ProperResponse(m, settings(c.p.answered))
    ensures var s := FeedAll(sw, c, PrintResponse(m)); s.Running? && ResponseRead(c, s.c, m, settings(c.p.answered))
  {
    hide Runs, FeedAll, ResponseHead, PayloadText, ResponseHeadRead, ResponseRead, ProperResponse;
    var skip := settings(c.p.answered);
    ResponseGoesOn(m, skip);
    ReadResponseHead(sw, settings, c, m);
    var d := FeedAll(sw, c, ResponseHead(m)).c;
    ReadPayload(sw, settings, c, d, m, skip);
    Then(sw, c, ResponseHead(m), d, PayloadText(m.payload));
  }

  // ----- responses one after another -----

  function PrintResponses(ms: seq<Response>): Bytes
  {
    if ms == [] then [] else PrintResponse(ms[0]) + PrintResponses(ms[1..])
  }

  /** Only the last of them may be open.  The answers of on_headers_complete start with the n-th. */
  predicate ProperResponses(ms: seq<Response>, settings: Settings, n: nat)
  {
    forall i | 0 <= i < |ms| :: ProperResponse(ms[i], settings(n + i)) && (ms[i].payload.Open? ==> i == |ms| - 1)
  }

  lemma RestProper(ms: seq<Response>, settings: Settings, n: nat)
    requires ms != [] && ProperResponses(ms, settings, n)
    ensures ProperResponse(ms[0], settings(n)) && ProperResponses(ms[1..], settings, n + 1)
    ensures ms[1..] != [] ==> !ms[0].payload.Open?
  {
    hide ProperResponse;
    assert ProperResponse(ms[0], settings(n + 0));
    forall i | 0 <= i < |ms[1..]|
      ensures ProperResponse(ms[1..][i], settings(n + 1 + i)) && (ms[1..][i].payload.Open? ==> i == |ms[1..]| - 1)
    {
      assert ms[1..][i] == ms[i + 1] && n + 1 + i == n + (i + 1);
    }
  }

  /** What has been told when all bytes have been read. */
  function AllSoFar(ms: seq<Response>, settings: Settings, n: nat): Trace
    requires ProperResponses(ms, settings, n)
    decreases |ms|
  {
    if ms == [] then []
    else
      RestProper(ms, settings, n);
      SoFar(ms[0], settings(n)) + AllSoFar(ms[1..], settings, n + 1)
  }

  /** ... and when the connection has ended. */
  function ToldResponses(ms: seq<Response>, settings: Settings, n: nat): Trace
    requires ProperResponses(ms, settings, n)
    decreases |ms|
  {
    if ms == [] then []
    else
      RestProper(ms, settings, n);
      ToldResponse(ms[0], settings(n)) + ToldResponses(ms[1..], settings, n + 1)
  }

  predicate LastOpen(ms: seq<Response>) { ms != [] && ms[|ms| - 1].payload.Open? }

  lemma {:induction false} EofTellsRest(ms: seq<Response>, settings: Settings, n: nat)
    requires ProperResponses(ms, settings, n)
    ensures ToldResponses(ms, settings, n)
            == AllSoFar(ms, settings, n) + if LastOpen(ms) then [Note(MessageComplete)] else []
    decreases |ms|
  {
    hide SoFar, ProperResponse;
    if ms != [] {
      RestProper(ms, settings, n);
      ResponseGoesOn(ms[0], settings(n));
      EofTellsRest(ms[1..], settings, n + 1);
      var one, rest := SoFar(ms[0], settings(n)), AllSoFar(ms[1..], settings, n + 1);
      if ms[1..] == [] {
        assert one + [] == one;
      } else {
        assert LastOpen(ms) == LastOpen(ms[1..]);
        assert one + [] == one;
        assert one + (rest + [Note(MessageComplete)]) == one + rest + [Note(MessageComplete)];
        assert one + (rest + []) == one + rest + [];
      }
    }
  }

  predicate ResponsesRead(c: Config, d: Config, ms: seq<Response>, settings: Settings)
    requires ProperResponses(ms, settings, c.p.answered)
  {
    && d.used == c.used + |PrintResponses(ms)|
    && var told := c.out + AllSoFar(ms, settings, c.p.answered);
       if LastOpen(ms) then Lasting(d) && Total(d) == told
       else AtResponse(d) && d.out == told && (ms != [] ==> d.nread == 0 && d.start == d.used - 1)
  }

  lemma NoResponses(sw: Switcher, settings: Settings, c: Config)
    requires AtResponse(c)
    ensures FeedAll(sw, c, PrintResponses([])) == Running(c) && ResponsesRead(c, c, [], settings)
  {
    assert c.out + [] == c.out;
  }

  lemma OneMoreResponse(c: Config, d: Config, e: Config, ms: seq<Response>, settings: Settings)
    requires ms != [] && ProperResponses(ms, settings, c.p.answered) && ms[1..] != []
    requires LegalResponse(ms[0]) && ResponseRead(c, d, ms[0], settings(c.p.answered))
    requires d.p.answered == c.p.answered + 1 && ProperResponses(ms[1..], settings, d.p.answered)
    requires ResponsesRead(d, e, ms[1..], settings) && !ms[0].payload.Open?
    ensures ResponsesRead(c, e, ms, settings)
  {
    hide LegalResponse, ProperResponses, PrintResponse, SoFar, Lasting, AtResponse, Total, KeepsResponse;
    var one, rest := SoFar(ms[0], settings(c.p.answered)), AllSoFar(ms[1..], settings, d.p.answered);
    assert c.out + one + rest == c.out + (one + rest);
    assert LastOpen(ms) == LastOpen(ms[1..]);
  }

  lemma LastResponse(c: Config, d: Config, m: Response, settings: Settings)
    requires ProperResponses([m], settings, c.p.answered) && LegalResponse(m)
    requires ResponseRead(c, d, m, settings(c.p.answered))
    ensures ResponsesRead(c, d, [m], settings)
  {
    hide LegalResponse, PrintResponse, SoFar, Lasting, AtResponse, Total, KeepsResponse, ProperResponse;
    var one, n := SoFar(m, settings(c.p.answered)), c.p.answered;
    assert [m][1..] == [] && PrintResponses([]) == [];
    assert AllSoFar([], settings, n + 1) == [];
    assert one + [] == one;
    assert PrintResponse(m) + [] == PrintResponse(m);
  }

  /** Any number of responses in one buffer. */
  lemma {:induction false} Responses(sw: Switcher, settings: Settings, c: Config, ms: seq<Response>)
    requires Runs(sw, settings) && AtResponse(c) && ProperResponses(ms, settings, c.p.answered)
    ensures var s := FeedAll(sw, c, PrintResponses(ms)); s.Running? && ResponsesRead(c, s.c, ms, settings)
    decreases |ms|
  {
    hide Runs, FeedAll, ProperResponse, ProperResponses, PrintResponse, ResponsesRead, AtResponse, ResponseRead;
    if ms == [] {
      NoResponses(sw, settings, c);
    } else {
      RestProper(ms, settings, c.p.answered);
      ResponseGoesOn(ms[0], settings(c.p.answered));
      ResponseRoundTrip(sw, settings, c, ms[0]);
      var d := FeedAll(sw, c, PrintResponse(ms[0])).c;
      if ms[1..] == [] {
        assert ms == [ms[0]];
        assert PrintResponses(ms) == PrintResponse(ms[0]) + PrintResponses([]) == PrintResponse(ms[0]);
        LastResponse(c, d, ms[0], settings);
      } else {
        BetweenResponses(c, d, ms[0], settings(c.p.answered));
        Responses(sw, settings, d, ms[1..]);
        Then(sw, c, PrintResponse(ms[0]), d, PrintResponses(ms[1..]));
        OneMoreResponse(c, d, FeedAll(sw, d, PrintResponses(ms[1..])).c, ms, settings);
      }
    }
  }

  lemma BetweenResponses(c: Config, d: Config, m: Response, skip: bool)
    requires LegalResponse(m) && !m.payload.Open? && ResponseRead(c, d, m, skip)
    ensures AtResponse(d) && d.p.answered == c.p.answered + 1 && d.start <= d.used && Count(d) == 1
  {
    hide LegalResponse, PrintResponse, SoFar;
  }

  // ----- cut anywhere -----

  lemma DigitsNoCr(ds: Bytes)
    requires Digits(ds)
    ensures forall i | 0 <= i < |ds| :: ds[i] != CR
  {
  }

  lemma StatusLineQuiet(m: Response)
    requires ProperStatusLine(m)
    ensures var t := StatusLine(m); NoBareCR(t) && t != [] && t[|t| - 1] == LF
  {
    hide NumberText, DecValue, Digits, NoBareCR;
    DigitsNoCr(m.major);
    DigitsNoCr(m.minor);
    DigitsNoCr(m.status);
    var t := PROTOCOL + (m.major + ['.'] + (m.minor + [' '] + (m.status + ReasonText(m.reason))));
    EndQuiet(t);
    assert StatusLine(m) == t + [CR, LF];
  }

  lemma ResponseHeadQuiet(m: Response)
    requires LegalResponse(m)
    ensures NoBareCR(ResponseHead(m))
  {
    hide StatusLine, Block, NoBareCR, ProperHeaders, ProperStatusLine;
    StatusLineQuiet(m);
    BlockQuiet(m.headers);
    EndQuiet([]);
    assert [] + [CR, LF] == [CR, LF];
    QuietJoin(Block(m.headers), [CR, LF]);
    QuietJoin(StatusLine(m), Block(m.headers) + [CR, LF]);
    assert ResponseHead(m) == StatusLine(m) + (Block(m.headers) + [CR, LF]);
  }

  lemma ResponseHeadPrefix(sw: Switcher, settings: Settings, c: Config, m: Response, k: nat)
    requires Runs(sw, settings) && AtResponse(c) && ProperResponse(m, settings(c.p.answered))
    requires c.start <= c.used && Count(c) + |ResponseHead(m)| <= MAX_HEADER_SIZE && k <= |ResponseHead(m)|
    ensures Fine(FeedAll(sw, c, ResponseHead(m)[..k]))
  {
    hide Runs, FeedAll, ResponseHead, NoBareCR, Fine, LegalResponse, Count, ProperResponse, ResponseItems,
         AfterResponse;
    ResponseGoesOn(m, settings(c.p.answered));
    ResponseHeadQuiet(m);
    ReadResponseHead(sw, settings, c, m);
    ShortPrefix(sw, settings, c, ResponseHead(m), k);
  }

  lemma OpenPrefix(sw: Switcher, settings: Settings, d: Config, bs: Bytes, k: nat)
    requires Runs(sw, settings) && d.live.None? && d.held == [] && d.p.state.BodyIdentityEof? && d.p.errno == Ok
    requires k <= |bs|
    ensures Fine(FeedAll(sw, d, bs[..k]))
  {
    hide Runs, FeedAll;
    OpenBytes(sw, settings, d, bs[..k]);
  }

  lemma PayloadPrefix(sw: Switcher, settings: Settings, c: Config, d: Config, m: Response, skip: bool, k: nat)
    requires Runs(sw, settings) && ProperResponse(m, skip) && ResponseHeadRead(c, d, m, skip) && c.p.verb != CONNECT
    requires 0 < k < |PayloadText(m.payload)|
    ensures Fine(FeedAll(sw, d, PayloadText(m.payload)[..k]))
  {
    hide Runs, FeedAll, Fine, LegalResponse, ResponseHead, ResponseItems, SaysAll, DecValue, Carries, AfterResponse;
    CarriesFacts(c, d, m, skip);
    if m.payload.Open? {
      OpenPrefix(sw, settings, d, m.payload.bytes, k);
    } else {
      match m.payload.content {
        case NoContent =>
        case Sized(bs) => SizedPrefix(sw, settings, d, bs, k);
        case InChunks(chunks) => EncodePrefix(sw, settings, d, chunks, k);
      }
    }
  }

  lemma ResponseIsFine(c: Config, d: Config, m: Response, skip: bool)
    requires LegalResponse(m) && ResponseRead(c, d, m, skip)
    ensures Fine(Running(d))
  {
    hide LegalResponse, PrintResponse, SoFar, Total;
  }

  /** The parser may be cut off after any part of a response. */
  lemma ResponsePrefix(sw: Switcher, settings: Settings, c: Config, m: Response, k: nat)
    requires Runs(sw, settings) && AtResponse(c) && ProperResponse(m, settings(c.p.answered))
    requires c.start <= c.used && Count(c) + |ResponseHead(m)| <= MAX_HEADER_SIZE && k <= |PrintResponse(m)|
    ensures Fine(FeedAll(sw, c, PrintResponse(m)[..k]))
  {
    hide Runs, FeedAll, Fine, ResponseHead, PayloadText, ResponseHeadRead, ProperResponse, Count, ResponseRead;
    var skip := settings(c.p.answered);
    ResponseGoesOn(m, skip);
    if k <= |ResponseHead(m)| {
      assert PrintResponse(m)[..k] == ResponseHead(m)[..k];
      ResponseHeadPrefix(sw, settings, c, m, k);
    } else if k < |PrintResponse(m)| {
      ReadResponseHead(sw, settings, c, m);
      var d, j := FeedAll(sw, c, ResponseHead(m)).c, k - |ResponseHead(m)|;
      assert PrintResponse(m)[..k] == ResponseHead(m) + PayloadText(m.payload)[..j];
      Then(sw, c, ResponseHead(m), d, PayloadText(m.payload)[..j]);
      PayloadPrefix(sw, settings, c, d, m, skip, j);
    } else {
      assert PrintResponse(m)[..k] == PrintResponse(m);
      ResponseRoundTrip(sw, settings, c, m);
      ResponseIsFine(c, FeedAll(sw, c, PrintResponse(m)).c, m, skip);
    }
  }

  predicate ResponsesFit(ms: seq<Response>, count: int)
  {
    forall i | 0 <= i < |ms| :: (if i == 0 then count else 1) + |ResponseHead(ms[i])| <= MAX_HEADER_SIZE
  }

  lemma {:induction false} ResponsesPrefix(sw: Switcher, settings: Settings, c: Config, ms: seq<Response>, k: nat)
    requires Runs(sw, settings) && AtResponse(c) && ProperResponses(ms, settings, c.p.answered) && ms != []
    requires c.start <= c.used && ResponsesFit(ms, Count(c)) && k <= |PrintResponses(ms)|
    ensures Fine(FeedAll(sw, c, PrintResponses(ms)[..k]))
    decreases |ms|
  {
    hide Runs, FeedAll, Fine, ResponseHead, ProperResponse, ProperResponses, AtResponse, Count, PrintResponse,
         ResponseRead;
    var one, n := PrintResponse(ms[0]), c.p.answered;
    RestProper(ms, settings, n);
    assert Count(c) + |ResponseHead(ms[0])| <= MAX_HEADER_SIZE;
    if k <= |one| {
      assert PrintResponses(ms)[..k] == one[..k];
      ResponsePrefix(sw, settings, c, ms[0], k);
    } else {
      assert ms[1..] != [];
      ResponseGoesOn(ms[0], settings(n));
      ResponseRoundTrip(sw, settings, c, ms[0]);
      var d := FeedAll(sw, c, one).c;
      BetweenResponses(c, d, ms[0], settings(n));
      assert PrintResponses(ms)[..k] == one + PrintResponses(ms[1..])[..k - |one|];
      Then(sw, c, one, d, PrintResponses(ms[1..])[..k - |one|]);
      assert forall i | 0 <= i < |ms| - 1 :: ms[1..][i] == ms[i + 1];
      ResponsesPrefix(sw, settings, d, ms[1..], k - |one|);
    }
  }

  predicate ReadyForResponse(p: Parser)
  {
    p.state.PreStartRes? && p.kind == ParserType.Response && p.errno == Ok && p.verb != CONNECT
  }

  lemma ResponsesCall(sw: Switcher, settings: Settings, p: Parser, nread: nat, out: Trace, ms: seq<Response>)
    requires Runs(sw, settings) && ReadyForResponse(p) && ProperResponses(ms, settings, p.answered) && ms != []
    requires PrintResponses(ms) != []
    ensures var r := Execute(sw, p, nread, out, PrintResponses(ms));
            && r.p.errno == Ok && r.out == out + AllSoFar(ms, settings, p.answered) && r.used == |PrintResponses(ms)|
            && (if LastOpen(ms) then r.p.state.BodyIdentityEof? else ReadyForResponse(r.p))
  {
    hide Runs, FeedAll, ProperResponses, PrintResponses, AllSoFar, Put;
    var c := Begin(p, nread, out);
    Responses(sw, settings, c, ms);
  }

  /**
   * Responses that a server prints one after another, handed over in any non-empty pieces, and then the end of the
   * connection: the callbacks are told one after another the reason, the headers, the framing and exactly the body
   * of each, and an open body is complete only when the connection ends.
   */
  lemma ResponsesInPieces(
    sw: Switcher, settings: Settings, p: Parser, nread: nat, out: Trace, ms: seq<Response>, pieces: seq<Bytes>)
    requires Runs(sw, settings) && ReadyForResponse(p) && ProperResponses(ms, settings, p.answered) && ms != []
    requires ResponsesFit(ms, nread) && Pieces(pieces) && Join(pieces) == PrintResponses(ms)
    ensures var r := RunCalls(sw, p, nread, out, pieces);
            var e := Execute(sw, r.p, r.nread, r.out, []);
            && r.p.errno == Ok && r.out == out + AllSoFar(ms, settings, p.answered)
            && e.p.errno == Ok && e.out == out + ToldResponses(ms, settings, p.answered)
  {
    hide Runs, Execute, RunCalls, Fine, PrintResponses, AllSoFar, ToldResponses, Join, ProperResponses, ResponsesFit;
    ResponsesPrint(ms);
    JoinNothing();
    forall k | 0 < k < |PrintResponses(ms)|
      ensures Fine(At(sw, p, nread, out, PrintResponses(ms)[..k]))
    {
      hide FeedAll;
      ResponsesPrefix(sw, settings, Begin(p, nread, out), ms, k);
    }
    InPieces(sw, settings, p, nread, out, pieces);
    ResponsesCall(sw, settings, p, nread, out, ms);
    var r := RunCalls(sw, p, nread, out, pieces);
    ConnectionEnds(sw, r.p, r.nread, r.out);
    EofTellsRest(ms, settings, p.answered);
    var told := AllSoFar(ms, settings, p.answered);
    assert out + told + [Note(MessageComplete)] == out + (told + [Note(MessageComplete)]);
    assert out + (told + []) == out + told;
  }

  lemma ResponsesPrint(ms: seq<Response>)
    requires ms != []
    ensures PrintResponses(ms) != []
  {
    hide ResponseFields, PayloadText;
  }

  /** The end of the connection completes an open body, and is no error between responses. */
  lemma ConnectionEnds(sw: Switcher, p: Parser, nread: nat, out: Trace)
    requires p.errno == Ok && (p.state.BodyIdentityEof? || p.state.PreStartRes?)
    ensures var e := Execute(sw, p, nread, out, []);
            e.p.errno == Ok && e.out == if p.state.BodyIdentityEof? then out + [Note(MessageComplete)] else out
  {
  }
}
