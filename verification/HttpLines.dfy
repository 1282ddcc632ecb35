/** Line ends and other bytes that the parser takes more freely than it says: blank lines, bare line feeds, HTTP/0.9. */
module HttpLines {
  import opened HttpTypes
  import opened HttpSwitch
  import opened HttpMachine
  import opened HttpFast
  import opened HttpLengths
  import opened HttpTokens
  import opened HttpCoding
  import opened HttpBodies
  import opened HttpFields
  import opened HttpTarget
  import opened HttpRequest

  // ----- blank lines before a message -----

  predicate BeforeMessage(s: State) { s.PreStartReq? || s.PreStartRes? || s.PreStartReqOrRes? }

  predicate LineEnds(t: Bytes) { forall i | 0 <= i < |t| :: t[i] == CR || t[i] == LF }

  lemma BlankLineByte(sw: Switcher, settings: Settings, c: Config, ch: Byte)
    requires Runs(sw, settings) && BeforeMessage(c.p.state) && c.live.None? && c.p.errno == Ok
    requires ch == CR || ch == LF
    ensures Feed(sw, c, ch) == Running(c.(used := c.used + 1))
  {
    hide Runs, Feed, Put;
    VisitsStart(sw, settings, c.p, ch);
    FeedOnce(sw, c, ch);
  }

  /** Line ends before a message are skipped. */
  lemma {:induction false} BlankLines(sw: Switcher, settings: Settings, c: Config, t: Bytes)
    requires Runs(sw, settings) && BeforeMessage(c.p.state) && c.live.None? && c.p.errno == Ok && LineEnds(t)
    ensures FeedAll(sw, c, t) == Running(c.(used := c.used + |t|))
    decreases |t|
  {
    hide Runs, Feed;
    if t != [] {
      BlankLineByte(sw, settings, c, t[0]);
      BlankLines(sw, settings, c.(used := c.used + 1), t[1..]);
    }
  }

  // ----- a line feed alone -----

  /** Where a line may end; HTTP/0.9 is another matter. */
  predicate MayEndLine(c: Config)
  {
    && c.p.errno == Ok
    && match c.p.state
       case ReqHttpMinor => c.live.None? && !(c.p.major == 0 && c.p.minor == 9)
       case ResStatusCode => c.live.None?
       case ResStatus => c.live.None? || c.live == Some(Reason)
       case HeaderValue => c.live == Some(Value) && !c.p.hstate.GeneralAndQuoteAndEscape?
       case _ => false
  }

  /** The configuration after the line. */
  function LineEnded(c: Config, used: nat): Config
  {
    match c.p.state
    case ResStatus =>
      c.(p := c.p.(state := HeaderFieldStart), live := None, held := [],
         out := Put(c.out, Reason, if c.live.Some? then c.held else []), used := used)
    case HeaderValue =>
      c.(p := c.p.(state := HeaderValueLws, chunked := c.p.chunked || c.p.hstate.TransferEncodingChunked?),
         live := None, held := [], out := Put(c.out, Value, c.held), used := used)
    case _ => c.(p := c.p.(state := HeaderFieldStart), used := used)
  }

  /** Two states in which nothing is held. */
  lemma PlainLf(sw: Switcher, settings: Settings, c: Config)
    requires Runs(sw, settings) && MayEndLine(c) && (c.p.state.ReqHttpMinor? || c.p.state.ResStatusCode?)
    ensures Feed(sw, c, LF) == Running(c.(p := c.p.(state := HeaderFieldStart), used := c.used + 1))
  {
    hide Runs, Feed, Put;
    if c.p.state.ReqHttpMinor? {
      VisitsVersion(sw, settings, c.p, LF);
    } else {
      VisitsResponse(sw, settings, c.p, LF);
    }
    FeedOnce(sw, c, LF);
  }

  function ReasonEnded(c: Config, s: State): Config
  {
    c.(p := c.p.(state := s), live := None, held := [],
       out := Put(c.out, Reason, if c.live.Some? then c.held else []), used := c.used + 1)
  }

  lemma ReasonByteEnds(sw: Switcher, settings: Settings, c: Config, ch: Byte)
    requires Runs(sw, settings) && MayEndLine(c) && c.p.state.ResStatus? && (ch == CR || ch == LF)
    ensures Feed(sw, c, ch) == Running(ReasonEnded(c, if ch == CR then ResLineAlmostDone else HeaderFieldStart))
  {
    hide Runs, Feed, Put;
    VisitsResponse(sw, settings, c.p, ch);
    FeedOnce(sw, c, ch);
  }

  lemma StartLineLf(sw: Switcher, settings: Settings, c: Config)
    requires Runs(sw, settings) && MayEndLine(c) && !c.p.state.HeaderValue?
    ensures Feed(sw, c, LF) == Running(LineEnded(c, c.used + 1))
  {
    hide Runs, Feed, Put;
    if c.p.state.ResStatus? {
      ReasonByteEnds(sw, settings, c, LF);
    } else {
      PlainLf(sw, settings, c);
    }
  }

  function ValueOver(c: Config): Config
  {
    c.(p := c.p.(state := HeaderAlmostDone), live := None, held := [], out := Put(c.out, Value, c.held))
  }

  lemma ValueVisit(sw: Switcher, settings: Settings, c: Config)
    requires Runs(sw, settings) && MayEndLine(c) && c.p.state.HeaderValue?
    ensures Feed(sw, c, LF) == Feed(sw, ValueOver(c), LF)
  {
    hide Runs, Feed, Put, SwitchHeader;
    VisitsHeader(sw, settings, c.p, LF);
    LfOutcome(c.p);
    FeedTwice(sw, c, LF);
  }

  lemma ValueOverIs(c: Config)
    requires MayEndLine(c) && c.p.state.HeaderValue?
    ensures var d := ValueOver(c);
            && d.p.state.HeaderAlmostDone? && !d.p.hstate.GeneralAndQuoteAndEscape? && d.live.None? && d.p.errno == Ok
            && LineEnded(c, c.used + 1)
               == d.(p := d.p.(state := HeaderValueLws, chunked := d.p.chunked || d.p.hstate.TransferEncodingChunked?),
                     used := d.used + 1)
  {
    hide Put;
  }

  lemma ValueLf(sw: Switcher, settings: Settings, c: Config)
    requires Runs(sw, settings) && MayEndLine(c) && c.p.state.HeaderValue?
    ensures Feed(sw, c, LF) == Running(LineEnded(c, c.used + 1))
  {
    hide Runs, Feed, FeedAll, LineEnded, ValueOver;
    ValueVisit(sw, settings, c);
    ValueOverIs(c);
    LineLf(sw, settings, ValueOver(c));
    FeedSingle(sw, ValueOver(c), LF);
  }

  lemma LfOutcome(p: Parser)
    ensures p.state.HeaderValue? && !p.hstate.GeneralAndQuoteAndEscape? ==>
              SwitchHeader(p, LF) == Redo(p, HeaderAlmostDone).(flush := FlushBefore(Value))
    ensures p.state.HeaderFieldStart? ==> SwitchHeader(p, LF) == Redo(p, HeadersAlmostDone)
  {
    hide IsToken, MatchChunked;
  }

  lemma PlainCr(sw: Switcher, settings: Settings, c: Config)
    requires Runs(sw, settings) && MayEndLine(c) && (c.p.state.ReqHttpMinor? || c.p.state.ResStatusCode?)
    ensures var s := if c.p.state.ReqHttpMinor? then ReqLineAlmostDone else ResLineAlmostDone;
            Feed(sw, c, CR) == Running(c.(p := c.p.(state := s), used := c.used + 1))
  {
    hide Runs, Feed, Put;
    if c.p.state.ReqHttpMinor? {
      VisitsVersion(sw, settings, c.p, CR);
    } else {
      VisitsResponse(sw, settings, c.p, CR);
    }
    FeedOnce(sw, c, CR);
  }

  lemma StartLineCr(sw: Switcher, settings: Settings, c: Config)
    requires Runs(sw, settings) && MayEndLine(c) && !c.p.state.HeaderValue?
    ensures var d := LineEnded(c, c.used + 1);
            Feed(sw, c, CR) ==
            Running(d.(p := d.p.(state := if c.p.state.ReqHttpMinor? then ReqLineAlmostDone else ResLineAlmostDone)))
  {
    hide Runs, Feed, Put;
    if c.p.state.ResStatus? {
      ReasonByteEnds(sw, settings, c, CR);
    } else {
      PlainCr(sw, settings, c);
    }
  }

  lemma AlmostDone(sw: Switcher, settings: Settings, c: Config)
    requires Runs(sw, settings) && (c.p.state.ReqLineAlmostDone? || c.p.state.ResLineAlmostDone?)
    requires c.live.None? && c.p.errno == Ok
    ensures Feed(sw, c, LF) == Running(c.(p := c.p.(state := HeaderFieldStart), used := c.used + 1))
  {
    hide Runs, Feed, Put;
    if c.p.state.ReqLineAlmostDone? {
      VisitsVersion(sw, settings, c.p, LF);
    } else {
      VisitsResponse(sw, settings, c.p, LF);
    }
    FeedOnce(sw, c, LF);
  }

  lemma AlmostEnded(c: Config)
    requires MayEndLine(c) && !c.p.state.HeaderValue?
    ensures var d := LineEnded(c, c.used + 1);
            && d.live.None? && d.p.errno == Ok && d.used == c.used + 1
            && LineEnded(c, c.used + 2) == d.(used := c.used + 2) && d.p.state.HeaderFieldStart?
  {
    hide Put;
  }

  lemma StartLineCrLf(sw: Switcher, settings: Settings, c: Config)
    requires Runs(sw, settings) && MayEndLine(c) && !c.p.state.HeaderValue?
    ensures FeedAll(sw, c, [CR, LF]) == Running(LineEnded(c, c.used + 2))
  {
    hide Runs, Feed, FeedAll, LineEnded, MayEndLine;
    StartLineCr(sw, settings, c);
    AlmostEnded(c);
    var d := Feed(sw, c, CR).c;
    FeedSingle(sw, c, CR);
    AlmostDone(sw, settings, d);
    FeedSingle(sw, d, LF);
    Then(sw, c, [CR], d, [LF]);
    assert [CR] + [LF] == [CR, LF];
  }

  lemma CrLf(sw: Switcher, settings: Settings, c: Config)
    requires Runs(sw, settings) && MayEndLine(c)
    ensures FeedAll(sw, c, [CR, LF]) == Running(LineEnded(c, c.used + 2))
  {
    hide Runs, Feed, FeedAll, Put;
    if c.p.state.HeaderValue? {
      ValueEnds(sw, settings, c);
    } else {
      StartLineCrLf(sw, settings, c);
    }
  }

  /** A line feed alone ends a line just as CR LF does. */
  lemma LfAlone(sw: Switcher, settings: Settings, c: Config)
    requires Runs(sw, settings) && MayEndLine(c)
    ensures FeedAll(sw, c, [LF]) == Running(LineEnded(c, c.used + 1))
    ensures FeedAll(sw, c, [CR, LF]) == Running(LineEnded(c, c.used + 2))
  {
    hide Runs, Feed, FeedAll, LineEnded, MayEndLine;
    FeedSingle(sw, c, LF);
    CrLf(sw, settings, c);
    if c.p.state.HeaderValue? {
      ValueLf(sw, settings, c);
    } else {
      StartLineLf(sw, settings, c);
    }
  }

  /** After a header without a value that ends in a line feed alone, the next line cannot go on with the value. */
  lemma EmptyValueLf(sw: Switcher, settings: Settings, c: Config)
    requires Runs(sw, settings) && c.p.state.HeaderValueStart? && c.live.None? && c.held == [] && c.p.errno == Ok
    requires !c.p.hstate.ContentLength? && !c.p.hstate.TransferEncoding? && !c.p.hstate.Upgrade?
    ensures FeedAll(sw, c, [LF]) ==
            Running(c.(p := c.p.(state := HeaderFieldStart, index := 0), out := Put(c.out, Value, []),
                       used := c.used + 1))
  {
    hide Runs, Feed, FeedAll, Put;
    VisitsHeader(sw, settings, c.p, LF);
    FeedSingle(sw, c, LF);
    FeedOnce(sw, c, LF);
  }

  /** An empty line that is a line feed alone ends the headers as CR LF does, with one byte less. */
  lemma LfEndsHeaders(sw: Switcher, settings: Settings, c: Config)
    requires Runs(sw, settings) && AtLine(c) && InHead(c.p)
    ensures var skip := settings(c.p.answered);
            var d := AfterHeaders(c, skip).(used := c.used + 1, start := c.used);
            FeedAll(sw, c, [LF]) == if RestOf(c.p, skip).OtherProtocol? then Exited(d) else Running(d)
  {
    hide Runs, Feed, FeedAll, RestOf, AfterLf, AfterHeaders;
    var b, skip := Fresh(c), settings(c.p.answered);
    LineStarts(sw, settings, c, [LF]);
    FeedSingle(sw, b, LF);
    EmptyLf(sw, settings, b);
    SameAfterLf(c, In(b, HeadersAlmostDone), skip);
    LastLf(sw, settings, In(b, HeadersAlmostDone), skip, RestOf(c.p, skip));
  }

  lemma EmptyLf(sw: Switcher, settings: Settings, b: Config)
    requires Runs(sw, settings) && b.p.state.HeaderFieldStart? && b.live.None? && b.p.errno == Ok
    ensures Feed(sw, b, LF) == Feed(sw, In(b, HeadersAlmostDone), LF)
  {
    hide Runs, Feed, SwitchHeader, Put;
    VisitsHeader(sw, settings, b.p, LF);
    LfOutcome(b.p);
    FeedTwice(sw, b, LF);
  }

  lemma SameAfterLf(c: Config, d: Config, skip: bool)
    requires d == In(c, HeadersAlmostDone)
    ensures RestOf(d.p, skip) == RestOf(c.p, skip)
    ensures AfterLf(d, skip, RestOf(c.p, skip)) == AfterHeaders(c, skip).(used := c.used + 1, start := c.used)
  {
    hide RestState, RestOf, RestNote, Upgrades;
    SameRest(c.p, d.p, skip);
  }

  // ----- bytes that are not looked at -----

  /** Where any byte does. */
  predicate Careless(s: State)
  {
    || s.ResH? || s.ResHT? || s.ResHTT? || s.ResHTTP? || s.ResLineAlmostDone?
    || s.ReqSchemaSlash? || s.ReqSchemaSlashSlash?
    || s.ReqHttpH? || s.ReqHttpHT? || s.ReqHttpHTT? || s.ReqHttpHTTP?
    || s.ChunkSizeAlmostDone? || s.ChunkDataAlmostDone? || s.ChunkDataDone?
  }

  /** Strict checks are compiled out: in these states every byte does what the expected one does. */
  lemma AnyByteDoes(sw: Switcher, settings: Settings, p: Parser, ch: Byte, other: Byte)
    requires Runs(sw, settings) && Careless(p.state)
    ensures sw(p, ch) == sw(p, other)
  {
    hide Runs, Digit, IsNum;
    if RegionOf(p.state).AtResponse? {
      VisitsResponse(sw, settings, p, ch);
      VisitsResponse(sw, settings, p, other);
    } else if RegionOf(p.state).AtUrl? {
      VisitsUrl(sw, settings, p, ch);
      VisitsUrl(sw, settings, p, other);
    } else if RegionOf(p.state).AtVersion? {
      VisitsVersion(sw, settings, p, ch);
      VisitsVersion(sw, settings, p, other);
    } else {
      VisitsChunk(sw, settings, p, ch);
      VisitsChunk(sw, settings, p, other);
    }
  }

  // ----- spaces in the request line -----

  predicate SkipsSpaces(s: State) { s.ReqSpacesBeforeUrl? || s.ReqHttpStart? }

  lemma SpaceByte(sw: Switcher, settings: Settings, c: Config)
    requires Runs(sw, settings) && SkipsSpaces(c.p.state) && c.live.None? && c.p.errno == Ok
    ensures Feed(sw, c, ' ') == Running(c.(used := c.used + 1))
  {
    hide Runs, Feed, Put;
    if c.p.state.ReqSpacesBeforeUrl? {
      VisitsUrl(sw, settings, c.p, ' ');
    } else {
      VisitsVersion(sw, settings, c.p, ' ');
    }
    FeedOnce(sw, c, ' ');
  }

  /** Further spaces before the target and before the version are skipped. */
  lemma {:induction false} SpacesSkipped(sw: Switcher, settings: Settings, c: Config, t: Bytes)
    requires Runs(sw, settings) && SkipsSpaces(c.p.state) && c.live.None? && c.p.errno == Ok
    requires forall i | 0 <= i < |t| :: t[i] == ' '
    ensures FeedAll(sw, c, t) == Running(c.(used := c.used + |t|))
    decreases |t|
  {
    hide Runs, Feed;
    if t != [] {
      SpaceByte(sw, settings, c);
      SpacesSkipped(sw, settings, c.(used := c.used + 1), t[1..]);
    }
  }

  // ----- HTTP/0.9 -----

  function LineEnd(crlf: bool): Bytes { if crlf then [CR, LF] else [LF] }

  /** Before the last line feed of a request of HTTP/0.9, which has no headers. */
  function Simple(c: Config, out: Trace, crlf: bool): Config
  {
    c.(p := c.p.(state := HeadersAlmostDone, major := 0, minor := 9), live := None, held := [], out := out,
       used := c.used + if crlf then 1 else 0)
  }

  function Over(d: Config, skip: bool): Step
  {
    var rest := RestOf(d.p, skip);
    if rest.OtherProtocol? then Exited(AfterLf(d, skip, rest)) else Running(AfterLf(d, skip, rest))
  }

  lemma TargetLineEnd(s: State, ch: Byte)
    requires InPath(s) && (ch == CR || ch == LF)
    ensures MoveInUrl(s, ch).LineEnds? && InUrl(s)
  {
    NotInUrl();
  }

  lemma SimpleFirst(sw: Switcher, settings: Settings, c: Config, crlf: bool)
    requires Runs(sw, settings) && InPath(c.p.state) && c.live == Some(Url) && c.p.errno == Ok
    ensures var d := Simple(c, Put(c.out, Url, c.held), crlf);
            if crlf then Feed(sw, c, CR) == Running(d) else Feed(sw, c, LF) == Feed(sw, d, LF)
  {
    hide Runs, Feed, Put, MoveInUrl, InUrl;
    var ch := if crlf then CR else LF;
    TargetLineEnd(c.p.state, ch);
    TargetVisit(sw, settings, c.p, ch);
    if crlf {
      FeedOnce(sw, c, CR);
    } else {
      FeedTwice(sw, c, LF);
    }
  }

  lemma SimpleLast(sw: Switcher, settings: Settings, c: Config, d: Config, crlf: bool)
    requires Runs(sw, settings) && d.p.state.HeadersAlmostDone? && d.live.None? && d.p.errno == Ok && InHead(d.p)
    requires if crlf then Feed(sw, c, CR) == Running(d) else Feed(sw, c, LF) == Feed(sw, d, LF)
    ensures FeedAll(sw, c, LineEnd(crlf)) == Over(d, settings(d.p.answered))
  {
    hide Runs, Feed, FeedAll, RestOf, AfterLf;
    LastLf(sw, settings, d, settings(d.p.answered), RestOf(d.p, settings(d.p.answered)));
    FeedSingle(sw, d, LF);
    if crlf {
      FeedSingle(sw, c, CR);
      Then(sw, c, [CR], d, [LF]);
      assert [CR] + [LF] == [CR, LF];
    } else {
      FeedSingle(sw, c, LF);
    }
  }

  /** A line end in the target. */
  lemma SimpleEnd(sw: Switcher, settings: Settings, c: Config, crlf: bool)
    requires Runs(sw, settings) && InPath(c.p.state) && c.live == Some(Url) && c.p.errno == Ok && InHead(c.p)
    ensures FeedAll(sw, c, LineEnd(crlf)) == Over(Simple(c, Put(c.out, Url, c.held), crlf), settings(c.p.answered))
  {
    hide Runs, Feed, FeedAll, Put, InUrl, Over;
    SimpleFirst(sw, settings, c, crlf);
    SimpleLast(sw, settings, c, Simple(c, Put(c.out, Url, c.held), crlf), crlf);
  }

  /** The same with the version spelled out. */
  lemma SimpleVersion(sw: Switcher, settings: Settings, c: Config, crlf: bool)
    requires Runs(sw, settings) && c.p.state.ReqHttpMinor? && c.p.major == 0 && c.p.minor == 9
    requires c.live.None? && c.held == [] && c.p.errno == Ok && InHead(c.p)
    ensures FeedAll(sw, c, LineEnd(crlf)) == Over(Simple(c, c.out, crlf), settings(c.p.answered))
  {
    hide Runs, Feed, FeedAll, Put, Over;
    VisitsVersion(sw, settings, c.p, if crlf then CR else LF);
    if crlf {
      FeedOnce(sw, c, CR);
    } else {
      FeedTwice(sw, c, LF);
    }
    SimpleLast(sw, settings, c, Simple(c, c.out, crlf), crlf);
  }

  lemma OriginRead(sw: Switcher, settings: Settings, c: Config, t: Bytes)
    requires Runs(sw, settings) && AtTarget(c) && OriginText(t) && TargetText(t) && c.p.verb != CONNECT
    ensures var s := FeedAll(sw, c, t);
            && s.Running? && InPath(s.c.p.state)
            && s.c == c.(p := c.p.(state := s.c.p.state), live := Some(Url), held := t, used := c.used + |t|)
  {
    hide Runs, Feed, FeedAll, Walk, TailText;
    FirstOfTarget(sw, settings, c, t[0]);
    var d := Feed(sw, c, t[0]).c;
    FeedSingle(sw, c, t[0]);
    Then(sw, c, [t[0]], d, t[1..]);
    assert [t[0]] + t[1..] == t;
    PathWalk(ReqPath, t[1..]);
    TargetRun(sw, settings, d, t[1..]);
  }

  /** What is left of such a request. */
  predicate SimpleTold(c: Config, s: Step, m: Method, t: Bytes, crlf: bool, skip: bool)
  {
    && s.Running? && AtMessage(s.c) && s.c.p.verb == m && s.c.p.major == 0 && s.c.p.minor == 9
    && s.c.out == c.out + [Note(MessageBegin), Text(Url, t), Note(HeadersComplete(-1, false, false, skip)),
                           Note(MessageComplete)]
    && s.c.used == c.used + |MethodName(m)| + 1 + |t| + |LineEnd(crlf)|
  }

  lemma SimpleIsTold(c: Config, e: Config, m: Method, t: Bytes, crlf: bool, skip: bool)
    requires AtMessage(c) && m != CONNECT
    requires e == c.(p := ClearMessage(c.p).(state := e.p.state, verb := m, index := e.p.index),
                     live := Some(Url), held := t, out := c.out + [Note(MessageBegin)],
                     used := c.used + |MethodName(m)| + 1 + |t|)
    ensures SimpleTold(c, Over(Simple(e, Put(e.out, Url, t), crlf), skip), m, t, crlf, skip)
  {
    hide MethodName;
    assert Put(e.out, Url, t) == c.out + [Note(MessageBegin), Text(Url, t)];
  }

  /**
   * A request of HTTP/0.9, a method and a target and nothing else: it is told with no headers, and is complete,
   * whatever on_headers_complete answers.
   */
  lemma SimpleRequest(sw: Switcher, settings: Settings, c: Config, m: Method, t: Bytes, crlf: bool)
    requires Runs(sw, settings) && AtMessage(c) && m != CONNECT && OriginText(t) && TargetText(t)
    ensures SimpleTold(c, FeedAll(sw, c, MethodName(m) + [' '] + (t + LineEnd(crlf))), m, t, crlf,
                       settings(c.p.answered))
  {
    hide Runs, FeedAll, MethodName, LineEnd, OriginText, TargetText, SimpleTold, Over, Simple;
    var b := Started(c);
    var d := b.(p := ClearMessage(b.p).(state := ReqSpacesBeforeUrl, verb := m, index := |MethodName(m)| + 1),
                used := b.used + |MethodName(m)| + 1);
    NameBegins(m);
    MessageStarts(sw, settings, c, MethodName(m) + [' '] + (t + LineEnd(crlf)));
    ReadMethod(sw, settings, b, m);
    OriginRead(sw, settings, d, t);
    var e := FeedAll(sw, d, t).c;
    SimpleEnd(sw, settings, e, crlf);
    SimpleIsTold(c, e, m, t, crlf, settings(c.p.answered));
    Then(sw, d, t, e, LineEnd(crlf));
    Then(sw, b, MethodName(m) + [' '], d, t + LineEnd(crlf));
  }

  // ----- where either a request or a response may come -----

  /** "HT" begins a response, which is then read as if nothing else had been possible. */
  lemma AsResponse(sw: Switcher, settings: Settings, c: Config)
    requires Runs(sw, settings) && AtEither(c)
    ensures FeedAll(sw, c, ['H', 'T']) ==
            Running(c.(p := ClearMessage(c.p).(kind := ParserType.Response, state := ResHT), used := c.used + 2))
  {
    hide Runs, Feed, FeedAll, Put;
    var d := c.(p := ClearMessage(c.p).(state := ResOrRespH), used := c.used + 1);
    VisitsStart(sw, settings, c.p, 'H');
    FeedOnce(sw, c, 'H');
    FeedSingle(sw, c, 'H');
    VisitsStart(sw, settings, d.p, 'T');
    FeedOnce(sw, d, 'T');
    FeedSingle(sw, d, 'T');
    Then(sw, c, ['H'], d, ['T']);
    assert ['H'] + ['T'] == ['H', 'T'];
  }
}
