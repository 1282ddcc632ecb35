/**
 * Whole requests: what a client prints is what the callbacks are told, whether the requests come in one
 * buffer or in any pieces.
 */
module HttpRequest {
  import opened HttpTypes
  import opened HttpSwitch
  import opened HttpMachine
  import opened HttpCuts
  import opened HttpInvariant
  import opened HttpFast
  import opened HttpLengths
  import opened HttpTokens
  import opened HttpCoding
  import opened HttpBodies
  import HttpDiscipline
  import opened HttpFailures
  import opened HttpSegments
  import opened HttpBodyCuts
  import opened HttpFields
  import opened HttpTarget

  datatype Content = NoContent | Sized(bytes: Bytes) | InChunks(chunks: seq<Bytes>)

  /** A request; the version is given by its digits. */
  datatype Message = Message(
    verb: Method, target: Bytes, major: Bytes, minor: Bytes, headers: seq<Header>, content: Content)

  function Head(m: Message): Bytes
  {
    RequestLine(m.verb, m.target, m.major, m.minor) + (Block(m.headers) + [CR, LF])
  }

  function ContentText(b: Content): Bytes
  {
    match b
    case NoContent => []
    case Sized(bs) => bs
    case InChunks(chunks) => Encode(chunks)
  }

  function Print(m: Message): Bytes { Head(m) + ContentText(m.content) }

  const NOTHING_SAID: Frame := Frame(-1, false, false)

  /** What the headers of a request say about its framing. */
  function Framing(m: Message): Frame
    requires ProperHeaders(m.headers)
  {
    SaysAll(NOTHING_SAID, m.headers)
  }

  /** The headers announce the content: chunks before a length, and a length before nothing. */
  predicate Announced(f: Frame, b: Content)
  {
    match b
    case NoContent => !f.chunked && f.length <= 0
    case Sized(bs) => !f.chunked && f.length == |bs| > 0
    case InChunks(chunks) => f.chunked && ProperChunks(chunks)
  }

  predicate LegalHead(m: Message)
  {
    && TargetText(m.target) && Accepts(m.verb, m.target) && ProperVersion(m.major, m.minor)
    && ProperHeaders(m.headers)
  }

  predicate ProperHead(m: Message) { LegalHead(m) && !Framing(m).upgrade && m.verb != CONNECT }

  /** A request that asks for no upgrade and whose headers announce its content. */
  predicate ProperMessage(m: Message) { ProperHead(m) && Announced(Framing(m), m.content) }

  function ContentItems(b: Content): Trace
  {
    match b
    case NoContent => [Note(MessageComplete)]
    case Sized(bs) => [Text(Body, bs), Note(MessageComplete)]
    case InChunks(chunks) => AllItems(chunks)
  }

  /** What the callbacks are told about a request. */
  function Told(m: Message): Trace
    requires ProperHeaders(m.headers)
  {
    HeadItems(m) + ContentItems(m.content)
  }

  // ----- the end of the headers -----

  /** What comes after the headers of a message. */
  datatype Rest = Nothing | OtherProtocol | SizedBody | ChunkedBody | BodyUntilEof

  /** Responses with these codes have no body. */
  predicate Bodiless(status: nat) { status / 100 == 1 || status == 204 || status == 304 }

  /** What the headers announce; `skip` is the answer of on_headers_complete that the body is not there. */
  function Follows(f: Frame, connect: bool, lasting: bool, skip: bool): Rest
  {
    var body := f.chunked || f.length > 0;
    if connect || (f.upgrade && (skip || !body)) then OtherProtocol
    else if skip then Nothing
    else if f.chunked then ChunkedBody
    else if f.length > 0 then SizedBody
    else if f.length < 0 && lasting then BodyUntilEof
    else Nothing
  }

  function RestOf(p: Parser, skip: bool): Rest
  {
    Follows(FrameOf(p), p.verb == CONNECT, p.kind != Request && !Bodiless(p.status), skip)
  }

  predicate Upgrades(p: Parser) { p.upgradeSeen || p.verb == CONNECT }

  function RestState(p: Parser, rest: Rest): State
  {
    match rest
    case Nothing | OtherProtocol => NewMessage(p)
    case SizedBody => BodyIdentity
    case ChunkedBody => ChunkSizeStart
    case BodyUntilEof => BodyIdentityEof
  }

  function RestNote(rest: Rest): Trace
  {
    if rest.Nothing? || rest.OtherProtocol? then [Note(MessageComplete)] else []
  }

  /** The headers have been reported. */
  function Reported(c: Config, skip: bool): Config
  {
    c.(p := c.p.(state := HeadersDone, upgrade := Upgrades(c.p), skipBody := skip, answered := c.p.answered + 1),
       out := c.out + [Note(HeadersComplete(c.p.contentLength, c.p.chunked, Upgrades(c.p), skip))])
  }

  /** What a body or the next message is read with, after the empty line. */
  function AfterHeaders(c: Config, skip: bool): Config
  {
    var r, rest := Reported(c, skip), RestOf(c.p, skip);
    r.(p := r.p.(state := RestState(c.p, rest)), out := r.out + RestNote(rest),
       nread := 0, used := c.used + 2, start := c.used + 1)
  }

  /** Before the empty line of a message, not of trailers. */
  predicate InHead(p: Parser) { !p.trailing && !p.skipBody }

  lemma ReportOutcome(settings: Settings, p: Parser)
    requires p.state.HeadersAlmostDone? && InHead(p)
    ensures SwitchBody(settings, p, LF)
            == Redo(p.(upgrade := Upgrades(p), skipBody := settings(p.answered), answered := p.answered + 1),
                    HeadersDone)
               .(note := Some(HeadersComplete(p.contentLength, p.chunked, Upgrades(p), settings(p.answered))))
  {
    hide SwitchHeadersDone;
  }

  lemma FinalReport(sw: Switcher, settings: Settings, c: Config)
    requires Runs(sw, settings) && c.p.state.HeadersAlmostDone? && c.live.None? && c.p.errno == Ok && InHead(c.p)
    ensures Feed(sw, c, LF) == Feed(sw, Reported(c, settings(c.p.answered)), LF)
  {
    hide Runs, Feed, SwitchBody, Put, InHead, Upgrades;
    VisitsBody(sw, settings, c.p, LF);
    ReportOutcome(settings, c.p);
    FeedTwice(sw, c, LF);
  }

  lemma ChoiceOutcome(p: Parser)
    requires p.upgrade == Upgrades(p)
    ensures var rest := RestOf(p, p.skipBody);
            SwitchHeadersDone(p) ==
            Outcome(p, RestState(p, rest), if rest.OtherProtocol? then Exit else Advance, reset := true,
                    note := if RestNote(rest) == [] then None else Some(MessageComplete))
  {
    hide NewMessage;
  }

  lemma FinalChoice(sw: Switcher, settings: Settings, c: Config)
    requires Runs(sw, settings) && c.p.state.HeadersDone? && c.live.None? && c.p.errno == Ok
    requires c.p.upgrade == Upgrades(c.p)
    ensures var rest := RestOf(c.p, c.p.skipBody);
            var d := c.(p := c.p.(state := RestState(c.p, rest)), out := c.out + RestNote(rest), nread := 0,
                        used := c.used + 1, start := c.used);
            Feed(sw, c, LF) == if rest.OtherProtocol? then Exited(d) else Running(d)
  {
    hide Runs, Feed, RestState, RestOf, Put, SwitchHeadersDone, Upgrades;
    VisitsBody(sw, settings, c.p, LF);
    ChoiceOutcome(c.p);
    var rest := RestOf(c.p, c.p.skipBody);
    assert c.out + [] == c.out;
    if rest.OtherProtocol? {
      FeedExits(sw, c, LF);
    } else {
      FeedOnce(sw, c, LF);
    }
  }

  lemma FeedExits(sw: Switcher, c: Config, ch: Byte)
    requires sw(c.p, ch).next == Exit
    ensures Feed(sw, c, ch) == Exited(Perform(c, sw(c.p, ch), ch).(used := c.used + 1))
  {
    hide Put, Tell, Rank;
  }

  function AfterLf(d: Config, skip: bool, rest: Rest): Config
  {
    var r := Reported(d, skip);
    r.(p := r.p.(state := RestState(d.p, rest)), out := r.out + RestNote(rest), nread := 0, used := d.used + 1,
       start := d.used)
  }

  lemma SameAfter(c: Config, d: Config, skip: bool)
    requires d == c.(p := c.p.(state := HeadersAlmostDone), used := c.used + 1)
    ensures RestOf(d.p, skip) == RestOf(c.p, skip) && AfterLf(d, skip, RestOf(c.p, skip)) == AfterHeaders(c, skip)
  {
    hide RestState, RestOf, RestNote, Upgrades;
    SameRest(c.p, d.p, skip);
  }

  /** The line feed of the empty line. */
  lemma LastLf(sw: Switcher, settings: Settings, d: Config, skip: bool, rest: Rest)
    requires Runs(sw, settings) && d.p.state.HeadersAlmostDone? && d.live.None? && d.p.errno == Ok && InHead(d.p)
    requires skip == settings(d.p.answered) && rest == RestOf(d.p, skip)
    ensures Feed(sw, d, LF) == if rest.OtherProtocol? then Exited(AfterLf(d, skip, rest))
                               else Running(AfterLf(d, skip, rest))
  {
    hide Runs, Feed, RestState, RestOf, RestNote, Upgrades;
    FinalReport(sw, settings, d);
    SameRest(d.p, Reported(d, skip).p, skip);
    FinalChoice(sw, settings, Reported(d, skip));
  }

  /** The empty line: the headers are reported, and then comes what they and on_headers_complete say. */
  lemma HeadersEnd(sw: Switcher, settings: Settings, c: Config)
    requires Runs(sw, settings) && AtLine(c) && InHead(c.p)
    ensures var skip := settings(c.p.answered);
            FeedAll(sw, c, [CR, LF]) ==
            if RestOf(c.p, skip).OtherProtocol? then Exited(AfterHeaders(c, skip)) else Running(AfterHeaders(c, skip))
  {
    hide Runs, Feed, FeedAll, RestOf, AfterLf, AfterHeaders;
    var b, skip := Fresh(c), settings(c.p.answered);
    var d := b.(p := b.p.(state := HeadersAlmostDone), used := b.used + 1);
    LineStarts(sw, settings, c, [CR, LF]);
    EmptyLine(sw, settings, b);
    FeedSingle(sw, d, LF);
    SameAfter(c, d, skip);
    LastLf(sw, settings, d, skip, RestOf(c.p, skip));
    Then(sw, b, [CR], d, [LF]);
    assert [CR] + [LF] == [CR, LF];
  }

  lemma SameRest(p: Parser, q: Parser, skip: bool)
    requires q == p.(state := q.state, upgrade := q.upgrade, skipBody := q.skipBody, answered := q.answered)
    ensures RestOf(p, skip) == RestOf(q, skip) && RestState(p, RestOf(p, skip)) == RestState(q, RestOf(q, skip))
    ensures Upgrades(p) == Upgrades(q)
  {
  }

  // ----- the head -----

  /** What the parser has kept of a request when its headers are over. */
  predicate Keeps(p: Parser, q: Parser, m: Message)
    requires LegalHead(m)
  {
    && q.kind == Request && q.errno == Ok && q.upgrade == AsksUpgrade(m)
    && q.verb == m.verb && q.major == DecValue(m.major) && q.minor == DecValue(m.minor)
    && q.answered == p.answered + 1
  }

  predicate AsksUpgrade(m: Message)
    requires ProperHeaders(m.headers)
  {
    Framing(m).upgrade || m.verb == CONNECT
  }

  function After(m: Message, skip: bool): Rest
    requires ProperHeaders(m.headers)
  {
    Follows(Framing(m), m.verb == CONNECT, false, skip)
  }

  function StartItems(m: Message): Trace { [Note(MessageBegin), Text(Url, m.target)] + HeaderItems(m.headers) }

  predicate HeadRead(c: Config, d: Config, m: Message, skip: bool)
    requires LegalHead(m)
  {
    var f, rest := Framing(m), After(m, skip);
    && Keeps(c.p, d.p, m) && !d.p.trailing && d.p.contentLength == f.length && d.p.chunked == f.chunked
    && d.p.skipBody == skip && d.p.state == RestState(d.p, rest)
    && d.out == c.out + StartItems(m) + [Note(HeadersComplete(f.length, f.chunked, AsksUpgrade(m), skip))]
                + RestNote(rest)
    && d.live.None? && d.held == [] && d.nread == 0
    && d.used == c.used + |Head(m)| && d.start == d.used - 1
  }

  lemma LineTold(c: Config, m: Message)
    requires LegalHead(m)
    ensures var d := AfterLine(c, m.verb, m.target, m.major, m.minor);
            && d.out == c.out + [Note(MessageBegin), Text(Url, m.target)] && EndsHeader(d.out)
            && FrameOf(d.p) == NOTHING_SAID
  {
    hide ProperHeaders, ProperVersion, RequestLine, SaysAll, TargetText, Accepts;
  }

  /** The configuration before the empty line, in terms of the one before the request. */
  predicate FieldsRead(c: Config, e: Config, m: Message)
    requires LegalHead(m)
  {
    && AtLine(e) && FrameOf(e.p) == Framing(m) && InHead(e.p) && e.p.kind == c.p.kind
    && e.p.verb == m.verb && e.p.major == DecValue(m.major) && e.p.minor == DecValue(m.minor)
    && e.p.answered == c.p.answered && e.nread == c.nread && e.start == c.start
    && e.out == c.out + StartItems(m)
    && e.used + 2 == c.used + |Head(m)|
  }

  lemma FieldsAre(c: Config, d: Config, e: Config, m: Message)
    requires LegalHead(m) && AtMessage(c) && d == AfterLine(c, m.verb, m.target, m.major, m.minor)
    requires BlockRead(d, e, m.headers)
    ensures FieldsRead(c, e, m)
  {
    hide ProperHeaders, ProperVersion, RequestLine, SaysAll, TargetText, Accepts, Block, HeaderItems, Put, DecValue;
    LineTold(c, m);
    assert c.out + [Note(MessageBegin), Text(Url, m.target)] + HeaderItems(m.headers)
        == c.out + ([Note(MessageBegin), Text(Url, m.target)] + HeaderItems(m.headers));
  }

  /** All of the head but the empty line. */
  function Fields(m: Message): Bytes { RequestLine(m.verb, m.target, m.major, m.minor) + Block(m.headers) }

  lemma ReadFields(sw: Switcher, settings: Settings, c: Config, m: Message)
    requires Runs(sw, settings) && AtMessage(c) && LegalHead(m)
    ensures var s := FeedAll(sw, c, Fields(m)); s.Running? && FieldsRead(c, s.c, m)
    ensures Head(m) == Fields(m) + [CR, LF]
  {
    hide Runs, FeedAll, RequestLine, Block, FieldsRead, BlockRead, ProperHeaders, ProperVersion,
         SaysAll, TargetText, Accepts, EndsHeader, Put;
    var d := AfterLine(c, m.verb, m.target, m.major, m.minor);
    ReadRequestLine(sw, settings, c, m.verb, m.target, m.major, m.minor);
    LineTold(c, m);
    HeaderBlock(sw, settings, d, m.headers);
    FieldsAre(c, d, FeedAll(sw, d, Block(m.headers)).c, m);
    Then(sw, c, RequestLine(m.verb, m.target, m.major, m.minor), d, Block(m.headers));
    assert Head(m) == Fields(m) + [CR, LF];
  }

  lemma HeadOver(c: Config, e: Config, m: Message, skip: bool)
    requires LegalHead(m) && c.p.kind == Request && FieldsRead(c, e, m)
    ensures HeadRead(c, AfterHeaders(e, skip), m, skip) && RestOf(e.p, skip) == After(m, skip)
  {
    hide ProperHeaders, ProperVersion, SaysAll, TargetText, Accepts, Head, StartItems, DecValue, RestNote, Follows;
    RequestRest(e.p, skip);
    RestStates(e.p, AfterHeaders(e, skip).p, RestOf(e.p, skip));
  }

  lemma RequestRest(p: Parser, skip: bool)
    requires p.kind == Request
    ensures RestOf(p, skip) == Follows(FrameOf(p), p.verb == CONNECT, false, skip)
  {
    hide Follows;
  }

  lemma RestStates(p: Parser, q: Parser, rest: Rest)
    requires p.kind == q.kind
    ensures RestState(p, rest) == RestState(q, rest)
  {
  }

  /** The head of a request, whatever its headers announce and whatever on_headers_complete answers. */
  lemma ReadHead(sw: Switcher, settings: Settings, c: Config, m: Message)
    requires Runs(sw, settings) && AtMessage(c) && LegalHead(m)
    ensures var s, skip := FeedAll(sw, c, Head(m)), settings(c.p.answered);
            && (if After(m, skip).OtherProtocol? then s.Exited? else s.Running?)
            && HeadRead(c, s.c, m, skip)
  {
    hide Runs, FeedAll, HeadRead, FieldsRead, AfterHeaders, LegalHead, Head, Fields, RestOf, After;
    ReadFields(sw, settings, c, m);
    var e := FeedAll(sw, c, Fields(m)).c;
    FieldsReady(c, e, m);
    HeadersEnd(sw, settings, e);
    HeadOver(c, e, m, settings(c.p.answered));
    Then(sw, c, Fields(m), e, [CR, LF]);
  }

  lemma FieldsReady(c: Config, e: Config, m: Message)
    requires LegalHead(m) && FieldsRead(c, e, m)
    ensures AtLine(e) && InHead(e.p) && e.p.answered == c.p.answered
  {
    hide LegalHead, Head, StartItems;
  }

  /**
   * A request that asks for another protocol: the call ends with the head, whatever stands behind it, and the
   * callbacks have been told that the message is complete.
   */
  lemma UpgradedRequest(
    sw: Switcher, settings: Settings, p: Parser, nread: nat, out: Trace, m: Message, rest: Bytes)
    requires Runs(sw, settings) && Ready(p) && LegalHead(m) && AsksUpgrade(m)
    requires m.verb == CONNECT || settings(p.answered) || (!Framing(m).chunked && Framing(m).length <= 0)
    ensures var r := Execute(sw, p, nread, out, Head(m) + rest);
            && r.used == |Head(m)| && r.p.errno == Ok && r.p.upgrade && Ready(r.p) && Keeps(p, r.p, m)
            && r.out == out + StartItems(m)
                        + [Note(HeadersComplete(Framing(m).length, Framing(m).chunked, true, settings(p.answered)))]
                        + [Note(MessageComplete)]
  {
    hide Runs, FeedAll, LegalHead, Head, StartItems, DecValue;
    var c := Begin(p, nread, out);
    ReadHead(sw, settings, c, m);
    FeedAllConcat(sw, c, Head(m), rest);
    StartWithinUsed(sw, c, Head(m) + rest);
    HeadThere(m);
  }

  lemma HeadThere(m: Message)
    ensures Head(m) != []
  {
    hide RequestLine, Block;
  }

  /** A request that asks for no other protocol goes on. */
  lemma GoesOn(m: Message)
    requires ProperHead(m)
    ensures LegalHead(m) && !After(m, false).OtherProtocol?
  {
    hide LegalHead, SaysAll;
  }

  function HeadItems(m: Message): Trace
    requires ProperHeaders(m.headers)
  {
    StartItems(m) + [Note(HeadersComplete(Framing(m).length, Framing(m).chunked, false, false))]
  }

  lemma PlainHead(c: Config, d: Config, m: Message)
    requires ProperHead(m) && HeadRead(c, d, m, false)
    ensures var f := Framing(m);
            && d.p.state == (if f.chunked then ChunkSizeStart else if f.length > 0 then BodyIdentity else PreStartReq)
            && d.out == c.out + HeadItems(m) + (if f.chunked || f.length > 0 then [] else [Note(MessageComplete)])
  {
    hide ProperHeaders, ProperVersion, SaysAll, TargetText, Accepts, Head, StartItems, DecValue;
    var f := Framing(m);
    var note := [Note(HeadersComplete(f.length, f.chunked, false, false))];
    assert c.out + StartItems(m) + note == c.out + HeadItems(m);
  }

  // ----- the content -----

  /** The request has been read, and the parser is ready for the next one. */
  predicate MessageRead(c: Config, d: Config, m: Message)
    requires ProperHead(m)
  {
    && AtMessage(d) && Keeps(c.p, d.p, m) && d.out == c.out + Told(m)
    && d.used == c.used + |Print(m)| && d.nread == 0 && d.start == d.used - 1
  }

  lemma SizedContent(sw: Switcher, settings: Settings, c: Config, d: Config, m: Message)
    requires Runs(sw, settings) && ProperMessage(m) && HeadRead(c, d, m, false) && m.content.Sized?
    ensures var s := FeedAll(sw, d, m.content.bytes); s.Running? && MessageRead(c, s.c, m)
  {
    hide Runs, FeedAll, ProperHeaders, ProperVersion, TargetText, Accepts, Head, HeadItems, SaysAll, DecValue, Put;
    var bs := m.content.bytes;
    PlainHead(c, d, m);
    IdentityBody(sw, settings, d, bs);
    BodyAfterNote(c.out, m, bs);
  }

  lemma BodyAfterNote(out: Trace, m: Message, bs: Bytes)
    requires ProperHeaders(m.headers)
    ensures Put(out + HeadItems(m), Body, bs) + [Note(MessageComplete)]
            == out + (HeadItems(m) + [Text(Body, bs), Note(MessageComplete)])
    ensures out + HeadItems(m) + [] == out + HeadItems(m)
  {
    hide ProperHeaders, SaysAll, HeaderItems;
    var t := out + HeadItems(m);
    assert t[|t| - 1].Note?;
    assert Put(t, Body, bs) == t + [Text(Body, bs)];
  }

  lemma ChunkedContent(sw: Switcher, settings: Settings, c: Config, d: Config, m: Message)
    requires Runs(sw, settings) && ProperMessage(m) && HeadRead(c, d, m, false) && m.content.InChunks?
    ensures var s := FeedAll(sw, d, Encode(m.content.chunks)); s.Running? && MessageRead(c, s.c, m)
  {
    hide Runs, FeedAll, ProperHeaders, ProperVersion, TargetText, Accepts, Head, HeadItems, SaysAll, DecValue,
         Encode, AllItems, ProperChunks;
    PlainHead(c, d, m);
    ChunkedRoundTrip(sw, settings, d, m.content.chunks);
    assert c.out + HeadItems(m) + [] == c.out + HeadItems(m);
    assert c.out + HeadItems(m) + AllItems(m.content.chunks) == c.out + (HeadItems(m) + AllItems(m.content.chunks));
  }

  lemma NoContentRead(c: Config, d: Config, m: Message)
    requires ProperMessage(m) && HeadRead(c, d, m, false) && m.content.NoContent?
    ensures MessageRead(c, d, m)
  {
    hide ProperHeaders, ProperVersion, TargetText, Accepts, Head, HeadItems, SaysAll, DecValue;
    PlainHead(c, d, m);
    assert c.out + HeadItems(m) + [Note(MessageComplete)] == c.out + (HeadItems(m) + [Note(MessageComplete)]);
    assert Head(m) + [] == Head(m);
  }

  lemma ReadContent(sw: Switcher, settings: Settings, c: Config, d: Config, m: Message)
    requires Runs(sw, settings) && ProperMessage(m) && HeadRead(c, d, m, false)
    ensures var s := FeedAll(sw, d, ContentText(m.content)); s.Running? && MessageRead(c, s.c, m)
  {
    hide Runs, ProperMessage, HeadRead, MessageRead, Encode;
    match m.content {
      case NoContent => NoContentRead(c, d, m);
      case Sized(_) => SizedContent(sw, settings, c, d, m);
      case InChunks(_) => ChunkedContent(sw, settings, c, d, m);
    }
  }

  /** A printed request is told to the callbacks, and leaves the parser ready for the next. */
  lemma RequestRoundTrip(sw: Switcher, settings: Settings, c: Config, m: Message)
    requires Runs(sw, settings) && AtMessage(c) && ProperMessage(m) && !settings(c.p.answered)
    ensures var s := FeedAll(sw, c, Print(m)); s.Running? && MessageRead(c, s.c, m)
  {
    hide Runs, FeedAll, Head, ContentText, HeadRead, MessageRead, ProperHead, Announced, AtMessage;
    GoesOn(m);
    ReadHead(sw, settings, c, m);
    var d := FeedAll(sw, c, Head(m)).c;
    ReadContent(sw, settings, c, d, m);
    Then(sw, c, Head(m), d, ContentText(m.content));
  }

  // ----- requests one after another -----

  function PrintAll(ms: seq<Message>): Bytes
  {
    if ms == [] then [] else Print(ms[0]) + PrintAll(ms[1..])
  }

  predicate ProperMessages(ms: seq<Message>) { forall i | 0 <= i < |ms| :: ProperMessage(ms[i]) }

  function ToldAll(ms: seq<Message>): Trace
    requires ProperMessages(ms)
  {
    if ms == [] then [] else Told(ms[0]) + ToldAll(ms[1..])
  }

  /** on_headers_complete skips none of the next n bodies. */
  predicate NoneSkipped(settings: Settings, answered: nat, n: nat)
  {
    forall i | answered <= i < answered + n :: !settings(i)
  }

  predicate AllRead(c: Config, d: Config, ms: seq<Message>)
    requires ProperMessages(ms)
  {
    && AtMessage(d) && d.out == c.out + ToldAll(ms) && d.used == c.used + |PrintAll(ms)|
    && d.p.answered == c.p.answered + |ms|
    && if ms == [] then d == c else d.nread == 0 && d.start == d.used - 1
  }

  lemma NothingRead(sw: Switcher, c: Config)
    requires AtMessage(c)
    ensures FeedAll(sw, c, PrintAll([])) == Running(c) && AllRead(c, c, [])
  {
    assert c.out + [] == c.out;
  }

  lemma OneThenAll(c: Config, d: Config, e: Config, ms: seq<Message>)
    requires ms != [] && ProperMessages(ms) && MessageRead(c, d, ms[0]) && AllRead(d, e, ms[1..])
    ensures AllRead(c, e, ms)
  {
    hide ProperHeaders, ProperVersion, TargetText, Accepts, Announced, Print, Told, AtMessage, DecValue, SaysAll;
    assert c.out + Told(ms[0]) + ToldAll(ms[1..]) == c.out + (Told(ms[0]) + ToldAll(ms[1..]));
  }

  /** Any number of requests in one buffer. */
  lemma {:induction false} Pipeline(sw: Switcher, settings: Settings, c: Config, ms: seq<Message>)
    requires Runs(sw, settings) && AtMessage(c) && ProperMessages(ms) && NoneSkipped(settings, c.p.answered, |ms|)
    ensures var s := FeedAll(sw, c, PrintAll(ms)); s.Running? && AllRead(c, s.c, ms)
    decreases |ms|
  {
    hide Runs, FeedAll, ProperHeaders, ProperVersion, TargetText, Accepts, Announced, Print, AllRead, AtMessage,
         Told, SaysAll, DecValue;
    if ms == [] {
      NothingRead(sw, c);
    } else {
      RequestRoundTrip(sw, settings, c, ms[0]);
      var d := FeedAll(sw, c, Print(ms[0])).c;
      Pipeline(sw, settings, d, ms[1..]);
      Then(sw, c, Print(ms[0]), d, PrintAll(ms[1..]));
      OneThenAll(c, d, FeedAll(sw, d, PrintAll(ms[1..])).c, ms);
    }
  }

  // ----- cut anywhere -----

  lemma NoCrInside(t: Bytes)
    requires forall i | 0 <= i < |t| :: t[i] != CR
    ensures NoBareCR(t)
  {
  }

  lemma QuietJoin(a: Bytes, b: Bytes)
    requires NoBareCR(a) && NoBareCR(b) && (a == [] || a[|a| - 1] != CR)
    ensures NoBareCR(a + b)
  {
    var t := a + b;
    forall i | 0 <= i < |t| - 1 && t[i] == CR
      ensures t[i + 1] == LF
    {
      if i < |a| - 1 {
        assert a[i + 1] == LF;
      } else {
        assert b[i - |a|] == CR && b[i - |a| + 1] == LF;
      }
    }
  }

  lemma EndQuiet(t: Bytes)
    requires forall i | 0 <= i < |t| :: t[i] != CR
    ensures NoBareCR(t + [CR, LF])
  {
  }

  lemma LineQuiet(h: Header)
    requires ProperHeader(h)
    ensures NoBareCR(Line(h)) && Line(h)[|Line(h)| - 1] == LF
  {
    hide Lowered, IsToken, Closed, NumberText, DecValue;
    var t := h.name + [':', ' '] + h.value;
    forall i | 0 <= i < |h.name|
      ensures h.name[i] != CR
    {
      TokenNotCr(h.name[i]);
    }
    assert forall i | 0 <= i < |h.value| :: h.value[i] != CR by {
      assert forall i | 0 <= i < |h.value| :: ValueByte(h.value[i]);
    }
    EndQuiet(t);
  }

  lemma TokenNotCr(ch: Byte)
    ensures IsToken(ch) ==> ch != CR
  {
  }

  lemma {:induction false} BlockQuiet(hs: seq<Header>)
    requires ProperHeaders(hs)
    ensures NoBareCR(Block(hs)) && (Block(hs) == [] || Block(hs)[|Block(hs)| - 1] == LF)
    decreases |hs|
  {
    hide NoBareCR, ProperHeader, Line;
    if hs == [] {
      NoCrInside([]);
    } else {
      LineQuiet(hs[0]);
      BlockQuiet(hs[1..]);
      QuietJoin(Line(hs[0]), Block(hs[1..]));
    }
  }

  lemma VersionQuiet(major: Bytes, minor: Bytes)
    requires ProperVersion(major, minor)
    ensures var t := VersionText(major, minor); NoBareCR(t) && t != [] && t[|t| - 1] == LF
  {
    hide NumberText, DecValue;
    EndQuiet(PROTOCOL + (major + ['.'] + minor));
    assert VersionText(major, minor) == PROTOCOL + (major + ['.'] + minor) + [CR, LF];
  }

  lemma NameQuiet(m: Method)
    ensures forall i | 0 <= i < |MethodName(m)| :: MethodName(m)[i] != CR
  {
    forall i | 0 <= i < |MethodName(m)|
      ensures MethodName(m)[i] != CR
    {
      NameLetters(m, i);
    }
  }

  lemma LineTextQuiet(m: Message)
    requires ProperHead(m)
    ensures var t := RequestLine(m.verb, m.target, m.major, m.minor); NoBareCR(t) && t[|t| - 1] == LF
  {
    hide MethodName, VersionText, NoBareCR, ProperVersion, Accepts, ProperHeaders, SaysAll;
    NameQuiet(m.verb);
    VersionQuiet(m.major, m.minor);
    var a, b := MethodName(m.verb) + [' '] + (m.target + [' ']), VersionText(m.major, m.minor);
    NoCrInside(a);
    QuietJoin(a, b);
    assert RequestLine(m.verb, m.target, m.major, m.minor) == a + b;
    assert (a + b)[|a + b| - 1] == b[|b| - 1];
  }

  lemma HeadQuiet(m: Message)
    requires ProperHead(m)
    ensures NoBareCR(Head(m))
  {
    hide RequestLine, Block, NoBareCR, ProperVersion, Accepts, ProperHeaders, SaysAll, TargetText;
    LineTextQuiet(m);
    BlockQuiet(m.headers);
    EndQuiet([]);
    assert [] + [CR, LF] == [CR, LF];
    QuietJoin(Block(m.headers), [CR, LF]);
    QuietJoin(RequestLine(m.verb, m.target, m.major, m.minor), Block(m.headers) + [CR, LF]);
  }

  lemma HeadPrefix(sw: Switcher, settings: Settings, c: Config, m: Message, k: nat)
    requires Runs(sw, settings) && AtMessage(c) && ProperHead(m) && !settings(c.p.answered)
    requires c.start <= c.used && Count(c) + |Head(m)| <= MAX_HEADER_SIZE && k <= |Head(m)|
    ensures Fine(FeedAll(sw, c, Head(m)[..k]))
  {
    hide Runs, FeedAll, Head, NoBareCR, Fine, ProperVersion, Accepts, ProperHeaders, SaysAll, TargetText, Count;
    HeadQuiet(m);
    ReadHead(sw, settings, c, m);
    ShortPrefix(sw, settings, c, Head(m), k);
  }

  lemma SizedPrefix(sw: Switcher, settings: Settings, d: Config, bs: Bytes, k: nat)
    requires Runs(sw, settings) && d.live.None? && d.held == [] && d.p.errno == Ok
    requires d.p.state.BodyIdentity? && d.p.contentLength == |bs| && 0 < k < |bs|
    ensures Fine(FeedAll(sw, d, bs[..k]))
  {
    hide Runs, FeedAll;
    MarksBody(sw, settings, d, bs[..k]);
    BodyRun(sw, settings, d.(live := Some(Body)), bs[..k]);
  }

  lemma ContentPrefix(sw: Switcher, settings: Settings, c: Config, d: Config, m: Message, k: nat)
    requires Runs(sw, settings) && ProperMessage(m) && HeadRead(c, d, m, false) && 0 < k < |ContentText(m.content)|
    ensures Fine(FeedAll(sw, d, ContentText(m.content)[..k]))
  {
    hide Runs, FeedAll, Fine, ProperVersion, Accepts, ProperHeaders, SaysAll, TargetText, DecValue, Head, HeadItems;
    match m.content {
      case NoContent =>
      case Sized(bs) => SizedPrefix(sw, settings, d, bs, k);
      case InChunks(chunks) => EncodePrefix(sw, settings, d, chunks, k);
    }
  }

  /** The parser may be cut off after any part of a request. */
  lemma RequestPrefix(sw: Switcher, settings: Settings, c: Config, m: Message, k: nat)
    requires Runs(sw, settings) && AtMessage(c) && ProperMessage(m) && !settings(c.p.answered)
    requires c.start <= c.used && Count(c) + |Head(m)| <= MAX_HEADER_SIZE && k <= |Print(m)|
    ensures Fine(FeedAll(sw, c, Print(m)[..k]))
  {
    hide Runs, FeedAll, Fine, Head, ContentText, HeadRead, ProperHead, Announced, AtMessage, Count;
    if k <= |Head(m)| {
      assert Print(m)[..k] == Head(m)[..k];
      HeadPrefix(sw, settings, c, m, k);
    } else if k < |Print(m)| {
      GoesOn(m);
      ReadHead(sw, settings, c, m);
      var d, j := FeedAll(sw, c, Head(m)).c, k - |Head(m)|;
      assert Print(m)[..k] == Head(m) + ContentText(m.content)[..j];
      Then(sw, c, Head(m), d, ContentText(m.content)[..j]);
      ContentPrefix(sw, settings, c, d, m, j);
    } else {
      assert Print(m)[..k] == Print(m);
      RequestRoundTrip(sw, settings, c, m);
      ReadIsFine(c, FeedAll(sw, c, Print(m)).c, m);
    }
  }

  lemma ReadIsFine(c: Config, d: Config, m: Message)
    requires ProperHead(m) && MessageRead(c, d, m)
    ensures Fine(Running(d)) && Count(d) == 1 && d.start <= d.used
  {
    hide ProperVersion, Accepts, ProperHeaders, SaysAll, TargetText, DecValue, Print, Told;
  }

  /** Every head fits, whatever was counted before. */
  predicate HeadsFit(ms: seq<Message>, count: int)
  {
    forall i | 0 <= i < |ms| :: (if i == 0 then count else 1) + |Head(ms[i])| <= MAX_HEADER_SIZE
  }

  lemma {:induction false} PipelinePrefix(sw: Switcher, settings: Settings, c: Config, ms: seq<Message>, k: nat)
    requires Runs(sw, settings) && AtMessage(c) && ProperMessages(ms) && NoneSkipped(settings, c.p.answered, |ms|)
    requires c.start <= c.used && HeadsFit(ms, Count(c)) && k <= |PrintAll(ms)| && ms != []
    ensures Fine(FeedAll(sw, c, PrintAll(ms)[..k]))
    decreases |ms|
  {
    hide Runs, FeedAll, Fine, Head, ContentText, ProperHead, Announced, AtMessage, Count;
    var one := Print(ms[0]);
    assert Count(c) + |Head(ms[0])| <= MAX_HEADER_SIZE;
    if k <= |one| {
      assert PrintAll(ms)[..k] == one[..k];
      RequestPrefix(sw, settings, c, ms[0], k);
    } else {
      RequestRoundTrip(sw, settings, c, ms[0]);
      var d := FeedAll(sw, c, one).c;
      ReadIsFine(c, d, ms[0]);
      assert PrintAll(ms)[..k] == one + PrintAll(ms[1..])[..k - |one|];
      Then(sw, c, one, d, PrintAll(ms[1..])[..k - |one|]);
      assert forall i | 0 <= i < |ms| - 1 :: ms[1..][i] == ms[i + 1];
      PipelinePrefix(sw, settings, d, ms[1..], k - |one|);
    }
  }

  predicate Ready(p: Parser) { p.state.PreStartReq? && p.kind == Request && p.errno == Ok }

  lemma PipelineCall(sw: Switcher, settings: Settings, p: Parser, nread: nat, out: Trace, ms: seq<Message>)
    requires Runs(sw, settings) && Ready(p) && ProperMessages(ms) && ms != [] && PrintAll(ms) != []
    requires NoneSkipped(settings, p.answered, |ms|)
    ensures var r := Execute(sw, p, nread, out, PrintAll(ms));
            Ready(r.p) && r.out == out + ToldAll(ms) && r.used == |PrintAll(ms)|
  {
    hide Runs, FeedAll, ProperMessage, PrintAll, ToldAll;
    Pipeline(sw, settings, Begin(p, nread, out), ms);
  }

  lemma PrintsSomething(ms: seq<Message>)
    requires ms != []
    ensures PrintAll(ms) != []
  {
    hide MethodName, VersionText, Block, ContentText;
  }

  /**
   * Requests that a client prints one after another, handed over in any non-empty pieces, are told to the
   * callbacks one after another: each with its target, its headers, its framing and exactly its content.
   */
  lemma RequestsInPieces(
    sw: Switcher, settings: Settings, p: Parser, nread: nat, out: Trace, ms: seq<Message>, pieces: seq<Bytes>)
    requires Runs(sw, settings) && Ready(p) && ProperMessages(ms) && ms != []
    requires NoneSkipped(settings, p.answered, |ms|) && HeadsFit(ms, nread)
    requires Pieces(pieces) && Join(pieces) == PrintAll(ms)
    ensures var r := RunCalls(sw, p, nread, out, pieces); Ready(r.p) && r.out == out + ToldAll(ms)
  {
    hide Runs, Execute, RunCalls, Fine, PrintAll, ToldAll, Join, ProperMessage, HeadsFit;
    PrintsSomething(ms);
    JoinNothing();
    forall k | 0 < k < |PrintAll(ms)|
      ensures Fine(At(sw, p, nread, out, PrintAll(ms)[..k]))
    {
      hide FeedAll;
      PipelinePrefix(sw, settings, Begin(p, nread, out), ms, k);
    }
    InPieces(sw, settings, p, nread, out, pieces);
    PipelineCall(sw, settings, p, nread, out, ms);
  }

  lemma JoinNothing()
    ensures Join([]) == []
  {
  }

  // ----- heads that are too long -----

  /** The head without its last byte. */
  lemma HeadAlmost(sw: Switcher, settings: Settings, c: Config, m: Message)
    requires Runs(sw, settings) && AtMessage(c) && LegalHead(m)
    ensures var s := FeedAll(sw, c, Head(m)[..|Head(m)| - 1]);
            s.Running? && s.c.nread == c.nread && s.c.start == c.start && s.c.p.state.HeadersAlmostDone?
  {
    hide Runs, FeedAll, Fields, LegalHead, Head, StartItems;
    ReadFields(sw, settings, c, m);
    var e := FeedAll(sw, c, Fields(m)).c;
    LineStarts(sw, settings, e, [CR]);
    EmptyLine(sw, settings, Fresh(e));
    Then(sw, c, Fields(m), e, [CR]);
    assert Head(m)[..|Head(m)| - 1] == Fields(m) + [CR];
  }

  /**
   * The size of a head counts only where it is cut: a part of it is refused exactly if it is longer than
   * MAX_HEADER_SIZE, while in one buffer the request is accepted however long its head is.
   */
  lemma HeadSize(sw: Switcher, settings: Settings, p: Parser, nread: nat, out: Trace, m: Message, k: nat)
    requires Runs(sw, settings) && Ready(p) && ProperMessage(m) && !settings(p.answered)
    requires 0 < k < |Head(m)| && nread + k < TWO_TO_THE_32
    ensures Execute(sw, p, nread, out, Head(m)[..k]).p.errno
            == if nread + k > MAX_HEADER_SIZE then HeaderOverflow else Ok
    ensures Execute(sw, p, nread, out, Print(m)).p.errno == Ok
  {
    hide Runs, Disciplined, FeedAll, Head, ProperVersion, Accepts, ProperHeaders,
         SaysAll, TargetText, ContentText, Told;
    var c, n := Begin(p, nread, out), |Head(m)| - 1;
    HttpDiscipline.SwitchIsDisciplined(sw, settings);
    HeadAlmost(sw, settings, c, m);
    assert Head(m)[..n] == Head(m)[..k] + Head(m)[..n][k..];
    Undisturbed(sw, c, Head(m)[..k], Head(m)[..n][k..]);
    OverflowExact(sw, p, nread, out, Head(m)[..k]);
    AtError(sw, p, nread, out, Head(m)[..k]);
    RequestRoundTrip(sw, settings, c, m);
    OneCall(sw, p, nread, out, m);
  }

  /** A call that reads all its bytes fails, if at all, because of the header size. */
  lemma AtError(sw: Switcher, p: Parser, nread: nat, out: Trace, data: Bytes)
    requires Disciplined(sw) && data != [] && p.errno == Ok && At(sw, p, nread, out, data).Running?
    ensures Execute(sw, p, nread, out, data).p.errno == Ok || Execute(sw, p, nread, out, data).p.errno == HeaderOverflow
  {
    hide FeedAll, Disciplined, ParsingHeader, HeaderBytes, Total;
    FeedAllErrno(sw, Begin(p, nread, out), data);
  }

  lemma OneCall(sw: Switcher, p: Parser, nread: nat, out: Trace, m: Message)
    requires p.errno == Ok && ProperHead(m) && Print(m) != []
    requires var s := At(sw, p, nread, out, Print(m)); s.Running? && MessageRead(Begin(p, nread, out), s.c, m)
    ensures Execute(sw, p, nread, out, Print(m)).p.errno == Ok
  {
    hide FeedAll, ProperVersion, Accepts, ProperHeaders, SaysAll, TargetText, DecValue, Print, Told;
  }

  function Filler(n: nat): (r: Bytes)
    ensures |r| == n && forall i | 0 <= i < n :: r[i] == 'a'
  {
    seq(n, _ => 'a')
  }

  /** A request with a header of any length. */
  function LongRequest(n: nat): Message
  {
    Message(GET, ['/'], ['1'], ['1'], [Header(['x'], Filler(n))], NoContent)
  }

  lemma {:induction false} NoQuotes(n: nat)
    ensures Quoting(General, Filler(n)) == General
  {
    if n > 0 {
      NoQuotes(n - 1);
      assert Filler(n)[1..] == Filler(n - 1);
    }
  }

  lemma LongRequestProper(n: nat)
    ensures ProperMessage(LongRequest(n))
  {
    hide Filler, Quoting, MethodName;
    var m := LongRequest(n);
    var h := m.headers[0];
    NoQuotes(n);
    NotSpecial();
    assert ProperHeader(h);
    OneDigitVersion();
    OriginForm(GET, ['/']);
    assert Says(NOTHING_SAID, h) == NOTHING_SAID;
    assert m.headers[1..] == [];
    assert SaysAll(NOTHING_SAID, []) == NOTHING_SAID;
    assert Framing(m) == NOTHING_SAID;
  }

  lemma NotSpecial()
    ensures Lowered(['x']) != CONTENT_LENGTH && Lowered(['x']) != TRANSFER_ENCODING && Lowered(['x']) != UPGRADE
  {
    assert |Lowered(['x'])| == 1;
  }

  lemma OneDigitVersion()
    ensures ProperVersion(['1'], ['1'])
  {
    assert ['1'][..0] == [];
    assert DecValue([]) == 0;
    assert DecValue(['1']) == 1;
  }

  /** For example: accepted in one buffer, and refused when it comes in two. */
  lemma LongRequestCut(sw: Switcher, settings: Settings, p: Parser, out: Trace, n: nat)
    requires Runs(sw, settings) && Ready(p) && !settings(p.answered) && MAX_HEADER_SIZE <= n
    ensures var m := LongRequest(n);
            && Execute(sw, p, 0, out, Print(m)).p.errno == Ok
            && MAX_HEADER_SIZE + 1 <= |Print(m)|
            && Execute(sw, p, 0, out, Print(m)[..MAX_HEADER_SIZE + 1]).p.errno == HeaderOverflow
  {
    hide Runs, Execute, LongRequest, ProperMessage, Head;
    var m := LongRequest(n);
    LongRequestProper(n);
    LongHead(n);
    assert Print(m)[..MAX_HEADER_SIZE + 1] == Head(m)[..MAX_HEADER_SIZE + 1];
    HeadSize(sw, settings, p, 0, out, m, MAX_HEADER_SIZE + 1);
  }

  lemma LongHead(n: nat)
    ensures |Head(LongRequest(n))| > n + 1
  {
    hide Filler, MethodName, VersionText;
    var m := LongRequest(n);
    assert Block(m.headers) == Line(m.headers[0]) + Block([]);
  }
}
