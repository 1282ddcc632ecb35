/**
 * The `switch` of http_parser_execute_options: what one visit to a state does with one byte.
 * `goto reexecute_byte` is the `Again` outcome, `goto error` is `Fail`, an early RETURN is `Exit`.
 */
module HttpSwitch {
  import opened HttpTypes

  /** `Abort` stands for a failing internal assert. */
  datatype Next = Advance | Again | Fail | Exit | Abort

  /** CALLBACK_DATA flushes the bytes before the current one, FlushThrough also the current one. */
  datatype Flush = NoFlush | FlushBefore(kind: Kind) | FlushThrough(kind: Kind)

  /**
   * What one visit does.  `p` holds the parser's fields before `to` becomes its state (see After).
   * The side effects happen in the order of the fields: zero the header byte count, set a mark, run a
   * data callback, deliver a synthetic space, run a notify callback.
   */
  datatype Outcome = Outcome(
    p: Parser, to: State, next: Next, errno: Errno := Ok,
    reset: bool := false, mark: Option<Kind> := None, flush: Flush := NoFlush,
    space: bool := false, note: Option<Event> := None)
  {
    function After(): Parser { p.(state := to, errno := errno) }
  }

  function Fails(p: Parser, e: Errno): Outcome { Outcome(p, p.state, Fail, e) }

  function Go(p: Parser, s: State): Outcome { Outcome(p, s, Advance) }

  function Stay(p: Parser): Outcome { Outcome(p, p.state, Advance) }

  function Redo(p: Parser, s: State): Outcome { Outcome(p, s, Again) }

  function Aborts(p: Parser): Outcome { Outcome(p, p.state, Abort, InvalidInternalState) }

  /** `start_state` */
  function NewMessage(p: Parser): State { if p.kind == Request then PreStartReq else PreStartRes }

  function ClearMessage(p: Parser): Parser
  {
    p.(chunked := false, trailing := false, upgradeSeen := false, skipBody := false, contentLength := -1)
  }

  // ----- start line -----

  function SwitchStart(p: Parser, ch: Byte): Outcome
  {
    match p.state
    case PreStartReqOrRes =>
      if ch == CR || ch == LF then Stay(p)
      else Redo(p, StartReqOrRes).(note := Some(MessageBegin))
    case StartReqOrRes =>
      var q := ClearMessage(p);
      if ch == 'H' then Go(q, ResOrRespH) else Redo(q.(kind := Request), StartReq)
    case ResOrRespH =>
      if ch == 'T' then Go(p.(kind := Response), ResHT)
      else if ch != 'E' then Fails(p, InvalidConstant)
      else Go(p.(kind := Request, verb := HEAD, index := 2), ReqMethod)
    case PreStartRes =>
      if ch == CR || ch == LF then Stay(p)
      else Redo(p, StartRes).(note := Some(MessageBegin))
    case StartRes =>
      var q := ClearMessage(p);
      if ch == 'H' then Go(q, ResH) else Fails(q, InvalidConstant)
    case PreStartReq =>
      if ch == CR || ch == LF then Stay(p)
      else Redo(p, StartReq).(note := Some(MessageBegin))
    case StartReq => StartMethod(ClearMessage(p), ch)
    case ReqMethod => SwitchMethod(p, ch)
    case _ => Aborts(p)
  }

  /** The method that a first letter selects; the matcher may change its mind later. */
  function FirstGuess(ch: Byte): Option<Method>
  {
    match ch
    case 'C' => Some(CONNECT)
    case 'D' => Some(DELETE)
    case 'G' => Some(GET)
    case 'H' => Some(HEAD)
    case 'L' => Some(LOCK)
    case 'M' => Some(MKCOL)
    case 'N' => Some(NOTIFY)
    case 'O' => Some(OPTIONS)
    case 'P' => Some(POST)
    case 'R' => Some(REPORT)
    case 'S' => Some(SUBSCRIBE)
    case 'T' => Some(TRACE)
    case 'U' => Some(UNLOCK)
    case _ => None
  }

  function StartMethod(p: Parser, ch: Byte): Outcome
  {
    if !IsAlpha(ch) then Fails(p, InvalidMethod)
    else
      var q := p.(verb := DELETE, index := 1);
      match FirstGuess(ch)
      case Some(m) => Go(q.(verb := m), ReqMethod)
      case None => Fails(q, InvalidMethod)
  }

  /** `matcher[index]`, where the byte after the last letter is the terminating NUL. */
  function Matcher(m: Method, index: nat): (c: char)
    requires index <= |MethodName(m)|
  {
    if index < |MethodName(m)| then MethodName(m)[index] else '\0'
  }

  /** The method a mismatch at `index` switches to, if any. */
  function Reguess(m: Method, index: nat, ch: Byte): Option<Method>
  {
    if m == CONNECT && index == 1 && ch == 'H' then Some(CHECKOUT)
    else if m == CONNECT && index == 2 && ch == 'P' then Some(COPY)
    else if m == MKCOL && index == 1 && ch == 'O' then Some(MOVE)
    else if m == MKCOL && index == 1 && ch == 'E' then Some(MERGE)
    else if m == MKCOL && index == 1 && ch == '-' then Some(MSEARCH)
    else if m == MKCOL && index == 2 && ch == 'A' then Some(MKACTIVITY)
    else if m == POST && index == 1 && ch == 'R' then Some(PROPFIND)
    else if m == POST && index == 1 && ch == 'U' then Some(PUT)
    else if m == POST && index == 1 && ch == 'A' then Some(PATCH)
    else if m == UNLOCK && index == 2 && ch == 'S' then Some(UNSUBSCRIBE)
    else if m == PROPFIND && index == 4 && ch == 'P' then Some(PROPPATCH)
    else None
  }

  function SwitchMethod(p: Parser, ch: Byte): Outcome
  {
    if ch == '\0' then Fails(p, InvalidMethod)
    else if p.index > |MethodName(p.verb)| then Aborts(p) // the matcher would read past its string
    else
      var c := Matcher(p.verb, p.index);
      var q := p.(index := p.index + 1);
      if ch == ' ' && c == '\0' then Go(q, ReqSpacesBeforeUrl)
      else if ch == c then Stay(q)
      else
        match Reguess(p.verb, p.index, ch)
        case Some(m) => Stay(q.(verb := m))
        case None =>
          if p.verb == CONNECT || p.verb == MKCOL || (p.index == 1 && p.verb == POST)
          then Fails(p, Unknown) else Fails(p, InvalidMethod)
  }

  /** Multiplies by ten and adds the digit; more than three digits' worth is an error. */
  function Accumulate(n: nat, ch: Byte): (r: nat)
    requires IsNum(ch)
  {
    n * 10 + Digit(ch)
  }

  function SwitchResponse(p: Parser, ch: Byte): Outcome
  {
    match p.state
    case ResH => Go(p, ResHT)
    case ResHT => Go(p, ResHTT)
    case ResHTT => Go(p, ResHTTP)
    case ResHTTP => Go(p, ResFirstHttpMajor)
    case ResFirstHttpMajor =>
      if !IsNum(ch) then Fails(p, InvalidVersion) else Go(p.(major := Digit(ch)), ResHttpMajor)
    case ResHttpMajor =>
      if ch == '.' then Go(p, ResFirstHttpMinor)
      else if !IsNum(ch) then Fails(p, InvalidVersion)
      else
        var q := p.(major := Accumulate(p.major, ch));
        if q.major > 999 then Fails(q, InvalidVersion) else Stay(q)
    case ResFirstHttpMinor =>
      if !IsNum(ch) then Fails(p, InvalidVersion) else Go(p.(minor := Digit(ch)), ResHttpMinor)
    case ResHttpMinor =>
      if ch == ' ' then Go(p, ResFirstStatusCode)
      else if !IsNum(ch) then Fails(p, InvalidVersion)
      else
        var q := p.(minor := Accumulate(p.minor, ch));
        if q.minor > 999 then Fails(q, InvalidVersion) else Stay(q)
    case ResFirstStatusCode =>
      if IsNum(ch) then Go(p.(status := Digit(ch)), ResStatusCode)
      else if ch == ' ' then Stay(p)
      else Fails(p, InvalidStatus)
    case ResStatusCode =>
      if IsNum(ch) then
        var q := p.(status := Accumulate(p.status, ch));
        if q.status > 999 then Fails(q, InvalidStatus) else Stay(q)
      else if ch == ' ' then Go(p, ResStatus)
      else if ch == CR then Go(p, ResLineAlmostDone)
      else if ch == LF then Go(p, HeaderFieldStart)
      else Fails(p, InvalidStatus)
    case ResStatus =>
      if ch == CR then Go(p, ResLineAlmostDone).(mark := Some(Reason), flush := FlushBefore(Reason))
      else if ch == LF then Go(p, HeaderFieldStart).(mark := Some(Reason), flush := FlushBefore(Reason))
      else Stay(p).(mark := Some(Reason))
    case ResLineAlmostDone => Go(p, HeaderFieldStart)
    case _ => Aborts(p)
  }

  // ----- request target and version -----

  function UrlDone(p: Parser, s: State): Outcome { Go(p, s).(flush := FlushBefore(Url)) }

  /** A request target that ends in a line break: an HTTP/0.9 request. */
  function Http09(p: Parser, ch: Byte): Outcome
  {
    var q := p.(major := 0, minor := 9);
    if ch == CR then UrlDone(q, HeadersAlmostDone)
    else Redo(q, HeadersAlmostDone).(flush := FlushBefore(Url))
  }

  /** Where a byte of the request target leads. */
  datatype UrlMove = To(s: State) | Jump(s: State) | Ends | LineEnds | Bad(errno: Errno)

  function EndOfUrl(ch: Byte, otherwise: UrlMove): UrlMove
  {
    if ch == ' ' then Ends else if ch == CR || ch == LF then LineEnds else otherwise
  }

  function MoveInUrl(s: State, ch: Byte): UrlMove
  {
    match s
    case ReqSchema =>
      if IsAlpha(ch) then To(ReqSchema) else if ch == ':' then To(ReqSchemaSlash) else Bad(InvalidUrl)
    case ReqSchemaSlash => To(ReqSchemaSlashSlash)
    case ReqSchemaSlashSlash => To(ReqHostStart)
    case ReqHostStart =>
      if ch == '[' then To(ReqHostIpv6) else if IsAlphaNum(ch) then To(ReqHost) else Bad(InvalidHost)
    case ReqHost => if IsHostChar(ch) then To(ReqHost) else Jump(ReqHostDone)
    case ReqHostIpv6 =>
      if IsHex(ch) || ch == ':' then To(ReqHostIpv6)
      else if ch == ']' then To(ReqHostDone)
      else Bad(InvalidHost)
    case ReqHostDone =>
      if ch == ':' then To(ReqPort)
      else if ch == '/' then To(ReqPath)
      else if ch == ' ' then Ends
      else if ch == '?' then To(ReqQueryStringStart)
      else Bad(InvalidHost)
    case ReqPort =>
      if IsNum(ch) then To(ReqPort)
      else if ch == '/' then To(ReqPath)
      else if ch == ' ' then Ends
      else if ch == '?' then To(ReqQueryStringStart)
      else Bad(InvalidPort)
    case ReqPath =>
      if IsUrlChar(ch) then To(ReqPath)
      else if ch == '?' then To(ReqQueryStringStart)
      else if ch == '#' then To(ReqFragmentStart)
      else EndOfUrl(ch, Bad(InvalidPath))
    case ReqQueryStringStart =>
      if IsUrlChar(ch) then To(ReqQueryString)
      else if ch == '?' then To(ReqQueryStringStart)
      else if ch == '#' then To(ReqFragmentStart)
      else EndOfUrl(ch, Bad(InvalidQueryString))
    case ReqQueryString =>
      if IsUrlChar(ch) || ch == '?' then To(ReqQueryString)
      else if ch == '#' then To(ReqFragmentStart)
      else EndOfUrl(ch, Bad(InvalidQueryString))
    case ReqFragmentStart =>
      if IsUrlChar(ch) || ch == '?' then To(ReqFragment)
      else if ch == '#' then To(ReqFragmentStart)
      else EndOfUrl(ch, Bad(InvalidFragment))
    case ReqFragment =>
      if IsUrlChar(ch) || ch == '?' || ch == '#' then To(ReqFragment)
      else EndOfUrl(ch, Bad(InvalidFragment))
    case _ => Bad(InvalidInternalState)
  }

  function SwitchBeforeUrl(p: Parser, ch: Byte): Outcome
  {
    if ch == ' ' then Stay(p)
    else if p.verb == CONNECT then Redo(p, ReqHostStart).(mark := Some(Url))
    else if ch == '/' || ch == '*' then Go(p, ReqPath).(mark := Some(Url))
    else if IsAlpha(ch) then Go(p, ReqSchema).(mark := Some(Url))
    else Fails(p, InvalidUrl)
  }

  function SwitchUrl(p: Parser, ch: Byte): Outcome
  {
    if p.state.ReqSpacesBeforeUrl? then SwitchBeforeUrl(p, ch)
    else
      match MoveInUrl(p.state, ch)
      case To(s) => Go(p, s)
      case Jump(s) => Redo(p, s)
      case Ends => UrlDone(p, ReqHttpStart)
      case LineEnds => Http09(p, ch)
      case Bad(e) => Fails(p, e)
  }

  function SwitchVersion(p: Parser, ch: Byte): Outcome
  {
    match p.state
    case ReqHttpStart =>
      if ch == 'H' then Go(p, ReqHttpH)
      else if ch == ' ' then Stay(p)
      else Fails(p, InvalidConstant)
    case ReqHttpH => Go(p, ReqHttpHT)
    case ReqHttpHT => Go(p, ReqHttpHTT)
    case ReqHttpHTT => Go(p, ReqHttpHTTP)
    case ReqHttpHTTP => Go(p, ReqFirstHttpMajor)
    case ReqFirstHttpMajor =>
      if !IsNum(ch) then Fails(p, InvalidVersion) else Go(p.(major := Digit(ch)), ReqHttpMajor)
    case ReqHttpMajor =>
      if ch == '.' then Go(p, ReqFirstHttpMinor)
      else if !IsNum(ch) then Fails(p, InvalidVersion)
      else
        var q := p.(major := Accumulate(p.major, ch));
        if q.major > 999 then Fails(q, InvalidVersion) else Stay(q)
    case ReqFirstHttpMinor =>
      if !IsNum(ch) then Fails(p, InvalidVersion) else Go(p.(minor := Digit(ch)), ReqHttpMinor)
    case ReqHttpMinor =>
      var simple := p.major == 0 && p.minor == 9;
      if ch == CR then Go(p, if simple then HeadersAlmostDone else ReqLineAlmostDone)
      else if ch == LF then if simple then Redo(p, HeadersAlmostDone) else Go(p, HeaderFieldStart)
      else if !IsNum(ch) then Fails(p, InvalidVersion)
      else
        var q := p.(minor := Accumulate(p.minor, ch));
        if q.minor > 999 then Fails(q, InvalidVersion) else Stay(q)
    case ReqLineAlmostDone => if ch != LF then Fails(p, LfExpected) else Go(p, HeaderFieldStart)
    case _ => Aborts(p)
  }

  /** A visit to the version of a request changes the version and the state, and calls nothing back. */
  predicate MovesVersion(p: Parser, o: Outcome)
  {
    && o == Outcome(o.p, o.to, o.next, o.errno)
    && o.p == p.(major := o.p.major, minor := o.p.minor)
    && if o.next.Fail? then o.errno in {InvalidConstant, InvalidVersion, LfExpected}
       else && o.errno == Ok
            && (RegionOf(o.to).AtVersion? || o.to.HeaderFieldStart? || o.to.HeadersAlmostDone?)
            && (o.next.Advance? || (o.next.Again? && p.state.ReqHttpMinor? && o.to.HeadersAlmostDone?))
  }

  predicate InProtocol(s: State)
  {
    s.ReqHttpStart? || s.ReqHttpH? || s.ReqHttpHT? || s.ReqHttpHTT? || s.ReqHttpHTTP?
  }

  lemma ProtocolLetters(p: Parser, ch: Byte)
    requires InProtocol(p.state)
    ensures MovesVersion(p, SwitchVersion(p, ch))
  {
    hide IsNum, Digit, Accumulate;
  }

  lemma VersionLetters(p: Parser, ch: Byte)
    requires p.state.ReqFirstHttpMajor? || p.state.ReqFirstHttpMinor? || p.state.ReqLineAlmostDone?
    ensures MovesVersion(p, SwitchVersion(p, ch))
  {
    hide IsNum, Digit, Accumulate;
  }

  lemma VersionNumbers(p: Parser, ch: Byte)
    requires p.state.ReqHttpMajor? || p.state.ReqHttpMinor?
    ensures MovesVersion(p, SwitchVersion(p, ch))
  {
    hide IsNum, Digit, Accumulate;
  }

  lemma VersionShape(p: Parser, ch: Byte)
    requires RegionOf(p.state).AtVersion?
    ensures MovesVersion(p, SwitchVersion(p, ch))
  {
    hide SwitchVersion, MovesVersion;
    if p.state.ReqHttpMajor? || p.state.ReqHttpMinor? {
      VersionNumbers(p, ch);
    } else if InProtocol(p.state) {
      ProtocolLetters(p, ch);
    } else {
      VersionLetters(p, ch);
    }
  }

  // ----- header fields -----

  function SwitchHeader(p: Parser, ch: Byte): Outcome
  {
    match p.state
    case HeaderFieldStart =>
      if ch == CR then Go(p, HeadersAlmostDone)
      else if ch == LF then Redo(p, HeadersAlmostDone)
      else if !IsToken(ch) then Fails(p, InvalidHeaderToken)
      else
        var h := match TokenLower(ch)
                 case 'c' => MatchingContentLength
                 case 't' => MatchingTransferEncoding
                 case 'u' => MatchingUpgrade
                 case _ => General;
        Go(p.(index := 0, hstate := h), HeaderField).(mark := Some(Field))
    case HeaderField => SwitchName(p, ch)
    case HeaderValueStart => SwitchValueStart(p, ch)
    case HeaderValue => SwitchValue(p, ch)
    case HeaderAlmostDone =>
      var q := if p.hstate.TransferEncodingChunked? then p.(chunked := true) else p;
      if ch == LF then Go(q, HeaderValueLws) else Go(q, HeaderValue).(space := true)
    case HeaderValueLws =>
      if ch == ' ' || ch == HT then Go(p, HeaderValueStart).(space := true)
      else Redo(p, HeaderFieldStart)
    case _ => Aborts(p)
  }

  /** One more letter of a name that is being compared with `word`. */
  function MatchName(p: Parser, ch: Byte, word: string, found: HeaderState): (q: Parser)
    ensures q == p.(index := q.index, hstate := q.hstate)
  {
    var i := p.index + 1;
    if i >= |word| || TokenLower(ch) != word[i] then p.(index := i, hstate := General)
    else if i == |word| - 1 then p.(index := i, hstate := found)
    else p.(index := i)
  }

  /**
   * The trailing-space test before ':' (lines 1611-1615) is left to HttpParser.Execute, which sees
   * the buffer and shows that the test never succeeds.
   */
  function SwitchName(p: Parser, ch: Byte): Outcome
  {
    if IsToken(ch) then
      match p.hstate
      case General => Stay(p)
      case MatchingContentLength => Stay(MatchName(p, ch, CONTENT_LENGTH, ContentLength))
      case MatchingTransferEncoding => Stay(MatchName(p, ch, TRANSFER_ENCODING, TransferEncoding))
      case MatchingUpgrade => Stay(MatchName(p, ch, UPGRADE, Upgrade))
      case ContentLength => Stay(p.(hstate := General))
      case TransferEncoding => Stay(p.(hstate := General))
      case Upgrade => Stay(p.(hstate := General))
      case _ => Aborts(p)
    else if ch == ':' then Go(p, HeaderValueStart).(flush := FlushBefore(Field))
    else Fails(p, InvalidHeaderToken)
  }

  function SwitchValueStart(p: Parser, ch: Byte): Outcome
  {
    if ch == ' ' || ch == HT then Stay(p)
    else
      var q := p.(index := 0);
      if (ch == CR || ch == LF) && p.hstate.ContentLength? then Outcome(q, HeaderValue, Fail, InvalidContentLength)
      else if (ch == CR || ch == LF) && p.hstate.TransferEncoding? then
        Outcome(q, HeaderValue, Fail, InvalidTransferEncoding)
      else if (ch == CR || ch == LF) && p.hstate.Upgrade? then Outcome(q, HeaderValue, Fail, InvalidUpgrade)
      else if ch == CR then
        Go(q.(hstate := General), HeaderAlmostDone).(mark := Some(Value), flush := FlushBefore(Value))
      else if ch == LF then Go(q, HeaderFieldStart).(mark := Some(Value), flush := FlushBefore(Value))
      else
        match p.hstate
        case Upgrade => Go(q.(upgradeSeen := true, hstate := General), HeaderValue).(mark := Some(Value))
        case TransferEncoding =>
          Go(q.(hstate := if Lower(ch) == 'c' then MatchingTransferEncodingChunked else General), HeaderValue)
            .(mark := Some(Value))
        case ContentLength =>
          if !IsNum(ch) then Outcome(q, HeaderValue, Fail, InvalidContentLength)
          else Go(q.(contentLength := Digit(ch)), HeaderValue).(mark := Some(Value))
        case _ => Go(q.(hstate := if ch == QT then GeneralAndQuote else General), HeaderValue)
          .(mark := Some(Value))
  }

  /** One more letter of a Transfer-Encoding value that is being compared with "chunked". */
  function MatchChunked(p: Parser, ch: Byte): (q: Parser)
    ensures q == p.(index := q.index, hstate := q.hstate)
  {
    var i := p.index + 1;
    if i >= |CHUNKED| || Lower(ch) != CHUNKED[i] then p.(index := i, hstate := General)
    else if i == |CHUNKED| - 1 then p.(index := i, hstate := TransferEncodingChunked)
    else p.(index := i)
  }

  function SwitchValue(p: Parser, ch: Byte): (o: Outcome)
    ensures o.p == p.(index := o.p.index, hstate := o.p.hstate, contentLength := o.p.contentLength)
  {
    if ch == CR && !p.hstate.GeneralAndQuoteAndEscape? then
      Go(p, HeaderAlmostDone).(flush := FlushBefore(Value))
    else if ch == LF && !p.hstate.GeneralAndQuoteAndEscape? then
      Redo(p, HeaderAlmostDone).(flush := FlushBefore(Value))
    else if !IsHeaderChar(ch) && !p.hstate.GeneralAndQuoteAndEscape? then Fails(p, InvalidHeaderToken)
    else
      match p.hstate
      case General => Stay(p.(hstate := if ch == QT then GeneralAndQuote else General))
      case GeneralAndQuote =>
        Stay(p.(hstate := if ch == QT then General
                          else if ch == BS then GeneralAndQuoteAndEscape
                          else GeneralAndQuote))
      case GeneralAndQuoteAndEscape => Stay(p.(hstate := GeneralAndQuote))
      case TransferEncoding => Fails(p, InvalidHeaderToken)
      case ContentLength =>
        if ch == ' ' then Stay(p)
        else if !IsNum(ch) then Fails(p, InvalidContentLength)
        else if p.contentLength > (INT64_MAX - 10) / 10 then Fails(p, HugeContentLength)
        else Stay(p.(contentLength := p.contentLength * 10 + Digit(ch)))
      case MatchingTransferEncodingChunked => Stay(MatchChunked(p, ch))
      case TransferEncodingChunked => Stay(if ch != ' ' then p.(hstate := General) else p)
      case _ => Stay(p.(hstate := General))
  }

  // ----- end of headers and bodies -----

  /** A message that ends here: start over and report it. */
  function Completed(p: Parser, next: Next): Outcome
  {
    Outcome(p, NewMessage(p), next, note := Some(MessageComplete))
  }

  function SwitchHeadersDone(p: Parser): Outcome
  {
    var hasBody := p.chunked || p.contentLength > 0;
    var o :=
      if p.upgrade && (p.verb == CONNECT || p.skipBody || !hasBody) then Completed(p, Exit)
      else if p.skipBody then Completed(p, Advance)
      else if p.chunked then Go(p, ChunkSizeStart)
      else if p.contentLength == 0 then Completed(p, Advance)
      else if p.contentLength > 0 then Go(p, BodyIdentity)
      else if p.kind == Request || 100 <= p.status <= 199 || p.status == 204 || p.status == 304
      then Completed(p, Advance)
      else Go(p, BodyIdentityEof);
    o.(reset := true)
  }

  function SwitchBody(settings: Settings, p: Parser, ch: Byte): Outcome
  {
    match p.state
    case HeadersAlmostDone =>
      if ch != LF then Fails(p, Strict)
      else if p.trailing then Redo(p, MessageDone).(note := Some(ChunkComplete))
      else
        var skip := settings(p.answered);
        var upgrade := p.upgradeSeen || p.verb == CONNECT;
        Redo(p.(upgrade := upgrade, skipBody := p.skipBody || skip, answered := p.answered + 1), HeadersDone)
          .(note := Some(HeadersComplete(p.contentLength, p.chunked, upgrade, skip)))
    case HeadersDone => SwitchHeadersDone(p)
    case BodyIdentity =>
      if p.contentLength <= 0 then Aborts(p)
      else if p.contentLength == 1 then
        Redo(p.(contentLength := 0), MessageDone).(mark := Some(Body), flush := FlushThrough(Body))
      else Stay(p.(contentLength := p.contentLength - 1)).(mark := Some(Body))
    case BodyIdentityEof => Stay(p).(mark := Some(Body))
    case MessageDone =>
      Completed(p, if p.upgrade then Exit else Advance).(reset := true)
    case _ => Aborts(p)
  }

  function SwitchChunk(p: Parser, ch: Byte): Outcome
  {
    if !p.chunked then Aborts(p)
    else
      match p.state
      case ChunkSizeStart =>
        if Unhex(ch) == -1 then Fails(p, InvalidChunkSize)
        else Go(p.(contentLength := Unhex(ch)), ChunkSize)
      case ChunkSize =>
        if ch == CR then Go(p, ChunkSizeAlmostDone)
        else if Unhex(ch) == -1 then
          if ch == ';' || ch == ' ' then Go(p, ChunkParameters) else Fails(p, InvalidChunkSize)
        else if p.contentLength > (INT64_MAX - Unhex(ch)) / 16 then Fails(p, HugeChunkSize)
        else Stay(p.(contentLength := p.contentLength * 16 + Unhex(ch)))
      case ChunkParameters => if ch == CR then Go(p, ChunkSizeAlmostDone) else Stay(p)
      case ChunkSizeAlmostDone =>
        (if p.contentLength == 0 then Go(p.(trailing := true), HeaderFieldStart) else Go(p, ChunkData))
          .(note := Some(ChunkHeader(p.contentLength)))
      case ChunkData =>
        if p.contentLength <= 0 then Aborts(p)
        else
          var q := p.(contentLength := p.contentLength - 1);
          Go(q, if q.contentLength == 0 then ChunkDataAlmostDone else ChunkData).(mark := Some(Body))
      case ChunkDataAlmostDone =>
        if p.contentLength != 0 then Aborts(p)
        else Go(p, ChunkDataDone).(flush := FlushBefore(Body))
      case ChunkDataDone =>
        Go(p, ChunkSizeStart).(reset := true, note := Some(ChunkComplete))
      case _ => Aborts(p)
  }

  /** Which part of the `switch` handles a state. */
  datatype Region = AtStart | AtResponse | AtUrl | AtVersion | AtHeader | AtBody | AtChunk | Nowhere

  function RegionOf(s: State): Region
  {
    match s
    case PreStartReqOrRes | StartReqOrRes | ResOrRespH | PreStartRes | StartRes
       | PreStartReq | StartReq | ReqMethod => AtStart
    case ResH | ResHT | ResHTT | ResHTTP | ResFirstHttpMajor | ResHttpMajor | ResFirstHttpMinor
       | ResHttpMinor | ResFirstStatusCode | ResStatusCode | ResStatus | ResLineAlmostDone => AtResponse
    case ReqSpacesBeforeUrl | ReqSchema | ReqSchemaSlash | ReqSchemaSlashSlash | ReqHostStart | ReqHost
       | ReqHostIpv6 | ReqHostDone | ReqPort | ReqPath | ReqQueryStringStart | ReqQueryString
       | ReqFragmentStart | ReqFragment => AtUrl
    case ReqHttpStart | ReqHttpH | ReqHttpHT | ReqHttpHTT | ReqHttpHTTP | ReqFirstHttpMajor | ReqHttpMajor
       | ReqFirstHttpMinor | ReqHttpMinor | ReqLineAlmostDone => AtVersion
    case HeaderFieldStart | HeaderField | HeaderValueStart | HeaderValue | HeaderValueLws
       | HeaderAlmostDone => AtHeader
    case HeadersAlmostDone | HeadersDone | BodyIdentity | BodyIdentityEof | MessageDone => AtBody
    case ChunkSizeStart | ChunkSize | ChunkParameters | ChunkSizeAlmostDone | ChunkData
       | ChunkDataAlmostDone | ChunkDataDone => AtChunk
    case Dead | ResStatusStart | ReqServerStart | ReqServer | ReqServerWithAt => Nowhere
  }

  function Switch(settings: Settings, p: Parser, ch: Byte): Outcome
  {
    match RegionOf(p.state)
    case AtStart => SwitchStart(p, ch)
    case AtResponse => SwitchResponse(p, ch)
    case AtUrl => SwitchUrl(p, ch)
    case AtVersion => SwitchVersion(p, ch)
    case AtHeader => SwitchHeader(p, ch)
    case AtBody => SwitchBody(settings, p, ch)
    case AtChunk => SwitchChunk(p, ch)
    case Nowhere => Aborts(p)
  }

  /** The `switch` as a function value; HttpMachine runs any such function. */
  type Switcher = (Parser, Byte) -> Outcome

  function Source(settings: Settings): Switcher
  {
    (p: Parser, ch: Byte) => Switch(settings, p, ch)
  }

  /** `sw` is the source's `switch`, run with these settings. */
  ghost predicate Runs(sw: Switcher, settings: Settings)
  {
    forall p: Parser, ch: Byte {:trigger Switch(settings, p, ch)} :: sw(p, ch) == Switch(settings, p, ch)
  }

  lemma SourceRuns(settings: Settings)
    ensures Runs(Source(settings), settings)
  {
    hide Switch;
  }

  // ----- which part of the `switch` a visit runs -----

  lemma VisitsStart(sw: Switcher, settings: Settings, p: Parser, ch: Byte)
    requires Runs(sw, settings) && RegionOf(p.state).AtStart?
    ensures sw(p, ch) == SwitchStart(p, ch)
  {
    hide SwitchStart, SwitchResponse, SwitchUrl, SwitchVersion, SwitchHeader, SwitchBody, SwitchChunk;
    assert sw(p, ch) == Switch(settings, p, ch);
  }

  lemma VisitsResponse(sw: Switcher, settings: Settings, p: Parser, ch: Byte)
    requires Runs(sw, settings) && RegionOf(p.state).AtResponse?
    ensures sw(p, ch) == SwitchResponse(p, ch)
  {
    hide SwitchStart, SwitchResponse, SwitchUrl, SwitchVersion, SwitchHeader, SwitchBody, SwitchChunk;
    assert sw(p, ch) == Switch(settings, p, ch);
  }

  lemma VisitsUrl(sw: Switcher, settings: Settings, p: Parser, ch: Byte)
    requires Runs(sw, settings) && RegionOf(p.state).AtUrl?
    ensures sw(p, ch) == SwitchUrl(p, ch)
  {
    hide SwitchStart, SwitchResponse, SwitchUrl, SwitchVersion, SwitchHeader, SwitchBody, SwitchChunk;
    assert sw(p, ch) == Switch(settings, p, ch);
  }

  lemma VisitsVersion(sw: Switcher, settings: Settings, p: Parser, ch: Byte)
    requires Runs(sw, settings) && RegionOf(p.state).AtVersion?
    ensures sw(p, ch) == SwitchVersion(p, ch)
  {
    hide SwitchStart, SwitchResponse, SwitchUrl, SwitchVersion, SwitchHeader, SwitchBody, SwitchChunk;
    assert sw(p, ch) == Switch(settings, p, ch);
  }

  lemma VisitsHeader(sw: Switcher, settings: Settings, p: Parser, ch: Byte)
    requires Runs(sw, settings) && RegionOf(p.state).AtHeader?
    ensures sw(p, ch) == SwitchHeader(p, ch)
  {
    hide SwitchStart, SwitchResponse, SwitchUrl, SwitchVersion, SwitchHeader, SwitchBody, SwitchChunk;
    assert sw(p, ch) == Switch(settings, p, ch);
  }

  lemma VisitsBody(sw: Switcher, settings: Settings, p: Parser, ch: Byte)
    requires Runs(sw, settings) && RegionOf(p.state).AtBody?
    ensures sw(p, ch) == SwitchBody(settings, p, ch)
  {
    hide SwitchStart, SwitchResponse, SwitchUrl, SwitchVersion, SwitchHeader, SwitchBody, SwitchChunk;
    assert sw(p, ch) == Switch(settings, p, ch);
  }

  lemma VisitsChunk(sw: Switcher, settings: Settings, p: Parser, ch: Byte)
    requires Runs(sw, settings) && RegionOf(p.state).AtChunk?
    ensures sw(p, ch) == SwitchChunk(p, ch)
  {
    hide SwitchStart, SwitchResponse, SwitchUrl, SwitchVersion, SwitchHeader, SwitchBody, SwitchChunk;
    assert sw(p, ch) == Switch(settings, p, ch);
  }
}
