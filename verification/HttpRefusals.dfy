/** Which bytes stop the parser, in every state but those of methods, and with which error. */
module HttpRefusals {
  import opened HttpTypes
  import opened HttpSwitch
  import opened HttpMachine
  import opened HttpInvariant

  function Unless(fine: bool, e: Errno): Option<Errno> { if fine then None else Some(e) }

  /** One more digit of a number of up to three. */
  predicate Fits(n: nat, ch: Byte) { IsNum(ch) && n * 10 + Digit(ch) <= 999 }

  /** For methods see HttpTokens.MethodExact. */
  predicate Listed(s: State)
  {
    !s.StartReq? && !s.StartReqOrRes? && !s.ReqMethod? && !RegionOf(s).Nowhere?
  }

  predicate TextOrEnd(ch: Byte) { IsUrlChar(ch) || ch == '?' || ch == '#' || ch == ' ' || ch == CR || ch == LF }

  /** The request target. */
  function UrlRefuses(p: Parser, ch: Byte): Option<Errno>
  {
    match p.state
    case ReqSpacesBeforeUrl =>
      Unless(ch == ' ' || p.verb == CONNECT || ch == '/' || ch == '*' || IsAlpha(ch), InvalidUrl)
    case ReqSchema => Unless(IsAlpha(ch) || ch == ':', InvalidUrl)
    case ReqHostStart => Unless(ch == '[' || IsAlphaNum(ch), InvalidHost)
    case ReqHostIpv6 => Unless(IsHex(ch) || ch == ':' || ch == ']', InvalidHost)
    case ReqHostDone => Unless(ch == ':' || ch == '/' || ch == '?' || ch == ' ', InvalidHost)
    case ReqPort => Unless(IsNum(ch) || ch == '/' || ch == '?' || ch == ' ', InvalidPort)
    case ReqPath => Unless(TextOrEnd(ch), InvalidPath)
    case ReqQueryStringStart | ReqQueryString => Unless(TextOrEnd(ch), InvalidQueryString)
    case ReqFragmentStart | ReqFragment => Unless(TextOrEnd(ch), InvalidFragment)
    case _ => None
  }

  /** The start line. */
  function LineRefuses(p: Parser, ch: Byte): Option<Errno>
  {
    match p.state
    case ResOrRespH => Unless(ch == 'T' || ch == 'E', InvalidConstant)
    case StartRes => Unless(ch == 'H', InvalidConstant)
    case ReqHttpStart => Unless(ch == 'H' || ch == ' ', InvalidConstant)
    case ResFirstHttpMajor | ResFirstHttpMinor | ReqFirstHttpMajor | ReqFirstHttpMinor =>
      Unless(IsNum(ch), InvalidVersion)
    case ResHttpMajor | ReqHttpMajor => Unless(ch == '.' || Fits(p.major, ch), InvalidVersion)
    case ResHttpMinor => Unless(ch == ' ' || Fits(p.minor, ch), InvalidVersion)
    case ReqHttpMinor => Unless(ch == CR || ch == LF || Fits(p.minor, ch), InvalidVersion)
    case ReqLineAlmostDone => Unless(ch == LF, LfExpected)
    case ResFirstStatusCode => Unless(ch == ' ' || IsNum(ch), InvalidStatus)
    case ResStatusCode => Unless(ch == ' ' || ch == CR || ch == LF || Fits(p.status, ch), InvalidStatus)
    case _ => None
  }

  /** A value that has to be there. */
  function EmptyRefused(h: HeaderState): Option<Errno>
  {
    if h.ContentLength? then Some(InvalidContentLength)
    else if h.TransferEncoding? then Some(InvalidTransferEncoding)
    else if h.Upgrade? then Some(InvalidUpgrade)
    else None
  }

  /** Header lines; a byte after a backslash in quotes is never refused. */
  function HeaderRefuses(p: Parser, ch: Byte): Option<Errno>
  {
    match p.state
    case HeaderFieldStart => Unless(ch == CR || ch == LF || IsToken(ch), InvalidHeaderToken)
    case HeaderField => Unless(ch == ':' || IsToken(ch), InvalidHeaderToken)
    case HeaderValueStart =>
      if ch == CR || ch == LF then EmptyRefused(p.hstate)
      else Unless(!p.hstate.ContentLength? || ch == ' ' || ch == HT || IsNum(ch), InvalidContentLength)
    case HeaderValue =>
      if p.hstate.GeneralAndQuoteAndEscape? || ch == CR || ch == LF then None
      else if !IsHeaderChar(ch) || p.hstate.TransferEncoding? then Some(InvalidHeaderToken)
      else if !p.hstate.ContentLength? || ch == ' ' then None
      else if !IsNum(ch) then Some(InvalidContentLength)
      else Unless(p.contentLength * 10 + 9 <= INT64_MAX - 1, HugeContentLength)
    case _ => None
  }

  function BodyRefuses(p: Parser, ch: Byte): Option<Errno>
  {
    match p.state
    case HeadersAlmostDone => Unless(ch == LF, Strict)
    case ChunkSizeStart => Unless(Unhex(ch) >= 0, InvalidChunkSize)
    case ChunkSize =>
      if ch == CR || ch == ';' || ch == ' ' then None
      else if Unhex(ch) < 0 then Some(InvalidChunkSize)
      else Unless(p.contentLength * 16 + Unhex(ch) <= INT64_MAX, HugeChunkSize)
    case _ => None
  }

  function Refuses(p: Parser, ch: Byte): Option<Errno>
  {
    match RegionOf(p.state)
    case AtStart | AtResponse | AtVersion => LineRefuses(p, ch)
    case AtUrl => UrlRefuses(p, ch)
    case AtHeader => HeaderRefuses(p, ch)
    case _ => BodyRefuses(p, ch)
  }

  /** What a visit that refuses does. */
  predicate Agrees(o: Outcome, e: Option<Errno>)
  {
    if e.Some? then o.next.Fail? && o.errno == e.value else !o.next.Fail? && o.errno == Ok
  }

  lemma StartRefusals(p: Parser, ch: Byte)
    requires RegionOf(p.state).AtStart? && Listed(p.state)
    ensures Agrees(SwitchStart(p, ch), LineRefuses(p, ch))
  {
    hide Digit, IsNum;
  }

  lemma ResponseRefusals(p: Parser, ch: Byte)
    requires RegionOf(p.state).AtResponse?
    ensures Agrees(SwitchResponse(p, ch), LineRefuses(p, ch))
  {
    hide Digit;
  }

  lemma VersionRefusals(p: Parser, ch: Byte)
    requires RegionOf(p.state).AtVersion?
    ensures Agrees(SwitchVersion(p, ch), LineRefuses(p, ch))
  {
    hide Digit;
  }

  lemma UrlRefusals(p: Parser, ch: Byte)
    requires RegionOf(p.state).AtUrl?
    ensures Agrees(SwitchUrl(p, ch), UrlRefuses(p, ch))
  {
    hide IsUrlChar, IsHex, IsAlpha, IsNum;
  }

  lemma ValueRefusals(p: Parser, ch: Byte)
    requires p.state.HeaderValue?
    ensures Agrees(SwitchValue(p, ch), HeaderRefuses(p, ch))
  {
    hide Digit, MatchChunked;
    assert (INT64_MAX - 10) / 10 == 922337203685477579;
  }

  lemma ValueStartRefusals(p: Parser, ch: Byte)
    requires p.state.HeaderValueStart?
    ensures Agrees(SwitchValueStart(p, ch), HeaderRefuses(p, ch))
  {
    hide Digit, Lower;
  }

  lemma NameRefusals(p: Parser, ch: Byte)
    requires p.state.HeaderField? && ParserInv(p)
    ensures Agrees(SwitchName(p, ch), HeaderRefuses(p, ch))
  {
    hide MatchName, IsToken;
  }

  lemma HeaderRefusals(p: Parser, ch: Byte)
    requires RegionOf(p.state).AtHeader? && ParserInv(p)
    ensures Agrees(SwitchHeader(p, ch), HeaderRefuses(p, ch))
  {
    hide SwitchName, SwitchValueStart, SwitchValue, IsToken, ParserInv;
    if p.state.HeaderField? {
      NameRefusals(p, ch);
    } else if p.state.HeaderValueStart? {
      ValueStartRefusals(p, ch);
    } else if p.state.HeaderValue? {
      ValueRefusals(p, ch);
    }
  }

  lemma BodyRefusals(settings: Settings, p: Parser, ch: Byte)
    requires RegionOf(p.state).AtBody? && ParserInv(p)
    ensures Agrees(SwitchBody(settings, p, ch), BodyRefuses(p, ch))
  {
  }

  lemma ChunkRefusals(p: Parser, ch: Byte)
    requires RegionOf(p.state).AtChunk? && ParserInv(p)
    ensures Agrees(SwitchChunk(p, ch), BodyRefuses(p, ch))
  {
  }

  /** In every reachable state, a byte is refused exactly if the list says so, and with the error it says. */
  lemma RefusedExactly(sw: Switcher, settings: Settings, p: Parser, ch: Byte)
    requires Runs(sw, settings) && ParserInv(p) && Listed(p.state)
    ensures Agrees(sw(p, ch), Refuses(p, ch))
  {
    hide Runs, SwitchStart, SwitchResponse, SwitchUrl, SwitchVersion, SwitchHeader, SwitchBody, SwitchChunk,
         LineRefuses, UrlRefuses, HeaderRefuses, BodyRefuses, ParserInv, Agrees;
    match RegionOf(p.state)
    case AtStart =>
      VisitsStart(sw, settings, p, ch);
      StartRefusals(p, ch);
    case AtResponse =>
      VisitsResponse(sw, settings, p, ch);
      ResponseRefusals(p, ch);
    case AtVersion =>
      VisitsVersion(sw, settings, p, ch);
      VersionRefusals(p, ch);
    case AtUrl =>
      VisitsUrl(sw, settings, p, ch);
      UrlRefusals(p, ch);
    case AtHeader =>
      VisitsHeader(sw, settings, p, ch);
      HeaderRefusals(p, ch);
    case AtBody =>
      VisitsBody(sw, settings, p, ch);
      BodyRefusals(settings, p, ch);
    case AtChunk =>
      VisitsChunk(sw, settings, p, ch);
      ChunkRefusals(p, ch);
  }

  // ----- after an error, and at the end of the input -----

  /** After an error nothing is read and nothing told, whatever calls follow. */
  lemma {:induction false} ErrorIsFinal(sw: Switcher, p: Parser, nread: nat, out: Trace, calls: seq<Bytes>)
    requires p.errno != Ok
    ensures RunCalls(sw, p, nread, out, calls) == Result(p, nread, out, 0)
    decreases |calls|
  {
    if calls != [] {
      ErrorIsFinal(sw, p, nread, out, calls[..|calls| - 1]);
    }
  }

  /** Between messages, or in a body without a length. */
  predicate MayEnd(s: State)
  {
    s.PreStartReq? || s.PreStartRes? || s.PreStartReqOrRes? || s.BodyIdentityEof?
  }

  /**
   * The end of the input is an error exactly in the middle of a message.  It tells nothing, except that a body
   * without a length is complete.
   */
  lemma EndExact(sw: Switcher, p: Parser, nread: nat, out: Trace)
    requires p.errno == Ok
    ensures var r := Execute(sw, p, nread, out, []);
            && r.p == (if MayEnd(p.state) then p else p.(errno := InvalidEofState)) && r.nread == nread
            && r.used == (if MayEnd(p.state) then 0 else 1)
            && r.out == out + if p.state.BodyIdentityEof? then [Note(MessageComplete)] else []
  {
    assert out + [] == out;
  }
}
