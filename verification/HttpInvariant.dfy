/**
 * What every reachable parser satisfies.  It rules out each internal assert of the source and each access
 * outside a string table, and bounds every fixed-width field.
 */
module HttpInvariant {
  import opened HttpTypes
  import opened HttpSwitch
  import opened HttpMachine
  import opened HttpCuts
  import HttpDiscipline

  predicate NameStates(p: Parser)
  {
    match p.hstate
    case General | ContentLength | TransferEncoding | Upgrade => true
    case MatchingContentLength => p.index + 1 < |CONTENT_LENGTH|
    case MatchingTransferEncoding => p.index + 1 < |TRANSFER_ENCODING|
    case MatchingUpgrade => p.index + 1 < |UPGRADE|
    case _ => false
  }

  predicate ValueStates(p: Parser)
  {
    match p.hstate
    case General | GeneralAndQuote | GeneralAndQuoteAndEscape | TransferEncodingChunked => true
    case ContentLength => p.contentLength >= 0
    case MatchingTransferEncodingChunked => p.index + 1 < |CHUNKED|
    case _ => false
  }

  predicate StateInv(p: Parser)
  {
    match p.state
    case ReqMethod => 1 <= p.index <= |MethodName(p.verb)|
    case HeaderField => NameStates(p)
    case HeaderValue => ValueStates(p)
    case HeaderAlmostDone => ValueStates(p) && !p.hstate.GeneralAndQuoteAndEscape?
    case ResStatusCode => p.status <= 999
    case BodyIdentity => p.contentLength > 0
    case ChunkSizeStart | ChunkDataDone => p.chunked
    case ChunkSize | ChunkParameters | ChunkSizeAlmostDone => p.chunked && p.contentLength >= 0
    case ChunkData => p.chunked && p.contentLength > 0
    case ChunkDataAlmostDone => p.chunked && p.contentLength == 0
    case Dead | ResStatusStart | ReqServerStart | ReqServer | ReqServerWithAt => false
    case _ => true
  }

  predicate Bounded(p: Parser)
  {
    && p.index <= 255 && p.major <= 999 && p.minor <= 999 && p.status <= 65535
    && INT64_MIN <= p.contentLength <= INT64_MAX
    && (p.trailing ==> p.chunked)
  }

  predicate ParserInv(p: Parser) { Bounded(p) && StateInv(p) && p.errno == Ok }

  /** http_parser_init leaves index, header_state, content_length and status_code as they were. */
  function Init(kind: ParserType, junk: Parser): (p: Parser)
  {
    junk.(kind := kind,
          state := match kind
                   case Request => PreStartReq
                   case Response => PreStartRes
                   case Both => PreStartReqOrRes,
          chunked := false, trailing := false, upgradeSeen := false, skipBody := false,
          upgrade := false, verb := DELETE, major := 0, minor := 0, errno := Ok)
  }

  predicate Kept(o: Outcome) { o.next != Abort && (Goes(o) ==> ParserInv(o.After())) }

  /** The states that StateInv says nothing about. */
  predicate Free(s: State)
  {
    match s
    case ReqMethod | HeaderField | HeaderValue | HeaderAlmostDone | ResStatusCode | BodyIdentity
       | ChunkSizeStart | ChunkDataDone | ChunkSize | ChunkParameters | ChunkSizeAlmostDone | ChunkData
       | ChunkDataAlmostDone | Dead | ResStatusStart | ReqServerStart | ReqServer | ReqServerWithAt => false
    case _ => true
  }

  lemma FreeInv(p: Parser)
    requires Free(p.state)
    ensures StateInv(p)
  {
  }

  /** A visit that goes to a free state and leaves the numbers in bounds. */
  lemma KeptFree(o: Outcome)
    requires Goes(o) ==> Free(o.to) && Bounded(o.p) && o.errno == Ok
    requires o.next != Abort
    ensures Kept(o)
  {
    hide StateInv;
    if Goes(o) {
      FreeInv(o.After());
    }
  }

  lemma KeptStart(p: Parser, ch: Byte)
    requires ParserInv(p) && RegionOf(p.state).AtStart? && !p.state.StartReq? && !p.state.ReqMethod?
    ensures Kept(SwitchStart(p, ch))
  {
    hide StateInv, StartMethod, SwitchMethod;
    if p.state.ResOrRespH? && ch == 'E' {
      StartsMatching(p.(kind := Request, verb := HEAD, index := 2));
    } else {
      KeptFree(SwitchStart(p, ch));
    }
  }

  lemma StartsMatching(p: Parser)
    requires p.index == 1 || p.index == 2
    ensures StateInv(p.(state := ReqMethod))
    ensures forall e :: StateInv(p.(state := ReqMethod, errno := e))
  {
    NameLengths(p.verb);
    hide MethodName;
  }

  lemma NameLengths(m: Method)
    ensures 3 <= |MethodName(m)| <= 11
  {
  }

  lemma KeptFirstLetter(p: Parser, ch: Byte)
    requires Bounded(p) && p.errno == Ok
    ensures Kept(StartMethod(ClearMessage(p), ch))
  {
    hide StateInv, IsAlpha;
    match FirstGuess(ch)
    case Some(m) => StartsMatching(ClearMessage(p).(verb := m, index := 1));
    case None =>
  }

  lemma KeptMethod(p: Parser, ch: Byte)
    requires ParserInv(p) && p.state.ReqMethod?
    ensures Kept(SwitchMethod(p, ch))
  {
    NameLengths(p.verb);
    var r := Reguess(p.verb, p.index, ch);
    ReguessInside(p.verb, p.index, ch);
    hide MethodName, Reguess;
    assert ch != '\0' && ch == Matcher(p.verb, p.index) ==> p.index < |MethodName(p.verb)|;
  }

  lemma ReguessInside(m: Method, index: nat, ch: Byte)
    ensures Reguess(m, index, ch).Some? ==> index + 1 <= |MethodName(Reguess(m, index, ch).value)|
  {
  }

  lemma InsideFacts(p: Parser)
    requires ParserInv(p)
    ensures p.state.HeaderValue? ==> ValueStates(p)
    ensures p.state.ResStatusCode? ==> p.status <= 999
    ensures p.state.BodyIdentity? ==> p.contentLength > 0
  {
  }

  lemma KeptLine(p: Parser, ch: Byte)
    requires ParserInv(p) && RegionOf(p.state).AtResponse? && !p.state.ResFirstStatusCode? && !p.state.ResStatusCode?
    ensures Kept(SwitchResponse(p, ch))
  {
    hide StateInv, IsNum, Digit;
    KeptFree(SwitchResponse(p, ch));
  }

  lemma KeptStatus(p: Parser, ch: Byte)
    requires ParserInv(p) && (p.state.ResFirstStatusCode? || p.state.ResStatusCode?)
    ensures Kept(SwitchResponse(p, ch))
  {
    hide StateInv, IsNum;
    var o := SwitchResponse(p, ch);
    InsideFacts(p);
    if Goes(o) && o.to.ResStatusCode? {
      StatusInv(o.After());
    } else {
      KeptFree(o);
    }
  }

  lemma KeptResponse(p: Parser, ch: Byte)
    requires ParserInv(p) && RegionOf(p.state).AtResponse?
    ensures Kept(SwitchResponse(p, ch))
  {
    hide SwitchResponse, ParserInv, Kept;
    if p.state.ResFirstStatusCode? || p.state.ResStatusCode? {
      KeptStatus(p, ch);
    } else {
      KeptLine(p, ch);
    }
  }

  lemma StatusInv(p: Parser)
    requires p.state.ResStatusCode? && p.status <= 999
    ensures StateInv(p)
  {
  }

  lemma KeptUrl(p: Parser, ch: Byte)
    requires ParserInv(p) && RegionOf(p.state).AtUrl?
    ensures Kept(SwitchUrl(p, ch))
  {
    hide StateInv;
    if p.state.ReqSpacesBeforeUrl? {
      KeptFree(SwitchBeforeUrl(p, ch));
    } else {
      UrlIsFree(p.state, ch);
      hide MoveInUrl, RegionOf;
      KeptFree(SwitchUrl(p, ch));
    }
  }

  lemma UrlIsFree(s: State, ch: Byte)
    requires InUrl(s)
    ensures var m := MoveInUrl(s, ch); (m.To? || m.Jump? ==> Free(m.s)) && (m.Bad? ==> m.errno != Ok)
  {
    hide IsUrlChar, IsAlpha, IsNum, IsHex, IsHostChar, IsAlphaNum;
  }

  lemma KeptVersion(p: Parser, ch: Byte)
    requires ParserInv(p) && RegionOf(p.state).AtVersion?
    ensures Kept(SwitchVersion(p, ch))
  {
    hide StateInv;
    KeptFree(SwitchVersion(p, ch));
  }

  lemma NameInv(p: Parser)
    requires p.state.HeaderField? && NameStates(p)
    ensures StateInv(p)
  {
  }

  lemma ValueInv(p: Parser)
    requires ValueStates(p)
    requires p.state.HeaderValue? || (p.state.HeaderAlmostDone? && !p.hstate.GeneralAndQuoteAndEscape?)
    ensures StateInv(p)
  {
  }

  lemma MatchInside(p: Parser, ch: Byte, word: string, found: HeaderState)
    requires p.index + 1 < |word|
    ensures var q := MatchName(p, ch, word, found);
            q.index == p.index + 1
            && (q.hstate == General || q.hstate == found || (q.hstate == p.hstate && q.index + 1 < |word|))
  {
  }

  lemma KeptMatching(p: Parser, ch: Byte, q: Parser)
    requires ParserInv(p) && p.state.HeaderField? && SwitchName(p, ch) == Stay(q)
    requires q == p.(index := q.index, hstate := q.hstate) && q.index <= 255 && NameStates(q)
    ensures Kept(SwitchName(p, ch))
  {
    hide SwitchName, StateInv, NameStates;
    NameInv(q);
  }

  lemma KeptWord(p: Parser, ch: Byte)
    requires ParserInv(p) && p.state.HeaderField? && IsToken(ch)
    requires p.hstate.MatchingContentLength? || p.hstate.MatchingTransferEncoding? || p.hstate.MatchingUpgrade?
    ensures Kept(SwitchName(p, ch))
  {
    hide MatchName, StateInv, Kept, IsToken;
    assert NameStates(p) by { NameStatesOf(p); }
    match p.hstate {
      case MatchingContentLength => MatchInside(p, ch, CONTENT_LENGTH, ContentLength);
      case MatchingTransferEncoding => MatchInside(p, ch, TRANSFER_ENCODING, TransferEncoding);
      case MatchingUpgrade => MatchInside(p, ch, UPGRADE, Upgrade);
    }
    KeptMatching(p, ch, SwitchName(p, ch).p);
  }

  lemma NameStatesOf(p: Parser)
    requires StateInv(p) && p.state.HeaderField?
    ensures NameStates(p)
  {
  }

  lemma KeptName(p: Parser, ch: Byte)
    requires ParserInv(p) && p.state.HeaderField?
    ensures Kept(SwitchName(p, ch))
  {
    hide IsToken, MatchName, StateInv, Kept;
    NameStatesOf(p);
    var o := SwitchName(p, ch);
    if !IsToken(ch) {
      KeptFree(o);
    } else if p.hstate.MatchingContentLength? || p.hstate.MatchingTransferEncoding? || p.hstate.MatchingUpgrade? {
      KeptWord(p, ch);
    } else {
      KeptMatching(p, ch, o.p);
    }
  }

  lemma KeptFieldStart(p: Parser, ch: Byte)
    requires ParserInv(p) && (p.state.HeaderFieldStart? || p.state.HeaderValueLws?)
    ensures Kept(SwitchHeader(p, ch))
  {
    hide IsToken, StateInv;
    var o := SwitchHeader(p, ch);
    if o.to.HeaderField? {
      NameInv(o.After());
    } else {
      KeptFree(o);
    }
  }

  lemma KeptAlmostDone(p: Parser, ch: Byte)
    requires ParserInv(p) && p.state.HeaderAlmostDone?
    ensures Kept(SwitchHeader(p, ch))
  {
    var o := SwitchHeader(p, ch);
    assert ValueStates(p);
    hide StateInv;
    if o.to.HeaderValue? {
      ValueInv(o.After());
    } else {
      KeptFree(o);
    }
  }

  lemma KeptValueStart(p: Parser, ch: Byte)
    requires ParserInv(p) && p.state.HeaderValueStart?
    ensures Kept(SwitchValueStart(p, ch))
  {
    hide StateInv, IsNum, Digit, Lower, Kept;
    var o := SwitchValueStart(p, ch);
    if ch == ' ' || ch == HT || ch == LF || !Goes(o) {
      KeptFree(o);
    } else if ch == CR {
      KeptInValue(o);
    } else {
      KeptFirstByte(p, ch);
    }
  }

  lemma KeptFirstByte(p: Parser, ch: Byte)
    requires ParserInv(p) && p.state.HeaderValueStart? && ch != ' ' && ch != HT && ch != LF && ch != CR
    requires Goes(SwitchValueStart(p, ch))
    ensures Kept(SwitchValueStart(p, ch))
  {
    hide StateInv, Lower, IsNum, Kept;
    var o := SwitchValueStart(p, ch);
    FirstByteIs(p, ch);
    hide SwitchValueStart;
    KeptInValue(o);
  }

  lemma FirstByteIs(p: Parser, ch: Byte)
    requires ParserInv(p) && p.state.HeaderValueStart? && ch != ' ' && ch != HT && ch != LF && ch != CR
    ensures var o := SwitchValueStart(p, ch);
            Goes(o) ==> Bounded(o.p) && ValueStates(o.p) && o.errno == Ok && o.next != Abort && o.to.HeaderValue?
  {
    hide StateInv, Lower, IsNum;
  }

  lemma KeptInValue(o: Outcome)
    requires Bounded(o.p) && o.errno == Ok && o.next != Abort && ValueStates(o.p)
    requires o.to.HeaderValue? || (o.to.HeaderAlmostDone? && !o.p.hstate.GeneralAndQuoteAndEscape?)
    ensures Kept(o)
  {
    hide StateInv;
    ValueInv(o.After());
  }

  lemma ChunkedInside(p: Parser, ch: Byte)
    requires p.index + 1 < |CHUNKED|
    ensures var q := MatchChunked(p, ch);
            q.index == p.index + 1
            && (q.hstate == General || q.hstate == TransferEncodingChunked
                || (q.hstate == p.hstate && q.index + 1 < |CHUNKED|))
  {
    hide Lower;
  }

  lemma KeptNumber(p: Parser, ch: Byte)
    requires ParserInv(p) && p.state.HeaderValue? && p.hstate.ContentLength?
    ensures Kept(SwitchValue(p, ch))
  {
    assert ValueStates(p);
    hide StateInv, IsHeaderChar, Kept;
    var o := SwitchValue(p, ch);
    if Goes(o) {
      KeptInValue(o);
    } else {
      KeptFree(o);
    }
  }

  lemma KeptValue(p: Parser, ch: Byte)
    requires ParserInv(p) && p.state.HeaderValue?
    ensures Kept(SwitchValue(p, ch))
  {
    hide StateInv, IsHeaderChar, MatchChunked, Kept, IsNum, Digit;
    InsideFacts(p);
    var o := SwitchValue(p, ch);
    if p.hstate.ContentLength? {
      KeptNumber(p, ch);
    } else if Goes(o) {
      if p.hstate.MatchingTransferEncodingChunked? {
        ChunkedInside(p, ch);
      }
      KeptInValue(o);
    } else {
      KeptFree(o);
    }
  }

  lemma KeptHeader(p: Parser, ch: Byte)
    requires ParserInv(p) && RegionOf(p.state).AtHeader?
    ensures Kept(SwitchHeader(p, ch))
  {
    hide SwitchName, SwitchValueStart, SwitchValue, IsToken, Kept;
    match p.state
    case HeaderField => KeptName(p, ch);
    case HeaderValueStart => KeptValueStart(p, ch);
    case HeaderValue => KeptValue(p, ch);
    case HeaderAlmostDone => KeptAlmostDone(p, ch);
    case HeaderFieldStart | HeaderValueLws => KeptFieldStart(p, ch);
  }

  lemma KeptLength(o: Outcome)
    requires Bounded(o.p) && o.errno == Ok && Goes(o)
    requires (o.to.BodyIdentity? && o.p.contentLength > 0) || (o.to.ChunkData? && o.p.chunked && o.p.contentLength > 0)
             || (o.to.ChunkDataAlmostDone? && o.p.chunked && o.p.contentLength == 0)
             || ((o.to.ChunkSizeStart? || o.to.ChunkDataDone?) && o.p.chunked)
             || ((o.to.ChunkSize? || o.to.ChunkParameters? || o.to.ChunkSizeAlmostDone?)
                 && o.p.chunked && o.p.contentLength >= 0)
    ensures Kept(o)
  {
  }

  lemma KeptHeadersDone(p: Parser)
    requires ParserInv(p) && p.state.HeadersDone?
    ensures Kept(SwitchHeadersDone(p))
  {
    hide StateInv, Kept;
    var o := SwitchHeadersDone(p);
    if o.to.BodyIdentity? || o.to.ChunkSizeStart? {
      KeptLength(o);
    } else {
      KeptFree(o);
    }
  }

  lemma KeptIdentity(settings: Settings, p: Parser, ch: Byte)
    requires ParserInv(p) && p.state.BodyIdentity?
    ensures Kept(SwitchBody(settings, p, ch))
  {
    hide StateInv, Kept;
    InsideFacts(p);
    var o := SwitchBody(settings, p, ch);
    if o.to.BodyIdentity? {
      KeptLength(o);
    } else {
      KeptFree(o);
    }
  }

  lemma KeptBody(settings: Settings, p: Parser, ch: Byte)
    requires ParserInv(p) && RegionOf(p.state).AtBody?
    ensures Kept(SwitchBody(settings, p, ch))
  {
    hide StateInv, Kept, SwitchHeadersDone;
    match p.state
    case HeadersDone => KeptHeadersDone(p);
    case BodyIdentity => KeptIdentity(settings, p, ch);
    case _ => KeptFree(SwitchBody(settings, p, ch));
  }

  lemma KeptChunkSize(p: Parser, ch: Byte)
    requires ParserInv(p) && (p.state.ChunkSizeStart? || p.state.ChunkSize?)
    ensures Kept(SwitchChunk(p, ch))
  {
    assert p.chunked && (p.state.ChunkSize? ==> p.contentLength >= 0);
    hide StateInv, Kept, Unhex;
    var o := SwitchChunk(p, ch);
    if Goes(o) {
      KeptLength(o);
    } else {
      KeptFree(o);
    }
  }

  lemma KeptChunk(p: Parser, ch: Byte)
    requires ParserInv(p) && RegionOf(p.state).AtChunk?
    ensures Kept(SwitchChunk(p, ch))
  {
    assert p.chunked && (p.state.ChunkData? ==> p.contentLength > 0);
    assert p.state.ChunkDataAlmostDone? ==> p.contentLength == 0;
    assert p.state.ChunkParameters? || p.state.ChunkSizeAlmostDone? ==> p.contentLength >= 0;
    hide StateInv, Kept, Unhex;
    var o := SwitchChunk(p, ch);
    if p.state.ChunkSizeStart? || p.state.ChunkSize? {
      KeptChunkSize(p, ch);
    } else if o.to.HeaderFieldStart? {
      KeptFree(o);
    } else {
      KeptLength(o);
    }
  }

  /** No visit of a reachable parser fails an internal assert or leaves the reachable parsers. */
  lemma VisitKeepsInv(sw: Switcher, settings: Settings, p: Parser, ch: Byte)
    requires Runs(sw, settings)
    requires ParserInv(p)
    ensures Kept(sw(p, ch))
  {
    assert !RegionOf(p.state).Nowhere?;
    hide Runs, StateInv, Kept, SwitchStart, SwitchResponse, SwitchUrl,
         SwitchVersion, SwitchHeader, SwitchBody, SwitchChunk;
    match RegionOf(p.state)
    case AtStart => VisitsStart(sw, settings, p, ch); KeptAtStart(p, ch);
    case AtResponse => VisitsResponse(sw, settings, p, ch); KeptResponse(p, ch);
    case AtUrl => VisitsUrl(sw, settings, p, ch); KeptUrl(p, ch);
    case AtVersion => VisitsVersion(sw, settings, p, ch); KeptVersion(p, ch);
    case AtHeader => VisitsHeader(sw, settings, p, ch); KeptHeader(p, ch);
    case AtBody => VisitsBody(sw, settings, p, ch); KeptBody(settings, p, ch);
    case AtChunk => VisitsChunk(sw, settings, p, ch); KeptChunk(p, ch);
  }

  lemma KeptAtStart(p: Parser, ch: Byte)
    requires ParserInv(p) && RegionOf(p.state).AtStart?
    ensures Kept(SwitchStart(p, ch))
  {
    hide StateInv, Kept, StartMethod, SwitchMethod;
    match p.state
    case StartReq => KeptFirstLetter(p, ch);
    case ReqMethod => KeptMethod(p, ch);
    case _ => KeptStart(p, ch);
  }

  // ----- whole runs -----

  lemma {:induction false} FeedKeepsInv(sw: Switcher, settings: Settings, c: Config, ch: Byte)
    requires Runs(sw, settings)
    requires ParserInv(c.p)
    ensures var s := Feed(sw, c, ch); !s.Aborted? && (s.Running? || s.Exited? ==> ParserInv(s.c.p))
    decreases Rank(c.p.state)
  {
    var o := sw(c.p, ch);
    VisitKeepsInv(sw, settings, c.p, ch);
    AgainDescends(sw, settings, c.p, ch);
    hide Runs, ParserInv, Put, Tell, Rank;
    if o.next.Again? {
      FeedKeepsInv(sw, settings, Perform(c, o, ch), ch);
    }
  }

  /** Every `goto reexecute_byte` lowers the rank. */
  lemma AgainDescends(sw: Switcher, settings: Settings, p: Parser, ch: Byte)
    requires Runs(sw, settings)
    ensures var o := sw(p, ch); o.next.Again? ==> Rank(o.to) < Rank(p.state)
  {
    HttpDiscipline.SwitchIsDisciplined(sw, settings);
    assert Tidy(p, sw(p, ch));
    hide Runs, MarksTidy;
  }

  lemma {:induction false} FeedAllKeepsInv(sw: Switcher, settings: Settings, c: Config, data: Bytes)
    requires Runs(sw, settings)
    requires ParserInv(c.p)
    ensures var s := FeedAll(sw, c, data);
            !s.Aborted? && (s.Running? || s.Exited? ==> ParserInv(s.c.p))
    decreases |data|
  {
    hide Runs, Feed, ParserInv;
    if data != [] {
      FeedKeepsInv(sw, settings, c, data[0]);
      match Feed(sw, c, data[0])
      case Running(d) => FeedAllKeepsInv(sw, settings, d, data[1..]);
      case _ =>
    }
  }

  /** A parser between calls: in error, or reachable. */
  predicate Safe(p: Parser) { p.errno == Ok ==> ParserInv(p) }

  lemma CallKeepsInv(sw: Switcher, settings: Settings, p: Parser, nread: nat, out: Trace, data: Bytes)
    requires Runs(sw, settings)
    requires Safe(p)
    ensures Safe(Execute(sw, p, nread, out, data).p)
    ensures p.errno == Ok ==> !FeedAll(sw, Begin(p, nread, out), data).Aborted?
  {
    if p.errno == Ok {
      FeedAllKeepsInv(sw, settings, Begin(p, nread, out), data);
      HttpDiscipline.SwitchIsDisciplined(sw, settings);
      FeedAllErrno(sw, Begin(p, nread, out), data);
      StartWithinUsed(sw, Begin(p, nread, out), data);
    }
    hide Runs, FeedAll, StateInv, Disciplined, Put, HeaderBytes;
  }

  /** Any sequence of calls; an empty buffer is the end of the input. */
  function RunCalls(sw: Switcher, p: Parser, nread: nat, out: Trace, calls: seq<Bytes>): Result
    decreases |calls|
  {
    if calls == [] then Result(p, nread, out, 0)
    else
      var r := RunCalls(sw, p, nread, out, calls[..|calls| - 1]);
      Execute(sw, r.p, r.nread, r.out, calls[|calls| - 1])
  }

  /** From http_parser_init, no sequence of calls leaves the reachable parsers or fails an assert. */
  lemma {:induction false} EveryRunIsSafe(
    sw: Switcher, settings: Settings, kind: ParserType, junk: Parser, calls: seq<Bytes>)
    requires Runs(sw, settings)
    requires Bounded(junk.(major := 0, minor := 0, trailing := false))
    ensures var r := RunCalls(sw, Init(kind, junk), 0, [], calls);
            Safe(r.p)
            && forall data: Bytes | r.p.errno == Ok ::
                 !FeedAll(sw, Begin(r.p, r.nread, r.out), data).Aborted?
    decreases |calls|
  {
    hide Runs, Execute, FeedAll;
    var r := RunCalls(sw, Init(kind, junk), 0, [], calls);
    assert Safe(r.p) by {
      if calls != [] {
        EveryRunIsSafe(sw, settings, kind, junk, calls[..|calls| - 1]);
        var q := RunCalls(sw, Init(kind, junk), 0, [], calls[..|calls| - 1]);
        CallKeepsInv(sw, settings, q.p, q.nread, q.out, calls[|calls| - 1]);
      }
    }
    forall data: Bytes | r.p.errno == Ok
      ensures !FeedAll(sw, Begin(r.p, r.nread, r.out), data).Aborted?
    {
      CallKeepsInv(sw, settings, r.p, r.nread, r.out, data);
    }
  }
}
