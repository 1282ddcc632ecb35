/** The source's `switch` is disciplined: its marks, byte counts and jumps obey HttpCuts.Tidy. */
module HttpDiscipline {
  import opened HttpTypes
  import opened HttpSwitch
  import opened HttpMachine
  import opened HttpCuts

  /** What has to be shown of a visit for one live mark. */
  predicate Proper(p: Parser, live: Option<Kind>, o: Outcome)
  {
    FieldsTidy(p, o) && (Goes(o) ==> MarksTidy(p.state, live, o))
  }

  /** A visit that only changes the state. */
  predicate Moves(o: Outcome, s: State)
  {
    o == Outcome(o.p, s, Advance)
  }

  predicate Errs(o: Outcome)
  {
    o == Outcome(o.p, o.to, o.next, o.errno) && !Goes(o)
    && o.errno != Ok && o.errno != HeaderOverflow
  }

  lemma ProperPreStart(p: Parser, ch: Byte)
    requires p.state.PreStartReqOrRes? || p.state.PreStartRes? || p.state.PreStartReq?
    ensures Proper(p, None, SwitchStart(p, ch))
  {
    hide StartMethod, SwitchMethod;
  }

  lemma ProperStart(p: Parser, ch: Byte)
    requires p.state.StartReqOrRes? || p.state.ResOrRespH? || p.state.StartRes?
    ensures Proper(p, None, SwitchStart(p, ch))
  {
    hide StartMethod, SwitchMethod;
  }

  lemma ProperMethod(p: Parser, ch: Byte)
    ensures p.state.StartReq? ==> Proper(p, None, StartMethod(ClearMessage(p), ch))
    ensures p.state.ReqMethod? ==> Proper(p, None, SwitchMethod(p, ch))
  {
    hide IsAlpha, FirstGuess, Matcher, Reguess, MethodName;
  }

  lemma ProperVersionNumber(p: Parser, ch: Byte)
    requires p.state.ResH? || p.state.ResHT? || p.state.ResHTT? || p.state.ResHTTP? || p.state.ResFirstHttpMajor?
             || p.state.ResHttpMajor? || p.state.ResFirstHttpMinor? || p.state.ResHttpMinor?
    ensures Proper(p, None, SwitchResponse(p, ch))
  {
    hide IsNum, Digit, Accumulate;
  }

  lemma ProperStatus(p: Parser, live: Option<Kind>, ch: Byte)
    requires p.state.ResFirstStatusCode? || p.state.ResStatusCode? || p.state.ResStatus? || p.state.ResLineAlmostDone?
    requires Legit(p.state, live)
    ensures Proper(p, live, SwitchResponse(p, ch))
  {
    hide IsNum, Digit, Accumulate;
  }

  lemma UrlMoves(s: State, ch: Byte)
    requires InUrl(s)
    ensures var m := MoveInUrl(s, ch);
            && (m.To? || m.Jump? ==> InUrl(m.s))
            && (m.Jump? ==> Rank(m.s) < Rank(s))
            && (m.LineEnds? ==> Rank(HeadersAlmostDone) < Rank(s))
            && (m.Bad? ==> m.errno != Ok && m.errno != HeaderOverflow)
  {
    hide IsUrlChar, IsAlpha, IsNum, IsHex, IsHostChar, IsAlphaNum;
  }

  lemma UrlStates(s: State)
    requires InUrl(s)
    ensures Legit(s, Some(Url)) && ParsingHeader(s) && !InBody(s) && !s.ResStatus? && !s.HeaderValue?
  {
  }

  lemma ProperBeforeUrl(p: Parser, ch: Byte)
    requires p.state.ReqSpacesBeforeUrl?
    ensures Proper(p, None, SwitchBeforeUrl(p, ch))
  {
    hide IsAlpha;
  }

  lemma ProperInUrl(p: Parser, ch: Byte)
    requires InUrl(p.state)
    ensures Proper(p, Some(Url), SwitchUrl(p, ch))
  {
    assert !InUrl(ReqSpacesBeforeUrl);
    assert Legit(ReqHttpStart, None) && Legit(HeadersAlmostDone, None);
    hide MoveInUrl, Rank, InUrl, Legit, InBody, ParsingHeader;
    var m := MoveInUrl(p.state, ch);
    UrlMoves(p.state, ch);
    UrlStates(p.state);
    if m.To? || m.Jump? {
      UrlStates(m.s);
    }
  }

  lemma ProperVersion(p: Parser, live: Option<Kind>, ch: Byte)
    requires RegionOf(p.state).AtVersion? && Legit(p.state, live)
    ensures Proper(p, live, SwitchVersion(p, ch))
  {
    hide SwitchVersion;
    VersionShape(p, ch);
  }

  lemma ProperToken(p: Parser, ch: Byte)
    requires p.state.HeaderField? && IsToken(ch)
    ensures Proper(p, Some(Field), SwitchName(p, ch))
  {
    hide IsToken, MatchName, TokenLower;
  }

  lemma ProperColon(p: Parser, ch: Byte)
    requires p.state.HeaderField? && !IsToken(ch)
    ensures Proper(p, Some(Field), SwitchName(p, ch))
  {
    hide IsToken;
  }

  lemma ProperName(p: Parser, ch: Byte)
    requires p.state.HeaderField?
    ensures Proper(p, Some(Field), SwitchName(p, ch))
  {
    hide Proper, SwitchName, IsToken;
    if IsToken(ch) {
      ProperToken(p, ch);
    } else {
      ProperColon(p, ch);
    }
  }

  lemma ProperValueStart(p: Parser, ch: Byte)
    requires p.state.HeaderValueStart?
    ensures Proper(p, None, SwitchValueStart(p, ch))
  {
    hide IsNum, Digit, Lower;
  }

  lemma ValueShapes(p: Parser, ch: Byte)
    requires p.state.HeaderValue?
    ensures var o := SwitchValue(p, ch);
            Moves(o, HeaderValue) || Errs(o)
            || (o == Outcome(p, HeaderAlmostDone, o.next, flush := FlushBefore(Value))
                && (o.next.Advance? || o.next.Again?))
  {
    hide IsNum, Digit, IsHeaderChar, MatchChunked;
  }

  lemma ProperValue(p: Parser, live: Option<Kind>, ch: Byte)
    requires p.state.HeaderValue? && (live.None? || live == Some(Value))
    ensures Proper(p, live, SwitchValue(p, ch))
  {
    hide SwitchValue;
    ValueShapes(p, ch);
  }

  lemma ProperHeader(p: Parser, live: Option<Kind>, ch: Byte)
    requires RegionOf(p.state).AtHeader? && Legit(p.state, live)
    ensures Proper(p, live, SwitchHeader(p, ch))
  {
    hide SwitchName, SwitchValueStart, SwitchValue, IsToken, TokenLower;
    match p.state
    case HeaderField => ProperName(p, ch);
    case HeaderValueStart => ProperValueStart(p, ch);
    case HeaderValue => ProperValue(p, live, ch);
    case _ =>
  }

  lemma ProperHeadersDone(p: Parser)
    requires p.state.HeadersDone?
    ensures Proper(p, None, SwitchHeadersDone(p))
  {
  }

  lemma ProperSized(settings: Settings, p: Parser, live: Option<Kind>, ch: Byte)
    requires p.state.BodyIdentity? && (live.None? || live == Some(Body))
    ensures Proper(p, live, SwitchBody(settings, p, ch))
  {
    hide SwitchHeadersDone;
  }

  lemma ProperUnsized(settings: Settings, p: Parser, live: Option<Kind>, ch: Byte)
    requires p.state.BodyIdentityEof? && (live.None? || live == Some(Body))
    ensures Proper(p, live, SwitchBody(settings, p, ch))
  {
    hide SwitchHeadersDone;
  }

  lemma ProperBody(settings: Settings, p: Parser, live: Option<Kind>, ch: Byte)
    requires p.state.BodyIdentity? || p.state.BodyIdentityEof?
    requires live.None? || live == Some(Body)
    ensures Proper(p, live, SwitchBody(settings, p, ch))
  {
    hide Proper, SwitchBody;
    if p.state.BodyIdentity? {
      ProperSized(settings, p, live, ch);
    } else {
      ProperUnsized(settings, p, live, ch);
    }
  }

  lemma ProperDone(settings: Settings, p: Parser, ch: Byte)
    requires p.state.HeadersAlmostDone? || p.state.MessageDone?
    ensures Proper(p, None, SwitchBody(settings, p, ch))
  {
    hide SwitchHeadersDone;
  }

  lemma ProperChunk(p: Parser, live: Option<Kind>, ch: Byte)
    requires RegionOf(p.state).AtChunk? && Legit(p.state, live)
    ensures Proper(p, live, SwitchChunk(p, ch))
  {
    hide Unhex;
  }

  lemma ProperLine(p: Parser, live: Option<Kind>, ch: Byte)
    requires Legit(p.state, live)
    ensures RegionOf(p.state).AtStart? ==> Proper(p, live, SwitchStart(p, ch))
    ensures RegionOf(p.state).AtResponse? ==> Proper(p, live, SwitchResponse(p, ch))
  {
    hide Proper, StartMethod, SwitchMethod, SwitchResponse;
    match p.state
    case PreStartReqOrRes | PreStartRes | PreStartReq => ProperPreStart(p, ch);
    case StartReqOrRes | ResOrRespH | StartRes => ProperStart(p, ch);
    case StartReq | ReqMethod => ProperMethod(p, ch);
    case ResFirstStatusCode | ResStatusCode | ResStatus | ResLineAlmostDone => ProperStatus(p, live, ch);
    case _ =>
      if RegionOf(p.state).AtResponse? {
        ProperVersionNumber(p, ch);
      }
  }

  lemma ProperEnd(settings: Settings, p: Parser, live: Option<Kind>, ch: Byte)
    requires Legit(p.state, live) && RegionOf(p.state).AtBody?
    ensures Proper(p, live, SwitchBody(settings, p, ch))
  {
    hide Proper, SwitchHeadersDone;
    match p.state
    case HeadersDone => ProperHeadersDone(p);
    case HeadersAlmostDone | MessageDone => ProperDone(settings, p, ch);
    case BodyIdentity | BodyIdentityEof => ProperBody(settings, p, live, ch);
  }

  lemma ProperVisit(settings: Settings, p: Parser, live: Option<Kind>, ch: Byte)
    requires Legit(p.state, live)
    ensures Proper(p, live, Switch(settings, p, ch))
  {
    hide Proper, SwitchBeforeUrl, SwitchStart, SwitchResponse, MoveInUrl, SwitchVersion, SwitchHeader,
         SwitchBody, SwitchChunk;
    match RegionOf(p.state)
    case AtStart | AtResponse => ProperLine(p, live, ch);
    case AtUrl =>
      if p.state.ReqSpacesBeforeUrl? {
        ProperBeforeUrl(p, ch);
      } else {
        ProperInUrl(p, ch);
      }
    case AtVersion => ProperVersion(p, live, ch);
    case AtHeader => ProperHeader(p, live, ch);
    case AtBody => ProperEnd(settings, p, live, ch);
    case AtChunk => ProperChunk(p, live, ch);
    case Nowhere => ProperNowhere(p, live);
  }

  lemma ProperNowhere(p: Parser, live: Option<Kind>)
    ensures Proper(p, live, Aborts(p))
  {
  }

  /** Every visit that the source makes, from any state and with any byte, is tidy. */
  lemma SwitchIsDisciplined(sw: Switcher, settings: Settings)
    requires Runs(sw, settings)
    ensures Disciplined(sw)
  {
    forall p: Parser, ch: Byte
      ensures Tidy(p, sw(p, ch))
    {
      hide Switch, FieldsTidy, MarksTidy, Legit;
      var o := Switch(settings, p, ch);
      assert sw(p, ch) == o;
      LegitResume(p.state);
      ProperVisit(settings, p, ResumeMark(p.state), ch);
      forall live | Legit(p.state, live)
        ensures Proper(p, live, o)
      {
        ProperVisit(settings, p, live, ch);
      }
    }
  }

  lemma LegitResume(s: State)
    ensures Legit(s, ResumeMark(s))
  {
  }
}
