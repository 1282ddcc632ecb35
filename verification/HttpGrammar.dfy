/**
 * The order of callbacks.  Until the end of the input is announced, everything the callbacks are told is the
 * beginning of a list of well-formed messages: a start, a request target or a reason, header names each with
 * its value, the end of the headers, then no body, or a body of exactly the announced length, or chunks of
 * exactly the announced sizes with trailers only in the last, and one end of message.
 */
module HttpGrammar {
  import opened HttpTypes
  import opened HttpSwitch
  import opened HttpMachine
  import opened HttpCuts
  import HttpDiscipline
  import opened HttpInvariant

  // ----- the grammar -----

  datatype Phase =
    | Idle
    | Begun
    | Target
    | Reasoned
    | Name(trailer: bool)
    | Val(trailer: bool)
    | Framed(contentLength: int, chunked: bool, upgrade: bool, skip: bool)
    | Identity(left: int)
    | UntilEof
    | Between
    | InChunk(left: int)
    | Trailers
    | Ending
    | Broken

  /** Headers may end, or another one may begin. */
  predicate AfterHeader(ph: Phase) { ph.Begun? || ph.Target? || ph.Reasoned? || ph == Val(false) }

  predicate AfterTrailer(ph: Phase) { ph.Trailers? || ph == Val(true) }

  predicate NoBody(ph: Phase)
    requires ph.Framed?
  {
    ph.skip || ph.upgrade || (!ph.chunked && ph.contentLength <= 0)
  }

  predicate MayChunk(ph: Phase) { ph.Between? || (ph.Framed? && ph.chunked && !ph.skip) }

  function NextNote(ph: Phase, e: Event): Phase
  {
    match e
    case MessageBegin => if ph.Idle? then Begun else Broken
    case HeadersComplete(n, ch, up, skip) => if AfterHeader(ph) then Framed(n, ch, up, skip) else Broken
    case ChunkHeader(k) => if !MayChunk(ph) || k < 0 then Broken else if k == 0 then Trailers else InChunk(k)
    case ChunkComplete => if ph == InChunk(0) then Between else if AfterTrailer(ph) then Ending else Broken
    case MessageComplete =>
      if ph == Identity(0) || ph.Ending? || (ph.Framed? && NoBody(ph)) then Idle else Broken
  }

  function NextBody(ph: Phase, n: nat): Phase
  {
    match ph
    case Framed(length, ch, up, skip) =>
      if ch || skip || 0 <= length < n then Broken else if length < 0 then UntilEof else Identity(length - n)
    case Identity(left) => if n <= left then Identity(left - n) else Broken
    case InChunk(left) => if n <= left then InChunk(left - n) else Broken
    case UntilEof => UntilEof
    case _ => Broken
  }

  function NextText(ph: Phase, k: Kind, n: nat): Phase
  {
    match k
    case Url => if ph.Begun? || ph.Target? then Target else Broken
    case Reason => if ph.Begun? || ph.Reasoned? then Reasoned else Broken
    case Field =>
      if AfterHeader(ph) || ph == Name(false) then Name(false)
      else if AfterTrailer(ph) || ph == Name(true) then Name(true)
      else Broken
    case Value => if ph.Name? || ph.Val? then Val(ph.trailer) else Broken
    case Body => NextBody(ph, n)
  }

  function Next(ph: Phase, item: Item): Phase
  {
    if item.Note? then NextNote(ph, item.event) else NextText(ph, item.kind, |item.bytes|)
  }

  function PhaseOf(t: Trace): Phase
  {
    if t == [] then Idle else Next(PhaseOf(t[..|t| - 1]), t[|t| - 1])
  }

  /** A trace that some list of messages begins with. */
  predicate WellFormed(t: Trace) { !PhaseOf(t).Broken? }

  // ----- joining texts does not change the phase -----

  lemma Additive(ph: Phase, k: Kind, m: nat, n: nat)
    ensures NextText(NextText(ph, k, m), k, n) == NextText(ph, k, m + n)
  {
  }

  lemma PutPhase(t: Trace, k: Kind, bs: Bytes)
    ensures PhaseOf(Put(t, k, bs)) == NextText(PhaseOf(t), k, |bs|)
  {
    var u := Put(t, k, bs);
    if |t| > 0 && t[|t| - 1].Text? && t[|t| - 1].kind == k {
      assert u[..|u| - 1] == t[..|t| - 1];
      Additive(PhaseOf(t[..|t| - 1]), k, |t[|t| - 1].bytes|, |bs|);
    } else {
      assert u[..|u| - 1] == t;
    }
  }

  lemma NotePhase(t: Trace, e: Event)
    ensures PhaseOf(t + [Note(e)]) == NextNote(PhaseOf(t), e)
  {
    assert (t + [Note(e)])[..|t|] == t;
  }

  // ----- the phase after one visit -----

  /** Delivered and held text together. */
  function At(c: Config): Phase { PhaseOf(Total(c)) }

  function MarkPhase(ph: Phase, o: Outcome): Phase
  {
    if o.mark.Some? then NextText(ph, o.mark.value, 0) else ph
  }

  function FlushPhase(ph: Phase, o: Outcome): Phase
  {
    if o.flush.FlushThrough? then NextText(ph, o.flush.kind, 1) else ph
  }

  function TellPhase(ph: Phase, o: Outcome): Phase
  {
    var q := if o.space then NextText(ph, Value, 1) else ph;
    if o.note.Some? then NextNote(q, o.note.value) else q
  }

  function VisitPhase(ph: Phase, o: Outcome): Phase { TellPhase(FlushPhase(MarkPhase(ph, o), o), o) }

  lemma MarkAt(c: Config, o: Outcome)
    requires c.live.None? ==> c.held == []
    requires o.mark.Some? ==> c.live.None? || c.live == o.mark
    ensures At(SetMark(c, o.mark)) == MarkPhase(At(c), o)
  {
    hide Put, NextText;
    if o.mark.Some? {
      PutPhase(c.out, o.mark.value, []);
      if c.live == o.mark {
        PutPhase(c.out, o.mark.value, c.held);
        Additive(PhaseOf(c.out), o.mark.value, |c.held|, 0);
      }
    }
  }

  lemma FlushAt(c: Config, o: Outcome, ch: Byte)
    requires o.flush.FlushThrough? ==> c.live == Some(o.flush.kind)
    ensures At(DropMark(c, o.flush, ch)) == FlushPhase(At(c), o)
  {
    hide Put, NextText;
    if o.flush.FlushThrough? {
      var k := o.flush.kind;
      PutPhase(c.out, k, c.held);
      PutPhase(c.out, k, c.held + [ch]);
      Additive(PhaseOf(c.out), k, |c.held|, 1);
    }
  }

  lemma TellAt(t: Trace, o: Outcome)
    ensures PhaseOf(Tell(t, o)) == TellPhase(PhaseOf(t), o)
  {
    hide Put, NextText, NextNote;
    PutPhase(t, Value, [' ']);
    if o.note.Some? {
      NotePhase(if o.space then Put(t, Value, [' ']) else t, o.note.value);
    }
  }

  lemma VisitAt(c: Config, o: Outcome, ch: Byte)
    requires Sane(c) && MarksTidy(c.p.state, c.live, o)
    requires o.flush.FlushThrough? ==> o.mark == Some(o.flush.kind)
    ensures At(Perform(c, o, ch)) == VisitPhase(At(c), o)
  {
    hide Put, Legit, NextText, NextNote, PhaseOf, InBody;
    var c1 := SetMark(c, o.mark);
    MarkAt(c, o);
    FlushAt(c1, o, ch);
    var c2 := DropMark(c1, o.flush, ch);
    TellAt(c2.out, o);
    LiveIs(c, o, ch);
  }

  lemma AbsorbAt(c: Config, ch: Byte)
    ensures At(Absorb(c, ch)) == if c.live.Some? then NextText(At(c), c.live.value, 1) else At(c)
  {
    hide Put, NextText;
    if c.live.Some? {
      PutPhase(c.out, c.live.value, c.held);
      PutPhase(c.out, c.live.value, c.held + [ch]);
      Additive(PhaseOf(c.out), c.live.value, |c.held|, 1);
    }
  }

  // ----- which phase goes with which state -----

  datatype Stage =
    | Waiting | Clearing | Opening | Targeting | AtReason | LineDone | Naming | BeforeValue | Valuing
    | HeadersOver | Sizing | Chunking | ChunkOver | Bodying | Draining | Finishing | NoStage

  function StageOf(s: State): Stage
  {
    match s
    case PreStartReqOrRes | PreStartRes | PreStartReq => Waiting
    case StartReqOrRes | StartRes | StartReq => Clearing
    case ResOrRespH | ReqMethod | ReqSpacesBeforeUrl | ResH | ResHT | ResHTT | ResHTTP | ResFirstHttpMajor
       | ResHttpMajor | ResFirstHttpMinor | ResHttpMinor | ResFirstStatusCode | ResStatusCode => Opening
    case ReqSchema | ReqSchemaSlash | ReqSchemaSlashSlash | ReqHostStart | ReqHost | ReqHostIpv6 | ReqHostDone
       | ReqPort | ReqPath | ReqQueryStringStart | ReqQueryString | ReqFragmentStart | ReqFragment
       | ReqHttpStart | ReqHttpH | ReqHttpHT | ReqHttpHTT | ReqHttpHTTP | ReqFirstHttpMajor | ReqHttpMajor
       | ReqFirstHttpMinor | ReqHttpMinor | ReqLineAlmostDone => Targeting
    case ResStatus | ResLineAlmostDone => AtReason
    case HeaderFieldStart | HeadersAlmostDone => LineDone
    case HeaderField => Naming
    case HeaderValueStart => BeforeValue
    case HeaderValue | HeaderAlmostDone | HeaderValueLws => Valuing
    case HeadersDone => HeadersOver
    case ChunkSizeStart | ChunkSize | ChunkParameters | ChunkSizeAlmostDone => Sizing
    case ChunkData | ChunkDataAlmostDone => Chunking
    case ChunkDataDone => ChunkOver
    case BodyIdentity => Bodying
    case BodyIdentityEof => Draining
    case MessageDone => Finishing
    case Dead | ResStatusStart | ReqServerStart | ReqServer | ReqServerWithAt => NoStage
  }

  /** The phases a parser can be in at a stage. */
  predicate Fits(g: Stage, p: Parser, ph: Phase)
  {
    match g
    case Waiting => ph.Idle?
    case Clearing => ph.Begun?
    case Opening => ph.Begun? && !p.trailing && !p.skipBody
    case Targeting => ph.Target? && !p.trailing && !p.skipBody
    case AtReason => (ph.Begun? || ph.Reasoned?) && !p.trailing && !p.skipBody
    case LineDone => !p.skipBody && if p.trailing then AfterTrailer(ph) else AfterHeader(ph)
    case Naming => !p.skipBody && ph == Name(p.trailing)
    case BeforeValue => !p.skipBody && (ph == Name(p.trailing) || ph == Val(p.trailing))
    case Valuing => !p.skipBody && ph == Val(p.trailing)
    case HeadersOver => ph == Framed(p.contentLength, p.chunked, p.upgrade, p.skipBody) && !p.trailing
    case Sizing => MayChunk(ph) && !p.trailing && !p.skipBody
    case Chunking => ph == InChunk(p.contentLength) && !p.trailing && !p.skipBody
    case ChunkOver => ph == InChunk(0) && !p.trailing && !p.skipBody
    case Bodying =>
      ph == Identity(p.contentLength)
      || (ph.Framed? && ph.contentLength == p.contentLength && !ph.chunked && !ph.skip)
    case Draining => ph.UntilEof? || (ph.Framed? && ph.contentLength < 0 && !ph.chunked && !ph.skip)
    case Finishing => ph == Identity(0) || ph.Ending?
    case NoStage => false
  }

  predicate Agrees(p: Parser, ph: Phase) { Fits(StageOf(p.state), p, ph) }

  /** The phase after a visit, and after `p++` if the byte is done with. */
  function StepPhase(ph: Phase, live: Option<Kind>, o: Outcome): Phase
  {
    var q := VisitPhase(ph, o);
    var l := LiveAfter(live, o);
    if o.next.Advance? && l.Some? then NextText(q, l.value, 1) else q
  }

  predicate Ordered(ph: Phase, live: Option<Kind>, o: Outcome)
  {
    && (Goes(o) ==> Agrees(o.After(), StepPhase(ph, live, o)))
    && (o.flush.FlushThrough? ==> o.mark == Some(o.flush.kind))
  }

  // ----- the shapes of a visit -----

  /** No mark is live and nothing happens but a change of state. */
  lemma OrderedPlain(ph: Phase, o: Outcome)
    requires o == Outcome(o.p, o.to, o.next, o.errno, o.reset) && (Goes(o) ==> Agrees(o.After(), ph))
    ensures Ordered(ph, None, o)
  {
    hide Agrees, NextText, NextNote;
  }

  /** The byte stays under a live mark. */
  lemma OrderedHeld(ph: Phase, k: Kind, o: Outcome)
    requires o == Outcome(o.p, o.to, o.next, o.errno)
    requires Goes(o) ==> Agrees(o.After(), if o.next.Advance? then NextText(ph, k, 1) else ph)
    ensures Ordered(ph, Some(k), o)
  {
    hide Agrees, NextText, NextNote;
  }

  /** The byte is marked. */
  lemma OrderedMark(ph: Phase, live: Option<Kind>, k: Kind, o: Outcome)
    requires o == Outcome(o.p, o.to, o.next, mark := Some(k)) && (o.next.Advance? || o.next.Again?)
    requires Agrees(o.After(), NextText(ph, k, if o.next.Advance? then 1 else 0))
    ensures Ordered(ph, live, o)
  {
    hide Agrees, NextText, NextNote;
    Additive(ph, k, 0, 1);
  }

  /** A data callback for the bytes before this one. */
  lemma OrderedFlush(ph: Phase, live: Option<Kind>, k: Kind, o: Outcome)
    requires o == Outcome(o.p, o.to, o.next, flush := FlushBefore(k)) && Agrees(o.After(), ph)
    requires live.None? || live == Some(k)
    ensures Ordered(ph, live, o)
  {
    hide Agrees, NextText, NextNote;
  }

  /** An empty string, marked and delivered at once. */
  lemma OrderedEmpty(ph: Phase, live: Option<Kind>, k: Kind, o: Outcome)
    requires o == Outcome(o.p, o.to, o.next, mark := Some(k), flush := FlushBefore(k))
    requires Agrees(o.After(), NextText(ph, k, 0))
    ensures Ordered(ph, live, o)
  {
    hide Agrees, NextText, NextNote;
  }

  /** A notify callback. */
  lemma OrderedNote(ph: Phase, o: Outcome, e: Event)
    requires o == Outcome(o.p, o.to, o.next, Ok, o.reset, note := Some(e)) && Goes(o)
    requires Agrees(o.After(), NextNote(ph, e))
    ensures Ordered(ph, None, o)
  {
    hide Agrees, NextText, NextNote;
  }

  /** The synthetic space. */
  lemma OrderedSpace(ph: Phase, o: Outcome)
    requires o == Outcome(o.p, o.to, o.next, space := true) && Agrees(o.After(), NextText(ph, Value, 1))
    ensures Ordered(ph, None, o)
  {
    hide Agrees, NextText, NextNote;
  }

  /** The last byte of a body of known length. */
  lemma OrderedThrough(ph: Phase, live: Option<Kind>, o: Outcome)
    requires o == Outcome(o.p, o.to, Again, mark := Some(Body), flush := FlushThrough(Body))
    requires Agrees(o.After(), NextText(ph, Body, 1))
    ensures Ordered(ph, live, o)
  {
    hide Agrees, NextText, NextNote;
    Additive(ph, Body, 0, 1);
  }

  // ----- every visit -----

  lemma OrderedStart(p: Parser, ph: Phase, ch: Byte)
    requires Agrees(p, ph) && RegionOf(p.state).AtStart?
    ensures Ordered(ph, None, SwitchStart(p, ch))
  {
    hide IsAlpha, FirstGuess, Matcher, Reguess, MethodName, Ordered, StartMethod, SwitchMethod;
    var o := SwitchStart(p, ch);
    match p.state
    case PreStartReqOrRes | PreStartRes | PreStartReq =>
      if o.note.Some? {
        OrderedNote(ph, o, MessageBegin);
      } else {
        OrderedPlain(ph, o);
      }
    case StartReq | ReqMethod => OrderedMethod(p, ph, ch);
    case _ => OrderedPlain(ph, o);
  }

  lemma OrderedMethod(p: Parser, ph: Phase, ch: Byte)
    ensures p.state.StartReq? && ph.Begun? ==> Ordered(ph, None, StartMethod(ClearMessage(p), ch))
    ensures p.state.ReqMethod? && Agrees(p, ph) ==> Ordered(ph, None, SwitchMethod(p, ch))
  {
    hide IsAlpha, FirstGuess, Matcher, Reguess, MethodName, Ordered;
    if p.state.StartReq? && ph.Begun? {
      OrderedPlain(ph, StartMethod(ClearMessage(p), ch));
    }
    if p.state.ReqMethod? && Agrees(p, ph) {
      OrderedPlain(ph, SwitchMethod(p, ch));
    }
  }

  lemma OrderedReason(p: Parser, ph: Phase, live: Option<Kind>, ch: Byte)
    requires Agrees(p, ph) && p.state.ResStatus? && Legit(p.state, live)
    ensures Ordered(ph, live, SwitchResponse(p, ch))
  {
    hide IsNum, Digit, Accumulate, Ordered, NextNote;
    var o := SwitchResponse(p, ch);
    if ch == CR || ch == LF {
      OrderedEmpty(ph, live, Reason, o);
    } else {
      OrderedMark(ph, live, Reason, o);
    }
  }

  lemma OrderedStatus(p: Parser, ph: Phase, live: Option<Kind>, ch: Byte)
    requires Agrees(p, ph) && Legit(p.state, live)
    requires p.state.ResFirstStatusCode? || p.state.ResStatusCode? || p.state.ResLineAlmostDone?
    ensures Ordered(ph, live, SwitchResponse(p, ch))
  {
    hide IsNum, Digit, Accumulate, Ordered, NextNote, NextText;
    OrderedPlain(ph, SwitchResponse(p, ch));
  }

  lemma OrderedResponse(p: Parser, ph: Phase, live: Option<Kind>, ch: Byte)
    requires Agrees(p, ph) && RegionOf(p.state).AtResponse? && Legit(p.state, live)
    ensures Ordered(ph, live, SwitchResponse(p, ch))
  {
    hide IsNum, Digit, Accumulate, Ordered, NextNote, NextText;
    if p.state.ResStatus? {
      OrderedReason(p, ph, live, ch);
    } else if p.state.ResFirstStatusCode? || p.state.ResStatusCode? || p.state.ResLineAlmostDone? {
      OrderedStatus(p, ph, live, ch);
    } else {
      OrderedPlain(ph, SwitchResponse(p, ch));
    }
  }

  lemma UrlLive(p: Parser, ph: Phase, live: Option<Kind>)
    requires Agrees(p, ph) && RegionOf(p.state).AtUrl? && Legit(p.state, live)
    ensures if p.state.ReqSpacesBeforeUrl? then live.None? else live == Some(Url) && ph.Target?
  {
  }

  lemma OrderedUrl(p: Parser, ph: Phase, live: Option<Kind>, ch: Byte)
    requires Agrees(p, ph) && RegionOf(p.state).AtUrl? && Legit(p.state, live)
    ensures Ordered(ph, live, SwitchUrl(p, ch))
  {
    hide Ordered, IsAlpha, MoveInUrl, Legit;
    var o := SwitchUrl(p, ch);
    UrlLive(p, ph, live);
    if p.state.ReqSpacesBeforeUrl? {
      if o.mark.Some? {
        OrderedMark(ph, live, Url, o);
      } else {
        OrderedPlain(ph, o);
      }
    } else {
      TargetStays(p.state, ch);
      if o.flush.NoFlush? {
        OrderedHeld(ph, Url, o);
      } else {
        OrderedFlush(ph, live, Url, o);
      }
    }
  }

  lemma TargetStays(s: State, ch: Byte)
    requires InUrl(s)
    ensures var m := MoveInUrl(s, ch); (m.To? || m.Jump? ==> StageOf(m.s).Targeting?) && (m.Bad? ==> m.errno != Ok)
  {
    hide IsUrlChar, IsAlpha, IsNum, IsHex, IsHostChar, IsAlphaNum;
  }

  lemma OrderedVersion(p: Parser, ph: Phase, ch: Byte)
    requires Agrees(p, ph) && RegionOf(p.state).AtVersion?
    ensures Ordered(ph, None, SwitchVersion(p, ch))
  {
    hide SwitchVersion, Ordered;
    VersionShape(p, ch);
    OrderedPlain(ph, SwitchVersion(p, ch));
  }

  /** Agrees, for the states of headers. */
  lemma InHeaders(p: Parser, ph: Phase)
    ensures p.state.HeaderField? ==> (Agrees(p, ph) <==> !p.skipBody && ph == Name(p.trailing))
    ensures p.state.HeaderValueStart? ==>
              (Agrees(p, ph) <==> !p.skipBody && (ph == Name(p.trailing) || ph == Val(p.trailing)))
    ensures p.state.HeaderValue? || p.state.HeaderAlmostDone? || p.state.HeaderValueLws? ==>
              (Agrees(p, ph) <==> !p.skipBody && ph == Val(p.trailing))
    ensures p.state.HeaderFieldStart? || p.state.HeadersAlmostDone? ==>
              (Agrees(p, ph) <==> !p.skipBody && if p.trailing then AfterTrailer(ph) else AfterHeader(ph))
  {
  }

  /** Agrees, for the states of bodies. */
  lemma InBodies(p: Parser, ph: Phase)
    ensures p.state.HeadersDone? ==>
              (Agrees(p, ph) <==> ph == Framed(p.contentLength, p.chunked, p.upgrade, p.skipBody) && !p.trailing)
    ensures p.state.BodyIdentity? ==> (Agrees(p, ph) <==> Fits(Bodying, p, ph))
    ensures p.state.BodyIdentityEof? ==> (Agrees(p, ph) <==> Fits(Draining, p, ph))
    ensures p.state.MessageDone? ==> (Agrees(p, ph) <==> ph == Identity(0) || ph.Ending?)
    ensures p.state.PreStartReq? || p.state.PreStartRes? ==> (Agrees(p, ph) <==> ph.Idle?)
  {
  }

  /** Agrees, for the states of chunks. */
  lemma InChunks(p: Parser, ph: Phase)
    ensures p.state.ChunkSizeStart? || p.state.ChunkSize? || p.state.ChunkParameters?
            || p.state.ChunkSizeAlmostDone? ==>
              (Agrees(p, ph) <==> MayChunk(ph) && !p.trailing && !p.skipBody)
    ensures p.state.ChunkData? || p.state.ChunkDataAlmostDone? ==>
              (Agrees(p, ph) <==> ph == InChunk(p.contentLength) && !p.trailing && !p.skipBody)
    ensures p.state.ChunkDataDone? ==> (Agrees(p, ph) <==> ph == InChunk(0) && !p.trailing && !p.skipBody)
  {
  }

  lemma OrderedName(p: Parser, ph: Phase, ch: Byte)
    requires Agrees(p, ph) && p.state.HeaderField?
    ensures Ordered(ph, Some(Field), SwitchName(p, ch))
  {
    hide IsToken, MatchName, Ordered, Agrees;
    var o := SwitchName(p, ch);
    InHeaders(p, ph);
    InHeaders(o.After(), ph);
    if IsToken(ch) {
      OrderedHeld(ph, Field, o);
    } else if ch == ':' {
      OrderedFlush(ph, Some(Field), Field, o);
    } else {
      OrderedHeld(ph, Field, o);
    }
  }

  lemma OrderedValueStart(p: Parser, ph: Phase, ch: Byte)
    requires Agrees(p, ph) && p.state.HeaderValueStart?
    ensures Ordered(ph, None, SwitchValueStart(p, ch))
  {
    hide IsNum, Digit, Lower, Ordered, Agrees;
    var o := SwitchValueStart(p, ch);
    InHeaders(p, ph);
    if !o.flush.NoFlush? {
      InHeaders(o.After(), Val(p.trailing));
      OrderedEmpty(ph, None, Value, o);
    } else if o.mark.Some? {
      InHeaders(o.After(), Val(p.trailing));
      OrderedMark(ph, None, Value, o);
    } else {
      InHeaders(o.After(), ph);
      OrderedPlain(ph, o);
    }
  }

  lemma OrderedValue(p: Parser, ph: Phase, live: Option<Kind>, ch: Byte)
    requires Agrees(p, ph) && p.state.HeaderValue? && (live.None? || live == Some(Value))
    ensures Ordered(ph, live, SwitchValue(p, ch))
  {
    hide Ordered, Agrees, SwitchValue;
    HttpDiscipline.ValueShapes(p, ch);
    var o := SwitchValue(p, ch);
    InHeaders(p, ph);
    InHeaders(o.After(), ph);
    if !o.flush.NoFlush? {
      OrderedFlush(ph, live, Value, o);
    } else if live.None? {
      OrderedPlain(ph, o);
    } else {
      OrderedHeld(ph, Value, o);
    }
  }

  lemma OrderedHeader(p: Parser, ph: Phase, ch: Byte)
    requires Agrees(p, ph) && (p.state.HeaderFieldStart? || p.state.HeaderAlmostDone? || p.state.HeaderValueLws?)
    ensures Ordered(ph, None, SwitchHeader(p, ch))
  {
    hide IsToken, TokenLower, SwitchName, SwitchValue, SwitchValueStart, Ordered, Agrees;
    var o := SwitchHeader(p, ch);
    InHeaders(p, ph);
    if o.mark.Some? {
      InHeaders(o.After(), Name(p.trailing));
      OrderedMark(ph, None, Field, o);
    } else if o.space {
      InHeaders(o.After(), ph);
      OrderedSpace(ph, o);
    } else {
      InHeaders(o.After(), ph);
      OrderedPlain(ph, o);
    }
  }

  lemma OrderedHeadersDone(p: Parser, ph: Phase)
    requires Agrees(p, ph) && p.state.HeadersDone?
    ensures Ordered(ph, None, SwitchHeadersDone(p))
  {
    hide Ordered, Agrees;
    var o := SwitchHeadersDone(p);
    InBodies(p, ph);
    if o.note.Some? {
      InBodies(o.After(), Idle);
      OrderedNote(ph, o, MessageComplete);
    } else {
      InBodies(o.After(), ph);
      InChunks(o.After(), ph);
      OrderedPlain(ph, o);
    }
  }

  /** One byte of a body of known length. */
  lemma IdentityPhase(p: Parser, q: Parser, ph: Phase)
    requires Agrees(p, ph) && p.state.BodyIdentity? && p.contentLength > 0 && q.contentLength == p.contentLength - 1
    ensures q.state.BodyIdentity? || (q.state.MessageDone? && q.contentLength == 0) ==> Agrees(q, NextText(ph, Body, 1))
  {
    InBodies(p, ph);
    InBodies(q, NextText(ph, Body, 1));
    hide Agrees;
  }

  lemma OrderedIdentity(settings: Settings, p: Parser, ph: Phase, live: Option<Kind>, ch: Byte)
    requires Agrees(p, ph) && p.state.BodyIdentity? && p.contentLength > 0
    ensures Ordered(ph, live, SwitchBody(settings, p, ch))
  {
    hide Ordered, Agrees, SwitchHeadersDone, NextText, NextNote, NewMessage;
    if p.contentLength == 1 {
      var o := SwitchBody(settings, p, ch);
      IdentityPhase(p, o.After(), ph);
      OrderedThrough(ph, live, o);
    } else {
      var o := SwitchBody(settings, p, ch);
      IdentityPhase(p, o.After(), ph);
      OrderedMark(ph, live, Body, o);
    }
  }

  lemma OrderedDone(settings: Settings, p: Parser, ph: Phase, ch: Byte)
    requires Agrees(p, ph) && p.state.MessageDone?
    ensures Ordered(ph, None, SwitchBody(settings, p, ch))
  {
    hide Ordered, Agrees, SwitchHeadersDone, Fits, NextText;
    var o := SwitchBody(settings, p, ch);
    InBodies(p, ph);
    InBodies(o.After(), Idle);
    OrderedNote(ph, o, MessageComplete);
  }

  lemma OrderedDrain(settings: Settings, p: Parser, ph: Phase, live: Option<Kind>, ch: Byte)
    requires Agrees(p, ph) && p.state.BodyIdentityEof?
    ensures Ordered(ph, live, SwitchBody(settings, p, ch))
  {
    hide Ordered, Agrees, SwitchHeadersDone, NextNote;
    var o := SwitchBody(settings, p, ch);
    InBodies(p, ph);
    InBodies(o.After(), UntilEof);
    OrderedMark(ph, live, Body, o);
  }

  lemma OrderedEnd(settings: Settings, p: Parser, ph: Phase, live: Option<Kind>, ch: Byte)
    requires Agrees(p, ph) && ParserInv(p) && RegionOf(p.state).AtBody? && Legit(p.state, live)
    ensures Ordered(ph, live, SwitchBody(settings, p, ch))
  {
    assert p.state.BodyIdentity? ==> p.contentLength > 0 by { hide Legit; }
    assert !InBody(p.state) ==> live.None? by { hide ParserInv; }
    hide Ordered, Agrees, SwitchHeadersDone, ParserInv, Legit;
    match p.state
    case HeadersDone => OrderedHeadersDone(p, ph);
    case BodyIdentity => OrderedIdentity(settings, p, ph, live, ch);
    case HeadersAlmostDone => OrderedEndOfHeaders(settings, p, ph, ch);
    case MessageDone => OrderedDone(settings, p, ph, ch);
    case _ => OrderedDrain(settings, p, ph, live, ch);
  }

  lemma OrderedEndOfHeaders(settings: Settings, p: Parser, ph: Phase, ch: Byte)
    requires Agrees(p, ph) && p.state.HeadersAlmostDone?
    ensures Ordered(ph, None, SwitchBody(settings, p, ch))
  {
    hide Ordered, Agrees, SwitchHeadersDone;
    var o := SwitchBody(settings, p, ch);
    InHeaders(p, ph);
    if o.note.Some? {
      InBodies(o.After(), NextNote(ph, o.note.value));
      OrderedNote(ph, o, o.note.value);
    } else {
      OrderedPlain(ph, o);
    }
  }

  lemma OrderedSize(p: Parser, ph: Phase, ch: Byte)
    requires Agrees(p, ph) && p.chunked
    requires p.state.ChunkSizeStart? || p.state.ChunkSize? || p.state.ChunkParameters?
             || (p.state.ChunkSizeAlmostDone? && p.contentLength >= 0)
    ensures Ordered(ph, None, SwitchChunk(p, ch))
  {
    hide Ordered, Unhex, Agrees;
    var o := SwitchChunk(p, ch);
    InChunks(p, ph);
    if p.state.ChunkSizeAlmostDone? {
      InChunks(o.After(), InChunk(p.contentLength));
      InHeaders(o.After(), Trailers);
      OrderedNote(ph, o, ChunkHeader(p.contentLength));
    } else {
      InChunks(o.After(), ph);
      OrderedPlain(ph, o);
    }
  }

  lemma OrderedData(p: Parser, ph: Phase, live: Option<Kind>, ch: Byte)
    requires Agrees(p, ph) && p.chunked && (live.None? || live == Some(Body))
    requires (p.state.ChunkData? && p.contentLength > 0) || (p.state.ChunkDataAlmostDone? && p.contentLength == 0)
             || (p.state.ChunkDataDone? && live.None?)
    ensures Ordered(ph, live, SwitchChunk(p, ch))
  {
    hide Ordered, Unhex, Agrees;
    var o := SwitchChunk(p, ch);
    InChunks(p, ph);
    if p.state.ChunkData? {
      InChunks(o.After(), InChunk(p.contentLength - 1));
      OrderedMark(ph, live, Body, o);
    } else if p.state.ChunkDataAlmostDone? {
      InChunks(o.After(), ph);
      OrderedFlush(ph, live, Body, o);
    } else {
      InChunks(o.After(), Between);
      OrderedNote(ph, o, ChunkComplete);
    }
  }

  lemma OrderedChunk(p: Parser, ph: Phase, live: Option<Kind>, ch: Byte)
    requires Agrees(p, ph) && ParserInv(p) && RegionOf(p.state).AtChunk? && Legit(p.state, live)
    ensures Ordered(ph, live, SwitchChunk(p, ch))
  {
    assert if InBody(p.state) then live.None? || live == Some(Body) else live.None? by { hide ParserInv; }
    hide Ordered, Agrees, Legit, SwitchChunk;
    if p.state.ChunkData? || p.state.ChunkDataAlmostDone? || p.state.ChunkDataDone? {
      OrderedData(p, ph, live, ch);
    } else {
      OrderedSize(p, ph, ch);
    }
  }

  /** Every visit keeps the callbacks in order. */
  lemma Somewhere(p: Parser, live: Option<Kind>)
    requires ParserInv(p) && Legit(p.state, live)
    ensures !RegionOf(p.state).Nowhere? && (ResumeMark(p.state).None? && !InBody(p.state) ==> live.None?)
  {
  }

  lemma OrderedVisit(sw: Switcher, settings: Settings, p: Parser, ph: Phase, live: Option<Kind>, ch: Byte)
    requires Runs(sw, settings) && Agrees(p, ph) && ParserInv(p) && Legit(p.state, live)
    ensures Ordered(ph, live, sw(p, ch))
  {
    hide Runs, Ordered, ParserInv, Agrees, Legit, SwitchStart, SwitchResponse, SwitchUrl, SwitchVersion, SwitchHeader,
         SwitchBody, SwitchChunk;
    Somewhere(p, live);
    match RegionOf(p.state)
    case AtStart => VisitsStart(sw, settings, p, ch); OrderedStart(p, ph, ch);
    case AtResponse => VisitsResponse(sw, settings, p, ch); OrderedResponse(p, ph, live, ch);
    case AtUrl => VisitsUrl(sw, settings, p, ch); OrderedUrl(p, ph, live, ch);
    case AtVersion => VisitsVersion(sw, settings, p, ch); OrderedVersion(p, ph, ch);
    case AtHeader => VisitsHeader(sw, settings, p, ch); OrderedHeaders(p, ph, live, ch);
    case AtBody => VisitsBody(sw, settings, p, ch); OrderedEnd(settings, p, ph, live, ch);
    case AtChunk => VisitsChunk(sw, settings, p, ch); OrderedChunk(p, ph, live, ch);
  }

  lemma OrderedHeaders(p: Parser, ph: Phase, live: Option<Kind>, ch: Byte)
    requires Agrees(p, ph) && RegionOf(p.state).AtHeader? && Legit(p.state, live)
    ensures Ordered(ph, live, SwitchHeader(p, ch))
  {
    hide Ordered, Agrees, SwitchName, SwitchValueStart, SwitchValue;
    match p.state
    case HeaderField => OrderedName(p, ph, ch);
    case HeaderValueStart => OrderedValueStart(p, ph, ch);
    case HeaderValue => OrderedValue(p, ph, live, ch);
    case _ => OrderedHeader(p, ph, ch);
  }

  // ----- whole runs -----

  lemma NotBroken(p: Parser, ph: Phase)
    requires Agrees(p, ph)
    ensures !ph.Broken?
  {
  }

  lemma OutWellFormed(c: Config)
    requires !At(c).Broken?
    ensures WellFormed(c.out)
  {
    hide Put;
    if c.live.Some? {
      PutPhase(c.out, c.live.value, c.held);
    }
  }

  lemma StepAt(c: Config, o: Outcome, ch: Byte)
    requires Sane(c) && Goes(o) && MarksTidy(c.p.state, c.live, o) && Ordered(At(c), c.live, o)
    ensures var d := Perform(c, o, ch);
            Agrees(o.After(), if o.next.Advance? then At(Absorb(d, ch)) else At(d)) && d.p == o.After()
  {
    hide Put, Tell, Legit, NextText, NextNote, StageOf, PhaseOf, Agrees;
    VisitAt(c, o, ch);
    AbsorbAt(Perform(c, o, ch), ch);
    LiveIs(c, o, ch);
  }

  lemma StopKeeps(c: Config, o: Outcome, ch: Byte)
    requires !Goes(o) && FieldsTidy(c.p, o)
    ensures Perform(c, o, ch).out == c.out
  {
  }

  lemma {:induction false} FeedOrdered(sw: Switcher, settings: Settings, c: Config, ch: Byte)
    requires Runs(sw, settings) && Sane(c) && ParserInv(c.p) && Agrees(c.p, At(c))
    ensures var s := Feed(sw, c, ch);
            (s.Running? || s.Exited? ==> Agrees(s.c.p, At(s.c))) && WellFormed(s.c.out)
            && (s.Exited? ==> s.c.live.None?)
    decreases Rank(c.p.state)
  {
    hide Runs, Agrees, ParserInv, Perform, At, Rank, WellFormed, MarksTidy;
    var o := sw(c.p, ch);
    HttpDiscipline.SwitchIsDisciplined(sw, settings);
    assert Tidy(c.p, o);
    assert Goes(o) ==> MarksTidy(c.p.state, c.live, o);
    hide Disciplined, Legit;
    NotBroken(c.p, At(c));
    OutWellFormed(c);
    VisitKeepsInv(sw, settings, c.p, ch);
    var d := Perform(c, o, ch);
    if Goes(o) {
      assert Legit(c.p.state, c.live);
      OrderedVisit(sw, settings, c.p, At(c), c.live, ch);
      StepAt(c, o, ch);
      if o.next.Advance? {
        NotBroken(o.After(), At(Absorb(d, ch)));
        OutWellFormed(Absorb(d, ch));
      } else if o.next.Again? {
        PerformSane(c, o, ch);
        FeedOrdered(sw, settings, d, ch);
      } else {
        NotBroken(o.After(), At(d));
        OutWellFormed(d);
        ExitedAt(c, o, ch);
      }
    } else {
      StopKeeps(c, o, ch);
      SameOut(c, d);
    }
  }

  lemma ExitedAt(c: Config, o: Outcome, ch: Byte)
    requires MarksTidy(c.p.state, c.live, o) && o.next.Exit?
    ensures var d := Perform(c, o, ch); At(d.(used := d.used + 1)) == At(d) && d.live.None?
  {
    hide Put, Tell, Legit, PhaseOf;
    LiveIs(c, o, ch);
  }

  lemma SameOut(c: Config, d: Config)
    requires WellFormed(c.out) && d.out == c.out
    ensures WellFormed(d.out)
  {
  }

  lemma {:induction false} FeedAllOrdered(sw: Switcher, settings: Settings, c: Config, data: Bytes)
    requires Runs(sw, settings) && Sane(c) && ParserInv(c.p) && Agrees(c.p, At(c))
    ensures var s := FeedAll(sw, c, data);
            (s.Running? || s.Exited? ==> Agrees(s.c.p, At(s.c))) && WellFormed(s.c.out)
            && (s.Exited? ==> s.c.live.None?)
    decreases |data|
  {
    hide Runs, Agrees, ParserInv, At, Feed, Sane, WellFormed;
    if data == [] {
      NotBroken(c.p, At(c));
      OutWellFormed(c);
    } else {
      FeedOrdered(sw, settings, c, data[0]);
      if Feed(sw, c, data[0]).Running? {
        HttpDiscipline.SwitchIsDisciplined(sw, settings);
        FeedSane(sw, c, data[0]);
        FeedKeepsInv(sw, settings, c, data[0]);
        FeedAllOrdered(sw, settings, Feed(sw, c, data[0]).c, data[1..]);
      }
    }
  }

  /** A call that resumes a string finds it begun. */
  lemma ResumeAgrees(p: Parser, ph: Phase)
    requires Agrees(p, ph)
    ensures ResumeMark(p.state).Some? ==> Agrees(p, NextText(ph, ResumeMark(p.state).value, 0))
  {
  }

  lemma BeginAgrees(p: Parser, nread: nat, out: Trace)
    requires Agrees(p, PhaseOf(out))
    ensures Agrees(p, At(Begin(p, nread, out))) && Sane(Begin(p, nread, out))
  {
    ResumeAgrees(p, PhaseOf(out));
    HttpDiscipline.LegitResume(p.state);
    hide Agrees, Put, NextText, Legit;
    if ResumeMark(p.state).Some? {
      PutPhase(out, ResumeMark(p.state).value, []);
    }
  }

  /** What holds between two calls. */
  predicate InOrder(p: Parser, out: Trace)
  {
    Safe(p) && WellFormed(out) && (p.errno == Ok ==> Agrees(p, PhaseOf(out)))
  }

  lemma CallInOrder(sw: Switcher, settings: Settings, p: Parser, nread: nat, out: Trace, data: Bytes)
    requires Runs(sw, settings) && InOrder(p, out) && data != []
    ensures var r := Execute(sw, p, nread, out, data); InOrder(r.p, r.out)
  {
    hide Runs, Agrees, ParserInv, FeedAll, Put, Safe, NextText, HeaderBytes;
    CallKeepsInv(sw, settings, p, nread, out, data);
    if p.errno == Ok {
      var c := Begin(p, nread, out);
      BeginAgrees(p, nread, out);
      assert ParserInv(p) by { SafeOk(p); }
      FeedAllOrdered(sw, settings, c, data);
      StartWithinUsed(sw, c, data);
      var s := FeedAll(sw, c, data);
      HttpDiscipline.SwitchIsDisciplined(sw, settings);
      FeedAllErrno(sw, c, data);
      hide Disciplined, PhaseOf;
      if s.Running? {
        NotBroken(s.c.p, At(s.c));
      }
    }
  }

  lemma SafeOk(p: Parser)
    requires Safe(p) && p.errno == Ok
    ensures ParserInv(p)
  {
  }

  /** However the input is cut, and wherever it stops, the callbacks have been called in a proper order. */
  lemma {:induction false} EveryRunIsOrdered(
    sw: Switcher, settings: Settings, kind: ParserType, junk: Parser, calls: seq<Bytes>)
    requires Runs(sw, settings) && Bounded(junk.(major := 0, minor := 0, trailing := false))
    requires forall i | 0 <= i < |calls| :: calls[i] != []
    ensures var r := RunCalls(sw, Init(kind, junk), 0, [], calls); InOrder(r.p, r.out)
    decreases |calls|
  {
    hide Runs, Execute;
    if calls != [] {
      EveryRunIsOrdered(sw, settings, kind, junk, calls[..|calls| - 1]);
      var q := RunCalls(sw, Init(kind, junk), 0, [], calls[..|calls| - 1]);
      hide InOrder;
      CallInOrder(sw, settings, q.p, q.nread, q.out, calls[|calls| - 1]);
    }
  }
}
