/**
 * Any number of cuts: a message handed over in any non-empty pieces leaves the same parser and tells the
 * callbacks the same as the message in one buffer.  The two families of inputs for which this fails are
 * given with examples, and excluded by conditions on the input alone.
 */
module HttpSegments {
  import opened HttpTypes
  import opened HttpSwitch
  import opened HttpMachine
  import opened HttpCuts
  import opened HttpDiscipline
  import opened HttpInvariant
  import opened HttpMuted
  import opened HttpLengths

  function Join(pieces: seq<Bytes>): Bytes
    decreases |pieces|
  {
    if pieces == [] then [] else Join(pieces[..|pieces| - 1]) + pieces[|pieces| - 1]
  }

  predicate Pieces(pieces: seq<Bytes>) { forall i | 0 <= i < |pieces| :: pieces[i] != [] }

  /** No cut falls after an error, after an exit, after too many header bytes, or in a muted value. */
  predicate CutsClean(sw: Switcher, p: Parser, nread: nat, out: Trace, pieces: seq<Bytes>)
  {
    forall i | 0 < i < |pieces| ::
      Consumes(sw, p, nread, out, Join(pieces[..i])) && !Muted(At(sw, p, nread, out, Join(pieces[..i])).c)
  }

  /** The same outcome of a run in pieces and of a single call. */
  predicate SameRun(run: Result, whole: Result)
  {
    && run.p == whole.p && SameHeaderCount(whole, run)
    && (whole.p.errno == Ok ==> run.out == whole.out)
  }

  /** Outside of headers `nread` does not matter. */
  lemma CountForgotten(sw: Switcher, p: Parser, n1: nat, n2: nat, out: Trace, b: Bytes)
    requires Disciplined(sw) && b != [] && p.errno == Ok && (ParsingHeader(p.state) ==> n1 == n2)
    ensures SameRun(Execute(sw, p, n2, out, b), Execute(sw, p, n1, out, b))
  {
    LegitResume(p.state);
    var c1, c2 := Begin(p, n1, out), Begin(p, n2, out);
    assert Related(c1, c2, 0, []);
    hide Disciplined, FeedAll, Legit, Put, Conclude, ParsingHeader;
    CallsAlike(sw, c1, c2, 0, [], b);
  }

  lemma OneCut(sw: Switcher, p: Parser, nread: nat, out: Trace, a: Bytes, b: Bytes)
    requires Disciplined(sw) && Consumes(sw, p, nread, out, a) && b != [] && !Muted(At(sw, p, nread, out, a).c)
    ensures var ra := Execute(sw, p, nread, out, a);
            SameRun(Execute(sw, ra.p, ra.nread, ra.out, b), Execute(sw, p, nread, out, a + b))
  {
    hide Disciplined, Consumes, Execute, Muted, At, SameHeaderCount;
    CutInvariance(sw, p, nread, out, a, b);
  }

  lemma SameRunTrans(r: Result, s: Result, t: Result)
    requires SameRun(r, s) && SameRun(s, t)
    ensures SameRun(r, t)
  {
  }

  /** Cut invariance for any number of cuts. */
  lemma {:induction false} ManyCuts(sw: Switcher, p: Parser, nread: nat, out: Trace, pieces: seq<Bytes>)
    requires Disciplined(sw) && Pieces(pieces) && pieces != [] && p.errno == Ok
    requires CutsClean(sw, p, nread, out, pieces)
    ensures SameRun(RunCalls(sw, p, nread, out, pieces), Execute(sw, p, nread, out, Join(pieces)))
    decreases |pieces|
  {
    hide Disciplined, Execute, SameRun, Muted;
    var n := |pieces| - 1;
    var front, last := pieces[..n], pieces[n];
    assert Join(pieces) == Join(front) + last;
    if n == 0 {
      assert Join(pieces) == last;
      SameRunRefl(Execute(sw, p, nread, out, last));
      assert RunCalls(sw, p, nread, out, front) == Result(p, nread, out, 0);
    } else {
      assert forall i | 0 < i < n :: front[..i] == pieces[..i];
      ManyCuts(sw, p, nread, out, front);
      assert Consumes(sw, p, nread, out, Join(front));
      var run, ra := RunCalls(sw, p, nread, out, front), Execute(sw, p, nread, out, Join(front));
      LastCut(sw, p, nread, out, Join(front), last, run);
    }
  }

  lemma SameRunRefl(r: Result)
    ensures SameRun(r, r)
  {
  }

  lemma LastCut(sw: Switcher, p: Parser, nread: nat, out: Trace, a: Bytes, b: Bytes, run: Result)
    requires Disciplined(sw) && Consumes(sw, p, nread, out, a) && b != [] && !Muted(At(sw, p, nread, out, a).c)
    requires SameRun(run, Execute(sw, p, nread, out, a))
    ensures SameRun(Execute(sw, run.p, run.nread, run.out, b), Execute(sw, p, nread, out, a + b))
  {
    hide Disciplined, Execute, Muted, At, ParsingHeader;
    var ra := Execute(sw, p, nread, out, a);
    OneCut(sw, p, nread, out, a, b);
    CountForgotten(sw, ra.p, ra.nread, run.nread, ra.out, b);
    hide SameRun;
    SameRunTrans(Execute(sw, run.p, run.nread, run.out, b), Execute(sw, ra.p, ra.nread, ra.out, b),
                 Execute(sw, p, nread, out, a + b));
  }

  // ----- inputs that never mute a value -----

  /** Every CR is followed by LF, except perhaps a CR at the very end. */
  predicate NoBareCR(data: Bytes)
  {
    forall i | 0 <= i < |data| - 1 :: data[i] == CR ==> data[i + 1] == LF
  }

  /** No CR of a header line lacks its LF, counting the CR that an earlier call may have ended with. */
  predicate Quiet(s: State, data: Bytes)
  {
    NoBareCR(data) && (s.HeaderAlmostDone? && data != [] ==> data[0] == LF)
  }

  /** The end of a header line is looked for only at CR or LF, and a value is entered with its mark. */
  predicate CrTidy(s: State, o: Outcome, ch: Byte)
  {
    Goes(o) ==>
      && (o.to.HeaderAlmostDone? ==> (ch == CR && o.next.Advance?) || (ch == LF && o.next.Again?))
      && (o.to.HeaderValue? ==>
            || (o.mark == Some(Value) && o.flush.NoFlush?)
            || (s.HeaderValue? && o.mark.None? && o.flush.NoFlush?)
            || (s.HeaderAlmostDone? && ch != LF))
  }

  predicate OutsideValue(o: Outcome) { Goes(o) ==> !o.to.HeaderAlmostDone? && !o.to.HeaderValue? }

  lemma MethodOutside(p: Parser, ch: Byte)
    ensures OutsideValue(StartMethod(p, ch))
    ensures p.state.ReqMethod? ==> OutsideValue(SwitchMethod(p, ch))
  {
    hide MethodName, Reguess, Matcher, FirstGuess, IsAlpha;
  }

  lemma StartOutside(p: Parser, ch: Byte)
    requires RegionOf(p.state).AtStart?
    ensures OutsideValue(SwitchStart(p, ch))
  {
    MethodOutside(p, ch);
    MethodOutside(ClearMessage(p), ch);
    hide StartMethod, SwitchMethod;
  }

  lemma ResponseOutside(p: Parser, ch: Byte)
    requires RegionOf(p.state).AtResponse?
    ensures OutsideValue(SwitchResponse(p, ch))
  {
    hide IsNum, Digit, Accumulate;
  }

  lemma UrlOutside(p: Parser, ch: Byte)
    requires RegionOf(p.state).AtUrl?
    ensures OutsideValue(SwitchUrl(p, ch))
  {
    if InUrl(p.state) {
      UrlMoves(p.state, ch);
    }
    hide MoveInUrl, IsAlpha, Rank;
  }

  lemma VersionOutside(p: Parser, ch: Byte)
    requires RegionOf(p.state).AtVersion?
    ensures OutsideValue(SwitchVersion(p, ch))
  {
    hide IsNum, Digit, Accumulate;
  }

  lemma BodyOutside(settings: Settings, p: Parser, ch: Byte)
    ensures RegionOf(p.state).AtBody? ==> OutsideValue(SwitchBody(settings, p, ch))
    ensures RegionOf(p.state).AtChunk? ==> OutsideValue(SwitchChunk(p, ch))
  {
    hide Unhex;
  }

  lemma ValueCrTidy(p: Parser, ch: Byte)
    ensures p.state.HeaderValueStart? ==> CrTidy(p.state, SwitchValueStart(p, ch), ch)
    ensures p.state.HeaderField? ==> CrTidy(p.state, SwitchName(p, ch), ch)
  {
    hide IsToken, MatchName, IsNum, Digit, Lower;
  }

  lemma InValueCrTidy(p: Parser, ch: Byte)
    requires p.state.HeaderValue?
    ensures CrTidy(p.state, SwitchValue(p, ch), ch)
  {
    hide IsNum, Digit, IsHeaderChar, MatchChunked;
  }

  lemma HeaderCrTidy(p: Parser, ch: Byte)
    requires RegionOf(p.state).AtHeader?
    ensures CrTidy(p.state, SwitchHeader(p, ch), ch)
  {
    ValueCrTidy(p, ch);
    if p.state.HeaderValue? {
      InValueCrTidy(p, ch);
    }
    hide IsToken, TokenLower, SwitchName, SwitchValueStart, SwitchValue;
  }

  lemma VisitCrTidy(settings: Settings, p: Parser, ch: Byte)
    ensures CrTidy(p.state, Switch(settings, p, ch), ch)
  {
    hide SwitchStart, SwitchResponse, SwitchUrl, SwitchVersion, SwitchHeader, SwitchBody, SwitchChunk;
    match RegionOf(p.state)
    case AtStart => StartOutside(p, ch);
    case AtResponse => ResponseOutside(p, ch);
    case AtUrl => UrlOutside(p, ch);
    case AtVersion => VersionOutside(p, ch);
    case AtHeader => HeaderCrTidy(p, ch);
    case AtBody | AtChunk => BodyOutside(settings, p, ch);
    case Nowhere =>
  }

  lemma PerformQuiet(c: Config, o: Outcome, ch: Byte)
    requires CrTidy(c.p.state, o, ch) && Goes(o) && !Muted(c) && (c.p.state.HeaderAlmostDone? ==> ch == LF)
    ensures !Muted(Perform(c, o, ch))
  {
    hide Put, Tell;
  }

  lemma {:induction false} FeedQuiet(sw: Switcher, settings: Settings, c: Config, ch: Byte)
    requires Runs(sw, settings) && !Muted(c) && (c.p.state.HeaderAlmostDone? ==> ch == LF)
    requires Feed(sw, c, ch).Running?
    ensures var d := Feed(sw, c, ch).c; !Muted(d) && (d.p.state.HeaderAlmostDone? ==> ch == CR)
    decreases Rank(c.p.state)
  {
    hide Switch, Perform, Rank;
    var o := sw(c.p, ch);
    assert o == Switch(settings, c.p, ch);
    VisitCrTidy(settings, c.p, ch);
    PerformQuiet(c, o, ch);
    PerformState(c, o, ch);
    hide Runs;
    if o.next.Again? {
      FeedQuiet(sw, settings, Perform(c, o, ch), ch);
    }
  }

  lemma PerformState(c: Config, o: Outcome, ch: Byte)
    ensures Perform(c, o, ch).p.state == o.to
  {
  }

  /** The CR that ends a header line is followed by LF.  Nothing is asked of the bytes of a body. */
  predicate LinesWhole(sw: Switcher, c: Config, data: Bytes)
    decreases |data|
  {
    data != [] ==>
      && (c.p.state.HeaderAlmostDone? ==> data[0] == LF)
      && (Feed(sw, c, data[0]).Running? ==> LinesWhole(sw, Feed(sw, c, data[0]).c, data[1..]))
  }

  lemma {:induction false} FeedAllQuiet(sw: Switcher, settings: Settings, c: Config, data: Bytes)
    requires Runs(sw, settings) && !Muted(c) && LinesWhole(sw, c, data) && FeedAll(sw, c, data).Running?
    ensures !Muted(FeedAll(sw, c, data).c)
    decreases |data|
  {
    hide Runs, Feed, Muted;
    if data != [] {
      FeedQuiet(sw, settings, c, data[0]);
      FeedAllQuiet(sw, settings, Feed(sw, c, data[0]).c, data[1..]);
    }
  }

  /** It is enough that no CR at all lacks its LF. */
  lemma {:induction false} QuietIsWhole(sw: Switcher, settings: Settings, c: Config, data: Bytes)
    requires Runs(sw, settings) && !Muted(c) && Quiet(c.p.state, data)
    ensures LinesWhole(sw, c, data)
    decreases |data|
  {
    hide Runs, Feed, Muted;
    if data != [] && Feed(sw, c, data[0]).Running? {
      FeedQuiet(sw, settings, c, data[0]);
      assert |data| > 1 ==> data[1] == data[1..][0];
      QuietIsWhole(sw, settings, Feed(sw, c, data[0]).c, data[1..]);
    }
  }

  lemma {:induction false} WholePrefix(sw: Switcher, c: Config, a: Bytes, b: Bytes)
    requires LinesWhole(sw, c, a + b)
    ensures LinesWhole(sw, c, a)
    decreases |a|
  {
    hide Feed;
    if a != [] && Feed(sw, c, a[0]).Running? {
      assert (a + b)[1..] == a[1..] + b;
      WholePrefix(sw, Feed(sw, c, a[0]).c, a[1..], b);
    }
  }

  lemma {:induction false} JoinPrefix(pieces: seq<Bytes>, i: nat)
    requires i <= |pieces|
    ensures Join(pieces[..i]) <= Join(pieces)
    decreases |pieces|
  {
    if i < |pieces| {
      JoinPrefix(pieces[..|pieces| - 1], i);
      assert pieces[..|pieces| - 1][..i] == pieces[..i];
    } else {
      assert pieces[..i] == pieces;
    }
  }

  /**
   * The source, cut anywhere: if every header line that ends in CR has its LF, and the prefixes that end at a cut
   * are accepted, then the cuts are invisible to the parser and to the callbacks.
   */
  lemma CutsAreInvisible(sw: Switcher, settings: Settings, p: Parser, nread: nat, out: Trace, pieces: seq<Bytes>)
    requires Runs(sw, settings) && Pieces(pieces) && pieces != [] && p.errno == Ok
    requires LinesWhole(sw, Begin(p, nread, out), Join(pieces))
    requires forall i | 0 < i < |pieces| :: Consumes(sw, p, nread, out, Join(pieces[..i]))
    ensures SameRun(RunCalls(sw, p, nread, out, pieces), Execute(sw, p, nread, out, Join(pieces)))
  {
    hide Runs, Disciplined, Consumes, Muted, At, Join, LinesWhole, Execute;
    forall i | 0 < i < |pieces|
      ensures !Muted(At(sw, p, nread, out, Join(pieces[..i])).c)
    {
      ConsumesRuns(sw, p, nread, out, Join(pieces[..i]));
      NotMuted(sw, settings, p, nread, out, pieces, i);
    }
    SwitchIsDisciplined(sw, settings);
    ManyCuts(sw, p, nread, out, pieces);
  }

  lemma ConsumesRuns(sw: Switcher, p: Parser, nread: nat, out: Trace, a: Bytes)
    requires Consumes(sw, p, nread, out, a)
    ensures At(sw, p, nread, out, a).Running?
  {
    hide At, Execute;
  }

  lemma NotMuted(sw: Switcher, settings: Settings, p: Parser, nread: nat, out: Trace, pieces: seq<Bytes>, i: nat)
    requires Runs(sw, settings) && LinesWhole(sw, Begin(p, nread, out), Join(pieces)) && i <= |pieces|
    requires At(sw, p, nread, out, Join(pieces[..i])).Running?
    ensures !Muted(At(sw, p, nread, out, Join(pieces[..i])).c)
  {
    hide Runs, FeedAll, Join, LinesWhole;
    var a := Join(pieces[..i]);
    JoinPrefix(pieces, i);
    assert Join(pieces) == a + Join(pieces)[|a|..];
    WholePrefix(sw, Begin(p, nread, out), a, Join(pieces)[|a|..]);
    FeedAllQuiet(sw, settings, Begin(p, nread, out), a);
  }

  /** In the source, a cut inside a muted value is invisible exactly if the next byte ends the line. */
  lemma MutedCutByte(sw: Switcher, settings: Settings, p: Parser, nread: nat, out: Trace, a: Bytes, b: Bytes)
    requires Runs(sw, settings) && Consumes(sw, p, nread, out, a) && b != []
    requires Muted(At(sw, p, nread, out, a).c)
    ensures var ra := Execute(sw, p, nread, out, a);
            var r1, r2 := Execute(sw, p, nread, out, a + b), Execute(sw, ra.p, ra.nread, ra.out, b);
            r2.p.errno == Ok ==>
              (r1.out == r2.out <==> (b[0] == CR || b[0] == LF) && !ra.p.hstate.GeneralAndQuoteAndEscape?)
  {
    hide Runs, Disciplined, Consumes, Execute, FeedAll;
    SwitchIsDisciplined(sw, settings);
    MutedCut(sw, p, nread, out, a, b);
    MutedState(sw, p, nread, out, a);
    EndOfValue(sw, settings, Execute(sw, p, nread, out, a).p, b[0]);
  }

  lemma MutedState(sw: Switcher, p: Parser, nread: nat, out: Trace, a: Bytes)
    requires Consumes(sw, p, nread, out, a) && Muted(At(sw, p, nread, out, a).c)
    ensures Execute(sw, p, nread, out, a).p.state.HeaderValue?
  {
    hide FeedAll, HeaderBytes, Total;
  }

  lemma EndOfValue(sw: Switcher, settings: Settings, p: Parser, ch: Byte)
    requires Runs(sw, settings) && p.state.HeaderValue?
    ensures sw(p, ch).flush == FlushBefore(Value)
            <==> (ch == CR || ch == LF) && !p.hstate.GeneralAndQuoteAndEscape?
  {
    hide Runs, SwitchName, SwitchValueStart, IsNum, IsHeaderChar;
    VisitsHeader(sw, settings, p, ch);
  }

  // ----- the two families that a cut does change -----

  lemma NameVisits(sw: Switcher, settings: Settings, p: Parser)
    requires Runs(sw, settings) && p.state.HeaderField? && p.hstate.General?
    ensures sw(p, 'A') == Stay(p) && sw(p, '\0') == Fails(p, InvalidHeaderToken)
  {
    VisitsHeader(sw, settings, p, 'A');
    VisitsHeader(sw, settings, p, '\0');
    hide Runs, SwitchValue, SwitchValueStart;
  }

  /** A byte that a marked string goes on with. */
  lemma TextGrows(sw: Switcher, c: Config, ch: Byte)
    requires sw(c.p, ch) == Stay(c.p) && c.live.Some? && c.p.errno == Ok
    ensures FeedAll(sw, c, [ch]) == Running(c.(held := c.held + [ch], used := c.used + 1))
  {
    FeedSingle(sw, c, ch);
    FeedOnce(sw, c, ch);
    hide Feed, FeedAll;
  }

  lemma CallGrows(sw: Switcher, p: Parser, nread: nat, out: Trace, a: Bytes)
    requires |a| == 1 && sw(p, a[0]) == Stay(p) && p.errno == Ok && ResumeMark(p.state).Some?
    requires nread < MAX_HEADER_SIZE
    ensures Execute(sw, p, nread, out, a).p.errno == Ok
  {
    hide Put, FeedAll, ResumeMark, ParsingHeader;
    assert a == [a[0]];
    TextGrows(sw, Begin(p, nread, out), a[0]);
  }

  lemma TextFails(sw: Switcher, c: Config, ch: Byte)
    requires sw(c.p, ch) == Fails(c.p, InvalidHeaderToken)
    ensures FeedAll(sw, c, [ch]) == Failed(c.(p := c.p.(errno := InvalidHeaderToken)))
  {
    FeedSingle(sw, c, ch);
    hide FeedAll;
  }

  lemma CutName(sw: Switcher, p: Parser, nread: nat, out: Trace, a: Bytes, b: Bytes)
    requires |a| == 1 && sw(p, a[0]) == Stay(p) && |b| == 1 && sw(p, b[0]) == Fails(p, InvalidHeaderToken)
    requires p.state.HeaderField? && p.errno == Ok && nread < MAX_HEADER_SIZE
    ensures var ra := Execute(sw, p, nread, out, a);
            var r1, r2 := Execute(sw, p, nread, out, a + b), Execute(sw, ra.p, ra.nread, ra.out, b);
            && Consumes(sw, p, nread, out, a)
            && r1.p == r2.p && r1.p.errno == InvalidHeaderToken
            && r1.out == out && r2.out == Put(out, Field, a)
  {
    hide Put, FeedAll;
    assert a == [a[0]] && b == [b[0]];
    var c := Begin(p, nread, out);
    TextGrows(sw, c, a[0]);
    FeedAllConcat(sw, c, a, b);
    assert [] + a == a;
    TextFails(sw, c.(held := a, used := 1), b[0]);
    TextFails(sw, Begin(p, nread + 1, Put(out, Field, a)), b[0]);
  }

  /**
   * After an error the trace shows the cut: in any header name, "A" and then a byte that no name can have.
   * In one buffer the name callback is never called; cut before the bad byte, it is called with "A".
   */
  lemma ErrorShowsCut(sw: Switcher, settings: Settings, p: Parser, nread: nat, out: Trace)
    requires Runs(sw, settings) && p.state.HeaderField? && p.hstate.General? && p.errno == Ok
    requires nread < MAX_HEADER_SIZE
    ensures var a, b: Bytes := ['A'], ['\0'];
            var ra := Execute(sw, p, nread, out, a);
            var r1, r2 := Execute(sw, p, nread, out, a + b), Execute(sw, ra.p, ra.nread, ra.out, b);
            && Consumes(sw, p, nread, out, a)
            && r1.p == r2.p && r1.p.errno == InvalidHeaderToken
            && r1.out == out && r2.out == Put(out, Field, a)
  {
    hide Runs, Put, Execute, Consumes;
    NameVisits(sw, settings, p);
    CutName(sw, p, nread, out, ['A'], ['\0']);
  }

  lemma ValueVisits(sw: Switcher, settings: Settings, p: Parser)
    requires Runs(sw, settings) && p.state.HeaderValue? && p.hstate.General?
    ensures sw(p, CR) == Go(p, HeaderAlmostDone).(flush := FlushBefore(Value))
    ensures var q := p.(state := HeaderAlmostDone); sw(q, 'x') == Go(q, HeaderValue).(space := true)
    ensures sw(p, 'y') == Stay(p)
  {
    VisitsHeader(sw, settings, p, CR);
    VisitsHeader(sw, settings, p.(state := HeaderAlmostDone), 'x');
    VisitsHeader(sw, settings, p, 'y');
    hide Runs, SwitchName, SwitchValueStart;
  }

  /** A CR and another byte of a value: its mark is gone. */
  lemma MuteSteps(sw: Switcher, settings: Settings, c: Config, d: Config)
    requires Runs(sw, settings) && c.p.state.HeaderValue? && c.p.hstate.General? && c.p.errno == Ok
    requires c.live == Some(Value) && c.held == []
    requires d == c.(p := c.p.(state := HeaderAlmostDone), live := None, out := Put(c.out, Value, []),
                     used := c.used + 1)
    ensures FeedAll(sw, c, [CR]) == Running(d)
    ensures FeedAll(sw, d, ['x']) == Running(d.(p := c.p, out := Put(d.out, Value, [' ']), used := d.used + 1))
  {
    hide Runs, Put, Feed, FeedAll;
    ValueVisits(sw, settings, c.p);
    FeedSingle(sw, c, CR);
    FeedOnce(sw, c, CR);
    FeedSingle(sw, d, 'x');
    FeedOnce(sw, d, 'x');
  }

  lemma CountTwo(c: Config)
    requires c.used == 2 && c.start == 0 && c.nread + 2 <= MAX_HEADER_SIZE
    ensures HeaderBytes(c) == c.nread + 2
  {
  }

  lemma BareCrMutes(sw: Switcher, settings: Settings, p: Parser, nread: nat, out: Trace)
    requires Runs(sw, settings) && p.state.HeaderValue? && p.hstate.General? && p.errno == Ok
    requires nread + 2 <= MAX_HEADER_SIZE
    ensures Consumes(sw, p, nread, out, [CR, 'x']) && Muted(At(sw, p, nread, out, [CR, 'x']).c)
    ensures var r := Execute(sw, p, nread, out, [CR, 'x']); r.p == p && r.nread == nread + 2
  {
    hide Runs, Put, FeedAll, HeaderBytes;
    var c := Begin(p, nread, out);
    var d := c.(p := p.(state := HeaderAlmostDone), live := None, out := Put(out, Value, []), used := 1);
    MuteSteps(sw, settings, c, d);
    assert [CR] + ['x'] == [CR, 'x'];
    FeedAllConcat(sw, c, [CR], ['x']);
    CountTwo(d.(p := p, out := Put(d.out, Value, [' ']), used := 2));
  }

  /**
   * After a bare CR a value shows the cut, without any error: in one buffer the byte "y" of the value
   * CR "x" "y" is never delivered, and cut before it, it is.
   */
  lemma BareCrShowsCut(sw: Switcher, settings: Settings, p: Parser, nread: nat, out: Trace)
    requires Runs(sw, settings) && p.state.HeaderValue? && p.hstate.General? && p.errno == Ok
    requires nread + 3 <= MAX_HEADER_SIZE
    ensures var a, b: Bytes := [CR, 'x'], ['y'];
            var ra := Execute(sw, p, nread, out, a);
            var r1, r2 := Execute(sw, p, nread, out, a + b), Execute(sw, ra.p, ra.nread, ra.out, b);
            Consumes(sw, p, nread, out, a) && r1.p == r2.p && r2.p.errno == Ok && r1.out != r2.out
  {
    var ra := Execute(sw, p, nread, out, [CR, 'x']);
    BareCrMutes(sw, settings, p, nread, out);
    ValueVisits(sw, settings, p);
    SwitchIsDisciplined(sw, settings);
    hide Runs, Disciplined, Consumes, At, Muted;
    hide Execute;
    CallGrows(sw, p, ra.nread, ra.out, ['y']);
    MutedCut(sw, p, nread, out, [CR, 'x'], ['y']);
  }
}
