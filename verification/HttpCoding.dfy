/** When a Transfer-Encoding header makes the body chunked: exactly for the value "chunked", in any case. */
module HttpCoding {
  import opened HttpTypes
  import opened HttpSwitch
  import opened HttpMachine
  import opened HttpLengths

  function LowerAll(t: Bytes): (w: string)
    ensures |w| == |t| && forall i | 0 <= i < |t| :: w[i] == Lower(t[i])
  {
    seq(|t|, i requires 0 <= i < |t| => Lower(t[i]))
  }

  /** "chunked" in any case, with nothing but spaces after it. */
  predicate SaysChunked(t: Bytes)
  {
    |t| >= |CHUNKED| && LowerAll(t[..|CHUNKED|]) == CHUNKED && forall i | |CHUNKED| <= i < |t| :: t[i] == ' '
  }

  /** A proper beginning of "chunked". */
  predicate BeginsChunked(t: Bytes) { 0 < |t| < |CHUNKED| && LowerAll(t) == CHUNKED[..|t|] }

  /** What the matcher knows after the text `t` of a value. */
  predicate CodingKnown(p: Parser, t: Bytes)
  {
    && (p.hstate.MatchingTransferEncodingChunked? <==> BeginsChunked(t))
    && (p.hstate.TransferEncodingChunked? <==> SaysChunked(t))
    && (BeginsChunked(t) ==> p.index + 1 == |t|)
    && (p.hstate.MatchingTransferEncodingChunked? || p.hstate.TransferEncodingChunked? || p.hstate.General?
        || p.hstate.GeneralAndQuote? || p.hstate.GeneralAndQuoteAndEscape?)
    && (BS !in t ==> !p.hstate.GeneralAndQuoteAndEscape?)
  }

  predicate ValueByte(c: Byte) { IsHeaderChar(c) && c != CR && c != LF }

  lemma FirstCoding(p: Parser, ch: Byte)
    requires p.state.HeaderValueStart? && p.hstate.TransferEncoding? && ValueByte(ch) && ch != ' ' && ch != HT
    ensures var o := SwitchValueStart(p, ch);
            && o == Outcome(o.p, HeaderValue, Advance, mark := Some(Value))
            && o.p == p.(hstate := o.p.hstate, index := 0) && CodingKnown(o.p, [ch])
  {
    hide Lower;
    assert LowerAll([ch]) == [Lower(ch)] && CHUNKED[..1] == "c";
  }

  /** One byte more of a text that is not, or no longer, a beginning of the word. */
  lemma LostForGood(t: Bytes, ch: Byte)
    requires !BeginsChunked(t) && !SaysChunked(t) && t != []
    ensures !BeginsChunked(t + [ch]) && !SaysChunked(t + [ch])
  {
    hide Lower;
    var u := t + [ch];
    if |t| < |CHUNKED| {
      assert forall i | 0 <= i < |t| :: LowerAll(u)[i] == LowerAll(t)[i];
      assert u[..|t|] == t;
      assert |u| == |CHUNKED| ==> u[..|CHUNKED|] == u;
    } else {
      assert u[..|CHUNKED|] == t[..|CHUNKED|];
      assert forall i | 0 <= i < |t| :: u[i] == t[i];
    }
  }

  lemma StillChunked(t: Bytes, ch: Byte)
    requires SaysChunked(t)
    ensures !BeginsChunked(t + [ch]) && (SaysChunked(t + [ch]) <==> ch == ' ')
  {
    hide Lower;
    var u := t + [ch];
    assert u[..|CHUNKED|] == t[..|CHUNKED|];
    assert u[|t|] == ch;
  }

  lemma OneMore(t: Bytes, ch: Byte)
    requires BeginsChunked(t)
    ensures BeginsChunked(t + [ch]) <==> |t| + 1 < |CHUNKED| && Lower(ch) == CHUNKED[|t|]
    ensures SaysChunked(t + [ch]) <==> |t| + 1 == |CHUNKED| && Lower(ch) == CHUNKED[|t|]
  {
    hide Lower;
    var u := t + [ch];
    assert LowerAll(u) == LowerAll(t) + [Lower(ch)];
    assert CHUNKED[..|u|] == CHUNKED[..|t|] + [CHUNKED[|t|]];
    assert |u| == |CHUNKED| ==> u[..|CHUNKED|] == u && CHUNKED[..|CHUNKED|] == CHUNKED;
  }

  lemma NextCoding(p: Parser, ch: Byte, t: Bytes)
    requires p.state.HeaderValue? && CodingKnown(p, t) && t != [] && ValueByte(ch)
    ensures var o := SwitchValue(p, ch);
            && o == Outcome(o.p, HeaderValue, Advance)
            && o.p == p.(hstate := o.p.hstate, index := o.p.index) && CodingKnown(o.p, t + [ch])
  {
    hide Lower, IsHeaderChar, BeginsChunked, SaysChunked, IsNum, Digit;
    if BeginsChunked(t) {
      TextShort(t);
      OneMore(t, ch);
    } else if SaysChunked(t) {
      StillChunked(t, ch);
    } else {
      LostForGood(t, ch);
    }
  }

  lemma TextShort(t: Bytes)
    requires BeginsChunked(t)
    ensures |t| < |CHUNKED|
  {
  }

  /** The configuration after the text `t` of the value. */
  predicate CodingRead(c: Config, d: Config, t: Bytes)
  {
    && d == c.(p := d.p, live := Some(Value), held := t, used := c.used + |t|)
    && d.p == c.p.(state := HeaderValue, hstate := d.p.hstate, index := d.p.index)
    && CodingKnown(d.p, t)
  }

  lemma CodingFirst(sw: Switcher, settings: Settings, c: Config, ch: Byte)
    requires Runs(sw, settings) && c.p.state.HeaderValueStart? && c.p.hstate.TransferEncoding?
    requires c.live.None? && c.p.errno == Ok && ValueByte(ch) && ch != ' ' && ch != HT
    ensures Feed(sw, c, ch).Running? && CodingRead(c, Feed(sw, c, ch).c, [ch])
  {
    hide Runs, Feed, BeginsChunked, SaysChunked, Rank, SwitchValueStart;
    VisitsHeader(sw, settings, c.p, ch);
    FirstCoding(c.p, ch);
    FeedOnce(sw, c, ch);
    assert [] + [ch] == [ch];
  }

  lemma CodingNext(sw: Switcher, settings: Settings, c: Config, d: Config, t: Bytes, ch: Byte)
    requires Runs(sw, settings) && CodingRead(c, d, t) && c.p.errno == Ok && t != [] && ValueByte(ch)
    ensures Feed(sw, d, ch).Running? && CodingRead(c, Feed(sw, d, ch).c, t + [ch])
  {
    hide Runs, Feed, CodingKnown, Rank, SwitchValue;
    VisitsHeader(sw, settings, d.p, ch);
    NextCoding(d.p, ch, t);
    FeedOnce(sw, d, ch);
  }

  /** Reading the value of a Transfer-Encoding header: the matcher ends in "chunked" exactly for that word. */
  lemma {:induction false} CodingExact(sw: Switcher, settings: Settings, c: Config, t: Bytes)
    requires Runs(sw, settings) && c.p.state.HeaderValueStart? && c.p.hstate.TransferEncoding?
    requires c.live.None? && c.p.errno == Ok && t != [] && t[0] != ' ' && t[0] != HT
    requires forall i | 0 <= i < |t| :: ValueByte(t[i])
    ensures FeedAll(sw, c, t).Running? && CodingRead(c, FeedAll(sw, c, t).c, t)
    ensures FeedAll(sw, c, t).c.p.hstate.TransferEncodingChunked? <==> SaysChunked(t)
    decreases |t|
  {
    hide Runs, Feed, CodingKnown, FeedAll, ValueByte, SaysChunked;
    var front, last := t[..|t| - 1], t[|t| - 1];
    assert t == front + [last];
    if front == [] {
      assert t == [last];
      FeedSingle(sw, c, last);
      CodingFirst(sw, settings, c, last);
    } else {
      CodingExact(sw, settings, c, front);
      var d := FeedAll(sw, c, front).c;
      FeedAllConcat(sw, c, front, [last]);
      FeedSingle(sw, d, last);
      CodingNext(sw, settings, c, d, front, last);
    }
    CodingSays(FeedAll(sw, c, t).c.p, t);
  }

  lemma CodingSays(p: Parser, t: Bytes)
    requires CodingKnown(p, t)
    ensures p.hstate.TransferEncodingChunked? <==> SaysChunked(t)
    ensures BS !in t ==> !p.hstate.GeneralAndQuoteAndEscape?
  {
  }

  lemma LineEnd(sw: Switcher, settings: Settings, p: Parser)
    requires Runs(sw, settings) && p.state.HeaderValue? && !p.hstate.GeneralAndQuoteAndEscape?
    ensures sw(p, CR) == Go(p, HeaderAlmostDone).(flush := FlushBefore(Value))
    ensures var q := p.(state := HeaderAlmostDone);
            sw(q, LF) == Go(if q.hstate.TransferEncodingChunked? then q.(chunked := true) else q, HeaderValueLws)
  {
    hide Runs, SwitchName, SwitchValueStart;
    VisitsHeader(sw, settings, p, CR);
    VisitsHeader(sw, settings, p.(state := HeaderAlmostDone), LF);
  }

  lemma LineCr(sw: Switcher, settings: Settings, c: Config)
    requires Runs(sw, settings) && c.p.state.HeaderValue? && !c.p.hstate.GeneralAndQuoteAndEscape?
    requires c.live == Some(Value) && c.p.errno == Ok
    ensures FeedAll(sw, c, [CR]) ==
            Running(c.(p := c.p.(state := HeaderAlmostDone), live := None, held := [],
                       out := Put(c.out, Value, c.held), used := c.used + 1))
  {
    hide Runs, Feed, FeedAll, Put;
    LineEnd(sw, settings, c.p);
    FeedSingle(sw, c, CR);
    FeedOnce(sw, c, CR);
  }

  lemma LineLf(sw: Switcher, settings: Settings, c: Config)
    requires Runs(sw, settings) && c.p.state.HeaderAlmostDone? && !c.p.hstate.GeneralAndQuoteAndEscape?
    requires c.live.None? && c.p.errno == Ok
    ensures FeedAll(sw, c, [LF]) ==
            Running(c.(p := c.p.(state := HeaderValueLws,
                                 chunked := c.p.chunked || c.p.hstate.TransferEncodingChunked?),
                       used := c.used + 1))
  {
    hide Runs, Feed, FeedAll, Put;
    LineEnd(sw, settings, c.p.(state := HeaderValue));
    FeedSingle(sw, c, LF);
    FeedOnce(sw, c, LF);
  }

  /** A line end that is not escaped. */
  lemma ValueEnds(sw: Switcher, settings: Settings, c: Config)
    requires Runs(sw, settings) && c.p.state.HeaderValue? && !c.p.hstate.GeneralAndQuoteAndEscape?
    requires c.live == Some(Value) && c.p.errno == Ok
    ensures FeedAll(sw, c, [CR, LF]) ==
            Running(c.(p := c.p.(state := HeaderValueLws,
                                 chunked := c.p.chunked || c.p.hstate.TransferEncodingChunked?),
                       live := None, held := [], out := Put(c.out, Value, c.held), used := c.used + 2))
  {
    hide Runs, FeedAll, Put;
    var d := c.(p := c.p.(state := HeaderAlmostDone), live := None, held := [], out := Put(c.out, Value, c.held),
                used := c.used + 1);
    LineCr(sw, settings, c);
    LineLf(sw, settings, d);
    FeedAllConcat(sw, c, [CR], [LF]);
    assert [CR] + [LF] == [CR, LF];
  }

  /** Inside an escape a CR belongs to the value. */
  lemma EscapedCr(sw: Switcher, settings: Settings, c: Config)
    requires Runs(sw, settings) && c.p.state.HeaderValue? && c.p.hstate.GeneralAndQuoteAndEscape?
    requires c.live == Some(Value) && c.p.errno == Ok
    ensures FeedAll(sw, c, [CR]) ==
            Running(c.(p := c.p.(hstate := GeneralAndQuote), held := c.held + [CR], used := c.used + 1))
  {
    hide Runs, Feed, FeedAll, Put, IsNum;
    VisitsHeader(sw, settings, c.p, CR);
    FeedSingle(sw, c, CR);
    FeedOnce(sw, c, CR);
  }

  lemma LfVisit(sw: Switcher, settings: Settings, p: Parser)
    requires Runs(sw, settings) && p.state.HeaderValue? && p.hstate.GeneralAndQuote?
    ensures sw(p, LF) == Redo(p, HeaderAlmostDone).(flush := FlushBefore(Value))
  {
    hide Runs, SwitchName, SwitchValueStart;
    VisitsHeader(sw, settings, p, LF);
  }

  /** A value may end with LF alone. */
  lemma BareLf(sw: Switcher, settings: Settings, c: Config)
    requires Runs(sw, settings) && c.p.state.HeaderValue? && c.p.hstate.GeneralAndQuote?
    requires c.live == Some(Value) && c.p.errno == Ok
    ensures FeedAll(sw, c, [LF]) ==
            Running(c.(p := c.p.(state := HeaderValueLws), live := None, held := [],
                       out := Put(c.out, Value, c.held), used := c.used + 1))
  {
    hide Runs, Feed, FeedAll, Put;
    var d := c.(p := c.p.(state := HeaderAlmostDone), live := None, held := [], out := Put(c.out, Value, c.held));
    LfVisit(sw, settings, c.p);
    FeedTwice(sw, c, LF);
    FeedSingle(sw, c, LF);
    FeedSingle(sw, d, LF);
    LineLf(sw, settings, d);
  }

  /**
   * A Transfer-Encoding line delivers its value and turns the chunked coding on exactly if it says "chunked".
   * A value that ends inside a quoted escape takes the CR of its line end with it.
   */
  lemma CodingLine(sw: Switcher, settings: Settings, c: Config, t: Bytes)
    requires Runs(sw, settings) && c.p.state.HeaderValueStart? && c.p.hstate.TransferEncoding?
    requires c.live.None? && c.p.errno == Ok && t != [] && t[0] != ' ' && t[0] != HT
    requires forall i | 0 <= i < |t| :: ValueByte(t[i])
    ensures FeedAll(sw, c, t).Running? && FeedAll(sw, c, t + [CR, LF]).Running?
    ensures var e, d := FeedAll(sw, c, t).c, FeedAll(sw, c, t + [CR, LF]).c;
            && d.p.state.HeaderValueLws? && d.p.chunked == (c.p.chunked || SaysChunked(t))
            && d.out == Put(c.out, Value, if e.p.hstate.GeneralAndQuoteAndEscape? then t + [CR] else t)
  {
    hide Runs, FeedAll, Put, CodingKnown, ValueByte, SaysChunked;
    CodingExact(sw, settings, c, t);
    FeedAllConcat(sw, c, t, [CR, LF]);
    var e := FeedAll(sw, c, t).c;
    if e.p.hstate.GeneralAndQuoteAndEscape? {
      var d := e.(p := e.p.(hstate := GeneralAndQuote), held := e.held + [CR], used := e.used + 1);
      EscapedCr(sw, settings, e);
      BareLf(sw, settings, d);
      Then(sw, e, [CR], d, [LF]);
      assert [CR] + [LF] == [CR, LF];
    } else {
      ValueEnds(sw, settings, e);
    }
  }
}
