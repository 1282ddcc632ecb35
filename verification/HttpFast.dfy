/** Runs of bytes that leave the parser's state alone: what the fast paths and bulk reads may skip. */
module HttpFast {
  import opened HttpTypes
  import opened HttpSwitch
  import opened HttpMachine

  /** The configuration after `bs` has been read under a live mark. */
  function Extend(c: Config, bs: Bytes): Config
  {
    c.(held := c.held + bs, used := c.used + |bs|)
  }

  lemma ExtendTwice(c: Config, b: Byte, bs: Bytes)
    ensures Extend(Extend(c, [b]), bs) == Extend(c, [b] + bs)
  {
    assert c.held + [b] + bs == c.held + ([b] + bs);
  }

  // ----- header names -----

  predicate InName(c: Config)
  {
    c.p.state.HeaderField? && c.p.hstate.General? && c.live == Some(Field) && c.p.errno == Ok
  }

  predicate AllTokens(bs: Bytes) { forall i | 0 <= i < |bs| :: IsToken(bs[i]) }

  lemma NameByte(sw: Switcher, settings: Settings, c: Config, ch: Byte)
    requires Runs(sw, settings)
    requires InName(c) && IsToken(ch)
    ensures Feed(sw, c, ch) == Running(Extend(c, [ch]))
  {
    hide Runs, Feed, Rank;
    VisitsHeader(sw, settings, c.p, ch);
    FeedOnce(sw, c, ch);
  }

  lemma {:induction false} NameRun(sw: Switcher, settings: Settings, c: Config, bs: Bytes)
    requires Runs(sw, settings)
    requires InName(c) && AllTokens(bs)
    ensures FeedAll(sw, c, bs) == Running(Extend(c, bs))
    decreases |bs|
  {
    hide Runs, Feed, IsToken;
    if bs == [] {
      assert c.held + bs == c.held;
    } else {
      NameByte(sw, settings, c, bs[0]);
      NameRun(sw, settings, Extend(c, [bs[0]]), bs[1..]);
      ExtendTwice(c, bs[0], bs[1..]);
      assert bs == [bs[0]] + bs[1..];
    }
  }

  // ----- header values -----

  /** In a value, with its mark or muted, in or out of a quoted string. */
  predicate InText(c: Config)
  {
    && c.p.state.HeaderValue? && (c.p.hstate.General? || c.p.hstate.GeneralAndQuote?)
    && (c.live == Some(Value) || c.live.None?) && c.p.errno == Ok
  }

  /** The bytes that MOVE_FAST stops at. */
  predicate Special(ch: Byte) { ch == CR || ch == LF || ch == QT || ch == BS || !IsHeaderChar(ch) }

  predicate NoneSpecial(bs: Bytes) { forall i | 0 <= i < |bs| :: !Special(bs[i]) }

  function ExtendText(c: Config, bs: Bytes): Config
  {
    if c.live.Some? then Extend(c, bs) else c.(used := c.used + |bs|)
  }

  lemma ExtendTextTwice(c: Config, b: Byte, bs: Bytes)
    ensures ExtendText(ExtendText(c, [b]), bs) == ExtendText(c, [b] + bs)
  {
    ExtendTwice(c, b, bs);
  }

  lemma TextByte(sw: Switcher, settings: Settings, c: Config, ch: Byte)
    requires Runs(sw, settings)
    requires InText(c) && !Special(ch)
    ensures Feed(sw, c, ch) == Running(ExtendText(c, [ch]))
  {
    hide Runs, Feed, Rank;
    VisitsHeader(sw, settings, c.p, ch);
    FeedOnce(sw, c, ch);
  }

  lemma {:induction false} TextRun(sw: Switcher, settings: Settings, c: Config, bs: Bytes)
    requires Runs(sw, settings)
    requires InText(c) && NoneSpecial(bs)
    ensures FeedAll(sw, c, bs) == Running(ExtendText(c, bs))
    decreases |bs|
  {
    hide Runs, Feed, Special;
    if bs == [] {
      assert c.held + bs == c.held;
    } else {
      TextByte(sw, settings, c, bs[0]);
      TextRun(sw, settings, ExtendText(c, [bs[0]]), bs[1..]);
      ExtendTextTwice(c, bs[0], bs[1..]);
      assert bs == [bs[0]] + bs[1..];
    }
  }

  // ----- bodies -----

  predicate ReadsBody(c: Config)
  {
    c.live == Some(Body) && c.p.errno == Ok
  }

  function Remaining(c: Config, n: int): Config { c.(p := c.p.(contentLength := n)) }

  lemma BodyByte(sw: Switcher, settings: Settings, c: Config, ch: Byte)
    requires Runs(sw, settings)
    requires ReadsBody(c) && c.p.state.BodyIdentity? && c.p.contentLength > 1
    ensures Feed(sw, c, ch) == Running(Extend(Remaining(c, c.p.contentLength - 1), [ch]))
  {
    hide Runs, Feed, Rank;
    VisitsBody(sw, settings, c.p, ch);
    FeedOnce(sw, c, ch);
  }

  /** Part of a body of known length. */
  lemma {:induction false} BodyRun(sw: Switcher, settings: Settings, c: Config, bs: Bytes)
    requires Runs(sw, settings)
    requires ReadsBody(c) && c.p.state.BodyIdentity? && c.p.contentLength > |bs|
    ensures FeedAll(sw, c, bs) == Running(Extend(Remaining(c, c.p.contentLength - |bs|), bs))
    decreases |bs|
  {
    hide Runs, Feed;
    if bs == [] {
      assert c.held + bs == c.held;
    } else {
      var d := Extend(Remaining(c, c.p.contentLength - 1), [bs[0]]);
      BodyByte(sw, settings, c, bs[0]);
      BodyRun(sw, settings, d, bs[1..]);
      assert c.held + [bs[0]] + bs[1..] == c.held + bs;
    }
  }

  lemma EofByte(sw: Switcher, settings: Settings, c: Config, ch: Byte)
    requires Runs(sw, settings)
    requires ReadsBody(c) && c.p.state.BodyIdentityEof?
    ensures Feed(sw, c, ch) == Running(Extend(c, [ch]))
  {
    hide Runs, Feed, Rank;
    VisitsBody(sw, settings, c.p, ch);
    FeedOnce(sw, c, ch);
  }

  /** A body that lasts until the connection ends. */
  lemma {:induction false} EofRun(sw: Switcher, settings: Settings, c: Config, bs: Bytes)
    requires Runs(sw, settings)
    requires ReadsBody(c) && c.p.state.BodyIdentityEof?
    ensures FeedAll(sw, c, bs) == Running(Extend(c, bs))
    decreases |bs|
  {
    hide Runs, Feed;
    if bs == [] {
      assert c.held + bs == c.held;
    } else {
      EofByte(sw, settings, c, bs[0]);
      EofRun(sw, settings, Extend(c, [bs[0]]), bs[1..]);
      ExtendTwice(c, bs[0], bs[1..]);
      assert bs == [bs[0]] + bs[1..];
    }
  }

  /** In the data of a chunk with `n` bytes to go, or just past it. */
  function InChunk(c: Config, n: int): Config
  {
    c.(p := c.p.(contentLength := n, state := if n == 0 then ChunkDataAlmostDone else ChunkData))
  }

  lemma ChunkByte(sw: Switcher, settings: Settings, c: Config, ch: Byte)
    requires Runs(sw, settings)
    requires ReadsBody(c) && c.p.state.ChunkData? && c.p.chunked && c.p.contentLength > 0
    ensures Feed(sw, c, ch) == Running(Extend(InChunk(c, c.p.contentLength - 1), [ch]))
  {
    hide Runs, Feed, Rank;
    VisitsChunk(sw, settings, c.p, ch);
    FeedOnce(sw, c, ch);
  }

  lemma {:induction false} ChunkRun(sw: Switcher, settings: Settings, c: Config, bs: Bytes)
    requires Runs(sw, settings)
    requires ReadsBody(c) && c.p.state.ChunkData? && c.p.chunked && c.p.contentLength >= |bs| > 0
    ensures FeedAll(sw, c, bs) == Running(Extend(InChunk(c, c.p.contentLength - |bs|), bs))
    decreases |bs|
  {
    hide Runs, Feed;
    var d := Extend(InChunk(c, c.p.contentLength - 1), [bs[0]]);
    ChunkByte(sw, settings, c, bs[0]);
    if |bs| == 1 {
      assert bs == [bs[0]];
    } else {
      ChunkRun(sw, settings, d, bs[1..]);
      assert c.held + [bs[0]] + bs[1..] == c.held + bs;
    }
  }

  /** In a body state a mark that is not set yet is set by the next byte. */
  lemma BodyMark(sw: Switcher, c: Config, ch: Byte)
    requires c.live.None? && c.held == [] && sw(c.p, ch).mark == Some(Body)
    ensures Feed(sw, c, ch) == Feed(sw, c.(live := Some(Body)), ch)
  {
    var o := sw(c.p, ch);
    assert Perform(c, o, ch) == Perform(c.(live := Some(Body)), o, ch);
  }

  /** A first byte of text, which may open a quoted string. */
  lemma QuoteByte(sw: Switcher, settings: Settings, c: Config, ch: Byte)
    requires Runs(sw, settings)
    requires InText(c) && c.p.hstate.General? && ch != CR && ch != LF && IsHeaderChar(ch)
    ensures var q := c.p.(hstate := if ch == QT then GeneralAndQuote else General);
            Feed(sw, c, ch) == Running(ExtendText(c.(p := q), [ch]))
  {
    hide Runs, Feed, Rank;
    VisitsHeader(sw, settings, c.p, ch);
    FeedOnce(sw, c, ch);
  }

  /** Reading `data[pos..q]` first. */
  lemma Skip(sw: Switcher, c: Config, d: Config, data: Bytes, pos: nat, q: nat)
    requires pos <= q <= |data| && FeedAll(sw, c, data[pos..q]) == Running(d)
    ensures FeedAll(sw, c, data[pos..]) == FeedAll(sw, d, data[q..])
  {
    FeedAllConcat(sw, c, data[pos..q], data[q..]);
    assert data[pos..] == data[pos..q] + data[q..];
  }

  /** Only a token byte leads into, or stays in, a header name. */
  lemma EntersName(sw: Switcher, settings: Settings, p: Parser, ch: Byte)
    requires Runs(sw, settings)
    ensures var o := sw(p, ch); o.next.Advance? && o.to.HeaderField? ==> IsToken(ch)
  {
    hide Runs, SwitchStart, SwitchResponse, SwitchUrl, SwitchVersion, SwitchHeader, SwitchBody, SwitchChunk;
    match RegionOf(p.state)
    case AtStart => VisitsStart(sw, settings, p, ch); NotNames(p, ch);
    case AtResponse => VisitsResponse(sw, settings, p, ch); NotNames(p, ch);
    case AtUrl => VisitsUrl(sw, settings, p, ch); NotNamesUrl(p, ch);
    case AtVersion => VisitsVersion(sw, settings, p, ch); NotNamesVersion(p, ch);
    case AtHeader => VisitsHeader(sw, settings, p, ch); Names(p, ch);
    case AtBody => VisitsBody(sw, settings, p, ch); NotNamesBody(settings, p, ch);
    case AtChunk => VisitsChunk(sw, settings, p, ch); NotNamesBody(settings, p, ch);
    case Nowhere => NoVisit(sw, settings, p, ch);
  }

  lemma NoVisit(sw: Switcher, settings: Settings, p: Parser, ch: Byte)
    requires Runs(sw, settings)
    requires RegionOf(p.state).Nowhere?
    ensures sw(p, ch) == Aborts(p)
  {
    hide SwitchStart, SwitchResponse, SwitchUrl, SwitchVersion, SwitchHeader, SwitchBody, SwitchChunk;
    assert sw(p, ch) == Switch(settings, p, ch);
  }

  lemma NotNames(p: Parser, ch: Byte)
    requires RegionOf(p.state).AtStart? || RegionOf(p.state).AtResponse?
    ensures RegionOf(p.state).AtStart? ==> !SwitchStart(p, ch).to.HeaderField?
    ensures RegionOf(p.state).AtResponse? ==> !SwitchResponse(p, ch).to.HeaderField?
  {
    hide IsAlpha, IsNum, Digit, Accumulate, FirstGuess, Reguess, Matcher, MethodName;
  }

  lemma NotNamesUrl(p: Parser, ch: Byte)
    requires RegionOf(p.state).AtUrl?
    ensures !SwitchUrl(p, ch).to.HeaderField?
  {
    hide IsAlpha, IsNum, IsUrlChar, IsHostChar, IsAlphaNum, IsHex;
  }

  lemma NotNamesVersion(p: Parser, ch: Byte)
    requires RegionOf(p.state).AtVersion?
    ensures !SwitchVersion(p, ch).to.HeaderField?
  {
    hide IsNum, Digit, Accumulate;
  }

  lemma NotNamesBody(settings: Settings, p: Parser, ch: Byte)
    ensures RegionOf(p.state).AtBody? ==> !SwitchBody(settings, p, ch).to.HeaderField?
    ensures RegionOf(p.state).AtChunk? ==> !SwitchChunk(p, ch).to.HeaderField?
  {
    hide Unhex;
  }

  lemma Names(p: Parser, ch: Byte)
    requires RegionOf(p.state).AtHeader?
    ensures var o := SwitchHeader(p, ch); o.next.Advance? && o.to.HeaderField? ==> IsToken(ch)
  {
    hide IsToken, IsNum, Digit, Lower, IsHeaderChar, MatchName, MatchChunked;
  }
}
