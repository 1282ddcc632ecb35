/** The two length accumulators: Content-Length and the size of a chunk. */
module HttpLengths {
  import opened HttpTypes
  import opened HttpSwitch
  import opened HttpMachine
  import opened HttpFast

  // ----- chunk sizes -----

  predicate AllHex(hs: Bytes) { forall i | 0 <= i < |hs| :: Unhex(hs[i]) >= 0 }

  /** The number that hexadecimal digits denote. */
  function HexValue(hs: Bytes): (n: nat)
    requires AllHex(hs)
  {
    if hs == [] then 0 else HexValue(hs[..|hs| - 1]) * 16 + Unhex(hs[|hs| - 1])
  }

  predicate AtChunkSize(c: Config)
  {
    (c.p.state.ChunkSizeStart? || c.p.state.ChunkSize?) && c.p.chunked && c.p.errno == Ok
    && c.live.None? && c.held == []
  }

  /** In the middle of a chunk size whose digits denote `n`. */
  function SizeSoFar(c: Config, n: nat, used: nat): Config
  {
    c.(p := c.p.(state := ChunkSize, contentLength := n), used := used)
  }

  lemma FirstHexByte(sw: Switcher, settings: Settings, c: Config, ch: Byte)
    requires Runs(sw, settings)
    requires AtChunkSize(c) && c.p.state.ChunkSizeStart? && Unhex(ch) >= 0
    ensures Feed(sw, c, ch) == Running(SizeSoFar(c, Unhex(ch), c.used + 1))
  {
    hide Runs, Feed, Rank, Unhex;
    VisitsChunk(sw, settings, c.p, ch);
    FeedOnce(sw, c, ch);
  }

  lemma NextHexByte(sw: Switcher, settings: Settings, c: Config, ch: Byte)
    requires Runs(sw, settings)
    requires AtChunkSize(c) && c.p.state.ChunkSize? && Unhex(ch) >= 0 && 0 <= c.p.contentLength <= INT64_MAX
    ensures var n := c.p.contentLength * 16 + Unhex(ch);
            var s := Feed(sw, c, ch);
            if n <= INT64_MAX then s == Running(SizeSoFar(c, n, c.used + 1))
            else s.Failed? && s.c.p.errno == HugeChunkSize
  {
    assert ch != CR;
    hide Runs, Rank, Unhex;
    VisitsChunk(sw, settings, c.p, ch);
    if c.p.contentLength * 16 + Unhex(ch) <= INT64_MAX {
      FeedOnce(sw, c, ch);
    }
  }

  /** What parsing a chunk size must give: its value, or HUGE_CHUNK_SIZE exactly when that is above INT64_MAX. */
  predicate SizeParsed(c: Config, hs: Bytes, s: Step)
    requires AllHex(hs)
  {
    if HexValue(hs) <= INT64_MAX then s == Running(SizeSoFar(c, HexValue(hs), c.used + |hs|))
    else s.Failed? && s.c.p.errno == HugeChunkSize
  }

  lemma SizeStep(sw: Switcher, settings: Settings, c: Config, front: Bytes, last: Byte, s: Step)
    requires Runs(sw, settings)
    requires AtChunkSize(c) && AllHex(front + [last]) && AllHex(front) && SizeParsed(c, front, s)
    ensures SizeParsed(c, front + [last], if s.Running? then Feed(sw, s.c, last) else s)
  {
    hide Runs, Feed, Unhex;
    assert (front + [last])[..|front|] == front && (front + [last])[|front|] == last;
    if s.Running? {
      NextHexByte(sw, settings, s.c, last);
    }
  }

  /** A chunk size is its hexadecimal value, and is refused as huge exactly when that exceeds INT64_MAX. */
  lemma {:induction false} ChunkSizeExact(sw: Switcher, settings: Settings, c: Config, hs: Bytes)
    requires Runs(sw, settings)
    requires AtChunkSize(c) && c.p.state.ChunkSizeStart? && hs != [] && AllHex(hs)
    ensures SizeParsed(c, hs, FeedAll(sw, c, hs))
    decreases |hs|
  {
    hide Runs, Feed, FeedAll, Unhex, SizeParsed;
    var front, last := hs[..|hs| - 1], hs[|hs| - 1];
    assert hs == front + [last];
    if |hs| == 1 {
      assert hs == [last];
      FirstHexByte(sw, settings, c, last);
      FeedSingle(sw, c, last);
      OneDigit(c, last, Feed(sw, c, last));
    } else {
      ChunkSizeExact(sw, settings, c, front);
      FeedAllConcat(sw, c, front, [last]);
      var s := FeedAll(sw, c, front);
      FeedSingle(sw, s.c, last);
      SizeStep(sw, settings, c, front, last, s);
    }
  }

  lemma OneDigit(c: Config, ch: Byte, s: Step)
    requires Unhex(ch) >= 0 && s == Running(SizeSoFar(c, Unhex(ch), c.used + 1))
    ensures SizeParsed(c, [ch], s)
  {
    hide Unhex;
    assert [ch][..0] == [];
    assert HexValue([]) == 0;
    assert HexValue([ch]) == Unhex(ch);
  }

  lemma FeedSingle(sw: Switcher, c: Config, ch: Byte)
    ensures FeedAll(sw, c, [ch]) == Feed(sw, c, ch)
  {
    assert [ch][1..] == [];
    hide Feed;
  }

  // ----- Content-Length -----

  /** The bytes that a Content-Length value may hold after its first digit: the source ignores spaces. */
  predicate NumberText(vs: Bytes) { forall i | 0 <= i < |vs| :: IsNum(vs[i]) || vs[i] == ' ' }

  /** The number that the decimal digits denote. */
  function DecValue(vs: Bytes): (n: nat)
    requires NumberText(vs)
  {
    if vs == [] then 0
    else if vs[|vs| - 1] == ' ' then DecValue(vs[..|vs| - 1])
    else DecValue(vs[..|vs| - 1]) * 10 + Digit(vs[|vs| - 1])
  }

  /** The first number that is refused.  It is 8 below 2^63, so the test is stricter than it had to be. */
  const HUGE_LENGTH: int := 9223372036854775800

  predicate AtNumber(c: Config)
  {
    c.p.state.HeaderValue? && c.p.hstate.ContentLength? && c.live == Some(Value) && c.p.errno == Ok
  }

  /** In a Content-Length value that has read `vs`, which denotes `n`. */
  function NumberSoFar(c: Config, vs: Bytes, n: nat): Config
  {
    c.(p := c.p.(state := HeaderValue, index := 0, contentLength := n), live := Some(Value), held := vs,
       used := c.used + |vs|)
  }

  lemma FirstDigit(sw: Switcher, settings: Settings, c: Config, ch: Byte)
    requires Runs(sw, settings)
    requires c.p.state.HeaderValueStart? && c.p.hstate.ContentLength? && c.live.None? && c.p.errno == Ok && IsNum(ch)
    ensures Feed(sw, c, ch) == Running(NumberSoFar(c, [ch], Digit(ch)))
  {
    hide Runs, Feed, Rank;
    VisitsHeader(sw, settings, c.p, ch);
    FeedOnce(sw, c, ch);
  }

  lemma NextDigit(sw: Switcher, settings: Settings, c: Config, ch: Byte)
    requires Runs(sw, settings)
    requires AtNumber(c) && c.p.contentLength >= 0 && (IsNum(ch) || ch == ' ')
    ensures var s := Feed(sw, c, ch);
            if ch == ' ' then s == Running(Extend(c, [ch]))
            else if c.p.contentLength * 10 + Digit(ch) < HUGE_LENGTH
            then s == Running(Extend(Remaining(c, c.p.contentLength * 10 + Digit(ch)), [ch]))
            else s.Failed? && s.c.p.errno == HugeContentLength
  {
    hide Runs, Rank;
    VisitsHeader(sw, settings, c.p, ch);
    assert sw(c.p, ch) == SwitchValue(c.p, ch);
    hide SwitchHeader, SwitchName, SwitchValueStart;
    assert (INT64_MAX - 10) / 10 == 922337203685477579;
    FeedStops(sw, c, ch);
    if sw(c.p, ch).next == Advance {
      FeedOnce(sw, c, ch);
    }
    hide Feed;
  }

  lemma FeedStops(sw: Switcher, c: Config, ch: Byte)
    ensures sw(c.p, ch).next == Fail ==> Feed(sw, c, ch).Failed? && Feed(sw, c, ch).c.p.errno == sw(c.p, ch).errno
  {
    hide Put, Tell, Rank;
  }

  predicate NumberParsed(c: Config, vs: Bytes, s: Step)
    requires NumberText(vs)
  {
    if DecValue(vs) < HUGE_LENGTH then s == Running(NumberSoFar(c, vs, DecValue(vs)))
    else s.Failed? && s.c.p.errno == HugeContentLength
  }

  lemma NumberStep(sw: Switcher, settings: Settings, c: Config, front: Bytes, last: Byte, s: Step)
    requires Runs(sw, settings)
    requires c.p.hstate.ContentLength? && c.p.errno == Ok && NumberText(front + [last]) && NumberText(front)
    requires NumberParsed(c, front, s)
    ensures NumberParsed(c, front + [last], if s.Running? then Feed(sw, s.c, last) else s)
  {
    hide Runs, Feed;
    assert (front + [last])[..|front|] == front && (front + [last])[|front|] == last;
    assert IsNum(last) || last == ' ';
    if s.Running? {
      NextDigit(sw, settings, s.c, last);
    }
  }

  /**
   * A Content-Length value is the decimal value of its digits; it never overflows, and is refused as huge
   * exactly when that value is at least HUGE_LENGTH.
   */
  lemma {:induction false} ContentLengthExact(sw: Switcher, settings: Settings, c: Config, vs: Bytes)
    requires Runs(sw, settings)
    requires c.p.state.HeaderValueStart? && c.p.hstate.ContentLength? && c.live.None? && c.p.errno == Ok
    requires vs != [] && IsNum(vs[0]) && NumberText(vs)
    ensures NumberParsed(c, vs, FeedAll(sw, c, vs))
    decreases |vs|
  {
    hide Runs, Feed, FeedAll, NumberParsed;
    var front, last := vs[..|vs| - 1], vs[|vs| - 1];
    assert vs == front + [last];
    if |vs| == 1 {
      assert vs == [last];
      FirstDigit(sw, settings, c, last);
      FeedSingle(sw, c, last);
      OneDecimal(c, last, Feed(sw, c, last));
    } else {
      ContentLengthExact(sw, settings, c, front);
      FeedAllConcat(sw, c, front, [last]);
      var s := FeedAll(sw, c, front);
      FeedSingle(sw, s.c, last);
      NumberStep(sw, settings, c, front, last, s);
    }
  }

  lemma OneDecimal(c: Config, ch: Byte, s: Step)
    requires IsNum(ch) && s == Running(NumberSoFar(c, [ch], Digit(ch)))
    ensures NumberParsed(c, [ch], s)
  {
    assert [ch][..0] == [];
    assert DecValue([]) == 0;
    assert DecValue([ch]) == Digit(ch);
  }
}
