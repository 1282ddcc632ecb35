/**
 * Chunked bodies in full (section 4.1 of RFC 7230): sizes with any hexadecimal digits, chunk extensions, and header
 * lines behind the last chunk.
 */
module HttpTrailers {
  import opened HttpTypes
  import opened HttpSwitch
  import opened HttpMachine
  import opened HttpFast
  import opened HttpLengths
  import opened HttpBodies
  import opened HttpFields

  /** The digits of the size, an extension, and the data. */
  datatype Chunk = Chunk(digits: Bytes, extension: Bytes, data: Bytes)

  /** An extension begins with a semicolon or a space and ends with the line. */
  predicate ProperExtension(e: Bytes)
  {
    (e != [] ==> e[0] == ';' || e[0] == ' ') && forall i | 0 <= i < |e| :: e[i] != CR
  }

  predicate ProperSize(k: Chunk)
  {
    k.digits != [] && AllHex(k.digits) && HexValue(k.digits) == |k.data| <= INT64_MAX && ProperExtension(k.extension)
  }

  predicate ProperChunk(k: Chunk) { ProperSize(k) && k.data != [] }

  function SizeLine(k: Chunk): Bytes { k.digits + (k.extension + [CR] + [LF]) }

  function ChunkText(k: Chunk): Bytes { SizeLine(k) + (k.data + [CR, LF]) }

  function ChunkTexts(ks: seq<Chunk>): Bytes
  {
    if ks == [] then [] else ChunkText(ks[0]) + ChunkTexts(ks[1..])
  }

  predicate AtExtension(c: Config)
  {
    c.p.state.ChunkParameters? && c.p.chunked && c.p.errno == Ok && c.live.None? && c.held == []
  }

  function Extended(c: Config, n: nat): Config { c.(p := c.p.(state := ChunkParameters), used := c.used + n) }

  lemma ExtensionByte(sw: Switcher, settings: Settings, c: Config, ch: Byte)
    requires Runs(sw, settings) && (AtExtension(c) || (AtChunkSize(c) && c.p.state.ChunkSize?)) && ch != CR
    requires c.p.state.ChunkSize? ==> ch == ';' || ch == ' '
    ensures Feed(sw, c, ch) == Running(Extended(c, 1))
  {
    hide Runs, Feed;
    VisitsChunk(sw, settings, c.p, ch);
    FeedOnce(sw, c, ch);
  }

  lemma {:induction false} ExtensionRun(sw: Switcher, settings: Settings, c: Config, e: Bytes)
    requires Runs(sw, settings) && AtExtension(c) && forall i | 0 <= i < |e| :: e[i] != CR
    ensures FeedAll(sw, c, e) == Running(Extended(c, |e|))
    decreases |e|
  {
    hide Runs, Feed;
    if e != [] {
      ExtensionByte(sw, settings, c, e[0]);
      ExtensionRun(sw, settings, Extended(c, 1), e[1..]);
    }
  }

  lemma ExtensionEnds(sw: Switcher, settings: Settings, c: Config)
    requires Runs(sw, settings) && AtExtension(c)
    ensures FeedAll(sw, c, [CR]) == Running(c.(p := c.p.(state := ChunkSizeAlmostDone), used := c.used + 1))
  {
    hide Runs, Feed, FeedAll;
    VisitsChunk(sw, settings, c.p, CR);
    FeedSingle(sw, c, CR);
    FeedOnce(sw, c, CR);
  }

  /** An extension is skipped up to the end of its line. */
  lemma Extension(sw: Switcher, settings: Settings, c: Config, e: Bytes)
    requires Runs(sw, settings) && AtChunkSize(c) && c.p.state.ChunkSize? && ProperExtension(e)
    ensures FeedAll(sw, c, e + [CR]) ==
            Running(c.(p := c.p.(state := ChunkSizeAlmostDone), used := c.used + |e| + 1))
  {
    hide Runs, Feed, FeedAll;
    if e == [] {
      assert e + [CR] == [CR];
      SizeEnds(sw, settings, c);
    } else {
      var d, f := Extended(c, 1), Extended(c, |e|);
      ExtensionByte(sw, settings, c, e[0]);
      FeedSingle(sw, c, e[0]);
      ExtensionRun(sw, settings, d, e[1..]);
      ExtensionEnds(sw, settings, f);
      Then(sw, d, e[1..], f, [CR]);
      Then(sw, c, [e[0]], d, e[1..] + [CR]);
      assert [e[0]] + (e[1..] + [CR]) == e + [CR];
    }
  }

  /** A size line, with any digits and any extension. */
  lemma SizeLineRead(sw: Switcher, settings: Settings, c: Config, k: Chunk)
    requires Runs(sw, settings) && AtChunks(c) && ProperSize(k)
    ensures FeedAll(sw, c, SizeLine(k)) ==
            Running(c.(p := if k.data == [] then c.p.(contentLength := 0, trailing := true, state := HeaderFieldStart)
                            else c.p.(contentLength := |k.data|, state := ChunkData),
                       out := c.out + [Note(ChunkHeader(|k.data|))], used := c.used + |SizeLine(k)|))
  {
    hide Runs, FeedAll, HexValue, AllHex, ProperExtension;
    var n, hs := |k.data|, k.digits;
    ChunkSizeExact(sw, settings, c, hs);
    var d := SizeSoFar(c, n, c.used + |hs|);
    var e := d.(p := d.p.(state := ChunkSizeAlmostDone), used := d.used + |k.extension| + 1);
    Extension(sw, settings, d, k.extension);
    SizeLineEnds(sw, settings, e);
    Then(sw, d, k.extension + [CR], e, [LF]);
    Then(sw, c, hs, d, k.extension + [CR] + [LF]);
  }

  function AfterData(c: Config, k: Chunk): Config
  {
    var n := |ChunkText(k)|;
    c.(p := c.p.(contentLength := 0), out := c.out + ChunkItems(k.data), nread := 0, used := c.used + n,
       start := c.used + n - 1)
  }

  lemma ChunkRead(sw: Switcher, settings: Settings, c: Config, k: Chunk)
    requires Runs(sw, settings) && AtChunks(c) && ProperChunk(k)
    ensures FeedAll(sw, c, ChunkText(k)) == Running(AfterData(c, k))
  {
    hide Runs, FeedAll, SizeLine, ProperSize;
    var b := k.data;
    var d := c.(p := c.p.(contentLength := |b|, state := ChunkData), out := c.out + [Note(ChunkHeader(|b|))],
                used := c.used + |SizeLine(k)|);
    SizeLineRead(sw, settings, c, k);
    ReadData(sw, settings, d, b);
    Then(sw, c, SizeLine(k), d, b + [CR, LF]);
    assert d.out + [Text(Body, b), Note(ChunkComplete)] == c.out + ChunkItems(b);
    LineNotEmpty(k);
  }

  lemma LineNotEmpty(k: Chunk)
    ensures |SizeLine(k)| >= 2
  {
  }

  function DataItems(ks: seq<Chunk>): Trace
  {
    if ks == [] then [] else ChunkItems(ks[0].data) + DataItems(ks[1..])
  }

  predicate ChunksTold(c: Config, s: Step, ks: seq<Chunk>)
  {
    && s.Running? && AtChunks(s.c) && s.c.p == c.p.(contentLength := s.c.p.contentLength)
    && s.c.out == c.out + DataItems(ks) && s.c.used == c.used + |ChunkTexts(ks)|
  }

  lemma OneMoreChunk(c: Config, s: Step, ks: seq<Chunk>)
    requires ks != [] && ChunksTold(AfterData(c, ks[0]), s, ks[1..])
    ensures ChunksTold(c, s, ks)
  {
    hide ChunkText, ChunkItems, AtChunks;
    assert c.out + ChunkItems(ks[0].data) + DataItems(ks[1..]) == c.out + DataItems(ks);
  }

  lemma {:induction false} ChunksRead(sw: Switcher, settings: Settings, c: Config, ks: seq<Chunk>)
    requires Runs(sw, settings) && AtChunks(c) && forall i | 0 <= i < |ks| :: ProperChunk(ks[i])
    ensures ChunksTold(c, FeedAll(sw, c, ChunkTexts(ks)), ks)
    decreases |ks|
  {
    hide Runs, FeedAll, ProperChunk, ChunkText, ChunksTold, ChunkItems;
    if ks == [] {
      NoChunks(sw, c);
    } else {
      var d := AfterData(c, ks[0]);
      ChunkRead(sw, settings, c, ks[0]);
      ChunksRead(sw, settings, d, ks[1..]);
      Then(sw, c, ChunkText(ks[0]), d, ChunkTexts(ks[1..]));
      OneMoreChunk(c, FeedAll(sw, d, ChunkTexts(ks[1..])), ks);
    }
  }

  lemma NoChunks(sw: Switcher, c: Config)
    requires AtChunks(c)
    ensures ChunksTold(c, FeedAll(sw, c, ChunkTexts([])), [])
  {
    assert c.out + [] == c.out;
  }

  // ----- trailers -----

  /** Trailers have been read, up to the empty line. */
  predicate TrailersRead(c: Config, s: Step, hs: seq<Header>, used: nat)
  {
    && s == Ended(s.c) && s.c.live.None? && s.c.held == [] && s.c.used == used && s.c.nread == 0
    && s.c.start == used - 1
    && s.c.p.state == NewMessage(c.p) && s.c.p.kind == c.p.kind && s.c.p.errno == Ok && s.c.p.upgrade == c.p.upgrade
    && s.c.out == c.out + HeaderItems(hs) + [Note(ChunkComplete), Note(MessageComplete)]
  }

  lemma TrailerEmptyLine(sw: Switcher, settings: Settings, c: Config)
    requires Runs(sw, settings) && AtLine(c) && c.p.trailing
    ensures FeedAll(sw, c, [CR, LF]) == Ended(Complete(Fresh(c), c.out + [Note(ChunkComplete)], 2))
  {
    hide Runs, FeedAll;
    LineStarts(sw, settings, c, [CR, LF]);
    ReadEnd(sw, settings, Fresh(c));
  }

  /** Header lines behind the last chunk are told like others, before the message is complete. */
  lemma Trailers(sw: Switcher, settings: Settings, c: Config, hs: seq<Header>)
    requires Runs(sw, settings) && AtLine(c) && c.p.trailing && ProperHeaders(hs) && EndsHeader(c.out)
    ensures TrailersRead(c, FeedAll(sw, c, Block(hs) + [CR, LF]), hs, c.used + |Block(hs)| + 2)
  {
    hide Runs, FeedAll, ProperHeaders, EndsHeader, Block, HeaderItems, SaysAll;
    HeaderBlock(sw, settings, c, hs);
    var d := FeedAll(sw, c, Block(hs)).c;
    TrailerEmptyLine(sw, settings, d);
    Then(sw, c, Block(hs), d, [CR, LF]);
    assert c.out + HeaderItems(hs) + [Note(ChunkComplete)] + [Note(MessageComplete)]
        == c.out + HeaderItems(hs) + [Note(ChunkComplete), Note(MessageComplete)];
  }

  /** A whole chunked body: chunks, a last one without data, and trailers. */
  function BodyText(ks: seq<Chunk>, last: Chunk, hs: seq<Header>): Bytes
  {
    ChunkTexts(ks) + (SizeLine(last) + (Block(hs) + [CR, LF]))
  }

  predicate BodyRead(c: Config, s: Step, ks: seq<Chunk>, last: Chunk, hs: seq<Header>)
  {
    && s == Ended(s.c) && s.c.p.state == NewMessage(c.p) && s.c.p.errno == Ok
    && s.c.live.None? && s.c.held == [] && s.c.used == c.used + |BodyText(ks, last, hs)|
    && s.c.out == c.out + (DataItems(ks) + [Note(ChunkHeader(0))] + HeaderItems(hs)
                           + [Note(ChunkComplete), Note(MessageComplete)])
  }

  /** Any chunked body is told exactly: each chunk with its size and data, then the trailers. */
  lemma ChunkedBody(sw: Switcher, settings: Settings, c: Config, ks: seq<Chunk>, last: Chunk, hs: seq<Header>)
    requires Runs(sw, settings) && AtChunks(c) && ProperHeaders(hs) && ProperSize(last) && last.data == []
    requires forall i | 0 <= i < |ks| :: ProperChunk(ks[i])
    ensures BodyRead(c, FeedAll(sw, c, BodyText(ks, last, hs)), ks, last, hs)
  {
    hide Runs, FeedAll, ProperHeaders, ProperSize, ProperChunk, ChunkTexts, SizeLine, Block, HeaderItems, DataItems;
    ChunksRead(sw, settings, c, ks);
    var d := FeedAll(sw, c, ChunkTexts(ks)).c;
    SizeLineRead(sw, settings, d, last);
    var e := FeedAll(sw, d, SizeLine(last)).c;
    Trailers(sw, settings, e, hs);
    Then(sw, d, SizeLine(last), e, Block(hs) + [CR, LF]);
    Then(sw, c, ChunkTexts(ks), d, SizeLine(last) + (Block(hs) + [CR, LF]));
    var items, end := DataItems(ks), [Note(ChunkComplete), Note(MessageComplete)];
    assert c.out + items + [Note(ChunkHeader(0))] + HeaderItems(hs) + end
        == c.out + (items + [Note(ChunkHeader(0))] + HeaderItems(hs) + end);
  }
}
