/** Message bodies: a body of known length, and the chunked coding of section 4.1 of RFC 7230. */
module HttpBodies {
  import opened HttpTypes
  import opened HttpSwitch
  import opened HttpMachine
  import opened HttpFast
  import opened HttpLengths

  /** Reading on: the end of a message goes to the next one, or leaves the call after an upgrade. */
  function Ended(c: Config): Step { if c.p.upgrade then Exited(c) else Running(c) }

  // ----- a body of known length -----

  /** The message is complete; `nread` starts again at the byte that completed it. */
  function Complete(c: Config, out: Trace, n: nat): Config
    requires n > 0
  {
    c.(p := c.p.(state := NewMessage(c.p)), live := None, held := [], out := out + [Note(MessageComplete)],
       nread := 0, used := c.used + n, start := c.used + n - 1)
  }

  lemma DoneByte(sw: Switcher, settings: Settings, c: Config, ch: Byte)
    requires Runs(sw, settings) && c.p.state.MessageDone? && c.live.None? && c.held == [] && c.p.errno == Ok
    ensures Feed(sw, c, ch) == Ended(Complete(c, c.out, 1))
  {
    hide Runs, Rank;
    VisitsBody(sw, settings, c.p, ch);
    hide SwitchHeadersDone;
  }

  lemma LastBodyByte(sw: Switcher, settings: Settings, c: Config, ch: Byte)
    requires Runs(sw, settings) && ReadsBody(c) && c.p.state.BodyIdentity? && c.p.contentLength == 1
    ensures Feed(sw, c, ch) == Ended(Complete(Remaining(c, 0), Put(c.out, Body, c.held + [ch]), 1))
  {
    hide Runs, Put, Feed;
    VisitsBody(sw, settings, c.p, ch);
    var o := sw(c.p, ch);
    assert o == Outcome(c.p.(contentLength := 0), MessageDone, Again, mark := Some(Body), flush := FlushThrough(Body));
    var d := Perform(c, o, ch);
    assert d == c.(p := c.p.(contentLength := 0, state := MessageDone), live := None, held := [],
                   out := Put(c.out, Body, c.held + [ch]));
    FeedTwice(sw, c, ch);
    DoneByte(sw, settings, d, ch);
  }

  /** A first body byte that finds no mark sets it. */
  lemma MarksBody(sw: Switcher, settings: Settings, c: Config, b: Bytes)
    requires Runs(sw, settings) && b != [] && c.live.None? && c.held == [] && c.p.contentLength > 0
    requires c.p.state.BodyIdentity? || (c.p.state.ChunkData? && c.p.chunked)
    ensures FeedAll(sw, c, b) == FeedAll(sw, c.(live := Some(Body)), b)
  {
    hide Runs, Feed;
    assert sw(c.p, b[0]).mark == Some(Body) by {
      if c.p.state.BodyIdentity? {
        VisitsBody(sw, settings, c.p, b[0]);
      } else {
        VisitsChunk(sw, settings, c.p, b[0]);
      }
    }
    BodyMark(sw, c, b[0]);
  }

  /** A body of length n delivers exactly the next n bytes, in order, and then completes the message. */
  lemma IdentityBody(sw: Switcher, settings: Settings, c: Config, b: Bytes)
    requires Runs(sw, settings) && c.live.None? && c.held == [] && c.p.errno == Ok
    requires c.p.state.BodyIdentity? && c.p.contentLength == |b| > 0
    ensures FeedAll(sw, c, b) == Ended(Complete(Remaining(c, 0), Put(c.out, Body, b), |b|))
  {
    hide Runs, Feed, FeedAll, Put, NewMessage;
    MarksBody(sw, settings, c, b);
    var c1 := c.(live := Some(Body));
    var front, last := b[..|b| - 1], b[|b| - 1];
    assert b == front + [last];
    assert [] + front == front;
    BodyRun(sw, settings, c1, front);
    FeedAllConcat(sw, c1, front, [last]);
    var d := Extend(Remaining(c1, 1), front);
    FeedSingle(sw, d, last);
    LastBodyByte(sw, settings, d, last);
  }

  // ----- the chunked coding -----

  function HexDigit(d: nat): (c: Byte)
    requires d < 16
    ensures Unhex(c) == d
  {
    if d < 10 then (d + '0' as int) as char else (d - 10 + 'a' as int) as char
  }

  /** A number in hexadecimal, without leading zeros. */
  function HexOf(n: nat): (hs: Bytes)
    ensures hs != [] && AllHex(hs) && HexValue(hs) == n
  {
    if n < 16 then
      var hs := [HexDigit(n)];
      assert hs[..0] == [];
      hs
    else
      var front := HexOf(n / 16);
      var hs := front + [HexDigit(n % 16)];
      assert hs[..|hs| - 1] == front;
      hs
  }

  function EncodeChunk(b: Bytes): Bytes { HexOf(|b|) + [CR, LF] + b + [CR, LF] }

  /** The whole chunked body: every chunk, then the last chunk of size zero and no trailers. */
  function Encode(chunks: seq<Bytes>): Bytes
  {
    if chunks == [] then ['0', CR, LF, CR, LF] else EncodeChunk(chunks[0]) + Encode(chunks[1..])
  }

  /** What the callbacks are told about one chunk. */
  function ChunkItems(b: Bytes): Trace { [Note(ChunkHeader(|b|)), Text(Body, b), Note(ChunkComplete)] }

  function AllItems(chunks: seq<Bytes>): Trace
  {
    if chunks == [] then [Note(ChunkHeader(0)), Note(ChunkComplete), Note(MessageComplete)]
    else ChunkItems(chunks[0]) + AllItems(chunks[1..])
  }

  predicate AtChunks(c: Config)
  {
    c.p.state.ChunkSizeStart? && c.p.chunked && !c.p.trailing && c.p.errno == Ok && c.live.None? && c.held == []
  }

  lemma SizeEnds(sw: Switcher, settings: Settings, c: Config)
    requires Runs(sw, settings) && AtChunkSize(c) && c.p.state.ChunkSize?
    ensures FeedAll(sw, c, [CR]) == Running(c.(p := c.p.(state := ChunkSizeAlmostDone), used := c.used + 1))
  {
    hide Runs, Feed, Rank;
    FeedSingle(sw, c, CR);
    VisitsChunk(sw, settings, c.p, CR);
    FeedOnce(sw, c, CR);
  }

  lemma SizeLineEnds(sw: Switcher, settings: Settings, c: Config)
    requires Runs(sw, settings) && c.p.state.ChunkSizeAlmostDone? && c.p.chunked && c.p.errno == Ok && c.live.None?
    ensures FeedAll(sw, c, [LF]) ==
            Running(c.(p := if c.p.contentLength == 0 then c.p.(trailing := true, state := HeaderFieldStart)
                            else c.p.(state := ChunkData),
                       out := c.out + [Note(ChunkHeader(c.p.contentLength))], used := c.used + 1))
  {
    hide Runs, Feed, Rank;
    FeedSingle(sw, c, LF);
    VisitsChunk(sw, settings, c.p, LF);
    FeedOnce(sw, c, LF);
  }

  lemma DataEnds(sw: Switcher, settings: Settings, c: Config)
    requires Runs(sw, settings) && ReadsBody(c)
             && c.p.state.ChunkDataAlmostDone? && c.p.chunked && c.p.contentLength == 0
    ensures FeedAll(sw, c, [CR]) ==
            Running(c.(p := c.p.(state := ChunkDataDone), live := None, held := [],
                       out := Put(c.out, Body, c.held), used := c.used + 1))
  {
    hide Runs, Feed, Rank, Put;
    FeedSingle(sw, c, CR);
    VisitsChunk(sw, settings, c.p, CR);
    FeedOnce(sw, c, CR);
  }

  lemma ChunkEnds(sw: Switcher, settings: Settings, c: Config)
    requires Runs(sw, settings) && c.p.state.ChunkDataDone? && c.p.chunked && c.p.errno == Ok && c.live.None?
    ensures FeedAll(sw, c, [LF]) ==
            Running(c.(p := c.p.(state := ChunkSizeStart), out := c.out + [Note(ChunkComplete)],
                       nread := 0, used := c.used + 1, start := c.used))
  {
    hide Runs, Feed, Rank;
    FeedSingle(sw, c, LF);
    VisitsChunk(sw, settings, c.p, LF);
    FeedOnce(sw, c, LF);
  }

  /** The size line of a chunk. */
  lemma ReadSizeLine(sw: Switcher, settings: Settings, c: Config, n: nat)
    requires Runs(sw, settings) && AtChunks(c) && n <= INT64_MAX
    ensures FeedAll(sw, c, HexOf(n) + [CR, LF]) ==
            Running(c.(p := if n == 0 then c.p.(contentLength := n, trailing := true, state := HeaderFieldStart)
                            else c.p.(contentLength := n, state := ChunkData),
                       out := c.out + [Note(ChunkHeader(n))], used := c.used + |HexOf(n)| + 2))
  {
    hide Runs, FeedAll, HexOf;
    var hs := HexOf(n);
    ChunkSizeExact(sw, settings, c, hs);
    var c1 := SizeSoFar(c, n, c.used + |hs|);
    var c2 := c1.(p := c1.p.(state := ChunkSizeAlmostDone), used := c1.used + 1);
    Then(sw, c, hs, c1, [CR, LF]);
    SizeEnds(sw, settings, c1);
    Then(sw, c1, [CR], c2, [LF]);
    assert [CR] + [LF] == [CR, LF];
    SizeLineEnds(sw, settings, c2);
  }

  /** The data of a chunk and the line break after it. */
  lemma ReadData(sw: Switcher, settings: Settings, c: Config, b: Bytes)
    requires Runs(sw, settings) && c.p.state.ChunkData? && c.p.chunked && c.p.errno == Ok
    requires c.live.None? && c.held == [] && c.p.contentLength == |b| > 0
    requires |c.out| > 0 && c.out[|c.out| - 1].Note?
    ensures FeedAll(sw, c, b + [CR, LF]) ==
            Running(c.(p := c.p.(contentLength := 0, state := ChunkSizeStart),
                       out := c.out + [Text(Body, b), Note(ChunkComplete)],
                       nread := 0, used := c.used + |b| + 2, start := c.used + |b| + 1))
  {
    hide Runs, FeedAll;
    MarksBody(sw, settings, c, b + [CR, LF]);
    var c1 := c.(live := Some(Body));
    ChunkRun(sw, settings, c1, b);
    var c2 := Extend(InChunk(c1, 0), b);
    assert c.held + b == b;
    Then(sw, c1, b, c2, [CR, LF]);
    DataEnds(sw, settings, c2);
    var c3 := c2.(p := c2.p.(state := ChunkDataDone), live := None, held := [],
                  out := Put(c2.out, Body, b), used := c2.used + 1);
    Then(sw, c2, [CR], c3, [LF]);
    assert [CR] + [LF] == [CR, LF];
    ChunkEnds(sw, settings, c3);
    assert c.out + [Text(Body, b)] + [Note(ChunkComplete)] == c.out + [Text(Body, b), Note(ChunkComplete)];
  }

  function AfterChunk(c: Config, b: Bytes): Config
  {
    var n := |EncodeChunk(b)|;
    c.(p := c.p.(contentLength := 0), out := c.out + ChunkItems(b),
       nread := 0, used := c.used + n, start := c.used + n - 1)
  }

  lemma ReadChunk(sw: Switcher, settings: Settings, c: Config, b: Bytes)
    requires Runs(sw, settings) && AtChunks(c) && 0 < |b| <= INT64_MAX
    ensures FeedAll(sw, c, EncodeChunk(b)) == Running(AfterChunk(c, b))
  {
    hide Runs, FeedAll, HexOf;
    var n := |b|;
    var line := HexOf(n) + [CR, LF];
    var c1 := c.(p := c.p.(contentLength := n, state := ChunkData), out := c.out + [Note(ChunkHeader(n))],
                 used := c.used + |line|);
    ReadSizeLine(sw, settings, c, n);
    Then(sw, c, line, c1, b + [CR, LF]);
    assert EncodeChunk(b) == line + (b + [CR, LF]);
    ReadData(sw, settings, c1, b);
    assert c1.out + [Text(Body, b), Note(ChunkComplete)] == c.out + ChunkItems(b);
  }

  lemma EmptyLine(sw: Switcher, settings: Settings, c: Config)
    requires Runs(sw, settings) && c.p.state.HeaderFieldStart? && c.p.errno == Ok && c.live.None?
    ensures FeedAll(sw, c, [CR]) == Running(c.(p := c.p.(state := HeadersAlmostDone), used := c.used + 1))
  {
    hide Runs, Feed, Rank;
    FeedSingle(sw, c, CR);
    VisitsHeader(sw, settings, c.p, CR);
    FeedOnce(sw, c, CR);
  }

  lemma TrailerEnds(sw: Switcher, settings: Settings, c: Config)
    requires Runs(sw, settings) && c.p.state.HeadersAlmostDone? && c.p.trailing && c.p.errno == Ok
    requires c.live.None? && c.held == []
    ensures FeedAll(sw, c, [LF]) == Ended(Complete(c, c.out + [Note(ChunkComplete)], 1))
  {
    hide Runs, Feed;
    FeedSingle(sw, c, LF);
    VisitsBody(sw, settings, c.p, LF);
    FeedTwice(sw, c, LF);
    DoneByte(sw, settings, Perform(c, sw(c.p, LF), LF), LF);
  }

  /** The empty line after the last chunk. */
  lemma ReadEnd(sw: Switcher, settings: Settings, c: Config)
    requires Runs(sw, settings) && c.p.state.HeaderFieldStart? && c.p.trailing && c.p.errno == Ok
    requires c.live.None? && c.held == []
    ensures FeedAll(sw, c, [CR, LF]) == Ended(Complete(c, c.out + [Note(ChunkComplete)], 2))
  {
    hide Runs, FeedAll;
    var d := c.(p := c.p.(state := HeadersAlmostDone), used := c.used + 1);
    EmptyLine(sw, settings, c);
    Then(sw, c, [CR], d, [LF]);
    assert [CR] + [LF] == [CR, LF];
    TrailerEnds(sw, settings, d);
  }

  predicate ProperChunks(chunks: seq<Bytes>) { forall i | 0 <= i < |chunks| :: 0 < |chunks[i]| <= INT64_MAX }

  /** The last chunk, of size zero. */
  lemma LastChunkText()
    ensures HexOf(0) == ['0'] && Encode([]) == ['0'] + [CR, LF] + [CR, LF]
  {
  }

  lemma ReadLastChunk(sw: Switcher, settings: Settings, c: Config)
    requires Runs(sw, settings) && AtChunks(c)
    ensures var d := c.(p := c.p.(contentLength := 0, trailing := true), used := c.used + 3);
            FeedAll(sw, c, Encode([])) == Ended(Complete(d, c.out + [Note(ChunkHeader(0)), Note(ChunkComplete)], 2))
  {
    hide Runs, FeedAll, HexOf, Encode;
    LastChunkText();
    var d := c.(p := c.p.(contentLength := 0, trailing := true, state := HeaderFieldStart),
                out := c.out + [Note(ChunkHeader(0))], used := c.used + 3);
    ReadSizeLine(sw, settings, c, 0);
    Then(sw, c, ['0'] + [CR, LF], d, [CR, LF]);
    ReadEnd(sw, settings, d);
    assert c.out + [Note(ChunkHeader(0))] + [Note(ChunkComplete)]
        == c.out + [Note(ChunkHeader(0)), Note(ChunkComplete)];
  }

  /**
   * The chunked coding round trip: parsing the coding of any non-empty chunks reports each with its size, its
   * bytes and its end, then the last chunk and the end of the message, and is ready for the next message.
   */
  lemma {:induction false} ChunkedRoundTrip(sw: Switcher, settings: Settings, c: Config, chunks: seq<Bytes>)
    requires Runs(sw, settings) && AtChunks(c) && ProperChunks(chunks)
    ensures var s := FeedAll(sw, c, Encode(chunks));
            && s == Ended(s.c)
            && s.c.p == c.p.(contentLength := 0, trailing := true, state := NewMessage(c.p))
            && s.c.out == c.out + AllItems(chunks)
            && s.c.live.None? && s.c.held == [] && s.c.used == c.used + |Encode(chunks)|
            && s.c.nread == 0 && s.c.start == s.c.used - 1
    decreases |chunks|
  {
    hide Runs, FeedAll, EncodeChunk;
    if chunks == [] {
      ReadLastChunk(sw, settings, c);
      assert c.out + [Note(ChunkHeader(0)), Note(ChunkComplete)] + [Note(MessageComplete)] == c.out + AllItems([]);
    } else {
      var d := AfterChunk(c, chunks[0]);
      ReadChunk(sw, settings, c, chunks[0]);
      Then(sw, c, EncodeChunk(chunks[0]), d, Encode(chunks[1..]));
      ChunkedRoundTrip(sw, settings, d, chunks[1..]);
      assert c.out + ChunkItems(chunks[0]) + AllItems(chunks[1..]) == c.out + AllItems(chunks);
    }
  }
}
