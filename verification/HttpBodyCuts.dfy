/** Bodies cut anywhere: what HttpBodies proves of one buffer holds of any non-empty pieces of it. */
module HttpBodyCuts {
  import opened HttpTypes
  import opened HttpSwitch
  import opened HttpMachine
  import opened HttpCuts
  import opened HttpDiscipline
  import opened HttpInvariant
  import opened HttpFast
  import opened HttpLengths
  import opened HttpBodies
  import opened HttpSegments

  /** Header bytes since the last reset, before they are reduced to 32 bits. */
  function Count(c: Config): int { c.nread + c.used - c.start }

  /** A place where the input may be cut. */
  predicate Fine(s: Step)
  {
    && s.Running? && s.c.p.errno == Ok && !Muted(s.c)
    && (ParsingHeader(s.c.p.state) ==> Count(s.c) <= MAX_HEADER_SIZE)
  }

  lemma FineConsumes(sw: Switcher, p: Parser, nread: nat, out: Trace, data: Bytes)
    requires data != [] && p.errno == Ok && Fine(At(sw, p, nread, out, data))
    ensures Consumes(sw, p, nread, out, data) && !Muted(At(sw, p, nread, out, data).c)
  {
    hide FeedAll, Put, ParsingHeader, Muted;
    StartWithinUsed(sw, Begin(p, nread, out), data);
  }

  // ----- every proper prefix of a good input can be cut off -----

  ghost predicate CutsAnywhere(sw: Switcher, p: Parser, nread: nat, out: Trace, data: Bytes)
  {
    forall k | 0 < k < |data| :: Fine(At(sw, p, nread, out, data[..k]))
  }

  lemma {:induction false} JoinShorter(pieces: seq<Bytes>, i: nat)
    requires Pieces(pieces) && 0 < i < |pieces|
    ensures 0 < |Join(pieces[..i])| < |Join(pieces)|
    ensures Join(pieces[..i]) == Join(pieces)[..|Join(pieces[..i])|]
    decreases |pieces|
  {
    var front := pieces[..|pieces| - 1];
    JoinPrefix(pieces, i);
    assert front[..i] == pieces[..i];
    if i < |front| {
      JoinShorter(front, i);
    } else {
      assert front[..i] == front;
      assert Join(front) == Join(front[..|front| - 1]) + front[|front| - 1];
    }
  }

  lemma InPieces(sw: Switcher, settings: Settings, p: Parser, nread: nat, out: Trace, pieces: seq<Bytes>)
    requires Runs(sw, settings) && p.errno == Ok && Pieces(pieces) && pieces != []
    requires CutsAnywhere(sw, p, nread, out, Join(pieces))
    ensures SameRun(RunCalls(sw, p, nread, out, pieces), Execute(sw, p, nread, out, Join(pieces)))
  {
    hide Runs, At, Fine, Join, Consumes, Muted;
    forall i | 0 < i < |pieces|
      ensures Consumes(sw, p, nread, out, Join(pieces[..i])) && !Muted(At(sw, p, nread, out, Join(pieces[..i])).c)
    {
      JoinShorter(pieces, i);
      assert Fine(At(sw, p, nread, out, Join(pieces)[..|Join(pieces[..i])|]));
      FineConsumes(sw, p, nread, out, Join(pieces[..i]));
    }
    SwitchIsDisciplined(sw, settings);
    hide Disciplined;
    ManyCuts(sw, p, nread, out, pieces);
  }

  // ----- a body of known length -----

  lemma BodyPrefix(sw: Switcher, settings: Settings, p: Parser, nread: nat, out: Trace, b: Bytes, k: nat)
    requires Runs(sw, settings) && p.state.BodyIdentity? && p.errno == Ok && 0 < k < p.contentLength == |b|
    ensures Fine(At(sw, p, nread, out, b[..k]))
  {
    hide Runs, FeedAll;
    var c := Begin(p, nread, out);
    MarksBody(sw, settings, c, b[..k]);
    BodyRun(sw, settings, c.(live := Some(Body)), b[..k]);
  }

  lemma BodyCall(sw: Switcher, settings: Settings, p: Parser, nread: nat, out: Trace, b: Bytes)
    requires Runs(sw, settings) && p.state.BodyIdentity? && p.errno == Ok && p.contentLength == |b| > 0
    ensures var r := Execute(sw, p, nread, out, b);
            && r.p == p.(contentLength := 0, state := NewMessage(p)) && r.used == |b|
            && r.out == Put(out, Body, b) + [Note(MessageComplete)]
  {
    hide Runs, FeedAll, Put;
    IdentityBody(sw, settings, Begin(p, nread, out), b);
  }

  /** However a body of length n is cut, its n bytes are delivered in order, and then the message is complete. */
  lemma BodyInPieces(sw: Switcher, settings: Settings, p: Parser, nread: nat, out: Trace, pieces: seq<Bytes>)
    requires Runs(sw, settings) && p.state.BodyIdentity? && p.errno == Ok && p.contentLength == |Join(pieces)| > 0
    requires Pieces(pieces)
    ensures var r := RunCalls(sw, p, nread, out, pieces);
            && r.p == p.(contentLength := 0, state := NewMessage(p))
            && r.out == Put(out, Body, Join(pieces)) + [Note(MessageComplete)]
  {
    hide Runs, Execute, RunCalls, Put, Fine;
    var b := Join(pieces);
    forall k | 0 < k < |b|
      ensures Fine(At(sw, p, nread, out, b[..k]))
    {
      BodyPrefix(sw, settings, p, nread, out, b, k);
    }
    hide At;
    InPieces(sw, settings, p, nread, out, pieces);
    BodyCall(sw, settings, p, nread, out, b);
  }

  // ----- the chunked coding -----

  /** A byte adds at most one to the count. */
  lemma {:induction false} FeedCount(sw: Switcher, c: Config, ch: Byte)
    requires c.start <= c.used
    ensures Count(Feed(sw, c, ch).c) <= Count(c) + 1 && Feed(sw, c, ch).c.used <= c.used + 1
    decreases Rank(c.p.state)
  {
    var o := sw(c.p, ch);
    var d := Perform(c, o, ch);
    hide Put, Tell;
    if o.next == Again && Rank(d.p.state) < Rank(c.p.state) {
      FeedCount(sw, d, ch);
    }
  }

  lemma {:induction false} FeedAllCount(sw: Switcher, c: Config, data: Bytes)
    requires c.start <= c.used
    ensures Count(FeedAll(sw, c, data).c) <= Count(c) + |data| && FeedAll(sw, c, data).c.used <= c.used + |data|
    decreases |data|
  {
    hide Feed, Count;
    if data != [] {
      FeedCount(sw, c, data[0]);
      FeedCounts(sw, c, data[0]);
      if Feed(sw, c, data[0]).Running? {
        FeedAllCount(sw, Feed(sw, c, data[0]).c, data[1..]);
      }
    }
  }

  /** A part of an input that is read to its end is read to its end. */
  lemma PrefixRuns(sw: Switcher, c: Config, data: Bytes, k: nat)
    requires c.start <= c.used && k <= |data| && FeedAll(sw, c, data).c.used == c.used + |data|
    requires FeedAll(sw, c, data).Running? || k < |data|
    ensures FeedAll(sw, c, data[..k]).Running?
  {
    hide FeedAll, Count;
    assert data == data[..k] + data[k..];
    FeedAllConcat(sw, c, data[..k], data[k..]);
    FeedAllCount(sw, c, data[..k]);
  }

  /** A short stretch without a bare CR. */
  lemma ShortPrefix(sw: Switcher, settings: Settings, c: Config, data: Bytes, k: nat)
    requires Runs(sw, settings) && c.p.errno == Ok && c.start <= c.used && Count(c) + |data| <= MAX_HEADER_SIZE
    requires !c.p.state.HeaderValue? && !c.p.state.HeaderAlmostDone?
    requires NoBareCR(data) && k <= |data| && FeedAll(sw, c, data).c.used == c.used + |data|
    requires FeedAll(sw, c, data).Running? || k < |data|
    ensures Fine(FeedAll(sw, c, data[..k]))
  {
    PrefixRuns(sw, c, data, k);
    FeedAllCount(sw, c, data[..k]);
    assert forall i | 0 <= i < k :: data[..k][i] == data[i];
    QuietIsWhole(sw, settings, c, data[..k]);
    FeedAllQuiet(sw, settings, c, data[..k]);
    SwitchIsDisciplined(sw, settings);
    hide Runs, Disciplined, FeedAll, Muted, ParsingHeader, Count;
    FeedAllErrno(sw, c, data[..k]);
  }

  function Pow16(k: nat): (r: nat)
    ensures r > 0
  {
    if k == 0 then 1 else 16 * Pow16(k - 1)
  }

  lemma {:induction false} HexLength(n: nat, k: nat)
    requires k > 0 && n < Pow16(k)
    ensures |HexOf(n)| <= k
    decreases n
  {
    if n >= 16 {
      assert k > 1 by { assert Pow16(1) == 16 * Pow16(0); }
      HexLength(n / 16, k - 1);
    }
  }

  lemma ShortSize(n: nat)
    requires n <= INT64_MAX
    ensures |HexOf(n)| <= 16
  {
    hide HexOf;
    assert Pow16(4) == 0x1_0000 by { assert Pow16(2) == 0x100; }
    assert Pow16(8) == 0x1_0000_0000 by { assert Pow16(6) == 0x100_0000; }
    assert Pow16(12) == 0x1_0000_0000_0000 by { assert Pow16(10) == 0x100_0000_0000; }
    assert Pow16(16) == 0x1_0000_0000_0000_0000 by { assert Pow16(14) == 0x100_0000_0000_0000; }
    HexLength(n, 16);
  }

  lemma SizeLineQuiet(n: nat)
    ensures NoBareCR(HexOf(n) + [CR, LF])
  {
    var hs := HexOf(n);
    hide HexOf;
    forall i | 0 <= i < |hs|
      ensures hs[i] != CR
    {
      assert Unhex(hs[i]) != -1;
    }
  }

  lemma LinePrefix(sw: Switcher, settings: Settings, c: Config, n: nat, k: nat)
    requires Runs(sw, settings) && AtChunks(c) && c.start <= c.used
             && Count(c) + 20 <= MAX_HEADER_SIZE && n <= INT64_MAX
    requires k <= |HexOf(n)| + 2
    ensures Fine(FeedAll(sw, c, (HexOf(n) + [CR, LF])[..k]))
  {
    hide Runs, FeedAll, HexOf, Fine, NoBareCR;
    ShortSize(n);
    SizeLineQuiet(n);
    ReadSizeLine(sw, settings, c, n);
    ShortPrefix(sw, settings, c, HexOf(n) + [CR, LF], k);
  }

  lemma DataPrefix(sw: Switcher, settings: Settings, c: Config, b: Bytes, j: nat)
    requires Runs(sw, settings) && c.p.state.ChunkData? && c.p.chunked && c.p.errno == Ok
    requires c.live.None? && c.held == [] && c.p.contentLength == |b| && 0 < j <= |b| + 1 && |b| > 0
    ensures Fine(FeedAll(sw, c, (b + [CR, LF])[..j]))
  {
    hide Runs, FeedAll, Put;
    var data := (b + [CR, LF])[..j];
    MarksBody(sw, settings, c, data);
    var c1 := c.(live := Some(Body));
    if j <= |b| {
      assert data == b[..j];
      ChunkRun(sw, settings, c1, data);
    } else {
      assert data == b + [CR];
      ChunkRun(sw, settings, c1, b);
      var c2 := Extend(InChunk(c1, 0), b);
      Then(sw, c1, b, c2, [CR]);
      DataEnds(sw, settings, c2);
    }
  }

  /** Any proper prefix of one chunk. */
  lemma ChunkPrefix(sw: Switcher, settings: Settings, c: Config, b: Bytes, k: nat)
    requires Runs(sw, settings) && AtChunks(c) && c.start <= c.used
             && Count(c) + 20 <= MAX_HEADER_SIZE && 0 < |b| <= INT64_MAX
    requires k < |EncodeChunk(b)|
    ensures Fine(FeedAll(sw, c, EncodeChunk(b)[..k]))
  {
    hide Runs, FeedAll, HexOf, Fine, Count;
    var n := |b|;
    var line := HexOf(n) + [CR, LF];
    assert EncodeChunk(b) == line + (b + [CR, LF]);
    if k <= |line| {
      assert EncodeChunk(b)[..k] == line[..k];
      LinePrefix(sw, settings, c, n, k);
    } else {
      assert EncodeChunk(b)[..k] == line + (b + [CR, LF])[..k - |line|];
      ReadSizeLine(sw, settings, c, n);
      var d := FeedAll(sw, c, line).c;
      Then(sw, c, line, d, (b + [CR, LF])[..k - |line|]);
      DataPrefix(sw, settings, d, b, k - |line|);
    }
  }

  lemma {:induction false} EncodePrefix(sw: Switcher, settings: Settings, c: Config, chunks: seq<Bytes>, k: nat)
    requires Runs(sw, settings) && AtChunks(c) && c.start <= c.used
             && Count(c) + 20 <= MAX_HEADER_SIZE && ProperChunks(chunks)
    requires k < |Encode(chunks)|
    ensures Fine(FeedAll(sw, c, Encode(chunks)[..k]))
    decreases |chunks|
  {
    hide Runs, FeedAll, Fine, EncodeChunk, ReadsBody;
    if chunks == [] {
      ReadLastChunk(sw, settings, c);
      ShortPrefix(sw, settings, c, Encode([]), k);
    } else {
      var one := EncodeChunk(chunks[0]);
      if k < |one| {
        assert Encode(chunks)[..k] == one[..k];
        ChunkPrefix(sw, settings, c, chunks[0], k);
      } else {
        ReadChunk(sw, settings, c, chunks[0]);
        var d := AfterChunk(c, chunks[0]);
        assert Encode(chunks)[..k] == one + Encode(chunks[1..])[..k - |one|];
        Then(sw, c, one, d, Encode(chunks[1..])[..k - |one|]);
        EncodePrefix(sw, settings, d, chunks[1..], k - |one|);
      }
    }
  }

  predicate ReadsChunks(p: Parser)
  {
    p.state.ChunkSizeStart? && p.chunked && !p.trailing && p.errno == Ok
  }

  lemma ChunkedCall(sw: Switcher, settings: Settings, p: Parser, nread: nat, out: Trace, chunks: seq<Bytes>)
    requires Runs(sw, settings) && ReadsChunks(p) && ProperChunks(chunks)
    ensures var r := Execute(sw, p, nread, out, Encode(chunks));
            && r.p == p.(contentLength := 0, trailing := true, state := NewMessage(p))
            && r.out == out + AllItems(chunks) && r.used == |Encode(chunks)|
  {
    hide Runs, FeedAll, AllItems, EncodeChunk;
    ChunkedRoundTrip(sw, settings, Begin(p, nread, out), chunks);
  }

  /**
   * The chunked round trip, cut anywhere: the coding of any non-empty chunks, handed over in any non-empty
   * pieces, yields for every chunk its size, exactly its bytes and its end, then the last chunk and the end
   * of the message, and leaves the parser at the start of the next message.
   */
  lemma ChunksInPieces(
    sw: Switcher, settings: Settings, p: Parser, nread: nat, out: Trace, chunks: seq<Bytes>, pieces: seq<Bytes>)
    requires Runs(sw, settings) && ReadsChunks(p) && nread + 20 <= MAX_HEADER_SIZE && ProperChunks(chunks)
    requires Pieces(pieces) && Join(pieces) == Encode(chunks)
    ensures var r := RunCalls(sw, p, nread, out, pieces);
            && r.p == p.(contentLength := 0, trailing := true, state := NewMessage(p))
            && r.out == out + AllItems(chunks)
  {
    var data := Encode(chunks);
    assert data != [];
    assert pieces != [];
    hide Runs, Execute, RunCalls, Fine, Encode, AllItems, Join, ReadsBody;
    forall k | 0 < k < |data|
      ensures Fine(At(sw, p, nread, out, data[..k]))
    {
      hide FeedAll;
      EncodePrefix(sw, settings, Begin(p, nread, out), chunks, k);
    }
    hide At;
    InPieces(sw, settings, p, nread, out, pieces);
    ChunkedCall(sw, settings, p, nread, out, chunks);
  }
}
