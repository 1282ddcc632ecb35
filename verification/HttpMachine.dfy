/**
 * The parser one byte at a time.  A `Config` is everything http_parser_execute_options keeps while it
 * walks over one buffer; `Execute` is one whole call.  There are no fast paths and no positions here:
 * a live mark is the list of bytes it covers.  Everything is a function of the `switch` that is run.
 */
module HttpMachine {
  import opened HttpTypes
  import opened HttpSwitch

  // ----- traces -----

  datatype Item = Note(event: Event) | Text(kind: Kind, bytes: Bytes)

  /**
   * What the callbacks were told, with consecutive data callbacks of one kind joined.  (A client must
   * join them too: the parser documents that it may deliver one string in any number of pieces.)
   */
  type Trace = seq<Item>

  /** One data callback. */
  function Put(t: Trace, k: Kind, bs: Bytes): (r: Trace)
    ensures |r| > 0 && r[|r| - 1].Text? && r[|r| - 1].kind == k
  {
    if |t| > 0 && t[|t| - 1].Text? && t[|t| - 1].kind == k
    then t[..|t| - 1] + [Text(k, t[|t| - 1].bytes + bs)]
    else t + [Text(k, bs)]
  }

  lemma PutPut(t: Trace, k: Kind, x: Bytes, y: Bytes)
    ensures Put(Put(t, k, x), k, y) == Put(t, k, x + y)
  {
    var u := Put(t, k, x);
    if |t| > 0 && t[|t| - 1].Text? && t[|t| - 1].kind == k {
      assert (t[|t| - 1].bytes + x) + y == t[|t| - 1].bytes + (x + y);
      assert u[..|u| - 1] == t[..|t| - 1];
    } else {
      assert u[..|u| - 1] == t;
    }
  }

  // ----- configurations -----

  /**
   * `live` is the mark that is set, if any, and `held` the bytes it covers so far; `out` is what has
   * been delivered; `nread` counts header bytes; `used` is `p - data`; `start` is
   * `data_or_header_data_start - data`.
   */
  datatype Config = Config(
    p: Parser, live: Option<Kind>, held: Bytes, out: Trace,
    nread: nat, used: nat, start: nat)

  function SetMark(c: Config, m: Option<Kind>): Config
  {
    if m.None? || c.live == m then c else c.(live := m, held := [])
  }

  function DropMark(c: Config, f: Flush, ch: Byte): Config
  {
    if f.NoFlush? || c.live != Some(f.kind) then c
    else
      var bs := if f.FlushThrough? then c.held + [ch] else c.held;
      c.(live := None, held := [], out := Put(c.out, f.kind, bs))
  }

  /** The synthetic space and the notify callback. */
  function Tell(t: Trace, o: Outcome): Trace
  {
    var u := if o.space then Put(t, Value, [' ']) else t;
    if o.note.Some? then u + [Note(o.note.value)] else u
  }

  /** Performs the side effects of one visit. */
  function Perform(c: Config, o: Outcome, ch: Byte): Config
  {
    var d := DropMark(SetMark(c, o.mark), o.flush, ch);
    var e := d.(p := o.After(), out := Tell(d.out, o));
    if o.reset then e.(nread := 0, start := c.used) else e
  }

  /** `p++` in the for loop. */
  function Absorb(c: Config, ch: Byte): Config
  {
    c.(used := c.used + 1, held := if c.live.Some? then c.held + [ch] else c.held)
  }

  datatype Step = Running(c: Config) | Failed(c: Config) | Exited(c: Config) | Aborted(c: Config)

  /** Every `goto reexecute_byte` must lower this rank, so that no byte is looked at for ever. */
  function Rank(s: State): (r: nat)
  {
    match s
    case HeaderValueLws => 3
    case PreStartReqOrRes | HeaderFieldStart | ReqPath | ReqQueryStringStart | ReqQueryString
       | ReqFragmentStart | ReqFragment | ReqHttpMinor => 2
    case StartReqOrRes | PreStartReq | PreStartRes | ReqSpacesBeforeUrl | ReqHost | HeaderValue
       | HeadersAlmostDone | BodyIdentity => 1
    case _ => 0
  }

  /** One iteration of the for loop, with its chain of `reexecute_byte` jumps. */
  function Feed(sw: Switcher, c: Config, ch: Byte): Step
    decreases Rank(c.p.state)
  {
    var o := sw(c.p, ch);
    var d := Perform(c, o, ch);
    match o.next
    case Advance => Running(Absorb(d, ch))
    case Again => if Rank(d.p.state) < Rank(c.p.state) then Feed(sw, d, ch) else Aborted(d)
    case Fail => Failed(d)
    case Exit => Exited(d.(used := d.used + 1))
    case Abort => Aborted(d)
  }

  /** A byte that takes one visit. */
  lemma FeedOnce(sw: Switcher, c: Config, ch: Byte)
    requires sw(c.p, ch).next == Advance
    ensures Feed(sw, c, ch) == Running(Absorb(Perform(c, sw(c.p, ch), ch), ch))
  {
  }

  /** A byte that takes two visits. */
  lemma FeedTwice(sw: Switcher, c: Config, ch: Byte)
    requires sw(c.p, ch).next == Again && Rank(sw(c.p, ch).to) < Rank(c.p.state)
    ensures Feed(sw, c, ch) == Feed(sw, Perform(c, sw(c.p, ch), ch), ch)
  {
  }

  function FeedAll(sw: Switcher, c: Config, data: Bytes): Step
    decreases |data|
  {
    if data == [] then Running(c)
    else
      match Feed(sw, c, data[0])
      case Running(d) => FeedAll(sw, d, data[1..])
      case stop => stop
  }

  lemma {:induction false} FeedAllConcat(sw: Switcher, c: Config, a: Bytes, b: Bytes)
    ensures FeedAll(sw, c, a + b) ==
            match FeedAll(sw, c, a)
            case Running(d) => FeedAll(sw, d, b)
            case stop => stop
    decreases |a|
  {
    if a == [] {
      assert a + b == b;
    } else {
      assert (a + b)[1..] == a[1..] + b;
      match Feed(sw, c, a[0])
      case Running(d) => FeedAllConcat(sw, d, a[1..], b);
      case _ =>
    }
  }

  lemma Then(sw: Switcher, c: Config, a: Bytes, d: Config, b: Bytes)
    requires FeedAll(sw, c, a) == Running(d)
    ensures FeedAll(sw, c, a + b) == FeedAll(sw, d, b)
  {
    hide FeedAll;
    FeedAllConcat(sw, c, a, b);
  }

  // ----- one call -----

  predicate InUrl(s: State)
  {
    s.ReqPath? || s.ReqSchema? || s.ReqSchemaSlash? || s.ReqSchemaSlashSlash? || s.ReqPort?
    || s.ReqQueryStringStart? || s.ReqQueryString? || s.ReqHostStart? || s.ReqHost? || s.ReqHostIpv6?
    || s.ReqHostDone? || s.ReqFragmentStart? || s.ReqFragment?
  }

  /** The mark that a call sets before it reads its first byte. */
  function ResumeMark(s: State): Option<Kind>
  {
    if s.HeaderField? then Some(Field)
    else if s.HeaderValue? then Some(Value)
    else if InUrl(s) then Some(Url)
    else if s.ResStatus? then Some(Reason)
    else None
  }

  function Begin(p: Parser, nread: nat, out: Trace): Config
  {
    Config(p, ResumeMark(p.state), [], out, nread, 0, 0)
  }

  /** What a call leaves behind: the parser with its byte count, everything delivered, and its return value. */
  datatype Result = Result(p: Parser, nread: nat, out: Trace, used: nat)

  /** Delivered and held bytes together. */
  function Total(c: Config): Trace
  {
    if c.live.Some? then Put(c.out, c.live.value, c.held) else c.out
  }

  /** `parser->nread += p - data_or_header_data_start`, a 32-bit counter. */
  function HeaderBytes(c: Config): (n: nat)
    requires c.start <= c.used
  {
    (c.nread + (c.used - c.start)) % TWO_TO_THE_32
  }

  /** The bytes ran out: check the header size, then deliver what is still marked. */
  function Finish(c: Config): Result
    requires c.start <= c.used
  {
    if !ParsingHeader(c.p.state) then Result(c.p, c.nread, Total(c), c.used)
    else if HeaderBytes(c) > MAX_HEADER_SIZE then
      Result(c.p.(errno := HeaderOverflow), HeaderBytes(c), c.out, c.used)
    else Result(c.p, HeaderBytes(c), Total(c), c.used)
  }

  /** The end of a call.  After an error or an early exit, marked bytes are not delivered. */
  function Conclude(s: Step): Result
    requires s.c.start <= s.c.used
  {
    if s.Running? then Finish(s.c) else Result(s.c.p, s.c.nread, s.c.out, s.c.used)
  }

  /** A call with no data announces the end of the connection. */
  function EndOfInput(p: Parser, nread: nat, out: Trace): Result
  {
    match p.state
    case BodyIdentityEof => Result(p, nread, out + [Note(MessageComplete)], 0)
    case PreStartReqOrRes | PreStartRes | PreStartReq => Result(p, nread, out, 0)
    case _ => Result(p.(errno := InvalidEofState), nread, out, 1)
  }

  /** Parsing `data` after the callbacks were told `out`. */
  function Execute(sw: Switcher, p: Parser, nread: nat, out: Trace, data: Bytes): Result
  {
    if p.errno != Ok then Result(p, nread, out, 0)
    else if data == [] then EndOfInput(p, nread, out)
    else
      StartWithinUsed(sw, Begin(p, nread, out), data);
      Conclude(FeedAll(sw, Begin(p, nread, out), data))
  }

  lemma {:induction false} FeedCounts(sw: Switcher, c: Config, ch: Byte)
    requires c.start <= c.used
    ensures var d := Feed(sw, c, ch).c; d.start <= d.used
    ensures Feed(sw, c, ch).Running? ==> Feed(sw, c, ch).c.used == c.used + 1
    decreases Rank(c.p.state)
  {
    var o := sw(c.p, ch);
    var d := Perform(c, o, ch);
    if o.next == Again && Rank(d.p.state) < Rank(c.p.state) {
      FeedCounts(sw, d, ch);
    }
  }

  lemma {:induction false} StartWithinUsed(sw: Switcher, c: Config, data: Bytes)
    requires c.start <= c.used
    ensures var d := FeedAll(sw, c, data).c; d.start <= d.used
    ensures FeedAll(sw, c, data).Running? ==> FeedAll(sw, c, data).c.used == c.used + |data|
    decreases |data|
  {
    if data != [] {
      FeedCounts(sw, c, data[0]);
      match Feed(sw, c, data[0])
      case Running(d) => StartWithinUsed(sw, d, data[1..]);
      case _ =>
    }
  }
}
