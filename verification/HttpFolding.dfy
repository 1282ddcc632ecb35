/** Header values that go on in further lines (section 3.2.4 of RFC 7230): a line that begins with white space. */
module HttpFolding {
  import opened HttpTypes
  import opened HttpSwitch
  import opened HttpMachine
  import opened HttpFast
  import opened HttpLengths
  import opened HttpTokens
  import opened HttpCoding
  import opened HttpFields

  /** A further line: the byte it begins with, more white space, and its text. */
  datatype More = More(lead: Byte, pad: Bytes, text: Bytes)

  predicate IsBlank(ch: Byte) { ch == ' ' || ch == HT }

  predicate AllBlank(t: Bytes) { forall i | 0 <= i < |t| :: IsBlank(t[i]) }

  /** Quotes are counted anew in every line. */
  predicate ProperMore(k: More) { IsBlank(k.lead) && AllBlank(k.pad) && ProperText(k.text) && Closed(k.text) }

  function MoreText(k: More): Bytes { [k.lead] + (k.pad + (k.text + [CR, LF])) }

  function MoreLines(ks: seq<More>): Bytes
  {
    if ks == [] then [] else MoreText(ks[0]) + MoreLines(ks[1..])
  }

  /** What the lines add to the value: one space each, whatever white space they begin with, and their text. */
  function Added(ks: seq<More>): Bytes
  {
    if ks == [] then [] else [' '] + ks[0].text + Added(ks[1..])
  }

  predicate Ordinary(h: HeaderState) { !h.ContentLength? && !h.TransferEncoding? && !h.Upgrade? }

  predicate AtText(c: Config)
  {
    c.p.state.HeaderValueStart? && c.live.None? && c.held == [] && c.p.errno == Ok
  }

  lemma BlankByte(sw: Switcher, settings: Settings, c: Config, ch: Byte)
    requires Runs(sw, settings) && AtText(c) && IsBlank(ch)
    ensures FeedAll(sw, c, [ch]) == Running(c.(used := c.used + 1))
  {
    hide Runs, Feed, FeedAll, Put;
    VisitsHeader(sw, settings, c.p, ch);
    FeedSingle(sw, c, ch);
    FeedOnce(sw, c, ch);
  }

  lemma {:induction false} Blanks(sw: Switcher, settings: Settings, c: Config, t: Bytes)
    requires Runs(sw, settings) && AtText(c) && AllBlank(t)
    ensures FeedAll(sw, c, t) == Running(c.(used := c.used + |t|))
    decreases |t|
  {
    hide Runs, FeedAll;
    if t == [] {
      NothingFed(sw, c);
    } else {
      var d := c.(used := c.used + 1);
      BlankByte(sw, settings, c, t[0]);
      Blanks(sw, settings, d, t[1..]);
      Then(sw, c, [t[0]], d, t[1..]);
      assert t == [t[0]] + t[1..];
    }
  }

  lemma NothingFed(sw: Switcher, c: Config)
    ensures FeedAll(sw, c, []) == Running(c)
  {
  }

  /** A line of an ordinary value has been read. */
  predicate TextRead(c: Config, d: Config, text: Bytes, used: nat)
  {
    && d == c.(p := d.p, out := Put(c.out, Value, text), used := used)
    && d.p == c.p.(state := HeaderValueLws, hstate := d.p.hstate, index := 0) && Quotes(d.p.hstate)
  }

  lemma TextLine(sw: Switcher, settings: Settings, c: Config, text: Bytes)
    requires Runs(sw, settings) && AtText(c) && Ordinary(c.p.hstate) && ProperText(text) && Closed(text)
    ensures var s := FeedAll(sw, c, text + [CR, LF]); s.Running? && TextRead(c, s.c, text, c.used + |text| + 2)
  {
    hide Runs, Feed, FeedAll, Put, ValueByte, Quote;
    if text == [] {
      assert text + [CR, LF] == [CR, LF];
      EmptyValue(sw, settings, c);
    } else {
      FirstOfValue(sw, settings, c, text[0]);
      var d := Feed(sw, c, text[0]).c;
      FeedSingle(sw, c, text[0]);
      Then(sw, c, [text[0]], d, text[1..]);
      assert [text[0]] + text[1..] == text;
      QuoteQuotes(General, text[0]);
      ValueRun(sw, settings, d, text[1..]);
      QuotingQuotes(d.p.hstate, text[1..]);
      var e := FeedAll(sw, c, text).c;
      ValueEnds(sw, settings, e);
      Then(sw, c, text, e, [CR, LF]);
    }
  }

  /** White space at the beginning of a line tells the callbacks a space. */
  lemma LineGoesOn(sw: Switcher, settings: Settings, c: Config, ch: Byte)
    requires Runs(sw, settings) && c.p.state.HeaderValueLws? && c.live.None? && c.p.errno == Ok && IsBlank(ch)
    ensures FeedAll(sw, c, [ch]) ==
            Running(c.(p := c.p.(state := HeaderValueStart), out := Put(c.out, Value, [' ']), used := c.used + 1))
  {
    hide Runs, Feed, FeedAll, Put;
    VisitsHeader(sw, settings, c.p, ch);
    FeedSingle(sw, c, ch);
    FeedOnce(sw, c, ch);
  }

  predicate BehindLine(c: Config)
  {
    c.p.state.HeaderValueLws? && Quotes(c.p.hstate) && c.live.None? && c.held == [] && c.p.errno == Ok
  }

  /** Some further lines have been read. */
  predicate MoreRead(c: Config, d: Config, added: Bytes, used: nat)
  {
    && d == c.(p := d.p, out := d.out, used := used)
    && d.p == c.p.(hstate := d.p.hstate, index := d.p.index) && Quotes(d.p.hstate)
    && (if added == [] then d.out == c.out else d.out == Put(c.out, Value, added))
  }

  lemma MoreLine(sw: Switcher, settings: Settings, c: Config, k: More)
    requires Runs(sw, settings) && BehindLine(c) && ProperMore(k)
    ensures var s := FeedAll(sw, c, MoreText(k));
            s.Running? && MoreRead(c, s.c, [' '] + k.text, c.used + |MoreText(k)|)
  {
    hide Runs, FeedAll, Put, ProperText, Closed;
    var d := c.(p := c.p.(state := HeaderValueStart), out := Put(c.out, Value, [' ']), used := c.used + 1);
    var e := d.(used := d.used + |k.pad|);
    LineGoesOn(sw, settings, c, k.lead);
    Blanks(sw, settings, d, k.pad);
    TextLine(sw, settings, e, k.text);
    Then(sw, d, k.pad, e, k.text + [CR, LF]);
    Then(sw, c, [k.lead], d, k.pad + (k.text + [CR, LF]));
    PutPut(c.out, Value, [' '], k.text);
  }

  lemma MoreTwice(c: Config, d: Config, e: Config, x: Bytes, y: Bytes, used: nat, last: nat)
    requires MoreRead(c, d, x, used) && MoreRead(d, e, y, last) && x != []
    ensures MoreRead(c, e, x + y, last)
  {
    hide Put;
    PutPut(c.out, Value, x, y);
    assert x + [] == x;
  }

  lemma {:induction false} MoreAll(sw: Switcher, settings: Settings, c: Config, ks: seq<More>)
    requires Runs(sw, settings) && BehindLine(c) && forall i | 0 <= i < |ks| :: ProperMore(ks[i])
    ensures var s := FeedAll(sw, c, MoreLines(ks));
            s.Running? && MoreRead(c, s.c, Added(ks), c.used + |MoreLines(ks)|)
    decreases |ks|
  {
    hide Runs, FeedAll, ProperMore, MoreText, Put;
    if ks == [] {
      NothingFed(sw, c);
    } else {
      MoreLine(sw, settings, c, ks[0]);
      var d := FeedAll(sw, c, MoreText(ks[0])).c;
      MoreAll(sw, settings, d, ks[1..]);
      var e := FeedAll(sw, d, MoreLines(ks[1..])).c;
      Then(sw, c, MoreText(ks[0]), d, MoreLines(ks[1..]));
      MoreTwice(c, d, e, [' '] + ks[0].text, Added(ks[1..]), d.used, e.used);
    }
  }

  predicate OrdinaryHeader(h: Header)
  {
    var w := Lowered(h.name);
    && h.name != [] && AllTokens(h.name) && ProperText(h.value) && Closed(h.value)
    && w != CONTENT_LENGTH && w != TRANSFER_ENCODING && w != UPGRADE
  }

  lemma FirstLine(sw: Switcher, settings: Settings, c: Config, h: Header)
    requires Runs(sw, settings) && AtLine(c) && OrdinaryHeader(h)
    ensures var s := FeedAll(sw, c, Line(h));
            && s.Running? && s.c == c.(p := s.c.p, out := Put(Put(c.out, Field, h.name), Value, h.value),
                                       used := c.used + |Line(h)|)
            && s.c.p == c.p.(state := HeaderValueLws, hstate := s.c.p.hstate, index := 0) && Quotes(s.c.p.hstate)
  {
    hide Runs, FeedAll, Put, IsToken, ValueByte, Lowered, NameState, Closed;
    var b := Fresh(c);
    assert Line(h)[0] == h.name[0] && IsToken(h.name[0]);
    NotBlankToken(h.name[0]);
    LineStarts(sw, settings, c, Line(h));
    ReadName(sw, settings, b, h.name);
    var d := FeedAll(sw, b, h.name + [':', ' ']).c;
    OtherName(Lowered(h.name));
    TextLine(sw, settings, d, h.value);
    Then(sw, b, h.name + [':', ' '], d, h.value + [CR, LF]);
    assert Line(h) == h.name + [':', ' '] + (h.value + [CR, LF]);
  }

  lemma NotBlankToken(ch: Byte)
    ensures IsToken(ch) ==> ch != ' ' && ch != HT
  {
  }

  /**
   * A header whose value goes on in further lines is told as one value: the texts of its lines with a single space
   * between them, in place of the line ends and the white space around them.  It says nothing about the framing.
   */
  lemma FoldedHeader(sw: Switcher, settings: Settings, c: Config, h: Header, ks: seq<More>)
    requires Runs(sw, settings) && AtLine(c) && OrdinaryHeader(h)
    requires forall i | 0 <= i < |ks| :: ProperMore(ks[i])
    ensures var s := FeedAll(sw, c, Line(h) + MoreLines(ks));
            && s.Running? && AtLine(s.c) && FrameOf(s.c.p) == FrameOf(c.p)
            && s.c.out == Put(Put(c.out, Field, h.name), Value, h.value + Added(ks))
            && s.c.used == c.used + |Line(h)| + |MoreLines(ks)|
  {
    hide Runs, FeedAll, Put, ProperMore, Line, MoreLines, OrdinaryHeader;
    FirstLine(sw, settings, c, h);
    var d := FeedAll(sw, c, Line(h)).c;
    MoreAll(sw, settings, d, ks);
    Then(sw, c, Line(h), d, MoreLines(ks));
    PutPut(Put(c.out, Field, h.name), Value, h.value, Added(ks));
    assert h.value + [] == h.value;
  }

  /**
   * A Content-Length that goes on in a further line: the number starts anew, so that only the last line counts; and
   * it is refused as too large exactly if that line alone is.
   */
  lemma FoldedLength(sw: Switcher, settings: Settings, c: Config, lead: Byte, pad: Bytes, vs: Bytes)
    requires Runs(sw, settings) && c.p.state.HeaderValueLws? && c.p.hstate.ContentLength?
    requires c.live.None? && c.held == [] && c.p.errno == Ok && IsBlank(lead) && AllBlank(pad)
    requires vs != [] && IsNum(vs[0]) && NumberText(vs)
    ensures var d := c.(p := c.p.(state := HeaderValueStart), out := Put(c.out, Value, [' ']),
                        used := c.used + 1 + |pad|);
            NumberParsed(d, vs, FeedAll(sw, c, [lead] + (pad + vs)))
  {
    hide Runs, FeedAll, Put, IsNum, NumberText, NumberParsed, DecValue;
    var b := c.(p := c.p.(state := HeaderValueStart), out := Put(c.out, Value, [' ']), used := c.used + 1);
    var d := b.(used := b.used + |pad|);
    LineGoesOn(sw, settings, c, lead);
    Blanks(sw, settings, b, pad);
    ContentLengthExact(sw, settings, d, vs);
    Then(sw, b, pad, d, vs);
    Then(sw, c, [lead], b, pad + vs);
  }
}
