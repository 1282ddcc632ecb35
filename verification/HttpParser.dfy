/**
 * http_parser_execute_options as it runs: a cursor, marks that are positions in the buffer, fast paths that
 * skip several bytes, and bulk reads of bodies.  Execute is proved to do what HttpMachine.Execute does.
 */
module HttpParser {
  import opened HttpTypes
  import opened HttpSwitch
  import opened HttpMachine
  import opened HttpCuts
  import opened HttpFast
  import HttpDiscipline
  import opened HttpInvariant

  /** One callback. */
  datatype Call = Notify(event: Event) | Data(kind: Kind, bytes: Bytes)

  function Heard(t: Trace, call: Call): Trace
  {
    if call.Notify? then t + [Note(call.event)] else Put(t, call.kind, call.bytes)
  }

  /** What the client knows after some more callbacks. */
  function Deliver(t: Trace, calls: seq<Call>): Trace
  {
    if calls == [] then t else Heard(Deliver(t, calls[..|calls| - 1]), calls[|calls| - 1])
  }

  lemma DeliverOne(t: Trace, calls: seq<Call>, call: Call)
    ensures Deliver(t, calls + [call]) == Heard(Deliver(t, calls), call)
  {
    assert (calls + [call])[..|calls|] == calls;
  }

  // ----- the fast paths -----

  /** MOVE_THE_HEAD: up to eight, or three, steps over the bytes of a header name. */
  method SkipName(data: Bytes, pos: nat) returns (q: nat, token: bool)
    requires pos < |data| && IsToken(data[pos])
    ensures pos <= q < |data|
    ensures AllTokens(data[pos..q])
    ensures token <==> IsToken(data[q])
    ensures token ==> q - pos == (if |data| - pos >= 9 then 8 else if |data| - pos >= 4 then 3 else 0)
  {
    var steps := if |data| - pos >= 9 then 8 else if |data| - pos >= 4 then 3 else 0;
    q, token := pos, true;
    while q - pos < steps && token
      invariant pos <= q <= pos + steps < |data|
      invariant AllTokens(data[pos..q])
      invariant token <==> IsToken(data[q])
    {
      assert data[pos..q + 1] == data[pos..q] + [data[q]];
      q := q + 1;
      token := IsToken(data[q]);
    }
  }

  /** MOVE_FAST: up to eleven, or four, steps over the bytes of a header value. */
  method SkipText(data: Bytes, pos: nat) returns (q: nat, plain: bool)
    requires pos < |data|
    ensures pos <= q < |data|
    ensures !plain ==> pos < q && Special(data[q])
    ensures NoneSpecial(data[pos + 1..if plain then q + 1 else q])
    ensures plain ==> q - pos == (if |data| - pos >= 12 then 11 else if |data| - pos >= 5 then 4 else 0)
  {
    var steps := if |data| - pos >= 12 then 11 else if |data| - pos >= 5 then 4 else 0;
    q, plain := pos, true;
    while q - pos < steps && plain
      invariant pos <= q <= pos + steps < |data|
      invariant !plain ==> pos < q && Special(data[q])
      invariant NoneSpecial(data[pos + 1..if plain then q + 1 else q])
    {
      q := q + 1;
      if Special(data[q]) {
        plain := false;
      } else {
        assert data[pos + 1..q + 1] == data[pos + 1..q] + [data[q]];
      }
    }
  }

  // ----- marks as positions -----

  /** The marks that are set, by kind, with the position each was set at. */
  type Marks = map<Kind, nat>

  /** `marks` represents the live mark of a configuration and the bytes it holds. */
  ghost predicate Represents(marks: Marks, live: Option<Kind>, held: Bytes, data: Bytes, pos: nat)
    requires pos <= |data|
  {
    match live
    case None => marks == map[] && held == []
    case Some(k) => marks.Keys == {k} && marks[k] <= pos && held == data[marks[k]..pos]
  }

  /** MARK */
  function MarkAt(marks: Marks, m: Option<Kind>, pos: nat): Marks
  {
    if m.None? || m.value in marks then marks else marks[m.value := pos]
  }

  lemma MarkRepresents(marks: Marks, c: Config, m: Option<Kind>, data: Bytes, pos: nat)
    requires pos <= |data| && Represents(marks, c.live, c.held, data, pos)
    requires m.Some? ==> c.live.None? || c.live == m
    ensures var d := SetMark(c, m); Represents(MarkAt(marks, m, pos), d.live, d.held, data, pos)
  {
    assert data[pos..pos] == [];
  }

  lemma ExtendRepresents(marks: Marks, live: Option<Kind>, held: Bytes, data: Bytes, pos: nat, q: nat)
    requires pos <= q <= |data| && Represents(marks, live, held, data, pos)
    ensures Represents(marks, live, if live.Some? then held + data[pos..q] else held, data, q)
  {
    if live.Some? {
      assert data[marks[live.value]..q] == data[marks[live.value]..pos] + data[pos..q];
    }
  }

  // ----- the parser -----

  class HttpParser {
    const settings: Settings
    /** The `switch` with these settings, as HttpMachine runs it. */
    ghost const sw: Switcher
    var p: Parser
    var nread: nat
    /** Everything the callbacks have been told since the parser was created. */
    ghost var told: Trace

    ghost predicate Valid()
      reads this
    {
      Safe(p) && Runs(sw, settings)
    }

    /** http_parser_init over memory that holds `junk`. */
    constructor (settings: Settings, kind: ParserType, junk: Parser)
      requires Bounded(junk.(major := 0, minor := 0, trailing := false))
      ensures Valid() && this.settings == settings && sw == Source(settings)
      ensures p == Init(kind, junk) && nread == 0 && told == []
    {
      SourceRuns(settings);
      this.settings := settings;
      sw := Source(settings);
      p := Init(kind, junk);
      nread := 0;
      told := [];
    }

    /** CALLBACK_DATA: delivers the marked bytes and clears the mark. */
    method CallBackData(
      data: Bytes, pos: nat, marks: Marks, f: Flush, calls: seq<Call>, ghost c: Config, ghost t0: Trace)
      returns (marks': Marks, calls': seq<Call>)
      requires pos < |data| && Represents(marks, c.live, c.held, data, pos)
      requires c.out == told == Deliver(t0, calls)
      modifies this`told
      ensures var d := DropMark(c, f, data[pos]); told == d.out && Represents(marks', d.live, d.held, data, pos)
      ensures told == Deliver(t0, calls')
    {
      hide Put, Deliver;
      marks', calls' := marks, calls;
      if !f.NoFlush? && f.kind in marks {
        var call := Data(f.kind, data[marks[f.kind]..if f.FlushThrough? then pos + 1 else pos]);
        assert data[marks[f.kind]..pos + 1] == data[marks[f.kind]..pos] + [data[pos]];
        DeliverOne(t0, calls, call);
        told := Put(told, f.kind, call.bytes);
        calls' := calls + [call];
        marks' := marks - {f.kind};
      }
    }

    /** CALLBACK_SPACE and CALLBACK_NOTIFY. */
    method CallBackNotify(o: Outcome, calls: seq<Call>, ghost t0: Trace) returns (calls': seq<Call>)
      requires told == Deliver(t0, calls)
      modifies this`told
      ensures told == Tell(old(told), o) == Deliver(t0, calls')
    {
      hide Put, Deliver;
      calls' := calls;
      if o.space {
        DeliverOne(t0, calls', Data(Value, [' ']));
        told := Put(told, Value, [' ']);
        calls' := calls' + [Data(Value, [' '])];
      }
      if o.note.Some? {
        DeliverOne(t0, calls', Notify(o.note.value));
        told := told + [Note(o.note.value)];
        calls' := calls' + [Notify(o.note.value)];
      }
    }

    /** One visit of the `switch` at `pos`. */
    method Visit(data: Bytes, pos: nat, start: nat, marks: Marks, calls: seq<Call>, ghost c: Config, ghost t0: Trace)
      returns (next: Next, marks': Marks, start': nat, calls': seq<Call>)
      requires Runs(sw, settings)
      requires pos < |data| && Represents(marks, c.live, c.held, data, pos) && Sane(c)
      requires c.p == p && c.nread == nread && c.out == told == Deliver(t0, calls) && c.used == pos && c.start == start
      modifies this`p, this`nread, this`told
      ensures var o := sw(c.p, data[pos]);
              var d := HttpMachine.Perform(c, o, data[pos]);
              && next == o.next
              && d.p == p && d.nread == nread && d.out == told && d.used == pos && d.start == start'
              && Represents(marks', d.live, d.held, data, pos)
      ensures told == Deliver(t0, calls')
    {
      var o := Switch(settings, p, data[pos]);
      assert o == sw(c.p, data[pos]);
      HttpDiscipline.SwitchIsDisciplined(sw, settings);
      assert Tidy(p, o);
      assert Goes(o) ==> MarksTidy(p.state, c.live, o);
      hide Switch, Put, Disciplined, Tell, Deliver;
      MarkRepresents(marks, c, o.mark, data, pos);
      marks' := MarkAt(marks, o.mark, pos);
      marks', calls' := CallBackData(data, pos, marks', o.flush, calls, SetMark(c, o.mark), t0);
      calls' := CallBackNotify(o, calls', t0);
      start' := start;
      if o.reset {
        nread, start' := 0, pos;
      }
      p, next := o.After(), o.next;
    }

    /** The locals of a running call, and the configuration that HttpMachine has at the same point. */
    ghost predicate Tracks(data: Bytes, pos: nat, start: nat, marks: Marks, c: Config)
      reads this
    {
      && Runs(sw, settings)
      && pos <= |data| && Represents(marks, c.live, c.held, data, pos) && Sane(c)
      && c.p == p && c.nread == nread && c.out == told && c.used == pos && c.start == start
    }

    /** A run of name bytes. */
    method FastName(data: Bytes, pos: nat, start: nat, marks: Marks, ghost c: Config)
      returns (pos': nat, ghost d: Config)
      requires Tracks(data, pos, start, marks, c) && pos < |data|
      requires InName(c) && IsToken(data[pos])
      ensures pos < pos' && Tracks(data, pos', start, marks, d) && d.p == c.p && d.live == c.live
      ensures FeedAll(sw, c, data[pos..]) == FeedAll(sw, d, data[pos'..])
      ensures AllTokens(d.held[|c.held|..]) && c.held <= d.held
    {
      hide Runs, Feed, FeedAll, Legit, IsToken;
      var q, token := SkipName(data, pos);
      pos' := if token then q + 1 else q;
      assert data[pos..q + 1] == data[pos..q] + [data[q]];
      d := Extend(c, data[pos..pos']);
      NameRun(sw, settings, c, data[pos..pos']);
      Skip(sw, c, d, data, pos, pos');
      ExtendRepresents(marks, c.live, c.held, data, pos, pos');
      if pos == q {
        assert IsToken(data[q]);
      }
    }

    /** A run of value bytes, of which the first may open a quoted string. */
    method FastText(data: Bytes, pos: nat, start: nat, marks: Marks, ghost c: Config)
      returns (pos': nat, ghost d: Config)
      requires Tracks(data, pos, start, marks, c) && pos < |data|
      requires InText(c) && c.p.hstate.General? && data[pos] != CR && data[pos] != LF && IsHeaderChar(data[pos])
      modifies this`p
      ensures pos < pos' && Tracks(data, pos', start, marks, d) && d.live == c.live
      ensures p == old(p).(hstate := p.hstate) && (p.hstate.General? || p.hstate.GeneralAndQuote?)
      ensures FeedAll(sw, c, data[pos..]) == FeedAll(sw, d, data[pos'..])
    {
      hide Runs, FeedAll, IsHeaderChar, ExtendText, Sane, Represents, InText, NoneSpecial;
      var q, plain := SkipText(data, pos);
      pos' := if plain then q + 1 else q;
      p := p.(hstate := if data[pos] == QT then GeneralAndQuote else General);
      d := ExtendText(c.(p := p), data[pos..pos']);
      TextTracked(sw, settings, marks, c, data, pos, pos');
    }

    /**
     * The bytes of a body that are in the buffer.  Of a body of known length the last byte is left to the
     * `switch`, which delivers it together with the rest and completes the message.
     */
    method BulkBody(data: Bytes, pos: nat, start: nat, marks: Marks, ghost c: Config)
      returns (pos': nat, marks': Marks, ghost d: Config)
      requires Tracks(data, pos, start, marks, c) && pos < |data| && ParserInv(p)
      requires p.state.BodyIdentityEof? || p.state.ChunkData? || (p.state.BodyIdentity? && p.contentLength > 1)
      modifies this`p
      ensures pos < pos' && Tracks(data, pos', start, marks', d) && d.live == Some(Body) && ParserInv(p)
      ensures p == old(p).(contentLength := p.contentLength, state := p.state) && InBody(p.state)
      ensures FeedAll(sw, c, data[pos..]) == FeedAll(sw, d, data[pos'..])
    {
      hide Runs, FeedAll, ParserInv, Sane;
      BodyInv(p);
      assert c.live.None? || c.live == Some(Body) by { BodyStart(sw, settings, c, data, pos); }
      var n := if p.state.BodyIdentityEof? || |data| - pos < p.contentLength then |data| - pos
               else if p.state.BodyIdentity? then p.contentLength - 1
               else p.contentLength;
      pos' := pos + n;
      marks' := MarkAt(marks, Some(Body), pos);
      MarkRepresents(marks, c, Some(Body), data, pos);
      ExtendRepresents(marks', Some(Body), c.held, data, pos, pos');
      BodySkipped(sw, settings, c, data, pos, n);
      BodyReadKeeps(c, n, data[pos..pos']);
      hide Runs, ReadBody, MarkAt, InBody;
      p := ReadBody(p, n);
      d := Extend(c.(live := Some(Body), p := p), data[pos..pos']);
    }

    /** Delivers what is still marked when the bytes have run out. */
    method Leftover(data: Bytes, marks: Marks, calls: seq<Call>, k: Kind, ghost t0: Trace)
      returns (calls': seq<Call>)
      requires k in marks ==> marks[k] <= |data|
      requires told == Deliver(t0, calls)
      modifies this`told
      ensures told == (if k in marks then Put(old(told), k, data[marks[k]..]) else old(told)) == Deliver(t0, calls')
    {
      hide Put;
      calls' := calls;
      if k in marks {
        DeliverOne(t0, calls, Data(k, data[marks[k]..]));
        told := Put(told, k, data[marks[k]..]);
        calls' := calls + [Data(k, data[marks[k]..])];
      }
    }

    /** The leftovers of every kind, of which at most one is marked. */
    method Leftovers(data: Bytes, marks: Marks, calls: seq<Call>, ghost c: Config, ghost t0: Trace)
      returns (calls': seq<Call>)
      requires Represents(marks, c.live, c.held, data, |data|) && told == c.out == Deliver(t0, calls)
      modifies this`told
      ensures told == Total(c) == Deliver(t0, calls')
    {
      hide Put, Deliver;
      assert c.live.Some? ==> data[marks[c.live.value]..] == c.held;
      calls' := Leftover(data, marks, calls, Field, t0);
      calls' := Leftover(data, marks, calls', Value, t0);
      calls' := Leftover(data, marks, calls', Url, t0);
      calls' := Leftover(data, marks, calls', Reason, t0);
      calls' := Leftover(data, marks, calls', Body, t0);
    }

    /** After the loop: the header size check and the leftover marks, of which there is at most one. */
    method Finish(data: Bytes, start: nat, marks: Marks, calls: seq<Call>, ghost c: Config, ghost t0: Trace)
      returns (calls': seq<Call>)
      requires Tracks(data, |data|, start, marks, c) && told == Deliver(t0, calls)
      modifies this`p, this`nread, this`told
      ensures var r := HttpMachine.Finish(c); p == r.p && nread == r.nread && told == r.out == Deliver(t0, calls')
    {
      hide Runs, Put, Legit, Deliver, Total, Represents;
      calls' := calls;
      if ParsingHeader(p.state) {
        nread := (nread + (|data| - start)) % TWO_TO_THE_32;
        if nread > MAX_HEADER_SIZE {
          p := p.(errno := HeaderOverflow);
          return;
        }
      }
      calls' := Leftovers(data, marks, calls', c, t0);
    }

    /** One visit of the `switch`, and `p++` unless the byte is to be looked at again. */
    method SlowByte(data: Bytes, pos: nat, start: nat, marks: Marks, calls: seq<Call>, ghost c: Config, ghost t0: Trace)
      returns (next: Next, pos': nat, start': nat, marks': Marks, calls': seq<Call>, ghost d: Config)
      requires pos < |data| && Tracks(data, pos, start, marks, c) && told == Deliver(t0, calls)
      requires ParserInv(p) && NameSoFar(c)
      modifies this`p, this`nread, this`told
      ensures told == Deliver(t0, calls') && next != Abort
      ensures next.Advance? || next.Again? ==>
                && Tracks(data, pos', start', marks', d) && ParserInv(p) && NameSoFar(d)
                && (pos < pos' || (pos == pos' && Rank(p.state) < Rank(old(p).state)))
                && FeedAll(sw, c, data[pos..]) == FeedAll(sw, d, data[pos'..])
      ensures next.Fail? || next.Exit? ==>
                && d.p == p && d.nread == nread && d.out == told && d.used == pos == pos'
                && FeedAll(sw, c, data[pos..])
                   == (if next.Fail? then Failed(d) else Exited(d.(used := d.used + 1)))
    {
      hide Runs, FeedAll, Put, ParserInv, Sane, Deliver, NameSoFar, Rank, Represents, HttpMachine.Perform;
      var ch := data[pos];
      if p.state.HeaderField? && ch == ':' && Field in marks && pos - marks[Field] > 1 && data[pos - 1] == ' ' {
        NoSpaceInName(c, data, pos, marks);
        assert false; // a name holds token bytes only
      }
      VisitFacts(sw, settings, c, data, pos);
      next, marks', start', calls' := Visit(data, pos, start, marks, calls, c, t0);
      d, pos' := HttpMachine.Perform(c, sw(c.p, ch), ch), pos;
      if next.Advance? {
        ExtendRepresents(marks', d.live, d.held, data, pos, pos + 1);
        assert data[pos..pos + 1] == [ch];
        d, pos' := Absorb(d, ch), pos + 1;
      }
    }

    /** One turn of the loop: a fast path, a bulk read, or one visit of the `switch`. */
    method Iterate(data: Bytes, pos: nat, start: nat, marks: Marks, calls: seq<Call>, ghost c: Config, ghost t0: Trace)
      returns (next: Next, pos': nat, start': nat, marks': Marks, calls': seq<Call>, ghost d: Config)
      requires pos < |data| && Tracks(data, pos, start, marks, c) && told == Deliver(t0, calls)
      requires ParserInv(p) && NameSoFar(c)
      modifies this`p, this`nread, this`told
      ensures told == Deliver(t0, calls') && next != Abort
      ensures next.Advance? || next.Again? ==>
                && Tracks(data, pos', start', marks', d) && ParserInv(p) && NameSoFar(d)
                && (pos < pos' || (pos == pos' && Rank(p.state) < Rank(old(p).state)))
                && FeedAll(sw, c, data[pos..]) == FeedAll(sw, d, data[pos'..])
      ensures next.Fail? || next.Exit? ==>
                && d.p == p && d.nread == nread && d.out == told && d.used == pos == pos'
                && FeedAll(sw, c, data[pos..])
                   == (if next.Fail? then Failed(d) else Exited(d.(used := d.used + 1)))
    {
      hide Runs, FeedAll, Put, ParserInv, IsToken, IsHeaderChar, Sane, Represents, Deliver, Rank;
      var ch := data[pos];
      next, start', marks', calls' := Advance, start, marks, calls;
      if p.state.HeaderField? && p.hstate.General? && IsToken(ch) {
        NameIsMarked(c);
        pos', d := FastName(data, pos, start, marks, c);
        assert d.held == c.held + d.held[|c.held|..];
      } else if p.state.HeaderValue? && p.hstate.General? && ch != CR && ch != LF && IsHeaderChar(ch) {
        NameIsMarked(c);
        pos', d := FastText(data, pos, start, marks, c);
        TextKept(c.p, p);
      } else if p.state.BodyIdentityEof? || p.state.ChunkData? || (p.state.BodyIdentity? && p.contentLength > 1) {
        pos', marks', d := BulkBody(data, pos, start, marks, c);
      } else {
        next, pos', start', marks', calls', d := SlowByte(data, pos, start, marks, calls, c, t0);
      }
    }

    /**
     * One call.  It returns the number of bytes read and the callbacks it made, in order, and does exactly
     * what the byte-at-a-time machine does: same parser, same return value, same text for the callbacks.
     */
    method Execute(data: Bytes) returns (used: nat, calls: seq<Call>)
      requires Valid()
      modifies this`p, this`nread, this`told
      ensures Valid()
      ensures var r := HttpMachine.Execute(sw, old(p), old(nread), old(told), data);
              p == r.p && nread == r.nread && told == r.out && used == r.used
      ensures told == Deliver(old(told), calls)
    {
      hide Runs, Put, Rank;
      calls := [];
      CallKeepsInv(sw, settings, p, nread, told, data);
      if p.errno != Ok {
        return 0, [];
      }
      if |data| == 0 {
        used, calls := AtEnd(told);
        return;
      }
      ghost var c := Begin(p, nread, told);
      StartWithinUsed(sw, c, data);
      var pos, start := 0, 0;
      var marks: Marks := if ResumeMark(p.state).Some? then map[ResumeMark(p.state).value := 0] else map[];
      HttpDiscipline.LegitResume(p.state);
      assert data[0..] == data;
      while pos < |data|
        invariant Tracks(data, pos, start, marks, c) && told == Deliver(old(told), calls)
        invariant ParserInv(p) && NameSoFar(c)
        invariant FeedAll(sw, c, data[pos..])
                  == FeedAll(sw, Begin(old(p), old(nread), old(told)), data)
        decreases |data| - pos, Rank(p.state)
      {
        var next;
        next, pos, start, marks, calls, c := Iterate(data, pos, start, marks, calls, c, old(told));
        if !next.Advance? && !next.Again? {
          return (if next.Exit? then pos + 1 else pos), calls;
        }
      }
      calls := Finish(data, start, marks, calls, c, old(told));
      used := |data|;
    }

    /** A call with no data. */
    method AtEnd(ghost t0: Trace) returns (used: nat, calls: seq<Call>)
      requires told == t0
      modifies this`p, this`told
      ensures var r := EndOfInput(old(p), nread, old(told)); p == r.p && told == r.out && used == r.used
      ensures told == Deliver(t0, calls)
    {
      used, calls := 0, [];
      match p.state
      case BodyIdentityEof =>
        DeliverOne(t0, [], Notify(MessageComplete));
        told := told + [Note(MessageComplete)];
        calls := [] + [Notify(MessageComplete)];
      case PreStartReqOrRes | PreStartRes | PreStartReq =>
      case _ =>
        p := p.(errno := InvalidEofState);
        used := 1;
    }
  }

  lemma NameIsMarked(c: Config)
    requires Sane(c) && ParserInv(c.p)
    ensures c.p.errno == Ok
    ensures c.p.state.HeaderField? ==> c.live == Some(Field)
    ensures c.p.state.HeaderValue? ==> c.live.None? || c.live == Some(Value)
  {
  }

  lemma TextKept(p: Parser, q: Parser)
    requires ParserInv(p) && p.state.HeaderValue? && q == p.(hstate := q.hstate)
    requires q.hstate.General? || q.hstate.GeneralAndQuote?
    ensures ParserInv(q)
  {
  }

  lemma NoSpaceInName(c: Config, data: Bytes, pos: nat, marks: Marks)
    requires pos <= |data| && Represents(marks, c.live, c.held, data, pos) && NameSoFar(c)
    requires Field in marks && pos - marks[Field] > 1
    ensures data[pos - 1] != ' '
  {
    assert c.held[|c.held| - 1] == data[pos - 1];
  }

  /** The bytes of a name that a mark holds are tokens. */
  predicate NameSoFar(c: Config) { c.live == Some(Field) ==> AllTokens(c.held) }

  lemma VisitFacts(sw: Switcher, settings: Settings, c: Config, data: Bytes, pos: nat)
    requires Runs(sw, settings)
    requires pos < |data| && ParserInv(c.p) && Sane(c) && NameSoFar(c)
    ensures var o := sw(c.p, data[pos]);
            var d := HttpMachine.Perform(c, o, data[pos]);
            var e := Absorb(d, data[pos]);
            && (o.next.Advance? ==> Sane(e) && ParserInv(e.p) && NameSoFar(e)
                                    && FeedAll(sw, c, data[pos..]) == FeedAll(sw, e, data[pos + 1..]))
            && (o.next.Again? ==> Sane(d) && ParserInv(d.p) && NameSoFar(d) && Rank(d.p.state) < Rank(c.p.state)
                                  && FeedAll(sw, c, data[pos..]) == FeedAll(sw, d, data[pos..]))
            && (o.next.Exit? ==> FeedAll(sw, c, data[pos..]) == Exited(d.(used := d.used + 1)))
            && (o.next.Fail? ==> FeedAll(sw, c, data[pos..]) == Failed(d))
            && o.next != Abort
  {
    hide Runs, Feed, ParserInv, Put, Tell, Rank, IsToken, HttpMachine.Perform, Sane, NameSoFar;
    var o := sw(c.p, data[pos]);
    var d := HttpMachine.Perform(c, o, data[pos]);
    HttpDiscipline.SwitchIsDisciplined(sw, settings);
    assert Tidy(c.p, o);
    assert Goes(o) ==> MarksTidy(c.p.state, c.live, o) by { LegitHere(c); }
    hide Disciplined, MarksTidy;
    VisitKeepsInv(sw, settings, c.p, data[pos]);
    EntersName(sw, settings, c.p, data[pos]);
    assert data[pos..][1..] == data[pos + 1..];
    NameHeld(c, o, data[pos]);
    FeedStep(sw, c, data[pos]);
    PerformGoes(c, o, data[pos]);
    if o.next.Advance? || o.next.Again? {
      PerformSane(c, o, data[pos]);
      AbsorbSane(d, data[pos]);
    }
  }

  lemma LegitHere(c: Config)
    requires Sane(c)
    ensures Legit(c.p.state, c.live)
  {
  }

  lemma PerformGoes(c: Config, o: Outcome, ch: Byte)
    ensures HttpMachine.Perform(c, o, ch).p == o.After() && Absorb(HttpMachine.Perform(c, o, ch), ch).p == o.After()
  {
    hide Put, Tell;
  }

  lemma AbsorbSane(c: Config, ch: Byte)
    requires Sane(c)
    ensures Sane(Absorb(c, ch))
  {
    hide Legit;
  }

  lemma FeedStep(sw: Switcher, c: Config, ch: Byte)
    ensures var o := sw(c.p, ch);
            var d := HttpMachine.Perform(c, o, ch);
            && (o.next.Advance? ==> Feed(sw, c, ch) == Running(Absorb(d, ch)))
            && (o.next.Again? && Rank(d.p.state) < Rank(c.p.state) ==> Feed(sw, c, ch) == Feed(sw, d, ch))
            && (o.next.Exit? ==> Feed(sw, c, ch) == Exited(d.(used := d.used + 1)))
            && (o.next.Fail? ==> Feed(sw, c, ch) == Failed(d))
  {
    hide Put, Tell, Rank;
  }

  lemma NameHeld(c: Config, o: Outcome, ch: Byte)
    requires NameSoFar(c) && Sane(c)
    requires Goes(o) ==> MarksTidy(c.p.state, c.live, o)
    requires !Goes(o) ==> o.mark.None?
    requires o.next.Advance? && o.to.HeaderField? ==> IsToken(ch)
    ensures var d := HttpMachine.Perform(c, o, ch);
            NameSoFar(d) && (o.next.Advance? ==> NameSoFar(Absorb(d, ch)))
  {
    LiveIs(c, o, ch);
    hide Put, Tell, IsToken;
  }

  /** `parser->content_length -= to_read` and the change of state at the end of a chunk. */
  function ReadBody(p: Parser, n: nat): Parser
  {
    if p.state.BodyIdentityEof? then p
    else
      var q := p.(contentLength := p.contentLength - n);
      if p.state.BodyIdentity? then q
      else q.(state := if q.contentLength == 0 then ChunkDataAlmostDone else ChunkData)
  }

  /** The configuration behind skipped bytes of a value. */
  lemma TextTracked(sw: Switcher, settings: Settings, marks: Marks, c: Config, data: Bytes, pos: nat, pos': nat)
    requires Runs(sw, settings) && pos < pos' <= |data| && Represents(marks, c.live, c.held, data, pos) && Sane(c)
    requires InText(c) && c.p.hstate.General? && data[pos] != CR && data[pos] != LF && IsHeaderChar(data[pos])
    requires NoneSpecial(data[pos + 1..pos'])
    ensures var q := c.p.(hstate := if data[pos] == QT then GeneralAndQuote else General);
            var d := ExtendText(c.(p := q), data[pos..pos']);
            && d.p == q && d.live == c.live && Represents(marks, d.live, d.held, data, pos') && Sane(d)
            && d.out == c.out && d.nread == c.nread && d.used == c.used + pos' - pos && d.start == c.start
            && FeedAll(sw, c, data[pos..]) == FeedAll(sw, d, data[pos'..])
  {
    hide Runs, FeedAll, IsHeaderChar, Represents, NoneSpecial;
    TextSkipped(sw, settings, c, data, pos, pos');
    ExtendRepresents(marks, c.live, c.held, data, pos, pos');
  }

  lemma TextSkipped(sw: Switcher, settings: Settings, c: Config, data: Bytes, pos: nat, pos': nat)
    requires Runs(sw, settings)
    requires pos < pos' <= |data|
    requires InText(c) && c.p.hstate.General? && data[pos] != CR && data[pos] != LF && IsHeaderChar(data[pos])
    requires NoneSpecial(data[pos + 1..pos'])
    ensures var q := c.p.(hstate := if data[pos] == QT then GeneralAndQuote else General);
            FeedAll(sw, c, data[pos..])
            == FeedAll(sw, ExtendText(c.(p := q), data[pos..pos']), data[pos'..])
  {
    hide Runs, Feed, FeedAll, IsHeaderChar;
    var ch := data[pos];
    var q := c.p.(hstate := if ch == QT then GeneralAndQuote else General);
    var c1 := ExtendText(c.(p := q), [ch]);
    assert InText(c1);
    hide ExtendText, InText, Special;
    QuoteByte(sw, settings, c, ch);
    FeedFirst(sw, c, c1, data, pos);
    TextRun(sw, settings, c1, data[pos + 1..pos']);
    Skip(sw, c1, ExtendText(c1, data[pos + 1..pos']), data, pos + 1, pos');
    assert data[pos..pos'] == [ch] + data[pos + 1..pos'];
    ExtendTextTwice(c.(p := q), ch, data[pos + 1..pos']);
  }

  lemma BodyReadKeeps(c: Config, n: nat, bs: Bytes)
    requires n > 0 && Sane(c) && ParserInv(c.p)
    requires c.p.state.BodyIdentityEof? || (c.p.state.BodyIdentity? && c.p.contentLength > n)
             || (c.p.state.ChunkData? && c.p.contentLength >= n)
    ensures Sane(Extend(c.(live := Some(Body), p := ReadBody(c.p, n)), bs))
    ensures var q := ReadBody(c.p, n);
            ParserInv(q) && q == c.p.(contentLength := q.contentLength, state := q.state) && InBody(q.state)
  {
    BodyKept(c.p, ReadBody(c.p, n));
    hide ParserInv;
  }

  lemma BodyTaken(sw: Switcher, settings: Settings, c: Config, bs: Bytes)
    requires Runs(sw, settings) && ReadsBody(c)
    requires c.p.state.BodyIdentityEof? || (c.p.state.BodyIdentity? && c.p.contentLength > |bs|)
             || (c.p.state.ChunkData? && c.p.chunked && c.p.contentLength >= |bs| > 0)
    ensures FeedAll(sw, c, bs) == Running(Extend(c.(p := ReadBody(c.p, |bs|)), bs))
  {
    hide Runs, FeedAll;
    match c.p.state {
      case BodyIdentityEof => EofRun(sw, settings, c, bs);
      case BodyIdentity => BodyRun(sw, settings, c, bs);
      case ChunkData => ChunkRun(sw, settings, c, bs);
    }
  }

  lemma BodySkipped(sw: Switcher, settings: Settings, c: Config, data: Bytes, pos: nat, n: nat)
    requires Runs(sw, settings)
    requires pos < |data| && 0 < n <= |data| - pos && Sane(c) && ParserInv(c.p)
    requires c.p.state.BodyIdentityEof? || (c.p.state.BodyIdentity? && c.p.contentLength > n)
             || (c.p.state.ChunkData? && c.p.contentLength >= n)
    ensures FeedAll(sw, c, data[pos..])
            == FeedAll(sw, Extend(c.(live := Some(Body), p := ReadBody(c.p, n)), data[pos..pos + n]), data[pos + n..])
  {
    hide Runs, FeedAll, ParserInv, Legit, ReadBody;
    BodyInv(c.p);
    BodyStart(sw, settings, c, data, pos);
    var c1 := c.(live := Some(Body));
    var bs := data[pos..pos + n];
    BodyTaken(sw, settings, c1, bs);
    Skip(sw, c1, Extend(c1.(p := ReadBody(c.p, n)), bs), data, pos, pos + n);
  }

  lemma FeedFirst(sw: Switcher, c: Config, d: Config, data: Bytes, pos: nat)
    requires pos < |data| && Feed(sw, c, data[pos]) == Running(d)
    ensures FeedAll(sw, c, data[pos..]) == FeedAll(sw, d, data[pos + 1..])
  {
    hide Feed;
    assert data[pos..][1..] == data[pos + 1..];
  }

  lemma BodyInv(p: Parser)
    requires ParserInv(p)
    ensures p.errno == Ok && (p.state.ChunkData? ==> p.chunked && p.contentLength > 0)
  {
  }

  lemma BodyKept(p: Parser, q: Parser)
    requires ParserInv(p) && InBody(p.state) && q == p.(contentLength := q.contentLength, state := q.state)
    requires q.state == p.state || (p.state.ChunkData? && q.state.ChunkDataAlmostDone?)
    requires q.state.BodyIdentityEof? ==> q.contentLength == p.contentLength
    requires !q.state.BodyIdentityEof? ==> 0 <= q.contentLength <= p.contentLength
    requires q.state.BodyIdentity? || q.state.ChunkData? ==> q.contentLength > 0
    requires q.state.ChunkDataAlmostDone? ==> q.contentLength == 0
    ensures ParserInv(q)
  {
  }

  /** The first byte of a body read sets the mark, if it is not set. */
  lemma BodyStart(sw: Switcher, settings: Settings, c: Config, data: Bytes, pos: nat)
    requires Runs(sw, settings)
    requires pos < |data| && Sane(c) && ParserInv(c.p) && InBody(c.p.state) && !c.p.state.ChunkDataAlmostDone?
    ensures c.live.None? || c.live == Some(Body)
    ensures FeedAll(sw, c, data[pos..]) == FeedAll(sw, c.(live := Some(Body)), data[pos..])
  {
    var o := sw(c.p, data[pos]);
    HttpDiscipline.SwitchIsDisciplined(sw, settings);
    assert Tidy(c.p, o);
    assert Goes(o) ==> MarksTidy(c.p.state, c.live, o);
    BodyGoes(sw, settings, c.p, data[pos]);
    assert InBody(c.p.state) && Legit(c.p.state, c.live) ==> c.live.None? || c.live == Some(Body);
    hide Runs, ParserInv, Disciplined, Legit;
    if c.live.None? {
      BodyMark(sw, c, data[pos]);
      hide Runs, Feed;
    } else {
      assert c == c.(live := Some(Body));
    }
  }

  lemma BodyGoes(sw: Switcher, settings: Settings, p: Parser, ch: Byte)
    requires Runs(sw, settings)
    requires ParserInv(p) && InBody(p.state)
    ensures Goes(sw(p, ch))
  {
    BodyInv(p);
    if p.state.ChunkData? || p.state.ChunkDataAlmostDone? {
      VisitsChunk(sw, settings, p, ch);
      hide Runs, Unhex;
    } else {
      VisitsBody(sw, settings, p, ch);
      hide Runs, SwitchHeadersDone;
    }
  }
}
