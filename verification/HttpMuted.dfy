/**
 * The one kind of cut that HttpCuts.CutInvariance excludes, and any number of cuts.
 *
 * A CR inside a header value that no LF follows takes the parser back to s_header_value with no mark, so
 * the rest of that line is never delivered, unless a new buffer starts there and sets the mark again.
 */
module HttpMuted {
  import opened HttpTypes
  import opened HttpSwitch
  import opened HttpMachine
  import opened HttpCuts

  // ----- counting delivered bytes -----

  function ByteCount(t: Trace): (n: nat)
  {
    if t == [] then 0
    else ByteCount(t[..|t| - 1]) + (if t[|t| - 1].Text? then |t[|t| - 1].bytes| else 0)
  }

  lemma PutCount(t: Trace, k: Kind, bs: Bytes)
    ensures ByteCount(Put(t, k, bs)) == ByteCount(t) + |bs|
  {
    var u := Put(t, k, bs);
    if |t| > 0 && t[|t| - 1].Text? && t[|t| - 1].kind == k {
      assert u[..|u| - 1] == t[..|t| - 1];
    } else {
      assert u[..|u| - 1] == t;
    }
  }

  lemma NoteCount(t: Trace, e: Event)
    ensures ByteCount(t + [Note(e)]) == ByteCount(t)
  {
    assert (t + [Note(e)])[..|t|] == t;
  }

  /** Delivered and held bytes. */
  function Weight(c: Config): nat { ByteCount(c.out) + |c.held| }

  lemma TotalCount(c: Config)
    requires c.live.None? ==> c.held == []
    ensures ByteCount(Total(c)) == Weight(c)
  {
    if c.live.Some? {
      PutCount(c.out, c.live.value, c.held);
    }
  }

  lemma TellCount(t: Trace, o: Outcome)
    ensures ByteCount(Tell(t, o)) == ByteCount(t) + (if o.space then 1 else 0)
  {
    PutCount(t, Value, [' ']);
    NoteCount(if o.space then Put(t, Value, [' ']) else t, if o.note.Some? then o.note.value else MessageBegin);
  }

  // ----- a second call that heard more -----

  /** The second call has the mark that the first lacks, or both have the same; and it is ahead by `n` bytes. */
  predicate Ahead(c1: Config, c2: Config, n: int)
  {
    && Weight(c2) >= Weight(c1) + n
    && ((c1.live == c2.live && c1.held == c2.held) || (Muted(c1) && c2.live == Some(Value)))
  }

  /** How one visit changes the weight, when its mark, if any, is or becomes live. */
  lemma PerformWeight(c: Config, o: Outcome, ch: Byte)
    requires c.live.None? ==> c.held == []
    requires o.mark.Some? ==> c.live.None? || c.live == o.mark
    ensures var d := Perform(c, o, ch);
            Weight(d) == Weight(c) + (if o.space then 1 else 0)
                         + (if o.flush.FlushThrough? && SetMark(c, o.mark).live == Some(o.flush.kind) then 1 else 0)
  {
    var c1 := SetMark(c, o.mark);
    var d1 := DropMark(c1, o.flush, ch);
    if !o.flush.NoFlush? {
      PutCount(c1.out, o.flush.kind, if o.flush.FlushThrough? then c1.held + [ch] else c1.held);
    }
    TellCount(d1.out, o);
  }

  lemma VisitAhead(c1: Config, c2: Config, n: nat, o: Outcome, ch: Byte)
    requires Sane(c1) && Sane(c2) && c1.p == c2.p && Ahead(c1, c2, n) && Goes(o)
    requires MarksTidy(c1.p.state, c1.live, o) && MarksTidy(c1.p.state, c2.live, o)
    ensures Ahead(Perform(c1, o, ch), Perform(c2, o, ch), n)
  {
    hide Put, Tell, Weight, Legit, InBody;
    PerformWeight(c1, o, ch);
    PerformWeight(c2, o, ch);
    LiveIs(c1, o, ch);
    LiveIs(c2, o, ch);
  }

  lemma AbsorbAhead(c1: Config, c2: Config, n: nat, ch: Byte)
    requires Sane(c1) && Sane(c2) && Ahead(c1, c2, n)
    ensures Ahead(Absorb(c1, ch), Absorb(c2, ch), n)
    ensures Muted(c1) && c2.live == Some(Value) ==> Ahead(Absorb(c1, ch), Absorb(c2, ch), n + 1)
  {
    hide Put, Legit;
  }

  predicate StepsAhead(s1: Step, s2: Step, shift: nat, n: nat)
  {
    && (s1.Running? <==> s2.Running?)
    && (s1.Exited? <==> s2.Exited?)
    && s1.c.p == s2.c.p && s1.c.used == s2.c.used + shift
    && (s1.Running? ==> Together(s1.c, s2.c, shift) && Ahead(s1.c, s2.c, n))
    && (s1.Exited? ==> ByteCount(s2.c.out) >= ByteCount(s1.c.out) + n && s1.c.nread == s2.c.nread)
  }

  lemma ExitAhead(c1: Config, c2: Config, n: nat, o: Outcome, ch: Byte)
    requires Sane(c1) && Sane(c2) && Ahead(Perform(c1, o, ch), Perform(c2, o, ch), n)
    requires MarksTidy(c1.p.state, c1.live, o) && MarksTidy(c1.p.state, c2.live, o) && o.next.Exit?
    ensures ByteCount(Perform(c2, o, ch).out) >= ByteCount(Perform(c1, o, ch).out) + n
  {
    hide ByteCount, Legit, Put, Tell;
    LiveIs(c1, o, ch);
    LiveIs(c2, o, ch);
    HeldNothing(c1, o, ch);
    HeldNothing(c2, o, ch);
  }

  lemma {:induction false} FeedAhead(sw: Switcher, c1: Config, c2: Config, shift: nat, n: nat, ch: Byte)
    requires Disciplined(sw) && Together(c1, c2, shift) && Ahead(c1, c2, n)
    ensures StepsAhead(Feed(sw, c1, ch), Feed(sw, c2, ch), shift, n)
    decreases Rank(c1.p.state)
  {
    hide Disciplined, MarksTidy, Feed, Perform, Legit, SameCount, Rank, ByteCount, Ahead;
    TidyAt(sw, c1.p, ch);
    FeedIs(sw, c1, ch);
    FeedIs(sw, c2, ch);
    var o := sw(c1.p, ch);
    var d1, d2 := Perform(c1, o, ch), Perform(c2, o, ch);
    if Goes(o) {
      TogetherKept(c1, c2, shift, o, ch);
      VisitAhead(c1, c2, n, o, ch);
      if o.next.Advance? {
        AbsorbAhead(d1, d2, n, ch);
        AbsorbKept(d1, d2, shift, [], ch);
      } else if o.next.Again? {
        FeedAhead(sw, d1, d2, shift, n, ch);
      } else {
        ExitAhead(c1, c2, n, o, ch);
      }
    }
  }

  lemma HeldNothing(c: Config, o: Outcome, ch: Byte)
    requires c.live.None? ==> c.held == []
    ensures Perform(c, o, ch).live.None? ==> Perform(c, o, ch).held == []
  {
    hide Put, Tell;
  }

  lemma {:induction false} FeedAllAhead(sw: Switcher, c1: Config, c2: Config, shift: nat, n: nat, b: Bytes)
    requires Disciplined(sw) && Together(c1, c2, shift) && Ahead(c1, c2, n)
    ensures StepsAhead(FeedAll(sw, c1, b), FeedAll(sw, c2, b), shift, n)
    decreases |b|
  {
    hide Disciplined, Ahead, Feed;
    if b != [] {
      FeedAhead(sw, c1, c2, shift, n, b[0]);
      if Feed(sw, c1, b[0]).Running? {
        FeedAllAhead(sw, Feed(sw, c1, b[0]).c, Feed(sw, c2, b[0]).c, shift, n, b[1..]);
      }
    }
  }

  // ----- what a muted parser has delivered last -----

  predicate EndsInValue(t: Trace) { |t| > 0 && t[|t| - 1].Text? && t[|t| - 1].kind == Value }

  predicate MutedInValue(c: Config) { Muted(c) ==> EndsInValue(c.out) }

  lemma PerformMuted(c: Config, o: Outcome, ch: Byte)
    requires Sane(c) && MutedInValue(c) && MarksTidy(c.p.state, c.live, o)
    ensures MutedInValue(Perform(c, o, ch))
  {
    LiveIs(c, o, ch);
    hide Legit, InBody;
  }

  lemma {:induction false} FeedMuted(sw: Switcher, c: Config, ch: Byte)
    requires Disciplined(sw) && Sane(c) && MutedInValue(c) && Feed(sw, c, ch).Running?
    ensures MutedInValue(Feed(sw, c, ch).c)
    decreases Rank(c.p.state)
  {
    var o := sw(c.p, ch);
    assert Tidy(c.p, o);
    assert MarksTidy(c.p.state, c.live, o);
    hide Tidy, Legit, MarksTidy, Perform;
    PerformMuted(c, o, ch);
    if o.next.Again? {
      PerformSane(c, o, ch);
      FeedMuted(sw, Perform(c, o, ch), ch);
    }
  }

  lemma {:induction false} FeedAllMuted(sw: Switcher, c: Config, data: Bytes)
    requires Disciplined(sw) && Sane(c) && MutedInValue(c) && FeedAll(sw, c, data).Running?
    ensures MutedInValue(FeedAll(sw, c, data).c)
    decreases |data|
  {
    hide Sane, Feed, Disciplined, MutedInValue;
    if data != [] {
      FeedSane(sw, c, data[0]);
      FeedMuted(sw, c, data[0]);
      FeedAllMuted(sw, Feed(sw, c, data[0]).c, data[1..]);
    }
  }

  // ----- the cut inside a muted value -----

  /** The value ends with the first byte after the cut: both calls continue in step. */
  lemma {:induction false} EndsAtCut(sw: Switcher, c: Config, d: Config, shift: nat, ch: Byte)
    requires Disciplined(sw) && Together(c, d, shift) && Muted(c) && EndsInValue(c.out)
    requires d.live == Some(Value) && d.held == [] && d.out == c.out
    requires sw(c.p, ch).flush == FlushBefore(Value)
    ensures StepsAlike(Feed(sw, c, ch), Feed(sw, d, ch), shift, [])
  {
    var o := sw(c.p, ch);
    assert Tidy(c.p, o);
    assert MarksTidy(c.p.state, c.live, o) && MarksTidy(c.p.state, d.live, o);
    var c1, d1 := Perform(c, o, ch), Perform(d, o, ch);
    PutNothing(c.out);
    assert Synced(c1, d1);
    hide Disciplined, MarksTidy, Perform, Put, Synced, SameCount, Sane;
    TogetherKept(c, d, shift, o, ch);
    if o.next.Advance? {
      AbsorbKept(c1, d1, shift, [], ch);
    } else {
      FeedAlike(sw, c1, d1, shift, [], ch);
    }
  }

  lemma PutNothing(t: Trace)
    requires EndsInValue(t)
    ensures Put(t, Value, []) == t
  {
    assert t[|t| - 1].bytes + [] == t[|t| - 1].bytes;
  }

  /** A byte that stays in the value is delivered by the second call only. */
  lemma StaysAtCut(sw: Switcher, c: Config, d: Config, shift: nat, ch: Byte)
    requires Disciplined(sw) && Together(c, d, shift) && Ahead(c, d, 0) && Muted(c) && d.live == Some(Value)
    requires sw(c.p, ch).flush != FlushBefore(Value)
    ensures StepsAhead(Feed(sw, c, ch), Feed(sw, d, ch), shift, 1)
  {
    var o := sw(c.p, ch);
    assert Tidy(c.p, o);
    PerformFields(c, o, ch);
    PerformFields(d, o, ch);
    if Goes(o) {
      assert MarksTidy(c.p.state, c.live, o) && MarksTidy(c.p.state, d.live, o);
      TogetherKept(c, d, shift, o, ch);
      VisitAhead(c, d, 0, o, ch);
      LiveIs(c, o, ch);
      LiveIs(d, o, ch);
      hide Disciplined, Put, Perform, ByteCount, SameCount, Legit;
      AbsorbAhead(Perform(c, o, ch), Perform(d, o, ch), 0, ch);
      AbsorbKept(Perform(c, o, ch), Perform(d, o, ch), shift, [], ch);
    }
  }

  lemma EndsHere(sw: Switcher, c: Config, d: Config, shift: nat, b: Bytes)
    requires Disciplined(sw) && Together(c, d, shift) && Muted(c) && EndsInValue(c.out) && b != []
    requires d.live == Some(Value) && d.held == [] && d.out == c.out
    requires sw(c.p, b[0]).flush == FlushBefore(Value)
    ensures StepsAlike(FeedAll(sw, c, b), FeedAll(sw, d, b), shift, [])
  {
    hide Feed, Disciplined, Together, Synced, Carrying, StoppedAlike, EndsInValue, Muted, BodyGap, ReasonGap;
    EndsAtCut(sw, c, d, shift, b[0]);
    var s1, s2 := Feed(sw, c, b[0]), Feed(sw, d, b[0]);
    if s1.Running? && |b| > 1 {
      FeedAllAlike(sw, s1.c, s2.c, shift, [], b[1..]);
    }
  }

  lemma StaysHere(sw: Switcher, c: Config, d: Config, shift: nat, b: Bytes)
    requires Disciplined(sw) && Together(c, d, shift) && Ahead(c, d, 0) && Muted(c) && d.live == Some(Value)
    requires b != [] && sw(c.p, b[0]).flush != FlushBefore(Value)
    ensures StepsAhead(FeedAll(sw, c, b), FeedAll(sw, d, b), shift, 1)
  {
    hide Feed, Disciplined, Together, Ahead, Muted;
    StaysAtCut(sw, c, d, shift, b[0]);
    var s1, s2 := Feed(sw, c, b[0]), Feed(sw, d, b[0]);
    if s1.Running? {
      FeedAllAhead(sw, s1.c, s2.c, shift, 1, b[1..]);
    }
  }

  lemma MutedStart(sw: Switcher, c: Config, d: Config, shift: nat, b: Bytes)
    requires Disciplined(sw) && Together(c, d, shift) && Muted(c) && EndsInValue(c.out) && b != []
    requires d.live == Some(Value) && d.held == [] && d.out == c.out && c.p.errno == Ok
    ensures FeedAll(sw, c, b).c.start <= FeedAll(sw, c, b).c.used
    ensures FeedAll(sw, d, b).c.start <= FeedAll(sw, d, b).c.used
    ensures var r1, r2 := Conclude(FeedAll(sw, c, b)), Conclude(FeedAll(sw, d, b));
            && r1.p == r2.p && r1.used == r2.used + shift
            && (r2.p.errno == Ok ==> (r1.out == r2.out <==> sw(c.p, b[0]).flush == FlushBefore(Value)))
  {
    assert Ahead(c, d, 0);
    hide FeedAll, Disciplined, Conclude, Ahead, SameCount, EndsInValue, Muted, StepsAhead, StepsAlike;
    StartWithinUsed(sw, c, b);
    StartWithinUsed(sw, d, b);
    FeedAllErrno(sw, c, b);
    if sw(c.p, b[0]).flush == FlushBefore(Value) {
      EndsHere(sw, c, d, shift, b);
      ConcludeAlike(FeedAll(sw, c, b), FeedAll(sw, d, b), shift, []);
    } else {
      StaysHere(sw, c, d, shift, b);
      ConcludeAhead(FeedAll(sw, c, b), FeedAll(sw, d, b), shift);
    }
  }

  /**
   * A cut inside a muted value never changes the parser, and without an error the traces agree exactly
   * when the value ends with the first byte after the cut.
   */
  lemma MutedCut(sw: Switcher, p: Parser, nread: nat, out: Trace, a: Bytes, b: Bytes)
    requires Disciplined(sw) && Consumes(sw, p, nread, out, a) && b != []
    requires Muted(At(sw, p, nread, out, a).c)
    ensures var ra := Execute(sw, p, nread, out, a);
            var r1, r2 := Execute(sw, p, nread, out, a + b), Execute(sw, ra.p, ra.nread, ra.out, b);
            && r1.p == r2.p && r1.used == r2.used + |a|
            && (r2.p.errno == Ok ==>
                  (r1.out == r2.out <==> sw(ra.p, b[0]).flush == FlushBefore(Value)))
  {
    var c := At(sw, p, nread, out, a).c;
    var ra := Execute(sw, p, nread, out, a);
    FeedAllErrno(sw, Begin(p, nread, out), a);
    FeedAllConcat(sw, Begin(p, nread, out), a, b);
    StartWithinUsed(sw, Begin(p, nread, out), a);
    FeedAllSane(sw, Begin(p, nread, out), a);
    FeedAllMuted(sw, Begin(p, nread, out), a);
    hide FeedAll, Sane, Disciplined, HeaderBytes, Put;
    CutTogether(c);
    MutedStart(sw, c, Begin(ra.p, ra.nread, ra.out), |a|, b);
  }

  lemma ConcludeAhead(s1: Step, s2: Step, shift: nat)
    requires StepsAhead(s1, s2, shift, 1) && s1.c.start <= s1.c.used && s2.c.start <= s2.c.used
    requires !s1.Running? && !s1.Exited? ==> s1.c.p.errno != Ok
    ensures var r1, r2 := Conclude(s1), Conclude(s2);
            && r1.p == r2.p && r1.used == r2.used + shift && (r2.p.errno == Ok ==> r1.out != r2.out)
  {
    if s1.Running? {
      TotalCount(s1.c);
      TotalCount(s2.c);
    }
    hide ByteCount, Put, Total, Legit;
  }
}
