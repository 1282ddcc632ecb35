/**
 * What a cut can change at all: without an error, at most bytes of header values.  Url, reason, header names,
 * body and all notifications are told alike however the input is cut, and so is the place of every value.
 */
module HttpErased {
  import opened HttpTypes
  import opened HttpSwitch
  import opened HttpMachine
  import opened HttpCuts
  import opened HttpMuted
  import opened HttpInvariant
  import opened HttpSegments

  // ----- traces with the bytes of the values erased -----

  function BlankItem(i: Item): Item { if i.Text? && i.kind == Value then Text(Value, []) else i }

  function Blank(t: Trace): (r: Trace)
    ensures |r| == |t| && forall i | 0 <= i < |t| :: r[i] == BlankItem(t[i])
  {
    seq(|t|, i requires 0 <= i < |t| => BlankItem(t[i]))
  }

  function BlankBytes(k: Kind, bs: Bytes): Bytes { if k == Value then [] else bs }

  lemma BlankMore(t: Trace, i: Item)
    ensures Blank(t + [i]) == Blank(t) + [BlankItem(i)]
  {
  }

  lemma BlankPut(t: Trace, k: Kind, bs: Bytes)
    ensures Blank(Put(t, k, bs)) == Put(Blank(t), k, BlankBytes(k, bs))
  {
    hide Blank;
    var n := |t| - 1;
    if |t| > 0 && t[n].Text? && t[n].kind == k {
      var front, x := t[..n], t[n].bytes;
      assert t == front + [t[n]];
      BlankMore(front, t[n]);
      BlankMore(front, Text(k, x + bs));
      assert Blank(t)[..n] == Blank(front);
      assert BlankBytes(k, x) + BlankBytes(k, bs) == BlankBytes(k, x + bs);
    } else {
      BlankMore(t, Text(k, bs));
    }
  }

  lemma BlankNote(t: Trace, e: Event)
    ensures Blank(t + [Note(e)]) == Blank(t) + [Note(e)]
  {
    hide Blank;
    BlankMore(t, Note(e));
  }

  lemma BlankBlank(t: Trace)
    ensures Blank(Blank(t)) == Blank(t)
  {
  }

  /** A configuration with the bytes of the values erased. */
  function Faded(c: Config): Config
  {
    c.(out := Blank(c.out), held := if c.live == Some(Value) then [] else c.held)
  }

  lemma FadedFaded(c: Config)
    ensures Faded(Faded(c)) == Faded(c)
  {
    BlankBlank(c.out);
  }

  lemma FadedDrop(c: Config, f: Flush, ch: Byte)
    ensures Faded(DropMark(c, f, ch)) == Faded(DropMark(Faded(c), f, ch))
  {
    hide Put, Blank;
    FadedFaded(c);
    if !f.NoFlush? && c.live == Some(f.kind) {
      var bs := if f.FlushThrough? then c.held + [ch] else c.held;
      var held := if f.kind == Value then [] else c.held;
      var cs := if f.FlushThrough? then held + [ch] else held;
      BlankPut(c.out, f.kind, bs);
      BlankPut(Blank(c.out), f.kind, cs);
      BlankBlank(c.out);
    }
  }

  lemma FadedTell(t: Trace, o: Outcome)
    ensures Blank(Tell(t, o)) == Blank(Tell(Blank(t), o))
  {
    hide Put, Blank;
    BlankBlank(t);
    BlankPut(t, Value, [' ']);
    BlankPut(Blank(t), Value, [' ']);
    if o.note.Some? {
      BlankNote(t, o.note.value);
      BlankNote(Blank(t), o.note.value);
      BlankNote(Put(t, Value, [' ']), o.note.value);
      BlankNote(Put(Blank(t), Value, [' ']), o.note.value);
    }
  }

  lemma FadedMark(c: Config, m: Option<Kind>)
    ensures Faded(SetMark(c, m)) == Faded(SetMark(Faded(c), m))
  {
    FadedFaded(c);
    BlankBlank(c.out);
  }

  /** Erasing before a visit changes nothing that is left after it. */
  lemma FadedPerform(c: Config, o: Outcome, ch: Byte)
    ensures Faded(Perform(c, o, ch)) == Faded(Perform(Faded(c), o, ch))
  {
    hide Put, Blank, Tell, SetMark, DropMark;
    var m, n := SetMark(c, o.mark), SetMark(Faded(c), o.mark);
    FadedMark(c, o.mark);
    FadedDrop(m, o.flush, ch);
    FadedDrop(n, o.flush, ch);
    var d, e := DropMark(m, o.flush, ch), DropMark(n, o.flush, ch);
    FadedTell(d.out, o);
    FadedTell(e.out, o);
  }

  lemma FadedAbsorb(c: Config, ch: Byte)
    ensures Faded(Absorb(c, ch)) == Faded(Absorb(Faded(c), ch))
  {
    BlankBlank(c.out);
  }

  lemma FadedTotal(c: Config)
    ensures Blank(Total(c)) == Total(Faded(c))
  {
    hide Put, Blank;
    if c.live.Some? {
      BlankPut(c.out, c.live.value, c.held);
    }
  }

  lemma FadedSane(c: Config)
    requires Sane(c)
    ensures Sane(Faded(c))
  {
    hide Legit;
  }

  // ----- two calls that agree on everything but values -----

  /** The second call has a mark on the value that the first has lost. */
  predicate Gap(c1: Config, c2: Config)
  {
    Muted(c1) && c2.live == Some(Value) && c1.held == c2.held == [] && c1.out == c2.out && EndsInValue(c1.out)
  }

  /** After a visit. */
  predicate Tight(c1: Config, c2: Config, pre: Bytes)
  {
    Synced(c1, c2) || Carrying(c1, c2, pre) || Carrying(c1, c2, []) || Gap(c1, c2)
  }

  predicate Loose(c1: Config, c2: Config, pre: Bytes)
  {
    Linked(Faded(c1), Faded(c2), pre) || Linked(Faded(c1), Faded(c2), []) || Gap(Faded(c1), Faded(c2))
  }

  lemma TightIsLoose(c1: Config, c2: Config, pre: Bytes)
    requires Tight(Faded(c1), Faded(c2), pre)
    ensures Loose(c1, c2, pre)
  {
    hide Synced, Carrying, Gap, BodyGap, ReasonGap, Faded;
  }

  /** Erasing once more. */
  lemma FadedTight(c1: Config, c2: Config, pre: Bytes)
    requires Synced(c1, c2) || Carrying(c1, c2, pre)
    ensures Tight(Faded(c1), Faded(c2), pre)
  {
    hide Put, Blank;
    if Carrying(c1, c2, pre) {
      BlankPut(c1.out, c1.live.value, pre);
      assert [] + [] == c2.held[..0];
    }
  }

  lemma GapVisit(c1: Config, c2: Config, o: Outcome, ch: Byte)
    requires Gap(c1, c2) && Goes(o) && MarksTidy(c1.p.state, c1.live, o) && c1.p == c2.p
    ensures var d1, d2 := Perform(c1, o, ch), Perform(c2, o, ch); Synced(d1, d2) || Gap(d1, d2)
  {
    hide Put, Legit, InBody;
    PutNothing(c1.out);
  }

  lemma FadedGap(c1: Config, c2: Config)
    requires Gap(c1, c2)
    ensures Gap(Faded(c1), Faded(c2))
  {
  }

  lemma TightVisit(c1: Config, c2: Config, pre: Bytes, o: Outcome, ch: Byte)
    requires Sane(c1) && Sane(c2) && c1.p == c2.p && (Linked(c1, c2, pre) || Gap(c1, c2))
    requires Goes(o) && MarksTidy(c1.p.state, c1.live, o) && MarksTidy(c1.p.state, c2.live, o)
    ensures var d1, d2 := Perform(c1, o, ch), Perform(c2, o, ch); Tight(Faded(d1), Faded(d2), pre)
    ensures o.next.Exit? ==> Faded(Perform(c1, o, ch)).out == Faded(Perform(c2, o, ch)).out
  {
    hide Perform, MarksTidy, Linked, Sane, Synced, Carrying, Gap, Faded;
    var d1, d2 := Perform(c1, o, ch), Perform(c2, o, ch);
    if Linked(c1, c2, pre) {
      LinkKept(c1, c2, pre, o, ch);
      FadedTight(d1, d2, pre);
      if o.next.Exit? {
        SyncedOut(d1, d2);
      }
    } else {
      GapVisit(c1, c2, o, ch);
      if Synced(d1, d2) {
        FadedTight(d1, d2, pre);
        SyncedOut(d1, d2);
      } else {
        FadedGap(d1, d2);
        GapOut(d1, d2);
      }
    }
  }

  lemma SyncedOut(c1: Config, c2: Config)
    requires Synced(c1, c2)
    ensures Faded(c1).out == Faded(c2).out
  {
  }

  lemma GapOut(c1: Config, c2: Config)
    requires Gap(c1, c2)
    ensures Faded(c1).out == Faded(c2).out
  {
  }

  lemma LooseVisit(c1: Config, c2: Config, pre: Bytes, o: Outcome, ch: Byte)
    requires Sane(c1) && Sane(c2) && c1.p == c2.p && Loose(c1, c2, pre)
    requires Goes(o) && MarksTidy(c1.p.state, c1.live, o) && MarksTidy(c1.p.state, c2.live, o)
    ensures var d1, d2 := Perform(c1, o, ch), Perform(c2, o, ch);
            Tight(Faded(d1), Faded(d2), pre) && (o.next.Exit? ==> Blank(d1.out) == Blank(d2.out))
  {
    hide Perform, MarksTidy, Linked, Sane, Gap, Tight, Blank;
    FadedSane(c1);
    FadedSane(c2);
    FadedPerform(c1, o, ch);
    FadedPerform(c2, o, ch);
    var q := if Linked(Faded(c1), Faded(c2), pre) then pre else [];
    TightVisit(Faded(c1), Faded(c2), q, o, ch);
    var e1, e2 := Perform(Faded(c1), o, ch), Perform(Faded(c2), o, ch);
    TightMore(Faded(e1), Faded(e2), q, pre);
  }

  lemma TightMore(c1: Config, c2: Config, q: Bytes, pre: Bytes)
    requires Tight(c1, c2, q) && (q == pre || q == [])
    ensures Tight(c1, c2, pre)
  {
    hide Synced, Carrying, Gap;
  }

  lemma TightAbsorb(c1: Config, c2: Config, pre: Bytes, ch: Byte)
    requires Tight(c1, c2, pre)
    ensures Tight(Faded(Absorb(c1, ch)), Faded(Absorb(c2, ch)), pre)
  {
    hide Put, Blank;
    if Gap(c1, c2) {
      FadedGap(c1, c2);
    } else if Synced(c1, c2) {
      FadedTight(Absorb(c1, ch), Absorb(c2, ch), pre);
    } else {
      var q := if Carrying(c1, c2, pre) then pre else [];
      assert c1.held + [ch] == q + (c2.held + [ch]);
      FadedTight(Absorb(c1, ch), Absorb(c2, ch), q);
      TightMore(Faded(Absorb(c1, ch)), Faded(Absorb(c2, ch)), q, pre);
    }
  }

  lemma LooseAbsorb(c1: Config, c2: Config, pre: Bytes, ch: Byte)
    requires Tight(Faded(c1), Faded(c2), pre)
    ensures Tight(Faded(Absorb(c1, ch)), Faded(Absorb(c2, ch)), pre)
  {
    hide Tight, Faded, Absorb;
    FadedAbsorb(c1, ch);
    FadedAbsorb(c2, ch);
    TightAbsorb(Faded(c1), Faded(c2), pre, ch);
  }

  // ----- bytes and calls -----

  predicate StepsLoose(s1: Step, s2: Step, shift: nat, pre: Bytes)
  {
    && (s1.Running? <==> s2.Running?)
    && (s1.Exited? <==> s2.Exited?)
    && s1.c.p == s2.c.p && s1.c.used == s2.c.used + shift
    && (s1.Running? ==> Together(s1.c, s2.c, shift) && Tight(Faded(s1.c), Faded(s2.c), pre))
    && (s1.Exited? ==> Blank(s1.c.out) == Blank(s2.c.out) && s1.c.nread == s2.c.nread)
  }

  lemma {:induction false} FeedLoose(sw: Switcher, c1: Config, c2: Config, shift: nat, pre: Bytes, ch: Byte)
    requires Disciplined(sw) && Together(c1, c2, shift) && Loose(c1, c2, pre)
    ensures StepsLoose(Feed(sw, c1, ch), Feed(sw, c2, ch), shift, pre)
    decreases Rank(c1.p.state)
  {
    hide Disciplined, MarksTidy, Feed, Perform, Legit, SameCount, Rank, Loose, Tight, Blank;
    TidyAt(sw, c1.p, ch);
    FeedIs(sw, c1, ch);
    FeedIs(sw, c2, ch);
    var o := sw(c1.p, ch);
    var d1, d2 := Perform(c1, o, ch), Perform(c2, o, ch);
    if Goes(o) {
      TogetherKept(c1, c2, shift, o, ch);
      LooseVisit(c1, c2, pre, o, ch);
      if o.next.Advance? {
        LooseAbsorb(d1, d2, pre, ch);
        AbsorbKept(d1, d2, shift, pre, ch);
      } else if o.next.Again? {
        TightIsLoose(d1, d2, pre);
        FeedLoose(sw, d1, d2, shift, pre, ch);
      }
    }
  }

  lemma {:induction false} FeedAllLoose(sw: Switcher, c1: Config, c2: Config, shift: nat, pre: Bytes, b: Bytes)
    requires Disciplined(sw) && Together(c1, c2, shift) && Loose(c1, c2, pre) && b != []
    ensures StepsLoose(FeedAll(sw, c1, b), FeedAll(sw, c2, b), shift, pre)
    decreases |b|
  {
    hide Disciplined, Loose, Tight, Together, Feed, Blank;
    FeedLoose(sw, c1, c2, shift, pre, b[0]);
    var s1, s2 := Feed(sw, c1, b[0]), Feed(sw, c2, b[0]);
    if s1.Running? && |b| > 1 {
      TightIsLoose(s1.c, s2.c, pre);
      FeedAllLoose(sw, s1.c, s2.c, shift, pre, b[1..]);
    }
  }

  lemma TightTotal(c1: Config, c2: Config, pre: Bytes)
    requires Tight(c1, c2, pre)
    ensures Total(c1) == Total(c2)
  {
    hide Put;
    if Gap(c1, c2) {
      PutNothing(c1.out);
    } else if c1.live.Some? {
      PutPut(c1.out, c1.live.value, pre, c2.held);
      PutPut(c1.out, c1.live.value, [], c2.held);
    }
  }

  /** The same parser, return value and header count, and without an error the same trace but for values. */
  predicate ResultsLoose(r1: Result, r2: Result, shift: nat)
  {
    && r1.p == r2.p && r1.used == r2.used + shift && SameHeaderCount(r1, r2)
    && (r1.p.errno == Ok ==> Blank(r1.out) == Blank(r2.out))
  }

  lemma ConcludeLoose(s1: Step, s2: Step, shift: nat, pre: Bytes)
    requires StepsLoose(s1, s2, shift, pre) && s1.c.start <= s1.c.used && s2.c.start <= s2.c.used
    requires s1.Running? || s1.Exited? || (s1.c.p.errno != Ok && s1.c.p.errno != HeaderOverflow)
    ensures ResultsLoose(Conclude(s1), Conclude(s2), shift)
  {
    hide Put, Legit, ParsingHeader, Blank, Tight, Total, Faded;
    if s1.Running? {
      TightTotal(Faded(s1.c), Faded(s2.c), pre);
      FadedTotal(s1.c);
      FadedTotal(s2.c);
    }
  }

  lemma CallsLoose(sw: Switcher, c1: Config, c2: Config, shift: nat, pre: Bytes, b: Bytes)
    requires Disciplined(sw) && Together(c1, c2, shift) && Loose(c1, c2, pre) && b != [] && c1.p.errno == Ok
    ensures FeedAll(sw, c1, b).c.start <= FeedAll(sw, c1, b).c.used
    ensures FeedAll(sw, c2, b).c.start <= FeedAll(sw, c2, b).c.used
    ensures ResultsLoose(Conclude(FeedAll(sw, c1, b)), Conclude(FeedAll(sw, c2, b)), shift)
  {
    hide FeedAll, ResultsLoose, Loose, SameCount, Disciplined, StepsLoose, Conclude;
    StartWithinUsed(sw, c1, b);
    StartWithinUsed(sw, c2, b);
    FeedAllLoose(sw, c1, c2, shift, pre, b);
    FeedAllErrno(sw, c1, b);
    Stops(FeedAll(sw, c1, b), FeedAll(sw, c2, b), shift, pre);
    ConcludeLoose(FeedAll(sw, c1, b), FeedAll(sw, c2, b), shift, pre);
  }

  lemma Stops(s1: Step, s2: Step, shift: nat, pre: Bytes)
    requires StepsLoose(s1, s2, shift, pre) && (s1.Running? || s1.Exited? <==> s1.c.p.errno == Ok)
    requires s1.c.p.errno != HeaderOverflow
    ensures s1.Running? || s1.Exited? || (s1.c.p.errno != Ok && s1.c.p.errno != HeaderOverflow)
  {
  }

  lemma FadedLinked(c1: Config, c2: Config, pre: Bytes)
    requires Linked(c1, c2, pre)
    ensures Loose(c1, c2, pre)
  {
    hide Put, Blank, InBody;
    if Synced(c1, c2) || Carrying(c1, c2, pre) {
      FadedTight(c1, c2, pre);
    } else if BodyGap(c1, c2, pre) {
      BlankPut(c1.out, Body, pre);
    }
  }

  /** The cut itself: what it delivers and what it marks again. */
  lemma CutLoose(c: Config)
    requires Sane(c) && MutedInValue(c) && c.p.errno == Ok && Finish(c).p.errno == Ok
    ensures Loose(c, Begin(Finish(c).p, Finish(c).nread, Finish(c).out), c.held)
  {
    hide Put, Linked, HeaderBytes;
    if Muted(c) {
      var d := Begin(Finish(c).p, Finish(c).nread, Finish(c).out);
      assert d.out == c.out && d.live == Some(Value);
      assert Gap(Faded(c), Faded(d));
    } else {
      CutLinks(c);
      FadedLinked(c, Begin(Finish(c).p, Finish(c).nread, Finish(c).out), c.held);
    }
  }

  /**
   * Cut invariance without exception: whatever the cut falls on, the parser, the return value and the header
   * count are the same, and without an error the callbacks are told the same but for bytes of values.
   */
  lemma AnyCut(sw: Switcher, p: Parser, nread: nat, out: Trace, a: Bytes, b: Bytes)
    requires Disciplined(sw) && Consumes(sw, p, nread, out, a) && b != []
    ensures var ra := Execute(sw, p, nread, out, a);
            ResultsLoose(Execute(sw, p, nread, out, a + b), Execute(sw, ra.p, ra.nread, ra.out, b), |a|)
  {
    hide FeedAll, Sane, Disciplined, HeaderBytes, Put, ResultsLoose, Loose, Together, MutedInValue;
    var c := At(sw, p, nread, out, a).c;
    var ra := Execute(sw, p, nread, out, a);
    AtSound(sw, p, nread, out, a);
    FeedAllConcat(sw, Begin(p, nread, out), a, b);
    CutTogether(c);
    CutLoose(c);
    CallsLoose(sw, c, Begin(ra.p, ra.nread, ra.out), |a|, c.held, b);
  }

  lemma AtSound(sw: Switcher, p: Parser, nread: nat, out: Trace, a: Bytes)
    requires Disciplined(sw) && Consumes(sw, p, nread, out, a)
    ensures var c := At(sw, p, nread, out, a).c;
            && Sane(c) && MutedInValue(c) && c.p.errno == Ok && c.start <= c.used == |a|
            && Execute(sw, p, nread, out, a) == Finish(c)
  {
    hide FeedAll, Disciplined, Put;
    var b := Begin(p, nread, out);
    BeginSane(p, nread, out);
    FeedAllErrno(sw, b, a);
    StartWithinUsed(sw, b, a);
    FeedAllSane(sw, b, a);
    FeedAllMuted(sw, b, a);
  }

  lemma BeginSane(p: Parser, nread: nat, out: Trace)
    ensures Sane(Begin(p, nread, out)) && MutedInValue(Begin(p, nread, out))
  {
  }

  // ----- any number of cuts -----

  /** What was told before does not matter, but for values, nor does `nread` outside of headers. */
  lemma PastForgotten(sw: Switcher, p: Parser, n1: nat, n2: nat, out1: Trace, out2: Trace, b: Bytes)
    requires Disciplined(sw) && b != [] && p.errno == Ok && (ParsingHeader(p.state) ==> n1 == n2)
    requires Blank(out1) == Blank(out2)
    ensures ResultsLoose(Execute(sw, p, n1, out1, b), Execute(sw, p, n2, out2, b), 0)
  {
    hide Disciplined, FeedAll, ParsingHeader, Blank, ResultsLoose, Legit;
    var c1, c2 := Begin(p, n1, out1), Begin(p, n2, out2);
    BeginSane(p, n1, out1);
    BeginSane(p, n2, out2);
    assert Synced(Faded(c1), Faded(c2));
    CallsLoose(sw, c1, c2, 0, [], b);
  }

  /** The same outcome of a run in pieces and of a single call, but for values. */
  predicate LooseRun(run: Result, whole: Result)
  {
    && run.p == whole.p && SameHeaderCount(whole, run)
    && (whole.p.errno == Ok ==> Blank(run.out) == Blank(whole.out))
  }

  lemma LooseTrans(run: Result, mid: Result, whole: Result, m: nat, n: nat)
    requires ResultsLoose(whole, mid, m) && ResultsLoose(mid, run, n)
    ensures LooseRun(run, whole)
  {
    hide Blank, ParsingHeader;
  }

  lemma LastLoose(sw: Switcher, p: Parser, nread: nat, out: Trace, a: Bytes, b: Bytes, run: Result)
    requires Disciplined(sw) && Consumes(sw, p, nread, out, a) && b != []
    requires LooseRun(run, Execute(sw, p, nread, out, a))
    ensures LooseRun(Execute(sw, run.p, run.nread, run.out, b), Execute(sw, p, nread, out, a + b))
  {
    hide Disciplined, Execute, At, ParsingHeader, Blank, ResultsLoose;
    var ra := Execute(sw, p, nread, out, a);
    AnyCut(sw, p, nread, out, a, b);
    PastForgotten(sw, ra.p, ra.nread, run.nread, ra.out, run.out, b);
    LooseTrans(Execute(sw, run.p, run.nread, run.out, b), Execute(sw, ra.p, ra.nread, ra.out, b),
               Execute(sw, p, nread, out, a + b), |a|, 0);
  }

  /** However an input is cut, as long as no piece but the last meets an error or an upgrade. */
  lemma {:induction false} AnyCuts(sw: Switcher, p: Parser, nread: nat, out: Trace, pieces: seq<Bytes>)
    requires Disciplined(sw) && Pieces(pieces) && pieces != [] && p.errno == Ok
    requires forall i | 0 < i < |pieces| :: Consumes(sw, p, nread, out, Join(pieces[..i]))
    ensures LooseRun(RunCalls(sw, p, nread, out, pieces), Execute(sw, p, nread, out, Join(pieces)))
    decreases |pieces|
  {
    hide Disciplined, Execute, LooseRun, Consumes;
    var n := |pieces| - 1;
    var front, last := pieces[..n], pieces[n];
    assert Join(pieces) == Join(front) + last;
    if n == 0 {
      assert Join(pieces) == last;
      LooseRefl(Execute(sw, p, nread, out, last));
      assert RunCalls(sw, p, nread, out, front) == Result(p, nread, out, 0);
    } else {
      assert forall i | 0 < i < n :: front[..i] == pieces[..i];
      AnyCuts(sw, p, nread, out, front);
      assert Consumes(sw, p, nread, out, Join(front));
      LastLoose(sw, p, nread, out, Join(front), last, RunCalls(sw, p, nread, out, front));
    }
  }

  lemma LooseRefl(r: Result)
    ensures LooseRun(r, r)
  {
  }
}
