/**
 * Cut invariance: how the bytes are cut into buffers changes neither the parser nor what the callbacks
 * are told.  Proved for every disciplined `switch`; HttpDiscipline shows that the source's is one.
 *
 * Two configurations are compared at the same byte: `c1` of a call that got everything in one buffer,
 * and `c2` of the call that got the second buffer after a cut.
 */
module HttpCuts {
  import opened HttpTypes
  import opened HttpSwitch
  import opened HttpMachine

  // ----- what a visit must respect -----

  predicate InBody(s: State)
  {
    s.BodyIdentity? || s.BodyIdentityEof? || s.ChunkData? || s.ChunkDataAlmostDone?
  }

  /** Which marks may be live in a state. */
  predicate Legit(s: State, live: Option<Kind>)
  {
    (live.None? && !InUrl(s) && !s.HeaderField?)
    || (live.Some? && live == ResumeMark(s))
    || (live == Some(Body) && InBody(s))
  }

  /** The mark that is live after a visit. */
  function LiveAfter(live: Option<Kind>, o: Outcome): Option<Kind>
  {
    var m := if o.mark.Some? then o.mark else live;
    if !o.flush.NoFlush? && m == Some(o.flush.kind) then None else m
  }

  predicate Goes(o: Outcome) { o.next.Advance? || o.next.Again? || o.next.Exit? }

  /** A visit never sets a second mark, and calls back only when no mark is left. */
  predicate MarksTidy(s: State, live: Option<Kind>, o: Outcome)
  {
    && (o.mark.Some? ==> live.None? || live == o.mark)
    && (!o.next.Exit? ==> Legit(o.to, LiveAfter(live, o)))
    && (o.space || o.note.Some? || o.next.Exit? ==> LiveAfter(live, o).None?)
    && (s.ResStatus? ==> o.mark == Some(Reason))
    && (InBody(s) && !s.ChunkDataAlmostDone? ==> o.mark == Some(Body))
    && (s.ChunkDataAlmostDone? ==> o.mark == None && o.flush == FlushBefore(Body))
    && (s.HeaderValue? ==> ValueTidy(o))
    && (o.to.HeaderValue? && LiveAfter(live, o).None? && !s.HeaderValue? ==> o.space && o.note.None?)
  }

  /** A byte of a header value either ends it or stays in it. */
  predicate ValueTidy(o: Outcome)
  {
    && o.mark.None? && !o.space && o.note.None? && !o.next.Exit?
    && (o.flush == FlushBefore(Value) || (o.flush.NoFlush? && o.to.HeaderValue? && o.next.Advance?))
  }

  predicate FieldsTidy(p: Parser, o: Outcome)
  {
    && (Goes(o) <==> o.errno == Ok) && o.errno != HeaderOverflow
    && (o.next.Exit? ==> o.reset)
    && (o.next.Again? ==> Rank(o.to) < Rank(p.state))
    && (Goes(o) && !ParsingHeader(p.state) && ParsingHeader(o.to) ==> o.reset)
    && (!Goes(o) ==> o.mark.None? && o.flush.NoFlush? && !o.space && o.note.None? && !o.reset)
  }

  /** What one visit keeps. */
  ghost predicate Tidy(p: Parser, o: Outcome)
  {
    FieldsTidy(p, o) && (Goes(o) ==> forall live | Legit(p.state, live) :: MarksTidy(p.state, live, o))
  }

  ghost predicate Disciplined(sw: Switcher)
  {
    forall p: Parser, ch: Byte {:trigger sw(p, ch)} :: Tidy(p, sw(p, ch))
  }

  lemma TidyAt(sw: Switcher, p: Parser, ch: Byte)
    requires Disciplined(sw)
    ensures Tidy(p, sw(p, ch))
    ensures sw(p, ch).next.Again? ==> Rank(sw(p, ch).After().state) < Rank(p.state)
  {
    hide MarksTidy, Legit, Rank;
  }

  lemma PerformFields(c: Config, o: Outcome, ch: Byte)
    ensures var d := Perform(c, o, ch);
            && d.p == o.After() && d.used == c.used
            && d.nread == (if o.reset then 0 else c.nread) && d.start == (if o.reset then c.used else c.start)
  {
    hide Put, Tell;
  }

  /** One visit, and then what it says to do next. */
  lemma FeedIs(sw: Switcher, c: Config, ch: Byte)
    ensures var o := sw(c.p, ch);
            var d := Perform(c, o, ch);
            && d.p == o.After() && d.used == c.used
            && Feed(sw, c, ch) == match o.next
                                  case Advance => Running(Absorb(d, ch))
                                  case Again =>
                                    if Rank(d.p.state) < Rank(c.p.state) then Feed(sw, d, ch) else Aborted(d)
                                  case Fail => Failed(d)
                                  case Exit => Exited(d.(used := d.used + 1))
                                  case Abort => Aborted(d)
  {
    hide Rank, Perform;
    PerformFields(c, sw(c.p, ch), ch);
  }

  // ----- the two configurations -----

  predicate Sane(c: Config)
  {
    Legit(c.p.state, c.live) && (c.live.None? ==> c.held == []) && c.start <= c.used
  }

  predicate Synced(c1: Config, c2: Config)
  {
    c1.live == c2.live && c1.held == c2.held && c1.out == c2.out
  }

  /** The first call's delivery at the cut took the bytes `pre` of a mark that is still live. */
  predicate Carrying(c1: Config, c2: Config, pre: Bytes)
  {
    c1.live == c2.live && c1.live.Some? && c1.held == pre + c2.held && c2.out == Put(c1.out, c1.live.value, pre)
  }

  /** A body mark is not set again until the next body byte. */
  predicate BodyGap(c1: Config, c2: Config, pre: Bytes)
  {
    InBody(c1.p.state) && c1.live == Some(Body) && c2.live.None? && c1.held == pre
    && c2.out == Put(c1.out, Body, pre)
  }

  /** The cut fell between the status code and the reason: only the second call marks it early. */
  predicate ReasonGap(c1: Config, c2: Config)
  {
    c1.p.state.ResStatus? && c1.live.None? && c2.live == Some(Reason) && c2.held == [] && c1.out == c2.out
  }

  predicate Linked(c1: Config, c2: Config, pre: Bytes)
  {
    Synced(c1, c2) || Carrying(c1, c2, pre) || BodyGap(c1, c2, pre) || ReasonGap(c1, c2)
  }

  predicate SameCount(c1: Config, c2: Config)
    requires c1.start <= c1.used && c2.start <= c2.used
  {
    ParsingHeader(c1.p.state) ==> HeaderBytes(c1) == HeaderBytes(c2)
  }

  /** The calls agree, apart from the header byte count outside of headers. */
  predicate Together(c1: Config, c2: Config, shift: nat)
  {
    Sane(c1) && Sane(c2) && c1.p == c2.p && c1.used == c2.used + shift && SameCount(c1, c2)
  }

  predicate Related(c1: Config, c2: Config, shift: nat, pre: Bytes)
  {
    Together(c1, c2, shift) && Linked(c1, c2, pre)
  }

  // ----- one visit -----

  lemma MarkKept(c1: Config, c2: Config, pre: Bytes, o: Outcome)
    requires Sane(c1) && Sane(c2) && c1.p == c2.p && Linked(c1, c2, pre)
    requires MarksTidy(c1.p.state, c1.live, o) && MarksTidy(c1.p.state, c2.live, o)
    ensures var d1, d2 := SetMark(c1, o.mark), SetMark(c2, o.mark);
            Synced(d1, d2) || Carrying(d1, d2, pre) || (BodyGap(d1, d2, pre) && o.flush == FlushBefore(Body))
  {
    hide Put;
    assert c1.held == pre ==> c1.held == pre + [];
  }

  lemma DropKept(c1: Config, c2: Config, pre: Bytes, f: Flush, ch: Byte)
    requires Synced(c1, c2) || Carrying(c1, c2, pre) || (BodyGap(c1, c2, pre) && f == FlushBefore(Body))
    requires c2.live.None? ==> c2.held == []
    ensures var d1, d2 := DropMark(c1, f, ch), DropMark(c2, f, ch); Synced(d1, d2) || Carrying(d1, d2, pre)
  {
    hide Put, InBody;
    if !f.NoFlush? && c1.live == c2.live == Some(f.kind) {
      PutPut(c1.out, f.kind, pre, c2.held);
      PutPut(c1.out, f.kind, pre, c2.held + [ch]);
      assert pre + (c2.held + [ch]) == (pre + c2.held) + [ch];
    }
  }

  lemma MarkedHolds(c: Config, m: Option<Kind>)
    requires c.live.None? ==> c.held == []
    ensures SetMark(c, m).live.None? ==> SetMark(c, m).held == []
  {
  }

  lemma LiveIs(c: Config, o: Outcome, ch: Byte)
    ensures DropMark(SetMark(c, o.mark), o.flush, ch).live == LiveAfter(c.live, o)
  {
  }

  lemma LinkKept(c1: Config, c2: Config, pre: Bytes, o: Outcome, ch: Byte)
    requires Sane(c1) && Sane(c2) && c1.p == c2.p && Linked(c1, c2, pre)
    requires Goes(o) && MarksTidy(c1.p.state, c1.live, o) && MarksTidy(c1.p.state, c2.live, o)
    ensures var d1, d2 := Perform(c1, o, ch), Perform(c2, o, ch);
            (Synced(d1, d2) || Carrying(d1, d2, pre)) && (o.next.Exit? ==> Synced(d1, d2))
  {
    hide Put, Legit, InBody, SetMark, DropMark, LiveAfter;
    var d1, d2 := SetMark(c1, o.mark), SetMark(c2, o.mark);
    MarkKept(c1, c2, pre, o);
    MarkedHolds(c2, o.mark);
    DropKept(d1, d2, pre, o.flush, ch);
    LiveIs(c1, o, ch);
    LiveIs(c2, o, ch);
  }

  lemma PerformSane(c: Config, o: Outcome, ch: Byte)
    requires Sane(c) && MarksTidy(c.p.state, c.live, o) && Goes(o) && !o.next.Exit?
    ensures Sane(Perform(c, o, ch))
  {
    hide Put, InBody, InUrl;
    LiveIs(c, o, ch);
  }

  /** One visit, seen by two calls. */
  lemma TogetherKept(c1: Config, c2: Config, shift: nat, o: Outcome, ch: Byte)
    requires Together(c1, c2, shift) && Goes(o) && FieldsTidy(c1.p, o)
    requires MarksTidy(c1.p.state, c1.live, o) && MarksTidy(c1.p.state, c2.live, o)
    ensures var d1, d2 := Perform(c1, o, ch), Perform(c2, o, ch);
            && d1.p == d2.p && d1.used == d2.used + shift
            && (if o.next.Exit? then d1.nread == d2.nread else Together(d1, d2, shift))
  {
    hide Perform, MarksTidy, Legit, Rank;
    PerformFields(c1, o, ch);
    PerformFields(c2, o, ch);
    if !o.next.Exit? {
      PerformSane(c1, o, ch);
      PerformSane(c2, o, ch);
    }
  }

  lemma CountNext(c: Config, ch: Byte)
    requires c.start <= c.used
    ensures HeaderBytes(Absorb(c, ch)) == (if HeaderBytes(c) + 1 == TWO_TO_THE_32 then 0 else HeaderBytes(c) + 1)
  {
  }

  lemma AbsorbKept(c1: Config, c2: Config, shift: nat, pre: Bytes, ch: Byte)
    requires Together(c1, c2, shift)
    ensures Together(Absorb(c1, ch), Absorb(c2, ch), shift)
    ensures Synced(c1, c2) ==> Synced(Absorb(c1, ch), Absorb(c2, ch))
    ensures Carrying(c1, c2, pre) ==> Carrying(Absorb(c1, ch), Absorb(c2, ch), pre)
  {
    hide Put, Legit, HeaderBytes;
    CountNext(c1, ch);
    CountNext(c2, ch);
    assert c1.held == pre + c2.held ==> c1.held + [ch] == pre + (c2.held + [ch]);
  }

  // ----- one byte, and all bytes of the second buffer -----

  /** The cut made the callbacks see `pre`, which the call with one buffer still holds back. */
  predicate HeldBack(d1: Config, d2: Config, pre: Bytes)
  {
    d1.live.Some? && d1.held == pre + d2.held && d2.out == Put(d1.out, d1.live.value, pre)
  }

  predicate StoppedAlike(d1: Config, d2: Config, shift: nat, pre: Bytes)
  {
    && d1.p == d2.p && d1.used == d2.used + shift
    && ((d1.out == d2.out && d1.held == d2.held) || HeldBack(d1, d2, pre))
  }

  predicate StepsAlike(s1: Step, s2: Step, shift: nat, pre: Bytes)
  {
    && (s1.Running? <==> s2.Running?)
    && (s1.Exited? <==> s2.Exited?)
    && (s1.Running? ==> Together(s1.c, s2.c, shift))
    && (s1.Running? ==> Synced(s1.c, s2.c) || Carrying(s1.c, s2.c, pre))
    && (s1.Exited? ==> s1.c.out == s2.c.out && s1.c.nread == s2.c.nread)
    && (!s1.Running? ==> StoppedAlike(s1.c, s2.c, shift, pre))
  }

  lemma VisitAlike(c1: Config, c2: Config, shift: nat, pre: Bytes, o: Outcome, ch: Byte)
    requires Related(c1, c2, shift, pre) && Goes(o) && Tidy(c1.p, o)
    ensures var d1, d2 := Perform(c1, o, ch), Perform(c2, o, ch);
            && d1.p == d2.p && d1.used == d2.used + shift
            && (Synced(d1, d2) || Carrying(d1, d2, pre))
            && (if o.next.Exit? then d1.out == d2.out && d1.nread == d2.nread else Together(d1, d2, shift))
  {
    assert MarksTidy(c1.p.state, c1.live, o) && MarksTidy(c1.p.state, c2.live, o);
    hide Put, Perform, MarksTidy, FieldsTidy, Legit, SameCount, Linked;
    TogetherKept(c1, c2, shift, o, ch);
    LinkKept(c1, c2, pre, o, ch);
  }

  /** A visit that stops has no side effects. */
  lemma StopAlike(c1: Config, c2: Config, shift: nat, pre: Bytes, o: Outcome, ch: Byte)
    requires Related(c1, c2, shift, pre) && Tidy(c1.p, o) && !Goes(o)
    ensures StoppedAlike(Perform(c1, o, ch), Perform(c2, o, ch), shift, pre)
  {
    hide Put, Legit, InBody;
    assert c1.held == pre ==> c1.held == pre + [];
  }

  lemma SyncedStops(d1: Config, d2: Config, shift: nat, pre: Bytes)
    requires d1.p == d2.p && d1.used == d2.used + shift
    requires Synced(d1, d2) || Carrying(d1, d2, pre)
    ensures StoppedAlike(d1.(used := d1.used + 1), d2.(used := d2.used + 1), shift, pre)
  {
    hide Put;
  }

  lemma {:induction false} FeedAlike(sw: Switcher, c1: Config, c2: Config, shift: nat, pre: Bytes, ch: Byte)
    requires Disciplined(sw) && Related(c1, c2, shift, pre)
    ensures StepsAlike(Feed(sw, c1, ch), Feed(sw, c2, ch), shift, pre)
    decreases Rank(c1.p.state)
  {
    hide Disciplined, Tidy, Feed, Perform, Absorb, Rank, Sane, SameCount, Synced, Carrying, BodyGap, ReasonGap,
         HeldBack;
    TidyAt(sw, c1.p, ch);
    FeedIs(sw, c1, ch);
    FeedIs(sw, c2, ch);
    var o := sw(c1.p, ch);
    var d1, d2 := Perform(c1, o, ch), Perform(c2, o, ch);
    if Goes(o) {
      VisitAlike(c1, c2, shift, pre, o, ch);
      if o.next.Advance? {
        AbsorbKept(d1, d2, shift, pre, ch);
      } else if o.next.Again? {
        FeedAlike(sw, d1, d2, shift, pre, ch);
      } else {
        SyncedStops(d1, d2, shift, pre);
      }
    } else {
      StopAlike(c1, c2, shift, pre, o, ch);
    }
  }

  lemma {:induction false} FeedAllAlike(sw: Switcher, c1: Config, c2: Config, shift: nat, pre: Bytes, b: Bytes)
    requires Disciplined(sw) && Related(c1, c2, shift, pre) && b != []
    ensures StepsAlike(FeedAll(sw, c1, b), FeedAll(sw, c2, b), shift, pre)
    decreases |b|
  {
    hide Disciplined, Together, StoppedAlike, Synced, Carrying, BodyGap, ReasonGap, Feed;
    FeedAlike(sw, c1, c2, shift, pre, b[0]);
    if Feed(sw, c1, b[0]).Running? && |b| > 1 {
      FeedAllAlike(sw, Feed(sw, c1, b[0]).c, Feed(sw, c2, b[0]).c, shift, pre, b[1..]);
    }
  }

  // ----- whole calls -----

  lemma {:induction false} FeedSane(sw: Switcher, c: Config, ch: Byte)
    requires Disciplined(sw) && Sane(c) && Feed(sw, c, ch).Running?
    ensures Sane(Feed(sw, c, ch).c)
    decreases Rank(c.p.state)
  {
    var o := sw(c.p, ch);
    assert Tidy(c.p, o);
    assert MarksTidy(c.p.state, c.live, o);
    hide Tidy, Legit, MarksTidy, Perform;
    PerformSane(c, o, ch);
    if o.next.Again? {
      FeedSane(sw, Perform(c, o, ch), ch);
    }
  }

  lemma {:induction false} FeedAllSane(sw: Switcher, c: Config, data: Bytes)
    requires Disciplined(sw) && Sane(c) && FeedAll(sw, c, data).Running?
    ensures Sane(FeedAll(sw, c, data).c)
    decreases |data|
  {
    hide Sane, Feed, Disciplined;
    if data != [] {
      FeedSane(sw, c, data[0]);
      FeedAllSane(sw, Feed(sw, c, data[0]).c, data[1..]);
    }
  }

  /** Every stop that is not an exit has recorded an error. */
  lemma {:induction false} FeedErrno(sw: Switcher, c: Config, ch: Byte)
    requires Disciplined(sw)
    ensures var s := Feed(sw, c, ch); (s.Running? || s.Exited? <==> s.c.p.errno == Ok) && s.c.p.errno != HeaderOverflow
    decreases Rank(c.p.state)
  {
    var o := sw(c.p, ch);
    assert Tidy(c.p, o);
    hide Put, Tell, MarksTidy, Legit, Rank;
    if o.next.Again? {
      FeedErrno(sw, Perform(c, o, ch), ch);
    }
  }

  lemma {:induction false} FeedAllErrno(sw: Switcher, c: Config, data: Bytes)
    requires Disciplined(sw) && c.p.errno == Ok
    ensures var s := FeedAll(sw, c, data);
            (s.Running? || s.Exited? <==> s.c.p.errno == Ok) && s.c.p.errno != HeaderOverflow
    decreases |data|
  {
    hide Feed, Disciplined;
    if data != [] {
      FeedErrno(sw, c, data[0]);
      if Feed(sw, c, data[0]).Running? {
        FeedAllErrno(sw, Feed(sw, c, data[0]).c, data[1..]);
      }
    }
  }

  /** Where the call stands after its bytes. */
  function At(sw: Switcher, p: Parser, nread: nat, out: Trace, data: Bytes): Step
  {
    FeedAll(sw, Begin(p, nread, out), data)
  }

  /** The call read all of `data`: no error, and no exit to an upgraded protocol. */
  predicate Consumes(sw: Switcher, p: Parser, nread: nat, out: Trace, data: Bytes)
  {
    && data != [] && p.errno == Ok
    && At(sw, p, nread, out, data).Running?
    && Execute(sw, p, nread, out, data).p.errno == Ok
  }

  /**
   * Inside a header value whose mark is gone: after a CR that no LF follows, the source returns to
   * s_header_value without setting a mark.
   */
  predicate Muted(c: Config) { c.p.state.HeaderValue? && c.live.None? }

  /** What the cut does: deliver, forget the marks, and mark again from the state alone. */
  lemma CutLinks(c: Config)
    requires Sane(c) && !Muted(c) && c.p.errno == Ok && Finish(c).p.errno == Ok
    ensures Related(c, Begin(Finish(c).p, Finish(c).nread, Finish(c).out), c.used, c.held)
  {
    var d := Begin(Finish(c).p, Finish(c).nread, Finish(c).out);
    CutTogether(c);
    assert c.held == c.held + [];
    hide Put, Together;
  }

  lemma CutTogether(c: Config)
    requires Sane(c) && c.p.errno == Ok && Finish(c).p.errno == Ok
    ensures Together(c, Begin(Finish(c).p, Finish(c).nread, Finish(c).out), c.used)
  {
    hide Put;
  }

  lemma FinishAlike(c1: Config, c2: Config, shift: nat, pre: Bytes)
    requires Together(c1, c2, shift) && (Synced(c1, c2) || Carrying(c1, c2, pre))
    ensures var r1, r2 := Finish(c1), Finish(c2);
            && r1.p == r2.p && r1.used == r2.used + shift
            && (ParsingHeader(r1.p.state) ==> r1.nread == r2.nread)
    ensures Total(c1) == Total(c2)
  {
    hide Put, InBody, Legit, ParsingHeader;
    if Carrying(c1, c2, pre) {
      PutPut(c1.out, c1.live.value, pre, c2.held);
    }
  }

  /** `nread` counts only while headers are parsed, and not after other errors. */
  predicate SameHeaderCount(r1: Result, r2: Result)
  {
    (r1.p.errno == Ok || r1.p.errno == HeaderOverflow) && ParsingHeader(r1.p.state) ==> r1.nread == r2.nread
  }

  /** The same result; or an error, and the cut made the callbacks see the bytes `pre` before it. */
  predicate ResultsAlike(r1: Result, r2: Result, shift: nat, pre: Bytes)
  {
    && r1.p == r2.p && r1.used == r2.used + shift && SameHeaderCount(r1, r2)
    && (r1.out == r2.out || (r1.p.errno != Ok && exists k :: r2.out == Put(r1.out, k, pre)))
  }

  lemma ConcludeAlike(s1: Step, s2: Step, shift: nat, pre: Bytes)
    requires StepsAlike(s1, s2, shift, pre) && s1.c.start <= s1.c.used && s2.c.start <= s2.c.used
    requires s1.Running? || s1.Exited? || (s1.c.p.errno != Ok && s1.c.p.errno != HeaderOverflow)
    ensures ResultsAlike(Conclude(s1), Conclude(s2), shift, pre)
  {
    hide Put, Legit, ParsingHeader;
    if s1.Running? {
      FinishAlike(s1.c, s2.c, shift, pre);
    }
    assert s1.c.out == s2.c.out || s2.c.out == Put(s1.c.out, s1.c.live.value, pre);
  }

  /** Two related calls that read the same non-empty buffer. */
  lemma CallsAlike(sw: Switcher, c1: Config, c2: Config, shift: nat, pre: Bytes, b: Bytes)
    requires Disciplined(sw) && Related(c1, c2, shift, pre) && b != [] && c1.p.errno == Ok
    ensures FeedAll(sw, c1, b).c.start <= FeedAll(sw, c1, b).c.used
    ensures FeedAll(sw, c2, b).c.start <= FeedAll(sw, c2, b).c.used
    ensures ResultsAlike(Conclude(FeedAll(sw, c1, b)), Conclude(FeedAll(sw, c2, b)), shift, pre)
    ensures FeedAll(sw, c1, b).Running? <==> FeedAll(sw, c2, b).Running?
  {
    hide FeedAll, Put, ResultsAlike, Linked, SameCount, Disciplined;
    StartWithinUsed(sw, c1, b);
    StartWithinUsed(sw, c2, b);
    FeedAllAlike(sw, c1, c2, shift, pre, b);
    FeedAllErrno(sw, c1, b);
    ConcludeAlike(FeedAll(sw, c1, b), FeedAll(sw, c2, b), shift, pre);
  }

  /**
   * Cut invariance.  If a first call reads all of `a`, then parsing `b` next gives the same errno, the
   * same parser, the same return value and the same trace as parsing `a + b` at once.  Only after an
   * error can the traces differ, and then by the bytes a mark held at the cut: the cut delivered them,
   * while the call that met the error with the mark still set never does.
   */
  lemma CutInvariance(sw: Switcher, p: Parser, nread: nat, out: Trace, a: Bytes, b: Bytes)
    requires Disciplined(sw) && Consumes(sw, p, nread, out, a) && b != []
    requires !Muted(At(sw, p, nread, out, a).c)
    ensures var ra := Execute(sw, p, nread, out, a);
            ResultsAlike(Execute(sw, p, nread, out, a + b), Execute(sw, ra.p, ra.nread, ra.out, b),
                         |a|, At(sw, p, nread, out, a).c.held)
    ensures At(sw, p, nread, out, a + b).Running?
            <==> var ra := Execute(sw, p, nread, out, a); At(sw, ra.p, ra.nread, ra.out, b).Running?
  {
    var c := At(sw, p, nread, out, a).c;
    var ra := Execute(sw, p, nread, out, a);
    FeedAllErrno(sw, Begin(p, nread, out), a);
    FeedAllConcat(sw, Begin(p, nread, out), a, b);
    StartWithinUsed(sw, Begin(p, nread, out), a);
    FeedAllSane(sw, Begin(p, nread, out), a);
    hide FeedAll, Put, ResultsAlike, Finish, Related, Sane, Muted, Disciplined;
    CutLinks(c);
    CallsAlike(sw, c, Begin(ra.p, ra.nread, ra.out), |a|, c.held, b);
  }
}
