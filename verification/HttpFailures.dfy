/** After an error: exactly when the callbacks can tell that the input was cut, and by what. */
module HttpFailures {
  import opened HttpTypes
  import opened HttpSwitch
  import opened HttpMachine
  import opened HttpCuts
  import opened HttpMuted
  import opened HttpErased

  // ----- deliveries never take anything back -----

  lemma DropCount(c: Config, f: Flush, ch: Byte)
    ensures var d := DropMark(c, f, ch);
            ByteCount(d.out) == ByteCount(c.out) + if !f.NoFlush? && c.live == Some(f.kind)
                                                   then |c.held| + (if f.FlushThrough? then 1 else 0) else 0
  {
    hide ByteCount, Put;
    if !f.NoFlush? && c.live == Some(f.kind) {
      PutCount(c.out, f.kind, if f.FlushThrough? then c.held + [ch] else c.held);
    }
  }

  lemma PerformCount(c: Config, o: Outcome, ch: Byte)
    ensures var m := SetMark(c, o.mark);
            ByteCount(Perform(c, o, ch).out)
            == ByteCount(c.out) + (if !o.flush.NoFlush? && m.live == Some(o.flush.kind)
                                   then |m.held| + (if o.flush.FlushThrough? then 1 else 0) else 0)
               + (if o.space then 1 else 0)
  {
    hide ByteCount, Put, Tell;
    var m := SetMark(c, o.mark);
    DropCount(m, o.flush, ch);
    TellCount(DropMark(m, o.flush, ch).out, o);
  }

  // ----- a cut under a live mark -----

  /**
   * The second call was told `pre`, which the first holds back under the mark `k`: nothing has been delivered
   * since the cut, when the trace was `was`.
   */
  predicate Owes(c1: Config, c2: Config, k: Kind, pre: Bytes, was: Trace)
  {
    (Carrying(c1, c2, pre) || BodyGap(c1, c2, pre)) && c1.live == Some(k) && c1.out == was
  }

  /** Both have been told the same, which is more than before the cut. */
  predicate Paid(c1: Config, c2: Config, was: Trace)
  {
    Synced(c1, c2) && ByteCount(c1.out) > ByteCount(was)
  }

  lemma OwesVisit(c1: Config, c2: Config, k: Kind, pre: Bytes, was: Trace, o: Outcome, ch: Byte)
    requires Sane(c1) && Sane(c2) && c1.p == c2.p && Owes(c1, c2, k, pre, was) && pre != []
    requires Goes(o) && MarksTidy(c1.p.state, c1.live, o) && MarksTidy(c1.p.state, c2.live, o)
    ensures var d1, d2 := Perform(c1, o, ch), Perform(c2, o, ch);
            (Carrying(d1, d2, pre) && Owes(d1, d2, k, pre, was)) || Paid(d1, d2, was)
  {
    hide Put, Legit, InBody, ByteCount;
    LinkKept(c1, c2, pre, o, ch);
    PerformCount(c1, o, ch);
    LiveIs(c1, o, ch);
  }

  lemma PaidVisit(c1: Config, c2: Config, was: Trace, o: Outcome, ch: Byte)
    requires Paid(c1, c2, was)
    ensures Paid(Perform(c1, o, ch), Perform(c2, o, ch), was)
  {
    hide ByteCount;
    PerformCount(c1, o, ch);
    LevelVisit(c1, c2, o, ch);
  }

  /** The calls have been told the same and hold the same. */
  lemma LevelVisit(c1: Config, c2: Config, o: Outcome, ch: Byte)
    requires Synced(c1, c2) || (ReasonGap(c1, c2) && c1.held == [] && o.mark == Some(Reason))
    ensures Synced(Perform(c1, o, ch), Perform(c2, o, ch))
  {
    hide Put, Tell;
  }

  predicate Debt(c1: Config, c2: Config, k: Kind, pre: Bytes, was: Trace)
  {
    Owes(c1, c2, k, pre, was) || Paid(c1, c2, was)
  }

  /** How two calls stand that stopped: the second was told `pre` in addition, or both were told the same. */
  predicate Settled(out1: Trace, out2: Trace, k: Kind, pre: Bytes, was: Trace)
  {
    if out1 == was then out2 == Put(was, k, pre) else out1 == out2
  }

  lemma DebtSettled(c1: Config, c2: Config, k: Kind, pre: Bytes, was: Trace)
    requires Debt(c1, c2, k, pre, was)
    ensures Settled(c1.out, c2.out, k, pre, was)
  {
    hide Put, ByteCount, InBody;
  }

  lemma DebtVisit(c1: Config, c2: Config, k: Kind, pre: Bytes, was: Trace, o: Outcome, ch: Byte)
    requires Sane(c1) && Sane(c2) && c1.p == c2.p && Debt(c1, c2, k, pre, was) && pre != []
    requires Goes(o) && MarksTidy(c1.p.state, c1.live, o) && MarksTidy(c1.p.state, c2.live, o)
    ensures var d1, d2 := Perform(c1, o, ch), Perform(c2, o, ch);
            && Debt(d1, d2, k, pre, was) && Debt(Absorb(d1, ch), Absorb(d2, ch), k, pre, was)
            && (o.next.Exit? ==> d1.out == d2.out)
  {
    hide Perform, MarksTidy, Sane, Put, ByteCount;
    var d1, d2 := Perform(c1, o, ch), Perform(c2, o, ch);
    if Owes(c1, c2, k, pre, was) {
      OwesVisit(c1, c2, k, pre, was, o, ch);
    } else {
      PaidVisit(c1, c2, was, o, ch);
    }
    if Carrying(d1, d2, pre) {
      assert d1.held + [ch] == pre + (d2.held + [ch]);
    }
    if o.next.Exit? {
      ExitLevel(c1, c2, pre, o, ch);
    }
  }

  lemma ExitLevel(c1: Config, c2: Config, pre: Bytes, o: Outcome, ch: Byte)
    requires Sane(c1) && Sane(c2) && c1.p == c2.p && Linked(c1, c2, pre)
    requires o.next.Exit? && MarksTidy(c1.p.state, c1.live, o) && MarksTidy(c1.p.state, c2.live, o)
    ensures Perform(c1, o, ch).out == Perform(c2, o, ch).out
  {
    hide Perform, MarksTidy, Sane, Linked, Put;
    LinkKept(c1, c2, pre, o, ch);
  }

  /** A visit that stops delivers nothing. */
  lemma StopOut(p: Parser, c: Config, o: Outcome, ch: Byte)
    requires Tidy(p, o) && !Goes(o)
    ensures Perform(c, o, ch).out == c.out
  {
    hide Put, MarksTidy, Legit, Rank;
  }

  predicate StepsSettle(s1: Step, s2: Step, shift: nat, k: Kind, pre: Bytes, was: Trace)
  {
    && (s1.Running? <==> s2.Running?)
    && (s1.Running? ==> Together(s1.c, s2.c, shift) && Debt(s1.c, s2.c, k, pre, was))
    && (s1.Exited? ==> s1.c.p.errno == Ok)
    && (!s1.Running? && !s1.Exited? ==> Settled(s1.c.out, s2.c.out, k, pre, was))
  }

  lemma {:induction false} FeedSettles(
    sw: Switcher, c1: Config, c2: Config, shift: nat, k: Kind, pre: Bytes, was: Trace, ch: Byte)
    requires Disciplined(sw) && Together(c1, c2, shift) && Debt(c1, c2, k, pre, was) && pre != []
    ensures StepsSettle(Feed(sw, c1, ch), Feed(sw, c2, ch), shift, k, pre, was)
    decreases Rank(c1.p.state)
  {
    hide Disciplined, MarksTidy, Feed, Perform, Absorb, Legit, SameCount, Rank, Debt, Settled;
    TidyAt(sw, c1.p, ch);
    FeedIs(sw, c1, ch);
    FeedIs(sw, c2, ch);
    var o := sw(c1.p, ch);
    var d1, d2 := Perform(c1, o, ch), Perform(c2, o, ch);
    if Goes(o) {
      TogetherKept(c1, c2, shift, o, ch);
      DebtVisit(c1, c2, k, pre, was, o, ch);
      if o.next.Advance? {
        AbsorbKept(d1, d2, shift, pre, ch);
      } else if o.next.Again? {
        FeedSettles(sw, d1, d2, shift, k, pre, was, ch);
      }
    } else {
      StopOut(c1.p, c1, o, ch);
      StopOut(c1.p, c2, o, ch);
      DebtSettled(c1, c2, k, pre, was);
    }
  }

  lemma {:induction false} FeedAllSettles(
    sw: Switcher, c1: Config, c2: Config, shift: nat, k: Kind, pre: Bytes, was: Trace, b: Bytes)
    requires Disciplined(sw) && Together(c1, c2, shift) && Debt(c1, c2, k, pre, was) && pre != []
    ensures StepsSettle(FeedAll(sw, c1, b), FeedAll(sw, c2, b), shift, k, pre, was)
    decreases |b|
  {
    hide Disciplined, Together, Feed, Debt, Settled;
    if b != [] {
      FeedSettles(sw, c1, c2, shift, k, pre, was, b[0]);
      if Feed(sw, c1, b[0]).Running? {
        FeedAllSettles(sw, Feed(sw, c1, b[0]).c, Feed(sw, c2, b[0]).c, shift, k, pre, was, b[1..]);
      }
    }
  }

  // ----- bytes that leave the mark alone -----

  /** No visit to this byte ends the live mark. */
  predicate StaysMarked(sw: Switcher, c: Config, ch: Byte)
    decreases Rank(c.p.state)
  {
    var o := sw(c.p, ch);
    && (o.flush.NoFlush? || c.live != Some(o.flush.kind))
    && (o.next.Again? && Rank(o.to) < Rank(c.p.state) ==> StaysMarked(sw, Perform(c, o, ch), ch))
  }

  /** None of these bytes ends the live mark, up to the first that stops the call. */
  predicate StaysMarkedAll(sw: Switcher, c: Config, b: Bytes)
    decreases |b|
  {
    b == [] ||
    (StaysMarked(sw, c, b[0]) &&
     (Feed(sw, c, b[0]).Running? ==> StaysMarkedAll(sw, Feed(sw, c, b[0]).c, b[1..])))
  }

  predicate Waits(c: Config, was: Trace) { Sane(c) && c.live.Some? && c.held != [] && c.out == was }

  predicate EndsMark(c: Config, o: Outcome) { !o.flush.NoFlush? && c.live == Some(o.flush.kind) }

  /** A visit delivers something exactly if it ends the mark. */
  lemma WaitsVisit(c: Config, was: Trace, o: Outcome, ch: Byte)
    requires Waits(c, was) && Goes(o) && MarksTidy(c.p.state, c.live, o)
    ensures var d := Perform(c, o, ch);
            if EndsMark(c, o) then ByteCount(d.out) > ByteCount(was)
            else !o.next.Exit? && Waits(d, was) && Waits(Absorb(d, ch), was)
  {
    hide Put, Legit, InBody, ByteCount;
    PerformCount(c, o, ch);
    LiveIs(c, o, ch);
  }

  lemma {:induction false} FeedGrows(sw: Switcher, c: Config, ch: Byte)
    ensures ByteCount(Feed(sw, c, ch).c.out) >= ByteCount(c.out)
    decreases Rank(c.p.state)
  {
    hide ByteCount, Perform, Rank;
    var o := sw(c.p, ch);
    PerformCount(c, o, ch);
    if o.next.Again? && Rank(Perform(c, o, ch).p.state) < Rank(c.p.state) {
      FeedGrows(sw, Perform(c, o, ch), ch);
    }
  }

  lemma {:induction false} FeedAllGrows(sw: Switcher, c: Config, b: Bytes)
    ensures ByteCount(FeedAll(sw, c, b).c.out) >= ByteCount(c.out)
    decreases |b|
  {
    hide ByteCount, Feed;
    if b != [] {
      FeedGrows(sw, c, b[0]);
      if Feed(sw, c, b[0]).Running? {
        FeedAllGrows(sw, Feed(sw, c, b[0]).c, b[1..]);
      }
    }
  }

  lemma StaysMarkedIs(sw: Switcher, c: Config, ch: Byte)
    requires Disciplined(sw)
    ensures var o := sw(c.p, ch);
            StaysMarked(sw, c, ch) <==> !EndsMark(c, o) && (o.next.Again? ==> StaysMarked(sw, Perform(c, o, ch), ch))
  {
    hide Disciplined, Perform, Rank, MarksTidy, Legit;
    TidyAt(sw, c.p, ch);
  }

  lemma {:induction false} MarkedByte(sw: Switcher, c: Config, was: Trace, ch: Byte)
    requires Disciplined(sw) && Waits(c, was)
    ensures var s := Feed(sw, c, ch);
            if StaysMarked(sw, c, ch) then s.c.out == was && (s.Running? ==> Waits(s.c, was))
            else ByteCount(s.c.out) > ByteCount(was)
    decreases Rank(c.p.state)
  {
    hide Disciplined, MarksTidy, Feed, Perform, Legit, Rank, StaysMarked, ByteCount;
    TidyAt(sw, c.p, ch);
    FeedIs(sw, c, ch);
    StaysMarkedIs(sw, c, ch);
    var o := sw(c.p, ch);
    var d := Perform(c, o, ch);
    if Goes(o) {
      WaitsVisit(c, was, o, ch);
      if o.next.Again? {
        FeedGrows(sw, d, ch);
        if !EndsMark(c, o) {
          MarkedByte(sw, d, was, ch);
        }
      }
    } else {
      StopOut(c.p, c, o, ch);
    }
  }

  /** Nothing is delivered exactly if none of the bytes ends the mark. */
  lemma {:induction false} MarkedBytes(sw: Switcher, c: Config, b: Bytes)
    requires Disciplined(sw) && Waits(c, c.out)
    ensures StaysMarkedAll(sw, c, b) <==> FeedAll(sw, c, b).c.out == c.out
    decreases |b|
  {
    hide Disciplined, Feed, StaysMarked, ByteCount, Sane;
    if b != [] {
      MarkedByte(sw, c, c.out, b[0]);
      if Feed(sw, c, b[0]).Running? {
        if StaysMarked(sw, c, b[0]) {
          MarkedBytes(sw, Feed(sw, c, b[0]).c, b[1..]);
        } else {
          FeedAllGrows(sw, Feed(sw, c, b[0]).c, b[1..]);
        }
      }
    }
  }

  // ----- a cut under no mark -----

  predicate Level(c1: Config, c2: Config) { Synced(c1, c2) || (ReasonGap(c1, c2) && c1.held == []) }

  predicate StepsLevel(s1: Step, s2: Step, shift: nat)
  {
    && (s1.Running? <==> s2.Running?)
    && (s1.Running? ==> Together(s1.c, s2.c, shift) && Level(s1.c, s2.c))
    && s1.c.out == s2.c.out
  }

  lemma LevelOut(c1: Config, c2: Config)
    requires Level(c1, c2)
    ensures c1.out == c2.out
  {
  }

  lemma LevelNext(c1: Config, c2: Config, o: Outcome, ch: Byte)
    requires c1.p == c2.p && Level(c1, c2) && MarksTidy(c1.p.state, c1.live, o)
    ensures var d1, d2 := Perform(c1, o, ch), Perform(c2, o, ch);
            Level(d1, d2) && d1.out == d2.out && Level(Absorb(d1, ch), Absorb(d2, ch))
  {
    hide Perform, Legit, InBody;
    LevelVisit(c1, c2, o, ch);
  }

  lemma {:induction false} FeedLevel(sw: Switcher, c1: Config, c2: Config, shift: nat, ch: Byte)
    requires Disciplined(sw) && Together(c1, c2, shift) && Level(c1, c2)
    ensures StepsLevel(Feed(sw, c1, ch), Feed(sw, c2, ch), shift)
    decreases Rank(c1.p.state)
  {
    hide Disciplined, MarksTidy, Feed, Perform, Absorb, Legit, SameCount, Rank, Level;
    TidyAt(sw, c1.p, ch);
    FeedIs(sw, c1, ch);
    FeedIs(sw, c2, ch);
    var o := sw(c1.p, ch);
    var d1, d2 := Perform(c1, o, ch), Perform(c2, o, ch);
    if Goes(o) {
      TogetherKept(c1, c2, shift, o, ch);
      LevelNext(c1, c2, o, ch);
      if o.next.Advance? {
        AbsorbKept(d1, d2, shift, [], ch);
        LevelOut(Absorb(d1, ch), Absorb(d2, ch));
      } else if o.next.Again? {
        FeedLevel(sw, d1, d2, shift, ch);
      }
    } else {
      StopOut(c1.p, c1, o, ch);
      StopOut(c1.p, c2, o, ch);
      LevelOut(c1, c2);
    }
  }

  lemma {:induction false} FeedAllLevel(sw: Switcher, c1: Config, c2: Config, shift: nat, b: Bytes)
    requires Disciplined(sw) && Together(c1, c2, shift) && Level(c1, c2)
    ensures StepsLevel(FeedAll(sw, c1, b), FeedAll(sw, c2, b), shift)
    decreases |b|
  {
    hide Disciplined, Together, Feed, Level;
    LevelOut(c1, c2);
    if b != [] {
      FeedLevel(sw, c1, c2, shift, b[0]);
      if Feed(sw, c1, b[0]).Running? {
        FeedAllLevel(sw, Feed(sw, c1, b[0]).c, Feed(sw, c2, b[0]).c, shift, b[1..]);
      }
    }
  }

  // ----- the exact condition -----

  /** A live mark holds at least the byte that was read last. */
  lemma {:induction false} FeedHolds(sw: Switcher, c: Config, ch: Byte)
    requires Feed(sw, c, ch).Running?
    ensures Feed(sw, c, ch).c.live.Some? ==> Feed(sw, c, ch).c.held != []
    decreases Rank(c.p.state)
  {
    hide Perform, Rank;
    var o := sw(c.p, ch);
    if o.next.Again? {
      FeedHolds(sw, Perform(c, o, ch), ch);
    }
  }

  lemma {:induction false} FeedAllHolds(sw: Switcher, c: Config, data: Bytes)
    requires data != [] && FeedAll(sw, c, data).Running?
    ensures FeedAll(sw, c, data).c.live.Some? ==> FeedAll(sw, c, data).c.held != []
    decreases |data|
  {
    hide Feed;
    FeedHolds(sw, c, data[0]);
    if |data| > 1 {
      FeedAllHolds(sw, Feed(sw, c, data[0]).c, data[1..]);
    }
  }

  /** What the cut leaves: a debt if it fell under a mark, and nothing otherwise. */
  lemma CutDebt(c: Config)
    requires Sane(c) && !Muted(c) && c.p.errno == Ok && Finish(c).p.errno == Ok && (c.live.Some? ==> c.held != [])
    ensures var d := Begin(Finish(c).p, Finish(c).nread, Finish(c).out);
            if c.live.Some? then Debt(c, d, c.live.value, c.held, c.out) else Level(c, d)
  {
    hide Put, Finish, ByteCount, InUrl, Legit, Together, Muted;
    CutLinks(c);
  }

  /** With an error nothing is delivered at the end of the call. */
  lemma ErrorOut(s: Step)
    requires s.c.start <= s.c.used && (s.Running? || s.Exited? <==> s.c.p.errno == Ok)
    ensures Conclude(s).p.errno != Ok ==> Conclude(s).out == s.c.out && (s.Running? || (!s.Running? && !s.Exited?))
  {
    hide Total, HeaderBytes, ParsingHeader;
  }

  lemma PutMore(t: Trace, k: Kind, bs: Bytes)
    requires bs != []
    ensures Put(t, k, bs) != t
  {
    hide Put, ByteCount;
    PutCount(t, k, bs);
  }

  /**
   * After an error the callbacks can tell the cut exactly if a mark was live at the cut and none of the bytes up
   * to the error ended it; they have then been told the bytes under the mark.  This holds of any error, also of
   * headers that are too long.
   */
  lemma ErrorCut(sw: Switcher, p: Parser, nread: nat, out: Trace, a: Bytes, b: Bytes)
    requires Disciplined(sw) && Consumes(sw, p, nread, out, a) && b != []
    requires !Muted(At(sw, p, nread, out, a).c) && Execute(sw, p, nread, out, a + b).p.errno != Ok
    ensures var c := At(sw, p, nread, out, a).c;
            var ra := Execute(sw, p, nread, out, a);
            var r1, r2 := Execute(sw, p, nread, out, a + b), Execute(sw, ra.p, ra.nread, ra.out, b);
            if c.live.Some? && StaysMarkedAll(sw, c, b)
            then r1.out == c.out && r2.out == Put(c.out, c.live.value, c.held) != r1.out
            else r2.out == r1.out
  {
    hide FeedAll, Disciplined, Put, Finish, Conclude, Muted, Debt, Level, Sane, Together, StaysMarkedAll;
    var c := At(sw, p, nread, out, a).c;
    var ra := Execute(sw, p, nread, out, a);
    var d := Begin(ra.p, ra.nread, ra.out);
    AtSound(sw, p, nread, out, a);
    FeedAllHolds(sw, Begin(p, nread, out), a);
    FeedAllConcat(sw, Begin(p, nread, out), a, b);
    CutTogether(c);
    CutDebt(c);
    AnyCut(sw, p, nread, out, a, b);
    StartWithinUsed(sw, c, b);
    StartWithinUsed(sw, d, b);
    ErrorEnds(sw, c, d, |a|, b);
    if c.live.Some? {
      FeedAllSettles(sw, c, d, |a|, c.live.value, c.held, c.out, b);
      SettlesOut(FeedAll(sw, c, b), FeedAll(sw, d, b), |a|, c.live.value, c.held, c.out);
      PutMore(c.out, c.live.value, c.held);
      MarkedBytes(sw, c, b);
    } else {
      FeedAllLevel(sw, c, d, |a|, b);
    }
  }

  lemma SettlesOut(s1: Step, s2: Step, shift: nat, k: Kind, pre: Bytes, was: Trace)
    requires StepsSettle(s1, s2, shift, k, pre, was) && !s1.Exited?
    ensures Settled(s1.c.out, s2.c.out, k, pre, was)
  {
    hide Together, Debt, Settled;
    if s1.Running? {
      DebtSettled(s1.c, s2.c, k, pre, was);
    }
  }

  lemma ErrorEnds(sw: Switcher, c: Config, d: Config, shift: nat, b: Bytes)
    requires Disciplined(sw) && Together(c, d, shift) && c.p.errno == Ok && b != []
    requires FeedAll(sw, c, b).c.start <= FeedAll(sw, c, b).c.used
    requires FeedAll(sw, d, b).c.start <= FeedAll(sw, d, b).c.used
    requires Conclude(FeedAll(sw, c, b)).p.errno != Ok && Conclude(FeedAll(sw, d, b)).p == Conclude(FeedAll(sw, c, b)).p
    ensures Conclude(FeedAll(sw, c, b)).out == FeedAll(sw, c, b).c.out && !FeedAll(sw, c, b).Exited?
    ensures Conclude(FeedAll(sw, d, b)).out == FeedAll(sw, d, b).c.out
  {
    hide FeedAll, Disciplined, Conclude, Sane, SameCount;
    FeedAllErrno(sw, c, b);
    FeedAllErrno(sw, d, b);
    ErrorOut(FeedAll(sw, c, b));
    ErrorOut(FeedAll(sw, d, b));
  }

  // ----- a cut inside a muted value -----

  /** The second call holds bytes of the value that the first has lost; nothing was delivered since the cut. */
  predicate Saves(c1: Config, c2: Config, was: Trace)
  {
    && c1.p.state.HeaderValue? && c1.live.None? && c1.held == []
    && c2.live == Some(Value) && c2.held != [] && c1.out == c2.out == was
  }

  /** The second call has delivered more. */
  predicate Outruns(c1: Config, c2: Config, was: Trace)
  {
    && c1.live == c2.live && c1.held == c2.held
    && ByteCount(c2.out) > ByteCount(c1.out) && ByteCount(c2.out) > ByteCount(was)
  }

  predicate Better(c1: Config, c2: Config, was: Trace) { Saves(c1, c2, was) || Outruns(c1, c2, was) }

  lemma SavesVisit(c1: Config, c2: Config, was: Trace, o: Outcome, ch: Byte)
    requires Saves(c1, c2, was) && c1.p == c2.p && Goes(o) && MarksTidy(c1.p.state, c1.live, o)
    ensures var d1, d2 := Perform(c1, o, ch), Perform(c2, o, ch);
            (Saves(d1, d2, was) && o.next.Advance?) || Outruns(d1, d2, was)
  {
    hide Put, Legit, InBody, ByteCount;
    PerformCount(c1, o, ch);
    PerformCount(c2, o, ch);
  }

  lemma OutrunsVisit(c1: Config, c2: Config, was: Trace, o: Outcome, ch: Byte)
    requires Outruns(c1, c2, was)
    ensures Outruns(Perform(c1, o, ch), Perform(c2, o, ch), was)
  {
    hide Put, Tell, ByteCount;
    PerformCount(c1, o, ch);
    PerformCount(c2, o, ch);
  }

  lemma BetterVisit(c1: Config, c2: Config, was: Trace, o: Outcome, ch: Byte)
    requires Better(c1, c2, was) && c1.p == c2.p && Goes(o) && MarksTidy(c1.p.state, c1.live, o)
    ensures var d1, d2 := Perform(c1, o, ch), Perform(c2, o, ch);
            Better(d1, d2, was) && (o.next.Advance? ==> Better(Absorb(d1, ch), Absorb(d2, ch), was))
  {
    hide Perform, MarksTidy, ByteCount;
    if Saves(c1, c2, was) {
      SavesVisit(c1, c2, was, o, ch);
    } else {
      OutrunsVisit(c1, c2, was, o, ch);
    }
  }

  /** How they stand: the second was told more, or nothing has been told since the cut. */
  predicate Told(out1: Trace, out2: Trace, was: Trace) { if out2 == was then out1 == was else out1 != out2 }

  lemma BetterTold(c1: Config, c2: Config, was: Trace)
    requires Better(c1, c2, was)
    ensures Told(c1.out, c2.out, was)
  {
    hide ByteCount;
  }

  predicate StepsBetter(s1: Step, s2: Step, shift: nat, was: Trace)
  {
    && (s1.Running? <==> s2.Running?)
    && (s1.Running? ==> Together(s1.c, s2.c, shift) && Better(s1.c, s2.c, was))
    && (!s1.Exited? ==> Told(s1.c.out, s2.c.out, was))
  }

  lemma {:induction false} FeedBetter(sw: Switcher, c1: Config, c2: Config, shift: nat, was: Trace, ch: Byte)
    requires Disciplined(sw) && Together(c1, c2, shift) && Better(c1, c2, was)
    ensures StepsBetter(Feed(sw, c1, ch), Feed(sw, c2, ch), shift, was)
    decreases Rank(c1.p.state)
  {
    hide Disciplined, MarksTidy, Feed, Perform, Absorb, Legit, SameCount, Rank, Better, Told;
    TidyAt(sw, c1.p, ch);
    FeedIs(sw, c1, ch);
    FeedIs(sw, c2, ch);
    var o := sw(c1.p, ch);
    var d1, d2 := Perform(c1, o, ch), Perform(c2, o, ch);
    if Goes(o) {
      TogetherKept(c1, c2, shift, o, ch);
      BetterVisit(c1, c2, was, o, ch);
      if o.next.Advance? {
        AbsorbKept(d1, d2, shift, [], ch);
        BetterTold(Absorb(d1, ch), Absorb(d2, ch), was);
      } else if o.next.Again? {
        FeedBetter(sw, d1, d2, shift, was, ch);
      }
    } else {
      StopOut(c1.p, c1, o, ch);
      StopOut(c1.p, c2, o, ch);
      BetterTold(c1, c2, was);
    }
  }

  lemma {:induction false} FeedAllBetter(sw: Switcher, c1: Config, c2: Config, shift: nat, was: Trace, b: Bytes)
    requires Disciplined(sw) && Together(c1, c2, shift) && Better(c1, c2, was)
    ensures StepsBetter(FeedAll(sw, c1, b), FeedAll(sw, c2, b), shift, was)
    decreases |b|
  {
    hide Disciplined, Together, Feed, Better, Told;
    BetterTold(c1, c2, was);
    if b != [] {
      FeedBetter(sw, c1, c2, shift, was, b[0]);
      if Feed(sw, c1, b[0]).Running? {
        FeedAllBetter(sw, Feed(sw, c1, b[0]).c, Feed(sw, c2, b[0]).c, shift, was, b[1..]);
      }
    }
  }

  /** Just after the cut: the second call has marked the value again. */
  predicate Marked(c: Config, d: Config)
  {
    Muted(c) && c.held == [] && d.live == Some(Value) && d.held == [] && d.out == c.out && EndsInValue(c.out)
  }

  lemma FirstEnds(sw: Switcher, c: Config, d: Config, shift: nat, ch: Byte)
    requires Disciplined(sw) && Together(c, d, shift) && Marked(c, d) && sw(c.p, ch).flush == FlushBefore(Value)
    ensures StepsLevel(Feed(sw, c, ch), Feed(sw, d, ch), shift)
  {
    hide Disciplined, MarksTidy, Feed, Perform, Legit, SameCount, Rank, Level;
    TidyAt(sw, c.p, ch);
    FeedIs(sw, c, ch);
    FeedIs(sw, d, ch);
    var o := sw(c.p, ch);
    FlushGoes(c.p, o);
    var c1, d1 := Perform(c, o, ch), Perform(d, o, ch);
    TogetherKept(c, d, shift, o, ch);
    FirstLevel(c, d, o, ch);
    if o.next.Advance? {
      AbsorbKept(c1, d1, shift, [], ch);
      LevelOut(Absorb(c1, ch), Absorb(d1, ch));
    } else {
      FeedLevel(sw, c1, d1, shift, ch);
    }
  }

  lemma FlushGoes(p: Parser, o: Outcome)
    requires Tidy(p, o) && o.flush == FlushBefore(Value) && p.state.HeaderValue?
    ensures Goes(o) && forall live | Legit(p.state, live) :: MarksTidy(p.state, live, o) && !o.next.Exit?
  {
    hide Legit, Rank;
    if Goes(o) {
      forall live | Legit(p.state, live)
        ensures MarksTidy(p.state, live, o) && !o.next.Exit?
      {
      }
    }
  }

  lemma FirstLevel(c: Config, d: Config, o: Outcome, ch: Byte)
    requires Marked(c, d) && MarksTidy(c.p.state, c.live, o) && o.flush == FlushBefore(Value)
    ensures var c1, d1 := Perform(c, o, ch), Perform(d, o, ch);
            Level(c1, d1) && Level(Absorb(c1, ch), Absorb(d1, ch))
  {
    hide Put, Legit, InBody;
    PutNothing(c.out);
  }

  lemma FirstStays(sw: Switcher, c: Config, d: Config, shift: nat, ch: Byte)
    requires Disciplined(sw) && Together(c, d, shift) && Marked(c, d) && sw(c.p, ch).flush != FlushBefore(Value)
    ensures StepsBetter(Feed(sw, c, ch), Feed(sw, d, ch), shift, c.out)
  {
    hide Disciplined, MarksTidy, Feed, Perform, Legit, SameCount, Rank;
    TidyAt(sw, c.p, ch);
    FeedIs(sw, c, ch);
    FeedIs(sw, d, ch);
    var o := sw(c.p, ch);
    if Goes(o) {
      TogetherKept(c, d, shift, o, ch);
      FirstSaved(c, d, o, ch);
      AbsorbKept(Perform(c, o, ch), Perform(d, o, ch), shift, [], ch);
    } else {
      StopOut(c.p, c, o, ch);
      StopOut(c.p, d, o, ch);
    }
  }

  lemma FirstSaved(c: Config, d: Config, o: Outcome, ch: Byte)
    requires Marked(c, d) && MarksTidy(c.p.state, c.live, o) && o.flush != FlushBefore(Value) && Goes(o)
    ensures o.next.Advance? && Saves(Absorb(Perform(c, o, ch), ch), Absorb(Perform(d, o, ch), ch), c.out)
  {
    hide Put, Legit, InBody;
  }

  /**
   * After an error, a cut inside a muted value shows exactly if the value goes on with the byte after the cut
   * and ends before the error: the second call has then delivered bytes that the first lost.
   */
  lemma MutedErrorCut(sw: Switcher, p: Parser, nread: nat, out: Trace, a: Bytes, b: Bytes)
    requires Disciplined(sw) && Consumes(sw, p, nread, out, a) && b != []
    requires Muted(At(sw, p, nread, out, a).c) && Execute(sw, p, nread, out, a + b).p.errno != Ok
    ensures var ra := Execute(sw, p, nread, out, a);
            var r1, r2 := Execute(sw, p, nread, out, a + b), Execute(sw, ra.p, ra.nread, ra.out, b);
            r1.out != r2.out <==>
            sw(ra.p, b[0]).flush != FlushBefore(Value) && !StaysMarkedAll(sw, Begin(ra.p, ra.nread, ra.out), b)
  {
    hide FeedAll, Disciplined, Put, Conclude, Better, Level, Sane, Together, HeaderBytes, Feed, EndsInValue,
      StaysMarkedAll;
    var c := At(sw, p, nread, out, a).c;
    var ra := Execute(sw, p, nread, out, a);
    var d := Begin(ra.p, ra.nread, ra.out);
    AtSound(sw, p, nread, out, a);
    FeedAllConcat(sw, Begin(p, nread, out), a, b);
    CutTogether(c);
    AnyCut(sw, p, nread, out, a, b);
    StartWithinUsed(sw, c, b);
    StartWithinUsed(sw, d, b);
    ErrorEnds(sw, c, d, |a|, b);
    MutedHolds(c);
    if sw(ra.p, b[0]).flush == FlushBefore(Value) {
      AllEnds(sw, c, d, |a|, b);
    } else {
      AllStays(sw, c, d, |a|, b);
      BothSane(c, d, |a|);
      MarkedAgain(sw, d, b);
    }
  }

  lemma BothSane(c: Config, d: Config, shift: nat)
    requires Together(c, d, shift)
    ensures Sane(c) && Sane(d)
  {
  }

  /** A value that is marked from its next byte on, if that byte does not end it. */
  lemma MarkedAgain(sw: Switcher, d: Config, b: Bytes)
    requires Disciplined(sw) && Sane(d) && d.p.state.HeaderValue? && d.live == Some(Value) && d.held == []
    requires b != [] && sw(d.p, b[0]).flush != FlushBefore(Value)
    ensures StaysMarkedAll(sw, d, b) <==> FeedAll(sw, d, b).c.out == d.out
  {
    hide Disciplined, MarksTidy, Feed, Perform, Rank, StaysMarked;
    var o := sw(d.p, b[0]);
    TidyAt(sw, d.p, b[0]);
    FeedIs(sw, d, b[0]);
    StaysMarkedIs(sw, d, b[0]);
    if Goes(o) {
      FirstWaits(d, o, b[0]);
      MarkedBytes(sw, Absorb(Perform(d, o, b[0]), b[0]), b[1..]);
    } else {
      StopOut(d.p, d, o, b[0]);
    }
  }

  lemma FirstWaits(d: Config, o: Outcome, ch: Byte)
    requires Sane(d) && d.p.state.HeaderValue? && d.live == Some(Value) && d.held == []
    requires MarksTidy(d.p.state, d.live, o) && o.flush != FlushBefore(Value)
    ensures o.next.Advance? && o.flush.NoFlush? && Waits(Absorb(Perform(d, o, ch), ch), d.out)
  {
    hide Put, InBody;
  }

  lemma MutedHolds(c: Config)
    requires Sane(c) && Muted(c) && MutedInValue(c)
    ensures c.held == [] && EndsInValue(c.out)
  {
  }

  lemma AllEnds(sw: Switcher, c: Config, d: Config, shift: nat, b: Bytes)
    requires Disciplined(sw) && Together(c, d, shift) && Marked(c, d) && b != []
    requires sw(c.p, b[0]).flush == FlushBefore(Value)
    ensures FeedAll(sw, c, b).c.out == FeedAll(sw, d, b).c.out
  {
    hide Disciplined, Together, Feed, Level, Marked;
    FirstEnds(sw, c, d, shift, b[0]);
    if Feed(sw, c, b[0]).Running? {
      FeedAllLevel(sw, Feed(sw, c, b[0]).c, Feed(sw, d, b[0]).c, shift, b[1..]);
    }
  }

  lemma AllStays(sw: Switcher, c: Config, d: Config, shift: nat, b: Bytes)
    requires Disciplined(sw) && Together(c, d, shift) && Marked(c, d) && b != []
    requires sw(c.p, b[0]).flush != FlushBefore(Value) && !FeedAll(sw, c, b).Exited?
    ensures Told(FeedAll(sw, c, b).c.out, FeedAll(sw, d, b).c.out, c.out)
  {
    hide Disciplined, Together, Feed, Better, Marked, Told;
    FirstStays(sw, c, d, shift, b[0]);
    if Feed(sw, c, b[0]).Running? {
      FeedAllBetter(sw, Feed(sw, c, b[0]).c, Feed(sw, d, b[0]).c, shift, c.out, b[1..]);
    }
  }

  // ----- all cuts -----

  /**
   * Whether the callbacks are told the same if the bytes `b` are read on from `c` or by a new call that starts in
   * `d`.  The cut shows after an error, if no byte ends the mark that was live; and in a muted value, if the next
   * byte is part of it and some byte before an error ends it.
   */
  predicate SameTold(sw: Switcher, c: Config, d: Config, b: Bytes, errno: Errno)
    requires b != []
  {
    if Muted(c) then sw(c.p, b[0]).flush == FlushBefore(Value) || (errno != Ok && StaysMarkedAll(sw, d, b))
    else errno == Ok || c.live.None? || !StaysMarkedAll(sw, c, b)
  }

  lemma AtSame(sw: Switcher, p: Parser, nread: nat, out: Trace, a: Bytes)
    requires Consumes(sw, p, nread, out, a)
    ensures At(sw, p, nread, out, a).c.p == Execute(sw, p, nread, out, a).p
  {
    hide FeedAll, Total, HeaderBytes, ParsingHeader;
  }

  /**
   * Every accepted cut.  The parser, the return value and the header count never depend on it; nor does, without an
   * error, anything that is told but the bytes of values; and the traces are equal exactly in the cases above.
   */
  lemma CutExact(sw: Switcher, p: Parser, nread: nat, out: Trace, a: Bytes, b: Bytes)
    requires Disciplined(sw) && Consumes(sw, p, nread, out, a) && b != []
    ensures var c, ra := At(sw, p, nread, out, a).c, Execute(sw, p, nread, out, a);
            var r1, r2 := Execute(sw, p, nread, out, a + b), Execute(sw, ra.p, ra.nread, ra.out, b);
            && ResultsLoose(r1, r2, |a|)
            && (r1.out == r2.out <==> SameTold(sw, c, Begin(ra.p, ra.nread, ra.out), b, r1.p.errno))
  {
    hide Disciplined, Consumes, Execute, At, Muted, Put, Blank, SameHeaderCount, StaysMarkedAll, Begin;
    var c := At(sw, p, nread, out, a).c;
    AtSame(sw, p, nread, out, a);
    AnyCut(sw, p, nread, out, a, b);
    if Execute(sw, p, nread, out, a + b).p.errno != Ok {
      if Muted(c) {
        MutedErrorCut(sw, p, nread, out, a, b);
      } else {
        ErrorCut(sw, p, nread, out, a, b);
      }
    } else if Muted(c) {
      MutedCut(sw, p, nread, out, a, b);
    } else {
      CutInvariance(sw, p, nread, out, a, b);
    }
  }

  // ----- headers that are too long -----

  /**
   * A call refuses headers as too long exactly if its bytes run out in the middle of headers of which more than
   * MAX_HEADER_SIZE bytes have been read: the size is looked at nowhere else.
   */
  lemma OverflowExact(sw: Switcher, p: Parser, nread: nat, out: Trace, data: Bytes)
    requires Disciplined(sw) && data != [] && p.errno == Ok
    ensures var s := At(sw, p, nread, out, data);
            && s.c.start <= s.c.used
            && (Execute(sw, p, nread, out, data).p.errno == HeaderOverflow <==>
                s.Running? && ParsingHeader(s.c.p.state) && HeaderBytes(s.c) > MAX_HEADER_SIZE)
  {
    hide FeedAll, Disciplined, ParsingHeader, HeaderBytes, Total;
    StartWithinUsed(sw, Begin(p, nread, out), data);
    FeedAllErrno(sw, Begin(p, nread, out), data);
  }

  /** The count starts again at a later byte, or goes on. */
  predicate CountsOn(c: Config, d: Config)
  {
    && c.start <= d.start && (d.nread == c.nread || d.nread == 0) && c.used <= d.used
    && (!ParsingHeader(c.p.state) && ParsingHeader(d.p.state) ==> d.start >= c.used)
  }

  lemma CountsTrans(c: Config, d: Config, e: Config)
    requires CountsOn(c, d) && CountsOn(d, e)
    ensures CountsOn(c, e)
  {
    hide ParsingHeader;
  }

  lemma PerformCountsOn(c: Config, o: Outcome, ch: Byte)
    requires c.start <= c.used && FieldsTidy(c.p, o) && Goes(o)
    ensures CountsOn(c, Perform(c, o, ch)) && CountsOn(c, Absorb(Perform(c, o, ch), ch))
    ensures Perform(c, o, ch).start <= Perform(c, o, ch).used
  {
    hide Perform, ParsingHeader, Rank;
    PerformFields(c, o, ch);
  }

  lemma {:induction false} FeedCountsOn(sw: Switcher, c: Config, ch: Byte)
    requires Disciplined(sw) && c.start <= c.used && Feed(sw, c, ch).Running?
    ensures CountsOn(c, Feed(sw, c, ch).c)
    decreases Rank(c.p.state)
  {
    hide Disciplined, MarksTidy, Feed, Perform, Rank, CountsOn, Legit;
    TidyAt(sw, c.p, ch);
    FeedIs(sw, c, ch);
    var o := sw(c.p, ch);
    var d := Perform(c, o, ch);
    PerformCountsOn(c, o, ch);
    if o.next.Again? {
      FeedCountsOn(sw, d, ch);
      CountsTrans(c, d, Feed(sw, d, ch).c);
    }
  }

  lemma {:induction false} FeedAllCountsOn(sw: Switcher, c: Config, data: Bytes)
    requires Disciplined(sw) && c.start <= c.used && FeedAll(sw, c, data).Running?
    ensures CountsOn(c, FeedAll(sw, c, data).c)
    decreases |data|
  {
    hide Disciplined, Feed, CountsOn;
    if data != [] {
      FeedCountsOn(sw, c, data[0]);
      FeedCounts(sw, c, data[0]);
      var d := Feed(sw, c, data[0]).c;
      FeedAllCountsOn(sw, d, data[1..]);
      CountsTrans(c, d, FeedAll(sw, d, data[1..]).c);
    } else {
      CountsRefl(c);
    }
  }

  lemma CountsRefl(c: Config)
    ensures CountsOn(c, c)
  {
  }

  /** If the count has gone on to the end of some header bytes, it had gone on at every byte before. */
  lemma Undisturbed(sw: Switcher, c: Config, a: Bytes, b: Bytes)
    requires Disciplined(sw) && c.start <= c.used && a != []
    requires var s := FeedAll(sw, c, a + b);
             s.Running? && s.c.nread == c.nread && s.c.start == c.start && ParsingHeader(s.c.p.state)
    ensures var s := FeedAll(sw, c, a);
            && s.Running? && s.c.nread == c.nread && s.c.start == c.start && s.c.used == c.used + |a|
            && ParsingHeader(s.c.p.state)
  {
    hide Disciplined, FeedAll, ParsingHeader;
    FeedAllConcat(sw, c, a, b);
    StartWithinUsed(sw, c, a);
    var d := FeedAll(sw, c, a).c;
    FeedAllCountsOn(sw, c, a);
    FeedAllCountsOn(sw, d, b);
  }
}
