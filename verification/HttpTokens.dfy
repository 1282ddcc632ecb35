/** The word matchers: request methods, header names, and the value "chunked". */
module HttpTokens {
  import opened HttpTypes
  import opened HttpSwitch
  import opened HttpMachine
  import opened HttpFast
  import opened HttpLengths

  // ----- methods -----

  /** `i` letters read, and the matcher's current guess is `m`. */
  function MethodSoFar(c: Config, m: Method, i: nat): Config
  {
    c.(p := ClearMessage(c.p).(state := ReqMethod, verb := m, index := i), used := c.used + i)
  }

  predicate AtMethod(c: Config) { c.p.state.StartReq? && c.live.None? && c.p.errno == Ok }

  lemma FirstLetter(sw: Switcher, settings: Settings, c: Config, ch: Byte)
    requires Runs(sw, settings) && AtMethod(c)
    ensures var s := Feed(sw, c, ch);
            match FirstGuess(ch)
            case Some(m) => s == Running(MethodSoFar(c, m, 1))
            case None => s.Failed?
  {
    hide Runs, Rank;
    VisitsStart(sw, settings, c.p, ch);
    assert FirstGuess(ch).Some? ==> IsAlpha(ch);
    hide IsAlpha, FirstGuess, SwitchMethod;
    FeedStops(sw, c, ch);
    if sw(c.p, ch).next == Advance {
      FeedOnce(sw, c, ch);
    }
    hide Feed;
  }

  lemma MethodVisit(sw: Switcher, settings: Settings, p: Parser, ch: Byte)
    requires Runs(sw, settings) && p.state.ReqMethod?
    ensures sw(p, ch) == SwitchMethod(p, ch)
  {
    hide Runs, SwitchMethod, StartMethod;
    VisitsStart(sw, settings, p, ch);
  }

  lemma NoReguess(m: Method, i: nat)
    ensures Reguess(m, i, '\0').None?
  {
  }

  lemma NextLetter(sw: Switcher, settings: Settings, c: Config, m: Method, i: nat, ch: Byte)
    requires Runs(sw, settings) && AtMethod(c) && i <= |MethodName(m)| && ch != ' '
    ensures var s := Feed(sw, MethodSoFar(c, m, i), ch);
            if i < |MethodName(m)| && ch == MethodName(m)[i] && ch != '\0' then s == Running(MethodSoFar(c, m, i + 1))
            else
              match Reguess(m, i, ch)
              case Some(m') => s == Running(MethodSoFar(c, m', i + 1))
              case None => s.Failed?
  {
    hide Runs, Feed, MethodName, Reguess;
    var d := MethodSoFar(c, m, i);
    MethodVisit(sw, settings, d.p, ch);
    NoReguess(m, i);
    FeedStops(sw, d, ch);
    if sw(d.p, ch).next == Advance {
      FeedOnce(sw, d, ch);
    }
  }

  /** The letters read so far are a beginning of the guessed method's name. */
  predicate Guessed(m: Method, t: Bytes)
  {
    |t| <= |MethodName(m)| && t == MethodName(m)[..|t|]
  }

  /** Two names that agree up to the letter that tells them apart. */
  predicate Fork(m: Method, g: Method, i: nat, ch: Byte)
  {
    && i < |MethodName(m)| && i < |MethodName(g)| && MethodName(g)[i] == ch
    && forall j | 0 <= j < i :: MethodName(g)[j] == MethodName(m)[j]
  }

  lemma Spellings()
    ensures MethodName(CONNECT) == "CONNECT" && MethodName(CHECKOUT) == "CHECKOUT" && MethodName(COPY) == "COPY"
    ensures MethodName(MKCOL) == "MKCOL" && MethodName(MKACTIVITY) == "MKACTIVITY" && MethodName(MOVE) == "MOVE"
    ensures MethodName(MERGE) == "MERGE" && MethodName(MSEARCH) == "M-SEARCH"
    ensures MethodName(POST) == "POST" && MethodName(PUT) == "PUT" && MethodName(PATCH) == "PATCH"
    ensures MethodName(PROPFIND) == "PROPFIND" && MethodName(PROPPATCH) == "PROPPATCH"
    ensures MethodName(UNLOCK) == "UNLOCK" && MethodName(UNSUBSCRIBE) == "UNSUBSCRIBE"
  {
  }

  lemma ReguessForks(m: Method, i: nat, ch: Byte)
    requires Reguess(m, i, ch).Some?
    ensures Fork(m, Reguess(m, i, ch).value, i, ch)
  {
    hide MethodName;
    Spellings();
  }

  lemma ReguessKeeps(m: Method, t: Bytes, ch: Byte)
    requires Guessed(m, t) && Reguess(m, |t|, ch).Some?
    ensures Guessed(Reguess(m, |t|, ch).value, t + [ch])
  {
    hide MethodName, Reguess;
    ReguessForks(m, |t|, ch);
  }

  lemma FirstGuessed(ch: Byte)
    requires FirstGuess(ch).Some?
    ensures Guessed(FirstGuess(ch).value, [ch])
  {
  }

  /** Whatever the matcher has accepted is a beginning of the method it is guessing. */
  lemma {:induction false} MethodSound(sw: Switcher, settings: Settings, c: Config, t: Bytes)
    requires Runs(sw, settings) && AtMethod(c) && t != [] && ' ' !in t
    ensures var s := FeedAll(sw, c, t);
            s.Failed? || (s.Running? && s.c.p.state.ReqMethod? && Guessed(s.c.p.verb, t)
                          && s.c == MethodSoFar(c, s.c.p.verb, |t|))
    decreases |t|
  {
    hide Runs, Feed, MethodName, FirstGuess, Reguess, Guessed;
    var front, last := t[..|t| - 1], t[|t| - 1];
    assert t == front + [last];
    if |t| == 1 {
      assert t == [last];
      FirstLetter(sw, settings, c, last);
      FeedSingle(sw, c, last);
      if FirstGuess(last).Some? {
        FirstGuessed(last);
      }
    } else {
      MethodSound(sw, settings, c, front);
      FeedAllConcat(sw, c, front, [last]);
      var s := FeedAll(sw, c, front);
      FeedSingle(sw, s.c, last);
      if s.Running? {
        SoundStep(sw, settings, c, s.c.p.verb, front, last);
      }
    }
  }

  lemma SoundStep(sw: Switcher, settings: Settings, c: Config, m: Method, t: Bytes, ch: Byte)
    requires Runs(sw, settings) && AtMethod(c) && Guessed(m, t) && ch != ' '
    ensures var s := Feed(sw, MethodSoFar(c, m, |t|), ch);
            s.Failed? || (s.Running? && s.c == MethodSoFar(c, s.c.p.verb, |t| + 1) && Guessed(s.c.p.verb, t + [ch]))
  {
    hide Runs, Feed, MethodName, Reguess;
    NextLetter(sw, settings, c, m, |t|, ch);
    if Reguess(m, |t|, ch).Some? {
      ReguessKeeps(m, t, ch);
    }
    assert |t| < |MethodName(m)| ==> MethodName(m)[..|t| + 1] == MethodName(m)[..|t|] + [MethodName(m)[|t|]];
  }

  /** The matcher's guess after `i` letters of `m`. */
  function GuessFor(m: Method, i: nat): Method
  {
    match m
    case CHECKOUT => if i <= 1 then CONNECT else m
    case COPY => if i <= 2 then CONNECT else m
    case MOVE | MERGE | MSEARCH => if i <= 1 then MKCOL else m
    case MKACTIVITY => if i <= 2 then MKCOL else m
    case PUT | PATCH | PROPFIND => if i <= 1 then POST else m
    case PROPPATCH => if i <= 1 then POST else if i <= 4 then PROPFIND else m
    case UNSUBSCRIBE => if i <= 2 then UNLOCK else m
    case _ => m
  }

  lemma GuessAdvances(m: Method, i: nat)
    requires 1 <= i < |MethodName(m)|
    ensures var g, ch := GuessFor(m, i), MethodName(m)[i];
            && i <= |MethodName(g)|
            && (if i < |MethodName(g)| && ch == MethodName(g)[i] then GuessFor(m, i + 1) == g
                else Reguess(g, i, ch) == Some(GuessFor(m, i + 1)))
  {
  }

  lemma NameLetters(m: Method, i: nat)
    requires i < |MethodName(m)|
    ensures 'A' <= MethodName(m)[i] <= 'Z' || MethodName(m)[i] == '-'
  {
  }

  lemma FirstGuessFor(m: Method)
    ensures |MethodName(m)| >= 3 && FirstGuess(MethodName(m)[0]) == Some(GuessFor(m, 1))
    ensures GuessFor(m, |MethodName(m)|) == m
  {
  }

  /** Letter by letter, the matcher follows every method name. */
  lemma {:induction false} MethodComplete(sw: Switcher, settings: Settings, c: Config, m: Method, i: nat)
    requires Runs(sw, settings) && AtMethod(c) && 1 <= i <= |MethodName(m)|
    ensures FeedAll(sw, c, MethodName(m)[..i]) == Running(MethodSoFar(c, GuessFor(m, i), i))
    decreases i
  {
    hide Runs, Feed, MethodName, FirstGuess, Reguess, GuessFor, FeedAll;
    forall j | 0 <= j < |MethodName(m)|
      ensures MethodName(m)[j] != ' ' && MethodName(m)[j] != '\0'
    {
      NameLetters(m, j);
    }
    var t: Bytes := MethodName(m)[..i];
    var last := t[i - 1];
    if i == 1 {
      assert t == [last];
      FirstGuessFor(m);
      FirstLetter(sw, settings, c, last);
      FeedSingle(sw, c, last);
    } else {
      assert t == MethodName(m)[..i - 1] + [last];
      MethodComplete(sw, settings, c, m, i - 1);
      FeedAllConcat(sw, c, MethodName(m)[..i - 1], [last]);
      FeedSingle(sw, MethodSoFar(c, GuessFor(m, i - 1), i - 1), last);
      GuessAdvances(m, i - 1);
      NextLetter(sw, settings, c, GuessFor(m, i - 1), i - 1, last);
    }
  }

  lemma SpaceAfter(sw: Switcher, settings: Settings, c: Config, m: Method, i: nat)
    requires Runs(sw, settings) && AtMethod(c) && i <= |MethodName(m)|
    ensures var s := Feed(sw, MethodSoFar(c, m, i), ' ');
            if i == |MethodName(m)|
            then s == Running(MethodSoFar(c, m, i + 1).(p := MethodSoFar(c, m, i + 1).p.(state := ReqSpacesBeforeUrl)))
            else s.Failed?
  {
    var d := MethodSoFar(c, m, i);
    hide Runs, Rank;
    VisitsStart(sw, settings, d.p, ' ');
    assert sw(d.p, ' ') == SwitchMethod(d.p, ' ');
    if i < |MethodName(m)| {
      NameLetters(m, i);
    }
    assert Reguess(m, i, ' ') == None;
    hide SwitchStart, MethodName, Reguess;
    FeedStops(sw, d, ' ');
    if sw(d.p, ' ').next == Advance {
      FeedOnce(sw, d, ' ');
    }
    hide Feed;
  }

  /** A token is accepted exactly when it is a method name, and then as that method. */
  lemma MethodExact(sw: Switcher, settings: Settings, c: Config, t: Bytes)
    requires Runs(sw, settings) && AtMethod(c) && ' ' !in t
    ensures FeedAll(sw, c, t + [' ']).Running? <==> exists m :: t == MethodName(m)
    ensures forall m | t == MethodName(m) ::
              FeedAll(sw, c, t + [' ']).c.p.verb == m && FeedAll(sw, c, t + [' ']).c.p.state.ReqSpacesBeforeUrl?
  {
    hide Runs, Feed, MethodName, FirstGuess, Reguess, GuessFor, FeedAll, Guessed;
    FeedAllConcat(sw, c, t, [' ']);
    var s := FeedAll(sw, c, t);
    FeedSingle(sw, s.c, ' ');
    forall m | t == MethodName(m)
      ensures FeedAll(sw, c, t + [' ']).Running? && FeedAll(sw, c, t + [' ']).c.p.verb == m
      ensures FeedAll(sw, c, t + [' ']).c.p.state.ReqSpacesBeforeUrl?
    {
      FirstGuessFor(m);
      MethodComplete(sw, settings, c, m, |t|);
      assert MethodName(m)[..|t|] == t;
      SpaceAfter(sw, settings, c, m, |t|);
    }
    if t == [] {
      NoMethod(sw, settings, c);
    } else {
      MethodSound(sw, settings, c, t);
      if s.Running? {
        GuessedAll(s.c.p.verb, t);
        SpaceAfter(sw, settings, c, s.c.p.verb, |t|);
      }
    }
  }

  lemma GuessedAll(m: Method, t: Bytes)
    requires Guessed(m, t)
    ensures |t| <= |MethodName(m)| && (|t| == |MethodName(m)| ==> t == MethodName(m))
  {
    hide MethodName;
    assert MethodName(m)[..|MethodName(m)|] == MethodName(m);
  }

  lemma NoMethod(sw: Switcher, settings: Settings, c: Config)
    requires Runs(sw, settings) && AtMethod(c)
    ensures FeedAll(sw, c, [] + [' ']).Failed? && forall m :: MethodName(m) != []
  {
    hide Runs, Feed;
    FirstLetter(sw, settings, c, ' ');
    FeedSingle(sw, c, ' ');
    assert [] + [' '] == [' '];
  }

  // ----- methods where a response might come instead -----

  predicate AtEither(c: Config) { c.p.state.StartReqOrRes? && c.live.None? && c.p.errno == Ok }

  /** The same place, if it is known that a request comes. */
  function AsRequest(c: Config): Config { c.(p := ClearMessage(c.p).(kind := Request, state := StartReq)) }

  lemma NotH(sw: Switcher, settings: Settings, c: Config, data: Bytes)
    requires Runs(sw, settings) && AtEither(c) && data != [] && data[0] != 'H'
    ensures FeedAll(sw, c, data) == FeedAll(sw, AsRequest(c), data)
  {
    hide Runs, Feed, StartMethod, SwitchMethod;
    VisitsStart(sw, settings, c.p, data[0]);
    FeedTwice(sw, c, data[0]);
  }

  /** After the letter H: E makes it HEAD, T a response, and nothing else is allowed. */
  lemma SecondLetter(sw: Switcher, settings: Settings, c: Config, ch: Byte)
    requires Runs(sw, settings) && AtEither(c)
    ensures FeedAll(sw, c, ['H']).Running?
    ensures var s := Feed(sw, FeedAll(sw, c, ['H']).c, ch);
            if ch == 'E' then s == Running(MethodSoFar(AsRequest(c), HEAD, 2))
            else if ch == 'T' then s.Running? && s.c.p.state.ResHT? && s.c.live.None? && s.c.p.errno == Ok
            else s.Failed?
  {
    hide Runs, Feed, FeedAll, StartMethod, SwitchMethod, Put;
    VisitsStart(sw, settings, c.p, 'H');
    FeedSingle(sw, c, 'H');
    FeedOnce(sw, c, 'H');
    var d := FeedAll(sw, c, ['H']).c;
    VisitsStart(sw, settings, d.p, ch);
    FeedStops(sw, d, ch);
    if ch == 'E' || ch == 'T' {
      FeedOnce(sw, d, ch);
    }
  }

  predicate StatusVersion(s: State)
  {
    s.ResHT? || s.ResHTT? || s.ResHTTP? || s.ResFirstHttpMajor? || s.ResHttpMajor? || s.ResFirstHttpMinor?
    || s.ResHttpMinor?
  }

  predicate InStatusVersion(c: Config) { StatusVersion(c.p.state) && c.live.None? && c.p.errno == Ok }

  lemma StatusOutcome(p: Parser, ch: Byte)
    requires StatusVersion(p.state)
    ensures var o := SwitchResponse(p, ch);
            && o == Outcome(o.p, o.to, o.next, o.errno)
            && (o.next.Fail? || (o.next.Advance? && o.errno == Ok && (StatusVersion(o.to) || o.to.ResFirstStatusCode?)))
            && (o.next.Advance? && ch != ' ' ==> StatusVersion(o.to))
  {
    hide IsNum, Digit, Accumulate;
  }

  lemma StatusByte(sw: Switcher, settings: Settings, c: Config, ch: Byte)
    requires Runs(sw, settings) && InStatusVersion(c)
    ensures var s := Feed(sw, c, ch);
            && (s.Running? ==> !s.c.p.state.ReqSpacesBeforeUrl?)
            && (s.Running? && ch != ' ' ==> InStatusVersion(s.c))
  {
    hide Runs, Feed, Put, SwitchResponse;
    VisitsResponse(sw, settings, c.p, ch);
    StatusOutcome(c.p, ch);
    FeedStops(sw, c, ch);
    if sw(c.p, ch).next == Advance {
      FeedOnce(sw, c, ch);
    }
  }

  lemma {:induction false} NoRequest(sw: Switcher, settings: Settings, c: Config, t: Bytes)
    requires Runs(sw, settings) && InStatusVersion(c) && ' ' !in t
    ensures var s := FeedAll(sw, c, t + [' ']); s.Running? ==> !s.c.p.state.ReqSpacesBeforeUrl?
    decreases |t|
  {
    hide Runs, Feed, InStatusVersion;
    var data := t + [' '];
    StatusByte(sw, settings, c, data[0]);
    if t == [] {
      assert data[1..] == [];
    } else {
      assert data[1..] == t[1..] + [' '];
      if Feed(sw, c, data[0]).Running? {
        NoRequest(sw, settings, Feed(sw, c, data[0]).c, t[1..]);
      }
    }
  }

  lemma OnlyHead(m: Method)
    ensures |MethodName(m)| >= 2 && (MethodName(m)[0] == 'H' ==> MethodName(m)[1] == 'E')
    ensures MethodName(HEAD)[..2] == ['H', 'E'] && GuessFor(HEAD, 2) == HEAD && |MethodName(HEAD)| >= 2
  {
  }

  predicate MethodTaken(s: Step) { s.Running? && s.c.p.state.ReqSpacesBeforeUrl? }

  lemma AsHead(sw: Switcher, settings: Settings, c: Config, rest: Bytes)
    requires Runs(sw, settings) && AtEither(c)
    ensures FeedAll(sw, c, ['H', 'E'] + rest) == FeedAll(sw, AsRequest(c), ['H', 'E'] + rest)
  {
    hide Runs, Feed, FeedAll, MethodName, GuessFor, SwitchStart;
    OnlyHead(HEAD);
    var d := MethodSoFar(AsRequest(c), HEAD, 2);
    MethodComplete(sw, settings, AsRequest(c), HEAD, 2);
    Then(sw, AsRequest(c), ['H', 'E'], d, rest);
    SecondLetter(sw, settings, c, 'E');
    var h := FeedAll(sw, c, ['H']).c;
    FeedSingle(sw, h, 'E');
    Then(sw, c, ['H'], h, ['E']);
    assert ['H'] + ['E'] == ['H', 'E'];
    Then(sw, c, ['H', 'E'], d, rest);
  }

  lemma NotHead(sw: Switcher, settings: Settings, c: Config, t: Bytes)
    requires Runs(sw, settings) && AtEither(c) && ' ' !in t && t != [] && t[0] == 'H' && (|t| > 1 ==> t[1] != 'E')
    ensures !MethodTaken(FeedAll(sw, c, t + [' '])) && forall m :: t != MethodName(m)
  {
    hide Runs, Feed, MethodName, InStatusVersion;
    forall m
      ensures t != MethodName(m)
    {
      OnlyHead(m);
    }
    var data := t[1..] + [' '];
    assert t + [' '] == ['H'] + data;
    SecondLetter(sw, settings, c, data[0]);
    var h := FeedAll(sw, c, ['H']).c;
    Then(sw, c, ['H'], h, data);
    if |t| > 1 && data[0] == 'T' {
      AfterT(Feed(sw, h, 'T').c);
      assert data[1..] == t[2..] + [' '];
      NoRequest(sw, settings, Feed(sw, h, 'T').c, t[2..]);
    }
  }

  lemma AfterT(c: Config)
    requires c.p.state.ResHT? && c.live.None? && c.p.errno == Ok
    ensures InStatusVersion(c)
  {
  }

  /** Where a response might come instead, a token is taken as a method exactly when it is one, HEAD included. */
  lemma MethodOrResponse(sw: Switcher, settings: Settings, c: Config, t: Bytes)
    requires Runs(sw, settings) && AtEither(c) && ' ' !in t
    ensures MethodTaken(FeedAll(sw, c, t + [' '])) <==> exists m :: t == MethodName(m)
    ensures forall m | t == MethodName(m) :: FeedAll(sw, c, t + [' ']).c.p.verb == m
  {
    hide Runs, FeedAll, MethodName;
    if t != [] && t[0] == 'H' && (|t| > 1 ==> t[1] != 'E') {
      NotHead(sw, settings, c, t);
    } else {
      MethodExact(sw, settings, AsRequest(c), t);
      if t == [] || t[0] != 'H' {
        NotH(sw, settings, c, t + [' ']);
      } else {
        assert t + [' '] == ['H', 'E'] + (t[2..] + [' ']);
        AsHead(sw, settings, c, t[2..] + [' ']);
      }
    }
  }

  // ----- header names -----

  /** A name in lower case, as the `tokens` table has it. */
  function Lowered(name: Bytes): (w: string)
    ensures |w| == |name|
  {
    seq(|name|, i requires 0 <= i < |name| => TokenLower(name[i]))
  }

  /** What the matcher knows about a name that has begun with `w`. */
  function NameState(w: string): HeaderState
  {
    if w == CONTENT_LENGTH then ContentLength
    else if w == TRANSFER_ENCODING then TransferEncoding
    else if w == UPGRADE then Upgrade
    else if w <= CONTENT_LENGTH then MatchingContentLength
    else if w <= TRANSFER_ENCODING then MatchingTransferEncoding
    else if w <= UPGRADE then MatchingUpgrade
    else General
  }

  predicate Matching(h: HeaderState)
  {
    h.MatchingContentLength? || h.MatchingTransferEncoding? || h.MatchingUpgrade?
  }

  /** The matcher's index counts only while it is matching. */
  predicate NameKnown(p: Parser, w: string)
  {
    p.hstate == NameState(w) && (Matching(p.hstate) ==> p.index + 1 == |w|)
  }

  lemma FirstNameByte(p: Parser, ch: Byte)
    requires p.state.HeaderFieldStart? && IsToken(ch)
    ensures var o := SwitchHeader(p, ch);
            && o == Outcome(o.p, HeaderField, Advance, mark := Some(Field))
            && o.p == p.(hstate := o.p.hstate, index := 0)
            && NameKnown(o.p, [TokenLower(ch)])
  {
    assert ch != CR && ch != LF;
    hide SwitchName, SwitchValueStart, SwitchValue, IsToken;
    OneLetter(TokenLower(ch));
    hide NameState;
  }

  lemma OneLetter(x: char)
    ensures NameState([x]) == match x
                              case 'c' => MatchingContentLength
                              case 't' => MatchingTransferEncoding
                              case 'u' => MatchingUpgrade
                              case _ => General
  {
    assert [x] <= CONTENT_LENGTH <==> x == CONTENT_LENGTH[0];
    assert [x] <= TRANSFER_ENCODING <==> x == TRANSFER_ENCODING[0];
    assert [x] <= UPGRADE <==> x == UPGRADE[0];
  }

  /** One more letter of a word that has matched so far. */
  lemma WordStep(p: Parser, ch: Byte, word: string, found: HeaderState, w: string)
    requires |word| > 0 && w < word && p.index + 1 == |w|
    ensures var q := MatchName(p, ch, word, found);
            var v := w + [TokenLower(ch)];
            && q.index == p.index + 1
            && q.hstate == (if v == word then found else if v <= word then p.hstate else General)
  {
    hide TokenLower;
    var v := w + [TokenLower(ch)];
    assert word[..|w|] == w;
    assert v <= word <==> TokenLower(ch) == word[|w|];
  }

  lemma OtherWords(w: string, x: char)
    requires w != []
    ensures Matching(NameState(w)) || NameState(w).General? || NameState(w).ContentLength?
            || NameState(w).TransferEncoding? || NameState(w).Upgrade?
    ensures NameState(w).General? ==> NameState(w + [x]).General?
    ensures NameState(w).ContentLength? || NameState(w).TransferEncoding? || NameState(w).Upgrade?
            ==> NameState(w + [x]).General?
    ensures NameState(w).MatchingContentLength? ==>
              w < CONTENT_LENGTH
              && NameState(w + [x]) == (if w + [x] == CONTENT_LENGTH then ContentLength
                                        else if w + [x] <= CONTENT_LENGTH then MatchingContentLength else General)
    ensures NameState(w).MatchingTransferEncoding? ==>
              w < TRANSFER_ENCODING
              && NameState(w + [x]) == (if w + [x] == TRANSFER_ENCODING then TransferEncoding
                                        else if w + [x] <= TRANSFER_ENCODING then MatchingTransferEncoding else General)
    ensures NameState(w).MatchingUpgrade? ==>
              w < UPGRADE
              && NameState(w + [x]) == (if w + [x] == UPGRADE then Upgrade
                                        else if w + [x] <= UPGRADE then MatchingUpgrade else General)
  {
    var v := w + [x];
    assert v[0] == w[0];
  }

  lemma NextNameByte(p: Parser, ch: Byte, w: string)
    requires p.state.HeaderField? && IsToken(ch) && w != [] && NameKnown(p, w)
    ensures var o := SwitchName(p, ch);
            && o == Outcome(o.p, HeaderField, Advance)
            && o.p == p.(hstate := o.p.hstate, index := o.p.index)
            && NameKnown(o.p, w + [TokenLower(ch)])
  {
    hide NameState, IsToken, MatchName, TokenLower;
    OtherWords(w, TokenLower(ch));
    if p.hstate.MatchingContentLength? {
      WordStep(p, ch, CONTENT_LENGTH, ContentLength, w);
    } else if p.hstate.MatchingTransferEncoding? {
      WordStep(p, ch, TRANSFER_ENCODING, TransferEncoding, w);
    } else if p.hstate.MatchingUpgrade? {
      WordStep(p, ch, UPGRADE, Upgrade, w);
    }
  }

  /** A header name has been read. */
  predicate NameRead(c: Config, d: Config, name: Bytes)
  {
    && d == c.(p := d.p, live := Some(Field), held := name, used := c.used + |name|)
    && d.p == c.p.(state := HeaderField, hstate := d.p.hstate, index := d.p.index)
    && NameKnown(d.p, Lowered(name))
  }

  predicate AtName(c: Config) { c.p.state.HeaderFieldStart? && c.live.None? && c.p.errno == Ok }

  lemma NameReadFirst(sw: Switcher, settings: Settings, c: Config, ch: Byte)
    requires Runs(sw, settings) && AtName(c) && IsToken(ch)
    ensures Feed(sw, c, ch).Running? && NameRead(c, Feed(sw, c, ch).c, [ch])
  {
    hide Runs, Feed, Rank, NameState, SwitchHeader, IsToken, TokenLower;
    VisitsHeader(sw, settings, c.p, ch);
    FirstNameByte(c.p, ch);
    FeedOnce(sw, c, ch);
    assert Lowered([ch]) == [TokenLower(ch)];
  }

  lemma NameReadNext(sw: Switcher, settings: Settings, c: Config, d: Config, name: Bytes, ch: Byte)
    requires Runs(sw, settings) && AtName(c) && name != [] && NameRead(c, d, name) && IsToken(ch)
    ensures Feed(sw, d, ch).Running? && NameRead(c, Feed(sw, d, ch).c, name + [ch])
  {
    hide Runs, Feed, Rank, NameState, SwitchName, SwitchValueStart, SwitchValue, IsToken, TokenLower;
    VisitsHeader(sw, settings, d.p, ch);
    NextNameByte(d.p, ch, Lowered(name));
    FeedOnce(sw, d, ch);
    assert Lowered(name + [ch]) == Lowered(name) + [TokenLower(ch)];
  }

  /**
   * After a whole header name the matcher has found Content-Length, Transfer-Encoding or Upgrade exactly
   * when that is the name, in any mixture of cases.
   */
  lemma {:induction false} NameExact(sw: Switcher, settings: Settings, c: Config, name: Bytes)
    requires Runs(sw, settings) && AtName(c) && name != [] && AllTokens(name)
    ensures FeedAll(sw, c, name).Running? && NameRead(c, FeedAll(sw, c, name).c, name)
    ensures var h := FeedAll(sw, c, name).c.p.hstate;
            && (h.ContentLength? <==> Lowered(name) == CONTENT_LENGTH)
            && (h.TransferEncoding? <==> Lowered(name) == TRANSFER_ENCODING)
            && (h.Upgrade? <==> Lowered(name) == UPGRADE)
    decreases |name|
  {
    hide Runs, Feed, FeedAll, IsToken;
    var front, last := name[..|name| - 1], name[|name| - 1];
    assert name == front + [last];
    if |name| == 1 {
      assert name == [last];
      NameReadFirst(sw, settings, c, last);
      FeedSingle(sw, c, last);
    } else {
      NameExact(sw, settings, c, front);
      FeedAllConcat(sw, c, front, [last]);
      FeedSingle(sw, FeedAll(sw, c, front).c, last);
      NameReadNext(sw, settings, c, FeedAll(sw, c, front).c, front, last);
    }
  }
}
