/** The request line: method, target and version, read exactly as printed. */
module HttpTarget {
  import opened HttpTypes
  import opened HttpSwitch
  import opened HttpMachine
  import opened HttpFast
  import opened HttpLengths
  import opened HttpTokens

  // ----- the target -----

  /** Where one byte of a target leads, after the jump that some bytes make first. */
  function MoveOn(s: State, ch: Byte): Option<State>
  {
    match MoveInUrl(s, ch)
    case To(u) => Some(u)
    case Jump(u) => (match MoveInUrl(u, ch) case To(v) => Some(v) case _ => None)
    case _ => None
  }

  function Walk(s: State, t: Bytes): Option<State>
    decreases |t|
  {
    if t == [] then Some(s)
    else
      match MoveOn(s, t[0])
      case Some(u) => Walk(u, t[1..])
      case None => None
  }

  /** A space may follow. */
  predicate MayEnd(s: State)
  {
    match MoveInUrl(s, ' ')
    case Ends => true
    case Jump(u) => MoveInUrl(u, ' ').Ends?
    case _ => false
  }

  function StartOf(verb: Method, ch: Byte): Option<State>
  {
    if verb == CONNECT then MoveOn(ReqHostStart, ch)
    else if ch == '/' || ch == '*' then Some(ReqPath)
    else if IsAlpha(ch) then Some(ReqSchema)
    else None
  }

  predicate Accepts(verb: Method, t: Bytes)
  {
    && t != [] && StartOf(verb, t[0]).Some?
    && Walk(StartOf(verb, t[0]).value, t[1..]).Some?
    && MayEnd(Walk(StartOf(verb, t[0]).value, t[1..]).value)
  }

  predicate InTarget(c: Config) { InUrl(c.p.state) && c.live == Some(Url) && c.p.errno == Ok }

  predicate TargetText(t: Bytes) { forall i | 0 <= i < |t| :: t[i] != ' ' && t[i] != CR && t[i] != LF }

  function In(c: Config, s: State): Config { c.(p := c.p.(state := s)) }

  /** The jump is only made at the end of a host, and the moves stay in the target. */
  lemma MovesInUrl(s: State, ch: Byte)
    requires InUrl(s)
    ensures RegionOf(s).AtUrl? && !s.ReqSpacesBeforeUrl?
    ensures MoveInUrl(s, ch).To? ==> InUrl(MoveInUrl(s, ch).s)
    ensures MoveInUrl(s, ch).Jump? ==> MoveInUrl(s, ch).s.ReqHostDone? && s.ReqHost?
    ensures MoveInUrl(s, ch).LineEnds? ==> ch == CR || ch == LF
    ensures MoveInUrl(s, ch).Ends? ==> ch == ' '
  {
    hide IsAlpha, IsAlphaNum, IsNum, IsHex, IsHostChar, IsUrlChar;
  }

  lemma TargetVisit(sw: Switcher, settings: Settings, p: Parser, ch: Byte)
    requires Runs(sw, settings) && InUrl(p.state)
    ensures sw(p, ch) == match MoveInUrl(p.state, ch)
                         case To(s) => Go(p, s)
                         case Jump(s) => Redo(p, s)
                         case Ends => UrlDone(p, ReqHttpStart)
                         case LineEnds => Http09(p, ch)
                         case Bad(e) => Fails(p, e)
  {
    hide Runs, MoveInUrl;
    MovesInUrl(p.state, ch);
    VisitsUrl(sw, settings, p, ch);
  }

  /** A byte that does not make the parser jump. */
  lemma PlainByte(sw: Switcher, settings: Settings, c: Config, ch: Byte)
    requires Runs(sw, settings) && InTarget(c)
    ensures MoveInUrl(c.p.state, ch).To? ==> Feed(sw, c, ch) == Running(Extend(In(c, MoveInUrl(c.p.state, ch).s), [ch]))
    ensures MoveInUrl(c.p.state, ch).Bad? ==> Feed(sw, c, ch).Failed?
    ensures MoveInUrl(c.p.state, ch).Ends? ==>
              Feed(sw, c, ch) == Running(In(c, ReqHttpStart).(live := None, held := [], used := c.used + 1,
                                                              out := Put(c.out, Url, c.held)))
  {
    hide Runs, Feed, MoveInUrl, Put, InUrl;
    TargetVisit(sw, settings, c.p, ch);
    FeedStops(sw, c, ch);
    if MoveInUrl(c.p.state, ch).To? || MoveInUrl(c.p.state, ch).Ends? {
      FeedOnce(sw, c, ch);
    }
  }

  /** At the end of a host the byte is looked at again. */
  lemma JumpByte(sw: Switcher, settings: Settings, c: Config, ch: Byte)
    requires Runs(sw, settings) && InTarget(c) && MoveInUrl(c.p.state, ch).Jump?
    ensures Feed(sw, c, ch) == Feed(sw, In(c, ReqHostDone), ch)
  {
    hide Runs, Feed, MoveInUrl, Put, InUrl;
    MovesInUrl(c.p.state, ch);
    TargetVisit(sw, settings, c.p, ch);
    FeedTwice(sw, c, ch);
  }

  lemma HostDoneMoves(ch: Byte)
    ensures var m := MoveInUrl(ReqHostDone, ch); m.To? || m.Ends? || m.Bad?
  {
  }

  lemma TargetByte(sw: Switcher, settings: Settings, c: Config, ch: Byte)
    requires Runs(sw, settings) && InTarget(c) && ch != ' ' && ch != CR && ch != LF
    ensures match MoveOn(c.p.state, ch)
            case Some(u) => InUrl(u) && Feed(sw, c, ch) == Running(Extend(In(c, u), [ch]))
            case None => Feed(sw, c, ch).Failed?
  {
    hide Runs, Feed, MoveInUrl, Put;
    MovesInUrl(c.p.state, ch);
    PlainByte(sw, settings, c, ch);
    if MoveInUrl(c.p.state, ch).Jump? {
      JumpByte(sw, settings, c, ch);
      MovesInUrl(ReqHostDone, ch);
      HostDoneMoves(ch);
      PlainByte(sw, settings, In(c, ReqHostDone), ch);
    }
  }

  lemma {:induction false} TargetRun(sw: Switcher, settings: Settings, c: Config, t: Bytes)
    requires Runs(sw, settings) && InTarget(c) && TargetText(t)
    ensures match Walk(c.p.state, t)
            case Some(u) => InUrl(u) && FeedAll(sw, c, t) == Running(Extend(In(c, u), t))
            case None => FeedAll(sw, c, t).Failed?
    decreases |t|
  {
    hide Runs, Feed, MoveOn, InUrl;
    if t == [] {
      assert c.held + t == c.held;
    } else {
      TargetByte(sw, settings, c, t[0]);
      if MoveOn(c.p.state, t[0]).Some? {
        var d := In(c, MoveOn(c.p.state, t[0]).value);
        TargetRun(sw, settings, Extend(d, [t[0]]), t[1..]);
        if Walk(d.p.state, t[1..]).Some? {
          ExtendTwice(In(c, Walk(d.p.state, t[1..]).value), t[0], t[1..]);
          assert t == [t[0]] + t[1..];
        }
      }
    }
  }

  /** The target is over, and has been delivered. */
  predicate TargetOver(c: Config, s: Step)
  {
    s == Running(In(c, ReqHttpStart).(live := None, held := [], used := c.used + 1, out := Put(c.out, Url, c.held)))
  }

  lemma TargetEnd(sw: Switcher, settings: Settings, c: Config)
    requires Runs(sw, settings) && InTarget(c)
    ensures if MayEnd(c.p.state) then TargetOver(c, Feed(sw, c, ' '))
            else !Feed(sw, c, ' ').Running? || InUrl(Feed(sw, c, ' ').c.p.state)
  {
    hide Runs, Feed, Put, MoveInUrl;
    MovesInUrl(c.p.state, ' ');
    PlainByte(sw, settings, c, ' ');
    if MoveInUrl(c.p.state, ' ').Jump? {
      JumpByte(sw, settings, c, ' ');
      HostDoneMoves(' ');
      MovesInUrl(ReqHostDone, ' ');
      PlainByte(sw, settings, In(c, ReqHostDone), ' ');
    }
  }

  predicate AtTarget(c: Config) { c.p.state.ReqSpacesBeforeUrl? && c.live.None? && c.held == [] && c.p.errno == Ok }

  /** The first byte sets the mark. */
  lemma FirstOfTarget(sw: Switcher, settings: Settings, c: Config, ch: Byte)
    requires Runs(sw, settings) && AtTarget(c) && ch != ' ' && ch != CR && ch != LF
    ensures match StartOf(c.p.verb, ch)
            case Some(u) =>
              InUrl(u) && Feed(sw, c, ch) == Running(In(c, u).(live := Some(Url), held := [ch], used := c.used + 1))
            case None => Feed(sw, c, ch).Failed?
  {
    hide Runs, Feed, MoveInUrl, MoveOn, Put;
    VisitsUrl(sw, settings, c.p, ch);
    FeedStops(sw, c, ch);
    if c.p.verb == CONNECT {
      FeedTwice(sw, c, ch);
      TargetByte(sw, settings, In(c, ReqHostStart).(live := Some(Url)), ch);
    } else if StartOf(c.p.verb, ch).Some? {
      FeedOnce(sw, c, ch);
    }
  }

  /** The configuration after a target and the space behind it. */
  function AfterTarget(c: Config, t: Bytes): Config
  {
    In(c, ReqHttpStart).(out := Put(c.out, Url, t), used := c.used + |t| + 1)
  }

  /** A target is taken exactly if the walk through the states accepts it, and is then delivered as it is. */
  lemma TargetExact(sw: Switcher, settings: Settings, c: Config, t: Bytes)
    requires Runs(sw, settings) && AtTarget(c) && t != [] && TargetText(t)
    ensures var s := FeedAll(sw, c, t + [' ']);
            if Accepts(c.p.verb, t) then s == Running(AfterTarget(c, t))
            else !s.Running? || InUrl(s.c.p.state)
  {
    hide Runs, Feed, FeedAll, MayEnd, StartOf, Walk, InUrl, Put;
    FirstOfTarget(sw, settings, c, t[0]);
    FeedSingle(sw, c, t[0]);
    FeedAllConcat(sw, c, [t[0]], t[1..] + [' ']);
    assert [t[0]] + (t[1..] + [' ']) == t + [' '];
    if StartOf(c.p.verb, t[0]).Some? {
      var d := Feed(sw, c, t[0]).c;
      TargetRun(sw, settings, d, t[1..]);
      FeedAllConcat(sw, d, t[1..], [' ']);
      if Walk(d.p.state, t[1..]).Some? {
        var e := Extend(In(d, Walk(d.p.state, t[1..]).value), t[1..]);
        assert e.held == t;
        FeedSingle(sw, e, ' ');
        TargetEnd(sw, settings, e);
      }
    }
  }

  // ----- which targets are accepted -----

  predicate TailByte(ch: Byte) { IsUrlChar(ch) || ch == '?' || ch == '#' }

  predicate TailText(t: Bytes) { forall i | 0 <= i < |t| :: TailByte(t[i]) }

  /** In the path, the query or the fragment. */
  predicate InPath(s: State)
  {
    s.ReqPath? || s.ReqQueryStringStart? || s.ReqQueryString? || s.ReqFragmentStart? || s.ReqFragment?
  }

  lemma PathMoves(s: State, ch: Byte)
    requires InPath(s)
    ensures MayEnd(s) && (MoveOn(s, ch).Some? <==> TailByte(ch))
            && (MoveOn(s, ch).Some? ==> InPath(MoveOn(s, ch).value))
  {
    hide IsUrlChar;
    assert !IsUrlChar(' ') && !IsUrlChar(CR) && !IsUrlChar(LF) by { NotInUrl(); }
  }

  lemma NotInUrl()
    ensures !IsUrlChar(' ') && !IsUrlChar(CR) && !IsUrlChar(LF) && !IsUrlChar('?') && !IsUrlChar('#')
  {
  }

  lemma {:induction false} PathWalk(s: State, t: Bytes)
    requires InPath(s)
    ensures Walk(s, t).Some? <==> TailText(t)
    ensures Walk(s, t).Some? ==> InPath(Walk(s, t).value) && MayEnd(Walk(s, t).value)
    decreases |t|
  {
    hide MoveOn, TailByte, MayEnd, InPath;
    if t == [] {
      PathMoves(s, ' ');
    } else {
      PathMoves(s, t[0]);
      if MoveOn(s, t[0]).Some? {
        PathWalk(MoveOn(s, t[0]).value, t[1..]);
        assert forall i | 0 < i < |t| :: t[i] == t[1..][i - 1];
      }
    }
  }

  /** A target that begins with '/' or '*' is accepted exactly if all its bytes may stand in a path. */
  lemma OriginForm(verb: Method, t: Bytes)
    requires verb != CONNECT && t != [] && (t[0] == '/' || t[0] == '*')
    ensures Accepts(verb, t) <==> TailText(t[1..])
  {
    hide Walk, MayEnd, TailText;
    PathWalk(ReqPath, t[1..]);
  }

  lemma {:induction false} WalkConcat(s: State, a: Bytes, b: Bytes)
    ensures Walk(s, a + b) == match Walk(s, a)
                              case Some(u) => Walk(u, b)
                              case None => None
    decreases |a|
  {
    hide MoveOn;
    if a == [] {
      assert a + b == b;
    } else {
      assert (a + b)[1..] == a[1..] + b;
      if MoveOn(s, a[0]).Some? {
        WalkConcat(MoveOn(s, a[0]).value, a[1..], b);
      }
    }
  }

  /** Bytes that lead from a state to itself. */
  lemma {:induction false} Loop(s: State, t: Bytes)
    requires forall i | 0 <= i < |t| :: MoveOn(s, t[i]) == Some(s)
    ensures Walk(s, t) == Some(s)
    decreases |t|
  {
    hide MoveOn;
    if t != [] {
      Loop(s, t[1..]);
    }
  }

  lemma OneMove(s: State, ch: Byte)
    ensures Walk(s, [ch]) == MoveOn(s, ch)
  {
    hide MoveOn;
    assert [ch][1..] == [];
  }

  predicate NameHost(h: Bytes) { h != [] && IsAlphaNum(h[0]) && forall i | 0 <= i < |h| :: IsHostChar(h[i]) }

  predicate BracketHost(h: Bytes)
  {
    |h| >= 2 && h[0] == '[' && h[|h| - 1] == ']' && forall i | 0 < i < |h| - 1 :: IsHex(h[i]) || h[i] == ':'
  }

  predicate Host(h: Bytes) { NameHost(h) || BracketHost(h) }

  predicate PortText(p: Bytes) { p == [] || (p[0] == ':' && forall i | 0 < i < |p| :: IsNum(p[i])) }

  predicate RestText(r: Bytes) { r == [] || ((r[0] == '/' || r[0] == '?') && TailText(r[1..])) }

  lemma HostMoves(ch: Byte)
    ensures IsAlphaNum(ch) ==> MoveOn(ReqHostStart, ch) == Some(ReqHost)
    ensures IsHostChar(ch) ==> MoveOn(ReqHost, ch) == Some(ReqHost)
    ensures MoveOn(ReqHostStart, '[') == Some(ReqHostIpv6) && MoveOn(ReqHostIpv6, ']') == Some(ReqHostDone)
    ensures IsHex(ch) || ch == ':' ==> MoveOn(ReqHostIpv6, ch) == Some(ReqHostIpv6)
    ensures IsNum(ch) ==> MoveOn(ReqPort, ch) == Some(ReqPort)
    ensures IsAlpha(ch) ==> MoveOn(ReqSchema, ch) == Some(ReqSchema)
  {
  }

  predicate HostOver(s: State) { s.ReqHost? || s.ReqHostDone? }

  lemma HostWalk(h: Bytes)
    requires Host(h)
    ensures Walk(ReqHostStart, h).Some? && HostOver(Walk(ReqHostStart, h).value)
  {
    hide MoveOn, Walk, IsHostChar, IsAlphaNum, IsHex;
    HostMoves(h[0]);
    OneMove(ReqHostStart, h[0]);
    WalkConcat(ReqHostStart, [h[0]], h[1..]);
    assert h == [h[0]] + h[1..];
    if NameHost(h) {
      forall i | 0 <= i < |h[1..]|
        ensures MoveOn(ReqHost, h[1..][i]) == Some(ReqHost)
      {
        HostMoves(h[i + 1]);
      }
      Loop(ReqHost, h[1..]);
    } else {
      BracketWalk(h);
    }
  }

  lemma BracketWalk(h: Bytes)
    requires BracketHost(h)
    ensures MoveOn(ReqHostStart, h[0]) == Some(ReqHostIpv6) && Walk(ReqHostIpv6, h[1..]) == Some(ReqHostDone)
  {
    hide MoveOn, Walk, IsHex;
    var inner := h[1..|h| - 1];
    HostMoves(h[0]);
    forall i | 0 <= i < |inner|
      ensures MoveOn(ReqHostIpv6, inner[i]) == Some(ReqHostIpv6)
    {
      HostMoves(h[i + 1]);
    }
    Loop(ReqHostIpv6, inner);
    OneMove(ReqHostIpv6, ']');
    WalkConcat(ReqHostIpv6, inner, [']']);
    assert h[1..] == inner + [']'];
  }

  lemma AfterHost(s: State)
    requires HostOver(s) || s.ReqPort?
    ensures MayEnd(s) && MoveOn(s, '/') == Some(ReqPath) && MoveOn(s, '?') == Some(ReqQueryStringStart)
    ensures HostOver(s) ==> MoveOn(s, ':') == Some(ReqPort)
  {
  }

  lemma PortWalk(s: State, p: Bytes)
    requires HostOver(s) && PortText(p)
    ensures Walk(s, p).Some? && (HostOver(Walk(s, p).value) || Walk(s, p).value.ReqPort?)
  {
    hide MoveOn, IsNum;
    if p != [] {
      AfterHost(s);
      OneMove(s, ':');
      WalkConcat(s, [':'], p[1..]);
      assert p == [':'] + p[1..];
      forall i | 0 <= i < |p[1..]|
        ensures MoveOn(ReqPort, p[1..][i]) == Some(ReqPort)
      {
        HostMoves(p[i + 1]);
      }
      Loop(ReqPort, p[1..]);
    }
  }

  lemma RestWalk(s: State, r: Bytes)
    requires (HostOver(s) || s.ReqPort?) && RestText(r)
    ensures Walk(s, r).Some? && MayEnd(Walk(s, r).value)
  {
    hide MoveOn, MayEnd, TailText;
    AfterHost(s);
    if r != [] {
      OneMove(s, r[0]);
      WalkConcat(s, [r[0]], r[1..]);
      assert r == [r[0]] + r[1..];
      PathWalk(MoveOn(s, r[0]).value, r[1..]);
    }
  }

  lemma ServerWalk(host: Bytes, port: Bytes, rest: Bytes)
    requires Host(host) && PortText(port) && RestText(rest)
    ensures var w := Walk(ReqHostStart, host + port + rest); w.Some? && MayEnd(w.value)
  {
    hide Walk, MayEnd, Host, PortText, RestText, HostOver;
    HostWalk(host);
    var s := Walk(ReqHostStart, host).value;
    PortWalk(s, port);
    WalkConcat(ReqHostStart, host, port);
    RestWalk(Walk(s, port).value, rest);
    WalkConcat(ReqHostStart, host + port, rest);
  }

  /** A server, with perhaps a port, and perhaps a path, a query and a fragment. */
  ghost predicate AuthorityText(t: Bytes)
  {
    exists host: Bytes, port: Bytes, rest: Bytes ::
      t == host + port + rest && Host(host) && PortText(port) && RestText(rest)
  }

  predicate Good(w: Option<State>) { w.Some? && MayEnd(w.value) }

  lemma WalkStep(s: State, t: Bytes)
    requires t != []
    ensures Good(Walk(s, t)) <==> MoveOn(s, t[0]).Some? && Good(Walk(MoveOn(s, t[0]).value, t[1..]))
  {
    hide MoveOn, MayEnd;
  }

  lemma Unfinished()
    ensures !MayEnd(ReqSchema) && !MayEnd(ReqSchemaSlash) && !MayEnd(ReqSchemaSlashSlash)
    ensures !MayEnd(ReqHostStart) && !MayEnd(ReqHostIpv6)
  {
  }

  lemma PathIsRest(s: State, t: Bytes)
    requires InPath(s) && Good(Walk(s, t))
    ensures TailText(t)
  {
    hide MayEnd, TailText, Walk;
    PathWalk(s, t);
  }

  /** What can follow a host or the digits of a port. */
  lemma EndMoves(s: State, ch: Byte)
    requires s.ReqHostDone? || s.ReqPort?
    ensures MoveOn(s, ch).Some? ==>
              || (ch == '/' && MoveOn(s, ch).value.ReqPath?)
              || (ch == '?' && MoveOn(s, ch).value.ReqQueryStringStart?)
              || (s.ReqHostDone? && ch == ':' && MoveOn(s, ch).value.ReqPort?)
              || (s.ReqPort? && IsNum(ch) && MoveOn(s, ch).value.ReqPort?)
  {
    hide IsNum;
  }

  lemma {:induction false} FromPort(t: Bytes) returns (port: Bytes, rest: Bytes)
    requires Good(Walk(ReqPort, t))
    ensures t == port + rest && (forall i | 0 <= i < |port| :: IsNum(port[i])) && RestText(rest)
    decreases |t|
  {
    hide Walk, MoveOn, MayEnd, IsNum, TailText, Good;
    if t == [] {
      return [], [];
    }
    WalkStep(ReqPort, t);
    EndMoves(ReqPort, t[0]);
    if MoveOn(ReqPort, t[0]).value.ReqPort? {
      port, rest := FromPort(t[1..]);
      port := [t[0]] + port;
    } else {
      PathIsRest(MoveOn(ReqPort, t[0]).value, t[1..]);
      return [], t;
    }
  }

  lemma FromHostDone(t: Bytes) returns (port: Bytes, rest: Bytes)
    requires Good(Walk(ReqHostDone, t))
    ensures t == port + rest && PortText(port) && RestText(rest)
  {
    hide Walk, MoveOn, MayEnd, IsNum, TailText, Good;
    if t == [] {
      return [], [];
    }
    WalkStep(ReqHostDone, t);
    EndMoves(ReqHostDone, t[0]);
    if MoveOn(ReqHostDone, t[0]).value.ReqPort? {
      port, rest := FromPort(t[1..]);
      port := [':'] + port;
    } else {
      PathIsRest(MoveOn(ReqHostDone, t[0]).value, t[1..]);
      return [], t;
    }
  }

  lemma NameMoves(ch: Byte)
    ensures IsHostChar(ch) ==> MoveOn(ReqHost, ch) == Some(ReqHost)
    ensures !IsHostChar(ch) ==> MoveOn(ReqHost, ch) == MoveOn(ReqHostDone, ch)
    ensures MoveOn(ReqHostIpv6, ch).Some? ==>
              || (ch == ']' && MoveOn(ReqHostIpv6, ch).value.ReqHostDone?)
              || ((IsHex(ch) || ch == ':') && MoveOn(ReqHostIpv6, ch).value.ReqHostIpv6?)
    ensures MoveOn(ReqHostStart, ch).Some? ==>
              || (ch == '[' && MoveOn(ReqHostStart, ch).value.ReqHostIpv6?)
              || (IsAlphaNum(ch) && MoveOn(ReqHostStart, ch).value.ReqHost?)
  {
    hide IsHostChar, IsHex, IsAlphaNum, IsNum;
  }

  lemma {:induction false} FromHost(t: Bytes) returns (h: Bytes, port: Bytes, rest: Bytes)
    requires Good(Walk(ReqHost, t))
    ensures t == h + port + rest && (forall i | 0 <= i < |h| :: IsHostChar(h[i])) && PortText(port) && RestText(rest)
    decreases |t|
  {
    hide Walk, MoveOn, MayEnd, IsHostChar, PortText, RestText, Good;
    if t == [] {
      Empties();
      return [], [], [];
    }
    NameMoves(t[0]);
    WalkStep(ReqHost, t);
    if IsHostChar(t[0]) {
      h, port, rest := FromHost(t[1..]);
      h := [t[0]] + h;
    } else {
      WalkStep(ReqHostDone, t);
      port, rest := FromHostDone(t);
      h := [];
    }
  }

  lemma Empties()
    ensures PortText([]) && RestText([])
  {
  }

  lemma {:induction false} FromIpv6(t: Bytes) returns (h: Bytes, port: Bytes, rest: Bytes)
    requires Good(Walk(ReqHostIpv6, t))
    ensures t == h + [']'] + port + rest && (forall i | 0 <= i < |h| :: IsHex(h[i]) || h[i] == ':')
    ensures PortText(port) && RestText(rest)
    decreases |t|
  {
    hide MoveOn, MayEnd, IsHex, PortText, RestText;
    Unfinished();
    NameMoves(t[0]);
    WalkStep(ReqHostIpv6, t);
    if MoveOn(ReqHostIpv6, t[0]).value.ReqHostIpv6? {
      h, port, rest := FromIpv6(t[1..]);
      h := [t[0]] + h;
    } else {
      port, rest := FromHostDone(t[1..]);
      h := [];
    }
  }

  /** What is accepted after the scheme, and after CONNECT. */
  lemma ServerExact(t: Bytes)
    ensures Good(Walk(ReqHostStart, t)) <==> AuthorityText(t)
  {
    hide MoveOn, MayEnd, Host, PortText, RestText;
    if Good(Walk(ReqHostStart, t)) {
      Unfinished();
      NameMoves(t[0]);
      WalkStep(ReqHostStart, t);
      if t[0] == '[' {
        var h, port, rest := FromIpv6(t[1..]);
        IsBracketHost(h);
        assert t == (['['] + h + [']']) + port + rest;
      } else {
        var h, port, rest := FromHost(t[1..]);
        IsNameHost(t[0], h);
        assert t == ([t[0]] + h) + port + rest;
      }
    }
    if AuthorityText(t) {
      var host: Bytes, port: Bytes, rest: Bytes
        :| t == host + port + rest && Host(host) && PortText(port) && RestText(rest);
      ServerWalk(host, port, rest);
    }
  }

  lemma IsBracketHost(h: Bytes)
    requires forall i | 0 <= i < |h| :: IsHex(h[i]) || h[i] == ':'
    ensures Host(['['] + h + [']'])
  {
    hide IsHex, NameHost;
  }

  lemma IsNameHost(ch: Byte, h: Bytes)
    requires IsAlphaNum(ch) && forall i | 0 <= i < |h| :: IsHostChar(h[i])
    ensures Host([ch] + h)
  {
    hide BracketHost;
  }

  /** A scheme, a colon, any two bytes (the source does not look at them) and a server. */
  ghost predicate AbsoluteText(t: Bytes)
  {
    exists scheme: Bytes, sep: Bytes, server: Bytes :: Absolute(t, scheme, sep, server)
  }

  ghost predicate Absolute(t: Bytes, scheme: Bytes, sep: Bytes, server: Bytes)
  {
    t == scheme + [':'] + sep + server && scheme != [] && Letters(scheme) && |sep| == 2 && AuthorityText(server)
  }

  predicate Letters(t: Bytes) { forall i | 0 <= i < |t| :: IsAlpha(t[i]) }

  lemma SchemeMoves(ch: Byte)
    ensures IsAlpha(ch) ==> MoveOn(ReqSchema, ch) == Some(ReqSchema)
    ensures !IsAlpha(ch) && MoveOn(ReqSchema, ch).Some? ==> ch == ':'
    ensures MoveOn(ReqSchema, ':') == Some(ReqSchemaSlash)
    ensures MoveOn(ReqSchemaSlash, ch) == Some(ReqSchemaSlashSlash)
    ensures MoveOn(ReqSchemaSlashSlash, ch) == Some(ReqHostStart)
  {
  }

  lemma SlashWalk(a: Byte, b: Byte, server: Bytes)
    ensures Walk(ReqSchema, [':', a, b] + server) == Walk(ReqHostStart, server)
  {
    hide Walk, MoveOn;
    SchemeMoves(a);
    SchemeMoves(b);
    OneMove(ReqSchema, ':');
    OneMove(ReqSchemaSlash, a);
    OneMove(ReqSchemaSlashSlash, b);
    WalkConcat(ReqSchemaSlashSlash, [b], server);
    WalkConcat(ReqSchemaSlash, [a], [b] + server);
    WalkConcat(ReqSchema, [':'], [a] + ([b] + server));
    assert [':', a, b] + server == [':'] + ([a] + ([b] + server));
  }

  lemma {:induction false} FromScheme(t: Bytes) returns (scheme: Bytes, a: Byte, b: Byte, server: Bytes)
    requires Good(Walk(ReqSchema, t))
    ensures t == scheme + [':', a, b] + server && Letters(scheme) && Good(Walk(ReqHostStart, server))
    decreases |t|
  {
    hide MoveOn, MayEnd, IsAlpha;
    Unfinished();
    SchemeMoves(t[0]);
    WalkStep(ReqSchema, t);
    if IsAlpha(t[0]) {
      scheme, a, b, server := FromScheme(t[1..]);
      scheme := [t[0]] + scheme;
    } else {
      a, b, server := FromSlashes(t);
      scheme := [];
    }
  }

  lemma FromSlashes(t: Bytes) returns (a: Byte, b: Byte, server: Bytes)
    requires t != [] && t[0] == ':' && Good(Walk(ReqSchema, t))
    ensures t == [':', a, b] + server && Good(Walk(ReqHostStart, server))
  {
    hide MoveOn, MayEnd;
    Unfinished();
    SchemeMoves(':');
    WalkStep(ReqSchema, t);
    SchemeMoves(t[1]);
    WalkStep(ReqSchemaSlash, t[1..]);
    SchemeMoves(t[2]);
    WalkStep(ReqSchemaSlashSlash, t[1..][1..]);
    a, b, server := t[1], t[2], t[3..];
    assert t[1..][1..][1..] == server;
  }

  lemma SchemeExact(t: Bytes)
    requires t != [] && IsAlpha(t[0])
    ensures Good(Walk(ReqSchema, t[1..])) <==> AbsoluteText(t)
  {
    hide MoveOn, MayEnd, IsAlpha, Walk, AuthorityText;
    if Good(Walk(ReqSchema, t[1..])) {
      var scheme, a, b, server := FromScheme(t[1..]);
      ServerExact(server);
      assert Absolute(t, [t[0]] + scheme, [a, b], server);
    }
    if AbsoluteText(t) {
      var scheme: Bytes, sep: Bytes, server: Bytes :| Absolute(t, scheme, sep, server);
      var a, b := sep[0], sep[1];
      ServerExact(server);
      SlashWalk(a, b, server);
      forall i | 0 <= i < |scheme[1..]|
        ensures MoveOn(ReqSchema, scheme[1..][i]) == Some(ReqSchema)
      {
        SchemeMoves(scheme[i + 1]);
      }
      Loop(ReqSchema, scheme[1..]);
      WalkConcat(ReqSchema, scheme[1..], [':', a, b] + server);
      assert t[1..] == scheme[1..] + ([':', a, b] + server);
    }
  }

  predicate OriginText(t: Bytes) { t != [] && (t[0] == '/' || t[0] == '*') && TailText(t[1..]) }

  /** Which targets are accepted: a server after CONNECT; otherwise a path, or a scheme and a server. */
  lemma AcceptsExact(verb: Method, t: Bytes)
    ensures Accepts(verb, t) <==>
            if verb == CONNECT then AuthorityText(t) else OriginText(t) || AbsoluteText(t)
  {
    hide Walk, MayEnd, TailText, MoveOn, AbsoluteText, AuthorityText;
    if AbsoluteText(t) {
      SchemeFirst(t);
    }
    if AuthorityText(t) {
      HostFirst(t);
    }
    if t != [] {
      if verb == CONNECT {
        ServerExact(t);
        WalkStep(ReqHostStart, t);
      } else if t[0] == '/' || t[0] == '*' {
        OriginForm(verb, t);
      } else if IsAlpha(t[0]) {
        SchemeExact(t);
      }
    }
  }

  lemma SchemeFirst(t: Bytes)
    requires AbsoluteText(t)
    ensures t != [] && IsAlpha(t[0])
  {
    hide AuthorityText, IsAlpha;
    var scheme: Bytes, sep: Bytes, server: Bytes :| Absolute(t, scheme, sep, server);
    assert t[0] == scheme[0];
  }

  lemma HostFirst(t: Bytes)
    requires AuthorityText(t)
    ensures t != []
  {
    hide Host, PortText, RestText;
    var host: Bytes, port: Bytes, rest: Bytes
      :| t == host + port + rest && Host(host) && PortText(port) && RestText(rest);
    NotEmpty(host);
  }

  lemma NotEmpty(host: Bytes)
    requires Host(host)
    ensures host != []
  {
  }

  // ----- the version -----

  predicate Digits(ds: Bytes) { ds != [] && forall i | 0 <= i < |ds| :: IsNum(ds[i]) }

  predicate AtNumeral(c: Config, minor: bool)
  {
    (if minor then c.p.state.ReqFirstHttpMinor? else c.p.state.ReqFirstHttpMajor?) && c.live.None? && c.p.errno == Ok
  }

  function Numeral(c: Config, minor: bool, n: nat, used: nat): Config
  {
    c.(p := if minor then c.p.(state := ReqHttpMinor, minor := n) else c.p.(state := ReqHttpMajor, major := n),
       used := used)
  }

  predicate NumeralParsed(c: Config, minor: bool, ds: Bytes, s: Step)
    requires NumberText(ds)
  {
    if DecValue(ds) <= 999 then s == Running(Numeral(c, minor, DecValue(ds), c.used + |ds|))
    else s.Failed? && s.c.p.errno == InvalidVersion
  }

  lemma FirstNumeral(sw: Switcher, settings: Settings, c: Config, minor: bool, ch: Byte)
    requires Runs(sw, settings) && AtNumeral(c, minor) && IsNum(ch)
    ensures Feed(sw, c, ch) == Running(Numeral(c, minor, Digit(ch), c.used + 1))
  {
    hide Runs, Feed, Put, Digit;
    VisitsVersion(sw, settings, c.p, ch);
    FeedOnce(sw, c, ch);
  }

  lemma NextNumeral(sw: Switcher, settings: Settings, c: Config, minor: bool, n: nat, used: nat, ch: Byte)
    requires Runs(sw, settings) && AtNumeral(c, minor) && IsNum(ch)
    ensures var s := Feed(sw, Numeral(c, minor, n, used), ch);
            if n * 10 + Digit(ch) <= 999 then s == Running(Numeral(c, minor, n * 10 + Digit(ch), used + 1))
            else s.Failed? && s.c.p.errno == InvalidVersion
  {
    hide Runs, Feed, Put, Digit;
    var d := Numeral(c, minor, n, used);
    VisitsVersion(sw, settings, d.p, ch);
    FeedStops(sw, d, ch);
    if n * 10 + Digit(ch) <= 999 {
      FeedOnce(sw, d, ch);
    }
  }

  lemma NumeralStep(sw: Switcher, settings: Settings, c: Config, minor: bool, front: Bytes, last: Byte, s: Step)
    requires Runs(sw, settings) && AtNumeral(c, minor) && NumberText(front) && NumberText(front + [last]) && IsNum(last)
    requires NumeralParsed(c, minor, front, s)
    ensures NumeralParsed(c, minor, front + [last], if s.Running? then Feed(sw, s.c, last) else s)
  {
    hide Runs, Feed;
    assert (front + [last])[..|front|] == front && (front + [last])[|front|] == last;
    if s.Running? {
      NextNumeral(sw, settings, c, minor, DecValue(front), c.used + |front|, last);
    }
  }

  lemma OneNumeral(c: Config, minor: bool, ch: Byte, s: Step)
    requires IsNum(ch) && s == Running(Numeral(c, minor, Digit(ch), c.used + 1))
    ensures NumberText([ch]) && NumeralParsed(c, minor, [ch], s)
  {
    assert [ch][..0] == [];
    assert DecValue([]) == 0;
    assert DecValue([ch]) == Digit(ch);
  }

  /** A version number is its decimal value, and is refused exactly when that exceeds 999. */
  lemma {:induction false} VersionExact(sw: Switcher, settings: Settings, c: Config, minor: bool, ds: Bytes)
    requires Runs(sw, settings) && AtNumeral(c, minor) && Digits(ds)
    ensures NumberText(ds) && NumeralParsed(c, minor, ds, FeedAll(sw, c, ds))
    decreases |ds|
  {
    hide Runs, Feed, FeedAll, NumeralParsed, IsNum;
    var front, last := ds[..|ds| - 1], ds[|ds| - 1];
    assert ds == front + [last];
    if |ds| == 1 {
      assert ds == [last];
      FirstNumeral(sw, settings, c, minor, last);
      FeedSingle(sw, c, last);
      OneNumeral(c, minor, last, Feed(sw, c, last));
    } else {
      VersionExact(sw, settings, c, minor, front);
      FeedAllConcat(sw, c, front, [last]);
      var s := FeedAll(sw, c, front);
      FeedSingle(sw, s.c, last);
      NumeralStep(sw, settings, c, minor, front, last, s);
    }
  }

  /** A byte of the version that only changes the state. */
  predicate Leads(p: Parser, ch: Byte, s: State)
  {
    || (p.state.ReqHttpStart? && ch == 'H' && s.ReqHttpH?)
    || (p.state.ReqHttpH? && s.ReqHttpHT?)
    || (p.state.ReqHttpHT? && s.ReqHttpHTT?)
    || (p.state.ReqHttpHTT? && s.ReqHttpHTTP?)
    || (p.state.ReqHttpHTTP? && s.ReqFirstHttpMajor?)
    || (p.state.ReqHttpMajor? && ch == '.' && s.ReqFirstHttpMinor?)
    || (p.state.ReqHttpMinor? && ch == CR && !(p.major == 0 && p.minor == 9) && s.ReqLineAlmostDone?)
    || (p.state.ReqLineAlmostDone? && ch == LF && s.HeaderFieldStart?)
  }

  lemma LeadsThere(p: Parser, ch: Byte, s: State)
    requires Leads(p, ch, s)
    ensures RegionOf(p.state).AtVersion? && SwitchVersion(p, ch) == Go(p, s)
  {
    hide IsNum, Digit, Accumulate;
  }

  lemma VersionByte(sw: Switcher, settings: Settings, c: Config, ch: Byte, s: State)
    requires Runs(sw, settings) && Leads(c.p, ch, s) && c.live.None? && c.p.errno == Ok
    ensures FeedAll(sw, c, [ch]) == Running(In(c, s).(used := c.used + 1))
  {
    hide Runs, Feed, FeedAll, Put, SwitchVersion, Leads;
    LeadsThere(c.p, ch, s);
    VisitsVersion(sw, settings, c.p, ch);
    FeedSingle(sw, c, ch);
    FeedOnce(sw, c, ch);
  }

  const PROTOCOL: Bytes := ['H', 'T', 'T', 'P', '/']

  lemma TwoBytes(sw: Switcher, settings: Settings, c: Config, x: Byte, s: State, y: Byte, u: State)
    requires Runs(sw, settings) && c.live.None? && c.p.errno == Ok
    requires Leads(c.p, x, s) && Leads(In(c, s).p, y, u)
    ensures FeedAll(sw, c, [x, y]) == Running(In(c, u).(used := c.used + 2))
  {
    hide Runs, FeedAll, Leads;
    var d := In(c, s).(used := c.used + 1);
    VersionByte(sw, settings, c, x, s);
    VersionByte(sw, settings, d, y, u);
    Then(sw, c, [x], d, [y]);
    assert [x] + [y] == [x, y];
  }

  lemma ProtocolMoves(p: Parser)
    requires p.state.ReqHttpStart?
    ensures Leads(p, 'H', ReqHttpH) && Leads(p.(state := ReqHttpH), 'T', ReqHttpHT)
    ensures Leads(p.(state := ReqHttpHT), 'T', ReqHttpHTT) && Leads(p.(state := ReqHttpHTT), 'P', ReqHttpHTTP)
    ensures Leads(p.(state := ReqHttpHTTP), '/', ReqFirstHttpMajor)
  {
  }

  lemma Spelled()
    ensures ['H', 'T'] + (['T', 'P'] + ['/']) == PROTOCOL
  {
  }

  lemma ReadProtocol(sw: Switcher, settings: Settings, c: Config)
    requires Runs(sw, settings) && c.p.state.ReqHttpStart? && c.live.None? && c.p.errno == Ok
    ensures FeedAll(sw, c, PROTOCOL) == Running(In(c, ReqFirstHttpMajor).(used := c.used + 5))
  {
    hide Runs, FeedAll, Leads;
    var d, e := In(c, ReqHttpHT).(used := c.used + 2), In(c, ReqHttpHTTP).(used := c.used + 4);
    ProtocolMoves(c.p);
    Spelled();
    TwoBytes(sw, settings, c, 'H', ReqHttpH, 'T', ReqHttpHT);
    TwoBytes(sw, settings, d, 'T', ReqHttpHTT, 'P', ReqHttpHTTP);
    VersionByte(sw, settings, e, '/', ReqFirstHttpMajor);
    Then(sw, d, ['T', 'P'], e, ['/']);
    Then(sw, c, ['H', 'T'], d, ['T', 'P'] + ['/']);
  }

  /** A version that is printed with these digits; HTTP/0.9 has no header lines. */
  predicate ProperVersion(major: Bytes, minor: Bytes)
  {
    && Digits(major) && NumberText(major) && DecValue(major) <= 999
    && Digits(minor) && NumberText(minor) && DecValue(minor) <= 999
    && !(DecValue(major) == 0 && DecValue(minor) == 9)
  }

  function VersionText(major: Bytes, minor: Bytes): Bytes { PROTOCOL + (major + ['.'] + (minor + [CR, LF])) }

  lemma LineOver(sw: Switcher, settings: Settings, c: Config)
    requires Runs(sw, settings) && c.p.state.ReqHttpMinor? && c.live.None? && c.p.errno == Ok
    requires !(c.p.major == 0 && c.p.minor == 9)
    ensures FeedAll(sw, c, [CR, LF]) == Running(In(c, HeaderFieldStart).(used := c.used + 2))
  {
    hide Runs, FeedAll;
    TwoBytes(sw, settings, c, CR, ReqLineAlmostDone, LF, HeaderFieldStart);
  }

  lemma ReadMinor(sw: Switcher, settings: Settings, c: Config, minor: Bytes)
    requires Runs(sw, settings) && AtNumeral(c, true) && Digits(minor) && NumberText(minor) && DecValue(minor) <= 999
    requires !(c.p.major == 0 && DecValue(minor) == 9)
    ensures FeedAll(sw, c, minor + [CR, LF]) ==
            Running(c.(p := c.p.(state := HeaderFieldStart, minor := DecValue(minor)), used := c.used + |minor| + 2))
  {
    hide Runs, FeedAll, DecValue, Digits, NumberText;
    var d := Numeral(c, true, DecValue(minor), c.used + |minor|);
    VersionExact(sw, settings, c, true, minor);
    LineOver(sw, settings, d);
    Then(sw, c, minor, d, [CR, LF]);
  }

  lemma ReadMajor(sw: Switcher, settings: Settings, c: Config, major: Bytes)
    requires Runs(sw, settings) && AtNumeral(c, false) && Digits(major) && NumberText(major) && DecValue(major) <= 999
    ensures FeedAll(sw, c, major + ['.']) ==
            Running(c.(p := c.p.(state := ReqFirstHttpMinor, major := DecValue(major)), used := c.used + |major| + 1))
  {
    hide Runs, FeedAll, DecValue, Digits, NumberText;
    var d := Numeral(c, false, DecValue(major), c.used + |major|);
    VersionExact(sw, settings, c, false, major);
    VersionByte(sw, settings, d, '.', ReqFirstHttpMinor);
    Then(sw, c, major, d, ['.']);
  }

  lemma ReadVersion(sw: Switcher, settings: Settings, c: Config, major: Bytes, minor: Bytes)
    requires Runs(sw, settings) && c.p.state.ReqHttpStart? && c.live.None? && c.p.errno == Ok
    requires ProperVersion(major, minor)
    ensures FeedAll(sw, c, VersionText(major, minor)) ==
            Running(c.(p := c.p.(state := HeaderFieldStart, major := DecValue(major), minor := DecValue(minor)),
                       used := c.used + |VersionText(major, minor)|))
  {
    hide Runs, FeedAll, DecValue, Digits, NumberText;
    var d := In(c, ReqFirstHttpMajor).(used := c.used + 5);
    var e := d.(p := d.p.(state := ReqFirstHttpMinor, major := DecValue(major)), used := d.used + |major| + 1);
    ReadProtocol(sw, settings, c);
    ReadMajor(sw, settings, d, major);
    ReadMinor(sw, settings, e, minor);
    Then(sw, d, major + ['.'], e, minor + [CR, LF]);
    Then(sw, c, PROTOCOL, d, major + ['.'] + (minor + [CR, LF]));
  }

  // ----- the request line -----

  predicate AtMessage(c: Config)
  {
    c.p.state.PreStartReq? && c.p.kind == Request && c.live.None? && c.held == [] && c.p.errno == Ok
  }

  function Started(c: Config): Config { In(c, StartReq).(out := c.out + [Note(MessageBegin)]) }

  lemma MessageStarts(sw: Switcher, settings: Settings, c: Config, data: Bytes)
    requires Runs(sw, settings) && AtMessage(c) && data != [] && data[0] != CR && data[0] != LF
    ensures FeedAll(sw, c, data) == FeedAll(sw, Started(c), data)
  {
    hide Runs, Feed;
    VisitsStart(sw, settings, c.p, data[0]);
    FeedTwice(sw, c, data[0]);
    assert Perform(c, sw(c.p, data[0]), data[0]) == Started(c);
  }

  /** The method and the space behind it. */
  lemma ReadMethod(sw: Switcher, settings: Settings, c: Config, m: Method)
    requires Runs(sw, settings) && AtMethod(c)
    ensures FeedAll(sw, c, MethodName(m) + [' ']) ==
            Running(c.(p := ClearMessage(c.p).(state := ReqSpacesBeforeUrl, verb := m, index := |MethodName(m)| + 1),
                       used := c.used + |MethodName(m)| + 1))
  {
    hide Runs, Feed, FeedAll, MethodName, GuessFor, FirstGuess;
    var n := |MethodName(m)|;
    FirstGuessFor(m);
    MethodComplete(sw, settings, c, m, n);
    assert MethodName(m)[..n] == MethodName(m);
    Then(sw, c, MethodName(m), MethodSoFar(c, m, n), [' ']);
    FeedSingle(sw, MethodSoFar(c, m, n), ' ');
    SpaceAfter(sw, settings, c, m, n);
  }

  function RequestLine(m: Method, target: Bytes, major: Bytes, minor: Bytes): Bytes
  {
    MethodName(m) + [' '] + (target + [' '] + VersionText(major, minor))
  }

  /** The configuration after the request line. */
  function AfterLine(c: Config, m: Method, target: Bytes, major: Bytes, minor: Bytes): Config
    requires ProperVersion(major, minor)
  {
    c.(p := ClearMessage(c.p).(state := HeaderFieldStart, verb := m, index := |MethodName(m)| + 1,
                               major := DecValue(major), minor := DecValue(minor)),
       out := Put(c.out + [Note(MessageBegin)], Url, target),
       used := c.used + |RequestLine(m, target, major, minor)|)
  }

  /** A request line is read as its method, its target and its version. */
  lemma ReadRequestLine(
    sw: Switcher, settings: Settings, c: Config, m: Method, target: Bytes, major: Bytes, minor: Bytes)
    requires Runs(sw, settings) && AtMessage(c)
             && TargetText(target) && Accepts(m, target) && ProperVersion(major, minor)
    ensures FeedAll(sw, c, RequestLine(m, target, major, minor)) == Running(AfterLine(c, m, target, major, minor))
  {
    hide Runs, FeedAll, MethodName, Put, VersionText, TargetText, Accepts, ProperVersion;
    var b := Started(c);
    var d := b.(p := ClearMessage(b.p).(state := ReqSpacesBeforeUrl, verb := m, index := |MethodName(m)| + 1),
                used := b.used + |MethodName(m)| + 1);
    var e := AfterTarget(d, target);
    NameBegins(m);
    MessageStarts(sw, settings, c, RequestLine(m, target, major, minor));
    ReadMethod(sw, settings, b, m);
    NotEmptyTarget(m, target);
    TargetExact(sw, settings, d, target);
    ReadVersion(sw, settings, e, major, minor);
    Then(sw, d, target + [' '], e, VersionText(major, minor));
    Then(sw, b, MethodName(m) + [' '], d, target + [' '] + VersionText(major, minor));
  }

  lemma NameBegins(m: Method)
    ensures MethodName(m) != [] && MethodName(m)[0] != CR && MethodName(m)[0] != LF
  {
  }

  lemma NotEmptyTarget(m: Method, t: Bytes)
    requires Accepts(m, t)
    ensures t != []
  {
  }
}
