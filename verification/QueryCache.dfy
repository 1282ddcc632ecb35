/**
 * The query parameters of an HTTPMessage: parsed from the URL when first asked for, then kept beside it while
 * parameters are set and removed.  `Msg` and the functions on it say what each call does; the class below does it.
 */
module QueryCache {
  import opened HttpTypes
  import opened UrlOuter
  import opened UrlHost
  import opened UrlParser
  import opened UrlText
  import opened UrlReading
  import opened QueryParams
  import opened QueryReplace

  /** The request's URL with its path and query, the cached parameters, and whether they are cached. */
  datatype Msg = Msg(url: Bytes, path: Bytes, query: Bytes, params: Params, parsed: bool)

  /** setURLImpl */
  function SetUrl(m: Msg, url: Bytes, unparse: bool): Msg
  {
    var v := ReadUrl(url, Compat);
    var path, query := if v.Some? then v.value.path else [], if v.Some? then v.value.query else [];
    if unparse then Msg(url, path, query, [], false) else Msg(url, path, query, m.params, m.parsed)
  }

  /** setQueryStringImpl: the message, and whether the query was set. */
  function SetQuery(m: Msg, q: Bytes, unparse: bool): (Msg, bool)
  {
    var v := ReadUrl(m.url, Compat);
    if v.Some? then (SetUrl(m, Replaced(v.value, q), unparse), true) else (m, false)
  }

  /** parseQueryParams, unless it was done before. */
  function Parsed(m: Msg): Msg
  {
    if m.parsed then m else m.(params := InsertAll(m.params, Pairs(m.query)), parsed := true)
  }

  function SetParam(m: Msg, name: Bytes, value: Bytes): (Msg, bool)
  {
    var p := Parsed(m);
    var q := p.(params := Insert(p.params, name, value));
    SetQuery(q, CreateQueryString(q.params), false)
  }

  function RemoveParam(m: Msg, name: Bytes): (Msg, bool)
  {
    var p := Parsed(m);
    if Lookup(p.params, name).None? then (p, false)
    else
      var q := p.(params := Erase(p.params, name));
      SetQuery(q, CreateQueryString(q.params), false)
  }

  /** One call on a message. */
  datatype Op = OpSet(name: Bytes, value: Bytes) | OpRemove(name: Bytes) | OpGet | OpSetQuery(query: Bytes)

  function Apply(m: Msg, op: Op): Msg
  {
    match op
    case OpSet(name, value) => SetParam(m, name, value).0
    case OpRemove(name) => RemoveParam(m, name).0
    case OpGet => Parsed(m)
    case OpSetQuery(q) => SetQuery(m, q, true).0
  }

  /** Names and values that fit in a query. */
  predicate LegalOp(op: Op)
  {
    (op.OpSet? ==> GoodPair((op.name, op.value))) && (op.OpSetQuery? ==> Clean(op.query))
  }

  // ----- coherence -----

  /** The path and query are the URL's, and the cached parameters are what the query says. */
  predicate Coherent(m: Msg)
  {
    var v := ReadUrl(m.url, Compat);
    && v.Some? && m.path == v.value.path && m.query == v.value.query
    && m.params == if m.parsed then ParamsOf(m.query) else []
  }

  predicate Steady(m: Msg) { Coherent(m) && Sturdy(ReadUrl(m.url, Compat).value) }

  /** Scheme, authority, path and fragment are the same. */
  predicate SameButQuery(m: Msg, r: Msg)
    requires Coherent(m) && Coherent(r)
  {
    ReadUrl(r.url, Compat).value == ReadUrl(m.url, Compat).value.(query := r.query)
  }

  lemma ParsedCoherent(m: Msg)
    requires Coherent(m)
    ensures Coherent(Parsed(m)) && Parsed(m).params == ParamsOf(m.query) && GoodParams(Parsed(m).params)
  {
    hide ReadUrl, GoodParams;
    QueryRead(m.url);
    ParamsGood(m.query);
  }

  /** Writing good parameters back. */
  lemma WriteBack(m: Msg, params: Params)
    requires Coherent(m) && m.parsed && GoodParams(params) && (params != [] || Sturdy(ReadUrl(m.url, Compat).value))
    ensures var (r, ok) := SetQuery(m.(params := params), CreateQueryString(params), false);
            ok && Coherent(r) && r.params == params && r.parsed && SameButQuery(m, r) && r.path == m.path
  {
    hide ReadUrl, GoodParams, ParamsOf, Replaced, Sturdy;
    QueryRoundTrip(params);
    ReplaceExact(m.url, CreateQueryString(params));
  }

  lemma {:induction false} OneLess(m: Params, name: Bytes)
    ensures Lookup(m, name).Some? ==> |Erase(m, name)| == |m| - 1
  {
    if m != [] && m[0].0 != name {
      OneLess(m[1..], name);
    }
  }

  lemma EraseGood(m: Params, name: Bytes)
    requires GoodParams(m)
    ensures GoodParams(Erase(m, name))
  {
    hide GoodPair;
    EraseNames(m, name);
  }

  lemma InsertGood(m: Params, name: Bytes, value: Bytes)
    requires GoodParams(m) && GoodPair((name, value))
    ensures GoodParams(Insert(m, name, value)) && Insert(m, name, value) != []
  {
    hide GoodPair;
    InsertNames(m, name, value);
  }

  /**
   * Setting a parameter of any readable URL, and every other call on a sturdy one, keeps the cache coherent
   * and changes nothing but the query.
   */
  lemma ApplyCoherent(m: Msg, op: Op)
    requires Coherent(m) && LegalOp(op) && (op.OpSet? || op.OpGet? || Sturdy(ReadUrl(m.url, Compat).value))
    ensures Coherent(Apply(m, op)) && SameButQuery(m, Apply(m, op)) && Apply(m, op).path == m.path
  {
    hide ReadUrl, GoodParams, Replaced, Sturdy, GoodPair, Clean;
    ParsedCoherent(m);
    var p := Parsed(m);
    match op
    case OpSet(name, value) =>
      InsertGood(p.params, name, value);
      WriteBack(p, Insert(p.params, name, value));
    case OpRemove(name) =>
      EraseGood(p.params, name);
      WriteBack(p, Erase(p.params, name));
    case OpGet =>
    case OpSetQuery(q) =>
      ReplaceExact(m.url, q);
  }

  function Run(m: Msg, ops: seq<Op>): Msg
    decreases |ops|
  {
    if ops == [] then m else Apply(Run(m, ops[..|ops| - 1]), ops[|ops| - 1])
  }

  /** Every run of legal calls on a sturdy URL: the cache stays coherent and only the query changes. */
  lemma {:induction false} EveryRunIsCoherent(m: Msg, ops: seq<Op>)
    requires Steady(m) && forall i | 0 <= i < |ops| :: LegalOp(ops[i])
    ensures Steady(Run(m, ops)) && SameButQuery(m, Run(m, ops)) && Run(m, ops).path == m.path
    decreases |ops|
  {
    hide ReadUrl, Apply, LegalOp;
    if ops != [] {
      EveryRunIsCoherent(m, ops[..|ops| - 1]);
      ApplyCoherent(Run(m, ops[..|ops| - 1]), ops[|ops| - 1]);
    }
  }

  // ----- when it fails -----

  /** Removing the only parameter of a URL that is not sturdy leaves a URL that cannot be read. */
  lemma LastParamLost(m: Msg, name: Bytes)
    requires Coherent(m) && !Sturdy(ReadUrl(m.url, Compat).value)
    requires var p := ParamsOf(m.query); |p| == 1 && p[0].0 == name
    ensures var r := RemoveParam(m, name).0; ReadUrl(r.url, Compat).None? && r.query == [] && r.params == [] && r.parsed
  {
    hide ReadUrl, GoodParams, Replaced, Sturdy;
    ParsedCoherent(m);
    var p := Parsed(m);
    assert Erase(p.params, name) == [];
    ReplaceExact(m.url, []);
  }

  /** On a URL that cannot be read, setting a parameter changes the cache but not the query. */
  lemma UnreadableIncoherent(m: Msg, name: Bytes, value: Bytes)
    requires ReadUrl(m.url, Compat).None? && m.query == [] && m.params == [] && m.parsed
    ensures var (r, ok) := SetParam(m, name, value);
            !ok && r.query == [] && r.params == [(name, value)] && r.params != ParamsOf(r.query)
  {
    hide ReadUrl;
  }

  /** "http://h?a=b#f": one parameter removed and another set, and the cache holds what the query does not. */
  lemma RemoveThenSet(m: Msg)
    requires Coherent(m) && !Sturdy(ReadUrl(m.url, Compat).value) && |ParamsOf(m.query)| == 1
    ensures var r := Run(m, [OpRemove(ParamsOf(m.query)[0].0), OpSet(['c'], ['d'])]);
            r.params != ParamsOf(r.query)
  {
    hide ReadUrl, RemoveParam, SetParam, Sturdy, ParamsOf;
    var name := ParamsOf(m.query)[0].0;
    var ops := [OpRemove(name), OpSet(['c'], ['d'])];
    assert ops[..1] == [OpRemove(name)] && ops[..1][..0] == [];
    LastParamLost(m, name);
    UnreadableIncoherent(RemoveParam(m, name).0, ['c'], ['d']);
    assert Run(m, [OpRemove(name)]) == RemoveParam(m, name).0;
  }

  /** Removing a parameter keeps the message coherent exactly if another is left or the URL is sturdy. */
  lemma RemoveExact(m: Msg, name: Bytes)
    requires Coherent(m) && Lookup(ParamsOf(m.query), name).Some?
    ensures Coherent(RemoveParam(m, name).0) <==> |ParamsOf(m.query)| > 1 || Sturdy(ReadUrl(m.url, Compat).value)
  {
    hide ReadUrl, GoodParams, Replaced, Sturdy, ParamsOf;
    ParsedCoherent(m);
    var p := Parsed(m);
    OneLess(p.params, name);
    EraseGood(p.params, name);
    if |ParamsOf(m.query)| > 1 || Sturdy(ReadUrl(m.url, Compat).value) {
      WriteBack(p, Erase(p.params, name));
    } else {
      assert Erase(p.params, name) == [];
      QueryRoundTrip([]);
      ReplaceExact(m.url, []);
    }
  }

  const FRAGILE: Outer := Outer("http", 3, "h", [], true, "a=b", 1, "f")
  const HOST_H: Inner := Inner([], false, 0, "h", false, [])

  lemma FragileLegal()
    ensures Legal(FRAGILE, false, Compat)
  {
    assert ServerText("h") && AllAlpha("http");
    assert QueryText("a=b", Compat) && FragmentText("f", Compat);
  }

  lemma FragileText()
    ensures Render(FRAGILE) == "http://h?a=b#f"
  {
    assert Hashes(1) == "#" && DELIM[..3] == "://";
    assert Front(FRAGILE) == "http" + "://" + "h" == "http://h";
    assert QueryPart(FRAGILE) == "?a=b";
    assert "http://h" + "?a=b" + "#" + "f" == "http://h?a=b#f";
  }

  lemma FragileHost()
    ensures WholeHost(HOST_H, false) && RenderHost(HOST_H) == "h" && PortFits(HOST_H) && '@' !in FRAGILE.server
  {
    assert HostText("h", false);
  }

  lemma FragileAccepted(url: Bytes)
    requires url == "http://h?a=b#f"
    ensures Accepted(url, false, Compat, FRAGILE, HOST_H)
  {
    hide Legal, Render, WholeHost, RenderHost, PortFits;
    FragileLegal();
    FragileText();
    FragileHost();
  }

  lemma OneParam()
    ensures ParamsOf("a=b") == [("a", "b")]
  {
    hide ParamsOf, GoodPair;
    assert GoodPair(("a", "b")) by { PairIsGood(); }
    assert PrintPair(("a", "b")) == "a=b";
    QueryRoundTrip([("a", "b")]);
  }

  lemma PairIsGood()
    ensures GoodPair(("a", "b"))
  {
  }

  /** Such a URL: no path, one parameter and a fragment. */
  lemma FragileUrl(m: Msg)
    ensures var r := SetUrl(m, "http://h?a=b#f", true);
            Coherent(r) && !Sturdy(ReadUrl(r.url, Compat).value) && ParamsOf(r.query) == [("a", "b")]
  {
    hide ReadFull, ReadPartial, ValidScheme, Accepted, ParamsOf, Legal, Render, ShownAuthority;
    var url: Bytes := "http://h?a=b#f";
    FragileAccepted(url);
    FragileLegal();
    FragileText();
    SchemeSeen(FRAGILE, Compat);
    FullIs(url, Compat, FRAGILE, HOST_H);
    OneParam();
  }

  // ----- what a name has for a value -----

  /** What getQueryParam finds. */
  function ValueIn(m: Msg, name: Bytes): Option<Bytes> { Lookup(Parsed(m).params, name) }

  /** A message that was not asked yet has the values of its query, and the last one of a name counts. */
  lemma FreshValue(m: Msg, k: Bytes)
    requires !m.parsed && m.params == []
    ensures ValueIn(m, k) == LastValue(Pairs(m.query), k, None)
  {
    LastWins([], Pairs(m.query), k);
  }

  lemma ParsedSorted(m: Msg)
    requires Sorted(m.params)
    ensures Sorted(Parsed(m).params)
  {
    hide Sorted;
    LastWins(m.params, Pairs(m.query), []);
  }

  /** Rewriting the URL leaves the parameters alone. */
  lemma QueryKeepsParams(m: Msg, q: Bytes)
    ensures SetQuery(m, q, false).0.params == m.params && SetQuery(m, q, false).0.parsed == m.parsed
  {
    hide ReadUrl, Replaced;
  }

  /** After a parameter is set it has the value, and every other has the value it had. */
  lemma SetThenGet(m: Msg, name: Bytes, value: Bytes, k: Bytes)
    requires Sorted(m.params)
    ensures var r := SetParam(m, name, value).0;
            Sorted(r.params) && ValueIn(r, k) == if k == name then Some(value) else ValueIn(m, k)
  {
    hide SetQuery, Sorted, Insert, Lookup, CreateQueryString;
    var p := Parsed(m);
    ParsedSorted(m);
    InsertNames(p.params, name, value);
    LookupInsert(p.params, name, value, k);
    QueryKeepsParams(p.(params := Insert(p.params, name, value)), CreateQueryString(Insert(p.params, name, value)));
  }

  /** After a parameter is removed it has no value, and every other has the value it had. */
  lemma RemoveThenGet(m: Msg, name: Bytes, k: Bytes)
    requires Sorted(m.params)
    ensures var r := RemoveParam(m, name).0;
            Sorted(r.params) && ValueIn(r, k) == if k == name then None else ValueIn(m, k)
  {
    hide SetQuery, Sorted, QueryParams.Erase, Lookup, CreateQueryString;
    var p := Parsed(m);
    ParsedSorted(m);
    EraseNames(p.params, name);
    LookupErase(p.params, name, k);
    QueryKeepsParams(p.(params := Erase(p.params, name)), CreateQueryString(Erase(p.params, name)));
  }

  /** What the URL says of a name. */
  function UrlValue(url: Bytes, k: Bytes): Option<Bytes>
  {
    var v := ReadUrl(url, Compat);
    if v.Some? then LastValue(Pairs(v.value.query), k, None) else None
  }

  /** In a coherent message the URL says what the cache says. */
  lemma CoherentValue(m: Msg, k: Bytes)
    requires Coherent(m)
    ensures UrlValue(m.url, k) == ValueIn(m, k) && Sorted(m.params)
  {
    hide ReadUrl, Sorted, Lookup, Pairs;
    NothingSorted();
    LastWins([], Pairs(m.query), k);
  }

  lemma NothingSorted()
    ensures Sorted([]) && forall k: Bytes :: Lookup([], k) == None
  {
  }

  /** Setting and removing, as the URL shows them to whoever reads it next. */
  lemma UrlFollows(m: Msg, op: Op, k: Bytes)
    requires Coherent(m) && LegalOp(op) && (op.OpSet? || op.OpRemove?)
    requires op.OpRemove? ==> Sturdy(ReadUrl(m.url, Compat).value) || |ParamsOf(m.query)| > 1
    ensures UrlValue(Apply(m, op).url, k) ==
            if k == op.name then (if op.OpSet? then Some(op.value) else None) else UrlValue(m.url, k)
  {
    hide UrlValue, ValueIn, Coherent, Sturdy, Sorted, SetParam, RemoveParam, LegalOp;
    CoherentValue(m, k);
    StillCoherent(m, op);
    CoherentValue(Apply(m, op), k);
    if op.OpSet? {
      SetThenGet(m, op.name, op.value, k);
    } else {
      RemoveThenGet(m, op.name, k);
    }
  }

  lemma StillCoherent(m: Msg, op: Op)
    requires Coherent(m) && LegalOp(op) && (op.OpSet? || op.OpRemove?)
    requires op.OpRemove? ==> Sturdy(ReadUrl(m.url, Compat).value) || |ParamsOf(m.query)| > 1
    ensures Coherent(Apply(m, op))
  {
    hide ReadUrl, SetParam, RemoveParam, Sturdy, ParamsOf;
    if op.OpSet? || Sturdy(ReadUrl(m.url, Compat).value) {
      ApplyCoherent(m, op);
    } else if Lookup(ParamsOf(m.query), op.name).Some? {
      RemoveExact(m, op.name);
    } else {
      ParsedCoherent(m);
      NothingRemoved(m, op.name);
    }
  }

  lemma NothingRemoved(m: Msg, name: Bytes)
    requires Lookup(Parsed(m).params, name).None?
    ensures RemoveParam(m, name) == (Parsed(m), false)
  {
  }

  // ----- the object -----

  lemma {:induction false} JoinLast(m: Params, p: Pair)
    ensures CreateQueryString(m + [p]) == CreateQueryString(m) + (if m == [] then [] else ['&']) + PrintPair(p)
  {
    hide PrintPair;
    if m != [] {
      JoinLast(m[1..], p);
      assert (m + [p])[1..] == m[1..] + [p];
    }
  }

  /** createQueryString: a loop that appends. */
  method JoinParams(m: Params) returns (query: Bytes)
    ensures query == CreateQueryString(m)
  {
    hide CreateQueryString;
    query := [];
    JoinNothing();
    for i := 0 to |m|
      invariant query == CreateQueryString(m[..i])
    {
      JoinLast(m[..i], m[i]);
      assert m[..i] + [m[i]] == m[..i + 1];
      if i > 0 {
        query := query + ['&'];
      }
      query := query + PrintPair(m[i]);
    }
    assert m[..|m|] == m;
  }

  lemma JoinNothing()
    ensures CreateQueryString([]) == []
  {
  }

  class HTTPMessage {
    var url: Bytes
    var path: Bytes
    var query: Bytes
    var params: Params
    var parsed: bool

    function State(): Msg
      reads this
    {
      Msg(url, path, query, params, parsed)
    }

    /** The names of a std::map are in order. */
    ghost predicate Valid()
      reads this
    {
      Sorted(params)
    }

    /** What getQueryParam finds. */
    function Value(name: Bytes): Option<Bytes>
      reads this
    {
      ValueIn(State(), name)
    }

    constructor ()
      ensures Valid() && State() == Msg([], [], [], [], false)
    {
      url, path, query, params, parsed := [], [], [], [], false;
    }

    method SetURLImpl(u: Bytes, unparse: bool)
      requires |u| <= 0xffff
      modifies this
      ensures State() == SetUrl(old(State()), u, unparse)
      ensures url == u && (ReadUrl(u, Compat).None? ==> path == [] && query == [])
      ensures if unparse then params == [] && !parsed else params == old(params) && parsed == old(parsed)
    {
      hide ReadUrl;
      url := u;
      var p := new ParseURL(u);
      p.Parse(Compat);
      if p.valid {
        path, query := p.path, p.query;
      } else {
        path, query := [], [];
      }
      if unparse {
        params := [];
        parsed := false;
      }
    }

    /** Splits the query at '&' and '=' and enters the pairs; a later value of a name replaces an earlier one. */
    method ParseQueryParams()
      requires !parsed
      modifies this`params, this`parsed
      ensures State() == Parsed(old(State()))
    {
      hide First, Insert, Trim;
      parsed := true;
      var sp := query;
      while sp != []
        invariant parsed && url == old(url) && path == old(path) && query == old(query)
        invariant InsertAll(params, Pairs(sp)) == InsertAll(old(params), Pairs(query))
        decreases |sp|
      {
        var i := First(sp, '&');
        var kv, rest := sp[..i], if i < |sp| then sp[i + 1..] else [];
        assert Pairs(sp) == (if i == 0 then [] else [PairOf(kv)]) + Pairs(rest);
        sp := rest;
        if kv == [] {
          assert [] + Pairs(rest) == Pairs(rest);
          continue;
        }
        var j := First(kv, '=');
        var name, value := Trim(kv), [];
        if j < |kv| {
          name, value := Trim(kv[..j]), Trim(kv[j + 1..]);
        }
        assert ([PairOf(kv)] + Pairs(rest))[1..] == Pairs(rest);
        params := Insert(params, name, value);
      }
    }

    method SetQueryStringImpl(q: Bytes, unparse: bool) returns (ok: bool)
      requires |url| <= 0xffff
      requires ReadUrl(url, Compat).Some? ==> |Replaced(ReadUrl(url, Compat).value, q)| <= 0xffff
      modifies this
      ensures (State(), ok) == SetQuery(old(State()), q, unparse)
      ensures ok == ReadUrl(old(url), Compat).Some? && (!ok ==> State() == old(State()))
    {
      hide ReadUrl, CreateUrl;
      var u := new ParseURL(url);
      u.Parse(Compat);
      if u.valid {
        SetURLImpl(CreateUrl(u.scheme, u.authority, u.path, q, u.fragment), unparse);
        return true;
      }
      return false;
    }

    method GetQueryParam(name: Bytes) returns (value: Option<Bytes>)
      requires Valid()
      modifies this
      ensures Valid() && State() == Parsed(old(State()))
      ensures value == old(Value(name)) && forall k: Bytes :: Value(k) == old(Value(k))
    {
      hide Sorted;
      ParsedSorted(State());
      if !parsed {
        ParseQueryParams();
      }
      value := Lookup(params, name);
    }

    method SetQueryParam(name: Bytes, value: Bytes) returns (ok: bool)
      requires Valid() && |url| <= 0xffff
      requires var q := CreateQueryString(Insert(Parsed(State()).params, name, value));
               ReadUrl(url, Compat).Some? ==> |Replaced(ReadUrl(url, Compat).value, q)| <= 0xffff
      modifies this
      ensures (State(), ok) == SetParam(old(State()), name, value)
      ensures Valid() && forall k: Bytes :: Value(k) == if k == name then Some(value) else old(Value(k))
    {
      hide ReadUrl, CreateUrl, Insert, InsertAll, Pairs, Sorted, ValueIn;
      forall k: Bytes
        ensures var r := SetParam(State(), name, value).0;
                Sorted(r.params) && ValueIn(r, k) == if k == name then Some(value) else Value(k)
      {
        SetThenGet(State(), name, value, k);
      }
      assert Sorted(SetParam(State(), name, value).0.params) by { SetThenGet(State(), name, value, []); }
      if !parsed {
        ParseQueryParams();
      }
      params := Insert(params, name, value);
      var q := JoinParams(params);
      ok := SetQueryStringImpl(q, false);
    }

    method RemoveQueryParam(name: Bytes) returns (ok: bool)
      requires Valid() && |url| <= 0xffff
      requires var q := CreateQueryString(Erase(Parsed(State()).params, name));
               ReadUrl(url, Compat).Some? ==> |Replaced(ReadUrl(url, Compat).value, q)| <= 0xffff
      modifies this
      ensures (State(), ok) == RemoveParam(old(State()), name)
      ensures Valid() && forall k: Bytes :: Value(k) == if k == name then None else old(Value(k))
    {
      hide ReadUrl, CreateUrl, Erase, InsertAll, Pairs, Lookup, Sorted, ValueIn;
      forall k: Bytes
        ensures var r := RemoveParam(State(), name).0;
                Sorted(r.params) && ValueIn(r, k) == if k == name then None else Value(k)
      {
        RemoveThenGet(State(), name, k);
      }
      assert Sorted(RemoveParam(State(), name).0.params) by { RemoveThenGet(State(), name, []); }
      if !parsed {
        ParseQueryParams();
      }
      if Lookup(params, name).None? {
        return false;
      }
      params := Erase(params, name);
      var q := JoinParams(params);
      ok := SetQueryStringImpl(q, false);
    }
  }
}
