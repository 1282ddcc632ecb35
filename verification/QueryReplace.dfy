/**
 * Replacing the query of a URL, as HTTPMessage::setQueryStringImpl does it: read the URL, print it with
 * another query, and read it again.  Exactly when is the result the same URL with the other query?
 */
module QueryReplace {
  import opened HttpTypes
  import opened UrlOuter
  import opened UrlHost
  import opened UrlParser
  import opened UrlText
  import opened UrlReading
  import opened QueryParams

  function Replaced(v: View, q: Bytes): Bytes { CreateUrl(v.scheme, v.authority, v.path, q, v.fragment) }

  /** The URL stays readable without its query. */
  predicate Sturdy(v: View)
  {
    if v.scheme != [] then v.path != [] || v.fragment == []
    else '?' !in v.fragment && (v.authority != [] || v.path != [] || v.fragment != [])
  }

  // ----- URLs with a scheme -----

  function NewHost(n: Inner): Inner
    requires AllDigits(n.port)
  {
    var port := Decimal(n.port);
    Inner([], false, n.brackets, n.host, port != 0, if port != 0 then ToDecimal(port) else [])
  }

  function NewOuter(o: Outer, authority: Bytes, q: Bytes): Outer
  {
    Outer(o.scheme, 3, authority, o.path, q != [], q, if o.fragment == [] then 0 else 1, o.fragment)
  }

  lemma NewHostIs(n: Inner, foundAt: bool)
    requires WholeHost(n, foundAt) && Decimal(n.port) <= MAX_PORT
    ensures var h := NewHost(n);
            && WholeHost(h, false) && RenderHost(h) == ShownAuthority(ShownHost(n), Decimal(n.port))
            && Decimal(h.port) == Decimal(n.port) && ShownHost(h) == ShownHost(n)
  {
    hide HostText, ToDecimal;
    DecimalNothing();
    var h := NewHost(n);
    assert RenderHost(h) == HostFront(h) + n.host + HostBack(h);
  }

  /** A server without '@' is text for a server. */
  lemma HostIsServer(n: Inner)
    requires WholeHost(n, false)
    ensures ServerText(RenderHost(n)) && '@' !in RenderHost(n)
  {
    hide IsMark;
    var t := RenderHost(n);
    assert t == (if n.brackets > 0 then ['['] else []) + n.host + HostBack(n);
    forall i | 0 <= i < |t|
      ensures IsServerChar(t[i]) && t[i] != '@'
    {
      HostCharIsServer(t[i]);
    }
  }

  lemma HostCharIsServer(c: Byte)
    ensures IsHostChar(c) || IsV6Char(c) || IsNum(c) ==> IsServerChar(c) && c != '@'
    ensures c == '[' || c == ']' || c == ':' ==> IsServerChar(c) && c != '@'
  {
  }

  lemma CleanIsQuery(q: Bytes)
    requires Clean(q)
    ensures QueryText(q, Compat)
  {
  }

  lemma QueryIsClean(q: Bytes)
    requires QueryText(q, Compat)
    ensures Clean(q)
  {
  }

  lemma NewLegal(o: Outer, authority: Bytes, q: Bytes)
    requires Legal(o, false, Compat) && o.scheme != [] && ServerText(authority) && QueryText(q, Compat)
    requires q != [] || o.path != [] || o.fragment == []
    ensures Legal(NewOuter(o, authority, q), false, Compat)
  {
    hide AllAlpha, ServerText, PathText, QueryText, FragmentText;
  }

  lemma NewRender(o: Outer, authority: Bytes, q: Bytes)
    requires o.scheme != []
    ensures Render(NewOuter(o, authority, q)) == CreateUrl(o.scheme, authority, o.path, q, o.fragment)
  {
    Assemble(NewOuter(o, authority, q), authority);
    assert Hashes(0) == [] && Hashes(1) == ['#'];
  }

  lemma ReplaceFull(url: Bytes, o: Outer, n: Inner, q: Bytes)
    requires Accepted(url, false, Compat, o, n) && o.scheme != [] && Clean(q)
    requires q != [] || o.path != [] || o.fragment == []
    ensures var v := FullView(o, n); ReadUrl(Replaced(v, q), Compat) == Some(v.(query := q))
  {
    hide Legal, Render, RenderHost, LegalHost, CreateUrl, ServerText,
         ReadFull, ReadPartial, ValidScheme, Decimal, ToDecimal;
    var v, h := FullView(o, n), NewHost(n);
    var p := NewOuter(o, v.authority, q);
    NewHostIs(n, '@' in o.server);
    HostIsServer(h);
    CleanIsQuery(q);
    NewLegal(o, v.authority, q);
    NewRender(o, v.authority, q);
    assert Accepted(Replaced(v, q), false, Compat, p, h);
    SchemeSeen(p, Compat);
    FullIs(Replaced(v, q), Compat, p, h);
    NotSlash(p);
  }

  lemma NotSlash(o: Outer)
    requires o.scheme != [] && o.delim == 3
    ensures Render(o) != ['/']
  {
    assert |Render(o)| >= 4 by { RenderLength(o); }
  }

  /** After a host without path the machine does not take '#'. */
  lemma HashAfterHost(p: Outer, rest: Bytes)
    requires Legal(p, false, Compat) && p.server != [] && p.path == [] && !p.mark && p.hashes == 0
    ensures WalkAll(Start(false), Render(p) + ['#'] + rest, Compat).s.Dead?
  {
    hide Render, WalkAll, SpansOf, LastField;
    WalkRender(p, false, Compat);
    WalkMore(Start(false), Render(p), '#', Compat);
    DeadForever(Start(false), Render(p) + ['#'], rest, Compat);
  }

  lemma ReplaceFullFails(url: Bytes, o: Outer, n: Inner)
    requires Accepted(url, false, Compat, o, n) && o.scheme != [] && o.path == [] && o.fragment != []
    ensures ReadUrl(Replaced(FullView(o, n), []), Compat).None?
  {
    hide Legal, Render, RenderHost, LegalHost, CreateUrl, ServerText, ValidScheme, Decimal, ToDecimal, WalkAll,
         ShownAuthority, ReadPartial;
    var v, h := FullView(o, n), NewHost(n);
    var p := NewOuter(o.(fragment := []), v.authority, []);
    NewHostIs(n, '@' in o.server);
    HostIsServer(h);
    WholeNotEmpty(h, false);
    CutFragment(o, v.authority);
    NewRender(o.(fragment := []), v.authority, []);
    var t := Replaced(v, []);
    NoQueryText(o.scheme, v.authority, o.fragment);
    HashAfterHost(p, o.fragment);
    SchemeText(o);
    assert t == o.scheme + DELIM + (v.authority + ['#'] + o.fragment);
    SchemePrefix(o.scheme, v.authority + ['#'] + o.fragment);
  }

  lemma CutFragment(o: Outer, authority: Bytes)
    requires Legal(o, false, Compat) && o.scheme != [] && ServerText(authority)
    ensures Legal(NewOuter(o.(fragment := []), authority, []), false, Compat)
  {
  }

  lemma SchemeText(o: Outer)
    requires Legal(o, false, Compat)
    ensures AllAlpha(o.scheme)
  {
  }

  lemma NoQueryText(scheme: Bytes, authority: Bytes, fragment: Bytes)
    requires scheme != [] && fragment != []
    ensures CreateUrl(scheme, authority, [], [], fragment)
            == CreateUrl(scheme, authority, [], [], []) + ['#'] + fragment
    ensures CreateUrl(scheme, authority, [], [], fragment) == scheme + DELIM + (authority + ['#'] + fragment)
  {
  }

  // ----- URLs without a scheme -----

  function NewRef(r: Ref, q: Bytes): Ref { Ref(r.authority, r.path, q != [], q, r.fragment != [], r.fragment) }

  lemma NewRefText(r: Ref, q: Bytes)
    requires ReadAuthority(r.authority).Some?
    ensures RefText(NewRef(r, q)) == Replaced(PartialView(r), q)
  {
    hide ReadAuthority;
  }

  lemma NewRefShaped(r: Ref, q: Bytes)
    requires ShapedRef(r) && Clean(q)
    ensures ShapedRef(NewRef(r, q))
  {
  }

  /** The bytes of a URL with another query are valid. */
  lemma NewRefBytes(r: Ref, q: Bytes)
    requires ValidBytes(RefText(r), Compat) && Clean(q) && (!r.hash ==> r.fragment == [])
    ensures ValidBytes(RefText(NewRef(r, q)), Compat)
  {
    RefSlices(r);
    var url := RefText(r);
    var a, front := |r.authority|, |r.authority| + |r.path|;
    assert ValidBytes(url[..a], Compat) && ValidBytes(url[a..front], Compat);
    assert ValidBytes(r.fragment, Compat) by {
      assert r.hash ==> ValidBytes(url[|url| - |r.fragment|..], Compat);
    }
  }

  lemma ReplacePartial(r: Ref, q: Bytes)
    requires LegalRef(r, Compat) && Clean(q) && (q != [] || Sturdy(PartialView(r)))
    ensures var v := PartialView(r); ReadUrl(Replaced(v, q), Compat) == Some(v.(query := q))
  {
    hide ShapedRef, ReadAuthority, ValidBytes, RefText, ReadPartial, ReadFull, ValidScheme, CreateUrl;
    var p := NewRef(r, q);
    NewRefText(r, q);
    NewRefShaped(r, q);
    RefBasics(r, Compat);
    NewRefBytes(r, q);
    NewRefSome(r, q);
    NotFull(p);
    PartialIs(p, Compat);
    SlashIsPartial(Compat);
  }

  lemma NewRefSome(r: Ref, q: Bytes)
    ensures q != [] || r.authority != [] || r.path != [] || r.fragment != [] ==> RefText(NewRef(r, q)) != []
  {
  }

  lemma ReplacePartialFails(r: Ref)
    requires LegalRef(r, Compat) && !Sturdy(PartialView(r))
    ensures ReadUrl(Replaced(PartialView(r), []), Compat).None?
  {
    hide ShapedRef, ReadAuthority, ValidBytes, RefText, ReadFull, ValidScheme, CreateUrl, First;
    var p := NewRef(r, []);
    NewRefText(r, []);
    NewRefShaped(r, []);
    RefBasics(r, Compat);
    NotFull(p);
    RefSearch(p);
    NewRefEmpty(r);
    if '?' in r.fragment {
      MarkSomewhere(p);
    }
  }

  lemma NewRefEmpty(r: Ref)
    ensures r.authority == [] && r.path == [] && r.fragment == [] ==> RefText(NewRef(r, [])) == []
    ensures r.fragment != [] ==> |RefText(NewRef(r, []))| > |r.authority| + |r.path| + 1
    ensures RefText(NewRef(r, [])) != ['/'] || r.path == ['/'] || r.authority == ['/']
  {
    var t := RefText(NewRef(r, []));
    assert r.fragment != [] ==> t[|r.authority| + |r.path|] == '#';
    assert r.fragment == [] ==> t == r.authority + r.path;
  }

  lemma MarkSomewhere(r: Ref)
    requires r.hash && '?' in r.fragment
    ensures First(RefText(r), '?') < |RefText(r)|
  {
    var t := RefText(r);
    hide First;
    assert t[..|t|] == t;
    RefSlices(r);
    var i :| 0 <= i < |r.fragment| && r.fragment[i] == '?';
    assert t[|t| - |r.fragment|..][i] == t[|t| - |r.fragment| + i];
  }

  // ----- both -----

  /** Replacing the query of a readable URL works exactly when there is a query to print or the URL is sturdy. */
  lemma ReplaceExact(url: Bytes, q: Bytes)
    requires ReadUrl(url, Compat).Some? && Clean(q)
    ensures var v := ReadUrl(url, Compat).value;
            if q != [] || Sturdy(v) then ReadUrl(Replaced(v, q), Compat) == Some(v.(query := q))
            else ReadUrl(Replaced(v, q), Compat).None?
  {
    hide ReadFull, ReadPartial, ValidScheme, CreateUrl, Accepted, LegalRef, FullView, ReadAuthority;
    var v := ReadUrl(url, Compat).value;
    SlashIsPartial(Compat);
    if ValidScheme(url) {
      var o, n := FullShape(url, Compat);
      FullIs(url, Compat, o, n);
      FullViewFields(url, o, n);
      if q != [] || Sturdy(v) {
        ReplaceFull(url, o, n, q);
      } else {
        ReplaceFullFails(url, o, n);
      }
    } else {
      var r := PartialShape(url, Compat);
      RefBasics(r, Compat);
      PartialIs(r, Compat);
      if q != [] || Sturdy(v) {
        ReplacePartial(r, q);
      } else {
        ReplacePartialFails(r);
      }
    }
  }

  lemma FullViewFields(url: Bytes, o: Outer, n: Inner)
    requires Accepted(url, false, Compat, o, n)
    ensures AllDigits(n.port)
    ensures var v := FullView(o, n);
            v.scheme == o.scheme && v.path == o.path && v.fragment == o.fragment && v.query == o.query
  {
  }

  /** The query of a readable URL is clean text. */
  lemma QueryRead(url: Bytes)
    requires ReadUrl(url, Compat).Some?
    ensures Clean(ReadUrl(url, Compat).value.query)
  {
    hide ReadFull, ReadPartial, ValidScheme, FullView, ReadAuthority, RenderHost, Render, WholeHost;
    SlashIsPartial(Compat);
    if ValidScheme(url) {
      var o, n := FullShape(url, Compat);
      FullIs(url, Compat, o, n);
      FullViewFields(url, o, n);
      QueryIsClean(o.query);
    } else {
      var r := PartialShape(url, Compat);
      PartialIs(r, Compat);
      RefQueryClean(r);
    }
  }

  lemma RefQueryClean(r: Ref)
    requires LegalRef(r, Compat)
    ensures Clean(r.query)
  {
    hide ReadAuthority, RefText;
    RefSlices(r);
    var url, k := RefText(r), |r.authority| + |r.path| + 1;
    forall i | 0 <= i < |r.query|
      ensures ValidByte(r.query[i], Compat)
    {
      assert r.query[i] == url[k..k + |r.query|][i] == url[k + i];
    }
    assert forall i | 0 <= i < |r.query| :: r.query[i] in r.query;
  }
}
