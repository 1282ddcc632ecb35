/** ParseURL::parse: the full form with a scheme, the partial form without one, and the object that holds the result. */
module UrlReading {
  import opened HttpTypes
  import opened UrlOuter
  import opened UrlHost
  import opened UrlParser
  import opened UrlTiling
  import opened UrlText

  // ----- searching -----

  predicate DelimAt(t: Bytes, j: nat) { j + 3 <= |t| && t[j] == ':' && t[j + 1] == '/' && t[j + 2] == '/' }

  /** The position of the first "://", or the length if there is none. */
  function FirstDelim(t: Bytes): (i: nat)
    ensures i <= |t| && (i < |t| ==> DelimAt(t, i))
    ensures forall j: nat | j < i :: !DelimAt(t, j)
  {
    if t == [] || DelimAt(t, 0) then 0
    else
      var i := FirstDelim(t[1..]);
      assert forall j: nat | 0 < j :: DelimAt(t, j) ==> DelimAt(t[1..], j - 1);
      1 + i
  }

  /** validateScheme */
  predicate ValidScheme(url: Bytes)
  {
    var k := FirstDelim(url);
    0 < k < |url| && AllAlpha(url[..k])
  }

  lemma SchemePrefix(scheme: Bytes, rest: Bytes)
    requires AllAlpha(scheme) && scheme != []
    ensures ValidScheme(scheme + DELIM + rest)
  {
    hide FirstDelim;
    var url, k := scheme + DELIM + rest, |scheme|;
    assert DelimAt(url, k) && forall i | 0 <= i < k :: url[i] == scheme[i];
    assert FirstDelim(url) <= k;
  }

  lemma SchemeSeen(o: Outer, mode: Mode)
    requires Legal(o, false, mode) && o.delim == 3
    ensures ValidScheme(Render(o))
  {
    hide ValidScheme;
    assert DELIM[..3] == DELIM;
    SchemePrefix(o.scheme, o.server + o.path + QueryPart(o) + Hashes(o.hashes) + o.fragment);
    assert Render(o) == o.scheme + DELIM + (o.server + o.path + QueryPart(o) + Hashes(o.hashes) + o.fragment);
  }

  /** Without a scheme, a URL is empty or starts with a path. */
  lemma NoScheme(o: Outer, mode: Mode)
    requires Legal(o, false, mode)
    ensures o.scheme == [] && Render(o) != [] ==> !IsAlpha(Render(o)[0])
  {
    hide PathText, QueryText, FragmentText, ServerText;
    if o.scheme == [] && o.path != [] {
      assert Front(o)[0] == o.path[0];
    }
    assert Hashes(0) == [];
  }

  lemma SchemeThere(o: Outer, mode: Mode)
    requires Legal(o, false, mode) && ValidScheme(Render(o))
    ensures o.scheme != []
  {
    hide Legal, Render;
    DelimSmall(o, false, mode);
    var url := Render(o);
    assert IsAlpha(url[..FirstDelim(url)][0]);
    NoScheme(o, mode);
  }

  // ----- the full form -----

  function ReadFull(url: Bytes, mode: Mode): Option<View>
  {
    var r := Passes(url, false, mode);
    if r.None? then None
    else if Port !in r.value then Some(ViewOf(url, r.value, 0))
    else
      var digits := Slice(url, r.value[Port]);
      if AllDigits(digits) && Decimal(digits) <= MAX_PORT then Some(ViewOf(url, r.value, Decimal(digits))) else None
  }

  lemma FullIs(url: Bytes, mode: Mode, o: Outer, n: Inner)
    requires Accepted(url, false, mode, o, n) && o.scheme != []
    ensures ReadFull(url, mode) == Some(FullView(o, n))
  {
    hide Described, Passes, Fields, ViewOf, FullView, Slice;
    PassesDescribed(url, false, mode, o, n);
    SliceIs(url, false, mode, o, n, Port);
    FieldsOf(url, false, mode, o, n);
    ViewIs(url, mode, o, n);
  }

  lemma FullShape(url: Bytes, mode: Mode) returns (o: Outer, n: Inner)
    requires ReadFull(url, mode).Some? && ValidScheme(url)
    ensures Accepted(url, false, mode, o, n) && o.scheme != []
  {
    hide Legal, Render, RenderHost, Passes, Fields, ViewOf, FullView, ValidScheme, WholeHost;
    o, n := PassesShape(url, false, mode);
    FieldsOf(url, false, mode, o, n);
    SchemeThere(o, mode);
    DecimalNothing();
  }

  // ----- the partial form -----

  /** validateURL */
  predicate ValidByte(c: Byte, mode: Mode)
  {
    c as int > 0x20 && c as int != 0x7f && (c as int > 0x7f ==> mode != Mode.Strict)
  }

  /** Both forms take the same bytes. */
  lemma SameBytes(c: Byte, mode: Mode)
    requires !mode.Loose?
    ensures ValidByte(c, mode) <==> (IsUrlByte(c, mode) && !Deadly(c, mode)) || c == '?' || c == '#'
  {
  }

  predicate ValidBytes(t: Bytes, mode: Mode) { forall i | 0 <= i < |t| :: ValidByte(t[i], mode) }

  /** parseAuthority: the host and the port of an authority, unless it is malformed. */
  function ReadAuthority(a: Bytes): Option<(Bytes, nat)>
  {
    var right := First(a, ']');
    var from := if right < |a| then right else 0;
    AuthorityAt(a, First(a, '['), right, from + First(a[from..], ':'))
  }

  /** An authority whose first brackets are at these positions, and its colon at `pos`. */
  function AuthorityAt(a: Bytes, left: nat, right: nat, pos: nat): Option<(Bytes, nat)>
    requires left <= |a| && right <= |a| && pos <= |a|
  {
    var digits := if pos < |a| then a[pos + 1..] else [];
    if pos < |a| && !(digits != [] && AllDigits(digits) && Decimal(digits) <= MAX_PORT) then None
    else
      var port := if pos < |a| then Decimal(digits) else 0;
      if left == |a| && right == |a| then Some((a[..pos], port))
      else if left < right < |a| then Some((a[left..right + 1], port))
      else None
  }

  // ----- authorities as text -----

  /**
   * An authority is a name, or holds an address in brackets with any text before it and any but a colon behind it;
   * and it may end in a colon and a port.
   */
  datatype Authority =
    | Named(name: Bytes, port: Option<Bytes>)
    | Bracketed(before: Bytes, address: Bytes, behind: Bytes, port: Option<Bytes>)

  predicate ProperPort(port: Option<Bytes>)
  {
    port.Some? ==> port.value != [] && AllDigits(port.value) && Decimal(port.value) <= MAX_PORT
  }

  predicate ProperAuthority(d: Authority)
  {
    && ProperPort(d.port)
    && match d
       case Named(name, _) => ':' !in name && '[' !in name && ']' !in name
       case Bracketed(before, address, behind, _) =>
         '[' !in before && ']' !in before && ']' !in address && ':' !in behind
  }

  function PortText(port: Option<Bytes>): Bytes { if port.Some? then [':'] + port.value else [] }

  function AsText(d: Authority): Bytes
  {
    match d
    case Named(name, port) => name + PortText(port)
    case Bracketed(before, address, behind, port) =>
      before + ['['] + address + [']'] + behind + PortText(port)
  }

  function ReadAs(d: Authority): (Bytes, nat)
    requires ProperAuthority(d)
  {
    (match d case Named(name, _) => name case Bracketed(_, address, _, _) => ['['] + address + [']'],
     if d.port.Some? then Decimal(d.port.value) else 0)
  }

  lemma DigitsPlain(t: Bytes)
    requires AllDigits(t)
    ensures ':' !in t && '[' !in t && ']' !in t
  {
  }

  lemma NamedIs(d: Authority)
    requires ProperAuthority(d) && d.Named?
    ensures ReadAuthority(AsText(d)) == Some(ReadAs(d))
  {
    hide First, Decimal, AllDigits, AuthorityAt;
    var a, n := AsText(d), |d.name|;
    if d.port.Some? {
      DigitsPlain(d.port.value);
      assert a[n + 1..] == d.port.value;
    }
    assert a[..n] == d.name && a[..|a|] == a && a[0..] == a;
    FirstIs(a, '[', |a|);
    FirstIs(a, ']', |a|);
    FirstIs(a, ':', n);
    PortAt(a, |a|, |a|, n, d.port);
  }

  lemma BracketsFound(d: Authority)
    requires ProperAuthority(d) && d.Bracketed?
    ensures var a, left, right := AsText(d), |d.before|, |d.before| + 1 + |d.address|;
            && IsFirst(a, '[', left) && IsFirst(a, ']', right) && left < right < |a|
            && a[left..right + 1] == ['['] + d.address + [']'] && a[right..] == [']'] + d.behind + PortText(d.port)
  {
    hide First, ProperPort, PortText;
    var a, left, right := AsText(d), |d.before|, |d.before| + 1 + |d.address|;
    assert a[..left] == d.before && a[..right] == d.before + ['['] + d.address;
    FirstIs(a, '[', left);
    FirstIs(a, ']', right);
  }

  lemma PortFound(front: Bytes, port: Option<Bytes>)
    requires ':' !in front && ProperPort(port)
    ensures var t := front + PortText(port);
            && IsFirst(t, ':', |front|) && |front| <= |t|
            && port == if |front| < |t| then Some(t[|front| + 1..]) else None
  {
    hide First, ProperPort;
    var t := front + PortText(port);
    assert t[..|front|] == front;
    FirstIs(t, ':', |front|);
    assert port.Some? ==> t[|front| + 1..] == port.value;
  }

  lemma SliceTwice(a: Bytes, i: nat, j: nat)
    requires i <= |a| && j <= |a| - i
    ensures a[i..][j..] == a[i + j..]
  {
  }

  /** The same with the port given as text. */
  lemma PortAt(a: Bytes, left: nat, right: nat, pos: nat, port: Option<Bytes>)
    requires left <= |a| && right <= |a| && pos <= |a| && ProperPort(port)
    requires port == if pos < |a| then Some(a[pos + 1..]) else None
    requires left == right == |a| || left < right < |a|
    ensures AuthorityAt(a, left, right, pos) ==
            Some((if right == |a| then a[..pos] else a[left..right + 1],
                  if port.Some? then Decimal(port.value) else 0))
  {
    hide Decimal, AllDigits;
  }

  lemma BracketedAt(a: Bytes, left: nat, right: nat, colon: nat, port: Option<Bytes>)
    requires IsFirst(a, '[', left) && IsFirst(a, ']', right) && left < right < |a|
    requires IsFirst(a[right..], ':', colon) && right + colon <= |a| && ProperPort(port)
    requires port == if right + colon < |a| then Some(a[right + colon + 1..]) else None
    ensures ReadAuthority(a) == Some((a[left..right + 1], if port.Some? then Decimal(port.value) else 0))
  {
    hide First, IsFirst, ReadAuthority, AuthorityAt, ProperPort, Decimal;
    FoundAuthority(a, left, right, colon);
    PortAt(a, left, right, right + colon, port);
  }

  lemma BracketedIs(d: Authority)
    requires ProperAuthority(d) && d.Bracketed?
    ensures ReadAuthority(AsText(d)) == Some(ReadAs(d))
  {
    hide First, IsFirst, Decimal, AsText, ReadAuthority, ProperPort, PortText;
    var a, left, right := AsText(d), |d.before|, |d.before| + 1 + |d.address|;
    var front := [']'] + d.behind;
    BracketsFound(d);
    PortFound(front, d.port);
    if right + |front| < |a| {
      SliceTwice(a, right, |front| + 1);
    }
    BracketedAt(a, left, right, |front|, d.port);
  }

  /** A text is cut at its first colon. */
  lemma PortCut(t: Bytes) returns (front: Bytes, port: Option<Bytes>)
    ensures t == front + PortText(port) && ':' !in front && |front| == First(t, ':')
    ensures port == if |front| < |t| then Some(t[|front| + 1..]) else None
  {
    hide First;
    var pos := First(t, ':');
    front, port := t[..pos], if pos < |t| then Some(t[pos + 1..]) else None;
  }

  lemma NamedShape(a: Bytes) returns (d: Authority)
    requires ReadAuthority(a).Some? && First(a, ']') == |a|
    ensures ProperAuthority(d) && AsText(d) == a
  {
    hide ReadAuthority, First, ProperPort, PortText;
    var front, port := PortCut(a);
    NoBrackets(a, front, port);
    d := Named(front, port);
  }

  /** An authority without brackets, cut at its first colon. */
  lemma NoBrackets(a: Bytes, front: Bytes, port: Option<Bytes>)
    requires ReadAuthority(a).Some? && First(a, ']') == |a| && |front| == First(a, ':')
    requires a == front + PortText(port) && port == if |front| < |a| then Some(a[|front| + 1..]) else None
    ensures '[' !in front && ']' !in front && ProperPort(port)
  {
    hide First, Decimal, AllDigits, PortText;
    assert a[0..] == a;
    assert First(a, '[') == |a|;
    LacksAll(a, '[', front);
    LacksAll(a, ']', front);
  }

  lemma LacksAll(a: Bytes, c: Byte, front: Bytes)
    requires First(a, c) == |a| && front <= a
    ensures c !in front
  {
    hide First;
    assert a[..|a|] == a;
  }

  lemma BracketedShape(a: Bytes) returns (d: Authority)
    requires ReadAuthority(a).Some? && First(a, ']') < |a|
    ensures ProperAuthority(d) && AsText(d) == a
  {
    hide First, Decimal, AllDigits, PortText;
    var left, right := First(a, '['), First(a, ']');
    var front, port := PortCut(a[right..]);
    assert port.Some? ==> a[right..][|front| + 1..] == a[right + |front| + 1..];
    assert ProperPort(port);
    BracketsCut(a, left, right, front, port);
    d := Bracketed(a[..left], a[left + 1..right], front[1..], port);
  }

  lemma BracketsCut(a: Bytes, left: nat, right: nat, front: Bytes, port: Option<Bytes>)
    requires left < right < |a| && a[left] == '[' && a[right] == ']' && ']' !in a[..right]
    requires a[right..] == front + PortText(port) && ':' !in front && front != []
    ensures a == AsText(Bracketed(a[..left], a[left + 1..right], front[1..], port))
    ensures ']' !in a[..left] && ']' !in a[left + 1..right] && ':' !in front[1..]
  {
    hide PortText;
    PartLacks(a[..right], 0, left, ']');
    PartLacks(a[..right], left + 1, right, ']');
    PartLacks(front, 1, |front|, ':');
    assert a[..right][..left] == a[..left] && a[..right][left + 1..right] == a[left + 1..right];
    assert front[0] == a[right..][0] == ']';
    BracketsText(a, left, right, front[1..], PortText(port));
  }

  lemma BracketsText(a: Bytes, left: nat, right: nat, behind: Bytes, port: Bytes)
    requires left < right < |a| && a[left] == '[' && a[right] == ']' && a[right + 1..] == behind + port
    ensures a == a[..left] + ['['] + a[left + 1..right] + [']'] + behind + port
  {
    assert a == a[..left] + [a[left]] + a[left + 1..right] + [a[right]] + a[right + 1..];
  }

  lemma PartLacks(t: Bytes, i: nat, j: nat, c: Byte)
    requires i <= j <= |t| && c !in t
    ensures c !in t[i..j]
  {
  }

  /** An authority is read exactly if it is such a text, and then as its host and port. */
  lemma AuthorityExact(a: Bytes)
    ensures ReadAuthority(a).Some? <==> exists d: Authority :: ProperAuthority(d) && AsText(d) == a
    ensures forall d: Authority | ProperAuthority(d) && AsText(d) == a :: ReadAuthority(a) == Some(ReadAs(d))
  {
    hide ReadAuthority, ProperAuthority, AsText, ReadAs;
    forall d: Authority | ProperAuthority(d) && AsText(d) == a
      ensures ReadAuthority(a) == Some(ReadAs(d))
    {
      if d.Named? {
        NamedIs(d);
      } else {
        BracketedIs(d);
      }
    }
    if ReadAuthority(a).Some? {
      var d := AnyShape(a);
    }
  }

  lemma AnyShape(a: Bytes) returns (d: Authority)
    requires ReadAuthority(a).Some?
    ensures ProperAuthority(d) && AsText(d) == a
  {
    hide ReadAuthority, First, ProperAuthority, AsText;
    if First(a, ']') == |a| {
      d := NamedShape(a);
    } else {
      d := BracketedShape(a);
    }
  }

  function ReadPartial(url: Bytes, mode: Mode): Option<View>
  {
    if url == [] || !ValidBytes(url, mode) then None
    else ReadParts(url, First(url, '/'), First(url, '?'), First(url, '#'))
  }

  /** The parts of a URL whose first '/', '?' and '#' are at these positions. */
  function ReadParts(url: Bytes, pathStart: nat, queryStart: nat, hashStart: nat): Option<View>
    requires pathStart <= |url| && queryStart <= |url| && hashStart <= |url|
  {
    var pathEnd := Min(queryStart, hashStart);
    var authority := url[..Min(pathStart, pathEnd)];
    var path := if pathStart < pathEnd then url[pathStart..pathEnd] else [];
    if !(queryStart < hashStart) && queryStart < |url| && hashStart < queryStart then None
    else
      var query := if queryStart < hashStart then url[queryStart + 1..hashStart] else [];
      var fragment := if hashStart < |url| then url[hashStart + 1..] else [];
      var a := ReadAuthority(authority);
      if a.None? then None else Some(View([], authority, a.value.0, a.value.1, path, query, fragment))
  }

  function Min(a: nat, b: nat): (r: nat) { if a <= b then a else b }

  lemma MinIs(a: nat, b: nat)
    ensures Min(a, b) <= a && Min(a, b) <= b
  {
  }

  /** A URL without a scheme as text. */
  datatype Ref = Ref(authority: Bytes, path: Bytes, mark: bool, query: Bytes, hash: bool, fragment: Bytes)

  function RefText(r: Ref): Bytes
  {
    r.authority + r.path + (if r.mark then ['?'] + r.query else []) + (if r.hash then ['#'] + r.fragment else [])
  }

  predicate Lacks(t: Bytes, c: Byte) { c !in t }

  /** The parts stand where the searches for '/', '?' and '#' put them, as far as the first '#'. */
  predicate ShapedRef(r: Ref)
  {
    && Lacks(r.authority, '/') && Lacks(r.authority, '?') && Lacks(r.authority, '#')
    && (r.path != [] ==> r.path[0] == '/') && Lacks(r.path, '?') && Lacks(r.path, '#')
    && Lacks(r.query, '#') && (!r.mark ==> r.query == []) && (!r.hash ==> r.fragment == [])
  }

  predicate LegalRef(r: Ref, mode: Mode)
  {
    && ShapedRef(r) && RefText(r) != [] && ValidBytes(RefText(r), mode)
    && (!r.mark ==> Lacks(r.fragment, '?'))
    && ReadAuthority(r.authority).Some?
  }

  function PartialView(r: Ref): View
    requires ReadAuthority(r.authority).Some?
  {
    var a := ReadAuthority(r.authority).value;
    View([], r.authority, a.0, a.1, r.path, r.query, r.fragment)
  }

  lemma FindMark(r: Ref)
    requires ShapedRef(r)
    ensures var url, front := RefText(r), |r.authority| + |r.path|;
            && (if r.mark then First(url, '?') == front else First(url, '?') >= Min(|url|, front + 1))
            && (!r.mark && '?' !in r.fragment ==> First(url, '?') == |url|)
  {
    hide First;
    var url, front := RefText(r), r.authority + r.path;
    assert url[..|front|] == front && url[..|url|] == url;
    assert forall k | 0 <= k < |front| :: url[k] == url[..|front|][k];
    if r.mark {
      FirstIs(url, '?', |front|);
    } else if '?' !in r.fragment {
      FirstIs(url, '?', |url|);
    }
  }

  lemma FindHash(r: Ref)
    requires ShapedRef(r)
    ensures var url, front := RefText(r), |r.authority| + |r.path|;
            First(url, '#') == (if r.hash then front + (if r.mark then 1 + |r.query| else 0) else |url|)
  {
    hide First;
    var url, upto := RefText(r), r.authority + r.path + (if r.mark then ['?'] + r.query else []);
    assert url == upto + (if r.hash then ['#'] + r.fragment else []);
    assert url[..|upto|] == upto && url[..|url|] == url;
    FirstIs(url, '#', if r.hash then |upto| else |url|);
  }

  lemma FindSlash(r: Ref)
    requires ShapedRef(r)
    ensures var url, front := RefText(r), |r.authority| + |r.path|;
            if r.path != [] then First(url, '/') == |r.authority| else First(url, '/') >= Min(|url|, front + 1)
  {
    hide First;
    var url, a := RefText(r), |r.authority|;
    assert url[..a] == r.authority;
    assert forall k | 0 <= k < a :: url[k] == url[..a][k];
    if r.path != [] {
      FirstIs(url, '/', a);
    }
  }

  /** Where the searches find the delimiters. */
  lemma RefSearch(r: Ref)
    requires ShapedRef(r)
    ensures var url := RefText(r);
            var front := |r.authority| + |r.path|;
            && (if r.mark then First(url, '?') == front else First(url, '?') >= Min(|url|, front + 1))
            && (!r.mark && '?' !in r.fragment ==> First(url, '?') == |url|)
            && First(url, '#') == (if r.hash then front + (if r.mark then 1 + |r.query| else 0) else |url|)
            && (if r.path != [] then First(url, '/') == |r.authority| else First(url, '/') >= Min(|url|, front + 1))
  {
    hide First, RefText, ShapedRef;
    FindMark(r);
    FindHash(r);
    FindSlash(r);
  }

  lemma RefSlices(r: Ref)
    ensures var url, a, front := RefText(r), |r.authority|, |r.authority| + |r.path|;
            && front <= |url| && url[..a] == r.authority && url[a..front] == r.path
            && (r.mark ==> front + 1 + |r.query| <= |url| && url[front + 1..front + 1 + |r.query|] == r.query)
            && (r.hash ==> |url| > |r.fragment| && url[|url| - |r.fragment|..] == r.fragment)
            && (!r.hash ==> |url| == front + if r.mark then 1 + |r.query| else 0)
            && (r.hash ==> |url| == front + 1 + |r.fragment| + if r.mark then 1 + |r.query| else 0)
  {
  }

  lemma RefBasics(r: Ref, mode: Mode)
    requires LegalRef(r, mode)
    ensures RefText(r) != [] && ValidBytes(RefText(r), mode) && ReadAuthority(r.authority).Some?
    ensures ShapedRef(r) && (!r.mark ==> Lacks(r.fragment, '?'))
    ensures (!r.mark ==> r.query == []) && (!r.hash ==> r.fragment == [])
  {
  }

  /** std::string::find */
  predicate IsFirst(t: Bytes, c: Byte, i: nat) { i == First(t, c) }

  method Find(t: Bytes, c: Byte) returns (i: nat)
    ensures IsFirst(t, c, i) && i <= |t|
  {
    i := 0;
    assert t[0..] == t;
    while i < |t| && t[i] != c
      invariant i <= |t| && i + First(t[i..], c) == First(t, c)
    {
      assert t[i..][1..] == t[i + 1..];
      i := i + 1;
    }
  }

  lemma FoundParts(url: Bytes, mode: Mode, p: nat, q: nat, h: nat)
    requires url != [] && ValidBytes(url, mode) && IsFirst(url, '/', p) && IsFirst(url, '?', q) && IsFirst(url, '#', h)
    ensures p <= |url| && q <= |url| && h <= |url| && ReadPartial(url, mode) == ReadParts(url, p, q, h)
  {
    hide ReadParts, First, ValidBytes;
  }

  lemma FoundAuthority(a: Bytes, left: nat, right: nat, colon: nat)
    requires IsFirst(a, '[', left) && IsFirst(a, ']', right) && right <= |a|
    requires var from := if right < |a| then right else 0; IsFirst(a[from..], ':', colon)
    ensures var from := if right < |a| then right else 0;
            left <= |a| && from + colon <= |a| && ReadAuthority(a) == AuthorityAt(a, left, right, from + colon)
  {
    hide First, AuthorityAt;
  }

  lemma NoParts(url: Bytes, mode: Mode)
    requires url == [] || !ValidBytes(url, mode)
    ensures ReadPartial(url, mode).None?
  {
  }

  lemma PartsGiven(url: Bytes, p: nat, q: nat, h: nat)
    requires p <= |url| && q <= |url| && h <= |url|
    ensures h < q < |url| ==> ReadParts(url, p, q, h).None?
    ensures !(h < q < |url|) ==>
              var end := Min(q, h);
              var a := ReadAuthority(url[..Min(p, end)]);
              ReadParts(url, p, q, h) ==
              if a.None? then None
              else Some(View([], url[..Min(p, end)], a.value.0, a.value.1, if p < end then url[p..end] else [],
                             if q < h then url[q + 1..h] else [], if h < |url| then url[h + 1..] else []))
  {
    hide ReadAuthority;
  }

  lemma PartsAre(r: Ref, url: Bytes, p: nat, q: nat, h: nat)
    requires url == RefText(r) && p <= |url| && q <= |url| && h <= |url|
    requires var front := |r.authority| + |r.path|;
             && (if r.mark then q == front else q == |url|)
             && h == (if r.hash then front + (if r.mark then 1 + |r.query| else 0) else |url|)
             && (if r.path != [] then p == |r.authority| else p >= Min(|url|, front + 1))
    requires ReadAuthority(r.authority).Some?
    requires (!r.mark ==> r.query == []) && (!r.hash ==> r.fragment == [])
    ensures ReadParts(url, p, q, h) == Some(PartialView(r))
  {
    hide ReadAuthority, RefText;
    RefSlices(r);
  }

  /** A legal text is read as its parts. */
  lemma PartialIs(r: Ref, mode: Mode)
    requires LegalRef(r, mode)
    ensures ReadPartial(RefText(r), mode) == Some(PartialView(r))
  {
    hide ReadAuthority, ValidBytes, LegalRef, ShapedRef, RefText, First, ReadParts;
    RefBasics(r, mode);
    RefSearch(r);
    var url := RefText(r);
    PartsAre(r, url, First(url, '/'), First(url, '?'), First(url, '#'));
  }

  /** The pieces between a cut, the first '?' and the first '#'. */
  function RefAt(url: Bytes, cut: nat, q: nat, h: nat): Ref
    requires cut <= q <= |url| && cut <= h <= |url| && (q < |url| ==> q < h)
  {
    Ref(url[..cut], url[cut..Min(q, h)], q < |url|, if q < |url| then url[q + 1..h] else [],
        h < |url|, if h < |url| then url[h + 1..] else [])
  }

  lemma Rejoin(url: Bytes, i: nat, c: Byte, j: nat)
    requires i < j <= |url| && url[i] == c
    ensures url[..i] + ([c] + url[i + 1..j]) == url[..j]
  {
  }

  lemma FrontPart(url: Bytes, cut: nat, q: nat, h: nat)
    requires cut <= q <= |url| && cut <= h <= |url| && (q < |url| ==> q < h && url[q] == '?')
    ensures url[..cut] + url[cut..Min(q, h)] + (if q < |url| then ['?'] + url[q + 1..h] else []) == url[..h]
  {
    var m := Min(q, h);
    assert url[..cut] + url[cut..m] == url[..m];
    if q < |url| {
      Rejoin(url, q, '?', h);
    }
  }

  lemma BackPart(url: Bytes, h: nat)
    requires h <= |url| && (h < |url| ==> url[h] == '#')
    ensures url[..h] + (if h < |url| then ['#'] + url[h + 1..] else []) == url
  {
    assert url[..|url|] == url;
    if h < |url| {
      Rejoin(url, h, '#', |url|);
      assert url[h + 1..|url|] == url[h + 1..];
    }
  }

  lemma Reassemble(url: Bytes, cut: nat, q: nat, h: nat)
    requires cut <= q <= |url| && cut <= h <= |url| && (q < |url| ==> q < h && url[q] == '?')
    requires h < |url| ==> url[h] == '#'
    ensures RefText(RefAt(url, cut, q, h)) == url
  {
    FrontPart(url, cut, q, h);
    BackPart(url, h);
  }

  lemma SliceLacks(t: Bytes, c: Byte, i: nat, j: nat)
    requires i <= j <= First(t, c)
    ensures Lacks(t[i..j], c)
  {
    hide First;
    var k := First(t, c);
    assert forall l | i <= l < j :: t[l] == t[..k][l];
  }

  lemma FrontShape(url: Bytes, cut: nat, stop: nat)
    requires stop <= First(url, '?') && stop <= First(url, '#') && cut == Min(First(url, '/'), stop)
    ensures Lacks(url[..cut], '/') && Lacks(url[..cut], '?') && Lacks(url[..cut], '#')
    ensures Lacks(url[cut..stop], '?') && Lacks(url[cut..stop], '#') && (cut < stop ==> url[cut] == '/')
  {
    hide First, Lacks;
    assert url[0..cut] == url[..cut];
    SliceLacks(url, '/', 0, cut);
    SliceLacks(url, '?', 0, cut);
    SliceLacks(url, '#', 0, cut);
    SliceLacks(url, '?', cut, stop);
    SliceLacks(url, '#', cut, stop);
  }

  lemma BackShape(url: Bytes, q: nat, h: nat)
    requires q == First(url, '?') && h == First(url, '#')
    ensures q < h ==> Lacks(url[q + 1..h], '#')
    ensures q == |url| && h < |url| ==> Lacks(url[h + 1..], '?')
  {
    hide First, Lacks;
    if q < h {
      SliceLacks(url, '#', q + 1, h);
    }
    if q == |url| && h < |url| {
      SliceLacks(url, '?', h + 1, |url|);
      assert url[h + 1..|url|] == url[h + 1..];
    }
  }

  /** Cut at the first '/', '?' and '#', a text has the shape. */
  lemma ShapeAt(url: Bytes, cut: nat, q: nat, h: nat)
    requires q == First(url, '?') && h == First(url, '#') && (q < |url| ==> q < h)
    requires cut == Min(First(url, '/'), Min(q, h))
    ensures var r := RefAt(url, cut, q, h); ShapedRef(r) && (!r.mark ==> Lacks(r.fragment, '?'))
  {
    hide First, Lacks, RefAt, ShapedRef;
    FrontShape(url, cut, Min(q, h));
    BackShape(url, q, h);
    ShapedBy(url, cut, q, h);
  }

  lemma ShapedBy(url: Bytes, cut: nat, q: nat, h: nat)
    requires cut <= q <= |url| && cut <= h <= |url| && (q < |url| ==> q < h)
    requires Lacks(url[..cut], '/') && Lacks(url[..cut], '?') && Lacks(url[..cut], '#')
    requires var path := url[cut..Min(q, h)]; Lacks(path, '?') && Lacks(path, '#')
    requires cut < Min(q, h) ==> url[cut] == '/'
    requires q < h ==> Lacks(url[q + 1..h], '#')
    requires q == |url| && h < |url| ==> Lacks(url[h + 1..], '?')
    ensures var r := RefAt(url, cut, q, h); ShapedRef(r) && (!r.mark ==> Lacks(r.fragment, '?'))
  {
    hide Lacks;
    NothingLacks('#');
    NothingLacks('?');
  }

  lemma NothingLacks(c: Byte)
    ensures Lacks([], c)
  {
  }

  /** Whatever is read is a legal text. */
  lemma PartialShape(url: Bytes, mode: Mode) returns (r: Ref)
    requires ReadPartial(url, mode).Some?
    ensures LegalRef(r, mode) && RefText(r) == url
  {
    hide ReadAuthority, ValidBytes, First, RefText, ShapedRef;
    var p, q, h := First(url, '/'), First(url, '?'), First(url, '#');
    var cut := Min(p, Min(q, h));
    r := RefAt(url, cut, q, h);
    Reassemble(url, cut, q, h);
    ShapeAt(url, cut, q, h);
  }

  /** The exact round trip for URLs without a scheme. */
  lemma PartialRoundTrip(r: Ref, mode: Mode)
    requires LegalRef(r, mode)
    ensures Print(PartialView(r)) == RefText(r) <==> (r.mark ==> r.query != []) && (r.hash ==> r.fragment != [])
  {
    hide ReadAuthority, ValidBytes, LegalRef;
    RefBasics(r, mode);
    if (r.mark ==> r.query != []) && (r.hash ==> r.fragment != []) {
      assert Print(PartialView(r)) == RefText(r);
    } else {
      assert |Print(PartialView(r))| < |RefText(r)|;
    }
  }

  // ----- no text is read in both ways -----

  lemma ColonLast(a: Bytes)
    requires a != [] && a[|a| - 1] == ':' && AllAlpha(a[..|a| - 1])
    ensures ReadAuthority(a).None?
  {
    hide First;
    assert forall i | 0 <= i < |a| - 1 :: a[i] == a[..|a| - 1][i];
    assert a[..|a|] == a && a[0..] == a && a[|a|..] == [];
    FirstIs(a, ']', |a|);
    FirstIs(a, ':', |a| - 1);
  }

  /** Text that looks like a URL with a scheme has an authority that ends in a colon. */
  lemma LooksFull(r: Ref)
    requires ShapedRef(r) && ValidScheme(RefText(r))
    ensures r.authority != [] && r.authority[|r.authority| - 1] == ':'
    ensures AllAlpha(r.authority[..|r.authority| - 1])
  {
    hide First, FirstDelim, RefText, ShapedRef;
    var url := RefText(r);
    var k := FirstDelim(url);
    RefSearch(r);
    RefSlices(r);
    assert forall i | 0 <= i < k :: url[i] == url[..k][i];
    assert forall i | 0 <= i < k :: IsAlpha(url[i]);
    assert '/' !in url[..k + 1];
    FirstIs(url, '/', k + 1);
    assert r.authority == url[..k + 1];
    assert url[..k + 1][..k] == url[..k];
  }

  /** A URL that the partial form reads has no scheme. */
  lemma NotFull(r: Ref)
    requires ShapedRef(r) && ReadAuthority(r.authority).Some?
    ensures !ValidScheme(RefText(r))
  {
    hide ShapedRef, ReadAuthority, ValidScheme;
    if ValidScheme(RefText(r)) {
      LooksFull(r);
      ColonLast(r.authority);
    }
  }

  // ----- the object -----

  function ReadUrl(url: Bytes, mode: Mode): Option<View>
  {
    if url == ['/'] then Some(View([], [], [], 0, ['/'], [], []))
    else if ValidScheme(url) then ReadFull(url, mode)
    else ReadPartial(url, mode)
  }

  /** The short cut for "/" gives what the partial form would. */
  lemma SlashIsPartial(mode: Mode)
    ensures ReadPartial(['/'], mode) == ReadUrl(['/'], mode) && !ValidScheme(['/'])
  {
    var r := Ref([], ['/'], false, [], false, []);
    assert RefText(r) == ['/'];
    AuthorityNothing();
    hide ReadAuthority, ReadPartial;
    PartialIs(r, mode);
  }

  lemma AuthorityNothing()
    ensures ReadAuthority([]) == Some(([], 0))
  {
  }

  /** What is accepted, and seen as a URL with a scheme, is read as its parts; and nothing else is read. */
  lemma FullExact(url: Bytes, mode: Mode)
    requires ValidScheme(url)
    ensures ReadFull(url, mode).Some? <==> exists o: Outer, n: Inner :: Accepted(url, false, mode, o, n)
    ensures forall o: Outer, n: Inner | Accepted(url, false, mode, o, n) ::
              o.scheme != [] && ReadFull(url, mode) == Some(FullView(o, n))
  {
    hide Legal, Render, RenderHost, ReadFull, FullView, ValidScheme, WholeHost;
    forall o: Outer, n: Inner | Accepted(url, false, mode, o, n)
      ensures o.scheme != [] && ReadFull(url, mode) == Some(FullView(o, n))
    {
      SchemeThere(o, mode);
      FullIs(url, mode, o, n);
    }
    if ReadFull(url, mode).Some? {
      var o, n := FullShape(url, mode);
    }
  }

  class ParseURL {
    const url: Bytes
    var scheme: Bytes
    var authority: Bytes
    var host: Bytes
    var port: nat
    var path: Bytes
    var query: Bytes
    var fragment: Bytes
    var valid: bool

    function Shown(): View
      reads this
    {
      View(scheme, authority, host, port, path, query, fragment)
    }

    constructor (url: Bytes)
      ensures this.url == url && !valid && Shown() == View([], [], [], 0, [], [], [])
    {
      this.url := url;
      scheme, authority, host, port, path, query, fragment := [], [], [], 0, [], [], [];
      valid := false;
    }

    method ParseAuthority() returns (ok: bool)
      requires port == 0
      modifies this`host, this`port
      ensures var r := ReadAuthority(authority);
              ok == r.Some? && (ok ==> host == r.value.0 && port == r.value.1)
      ensures ok ==> exists d: Authority :: ProperAuthority(d) && AsText(d) == authority
      ensures forall d: Authority | ProperAuthority(d) && AsText(d) == authority ::
                ok && (host, port) == ReadAs(d)
    {
      hide First, Decimal, ProperAuthority, AsText, ReadAs, ReadAuthority, IsFirst;
      AuthorityExact(authority);
      var left := Find(authority, '[');
      var right := Find(authority, ']');
      var from := if right < |authority| then right else 0;
      var colon := Find(authority[from..], ':');
      var pos := from + colon;
      FoundAuthority(authority, left, right, colon);
      if pos < |authority| {
        var digits := authority[pos + 1..];
        if digits == [] || !AllDigits(digits) || Decimal(digits) > MAX_PORT {
          return false;
        }
        port := Decimal(digits);
      }
      if left == |authority| && right == |authority| {
        host := authority[..pos];
        return true;
      } else if left < right && right < |authority| {
        host := authority[left..right + 1];
        return true;
      }
      return false;
    }

    method ParseNonFully(mode: Mode)
      requires Shown() == View([], [], [], 0, [], [], [])
      modifies this
      ensures var r := ReadPartial(url, mode); valid == r.Some? && (valid ==> Shown() == r.value)
    {
      hide First, ReadAuthority, ValidBytes, ReadPartial, ReadParts, Min, IsFirst;
      if url == [] || !ValidBytes(url, mode) {
        NoParts(url, mode);
        valid := false;
        return;
      }
      var pathStart := Find(url, '/');
      var queryStart := Find(url, '?');
      var hashStart := Find(url, '#');
      FoundParts(url, mode, pathStart, queryStart, hashStart);
      MinIs(queryStart, hashStart);
      MinIs(pathStart, Min(queryStart, hashStart));
      PartsGiven(url, pathStart, queryStart, hashStart);
      var pathEnd := Min(queryStart, hashStart);
      authority := url[..Min(pathStart, pathEnd)];
      if pathStart < pathEnd {
        path := url[pathStart..pathEnd];
      }
      if queryStart < hashStart {
        query := url[queryStart + 1..hashStart];
      } else if queryStart < |url| && hashStart < queryStart {
        valid := false;
        return;
      }
      if hashStart < |url| {
        fragment := url[hashStart + 1..];
      }
      valid := ParseAuthority();
    }

    /** Takes over the fields of the struct. */
    method Take(spans: Spans, p: nat)
      modifies this
      ensures valid == old(valid) && Shown() == ViewOf(url, spans, p)
    {
      hide Slice, HostSlice, ShownAuthority;
      scheme := Slice(url, SpanOf(spans, Schema));
      host := HostSlice(url, SpanOf(spans, Host));
      port := p;
      path := Slice(url, SpanOf(spans, Path));
      query := Slice(url, SpanOf(spans, Query));
      fragment := Slice(url, SpanOf(spans, Fragment));
      authority := ShownAuthority(host, port);
    }

    /** Reads the URL; its offsets are 16-bit numbers. */
    method Parse(mode: Mode)
      requires Shown() == View([], [], [], 0, [], [], []) && |url| <= 0xffff
      modifies this
      ensures var r := ReadUrl(url, mode); valid == r.Some? && (valid ==> Shown() == r.value)
    {
      hide ReadFull, ReadPartial, ValidScheme, Accepted, ViewOf, FullView, Fields, Decimal;
      if url == ['/'] {
        path := url;
        valid := true;
        return;
      }
      if ValidScheme(url) {
        var u := new UrlFields();
        var failed := u.ParseUrl(url, false, mode);
        FullExact(url, mode);
        valid := !failed;
        if valid {
          ghost var o, n :| Accepted(url, false, mode, o, n);
          ViewRead(url, mode, o, n);
          Take(u.spans, u.port);
        }
      } else {
        ParseNonFully(mode);
      }
    }
  }

  lemma ViewRead(url: Bytes, mode: Mode, o: Outer, n: Inner)
    requires ValidScheme(url) && Accepted(url, false, mode, o, n)
    ensures o.scheme != [] && AllDigits(n.port)
    ensures ReadFull(url, mode) == Some(FullView(o, n))
    ensures ViewOf(url, Fields(o, n), Decimal(n.port)) == FullView(o, n)
  {
    hide Legal, Render, RenderHost, ReadFull, FullView, ValidScheme, WholeHost, ViewOf, Fields;
    FullExact(url, mode);
    ViewIs(url, mode, o, n);
  }
}
