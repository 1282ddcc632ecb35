/** Bytes, character classes and the record types of the streaming HTTP/1.x parser. */
module HttpTypes {

  datatype Option<+T> = None | Some(value: T)

  /** One octet of input. */
  type Byte = c: char | c as int < 256 witness '\0'

  type Bytes = seq<Byte>

  datatype Header = Header(name: Bytes, value: Bytes)

  const CR: Byte := '\r'
  const LF: Byte := '\n'
  const HT: Byte := '\t'
  const QT: Byte := '\"'
  const BS: Byte := '\\'

  const INT64_MAX: int := 0x7FFF_FFFF_FFFF_FFFF
  const INT64_MIN: int := -0x8000_0000_0000_0000
  const TWO_TO_THE_32: int := 0x1_0000_0000

  const MAX_HEADER_SIZE: int := 80 * 1024

  // ----- character classes -----

  /** The bit operation `c | 0x20`. */
  function Lower(c: Byte): (r: Byte)
  {
    if c as int % 64 < 32 then (c as int + 32) as char else c
  }

  predicate IsAlpha(c: Byte) { 'a' <= c <= 'z' || 'A' <= c <= 'Z' }

  predicate IsNum(c: Byte) { '0' <= c <= '9' }

  predicate IsAlphaNum(c: Byte) { IsAlpha(c) || IsNum(c) }

  predicate IsHex(c: Byte) { IsNum(c) || 'a' <= c <= 'f' || 'A' <= c <= 'F' }

  predicate IsHostChar(c: Byte) { IsAlphaNum(c) || c == '.' || c == '-' || c == '_' }

  predicate IsUrlChar(c: Byte)
  {
    c as int == 9 || c as int == 12 || c as int >= 128
    || ('!' <= c <= '~' && c != '#' && c != '?')
  }

  /** Bytes that may appear in a header value. */
  predicate IsHeaderChar(c: Byte)
  {
    c == CR || c == LF || c == HT || (c as int > 31 && c as int != 127)
  }

  /** The `tokens` table: the bytes of a header name. */
  predicate IsToken(c: Byte)
  {
    IsAlphaNum(c) || c == '!' || c == '#' || c == '$' || c == '%' || c == '&' || c == '\'' || c == '*'
    || c == '+' || c == '-' || c == '.' || c == '^' || c == '_' || c == '`' || c == '|' || c == '~'
  }

  /** The lower case of a letter; the `tokens` table does the same. */
  function TokenLower(c: Byte): (r: Byte)
  {
    if 'A' <= c <= 'Z' then (c as int + 32) as char else c
  }

  function Digit(c: Byte): (d: nat)
    requires IsNum(c)
    ensures d < 10
  {
    c as int - '0' as int
  }

  /** The `unhex` table.  It has 128 initialisers, so the upper half holds 0 and not -1. */
  function Unhex(c: Byte): (v: int)
    ensures -1 <= v < 16
  {
    if IsNum(c) then c as int - '0' as int
    else if 'a' <= c <= 'f' then c as int - 'a' as int + 10
    else if 'A' <= c <= 'F' then c as int - 'A' as int + 10
    else if c as int >= 128 then 0
    else -1
  }

  // ----- what the classes are -----

  /** A token byte is a visible one that is not a delimiter (section 3.2.6 of RFC 7230). */
  lemma TokenBytes(c: Byte)
    ensures IsToken(c) <==> '!' <= c <= '~' && c !in "\"(),/:;<=>?@[\\]{}"
  {
    var delimiters := "\"(),/:;<=>?@[\\]{}";
    assert delimiters ==
           ['\"', '(', ')', ',', '/', ':', ';', '<', '=', '>', '?', '@', '[', '\\', ']', '{', '}'];
  }

  /** Both ways of folding case take exactly the two forms of a letter to its small one. */
  lemma LowerLetters(c: Byte, small: Byte)
    requires 'a' <= small <= 'z'
    ensures Lower(c) == small <==> c == small || c as int == small as int - 32
    ensures TokenLower(c) == small <==> c == small || c as int == small as int - 32
  {
  }

  /** Of the lower half of the bytes, exactly the hexadecimal digits have a value, whatever their case. */
  lemma HexBytes(c: Byte)
    ensures Unhex(c) == -1 <==> c as int < 128 && !IsHex(c)
    ensures IsHex(c) ==> Unhex(c) == Unhex(Lower(c)) >= 0
  {
  }

  // ----- the parser's enumerations -----

  datatype Method =
    | DELETE | GET | HEAD | POST | PUT | CONNECT | OPTIONS | TRACE | COPY | LOCK | MKCOL | MOVE
    | PROPFIND | PROPPATCH | UNLOCK | REPORT | MKACTIVITY | CHECKOUT | MERGE | MSEARCH | NOTIFY
    | SUBSCRIBE | UNSUBSCRIBE | PATCH

  function MethodName(m: Method): Bytes
  {
    match m
    case DELETE => "DELETE"
    case GET => "GET"
    case HEAD => "HEAD"
    case POST => "POST"
    case PUT => "PUT"
    case CONNECT => "CONNECT"
    case OPTIONS => "OPTIONS"
    case TRACE => "TRACE"
    case COPY => "COPY"
    case LOCK => "LOCK"
    case MKCOL => "MKCOL"
    case MOVE => "MOVE"
    case PROPFIND => "PROPFIND"
    case PROPPATCH => "PROPPATCH"
    case UNLOCK => "UNLOCK"
    case REPORT => "REPORT"
    case MKACTIVITY => "MKACTIVITY"
    case CHECKOUT => "CHECKOUT"
    case MERGE => "MERGE"
    case MSEARCH => "M-SEARCH"
    case NOTIFY => "NOTIFY"
    case SUBSCRIBE => "SUBSCRIBE"
    case UNSUBSCRIBE => "UNSUBSCRIBE"
    case PATCH => "PATCH"
  }

  const CONTENT_LENGTH := "content-length"
  const TRANSFER_ENCODING := "transfer-encoding"
  const UPGRADE := "upgrade"
  const CHUNKED := "chunked"

  datatype State =
    | Dead
    | PreStartReqOrRes | StartReqOrRes | ResOrRespH
    | PreStartRes | StartRes | ResH | ResHT | ResHTT | ResHTTP
    | ResFirstHttpMajor | ResHttpMajor | ResFirstHttpMinor | ResHttpMinor
    | ResFirstStatusCode | ResStatusCode | ResStatusStart | ResStatus | ResLineAlmostDone
    | PreStartReq | StartReq | ReqMethod | ReqSpacesBeforeUrl
    | ReqSchema | ReqSchemaSlash | ReqSchemaSlashSlash
    | ReqServerStart | ReqServer | ReqServerWithAt
    | ReqHostStart | ReqHost | ReqHostIpv6 | ReqHostDone | ReqPort
    | ReqPath | ReqQueryStringStart | ReqQueryString | ReqFragmentStart | ReqFragment
    | ReqHttpStart | ReqHttpH | ReqHttpHT | ReqHttpHTT | ReqHttpHTTP
    | ReqFirstHttpMajor | ReqHttpMajor | ReqFirstHttpMinor | ReqHttpMinor | ReqLineAlmostDone
    | HeaderFieldStart | HeaderField | HeaderValueStart | HeaderValue | HeaderValueLws | HeaderAlmostDone
    | ChunkSizeStart | ChunkSize | ChunkParameters | ChunkSizeAlmostDone
    | HeadersAlmostDone | HeadersDone
    | ChunkData | ChunkDataAlmostDone | ChunkDataDone
    | BodyIdentity | BodyIdentityEof | MessageDone

  /** `PARSING_HEADER`: every state up to and including `s_headers_done`. */
  predicate ParsingHeader(s: State)
  {
    !(s.ChunkData? || s.ChunkDataAlmostDone? || s.ChunkDataDone?
      || s.BodyIdentity? || s.BodyIdentityEof? || s.MessageDone?)
  }

  datatype HeaderState =
    | General | GeneralAndQuote | GeneralAndQuoteAndEscape
    | MatchingContentLength | MatchingTransferEncoding | MatchingUpgrade
    | ContentLength | TransferEncoding | Upgrade
    | MatchingTransferEncodingChunked | TransferEncodingChunked

  datatype ParserType = Request | Response | Both

  datatype Errno =
    | Ok
    | InvalidEofState | HeaderOverflow | InvalidVersion | InvalidStatus | InvalidMethod | InvalidUrl
    | InvalidHost | InvalidPort | InvalidPath | InvalidQueryString | InvalidFragment | LfExpected
    | InvalidHeaderToken | InvalidContentLength | HugeContentLength | InvalidChunkSize | HugeChunkSize
    | InvalidTransferEncoding | InvalidUpgrade | InvalidConstant | InvalidInternalState | Strict | Unknown

  /**
   * The `http_parser` struct.  The four flag bits are separate fields.  `answered` counts the
   * on_headers_complete calls made so far; it selects the answer that the next such call gets.  The
   * header byte count `nread` is not here: no state looks at it, so HttpMachine.Config keeps it.
   */
  datatype Parser = Parser(
    kind: ParserType,
    chunked: bool, trailing: bool, upgradeSeen: bool, skipBody: bool,
    state: State, hstate: HeaderState, index: nat,
    contentLength: int,
    major: nat, minor: nat, status: nat,
    verb: Method, errno: Errno, upgrade: bool,
    answered: nat)

  /**
   * The answers of on_headers_complete: the n-th call returns 1 ("no body follows") when
   * `settings(n)`, and 0 otherwise.  Every other callback returns 0.
   */
  type Settings = nat -> bool

  // ----- what the callbacks are told -----

  /** The five data callbacks. */
  datatype Kind = Url | Reason | Field | Value | Body

  /** The notify callbacks, with what they can read from the parser. */
  datatype Event =
    | MessageBegin
    | HeadersComplete(contentLength: int, chunked: bool, upgrade: bool, skip: bool)
    | ChunkHeader(size: int)
    | ChunkComplete
    | MessageComplete

  // ----- searching -----

  /** The position of the first `c`, or the length if there is none. */
  function First(t: Bytes, c: Byte): (i: nat)
    ensures i <= |t| && c !in t[..i] && (i < |t| ==> t[i] == c)
  {
    if t == [] || t[0] == c then 0
    else
      var i := First(t[1..], c);
      assert t[..1 + i] == [t[0]] + t[1..][..i];
      1 + i
  }

  lemma FirstIs(t: Bytes, c: Byte, i: nat)
    requires i <= |t| && c !in t[..i] && (i < |t| ==> t[i] == c)
    ensures First(t, c) == i
  {
    var j := First(t, c);
    assert forall k | 0 <= k < i :: t[k] == t[..i][k];
    assert forall k | 0 <= k < j :: t[k] == t[..j][k];
  }

  // ----- texts between separators -----

  /** Texts with a separator between them. */
  function Glue(parts: seq<Bytes>, sep: Byte): Bytes
    requires parts != []
  {
    if |parts| == 1 then parts[0] else parts[0] + [sep] + Glue(parts[1..], sep)
  }

  predicate Apart(parts: seq<Bytes>, sep: Byte) { forall i | 0 <= i < |parts| :: sep !in parts[i] }

  /** Every text is some texts with separators between them. */
  lemma {:induction false} Unglue(t: Bytes, sep: Byte) returns (parts: seq<Bytes>)
    ensures parts != [] && Apart(parts, sep) && Glue(parts, sep) == t
    decreases |t|
  {
    var i := First(t, sep);
    if i == |t| {
      assert t[..i] == t;
      parts := [t];
    } else {
      var rest := Unglue(t[i + 1..], sep);
      parts := [t[..i]] + rest;
      assert t == t[..i] + [sep] + t[i + 1..];
    }
  }
}
