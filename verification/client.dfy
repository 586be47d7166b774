/**
 * The web client's request plumbing: the canonical query string, the
 * client's token and CSRF state, the headers and body of each request,
 * how a reply is read, and the URL of an event subscription. `fetch` and
 * `EventSource` are left to the browser; the reply arrives as a value.
 */
module ApiClientModel {
  import opened Wrappers
  import opened Text
  import opened AuthToken

  // ----- encodeURIComponent -------------------------------------------

  /** The characters `encodeURIComponent` leaves as they are (section 19.2.6.5
      of ECMA-262): ASCII letters and digits and `- _ . ! ~ * ' ( )`. */
  predicate Unreserved(c: char) {
    || 'a' <= c <= 'z' || 'A' <= c <= 'Z' || '0' <= c <= '9'
    || c == '-' || c == '_' || c == '.' || c == '!' || c == '~' || c == '*' || c == '\'' || c == '(' || c == ')'
  }

  /** The UTF-8 bytes of a character. */
  function Utf8Bytes(c: char): (bs: seq<nat>)
    ensures |bs| == Utf8Width(c)
    ensures forall i :: 0 <= i < |bs| ==> bs[i] < 256
  {
    var n := c as int;
    if n < 0x80 then [n]
    else if n < 0x800 then [0xC0 + n / 64, 0x80 + n % 64]
    else if n < 0x10000 then [0xE0 + n / 4096, 0x80 + (n / 64) % 64, 0x80 + n % 64]
    else [0xF0 + n / 262144, 0x80 + (n / 4096) % 64, 0x80 + (n / 64) % 64, 0x80 + n % 64]
  }

  function HexDigit(d: nat): (c: char)
    requires d < 16
    ensures Unreserved(c)
  {
    if d < 10 then ('0' as int + d) as char else ('A' as int + d - 10) as char
  }

  /** Each byte as `%` and two upper-case hex digits. */
  function PercentBytes(bs: seq<nat>): (r: string)
    requires forall i :: 0 <= i < |bs| ==> bs[i] < 256
    ensures |r| == 3 * |bs|
    ensures UriSafe(r)
  {
    if bs == [] then []
    else ['%', HexDigit(bs[0] / 16), HexDigit(bs[0] % 16)] + PercentBytes(bs[1..])
  }

  /** Text that only holds unreserved characters and `%`. */
  predicate UriSafe(s: string) {
    forall i :: 0 <= i < |s| ==> Unreserved(s[i]) || s[i] == '%'
  }

  function EncodeChar(c: char): (r: string)
    ensures UriSafe(r)
    ensures Unreserved(c) <==> r == [c]
  {
    if Unreserved(c) then [c] else PercentBytes(Utf8Bytes(c))
  }

  /** `encodeURIComponent`. Dafny strings hold Unicode scalar values, so
      the lone surrogates on which it throws cannot occur. */
  function EncodeURIComponent(s: string): (r: string)
    ensures UriSafe(r)
  {
    if s == [] then [] else EncodeChar(s[0]) + EncodeURIComponent(s[1..])
  }

  /** Text of unreserved characters is left as it is. */
  lemma {:induction false} EncodeUnreserved(s: string)
    requires forall i :: 0 <= i < |s| ==> Unreserved(s[i])
    ensures EncodeURIComponent(s) == s
  {
    if s != [] {
      EncodeUnreserved(s[1..]);
      assert [s[0]] + s[1..] == s;
    }
  }
  // ----- decodeURIComponent, the inverse ------------------------------

  /** The value of a hex digit, either case. */
  function HexValue(c: char): Option<nat> {
    if '0' <= c <= '9' then Some(c as int - '0' as int)
    else if 'A' <= c <= 'F' then Some(c as int - 'A' as int + 10)
    else if 'a' <= c <= 'f' then Some(c as int - 'a' as int + 10)
    else None
  }

  /** `n` bytes written as `%HH` triples at the start of `s`. */
  function ReadBytes(s: string, n: nat): (r: Option<seq<nat>>)
    ensures r.Some? ==> |r.value| == n && 3 * n <= |s|
  {
    if n == 0 then Some([])
    else if |s| < 3 || s[0] != '%' || HexValue(s[1]).None? || HexValue(s[2]).None? then None
    else
      match ReadBytes(s[3..], n - 1)
      case None => None
      case Some(rest) => Some([16 * HexValue(s[1]).value + HexValue(s[2]).value] + rest)
  }

  /** How many bytes a UTF-8 sequence with this first byte has; 0 when no
      sequence starts with it. */
  function LeadWidth(b: nat): nat {
    if b < 0x80 then 1 else if 0xC0 <= b < 0xE0 then 2 else if 0xE0 <= b < 0xF0 then 3
    else if 0xF0 <= b < 0xF8 then 4 else 0
  }

  /** The code point a UTF-8 sequence of one to four bytes spells. */
  function CodePoint(bs: seq<nat>): int
    requires 1 <= |bs| <= 4
  {
    var b: seq<int> := bs;
    if |b| == 1 then b[0]
    else if |b| == 2 then (b[0] - 0xC0) * 64 + (b[1] - 0x80)
    else if |b| == 3 then (b[0] - 0xE0) * 4096 + (b[1] - 0x80) * 64 + (b[2] - 0x80)
    else (b[0] - 0xF0) * 262144 + (b[1] - 0x80) * 4096 + (b[2] - 0x80) * 64 + (b[3] - 0x80)
  }

  /** A well-formed sequence: continuation bytes after the first, no
      overlong form, and a Unicode scalar value (no surrogate). */
  predicate WellFormed(bs: seq<nat>)
    requires 1 <= |bs| <= 4
  {
    && (forall i :: 1 <= i < |bs| ==> 0x80 <= bs[i] < 0xC0)
    && var v := CodePoint(bs);
    && (if |bs| == 1 then 0 <= v < 0x80 else if |bs| == 2 then 0x80 <= v < 0x800
        else if |bs| == 3 then 0x800 <= v < 0x10000 else 0x10000 <= v <= 0x10FFFF)
    && !(0xD800 <= v < 0xE000)
  }

  /** `decodeURIComponent`: other characters stand for themselves, and each
      run of `%HH` triples must spell well-formed UTF-8; `None` is the
      `URIError` it throws otherwise. */
  function DecodeURIComponent(s: string): Option<string>
    decreases |s|
  {
    if s == [] then Some([])
    else if s[0] != '%' then
      match DecodeURIComponent(s[1..])
      case None => None
      case Some(rest) => Some([s[0]] + rest)
    else
      match ReadBytes(s, 1)
      case None => None
      case Some(lead) =>
        var w := LeadWidth(lead[0]);
        if w == 0 then None
        else
          match ReadBytes(s, w)
          case None => None
          case Some(bs) =>
            if !WellFormed(bs) then None
            else
              match DecodeURIComponent(s[3 * w..])
              case None => None
              case Some(rest) => Some([CodePoint(bs) as char] + rest)
  }

  lemma HexDigitValue(d: nat)
    requires d < 16
    ensures HexValue(HexDigit(d)) == Some(d)
  {
  }

  /** Percent-encoded bytes read back as the same bytes. */
  lemma {:induction false} ReadPercentBytes(bs: seq<nat>, rest: string, n: nat)
    requires forall i :: 0 <= i < |bs| ==> bs[i] < 256
    requires n <= |bs|
    ensures ReadBytes(PercentBytes(bs) + rest, n) == Some(bs[..n])
  {
    if n > 0 {
      var s := PercentBytes(bs) + rest;
      assert s[..3] == ['%', HexDigit(bs[0] / 16), HexDigit(bs[0] % 16)];
      HexDigitValue(bs[0] / 16);
      HexDigitValue(bs[0] % 16);
      assert s[3..] == PercentBytes(bs[1..]) + rest;
      ReadPercentBytes(bs[1..], rest, n - 1);
      assert [bs[0]] + bs[1..][..n - 1] == bs[..n];
    }
  }

  /** `n` split into base-64 digits. */
  lemma Base64Digits(n: nat)
    ensures n / 64 == (n / 4096) * 64 + (n / 64) % 64
    ensures n / 4096 == (n / 262144) * 64 + (n / 4096) % 64
  {
    var q := n / 64;
    assert q / 64 == n / 4096;
    var p := n / 4096;
    assert p / 64 == n / 262144;
  }

  /** The UTF-8 bytes of a character form one well-formed sequence whose
      first byte gives its length and which spells the character. */
  lemma Utf8BytesDecode(c: char)
    ensures LeadWidth(Utf8Bytes(c)[0]) == |Utf8Bytes(c)|
    ensures WellFormed(Utf8Bytes(c))
    ensures CodePoint(Utf8Bytes(c)) == c as int
  {
    var n := c as int;
    Base64Digits(n);
  }

  /** `decodeURIComponent` undoes `encodeURIComponent`. */
  lemma {:induction false} DecodeEncode(s: string)
    ensures DecodeURIComponent(EncodeURIComponent(s)) == Some(s)
  {
    if s != [] {
      var c, rest := s[0], EncodeURIComponent(s[1..]);
      var e := EncodeChar(c) + rest;
      assert EncodeURIComponent(s) == e;
      DecodeEncode(s[1..]);
      if Unreserved(c) {
        assert e[0] == c && e[1..] == rest;
      } else {
        var bs := Utf8Bytes(c);
        assert e == PercentBytes(bs) + rest;
        ReadPercentBytes(bs, rest, 1);
        ReadPercentBytes(bs, rest, |bs|);
        assert bs[..|bs|] == bs;
        Utf8BytesDecode(c);
        assert e[0] == '%';
        assert e[3 * |bs|..] == rest;
      }
      assert [s[0]] + s[1..] == s;
    }
  }

  /** Hence two texts with the same encoding are the same text. */
  lemma EncodeInjective(s: string, t: string)
    requires EncodeURIComponent(s) == EncodeURIComponent(t)
    ensures s == t
  {
    DecodeEncode(s);
    DecodeEncode(t);
  }

  // ----- encodeQueryString --------------------------------------------

  /** `a` sorts no later than `b` under JavaScript's default `sort`, which
      compares strings code unit by code unit. */
  predicate KeyBefore(a: string, b: string) {
    a == [] || (b != [] && (a[0] < b[0] || (a[0] == b[0] && KeyBefore(a[1..], b[1..]))))
  }

  lemma {:induction false} KeyBeforeTotal(a: string, b: string)
    ensures KeyBefore(a, b) || KeyBefore(b, a)
  {
    if a != [] && b != [] && a[0] == b[0] {
      KeyBeforeTotal(a[1..], b[1..]);
    }
  }

  /** Entries in ascending key order. */
  predicate Sorted(s: seq<(string, string)>) {
    forall i :: 0 <= i < |s| - 1 ==> KeyBefore(s[i].0, s[i + 1].0)
  }

  /** The parameters whose value is not `undefined` (`None`), in order;
      `Some(text)` holds the value as `encodeURIComponent` turns it into
      text. */
  function Defined(params: seq<(string, Option<string>)>): (r: seq<(string, string)>)
    ensures |r| <= |params|
  {
    if params == [] then []
    else (if params[0].1.Some? then [(params[0].0, params[0].1.value)] else []) + Defined(params[1..])
  }

  lemma {:induction false} DefinedMembers(params: seq<(string, Option<string>)>)
    ensures forall k, v :: (k, v) in Defined(params) <==> (k, Some(v)) in params
  {
    if params != [] {
      DefinedMembers(params[1..]);
      assert forall e :: e in params <==> e == params[0] || e in params[1..];
    }
  }

  function Insert(e: (string, string), s: seq<(string, string)>): seq<(string, string)> {
    if s == [] then [e]
    else if KeyBefore(e.0, s[0].0) then [e] + s
    else [s[0]] + Insert(e, s[1..])
  }

  /** A stable insertion sort by key. */
  function Sort(s: seq<(string, string)>): seq<(string, string)> {
    if s == [] then [] else Insert(s[0], Sort(s[1..]))
  }

  lemma {:induction false} InsertSorted(e: (string, string), s: seq<(string, string)>)
    requires Sorted(s)
    ensures Sorted(Insert(e, s))
    ensures multiset(Insert(e, s)) == multiset(s) + multiset{e}
    ensures Insert(e, s)[0] == e || (s != [] && Insert(e, s)[0] == s[0])
  {
    if s != [] && !KeyBefore(e.0, s[0].0) {
      var rest := Insert(e, s[1..]);
      InsertSorted(e, s[1..]);
      KeyBeforeTotal(e.0, s[0].0);
      var r := [s[0]] + rest;
      forall i | 0 <= i < |r| - 1 ensures KeyBefore(r[i].0, r[i + 1].0) {
        if i > 0 {
          assert r[i] == rest[i - 1] && r[i + 1] == rest[i];
        }
      }
      assert s == [s[0]] + s[1..];
    }
  }

  /** Sorting orders the entries by key and keeps every one of them. */
  lemma {:induction false} SortSortedPermutation(s: seq<(string, string)>)
    ensures Sorted(Sort(s))
    ensures multiset(Sort(s)) == multiset(s)
  {
    if s != [] {
      SortSortedPermutation(s[1..]);
      InsertSorted(s[0], Sort(s[1..]));
      assert s == [s[0]] + s[1..];
    }
  }

  /** One `key=value` pair, both encoded. */
  function Pair(e: (string, string)): (r: string)
    ensures '&' !in r
  {
    EncodeURIComponent(e.0) + "=" + EncodeURIComponent(e.1)
  }

  function Pairs(s: seq<(string, string)>): (r: seq<string>)
    ensures |r| == |s|
    ensures forall i :: 0 <= i < |s| ==> r[i] == Pair(s[i])
  {
    if s == [] then [] else [Pair(s[0])] + Pairs(s[1..])
  }

  /** `encodeQueryString`. */
  function EncodeQueryString(params: seq<(string, Option<string>)>): (q: string)
    ensures Defined(params) == [] ==> q == ""
    // splitting on '&' gives back the encoded pairs, in sorted order
    ensures Defined(params) != [] ==> Split(q, '&') == Pairs(Sort(Defined(params)))
  {
    var sorted := Sort(Defined(params));
    SortSortedPermutation(Defined(params));
    if Defined(params) != [] then
      assert |sorted| > 0 by {
        assert |multiset(sorted)| == |multiset(Defined(params))|;
      }
      SplitJoin(Pairs(sorted), '&');
      Join(Pairs(sorted), "&")
    else Join(Pairs(sorted), "&")
  }

  /** The query string is the `key=value` pairs of the defined parameters,
      in ascending key order, separated by `&`: splitting it on `&` gives
      them back. Without defined parameters it is empty. */
  lemma EncodeQueryStringMeaning(params: seq<(string, Option<string>)>)
    ensures Defined(params) == [] ==> EncodeQueryString(params) == ""
    ensures Defined(params) != [] ==>
      var sorted := Sort(Defined(params));
      && Sorted(sorted)
      && multiset(sorted) == multiset(Defined(params))
      && Split(EncodeQueryString(params), '&') == Pairs(sorted)
  {
    SortSortedPermutation(Defined(params));
  }

  /** A parameter reaches the query exactly when its value is defined. */
  lemma QueryKeepsDefined(params: seq<(string, Option<string>)>, k: string, v: string)
    ensures (k, v) in Sort(Defined(params)) <==> (k, Some(v)) in params
  {
    DefinedMembers(params);
    SortSortedPermutation(Defined(params));
    assert (k, v) in Sort(Defined(params)) <==> (k, v) in multiset(Sort(Defined(params)));
  }

  // ----- the client ---------------------------------------------------

  /** The error handed to the error handler and thrown. */
  datatype ApiError = ApiError(status: int, message: string)

  /** The reply `fetch` produced: its status, status text, body text and
      Content-Type header. */
  datatype Response = Response(ok: bool, status: int, statusText: string, text: string, contentType: Option<string>)

  /** The request handed to `fetch`; `body` is the JSON text of the data. */
  datatype Sent = Sent(url: string, verb: string, headers: seq<(string, string)>, body: Option<string>)

  /** How `_request` ends: it throws (after notifying the error handler,
      when one is set), or returns the reply parsed as JSON or as text. */
  datatype Outcome =
    | Thrown(error: ApiError, notified: bool)
    | JsonReply(text: string)
    | TextReply(text: string)

  /** The value of the first header with this name. */
  function HeaderValue(headers: seq<(string, string)>, name: string): Option<string> {
    if headers == [] then None
    else if headers[0].0 == name then Some(headers[0].1)
    else HeaderValue(headers[1..], name)
  }

  /** The headers of a request: the CSRF token for anything but GET when
      one is known, the bearer token when it has the token shape, and the
      JSON content type when data is sent. */
  function RequestHeaders(verb: string, csrf: Option<string>, token: Option<string>, hasData: bool)
    : (h: seq<(string, string)>)
    ensures HeaderValue(h, "X-CSRF-TOKEN") == if verb != "GET" && csrf.Some? then csrf else None
    ensures HeaderValue(h, "Authorization") == if IsValidJwt(token) then Some("Bearer " + token.value) else None
    ensures HeaderValue(h, "Content-Type") == if hasData then Some("application/json") else None
  {
    var a := if verb != "GET" && csrf.Some? then [("X-CSRF-TOKEN", csrf.value)] else [];
    var b := if IsValidJwt(token) then [("Authorization", "Bearer " + token.value)] else [];
    var c := if hasData then [("Content-Type", "application/json")] else [];
    HeaderValueAppend(a, b, "X-CSRF-TOKEN");
    HeaderValueAppend(a + b, c, "X-CSRF-TOKEN");
    HeaderValueAppend(a, b, "Authorization");
    HeaderValueAppend(a + b, c, "Authorization");
    HeaderValueAppend(a, b, "Content-Type");
    HeaderValueAppend(a + b, c, "Content-Type");
    a + b + c
  }

  /** The first header with a name comes from the front part when it has
      one. */
  lemma {:induction false} HeaderValueAppend(a: seq<(string, string)>, b: seq<(string, string)>, name: string)
    ensures HeaderValue(a + b, name) == if HeaderValue(a, name).Some? then HeaderValue(a, name) else HeaderValue(b, name)
  {
    if a != [] {
      assert (a + b)[1..] == a[1..] + b;
      HeaderValueAppend(a[1..], b, name);
    } else {
      assert a + b == b;
    }
  }

  /** The message of a failed request: the status text, followed by the
      body text when there is one. */
  function ErrorMessage(statusText: string, body: string): (m: string)
    ensures HasPrefix(m, statusText)
    ensures body == "" <==> m == statusText
    ensures body != "" ==> m[|statusText|..] == ": " + body
  {
    if body != "" then statusText + ": " + body else statusText
  }

  /** A reply is parsed as JSON exactly when its Content-Type starts with
      `application/json`. */
  predicate IsJsonReply(contentType: Option<string>) {
    contentType.Some? && HasPrefix(contentType.value, "application/json")
  }

  /** How a reply is read, with or without an error handler set. */
  function OutcomeOf(r: Response, hasErrorHandler: bool): (o: Outcome)
    ensures !r.ok <==> o.Thrown?
    ensures o.Thrown? ==> o.error == ApiError(r.status, ErrorMessage(r.statusText, r.text))
                          && o.notified == hasErrorHandler
    ensures r.ok ==> (o.JsonReply? <==> IsJsonReply(r.contentType)) && o.text == r.text
  {
    if !r.ok then Thrown(ApiError(r.status, ErrorMessage(r.statusText, r.text)), hasErrorHandler)
    else if IsJsonReply(r.contentType) then JsonReply(r.text)
    else TextReply(r.text)
  }

  const AccessTokenKey: string := "access_token"

  /** The subscription's query key needs no escaping. */
  lemma AccessTokenKeyUnreserved()
    ensures forall i :: 0 <= i < |AccessTokenKey| ==> Unreserved(AccessTokenKey[i])
  {
  }

  /** `ApiClient`. The error handler is only recorded as present or not. */
  class ApiClient {
    var server: string
    var token: Option<string>
    var csrf: Option<string>
    var hasErrorHandler: bool

    /** A token without the token shape is dropped. */
    constructor(server: string, token: Option<string>, csrf: Option<string>)
      ensures this.server == server && this.csrf == csrf && !hasErrorHandler
      ensures this.token == if IsValidJwt(token) then token else None
    {
      this.server := server;
      this.token := if IsValidJwt(token) then token else None;
      this.csrf := csrf;
      this.hasErrorHandler := false;
    }

    /** `setToken`: keeps the token only when it has the token shape. */
    method SetToken(token: Option<string>)
      modifies this
      ensures this.token == if IsValidJwt(token) then token else None
      ensures server == old(server) && csrf == old(csrf) && hasErrorHandler == old(hasErrorHandler)
    {
      this.token := if token.Some? && IsValidJwt(token) then token else None;
    }

    /** `setErrorHandler`. */
    method SetErrorHandler()
      modifies this
      ensures hasErrorHandler
      ensures server == old(server) && token == old(token) && csrf == old(csrf)
    {
      hasErrorHandler := true;
    }

    /** `_request`: `data` is the JSON text of the data, `None` when no
        data is given; `response` is what `fetch` answers. */
    method Request(verb: string, path: string, data: Option<string>, response: Response)
      returns (sent: Sent, outcome: Outcome)
      ensures sent == Sent(server + path, verb, RequestHeaders(verb, csrf, token, data.Some?), data)
      ensures outcome == OutcomeOf(response, hasErrorHandler)
    {
      var bearer := if IsValidJwt(token) then token else None;
      var headers: seq<(string, string)> := [];
      if verb != "GET" && csrf.Some? {
        headers := headers + [("X-CSRF-TOKEN", csrf.value)];
      }
      if bearer.Some? {
        headers := headers + [("Authorization", "Bearer " + bearer.value)];
      }
      if data.Some? {
        headers := headers + [("Content-Type", "application/json")];
      }
      sent := Sent(server + path, verb, headers, data);
      if !response.ok {
        var message := response.statusText;
        if response.text != "" {
          message := response.statusText + ": " + response.text;
        }
        return sent, Thrown(ApiError(response.status, message), hasErrorHandler);
      }
      if response.contentType.Some? && HasPrefix(response.contentType.value, "application/json") {
        return sent, JsonReply(response.text);
      }
      outcome := TextReply(response.text);
    }

    /** The URL `_subscribe` opens: the path, prefixed by the server when
        one is set, and with the token as the `access_token` query
        parameter when one is held. */
    function SubscribeUrl(path: string): (url: string)
      reads this
      ensures token.None? ==> url == server + path
      ensures token.Some? ==> url == (server + path + "?") + (AccessTokenKey + "=" + EncodeURIComponent(token.value))
    {
      var query := EncodeQueryString([(AccessTokenKey, token)]);
      var base := if server != "" then server + path else path;
      assert base == server + path;
      if token.Some? then
        AccessTokenKeyUnreserved();
        SingleParameter(AccessTokenKey, token.value);
        base + "?" + query
      else base
    }
  }

  /** A query of one defined parameter whose key needs no escaping is
      that key, `=` and the encoded value. */
  lemma SingleParameter(key: string, value: string)
    requires forall i :: 0 <= i < |key| ==> Unreserved(key[i])
    ensures EncodeQueryString([(key, Some(value))]) == key + "=" + EncodeURIComponent(value)
  {
    EncodeUnreserved(key);
    var params := [(key, Some(value))];
    var e := (key, value);
    assert Defined(params[1..]) == [];
    assert Defined(params) == [e];
    assert Sort([e]) == [e] by {
      assert [e][1..] == [];
    }
    assert Pairs([e]) == [Pair(e)];
  }
}
