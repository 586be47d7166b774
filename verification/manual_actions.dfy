/**
 * Manual (webhook) actions on the server: finding a configured definition,
 * building the outgoing HTTP request from the definition and the values the
 * UI sent, decoding the trigger payload, and the trigger handlers' replies.
 * The URL and duration parsers, JSON decoding and the HTTP call itself are
 * parameters.
 */
module ManualActions {
  import opened Wrappers
  import opened Text
  import opened ManualActionModel

  /** `findManualActionDefinition`: the first definition with this id. */
  function FindDefinition(defs: seq<Definition>, id: string): (r: Option<Definition>)
    ensures r.Some? ==> exists i :: 0 <= i < |defs| && defs[i] == r.value && r.value.id == id
                                    && forall j :: 0 <= j < i ==> defs[j].id != id
    ensures r.None? <==> forall i :: 0 <= i < |defs| ==> defs[i].id != id
  {
    match FirstIndex(defs, (d: Definition) => d.id == id)
    case None => None
    case Some(i) => Some(defs[i])
  }

  // ----- field values -------------------------------------------------

  /** The value a field resolves to: the trimmed supplied value, else the
      trimmed default. A section the payload left out (`None`) supplies
      nothing. */
  function ResolvedValue(field: Field, values: Option<map<string, string>>): (r: string)
    // nothing exactly when neither a supplied value nor the default has text
    ensures r == "" <==>
      (values.None? || field.key !in values.value || TrimSpace(values.value[field.key]) == "") &&
      TrimSpace(field.default) == ""
    ensures r != "" ==>
      r == TrimSpace(field.default) || (values.Some? && field.key in values.value && r == TrimSpace(values.value[field.key]))
  {
    var supplied := if values.Some? && field.key in values.value then TrimSpace(values.value[field.key]) else "";
    if supplied != "" then supplied else TrimSpace(field.default)
  }

  /** A supplied value wins once trimmed; a blank or absent one gives way to
      the trimmed default. */
  lemma ResolvedValuePrecedence(field: Field, values: Option<map<string, string>>)
    ensures values.None? || field.key !in values.value ==>
      ResolvedValue(field, values) == TrimSpace(field.default)
    ensures values.Some? && field.key in values.value && TrimSpace(values.value[field.key]) != "" ==>
      ResolvedValue(field, values) == TrimSpace(values.value[field.key])
    ensures values.Some? && field.key in values.value && TrimSpace(values.value[field.key]) == "" ==>
      ResolvedValue(field, values) == TrimSpace(field.default)
  {
  }

  /** A required field whose value resolves to nothing. */
  predicate Missing(field: Field, values: Option<map<string, string>>) {
    field.required && ResolvedValue(field, values) == ""
  }

  /** The setter call a field makes, if its value resolves to something. */
  function CallOf(field: Field, values: Option<map<string, string>>): seq<(string, string)> {
    var value := ResolvedValue(field, values);
    if value == "" then [] else [(field.key, value)]
  }

  /** The setter calls a section makes, in field order: one per field
      whose value resolves to something. */
  function Calls(fields: seq<Field>, values: Option<map<string, string>>): (calls: seq<(string, string)>)
    ensures |calls| <= |fields|
  {
    if fields == [] then [] else CallOf(fields[0], values) + Calls(fields[1..], values)
  }

  /** Every call carries a field's key and its resolved, non-empty value. */
  lemma {:induction false} CallsSound(fields: seq<Field>, values: Option<map<string, string>>)
    ensures forall c :: c in Calls(fields, values) ==>
      c.1 != "" && exists i :: 0 <= i < |fields| && c == (fields[i].key, ResolvedValue(fields[i], values))
  {
    if fields != [] {
      var rest := fields[1..];
      CallsSound(rest, values);
      forall c | c in Calls(fields, values)
        ensures c.1 != "" && exists i :: 0 <= i < |fields| && c == (fields[i].key, ResolvedValue(fields[i], values))
      {
        if c in Calls(rest, values) {
          var i :| 0 <= i < |rest| && c == (rest[i].key, ResolvedValue(rest[i], values));
          assert rest[i] == fields[i + 1];
        } else {
          assert c in CallOf(fields[0], values);
        }
      }
    }
  }

  /** Every field whose value resolves to something makes its call. */
  lemma {:induction false} CallsComplete(fields: seq<Field>, values: Option<map<string, string>>)
    ensures forall i :: 0 <= i < |fields| && ResolvedValue(fields[i], values) != "" ==>
      (fields[i].key, ResolvedValue(fields[i], values)) in Calls(fields, values)
  {
    if fields != [] {
      var rest := fields[1..];
      CallsComplete(rest, values);
      forall i | 0 <= i < |fields| && ResolvedValue(fields[i], values) != ""
        ensures (fields[i].key, ResolvedValue(fields[i], values)) in Calls(fields, values)
      {
        if i > 0 {
          assert rest[i - 1] == fields[i];
        } else {
          assert CallOf(fields[0], values) == [(fields[0].key, ResolvedValue(fields[0], values))];
        }
      }
    }
  }

  datatype Resolution = Resolved(calls: seq<(string, string)>) | MissingRequired(key: string)

  /** What `applySectionValues` does with a section, field by field. */
  function Resolve(fields: seq<Field>, values: Option<map<string, string>>): (r: Resolution)
    ensures r.Resolved? ==> r.calls == Calls(fields, values)
  {
    if fields == [] then Resolved([])
    else if Missing(fields[0], values) then MissingRequired(fields[0].key)
    else
      match Resolve(fields[1..], values)
      case MissingRequired(k) => MissingRequired(k)
      case Resolved(calls) => Resolved(CallOf(fields[0], values) + calls)
  }

  /** A section resolves exactly when no required field lacks a value. */
  lemma {:induction false} ResolveSucceeds(fields: seq<Field>, values: Option<map<string, string>>)
    ensures Resolve(fields, values).Resolved? <==> forall i :: 0 <= i < |fields| ==> !Missing(fields[i], values)
  {
    if fields != [] && !Missing(fields[0], values) {
      var rest := fields[1..];
      ResolveSucceeds(rest, values);
      if Resolve(rest, values).Resolved? {
        forall i | 0 <= i < |fields| ensures !Missing(fields[i], values) {
          if i > 0 {
            assert fields[i] == rest[i - 1];
          }
        }
      } else {
        var i :| 0 <= i < |rest| && Missing(rest[i], values);
        assert fields[i + 1] == rest[i];
      }
    }
  }

  /** Field `i` is the first required field without a value, and its key is `key`. */
  predicate FirstMissingAt(fields: seq<Field>, values: Option<map<string, string>>, i: int, key: string) {
    && 0 <= i < |fields| && Missing(fields[i], values) && fields[i].key == key
    && forall j :: 0 <= j < i ==> !Missing(fields[j], values)
  }

  /** A failing section names the first required field without a value. */
  lemma {:induction false} ResolveNamesFirstMissing(fields: seq<Field>, values: Option<map<string, string>>)
    ensures Resolve(fields, values).MissingRequired? ==>
      exists i :: FirstMissingAt(fields, values, i, Resolve(fields, values).key)
  {
    var r := Resolve(fields, values);
    if r.MissingRequired? {
      if Missing(fields[0], values) {
        assert FirstMissingAt(fields, values, 0, r.key);
      } else {
        var rest := fields[1..];
        ResolveNamesFirstMissing(rest, values);
        var i :| FirstMissingAt(rest, values, i, r.key);
        forall j | 0 <= j < i + 1 ensures !Missing(fields[j], values) {
          if j > 0 {
            assert fields[j] == rest[j - 1];
          }
        }
        assert fields[i + 1] == rest[i];
        assert FirstMissingAt(fields, values, i + 1, r.key);
      }
    }
  }

  /** The first required field without a value stops the section with an
      error naming its key; otherwise every field with a value reaches the
      setter, in order. */
  lemma ResolveMeaning(fields: seq<Field>, values: Option<map<string, string>>)
    ensures Resolve(fields, values).Resolved? <==> forall i :: 0 <= i < |fields| ==> !Missing(fields[i], values)
    ensures Resolve(fields, values).MissingRequired? ==>
      exists i :: 0 <= i < |fields| && Missing(fields[i], values) && fields[i].key == Resolve(fields, values).key
                  && forall j :: 0 <= j < i ==> !Missing(fields[j], values)
    ensures Resolve(fields, values).Resolved? ==> Resolve(fields, values).calls == Calls(fields, values)
  {
    ResolveSucceeds(fields, values);
    ResolveNamesFirstMissing(fields, values);
  }

  /** The calls made so far in front of what the rest of the section gives. */
  function Prepend(done: seq<(string, string)>, r: Resolution): Resolution {
    match r
    case MissingRequired(k) => MissingRequired(k)
    case Resolved(calls) => Resolved(done + calls)
  }

  /** One step of `Resolve` from position `i`. */
  lemma ResolveStep(fields: seq<Field>, i: nat, values: Option<map<string, string>>)
    requires i < |fields|
    ensures Resolve(fields[i..], values) ==
      if Missing(fields[i], values) then MissingRequired(fields[i].key)
      else Prepend(CallOf(fields[i], values), Resolve(fields[i + 1..], values))
  {
    assert fields[i..][0] == fields[i];
    assert fields[i..][1..] == fields[i + 1..];
  }

  lemma PrependTwice(a: seq<(string, string)>, b: seq<(string, string)>, r: Resolution)
    ensures Prepend(a, Prepend(b, r)) == Prepend(a + b, r)
  {
    if r.Resolved? {
      assert a + (b + r.calls) == (a + b) + r.calls;
    }
  }

  /** A field with a value, or an optional one without, adds its call (if
      any) to those made so far and moves on. */
  lemma ApplyStep(fields: seq<Field>, values: Option<map<string, string>>, calls: seq<(string, string)>, i: nat)
    requires i < |fields| && !Missing(fields[i], values)
    requires Resolve(fields, values) == Prepend(calls, Resolve(fields[i..], values))
    ensures Resolve(fields, values) == Prepend(calls + CallOf(fields[i], values), Resolve(fields[i + 1..], values))
  {
    ResolveStep(fields, i, values);
    PrependTwice(calls, CallOf(fields[i], values), Resolve(fields[i + 1..], values));
  }

  /** `applySectionValues`: walks the fields once, collecting the setter
      calls, and stops at the first required field without a value. */
  method ApplySectionValues(fields: seq<Field>, values: Option<map<string, string>>) returns (r: Resolution)
    ensures r == Resolve(fields, values)
  {
    var calls: seq<(string, string)> := [];
    var i := 0;
    while i < |fields|
      invariant 0 <= i <= |fields|
      invariant Resolve(fields, values) == Prepend(calls, Resolve(fields[i..], values))
    {
      var field := fields[i];
      var value := ResolvedValue(field, values);
      if value == "" && field.required {
        ResolveStep(fields, i, values);
        return MissingRequired(field.key);
      }
      ApplyStep(fields, values, calls, i);
      if value != "" {
        calls := calls + [(field.key, value)];
      } else {
        assert calls + CallOf(field, values) == calls;
      }
      i := i + 1;
    }
    return Resolved(calls);
  }

  // ----- header keys --------------------------------------------------

  /** A character allowed in an HTTP header field name: the token
      characters of section 3.2.6 of RFC 7230. */
  predicate IsTokenChar(c: char) {
    || 'a' <= c <= 'z' || 'A' <= c <= 'Z' || '0' <= c <= '9'
    || c in {'!', '#', '$', '%', '&', '\'', '*', '+', '-', '.', '^', '_', '`', '|', '~'}
  }

  /** Upper-case the first letter and every letter after a '-', lower-case
      the rest. */
  function Capitalize(s: string, upper: bool): (r: string)
    ensures |r| == |s|
  {
    if s == [] then []
    else
      var c := s[0];
      var d := if upper && 'a' <= c <= 'z' then (c as int - 32) as char
               else if !upper && 'A' <= c <= 'Z' then (c as int + 32) as char
               else c;
      [d] + Capitalize(s[1..], d == '-')
  }

  /** Go's `CanonicalMIMEHeaderKey`, which `http.Header` applies to every
      key: a name made only of token characters is capitalized; any other
      name is left as it is. */
  function CanonicalKey(s: string): string {
    if forall i :: 0 <= i < |s| ==> IsTokenChar(s[i]) then Capitalize(s, true) else s
  }

  /** Capitalizing keeps token characters token characters, and dashes
      where they were. */
  lemma {:induction false} CapitalizeKeepsTokens(s: string, upper: bool)
    ensures var r := Capitalize(s, upper);
      && (forall i :: 0 <= i < |s| && IsTokenChar(s[i]) ==> IsTokenChar(r[i]))
      && (forall i :: 0 <= i < |s| ==> (r[i] == '-' <==> s[i] == '-'))
  {
    if s != [] {
      var r := Capitalize(s, upper);
      CapitalizeKeepsTokens(s[1..], r[0] == '-');
      assert r[1..] == Capitalize(s[1..], r[0] == '-');
      forall i | 1 <= i < |s|
        ensures (IsTokenChar(s[i]) ==> IsTokenChar(r[i])) && (r[i] == '-' <==> s[i] == '-')
      {
        assert s[1..][i - 1] == s[i] && r[1..][i - 1] == r[i];
      }
    }
  }

  lemma {:induction false} CapitalizeIdempotent(s: string, upper: bool)
    ensures Capitalize(Capitalize(s, upper), upper) == Capitalize(s, upper)
  {
    if s != [] {
      var r := Capitalize(s, upper);
      CapitalizeIdempotent(s[1..], r[0] == '-');
      assert r[1..] == Capitalize(s[1..], r[0] == '-');
    }
  }

  /** Canonicalizing a canonical key changes nothing. */
  lemma CanonicalKeyIdempotent(s: string)
    ensures CanonicalKey(CanonicalKey(s)) == CanonicalKey(s)
  {
    if forall i :: 0 <= i < |s| ==> IsTokenChar(s[i]) {
      CapitalizeKeepsTokens(s, true);
      CapitalizeIdempotent(s, true);
    }
  }

  const ContentType: string := "Content-Type"

  // ----- applying the setter calls ------------------------------------

  /** The value the last call for `key` sets, if any. */
  function LastValue(calls: seq<(string, string)>, canonical: bool, key: string): Option<string> {
    if calls == [] then None
    else
      var last := calls[|calls| - 1];
      if (if canonical then CanonicalKey(last.0) else last.0) == key then Some(last.1)
      else LastValue(calls[..|calls| - 1], canonical, key)
  }

  /** `url.Values.Set` (`canonical` false) or `http.Header.Set`
      (`canonical` true) for each call in turn: each replaces every value
      of its key with its own. */
  function SetValues(m: map<string, seq<string>>, calls: seq<(string, string)>, canonical: bool)
    : (r: map<string, seq<string>>)
    ensures forall k :: k in r <==> k in m || LastValue(calls, canonical, k).Some?
    ensures forall k :: k in r ==>
      r[k] == if LastValue(calls, canonical, k).Some? then [LastValue(calls, canonical, k).value] else m[k]
  {
    if calls == [] then m
    else
      var last := calls[|calls| - 1];
      var key := if canonical then CanonicalKey(last.0) else last.0;
      SetValues(m, calls[..|calls| - 1], canonical)[key := [last.1]]
  }

  /** Assignment into the body map for each call in turn. */
  function SetBody(calls: seq<(string, string)>): (r: map<string, string>)
    ensures forall k :: k in r <==> LastValue(calls, false, k).Some?
    ensures forall k :: k in r ==> r[k] == LastValue(calls, false, k).value
  {
    if calls == [] then map[]
    else
      var last := calls[|calls| - 1];
      SetBody(calls[..|calls| - 1])[last.0 := last.1]
  }

  /** `http.Header.Get`: the first value under the canonical key, or "". */
  function HeaderGet(h: map<string, seq<string>>, key: string): string {
    var k := CanonicalKey(key);
    if k in h && h[k] != [] then h[k][0] else ""
  }

  // ----- building the request -----------------------------------------

  /** The values the UI sent, per section; `None` is a section the payload
      left out. */
  datatype Trigger = Trigger(
    query: Option<map<string, string>>,
    headers: Option<map<string, string>>,
    body: Option<map<string, string>>)

  const EmptyTrigger: Trigger := Trigger(None, None, None)

  /** The request to send. `url` is the configured URL, whose query is
      replaced by the encoding of `query`; `body` is the map encoded as
      the JSON body, `None` for no body; `timeout` is in nanoseconds. */
  datatype HttpRequest = HttpRequest(
    verb: string,
    url: string,
    query: map<string, seq<string>>,
    headers: map<string, seq<string>>,
    body: Option<map<string, string>>,
    timeout: int)

  datatype BuildError = UnparsableUrl | MissingValue(key: string)

  datatype Built = Built(request: HttpRequest) | BuildFailed(error: BuildError)

  /** The parsers the builder relies on: the query of a URL (`None` when
      the URL does not parse) and Go's duration syntax, in nanoseconds. */
  datatype Parsers = Parsers(
    urlQuery: string -> Option<map<string, seq<string>>>,
    duration: string -> Option<int>)

  const DefaultTimeout: int := 30 * 1000000000

  function Timeout(text: string, parsers: Parsers): (t: int)
    ensures text != "" && parsers.duration(text).Some? ==> t == parsers.duration(text).value
    ensures text == "" || parsers.duration(text).None? ==> t == DefaultTimeout
  {
    if text != "" && parsers.duration(text).Some? then parsers.duration(text).value else DefaultTimeout
  }

  /** Whether the body section applies at all: body fields exist and the
      configured method, exactly as written, is not "GET". */
  predicate BodyApplies(r: RequestDefinition) {
    |r.body| > 0 && r.verb != "GET"
  }

  /** The headers after the header section, with Content-Type set to JSON
      when a body is sent and no Content-Type was given. */
  function FinalHeaders(h: map<string, seq<string>>, hasBody: bool): (r: map<string, seq<string>>)
    ensures !hasBody || HeaderGet(h, ContentType) != "" ==> r == h
    ensures hasBody && HeaderGet(h, ContentType) == "" ==>
      r == h[CanonicalKey(ContentType) := ["application/json"]] && HeaderGet(r, ContentType) == "application/json"
  {
    if hasBody && HeaderGet(h, ContentType) == "" then h[CanonicalKey(ContentType) := ["application/json"]] else h
  }

  /** `buildManualActionHTTPRequest` as a function of its inputs. */
  function BuildSpec(d: Definition, payload: Trigger, parsers: Parsers): (b: Built)
    ensures parsers.urlQuery(d.request.url).None? <==> b == BuildFailed(UnparsableUrl)
    ensures b.Built? <==>
      && parsers.urlQuery(d.request.url).Some?
      && Resolve(d.request.query, payload.query).Resolved?
      && Resolve(d.request.headers, payload.headers).Resolved?
      && (BodyApplies(d.request) ==> Resolve(d.request.body, payload.body).Resolved?)
  {
    match parsers.urlQuery(d.request.url)
    case None => BuildFailed(UnparsableUrl)
    case Some(query0) =>
      match Resolve(d.request.query, payload.query)
      case MissingRequired(k) => BuildFailed(MissingValue(k))
      case Resolved(queryCalls) =>
        match Resolve(d.request.headers, payload.headers)
        case MissingRequired(k) => BuildFailed(MissingValue(k))
        case Resolved(headerCalls) =>
          var headers := SetValues(map[], headerCalls, true);
          var query := SetValues(query0, queryCalls, false);
          var timeout := Timeout(d.request.timeout, parsers);
          if !BodyApplies(d.request) then
            Built(HttpRequest(d.request.verb, d.request.url, query, headers, None, timeout))
          else
            match Resolve(d.request.body, payload.body)
            case MissingRequired(k) => BuildFailed(MissingValue(k))
            case Resolved(bodyCalls) =>
              var body := if bodyCalls == [] then None else Some(SetBody(bodyCalls));
              Built(HttpRequest(d.request.verb, d.request.url, query,
                                FinalHeaders(headers, body.Some?), body, timeout))
  }

  /** A built request keeps the configured method and URL, takes the
      parsed timeout, and carries a body exactly when a body applies and
      some body field resolves to a value: the map of the last value set
      per key. */
  lemma BuiltRequestFields(d: Definition, payload: Trigger, parsers: Parsers)
    requires BuildSpec(d, payload, parsers).Built?
    ensures var r := BuildSpec(d, payload, parsers).request;
      && r.verb == d.request.verb && r.url == d.request.url
      && r.timeout == Timeout(d.request.timeout, parsers)
      && (r.body.Some? <==> BodyApplies(d.request) && Calls(d.request.body, payload.body) != [])
      && (r.body.Some? ==> r.body.value == SetBody(Calls(d.request.body, payload.body)))
  {
    ResolveMeaning(d.request.body, payload.body);
  }

  /** A missing value names a required field of the query, the headers or
      (when a body applies) the body that resolves to nothing. */
  lemma BuildFailsOnMissing(d: Definition, payload: Trigger, parsers: Parsers)
    ensures var b := BuildSpec(d, payload, parsers);
      b.BuildFailed? && b.error.MissingValue? ==>
      || (exists f :: f in d.request.query && Missing(f, payload.query) && f.key == b.error.key)
      || (exists f :: f in d.request.headers && Missing(f, payload.headers) && f.key == b.error.key)
      || (BodyApplies(d.request) && exists f :: f in d.request.body && Missing(f, payload.body) && f.key == b.error.key)
  {
    ResolveMeaning(d.request.query, payload.query);
    ResolveMeaning(d.request.headers, payload.headers);
    ResolveMeaning(d.request.body, payload.body);
  }

  /** The query keeps the URL's own parameters except those a query field
      sets, and a header field's value is stored under its canonical key. */
  lemma BuiltQueryAndHeaders(d: Definition, payload: Trigger, parsers: Parsers, k: string)
    requires BuildSpec(d, payload, parsers).Built?
    ensures var q := BuildSpec(d, payload, parsers).request.query;
      var calls := Calls(d.request.query, payload.query);
      && parsers.urlQuery(d.request.url).Some?
      && (k in parsers.urlQuery(d.request.url).value && LastValue(calls, false, k).None? ==>
            k in q && q[k] == parsers.urlQuery(d.request.url).value[k])
      && (LastValue(calls, false, k).Some? ==> k in q && q[k] == [LastValue(calls, false, k).value])
    ensures var h := BuildSpec(d, payload, parsers).request.headers;
      var calls := Calls(d.request.headers, payload.headers);
      LastValue(calls, true, k).Some? && k != CanonicalKey(ContentType) ==> k in h && h[k] == [LastValue(calls, true, k).value]
  {
    ResolveMeaning(d.request.query, payload.query);
    ResolveMeaning(d.request.headers, payload.headers);
  }

  /** `buildManualActionHTTPRequest`. */
  method BuildRequest(d: Definition, payload: Trigger, parsers: Parsers) returns (b: Built)
    ensures b == BuildSpec(d, payload, parsers)
  {
    var query0 := parsers.urlQuery(d.request.url);
    if query0.None? {
      return BuildFailed(UnparsableUrl);
    }
    var queryCalls := ApplySectionValues(d.request.query, payload.query);
    if queryCalls.MissingRequired? {
      return BuildFailed(MissingValue(queryCalls.key));
    }
    var query := SetValues(query0.value, queryCalls.calls, false);
    var headerCalls := ApplySectionValues(d.request.headers, payload.headers);
    if headerCalls.MissingRequired? {
      return BuildFailed(MissingValue(headerCalls.key));
    }
    var headers := SetValues(map[], headerCalls.calls, true);
    var body: Option<map<string, string>> := None;
    if BodyApplies(d.request) {
      var bodyCalls := ApplySectionValues(d.request.body, payload.body);
      if bodyCalls.MissingRequired? {
        return BuildFailed(MissingValue(bodyCalls.key));
      }
      if bodyCalls.calls != [] {
        body := Some(SetBody(bodyCalls.calls));
        headers := FinalHeaders(headers, true);
      }
    }
    var timeout := Timeout(d.request.timeout, parsers);
    b := Built(HttpRequest(d.request.verb, d.request.url, query, headers, body, timeout));
  }

  // ----- decoding the trigger payload ---------------------------------

  /** A JSON value as the decoder sees it: a string, null, an object (with
      the text `fmt.Sprint` prints for it), or anything else (likewise). */
  datatype Json =
    | JString(s: string)
    | JNull
    | JObject(members: map<string, Json>, printed: string)
    | JOther(printed: string)

  /** The text a top-level value other than the three sections is stored
      as: a string verbatim, null as "", anything else as printed. */
  function Stringify(v: Json): string {
    match v
    case JString(s) => s
    case JNull => ""
    case JObject(_, printed) => printed
    case JOther(printed) => printed
  }

  /** Decoding a value into a section map: null clears the section; an
      object whose members are strings or null is merged into it (null
      members as ""); anything else is an error. */
  function DecodeSection(section: Option<map<string, string>>, v: Json): (r: Option<Option<map<string, string>>>)
    ensures v.JNull? ==> r == Some(None)
    ensures v.JString? || v.JOther? ==> r.None?
    // an object decodes exactly when every member is a string or null
    ensures v.JObject? ==>
      (r.Some? <==> forall k :: k in v.members ==> v.members[k].JString? || v.members[k].JNull?)
    ensures r.Some? && r.value.Some? ==> v.JObject?
    // each member lands under its key with its text, null as ""
    ensures r.Some? && r.value.Some? ==>
      forall k :: k in v.members ==> k in r.value.value && r.value.value[k] == Stringify(v.members[k])
    // entries already in the section are kept unless a member overwrites them
    ensures r.Some? && r.value.Some? && section.Some? ==>
      forall k :: k in section.value && k !in v.members ==> k in r.value.value && r.value.value[k] == section.value[k]
    // and nothing else appears
    ensures r.Some? && r.value.Some? ==>
      forall k :: k in r.value.value ==> k in v.members || (section.Some? && k in section.value)
  {
    match v
    case JNull => Some(None)
    case JObject(members, _) =>
      if forall k :: k in members ==> members[k].JString? || members[k].JNull? then
        var base := if section.Some? then section.value else map[];
        Some(Some(base + map k | k in members :: Stringify(members[k])))
      else None
    case _ => None
  }

  /** One top-level member of the payload. */
  function DecodeMember(t: Trigger, key: string, v: Json): (r: Option<Trigger>)
    ensures key !in {"query", "headers", "body"} ==>
      r.Some? && r.value.query == t.query && r.value.headers == t.headers
      && r.value.body.Some? && key in r.value.body.value && r.value.body.value[key] == Stringify(v)
  {
    if key == "query" then
      match DecodeSection(t.query, v)
      case None => None
      case Some(q) => Some(t.(query := q))
    else if key == "headers" then
      match DecodeSection(t.headers, v)
      case None => None
      case Some(h) => Some(t.(headers := h))
    else if key == "body" then
      match DecodeSection(t.body, v)
      case None => None
      case Some(b) => Some(t.(body := b))
    else
      var body := if t.body.Some? then t.body.value else map[];
      Some(t.(body := Some(body[key := Stringify(v)])))
  }

  /** The members in the order the decoder visits them. */
  function DecodeMembers(t: Trigger, members: seq<(string, Json)>): (r: Option<Trigger>)
    // only a section member can fail; the others never touch query or headers
    ensures (forall m :: m in members ==> m.0 != "query" && m.0 != "headers" && m.0 != "body") ==>
      r.Some? && r.value.query == t.query && r.value.headers == t.headers
    decreases |members|
  {
    if members == [] then Some(t)
    else
      match DecodeMember(t, members[0].0, members[0].1)
      case None => None
      case Some(t') => DecodeMembers(t', members[1..])
  }

  predicate DistinctKeys(members: seq<(string, Json)>) {
    forall i, j :: 0 <= i < j < |members| ==> members[i].0 != members[j].0
  }

  /** A member stored in the body stays there while later members neither
      use its key nor touch the body section. */
  lemma {:induction false} BodyEntryKept(t: Trigger, members: seq<(string, Json)>, key: string, text: string)
    requires t.body.Some? && key in t.body.value && t.body.value[key] == text
    requires forall m :: m in members ==> m.0 != key && m.0 != "body"
    decreases |members|
    ensures DecodeMembers(t, members).Some? ==>
      var r := DecodeMembers(t, members).value;
      r.body.Some? && key in r.body.value && r.body.value[key] == text
  {
    if members != [] {
      match DecodeMember(t, members[0].0, members[0].1)
      case None =>
      case Some(t') =>
        assert t'.body.Some? && key in t'.body.value && t'.body.value[key] == text;
        BodyEntryKept(t', members[1..], key, text);
    }
  }

  /** Without a `body` member, every member other than `query` and
      `headers` ends up in the body, stringified. */
  lemma {:induction false} OtherMembersLandInBody(t: Trigger, members: seq<(string, Json)>)
    requires DistinctKeys(members)
    requires forall m :: m in members ==> m.0 != "body"
    decreases |members|
    ensures DecodeMembers(t, members).Some? ==>
      forall m :: m in members && m.0 != "query" && m.0 != "headers" ==>
        var r := DecodeMembers(t, members).value;
        r.body.Some? && m.0 in r.body.value && r.body.value[m.0] == Stringify(m.1)
  {
    if members != [] && DecodeMembers(t, members).Some? {
      var t' := DecodeMember(t, members[0].0, members[0].1).value;
      var rest := members[1..];
      assert DistinctKeys(rest) by {
        forall i, j | 0 <= i < j < |rest| ensures rest[i].0 != rest[j].0 {
          assert rest[i] == members[i + 1] && rest[j] == members[j + 1];
        }
      }
      OtherMembersLandInBody(t', rest);
      var m0 := members[0];
      if m0.0 != "query" && m0.0 != "headers" {
        forall m | m in rest ensures m.0 != m0.0 && m.0 != "body" {
          var j :| 0 <= j < |rest| && rest[j] == m;
          assert members[j + 1] == m;
        }
        BodyEntryKept(t', rest, m0.0, Stringify(m0.1));
      }
      forall m | m in members && m.0 != "query" && m.0 != "headers"
        ensures var r := DecodeMembers(t, members).value;
          r.body.Some? && m.0 in r.body.value && r.body.value[m.0] == Stringify(m.1)
      {
        if m != m0 {
          var j :| 0 <= j < |members| && members[j] == m;
          assert j != 0;
          assert m in rest by { assert rest[j - 1] == m; }
        }
      }
    }
  }

  /** The trigger a request body decodes to, `None` for the 400 reply. */
  function Payload(raw: Option<string>, parseObject: string -> Option<seq<(string, Json)>>): Option<Trigger> {
    if raw.None? then None
    else if TrimSpace(raw.value) == "" then Some(EmptyTrigger)
    else
      match parseObject(raw.value)
      case None => None
      case Some(members) => DecodeMembers(EmptyTrigger, members)
  }

  /** `decodeManualActionPayload`. `raw` is the request body, `None` when
      it cannot be read; `parseObject` decodes it as a JSON object whose
      members come in the order the decoder visits them (`None` for
      malformed JSON). `None` as the result is the 400 reply. */
  method DecodePayload(raw: Option<string>, parseObject: string -> Option<seq<(string, Json)>>)
    returns (r: Option<Trigger>)
    ensures raw.None? ==> r.None?
    ensures raw.Some? && TrimSpace(raw.value) == "" ==> r == Some(EmptyTrigger)
    ensures raw.Some? && TrimSpace(raw.value) != "" ==>
      r == (match parseObject(raw.value)
            case None => None
            case Some(members) => DecodeMembers(EmptyTrigger, members))
  {
    if raw.None? {
      return None;
    }
    if TrimSpace(raw.value) == "" {
      return Some(EmptyTrigger);
    }
    var parsed := parseObject(raw.value);
    if parsed.None? {
      return None;
    }
    var members := parsed.value;
    var t := EmptyTrigger;
    var i := 0;
    while i < |members|
      invariant 0 <= i <= |members|
      invariant DecodeMembers(EmptyTrigger, members) == DecodeMembers(t, members[i..])
    {
      var next := DecodeMember(t, members[i].0, members[i].1);
      if next.None? {
        return None;
      }
      assert members[i..][1..] == members[i + 1..];
      t := next.value;
      i := i + 1;
    }
    return Some(t);
  }

  // ----- the trigger handlers -----------------------------------------

  /** The reply of a trigger: 404, 400, 502, or 200 carrying the upstream
      status, the success flag and the upstream body. */
  datatype TriggerReply =
    | NotFound
    | BadRequest
    | BadGateway
    | Relayed(status: int, success: bool, body: string)

  /** The reported success flag: a 2xx upstream status. */
  predicate Success(status: int) {
    200 <= status < 300
  }

  /** `triggerManualActionResponse`; `execute` performs the request and
      gives the upstream status and body, `None` when the call fails. */
  method TriggerResponse(d: Definition, trigger: Trigger, parsers: Parsers,
                         execute: HttpRequest -> Option<(int, string)>)
    returns (reply: TriggerReply)
    ensures BuildSpec(d, trigger, parsers).BuildFailed? <==> reply == BadRequest
    ensures BuildSpec(d, trigger, parsers).Built? ==>
      var sent := BuildSpec(d, trigger, parsers).request;
      && (execute(sent).None? <==> reply == BadGateway)
      && (execute(sent).Some? ==>
            reply == Relayed(execute(sent).value.0, Success(execute(sent).value.0), execute(sent).value.1))
    ensures reply.Relayed? ==> (reply.success <==> 200 <= reply.status < 300)
  {
    var built := BuildRequest(d, trigger, parsers);
    if built.BuildFailed? {
      return BadRequest;
    }
    var result := execute(built.request);
    if result.None? {
      return BadGateway;
    }
    var (status, body) := result.value;
    reply := Relayed(status, Success(status), body);
  }

  /** `TriggerManualAction`. */
  method TriggerManualAction(defs: seq<Definition>, actionId: string, raw: Option<string>,
                             parseObject: string -> Option<seq<(string, Json)>>, parsers: Parsers,
                             execute: HttpRequest -> Option<(int, string)>)
    returns (reply: TriggerReply)
    ensures FindDefinition(defs, actionId).None? <==> reply == NotFound
    ensures raw.None? && FindDefinition(defs, actionId).Some? ==> reply == BadRequest
    // an unreadable or undecodable payload is 400; otherwise the reply is that of the decoded trigger
    ensures FindDefinition(defs, actionId).Some? && Payload(raw, parseObject).None? ==> reply == BadRequest
    ensures FindDefinition(defs, actionId).Some? && Payload(raw, parseObject).Some? ==>
      var built := BuildSpec(FindDefinition(defs, actionId).value, Payload(raw, parseObject).value, parsers);
      && (built.BuildFailed? <==> reply == BadRequest)
      && (built.Built? ==>
            && (execute(built.request).None? <==> reply == BadGateway)
            && (execute(built.request).Some? ==>
                  reply == Relayed(execute(built.request).value.0, Success(execute(built.request).value.0),
                                   execute(built.request).value.1)))
    ensures reply.Relayed? ==> (reply.success <==> 200 <= reply.status < 300)
  {
    var d := FindDefinition(defs, actionId);
    if d.None? {
      return NotFound;
    }
    var trigger := DecodePayload(raw, parseObject);
    if trigger.None? {
      return BadRequest;
    }
    reply := TriggerResponse(d.value, trigger.value, parsers, execute);
  }

  /** `TriggerWebhookAction`: the same with an empty payload, so every
      field takes its trimmed default. */
  method TriggerWebhookAction(defs: seq<Definition>, actionId: string, parsers: Parsers,
                              execute: HttpRequest -> Option<(int, string)>)
    returns (reply: TriggerReply)
    ensures FindDefinition(defs, actionId).None? <==> reply == NotFound
    ensures FindDefinition(defs, actionId).Some? ==>
      var built := BuildSpec(FindDefinition(defs, actionId).value, EmptyTrigger, parsers);
      && (built.BuildFailed? <==> reply == BadRequest)
      && (built.Built? ==>
            && (execute(built.request).None? <==> reply == BadGateway)
            && (execute(built.request).Some? ==>
                  reply == Relayed(execute(built.request).value.0, Success(execute(built.request).value.0),
                                   execute(built.request).value.1)))
    ensures reply.Relayed? ==> (reply.success <==> 200 <= reply.status < 300)
  {
    var d := FindDefinition(defs, actionId);
    if d.None? {
      return NotFound;
    }
    reply := TriggerResponse(d.value, EmptyTrigger, parsers, execute);
  }

  /** With an empty payload a section resolves from defaults alone: it
      fails exactly on a required field with a blank default. */
  lemma {:induction false} EmptyPayloadUsesDefaults(fields: seq<Field>)
    ensures Resolve(fields, None).Resolved? <==>
      forall i :: 0 <= i < |fields| ==> !(fields[i].required && TrimSpace(fields[i].default) == "")
  {
    ResolveMeaning(fields, None);
    assert forall i :: 0 <= i < |fields| ==> ResolvedValue(fields[i], None) == TrimSpace(fields[i].default);
  }
}
