/**
 * `apiCall`, the one helper every backend request goes through: it fills in
 * option defaults, builds the headers, picks the timeout, sends the request to
 * `BaseUrl + endpoint` and turns a failure into one of three thrown values.
 * The transport itself is a parameter.
 */
module Api {
  import opened Optional
  import opened Seqs

  const BaseUrl: string := "https://moneza-backend.onrender.com"
  const JsonType: string := "application/json"
  const UploadTimeout: nat := 300000
  const DefaultTimeout: nat := 10000
  const NoResponseMessage: string := "No response received from the server."
  const SetupFailureMessage: string := "Error in setting up the request."

  /** One property of a plain object used as a dictionary (headers, query parameters). */
  datatype Entry = Entry(name: string, value: string)

  function EntryName(e: Entry): string {
    e.name
  }

  /** The property names, in the object's order. */
  function Names(d: seq<Entry>): seq<string> {
    Map(d, EntryName)
  }

  /** An object never holds the same property twice. */
  predicate DistinctNames(d: seq<Entry>) {
    forall i, j :: 0 <= i < j < |d| ==> d[i].name != d[j].name
  }

  /** `d[name]`, or none when the property is absent. */
  function Get(d: seq<Entry>, name: string): (r: Option<string>)
    ensures r.None? <==> name !in Names(d)
    ensures r.Some? ==> Entry(name, r.value) in d
  {
    if d == [] then None
    else if d[0].name == name then Some(d[0].value)
    else Get(d[1..], name)
  }

  /** `d[name] = value`: an existing property keeps its place, a new one goes last. */
  function Set(d: seq<Entry>, name: string, value: string): (r: seq<Entry>)
    ensures |r| > 0
  {
    if d == [] then [Entry(name, value)]
    else if d[0].name == name then [Entry(name, value)] + d[1..]
    else [d[0]] + Set(d[1..], name, value)
  }

  /** After the assignment the property reads `value`; every other property reads as before. */
  lemma {:induction false} SetGet(d: seq<Entry>, name: string, value: string, k: string)
    ensures Get(Set(d, name, value), k) == if k == name then Some(value) else Get(d, k)
  {
    if d != [] && d[0].name != name {
      SetGet(d[1..], name, value, k);
    }
  }

  /** The names keep their order; a new name is added at the end. */
  lemma {:induction false} SetNames(d: seq<Entry>, name: string, value: string)
    ensures Names(Set(d, name, value)) == if name in Names(d) then Names(d) else Names(d) + [name]
  {
    if d != [] && d[0].name != name {
      SetNames(d[1..], name, value);
      assert Names(d) == [d[0].name] + Names(d[1..]);
    }
  }

  /** An object with distinct names keeps them distinct. */
  lemma SetDistinct(d: seq<Entry>, name: string, value: string)
    requires DistinctNames(d)
    ensures DistinctNames(Set(d, name, value))
  {
    var r := Set(d, name, value);
    SetNames(d, name, value);
    assert forall i :: 0 <= i < |r| ==> r[i].name == Names(r)[i];
    assert forall i :: 0 <= i < |d| ==> d[i].name == Names(d)[i];
  }

  /** `{...d, ...src}`: the properties of `src` assigned one by one onto `d`. */
  function Spread(d: seq<Entry>, src: seq<Entry>): seq<Entry>
    decreases |src|
  {
    if src == [] then d else Spread(Set(d, src[0].name, src[0].value), src[1..])
  }

  /** The test "not one of `names`". */
  function Absent(names: seq<string>): string -> bool {
    n => n !in names
  }

  /** A name of `src` reappears nowhere after its first position. */
  lemma HeadNotInRest(src: seq<Entry>)
    requires src != [] && DistinctNames(src)
    ensures src[0].name !in Names(src[1..])
    ensures DistinctNames(src[1..])
  {
  }

  /** Spreading one object with distinct names over another keeps the names distinct. */
  lemma {:induction false} SpreadDistinct(d: seq<Entry>, src: seq<Entry>)
    requires DistinctNames(d) && DistinctNames(src)
    ensures DistinctNames(Spread(d, src))
    decreases |src|
  {
    if src != [] {
      SetDistinct(d, src[0].name, src[0].value);
      HeadNotInRest(src);
      SpreadDistinct(Set(d, src[0].name, src[0].value), src[1..]);
    }
  }

  /** Every property of `src` wins; the others keep `d`'s values. */
  lemma {:induction false} SpreadGet(d: seq<Entry>, src: seq<Entry>, k: string)
    requires DistinctNames(src)
    ensures Get(Spread(d, src), k) == if Get(src, k).Some? then Get(src, k) else Get(d, k)
    decreases |src|
  {
    if src != [] {
      var e, rest := src[0], src[1..];
      HeadNotInRest(src);
      SpreadGet(Set(d, e.name, e.value), rest, k);
      SetGet(d, e.name, e.value, k);
      if k == e.name {
        assert Get(rest, k).None?;
      }
    }
  }

  /** One step of `SpreadNames`: assigning a name that the rest of `src` does not hold. */
  lemma NamesStep(names: seq<string>, name: string, rest: seq<string>)
    requires name !in rest
    ensures var names' := if name in names then names else names + [name];
      names' + Filter(rest, Absent(names')) == names + Filter([name] + rest, Absent(names))
  {
    var p := Absent(names);
    assert ([name] + rest)[0] == name;
    assert ([name] + rest)[1..] == rest;
    assert Filter([name] + rest, p) == (if p(name) then [name] else []) + Filter(rest, p);
    if name !in names {
      var q := Absent(names + [name]);
      assert forall i :: 0 <= i < |rest| ==> q(rest[i]) == p(rest[i]) by {
        forall i | 0 <= i < |rest| ensures q(rest[i]) == p(rest[i]) {
          assert rest[i] != name;
        }
      }
      FilterCongruent(rest, q, p);
      ConcatAssoc(names, [name], Filter(rest, p));
    }
  }

  /** `d`'s names keep their places and `src`'s new names follow in `src`'s order. */
  lemma {:induction false} SpreadNames(d: seq<Entry>, src: seq<Entry>)
    requires DistinctNames(src)
    ensures Names(Spread(d, src)) == Names(d) + Filter(Names(src), Absent(Names(d)))
    decreases |src|
  {
    if src != [] {
      var e, rest := src[0], src[1..];
      var d' := Set(d, e.name, e.value);
      SetNames(d, e.name, e.value);
      HeadNotInRest(src);
      SpreadNames(d', rest);
      assert Names(src) == [e.name] + Names(rest);
      NamesStep(Names(d), e.name, Names(rest));
    }
  }

  /** A token is used only when it is truthy: present and non-empty. */
  predicate TokenTruthy(token: Option<string>) {
    token.Some? && token.value != ""
  }

  /** `apiHeaders` before Content-Type: Accept, then the caller's headers, then the bearer token. */
  function BuildHeaders(caller: seq<Entry>, token: Option<string>): seq<Entry> {
    var base := Spread([Entry("Accept", JsonType)], caller);
    if TokenTruthy(token) then Set(base, "Authorization", "Bearer " + token.value) else base
  }

  /**
   * The headers `apiCall` sends for the caller's `caller` and `token`: distinct
   * names with Accept first; Accept is `application/json` unless the caller sets
   * it; Authorization is `Bearer <token>` when the token is truthy and otherwise
   * whatever the caller gave; Content-Type is `application/json` when
   * `jsonContentType` holds and otherwise the caller's; every other header is the
   * caller's.
   */
  ghost predicate HeadersFor(h: seq<Entry>, caller: seq<Entry>, token: Option<string>, jsonContentType: bool) {
    && DistinctNames(h)
    && h != [] && h[0].name == "Accept"
    && Get(h, "Accept") == (if Get(caller, "Accept").Some? then Get(caller, "Accept") else Some(JsonType))
    && Get(h, "Authorization") == (if TokenTruthy(token) then Some("Bearer " + token.value) else Get(caller, "Authorization"))
    && Get(h, "Content-Type") == (if jsonContentType then Some(JsonType) else Get(caller, "Content-Type"))
    && forall k :: k != "Accept" && k != "Authorization" && k != "Content-Type" ==> Get(h, k) == Get(caller, k)
  }

  /** `BuildHeaders` gives those headers, without the JSON Content-Type. */
  lemma BuildHeadersSpec(caller: seq<Entry>, token: Option<string>)
    requires DistinctNames(caller)
    ensures HeadersFor(BuildHeaders(caller, token), caller, token, false)
  {
    BaseHeaders(caller);
    if TokenTruthy(token) {
      SetAuthorization(BuildHeaders(caller, None), caller, token);
    }
  }

  /** Without a token the headers are Accept spread over by the caller's. */
  lemma BaseHeaders(caller: seq<Entry>)
    requires DistinctNames(caller)
    ensures HeadersFor(BuildHeaders(caller, None), caller, None, false)
  {
    var accept := [Entry("Accept", JsonType)];
    var base := Spread(accept, caller);
    assert BuildHeaders(caller, None) == base;
    SpreadDistinct(accept, caller);
    forall k ensures Get(base, k) == if Get(caller, k).Some? then Get(caller, k) else Get(accept, k) {
      SpreadGet(accept, caller, k);
    }
    assert forall k :: Get(accept, k) == if k == "Accept" then Some(JsonType) else None;
    assert base != [] && base[0].name == "Accept" by {
      SpreadNames(accept, caller);
      assert Names(accept) == ["Accept"];
      assert base[0].name == Names(base)[0];
    }
  }

  /** Assigning the bearer token changes only Authorization and keeps Accept first. */
  lemma SetAuthorization(h: seq<Entry>, caller: seq<Entry>, token: Option<string>)
    requires TokenTruthy(token)
    requires HeadersFor(h, caller, None, false)
    ensures HeadersFor(Set(h, "Authorization", "Bearer " + token.value), caller, token, false)
  {
    var auth := "Bearer " + token.value;
    var h' := Set(h, "Authorization", auth);
    SetDistinct(h, "Authorization", auth);
    SetNames(h, "Authorization", auth);
    forall k ensures Get(h', k) == if k == "Authorization" then Some(auth) else Get(h, k) {
      SetGet(h, "Authorization", auth, k);
    }
    assert h'[0].name == Names(h')[0] == Names(h)[0] == h[0].name;
  }

  /**
   * The header order: Accept, the caller's other headers in the caller's order,
   * then Authorization if the token added it.
   */
  lemma BuildHeadersNames(caller: seq<Entry>, token: Option<string>)
    requires DistinctNames(caller)
    ensures Names(BuildHeaders(caller, token)) ==
      ["Accept"] + Filter(Names(caller), Absent(["Accept"]))
      + (if TokenTruthy(token) && "Authorization" !in Names(caller) then ["Authorization"] else [])
  {
    var accept := [Entry("Accept", JsonType)];
    var base := Spread(accept, caller);
    SpreadNames(accept, caller);
    assert Names(accept) == ["Accept"];
    assert "Authorization" in Names(base) <==> "Authorization" in Names(caller) by {
      FilterMembers(Names(caller), Absent(["Accept"]), "Authorization");
    }
    if TokenTruthy(token) {
      SetNames(base, "Authorization", "Bearer " + token.value);
    }
  }

  /** Setting Content-Type to JSON in place changes only that header and keeps Accept first. */
  lemma SetJsonContentType(h: seq<Entry>, caller: seq<Entry>, token: Option<string>)
    requires HeadersFor(h, caller, token, false)
    ensures HeadersFor(Set(h, "Content-Type", JsonType), caller, token, true)
  {
    var h' := Set(h, "Content-Type", JsonType);
    SetDistinct(h, "Content-Type", JsonType);
    SetNames(h, "Content-Type", JsonType);
    forall k ensures Get(h', k) == if k == "Content-Type" then Some(JsonType) else Get(h, k) {
      SetGet(h, "Content-Type", JsonType, k);
    }
    assert h'[0].name == Names(h')[0] == Names(h)[0] == h[0].name;
  }

  /** The body of a request: none, a FormData upload, or a JSON value. */
  datatype Body = NullBody | FormDataBody | JsonBody(json: string)

  /** The upload-progress callback: the no-op default, or the caller's. */
  datatype ProgressHandler = NoOpHandler | CallerHandler(id: nat)

  /** The options object (`method` is `httpMethod` here); an absent field is `undefined` (a `null` token counts as absent). */
  datatype Options = Options(
    httpMethod: Option<string>,
    data: Option<Body>,
    params: Option<seq<Entry>>,
    headers: Option<seq<Entry>>,
    token: Option<string>,
    onUploadProgress: Option<ProgressHandler>)

  /** `options = {}`. */
  const NoOptions: Options := Options(None, None, None, None, None, None)

  /** The configuration passed to axios. */
  datatype Request = Request(
    url: string,
    httpMethod: string,
    data: Body,
    params: seq<Entry>,
    timeout: nat,
    headers: seq<Entry>,
    onUploadProgress: ProgressHandler)

  /** JSON Content-Type is added unless the body is FormData or the method is DELETE. */
  predicate NeedsJsonContentType(data: Body, httpMethod: string) {
    !data.FormDataBody? && httpMethod != "DELETE"
  }

  /**
   * The request `apiCall` hands to axios: defaults for missing options, the URL
   * `BaseUrl + endpoint`, the headers of `BuildHeaders` with Content-Type set
   * (in place) to JSON when `NeedsJsonContentType`, and a five-minute timeout
   * for uploads against ten seconds otherwise.
   */
  method PrepareRequest(endpoint: string, options: Options) returns (req: Request)
    requires options.headers.Some? ==> DistinctNames(options.headers.value)
    ensures req.url == BaseUrl + endpoint
    ensures req.httpMethod == options.httpMethod.GetOr("GET")
    ensures req.data == options.data.GetOr(NullBody)
    ensures req.params == options.params.GetOr([])
    ensures req.onUploadProgress == options.onUploadProgress.GetOr(NoOpHandler)
    ensures req.timeout == if req.data.FormDataBody? then UploadTimeout else DefaultTimeout
    ensures HeadersFor(req.headers, options.headers.GetOr([]), options.token, NeedsJsonContentType(req.data, req.httpMethod))
  {
    var httpMethod := options.httpMethod.GetOr("GET");
    var data := options.data.GetOr(NullBody);
    var params := options.params.GetOr([]);
    var headers := options.headers.GetOr([]);
    var onUploadProgress := options.onUploadProgress.GetOr(NoOpHandler);

    var apiHeaders := BuildHeaders(headers, options.token);
    BuildHeadersSpec(headers, options.token);
    if NeedsJsonContentType(data, httpMethod) {
      SetJsonContentType(apiHeaders, headers, options.token);
      apiHeaders := Set(apiHeaders, "Content-Type", JsonType);
    }

    var timeout := if data.FormDataBody? then UploadTimeout else DefaultTimeout;
    req := Request(BaseUrl + endpoint, httpMethod, data, params, timeout, apiHeaders, onUploadProgress);
  }

  /** The HTTP response axios resolves with. */
  datatype Response = Response(status: int, data: string)

  /** An axios error: the response it carries, if any, and whether the request went out. */
  datatype AxiosError = AxiosError(response: Option<Response>, requestSent: bool)

  /** What the transport did with the request. */
  datatype Transport = Delivered(response: Response) | Failed(error: AxiosError)

  /** What `apiCall` settles to: the response body, or the value it throws. */
  datatype Outcome = Returned(data: string) | ThrownData(data: string) | ThrownError(message: string)

  /** The three-way error mapping: the response body if there is one, else one of two fixed errors. */
  function NormalizeError(e: AxiosError): (o: Outcome)
    ensures !o.Returned?
    ensures o.ThrownData? <==> e.response.Some?
    ensures o.ThrownData? ==> o.data == e.response.value.data
    ensures o.ThrownError? ==> (o.message == NoResponseMessage <==> e.requestSent)
    ensures o.ThrownError? ==> (o.message == SetupFailureMessage <==> !e.requestSent)
  {
    if e.response.Some? then ThrownData(e.response.value.data)
    else if e.requestSent then ThrownError(NoResponseMessage)
    else ThrownError(SetupFailureMessage)
  }

  /** A successful call returns the response body unchanged; a failed one never returns. */
  function Settle(t: Transport): (o: Outcome)
    ensures o.Returned? <==> t.Delivered?
    ensures t.Delivered? ==> o == Returned(t.response.data)
    ensures t.Failed? ==> o == NormalizeError(t.error)
  {
    match t
    case Delivered(r) => Returned(r.data)
    case Failed(e) => NormalizeError(e)
  }

  /**
   * `apiCall(endpoint, options)`, with what the transport did as a parameter: the
   * request axios receives, as `PrepareRequest` builds it, and what the call settles to.
   */
  method ApiCall(endpoint: string, options: Options, transport: Transport) returns (req: Request, outcome: Outcome)
    requires options.headers.Some? ==> DistinctNames(options.headers.value)
    ensures req.url == BaseUrl + endpoint
    ensures req.httpMethod == options.httpMethod.GetOr("GET")
    ensures req.data == options.data.GetOr(NullBody)
    ensures req.params == options.params.GetOr([])
    ensures req.onUploadProgress == options.onUploadProgress.GetOr(NoOpHandler)
    ensures req.timeout == if req.data.FormDataBody? then UploadTimeout else DefaultTimeout
    ensures HeadersFor(req.headers, options.headers.GetOr([]), options.token, NeedsJsonContentType(req.data, req.httpMethod))
    ensures outcome == Settle(transport)
  {
    req := PrepareRequest(endpoint, options);
    outcome := Settle(transport);
  }

  /** With no options a call is a GET with no body, JSON headers only and the short timeout. */
  lemma DefaultRequest(endpoint: string)
    ensures var h := BuildHeaders([], None);
      && h == [Entry("Accept", JsonType)]
      && Set(h, "Content-Type", JsonType) == [Entry("Accept", JsonType), Entry("Content-Type", JsonType)]
      && NeedsJsonContentType(NoOptions.data.GetOr(NullBody), NoOptions.httpMethod.GetOr("GET"))
  {
  }
}
