/** The Anionu service descriptors: the cached descriptor document
    (`APIServices`), the resolved service (`APIService`) with its `format` and
    `interpolate` rewrites of the URI path, and `APIServices::get`.
    The XML document is modelled by the list of `<service>` records it holds;
    the HTTP fetch that refreshes it is a parameter (`FetchOutcome`). */
module AnionuServices {

  import opened Wrappers
  import opened Strings

  /** A parsed URI; `format` and `interpolate` rewrite only its path. */
  datatype Uri = Uri(scheme: string, authority: string, path: string, query: string)

  /** One `<service>` entry of the descriptor document: the text of its
      `name`, `method`, `uri` (already parsed) and `anonymous` children. */
  datatype Descriptor = Descriptor(name: string, httpMethod: string, uri: Uri, anonymous: string)

  /** The cached descriptor document: nothing loaded yet, or a loaded
      document with or without a `services` child. Only the `services` child
      matters to `valid()`. */
  datatype Document = EmptyDocument | Loaded(services: Option<seq<Descriptor>>)

  /** What the refresh of `APIServices::update` produced: the parsed document,
      or the exception the HTTP exchange raised. */
  datatype FetchOutcome = Fetched(document: Document) | FetchFailed(reason: string)

  datatype Error =
    | Transport(reason: string)   // rethrown from the refresh
    | Unavailable                 // "No service description available."
    | UnknownService(name: string) // "No service description available for: " + name

  /** A resolved service description. */
  datatype APIService = APIService(name: string, httpMethod: string, uri: Uri, isAnonymous: bool)

  const FormatPlaceholder: string := ":format"

  /** `APIServices::valid`: the document has a `services` child. */
  predicate ValidDocument(doc: Document) {
    doc.Loaded? && doc.services.Some?
  }

  /** The first service entry whose name is `name` (the XPath query selects
      the first match in document order). */
  function Lookup(list: seq<Descriptor>, name: string): (r: Option<Descriptor>)
    ensures r.None? <==> forall d :: d in list ==> d.name != name
    ensures r.Some? ==> exists k :: 0 <= k < |list| && list[k] == r.value && r.value.name == name &&
                                    forall i :: 0 <= i < k ==> list[i].name != name
  {
    if list == [] then None
    else if list[0].name == name then Some(list[0])
    else
      var r := Lookup(list[1..], name);
      assert r.Some? ==> exists k :: 0 <= k < |list[1..]| && list[1..][k] == r.value && r.value.name == name &&
                                     forall i :: 0 <= i < k ==> list[1..][i].name != name;
      r
  }

  /** The text a `const char*` made from `s` by `data()` denotes: `s` up to,
      and without, its first NUL character. */
  function UpToNul(s: string): (r: string)
    ensures |r| <= |s| && r == s[..|r|]
    ensures '\0' !in r
    ensures |r| < |s| ==> s[|r|] == '\0'
  {
    if s == [] || s[0] == '\0' then []
    else [s[0]] + UpToNul(s[1..])
  }

  /** `APIService::format`: every `:format` in the path becomes `fmt`, passed
      as `fmt.data()` and so read up to its first NUL; the rest of the service
      is untouched. */
  function Format(svc: APIService, fmt: string): (r: APIService)
    ensures r.uri.path == ReplaceAll(svc.uri.path, FormatPlaceholder, UpToNul(fmt))
    ensures r.name == svc.name && r.httpMethod == svc.httpMethod && r.isAnonymous == svc.isAnonymous
    ensures r.uri.scheme == svc.uri.scheme && r.uri.authority == svc.uri.authority && r.uri.query == svc.uri.query
  {
    svc.(uri := svc.uri.(path := ReplaceAll(svc.uri.path, FormatPlaceholder, UpToNul(fmt))))
  }

  /** A path without `:format` is left as it is, whatever the format. */
  lemma FormatWithoutPlaceholder(svc: APIService, fmt: string)
    requires !Occurs(svc.uri.path, FormatPlaceholder)
    ensures Format(svc, fmt) == svc
  {
    ReplaceAllNoMatch(svc.uri.path, FormatPlaceholder, UpToNul(fmt));
  }

  /** The path after replacing each key of `params` by its value, key after
      key in iteration order. */
  function InterpolatePath(path: string, params: seq<(string, string)>): string
    requires NonEmptyKeys(params)
    decreases params
  {
    if params == [] then path
    else InterpolatePath(ReplaceAll(path, params[0].0, params[0].1), params[1..])
  }

  /** Interpolating one more entry rewrites the result of the earlier ones. */
  lemma {:induction false} InterpolateSnoc(path: string, params: seq<(string, string)>, kv: (string, string))
    requires NonEmptyKeys(params) && kv.0 != []
    ensures NonEmptyKeys(params + [kv])
    ensures InterpolatePath(path, params + [kv]) == ReplaceAll(InterpolatePath(path, params), kv.0, kv.1)
    decreases params
  {
    if params != [] {
      assert (params + [kv])[1..] == params[1..] + [kv];
      InterpolateSnoc(ReplaceAll(path, params[0].0, params[0].1), params[1..], kv);
    }
  }

  /** With no entries, or none whose key occurs in the path, the path is unchanged. */
  lemma {:induction false} InterpolateNoKeys(path: string, params: seq<(string, string)>)
    requires NonEmptyKeys(params)
    requires forall i :: 0 <= i < |params| ==> !Occurs(path, params[i].0)
    ensures InterpolatePath(path, params) == path
    decreases params
  {
    if params != [] {
      ReplaceAllNoMatch(path, params[0].0, params[0].1);
      InterpolateNoKeys(path, params[1..]);
    }
  }

  /** `APIService::interpolate`: a loop over `params` rewriting a local copy
      of the path, which is stored back at the end. */
  method Interpolate(svc: APIService, params: StringMap) returns (r: APIService)
    requires NonEmptyKeys(params)
    ensures r == svc.(uri := svc.uri.(path := InterpolatePath(svc.uri.path, params)))
  {
    var path := svc.uri.path;
    var i := 0;
    while i < |params|
      invariant 0 <= i <= |params|
      invariant NonEmptyKeys(params[..i])
      invariant path == InterpolatePath(svc.uri.path, params[..i])
    {
      InterpolateSnoc(svc.uri.path, params[..i], params[i]);
      assert params[..i + 1] == params[..i] + [params[i]];
      path := ReplaceAll(path, params[i].0, params[i].1);
      i := i + 1;
    }
    assert params[..i] == params;
    r := svc.(uri := svc.uri.(path := path));
  }

  /** The part of `APIServices::get` after the refresh: the validity check,
      the lookup, the parse of the entry, then `format` and `interpolate`. */
  function Resolve(doc: Document, name: string, fmt: string, params: StringMap): (r: Result<APIService, Error>)
    requires NonEmptyKeys(params)
    ensures !ValidDocument(doc) ==> r == Failure(Unavailable)
    ensures ValidDocument(doc) ==>
      (r.Success? <==> exists d :: d in doc.services.value && d.name == name)
    ensures ValidDocument(doc) && r.Failure? ==> r.error == UnknownService(name)
    ensures r.Success? ==>
      var d := Lookup(doc.services.value, name).value;
      && r.value.name == name
      && r.value.httpMethod == d.httpMethod
      && r.value.isAnonymous == (d.anonymous == "true")
      && r.value.uri == d.uri.(path := InterpolatePath(ReplaceAll(d.uri.path, FormatPlaceholder, UpToNul(fmt)), params))
  {
    if !ValidDocument(doc) then Failure(Unavailable)
    else match Lookup(doc.services.value, name)
      case None => Failure(UnknownService(name))
      case Some(d) =>
        var svc := Format(APIService(d.name, d.httpMethod, d.uri, d.anonymous == "true"), fmt);
        Success(svc.(uri := svc.uri.(path := InterpolatePath(svc.uri.path, params))))
  }

  /** `get` as `APIClient.cpp` line 369 is written: `child_value()` yields a
      `const char*`, and `==` against the literal `"true"` compares two
      addresses, never equal, so every resolved service counts as needing a
      signature. Otherwise as Resolve. */
  function ResolveAsWritten(doc: Document, name: string, fmt: string, params: StringMap): (r: Result<APIService, Error>)
    requires NonEmptyKeys(params)
    ensures r.Success? <==> Resolve(doc, name, fmt, params).Success?
    ensures r.Failure? ==> r == Resolve(doc, name, fmt, params)
    ensures r.Success? ==> !r.value.isAnonymous && r.value == Resolve(doc, name, fmt, params).value.(isAnonymous := false)
  {
    match Resolve(doc, name, fmt, params)
    case Success(svc) => Success(svc.(isAnonymous := false))
    case Failure(e) => Failure(e)
  }

  /** A descriptor marked `<anonymous>true</anonymous>` is anonymous under
      Resolve but needs a signature under ResolveAsWritten. */
  lemma AnonymousComparisonDiffers(d: Descriptor, fmt: string, params: StringMap)
    requires NonEmptyKeys(params) && d.anonymous == "true"
    ensures var doc := Loaded(Some([d]));
      && Resolve(doc, d.name, fmt, params).Success?
      && Resolve(doc, d.name, fmt, params).value.isAnonymous
      && !ResolveAsWritten(doc, d.name, fmt, params).value.isAnonymous
  {
    var doc := Loaded(Some([d]));
    assert d in doc.services.value;
  }

  /** The document after the refresh `get` performs when the cached one is invalid. */
  function Refreshed(doc: Document, fetch: FetchOutcome): (r: Document)
    ensures ValidDocument(doc) ==> r == doc
    ensures fetch.FetchFailed? ==> r == doc
    ensures !ValidDocument(doc) && fetch.Fetched? ==> r == fetch.document
  {
    if ValidDocument(doc) then doc
    else match fetch
      case Fetched(fetched) => fetched
      case FetchFailed(_) => doc
  }

  /** The outcome of `APIServices::get` on document `doc`: a valid document
      is used as it is; otherwise one refresh is tried, whose failure is
      rethrown, and a document still invalid after it is refused. */
  function GetResult(doc: Document, fetch: FetchOutcome, name: string, fmt: string, params: StringMap): (r: Result<APIService, Error>)
    requires NonEmptyKeys(params)
    ensures ValidDocument(doc) ==> r == Resolve(doc, name, fmt, params)
    ensures !ValidDocument(doc) && fetch.FetchFailed? ==> r == Failure(Transport(fetch.reason))
    ensures !ValidDocument(Refreshed(doc, fetch)) && !(!ValidDocument(doc) && fetch.FetchFailed?) ==> r == Failure(Unavailable)
    ensures r.Success? ==> ValidDocument(Refreshed(doc, fetch)) && r == Resolve(Refreshed(doc, fetch), name, fmt, params)
    ensures ValidDocument(Refreshed(doc, fetch)) ==> r == Resolve(Refreshed(doc, fetch), name, fmt, params)
  {
    if !ValidDocument(doc) && fetch.FetchFailed? then Failure(Transport(fetch.reason))
    else Resolve(Refreshed(doc, fetch), name, fmt, params)
  }

  /** The cached descriptor document (`APIServices`). */
  class APIServices {
    var document: Document

    constructor ()
      ensures document == EmptyDocument
    {
      document := EmptyDocument;
    }

    /** `APIServices::valid()`: the cached document is usable. */
    predicate IsValid()
      reads this
    {
      ValidDocument(document)
    }

    /** `APIServices::update`: a successful fetch replaces the document, a
        failed one leaves it as it was and reports the failure. */
    method Update(fetch: FetchOutcome) returns (r: Outcome<Error>)
      modifies this
      ensures fetch.Fetched? ==> r == Pass && document == fetch.document
      ensures fetch.FetchFailed? ==> r == Fail(Transport(fetch.reason)) && document == old(document)
    {
      match fetch
      case Fetched(doc) =>
        document := doc;
        r := Pass;
      case FetchFailed(reason) =>
        r := Fail(Transport(reason));
    }

    /** `APIServices::get`: one refresh when the document is invalid, then
        `Resolve`; `fetch` is what that refresh would fetch. */
    method Get(name: string, fmt: string, params: StringMap, fetch: FetchOutcome) returns (r: Result<APIService, Error>)
      requires NonEmptyKeys(params)
      modifies this
      ensures document == Refreshed(old(document), fetch)
      ensures r == GetResult(old(document), fetch, name, fmt, params)
    {
      if !IsValid() {
        var updated := Update(fetch);
        if updated.Fail? {
          return Failure(updated.error);
        }
      }
      if !IsValid() {
        return Failure(Unavailable);
      }
      var found := Lookup(document.services.value, name);
      if found.None? {
        return Failure(UnknownService(name));
      }
      var d := found.value;
      var svc := APIService(d.name, d.httpMethod, d.uri, d.anonymous == "true");
      svc := Format(svc, fmt);
      svc := Interpolate(svc, params);
      r := Success(svc);
    }
  }

}
