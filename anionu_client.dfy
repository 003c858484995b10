/** The Anionu API client: requests (`APIRequest::prepare`), transactions
    (`APITransaction`, its cancellation and its completion events) and the
    client's registry of live transactions (`APIClient`). The client's mutex
    is not modelled: every locked section is one atomic step. */
module AnionuClient {

  import opened Wrappers
  import opened Strings
  import opened Sequences
  import opened AnionuServices

  datatype Credentials = Credentials(username: string, password: string)

  /** The arguments of the external request-signing function
      (`AnionuAuthenticator::generateAuthHeader`). */
  datatype AuthInput = AuthInput(username: string, password: string, httpMethod: string,
                                 uri: Uri, contentType: string, date: string)

  const UserAgent: string := "Anionu C++ API"
  const XmlContentType: string := "application/xml"

  /** The condition of `prepare` for an XML body, grouped as C++ groups
      `!form && method == "POST" || method == "PUT"`. */
  predicate SendsXml(httpMethod: string, hasForm: bool) {
    (!hasForm && httpMethod == "POST") || httpMethod == "PUT"
  }

  /** `getContentType()`: the Content-Type header, or the empty string. */
  function ContentTypeOf(headers: map<string, string>): string {
    if "Content-Type" in headers then headers["Content-Type"] else ""
  }

  /** Header `h` is the same (present with the same value, or absent) in both. */
  predicate SameHeader(a: map<string, string>, b: map<string, string>, h: string) {
    (h in a <==> h in b) && (h in a ==> a[h] == b[h])
  }

  /** An HTTP request for one resolved service (`APIRequest`). */
  class APIRequest {
    const service: APIService
    const credentials: Credentials
    var hasForm: bool
    var httpMethod: string
    var uri: Uri
    var headers: map<string, string>

    constructor (service: APIService, credentials: Credentials)
      ensures this.service == service && this.credentials == credentials
      ensures !hasForm && headers == map[]
    {
      this.service := service;
      this.credentials := credentials;
      hasForm := false;
      httpMethod := "GET";
      uri := Uri("", "", "/", "");
      headers := map[];
    }

    /** `APIRequest::prepare`. `basePrepare` is the base HTTP request's own
        preparation of the headers; `sign` is the external signing function.
        Fails (`ok` false) when a signed request has no Date header to sign,
        where `NameValueCollection::get` throws. */
    method Prepare(basePrepare: map<string, string> -> map<string, string>, sign: AuthInput -> string)
      returns (ok: bool)
      modifies this
      ensures httpMethod == service.httpMethod && uri == service.uri && hasForm == old(hasForm)
      ensures var base := basePrepare(old(headers));
        && "User-Agent" in headers && headers["User-Agent"] == UserAgent
        && (SendsXml(service.httpMethod, hasForm) ==>
              "Content-Type" in headers && headers["Content-Type"] == XmlContentType)
        && (!SendsXml(service.httpMethod, hasForm) ==> SameHeader(headers, base, "Content-Type"))
        && (ok <==> service.isAnonymous || "Date" in base)
        && (ok && !service.isAnonymous ==>
              "Authorization" in headers &&
              headers["Authorization"] == sign(AuthInput(credentials.username, credentials.password,
                                                         service.httpMethod, service.uri,
                                                         ContentTypeOf(headers), base["Date"])))
        && (!(ok && !service.isAnonymous) ==> SameHeader(headers, base, "Authorization"))
        && (forall h :: h != "User-Agent" && h != "Content-Type" && h != "Authorization" ==>
              SameHeader(headers, base, h))
    {
      httpMethod := service.httpMethod;
      uri := service.uri;
      headers := basePrepare(headers);
      ghost var base := headers;
      headers := headers["User-Agent" := UserAgent];
      if (!hasForm && service.httpMethod == "POST") || service.httpMethod == "PUT" {
        headers := headers["Content-Type" := XmlContentType];
      }
      if !service.isAnonymous {
        if "Date" !in headers {
          return false;
        }
        var input := AuthInput(credentials.username, credentials.password, service.httpMethod,
                               service.uri, ContentTypeOf(headers), headers["Date"]);
        headers := headers["Authorization" := sign(input)];
      }
      ok := true;
    }
  }

  /** The two completion events of a transaction. */
  datatype Event = TransactionComplete | APITransactionComplete

  /** One API call in flight (`APITransaction`, or `AsyncTransaction` when
      `isAsync`). `completeListeners` are the objects whose delegate is
      subscribed to `TransactionComplete`. */
  class APITransaction {
    const request: APIRequest
    const isAsync: bool
    var completeListeners: set<object>
    var cancelled: bool

    constructor (request: APIRequest, isAsync: bool)
      ensures this.request == request && this.isAsync == isAsync
      ensures completeListeners == {} && !cancelled
    {
      this.request := request;
      this.isAsync := isAsync;
      completeListeners := {};
      cancelled := false;
    }

    /** `TransactionComplete += delegate(listener, ...)`. */
    method Subscribe(listener: object)
      modifies this
      ensures completeListeners == old(completeListeners) + {listener}
      ensures cancelled == old(cancelled)
    {
      completeListeners := completeListeners + {listener};
    }

    /** `TransactionComplete -= delegate(listener, ...)`. */
    method Unsubscribe(listener: object)
      modifies this
      ensures completeListeners == old(completeListeners) - {listener}
      ensures cancelled == old(cancelled)
    {
      completeListeners := completeListeners - {listener};
    }

    /** `cancel()`: marks the transaction cancelled. */
    method Cancel()
      modifies this
      ensures cancelled
      ensures completeListeners == old(completeListeners)
    {
      cancelled := true;
    }

    /** `APITransaction::processCallbacks`: the events dispatched, in order.
        A cancelled transaction dispatches neither of them. */
    method ProcessCallbacks() returns (dispatched: seq<Event>)
      ensures cancelled ==> dispatched == []
      ensures !cancelled ==> dispatched == [TransactionComplete, APITransactionComplete]
    {
      dispatched := [];
      if !cancelled {
        dispatched := dispatched + [TransactionComplete];
        dispatched := dispatched + [APITransactionComplete];
      }
    }
  }

  /** The API client (`APIClient`): the descriptor cache, the credentials and
      the registry of live transactions. */
  class APIClient {
    const services: APIServices
    var credentials: Credentials
    var transactions: seq<APITransaction>

    /** No transaction is registered twice. */
    ghost predicate Valid()
      reads this
    {
      Distinct(transactions)
    }

    constructor ()
      ensures Valid() && fresh(services)
      ensures services.document == EmptyDocument
      ensures transactions == [] && credentials == Credentials("", "")
    {
      services := new APIServices();
      credentials := Credentials("", "");
      transactions := [];
    }

    /** `APIClient::loadServices(whiny)`: refreshes the descriptor document;
        a failure is raised only when `whiny`, otherwise the validity of the
        (possibly old) document is returned. */
    method LoadServices(whiny: bool, fetch: FetchOutcome) returns (r: Result<bool, Error>)
      modifies services
      ensures services.document == (if fetch.Fetched? then fetch.document else old(services.document))
      ensures whiny && fetch.FetchFailed? ==> r == Failure(Transport(fetch.reason))
      ensures !(whiny && fetch.FetchFailed?) ==> r == Success(ValidDocument(services.document))
    {
      var updated := services.Update(fetch);
      if updated.Fail? && whiny {
        return Failure(updated.error);
      }
      var valid := services.IsValid();
      r := Success(valid);
    }

    /** `APIClient::isOK`: whether the descriptor document is valid. */
    method IsOK() returns (ok: bool)
      ensures ok == ValidDocument(services.document)
    {
      ok := services.IsValid();
    }

    method SetCredentials(username: string, password: string)
      modifies this
      ensures credentials == Credentials(username, password)
      ensures transactions == old(transactions)
    {
      credentials := Credentials(username, password);
    }

    /** `createRequest(service)`: a new request carrying the client's credentials. */
    method CreateRequest(service: APIService) returns (request: APIRequest)
      ensures fresh(request)
      ensures request.service == service && request.credentials == credentials
      ensures !request.hasForm && request.headers == map[]
    {
      request := new APIRequest(service, credentials);
    }

    /** `createRequest(service, format, params)`: resolves the service with
        `APIServices::get` and creates its request; a failed resolution
        raises and creates nothing. */
    method CreateServiceRequest(name: string, fmt: string, params: StringMap, fetch: FetchOutcome)
      returns (r: Result<APIRequest, Error>)
      requires NonEmptyKeys(params)
      modifies services
      ensures services.document == Refreshed(old(services.document), fetch)
      ensures var resolved := GetResult(old(services.document), fetch, name, fmt, params);
        && (r.Failure? <==> resolved.Failure?)
        && (r.Failure? ==> r.error == resolved.error)
        && (r.Success? ==>
              && fresh(r.value)
              && r.value.service == resolved.value && r.value.credentials == credentials
              && !r.value.hasForm && r.value.headers == map[])
    {
      var service := services.Get(name, fmt, params, fetch);
      if service.Failure? {
        return Failure(service.error);
      }
      var request := CreateRequest(service.value);
      r := Success(request);
    }

    /** `call(request)`: a new transaction, subscribed to by the client and
        appended to the registry. */
    method Call(request: APIRequest) returns (t: APITransaction)
      requires Valid()
      modifies this
      ensures Valid() && fresh(t)
      ensures t.request == request && !t.isAsync
      ensures t.completeListeners == {this} && !t.cancelled
      ensures transactions == old(transactions) + [t]
      ensures credentials == old(credentials)
    {
      t := new APITransaction(request, false);
      t.Subscribe(this);
      transactions := transactions + [t];
    }

    /** `callAsync(request)`: as `call`, for an asynchronous transaction. */
    method CallAsync(request: APIRequest) returns (t: APITransaction)
      requires Valid()
      modifies this
      ensures Valid() && fresh(t)
      ensures t.request == request && t.isAsync
      ensures t.completeListeners == {this} && !t.cancelled
      ensures transactions == old(transactions) + [t]
      ensures credentials == old(credentials)
    {
      t := new APITransaction(request, true);
      t.Subscribe(this);
      transactions := transactions + [t];
    }

    /** `call(service, format, params)` and `callAsync(service, format, params)`:
        resolve the service, create its request and register a transaction.
        A failed resolution raises and registers nothing. */
    method CallService(name: string, fmt: string, params: StringMap, fetch: FetchOutcome, async: bool)
      returns (r: Result<APITransaction, Error>)
      requires Valid() && NonEmptyKeys(params)
      modifies this, services
      ensures Valid()
      ensures services.document == Refreshed(old(services.document), fetch)
      ensures var resolved := GetResult(old(services.document), fetch, name, fmt, params);
        && (r.Failure? <==> resolved.Failure?)
        && (r.Failure? ==> r.error == resolved.error && transactions == old(transactions))
        && (r.Success? ==>
              && fresh(r.value) && fresh(r.value.request)
              && r.value.request.service == resolved.value
              && r.value.request.credentials == credentials
              && r.value.isAsync == async
              && r.value.completeListeners == {this} && !r.value.cancelled
              && transactions == old(transactions) + [r.value])
      ensures credentials == old(credentials)
    {
      var request := CreateServiceRequest(name, fmt, params, fetch);
      if request.Failure? {
        return Failure(request.error);
      }
      var t;
      if async {
        t := CallAsync(request.value);
      } else {
        t := Call(request.value);
      }
      r := Success(t);
    }

    /** `onTransactionComplete(sender)`: erases the first registry entry
        equal to `sender`; without one, nothing changes. */
    method OnTransactionComplete(sender: APITransaction)
      requires Valid()
      modifies this
      ensures Valid()
      ensures transactions == RemoveFirst(old(transactions), sender)
      ensures sender !in transactions
      ensures credentials == old(credentials)
    {
      var i := 0;
      while i < |transactions|
        invariant 0 <= i <= |transactions|
        invariant transactions == old(transactions)
        invariant forall k :: 0 <= k < i ==> transactions[k] != sender
      {
        if transactions[i] == sender {
          RemoveFirstAt(transactions, sender, i);
          RemoveFirstDistinct(transactions, sender);
          transactions := transactions[..i] + transactions[i + 1..];
          return;
        }
        i := i + 1;
      }
      RemoveFirstAbsent(transactions, sender);
    }

    /** `stopWorkers()`: every registered transaction loses the client's
        listener and is cancelled, then the registry is cleared. */
    method StopWorkers()
      requires Valid()
      modifies this, transactions
      ensures Valid() && transactions == []
      ensures forall t :: t in old(transactions) ==>
        t.cancelled && t.completeListeners == old(t.completeListeners) - {this}
      ensures credentials == old(credentials)
    {
      var i := 0;
      while i < |transactions|
        invariant 0 <= i <= |transactions|
        invariant transactions == old(transactions) && credentials == old(credentials)
        invariant forall k :: 0 <= k < i ==>
          transactions[k].cancelled && transactions[k].completeListeners == old(transactions[k].completeListeners) - {this}
        invariant forall k :: i <= k < |transactions| ==>
          transactions[k].cancelled == old(transactions[k].cancelled) &&
          transactions[k].completeListeners == old(transactions[k].completeListeners)
      {
        var t := transactions[i];
        t.Unsubscribe(this);
        t.Cancel();
        i := i + 1;
      }
      transactions := [];
    }
  }

}
