# Anionu API client and Jingle session lifecycle, in Dafny

This project models two small stateful parts of libsourcey and proves what they promise.

**The Anionu API client** (`modules/Anionu/src/APIClient.cpp`):
- The client keeps a registry of live API transactions. `call`/`callAsync` append a new transaction and subscribe the client to its completion event. `onTransactionComplete` erases the first entry equal to the sender. `stopWorkers` unsubscribes and cancels every entry, then clears the registry.
- Services are resolved against a cached descriptor document (`APIServices::get`). The document is refreshed once when it is invalid. The service's URI path is then rewritten by `format` (`:format`) and `interpolate` (each parameter key in `std::map` order).
- `APIRequest::prepare` decides which headers go on a request.
- `APITransaction::processCallbacks` dispatches the two completion events only for a transaction that was not cancelled.

**The Jingle session** (`modules/XMPP/src/Jingle/ISession.cpp`):
- Session-id defaulting.
- The ordered list of media sources and the `_destroySources` ownership flag.
- Teardown that deletes owned sources and only drops borrowed ones.
- The destructor's guard that the session is `Terminating`.

Files:
- `wrappers.dfy`: `Option`, `Result` and `Outcome`. Exceptions of the C++ code become `Failure`/`Fail` values.
- `strings.dfy`: `std::string::find` (`Find`), Poco's `replaceInPlace` (`ReplaceAll`, written as Poco's find-and-append loop over a start position, `ReplaceFrom`) and the `std::map<string, string>` iteration order (`StringMap`).
- `sequences.dfy`: erasing the first equal element of a vector (`RemoveFirst`) and vectors without repeats (`Distinct`).
- `anionu_services.dfy`: descriptors, the cached document, `format`, `interpolate`, `get`.
- `anionu_client.dfy`: `APIRequest`, `APITransaction`, `APIClient`.
- `jingle_session.dfy`: `ISession`.
- `scenarios.dfy`: two client-side scenarios, verified from the contracts alone.
  - A shutdown with transactions in flight.
  - An owning and a borrowing session torn down.

Each mutex-protected section is one atomic step; the nested locking on the refresh path of `get` is discussed under "## Left out". Event subscriptions are a set of listener objects. The HTTP fetch, the request-signing function, the base HTTP request preparation and the random-key generator are parameters.

## Model

| member | source | states |
|---|---|---|
| Strings.Find | modules/Anionu/src/APIClient.cpp:270 | A returned index is at or after `start`, and the pattern occurs there. |
| Strings.FindFirst | modules/Anionu/src/APIClient.cpp:270 | No occurrence lies between `start` and the returned index. `None` means no occurrence at or after `start`. |
| Strings.FindReturnsFirst | modules/Anionu/src/APIClient.cpp:270 | An occurrence with none before it is exactly what `find` from the start returns. |
| Strings.ReplaceFrom | modules/Anionu/src/APIClient.cpp:270 | Defines Poco's replace loop from a start position: with no occurrence from there the rest is copied; otherwise the text up to the occurrence, then the replacement, then the same loop right after the occurrence. |
| Strings.ReplaceAll | modules/Anionu/src/APIClient.cpp:261 | Defines `replaceInPlace(s, from, to)` as that loop started at the beginning of the text; the pattern must be non-empty. |
| Strings.ReplaceAllAtFirst | modules/Anionu/src/APIClient.cpp:270 | When the first occurrence is at `p`, the text before it is kept and the occurrence becomes the replacement. The search then resumes right after the occurrence. |
| Strings.ReplaceAllNoMatch | modules/Anionu/src/APIClient.cpp:261 | A text in which the pattern never occurs comes back unchanged. |
| Strings.ReplaceAllSameText | modules/Anionu/src/APIClient.cpp:261 | Replacing a pattern by itself leaves every text unchanged. |
| Sequences.RemoveFirst | modules/Anionu/src/APIClient.cpp:134-142 | Defines the registry after the erase-in-search loop: the first entry equal to the sender is gone. It is one shorter exactly when the sender was present. |
| Sequences.RemoveFirstAbsent | modules/Anionu/src/APIClient.cpp:134-142 | When the sender is not in the registry, the scan erases nothing. |
| Sequences.RemoveFirstAt | modules/Anionu/src/APIClient.cpp:134-140 | When the sender is first found at index `k`, only entry `k` is erased and the others keep their order. |
| Sequences.RemoveFirstMultiset | modules/Anionu/src/APIClient.cpp:137 | Erasing removes one copy of the sender if there is one, and nothing else. |
| Sequences.RemoveFirstDistinct | modules/Anionu/src/APIClient.cpp:128-143 | A registry without repeats keeps that property. The sender is absent afterwards. The registry shrinks by one exactly when the sender was present. |
| Sequences.RemoveFirstTwice | modules/Anionu/src/APIClient.cpp:128-143 | A second completion for the same transaction is a no-op. |
| AnionuServices.ValidDocument | modules/Anionu/src/APIClient.cpp:292-295 | A document is valid exactly when it has a `services` child; one with no entries counts as valid. |
| AnionuServices.Lookup | modules/Anionu/src/APIClient.cpp:347-349 | Finds the first entry with the given name in document order. `None` exactly when no entry has that name. |
| AnionuServices.UpToNul | modules/Anionu/src/APIClient.cpp:270 | The text seen through `fmt.data()`: the longest prefix of `fmt` without a NUL, ending where `fmt` ends or at its first NUL. |
| AnionuServices.Format | modules/Anionu/src/APIClient.cpp:267-272 | The new path is the old one with every `:format` replaced by `fmt` up to its first NUL. Name, method, anonymity, scheme, authority and query are unchanged. |
| AnionuServices.FormatWithoutPlaceholder | modules/Anionu/src/APIClient.cpp:267-272 | A path without `:format` is left unchanged whatever the format string. |
| AnionuServices.InterpolatePath | modules/Anionu/src/APIClient.cpp:257-264 | Defines the parameter loop: one replace-all per entry, each on the result of the previous one, in the map's ascending key order. |
| AnionuServices.InterpolateSnoc | modules/Anionu/src/APIClient.cpp:260-262 | Interpolating one more parameter replaces its key in the result of the earlier parameters. The replacements apply key after key, in iteration order. |
| AnionuServices.InterpolateNoKeys | modules/Anionu/src/APIClient.cpp:257-264 | With no parameters, or none whose key occurs in the path, the path is unchanged. |
| AnionuServices.Interpolate | modules/Anionu/src/APIClient.cpp:257-264 | The loop over the parameters leaves the service with path `InterpolatePath(path, params)`. Every other part of the service is unchanged. |
| AnionuServices.Resolve | modules/Anionu/src/APIClient.cpp:344-373 | An invalid document fails with "no service description". An unknown name fails with "unknown service". It succeeds exactly when some entry has the name. The result then has: the entry's method; `isAnonymous` iff the anonymous text is exactly `"true"`; and the URI path with `:format` replaced first (by `fmt` up to its first NUL) and the parameters interpolated after. |
| AnionuServices.ResolveAsWritten | modules/Anionu/src/APIClient.cpp:369 | Line 369 as written: succeeds and fails exactly as `Resolve`, but no resolved service is anonymous. |
| AnionuServices.AnonymousComparisonDiffers | modules/Anionu/src/APIClient.cpp:369 | For any descriptor whose anonymous text is `"true"`, `Resolve` marks the service anonymous and `ResolveAsWritten` does not. |
| AnionuServices.Refreshed | modules/Anionu/src/APIClient.cpp:339-341 | A valid document is never refreshed. An invalid one is replaced by the fetched document. A failed fetch leaves the document as it was. |
| AnionuServices.GetResult | modules/Anionu/src/APIClient.cpp:331-389 | A valid document is resolved as it is. If the document is invalid and the refresh fails, the transport error is rethrown. If the document is still invalid after the refresh, `get` fails. Whenever the refreshed document is valid, the result is its resolution, and any success is such a resolution. |
| AnionuServices.APIServices.constructor | modules/Anionu/src/APIClient.cpp:280-283 | A new descriptor cache holds an empty document. |
| AnionuServices.APIServices.IsValid | modules/Anionu/src/APIClient.cpp:292-295 | `valid()` on the cached document, as `ValidDocument`. |
| AnionuServices.APIServices.Update | modules/Anionu/src/APIClient.cpp:298-328 | A successful fetch replaces the document. A failed one leaves it unchanged and reports the transport error. |
| AnionuServices.APIServices.Get | modules/Anionu/src/APIClient.cpp:331-389 | The new document is `Refreshed(old document, fetch)`. The result is `GetResult` of the old document. |
| AnionuClient.APIRequest.constructor | modules/Anionu/src/APIClient.cpp:149 | A new request carries the given service and credentials, no form and no headers. |
| AnionuClient.SendsXml | modules/Anionu/src/APIClient.cpp:223-225 | The Content-Type condition grouped as C++ groups it: PUT, or POST without a form. |
| AnionuClient.ContentTypeOf | modules/Anionu/src/APIClient.cpp:235 | `getContentType()`: the Content-Type header's value, or empty when there is none. |
| AnionuClient.APIRequest.Prepare | modules/Anionu/src/APIClient.cpp:217-243 | Method and URI are taken from the service. User-Agent is always set. Content-Type becomes `application/xml` iff the method is PUT, or is POST without a form, as C++ groups the condition; otherwise it is left as prepared. Authorization is set to the signature iff the service is not anonymous; otherwise it is left as prepared. A signed request without a Date header fails. No other header changes. |
| AnionuClient.APITransaction.constructor | modules/Anionu/src/APIClient.cpp:397-401 | A new transaction holds its request, has no listener and is not cancelled. |
| AnionuClient.APITransaction.Subscribe | modules/Anionu/src/APIClient.cpp:179 | Subscribing adds the listener and changes nothing else. |
| AnionuClient.APITransaction.Unsubscribe | modules/Anionu/src/APIClient.cpp:121 | Unsubscribing removes the listener and changes nothing else. |
| AnionuClient.APITransaction.Cancel | modules/Anionu/src/APIClient.cpp:122 | Cancelling marks the transaction cancelled and keeps its listeners. |
| AnionuClient.APITransaction.ProcessCallbacks | modules/Anionu/src/APIClient.cpp:410-416 | A cancelled transaction dispatches nothing. Otherwise it dispatches `TransactionComplete` and then `APITransactionComplete`, each exactly once. |
| AnionuClient.APIClient.constructor | modules/Anionu/src/APIClient.cpp:52-63 | A new client has an empty registry, empty credentials and an empty descriptor document. |
| AnionuClient.APIClient.LoadServices | modules/Anionu/src/APIClient.cpp:74-89 | The document is refreshed. A fetch failure is raised only when `whiny` is set. Otherwise the result is the validity of the document after the attempt, which after a failed fetch is the old document. |
| AnionuClient.APIClient.IsOK | modules/Anionu/src/APIClient.cpp:92-96 | Reports whether the descriptor document is valid. |
| AnionuClient.APIClient.SetCredentials | modules/Anionu/src/APIClient.cpp:106-111 | Stores the username and password and leaves the registry alone. |
| AnionuClient.APIClient.CreateRequest | modules/Anionu/src/APIClient.cpp:146-150 | Returns a fresh request for the service, carrying the client's credentials. |
| AnionuClient.APIClient.CreateServiceRequest | modules/Anionu/src/APIClient.cpp:153-158 | Resolves the service through `get`. A failure creates no request. On success the request carries the resolved service and the credentials. |
| AnionuClient.APIClient.Call | modules/Anionu/src/APIClient.cpp:175-183 | The registry grows by exactly one. The new, uncancelled transaction is last, earlier entries are unchanged, and the client is its only listener. |
| AnionuClient.APIClient.CallAsync | modules/Anionu/src/APIClient.cpp:200-209 | As `Call`, for an asynchronous transaction. |
| AnionuClient.APIClient.CallService | modules/Anionu/src/APIClient.cpp:161-166 | `call`/`callAsync` by service name. The document is refreshed as by `get`. A failed resolution raises its error and leaves the registry unchanged. On success one new transaction is appended, carrying the resolved service. |
| AnionuClient.APIClient.OnTransactionComplete | modules/Anionu/src/APIClient.cpp:128-143 | The registry becomes `RemoveFirst(old registry, sender)`. It stays without repeats, and the sender is no longer in it. |
| AnionuClient.APIClient.StopWorkers | modules/Anionu/src/APIClient.cpp:114-125 | Every previously registered transaction is cancelled and has lost the client as a listener. Its other listeners are kept. The registry is empty. |
| JingleSession.ISession.Create | modules/XMPP/src/Jingle/ISession.cpp:43-56 | A non-empty sid is kept verbatim. An empty sid is replaced by the generated key. The session starts owning its sources, with none. |
| JingleSession.ISession.FromStanza | modules/XMPP/src/Jingle/ISession.cpp:59-67 | Initiator, responder and sid are copied from the stanza and nothing is generated, even for an empty sid. The session starts owning its sources, with none. |
| JingleSession.ISession.AddMediaSource | modules/XMPP/src/Jingle/ISession.cpp:85-88 | The source is appended last. Earlier sources and their order are unchanged. |
| JingleSession.ISession.RemoveMediaSources | modules/XMPP/src/Jingle/ISession.cpp:91-98 | The list is empty whatever the flag. With the flag set, every source that was in the list is deleted. With the flag clear, none is deleted and they are only dropped. |
| JingleSession.ISession.Destroy | modules/XMPP/src/Jingle/ISession.cpp:70-82 | Only a session in state `Terminating` may be destroyed. Destroying it tears the sources down once, as `RemoveMediaSources` does. |

## Behaviour worth noting

- Cancellation suppresses both `TransactionComplete` and `APITransactionComplete` (`APIClient.cpp:412-415`).
- The session destructor asserts exactly `Terminating` (`ISession.cpp:77`), so `Terminated` fails the assertion. It is a C `assert`, checked only in builds without `NDEBUG`; the model states it as the precondition of `Destroy`.
- Ownership of media sources is one flag per session, `_destroySources` (`ISession.cpp:51, 94-97`), not one per source.
- `valid()` asks only for a `services` child (`APIClient.cpp:294`). A `services` element with no entries therefore counts as valid.
- In `get`, when the refresh itself fails, the transport exception is rethrown (`APIClient.cpp:341, 382-386`). "No service description available" is raised only when the refresh succeeds but yields an invalid document.

## Findings

| source | as written | input that shows it | evidently intended | confidence | as-written member | corrected member |
|---|---|---|---|---|---|---|
| modules/Anionu/src/APIClient.cpp:369 | `child_value() == "true"` compares the `const char*` returned by the XML node with the address of the literal, which never match, so `isAnonymous` is always false | a descriptor with `<anonymous>true</anonymous>`: it is still signed, and `prepare` then needs a Date header | compare the text, so that `"true"` marks the service anonymous | medium, not executed; it rests on `XML::Node` being pugixml's node, whose `child_value()` returns a `const char*` | AnionuServices.ResolveAsWritten, AnionuServices.AnonymousComparisonDiffers | AnionuServices.Resolve |

## Left out

- SSL context setup in the client constructor (`SSLManager`): foreign, process-global state.
- The HTTP exchange of `APIServices::update`: network I/O. It is not modelled: no endpoint rewriting, no 5-second timeout, no status handling. Its outcome is the `FetchOutcome` parameter: a parsed document or a failure.
- The XML tree and the XPath query: the document is the list of its `<service>` entries. Lookup looks for the first entry with the given name. The model does not capture two XPath effects: a `name` element elsewhere in the document also matching, and a name containing a quote breaking the query.
- URI parsing and `URI::toString`: a descriptor's URI is given parsed, and the signing function receives the `Uri` value.
- The `_DEBUG` endpoint override in `get`: it depends on the build configuration.
- `AnionuAuthenticator::generateAuthHeader`: an external signing function. It is the `sign` parameter of `Prepare`.
- `HTTP::Request::prepare`: external. It is the `basePrepare` parameter. Header names are compared exactly, whereas Poco compares them without regard to case.
- `CryptoProvider::generateRandomKey(16)`: randomness. Its value is the `randomKey` parameter of `ISession.Create`. Distinctness of two generated keys is not modelled.
- Mutexes and delegate machinery: each locked section is one atomic step, and a subscription is membership of the client object in `completeListeners`. Concurrent completion racing `stopWorkers` is not modelled.
- Logging, `write(cout)` and `ISession::print`: output only.
- `APIClient::services()`: an accessor returning a reference.
- The `call(APIService)` and `callAsync(APIService)` overloads: they are `CreateRequest` followed by `Call`/`CallAsync`.
- The `APIClient` destructor: Dafny has no destructors. It calls `stopWorkers`, which is `StopWorkers`.
- The state machines of `HTTP::Transaction` and of the Jingle session base class are defined in files not in this model. `cancel()` is modelled only as setting the cancelled flag, and a session's state is a plain field.
- `AnionuClient.APIRequest.constructor`: the request starts with no form attached. The declaration of the `form` member is not part of this model.
- `AnionuServices.Interpolate`: requires every parameter key to be non-empty. The same holds for `ReplaceAll`, `InterpolatePath`, `Resolve`, `Get` and the request/call members that use them. Poco's `replaceInPlace` asserts a non-empty pattern, and the model states this as a precondition rather than an error result.
- `JingleSession.ISession.RemoveMediaSources`: for an owning session, requires the sources to be distinct and not yet deleted by this session. `Util::ClearVector` deletes each element, and deleting a pointer twice is undefined in C++. The same requirement is on `Destroy`.
- Strings are sequences of characters compared by code point: no encoding.
- `JingleSession.ISession.Destroy`: requires the state `Terminating`, as the assertion at `ISession.cpp:77` does. In a build with `NDEBUG` the assertion is compiled out and the sources are torn down in any state; that behaviour is not modelled.
- `AnionuServices.Resolve`: the rewritten path is stored as text, whereas the code writes it back with Poco's `URI::setPath` (`APIClient.cpp:263, 271`), which percent-decodes it and throws `SyntaxException` on a `%` not followed by two hex digits; `get` rethrows that (`APIClient.cpp:382-386`). The model therefore neither decodes escapes such as `%2F` nor fails on a malformed one. The same holds for `Format`, `Interpolate`, `GetResult`, `APIServices.Get` and the members that call them. Parsing the descriptor URI (`APIClient.cpp:358`) and its errors are left out for the same reason: URI parsing is not modelled.
- `AnionuServices.APIServices.Get`: on an invalid document the code calls `update()` (`APIClient.cpp:341`) while still holding `_mutex` (`APIClient.cpp:334`), and `update()` locks the same `FastMutex` again (`APIClient.cpp:301`). Poco's `FastMutex` is not recursive on POSIX, so this path would deadlock there; on Windows the critical section is recursive and the call returns. The model treats the whole of `get` as one atomic step and gives a result on this path; that is how it behaves on a platform with a recursive lock, and the possible deadlock is not represented.
