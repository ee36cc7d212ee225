# mymicro core, modelled in Dafny

This project models the parts of the mymicro microservice runtime that have
behaviour you can state. The runtime is written in Go.

- **Discovery resolver** (`Discovery`, `DiscoveryBuilder`). It parses and
  builds endpoint URIs of the form `scheme://host[?isSecure=true]`. `update`
  turns a registry's instance lists into gRPC address lists, the watch loop
  polls a registry watcher, and the builder applies its options and creates
  the resolver.
- **Direct resolver** (`Direct`). It splits a comma-separated target path
  into a static address list.
- **Balancer glue** (`Balancer`). It builds a picker over the ready
  sub-connections, passes picks through to a selector and forwards call
  outcomes to it. It also has the trailer lookup.
- **Application orchestrator** (`AppOptions`, `App`). It covers the option
  defaults and setters, `buildInstance`, `Stop`, and the sequential order
  of `Run`.
- **Validators and parsers.**
  - The mobile-number validator (`Validation`), written as a hand-coded
    automaton.
  - The Basic authentication middleware (`Auth`).
  - The error-comment parser of the code generator (`Codegen`), written as
    a hand-coded matcher for its one regular expression.

Supporting modules:

- `Common` holds Option, Result, the Go errors the code tells apart, and the
  `strings` functions the code calls.
- `NetUrl` holds the parts of `net/url` and `strconv` that endpoints go
  through: `url.Parse` restricted to what endpoints use, `URL.String`,
  `Query().Get` and `ParseBool`.
- `Registry` holds the service instance and the documented Watcher
  contract.
- `Grpc` holds `resolver.Address`, a client connection that records every
  state published to it, and a cancellable context.

Interfaces whose code is not shown are modelled as inputs:

- the registrar's answers;
- what the discoverer's `Watch` and the watcher's `Next` return;
- the selector's choice;
- the base64 decoder and the credential check.

Concurrency is flattened to the orders the code allows. Three things become
inputs:

- which event ends `Run`'s wait: a signal, a failing task, or a `Stop`
  called from elsewhere;
- whether `Build`'s timeout fires first;
- the iteration order of Go maps. Loops choose the next key with `:|`, as
  Go leaves that order open.

## Model

| member | source | states |
|---|---|---|
| Common.FirstError | micro/app/app.go:132-135 | errgroup's Wait: no error exactly when every task returned nil; otherwise the first non-nil result, with all earlier results nil |
| Common.SplitN2 | micro/server/restserver/middlewares/auth/basic.go:31 | strings.SplitN(s, sep, 2): two parts exactly when the separator occurs; they are the text before its first occurrence (separator-free) and everything after |
| Common.TrimPrefix | micro/server/rpcserver/resolver/discovery/builder.go:30 | strings.TrimPrefix removes the prefix once when present, and otherwise returns the string unchanged |
| Common.JoinSplit | micro/server/rpcserver/resolver/direct/builder.go:20 | joining the pieces of strings.Split with the separator gives back the split string |
| Common.SplitJoin | micro/server/rpcserver/resolver/direct/builder.go:20 | splitting the join of separator-free pieces gives the pieces back |
| Common.SplitLength | micro/server/rpcserver/resolver/direct/builder.go:20 | strings.Split gives one more piece than the separator has occurrences |
| Common.SplitPiecesFree | micro/server/rpcserver/resolver/direct/builder.go:20 | no piece of a split contains the separator |
| Common.Lower | micro/server/rpcserver/balancer.go:78 | metadata keys are lower-cased per character: same length, each upper-case ASCII letter mapped to its lower-case letter |
| Common.LowerIdempotent | micro/server/rpcserver/balancer.go:78 | lower-casing a lower-cased key changes nothing |
| NetUrl.ParseBool | micro/server/rpcserver/resolver/discovery/resolver.go:127 | strconv.ParseBool: true exactly for its six true spellings, false exactly for its six false spellings, an error for anything else |
| NetUrl.GetSchemeValid | micro/server/rpcserver/resolver/discovery/resolver.go:113 | url.Parse takes a valid scheme followed by ':' as the scheme |
| NetUrl.ParseToString | micro/server/rpcserver/resolver/discovery/resolver.go:113 | a `scheme://host[?query]` URL whose host is ASCII made only of characters escaping leaves alone, with a valid port, and whose query has no '#' or control character, once formatted by URL.String, parses back to the same scheme, host and raw query |
| NetUrl.ParseEmptyAuthority | micro/server/rpcserver/resolver/direct/builder.go:20 | a `scheme:///raw` target parses with an empty host and the percent-decoded path of `/raw`, and does not parse when that path does not decode |
| NetUrl.ToStringNoPath | micro/app/app.go:168-172 | URL.String of a URL without a path is the scheme, ':', then `//` and the host escaped as escape(host, encodeHost) does when there is a host, then `?query` when there is a query |
| NetUrl.EscapeHostUnchanged | micro/app/app.go:168-172 | escaping writes a host unchanged exactly when every character is a letter, a digit, one of `-_.~!$&'()*+,;=:[]<>"`, or above ASCII |
| NetUrl.EscapeHostOutput | micro/app/app.go:168-172 | an escaped host holds only characters escaping leaves alone and '%' |
| NetUrl.EscapeHostRoundTrip | micro/app/app.go:168-172 | url.Parse's host decoding undoes escaping: a host of characters escaping leaves alone and '%' decodes back to itself |
| NetUrl.EscapedHostRefused | micro/app/app.go:168-172 | a host holding an ASCII character that escaping changes, other than '%', is refused once escaped: its escape is below %80 and is not %25 |
| NetUrl.UnescapeConcat | micro/server/rpcserver/resolver/discovery/resolver.go:113 | percent-decoding works piece by piece: two strings that decode, joined, decode to the two decodings joined |
| NetUrl.UnescapeConcatRefused | micro/server/rpcserver/resolver/discovery/resolver.go:113 | a string that decodes followed by one that does not does not decode |
| NetUrl.UnescapeVerbatimHost | micro/server/rpcserver/resolver/discovery/resolver.go:113 | a host made only of characters escaping leaves alone decodes to itself |
| NetUrl.UnescapeRefusesHost | micro/server/rpcserver/resolver/discovery/resolver.go:113 | a host holding an ASCII character that escaping would change, other than '%', does not decode |
| NetUrl.UnescapeNoEscapes | micro/server/rpcserver/resolver/discovery/resolver.go:127 | a path or query component with no '%' (and, in a query, no '+') decodes to itself |
| NetUrl.UnescapeSplit | micro/server/rpcserver/resolver/discovery/resolver.go:127 | in a path or query component, one `%XX` among characters that need no decoding becomes the character with code XX, and the rest is kept |
| NetUrl.ParseRefusesHost | micro/server/rpcserver/resolver/discovery/resolver.go:113-116 | `scheme://host` does not parse when the host holds a space or another ASCII character that escaping would change, other than '%' |
| NetUrl.QueryGetOnePair | micro/server/rpcserver/resolver/discovery/resolver.go:127 | a raw query of one pair gives that pair's decoded value when its decoded key is the one asked for, and "" otherwise; a pair with ';' or one that does not decode gives "" |
| Registry.Next | micro/registry/registry.go:21-26 | the first Next returns the current list if it is non-empty; a later Next returns only a changed list; otherwise it reports an error (the blocked call's deadline, context.DeadlineExceeded); after Stop it reports context.Canceled; the cursor moves only when a list is returned |
| Registry.Stop | micro/registry/registry.go:27-28 | Stop abandons the watch and keeps the cursor |
| Registry.ReturnedListsChange | micro/registry/registry.go:22-24 | over any series of registry states, a fresh watcher hands out a non-empty first list, and every later list differs from the one before |
| Registry.StoppedReturnsNothing | micro/registry/registry.go:27-28 | a stopped watcher hands out no list, whatever the registry does |
| Grpc.ClientConn.UpdateState | micro/server/rpcserver/resolver/direct/builder.go:23 | each UpdateState is recorded in order; the new state is the given address list; the connection's answer is returned |
| Discovery.NewEndpoint | micro/server/rpcserver/resolver/discovery/resolver.go:103-109 | the endpoint has the given scheme and host, no path, and IsSecure of it equals the requested flag |
| Discovery.IsSecure | micro/server/rpcserver/resolver/discovery/resolver.go:126-132 | true exactly when the isSecure query value is one of ParseBool's true spellings; a missing or malformed value gives false |
| Discovery.QueryGetSingle | micro/server/rpcserver/resolver/discovery/resolver.go:127 | a raw query `key=value` with nothing to decode gives the value for the key |
| Discovery.DecodedSecureFlag | micro/server/rpcserver/resolver/discovery/resolver.go:126-132 | a URL whose query is one pair that decodes to `isSecure=true` is secure, however its characters are escaped |
| Discovery.EscapedSecureFlag | micro/server/rpcserver/resolver/discovery/resolver.go:127 | the key "is%53ecure" decodes to "isSecure" and the value "tr%75e" to "true" |
| Discovery.FindFirstDecides | micro/server/rpcserver/resolver/discovery/resolver.go:111-124 | the first endpoint that does not merely mismatch decides: a match gives its host, an unparsable endpoint gives its error; if every endpoint mismatches (an empty list included) the answer is ("", no error) |
| Discovery.ParseEndpoint | micro/server/rpcserver/resolver/discovery/resolver.go:111-124 | the loop with early returns computes that first decision |
| Discovery.FindParsed | micro/server/rpcserver/resolver/discovery/resolver.go:117-119 | an endpoint whose scheme and secure flag both match yields its host |
| Discovery.FindParsedMismatch | micro/server/rpcserver/resolver/discovery/resolver.go:118-123 | an endpoint with the right scheme but the other secure flag is passed over, giving ("", no error) |
| Discovery.ParseEndpointOfNewEndpoint | micro/server/rpcserver/resolver/discovery/resolver.go:103-124 | round trip: ParseEndpoint over the formatted NewEndpoint(s, h, b), asked for s and b, returns h |
| Discovery.FoundAgain | micro/server/rpcserver/resolver/discovery/resolver.go:111-124 | a formatted `scheme://host[?query]` URL is found again with its own secure flag |
| Discovery.NotFoundAgain | micro/server/rpcserver/resolver/discovery/resolver.go:111-124 | the same URL asked for with the other secure flag gives ("", no error) |
| Discovery.ParseAttributes | micro/server/rpcserver/resolver/discovery/resolver.go:91-101 | the attributes hold exactly the metadata's keys, each with its string value, whatever the map's iteration order |
| Discovery.InstanceEndpoint | micro/server/rpcserver/resolver/discovery/resolver.go:49-56 | the endpoint update uses for an instance: the `grpc` endpoint with secure flag `!insecure`, or none if ParseEndpoint fails or finds "" |
| Discovery.NewAddress | micro/server/rpcserver/resolver/discovery/resolver.go:61-66 | the address has the endpoint, the instance's name as server name, its metadata as attributes, and the instance under "rawServiceInstance" |
| Discovery.AddressesUnique | micro/server/rpcserver/resolver/discovery/resolver.go:57-60 | the published addresses are unique by address string |
| Discovery.AddressesSound | micro/server/rpcserver/resolver/discovery/resolver.go:48-68 | every published address is built from the first instance, in instance order, that offers its endpoint |
| Discovery.AddressesComplete | micro/server/rpcserver/resolver/discovery/resolver.go:48-72 | every offered endpoint is published, so the list is empty exactly when no instance offers an endpoint |
| Discovery.CollectAddresses | micro/server/rpcserver/resolver/discovery/resolver.go:48-66 | the loop of update computes the deduplicated address list: one address per instance that offers an endpoint not offered before, in instance order |
| Discovery.Resolver.Update | micro/server/rpcserver/resolver/discovery/resolver.go:45-76 | when no address survives nothing is published and the state is unchanged; otherwise exactly one UpdateState with the deduplicated list |
| Discovery.Resolver.WatchStep | micro/server/rpcserver/resolver/discovery/resolver.go:25-43 | one turn: a nil context panics; a done context exits; context.Canceled exits; any other error retries and publishes nothing; a list is handed to update |
| Discovery.Resolver.Watch | micro/server/rpcserver/resolver/discovery/resolver.go:25-43 | over a series of Next results, a live loop publishes exactly the lists those results lead to, up to context.Canceled |
| Discovery.PublicationsNonEmpty | micro/server/rpcserver/resolver/discovery/resolver.go:69-72 | the watch loop never publishes an empty address list |
| Discovery.Resolver.Close | micro/server/rpcserver/resolver/discovery/resolver.go:81-87 | Close cancels the context and stops the watcher |
| DiscoveryBuilder.ConfigureLastWins | micro/server/rpcserver/resolver/discovery/builder.go:56-78 | each setting comes from the last option that writes it, or keeps its default when no option does |
| DiscoveryBuilder.ConfigureTimeout | micro/server/rpcserver/resolver/discovery/builder.go:68-72 | the timeout is the last WithTimeout's, or the default when there is none; WithInsecure leaves it alone |
| DiscoveryBuilder.ConfigureInsecure | micro/server/rpcserver/resolver/discovery/builder.go:74-78 | the insecure flag is the last WithInsecure's, or the default when there is none; WithTimeout leaves it alone |
| DiscoveryBuilder.Builder.constructor | micro/server/rpcserver/resolver/discovery/builder.go:56-66 | NewBuilder starts from 10 s and insecure false, then applies the options in order |
| DiscoveryBuilder.Builder.BuildAsWritten | micro/server/rpcserver/resolver/discovery/builder.go:22-50 | Build as written: it watches the path without its leading '/'; on a watch error or a timeout ("discovery create watcher overtime") it cancels and returns no resolver; on success the resolver has the watcher, the connection, the insecure flag and the cancel function, but a nil polled context |
| DiscoveryBuilder.WatchAfterBuildAsWritten | micro/server/rpcserver/resolver/discovery/resolver.go:28 | the first turn of the watch loop on such a resolver panics, whatever Next returns |
| DiscoveryBuilder.Builder.Build | micro/server/rpcserver/resolver/discovery/builder.go:22-50 | the same outcomes, with the polled context set to the one the cancel function ends |
| DiscoveryBuilder.WatchAfterBuild | micro/server/rpcserver/resolver/discovery/builder.go:42-48 | on the corrected resolver the first turn proceeds unless Next reports context.Canceled, and after Close the loop exits |
| Direct.DirectAddressesSpec | micro/server/rpcserver/resolver/direct/builder.go:19-22 | the addresses are the path's pieces, after one leading '/' is removed, split on ',' in order: their count is the comma count plus one, they join back to the path, and none holds a comma |
| Direct.EmptyTarget | micro/server/rpcserver/resolver/direct/builder.go:20-22 | an empty path, or just "/", yields one empty address |
| Direct.TwoAddresses | micro/server/rpcserver/resolver/direct/builder.go:20-22 | "/a,b" yields the addresses "a" and "b", in that order |
| Direct.AddressesOfList | micro/server/rpcserver/resolver/direct/builder.go:19-22 | a target path that joins comma-free addresses yields exactly those addresses |
| Direct.DirectTarget | micro/server/rpcserver/resolver/direct/builder.go:19-22 | a `direct:///raw` target whose path decodes to `/a1,...,an` parses to that decoded path, and its addresses are a1, ..., an |
| Direct.PlainDirectTarget | micro/server/rpcserver/resolver/direct/builder.go:19-22 | a target written without escapes, `direct:///a,b,...`, parses to its own path |
| Direct.EscapedComma | micro/server/rpcserver/resolver/direct/builder.go:20 | the path is decoded before it is split: `/a%2Cb` decodes to `/a,b`, which names the addresses a and b |
| Direct.NameIsScheme | micro/server/rpcserver/resolver/direct/builder.go:30-32 | the scheme "direct" is a valid lower-case URL scheme |
| Direct.DirectBuilder.Build | micro/server/rpcserver/resolver/direct/builder.go:18-28 | exactly one UpdateState with the whole list; a rejection is returned with no resolver; otherwise a resolver and no error |
| Balancer.InstanceOf | micro/server/rpcserver/balancer.go:40 | the instance is present exactly when the "rawServiceInstance" attribute holds an instance; otherwise it is nil |
| Balancer.InstanceOfDiscoveredAddress | micro/server/rpcserver/balancer.go:40-44 | an address from the discovery resolver gives back its instance and its endpoint |
| Balancer.InstanceOfBareAddress | micro/server/rpcserver/balancer.go:40 | an address without attributes, as the direct resolver makes, gives a nil instance |
| Balancer.CollectNodes | micro/server/rpcserver/balancer.go:38-45 | exactly one node per ready sub-connection, each with kind "grpc", its address and its instance |
| Balancer.BuildPicker | micro/server/rpcserver/balancer.go:34-51 | no ready sub-connection gives the error picker with ErrNoSubConnAvailable; otherwise a selecting picker over a fresh selector with no reports, whose Apply log is exactly one call with the full node list: one node per ready sub-connection |
| Balancer.PickOn | micro/server/rpcserver/balancer.go:34-63 | a pick on the error picker fails with its error; a pick on the selector picker is that picker's Pick |
| Balancer.BuildAndPick | micro/server/rpcserver/balancer.go:34-63 | Build then one pick: with no ready sub-connection the pick fails with ErrNoSubConnAvailable whatever the selector does; otherwise a selector error is passed on, and a chosen node's pick carries the call's context and a ready sub-connection whose address is the node's |
| Balancer.Selector.Apply | micro/server/rpcserver/balancer.go:49 | the selector holds the given nodes, and the call is appended to its Apply log |
| Balancer.Selector.Done | micro/server/rpcserver/balancer.go:65-70 | the selector records the finished call with its context |
| Balancer.SelectorPicker.Pick | micro/server/rpcserver/balancer.go:57-73 | given that Select returns one of the selector's nodes (the Selector's own contract, which the grpcNode type assertion does not enforce), a selector error is returned unchanged; otherwise the result carries the picked node's own sub-connection, one of the selector's |
| Balancer.SelectorPicker.PickDone | micro/server/rpcserver/balancer.go:64-71 | the done callback forwards the error, the byte flags and the trailer unchanged, with the pick's context |
| Balancer.TrailerGet | micro/server/rpcserver/balancer.go:77-83 | a non-empty answer is the first value stored under the lower-cased key; a key absent after lower-casing, or stored with no values, gives "" |
| Balancer.TrailerGetStored | micro/server/rpcserver/balancer.go:77-83 | a key stored with values gives back its first value |
| Balancer.TrailerGetCaseInsensitive | micro/server/rpcserver/balancer.go:77-83 | keys that lower-case alike give the same answer |
| AppOptions.Defaults | micro/app/app.go:31-38 | New's defaults: sigs SIGTERM, SIGQUIT and SIGINT; both timeouts 10 s; the generated id if uuid produced one; everything else empty |
| AppOptions.Apply | micro/app/options.go:27-61 | each With option writes its own field, replacing it whole (WithRegistrar(nil) and WithRPCServer(nil) clear it), and leaves every other field as it was |
| AppOptions.LastWins | micro/app/options.go:27-61 | the last option that writes a field decides its value |
| AppOptions.UntouchedKeeps | micro/app/options.go:27-61 | a field no option writes keeps its default |
| AppOptions.ApplyAllKeepsFixed | micro/app/options.go:14-25 | no option changes the timeouts or the REST server |
| AppOptions.IdentityLastWins | micro/app/options.go:45-55 | id and name are those of the last WithId and WithName, or the defaults |
| AppOptions.ListsLastWins | micro/app/options.go:33-37 | the endpoint and signal lists are replaced whole by the last WithEndpoints and WithSigs, not appended to |
| AppOptions.PluggedLastWins | micro/app/options.go:27-43 | the registrar and the RPC server are those of the last WithRegistrar and WithRPCServer, nil included, or the starting ones when there is none |
| App.App.constructor | micro/app/app.go:29-46 | New: the options are the defaults with every option applied in order; no instance and no cancel function yet |
| App.InstanceEndpoints | micro/app/app.go:161-173 | the configured endpoints formatted in order, then `grpc://` and the RPC server's address, escaped as a host, exactly when there is an RPC server |
| App.App.BuildInstance | micro/app/app.go:160-181 | buildInstance never fails; the instance has the options' id and name, no version or metadata, and those endpoints |
| App.App.Stop | micro/app/app.go:139-157 | deregisters exactly when there is a registrar and an instance; a deregister error is returned and cancel is not called; otherwise cancel is called if set and nil is returned |
| App.App.Run | micro/app/app.go:49-136 | stores the instance first, then launches the servers (REST, then RPC), then registers if there is a registrar; a register error is returned before any stop; a failing task's error, or Stop's error after a signal, or else the first later task error is returned; after a Stop called elsewhere deregisters and cancels, the signal task's context.Canceled takes its place among the tasks' results, so the first error before it, or else context.Canceled, is returned |
| App.CanceledUnlessEarlier | micro/app/app.go:124-135 | when the signal task returns context.Canceled after `at` other results, Wait returns the first earlier error if there is one, and context.Canceled otherwise |
| App.RegisteredEndpointResolves | micro/app/app.go:167-172 | the `grpc://address` endpoint an application registers is found by the discovery resolver on an insecure channel and not on a secure one |
| Validation.ValidateMobileIff | micro/server/restserver/validation/mobile.go:23-31 | the automaton accepts exactly the 11-character strings: '1', an operator prefix of the pattern's alternation, then eight ASCII digits |
| Validation.DigitsRun | micro/server/restserver/validation/mobile.go:26 | after n digits the automaton accepts exactly 8 - n more ASCII digits and nothing else |
| Validation.FiveTakesAnyButFour | micro/server/restserver/validation/mobile.go:26 | after "15" any third character but '4' is accepted, letters included |
| Validation.MobileExamples | micro/server/restserver/validation/mobile.go:26 | "15a12345678" is accepted and "15412345678" is rejected |
| Auth.Authenticate | micro/server/restserver/middlewares/auth/basic.go:31-47 | an accepted user name never holds a colon |
| Auth.AcceptsCredentials | micro/server/restserver/middlewares/auth/basic.go:31-47 | "Basic " followed by credentials that decode to user:password, where the user has no colon and compare agrees, is accepted with that user; the password may hold colons |
| Auth.AcceptedHasCredentials | micro/server/restserver/middlewares/auth/basic.go:31-47 | every acceptance comes from such a header |
| Auth.RejectsWithoutColon | micro/server/restserver/middlewares/auth/basic.go:45-47 | credentials that decode to text without a colon are rejected, whatever compare would say |
| Auth.GinContext.Set | micro/server/restserver/middlewares/auth/basic.go:58 | c.Set stores the key and its value |
| Auth.AuthFunc | micro/server/restserver/middlewares/auth/basic.go:29-62 | a rejection hands core.WriteResponse the error with code 401 and message "Authorization header format is wrong.", then aborts, and sets no key; an acceptance sets the username key to the user and only then calls the next handler |
| Codegen.SkipSpaces | tools/codegen/main.go:55 | `\s*` stops at the first non-space |
| Codegen.LineEnd | tools/codegen/main.go:55 | `.` does not cross a line break: the line ends at the next '\n' or at the end |
| Codegen.LastDescEnd | tools/codegen/main.go:55 | the greedy `.*` ends at the last point of the line from which `\s*\.` matches |
| Codegen.MatchHeadSound | tools/codegen/main.go:55 | what the matcher takes for `\w\s*-\s*(\d{3})\s*:\s*[A-Z]` matches that part of the pattern |
| Codegen.MatchHeadComplete | tools/codegen/main.go:55 | wherever that part can match, the matcher takes it, with the same positions |
| Codegen.MatchAtSound | tools/codegen/main.go:55 | a match the matcher finds is a match of the whole pattern |
| Codegen.MatchAtComplete | tools/codegen/main.go:55 | wherever the pattern can match at a start, the matcher matches there, with the same fixed part and a description at least as long |
| Codegen.FindMatchLeftmost | tools/codegen/main.go:59 | the match used starts where the matcher first matches; when none is found, no start matches |
| Codegen.FindMatchAt | tools/codegen/main.go:59 | a match with none before it is the one used |
| Codegen.ParseComment | tools/codegen/main.go:54-63 | no match gives ("500", "Internal server error"); a match gives three digits and a description that starts with a capital letter and holds no line break |
| Codegen.NoMatchDefaults | tools/codegen/main.go:56-58 | a comment the pattern matches nowhere gives the defaults |
| Codegen.ParseCommentLeftmostGreedy | tools/codegen/main.go:55-63 | if the pattern can match at i, the match used starts no later; when it starts at i, it has the same status and a description at least as long |
| Codegen.ParseCommentOfComment | tools/codegen/main.go:54-63 | a comment "Name - 404: Description." followed by line breaks gives back its status and its description |

## Left out

- NetUrl.ToString: the URL record holds only the scheme, host, path and raw
  query. User info, Opaque, Fragment, RawPath and ForceQuery are not
  modelled, so a configured endpoint holding them is not formatted as
  URL.String would write it. The path is written unescaped. Host characters
  above ASCII are written as they are, where Go percent-encodes their UTF-8
  bytes. ASCII host escaping is modelled.
- Common.Lower: lower-cases ASCII letters only. strings.ToLower, which
  metadata.MD.Get applies to trailer keys, also lower-cases non-ASCII
  letters ("É" to "é"). So TrailerGet misses a value stored under a
  non-ASCII key looked up in another case. Unicode case tables are not
  modelled.

- Concurrency is not modelled: goroutines, the App's lock, errgroup, the
  WaitGroup, the signal channel and the timeout race in the discovery
  `Build`. Each becomes an input that fixes one order the code allows.
- Logging, `json.Marshal` in `update`, and `time.Sleep` in the watch loop
  have no effect on the state, so they are not modelled.
- The server tasks' `Start` and `Stop` are not modelled, nor are the
  registrar's and discoverer's network calls. What they return is an input.
- `uuid.NewUUID` is an input: the identifier it produced, if any.
- `url.Parse` covers the URL forms endpoints and targets use, with the
  percent-decoding of the host and the path and the host characters it
  refuses; `Query().Get` decodes keys and values the same way. An escape of
  a byte at 0x80 or above decodes to the character with that code, where Go
  builds raw bytes that read as UTF-8. User-info validation, IPv6 zones and
  the wording of its errors are not modelled; the errors are abstracted to
  one error per endpoint.
- Base64 decoding (section 4 of RFC 4648) and the credential check are
  function parameters. `core.WriteResponse` is reduced to the code and
  message of the error it is given. The HTTP status and body it writes come
  from `errors.ParseCoder`, which is not part of this model.
- `RegisterMobile`, and `main` and `genDecl` of the code generator, are not
  modelled: they do translator registration, go/ast reading and file
  output.
- The `len(groups) != 3` fallback of ParseComment at
  tools/codegen/main.go:60-62 cannot be reached, because the pattern has
  exactly two groups. The model has no such branch.
- `Run`'s error exit at micro/app/app.go:52-54 cannot be reached, because
  `buildInstance` never fails.
- app.go:62 reads a `restServer` option that options.go:14-25 does not
  declare and no option sets. The model gives Options an optional REST
  server that is always absent after New.
- Watcher `Next` after `Stop`: registry.go does not say which error it
  returns. The model returns context.Canceled, which ends the watch loop.
- Registrar, Discovery, Watcher, Selector and resolver.ClientConn are
  interfaces. Each is modelled as one recording class or as an input, not
  as an abstract type with several implementations.
- The selector's `Select` is an input to Pick (the node it chose, or its
  error). How a selector chooses is not part of this code.
- pkg/log, the REST and RPC server wiring, the Prometheus interceptors, the
  tracing options, the JWT middleware and cmd/my-service are not part of
  this model. They are library plumbing with no behaviour of their own.

## Findings

| source | as written | input that shows it | evidently intended | confidence | as-written member | corrected member |
|---|---|---|---|---|---|---|
| micro/server/rpcserver/resolver/discovery/builder.go:42-48 | Build makes the resolver without setting its `ctx` field. The watch goroutine it starts then calls `r.ctx.Done()` (resolver.go:28) on a nil interface. | Any successful Build, e.g. target `discovery:///greeter` with a watcher created in time: the first turn of watch panics. | The resolver polls the context whose cancel function Build stores, so the loop runs until Close cancels it. | not executed | DiscoveryBuilder.Builder.BuildAsWritten, DiscoveryBuilder.WatchAfterBuildAsWritten | DiscoveryBuilder.Builder.Build, DiscoveryBuilder.WatchAfterBuild |
