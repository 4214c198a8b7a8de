# Celeris, verified

A Dafny model of the parts of the Celeris HTTP server where a mistake is hardest to see, with
proofs of what those parts promise:

- **Router** — the radix trie that registration rewrites in place and search walks with
  backtracking, the static map in front of it, URL building, and the Allow header.
- **Answering** — one request through pre-middleware, its handler chain, the error and panic
  paths, buffering, streaming, hijacking and detaching. Handlers are arbitrary scripts of
  Context operations.
- **Lifecycle** — Start, the watcher of the caller's context, and any number of Shutdown calls,
  interleaved step by step.
- **Adaptive dispatch** — promote, settle, reopen and expire, one run at a time against the
  route's history, and again with every atomic operation a step of its own.
- **Codecs** — the reflection-free JSON encoder and PostgreSQL's COPY text format, each with a
  reader that undoes it.
- **Drivers** — memcached reply matching, the ketama ring and failover, the wake-up of a
  blocked read, and the prepared-statement cache.

Each module starts with a note on the file it models. Code that updates objects in place is
modelled by classes and loops proved against value-level definitions; the theorems are about
those definitions. Protocols between goroutines are state machines: a state, the moves that are
possible in it, and an invariant of every run.

Where a promise does not hold of the code, the code is modelled as it is and the exact
condition is proved instead, with an input that breaks the promise:

- A static node that matches the path's prefix is not always left again when nothing below it
  matches, so a registered parameter route can be missed (`Lookup.GivesUp`); search is complete
  exactly for the routes reachable without leaving such a place (`Lookup.SearchComplete`).
- The static map and the trie agree on a static route exactly if its path needs no cleaning
  (`Routers.StaticMapAgrees`); any other, such as /a//b, is in the map only
  (`Witnesses.OnlyInTheMap`).
- Building a URL gives back the path searched for exactly when the catch-all, if there is one,
  follows a slash and matched something, or follows something else and matched nothing
  (`Urls.SearchInverts`); in the two other cases, such as /a*r on /ax, it gives another path
  (`Witnesses.TailNotRebuilt`).
- Registration order changes the answer to a path if and only if the walk comes to a place where
  routes under two parameter names are found (`Order.OrderMatters`, `Order.OrderIrrelevant`), as
  it does with /:a and /:b (`Witnesses.FirstNameWins`).
- An answer does not stop the handler chain if its handler also fails and an outer handler
  swallows the error and calls Next again (`Chains.AnswerSwallowed`). After an answer another
  handler starts if and only if Next is called again while the chain is open, which it is not
  once the answering handler has returned nil (`Chains.AnswerStops`).
- A StreamWriter used while it does not own the response, because it was taken after a full
  response or kept after it was reclaimed, answers a second time (`Serving.AnsweredTwice`). A
  StreamWriter that is taken and not used leaves a request unanswered on an unmatched route
  (`Serving.NeverAnswered`), in pre-middleware (`Serving.PreNeverAnswers`) and in its error
  handler (`Serving.ErrorNeverAnswers`). `Serving.OneAnswer` says for every request whether it is
  answered: not at all in these cases, if pre-middleware aborts without writing, and if the
  engine answers an unwritten request by itself; twice in the first case; once otherwise.
- Start* can return before a shutdown's hooks have run if a direct Shutdown claims it between
  Start's look for one and the watcher's (`Shutdowns.StartCanReturnFirst`), and it waits for the
  first of several Shutdown calls only (`Shutdowns.LaterCallOutlivesStart`). The documentation
  of Start promises more than the code here.
- A line after some items of a get's answer makes the memcached driver give the next get's
  items to that finished request and drop the next one unanswered (`Replies.LineAfterItems`);
  on replies that come in order and whole this does not happen (`Replies.Connection.Process`).
- A context that ends after armWake and before the command's SetDeadline does not wake the read
  (`Wake.WakeOverwritten`); it does exactly if the callback's lock section comes after the
  command has set its deadline, or if the command sets none (`Wake.WakesTheRead`).
- A COPY row without columns reads back as a row with one empty column
  (`Copy.EmptyRowConfused`).
- A fast run that overlaps a slow or blocked one can make a route both settled and promoted
  (`Streaks.BothAtOnce`); without such an overlap a route is never both
  (`Streaks.NeverBothFromZero`).
  The fast streak is bounded by 256 plus the runs between their count and their clamp
  (`Streaks.StreakBounded`) and can stand that far above (`Streaks.PassesClamp`), where a comment
  in the code has it bounded by 256.

## Model

| member | source | states |
|---|---|---|
| `Patterns.StepPositions` | router_tree.go:74-162 | inserting one more key creates exactly the positions that are segment boundaries or branch points of the larger set of keys: the shape of the trie is a function of the patterns alone |
| `Patterns.InsertionClosed` | router_tree.go:117-162 | the positions stay closed under branching when a key is inserted |
| `Segments.FindSegmentEnd` | router_tree.go:227-234 | the length of the text before the next slash |
| `Segments.SplitPath` | router_tree.go:36-72 | the segments spell the pattern's key exactly, are cut where the pattern's parameters are, and a catch-all carries its name |
| `Paths.CleanPath` | router_tree.go:237-263 | a path without a double slash stays as it is; otherwise runs of slashes are collapsed and a trailing one is dropped; the empty path is the root |
| `Paths.CleanIsClean` | router_tree.go:237-263 | a cleaned path has no double slash and cleaning it again changes nothing; a path without one stays as it is, and any other loses a trailing slash |
| `Paths.CleanParts` | router_tree.go:237-263 | cleaning keeps every segment, in order |
| `Paths.ValidatePath` | router_tree.go:265-289 | accepts exactly the patterns whose parameters are named and whose catch-all is named and last |
| `Paths.ValidNames` | router_tree.go:265-289 | in an accepted pattern every parameter and the catch-all have a name |
| `Paths.IsStaticPath` | router.go:693-700 | true exactly without parameters and catch-all |
| `Trees.LeafValid` | router_tree.go:74-115 | adding a leaf in the place its kind sorts to keeps the tree well linked, with static before parameter before catch-all and one child per first token |
| `Trees.SplitValid` | router_tree.go:134-149 | cutting an edge in two keeps the tree well linked, with one key more, which is new |
| `Trees.LeafOrder` | router_tree.go:106-115 | a new child comes after those of its kind: the first parameter at a place stays the first |
| `Trees.SplitThenGrow` | router_tree.go:117-162 | a split followed by a new leaf adds exactly the two positions the new key calls for |
| `Trees.RouteUpdates` | router.go:601-602 | storing handlers at a node updates the route table at that key and nowhere else |
| `Tries.LongestPrefix` | router_tree.go:214-225 | the longest common prefix |
| `Tries.Trie.InsertSorted` | router_tree.go:106-115 | the place after the last child of no greater kind |
| `Tries.Trie.AddChild` | router_tree.go:74-115 | a new empty child in its sorted place, all other nodes as they were |
| `Tries.Trie.Split` | router_tree.go:134-149 | the child keeps the first part of its text and a new node below it takes the rest with everything it held |
| `Tries.Trie.InsertStatic` | router_tree.go:117-162 | finds or makes the node that the text leads to, in every case of shared prefixes, adding only the positions the key calls for |
| `Tries.Trie.InsertChild` | router_tree.go:74-104 | finds or makes the node of one segment; an existing catch-all keeps its name |
| `Tries.Trie.Descend` | router.go:592-597 | the walk over all segments ends at the node of the pattern's key |
| `Tries.Trie.Register` | router.go:552-616 | registration is a map update: the route table changes at the new pattern's key and nowhere else, the trie has exactly the nodes the new table calls for, and first parameters stay first |
| `Tries.Build` | router.go:552-616 | a sequence of registrations gives the table of the sequence, and the parameters of the first one are tried first |
| `Tries.Trie.Search` | router_tree.go:164-212 | finds what the value-level walk finds; parameters are pushed exactly as bound, and restored exactly when nothing is found |
| `Lookup.ResolveSound` | router_tree.go:164-212 | what search finds is a registered pattern that matches the path, with exactly its bindings in order |
| `Lookup.StaticWins` | router_tree.go:164-186 | a registered static path is answered by its own route |
| `Order.Precedence` | router_tree.go:164-212 | static text before a parameter before a catch-all: which of them the answer goes through at a place, exactly |
| `Lookup.ResolveFinds` | router_tree.go:164-212 | a route reachable without leaving a stuck position keeps search from failing |
| `Lookup.ResolveClear` | router_tree.go:164-212 | what search finds is reachable in that way |
| `Lookup.SearchComplete` | router_tree.go:164-212 | search succeeds if and only if such a route exists |
| `Lookup.GivesUp` | router_tree.go:170-186 | with /al, /am and /:x registered, /a is not found although /:x matches it |
| `Order.SameRegistrations` | router.go:552-616 | distinct registrations give the same table in any order |
| `Order.SameSuccess` | router_tree.go:164-212 | whether search finds something depends on the route table only |
| `Order.OrderIrrelevant` | router_tree.go:106-212 | two tries with the same registrations, made in any order, answer a path alike unless routes under two parameter names of one place are found on it |
| `Order.ForkDecides` | router_tree.go:106-212 | where they are, the name that is first there answers |
| `Order.OrderMatters` | router_tree.go:106-212 | of the tries that make each registration first in turn, two answer a path differently if and only if routes under two parameter names of one place are found on it |
| `Order.OneNameSuffices` | router_tree.go:106-212 | with one parameter name at each place no order changes any answer |
| `Witnesses.FirstNameWins` | router_tree.go:106-115 | for all names that can be registered and every text, the table that got /:a first binds a and the one that got /:b first binds b, with the same routes |
| `Urls.BuildURL` | server.go:415-452 | the loop fills the pattern with the values in order, with the slash rules of the catch-all |
| `Urls.URL` | server.go:371-395 | an error unless every value is used |
| `Urls.UrlNeeds` | server.go:371-395 | a URL is built if and only if there are as many values as the pattern has parameters |
| `Urls.UrlMatches` | server.go:415-452 | for every pattern without a catch-all and as many one-segment values as it has parameters, the URL is a path that matches the pattern and binds exactly these values |
| `Urls.UrlOfTail` | server.go:435-446 | for every value of a catch-all, the text before it and the value, less a slash that would be doubled or left trailing |
| `Urls.SearchInverts` | server.go:415-452 | the URL of the route found and the values bound is the path searched for, if and only if the catch-all allows it |
| `Witnesses.TailNotRebuilt` | server.go:415-452 | for all text before a catch-all: behind no slash and with something matched, or behind a slash and with nothing matched, the URL built from what search found is another one |
| `Routers.MethodTable.AddRoute` | router.go:552-616 | refused exactly for paths that do not start with a slash or are not valid; otherwise table and static map are updated together |
| `Routers.MethodTable.Find` | router.go:719-760 | outside the static map it finds a route if and only if one can be found on the cleaned path, and then returns a registered pattern with its own chain that matches the path, and appends exactly the values bound, under the pattern's names; the parameters are restored on a miss |
| `Routers.WalkFinds` | router.go:740-760 | the walk over the cleaned path succeeds if and only if a findable route exists, with one that is registered and matches |
| `Routers.LookUpFinds` | router.go:719-760 | a path of the static map has the route registered under it; any other what the walk finds |
| `Routers.StaticMapAgrees` | router.go:606-609 | the static map and the walk give the same handlers and pattern if and only if the route's path needs no cleaning |
| `Witnesses.OnlyInTheMap` | router.go:606-609 | every static pattern that cleaning changes, registered alone, is answered by the static map and not found by the walk |
| `Witnesses.DoubleSlash` | router_tree.go:237-263 | /a//b is such a pattern |
| `Routers.StaticMapIsShortcut` | router.go:719-760 | on clean paths the static map never changes the answer |
| `Allow.AllowedMethods` | router.go:775-815 | lists exactly the methods the path serves, HEAD and OPTIONS defaults included, except the one left out: the standard ones in their order, then the others in string order, none twice |
| `Allow.EmptyList` | router.go:775-799 | a list that leaves out a method that is not served is empty only for an unrouted path |
| `Allow.Dispatch` | handler.go:537-593 | a request is served exactly when its method is one the path answers, not found exactly when the path has no route, and the Allow lists are what is served, in order |
| `Responses.CountAnswers` | context_response.go:2118-2184 | in every state the response flags allow, a request with a writer was answered once if its response is out and not at all otherwise, and once more exactly if a StreamWriter was used while it did not own the response and none was taken on the unwritten response since |
| `Responses.OperationsKeep` | context_response.go:546-2184 | every Context operation keeps the response with at most one owner, at most one full response and none after Detach |
| `Responses.EndsKeep` | handler.go:280-681 | so do the error, panic, flush, empty-answer and unmatched paths, and each does what it is for: with a writer and not detached, the response is out after a panic, and after the matched tail if the engine asks for it, and after the unmatched tail unless a StreamWriter was only taken; nothing captured is left behind |
| `Chains.NextKeeps` | context.go:381-395 | for all handler scripts, nested calls of Next and recovered panics included, each handler starts exactly when it is due and in the order of the chain |
| `Chains.ChainInOrder` | context.go:381-409 | in every run starts strictly increase, none follows an Abort or a nil return on an answered request, and when Next returns nil all handlers were started or the chain was so stopped |
| `Chains.StartsWhenDue` | context.go:381-395 | a handler starts after an event if and only if one is due from there on |
| `Chains.AnswerStops` | context.go:381-395 | after a handler returned on a request whose answer is given, another starts if and only if Next is called again while the chain is open, and none if it returned nil |
| `Chains.AnswerSwallowed` | context.go:381-393 | whatever the last handler is, it starts after the second one answered and failed, because the first one swallows the error and calls Next again |
| `Responses.BufferedThrough` | context_response.go:1397-1416 | buffering is invisible: a response made under any number of further layers and flushed through all of them is the response made without them |
| `Responses.DiscardUndoes` | context_response.go:1421-1429 | discarding takes back what was made under one more layer |
| `Responses.ReclaimUndoes` | context_response.go:2118-2184 | reclaiming takes back the taking of an unused StreamWriter |
| `Responses.HijackAlone` | context_response.go:1499-1519 | a hijacked request has no full response and no later call makes one or changes its owner |
| `Chains.BufferedScript` | context_response.go:1397-1416 | a handler that responds under any number of layers of its own and flushes them runs like one that just responds |
| `Chains.DiscardedScript` | context_response.go:1421-1429 | one that discards the response it made under a layer of its own runs like one that made none |
| `Chains.HijackedScript` | context_response.go:1499-1519 | after a hijack a handler's responses, flushes and hijacks do nothing, and no full response was sent |
| `Chains.RefusedScript` | context_response.go:1499-1519 | a hijack that the engine refuses does nothing |
| `Chains.DetachedScript` | context_response.go:546-644 | after a detach a handler's responses and hijacks do nothing |
| `Chains.StreamedScript` | context_response.go:2118-2168 | a StreamWriter taken on an open response and used answers the request, once |
| `Chains.FailureIsLast` | context.go:381-386 | an error or a panic that Next returns is that of the handler that returned last |
| `Chains.PanicBelow` | context.go:381-395 | a panic goes through a handler that does not recover, and not through one that does |
| `Chains.AbortStops` | context.go:406-409 | after an Abort no handler starts, whatever the aborting handler still does |
| `Answering.Context.NextHandler` | context.go:381-395 | the loop with its nested calls does what the value-level chain does, and leaves a log in which handlers start in strictly increasing order and none after an Abort or a nil return on an answered request; nil means that all were started or the chain was so stopped |
| `Answering.Context.RunFrom` | context.go:383-393 | the loop itself: on from the current handler to the first error, the first answer or the end |
| `Answering.Context.HandleError` | handler.go:632-681 | a response under way is left alone; otherwise, unless the error handler panics, a request with a writer that is not detached is written, with one owner; without an error handler its response is out |
| `Answering.Context.HandlePanic` | handler.go:485-518 | a panicked request has its response out, unless it is detached |
| `Answering.Context.FlushCaptured` | handler.go:280-283 | a captured response of a request that is not detached is sent if nothing was written |
| `Answering.Context.AnswerEmpty` | handler.go:292-299 | with a writer and not detached: written means out, and an engine that asks for it gets an answer; any other engine is sent nothing here |
| `Answering.Context.AnswerUnmatched` | handler.go:537-630 | with a writer and not detached: written, and out unless a StreamWriter was only taken |
| `Answering.Context.RunChain` | handler.go:166-291 | handlers start in order; nothing captured is left behind; a failed chain has a response written |
| `Answering.Context.HandleStream` | handler.go:126-300 | keeps the promise of OneAnswer; a request that comes to its end ran the route's own chain, from its first handler on; and it does what Served says |
| `Serving.ChainServedKeeps` | handler.go:166-291 | after a chain and its error handler nothing captured is left behind, and a failed one has a response written |
| `Serving.OneAnswer` | handler.go:126-300 | for all scripts of pre-middleware, handlers and error handler: never two full responses and none after Detach; exactly when the request is answered, for each way HandleStream ends; one answer more exactly for a StreamWriter used while it did not own the response; a captured response is sent unless another took its place; a route is served only after pre-middleware that neither failed nor aborted nor answered |
| `Serving.RouteRuns` | handler.go:198-253 | past pre-middleware that lets the request through it is the route's own chain that runs, from its first handler on |
| `Serving.OnlyPassed` | handler.go:179-196 | a request comes to the end of HandleStream only if pre-middleware let it through |
| `Serving.PreInvisible` | handler.go:179-253 | pre-middleware that lets the request through and leaves the response as it found it makes no difference to chain, log, response and exit |
| `Serving.ScriptRuns` | handler.go:632-681 | a chain that fails on a response nobody wrote, or that only an unused StreamWriter marks written, runs the error handler's script on what it left, and keeps what the script did |
| `Serving.ErrorScriptRuns` | handler.go:632-681 | so does a route's chain in HandleStream; a panic of the script is the request's |
| `Serving.PreErrorScriptRuns` | handler.go:179-188 | so does pre-middleware that fails, and the route is not served |
| `Serving.ErrorAnswered` | handler.go:632-681 | without an error handler the framework answers failed pre-middleware, even after an unused StreamWriter |
| `Serving.AnsweredTwice` | context_response.go:2118-2168 | HandleStream on a handler that responds, takes a StreamWriter and uses it makes two answers |
| `Serving.NeverAnswered` | handler.go:537-593 | HandleStream on an unmatched route whose handler only takes a StreamWriter makes none |
| `Serving.PreNeverAnswers` | handler.go:179-196 | HandleStream on pre-middleware that only takes a StreamWriter makes none, whatever the route is |
| `Serving.ErrorNeverAnswers` | handler.go:648-652 | nor does it if pre-middleware fails and the error handler only takes one |
| `Lifecycle.KeepsStart` | server.go:494-553 | a step of the Start call keeps the invariant |
| `Lifecycle.KeepsWatcher` | server.go:1300-1343 | a step of the watcher keeps the invariant |
| `Lifecycle.KeepsDirect` | server.go:752-819 | a step of a direct Shutdown call keeps the invariant |
| `Lifecycle.BodyKeepsGate` | server.go:558-568 | whoever latches first takes the CancelFunc of the listen context and calls it next |
| `Lifecycle.RunKeeps` | server.go:494-840 | the invariant holds in every state of every run; part of it: once a shutdown is latched, the listen context is cancelled or its cancel is on its way |
| `Shutdowns.NothingTwice` | server.go:752-819 | watcher and direct calls never both shut down, each channel is closed at most once, nobody runs the hooks twice |
| `Shutdowns.LatchCancels` | server.go:558-568 | in every run, once a shutdown is latched and Start has come to Listen, the listen context is cancelled or the shutdown that took its CancelFunc is about to call it |
| `Shutdowns.ShutdownResult` | server.go:752-840 | a call that finds the watcher's claim returns its error or its own context's; any other returns what Engine.Shutdown told it, or its context's error if that was none and the wait for Listen was cut short; on a server that was started it asked the engine; a nil error on a started server means Listen has returned and the hooks have run once |
| `Results.DirectResult` | server.go:779-819 | over every run the error of a call is the engine's first and its context's second |
| `Results.WatcherResult` | server.go:779-819 | so is the error of the watcher's shutdown, which the calls that joined it return |
| `Results.EngineTells` | server.go:790-790 | what a call or the watcher was told is what its own Engine.Shutdown returned, and no other step changes it |
| `Shutdowns.StartReturnsLast` | server.go:494-513 | Start returns after Listen, the watcher, and the shutdown that began before Listen returned, its hooks included, unless a direct call was missed; a first direct call that found no engine yet has run no hooks, and the watcher runs none for it |
| `Shutdowns.StartCanReturnFirst` | server.go:1318-1341 | a run in which a direct call is missed and Start returns before any hook has run |
| `Shutdowns.LaterCallOutlivesStart` | server.go:752-777 | a run in which the Shutdown call that stopped the server is still running when Start has returned |
| `Settling.NoDeadlock` | server.go:790-812 | in every state that is not at rest some thread can step |
| `Settling.StepLowersRank` | server.go:494-840 | every step of the program lowers a rank |
| `Settling.RunsEnd` | server.go:494-840 | without new calls and cancellations a run is at most as long as that rank |
| `Settling.ComesToRest` | server.go:494-840 | where nothing can step, every Shutdown call has returned, and so has Start if a shutdown was latched or its context cancelled |
| `Adaptive.HistoryKeeps` | router.go:387-477 | settled means 256 fast runs in a row, promoted means none, not promoted means fewer than 8 slow ones in a row, and fast and slow streaks exclude each other |
| `Adaptive.SettlesAgain` | router.go:479-495 | a reopened route that is still fast settles again after one run |
| `Adaptive.SettlesAfter` | router.go:428-456 | from a fresh start exactly 256 fast runs settle a route |
| `Adaptive.PromotesAfter` | router.go:457-464 | exactly the run that makes 8 slow ones in a row promotes it |
| `Adaptive.FitsAfter` | router.go:387-495 | after every event the table entries are again what the history says |
| `Adaptive.FitAfter` | router.go:387-495 | and so are the entries of all routes, if the tables changed for one of them as the event says and for no other |
| `Adaptive.Classifier.IsPromoted` | router.go:387-401 | a promotion older than five seconds ends, and only then |
| `Adaptive.Classifier.PromoteImmediate` | router.go:415-420 | a blocked run promotes at once and clears the fast streak |
| `Adaptive.Classifier.RecordFast` | router.go:428-456 | one fast run more in the history, the streak clamped at 256 |
| `Adaptive.Classifier.RecordSlow` | router.go:457-464 | one slow run more in the history |
| `Adaptive.Classifier.ReopenSettled` | router.go:493-495 | every settled route is learning again, its streaks unchanged |
| `Adaptive.Classifier.Serve` | handler.go:263-279 | of a learning route: a run over 2 ms promotes it at once; one over 300 us ends its fast streak and promotes it exactly as the eighth slow run in a row; any other ends its slow streak and settles it exactly when the fast streak reaches 256; of any other route, and for all other routes, nothing changes |
| `Streaks.StreakBounded` | router.go:450-454 | over every interleaving the fast streak is at most 256 plus the runs between their count and their clamp |
| `Streaks.PassesClamp` | router.go:428-456 | for every k a run from zero in which it stands k above 256 |
| `Streaks.NeverBoth` | router.go:387-495 | in every run in which no fast run overlaps a slow or blocked one the route is never both settled and promoted |
| `Streaks.NeverBothFromZero` | router.go:387-495 | so it is in every such run that starts with the counters at zero |
| `Streaks.BothAtOnce` | router.go:428-464 | a run from zero, with one such overlap, that leaves the route both settled and promoted |
| `Streaks.AloneIsSequential` | router.go:387-477 | a request that nothing interleaves with does to the tables what the classifier does one run at a time |
| `Utf8.DecodeEncoded` | context_response.go:494-502 | decoding an encoded character gives it back (RFC 3629, sections 3 and 4) |
| `Utf8.EncodeDecoded` | context_response.go:494-502 | what decodes is the encoding of what it decodes to |
| `Utf8.EncodeRunes` | context_response.go:476-505 | valid bytes are the encoding of their characters |
| `Utf8.RunesEncoded` | context_response.go:476-505 | the encoding of any characters is valid and decodes to them |
| `JsonStrings.AppendString` | context_response.go:399-438 | the span-copying loop writes the quoted escaped bytes |
| `JsonStrings.ScannerMatchesRunes` | context_response.go:399-461 | on UTF-8 the byte scanner emits what escaping character by character emits (RFC 8259, section 7) |
| `JsonStrings.EscapeGrows` | context_response.go:442-461 | escaping lengthens a string exactly when a character of it is special |
| `JsonStrings.VerbatimWhenPlain` | context_response.go:476-505 | a valid string is copied as it is if and only if no character of it is special |
| `JsonStrings.Classify` | context_response.go:476-505 | bail exactly for invalid UTF-8, verbatim exactly when nothing is escaped |
| `JsonStrings.EscapesAre` | context_response.go:442-461 | which characters are escaped, and how each of them is written |
| `Lexical.LessIs` | context_response.go:360-366 | the order of keys: the first byte that differs decides, and a prefix comes first |
| `JsonKeys.InOrder` | context_response.go:240-246 | the keys of a map, each once and strictly increasing |
| `JsonKeys.OneOrder` | context_response.go:360-366 | there is only one strictly increasing arrangement |
| `JsonKeys.SortKeys` | context_response.go:360-366 | in place: sorted, and a permutation |
| `JsonKeys.Sink` | context_response.go:362-364 | the inner loop moves one key to its place among the sorted ones |
| `JsonEncoder.AppendValue` | context_response.go:203-354 | appends exactly the text of the value |
| `JsonEncoder.ShortenExponent` | context_response.go:380-386 | after strconv the cleanup turns e-0d into e-d and leaves every other number alone |
| `JsonEncoder.AppendArray` | context_response.go:276-297 | brackets, elements in order, commas between them |
| `JsonEncoder.AppendObject` | context_response.go:240-275 | whatever the order of ranging over the map, members come strictly sorted by key |
| `JsonRoundTrip.StringBack` | context_response.go:399-461 | reading the escaped string up to its closing quote gives the string back |
| `JsonNumbers.NumberBack` | context_response.go:214-388 | reading a printed number, integer or float, gives back its sign, digits, point and exponent (RFC 8259, section 6) |
| `JsonNumbers.IntText` | context_response.go:214-235 | an integer is printed as its digits |
| `JsonRoundTrip.ValueBack` | context_response.go:203-354 | reading the text of a value, whatever follows it, gives the value and leaves what follows |
| `JsonRoundTrip.RoundTrip` | context_response.go:137-366 | every value the fast path accepts reads back whole under RFC 8259, with nothing left over |
| `JsonRoundTrip.OnlyValidBack` | context_response.go:476-505 | a string reads back if and only if it is UTF-8 |
| `JsonRoundTrip.LiteralsAre` | context_response.go:203-297 | the literals, brackets and commas are those of JSON |
| `Copy.AppendEscaped` | driver/postgres/copy.go:119-131 | appends the escaped bytes |
| `Copy.EncodeRow` | driver/postgres/copy.go:58-67 | appends one line, which reads back as the row under the types of its columns |
| `Copy.FieldBack` | driver/postgres/copy.go:70-117 | every column value, boolean, integer or text, reads back as itself under its type, NULL as NULL and nothing else as NULL, and is no end-of-data mark |
| `Copy.IntegerBack` | driver/postgres/copy.go:84-103 | a signed decimal reader gives back every integer |
| `Copy.RoundTrip` | driver/postgres/copy.go:58-167 | for all rows and column types, the rows read back as written if and only if each has a column |
| `Copy.FormatIs` | driver/postgres/copy.go:50-80 | the marks of the format: \\N for NULL, a tab between columns, a newline after a row, a backslash before a letter |
| `Copy.EmptyRowConfused` | driver/postgres/copy.go:58-67 | a row without columns has the text of a row with one empty column |
| `Recency.RunBounded` | driver/postgres/lru.go:32-104 | over every run each key is cached once and at most capacity of them |
| `Recency.RunByUse` | driver/postgres/lru.go:32-104 | over every run the list stands in the order of last use |
| `Recency.EvictsLeastRecent` | driver/postgres/lru.go:62-72 | a put on a full cache evicts exactly the least recently used entry |
| `Recency.RunLatest` | driver/postgres/lru.go:32-104 | over every run a cached value is the one last put under its key |
| `Recency.StepFinds` | driver/postgres/lru.go:32-104 | what every operation does to the value under every key: a put sets its own, a removal clears its own, a put on a full cache drops the last, and every other value stays |
| `Recency.RunConserves` | driver/postgres/lru.go:49-104 | every value put in is still cached or has gone once: evicted, overwritten, removed or reset |
| `Lru.Cache.MoveToFront` | driver/postgres/lru.go:42-42 | list and map stay one and the recency list has the key first |
| `Lru.Cache.Get` | driver/postgres/lru.go:32-46 | the cached value or nothing; the list is what the recency list becomes |
| `Lru.Cache.Put` | driver/postgres/lru.go:48-74 | returns exactly the evicted values; the list is what the recency list becomes |
| `Lru.Cache.Trim` | driver/postgres/lru.go:62-72 | the eviction loop takes from the back until the capacity is met |
| `Lru.Cache.Remove` | driver/postgres/lru.go:79-91 | the entry is gone from list and map together |
| `Lru.Cache.Reset` | driver/postgres/lru.go:96-104 | the cache is empty |
| `Replies.Request.Finish` | driver/memcached/state.go:118-125 | wakes the waiter exactly once |
| `Replies.Connection.Enqueue` | driver/memcached/conn.go:378-378 | a request joins the end of the queue, in step with the server |
| `Replies.Connection.OnValue` | driver/memcached/state.go:261-281 | the item goes to the pending get, or else to the head, which becomes it |
| `Replies.Connection.OnStat` | driver/memcached/state.go:315-331 | the same for statistics |
| `Replies.Connection.OnEnd` | driver/memcached/state.go:282-314 | completes the pending request if it is the head, or else the head; otherwise an error |
| `Replies.Connection.OnLine` | driver/memcached/state.go:332-352 | completes the head with the line |
| `Replies.Connection.Dispatch` | driver/memcached/state.go:257-353 | in step with the server a reply goes into the head or completes it with exactly its own answer |
| `Replies.Connection.Process` | driver/memcached/state.go:238-254 | any part of an in-order reply stream completes the first requests, each once with exactly its own contents, and leaves the others waiting; pending is nil or the head throughout |
| `Replies.LineAfterItems` | driver/memcached/state.go:261-352 | after any items of any answer, any line and then any items and an END: the finished request has all of them, the next one none and is dropped unanswered with an error |
| `BinaryReplies.Queue.Dispatch` | driver/memcached/state.go:378-424 | on any packet: refused exactly if none waits or the head waits for another id; otherwise handed to the head, which it completes if it is its reply or its terminator |
| `BinaryReplies.Queue.Collect` | driver/memcached/state.go:433-476 | a multi-packet request holds exactly the contents of its packets and the first error among them |
| `BinaryReplies.Queue.Process` | driver/memcached/state.go:355-371 | on any stream of packets: some first n of them are handed out, exactly in order, all of them if and only if the result is no error, and packet n fits nobody otherwise; requests complete in order, each once and with exactly the contents of its own packets |
| `BinaryReplies.GivenInOrder` | driver/memcached/state.go:355-371 | the shares of the requests, one after the other, are the packets handed out |
| `BinaryReplies.ItemsBack` | driver/memcached/state.go:433-476 | a request holds exactly the items that a server sent to it, in order |
| `BinaryReplies.StatsBack` | driver/memcached/state.go:433-476 | and exactly the statistics |
| `Replies.Connection.DrainWithError` | driver/memcached/state.go:501-507 | every queued request fails with the error and is woken once |
| `Ring.CheckWeights` | driver/memcached/cluster.go:196-224 | accepted if and only if all weights are positive and the ring stays within 65536 points; the first offender is reported |
| `Ring.PointsCount` | driver/memcached/cluster.go:263-285 | 160 points for each unit of weight |
| `Ring.BuildRing` | driver/memcached/cluster.go:263-287 | the nodes' points and no others, sorted |
| `Ring.RingHas` | driver/memcached/cluster.go:274-284 | a hash is on the ring for a node if and only if it is one of the four words of the digest of addr-i, for some i below 40 times its weight |
| `Ring.DecimalIs` | driver/memcached/cluster.go:276-276 | the index in the key is written in decimal |
| `Ring.Search` | driver/memcached/cluster.go:321-323 | the first point at or after the hash |
| `Ring.Lookup` | driver/memcached/cluster.go:320-327 | with wrap-around this is the owner as defined without any sorting |
| `Ring.OwnerUnique` | driver/memcached/cluster.go:299-327 | with distinct point hashes a hash has one owner |
| `Ring.RemovalKeepsOwners` | driver/memcached/cluster.go:263-327 | removing a node leaves the owner of every hash it did not own unchanged |
| `Cluster.Node.RecordResult` | driver/memcached/cluster.go:429-448 | over every history a node is failing exactly while its last threshold results were all infrastructure failures |
| `Cluster.Client.PickNode` | driver/memcached/cluster.go:299-342 | no node exactly on an empty ring; otherwise the ring owner of the first word of the key's digest, or its stand-in; with as many hops as nodes a healthy node whenever one exists |
| `Cluster.Client.OneStandIn` | driver/memcached/cluster.go:312-315 | all keys of a failing node go to the same stand-in |
| `Cluster.Client.StandIn` | driver/memcached/cluster.go:328-341 | the owner, or the first healthy node after it within the allowed hops, or the owner if there is none |
| `Cluster.Partition` | driver/memcached/cluster.go:762-769 | refused exactly if a key has no node; otherwise every key in its own node's share, in order |
| `Cluster.GetMulti` | driver/memcached/cluster.go:755-805 | no nodes exactly if a key has none; otherwise it fails if and only if a node fails, with the error of one that failed; otherwise every key has what its own node answered for it, whatever order the nodes answer in |
| `Wake.Keeps` | driver/memcached/conn.go:313-357 | every step of command, callbacks and Close keeps the invariant |
| `Wake.Isolated` | driver/memcached/conn.go:313-357 | between commands no callback is still to run, wakeRan is empty and an open connection carries no deadline |
| `Wake.OwnCommand` | driver/memcached/conn.go:318-332 | a callback's lock section runs during its own command |
| `Wake.WakesTheRead` | driver/memcached/conn.go:313-357 | in every run: while a command is served on an open socket and its callback has fired, the deadline has passed if and only if the lock section came after the command set its deadline, or it set none |
| `Wake.WakeOverwritten` | driver/memcached/conn.go:881-888 | a run in which the command's SetDeadline overwrites the wake and the read sleeps up to its limit |
| `Wake.AwaitEnds` | driver/memcached/conn.go:345-349 | the wait in disarmWake ends |

## Left out

- Engines, sockets, HTTP parsing, file serving, metrics, configuration and the middleware packages: input and output or plumbing around the parts modelled here.
- Answering.Context.NextHandler: chains of more than 16383 handlers, where the abort index is a valid index, and the wrap-around of the 16-bit index.
- Chains.NextKeeps: the same chains; what a handler computes between Context operations is not modelled.
- Serving.OneAnswer: response contents, headers, status codes and the per-connection route cache; a request is answered or not, and how often. A pre-middleware that aborts without writing, or only takes a StreamWriter, is not answered by anyone.
- Per-route async flags, Route.Use, Route.Async and Route.Sync.
- Lifecycle.RunKeeps: a prepare that fails, the CPU monitor and the settle re-opener; hooks are one step, and Engine.Shutdown and Listen after a cancel are taken to return.
- Adaptive.Classifier.Serve: one request at a time; the interleaving of two requests is in Streaks, which has one route.
- JsonEncoder.AppendValue: which digits strconv chooses for a float, and when it uses an exponent; nil maps, which print as an empty object; a nil slice is Null.
- Copy.RoundTrip: floats, times and values rendered through fmt are their text; octal and hexadecimal escapes are not read, since none is written.
- Lru.Cache.Get: the mutex and a nil cache.
- Replies.Connection.Process: framing of replies from bytes; the queue is a first-in first-out bridge.
- BinaryReplies.Queue.Process: what a transport error does to the connection beyond DrainWithError.
- Ring.BuildRing: MD5 is any function from keys to four words; the sort of equal hashes is any sort.
- Cluster.Client.PickNode: health flags do not change during one call.
- Cluster.GetMulti: a closed client; a node that fails because a sibling's error cancelled it is a node that fails.
- Cluster.Node.RecordResult: the failure counter does not wrap at 32 bits; the time of the last failure and the health probe.
- Wake.Isolated: the operation timer of engine-integrated connections.
