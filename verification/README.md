# Nexara verification models

Dafny models of five parts of Nexara, and proofs about them. Each part keeps the form of
its source: tables, connections, registries and canvases are classes changed in place,
loops are methods proved against a specification, pure decisions are functions.

**Leader election** (`LeaderTable`, `LeaderRuns`, `LeaderTight`, `LeaderTakeover`,
`LeaderTakeoverTight`). Any number of processes compete for one role's row in
`leader_election`. The model is a timed transition system: processes acquire, run, beat on a ticker with a one-slot channel,
drain, release, stop and crash; a statement takes effect once between call and answer or
not at all, and its answer may be lost. `latency` bounds an answer and `drain` bounds
the return of `run` after its cancellation; both are parameters, because the program sets
no statement timeout. The main result is exact: no two processes are ever inside `run`
together **if and only if** there are fewer than two processes or
`latency + 5 + 2 * max(latency, 5) + latency + drain <= 30` seconds. Beyond that budget a
run that breaks mutual exclusion is constructed. `README.md` of the program promises that
exactly one instance runs each role; that promise holds exactly within this budget. It
also promises a takeover within about 40 s, and a comment in the code one within the lease
of 30 s. A takeover bound holds if and only if it is at least 40 s plus two answers; after
a release, 10 s plus two answers.

**In-flight guard** (`EngineGuard`). Every interleaving of ticks and goroutine steps.

**Body framing** (`HeadReadings`, `DeclaredPath`, `Uploads`, `Connection`). A keep-alive
connection is a byte stream with a read position; a front-end framed it line by line, the
server parses it its own way, and a handler reads any part of a body, with the deadline,
malformed chunks and failures of the connection at any point. Every head is parsed at
the first byte of a message the front-end sent, and it is known exactly which requests
keep their connection.

**Endpoint registry** (`Endpoints`, `Registry`, `GateAgreement`, `SampleEndpoint`,
`Mounting`). What `register` accepts, and what acceptance guarantees for every request:
the permission gate and the handler see the same cluster, node names belong to that
cluster, and the mounted chain lets a request through exactly when the declaration says so.

**Request gates** (`DotSegments`, `RequestGates`). The trailing-slash gate against URL
dot-segment resolution, the content-coding scan against the combined header list, and the
ordered stack: what its order costs a refused caller, and what bounds every body that
reaches a route. A comment in the code says that a write refused for its trailing slash
still spends the caller's limiter budget. That holds if and only if some limiter selects
the path; below `/api/v1/auth/` and `/ws` there are paths that none does.

**Icons** (`Canvas`, `Png`). The rounded-rectangle raster and the PNG writer.

`Text` and `Options` hold shared definitions. Text is ASCII throughout.

## Model

| member | source | states |
|---|---|---|
| LeaderTable.LeaderElection.TryBecomeLeader | cmd/nexara/main.go:340-360 | the row becomes the caller's when it is absent, already the caller's, or older than the lease, else it is untouched; true exactly when the caller owns it afterwards; other roles' rows are kept |
| LeaderTable.LeaderElection.Heartbeat | cmd/nexara/main.go:376-391 | refreshes only the caller's own row and reports one row affected exactly then |
| LeaderTable.LeaderElection.Release | cmd/nexara/main.go:400-407 | removes only the caller's own row |
| LeaderTable.HeartbeatLeader | cmd/nexara/main.go:366-396 | the loop returns exactly at the first turn that is a cancellation, an update of no row, or the third failure in a row, and never before |
| LeaderTable.FailureStopsExactly | cmd/nexara/main.go:381-388 | one more failure ends the loop exactly when the failures just before it number at least two |
| LeaderTable.HeartbeatTurnExact | cmd/nexara/main.go:369-393 | the failure counter alone decides every next turn: it carries all the loop needs of its past, whatever that past was |
| LeaderRuns.LeaseStillRuns | cmd/nexara/main.go:328-333 | a process inside `run`, or about to be told it acquired, owns a row nobody may take yet |
| LeaderRuns.OthersKeepTheRow | cmd/nexara/main.go:342-351 | no statement of another process can disturb a row that is still needed |
| LeaderRuns.StepKeepsInvariant | cmd/nexara/main.go:412-458 | every step of every process keeps the invariant: ticks, calls, landings, answers, cancellation, drain, release, crash and time |
| LeaderRuns.MutualExclusion | cmd/nexara/main.go:412-458 | within the lease budget, in every state of every run, at most one process is inside `run`, and it owns a row that is not stale |
| LeaderTight.ExclusionFailsBeyondBudget | cmd/nexara/main.go:366-396 | beyond the budget, for any latency and drain, two processes reach `run` together |
| LeaderTight.MutualExclusionExactly | cmd/nexara/main.go:412-458 | mutual exclusion over all reachable states holds if and only if there are fewer than two processes or the lease budget is kept |
| LeaderTight.BudgetWithPromptAnswers | cmd/nexara/main.go:328-333 | with answers within one interval the budget is three intervals, two answers and the drain within the lease |
| LeaderTakeover.OwnedRowStep | cmd/nexara/main.go:342-351 | one step changes an owned row only by its owner's statement or by a takeover, which needs a heartbeat older than the lease |
| LeaderTakeover.HolderChanges | cmd/nexara/main.go:340-407 | wherever in a run ownership ended, there is a step that ended it, and it is the owner's delete or a takeover |
| LeaderTakeover.NeverDisplaced | cmd/nexara/main.go:335-339 | a holder whose heartbeats stay within the lease and who does not release is never displaced |
| LeaderTakeover.LostAnswerRecovered | cmd/nexara/main.go:347-357 | an acquisition whose answer was lost is won again by the same holder's next try, whatever its age, unless it was taken meanwhile |
| LeaderTakeover.FollowersTry | cmd/nexara/main.go:416-428 | in every run a follower is at most one retry interval from its next try, or one answer from its outcome |
| LeaderTakeover.TakeoverIsBounded | README.md:221 | once no statement of the holder lands, dead or cut off, some other process owns the row no later than one retry interval and two answers after the end of its lease, or after now if the lease is over |
| LeaderTakeover.CrashedIsSilent | cmd/nexara/main.go:320-327 | a crashed process with no statement outstanding is such a holder for the rest of the run |
| LeaderTakeover.TakeoverAfterReleaseIsBounded | cmd/nexara/main.go:398-407 | after a release the row is owned again no later than one retry interval and two answers |
| LeaderTakeoverTight.TakeoverExactly | cmd/nexara/main.go:321-360 | for every bound: all abandoned rows are taken within it of their last heartbeat if and only if it is at least lease, retry interval and two answers, so the lease alone is none |
| LeaderTakeoverTight.ReacquiredExactly | cmd/nexara/main.go:398-428 | the same after a release: a bound holds if and only if it is at least one retry interval and two answers |
| EngineGuard.OneRunInFlight | cmd/nexara/main.go:935-970 | under every interleaving at most one run is alive, the flag is up exactly while one is, and ticks are runs started plus ticks skipped, none queued |
| EngineGuard.SkippedExactlyWhileInFlight | cmd/nexara/main.go:944-947 | a tick is skipped exactly when a run is alive and starts one exactly when none is |
| EngineGuard.Engine.Tick | cmd/nexara/main.go:943-952 | the closure's flag and goroutines move as the schedule's tick says |
| EngineGuard.Engine.Turn | cmd/nexara/main.go:948-951 | so do the steps of a spawned goroutine, the deferred store last |
| HeadReadings.AmbiguousFramingRefusal | internal/api/body_framing.go:250-263 | reports a fold if some line after the first starts with a blank, else an identity coding if some line names one, else nothing |
| HeadReadings.FoldTestExact | internal/api/body_framing.go:252-254 | the two-character substring test holds exactly when a line after the first starts with space or tab |
| HeadReadings.ReadingsCoincide | internal/api/body_framing.go:209-249 | for every head the scan passes and the server accepts, a front-end reading line by line derives the same fields and the same body framing |
| HeadReadings.RefusedHeadsDiverge | internal/api/body_framing.go:209-249 | no head is refused for nothing: on a refused head both readers accept, they differ |
| DeclaredPath.IsPlainParamName | internal/api/body_framing.go:427-437 | true exactly on a non-empty run of letters, digits and underscores |
| DeclaredPath.MatchesDeclaredPath | internal/api/body_framing.go:405-423 | true exactly when the pattern is plain and the path is the pattern with non-empty slash-free values in place of its parameters |
| DeclaredPath.MatchExact | internal/api/body_framing.go:405-423 | agreeing segment by segment is being such an instance, both ways |
| DeclaredPath.ValuesUnique | internal/api/body_framing.go:392-404 | a path determines its parameters' values |
| DeclaredPath.NoLooserThanRouter | internal/api/body_framing.go:335-348 | whatever matches still matches after the router lowercases and trims both sides |
| Uploads.DecideStreamedUpload | internal/api/body_framing.go:357-360 | true exactly for a POST of a streamed multipart type to an instance of the upload route |
| Uploads.UploadPathExact | internal/api/registry_storage.go:28 | the exempt paths are the upload route with two non-empty segments filled in, and no other spelling |
| Connection.ScriptKeepsTracked | internal/api/body_framing.go:138-200 | however a handler reads, a detached body of known length was read to its end, or the deadline passed, or the connection died |
| Connection.KeptAtTheBoundary | internal/api/body_framing.go:116-136 | a connection that is kept stands at the end of the message as the front-end framed it |
| Connection.HeadsParsedAtBoundaries | internal/api/body_framing.go:116-200 | in every run of a connection the k-th head is parsed at the first byte of the k-th message, so no body byte is read as a request |
| Connection.HandlerStaysInside | internal/api/body_framing.go:119-130 | whatever a handler does, it reads nothing past its message and under the deadline the wrapper armed |
| Connection.KeptExactly | internal/api/body_framing.go:116-200 | for every request and every handler script: the connection is kept, at the message's end, if and only if the head is unambiguous, the body is not chunked and any body was read by the accessor, the connection did not fail and the deadline had not passed; all of it read off the head and the script |
| Connection.ServedToTheEndExactly | internal/api/body_framing.go:116-200 | over whole runs: a connection serves a list of requests one after the other if and only if none of them, arriving at its own message, gives such a reason to close |
| Connection.BodyDeadline | internal/api/body_framing.go:122-129 | a deadline is armed for every request but the streamed upload |
| Connection.ServerConnection.RunHandler | internal/api/body_framing.go:130 | the connection after the handler is what its reads and waits make of it |
| Connection.ServerConnection.Handle | internal/api/body_framing.go:116-136 | the wrapper closes exactly the connections the model closes, and a kept one resumes where the reader stands |
| DotSegments.FinalDotLeavesSlash | internal/api/middleware.go:499-507 | a resolved path ends in a slash exactly when the typed one ended in a slash or in a dot segment, encoded or not |
| DotSegments.GateSeesFinalDotsExactly | internal/api/middleware.go:558-563 | the gate refuses a write exactly when the typed path ended in a slash or dot segment and did not resolve to the root; dots further in front leave no mark |
| DotSegments.CleanPathsPass | internal/api/middleware.go:516-520 | a path without dot segments is sent unchanged and passes unless it ends in a slash itself |
| DotSegments.FinalDoubleDotNamesTheParent | internal/api/middleware.go:503-511 | a final double dot turns a request on a child into one on its parent, with the slash that gives it away |
| DotSegments.ResolvedIsRemoveDots | internal/api/middleware.go:499-507 | on paths whose dots are spelled as dots, segment resolution equals the buffer algorithm of section 5.2.4 of RFC 3986 |
| RequestGates.HasContentCoding | internal/api/middleware.go:602-614 | the line-by-line scan answers what splitting the comma-joined combination of all matching lines would (sections 5.2 and 5.6.1.2 of RFC 9110) |
| RequestGates.LineNamesCoding | internal/api/middleware.go:607-611 | one line is coded exactly when some element is neither blank nor identity |
| RequestGates.SpellingsShareTheirLimiters | internal/api/middleware.go:1041-1066 | no limiter can be spelled around: letter case and any number of trailing slashes leave every limiter's choice as it was |
| RequestGates.AuthCapHoldsUnderEverySpelling | internal/api/middleware.go:1100-1127 | every path of the auth cap is on it in all those spellings |
| RequestGates.App.SetupMiddleware | internal/api/middleware.go:117-369 | every gate is registered once, those that read the head alone ahead of every limiter, every limiter ahead of the trailing-slash gate; the results below need that order and no more |
| RequestGates.DispatchExact | internal/api/middleware.go:117-369 | for any stack without repetitions and any request: the first gate that refuses answers, or the request reaches its route, and a limiter is charged exactly when it selects the path and stands ahead of where the request ended up |
| RequestGates.OrderDecidesTheCharge | internal/api/middleware.go:335-360 | for any order of the gates, a request one gate alone refuses has been charged by a limiter exactly when that limiter selects its path and comes before that gate |
| RequestGates.HeadRefusalIsFree | internal/api/middleware.go:341-349 | a refusal by a gate that reads the head alone costs no budget |
| RequestGates.SlashRefusalChargedExactly | internal/api/middleware.go:350-358 | a trailing-slash write never reaches a route; with nothing else in its way it is refused having spent one request of each limiter that selects its path, so it is free if and only if none does |
| RequestGates.AuthScopeMeteredExactly | internal/api/middleware.go:304-323 | below the auth scope, in any number of trailing slashes, a path is metered if and only if a cap of its own names it |
| RequestGates.LogoutSlashIsFree | internal/api/middleware.go:350-352 | the rule that a refused write spends its caller's budget fails on `POST /api/v1/auth/logout/`: refused with every budget intact |
| RequestGates.PreflightStopsAtCors | internal/api/middleware.go:345-349 | an OPTIONS request that names its origin and the method it asks for is answered by a gate that reads the head alone, and costs no budget |
| RequestGates.ExemptIsTheUpload | internal/api/body_framing.go:350-390 | whatever is exempt is a multipart POST to the upload route of a type never read as JSON |
| RequestGates.SlashesReachingRoutesAreReads | internal/api/middleware.go:558-563 | a path with a trailing slash reaches a route only under GET, HEAD or OPTIONS |
| RequestGates.BodiesReachingRoutesAreBounded | internal/api/middleware.go:165-218 | a request at a route was framed alike by server and front-end and the fields both read name no coding; unless it is the upload, its message ends within 10 MiB of its head and every handler script stays within that end, under the deadline; the upload has none |
| Endpoints.PathParamNames | internal/api/registry.go:599-615 | the jumping scan returns the same names as looking at every position |
| Endpoints.NamedColonsExact | internal/api/registry.go:599-622 | the listed positions are all the colons with an identifier behind them, in order, and nothing else |
| Endpoints.NamesExact | internal/api/registry.go:599-622 | the names are the maximal identifier runs behind those colons, one for each |
| Endpoints.SetFields | internal/api/permissions.go:278-302 | lists exactly the populated fields of a declaration, each once |
| Endpoints.ValidateChecks | internal/api/permissions.go:204-228 | true exactly when there are two checks or more and each is well-formed for the path |
| Endpoints.ValidatePermissions | internal/api/permissions.go:189-239 | true exactly when one shape is declared and that shape is well-formed |
| Endpoints.ClusterGateHasCluster | internal/api/permissions.go:324-338 | a valid declaration runs a cluster gate only on a path that names a cluster |
| Registry.CheckPathParams | internal/api/registry.go:368-465 | true exactly when no segment is optional or a wildcard, every placeholder is declared for the path alone, and no parameter a gate could read arrives from elsewhere |
| Registry.CheckedNodeParams | internal/api/registry.go:534-545 | the parameters holding node names that the handler does not claim, in name order |
| Registry.CheckedAreListed | internal/api/registry.go:534-545 | no such parameter is missing from that list |
| Registry.ListedAreChecked | internal/api/registry.go:534-545 | and nothing else is on it |
| Registry.AcceptedUnderNewKey | internal/api/registry.go:239-306 | nothing is reported exactly when all fourteen rules hold of the declaration alone and its key is new: earlier registrations matter through the key only |
| Registry.EndpointRegistry.Register | internal/api/registry.go:239-310 | refuses with the first broken rule, in the order they are asked, and changes nothing, or appends the endpoint and its key; the taken keys stay exactly the endpoints' keys, without duplicates, and every endpoint is acceptable |
| GateAgreement.LegacyFirstName | internal/api/permissions.go:388-399 | under the legacy prefix the first placeholder is `:id`, however it is cased |
| GateAgreement.GateReadsFirstPlaceholder | internal/api/permissions.go:344-400 | whenever a path names a cluster, the gate's two-name lookup resolves to the first placeholder for all values |
| GateAgreement.GateAndHandlerAgree | internal/api/registry.go:321-465 | for every accepted endpoint with a cluster gate and every request, any parameter claiming to be the cluster reaches the handler with the very segment the gate authorized |
| GateAgreement.OutsideThePathTheCallerChooses | internal/api/registry.go:410-450 | why the rules insist on the path: any request that reaches the handler still does with any acceptable value for a body or query parameter, which the handler receives while the gate authorizes the same cluster |
| GateAgreement.NamedNodes | internal/api/registry.go:792-808 | exactly the non-empty node names the handler can read, array elements and defaults included |
| GateAgreement.Serve | internal/api/registry.go:768-785 | the handler is called exactly when the request validates and every node name belongs to the path's cluster |
| GateAgreement.NodesBelongToThePathCluster | internal/api/registry.go:498-591 | in every accepted endpoint a called handler sees only nodes of the path's cluster, except in body parameters it claims with a reason |
| SampleEndpoint.OnePlaceholder | internal/api/registry.go:599-615 | a path with one placeholder between parts that have none names exactly that placeholder |
| SampleEndpoint.StorageListIsAccepted | internal/api/registry_storage.go:103-111 | the storage listing as declared is accepted, runs a cluster gate and has a parameter that claims the cluster, so the theorems on such endpoints are about one that ships |
| Mounting.CheckMountable | internal/api/registry.go:711-723 | the first loop passes exactly when every endpoint has what it needs |
| Mounting.BuildChain | internal/api/registry.go:725-747 | the links are authentication, the interactive gate, the limiter, the permission and serve, each only where declared |
| Mounting.MountRegistry | internal/api/registry.go:707-750 | every endpoint is mounted in order, or none is |
| Mounting.PermissionGateExact | internal/api/permissions.go:126-148 | the mounted permission gate passes exactly what the declaration requires and leaves the bucket alone |
| Mounting.ChainExact | internal/api/registry.go:707-750 | on every request to an accepted endpoint the handler runs exactly when authentication, the interactive gate, the limiter, the permission and validation all pass; what each outcome costs the bucket |
| Mounting.InteractiveRefusalIsFree | internal/api/registry.go:655-667 | a refusal at the interactive gate leaves the limiter's bucket unchanged |
| Mounting.HandlerActsWhereAuthorized | internal/api/handlers/permission_middleware.go:69-170 | whenever a handler behind a cluster gate runs, the caller holds the declared check, all of them, or one of the alternatives on the very cluster the handler receives |
| Canvas.Raster.constructor | frontend/scripts/generate-pwa-icons.py:56-59 | every pixel shows the background |
| Canvas.Raster.Put | frontend/scripts/generate-pwa-icons.py:64-67 | paints the one pixel if it is on the canvas and changes nothing else |
| Canvas.Raster.FillRect | frontend/scripts/generate-pwa-icons.py:69-77 | for any corners, paints exactly the pixels of the rectangle that are on the canvas |
| Canvas.Raster.FillRoundedRect | frontend/scripts/generate-pwa-icons.py:79-89 | paints exactly its bands and corner discs; with room for the corners, exactly the pixels whose centres lie in the rounded rectangle; every other pixel is kept |
| Canvas.StrokesAreTheRoundedRect | frontend/scripts/generate-pwa-icons.py:79-89 | bands and discs together are the points within the radius of the shrunk rectangle |
| Canvas.StrokesStayInTheFrame | frontend/scripts/generate-pwa-icons.py:79-89 | nothing is painted outside the frame if and only if the radius is no longer than either side |
| Canvas.RoundedRectIsSymmetric | frontend/scripts/generate-pwa-icons.py:79-89 | the shape is mirror-symmetric on both axes |
| Canvas.IconTileIsWide | frontend/scripts/generate-pwa-icons.py:112-116 | the tile of an icon of any size has room for its corners and paints nothing off the canvas |
| Canvas.PixelsDetermineBytes | frontend/scripts/generate-pwa-icons.py:61-62 | the pixels cover the buffer, so unchanged pixels are unchanged bytes |
| Png.WritePng | frontend/scripts/generate-pwa-icons.py:30-52 | the row loop writes the specified file, or fails when a length does not fit its field |
| Png.PngRoundTrip | frontend/scripts/generate-pwa-icons.py:30-52 | a reader of the chunk layout and filter type 0 (sections 5.3 and 9.2 of the W3C PNG specification) recovers dimensions and pixels if and only if the buffer holds width times height pixels |
| Png.CanvasIsReadBack | frontend/scripts/generate-pwa-icons.py:55-98 | the file of any canvas reads back as that canvas |

## Left out

- Statements that take effect after their call has returned, such as a DELETE landing after the 5 s release timeout: a model assumption. A crashed process's statement may land at any time.
- Goroutines a job spawns and does not wait for, and the collector and scheduler job bodies: mutual exclusion is about the `run` callback.
- Scheduling delays of a live process are part of `latency` and `drain`; clock drift between processes does not matter, as only the database's clock is compared.
- The two roles: they share no row, so the runs are about one.
- LeaderTakeover.TakeoverIsBounded: the follower's own statements are answered; a follower whose statements keep failing has no bound.
- GateAgreement.Serve: the property rules of the schema (type, format, bounds, requirements between parameters) are the parameter `check`, and an error of the node table counts as a refusal.
- Endpoints.ValidatePermissions: says whether a declaration is refused, not the wording of the refusal.
- Registry.EndpointRegistry.Register: of the schema's own compile rules only those the proofs rest on are modelled: distinct wire names, facets on the kinds they apply to, defaults on optional parameters.
- Mounting.ChainExact: an error inside the permission engine, as opposed to a denial, is not modelled.
- Connection.HeadsParsedAtBoundaries: bytes are seen as far as framing can tell; Content-Length parsing, HTTP/1.0 and heads the server fails to parse are a parameter or a close.
- RequestGates.DispatchExact: recovery, security headers, request ids, logging and compression read no body and are not gates; a budget is what one caller has left in the current window of one limiter, and windows and keys are not modelled.
- The verb, the path and the Content-Type of a head are given with it, not derived from its raw lines.
- The router's matching: it is assumed to hand over one non-empty segment for each placeholder the path scanner finds, in order, and to look placeholders up by the first name that matches in any letter case.
- JSON decoding of bodies and the 64 KiB rule for endpoints without body parameters.
- Unicode folding: comparisons ignore the letter case of ASCII only.
- Canvas.Raster.FillRoundedRect: the corner test is the same inequality over doubled integers instead of halves; radii are not negative.
- `fill_parallelogram` and the glyph: they rest on floating-point rounding.
- Png.PngRoundTrip: zlib is any inverse pair and CRC any function; a failing write leaves a partial file, which the model reports as no file.
- Rate-limiter internals, JWT and API-key lookup, the RBAC engine, the `registry_*.go` tables, the migration command, WebSockets, Redis and the front end: plumbing, tables or single decisions that would only add easy members.
