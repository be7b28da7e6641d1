# Cloudname core, modelled in Dafny

Cloudname is a service-coordination library. It names every running service
instance by a *coordinate*: cell, user, service and instance number. It keeps
each coordinate's configuration and status in a ZooKeeper tree under `/cn`.
Clients find endpoints through *address expressions* such as
`http.0.myservice.myuser.mycell` or `any.myservice.myuser.mycell`.

This project models the two classes that hold that logic.

- `ZkResolver` parses address expressions with four anchored patterns tried in
  a fixed order, and resolves them against the status nodes in the tree. It
  also walks the whole tree through a filter, and keeps the registry of
  listeners that follow dynamic expressions.
- `ZkCloudname` owns the session to the coordination service. It runs the
  supervisor loop that counts connecting turns, closes and reopens the
  session, and ticks the users. It also tells the users about session events,
  and creates, destroys, configures and reads coordinates.

The modules are:

| file | module | what it holds |
|---|---|---|
| `wrappers.dfy` | `Wrappers` | `Option`, `Result`, `Outcome` |
| `numbers.dfy` | `Numbers` | `Integer.parseInt` and `Integer.toString` on decimal strings |
| `types.dfy` | `CnTypes` | service states, endpoints, status snapshots, listener events |
| `fanout.dfy` | `Fanout` | the loop that sends one call to every registered target |
| `address.dfy` | `AddressExpression` | the four patterns and the `Parameters` parser |
| `resolver.dfy` | `Resolver` | `resolve`, `getEndpoints`, the listener registry, the `ZkResolver` class |
| `supervision.dfy` | `Supervision` | one turn of the supervisor loop, as a function |
| `cloudname.dfy` | `Cloudname` | the node tree, the store operations, the `ZkCloudname` class, the builder |

The coordination service is replaced by values.

- The resolver reads a `Namespace`: nested maps cell → user → service. Each
  service maps to the list of its children, each with an optional status node.
  A status node is missing, does not load, or holds a snapshot.
- The store is a `Store` object whose `tree` maps paths (sequences of names) to
  nodes (data and version). The tree is kept closed under parents.
- A session is a value with an id and a state. `ZkCloudname` holds at most one.
  A store call succeeds only through a CONNECTED session.

A regular expression is modelled as a sequence of segment classes.
`Matches(pattern, s)` holds when `s` is such segments joined by dots. None of
the classes contains a dot, so a pattern matches exactly when splitting on `.`
gives one segment per class (`MatchesIffFits`). The parser uses the split form.

The endpoint pattern's cell class is `[a-z][a-z-_]*` (`ZkResolver.java:76`).
It allows `_` and refuses digits, and only the endpoint pattern restricts the
cell this way.
An unknown strategy name is a `NullPointerException` in the code. The model
reports it as `UnknownStrategy`.

## Model

All source paths are under `cn/src/main/java/org/cloudname/zk/`.

| member | source | states |
|---|---|---|
| Numbers.ParseInt | cn/src/main/java/org/cloudname/zk/ZkResolver.java:446-449 | `Integer.parseInt`: a number iff the string is an optional sign followed by at least one digit and its signed value is in the 32-bit range, and then that signed value; the empty string, a lone sign and any other character are refused |
| Numbers.IntToString | cn/src/main/java/org/cloudname/zk/ZkResolver.java:277-279 | `Integer.toString`: non-empty, led by `-` iff the number is negative, digits otherwise |
| Numbers.NonNumbersRefused | cn/src/main/java/org/cloudname/zk/ZkResolver.java:220-232 | segments the instance pattern lets through but that are not numbers (empty, a lone sign, a digit then a letter or sign) are refused; `-3`, `+7`, `007` read as -3, 7, 7 |
| Numbers.ParseIntToString | cn/src/main/java/org/cloudname/zk/ZkResolver.java:352-353 | reading back the decimal form of any 32-bit instance number gives that number |
| Numbers.IntToStringInjective | cn/src/main/java/org/cloudname/zk/ZkResolver.java:352-353 | distinct instance numbers give distinct child names, so distinct status paths |
| Fanout.Broadcast | cn/src/main/java/org/cloudname/zk/ZkResolver.java:31-38 | the `keySet` loop calls every registered target exactly once, only those, each with the same event |
| AddressExpression.Parse | cn/src/main/java/org/cloudname/zk/ZkResolver.java:122-132 | the `Parameters` constructor; a parsed result keeps the expression it came from (the shapes are stated by the lemmas below) |
| AddressExpression.MatchesIffFits | cn/src/main/java/org/cloudname/zk/ZkResolver.java:71-103 | an anchored pattern matches the whole string iff the string's dot-split has one segment per class, each in its class |
| AddressExpression.ParseEndpointShape | cn/src/main/java/org/cloudname/zk/ZkResolver.java:191-204 | five segments with an all-digit second: endpoint = 1st, instance = its value, strategy = ""; a parseInt refusal is a NumberFormat error; nine digits or fewer always parse |
| AddressExpression.ParseStrategyShape | cn/src/main/java/org/cloudname/zk/ZkResolver.java:206-218 | four segments with a letter-led first: strategy = 1st, endpoint = "", instance = -1, ahead of the instance shape |
| AddressExpression.ParseInstanceShape | cn/src/main/java/org/cloudname/zk/ZkResolver.java:220-232 | four segments whose first is a token not led by a letter: instance = parseInt of it, or a NumberFormat error when parseInt refuses |
| AddressExpression.ParseEndpointStrategyShape | cn/src/main/java/org/cloudname/zk/ZkResolver.java:234-246 | five segments with a letter-led second: endpoint = 1st, strategy = 2nd, instance = -1 |
| AddressExpression.CellWithDigitRejected | cn/src/main/java/org/cloudname/zk/ZkResolver.java:71-76 | an endpoint-shaped expression whose cell holds a digit matches no pattern and is refused as invalid |
| AddressExpression.InvalidIffNoPatternMatches | cn/src/main/java/org/cloudname/zk/ZkResolver.java:122-132 | "invalid expression" iff none of the four patterns matches; any other failure comes from parseInt under the endpoint or instance pattern |
| AddressExpression.AcceptedAlphabet | cn/src/main/java/org/cloudname/zk/ZkResolver.java:71-103 | an accepted expression uses only `[a-z0-9-_]` and `.` |
| AddressExpression.UppercaseRejected | cn/src/main/java/org/cloudname/zk/ZkResolver.java:71-103 | an upper-case letter anywhere makes the expression invalid |
| AddressExpression.EndpointExample | cn/src/main/java/org/cloudname/zk/ZkResolver.java:191-204 | `http.0.myservice.myuser.mycell` parses to endpoint http, instance 0 |
| AddressExpression.StrategyExample | cn/src/main/java/org/cloudname/zk/ZkResolver.java:206-218 | `any.myservice.myuser.mycell` parses to strategy any, instance -1 |
| AddressExpression.InstanceExample | cn/src/main/java/org/cloudname/zk/ZkResolver.java:220-232 | `0.myservice.myuser.mycell` parses to instance 0, no endpoint, no strategy |
| AddressExpression.EndpointStrategyExample | cn/src/main/java/org/cloudname/zk/ZkResolver.java:234-246 | `http.any.myservice.myuser.mycell` parses to endpoint http, strategy any, instance -1 |
| AddressExpression.UppercaseExample | cn/src/main/java/org/cloudname/zk/ZkResolver.java:122-132 | `Http.0.svc.user.cell` is refused |
| Resolver.InstanceNumbers | cn/src/main/java/org/cloudname/zk/ZkResolver.java:442-454 | a successful listing has one number per child |
| Resolver.InstanceNumbersSucceed | cn/src/main/java/org/cloudname/zk/ZkResolver.java:442-454 | the listing succeeds iff every child name parses, and then holds the parsed numbers in listing order |
| Resolver.InstanceNumbersFirstBad | cn/src/main/java/org/cloudname/zk/ZkResolver.java:446-449 | a failed listing names the first child whose name does not parse |
| Resolver.InstanceNumbersMeaning | cn/src/main/java/org/cloudname/zk/ZkResolver.java:442-454 | the listing succeeds iff every child name parses, then holds the parsed numbers in listing order; otherwise it names the first child that does not parse |
| Resolver.InstanceNumbersFailureSticks | cn/src/main/java/org/cloudname/zk/ZkResolver.java:446-449 | once a child fails to parse, later children do not change the result |
| Resolver.ChildInstances | cn/src/main/java/org/cloudname/zk/ZkResolver.java:442-454 | listing a service node fails only with a missing path or a child name that does not parse |
| Resolver.InstancesToResolve | cn/src/main/java/org/cloudname/zk/ZkResolver.java:425-440 | an instance above -1 is the only one read; otherwise every child of the service node is listed |
| Resolver.FindEndpoint | cn/src/main/java/org/cloudname/zk/ZkResolver.java:418-421 | the snapshot's endpoint of that name, if any; None iff no endpoint has the name |
| Resolver.Selected | cn/src/main/java/org/cloudname/zk/ZkResolver.java:409-423 | nothing unless RUNNING; every endpoint for the name ""; otherwise at most one endpoint, present iff the snapshot has one of that name |
| Resolver.ApplyStrategy | cn/src/main/java/org/cloudname/zk/ZkResolver.java:294-298 | no strategy returns the list as is; a named strategy returns `order(filter(list))`; an unknown name is an error |
| Resolver.GatherStep | cn/src/main/java/org/cloudname/zk/ZkResolver.java:281-291 | one instance of the loop: a failure stays; a status that does not load fails, naming the instance, and only then; otherwise the list so far is kept as a prefix |
| Resolver.Gather | cn/src/main/java/org/cloudname/zk/ZkResolver.java:276-293 | a failed loop names an instance whose status node does not load |
| Resolver.GatherMember | cn/src/main/java/org/cloudname/zk/ZkResolver.java:276-293 | after a successful loop, a given endpoint is in the list iff a chosen instance with a loaded snapshot contributes it |
| Resolver.ResolveSpec | cn/src/main/java/org/cloudname/zk/ZkResolver.java:262-299 | a bad expression fails as such; no session fails with NoConnection; a load error names an instance whose status does not load; an unknown-strategy error names the expression's strategy, absent from the map; success needs a parse and a session |
| Resolver.GatherFailureSticks | cn/src/main/java/org/cloudname/zk/ZkResolver.java:276-293 | once a status node fails to load, the remaining instances do not change the result |
| Resolver.GatherFailsIff | cn/src/main/java/org/cloudname/zk/ZkResolver.java:276-293 | the loop fails iff some chosen instance has a status node that does not load |
| Resolver.GatherMembers | cn/src/main/java/org/cloudname/zk/ZkResolver.java:276-293 | after a successful loop, an endpoint is in the list iff a chosen instance with a loaded snapshot contributes it |
| Resolver.ResolveNamedInstance | cn/src/main/java/org/cloudname/zk/ZkResolver.java:262-299 | with a named instance and no strategy: no status node gives [], an unloadable one an error, a snapshot exactly what `addEndpoints` selects from it |
| Resolver.ResolveContents | cn/src/main/java/org/cloudname/zk/ZkResolver.java:262-299 | once the instances are listed: resolve fails iff a chosen status does not load or the strategy is unknown; the gathered list holds exactly the contributed endpoints; the result is that list without a strategy and `order(filter(list))` with one |
| Resolver.NegativeInstanceListsAll | cn/src/main/java/org/cloudname/zk/ZkResolver.java:425-440 | a negative instance such as `-3` parses and lists every instance, as a strategy expression does |
| Resolver.MinusThreeIsNegativeInstance | cn/src/main/java/org/cloudname/zk/ZkResolver.java:90-94 | `-3` is a token of the instance pattern and parseInt reads it as -3 |
| Resolver.AddEndpoints | cn/src/main/java/org/cloudname/zk/ZkResolver.java:409-423 | the caller's list becomes the old list followed by what `Selected` gives; nothing is removed |
| Resolver.InstanceEndpoints | cn/src/main/java/org/cloudname/zk/ZkResolver.java:349-382 | from one child: nothing if its name is not a number or its status does not load; otherwise the endpoints whose name and service state pass the filter |
| Resolver.ServiceEndpoints | cn/src/main/java/org/cloudname/zk/ZkResolver.java:346-383 | the union over every child of the service node of what that child yields |
| Resolver.UserEndpoints | cn/src/main/java/org/cloudname/zk/ZkResolver.java:339-384 | the union over the services that the filter accepts |
| Resolver.CellEndpoints | cn/src/main/java/org/cloudname/zk/ZkResolver.java:332-385 | the union over the users that the filter accepts |
| Resolver.EmptyRegistry | cn/src/main/java/org/cloudname/zk/ZkResolver.java:29 | the registry starts empty, with every running expression tracked |
| Resolver.RegisterAsWritten | cn/src/main/java/org/cloudname/zk/ZkResolver.java:394-407 | `addResolverListener` as written: fails iff the listener is known; the map entry is replaced in both cases; the new expression is started only for a new listener, the running set is unchanged for a known one |
| Resolver.Register | cn/src/main/java/org/cloudname/zk/ZkResolver.java:394-407 | a duplicate leaves the registry unchanged and fails; a new listener gets a fresh expression, which is started |
| Resolver.Unregister | cn/src/main/java/org/cloudname/zk/ZkResolver.java:302-311 | an unknown listener fails and changes nothing; a known one is removed and its expression stopped |
| Resolver.RegisterKeepsTracked | cn/src/main/java/org/cloudname/zk/ZkResolver.java:394-407 | registration keeps every running expression owned by exactly one listener |
| Resolver.UnregisterKeepsTracked | cn/src/main/java/org/cloudname/zk/ZkResolver.java:302-311 | removal keeps every running expression owned by exactly one listener |
| Resolver.RegisterThenUnregister | cn/src/main/java/org/cloudname/zk/ZkResolver.java:302-311 | adding a new listener then removing it restores the map and the running set |
| Resolver.AsWrittenDuplicateOrphans | cn/src/main/java/org/cloudname/zk/ZkResolver.java:400-404 | as written, a second registration leaves the first expression running with no owner, and removing the listener never stops it |
| Resolver.DuplicateRegistrationLeaks | cn/src/main/java/org/cloudname/zk/ZkResolver.java:400-404 | listener 7 added twice then removed: the map is empty but expression 0 is still running |
| Resolver.CorrectedDuplicateKeepsTracked | cn/src/main/java/org/cloudname/zk/ZkResolver.java:400-404 | with the check made first, a duplicate registration changes nothing |
| Resolver.ZkResolver.AddResolverListener | cn/src/main/java/org/cloudname/zk/ZkResolver.java:394-407 | the registry and outcome are those of `Register` (the corrected order), and every running expression stays owned |
| Resolver.ZkResolver.RemoveResolverListener | cn/src/main/java/org/cloudname/zk/ZkResolver.java:302-311 | the registry and outcome are those of `Unregister`, and every running expression stays owned |
| Resolver.ZkResolver.ConnectionUp | cn/src/main/java/org/cloudname/zk/ZkResolver.java:31-38 | every registered listener, and no other, gets CONNECTION_OK once |
| Resolver.ZkResolver.ConnectionDown | cn/src/main/java/org/cloudname/zk/ZkResolver.java:40-47 | every registered listener, and no other, gets LOST_CONNECTION once |
| Resolver.ZkResolver.GetInstances | cn/src/main/java/org/cloudname/zk/ZkResolver.java:442-454 | the loop gives the listing `InstanceNumbers` defines, or MissingPath for a missing service node |
| Resolver.ZkResolver.ResolveInstances | cn/src/main/java/org/cloudname/zk/ZkResolver.java:425-440 | gives exactly `InstancesToResolve` |
| Resolver.ZkResolver.CollectEndpoints | cn/src/main/java/org/cloudname/zk/ZkResolver.java:274-293 | the loop over the chosen instances gives exactly `Gather`: missing or unclaimed status skipped, unloadable status an error, snapshots appended through `addEndpoints` |
| Resolver.ZkResolver.Resolve | cn/src/main/java/org/cloudname/zk/ZkResolver.java:262-299 | parse error, no session, listing error, load error or strategy result, exactly as `ResolveSpec` composes them |
| Resolver.ZkResolver.GetEndpoints | cn/src/main/java/org/cloudname/zk/ZkResolver.java:320-391 | no session or no `/cn` fails; otherwise the set holds exactly the endpoints reachable through an accepted cell, user and service, a numeric child with a loadable status, and an accepted name and state |
| Supervision.CountConnecting | cn/src/main/java/org/cloudname/zk/ZkCloudname.java:84-100 | CONNECTED resets the counter; CONNECTING counts, and forces a close iff the count passes 10; other states keep it; the counter stays at most 10 |
| Supervision.CounterCountsConnecting | cn/src/main/java/org/cloudname/zk/ZkCloudname.java:84-100 | over any run of turns, the counter is the number of connecting turns since the last connected one, modulo 11 |
| Supervision.ElevenConnectingTurnsForceClose | cn/src/main/java/org/cloudname/zk/ZkCloudname.java:88-100 | any eleven connecting turns in a row include one that closes the session |
| Supervision.ConnectingRun | cn/src/main/java/org/cloudname/zk/ZkCloudname.java:88-89 | along connecting turns the count since the last connected turn grows by one per turn |
| Supervision.Step | cn/src/main/java/org/cloudname/zk/ZkCloudname.java:76-129 | one turn: exits iff closed; ticks iff the re-read session is CONNECTED; the new counter is what `CountConnecting` gives for the observed state, so at most 10; with no session changes nothing |
| Supervision.ConnectingTurnCounts | cn/src/main/java/org/cloudname/zk/ZkCloudname.java:88-100 | a connecting turn below the limit adds one to the counter, keeps the session (in the state it settles to), opens none, and ticks iff it then is CONNECTED |
| Supervision.OtherStateTurn | cn/src/main/java/org/cloudname/zk/ZkCloudname.java:79-121 | a session in any state other than CONNECTED, CONNECTING or CLOSED keeps its id and the counter, opens nothing, moves to `settled`, and ticks iff that is CONNECTED |
| Supervision.StepKeepsIdsFresh | cn/src/main/java/org/cloudname/zk/ZkCloudname.java:174-181 | the current session's id is always below the next id to hand out |
| Supervision.ClosedSessionIsReplaced | cn/src/main/java/org/cloudname/zk/ZkCloudname.java:102-110 | a CLOSED session is replaced by a new session with the next id when reopening succeeds |
| Supervision.FailedReopenKeepsClosed | cn/src/main/java/org/cloudname/zk/ZkCloudname.java:174-181 | when reopening fails the closed session stays and no user is ticked |
| Supervision.LongConnectingIsClosed | cn/src/main/java/org/cloudname/zk/ZkCloudname.java:88-110 | the eleventh connecting turn closes the session, resets the counter and reopens in the same turn |
| Supervision.ConnectedResetsCounter | cn/src/main/java/org/cloudname/zk/ZkCloudname.java:84-86 | a connected session resets the counter and keeps its handle |
| Cloudname.CoordinatePathsDistinct | cn/src/main/java/org/cloudname/zk/ZkCloudname.java:261-263 | distinct coordinates have distinct roots, and a config path is never a status path |
| Cloudname.MkdirsMeaning | cn/src/main/java/org/cloudname/zk/ZkCloudname.java:235-236 | after `Util.mkdir` every prefix exists, old nodes are untouched, new nodes are empty prefixes, and the tree stays parent-closed |
| Cloudname.DeleteUpwardMeaning | cn/src/main/java/org/cloudname/zk/ZkCloudname.java:298 | `deletePathKeepRootLevels` removes exactly the n deepest prefixes of the path, never one of the kept levels, keeps the other nodes' data and the tree parent-closed |
| Cloudname.CreateSpec | cn/src/main/java/org/cloudname/zk/ZkCloudname.java:227-233 | an existing root fails with CoordinateExists and changes nothing |
| Cloudname.CreateMeaning | cn/src/main/java/org/cloudname/zk/ZkCloudname.java:220-251 | success leaves the root, its ancestors and an empty config node present, with old nodes untouched and the tree parent-closed |
| Cloudname.NoRootNoChildren | cn/src/main/java/org/cloudname/zk/ZkCloudname.java:241-245 | in a parent-closed tree, a missing root means no config or status node, so creating the config node cannot clash |
| Cloudname.CreateTwiceFails | cn/src/main/java/org/cloudname/zk/ZkCloudname.java:227-233 | creating the same coordinate a second time fails with CoordinateExists |
| Cloudname.DestroySpec | cn/src/main/java/org/cloudname/zk/ZkCloudname.java:259-307 | checks in order, each failing with nothing deleted: missing root, config with children, status present (claimed) |
| Cloudname.DestroyMeaning | cn/src/main/java/org/cloudname/zk/ZkCloudname.java:292-306 | keeps `/cn/cell/user` and every other node; success removes config and root; InstanceNotDeleted removed only config; NothingDeleted changed nothing |
| Cloudname.CreatedIsUnclaimed | cn/src/main/java/org/cloudname/zk/ZkCloudname.java:220-251 | a created coordinate has its root and no status node |
| Cloudname.NewServiceHasOnlyRoot | cn/src/main/java/org/cloudname/zk/ZkCloudname.java:235-236 | a service node the create made has the coordinate's root as its only child |
| Cloudname.CreatedServiceIsBare | cn/src/main/java/org/cloudname/zk/ZkCloudname.java:292-306 | once its config and root are gone, a service node the create made is present and has no children, so the upward delete may take it |
| Cloudname.CreateThenDestroyCount | cn/src/main/java/org/cloudname/zk/ZkCloudname.java:292-306 | destroying a just-created coordinate deletes at least two nodes, three if its service node was new |
| Cloudname.CreateThenDestroy | cn/src/main/java/org/cloudname/zk/ZkCloudname.java:259-307 | create then destroy succeeds, keeps every earlier node but possibly an empty service node, and leaves no new node below level 3 |
| Cloudname.GetConfigSpec | cn/src/main/java/org/cloudname/zk/ZkCloudname.java:384-400 | a missing config node fails; otherwise the stored data, None for null |
| Cloudname.SetDataSpec | cn/src/main/java/org/cloudname/zk/ZkCloudname.java:372 | `setData` passes iff the node exists and the version is -1 or the stored one; a pass stores the data under the next version; a failure or any other node is unchanged |
| Cloudname.SetConfigSpec | cn/src/main/java/org/cloudname/zk/ZkCloudname.java:348-380 | passes iff the config node exists and either no old config is given or the stored data equals it with no write in between; a pass stores the new config; no node is added or removed and no other node changes |
| Cloudname.UnconditionalSetConfig | cn/src/main/java/org/cloudname/zk/ZkCloudname.java:348-373 | with no old config the write lands whatever another client wrote, and getConfig then reads it |
| Cloudname.CompareAndSetConfig | cn/src/main/java/org/cloudname/zk/ZkCloudname.java:351-372 | a matching old config stores the new one under the next version |
| Cloudname.MismatchedSetConfig | cn/src/main/java/org/cloudname/zk/ZkCloudname.java:362-365 | a different or null stored config refuses and changes nothing |
| Cloudname.InterleavedSetConfigFails | cn/src/main/java/org/cloudname/zk/ZkCloudname.java:369-372 | a write by another client between the read and the write makes the versioned write fail, and that write stays |
| Cloudname.Store.SetData | cn/src/main/java/org/cloudname/zk/ZkCloudname.java:372 | a missing node or stale version is refused; -1 accepts any version; the data is stored under the next version |
| Cloudname.Store.Mkdir | cn/src/main/java/org/cloudname/zk/ZkCloudname.java:235-236 | the loop creates the tree `Mkdirs` defines |
| Cloudname.Store.DeletePathKeepRootLevels | cn/src/main/java/org/cloudname/zk/ZkCloudname.java:298 | the loop deletes the nodes and returns the count `DeleteUpward` defines |
| Cloudname.SessionProblem | cn/src/main/java/org/cloudname/zk/ZkCloudname.java:48-52 | a store call may go through the session `getZk` returns iff there is one and it is CONNECTED |
| Cloudname.ZkCloudname.constructor | cn/src/main/java/org/cloudname/zk/ZkCloudname.java:59-73 | no session, not closed, counter 0, latch count 1, no users |
| Cloudname.ZkCloudname.AddUser | cn/src/main/java/org/cloudname/zk/ZkCloudname.java:153 | the user joins the registry; nothing else changes |
| Cloudname.ZkCloudname.RetryConnection | cn/src/main/java/org/cloudname/zk/ZkCloudname.java:174-181 | a successful open installs a new CONNECTING session with the next id; a failed one keeps the old session |
| Cloudname.ZkCloudname.RunIteration | cn/src/main/java/org/cloudname/zk/ZkCloudname.java:76-129 | the new state and the exit flag are `Step`'s; when `Step` ticks, every user gets one time event, otherwise none |
| Cloudname.ZkCloudname.TickUsers | cn/src/main/java/org/cloudname/zk/ZkCloudname.java:116-121 | every user gets one time event iff the session is CONNECTED |
| Cloudname.ZkCloudname.Process | cn/src/main/java/org/cloudname/zk/ZkCloudname.java:193-209 | Disconnected or Expired tells every user once that the session is down; SyncConnected releases the latch and hands every user the session; other events do nothing |
| Cloudname.ZkCloudname.Close | cn/src/main/java/org/cloudname/zk/ZkCloudname.java:405-414 | no session is an error; otherwise the session is CLOSED and the flag that ends the loop is set |
| Cloudname.ZkCloudname.CreateCoordinate | cn/src/main/java/org/cloudname/zk/ZkCloudname.java:220-251 | without a connected session fails and changes nothing; otherwise the tree and outcome are `CreateSpec`'s |
| Cloudname.ZkCloudname.DestroyCoordinate | cn/src/main/java/org/cloudname/zk/ZkCloudname.java:259-307 | without a connected session fails and changes nothing; otherwise the tree and outcome are `DestroySpec`'s |
| Cloudname.ZkCloudname.SetConfig | cn/src/main/java/org/cloudname/zk/ZkCloudname.java:348-380 | without a connected session fails and changes nothing; otherwise the tree and outcome are `SetConfigSpec`'s |
| Cloudname.ZkCloudname.GetConfig | cn/src/main/java/org/cloudname/zk/ZkCloudname.java:384-400 | without a connected session fails; otherwise gives `GetConfigSpec` |
| Cloudname.SetConnectString | cn/src/main/java/org/cloudname/zk/ZkCloudname.java:430-433 | the builder holds the given connect string |
| Cloudname.SetDefaultConnectString | cn/src/main/java/org/cloudname/zk/ZkCloudname.java:439-442 | the builder holds `z1:2181,z2:2181,z3:2181` |
| Cloudname.BuildCheck | cn/src/main/java/org/cloudname/zk/ZkCloudname.java:448-453 | build is allowed iff a connect string was set and is not empty |
| Cloudname.DefaultBuilds | cn/src/main/java/org/cloudname/zk/ZkCloudname.java:439-453 | the default connect string always builds; the empty string never does |
| Cloudname.Build | cn/src/main/java/org/cloudname/zk/ZkCloudname.java:448-453 | refused builders fail; otherwise a fresh, unconnected, not-closed object with that connect string |

## Left out

- The ZooKeeper client, watches and network round-trips. Reads go to the
  `Namespace` value or the `Store` tree. `InterruptedException`,
  `KeeperException` and connection loss in mid-call are not modelled, except
  as the `SessionProblem` check made before each store call.
- Threads, `Thread.sleep`, the wait on the connect latch in
  `connectWithTimeout`, and `synchronized` blocks. The run loop is one turn per
  call. What the session does during the pause is the `settled` parameter, and
  whether opening a session succeeds is the `reopened` parameter.
- A thread interrupted while the loop closes the session or sleeps returns from
  `run`. That exit is not modelled.
- `connectWithTimeout` and `connect` open a session and start the loop, so they
  are I/O. `claim`, `getStatus`, `getResolver` and `listRecursively` are
  outside the modelled core.
- The `users` registry is a `WeakHashMap`, which drops users that are garbage
  collected. Here it is a plain set.
- The listener map is modelled as a map from listener identity to expression.
  Starting and stopping a `DynamicExpression` is modelled as adding and removing
  its id in the set of running expressions. What a running expression does is
  not part of this model.
- `ZkCoordinatePath`, `ZkCoordinateData` and the strategy classes are not part
  of this model.
  - Paths are built as `/cn/cell/user/service/instance[/config|/status]`, with
    the instance written by `Integer.toString`.
  - A status node is given as "missing", "does not load" or a snapshot.
  - A strategy is a pair of functions `filter` and `order`.
- `Util.exist`, `Util.hasChildren`, `Util.mkdir` and
  `Util.deletePathKeepRootLevels` are not part of this model. They are given
  the contracts `Mkdirs` and `DeleteUpward` state: create the missing prefixes,
  shortest first; delete the deepest node while it exists, has no children and
  is below the kept levels, and count the nodes deleted.
- The resolver's `Namespace` and the store's tree are two separate views of the
  coordination service. Nothing ties a coordinate created through the store to
  what the resolver reads.
- Numbers.ParseInt: accepts ASCII digits only. `Integer.parseInt` also accepts
  other Unicode decimal digits.
- Resolver.ApplyStrategy: an unknown strategy name is reported as
  `UnknownStrategy`. The source throws a `NullPointerException` there.
- Resolver.ZkResolver.GetEndpoints: a missing session is reported as
  `NoConnection`. The source throws a `NullPointerException` there. The
  namespace holds only existing nodes, so a node that vanishes between listing
  and reading cannot occur.
- Cloudname.SessionProblem: only a CONNECTED session is usable. CONNECTEDREADONLY
  and the transient states are treated as a lost connection. No session at all
  is reported as `NoSession`. The source has no such guard. `getZk()` is used
  directly at `ZkCloudname.java:355`, `372` and `388`, so there a missing
  session is a `NullPointerException`. At lines 228 and 266 the null session is
  passed to `Util`, which is not part of this model.
- Cloudname.ZkCloudname.GetConfig: without a session the source throws a
  `NullPointerException` at `ZkCloudname.java:388`. The model reports it as
  `Fail(NoSession)` and changes nothing.
- Cloudname.ZkCloudname.SetConfig: without a session the source throws a
  `NullPointerException` at `ZkCloudname.java:355` (with an old config) or
  `372`. The model reports it as `Fail(NoSession)` and leaves the tree unchanged.
- Cloudname.ZkCloudname.CreateCoordinate: without a session the null session
  goes to `Util.exist` at `ZkCloudname.java:228`. The model reports
  `Fail(NoSession)` and leaves the tree unchanged.
- Cloudname.ZkCloudname.DestroyCoordinate: without a session the null session
  goes to `Util.exist` at `ZkCloudname.java:266`. The model reports
  `Fail(NoSession)` and leaves the tree unchanged.
- Cloudname.ZkCloudname.SetConfig: another client's write between the read and
  the versioned write is the `interleaved` parameter. Other concurrent changes
  to the tree are not modelled.
- Cloudname.SetConfigSpec: a config node with null data makes `new String(data, …)` throw a
  `NullPointerException` (`ZkCloudname.java:362`). The model reports it as
  `Fail(NullConfigData)`, stated by `Cloudname.MismatchedSetConfig`.
- Cloudname.ZkCloudname.SetConfig: a null `newConfig` is a `NullPointerException`
  in the source (`ZkCloudname.java:372`). The model's `newConfig` is a `string`,
  which is never null, so that case is excluded by its type.
- Cloudname.BuildCheck: a builder whose connect string was never set throws a
  `NullPointerException` at `ZkCloudname.java:449`. The model refuses it with
  `Fail(NoConnectString)`, and so does `Cloudname.Build`.
- Cloudname.ZkCloudname.RunIteration: `reopened = false` also stands for a
  `close()` that lands during the pause (`ZkCloudname.java:104-115`). The loop
  then exits at line 124 with no new session. The source reopens before it
  exits only when `close()` lands between lines 79 and 102.
- Cloudname.ZkCloudname.Close: without a session the source throws
  `IllegalStateException`, modelled as `Fail(NotConnected)`. Closing does not
  wait for the loop to end.
- Config data is a string. The byte encoding through `Util.CHARSET_NAME` is not
  modelled.
- Logging is not modelled.

## Findings

| source | as written | input that shows it | evidently intended | confidence | as-written member | corrected member |
|---|---|---|---|---|---|---|
| cn/src/main/java/org/cloudname/zk/ZkResolver.java:400-404 | `addResolverListener` puts the new expression in the map before it checks for a previous one, then throws | register listener 7 twice, then remove it: the first expression is still running but no longer in the map, so it is never stopped (`DuplicateRegistrationLeaks`, `AsWrittenDuplicateOrphans`) | a duplicate registration is refused and leaves the registry as it was | not executed | Resolver.RegisterAsWritten | Resolver.Register |
