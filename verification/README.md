# picoshift, verified kernels

picoshift simulates the parts of OpenShift that a Kubernetes cluster lacks. Most of it is orchestration; a handful of
kernels decide real behaviour. This project models those kernels in Dafny and proves what they promise, for every input,
every run and every interleaving. `dafny verify dfyconfig.toml` checks everything.

| file | models |
|---|---|
| `OAuth.dfy` | the authorization-code server as a state machine: every lock section and API call of every request is one action, interleaved with clock ticks, sweeps, user-store reloads and client changes |
| `OAuthTerms.dfy` | the protocol's terms and each endpoint's answers, written out on the records |
| `OAuthProvenance.dfy`, `OAuthLedger.dfy`, `OAuthSweeper.dfy` | what holds over all runs of that machine |
| `OAuthServer.dfy` | the server object whose methods update the tables in place, tied to the machine's steps |
| `Text.dfy`, `UserStore.dfy`, `Htpasswd.dfy`, `HtpasswdAnswers.dfy`, `HtpasswdPromises.dfy`, `Accounts.dfy` | the Rust htpasswd reader, the Go htpasswd editor, what the editor promises, and the path from a CLI edit to a login |
| `Gateway.dfy`, `GatewayReading.dfy`, `GatewayConfig.dfy`, `GatewayOrder.dfy` | the HTTPRoute-to-Envoy compiler: route table, cluster table, generator loops, and the order of listing |
| `JobSet.dfy`, `JobSetServer.dfy`, `JobSetController.dfy` | the JobSet reconciler against an API server that changes between any two calls |
| `Der.dfy` | the hand-written RSA key reader against a DER encoder |
| `ImageStream.dfy`, `RouteAdmission.dfy`, `PodMutate.dfy` | three smaller controllers on JSON objects with RFC 7396 merge patches (`Json.dfy`) |
| `WsHandshake.dfy`, `Html.dfy` | the WebSocket head reader and the login page's escaping |

## How the model reads

- Time is a natural number of nanoseconds. Random strings are parameters of the actions that draw them, and
  `FreshNames` says of a run that it never draws one twice; only the results that need it assume it. SHA-256 with
  base64url is an arbitrary function.
- A request is a process with a phase (`OAuth.Phase`). A GET login keeps its read lock on the user store until the code
  is stored; the machine lets reloads happen there too, so it has more runs than the server, and all results are about
  all of them.
- Where code and documentation or comments differ, the model follows the code: an absent PKCE method means S256 (section
  4.3 of RFC 7636 says plain), and the catch-all route answers 503 although the comment above it says 404.
- Gateway strings are UTF-8 bytes; the emitted configuration is data, not YAML text.
- The JobSet API server takes its foreign changes and failures from an arbitrary script, one entry per call, and logs
  every answered read. A failing call may have taken effect. Jobs are never deleted and pod counts never drop. u32 counters wrap.
- An index out of bounds, which panics in Rust, is `None` in the key reader.

Some promises hold only under a condition. Each is stated as an equivalence with it and comes with inputs that break it:

| promise | holds exactly when | broken by |
|---|---|---|
| sweeps are invisible | `SweepsInvisibleIff` | `BoundaryHappens` |
| GET and POST logins agree | `LoginFlowsAgree` | `NamelessUser` |
| `user add` sets the password | `AddSetsPassword` | `PaddedLineSurvives`, `MisnamedAdd`, `PaddedPassword`, `NewlinePassword` |
| `user add`, `user delete` and both together leave others alone | `AddKeepsOthers`, `DeleteKeepsOthers`, `AddThenDelete` | `CommentedUserLost`, `CommentedUserLostByDelete`, `CommentedNotRestored` |
| `user delete` locks out | `DeleteRemovesUser` | `DeletedStillIn` |
| a stored "Failed" is final | `FailureRevised` | `FailedThenCompleted` |
| the JobSet counters judge rightly | `VerdictExact` | `OneSuccessCompletes` |
| the exported RSA exponent is minimal | `ExponentMinimalIff` | `ExponentPadded` |
| routing does not depend on the order of listing | `OrderIndependence`, `RouteOrderIndependence` | `OrderMatters`, `ListingMatters` |
| every backend is reached at its own address | `ReachableIff` | `CollisionUnreachable` |
| one ImageStream patch is enough | `SettlesIff`, `FixpointIff` | `StaleUndoes`, `HotLoop` |
| the tunnel delivers every byte behind the head | `TunnelComplete` | `EarlyFrameDropped` |

## Model

| member | source | states |
|---|---|---|
| `OAuthProvenance.TokenProvenance` | simulator/src/oauth/handlers.rs:15-293 | in every interleaving, every stored token has an ordered history of steps that took effect: a new request's login accepted by the user store of an earlier instant, the redirect target it had asked for approved, the code stored for that cleared request, taken as that very entry by a new token request, the grant check of that request at age at most 300 s by the code's client with matching verifier (or the client secret), then the insertion |
| `OAuthProvenance.CodeSentToTarget` | simulator/src/oauth/handlers.rs:24-50 | the code of such a history went to the approved redirect target, in the answer to that request only |
| `OAuthProvenance.RunJustified` | simulator/src/oauth/handlers.rs:122-244 | the invariant behind it: every stored code, every request in flight and every token is accounted for by the run |
| `OAuthTerms.CheckGrantSound` | simulator/src/oauth/handlers.rs:210-229 | a redemption passes exactly when the conditions of section 4.1.3 of RFC 6749 and section 4.6 of RFC 7636 hold, written out on the records, and goes on to the client check exactly when no challenge was stored |
| `OAuthTerms.PostLoginMeaning` | simulator/src/oauth/handlers.rs:122-164 | the exact answer to a POST login: cleared iff the form is complete, its name is not empty and stored with this password, and some registered address is a prefix of the redirect target; which refusal otherwise |
| `OAuthTerms.GetLoginMeaning` | simulator/src/oauth/handlers.rs:53-120 | the same for GET, with every kind of authorization header and the CSRF header |
| `OAuthTerms.AllowsRegistered` | simulator/src/oauth/handlers.rs:79-84 | a redirect target is allowed iff the client is registered with a prefix of it |
| `OAuthTerms.AcceptsSecret` | simulator/src/oauth/handlers.rs:231-243 | a secret is accepted iff the client is registered and its secret is empty or the one presented |
| `OAuthTerms.UserInfoMeaning` | simulator/src/oauth/handlers.rs:340-399 | the exact answer to a userinfo request: whom the bearer token identifies, and the e-mail and groups of the first entry of that name, with the defaults for what it lacks |
| `OAuthLedger.Conservation` | simulator/src/oauth/handlers.rs:200-244 | over any run, issuances of a code string equal stored copies + requests holding it + overwritings + evictions + rejections + tokens |
| `OAuthLedger.Balance` | simulator/src/oauth/handlers.rs:200-208 | each single step moves a code from one of these accounts to another |
| `OAuthLedger.OneFatePerCode` | simulator/src/oauth/handlers.rs:200-208 | with fresh names a code is used up once, by a failed redemption as by a successful one |
| `OAuthLedger.OneTokenPerCode` | simulator/src/oauth/handlers.rs:283-293 | two tokens are equal iff they were minted by the same action iff they cost the same code |
| `OAuthLedger.TokenLifetime` | simulator/src/oauth/handlers.rs:353-364 | whatever else happens, userinfo honours a minted token for its user for exactly 86 400 s |
| `OAuthSweeper.SweepsInvisible` | simulator/src/oauth/mod.rs:155-168 | a run with sweeps and the same run without give every client the same answers, unless a code is so redeemed at age exactly 300 s |
| `OAuthSweeper.SweepVisible` | simulator/src/oauth/mod.rs:160-160 | if a code is redeemed that way at that age, one well-placed sweep changes the answer |
| `OAuthSweeper.SweepsInvisibleIff` | simulator/src/oauth/mod.rs:155-168 | both directions: all placements of sweeps agree iff no code is redeemed at age exactly 300 s by its own client, with the right verifier or without one |
| `OAuthSweeper.BoundaryHappens` | simulator/src/oauth/handlers.rs:210-212 | boundary redemptions exist for every user and client without PKCE |
| `OAuthSweeper.ResidenceBound` | simulator/src/oauth/mod.rs:149-168 | with sweeps at most 300 s apart, tables hold only codes younger than 600 s and tokens younger than 86 700 s |
| `OAuthServer.OAuthState.constructor` | simulator/src/oauth/types.rs:211-219 | a new server has empty tables and is an initial state of the machine |
| `OAuthServer.OAuthState.ReloadUsers` | simulator/src/oauth/watcher.rs:54-64 | the watcher replaces the store by the parsed secret, or leaves it alone when the key is missing |
| `OAuthServer.OAuthState.SweepCodeTable` | simulator/src/oauth/mod.rs:157-162 | the sweep keeps exactly the codes younger than 300 s and counts the others |
| `OAuthServer.OAuthState.SweepTokenTable` | simulator/src/oauth/mod.rs:163-168 | the sweep keeps exactly the tokens younger than 86 400 s and counts the others |
| `OAuthServer.OAuthState.StoreCode` | simulator/src/oauth/handlers.rs:24-34 | storing a code is the machine's issue step |
| `OAuthServer.OAuthState.RemoveCode` | simulator/src/oauth/handlers.rs:174-208 | shape checks and removal are the machine's take step |
| `OAuthServer.OAuthState.CheckEntry` | simulator/src/oauth/handlers.rs:210-229 | the checks in source order are the machine's grant step |
| `OAuthServer.OAuthState.CheckSecret` | simulator/src/oauth/handlers.rs:231-243 | the secret check in source order is the machine's client step |
| `OAuthServer.OAuthState.StoreToken` | simulator/src/oauth/handlers.rs:283-293 | storing a token is the machine's mint step |
| `OAuthServer.OAuthState.HandleToken` | simulator/src/oauth/handlers.rs:166-306 | undisturbed, a token request gets exactly the answer of `TokenAnswer`, is granted iff the stored entry meets the protocol's conditions, uses the code up whenever it names code and client, and changes nothing else |
| `OAuthServer.TokenRequestMeaning` | simulator/src/oauth/handlers.rs:166-306 | the same on the machine's four steps, each error in its place |
| `OAuthServer.GrantedIff` | simulator/src/oauth/handlers.rs:210-243 | granted iff age, client, verifier or secret are right; without a challenge, a registered client with an empty or matching secret is granted and any other answered by invalid_client |
| `OAuthServer.RedeemIsRun` | simulator/src/oauth/handlers.rs:166-306 | such a request is a run, so the results about runs apply to it |
| `Accounts.LoginFlowsAgree` | simulator/src/oauth/handlers.rs:53-164 | GET with Basic credentials and POST check in opposite orders; both refuse or both clear the same grant iff the client check fails anyway, or the name is not empty, or no stored entry has the empty name and this password; a name with a colon, which a Basic header cannot carry, iff neither it nor what the header turns it into is stored |
| `Accounts.ColonNames` | simulator/src/oauth/handlers.rs:92-98 | over a list read from a file a name with a colon never gets in by POST, and GET reads it as another name |
| `Accounts.NamelessUser` | simulator/src/oauth/handlers.rs:141-146 | the file `:pw` has a user without a name, let in by GET and turned away by POST |
| `Accounts.AddedUserLogsIn` | simulator/src/oauth/watcher.rs:54-59 | after `user add` and the reload the user gets in by GET and by POST with the new password, and with no other iff no padded line with another password was there |
| `Accounts.DeletedUserLockedOut` | simulator/src/oauth/watcher.rs:54-59 | after `user delete` and the reload the user cannot get in by either form, iff no padded line was there |
| `Accounts.ReloadedProfile` | simulator/src/oauth/types.rs:84-89 | after a reload every userinfo profile is the default one: e-mails and groups are gone |
| `UserStore.Authenticate` | simulator/src/oauth/types.rs:68-72 | succeeds iff some entry has this name and password |
| `UserStore.AuthenticatesFirst` | simulator/src/oauth/types.rs:68-72 | of several matching entries the first is returned |
| `UserStore.Lookup` | simulator/src/oauth/types.rs:74-76 | returns the first entry of that name, if any |
| `Text.WhiteSpaceTable` | simulator/src/oauth/types.rs:81-86 | what trimming removes: exactly the 25 characters of the Unicode White_Space property |
| `UserStore.FromHtpasswdPieces` | simulator/src/oauth/types.rs:78-93 | carriage returns and the final newline do not matter to the reader |
| `UserStore.ParsePadLeft` | simulator/src/oauth/types.rs:81-86 | leading white space does not matter to a line, except that it turns a comment with a colon into a user |
| `UserStore.ParsePadRight` | simulator/src/oauth/types.rs:81-86 | trailing white space does not matter to a line |
| `UserStore.CleanNamesOnly` | simulator/src/oauth/types.rs:78-93 | no file defines a name with a colon, a newline or padding, or a password with a newline |
| `Htpasswd.HtpasswdAddUser` | cli/cmd/user.go:201-220 | the editing loop computes `AddText` and reports whether a line was replaced |
| `Htpasswd.HtpasswdDeleteUser` | cli/cmd/user.go:239-262 | the deleting loop computes `DeleteText`, with both error returns |
| `HtpasswdPromises.AddSetsPassword` | cli/cmd/user.go:201-220 | for every file, name and password: after add, the reader lets the user in with exactly the trimmed password, iff no padded line for that user with another password hides from the editor and the written text defines the user with that password only (or not at all, and a padded line with it does); with exactly the password as given, iff moreover nothing surrounds it; without newlines the text defines the user iff the reader returns the name unchanged |
| `HtpasswdPromises.AddLogins` | cli/cmd/user.go:201-220 | a password works after add iff the written text or a padded line says so |
| `HtpasswdPromises.PaddedPassword` | cli/cmd/user.go:216-218 | a password with white space around it never works as given |
| `HtpasswdPromises.MisnamedAdd` | cli/cmd/user.go:216-218 | for a name with a colon or padding, add lets in somebody else and never that user |
| `HtpasswdPromises.NewlinePassword` | cli/cmd/user.go:216-218 | a password with a newline inside never works |
| `HtpasswdPromises.AddKeepsOthers` | cli/cmd/user.go:201-220 | for every name and password: nobody else notices add, iff every entry it loses, replaces or writes under another name is as well known afterwards as before; for a name whose line defines nobody else, no other entry changes iff the file does not open with an indented `#name:` line of somebody else, and nobody notices iff an equal entry follows the lost one |
| `HtpasswdAnswers.EditNoticed` | cli/cmd/user.go:201-260 | the same for any edit that keeps lines and writes entries, as both commands do |
| `HtpasswdAnswers.ReadBackAny` | simulator/src/oauth/types.rs:78-93 | the reader's view of whatever the editor writes, line breaks inside entries included |
| `HtpasswdPromises.DeleteRemovesUser` | cli/cmd/user.go:243-260 | for every name: after delete no password works, iff no padded line hid from the editor |
| `HtpasswdPromises.DeletedStillIn` | cli/cmd/user.go:247-253 | for every user there is a file on which delete succeeds and the user still logs in |
| `HtpasswdPromises.DeleteKeepsOthers` | cli/cmd/user.go:243-260 | for every name: delete leaves all other users' entries as they were, iff the file does not open with an indented `#name:` line of somebody else and no deleted line stood for somebody else; nobody else notices, iff every such entry is as well known afterwards as before |
| `HtpasswdPromises.DeleteFailure` | cli/cmd/user.go:239-258 | when delete reports an unknown user, only a padded line of the stored text can still let that user in |
| `HtpasswdPromises.NeverFound` | cli/cmd/user.go:247-258 | a name with a colon or a newline is never found |
| `HtpasswdPromises.AddThenDelete` | cli/cmd/user.go:201-260 | adding someone new and deleting them restores the reader's list entry by entry, iff the file does not open with an indented `#name:` line |
| `HtpasswdPromises.CommentedUserLost` | cli/cmd/user.go:201-201 | an indented comment such as ` #a:1` is a user to the reader whom every add locks out |
| `HtpasswdPromises.CommentedUserLostByDelete` | cli/cmd/user.go:243-243 | and so does deleting somebody else |
| `HtpasswdPromises.CommentedNotRestored` | cli/cmd/user.go:201-260 | and no addition is undone by its deletion |
| `HtpasswdPromises.PaddedLineSurvives` | cli/cmd/user.go:208-214 | for every user there is a file on which add leaves an old password working |
| `Htpasswd.EditorView` | cli/cmd/user.go:201-201 | what the reader sees is what the editor sees, preceded by the one entry that trimming loses, if there is one |
| `Gateway.SortIsStable` | simulator/src/gateway.rs:258-259 | the emitted order is a permutation by decreasing prefix length, equal lengths in listing order |
| `Gateway.StableSortUnique` | simulator/src/gateway.rs:258-259 | nothing else satisfies that description, so the model's sort is `sort_by`'s |
| `Gateway.RoutingMeaning` | simulator/src/gateway.rs:255-291 | Envoy's first match over the table is the longest-prefix rule with a backend, earliest among equals, sent to its first backend; the three cases without a match are exact |
| `Gateway.CatchAll` | simulator/src/gateway.rs:280-291 | the 503 entry is emitted iff no rule has a backend, and then alone |
| `Gateway.OrderIndependence` | simulator/src/gateway.rs:255-278 | decisions are independent of the order of the rules iff rules that share a prefix agree on the cluster |
| `Gateway.OrderMatters` | simulator/src/gateway.rs:255-278 | two rules with one prefix and different clusters: the order decides |
| `GatewayOrder.RouteOrderIndependence` | simulator/src/gateway.rs:814-848 | decisions are independent of the order in which HTTPRoutes are listed iff routes that share a prefix agree, each by its first rule for it |
| `GatewayOrder.ListingMatters` | simulator/src/gateway.rs:814-848 | two routes with one prefix and different services: the one listed first gets it |
| `GatewayOrder.RulesPermuted` | simulator/src/gateway.rs:814-830 | listing the routes in another order permutes the rules |
| `GatewayOrder.LeaderDecides` | simulator/src/gateway.rs:255-278 | the first rule for a prefix decides that prefix |
| `Gateway.AddedRuleIsLocal` | simulator/src/gateway.rs:255-278 | inserting a rule anywhere changes decisions only for paths under its prefix |
| `GatewayConfig.GenerateRds` | simulator/src/gateway.rs:255-291 | the generator loop emits the route table with that meaning |
| `GatewayConfig.GenerateCds` | simulator/src/gateway.rs:337-414 | the generator loops emit the cluster table: the authentication proxy's cluster, then clusters each of which stands for a listed backend (name, `service.namespace.svc.cluster.local`, port, TLS by port), one for every backend's name |
| `GatewayConfig.AddBackends` | simulator/src/gateway.rs:368-410 | the inner loop adds one cluster per unseen name |
| `GatewayConfig.SyncHttpRouteConfig` | simulator/src/gateway.rs:814-848 | both tables come from the rules of the routes that reference the gateway, and every cluster but the authentication proxy's stands for a listed backend, with TLS iff its port is in the union of the DestinationRules' TLS ports |
| `GatewayReading.ReferencesMean` | simulator/src/gateway.rs:816-833 | a route counts iff one of its parents is named "data-science-gateway" |
| `GatewayReading.BackendMeans` | simulator/src/gateway.rs:117-132 | name, namespace and 16-bit port of a backend reference, with the defaults |
| `GatewayReading.BackendsMean` | simulator/src/gateway.rs:115-141 | references without a name are dropped, the others keep their order |
| `GatewayReading.PrefixMeans` | simulator/src/gateway.rs:106-114 | the path value of the first match, else the root |
| `GatewayReading.RuleMeans` | simulator/src/gateway.rs:106-147 | prefix and backends of a rule |
| `GatewayReading.RulesMean` | simulator/src/gateway.rs:95-152 | one rule for each element of the rules array, in order |
| `GatewayReading.TlsPortMeans` | simulator/src/gateway.rs:307-335 | a port counts iff some setting has a TLS mode and this number as 16 bits |
| `GatewayConfig.ExtractHttpRouteRules` | simulator/src/gateway.rs:95-152 | the extraction loops keep rule order, drop unnamed backends and apply the defaults |
| `GatewayConfig.ExtractTlsPorts` | simulator/src/gateway.rs:307-335 | exactly the 16-bit ports of settings with a TLS mode |
| `GatewayConfig.ClusterNamesDistinct` | simulator/src/gateway.rs:341-376 | no two clusters share a name, the authentication proxy's included |
| `GatewayConfig.TablesClosed` | simulator/src/gateway.rs:262-272 | every cluster a route names is defined exactly once |
| `GatewayConfig.NamesInjective` | simulator/src/gateway.rs:369-372 | names identify backends whose namespaces have no underscore |
| `GatewayConfig.NamesCollide` | simulator/src/gateway.rs:369-372 | with underscores two different addresses can share a name |
| `GatewayConfig.CollisionUnreachable` | simulator/src/gateway.rs:366-410 | rules with such backends: one of them is reached at the other's address |
| `GatewayConfig.DedupByName` | simulator/src/gateway.rs:366-376 | without underscores, deduplicating by name is deduplicating by service, namespace and port |
| `GatewayConfig.ReachableIff` | simulator/src/gateway.rs:366-410 | every backend's name leads to `service.namespace.svc.cluster.local` at its port, iff no two backends of different address share a name |
| `GatewayConfig.PathReachesBackend` | simulator/src/gateway.rs:255-410 | end to end, a path ends at the address and port of the first backend of its longest-prefix rule, with TLS by that port |
| `JobSetController.Reconcile` | simulator/src/jobset.rs:16-208 | with foreign changes between any two API calls: a snapshot that is suspended, finished or without replicated jobs, and no other, changes nothing; every child is read once, in order, and left present; the verdict is the one that the statuses deserve, each at the instant it was read (`Judged`), iff no decisive counter wraps to zero; hence "Completed" is true at the write, and certain if all children had succeeded at the start; left alone (`QuietlyJudged`), the pass only creates missing children, "Failed" iff all are finished and some child has failed > 0 and succeeded = 0, "Completed" iff all succeeded; the status condition states verdict and counts; nothing but a terminal verdict changes the stored terminal state, and after an error (a lost request, or a lost answer to one that took effect) either nothing was stored or what the verdict demanded; errors only from failing calls |
| `Json.MergePatchMeans` | simulator/src/jobset.rs:182-203 | a merge patch acts as section 2 of RFC 7396 says: null removes, objects merge, anything else replaces, unnamed members stay |
| `JobSetController.CountedIsJudged` | simulator/src/jobset.rs:160-167 | from the statuses read to what the verdict means, interleaved and undisturbed |
| `JobSet.ActiveMeans` | simulator/src/jobset.rs:25-55 | a JobSet is left alone iff `suspend` is true, or the terminal state is a string, or `replicatedJobs` is not an array |
| `JobSet.ReplicatedJobMeans` | simulator/src/jobset.rs:64-71 | name and 32-bit number of replicas, with the defaults |
| `JobSet.ReplicatedJobsMean` | simulator/src/jobset.rs:47-63 | one replicated job for each element of the array, in order |
| `JobSetController.FirstPass` | simulator/src/jobset.rs:84-204 | the first pass over a new JobSet creates its children and nothing else |
| `JobSetController.SuspendedLeftAlone` | simulator/src/jobset.rs:25-34 | suspended, nothing is created |
| `JobSetController.ResumedReconciled` | simulator/src/jobset.rs:25-34 | resumed, its child is there |
| `JobSetController.RunController` | simulator/src/jobset.rs:16-208 | over a controller lifetime with arbitrary stale snapshots, no Job name is created twice, a terminal state is never erased, and a stored "Completed" is true of the children of the snapshot that wrote it; if the snapshots agree on the children it also stays stored |
| `JobSetController.FailureRevised` | simulator/src/jobset.rs:36-44 | from a stored "Failed", an undisturbed reconcile stores "Completed" iff the snapshot is active, has children and all have succeeded, and otherwise keeps "Failed"; interleaved, it does so if that was the case at the start and only if it is at the write |
| `JobSetController.FailedThenCompleted` | simulator/src/jobset.rs:36-183 | a script on which "Failed" is stored and then revised |
| `JobSetController.FailureWritten` | simulator/src/jobset.rs:160-183 | finished children, one without success, and quiet for as long as it takes: "Failed" is stored |
| `JobSetController.ReconcileChild` | simulator/src/jobset.rs:88-153 | one look at a child: what was read and counted; 409 counts as present |
| `JobSetController.VisitReplicas` | simulator/src/jobset.rs:84-154 | the inner loop reads every replica once and counts what it read |
| `JobSetController.VisitAll` | simulator/src/jobset.rs:63-155 | so does the outer loop for all children |
| `JobSetController.WriteStatus` | simulator/src/jobset.rs:160-207 | the branch order of the status update and what it stores |
| `JobSetController.CountersTrack` | simulator/src/jobset.rs:59-96 | the u32 counters are the true counts modulo 2^32 |
| `JobSet.VerdictExact` | simulator/src/jobset.rs:160-167 | the counters judge rightly iff the number of children, of pending children, or (when none is pending) of failures does not wrap to zero |
| `JobSet.CountsMean` | simulator/src/jobset.rs:89-96 | succeeded, failed and pending children partition the children, whatever order and repetition they have |
| `JobSet.WrappedVerdict` | simulator/src/jobset.rs:59-61 | one success among 2^32 + 1 children passes for completion |
| `JobSetController.OneSuccessCompletes` | simulator/src/jobset.rs:16-183 | a reconcile of such a JobSet stores "Completed" |
| `JobSetServer.QuietSightings` | simulator/src/jobset.rs:88-88 | without foreign changes every read sees what was there at the start |
| `JobSetServer.LookedTrans` | simulator/src/jobset.rs:84-88 | what is known of two stretches of calls composes, whatever happened in between |
| `JobSetServer.Api.Interfere` | simulator/src/jobset.rs:88-88 | between two calls Jobs may appear and advance but not vanish or go back, and names are created once |
| `JobSet.ChildCount` | simulator/src/jobset.rs:84-86 | the total is the sum of the replicas |
| `JobSet.JobNameInjective` | simulator/src/jobset.rs:85-85 | within a JobSet the name determines replicated job and index |
| `JobSet.ChildNamesDistinct` | simulator/src/jobset.rs:63-85 | with distinct replicated-job names no two children share a name |
| `JobSet.TerminalPatchEffect` | simulator/src/jobset.rs:168-183 | the terminal merge patch sets the state and keeps the spec |
| `JobSet.RunningPatchEffect` | simulator/src/jobset.rs:190-204 | the running merge patch keeps any terminal state and the spec |
| `Der.ParseRsaIntegers` | simulator/src/oauth/types.rs:132-150 | the reader with its running position computes `ParseRsa`, panics included |
| `Der.ReadDerLen` | simulator/src/oauth/types.rs:156-168 | the shift-and-or loop computes the big-endian value modulo 2^64 |
| `Der.LengthRoundTrip` | simulator/src/oauth/types.rs:152-168 | both length readers invert the DER length encoder, short and long form |
| `Der.ElementRoundTrip` | simulator/src/oauth/types.rs:137-142 | an encoded element is read back at any position |
| `Der.ParseEncodedKey` | simulator/src/oauth/types.rs:132-150 | for all positive n and e, the encoded key yields n as minimal octets and e as octets of its value |
| `Der.TruncatedKeyPanics` | simulator/src/oauth/types.rs:132-150 | an encoded key that was cut off anywhere is never read |
| `Der.ReadLengthMeans` | simulator/src/oauth/types.rs:156-168 | a length is missing iff it is cut short |
| `Der.ExponentMinimalIff` | simulator/src/oauth/types.rs:144-147 | the exponent is minimal iff its top bit is clear |
| `Der.ExponentPadded` | simulator/src/oauth/types.rs:144-147 | exponents from 128 to 255 come out with a superfluous zero octet |
| `Der.MinimalUnique` | simulator/src/oauth/types.rs:140-141 | minimal octets are unique, so the modulus is the one form section 6.3.1.1 of RFC 7518 allows |
| `ImageStream.SettlesIff` | simulator/src/imagestream.rs:68-127 | a patch made from a stale version settles the stored one iff the stored spec has no tags, or as many as the stale one has importable ones, each of them among these |
| `ImageStream.FixpointIff` | simulator/src/imagestream.rs:91-127 | with an up-to-date cache one patch settles the object iff every tag has a string name and a string source |
| `ImageStream.StatusFromSomeSpec` | simulator/src/imagestream.rs:68-127 | in every interleaving of edits and reconciles, with every staleness, each status was made from the spec of an earlier version |
| `ImageStream.QuietOnceSettled` | simulator/src/imagestream.rs:75-77 | once the object is settled and the cache has caught up, nothing is written any more |
| `ImageStream.StaleUndoes` | simulator/src/imagestream.rs:68-127 | a reconcile from a stale version undoes a settled status |
| `ImageStream.HotLoop` | simulator/src/imagestream.rs:36-38 | with a tag that cannot be imported every reconcile writes again, however fresh the cache |
| `ImageStream.UpToDateIsPermutation` | simulator/src/imagestream.rs:13-66 | with distinct tag names, "no update needed" means the status pairs are a permutation of the spec pairs |
| `ImageStream.NeedsUpdateMeans` | simulator/src/imagestream.rs:13-66 | an update is needed iff there are tags and no status with as many entries that lists each tag's name and source |
| `ImageStream.SpecPairMeans` | simulator/src/imagestream.rs:40-46 | name and source of a spec tag; importable iff both are strings |
| `ImageStream.StatusPairMeans` | simulator/src/imagestream.rs:48-57 | tag and first image of a status entry |
| `ImageStream.PatchWrites` | simulator/src/imagestream.rs:115-127 | what a patch stores, and that nothing but the status changes |
| `ImageStream.NewTagsMean` | simulator/src/imagestream.rs:91-110 | the status entries, in order, one for each importable tag |
| `RouteAdmission.RouteIndexedUnderItsHost` | simulator/src/proxy.rs:152-186 | in every interleaving and with every staleness a Route is indexed only under its computed host |
| `RouteAdmission.StepKeepsInv` | simulator/src/route.rs:38-93 | admission, edits and watching keep status hosts equal to computed hosts |
| `RouteAdmission.AdmitMeans` | simulator/src/route.rs:15-93 | a reconcile writes iff no condition of any ingress of the version it saw says "Admitted"; it then stores exactly the computed host with such a condition |
| `RouteAdmission.AdmittedOnce` | simulator/src/route.rs:63-63 | a reconcile that has seen it writes nothing more |
| `RouteAdmission.NewRouteServed` | simulator/src/proxy.rs:152-186 | a new Route with a backend is served under its host once it has been admitted and watched |
| `RouteAdmission.GatewayServed` | simulator/src/proxy.rs:308-324 | the Gateway's watcher serves its backend under exactly its hosts |
| `RouteAdmission.HostMeans` | simulator/src/route.rs:38-53 | the host of the spec unless empty, else the one made from name and namespace |
| `RouteAdmission.ExtractHostMeans` | simulator/src/proxy.rs:100-119 | the host of the first ingress, else a non-empty one of the spec |
| `RouteAdmission.BackendMeans` | simulator/src/proxy.rs:121-150 | service, 32-bit or named port, and TLS of a Route |
| `RouteAdmission.HostServedByItsRoute` | simulator/src/proxy.rs:152-186 | at every moment a host is served as the last insertion for it said, which came from the Gateway's watcher or from a Route whose computed host it is, some version of which asks for this very backend |
| `RouteAdmission.HostsNeverDropped` | simulator/src/proxy.rs:308-324 | the index never loses a host |
| `PodMutate.PatchAppliesIff` | simulator/src/pod_mutate.rs:71-117 | an emitted patch applies iff the security context is absent or an object, and then sets fsGroup and nothing else |
| `PodMutate.PatchEmittedIff` | simulator/src/pod_mutate.rs:71-103 | a patch is emitted iff the pod has no fsGroup and runs as non-root as a whole or in some container |
| `PodMutate.AnnotationMeans` | simulator/src/pod_mutate.rs:240-272 | which namespaces are annotated, and with which range |
| `PodMutate.SecondPatchIsNone` | simulator/src/pod_mutate.rs:74-78 | the patched pod needs no second patch |
| `PodMutate.FsGroupMatchesAnnotation` | simulator/src/pod_mutate.rs:250-272 | the fsGroup is the base of the annotated range and of no other range text; annotating is idempotent |
| `PodMutate.BlocksEqualOrDisjoint` | simulator/src/pod_mutate.rs:42-48 | two namespaces' blocks are equal or disjoint, all inside [1e9, 2e9) |
| `WsHandshake.ReadResponseHead` | simulator/src/proxy.rs:418-438 | the loop stops at the first chunk boundary behind a terminator, at end of stream, or at a read error |
| `WsHandshake.StopsInTime` | simulator/src/proxy.rs:432-437 | the stream's first terminator, even split across chunks, ends inside the last chunk read |
| `WsHandshake.NothingLost` | simulator/src/proxy.rs:432-434 | when the loop ends, collected bytes followed by unread bytes are the upstream's stream |
| `WsHandshake.TunnelComplete` | simulator/src/proxy.rs:468-476 | only unread bytes are tunnelled: the client gets every byte behind the head iff the network cut the stream right behind the first terminator, otherwise exactly the rest of that chunk is dropped |
| `WsHandshake.EarlyFrameDropped` | simulator/src/proxy.rs:432-476 | a frame sent in the same chunk as the head is lost |
| `WsHandshake.ChunkingIrrelevant` | simulator/src/proxy.rs:418-438 | every chunking of a stream yields the same response head |
| `Html.ChainIsOnePass` | simulator/src/oauth/helpers.rs:93-98 | the four whole-string rewrites equal one pass over the characters |
| `Html.EscapeIsSafeAndFaithful` | simulator/src/oauth/helpers.rs:93-98 | the result holds no `<`, `>` or `"` and decodes to the original |

## Left out

- OIDC and BYOIDC modes, JWT signing and verification: two codes can yield the same JWT there, and the rest is calls to libraries and external providers. What decoding a JWT-shaped bearer token yields is a parameter.
- Parsing of the redirect target as a URL (an unparsable one is replaced by an error address) and the `state` parameter.
- Response texts, `error_description`, HTML, YAML and Lua templates: the structured data they carry is modelled instead.
- JobSetController.Reconcile: the created Jobs' templates, labels and owner references are not modelled.
- HtpasswdPromises.AddThenDelete: names that the editor does not find again (with a colon, a newline or leading white space) and passwords with a newline are not covered; `NeverFound` covers the first two.
- The htpasswd secret's YAML block scalar is taken as faithful transport.
- PodMutate: the hash is an arbitrary function, so nothing is said about how often two namespaces collide.
- RouteAdmission: Routes deleted from the cluster stay in the index, as in the source; resolving the Gateway's hosts and Service is a parameter.
- Kubernetes watch streams, server-side apply and managed fields: the API server is a map with get, create and merge-patch steps.
- `resolve_endpoint`, request forwarding, TLS set-up, certificate signing, `project.rs`, `service_ca.rs`, `oauth/infra.rs`, `oauth/k8s.rs` beyond the client look-up, `loadbalancer.rs`: network I/O or straight-line set-up that would only add easy members.
- The rest of the CLI, scripts and manifests: shell orchestration and static configuration.
