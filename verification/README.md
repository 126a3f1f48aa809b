# pgproxy in Dafny

pgproxy accepts PostgreSQL clients, checks them against access lists and a connection cap, connects
each to a configured backend, and relays messages in both directions. A handler sees the SQL text of
every Query and Parse message and may refuse or rewrite it; the SQL filter is such a handler. Cancel
requests find their way through a registry that all sessions share.

The project models four parts of it and proves what they promise.

**Sessions and the whole proxy** (`Session`, `Gateway`). A session's service goroutine, request relay
and response relay take turns in any order. Each atomic load or store, lock region, channel operation
and socket write is one step, and a step's label carries what the environment decides: the message
received, the handler's answer, whether a write works. Idle time-outs, forced closes and the drain
time-out are steps that may happen at any moment. `Gateway` runs any number of sessions beside the
accept loop and `stop`, with the registry, the counters, the `sessions` map and the WaitGroup between
them. Every main theorem is about every schedule, of any length.

- `SessionStreams`: what client and backend see. `SessionStatus` and `Pipelining`: ReadyForQuery and
  its status, with and without lock-step. `SessionSafety`: the error signal and admission.
  `StartupErrors`: what a client whose start-up fails is told. `Decoder`: the authentication type under
  which a reply is decoded. `Histories`: that the histories these are about are those of the steps.
- `EverySession`: a session of the proxy goes through a run of its own, so the above hold there too.
- `Lifecycle`, `Drain`: admission, counting and shutdown. `Stranded`, `ForcedStop`: what a forced close
  ends, for a session and for the whole proxy.
- `CancelRegistry`, `CancelDelivery`, `Teardown`, `TeardownRace`: whose entries the registry holds, for
  how long, and when a cancel request is passed on.
- `SessionLoops`, `ServerLoops`: the goroutines in their own form, as classes whose methods update the
  fields in place and loop as the program does, with the other goroutines free to step between any
  two of their atomic actions. Each object keeps the invariant that its steps so far are a run of the
  step system and have led to its present fields; that is how the theorems reach the loops.

**The SQL filter** (`NodeGraph`, `Walker`, `NaiveWalk`, `Acyclic`, `FilterRules`, `FilterFields`,
`FilterLaws`, `QueryFilter`, `AuditLaws`, `ReloadRuns`).
The parse tree is an arbitrary finite graph of pointers, with sharing and cycles. The walk collects
exactly what can be reached; the nested early-exit loops of `Filter` compute a verdict that is stated
without loops; each configuration field decides about the queries that touch its nodes and no others;
the verdict is monotone; what audit mode logs is what it lets by; reloads and calls interleave.

**Redaction** (`Redact`, `RedactClauses`). A scanner for the pattern in `redactSecrets`, proved equal to
the pattern as a language and to clauses in the words of SQL; what leftmost replacement keeps and
removes, that it is idempotent, and that the case of letters moves no match.

**Access control and start-up** (`Cidr`, `Acl`, `Startup`). Masks against numeric ranges (section 3.1 of
RFC 4632) and against leading bits; compiling and checking the lists; negotiation with client and backend.

The protocol is that of the PostgreSQL 16 documentation: sections 55.2.1 (start-up), 55.2.2 (simple
query), 55.2.3 (extended query), 55.2.8 (cancelling requests) and 55.2.9 (termination).

## Where the code and what is said about it part

The model follows the code. Each of these is proved with schedules that show it, and with the exact
condition under which the promise holds.

- The comment on `authTypeCh` (`proxy/proxy.go:466`) says that the request relay can tell the client's
  next reply apart. The channel is drained before a blocking read, so a reply may be decoded under an
  older type than the client was asked for, and, as the type goes down the channel before the request
  goes to the client, also under a newer one: `DecoderCanBeStale`, `DecoderCanBeEarly`,
  `DecodedAsAskedIff`. What always holds is that the types arrive in order.
- The synthetic ReadyForQuery is said to report the backend's actual status. The status is loaded
  before the lock is taken, and stored before the real ReadyForQuery is relayed, so a client that
  pipelines can be told an old one or one it has not been shown: `PipeliningCanBeToldStale`,
  `PipeliningCanBeToldEarly`, `StatusIsTrueIff`, `TruthfulIff`. For a lock-step client it is always true.
- The error and its ReadyForQuery are two lock regions, and a message of the backend may stand between
  them: `PipeliningCanBeToldStale`, `TogetherIff`.
- Teardown is said to delete exactly the entry that the session registered. The relays outlive
  `serviceStartup`, and the two stores of a key are two steps, so an ended session can leave an entry
  for good: `EndedSessionCanLeaveEntry`, `LeavesEntryIff`.
- `stop` takes closing the client connection to be enough for a session to end. With a backend that
  says nothing more it is not if the session is connecting or about to, or if a Terminate has been
  forwarded or will be: `StartupInStoreStrands`, `ConnectingStrands`, `TerminateStrands`,
  `TerminateInHandStrands`, `TerminateInStoreStrands`, `FullChannelStrands`, `AlwaysEndsIff`; for the
  whole proxy `AlwaysOverIff`.

## Model

| member | source | states |
|---|---|---|
| SessionStreams.ClientStreamIsMerge | proxy/proxy.go:511-665 | In every schedule, up to the first failed write, the client's stream is a merge of whole messages: without the proxy's own it is an in-order prefix of what the backend sent, and without the backend's it is the replies to the refused messages in order, an error each and a ReadyForQuery just for a Query; complete whenever nothing is under way |
| SessionStreams.BackendStreamIsTransformed | proxy/proxy.go:511-613 | The backend gets the received messages in order as the handler leaves them, without the refused ones, nothing behind a Terminate; the blocked count is the number refused |
| SessionStreams.ForwardedIsTransform | proxy/proxy.go:579-613 | For a handler that answers by text, what is let through is an independent transformation of the messages alone: refused Query and Parse gone, text replaced, names and OIDs kept, nil unchanged |
| SessionStreams.BackendSeesTransform | proxy/proxy.go:511-613 | In every schedule the backend's stream is a prefix of that transformation of what was received, and all of it when nothing is under way |
| SessionStreams.NilHandlerIsIdentity | proxy/proxy.go:601-613 | A handler that never refuses or changes anything leaves every message stream as it is |
| SessionStreams.RunsKeepStreams | proxy/proxy.go:511-665 | The invariant behind these: each stream plus what its relay holds or owes is exactly what it should be, at every step |
| SessionStatus.LockStepStatusIsTrue | proxy/proxy.go:547-563 | In every lock-step run the client gets at most one ReadyForQuery per sync point plus one, exactly that at rest, and each synthetic one carries the status of the last real one in its stream |
| SessionStatus.StepKeepsLock | proxy/proxy.go:547-660 | Any step that client and backend take in lock-step keeps all ReadyForQuery accounts and the truth of the status |
| SessionStatus.TruthfulEverywhere | proxy/proxy.go:551-560 | In a truthful stream every synthetic ReadyForQuery, wherever it stands, carries the status of the last real one before it |
| Pipelining.LoadedStatusIsBackends | proxy/proxy.go:557-557 | In every run the loaded status is that of the last ReadyForQuery the backend's relay had stored at that moment, 'I' before any |
| Pipelining.StatusIsTrueIff | proxy/proxy.go:557-560 | In every run, the status about to be sent is that of the last real ReadyForQuery the client was sent just when it is the last the backend told, not counting one still to be relayed, stored already or not; if no stored one is still to be relayed, that is just when the stored status is still the loaded one |
| Pipelining.TruthfulIff | proxy/proxy.go:551-560 | In every run, all synthetic ReadyForQuery in the client's stream are true just when each was sent in such a state |
| Pipelining.TogetherIff | proxy/proxy.go:550-560 | In every run, each synthetic ReadyForQuery stands right behind its error just when, for each, nothing of the backend was relayed between the two lock regions |
| Pipelining.IdleUntilFirstReady | proxy/proxy.go:161-161 | Until the backend has reported a status, every ReadyForQuery of the proxy's own says 'I' |
| Pipelining.PipeliningCanBeToldStale | proxy/proxy.go:557-560 | A schedule in which a pipelining client is told 'I' inside a transaction, with a backend message between the error and the ReadyForQuery |
| Pipelining.PipeliningCanBeToldEarly | proxy/proxy.go:654-658 | A schedule in which it is told 'T' before the backend's own ReadyForQuery that says so has been relayed |
| SessionSafety.ErrorSignalledOnce | proxy/proxy.go:341-358 | Whatever mix of goroutines calls err, the signal is closed at most once, by the first call, the only one reported, and the service goroutine is past its wait only after that |
| SessionSafety.SignalIsFinal | proxy/proxy.go:349-358 | No step undoes the close or changes the report |
| SessionSafety.FatalOrRelayed | proxy/proxy.go:434-492 | The client's stream never holds both a fatal error and relayed traffic |
| SessionSafety.DecidedIsPermission | proxy/proxy.go:434-454 | A start-up gets as far as dialling just when database and user are on every list that is not empty and the database is configured; the backend is that database's |
| SessionSafety.DialledOnlyIfPermitted | proxy/proxy.go:434-463 | In every schedule, a session that has dialled was permitted to, and dialled the backend configured for its database |
| StartupErrors.RefusedClientIsTold | proxy/proxy.go:434-463 | In every run a session that has dealt with its start-up message and is leaving has told its client, behind the negotiation answers, exactly one fatal error and nothing else, and started no relay, if a check failed: "42501" if database or user is not on a list that has entries, else "3D000" if the database has no backend, else "08006" if the connection failed; if none did, nothing fatal; only a failed write leaves the code out |
| StartupErrors.ConnectErrorsAddUp | proxy/proxy.go:456-463 | In every run of the whole proxy BackendConnectErrors is the number of connections to a backend that failed, less those about to be counted |
| Histories.HistoriesAreSteps | proxy/proxy.go:511-665 | In every run the histories that the stream laws speak of are what the schedule's steps read and what its handler answered, in order |
| Histories.NegotiationsAreSent | proxy/auth.go:96-131 | In every run the client's stream holds just the negotiation answers that were written |
| Histories.OpeningRuns | proxy/proxy.go:382-404 | Whatever was answered before, a start-up is decided on, a cancel request looked up, and a failure reported |
| Decoder.DecoderLagsInOrder | proxy/proxy.go:515-527 | The decoder's type is the last of a prefix of what the backend asked for, the channel holds what follows, and the lag is at most five: four in the channel and one being sent |
| Decoder.DecodedAsAskedIff | proxy/proxy.go:515-536 | In every run a reply is decoded under the last request that the client was sent just when the requests taken from the channel and those the client was sent end in the same type; while the client can be written to, that is a condition on the channel, the held type, whether a request is still to be relayed, and, if that one has been taken already, the type of the one before it |
| Decoder.DecodedAsLatestIff | proxy/proxy.go:515-536 | A reply is decoded under the latest type put into the channel just when the channel is then empty or ends in the type already held |
| Decoder.DecoderCanBeStale | proxy/proxy.go:466-473 | A schedule in which a client's reply to a request it was sent is decoded under the type before |
| Decoder.DecoderCanBeEarly | proxy/proxy.go:634-658 | A schedule in which it is decoded under the type of a request that the client has not been sent yet |
| EverySession.SessionsRunAlone | proxy/proxy.go:166-171 | In every run of the whole proxy, each session is where its own steps alone lead |
| EverySession.EverySessionIsSound | proxy/proxy.go:382-665 | So every session of the proxy has the stream and safety invariants whatever the rest does |
| EverySession.LockStepSessionsAreToldTheTruth | proxy/proxy.go:547-563 | So a session whose client and backend keep in step is told the truth whatever the other sessions do |
| EverySession.DialledPassedEveryCheck | proxy/proxy.go:132-463 | In every run of the whole proxy, a session that has dialled a backend passed the address check when it was accepted and then the database and user checks, and dialled the backend of its database |
| EverySession.BlockedQueriesAddUp | proxy/metrics.go:84-88 | BlockedQueries is the sum of the refusals that all sessions have counted |
| Lifecycle.CapIsKept | proxy/proxy.go:142-171 | With a positive cap the active connections never exceed it; they are never negative |
| Lifecycle.TurnedAwayIffFull | proxy/proxy.go:142-148 | In every run the cap turns a connection away just when that many sessions are then counted |
| Lifecycle.ConnectionsAreConserved | proxy/proxy.go:128-171 | In every state TotalConnections is rejected by address, plus rejected by the cap, plus admitted, plus the one under way; ActiveConnections is the sessions past the increment and before the decrement |
| Lifecycle.IdsAreFresh | proxy/proxy.go:128-128 | A new connection's id is none that any session has had |
| Lifecycle.WaitGroupIsExact | proxy/proxy.go:113-171 | The WaitGroup counts the accept loop while it runs and every session between its Add and its Done; Add never finds it at zero |
| Lifecycle.ExitOrder | proxy/proxy.go:166-171 | A session leaves the map, then the counter, then the WaitGroup, once each |
| Lifecycle.StoppedIsOver | proxy/proxy.go:175-200 | When stop has returned, the accept loop has left, no service goroutine runs, the map is empty and no connection is active |
| Lifecycle.NothingAfterStop | proxy/proxy.go:175-200 | And however the schedule goes on, nothing is admitted, counted or released any more |
| Lifecycle.OverIsFinal | proxy/proxy.go:109-201 | Any step from such a state leads to such a state and leaves the accept loop's part as it is |
| Lifecycle.AdmittedFromPermittedAddress | proxy/proxy.go:132-140 | Every session in every run came from an address that the address list permits |
| Lifecycle.RunsKeepLife | proxy/proxy.go:109-201 | The invariant behind these, in every interleaving of the accept loop, the exits and stop |
| Lifecycle.ForcedStreamIsFinal | proxy/proxy.go:190-198 | However a run goes on, a session whose client connection stop has closed sends its client nothing more |
| Drain.ClosedIsEnding | proxy/proxy.go:494-504 | In every run a session whose error signal is closed needs nothing more from its peers to end |
| Drain.ExitsLowerMeasure | proxy/proxy.go:166-200 | Once the accept loop is leaving and all sessions are ending, every exit step lowers one system-wide number, no other step raises it, and this stays so |
| Drain.ExitIsEnabled | proxy/proxy.go:166-200 | Until the WaitGroup is at zero, some exit step can be taken |
| Drain.DrainIsBounded | proxy/proxy.go:175-200 | However the steps interleave, exit steps taken plus the number left never exceed the number at the start |
| Drain.NoMeasureIsOver | proxy/proxy.go:175-200 | When the number is zero, everything is over |
| Stranded.AlwaysEndsIff | proxy/proxy.go:190-198 | From every reachable state with the client's connection closed and nothing but what is in store from either peer (start-up packets, how connecting comes out, client messages, backend messages, a hang-up), every schedule that can go no further has ended the session, if and only if the session does not wait for a peer: not to decide on a start-up in store that leads to connecting, nor to connect, unless connecting fails by itself or a relay then reports; and not, once it waits, unless somebody has called err or a relay comes to a failing read or write. The request relay does unless it has ended or has a Terminate in hand or in store; the response relay does if it has something to write or hear and a way past the channel, or if the backend has hung up |
| Stranded.CutRunsAreBounded | proxy/proxy.go:190-198 | Every such schedule is finite: its length is bounded by the work there is at its start |
| Stranded.StartupInStoreStrands | proxy/auth.go:96-131 | It happens: a start-up was read ahead behind a request for encryption |
| Stranded.ConnectingStrands | proxy/auth.go:202-212 | The backend does not answer while the session connects |
| Stranded.TerminateInHandStrands | proxy/proxy.go:539-573 | A Terminate is in the request relay's hand |
| Stranded.TerminateInStoreStrands | proxy/proxy.go:536-573 | A Terminate was read ahead |
| Stranded.TerminateStrands | proxy/proxy.go:571-573 | A Terminate was forwarded: no step at all is left without the backend |
| Stranded.MessageInStoreEnds | proxy/proxy.go:621-665 | But then a message of the backend that was read ahead, whatever it is, does end the session |
| Stranded.FullChannelStrands | proxy/proxy.go:634-649 | The request relay is done and the channel full, at four: then not even the backend can end the session |
| ForcedStop.AlwaysOverIff | proxy/proxy.go:175-201 | From every reachable state of the whole proxy with the listener closed, no connection under admission and nothing more from any peer, every schedule that can go no further has everything over, if and only if every session is one that always ends |
| ForcedStop.GateRunsAreBounded | proxy/proxy.go:175-201 | Every such schedule is finite |
| ForcedStop.OverLetsStopReturn | proxy/proxy.go:198-200 | And when everything is over, stop returns |
| ForcedStop.AllAreClosed | proxy/proxy.go:187-198 | If the accept loop holds no connection when the drain times out, every session still in the map behind the range has had its client connection closed |
| ForcedStop.LateSessionIsNotClosed | proxy/proxy.go:163-198 | Otherwise not: a connection let in just before becomes a session behind the range, with its client connection open |
| CancelRegistry.EntriesBelongToLastRegistrar | proxy/proxy.go:650-653 | In every run a key is in the registry just when its last event is a registration, with that key's secret and the target of the session that made it |
| CancelRegistry.LookUpFindsLastRegistrar | proxy/proxy.go:411-424 | In every run a lookup leads to dialling the target of the session that is then the last to have registered exactly the key, or ends if its last event is not a registration |
| CancelRegistry.CancelWentToLastRegistrar | proxy/proxy.go:411-432 | In every run each cancel request passed on went to the target that the key's last registrar had at the step of the lookup |
| CancelRegistry.CancelReachesOwner | proxy/proxy.go:411-432 | That is the backend of a session that registered exactly its key; the mismatch branch is never taken |
| CancelRegistry.FoundIsLastRegistered | proxy/proxy.go:411-424 | What a lookup finds is the target of the session that registered the key last |
| CancelDelivery.PassedOnIff | proxy/proxy.go:411-432 | In every run a session has passed on this key to this target if and only if its steps about a cancel request are, in order, that it received the key, found an entry with the key's secret and this target, dialled and wrote without failure |
| CancelDelivery.CancelIsDeliveredIff | proxy/proxy.go:411-432 | In every run of the whole proxy, if and only if it received the key, looked it up while the target was that of the key's last registrar, and dialled and wrote without failure |
| CancelDelivery.KeysAreRegistered | proxy/proxy.go:650-653 | In every run a session has registered just the keys that its backend gave it, in order, but for one about to be registered |
| CancelDelivery.CancelGoesToConfiguredBackend | proxy/proxy.go:411-432 | A request passed on went to the backend configured for the database that a session with its key had asked for |
| Teardown.TornDownLeavesNothing | proxy/proxy.go:494-503 | With keys distinct among live sessions, one each, and both stores before the teardown's load, every entry is a live session's own: an ended session leaves none |
| Teardown.TeardownTouchesOwnOnly | proxy/proxy.go:501-503 | In such a run a teardown removes the session's own entry, which it registered last, and no step of it changes another |
| Teardown.LeavesEntryIff | proxy/proxy.go:501-503 | With no more assumed than that no key is given twice, a torn-down session's key is left just when it was stored and the load found none |
| TeardownRace.EndedSessionCanLeaveEntry | proxy/proxy.go:494-503 | A schedule of the whole proxy in which a session is gone and its entry stays |
| SessionLoops.Proxy.Err | proxy/proxy.go:349-358 | In place: closes and reports only on the first call |
| SessionLoops.Proxy.DrainAuthTypes | proxy/proxy.go:515-527 | The drain loop, under any finite interference, ends with the channel empty and the decoder set to the last type that was sent down it |
| SessionLoops.Proxy.HandleIncomingConnection | proxy/proxy.go:511-575 | Under any interference the loop decides the messages in order of arrival, up to the first that cannot be read or forwarded or is a forwarded Terminate; it ends exactly then, and the stream invariant holds |
| SessionLoops.Proxy.Refuse | proxy/proxy.go:547-565 | A refused message is counted once, and then all that was refused has been answered: the proxy's part of the client's stream is exactly the replies, up to the first failed write |
| SessionLoops.Proxy.HandleResponseConnection | proxy/proxy.go:621-665 | Under any interference the backend's messages are heard in order, each observed before it is relayed, up to the first that cannot be read or relayed; the loop waits for room in the channel, and is stuck only if it is full and the others have no more turns |
| SessionLoops.Proxy.ServiceStartup | proxy/proxy.go:434-504 | The client is refused with the code of the first check that fails; a failed connection is counted, refused and reported, in just these steps; otherwise the relays run, and teardown starts only after err was called |
| SessionLoops.Proxy.AwaitErrsig | proxy/proxy.go:494-495 | The wait ends just when the signal is closed; until then the goroutine stays where it is |
| SessionLoops.Proxy.TearDown | proxy/proxy.go:497-503 | With the relays still free to run between the wait, the load and the delete: the registry is told to delete a key just when the load found one |
| ServerLoops.Server.Handle | proxy/proxy.go:128-171 | Under any interference a connection from a forbidden address is counted as that and sent "28000"; any other is counted as over the cap and sent "53300" just when the count loaded has reached it, and is else admitted under a new id; the count loaded was the true one at some moment in between |
| ServerLoops.Server.AcceptLoop | proxy/proxy.go:115-173 | Under any interference every connection is numbered and counted once, the loop ends only for stop, and the accounts hold |
| ServerLoops.Server.ForceCloseAll | proxy/proxy.go:190-198 | Under any interference every session that was there at the time-out and still is has its client connection closed |
| ServerLoops.Server.StopServer | proxy/proxy.go:175-201 | It returns only when everything is over |
| NodeGraph.ExtractIsExactReachability | parser/filter.go:174-233 | On any graph, shared or cyclic, the walk returns exactly the rule-bearing nodes that a chain of pointers and accesses leads to from the root, each once; an access is to what an interface holds, an exported field, a list element or a map entry |
| NodeGraph.SeenIsLinked | parser/filter.go:193-215 | What seen holds at the end is exactly the nodes that such a chain leads to |
| NodeGraph.KidsAreParts | parser/filter.go:216-233 | The values that the walk enters from a value are just those one such access away |
| NodeGraph.RefsArePointers | parser/filter.go:193-233 | And the nodes that it comes to without entering another node, just those that such accesses lead to a pointer to |
| NodeGraph.Shrinks | parser/filter.go:207-215 | The walk ends: entering a node leaves fewer unseen ones |
| NodeGraph.WalkExtends | parser/filter.go:193-233 | From any state, a walk adds exactly the rule-bearing nodes that it newly sees |
| Walker.Collector.WalkNodeTree | parser/filter.go:193-233 | In place, with a mutable seen and output: the new state is the walk's |
| Walker.CollectStatements | parser/filter.go:174-179 | The list that is returned, by chains of pointers and accesses alone |
| NaiveWalk.ExtractIsDeduplicatedPreorder | parser/filter.go:171-174 | Where the walk without seen ends, extractStatements returns its rule-bearing nodes, first occurrences in pre-order |
| NaiveWalk.OnTreeSeenIsRedundant | parser/filter.go:171-174 | Where the walk without seen meets no node twice, seen makes no difference |
| Acyclic.NaiveEndsIff | parser/filter.go:171-174 | The walk without seen ends just when no cycle of pointers can be reached, and then within as many pointers as there are nodes |
| Acyclic.AcyclicExtractIsPreorder | parser/filter.go:171-174 | So on every graph without a reachable cycle extractStatements returns that walk's rule-bearing nodes, first occurrences in pre-order |
| FilterLaws.VerdictIsConjunctionOfSingles | parser/filter.go:276-367 | The verdict of a query is the conjunction of its statements' verdicts, each sent on its own and parsed anew into a tree at other addresses |
| FilterLaws.RenamedNodesPass | parser/filter.go:319-365 | What the node rules say of a tree they say of the same tree at other addresses |
| FilterLaws.LooserAllowsMore | parser/filter.go:276-367 | Loosening the configuration in any field never turns allowed into blocked |
| FilterLaws.ViolationAnywhereBlocks | parser/filter.go:319-365 | A node that breaks its rule blocks the query at any depth of any statement |
| FilterLaws.EmbeddingNeverUnblocks | parser/filter.go:276-367 | Embedding anything, anywhere in a query's statements, never turns its verdict from blocked to allowed, as long as it does not help a statement past the signature rule |
| FilterLaws.EmbeddedNodesPass | parser/filter.go:319-365 | What passes the node rules with something embedded passes them without |
| FilterFields.AllowSelectDecides | parser/filter.go:321-324 | For a query that parses, and with all other fields alike, allow_select off allows what allow_select on does, less the queries that touch a SelectStmt: a node of that type to which a chain leads from a statement |
| FilterFields.AllowInsertDecides | parser/filter.go:339-342 | The same of allow_insert and InsertStmt |
| FilterFields.AllowUpdateDecides | parser/filter.go:332-335 | The same of allow_update and UpdateStmt |
| FilterFields.AllowDeleteDecides | parser/filter.go:325-328 | The same of allow_delete and DeleteStmt |
| FilterFields.AllowTruncateDecides | parser/filter.go:343-346 | The same of allow_truncate and TruncateStmt |
| FilterFields.AllowAlterRoleDecides | parser/filter.go:347-350 | The same of allow_alter_role and AlterRoleStmt |
| FilterFields.AllowSetVarDecides | parser/filter.go:351-354 | The same of allow_set_var and VariableSetStmt |
| FilterFields.AllowExecuteDecides | parser/filter.go:360-363 | The same of allow_execute and ExecuteStmt |
| FilterFields.RequireWhereForUpdateDecides | parser/filter.go:336-338 | require_where_for_update refuses just the queries that touch an UpdateStmt whose field WhereClause is nil |
| FilterFields.RequireWhereForDeleteDecides | parser/filter.go:329-331 | require_where_for_delete the same of DeleteStmt |
| FilterFields.BlockSetVarDecides | parser/filter.go:355-359 | One more name in block_set_vars refuses just the queries that touch a VariableSetStmt whose Name is that name up to folding |
| FilterFields.BlockSignatureDecides | parser/filter.go:290-296 | While the signature filter enforces, one more blocked signature refuses just the queries with a statement of that signature |
| FilterFields.AllowSignatureDecides | parser/filter.go:298-308 | With no signature allowed by default, one less allowed signature refuses just those |
| FilterFields.AllowByDefaultDecides | parser/filter.go:298-308 | Allowing no signature by default refuses just the queries with a statement whose signature is not listed |
| FilterFields.AuditModeDecides | parser/filter.go:310-316 | Leaving audit mode refuses just the queries with a statement whose signature is blocked, or neither listed nor allowed by default |
| FilterFields.SignatureFilterDecides | parser/filter.go:277-287 | In audit mode the signature filter refuses just the queries with a statement that has no signature |
| FilterFields.SignatureFilterOff | parser/filter.go:277-277 | Switched off, none of its other fields matters |
| FilterFields.OpenAllowsAll | parser/filter.go:319-365 | With everything allowed and nothing required or blocked, every query that parses is allowed |
| FilterFields.OnParseErrorDecides | parser/filter.go:261-274 | A query that does not parse is allowed just for "allow" and "audit", whatever the other fields say |
| FilterFields.OnParseErrorIsAll | parser/filter.go:261-274 | And the setting decides about no other query |
| FilterRules.StmtTextIsSlice | parser/filter.go:240-250 | A position that makes sense yields that slice of the query without the white space around it, Unicode's twenty-five characters; another position the whole query |
| QueryFilter.Filterer.Filter | parser/filter.go:254-368 | The nested early-exit loops return the declarative verdict under the configuration loaded once, and log just the audit lines due up to the first refused statement, unparsed text only redacted |
| QueryFilter.Filterer.CheckStatements | parser/filter.go:276-367 | The outer loop: it stops at the first statement that does not pass, and the audit with it |
| QueryFilter.Filterer.CheckSignature | parser/filter.go:277-317 | The two searches with break: the signature rule, failing closed when there is no signature |
| QueryFilter.Filterer.CheckNodes | parser/filter.go:319-365 | The inner loop: true just when every reachable node passes its type's rule |
| QueryFilter.Filterer.Handler | parser/filter.go:371-376 | Refuses just the queries that are not allowed, and changes none |
| QueryFilter.Filterer.UpdateConfig | parser/filter.go:138-141 | Swaps the configuration |
| QueryFilter.CollectedNodesDecide | parser/filter.go:319-365 | The nodes collected decide for all reachable ones |
| AuditLaws.AuditForetells | parser/filter.go:310-316 | For a query that audit mode lets by, nothing is logged if and only if the query would be allowed without audit mode |
| AuditLaws.UnparsedIsLoggedRedacted | parser/filter.go:261-274 | A query that does not parse is logged just under "audit", in one line in which every clause with a secret holds the placeholder |
| AuditLaws.NoTrailWithoutAudit | parser/filter.go:310-316 | Outside audit mode no statement is logged |
| ReloadRuns.LastReloadWins | cli/utils.go:130-137 | After any sequence of reloads and calls the configuration is that of the last successful reload |
| ReloadRuns.EveryVerdictUnderOneConfig | parser/filter.go:254-258 | In every interleaving each verdict is the verdict under one configuration, current when the call loaded it |
| Redact.ScannerIsPattern | parser/filter.go:32-32 | The scanner finds a match at the front just when that prefix is in the pattern's language, and then only that one |
| Redact.RedactKeepsTheRest | parser/filter.go:39-41 | For every string: a leftmost cutting into kept characters and matches, of which only the literals are replaced |
| Redact.LeftmostIsUnique | parser/filter.go:39-41 | There is only one such cutting |
| Redact.RedactIsIdempotent | parser/filter.go:39-41 | Redacting twice is redacting once |
| Redact.OnlyPlaceholdersMatch | parser/filter.go:39-41 | Wherever redacted text still matches, the literal is the placeholder |
| RedactClauses.MatchesAreClauses | parser/filter.go:32-32 | A match starts just where a clause does, and covers it: PASSWORD in any case and white space, or IDENTIFIED, white space, BY and white space, then a literal inside which every quote has an odd number of backslashes before it and which closes behind an even number |
| RedactClauses.PasswordIsRedacted | parser/filter.go:39-41 | Whatever follows, such a clause keeps its keyword and white space and shows '***REDACTED***' for its literal |
| RedactClauses.IdentifiedByIsRedacted | parser/filter.go:39-41 | The same with IDENTIFIED BY |
| RedactClauses.OthersStay | parser/filter.go:39-41 | A character at which no clause begins is kept |
| RedactClauses.CaseMovesNothing | parser/filter.go:32-41 | Two queries that differ in the case of letters alone are redacted to texts that do |
| Cidr.MaskedEqualIsRange | proxy/acl.go:93-97 | Agreeing under n leading mask bits is lying in the block of 2^(width-n) addresses at the masked base |
| Cidr.PrefixContains | proxy/acl.go:43-58 | Contains on a parsed prefix, of either family or IPv4-mapped, is membership in its range |
| Cidr.HostContains | proxy/acl.go:48-53 | A bare address contains itself only |
| Cidr.PrefixCovers | proxy/acl.go:43-58 | Contains on a parsed prefix is agreement in the leading bits that the prefix fixes, where an IPv4 prefix is about the mapped addresses alone and an IPv6 prefix about those only if it fixes the mapped form |
| Cidr.HostIsItself | proxy/acl.go:48-53 | Contains on a bare address is equality of all 128 bits |
| Acl.CompileACL | proxy/acl.go:37-73 | Compiles every entry in order and both tables, or names the first entry that is neither |
| Acl.CheckAddr | proxy/acl.go:78-99 | The early-exit search, with its exemptions |
| Acl.CompiledAddrCheck | proxy/acl.go:37-99 | Compiled and checked, an address is let in just when it lies in the range of some entry |
| Acl.AddressVerdict | proxy/acl.go:78-99 | In terms of the parsers alone: if the host of the remote address, or all of it if it has no port, parses, the client is let in just when the list is empty or some entry is a prefix that covers the address or is the address; if it does not parse, always |
| Acl.CompiledChecks | proxy/acl.go:103-124 | The same for users and databases: on the list, or the list is empty |
| Startup.ReadStartupMessage | proxy/auth.go:96-131 | One answer per negotiation packet in order, 'S' just for an SSLRequest with TLS configured and else 'N', so never 'S' without TLS; the first packet of another kind is the result; when it fails, and what was answered then |
| Startup.RewriteStartupMessage | proxy/auth.go:140-152 | A copy that differs from the client's only in a database name that is configured and not empty |
| Startup.ConnectBackend | proxy/auth.go:194-232 | What exactly goes out: SSLRequest first, then the rewritten start-up, encrypted just when the answer was 'S'; it succeeds just when every step works, and a connection that fails is closed |
| Startup.TargetForIs | proxy/auth.go:69-78 | A path, or what follows "unix:", is a unix socket; every other address is dialled by TCP as it is |

## Left out

- Byte-level encoding and framing: messages are values. Decoding an authentication reply under the held type is kept.
- The SQL grammar, parsing and normalising: arbitrary functions from text to an error, a tree or a signature.
- The texts of fatal errors: their codes only. Of a refusal, the handler's reason.
- Unicode folding in `strings.EqualFold` is an arbitrary function; statement positions count characters, not bytes.
- `NodeGraph`: pointer addresses are unique identities, so a pointer to a struct and one to its first field never coincide; map values are visited in a fixed order.
- TLS handshakes and certificates: only whether TLS is configured, accepted and usable.
- Listeners, systemd, signals, flags, TOML, options, logging and the periodic metrics line: operating-system I/O. Audit lines are an out-parameter.
- Wall-clock time: time-outs are steps that may happen at any moment, or reads and writes that fail.
- ServerLoops.Server.ForceCloseAll: on a closed connection no write works any more; that reads fail once what was read ahead is used up is in `Stranded` and `ForcedStop` only.
- Stranded.AlwaysEndsIff: the backend accepts writes or fails them but does not block them, and a dial for a cancel request comes to an end.
- `Metrics.Snapshot` and the nil receivers: the loads of a snapshot are not one step, so the conservation law is about the counters, not about a snapshot.
- Rejections of users and databases are counted in no counter, as in the program.
- 64-bit wrap-around of the counters and of the connection id.
- Several `Start` calls in one process: they would share ids and the registry.
- Secret keys of other lengths than four bytes (protocol 3.2), FunctionCall bodies and replication: passed through only.
- `service`'s branch for other start-up messages: `readStartupMessage` returns only the two that are handled.
- `ContextHandler` is a handler; what it is told about the session is not modelled.
- SessionLoops.Proxy.HandleIncomingConnection: a script says what arrives, and the loop is left waiting at its end; `SessionLoops.Proxy.HandleResponseConnection` likewise.
- SessionLoops.Proxy.TearDown: the registry belongs to all sessions; what the delete does to it is in `Gateway`, and closing the connections behind it are steps of the step system only.
- ServerLoops.Server.StopServer: it gives up waiting when the scheduler gives the sessions no more turns, instead of waiting for ever.
- Drain.DrainIsBounded: that the exits are in fact taken is fairness of the scheduler, and that every signal gets closed is not promised; see `AlwaysOverIff`.
- ForcedStop.AlwaysOverIff: a connection still under admission is not closed by `stop`, and what becomes of it is up to its client; see `LateSessionIsNotClosed`.
- The race of a forced close with a TLS upgrade that replaces the connection.
