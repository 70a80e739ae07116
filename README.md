# scioncc core in Dafny

This project models three sequential cores of the scioncc capability
container and proves properties about them:

- **The ION process thread** (`process.dfy`, module `Process`). This is the
  FIFO control queue of an `IonProcessThread`. `_routing_call` fills it.
  `has_pending_call`, `_cancel_pending_call` and `cancel_or_abort_call`
  query and cancel queued calls. One pass of the `_control_flow` loop skips
  expired or already-set calls, runs the operation, records failures, adds
  to the busy time and sets the future. The model also covers the heartbeat
  stall detector, `time_stats`, `add_endpoint`/`start_listeners` and the
  ordering of `_notify_stop`.
- **Storing interface definitions** (`interfaces.dfy`, module
  `Interfaces`). This is `InterfaceAdmin`'s parsing of object definition
  files into one entry per class, with serial numbers across files. It
  also covers the service names read from `name:` lines of service files,
  the keying of config files, the two bulk buffers with `_register_bulk`,
  and the dispatch of `store_interfaces`.
- **The service gateway's decision rules** (`gateway.dfy`, module
  `Gateway`). These are the trusted-originator check and the service
  white- and blacklist screening. They cover reading the bearer token
  (section 2.1 of RFC 6750) and the other governance inputs of a request,
  and `validate_request`. They also cover message headers built through
  the user role cache and its event callbacks, the GET argument partition,
  `create_parameter_list` and the operation a REST request maps to.

The Python string operations these cores use are in `text.dfy` (module
`Text`). They work on ASCII text: `split(sep)`, `split()`, `lower()`,
`title()`, `strip()`, `os.path.basename`, `str(n)` and `int(s)` (as Python 2 reads it, with whitespace allowed after the sign). `Option`
and `Result` are in `wrappers.dfy`.

Objects whose fields the source updates are classes:
- `Process.IonProcessThread` (queue, futures, busy time, heartbeat fields, listeners);
- `Interfaces.InterfaceAdmin` (bulk buffers, directory, registry);
- `Gateway.ServiceGateway` (user role cache).

Each state-changing method is proved against a specification function of
the old state and its inputs. The properties the source promises are
lemmas about those functions.

The following become method parameters:
- the clock and the configured thresholds;
- the stack snapshot of the control greenlet;
- how an operation ends;
- file contents and the recursive file listings;
- the session, the headers and the query of an HTTP request;
- what the identity, org and registry services answer.

## Model

| member | source | states |
|---|---|---|
| Process.QueueFutures | pyon/ion/process.py:214 | the futures carried by the queue, in queue order, never more than the entries |
| Process.QueueFuturesAppend | pyon/ion/process.py:214 | putting a descriptor at the end puts its future at the end of the queue's futures; the stop marker adds none |
| Process.QueueFuturesMember | pyon/ion/process.py:221-223 | the future of every queued descriptor is among the queue's futures |
| Process.QueuedHasEntry | pyon/ion/process.py:221-223 | every future among the queue's futures has a descriptor in the queue |
| Process.PendingIffQueued | pyon/ion/process.py:217-225 | before a stop is requested the scan never fails, and `has_pending_call(ar)` is true iff a queued descriptor carries `ar` |
| Process.FoundIsQueued | pyon/ion/process.py:221-223 | a positive answer always means the future is queued |
| Process.StartsIffLiveAndUnset | pyon/ion/process.py:277-290 | a dequeued call runs iff its reply-by (if any) has not passed and its future is not set; it is skipped as expired iff the reply-by has passed, and as cancelled iff not expired and set |
| Process.CrashesIffBadReplyBy | pyon/ion/process.py:278-279 | the control greenlet dies on a call exactly when its context has a reply-by that `int()` cannot read |
| Process.RunHeartbeats | pyon/ion/process.py:99-124 | one verdict per heartbeat sample taken while a call runs |
| Process.TrackedAfterSample | pyon/ion/process.py:99-120 | after any sample of a running call, the tracked op is that call, the tracked stack is this sample's and the count is positive |
| Process.RepeatsCount | pyon/ion/process.py:102-110 | with an unchanged stack the count grows by one per sample, the time stays, and each verdict compares the count and the elapsed time with the thresholds |
| Process.StallByCount | pyon/ion/process.py:104-110 | a call seen with the same stack more than count-threshold times is reported as stalled |
| Process.StallByTime | pyon/ion/process.py:108-119 | a call seen with the same stack for time-threshold seconds since it was first seen is reported as stalled |
| Process.ProgressNeverStalls | pyon/ion/process.py:111-115 | a call whose stack changes at every sample is never reported as stalled |
| Process.DistinctSplit | pyon/ion/process.py:209-215 | a future already taken is not still queued |
| Process.IonProcessThread.constructor | pyon/ion/process.py:51-74 | empty queue, no futures, no current call, zero busy time, no start time, no errors, heartbeat fields (None, None, 0, 0), start-up listeners kept |
| Process.IonProcessThread.Start | pyon/ion/process.py:163-174 | the process exists, the control loop runs and the start time is the clock reading |
| Process.IonProcessThread.RoutingCall | pyon/ion/process.py:209-215 | exactly one descriptor with a fresh, unset future is appended at the end of the queue; that future is returned |
| Process.IonProcessThread.HasPendingCall | pyon/ion/process.py:217-225 | the answer is the queue scan, the state is unchanged |
| Process.IonProcessThread.CancelPendingCall | pyon/ion/process.py:227-237 | a queued future is set to `False` and reported; otherwise nothing changes; no future that was set changes |
| Process.IonProcessThread.CancelOrAbortCall | pyon/ion/process.py:245-252 | cancels a queued future; interrupts the running call only when the future is neither queued nor set |
| Process.IonProcessThread.TakeNext | pyon/ion/process.py:270-290 | the head of the queue is taken (FIFO), skipped when expired or already set, otherwise made the current call with its start time |
| Process.IonProcessThread.FinishCall | pyon/ion/process.py:288-324 | TypeError and IonException go to the caller as they are, other failures are recorded in `_errors` and raised as ContainerError; the busy time grows by exactly the elapsed time; the current call is cleared; the future is set to the result, or None |
| Process.IonProcessThread.RunOne | pyon/ion/process.py:270-324 | one full pass of the loop: a skipped call changes no future, time, error or signal; a run call is settled as FinishCall says: its future set, the elapsed time added, a failure recorded in `_errors` unless forwarded, and raised into the caller as itself or as a ContainerError |
| Process.IonProcessThread.CheckStall | pyon/ion/process.py:97-124 | the heartbeat fields and the verdict are one step of the stall detector |
| Process.IonProcessThread.ListenersAlive | pyon/ion/process.py:90-93 | true iff every attached listener has a greenlet that is not dead |
| Process.IonProcessThread.Heartbeat3 | pyon/ion/process.py:78-126 | (listeners ok, control greenlet running, no stall) |
| Process.IonProcessThread.TimeStats | pyon/ion/process.py:129-138 | total is now minus the start time, busy is `_proc_time`, and total = idle + busy; before start it raises |
| Process.IonProcessThread.AddEndpoint | pyon/ion/process.py:148-161 | after start the listener is attached with its greenlet; before, it is kept for start-up |
| Process.IonProcessThread.StartListeners | pyon/ion/process.py:326-337 | every start-up listener is attached in order; the listener map gains exactly the start-up listeners, each mapped to the greenlet of its last entry, and every other listener keeps its greenlet |
| Process.IonProcessThread.NotifyStop | pyon/ion/process.py:349-367 | listeners close first, then the stop marker is queued, then the children are joined, then the cleanup method runs if there is one |
| Process.ClosingOf | pyon/ion/process.py:356 | one close event per attached listener, in order |
| Process.RouteTwoCancelSecond | pyon/ion/process.py:209-237 | two routed calls are queued in routing order and only the cancelled one's future is `False` |
| Process.TwoCallScenario | pyon/ion/process.py:209-324 | of two routed calls with the second cancelled, the first runs and gets its result, the second stays `False`, and the busy time is the first call's duration |
| Interfaces.PutKeys | src/pyon/core/interfaces/interfaces.py:147 | storing into the OrderedDict keeps the key order and appends a new key at the end |
| Interfaces.ConcatAppend | src/pyon/core/interfaces/interfaces.py:147 | appending an entry appends its text to the concatenation |
| Interfaces.KeysAppend | src/pyon/core/interfaces/interfaces.py:147 | appending an entry appends its key |
| Interfaces.Dedup | src/pyon/core/interfaces/interfaces.py:157 | the distinct values, in order of first occurrence, with exactly the original members |
| Interfaces.DedupUnique | src/pyon/core/interfaces/interfaces.py:157 | a list without repeats is its own key list |
| Interfaces.ScanLine | src/pyon/core/interfaces/interfaces.py:145-154 | once a class name is bound it stays bound |
| Interfaces.ScanLines | src/pyon/core/interfaces/interfaces.py:144-154 | the same over all lines |
| Interfaces.ScanKeys | src/pyon/core/interfaces/interfaces.py:143-155 | before any header nothing is stored; after one, the open entry is named by the last header and the keys are the distinct header names in order |
| Interfaces.ScanKeysStep | src/pyon/core/interfaces/interfaces.py:145-154 | one line of that induction |
| Interfaces.ScanText | src/pyon/core/interfaces/interfaces.py:143-155 | with distinct header names the stored entries are one per header, and the stored text plus the open entry is every line followed by a newline |
| Interfaces.ScanTextStep | src/pyon/core/interfaces/interfaces.py:145-154 | one line of that induction |
| Interfaces.ScanTextBody | src/pyon/core/interfaces/interfaces.py:153-154 | a body line is appended to the open entry |
| Interfaces.ScanTextFlush | src/pyon/core/interfaces/interfaces.py:146-152 | a later header stores the open entry and opens a new one |
| Interfaces.FlushAppends | src/pyon/core/interfaces/interfaces.py:147 | storing under a fresh name appends the entry |
| Interfaces.FlushNew | src/pyon/core/interfaces/interfaces.py:155 | the final store under a fresh name appends the entry |
| Interfaces.LinesTextAppend | src/pyon/core/interfaces/interfaces.py:152-154 | each line is followed by one newline |
| Interfaces.LinesTextJoin | src/pyon/core/interfaces/interfaces.py:144 | every line of `split('\n')` followed by a newline is the file text plus one newline |
| Interfaces.FileObjectsDistinct | src/pyon/core/interfaces/interfaces.py:140-155 | with distinct header names, one entry per header in order, each keyed by the text before its first `:`, and the entries concatenated give the whole file plus one newline; each entry holds exactly the lines of its section, from its header up to the next one, and text before the first header goes to the first entry |
| Interfaces.HeaderAt | src/pyon/core/interfaces/interfaces.py:143-144 | the header positions are in range and strictly increasing |
| Interfaces.HeaderAtSpec | src/pyon/core/interfaces/interfaces.py:143-149 | the positions are exactly the header lines, and the i-th class name is read off the i-th of them |
| Interfaces.SectionAfterBody | src/pyon/core/interfaces/interfaces.py:152-153 | a body line extends the last section and leaves the others |
| Interfaces.SectionAfterHeader | src/pyon/core/interfaces/interfaces.py:144-151 | a header line leaves every section and opens one holding just itself |
| Interfaces.ScanSections | src/pyon/core/interfaces/interfaces.py:143-153 | with distinct header names each stored entry holds the lines of its section and the open entry those of the last section |
| Interfaces.ScanSectionsStep | src/pyon/core/interfaces/interfaces.py:144-153 | one line of that induction |
| Interfaces.SectionsBody | src/pyon/core/interfaces/interfaces.py:152-153 | a body line keeps every entry on its section |
| Interfaces.SectionsHeader | src/pyon/core/interfaces/interfaces.py:144-151 | a later header stores the open entry with its complete section and opens the next |
| Interfaces.FileObjectsKeys | src/pyon/core/interfaces/interfaces.py:143-157 | with any header, the keys are the distinct header names in order of first appearance and the last header's name stays bound |
| Interfaces.FileObjectsRepeated | src/pyon/core/interfaces/interfaces.py:143-155 | a repeated class name keeps its first position but holds only the text of its last section |
| Interfaces.FileObjectsFails | src/pyon/core/interfaces/interfaces.py:151-155 | the NameError happens iff no class name is bound by the end of the file |
| Interfaces.ObjectTypes | src/pyon/core/interfaces/interfaces.py:157-160 | one object type per entry |
| Interfaces.LoadObjectsNumbering | src/pyon/core/interfaces/interfaces.py:133-160 | on success every created resource is an object type and they are numbered consecutively from 1 across all files |
| Interfaces.LoadObjectsFails | src/pyon/core/interfaces/interfaces.py:133-155 | loading fails iff the first file has no header line |
| Interfaces.LaterFilesSucceed | src/pyon/core/interfaces/interfaces.py:135-155 | once a class name is bound, no later file fails |
| Interfaces.AdvanceFile | src/pyon/core/interfaces/interfaces.py:135-160 | loading past a first file that parses: its object types, then the rest numbered on |
| Interfaces.PrependTwice | src/pyon/core/interfaces/interfaces.py:135-160 | accumulating the object types of two files in turn is accumulating both |
| Interfaces.ServiceNamesSpec | src/pyon/core/interfaces/interfaces.py:177-180 | the scan fails iff some `name:` line has fewer than two tokens; otherwise the keys are distinct and are exactly the second tokens of the `name:` lines |
| Interfaces.ServiceDefs | src/pyon/core/interfaces/interfaces.py:185-187 | one service definition per key |
| Interfaces.LoadServicesKind | src/pyon/core/interfaces/interfaces.py:185-187 | only service definitions are buffered |
| Interfaces.LoadServicesOne | src/pyon/core/interfaces/interfaces.py:172-187 | for one file, one definition per distinct `name:` name, holding the whole file text and the file path as namespace, and nothing else |
| Interfaces.ServicesPast | src/pyon/core/interfaces/interfaces.py:173-187 | a file that scans appends its definitions before those of the following files |
| Interfaces.ConfigIntoKeys | src/pyon/core/interfaces/interfaces.py:194-202 | every file's key `("/Config", basename)` is present and no key the buffer held is lost |
| Interfaces.ConfigIntoLastWins | src/pyon/core/interfaces/interfaces.py:199-202 | each key holds the path and content of the last file with that basename |
| Interfaces.ConfigIntoOthers | src/pyon/core/interfaces/interfaces.py:199-202 | keys no file maps to are unchanged and no other key appears |
| Interfaces.StorePlanSpec | src/pyon/core/interfaces/interfaces.py:93-121 | the idempotent full run over stored definitions does nothing; a single object file registers nothing; only service definitions are registered; an escaping error registers nothing |
| Interfaces.MissingFileIsHarmless | src/pyon/core/interfaces/interfaces.py:123-128 | a missing single file only warns: nothing loaded, registered or raised |
| Interfaces.ServiceNamesFailureSticks | src/pyon/core/interfaces/interfaces.py:177-179 | once the IndexError is raised on a line, later lines do not matter |
| Interfaces.InterfaceAdmin.constructor | src/pyon/core/interfaces/interfaces.py:27-32 | the registry holds what was stored before and the directory is empty; `__init__` does not create `bulk_entries`, `bulk_resources` or `idempotent` (`store_interfaces` sets them at :98-101), so their empty initial values are the model's own |
| Interfaces.InterfaceAdmin.LoadObjectFiles | src/pyon/core/interfaces/interfaces.py:133-160 | the object types of the files, numbered across files, or the NameError |
| Interfaces.InterfaceAdmin.FileClasses | src/pyon/core/interfaces/interfaces.py:136-155 | the OrderedDict of one file and the class name left bound |
| Interfaces.InterfaceAdmin.MakeObjectTypes | src/pyon/core/interfaces/interfaces.py:157-160 | one object type per key, numbered on from the serial |
| Interfaces.InterfaceAdmin.LoadServiceFiles | src/pyon/core/interfaces/interfaces.py:172-187 | the definitions of every file are appended to `bulk_resources`, up to the file that raises |
| Interfaces.InterfaceAdmin.AppendServiceDefs | src/pyon/core/interfaces/interfaces.py:185-187 | each key's definition is appended in key order |
| Interfaces.InterfaceAdmin.ServiceFileNames | src/pyon/core/interfaces/interfaces.py:174-180 | the keys of one service file's dict, or the IndexError |
| Interfaces.InterfaceAdmin.LoadConfigFiles | src/pyon/core/interfaces/interfaces.py:194-202 | `bulk_entries` after storing each config file |
| Interfaces.InterfaceAdmin.RegisterBulk | src/pyon/core/interfaces/interfaces.py:210-222 | the buffered entries go to the directory and the buffered resources to the registry, and both buffers end empty |
| Interfaces.InterfaceAdmin.StoreInterfaces | src/pyon/core/interfaces/interfaces.py:93-121 | the buffers are reset, the requested files loaded and what was buffered registered, as the dispatch says |
| Interfaces.InterfaceAdmin.LoadAndRegister | src/pyon/core/interfaces/interfaces.py:103-121 | loading, then `_register_bulk` unless an error escaped |
| Interfaces.InterfaceAdmin.LoadRequested | src/pyon/core/interfaces/interfaces.py:103-119 | the single object file, else the single service file, else all object files then all service files |
| Interfaces.InterfaceAdmin.StoreObjectInterfaces | src/pyon/core/interfaces/interfaces.py:123-131 | the given file if it exists, only a warning if it does not, else the listing |
| Interfaces.InterfaceAdmin.StoreServiceInterfaces | src/pyon/core/interfaces/interfaces.py:162-170 | the same for service files |
| Interfaces.InterfaceAdmin.HasServiceDefinitions | src/pyon/core/interfaces/interfaces.py:111-113 | true iff the registry holds a service definition |
| Gateway.Configure | src/ion/services/service_gateway.py:72-80 | an empty trusted list is stored as None |
| Gateway.TrustedAddresses | src/ion/services/service_gateway.py:350-354 | every address is trusted when no list is configured; otherwise exactly the listed ones |
| Gateway.SecureServiceClientSpec | src/ion/services/service_gateway.py:531-546 | Unauthorized iff the whitelist is non-empty and omits the name or the blacklist holds it; otherwise BadRequest iff the service is unknown; otherwise Inconsistent iff it has no client; otherwise its client |
| Gateway.BearerTokenShape | src/ion/services/service_gateway.py:370-374 | a token is only read from `<scheme> <token>` where the scheme is `bearer` in any case and the token has no space |
| Gateway.BearerTokenRoundTrip | src/ion/services/service_gateway.py:370-374 | every such bearer credential yields its token |
| Gateway.AuthTokenSources | src/ion/services/service_gateway.py:370-381 | the header token wins; otherwise the `authtoken` of a non-empty JSON body; the query is read only without a JSON body; each source is stated in both directions, and a missing `authtoken` gives the empty token |
| Gateway.GovernanceInfoSources | src/ion/services/service_gateway.py:356-397 | without a resolved token the identity is the session's (expiry `valid_until`·1000) or the defaults; a resolved token overrides each key it returns, and a key it lacks keeps the session's value or the default |
| Gateway.ValidateRequestSpec | src/ion/services/service_gateway.py:399-422 | anonymous or unknown actors get the defaults; a known actor gets Inconsistent iff the expiry is not an integer, and Unauthorized iff it is in (0, now); a known actor with a readable expiry outside (0, now) gets its own actor id and expiry back |
| Gateway.ValidatedNotExpired | src/ion/services/service_gateway.py:412-422 | an actor that passes validation has an integer expiry that is 0 or less, or not before now |
| Gateway.SessionIdentityIsReadable | src/ion/services/service_gateway.py:361-365 | the expiry written for a session always reads back, so validating a session's identity never raises Inconsistent |
| Gateway.HeadersCarryIdentity | src/ion/services/service_gateway.py:551-553 | the actor and valid headers are always set |
| Gateway.HeadersWithoutLookup | src/ion/services/service_gateway.py:555-566 | an anonymous actor gets empty roles and a cached non-None entry is used, both without a lookup and without touching the cache |
| Gateway.HeadersOnMiss | src/ion/services/service_gateway.py:568-579 | on a miss the roles are looked up; found roles are used and cached; a failed lookup gives empty roles and caches nothing |
| Gateway.HeadersRepeat | src/ion/services/service_gateway.py:562-574 | once roles are known, the same actor's next request gets the same roles without a lookup |
| Gateway.EvictionForcesLookup | src/ion/services/service_gateway.py:129-133 | after an eviction the actor's next request looks its roles up again |
| Gateway.GetRequestArgsPartition | src/ion/services/service_gateway.py:455-460 | the special keys go to the top level, all others to `params`, and together they are the query, without loss |
| Gateway.RealParamsFirst | src/ion/services/service_gateway.py:495-497 | the first fillable parameter is the first declared name outside {self, headers, timeout} |
| Gateway.RealParamsNone | src/ion/services/service_gateway.py:495-496 | no name is fillable when all are in {self, headers, timeout} |
| Gateway.DeclaredValuesSpec | src/ion/services/service_gateway.py:505-511 | a declared parameter other than `self` gets a value iff it is a request parameter or the request has a timeout; a matched one gets its request value, an unmatched one the timeout |
| Gateway.ParameterListById | src/ion/services/service_gateway.py:493-501 | with an `id_param`, the result has exactly one key, the first declared parameter outside {self, headers, timeout}, holding the id |
| Gateway.ParameterListNoFill | src/ion/services/service_gateway.py:493-503 | when no parameter can take the id, it is ignored |
| Gateway.ParameterListSpec | src/ion/services/service_gateway.py:503-516 | only declared parameters other than `self` are passed; matched ones get their request values; without a timeout, unmatched ones are absent; the unmatched request parameters become the string values of a declared `optional_args` |
| Gateway.RestRequestNaming | src/ion/services/service_gateway.py:169-191 | GET with an id calls `read_`, PUT `update_` and POST `create_` + res_type on the named service; GET without an id calls the registry's `find_resources` with the ION type name; GET with an id passes the id, PUT the payload with the id as its `_id` when one is given (which succeeds only on an ION object), POST the payload alone |
| Gateway.RestRequestRefused | src/ion/services/service_gateway.py:162-211 | AttributeError iff a PUT with an id has a payload that is not an ION object; BadRequest iff the service name or res_type is missing, the verb is not GET/PUT/POST, or a PUT/POST has no payload; no other refusal |
| Gateway.IonResTypeSpelling | src/ion/services/service_gateway.py:173 | the ION type name has no underscore and, ignoring case, spells the resource type without its underscores |
| Gateway.FlattenSplit | src/ion/services/service_gateway.py:173 | joining the pieces of `split('_')` with nothing drops the underscores |
| Gateway.TitleConcatCase | src/ion/services/service_gateway.py:173 | title-casing the pieces changes only the case |
| Gateway.LowerAppend | src/ion/services/service_gateway.py:173 | lower-casing distributes over concatenation |
| Gateway.ServiceGateway.constructor | src/ion/services/service_gateway.py:72-91 | the screening configuration is kept and the role cache starts empty |
| Gateway.ServiceGateway.BuildMessageHeaders | src/ion/services/service_gateway.py:548-581 | the headers, the new cache and whether the roles were looked up are those of `HeadersFor` |
| Gateway.ServiceGateway.UserRoleEventCallback | src/ion/services/service_gateway.py:122-133 | only the actor's cache entry is evicted; every other entry stays |
| Gateway.ServiceGateway.UserRoleResetCallback | src/ion/services/service_gateway.py:134-135 | the cache ends empty |
| Gateway.ServiceGateway.GetRequestArguments | src/ion/services/service_gateway.py:455-460 | the two dicts the GET branch builds from the query |
| Gateway.ServiceGateway.CreateParameterList | src/ion/services/service_gateway.py:485-519 | the parameter list as `ParameterList` states it |
| Text.Split | src/pyon/core/interfaces/interfaces.py:144 | `split(sep)` never returns an empty list |
| Text.SplitPieces | src/pyon/core/interfaces/interfaces.py:144 | no piece of a split holds the separator |
| Text.JoinSplit | src/pyon/core/interfaces/interfaces.py:144 | joining the pieces with the separator gives back the text |
| Text.SplitWithout | src/ion/services/service_gateway.py:372 | text without the separator splits into itself |
| Text.SplitAround | src/ion/services/service_gateway.py:372 | a separator-free prefix is the first piece |
| Text.SplitJoin | src/pyon/core/interfaces/interfaces.py:144 | splitting a join of separator-free pieces gives back the pieces |
| Text.BeforeIsPrefix | src/pyon/core/interfaces/interfaces.py:151 | `split(':')[0]` is the prefix before the first `:` |
| Text.Word | src/pyon/core/interfaces/interfaces.py:179 | a token is never longer than the text, and is non-empty when the text starts with a non-space |
| Text.WordSpec | src/pyon/core/interfaces/interfaces.py:179 | a token is the run of non-space characters at the start of the text |
| Text.TokensSpec | src/pyon/core/interfaces/interfaces.py:179 | `split()` yields non-empty, space-free tokens |
| Text.TitleCase | src/ion/services/service_gateway.py:173 | `title()` changes only the case of letters |
| Text.StripNoSpace | src/ion/services/service_gateway.py:413 | text without whitespace is its own `strip()` |
| Text.BasenameSuffix | src/pyon/core/interfaces/interfaces.py:199 | the basename is the part of the path after its last `/` |
| Text.DigitChar | src/ion/services/service_gateway.py:365 | the digit character of a value below ten |
| Text.NatToDecimal | src/ion/services/service_gateway.py:365 | `str(n)` is a non-empty run of digits |
| Text.DigitsOfDecimal | src/ion/services/service_gateway.py:365 | the digits of `str(n)` are worth `n` |
| Text.ParseDecimal | src/ion/services/service_gateway.py:413 | `int(str(n)) == n` for every integer |
| Text.ParseSigned | src/ion/services/service_gateway.py:413 | a sign, any whitespace, then digits reads as the digits' value with that sign |
| Text.StripLeftSpaces | src/ion/services/service_gateway.py:413 | leading whitespace is dropped up to the first other character |
| Text.ParseNatural | src/ion/services/service_gateway.py:413 | the same, for natural numbers |
| Text.ParseNegative | src/ion/services/service_gateway.py:413 | the same, for negative numbers |

## Left out

- Greenlets and gevent are not modelled: spawning, `kill` and interrupt delivery, `wait_children`, `Event`/`waitall` timeouts, `_child_failed`, `get_ready_event`. An interrupt is recorded as the call running when it was requested. Running an operation is the `Outcome` parameter of `FinishCall`.
- `traceback.extract_stack` is not modelled: stack snapshots are opaque values compared for equality.
- `get_ion_ts`, `current_time_millis` and the `CFG` thresholds are not modelled: they are parameters.
- The heartbeat loop of `target` and its logging are not modelled. The `IonProcessThreadManager` and process base classes are not modelled either: they hold no logic of the core.
- File reading, `os.path.exists` and `list_files_recursive` are not modelled: file contents and listings are inputs, and the file system is a map.
- The datastore, `DirectoryStandalone` and `ResourceRegistryStandalone` are fields (`directory`, `registry`). `register_mult` and `create_mult` are modelled as map union and sequence append.
- `system_data_exists`, `create_core_datastores`, `store_config` and RabbitMQ declarations are not modelled: they are datastore and broker I/O.
- `store_config_files` is not on the dispatch of `store_interfaces`, because its call there is commented out. The model keeps `LoadConfigFiles` for the buffer logic.
- Interfaces.InterfaceAdmin.LoadObjectFiles: returns the object types it made, while the source discards them. The source's append to `bulk_resources` is commented out, so the buffer is unchanged in both.
- Interfaces.InterfaceAdmin.LoadServiceFiles: the source iterates a Python 2 `dict` in an order it does not specify. The model takes the order of first occurrence, so the multiset of definitions is the source's but their order is a choice.
- Interfaces.InterfaceAdmin.StoreInterfaces: the idempotence check runs before the loading step, as in the source's else branch. The single-file branches do not consult it.
- Flask's `request`, `abort` and routes, JSON encoding, `_extract_payload_data` and the error responses are not modelled. The request's session, headers, query, JSON parameters and payload are inputs; the payload says whether it was an ION object dict.
- The RPC clients are not modelled. What `check_authentication_token`, `read_actor_identity`, `find_all_roles_by_user` with `get_role_message_headers`, and the service registry return are inputs.
- The `len(res) == 2` check on the `find_resources` result is not modelled: it is about the answer of an RPC call.
- The POST/PUT branches of `_get_request_args` parse JSON or form bodies, so they are not modelled.
- `create_ion_object`, `set_object_field`, `_get_typed_arg_value` and `inspect.getargspec` are dynamic reflection and type coercion, so they are not modelled. The declared parameter names are an input, and a request value is kept as its raw text (`Typed`).
- `float(timeout)` is not modelled: it is floating point, and the timeout stays its raw text (`Seconds`).
- Gateway.ParameterList: the source looks up each filled parameter's declared default (`svc_op_param_defaults[fill_pos-1]`, `method_args[3][param_idx-1]`). That raises TypeError for an operation without defaults; with fewer defaults than parameters it picks a misaligned default or raises IndexError. The model reads no defaults and returns a parameter list in every case.
- Gateway.ServiceGateway.BuildMessageHeaders: the role cache is a map without the LRU capacity of 2000 or eviction by age. pyon/util/lru_cache.py is not part of this model.
- Gateway.DefaultActorId: the anonymous actor id is defined in pyon/core/governance, which is not part of this model. The model takes `"anonymous"`, and no proof depends on the value.
- Gateway.GovernanceInfo: the expiry in a resolved token is taken to be text. An integer expiry would behave the same under `int()`.
- Gateway.GovernanceInfo: the session's `valid_until` is an integer. `int()` on it in the source raises for a non-numeric value and truncates a float; neither case is modelled.
- Gateway.ValidateRequest: `known` stands for `read_actor_identity` succeeding. Its failures other than NotFound propagate in the source and are not modelled.
- `pyon/public.py` only re-exports names, so it is not modelled.
