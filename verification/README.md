# tunnl in Dafny

A model of tunnl, the self-hosted HTTP tunnel, with proofs of what it promises its users: names stay with the token
that got them, a reconnect replaces the old connection, a revoked token loses its tunnels, requests are accounted for
and joined correctly, and saved state, metrics, headers, DNS records and admin sessions mean what they say.

Code that changes state in place is modelled by classes and methods with loops (`Store`, `Registry`, `Server`,
`Headers`, `Metrics`, `Cloudflare`, `AdminSessions`, ...). Code whose point is that several goroutines or processes
interleave is modelled by a step system whose steps are the program's atomic actions: one database transaction, one
critical section, one close of a connection, one system call. The step systems are in `Lifecycle` (handleTunnel,
registry, tables, RevokeToken, restarts), `Proxy` (one request's handler, writer and watcher, and the counters over
many requests) and `ClientState` (savers of the client's state files). `Lifecycle` uses the same table and registry
functions that the `Store` and `Registry` methods are proved against. Statements are about every run of a step system.

## Where to read first

- `Tunnels.RegistryIsSound`, `Tunnels.EntryChanges`, `Tunnels.SupersededForever`, `Tunnels.OwnedNameIsGranted`
- `Revocation.RevocationDisconnects`, `Revocation.RevocationExactly`, and the limits `Revocation.RevocationCanMiss` and
  `Revocation.RevocationCanLeaveReplaced`
- `Stability.ReconnectKeepsName`, `Stability.URLStaysWithToken`: the promises across client, server and store
- `ClientState.LoadsOnlySaved`, `ClientState.LoadIsLatest`
- `Proxy.JoinIsExact`, `Proxy.NeverStuck`, `Proxy.FinishNeedsNoOne`, `Proxy.RequestsAreConserved`
- `Routing.URLRoundTrip`, `Forwarding.ClaimsHaveNoEffect`, `Metrics.RatesTelescope`, `Cloudflare.Converges`

## Where the code and its documentation differ

- The project's own README says that revoking a token immediately closes its active tunnels. Two kinds of session
  escape. A handshake that is past authentication at the DELETE and registers after the registry snapshot is not closed
  at all (`Revocation.RevocationCanMiss`). A session that has been replaced, and that its replacement has not closed
  yet, is open for a moment after RevokeToken has returned (`Revocation.RevocationCanLeaveReplaced`).
  `Revocation.RevocationDisconnects` shows that there is no third kind, and `Revocation.RevocationExactly` is the exact
  condition under which a token that is not accepted can still have a tunnel.
- `proxy` compares the lower-cased host with the base domain as configured, and looks for a port first.
  `Routing.RoundTrips` is exactly the condition on the configuration under which issued URLs are routed back.
- The health path of every tunnel is left alone, except for the name 127 under the base domain 0.0.1.

## Assumptions

- Lower-casing of letters outside ASCII is any idempotent function that agrees with ASCII lower-casing (`Text.Casing`).
- Token hashes are compared, never tokens. Only the clauses of `AdminSessions` that speak of equal tokens and CSRF
  values, rather than equal digests, need the hash to be collision-free; they say so.
- Connection numbers, revocation calls and saver processes are never numbered twice.
- JSON objects read back as written and no proper prefix of one parses (`ClientState.IsCodec`). The file-name hash is
  any function; `ClientState.LoadIsLatest` asks only that no other saved key shares the file name.
- `ClientState.LoadIsLatest` further takes rename to replace atomically, temporary names not to recur and a completed
  rename to survive a crash of the machine; `ClientState.LoadsOnlySaved` needs none of that.
- Closing a request body either ends a read in progress or waits for it, depending on the protocol of the caller's
  connection. Both kinds of body are modelled (`closeInterrupts`), and `Proxy.FinishNeedsNoOne` says what depends on it.
- Reads and writes on a stream return once it is cancelled or broken, reads from and writes to a caller that has left
  return, and opening a stream ends at its deadline. Nothing else is taken to happen unless the caller or the tunnel acts.
- Forwarding of requests with a peer address that does not parse is covered for completeness
  (`Forwarding.ClaimsHaveNoEffect`). The program's own listeners take the address from the connection, as host and port.
- Random bytes, clocks, fault points and answers of remote services are parameters over which everything is quantified.

## Model

| member | source | states |
|---|---|---|
| Names.NormalizeAccepts | internal/names/names.go:12-29 | a value is accepted exactly if its trimmed, lower-cased form is a label of 3 to 63 letters, digits and inner hyphens outside the reserved set, and that form is returned |
| Names.NormalizeFixesNames | internal/names/names.go:12-29 | the fixed points of normalization are exactly the usable names |
| Names.NormalizeIdempotent | internal/names/names.go:12-29 | normalizing an accepted value again changes nothing |
| Names.NormalizeRefuses | internal/names/names.go:13-22 | for ASCII values the error says which rule failed: length, reserved list, hyphen at an edge |
| Text.TrimSpaceMeaning | internal/names/names.go:13 | trimming removes exactly a prefix and a suffix of white space |
| Text.LowerMeaning | internal/names/names.go:13 | on ASCII, equal in lower case means equal up to letter case |
| Store.CandidateIsName | internal/store/store.go:116-125 | for all random bytes the drawn name is a usable name, so it is a fixed point of normalization |
| Store.DrawsDiffer | internal/store/store.go:116-125 | two draws give one name exactly if they agree on both words and the last two bytes, so every word and every tail is used |
| Store.Store.Reserve | internal/store/store.go:90-114 | a free or own domain becomes the caller's and nothing else changes; a foreign domain is refused, and every error leaves the table as it was |
| Store.Store.Allocate | internal/store/store.go:119-133 | it succeeds exactly if a draw succeeds before any other fault within 32 draws; success is the first draw not owned by another token, owned by the caller afterwards, all other rows unchanged; exhaustion means all 32 were foreign and changes nothing |
| Store.GrantingKeepsOwners | internal/store/store.go:98-114 | a grant succeeds exactly for a free or own domain, keeps every row and adds at most the domain asked for |
| Store.Store.CreateClientToken | internal/store/store.go:147-150 | a row is added exactly if the database answers and neither its id nor its hash is present; hashes stay unique, and an error changes nothing |
| Store.Store.AuthenticateClientToken | internal/store/store.go:152-159 | if the database answers, the hash is accepted exactly if some row has it, and only the time of use of that row changes; an error changes nothing |
| Store.Store.DeleteClientToken | internal/store/store.go:185-192 | reports whether the row existed and exactly that row is gone, or reports an error and changes nothing |
| Store.DeleteRemovesHash | internal/store/store.go:66-73 | because hashes are unique, deleting a row leaves no row with its hash |
| Registry.Registry.Register | internal/server/registry.go:35-43 | the new session is the entry of its domain, the replaced one is closed with code 2, every other connection and entry is unchanged |
| Registry.Registry.Unregister | internal/server/registry.go:45-51 | the entry goes only if it is this very session |
| Registry.Registry.DisconnectToken | internal/server/registry.go:80-93 | exactly the entries of the token are closed, with code 4 if still open, the count is their number, and no entry is removed |
| Server.Server.Authenticate | internal/server/server.go:319-335 | accepts exactly the tokens whose hash is configured or, if the table could be asked, stored |
| Server.Server.ChooseName | internal/server/server.go:276-291 | a name is given exactly if a draw succeeds, or the requested name is acceptable, free or the token's own, and its transaction meets no fault; it is owned by the token afterwards, and an error leaves all reservations alone |
| Server.Server.AcceptHello | internal/server/server.go:245-302 | a handshake is accepted exactly for the right version and mode, an accepted token and a name that can be had; a refused one, a missing hello included, closes its connection with code 1 and touches neither registry nor reservations; an accepted one is the entry of a name its token owns, with that name's public host, and of the other connections only the replaced one is closed |
| Server.Server.Dispatch | internal/server/server.go:361-376 | a request to the host of a live tunnel's issued URL, in any letter case, reaches exactly that tunnel; whatever is reached is the entry of the name its host spells; a refusal means no live tunnel has the routed name |
| Server.Server.RevokeToken | internal/server/admin.go:122-140 | undisturbed, success removes the row and leaves no open entry with its hash; failure changes nothing, and which failure is reported is determined |
| Lifecycle.OwnersKept | internal/store/store.go:90-114 | no step of the whole server, restart included, removes a reservation or changes its owner |
| Lifecycle.InvStep | internal/server/server.go:245-317 | every step of every goroutine keeps the invariant on entries, names, superseded sessions and token rows |
| Tunnels.OpenIsServed | internal/server/server.go:246-291 | no goroutine ends, by refusal or after a session, without its connection closed |
| Tunnels.ClosedOnlyBy | internal/server/registry.go:35-93 | an open connection is closed only by its own goroutine's end, the transport, the session that replaced it, a revocation of its own token, or a restart |
| Tunnels.NewReservation | internal/store/store.go:98-133 | a reservation is made only by a handshake that holds the drawn or normalized name afterwards, under its own token, and it is the only new one |
| Tunnels.RowsChange | internal/server/admin.go:122-140 | a token row appears only when created and goes only by the DELETE of a revocation of its id; no row changes its hash |
| Tunnels.GoroutinesEnd | internal/store/store.go:120 | with at most 32 draws, no connection's goroutine takes more than 41 steps |
| Tunnels.RegistryIsSound | internal/server/registry.go:35-51 | in every reachable state an entry is a registered session of its own domain whose token durably owns the domain, and an open registered session that is not the entry has exactly one session about to close it |
| Tunnels.OneOpenTunnel | internal/server/registry.go:35-43 | with no swap half done, an open registered session is the entry of its domain, so there is at most one per domain |
| Tunnels.EntryChanges | internal/server/registry.go:35-51 | an entry disappears only by its own session's exit, by a newer session of the same token in the same step, or by a restart |
| Tunnels.SupersededForever | internal/server/registry.go:45-51 | a session that has lost its entry never becomes the entry again |
| Tunnels.OwnershipIsPermanent | internal/store/store.go:90-114 | over any run, reservations only grow |
| Tunnels.OneTokenPerDomain | internal/server/server.go:276-295 | all sessions that ever have a domain, at any two moments, carry the same token hash |
| Tunnels.OwnedNameIsGranted | internal/server/server.go:276-302 | a token that owns a name and asks for it is never given another and never refused it as taken or invalid, whatever happens in between; the connection is over only by an error return before its reservation, the end of its own session, or a restart |
| Tunnels.OwnedNameReserves | internal/server/server.go:279-285 | until then its reservation is possible at every moment and gives exactly that name |
| Revocation.AcceptanceStaysOff | internal/server/server.go:319-335 | a hash that is not accepted stays so until it is inserted or configured again |
| Revocation.DeleteEndsAcceptance | internal/server/admin.go:126-136 | a successful DELETE ends the acceptance of the hash found by the lookup, if it is not configured and the id was not reused in between |
| Revocation.OneRevocationSucceeds | internal/server/admin.go:130-136 | of concurrent revocations of one id at most one deletes it, unless the id is inserted again in between |
| Revocation.EntriesAfterSnapshot | internal/server/registry.go:80-93 | after the snapshot an open entry with the hash is still to be closed by the call or was in a handshake past authentication at the snapshot |
| Revocation.RevocationDisconnects | internal/server/admin.go:122-140 | from the return on, an open registered session with the hash was past authentication before the DELETE and not registered at the snapshot, or is about to be closed by its replacement |
| Revocation.RevocationIsFinal | internal/server/admin.go:122-140 | with no handshake in that gap, until the hash is granted again no entry with the hash is open, and any other registered session with it that is open is about to be closed by its replacement |
| Revocation.RevocationExactly | internal/server/server.go:265-293 | from a state that does not accept the hash, some continuation without a new grant has an open entry with it if and only if there is one or an open handshake past authentication holds a name or can still reserve one; for open registered sessions, if and only if that or a replaced session is not closed yet |
| Revocation.RevocationCanMiss | internal/server/server.go:265-293 | a run in which RevokeToken has returned and a tunnel of the revoked token is open |
| Revocation.RevocationCanLeaveReplaced | internal/server/registry.go:35-43 | a run in which, with no handshake in the gap at any time, RevokeToken has returned and a replaced session of the token is still open |
| Revocation.RevokeRuns | internal/server/admin.go:122-140 | from any state with the row, an undisturbed call can run to its return; it deletes the row and closes exactly the entries of its hash |
| Routing.SplitUnbracketed | internal/server/server.go:433-439 | a host is split at its colon exactly if it has one colon and no brackets |
| Routing.RouteMeaning | internal/server/server.go:361-373 | a host is routed to a name exactly if its parsed form is the name, a dot and the base domain, and the name has no dot |
| Routing.SplitExactly | internal/server/server.go:435 | which addresses split into host and port, brackets included, and into which |
| Routing.RouteExactly | internal/server/server.go:361-376 | for a plain base domain the hosts that reach a name are exactly the ways to write it: plain, with a trailing dot, with a port, with or without brackets |
| Routing.URLRoundTrip | internal/server/server.go:296-299 | the host of an issued URL, in any letter case, is routed to its name if and only if the base domain is lower-case and, without a port, neither ends in a dot nor looks like host:port, and with one has no colons or brackets |
| Routing.RouteSound | internal/server/server.go:361-376 | whatever is routed to a name is that name plus the base domain up to case, a trailing dot, a port and brackets |
| Routing.DistinctHosts | internal/server/server.go:296-299 | distinct names have distinct public hosts in any letter case |
| Routing.HealthLeavesTunnelsAlone | internal/server/server.go:344-349 | the health handler answers on a name's public host only for 127 under 0.0.1 |
| Routing.HealthExactly | internal/server/server.go:344-349 | the health handler answers exactly on the ways to write localhost, 127.0.0.1, the status host and ::1 |
| Routing.DecimalReads | internal/server/server.go:297-299 | the port in an issued URL reads back as the configured one |
| Routing.IssuedIsNotReserved | internal/names/names.go:8-10 | no issued host is that of a reserved name, so none is the relay host |
| Headers.CanonicalIdempotent | internal/server/server.go:488 | canonical keys are fixed points, whatever the name |
| Headers.CanonicalMeaning | internal/server/server.go:488 | two header names have one key exactly if they agree up to letter case |
| Headers.SplitJoins | internal/server/server.go:486 | splitting at commas is undone by joining, and no part has a comma |
| Headers.ConnectionKeysMeaning | internal/server/server.go:485-491 | the keys deleted are those named in some Connection value |
| Headers.EndToEndMeaning | internal/server/server.go:484-495 | a header is kept, with its values, exactly if no original Connection value names it and it is not on the fixed list |
| Headers.EndToEndExactly | internal/server/server.go:484-495 | a header goes exactly if some original Connection value lists its name in any letter case, or it is one of the nine hop-by-hop headers |
| Headers.EndToEndIdempotent | internal/server/server.go:484-495 | filtering twice is filtering once |
| Headers.Header.RemoveHopByHop | internal/server/server.go:484-495 | deleting in place while walking the Connection values equals the filter, even when Connection names itself |
| Headers.CopyHeaders | internal/server/server.go:462-470 | the destination is what some order of the filtered keys yields; for canonical keys every key has its old values followed by the filtered new ones |
| Headers.CopyIgnoresOrder | internal/server/server.go:465-469 | for canonical keys every order of the map walk gives the same result |
| Forwarding.AddForwardingHeaders | internal/server/server.go:441-460 | the four in-place edits leave exactly the specified table, in trusted and untrusted mode |
| Forwarding.PrepareHeaders | internal/server/server.go:395-398 | hop-by-hop removal comes first, forwarding headers after |
| Forwarding.OutgoingExactly | internal/server/server.go:395-398 | the whole outgoing table, whatever the spelling of a name: the server's own three headers, Forwarded and X-Real-IP as they came from a trusted sender and gone otherwise, and every other header as hop-by-hop removal left it |
| Forwarding.PeerExactly | internal/server/server.go:442 | the peer put into X-Forwarded-For is the host part of the remote address |
| Forwarding.ClaimsHaveNoEffect | internal/server/server.go:441-460 | untrusted, requests differing only in claimed forwarding headers give identical outgoing headers if and only if the peer address parses |
| Forwarding.AddedHeadersSurvive | internal/server/server.go:395-398 | no Connection token removes the added headers; untrusted, their values are the server's own |
| Forwarding.ChainGrows | internal/server/server.go:444-448 | trusted, n hops leave the original chain followed by the n peers in order |
| Proxy.SoundStep | internal/server/server.go:382-431 | every step of handler, writer and watcher keeps the completion message neither lost nor doubled |
| Proxy.JoinIsExact | internal/server/server.go:382-431 | in every schedule the message is taken at most once, and once by the end if the writer ran; the stream is closed only after the writer reported; failures are counted once per failed request |
| Proxy.WaitIsJustified | internal/server/server.go:422-431 | at the blocking receive the message is there, or comes without help: the writer is out of its loop or the read or write it is in has been ended |
| Proxy.NeverStuck | internal/server/server.go:382-431 | before the handler is done some step comes without help from caller or tunnel, unless the caller is still there and the handler waits for the tunnel's answer, or for the upload while closing the body; so nothing hangs once the caller has left |
| Proxy.FinishNeedsNoOne | internal/server/server.go:422-431 | from finishRequestWrite on, no schedule waits for caller or tunnel if and only if closing the request body ends a read in progress |
| Proxy.JoinIsPrompt | internal/server/server.go:427-431 | after the cancel at most ten steps of all goroutines and surroundings remain, however large the two bodies are |
| Proxy.SchedulesAreFinite | internal/server/server.go:400-431 | every schedule is bounded by the sizes of the two bodies, also when the response comes before the upload ends |
| Proxy.RequestsAreConserved | internal/server/server.go:354-419 | at every moment total requests are those in flight plus succeeded plus the failure counter, and a finished request is a counted failure exactly if it took one of the six failure exits |
| ClientState.LoadsOnlySaved | internal/client/state.go:42-60 | for any schedule, crash, hash and reuse of temporary names, a load gives a domain saved in full under this key, the legacy entry or nothing |
| ClientState.LoadIsLatest | internal/client/state.go:70-111 | in regular runs without a file-name collision a load gives the domain of the key's latest completed rename, whatever savers of other keys do |
| ClientState.Directory.LoadDomainAt | internal/client/state.go:42-60 | reads the key's own file, then the legacy file, then nothing |
| ClientState.Directory.SaveDomainAt | internal/client/state.go:70-111 | success links exactly the new complete file; failure leaves the links alone except that a non-replacing rename may have removed the old file |
| ClientState.SaveRoundTrip | internal/client/state.go:42-111 | after a save its key reads back the domain and keys with other file names are unaffected |
| Stability.ReconnectKeepsName | internal/client/client.go:91-115 | a client whose name is the latest saved under its key asks for it and, with the same token, can reserve it at every moment and is never given another nor refused it as taken or invalid, after any interleaving and any restart |
| Stability.URLStaysWithToken | internal/server/server.go:296-299 | an issued URL is routed to its name for good, and any tunnel that answers carries the token it was issued to |
| Stability.HelloMeaning | internal/client/client.go:92-95 | a configured domain wins over the saved one, and without state only a configured one is sent |
| Stability.KeysDiffer | internal/client/client.go:91 | state keys tell servers and targets apart unless a server address has a bar in it; the token plays no part |
| Metrics.Metrics.Record | internal/server/metrics.go:53-88 | the shifted buffer holds the newest 360 samples of the unbounded log in order, and the log grows by the sample measured |
| Metrics.Metrics.ShiftDown | internal/server/metrics.go:82-85 | the overlapping copy moves the tail of the buffer to its front unharmed |
| Metrics.RatesTelescope | internal/server/metrics.go:65-69 | rate times elapsed time over any run of consecutive samples sums to the counter's gain across it |
| Metrics.ShownRatesTelescope | internal/server/metrics.go:82-106 | the same for any run of the newest 360 samples, however many were dropped |
| Metrics.Metrics.Snapshots | internal/server/metrics.go:102-106 | what the panel gets is the newest window of the log, and its rates add up to the counters' gains |
| Metrics.NumbersInRange | internal/server/metrics.go:71-77 | CPU shares lie in 0 to 100 and no rate is negative, for any readings |
| Metrics.CPUMeaning | internal/server/metrics.go:71-77 | percent times elapsed CPU time is a hundred times its busy part, cut off below 0 and above 100 |
| Metrics.SampleMeaning | internal/server/metrics.go:63-78 | every sample carries its time and gauges; the first one and one for which the clock stood still show no rates |
| Metrics.MinusMeaning | internal/server/metrics.go:67-69 | counter differences are taken modulo 2^64 |
| Cloudflare.Service.UpsertRecord | internal/dns/cloudflare.go:94-119 | succeeds exactly if both requests are answered and the name has no record or one of its own; the zone changes by at most that one write, which a lost answer may hide |
| Cloudflare.WritableMeaning | internal/dns/cloudflare.go:100-113 | a name can be written exactly if it has no record of the type or a single one with the program's comment |
| Cloudflare.Service.Reconcile | internal/dns/cloudflare.go:53-60 | undisturbed it succeeds exactly if both names are writable, and it changes nothing but their records |
| Cloudflare.Converges | internal/dns/cloudflare.go:53-119 | after any attempts a successful run leaves a proxied wildcard record and an unproxied relay record with the right content and the program's comment, no other record of the type under either name, and every foreign record as it was at the beginning |
| Cloudflare.SettledIsFixed | internal/dns/cloudflare.go:94-119 | on a settled zone repeating the run changes nothing |
| Cloudflare.NoDuplicates | internal/dns/cloudflare.go:100-115 | no sequence of attempts makes a second record of a type and name |
| Cloudflare.OthersUntouched | internal/dns/cloudflare.go:106-113 | foreign records are never changed, removed or added, and no record is ever removed |
| AdminSessions.StandingMeaning | internal/admin/handler.go:150-183 | a login stands exactly if it is the last thing that happened to its id |
| AdminSessions.Handler.Authorize | internal/admin/handler.go:120-139 | a cookie is accepted exactly if its login was at most twelve hours earlier and not logged out since; when expired entries are dropped cannot be observed |
| AdminSessions.Handler.RequireAuth | internal/admin/handler.go:101-118 | a request reaches the backend exactly with the admin token's digest in a bearer header, or with a good cookie and, unless it only reads, that login's CSRF value; for an injective digest the values themselves are equal |
| AdminSessions.Handler.LoginSubmit | internal/admin/handler.go:150-173 | exactly a form with the admin token opens a session, good from now on, unless drawing random values fails; every failure leaves all sessions alone, and for an injective digest only the token itself will do |
| AdminSessions.Handler.Logout | internal/admin/handler.go:175-183 | the cookie is good at no later time |
| AdminSessions.NotGoodStaysNotGood | internal/admin/handler.go:131-138 | a cookie that is not good stays so until a login under its id |
| Heartbeat.ServeControl | internal/server/server.go:306-316 | the session leaves at the first deadline or bad message and never before; the deadline is one timeout after the last message or the registration |
| Heartbeat.PingingSurvives | internal/client/client.go:141-155 | no pinging client is dropped if and only if the timeout exceeds 15 seconds and two delays |
| Reconnect.Run | cmd/tunnl/main.go:88-113 | the pause after k failures since the last welcome is min(2^k, 30) seconds plus jitter; the loop ends at the first attempt that is stopped or rejected or whose pause is stopped, and only a rejection is reported |
| Reconnect.WaitsSum | cmd/tunnl/main.go:100-112 | n pauses without a welcome sum to the closed form of doubling up to the cap |
| Reconnect.FailuresCount | cmd/tunnl/main.go:82-85 | failures are counted from the last attempt that got as far as the welcome |
| Reconnect.BaseValues | cmd/tunnl/main.go:107-112 | the bases are 1, 2, 4, 8 and 16 seconds and then 30 |
| Certificates.Source.OnEvent | internal/tlsutil/tls.go:205-221 | unknown events are dropped; the stored event, time and error follow the others |
| Certificates.ErrorMeaning | internal/tlsutil/tls.go:214-218 | the stored error is that of the latest failure with no later obtained or cached event |
| Certificates.StateOnlyAges | internal/tlsutil/tls.go:186-201 | the renewal window starts within the validity, and without contrary events the state only moves from valid over due to expired |
| Certificates.StateExactly | internal/tlsutil/tls.go:188-201 | a revocation and a running attempt show at once, a failure for a day, and otherwise the clock alone decides |
| Certificates.WindowIsLastThird | internal/tlsutil/tls.go:186 | the renewal window is the last third of the validity |

## Left out

- QUIC, TLS, HTTP wire encoding, SQLite and JSON: a connection is open or closed, a transaction is one step, a codec is a round trip.
- Registry.snapshot and count, the Status and Metrics answers, token listing and creation of secrets: reading and copying only.
- Response bodies, statuses and logging of proxy, and joinURLPath: no state of their own.
- Validation and address parsing before a reconcile, SetDNS and the stored DNS settings: single checks with no deeper property.
- Certificate issuance and loading, runtime readers, command-line parsing and the web panel.
- Lifecycle.InvStep: a database error whose transaction was nevertheless committed is not a step of the model.
- Metrics.RatesTelescope: rates are exact real numbers, so 64-bit floating-point rounding is not covered, and a log's readings are taken as given, since the program loads its counters one after another before the critical section.
- Proxy.SchedulesAreFinite: both bodies have some finite number of pieces, on which the bound of Proxy.JoinIsPrompt does not depend.
- Proxy.RequestsAreConserved: counters are unbounded, so the wrap of the 64-bit counters is not covered.
- Headers.CopyIgnoresOrder: holds for canonical keys, which parsing a response always yields; for other keys `Headers.CopyHeaders` states the result for the order taken.
- Heartbeat.PingingSurvives: processing takes no time and no tick is dropped.
