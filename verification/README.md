# Hatchabot: a verified model of its protocol cores

Hatchabot runs personal agents on one machine and lets people reach them: from
the private network, from a guest's chat, and, if its owner says so, from the
internet. This project models the parts of it whose behaviour only shows over
whole runs, in Dafny, and proves what they are for: that a guest of an agent's
console sees and sends nothing of anyone else's; that a burst of guesses cannot
outrun the sign-in limit; that the public-access switch survives a crash at any
step; that a second factor, once changed, ends what the old one proved; that
each one-time credential is used once however requests interleave; and that the
codecs (WebSocket frames, CBOR, base32, the public pass, git trees) read back
exactly what was written.

Objects the source updates in place are classes here, and each of their methods
is proved against a specification function; the theorems are about runs of that
function, over every order of events. `dafny verify dfyconfig.toml` checks it
all.

| files | what they model |
|---|---|
| `WebSocketFrames`, `MessageAssembly` | the frame reader, encoder and assembler of the guest console proxy |
| `GuestMessages`, `GuestView` | its verdict and scrubbing; and what they come to, field by field |
| `GuestSplice`, `GuestIsolation`, `SpliceEnds` | the two-way splice, isolation over whole runs for any verdict and scrubbing, and how a connection ends |
| `ReplyTracking`, `GuestRuns` | reply tracking; and whole runs with the guests' own verdict, scrubbing and tracking |
| `Throttle`, `ThrottleRuns` | the sign-in throttle: buckets, places held, lockouts, eviction; and its interleavings |
| `PublicSwitch`, `PublicSwitchRuns` | the public-access switch step by step; crashes, recovery and looks in any order |
| `PassCookie`, `PublicPass`, `PublicGate` | the public pass as text, as it is issued and revoked, and the gate over whole runs |
| `Ceremonies`, `CeremonyAnswers`, `FactorRemoval`, `PasskeyCounter` | pending passkey ceremonies, removing and replacing factors, the signature counter |
| `Base32`, `Totp` | authenticator keys and codes |
| `Accounts`, `AccountRequests` | local accounts: bootstrap, claim, recovery, password changes and sessions under concurrency; and each request on its own |
| `Cbor`, `CborItems` | the CBOR reader against the encoding the standard defines |
| `PinnedTree`, `PinnedTreePaths` | the walk of a git commit's tree |
| `GuestConsoleLog`, `GuestConsoleRuns` | the bounded log of guests' console visits |
| `ConfirmLock` | the per-owner lock on confirming change cards |
| `AddressBucket` | the throttle's bucket for an address |
| `Basics`, `Text` | shared vocabulary |

Where the code does less than its comments or tests say, the model follows the
code and the exact condition is proved:

- A chunk with a frame over the cap loses the whole frames before it in that
  chunk: how a stream is cut never shows exactly when no frame of it is over the
  cap, or its first one is (`ChunkingShowsOnError`).
- A tracked reply is sure to be rewritten if and only if no untracked request is
  waiting under its id (`FoundIffNoClash`): the guard looks only at tracked ids.
- A miss counted without a place held takes a bucket over its limit exactly when
  it finds the bucket full (`WithinExactlyWithRoom`), which can happen at every
  limit (`UnreservedMissOverruns`); buckets guessed only through `reserve` stay
  within theirs.
- A bucket's kind is read off its name. A client's bucket counts as an account's
  exactly when the address it was given has "user:" in it, and then it can
  outlast an account's (`OutlastsExactlyWhenReadAsAccount`); with "pub:all" at
  its end it has the ceiling's limit (`CallerIsReadByAddress`). Addresses at the
  public listener never do (`VisitorsArePlain`); the private one takes a
  forwarded address from a local peer as it is written.
- The doubled lock is remembered no longer than it lasts, so after a full day's
  lock the count starts over (`FullDayStartsOver`).
- An "off" killed between Funnel and .env leaves the setting on with no entry
  behind it (`OffCanBeTorn`); but for the race below, it is the only crash that
  ends neither on nor off. An "off" pressed later mends it (`OffMendsAnyRun`).
- Recovery's second branch takes no flag: pressing "on" while a look is past its
  guard can end with the setting on and its entry removed; otherwise never
  (`OnIsSafeIffNobodyLooks`).
- A git tree that leads to two files under one path is not refused: one is left
  out. Without slashes in names that happens exactly when two files of one name
  differ, in one tree or in subtrees of one name (`ResultIsTheTreeExactly`); with
  them also otherwise (`AgreeingIsNotEnough`).

## Model

| member | source | states |
|---|---|---|
| `WebSocketFrames.FrameReader.Push` | src/api/consoleProxy.ts:383-425 | a chunk leaves exactly the bytes after the last whole frame, and yields exactly the whole frames of what was held plus the chunk, or "frame too large" |
| `WebSocketFrames.FrameReader.Next` | src/api/consoleProxy.ts:389-421 | one turn of the loop: not enough bytes, too large, or one frame with its length read at any of the three forms and its payload unmasked |
| `WebSocketFrames.MaskInto` | src/api/consoleProxy.ts:412-416 | the masking loop puts payload XOR key in place and touches nothing else in the buffer |
| `WebSocketFrames.MaskedTwice` | src/api/consoleProxy.ts:412-416 | masking twice with one key gives the payload back (section 5.3 of RFC 6455) |
| `WebSocketFrames.XorIsBitwise` | src/api/consoleProxy.ts:412-416 | of two bytes, each bit of the result is set exactly where one of theirs is and the other's is not |
| `WebSocketFrames.FrameAsWritten` | src/api/consoleProxy.ts:386-425 | a frame read says what its bytes say: FIN, reserved bits and opcode are the first byte's, the payload is the declared number of bytes, and each of its bits, if masked, is the wire's changed by the bit of the key byte it stands under (sections 5.2 and 5.3 of RFC 6455) |
| `WebSocketFrames.VerdictExactly` | src/api/consoleProxy.ts:386-411 | exactly when a buffer begins with a frame over the cap, with a whole frame, or with neither, from the number its length bytes spell |
| `WebSocketFrames.ScanSelfContained` | src/api/consoleProxy.ts:389-421 | a frame read off the front is read the same off its own bytes alone, and its raw bytes are the front of the buffer |
| `WebSocketFrames.ScanStable` | src/api/consoleProxy.ts:389-421 | what was read does not change when more bytes arrive |
| `WebSocketFrames.ReadConserves` | src/api/consoleProxy.ts:386-425 | the raw bytes of the frames read, and what is left, are the input, in order |
| `WebSocketFrames.ReadAppend` | src/api/consoleProxy.ts:386-425 | reading a stream in two parts is reading it in one |
| `WebSocketFrames.ChunkingIsInvisible` | src/api/consoleProxy.ts:386-425 | on every stream that raises no error, any two ways of cutting it into chunks give the same frames and leave the same bytes |
| `WebSocketFrames.ChunkingShowsOnError` | src/api/consoleProxy.ts:386-425 | for every stream and cap: however it is cut the frames delivered are the same if and only if no frame is over the cap, or the very first one is |
| `WebSocketFrames.AnyPrefixMayBeAll` | src/api/consoleProxy.ts:386-425 | of any stream with a frame over the cap, some cut delivers any number of the frames before it and no more: those parsed in the failing chunk are lost with it |
| `WebSocketFrames.EncodeFrame` | src/api/consoleProxy.ts:428-445 | the buffer filled is head, length at its shortest form, key and masked payload, or the payload as it is |
| `WebSocketFrames.WrittenShortest` | src/api/consoleProxy.ts:428-445 | what is written has FIN, the opcode, the mask bit and the length in the shortest of the three forms, and the key before the payload |
| `WebSocketFrames.EncodeThenScan` | src/api/consoleProxy.ts:428-445 | reading an encoded frame, whatever follows it, gives back opcode, mask bit, payload and exactly its bytes, at all three length forms, masked or not |
| `WebSocketFrames.StreamRoundTrip` | src/api/consoleProxy.ts:383-445 | any number of encoded frames in a row read back as those frames, one for one, with nothing left |
| `MessageAssembly.MessageAssembler.Take` | src/api/consoleProxy.ts:456-474 | one frame: control passed through, fragments gathered, a message given out on FIN, and each protocol error |
| `MessageAssembly.AssembleConserves` | src/api/consoleProxy.ts:456-474 | over any stream every item is well formed; the messages' frames and those still open are the data frames in order, and control frames come out as they came, between fragments too |
| `MessageAssembly.MessageComesOut` | src/api/consoleProxy.ts:456-474 | every message that fits the cap comes out whole, with its opcode and joined payload, and leaves nothing open |
| `MessageAssembly.ControlPassesThrough` | src/api/consoleProxy.ts:461-462 | a control frame comes out at once and leaves the message around it open as it was |
| `MessageAssembly.RefusedExactly` | src/api/consoleProxy.ts:460-468 | exactly which frames end the connection, each with its reason |
| `MessageAssembly.AssembleAppend` | src/api/consoleProxy.ts:456-474 | assembling in two parts is assembling in one |
| `GuestMessages.DeliveredIsClean` | src/api/consoleProxy.ts:295-376 | whatever the gateway says, what the guest is handed shows nobody else in a presence or health event, in the hello, or in the reply to a tracked request |
| `GuestMessages.HelloIsClean` | src/api/consoleProxy.ts:339-355 | the rewritten hello has clean presence and health, and names only methods a guest may use |
| `GuestMessages.PresenceKeepsOwn` | src/api/consoleProxy.ts:295-303 | nothing more is taken out than other people: own entries stay as often as they were, and a clean list is left alone |
| `GuestMessages.ScrubHealthCleans` | src/api/consoleProxy.ts:306-313 | no recent session and no count is left in health, for the whole or for any agent |
| `GuestMessages.HealthKeepsTheRest` | src/api/consoleProxy.ts:306-313 | every field but the session summaries stays, for the whole and for each agent |
| `GuestMessages.ScrubHealthTwice` | src/api/consoleProxy.ts:306-313 | a second scrub, of whatever health there is, finds nothing to do |
| `GuestMessages.GuestAgentsListCleans` | src/api/consoleProxy.ts:177-190 | the list names no agent but the guest's own when it is there, and no permission mode on any |
| `GuestView.AskedExactly` | src/api/consoleProxy.ts:268-283 | exactly which requests a guest may make, read off the fields: a method on the list, and to connect as an operator or as nothing in particular |
| `GuestView.IdIsRemembered` | src/api/consoleProxy.ts:271 | a request is remembered under the text its reply's id will read as; only strings and numbers are ids |
| `GuestView.SentOnExactly` | src/api/consoleProxy.ts:521-536 | exactly which admitted requests are sent on, and which of them are tracked |
| `GuestView.AnsweredUnderItsId` | src/api/consoleProxy.ts:285-290 | a request not sent on is answered under its own id, not ok, as forbidden or as unavailable |
| `GuestView.WrittenAsText` | src/api/consoleProxy.ts:523-556 | what the proxy writes itself is one whole text frame, not masked, of the message |
| `GuestView.PresenceExactly` | src/api/consoleProxy.ts:292-375 | in an event, as a list or a field, and in the hello: an entry is handed over exactly as often as it was listed if it is the gateway's own or its email is the guest's address whatever its case, and never otherwise |
| `GuestView.HelloKeepsTheRest` | src/api/consoleProxy.ts:339-355 | of a hello only snapshot and features change |
| `GuestView.FeaturesExactly` | src/api/consoleProxy.ts:349-354 | advertised are exactly the methods on the list, as often as they were named |
| `GuestView.ConversationIs` | src/api/consoleProxy.ts:163-166 | the main key is exactly what follows the agent's prefix in the session key, if anything does |
| `GuestView.DefaultsAreOwn` | src/api/consoleProxy.ts:193-204 | the session defaults name the guest's agent and, where one is named, their conversation; nothing else changes |
| `GuestView.AgentsExactly` | src/api/consoleProxy.ts:177-190 | an agent is told exactly if it was listed and, when the guest's own was, is that one; without the permission mode |
| `GuestView.OthersPass` | src/api/consoleProxy.ts:335-375 | messages that show no people and answer nothing tracked pass as they came |
| `GuestSplice.Splice.OnClientData` | src/api/consoleProxy.ts:508-542 | a chunk from the browser: the new readers, tracked requests and everything written are those of the specification, error or not |
| `GuestSplice.Splice.TakeClientFrame` | src/api/consoleProxy.ts:511-519 | one frame of the browser's: control sent on, a message judged, or an error |
| `GuestSplice.Splice.TakeRequest` | src/api/consoleProxy.ts:520-537 | a judged request: refused with one answer, not followable and answered so, or its own frames sent on and, if rewritten, tracked |
| `GuestSplice.Splice.OnGatewayData` | src/api/consoleProxy.ts:544-563 | a chunk from the gateway, likewise |
| `GuestSplice.Splice.TakeReply` | src/api/consoleProxy.ts:552-558 | a gateway message rewritten, or its frames passed as they came |
| `GuestSplice.Splice.EndIt` | src/api/consoleProxy.ts:500-506 | both close frames once, and nothing once closed |
| `GuestSplice.Splice.Kill` | src/api/consoleProxy.ts:565-570 | a socket gone: closed, nothing written |
| `GuestIsolation.GuestsAreIsolated` | src/api/consoleProxy.ts:492-570 | guest isolation: for every chunking and interleaving the gateway has received exactly the raw frames of the messages admitted, each whole and in order, and the control frames, and after its close frame nothing; each message not admitted was answered exactly once; every message was judged on its own text and the requests then waiting |
| `GuestIsolation.RunIsolated` | src/api/consoleProxy.ts:492-570 | the invariant behind it, kept by every chunk from either side |
| `GuestIsolation.ClosedIsSilent` | src/api/consoleProxy.ts:500-509 | once closed, nothing is written either way, whatever still arrives |
| `SpliceEnds.BrowserEndsItExactly` | src/api/consoleProxy.ts:508-542 | exactly which chunks from the browser end the connection: a frame over the cap, one that is not masked, a protocol error, or a message that is no JSON text; both sides are then sent a close frame with 1008 |
| `SpliceEnds.GatewayEndsItExactly` | src/api/consoleProxy.ts:544-563 | the same of the gateway: a frame over the cap, a masked one, or a protocol error; with 1011 |
| `SpliceEnds.CloseFrameSays` | src/api/consoleProxy.ts:447-453 | a close frame reads back as one, with that code and the first hundred characters of the reason |
| `ReplyTracking.OrderlyIsExact` | src/api/consoleProxy.ts:335-376 | in every run without a clash of ids the tracked requests are exactly those sent on and not yet answered |
| `ReplyTracking.RepliesAreRewrittenOnce` | src/api/consoleProxy.ts:356-365 | there each successful object reply to a tracked request is rewritten as its method says and untracked, and no other is |
| `GuestRuns.GuestsAskAndSeeTheirOwn` | src/api/consoleProxy.ts:492-570 | every run of a guest's session: what the gateway has received is the messages admitted and control frames, and each of those messages asks for a method guests may use (connecting as an operator only); in no object the guest is handed is anyone else shown where the source scrubs |
| `GuestRuns.TableIsTheSplices` | src/api/consoleProxy.ts:498-563 | the tracked requests of every such run are those of the table ReplyTracking reasons about, whomever its replies answered |
| `GuestRuns.ReplyIsRewritten` | src/api/consoleProxy.ts:544-563 | after every such run without a clash of ids, the successful object reply to a tracked request is written to the guest rewritten, and that id alone untracked |
| `GuestRuns.PendingIsBounded` | src/api/consoleProxy.ts:526-536 | in every such run at most MAX_GUEST_PENDING are tracked, and only methods whose replies are rewritten |
| `ReplyTracking.FoundIffNoClash` | src/api/consoleProxy.ts:526-536 | exactly when the reply to a request being admitted is sure to be rewritten, however many others ask and are answered first: no request that is not tracked is waiting under its id |
| `ReplyTracking.ClashLosesReply` | src/api/consoleProxy.ts:526-536 | with such a request waiting: its reply takes the entry, and the tracked one's reply passes as it came |
| `Throttle.KeysDistinct` | src/api/auth.ts:77-111 | the buckets one request counts in are different ones |
| `Throttle.KeysExactly` | src/api/auth.ts:77-111 | exactly which keys a request counts under, at either listener, with an account or without, in each scope |
| `Throttle.PublicCountsApart` | src/api/auth.ts:77-111 | no visitor of the public listener shares a bucket with a private caller, and no two requests of different scopes share one |
| `Throttle.LoginThrottle.Throttled` | src/api/auth.ts:136-144 | refuses exactly when a live bucket is full, and drops only expired entries |
| `ThrottleRuns.RefusedExactlyWhenFull` | src/api/auth.ts:136-144 | for all counts and buckets: refused if and only if one of the request's buckets has an unexpired entry at its limit |
| `ThrottleRuns.FullIsRefused` | src/api/auth.ts:136-201 | in every run a bucket that is full is refused, a look or a place, until its window or lock ends, whatever else happens but clearing or evicting it |
| `ThrottleRuns.PlacedExactlyWithRoom` | src/api/auth.ts:156-165 | a place is given if and only if in every bucket live misses and places held together are below its limit |
| `Throttle.LoginThrottle.Reserve` | src/api/auth.ts:156-166 | refuses exactly when misses and places held fill a bucket; otherwise holds one place in each |
| `Throttle.LoginThrottle.Release` | src/api/auth.ts:166-175 | gives back one place in each bucket, the first time only |
| `Throttle.LoginThrottle.LockMsFor` | src/api/auth.ts:128-135 | the next strike is recorded, and the lock is one window doubled per strike, a day at most |
| `Throttle.LoginThrottle.NoteFailure` | src/api/auth.ts:176-201 | one miss in each bucket, lockouts of those just filled, and the purge |
| `Throttle.LoginThrottle.NoteMiss` | src/api/auth.ts:177-187 | one bucket's miss: a new window or one more in the old one, and the lock if that filled a public one |
| `ThrottleRuns.MissCountsExactly` | src/api/auth.ts:126-187 | what one miss does in its bucket and in no other: the count and its window, and for a public bucket it fills the strike and the lock, one window doubled per strike and a day at most |
| `Throttle.LoginThrottle.Purge` | src/api/auth.ts:187-200 | what is left is bounded, keeps its values, and was dropped in the stated order |
| `Throttle.PurgeLeaves` | src/api/auth.ts:187-200 | a purge starts above 10,000, takes every expired entry, and goes down to 8,000 when that is not enough |
| `Throttle.LoginThrottle.FirstToGo` | src/api/auth.ts:194-196 | the entry a purge takes next: one whose name has no "user:" in it before any that has, fewest misses first |
| `Throttle.LoginThrottle.ClearFailures` | src/api/auth.ts:203-206 | both buckets of a recovered account go, and nothing else |
| `Throttle.PurgeIsKind` | src/api/auth.ts:184-200 | after a purge at most 10,000 are held; and where no client's address has "user:" in it, an account's unexpired bucket is gone only if every client bucket is, and the ceiling on everyone |
| `Throttle.AccountsAreReadByName` | src/api/auth.ts:77-111 | for the keys as they are built, in each scope: a bucket counts as an account's exactly when it is one, or is a client's whose address has "user:" in it |
| `Throttle.OutlastsExactlyWhenReadAsAccount` | src/api/auth.ts:184-200 | a client's bucket can outlast an account's unexpired one, in some full table, exactly when its address has "user:" in it |
| `Throttle.CallerIsReadByAddress` | src/api/auth.ts:100-124 | a caller's own bucket counts as an account's or as public, and has the ceiling's limit or the shared one, exactly when the address it was given contains or ends in the words looked for |
| `ThrottleRuns.GuessesNeverOutrunTheLimit` | src/api/auth.ts:145-201 | in every interleaving of reserve, check, noteFailure and release, for a bucket guessed only through reserve: live misses and guesses still being checked never exceed its limit together; a guess counted and not yet released is not counted twice |
| `ThrottleRuns.RunBounded` | src/api/auth.ts:145-201 | the invariant behind it, for every run whose unreserved misses find room; and `pending` is exactly the places held |
| `ThrottleRuns.WithinExactlyWithRoom` | src/api/auth.ts:145-201 | for every run and every limit: the bound holds throughout if and only if each miss noted without a place held found the bucket not yet full |
| `ThrottleRuns.UnreservedMissNeedsRoom` | src/api/auth.ts:176-201 | the step behind it: such a miss keeps the bound exactly when there was room for it |
| `ThrottleRuns.ReleasingTwiceIsHarmless` | src/api/auth.ts:166-175 | a second release changes nothing |
| `ThrottleRuns.UnreservedMissOverruns` | src/api/accountsAuth.ts:552-560 | whatever the limit, guesses that fill it and one miss noted without a place take the bucket over it |
| `ThrottleRuns.LockoutsBackOff` | src/api/auth.ts:126-135 | without clearing or eviction, consecutive lockouts of a public address or account are more than min(window x 2^(k-1), one day) apart, k the strike, which goes up by one within a day and starts at one after it |
| `ThrottleRuns.LockoutsSpaced` | src/api/auth.ts:126-135 | the same for every pair, with the strike numbers |
| `ThrottleRuns.FullDayStartsOver` | src/api/auth.ts:126-135 | after a lock of a full day the next lockout is always the first strike again |
| `PublicSwitch.Reach.Undo` | src/api/reachRoutes.ts:184-202 | the undo run to its end, for every answer Tailscale may give, is the step machine run to its end |
| `PublicSwitch.UndoOutcome` | src/api/reachRoutes.ts:184-202 | and that leaves nothing of the switch but an entry Tailscale kept, and the note exactly then |
| `PublicSwitch.Reach.TurnOn` | src/api/reachRoutes.ts:274-317 | the "on" handler past its guards, whichever step fails or throws (then its catch branch), is the step machine run to its end |
| `PublicSwitch.Reach.TurnOnAtListen` | src/api/reachRoutes.ts:281-286 | the same from the listener on |
| `PublicSwitch.Reach.TurnOnAtFunnel` | src/api/reachRoutes.ts:285-291 | the same from Funnel on |
| `PublicSwitch.Reach.TurnOnAtSave` | src/api/reachRoutes.ts:292-297 | the same from the settings on |
| `PublicSwitch.Reach.TurnOnAtSaveUrl` | src/api/reachRoutes.ts:293-297 | the same from the second setting on |
| `PublicSwitch.Reach.TurnOnAtJudge` | src/api/reachRoutes.ts:298-309 | the same from the second judgement on |
| `PublicSwitch.Reach.TurnOff` | src/api/reachRoutes.ts:319-338 | the "off" handler likewise |
| `PublicSwitch.Reach.Recover` | src/api/reachRoutes.ts:217-242 | recovery with nothing in between, either branch |
| `PublicSwitch.FinishLetsGo` | src/api/reachRoutes.ts:258-317 | however its steps turn out, a handler ends and lets go of the flag |
| `PublicSwitchRuns.OnComesTo` | src/api/reachRoutes.ts:258-317 | pressed from fully off and run to its end, "on" leaves setting, address, entry and listener on if and only if every step went well, the second judgement too; if only clearing the note fails all is in place and the note; after any other answer or exception everything is off |
| `PublicSwitchRuns.RunFits` | src/api/reachRoutes.ts:184-338 | the invariant every harmless run keeps, step by step, across crashes and starts |
| `PublicSwitchRuns.StartOutcome` | src/api/reachRoutes.ts:217-242 | what a start makes of the disk it finds: with a note, without, on or off |
| `PublicSwitchRuns.RecoverOutcome` | src/api/reachRoutes.ts:217-242 | the same in a process at rest, whatever it is doing: nothing during a switch, the note's switch taken back, a leftover entry removed while public access is off |
| `PublicSwitchRuns.CrashEndsOnOrOff` | src/api/reachRoutes.ts:184-317 | a crash after any step (of "on", of "off", of recovery itself), then a start that Tailscale lets through, ends fully on or fully off if and only if it did not tear an "off"; and fully on exactly when no note was left and all three of setting, address and entry were there |
| `PublicSwitchRuns.SwitchSurvivesCrashes` | src/api/reachRoutes.ts:184-338 | the same over whole runs from fully off, with any number of crashes, starts, presses and looks, as long as no "off" was torn and no "on" pressed while a look was past its guard |
| `PublicSwitchRuns.AnyRunThenStart` | src/api/reachRoutes.ts:184-338 | after any run at all, those included: a crash and a start end on or off exactly when there was a note, or the two settings went together and stood on an entry |
| `PublicSwitchRuns.OffMendsAnyRun` | src/api/reachRoutes.ts:319-338 | after any run at all the owner's other Funnel entries stand, and one "off" pressed at rest that Tailscale lets through ends fully off |
| `PublicSwitchRuns.OffCanBeTorn` | src/api/reachRoutes.ts:319-338 | every finished switch can be torn: an "off" killed once Funnel's entry is down and before .env is written leaves the setting on with nothing behind it, and recovery leaves it so |
| `PublicSwitchRuns.RecoveryIsIdempotent` | src/api/reachRoutes.ts:217-242 | recovering a second time changes nothing, whatever the first found |
| `PublicSwitchRuns.NoteStaysWhileRefused` | src/api/reachRoutes.ts:198-201 | the note stays exactly while Tailscale refuses; public access is off either way |
| `PublicSwitchRuns.RefusalsAreOutlasted` | src/api/reachRoutes.ts:198-201 | any number of refused starts, then one let through: fully off |
| `PublicSwitchRuns.OnIsSafeIffNobodyLooks` | src/api/reachRoutes.ts:233-241 | pressing "on" can end half on, with no torn crash, exactly when a look (recovery's second branch, which takes no flag) was past its guard at the press |
| `PublicSwitchRuns.RaceLeavesHalfOn` | src/api/reachRoutes.ts:233-241 | the run that does it, from every such state |
| `PassCookie.RoundTrip` | src/api/publicAccess.ts:364-381 | a pass that was set is read back as it was |
| `PassCookie.ReadExactly` | src/api/publicAccess.ts:372-380 | exactly which fields of a signed body are read as which pass |
| `PassCookie.CookiesDiffer` | src/api/publicAccess.ts:364-367 | two different passes never share a cookie |
| `PassCookie.OldPassesReadAsGenerationZero` | src/api/publicAccess.ts:375-377 | a pass from before generations is read with generation 0 |
| `PassCookie.OnlySignedBodiesAreRead` | src/api/publicAccess.ts:368-381 | nothing is accepted but a body with its own signature, and it says what that body's fields say |
| `PublicPass.PublicAccess.PassOf` | src/api/publicAccess.ts:398-413 | accepts exactly the passes of a known session that are not signed out and not idle |
| `PublicPass.PublicAccess.SessionMinted` | src/api/publicAccess.ts:428-448 | the new session's pass, for a plain sign-in, one by proof, and a password change |
| `PublicPass.PublicAccess.SessionCleared` | src/api/publicAccess.ts:449-459 | a sign-out revokes the sign-in's name, in memory and in the database until its time is up |
| `PublicPass.PublicAccess.Restart` | src/api/publicAccess.ts:394-396 | a new process holds exactly the sign-outs the database still keeps |
| `PublicPass.PublicAccess.SecondFactorPassed` | src/api/publicAccess.ts:468-474 | the pass re-issued with the factor's time and generation, if it was valid |
| `PublicPass.PublicAccess.SecondFactorsChanged` | src/api/publicAccess.ts:476-483 | the generation goes up, and only the request's own counting proof is stamped anew |
| `PublicPass.ApplyHonest` | src/api/publicAccess.ts:428-483 | kept by every event: a pass says no later generation, no factor and no enrolment time than the record bears out |
| `PublicGate.SignsInExactly` | src/api/publicAccess.ts:428-448 | which pass a new session gets, and when its factor and enrolment time are taken over |
| `PublicGate.RequestsExactly` | src/api/publicAccess.ts:449-474 | what a request, a second factor given and a sign-out make of a usable pass, and of no other |
| `PublicGate.ChangesExactly` | src/api/publicAccess.ts:476-483 | a change of factors moves that person's generation on, stamps at most the pass it came with, and touches nothing else |
| `PublicGate.StepUpExactly` | src/api/publicAccess.ts:636-693 | exactly which requests a step-up route lets through |
| `PublicGate.AdmittedExactly` | src/api/publicAccess.ts:636-693 | exactly which requests each class of route admits, read off the pass and the record: never, always, with a usable pass, signed in with a factor that counts or none needed or as a guest on a guest's route, and the step-up rule |
| `PublicGate.RefusedBecause` | src/api/publicAccess.ts:643-690 | who is told to sign in, to give the second factor, and to give it again |
| `PublicGate.WithoutFactorToldWhy` | src/api/publicAccess.ts:655-676 | what each person without a factor is told |
| `PublicGate.SignedInIsEarned` | src/api/publicAccess.ts:636-693 | in every run no signed-in route runs for someone who has a factor without one vouched for under their present generation |
| `PublicGate.HandlerAgreesWithGate` | src/api/publicAccess.ts:727-738 | the demand made inside handlers is never weaker than the gate's, and no stronger for someone with a factor |
| `PublicGate.StepUpIsEarned` | src/api/publicAccess.ts:636-693 | in every run, whatever cookies anyone kept: a step-up route runs only for a factor vouched for under the present generation within the step-up time, or on a first-factor route for a pass that stems, through refreshes and carry-overs, from an out-of-band sign-in of that person in the last 30 minutes |
| `PublicGate.OldPassesNeverCountAgain` | src/api/publicAccess.ts:419-483 | once a person's factors are reset or one is removed, no pass issued before and no copy of one counts as verified again, except the changing request's own re-stamped one, in any later run |
| `PublicGate.ChangeClears` | src/api/publicAccess.ts:476-483 | right after the change nothing counts but that pass |
| `PublicGate.NewSessionsInheritOnlyCurrentProof` | src/api/publicAccess.ts:428-448 | a new session counts as verified exactly when it comes of a password change by someone whose proof still counted |
| `PublicGate.CopiesKeepTheName` | src/api/publicAccess.ts:386-396 | every pass issued other than by signing in has the sign-in's name of the pass the request presented |
| `PublicGate.RunRecords` | src/api/publicAccess.ts:386-405 | kept by every run: a sign-out on record is remembered, or every copy of its pass was last seen longer ago than it may be |
| `PublicGate.SignOutIsFinal` | src/api/publicAccess.ts:386-405 | signed out once, every copy of that sign-in's pass is refused for good, over restarts and after the record has lapsed |
| `Ceremonies.Pending.NewCeremony` | src/api/secondFactor.ts:72-87 | expired ceremonies go, the oldest make way, the new one is last; the sweep above 2000 keys |
| `Ceremonies.Pending.MakeRoom` | src/api/secondFactor.ts:77 | the loop keeps the newest four |
| `Ceremonies.Pending.Sweep` | src/api/secondFactor.ts:80-85 | every key keeps exactly its unexpired ceremonies, and none is kept empty |
| `Ceremonies.Pending.Take` | src/api/secondFactor.ts:98-107 | the answer's challenge is taken out whatever follows, and accepted only in time under the same generation |
| `Ceremonies.Pending.ForgetCeremonies` | src/api/secondFactor.ts:93-95 | both kinds of a person's ceremonies go, and nobody else's |
| `Ceremonies.TakenOnceInTimeUnderOneGeneration` | src/api/secondFactor.ts:71-107 | in every run an accepted answer names a challenge issued to this person for this kind, at most five minutes ago, under the generation their factors still have, never taken before; at most five are pending |
| `CeremonyAnswers.GoodExactly` | src/api/secondFactor.ts:98-107 | exactly which challenges would be accepted now |
| `CeremonyAnswers.EventsExactly` | src/api/secondFactor.ts:71-107 | exactly what each thing that may happen makes of every challenge: time, a new ceremony, an answer, a change of factors, forgetting |
| `CeremonyAnswers.SweepsExactly` | src/api/secondFactor.ts:80-85 | above two thousand keys nothing expired is kept; up to there other keys are left alone |
| `CeremonyAnswers.TakesOutExactly` | src/api/secondFactor.ts:98-105 | an answer leaves its key exactly while another challenge is pending under it |
| `Ceremonies.NeverTakenTwice` | src/api/secondFactor.ts:98-107 | once taken it is never accepted again, whoever sends it |
| `Ceremonies.SecondTabIsHarmless` | src/api/secondFactor.ts:63-87 | a tab's challenge survives up to four more ceremonies of its kind and any of other people's, unless answered, expired or voided |
| `FactorRemoval.Factors.CountUsableAfter` | src/api/secondFactor.ts:393-397 | what would be left that is asked for |
| `FactorRemoval.Factors.FinishRemoval` | src/api/secondFactor.ts:403-414 | a removal after its password check: both questions asked again, then exactly that row goes, or the refusal |
| `FactorRemoval.Factors.FinishConfirm` | src/api/secondFactor.ts:298-329 | an authenticator confirmed takes the place of the one there was, and its person then has a usable factor |
| `FactorRemoval.LastFactorKept` | src/api/secondFactor.ts:389-421 | in every interleaving of removals and authenticator replacements across password checks, someone public access stands on who has a usable factor still has one |
| `FactorRemoval.RemovalIsExact` | src/api/secondFactor.ts:403-414 | what a removal takes, and that it does nothing exactly when the row is gone or the last |
| `FactorRemoval.WaitsExactly` | src/api/secondFactor.ts:389-401 | a removal goes on to the password check exactly if the row is real and not the last one public access stands on |
| `FactorRemoval.RemovesExactly` | src/api/secondFactor.ts:401-414 | after it, exactly if that still holds: that row and unconfirmed apps go, the generation moves on, and backup codes go with the last factor |
| `FactorRemoval.AddsExactly` | src/api/secondFactor.ts:286-296 | an app shown replaces one shown before; a passkey is added to what is there |
| `FactorRemoval.ConfirmsExactly` | src/api/secondFactor.ts:298-329 | an app is confirmed exactly if its code was right and it was still waiting; then every app there was goes, and the generation moves on if one did |
| `FactorRemoval.OfTwoAtOnceOneStays` | src/api/secondFactor.ts:399-408 | two removals at once both pass their first look, and the second to end takes nothing |
| `PasskeyCounter.NoCountTwice` | src/api/webauthn.ts:240-264 | over any run an answer is accepted exactly when its count is above all earlier ones, or all are 0; and then it is the stored one |
| `Base32.EncodeLoop` | src/api/totp.ts:13-22 | the loops, with the accumulator below 2^12 throughout, give the fives of the bytes' bits |
| `Base32.DecodeLoop` | src/api/totp.ts:24-36 | the loop, with the accumulator below 2^12 throughout, gives the whole eights of the symbols' bits |
| `Base32.StaysSmall` | src/api/totp.ts:16-18 | why: fewer than five bits (or eight) are ever carried over |
| `Base32.SymbolRoundTrip` | src/api/totp.ts:13-36 | decoding the symbols of any bytes gives the bytes |
| `Base32.EncodeText` | src/api/totp.ts:13-22 | base32Encode gives the letters of those fives |
| `Base32.DecodeText` | src/api/totp.ts:24-36 | base32Decode, white space and case aside, gives the bytes, or refuses exactly the texts with a letter outside the alphabet |
| `Base32.RoundTrip` | src/api/totp.ts:13-36 | base32Decode(base32Encode(b)) is b for every b, and so is any text that cleans up to the same letters (section 6 of RFC 4648, unpadded) |
| `Base32.TypedAnyhow` | src/api/totp.ts:24-36 | however a key is typed, in small letters, in groups, with padding or without, it is read as the bytes |
| `Base32.RefusedExactly` | src/api/totp.ts:24-31 | exactly which texts are refused: those with a character that is neither a letter of the alphabet nor one people type between them |
| `Base32.TextsDiffer` | src/api/totp.ts:13-22 | two different keys never share a text |
| `Totp.CodeIsSixDigits` | src/api/totp.ts:39-47 | a code is six digits that spell the truncated number's remainder, for every HMAC; the four bytes are always there and stay below 2^31 (section 5.3 of RFC 4226) |
| `Totp.TruncationReads` | src/api/totp.ts:43-45 | the number is the four bytes from where the last byte's low half says, without the top bit |
| `Totp.AcceptedExactly` | src/api/totp.ts:60-73 | exactly when a code is accepted and for which step: six digits once white space is gone, the code of the step the clock is in or of a neighbour, the earliest, and above the last one claimed |
| `Totp.ClaimsExactly` | src/api/secondFactor.ts:263-266 | a match is claimed once, and goes through exactly if its step is above every one claimed before |
| `Totp.TotpVerify` | src/api/totp.ts:50-73 | the first of the three steps around the clock's whose code was typed, with spaces or without, and only above the last one claimed |
| `Totp.NoStepTwice` | src/api/secondFactor.ts:258-266 | over any run, however requests interleave between reading the row and claiming the step: accepted steps strictly increase, and at most k + 2 codes are accepted in any k consecutive steps (section 5.2 of RFC 6238) |
| `Accounts.Store.SetLocalAccountPassword` | src/store/store.ts:2251-2263 | stored exactly when the account is there and, if asked, its hash is the one checked |
| `Accounts.Store.RecoverLocalAccount` | src/store/store.ts:2265-2279 | stored exactly when the recovery code checked is still the account's and it is not disabled; that spends it |
| `Accounts.Store.FinishClaim` | src/api/accountsAuth.ts:391-398 | the code is looked up again and burned with the password it sets |
| `Accounts.Store.FinishBootstrap` | src/api/accountsAuth.ts:341-365 | the first account is made only where there still is none |
| `AccountRequests.BeginsExactly` | src/api/accountsAuth.ts:309-660 | exactly which requests pass their first half, and what each remembers; a claim only with a code that is there and has not expired |
| `AccountRequests.GoesThroughExactly` | src/api/accountsAuth.ts:336-675 | exactly when a request's second half goes through after its await |
| `AccountRequests.StoresExactly` | src/store/store.ts:2251-2292 | what it then changes in its account's row, and that no other row changes |
| `AccountRequests.SignedInExactly` | src/api/accountsAuth.ts:178-194 | exactly when a session signs its account in |
| `Accounts.RunSound` | src/api/accountsAuth.ts:336-675 | the invariant every interleaving keeps |
| `Accounts.EachCredentialOnce` | src/api/accountsAuth.ts:336-570 | in every interleaving of concurrent requests across their awaits at most one bootstrap succeeds, and each claim code and recovery code is used at most once |
| `Accounts.LoserStoresNothing` | src/api/accountsAuth.ts:391-398 | of two requests holding one claim code, one recovery code or the first account, the later to finish stores nothing |
| `Accounts.OwnChangeNeverOverwrites` | src/api/accountsAuth.ts:651-668 | a change of one's own password, or a recovery code made with it, is stored if and only if the account is still there and nobody wrote its password since the request looked |
| `Accounts.EndedSessionsStayEnded` | src/api/accountsAuth.ts:160-194 | a session ended by a password written, the account disabled or removed never signs anyone in again |
| `Cbor.CborDecode` | src/api/webauthn.ts:32-47 | decoding at any offset, also past the end, is parsing the bytes from there |
| `Cbor.DecodeBody` | src/api/webauthn.ts:48-75 | the switch on the major type, each error in its place |
| `Cbor.DecodeArray` | src/api/webauthn.ts:53-58 | the array loop reads that many items, or stops at the first error |
| `Cbor.DecodeTable` | src/api/webauthn.ts:59-67 | the map loop reads that many pairs, set one after another as in a JavaScript Map |
| `CborItems.EncodingIsRead` | src/api/webauthn.ts:32-76 | decoding an item's encoding followed by any bytes gives its meaning and exact length, or "nested too deep" exactly when it is; in every form of every number |
| `CborItems.DecodesExactlyEncodings` | src/api/webauthn.ts:32-76 | bytes decode to a value of some length if and only if they begin with the encoding of a supported item that long with that meaning (section 3 of RFC 8949) |
| `CborItems.SelfDelimiting` | src/api/webauthn.ts:32-76 | every success depends only on the bytes it took, takes at least one, and never more than there are |
| `CborItems.NoPrefixIsRead` | src/api/webauthn.ts:32-76 | and needs every byte it took |
| `CborItems.LastOneCounts` | src/api/webauthn.ts:59-67 | a key that appears more than once means its last value |
| `CborItems.KeysInOrder` | src/api/webauthn.ts:59-67 | keys stand in the order they first appear; byte strings, arrays and maps are keys of their own each time |
| `PinnedTree.EntriesOfSerialized` | scripts/kit_checks.py:257-262 | the entry parser undoes serialisation: modes without spaces, names without NUL, 20-byte ids |
| `PinnedTree.SerializedEntries` | scripts/kit_checks.py:257-262 | and what it reads serialises to the same bytes, when no id is cut short |
| `PinnedTree.ReadTree` | scripts/kit_checks.py:255-266 | the inner loop pushes exactly the subtrees and writes exactly the files of the body's entries, in order |
| `PinnedTree.ReadPinnedTree` | scripts/kit_checks.py:252-268 | the loop over the stack gives what the recursive walk gives, files or error, and ends |
| `PinnedTree.TopFirst` | scripts/kit_checks.py:253-266 | one turn: the tree on top is read, and the work left goes down |
| `PinnedTreePaths.WalkWritesWhatItLeadsTo` | scripts/kit_checks.py:252-268 | a file is written if and only if the tree's entries lead to it; submodules are omitted |
| `PinnedTreePaths.WalkSucceeds` | scripts/kit_checks.py:252-268 | the walk succeeds exactly when the tree and every one below it is there, is a tree and parses |
| `PinnedTreePaths.OneFileAPath` | scripts/kit_checks.py:252-268 | two trees at one place that agree on every name, without slashes, lead to one file under a path |
| `PinnedTreePaths.TwoFilesAPath` | scripts/kit_checks.py:252-268 | two that do not agree lead to two files under one path |
| `PinnedTreePaths.OneOfThemIsHeld` | scripts/kit_checks.py:234-268 | for every tree: of all the files led to under one path exactly one is in the result, and nothing else is |
| `PinnedTreePaths.TreeOrTwoFiles` | scripts/kit_checks.py:234-268 | for every tree, whatever its names: the result is the tree exactly when no two files have one path |
| `PinnedTreePaths.ResultIsTheTreeExactly` | scripts/kit_checks.py:234-268 | without slashes in names: the result is the tree exactly when entries of one name, in any one tree or in subtrees at one path, are the same file or agree in turn (a file and a subtree may share a name) |
| `PinnedTreePaths.ResultIsTheTree` | scripts/kit_checks.py:234-268 | in trees as git writes them each path of the result holds exactly the file the tree leads to under it, flagged as a link when it is one |
| `PinnedTreePaths.LastWriteIsHeld` | scripts/kit_checks.py:263-266 | of several files written to one path the last one is held |
| `PinnedTreePaths.TwoOfANameHideOne` | scripts/kit_checks.py:263-266 | two different files of one name among any tree's entries: the result is not the tree |
| `PinnedTreePaths.SharedNameHidesAFile` | scripts/kit_checks.py:263-266 | of two such entries alone the second is the one held |
| `PinnedTreePaths.SlashInANameHidesAFile` | scripts/kit_checks.py:263-266 | a name with a slash that spells the path of another file below a subtree: the result is not the tree |
| `PinnedTreePaths.AgreeingIsNotEnough` | scripts/kit_checks.py:263-266 | and that with no name twice in any tree |
| `GuestConsoleLog.ConsoleLog.Due` | src/api/guestConsoleLog.ts:36-43 | due exactly when the key's time is up; then it is put last, and the oldest make way |
| `GuestConsoleLog.ConsoleLog.Refusal` | src/api/guestConsoleLog.ts:56-74 | the name a refusal is recorded under, if any, and both maps after it |
| `GuestConsoleLog.MethodNamesAre` | src/api/guestConsoleLog.ts:29 | a method's name is words of letters, digits, dashes and underscores with single dots between them, beginning with a letter |
| `GuestConsoleLog.ConsoleLog.Opened` | src/api/guestConsoleLog.ts:46-48 | a visit, at most once an hour |
| `GuestConsoleRuns.PutLastForgetsTheOldest` | src/api/guestConsoleLog.ts:39-41 | what a full map forgets is no newer than anything it keeps |
| `GuestConsoleRuns.CappedAndOldestFirst` | src/api/guestConsoleLog.ts:31-75 | in every run with a clock that does not go back both maps stay within MAX_KEYS and oldest first; and while a guest's budget is remembered its count is the names recorded since it began, at most ten |
| `GuestConsoleRuns.RepeatsOnlyInTime` | src/api/guestConsoleLog.ts:36-48 | a line is written again exactly when its hour or day is up, unless its key had to be forgotten |
| `GuestConsoleRuns.NamedExactly` | src/api/guestConsoleLog.ts:56-74 | in every run a refusal is named exactly if it is a method's name and the guest's budget has room, is a day old, or is not remembered |
| `ConfirmLock.Confirmers.BeginResolve` | src/api/mgmtChat.ts:168-180 | a press joins its owner's chain |
| `ConfirmLock.Confirmers.GoInside` | src/api/mgmtChat.ts:183-189 | it goes in with its own headers and card |
| `ConfirmLock.Confirmers.Requester` | src/api/mgmtChat.ts:87-93 | a call carries what the owner's confirmer holds |
| `ConfirmLock.Confirmers.Release` | src/api/mgmtChat.ts:190-194 | the finally block: the card let go, the chain settled, the entry removed if it is this press's |
| `ConfirmLock.OneAtATimeInOrder` | src/api/mgmtChat.ts:165-194 | in every run at most one of an owner's confirms is inside, they go in in order of arrival, each once, and every call made inside carries that press's own headers and card |
| `ConfirmLock.EntryGoesWithTheLast` | src/api/mgmtChat.ts:193 | the map's entry is there exactly while one of the owner's confirms is not done |
| `ConfirmLock.FirstMayGoIn` | src/api/mgmtChat.ts:175-180 | nobody waits for ever on the lock itself: the first confirm not done is inside or may go in |
| `ConfirmLock.EntersExactly` | src/api/mgmtChat.ts:175-189 | a press goes in exactly when all its owner's earlier ones are done, with its own headers and card, and nobody else's touched |
| `ConfirmLock.CallsExactly` | src/api/mgmtChat.ts:87-93 | a call made inside carries that press's headers and card |
| `ConfirmLock.FinishesExactly` | src/api/mgmtChat.ts:190-194 | when it is done its card is let go of and the next of its owner's may go in |
| `AddressBucket.OneBucketEachNetwork` | src/api/trust.ts:86-93 | every spelling of an IPv6 address falls in one bucket, and two addresses share a bucket exactly when their first four groups are the same |
| `AddressBucket.OthersAreTheirOwn` | src/api/trust.ts:87 | an address without a colon is its own bucket, shared with no other address |
| `AddressBucket.CaseAside` | src/api/trust.ts:88 | the case of an IPv6 address makes no difference |
| `AddressBucket.SecondDoubleIsIgnored` | src/api/trust.ts:88-91 | what follows a second "::" plays no part |
| `AddressBucket.VisitorsArePlain` | src/api/trust.ts:76-93 | no visitor's bucket, made of any address the listener lets through, is taken for an account's or for the ceiling on everyone |
| `AddressBucket.SpellingComesApart` | src/api/trust.ts:88-91 | any spelling, with or without "::", comes apart into eight groups that say the address |
| `AddressBucket.StripIsShortest` | src/api/trust.ts:92 | leading zeros stripped, a group is the shortest spelling of its value |

## Left out

- Foreign code and I/O: sockets, HTTP routing, cookies on the wire, Tailscale, Docker, the file system, `node:crypto`. HMAC signatures and salted hashes are ideal (a pass is genuine when it was issued, a hash is new each time); the HMAC under an authenticator code is a parameter.
- JSON, UTF-8, the text of error sentences, random masking keys and case folding in the guest console: parameters of `Setup` and `Guest`; the theorems hold for every choice of them.
- Clocks: a parameter of each call. One call reads it once, where the source may read it twice within a call.
- guestHttpPath, the guest view script and the boot settings of a guest's console: they rest on `new URL` and regular expressions.
- The public route table's patterns and their first-match search: a request's rule (class and flags) is a parameter; that both first-factor rows ask for an enrolment proof (src/api/publicRoutes.ts:97 and 109) and that a chat-only guest's routes are signed-in ones (src/api/publicRoutes.ts:206-211) is what `FromTable` states.
- secondFactorNeed and the owner's standing: parameters of the gate, so its theorems hold whatever the store says.
- Safeguards, the public listener's ceilings and open-socket sweeps, new-device notices: not part of this model.
- Throttle.LoginThrottle.Purge: buckets with equally many misses are dropped in an order this model leaves open.
- Funnel: `funnelOn` is all-or-nothing, `funnelOff` removes what it may or reports what it left, .env writes of the undo succeed; a stray entry on the public port made by hand at another public port is not part of the runs.
- ReplyTracking.RepliesAreRewrittenOnce: assumes a gateway answers only requests it was sent, and says hello only to a connect.
- PublicGate.SignOutIsFinal: the database keeps a sign-out until its time is up; a write that fails (which the source logs) is not part of the runs.
- PassCookie.RoundTrip: numbers are whole and not negative, as every pass the server issues has; other spellings `Number` accepts only matter to a forger.
- Base32.RoundTrip: of toUpperCase only the letters a to z are folded.
- Backup codes, otpauth links, sealing of authenticator keys: single expressions, or easy loops.
- COSE keys, authenticator data and client data (src/api/webauthn.ts:81-222): checks settled by reading; of verifyAssertion only the counter rule is modelled.
- Accounts: the recovery code of a machine owner's first claim is stored unconditionally, as the source does (src/api/accountsAuth.ts:399-402); no claim is made for it beyond single use.
- CBOR text is kept as its bytes, so two ill-formed UTF-8 keys that JavaScript would both read as replacement characters stay apart.
- Accounts: revoking command-line tokens, mail notices, adoption of earlier data and the order in which a claim finds its row (codes are unique) are not modelled; signed session text is a record.
- FactorRemoval.LastFactorKept: the owner's reset of someone's factors is meant to take the last one, and is left out of the runs; public access, owner rights and the passkeys' address do not change within them.
- GuestConsoleLog: a guest at an agent is one name; ids with colons in them are not told apart by the source either.
- ConfirmLock: the broker's own work while a confirm is inside is any number of calls.
- PinnedTree: `git cat-file` and the check of each object against its id are one parameter (the object, or none); that a tree's rank is above its subtrees' stands for ids being hashes. The commit's own header line is not parsed here.
- The exit code of the kit's checks and its exceptions, the certificate cache of sign-in with Google and the brace matcher of the chat model: they would only add easy members.
