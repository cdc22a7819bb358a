# Synbad, modelled and proved

Synbad shares one keyboard and mouse between machines. A daemon on each machine supervises a
Synergy/Deskflow Core process, keeps a configuration document in step with its peers over the LAN,
pairs with new peers, carries audio, and serves a GUI over a local socket. This project models the
parts of it whose correctness depends on more than one function, and proves what they promise. The
reading order is also the order of difficulty.

**LAN config sync** (`Order`, `Configuration`, `Versioning`, `SyncNetwork`, `SyncProgress`,
`SyncRejection`, `SyncGossip`, `SyncSilence`). Five fields of the document are shared and carry
Lamport stamps; a merge is last-write-wins per field. The network has any number of machines and a
wire from which any state ever sent may be delivered late, twice, to anyone, or never; machines
edit, snapshot, merge, crash and restart. A merge whose result fails validation restores the config
and keeps the refused stamps. Some results hold in every run, refusals included: per-machine fields
change only by a machine's own edits; an edit made after taking in a state is later than everything
in it, unless a restart loses the clock, which a merge without news does not save; stamps move
forward and heads change only by later stamps; once edits stop the merges that bring news are finite
in number, and so are the dials between two machines; a successful dial confirms the current head or
was overtaken by a strictly later stamp. The one step that moves stamps backwards is a restart after
a refusal, because the refused stamps are not saved; the bounds on merges hold between such
restarts, and a run of refusals each undone by a restart, as long as one likes, shows why.

Others hold as long as nothing is refused: a stamp names one value; states that took in the same
writes have the same head; an undisturbed session leaves both ends identical; and two machines that
have fallen silent, having accepted what they shipped to each other, have converged. Agreement
survives a merge exactly when the merged document is valid. After a refusal two machines may never
converge again: two default installations with names of their own stay apart through any steps but
edits, and a run of two sessions leaves them silent as well, because a session whose state is
refused still succeeds and its head is confirmed. If the stamps were restored with the config,
agreement and convergence on equal writes would hold with refusals too; sessions and silence would
still need the states exchanged to be accepted.

**The Core supervisor** (`Retry`, `Supervision`, `Generation`, `Layouts`). The supervisor's fields,
one method per arm of its event loop and per request, and the operating system's processes beside
them. In every reachable state running is desired exactly when the state is active, exactly one
wake-up is pending, every live process other than the owned one has been sent its kill, the owned
process was started from what the live document generates now, and the retry delays are a closed
function of the failures since the last reset, which an exit causes exactly after a minute of
readiness. The last two need a qualification each:

- A refused merge reloads the config file without restarting the Core. The owned Core goes stale
  exactly when that happens and the file holds other Core inputs; and the two in-memory copies of
  the document part exactly when the file cannot be read. A run of each shows it.
- The per-role backoff caps (10 s for clients, 30 s otherwise) are never reached: the circuit
  breaker opens at the fifth failure for either role, after delays of 0.5, 1, 2, 4 and at most 8
  seconds. The comments describe clients as retrying gently every ten seconds; the code waits one to
  five minutes.

Two branches of the code are proved unreachable: an unusable command line, and a resolution that
finds a child already running. The generated files are given line by line, with the four sides of
the adjacency written out. They are also read back: as long as no name contains a tab or a newline,
which the daemon does not check, the layout text determines the screens, their aliases and their
adjacency (a name with a line break reads as two screens), and settings and command line determine
role, name, port and server address.

**Framing and the encrypted channel** (`Bytes`, `Framing`, `Lines`, `Channel`, `CipherStreams`).
Readers whose future may be dropped at any await, over a stream cut into any pieces, return exactly
the frames a pure parser finds in the whole stream, and return one whenever it is there and its
bytes keep coming. Lengths and counters are given byte by byte, most significant first. On top of
that, what a receiver hands out is a prefix of what was sent, across a split of either end at any
point, and all of it once the end is reported and no send failed; on a wire in hostile hands too, as
long as nothing on it is a forgery, because a frame opens exactly when it is the sender's next one.
The AEAD is a pair of functions with the laws of section 2.8 of RFC 8439. Two sends that return Ok
never share a nonce. A send that fails does not move the counter, so the nonces of all attempts are
distinct exactly when nothing that fits is sent after a failure; a run of two sends shows the
repetition.

**The rotating log** (`RotatingLog`). The chunked writer leaves the files as a byte-at-a-time writer
would, and those files are a window over the end of everything written.

**The GUI's view** (`Replay`, `Following`). The daemon's broadcasts account for everything it shows,
replaying events over their own result changes nothing, and so a window that subscribed before
fetching its snapshots and has caught up shows the daemon's own view. The Refresh buttons fetch
snapshots on a second thread. Such an answer puts the window out of step exactly when, for some
cell, no event still to be streamed writes it and its value changed between the fetch and the last
event streamed, so only an overtaken answer can; a run shows it.

**Pairing** (`Transcript`, `Pairing`, `PairingSafety`, `PairingProgress`). Transcripts determine the
two Hellos; a session pairs only with the machine it dialed; one that persists trust in another
machine has a partner that signed the same transcript after its user accepted; and when both users
accept, every interleaving pairs both ends. Two conditions are exact: the transcript is the same for
both ends when their keys differ (or the Hellos are identical), and agreement is about a peer whose
key is not the session's own, because the self-pairing check compares machine ids.

**The audio bridge** (`AudioBridge`). After every command each session is wanted under the current
configuration and is what a fresh start would be, and every session started is held or was reported
closed exactly once.

Runs of the smaller protocols are runs of a machine in the sense of `Execution`. State that the
daemon updates in place is modelled by classes whose methods are proved against functions on values;
whole-run results are about those functions, or loops over the methods.

## Model

| member | source | states |
|---|---|---|
| `Versioning.EarlierTrichotomous` | crates/synbad-sync/src/versioned.rs:60-72 | stamps are totally ordered, ties broken by origin |
| `Versioning.EarlierTransitive` | crates/synbad-sync/src/versioned.rs:60-72 | the stamp order is transitive |
| `Order.LessByFirstDifference` | crates/synbad-sync/src/versioned.rs:60-72 | the order of origins: the first difference decides and a proper prefix comes first |
| `Versioning.MaxCounter` | crates/synbad-sync/src/versioned.rs:122-138 | the largest counter: no stamp of the document exceeds it and one attains it |
| `Versioning.FreshStamp` | crates/synbad-sync/src/versioned.rs:231-245 | an edit's stamp carries the editor's id and exceeds the clock and every counter the machine holds, one of them by exactly one |
| `Versioning.Edited` | crates/synbad-sync/src/versioned.rs:231-277 | exactly the fields whose value changes are restamped, shared or not; the clock is that stamp's counter; an edit that changes nothing changes nothing |
| `Versioning.Merged` | crates/synbad-sync/src/versioned.rs:301-343 | per shared field the strictly later stamp wins and brings its value with it; the clock is the largest of both clocks and the peer's counters |
| `Versioning.VersionedConfig.ApplyLocal` | crates/synbad-sync/src/versioned.rs:231-277 | the in-place edit is `Edited` and reports whether the document changed |
| `Versioning.VersionedConfig.Merge` | crates/synbad-sync/src/versioned.rs:301-343 | the in-place merge is `Merged`, clock included, and Updated is reported exactly when some stamp won |
| `Versioning.HeadsAgreeOnSharedFields` | crates/synbad-sync/src/versioned.rs:206-225 | heads are equal exactly when shared fields and their stamps are |
| `Versioning.MergeKeepsLocalPart` | crates/synbad-sync/src/versioned.rs:301-343 | a merge never touches a per-machine field or its stamp |
| `Versioning.MergeWithoutNews` | crates/synbad-sync/src/versioned.rs:301-343 | a NoChange merge moves the clock only |
| `Versioning.EditAfterMergeIsLater` | crates/synbad-sync/src/versioned.rs:231-343 | the first edit after a merge is numbered above both clocks and later than every stamp of either side |
| `Versioning.FirstEditIsNumberedTwo` | crates/synbad-sync/src/versioned.rs:231-277 | the first edit after a bootstrap is stamped two |
| `Versioning.MergeIdempotent` | crates/synbad-sync/src/versioned.rs:301-343 | merging a state into itself changes no head |
| `Versioning.MergeCommutative` | crates/synbad-sync/src/versioned.rs:301-343 | for states that agree, either order of merging gives one head |
| `Versioning.MergeAssociative` | crates/synbad-sync/src/versioned.rs:301-343 | grouping of merges does not matter to the head |
| `Versioning.MergeDominatesBoth` | crates/synbad-sync/src/versioned.rs:301-343 | a merge is an upper bound of both sides' stamps |
| `SyncNetwork.FreshWritesAreNew` | crates/synbad-sync/src/versioned.rs:231-277 | in a reachable network an edit's stamps have never been used before |
| `SyncNetwork.StepKeepsInv` | crates/synbadd/src/supervisor/config_edit.rs:112-179 | every edit, snapshot, delivery and restart keeps: stamps are the latest writes seen, values theirs, every stamp within its origin's saved clock |
| `SyncNetwork.StampValueAgreement` | crates/synbad-sync/src/versioned.rs:231-343 | in every run, two states anywhere and at any two moments with the same stamp for a field have the same value |
| `SyncNetwork.StrongConvergence` | crates/synbad-sync/src/versioned.rs:206-343 | in every run, states that took in the same writes hold the latest of them and have the same head |
| `SyncProgress.LocalFieldsChangeOnlyByOwnEdits` | crates/synbad-sync/src/versioned.rs:301-343 | in every run, refusals and restarts included, per-machine fields change only by the machine's own edits |
| `SyncProgress.StepKeepsTidy` | crates/synbadd/src/supervisor/config_edit.rs:112-179 | every step, refusals included, keeps: live and saved document agree, live stamps are no earlier than saved ones, and every stamp belongs to a write |
| `SyncProgress.HeadChangeIsProgress` | crates/synbad-sync/src/versioned.rs:206-225 | in every run, refusals included, stamps never move backwards and a head changes only by a strictly later stamp, until a restart that loses stamps |
| `SyncProgress.StampsMoveBackIffForgotten` | crates/synbadd/src/supervisor/config_edit.rs:112-179 | of all steps exactly a restart with unsaved stamps moves a stamp backwards |
| `SyncProgress.EditAfterDeliveryIsLater` | crates/synbad-sync/src/versioned.rs:231-343 | in every run, an edit made any time after taking in a state, accepted or refused, is numbered above that state's clock and later than all its stamps, until a restart |
| `SyncProgress.EditAfterRestartExceedsIff` | crates/synbadd/src/supervisor/config_edit.rs:112-179 | after a restart the next edit exceeds a counter exactly when the saved clock or a saved stamp reaches it |
| `SyncProgress.UnsavedClockCanBeLost` | crates/synbadd/src/supervisor/config_edit.rs:112-179 | a merge without news raises the clock in memory only: the next edit is numbered six, after a restart two |
| `SyncProgress.FullExchange` | crates/synbadd/src/sync.rs:208-246 | in every run and under any interleaving the initiator ends with the stamps of what it sent and of the listener's post-merge reply, unless it forgets meanwhile |
| `SyncProgress.ReplyBecomesHead` | crates/synbadd/src/sync.rs:208-246 | in an accepted run an initiator that still held what it sent ends with exactly the head of the reply |
| `SyncProgress.UndisturbedExchange` | crates/synbadd/src/sync.rs:374-390 | in an accepted run, with neither end disturbed by anything else, both ends have the same shared fields and stamps after the session |
| `SyncProgress.UpdatesAreBounded` | crates/synbadd/src/supervisor/config_edit.rs:112-179 | in every run, between edits and losses of stamps, merges bring a machine news, refused or not, at most once per write it is behind on |
| `SyncProgress.NetworkUpdatesAreBounded` | crates/synbadd/src/supervisor/mod.rs:1042-1091 | in every run, between edits and losses of stamps, the merges anywhere that bring news are bounded by the writes not yet everywhere |
| `SyncGossip.MoveLowersPotential` | crates/synbadd/src/supervisor/mod.rs:1042-1091 | every quiet move, one with a refused merge included, keeps or lowers the bound on successful dials to come, and a success lowers it |
| `SyncGossip.SuccessfulDialsAreBounded` | crates/synbadd/src/supervisor/mod.rs:1042-1091 | in every history, refusals included, between edits, restarts of the dialer and discovery events, the successful dials of a pair are at most two more than the writes the dialer is behind on |
| `SyncGossip.SuccessSettlesUnlessOvertaken` | crates/synbadd/src/supervisor/mod.rs:1042-1091 | in every history, refusals included, a dial that succeeds either finds its head current and the pair silent for as long as it stays idle, or was overtaken by a strictly later stamp |
| `SyncGossip.ForgottenPeerIsWanted` | crates/synbadd/src/supervisor/mod.rs:698-777 | a peer rediscovered, lost, failed before any confirmation, or left over after an edit or a restart is dialed again as soon as no session is in flight |
| `SyncGossip.ChangedHeadWasOvertaken` | crates/synbadd/src/supervisor/mod.rs:1042-1069 | in every history, refusals included, stamps never move backwards and a head changes only by a strictly later stamp, as long as no restart loses stamps |
| `SyncGossip.HistoryKeepsHonest` | crates/synbadd/src/supervisor/mod.rs:1071-1091 | with either rollback, if the peer accepted what it was shipped, a confirmed head has been delivered: the peer holds everything it stands for |
| `SyncGossip.SilentPairHasConverged` | crates/synbadd/src/supervisor/mod.rs:1042-1091 | two machines that accepted what they shipped to each other, neither wanting to dial or in a session with the other, have the same head |
| `SyncGossip.CoveredAnswersAreAccepted` | crates/synbadd/src/supervisor/config_edit.rs:122-150 | with the daemon's own rollback every history without a refused merge is such a history |
| `SyncSilence.SilentButApart` | crates/synbadd/src/sync.rs:208-246 | with either rollback, a run of two whole sessions, one of them answered by a refusal, leaves two machines silent with different heads |
| `SyncRejection.RejectedMergeKeepsOnlyTheConfig` | crates/synbadd/src/supervisor/config_edit.rs:122-150 | a refused merge restores the config and never the stamps; restoring both restores both |
| `SyncRejection.AgreementKeptIffNotRejected` | crates/synbadd/src/supervisor/config_edit.rs:122-150 | receiver and sender still agree exactly when the merged document is valid |
| `SyncRejection.ArrivedIffNotRejected` | crates/synbadd/src/supervisor/config_edit.rs:112-179 | with either rollback, a delivered state has arrived, stamps and values, exactly when it was not refused |
| `SyncRejection.DivergenceIsPermanent` | crates/synbadd/src/supervisor/config_edit.rs:122-150 | two machines with different values under the same latest stamp stay apart through any exchanges |
| `SyncRejection.FirstContactRejectedNeverConverges` | crates/synbadd/src/supervisor/config_edit.rs:122-150 | whenever the first contact of two machines is refused, they stay apart through any exchanges |
| `SyncRejection.NamedMachinesReject` | crates/synbad-config/src/lib.rs:416-446 | two freshly bootstrapped single-screen installations with different names are such machines |
| `SyncRejection.NamedMachinesNeverConverge` | crates/synbadd/src/supervisor/config_edit.rs:122-150 | the run itself: first contact refused, then any number of full exchanges, heads still different |
| `SyncRejection.NamedMachinesStayApart` | crates/synbadd/src/supervisor/config_edit.rs:112-179 | without an edit those two never converge, through any deliveries, refusals and restarts, with either rollback |
| `SyncRejection.NamedMachinesRefuseForever` | crates/synbadd/src/supervisor/config_edit.rs:122-150 | the bound on news needs machines that do not forget: a run without edits with any number of refusals, each undone by a restart |
| `Configuration.Validate` | crates/synbad-config/src/lib.rs:416-446 | no error exactly for documents meeting the listed conditions; each error names the first failing check |
| `Configuration.AdjacencyIsSymmetricClosure` | crates/synbad-config/src/lib.rs:505-528 | the edges listed for a screen are exactly those of the links and their reverses |
| `Configuration.AdjacencySideBySide` | crates/synbad-config/src/lib.rs:505-528 | the four sides written out: left of a screen are exactly its left links and the screens it is the right link of, and so on |
| `Layouts.OneLinkSpelledOut` | crates/synbad-config/src/lib.rs:491-528 | a single link to the left gives a section with `left` under one screen and `right` under the other |
| `Layouts.SectionsSpelledOut` | crates/synbad-config/src/lib.rs:475-540 | the lines of the other sections, character by character, and when a section is absent |
| `Configuration.GroupedSorted` | crates/synbad-config/src/lib.rs:505-528 | each screen has one group and groups are in name order |
| `Configuration.BuildCommand` | crates/synbadd/src/supervisor/core_proc.rs:450-507 | the program is the one for the role; fails only for a split-layout client without a server address, hence never for a valid document |
| `Layouts.CommandsSpelledOut` | crates/synbadd/src/supervisor/core_proc.rs:450-507 | the argument vectors word by word, for both layouts and roles |
| `Configuration.RemoteAddressByKind` | crates/synbad-config/src/lib.rs:354-377 | when a server address gets the port, brackets, both or neither |
| `Configuration.CoreInputsDifferIff` | crates/synbad-config/src/lib.rs:458-470 | the Core is affected exactly by fields other than the two daemon ports, audio and autostart |
| `Configuration.SameCoreInputsSameArtefacts` | crates/synbad-config/src/lib.rs:458-595 | documents whose Core inputs do not differ generate the same role, layout, settings and argument vector |
| `Generation.GroupEdges` | crates/synbad-config/src/lib.rs:505-516 | the grouping loop enters every link under its screen and, on the opposite side, under the other |
| `Generation.GenerateSynergyConf` | crates/synbad-config/src/lib.rs:475-540 | the appending loops produce the text the stale-Core result is about |
| `Layouts.LayoutDeterminesAdjacency` | crates/synbad-config/src/lib.rs:475-540 | documents with the same layout text have the same screens in order, the same aliases under the same names and the same adjacency, for names without tabs and newlines |
| `Layouts.BrokenNameReadsAsTwoScreens` | crates/synbad-config/src/lib.rs:475-489 | the condition on names is needed: a valid document with a line break in a name and one with two screens give the same text |
| `Layouts.BlocksDetermined` | crates/synbad-config/src/lib.rs:491-525 | headed blocks of a section can be read back from its lines |
| `Layouts.SettingsDetermine` | crates/synbad-config/src/lib.rs:556-595 | the settings file determines role, name, port and a client's server address |
| `Layouts.SettingsSpelledOut` | crates/synbad-config/src/lib.rs:556-595 | the settings file of a client and of a server, mode number and lines written out |
| `Layouts.DecimalIsDecimal` | crates/synbad-config/src/lib.rs:556-595 | numbers are printed in decimal |
| `Layouts.CommandDetermines` | crates/synbadd/src/supervisor/core_proc.rs:450-507 | the command line determines the role, and in the split layout the name, port or server address |
| `Retry.RestartBackoff` | crates/synbadd/src/supervisor/core_proc.rs:374-388 | the delay is the backoff up to the role's cap, and the next backoff its double up to the cap |
| `Retry.ArmedIsRetryDelay` | crates/synbadd/src/supervisor/core_proc.rs:354-388 | the armed delay is a closed function of retries since the reset, the same for both roles and across role changes |
| `Retry.RetryDelaysGrow` | crates/synbadd/src/supervisor/core_proc.rs:354-388 | those delays are nondecreasing and between 500 ms and 300 s |
| `Retry.RetryTable` | crates/synbadd/src/supervisor/core_proc.rs:354-388 | the delays in numbers: 0.5, 1, 2, 4, then 60, 120, 240 and 300 seconds; one of 8 seconds more after a healthy session |
| `Supervision.Supervisor.constructor` | crates/synbadd/src/supervisor/mod.rs:410-480 | the initial supervisor satisfies every invariant, with no process ever spawned |
| `Supervision.Supervisor.Launch` | crates/synbadd/src/supervisor/mod.rs:482-488 | a start is under way unless the user stopped the Core last time |
| `Supervision.Supervisor.StartCore` | crates/synbadd/src/supervisor/core_proc.rs:47-74 | an owned child is left alone; otherwise Starting with one resolution in flight and no timer |
| `Supervision.Supervisor.SpawnChild` | crates/synbadd/src/supervisor/core_proc.rs:107-187 | a spawned child is owned, watched, not ready and has thirty seconds to connect; a failed spawn owns nothing and leaves nothing unsignalled |
| `Supervision.Supervisor.OnCoreResolved` | crates/synbadd/src/supervisor/core_proc.rs:189-241 | a child from the live document, or one armed retry, or nothing if no longer wanted |
| `Supervision.Supervisor.StartFailed` | crates/synbadd/src/supervisor/core_proc.rs:95-105 | a failed start counts once and arms one retry |
| `Supervision.Supervisor.RestartCore` | crates/synbadd/src/supervisor/core_proc.rs:243-248 | Starting with a fresh retry budget and the old child retired |
| `Supervision.Supervisor.StopCore` | crates/synbadd/src/supervisor/core_proc.rs:250-273 | afterwards nothing is owned or armed and every live process has been sent its kill, whatever exits arrive while waiting |
| `Supervision.Supervisor.HandleChildExit` | crates/synbadd/src/supervisor/core_proc.rs:275-352 | a superseded child's exit changes no supervisor state; the owned child's arms exactly one retry, counted from scratch exactly if it had been ready for sixty seconds and as one more failure otherwise |
| `Supervision.Supervisor.ScheduleRestart` | crates/synbadd/src/supervisor/core_proc.rs:354-363 | the timer is set by the closed-form delay |
| `Supervision.Supervisor.OnCoreStalled` | crates/synbadd/src/supervisor/mod.rs:539-550 | the watchdog signals the child, which stays owned until its exit |
| `Supervision.Supervisor.OnRestartDue` | crates/synbadd/src/supervisor/mod.rs:551-556 | a due timer leads to Starting with a resolution in flight |
| `Supervision.Supervisor.OnCoreLog` | crates/synbadd/src/supervisor/mod.rs:589-605 | only the owned child's lines count; the first ready line sets the moment of readiness; a connected line, or a server's ready line, ends the watchdog's deadline; a client's lost server takes the kill handle |
| `Supervision.Supervisor.Start` | crates/synbadd/src/supervisor/requests.rs:38-51 | running is desired, the retry budget is fresh, and a start is under way if nothing is owned |
| `Supervision.Supervisor.Stop` | crates/synbadd/src/supervisor/requests.rs:52-63 | nothing is owned or armed and every live process has been sent its kill |
| `Supervision.Supervisor.Restart` | crates/synbadd/src/supervisor/requests.rs:64-72 | Starting, with a fresh retry budget and the invariants kept |
| `Supervision.Supervisor.HandleRequest` | crates/synbadd/src/supervisor/requests.rs:32-72 | every request keeps the invariants and has its effect on state, document and the wish to run, which only a Stop ends |
| `Supervision.Supervisor.Shutdown` | crates/synbadd/src/supervisor/mod.rs:570-582 | no live process is left unsignalled |
| `Supervision.Supervisor.ApplyLocalEdit` | crates/synbadd/src/supervisor/config_edit.rs:59-99 | the Core is bounced exactly when wanted and its inputs changed; the owned Core stays fresh |
| `Supervision.Supervisor.SetConfig` | crates/synbadd/src/supervisor/config_edit.rs:23-30 | refused without effect exactly when invalid or not saved; otherwise a stamped local edit, and a bounce exactly when wanted and inputs changed |
| `Supervision.Supervisor.HandleConfigChanged` | crates/synbadd/src/supervisor/config_edit.rs:32-51 | the live document becomes the loaded one as a stamped local edit, a bounce exactly when wanted and inputs changed; the owned Core stays fresh |
| `Supervision.Supervisor.HandleMerge` | crates/synbadd/src/supervisor/config_edit.rs:112-179 | the exact outcome of all four branches, with the exact conditions under which the two documents part and the Core goes stale |
| `Supervision.MergeIsADelivery` | crates/synbadd/src/supervisor/config_edit.rs:112-179 | with a readable file, the merge is a delivery step of the network model with the daemon's own rollback |
| `Supervision.StaleCoreRun` | crates/synbadd/src/supervisor/config_edit.rs:122-150 | a run from launch to an owned Core that is stale |
| `Supervision.PartedRun` | crates/synbadd/src/supervisor/config_edit.rs:122-150 | a run from launch to two documents that differ, the versioned one invalid |
| `Supervision.Supervisor.Turn` | crates/synbadd/src/supervisor/mod.rs:538-630 | every arm that is ready has its effect and keeps the one-wake-up, process, phase and retry invariants, and freshness outside a stale reload |
| `Supervision.Supervisor.Run` | crates/synbadd/src/supervisor/mod.rs:498-632 | any sequence of arms keeps them |
| `Supervision.Supervisor.FreshCoreMeansSameArtefacts` | crates/synbadd/src/supervisor/core_proc.rs:76-93 | an owned child's artefacts are what the live document generates now |
| `Supervision.Supervisor.DelaysNeverShrink` | crates/synbadd/src/supervisor/core_proc.rs:275-381 | in every reachable state the delays armed since the reset are nondecreasing and within 500 ms and 300 s |
| `Supervision.CrashRound` | crates/synbadd/src/supervisor/core_proc.rs:275-352 | a child not ready for a minute dies, and its successor comes up with one more failure counted |
| `Supervision.CrashLoop` | crates/synbadd/src/supervisor/core_proc.rs:275-388 | a run from launch in which the Core keeps dying: 0.5, 1, 2 and 4 seconds, then the breaker opens at 60 |
| `Bytes.PrefixedInjective` | crates/synbad-discovery/src/pairing.rs:104-108 | a 4-byte length prefix parses back uniquely |
| `Bytes.BigEndianAt` | crates/synbad-discovery/src/pairing.rs:104-108 | numbers go out most significant byte first: byte i of k is the digit of weight 256 to the k-1-i |
| `Bytes.FourBytes` | crates/synbad-crypto/src/cipher.rs:168-172 | four bytes are read most significant first |
| `Bytes.PrefixOnTheWire` | crates/synbad-discovery/src/pairing.rs:104-108 | the four bytes before a field are its length, most significant first |
| `Framing.ParseOneInNumbers` | crates/synbad-crypto/src/cipher.rs:161-186 | a frame by byte value: lengths from 16 to 262160, most significant byte first, then the body |
| `Framing.ParseAllInvertsStream` | crates/synbad-crypto/src/cipher.rs:161-186 | the pure parser finds exactly the frames a stream was made of |
| `Framing.PendingFrame.Read` | crates/synbad-crypto/src/cipher.rs:152-187 | however it ends, no byte is lost, repeated or reordered; a frame returned is the parser's next, and one is returned whenever it is there and its bytes keep coming; an out-of-range length is reported on every later call |
| `Framing.ReadMany` | crates/synbad-crypto/src/cipher.rs:152-187 | any number of reads, cut short anywhere, return exactly the first frames of the pure parser: all of them at the end of the stream, or after that many reads if bytes keep coming |
| `Lines.LineReader.ReadMessage` | crates/synbad-ipc/src/server.rs:244-269 | one whole line within the cap, or nothing consumed for good; the cap is reported only for a line that exceeds it; a line that is there and keeps coming is returned |
| `Lines.ReadMany` | crates/synbad-ipc/src/server.rs:244-269 | any number of cancelled or completed reads hand out exactly the first messages of the stream, all of them after that many reads if the pieces keep coming |
| `Channel.NoncesDistinct` | crates/synbad-crypto/src/cipher.rs:189-194 | distinct counters give distinct nonces |
| `Channel.NonceOnTheWire` | crates/synbad-crypto/src/cipher.rs:189-194 | twelve bytes: the prefix, then the eight digits of the counter, most significant first |
| `Channel.SizeLimit` | crates/synbad-crypto/src/cipher.rs:105-131 | 256 KiB go out in one frame; one byte more is refused and leaves counter and wire alone |
| `CipherStreams.CipherWriter.Send` | crates/synbad-crypto/src/cipher.rs:264-288 | size check, encryption, write and checked increment as one step of the sender |
| `Channel.NoncesUniqueIffOnlyLastFails` | crates/synbad-crypto/src/cipher.rs:105-131 | over any sends: those returning Ok use distinct nonces, and all attempts do exactly when nothing that fits follows a failure |
| `Channel.FailedSendLendsItsNonce` | crates/synbad-crypto/src/cipher.rs:105-131 | a run with two equal nonces |
| `Channel.WireIsFrontOfSealed` | crates/synbad-crypto/src/cipher.rs:105-131 | unless something follows a failure the wire holds the front of the sealed payloads, all of them if nothing failed, and the counter is their number |
| `CipherStreams.CipherStream.Send` | crates/synbad-crypto/src/cipher.rs:105-131 | the same step of the sender on the unsplit stream |
| `CipherStreams.SendAcrossSplit` | crates/synbad-crypto/src/cipher.rs:105-131 | a split between any two sends leaves counter, wire and nonces as if there had been none |
| `CipherStreams.CipherStream.Recv` | crates/synbad-crypto/src/cipher.rs:134-147 | takes the parser's next frame and opens it under the counter, or leaves everything as it is; the end is reported only when no whole frame is left |
| `CipherStreams.CipherReader.Recv` | crates/synbad-crypto/src/cipher.rs:237-250 | the same on the read half |
| `CipherStreams.CipherStream.Split` | crates/synbad-crypto/src/cipher.rs:205-221 | each half takes over its direction's cipher, prefix and counter, the read half also a partly read frame |
| `Channel.StepDeliversNext` | crates/synbad-crypto/src/cipher.rs:134-147 | on an honest, possibly truncated wire a receive yields the next payload or nothing, never an error |
| `Channel.EndedMeansAllDelivered` | crates/synbad-crypto/src/cipher.rs:134-147 | on a whole honest wire, once the end is reported everything sent has been handed out |
| `Channel.PromptReceivesDeliverAll` | crates/synbad-crypto/src/cipher.rs:134-147 | on a whole honest wire, receives that are not cut short hand out everything, one payload each |
| `Channel.OnlyTheNextFrameOpens` | crates/synbad-crypto/src/cipher.rs:237-250 | without forgeries a frame opens exactly when it is the sender's next; a replayed or reordered one is reported and moves nothing |
| `Channel.ReplayedWireIsUnforged` | crates/synbad-crypto/src/cipher.rs:1-10 | the laws of cipher and wire go together: a cipher for which every wire of the sender's frames, repeated and reordered at will, is without forgeries |
| `Channel.AnyWireDeliversFront` | crates/synbad-crypto/src/cipher.rs:134-147 | without forgeries, whatever is repeated, reordered, dropped or inserted, what is handed out is the front of what was sent |
| `CipherStreams.ReceiveAcrossSplit` | crates/synbad-crypto/src/cipher.rs:196-250 | receives before and after a split, even inside a frame, are one sequence of receives on one stream of bytes |
| `CipherStreams.Conversation` | crates/synbad-crypto/src/cipher.rs:105-288 | from sender to receiver: any payloads, failures, fragmentation, abandoned reads and splits; unless something follows a failure, what arrives is a prefix of what was sent, and all of it if nothing failed and the end was reported |
| `CipherStreams.ReceiveFromAnyone` | crates/synbad-crypto/src/cipher.rs:134-250 | the receiver alone, split anywhere, on any wire without forgeries, hands out a prefix of what was sent |
| `RotatingLog.LogFile.constructor` | crates/synbad-config/src/logging.rs:25-73 | opening cuts each file to its last `limit` bytes and leaves shorter ones alone |
| `RotatingLog.LogFile.Rotate` | crates/synbad-config/src/logging.rs:80-94 | every file moves one place down and the oldest is gone |
| `RotatingLog.LogFile.Write` | crates/synbad-config/src/logging.rs:98-124 | terminates, and leaves the files as writing a byte at a time would |
| `RotatingLog.FedInPieces` | crates/synbad-config/src/logging.rs:98-124 | how a text is cut into writes does not matter |
| `RotatingLog.SlidingWindow` | crates/synbad-config/src/logging.rs:80-124 | each file within the limit; together the end of everything; at least three full files' worth of what was written is retained, at most four |
| `RotatingLog.NothingLostIffItFits` | crates/synbad-config/src/logging.rs:80-124 | a log that began empty has lost nothing exactly while four files can hold it |
| `RotatingLog.WriteSession` | crates/synbad-config/src/logging.rs:25-124 | opening over any files and writing any texts ends in the window over everything written |
| `Replay.ReplayIsIdempotent` | crates/synbad-gui/src/app/mod.rs:364-388 | replaying events over their own result changes nothing |
| `Replay.Daemon.SetState` | crates/synbadd/src/supervisor/mod.rs:1274-1284 | broadcasts exactly when the state changes, and the broadcast accounts for what was cleared |
| `Replay.Daemon.RecordLog` | crates/synbadd/src/supervisor/mod.rs:1224-1248 | the broadcasts account for the change to connected peers and active screen |
| `Replay.Daemon.Found` | crates/synbadd/src/supervisor/mod.rs:698-753 | the broadcast, if any, accounts for every change but that of the protocol version |
| `Replay.Daemon.Lost` | crates/synbadd/src/supervisor/mod.rs:754-777 | a broadcast exactly for a peer that was in sight |
| `Replay.Daemon.Turn` | crates/synbadd/src/supervisor/mod.rs:1224-1285 | the daemon's visible fields are always the fold of everything broadcast, and each activity has its effect |
| `Replay.Gui.DrainIpc` | crates/synbad-gui/src/app/mod.rs:312-394 | the loop's field updates are the fold of the updates |
| `Replay.DisconnectedShowsNothing` | crates/synbad-gui/src/app/mod.rs:320-330 | after a disconnection the window shows no clients, no screen and no peers, and the last state |
| `Following.SnapshotThenReplay` | crates/synbad-gui/src/ipc_thread.rs:277-300 | a snapshot taken after subscribing, with everything since replayed over it, is the present |
| `Following.StepKeepsInv` | crates/synbad-ipc/src/server.rs:156-241 | every step of daemon, server, event thread and command thread keeps the window in step |
| `Following.BreakClearsTheWindow` | crates/synbad-gui/src/ipc_thread.rs:277-378 | a broken connection ends the session and clears the window once handled |
| `Following.CaughtUpWindowIsRight` | crates/synbad-gui/src/ipc_thread.rs:277-378 | in every run, once caught up the window shows the daemon's own state, clients, screen and peers, unless a Refresh answer did harm |
| `Following.CanCatchUp` | crates/synbad-ipc/src/server.rs:178-200 | a subscriber within the buffer can always catch up |
| `Following.AnswerIsRightIffHarmless` | crates/synbad-gui/src/ipc_thread.rs:551-640 | a Refresh answer puts its part in step exactly when every cell is written by an event still to be streamed or did not change between the fetch and the last event streamed |
| `Following.OnlyOvertakenAnswersMislead` | crates/synbad-gui/src/ipc_thread.rs:551-640 | an answer no older than what has been streamed does no harm |
| `Following.StepKeepsInvIffNotMisleading` | crates/synbad-gui/src/ipc_thread.rs:551-640 | of all steps precisely the harmful answers put a fetched part out of step |
| `Following.RefreshCanLeaveTheWindowWrong` | crates/synbad-gui/src/ipc_thread.rs:551-640 | a run in which such an answer leaves a caught-up window wrong |
| `Transcript.CanonicalTranscript` | crates/synbad-discovery/src/pairing.rs:87-108 | the appending loop produces the length-prefixed fields, written out in order, smaller key first |
| `Transcript.AtMostByFirstDifference` | crates/synbad-discovery/src/pairing.rs:87-108 | keys are compared byte by byte from the front |
| `Transcript.TranscriptInjective` | crates/synbad-discovery/src/pairing.rs:87-108 | equal transcripts come from the same unordered pair of Hellos |
| `Transcript.TranscriptSymmetricIff` | crates/synbad-discovery/src/pairing.rs:87-108 | both ends derive the same transcript exactly when keys differ or Hellos are equal |
| `Transcript.CanonicalStateBytes` | crates/synbad-sync/src/protocol.rs:87-104 | the signed bytes are the domain and the three fields, each length-prefixed |
| `Transcript.StateBytesInjective` | crates/synbad-sync/src/protocol.rs:87-104 | the signed bytes determine sender, nonce and state |
| `Transcript.DomainsDisjoint` | crates/synbad-sync/src/protocol.rs:49-104 | no pairing transcript can pass for a signed sync state |
| `Pairing.HexRoundTrip` | crates/synbad-discovery/src/pairing.rs:140-150 | decoding inverts encoding, so an announced key is the key |
| `Pairing.HexEncodeAt` | crates/synbadd/src/pairing.rs:270-276 | two lower-case digits for each byte, the higher half first |
| `Pairing.RunSession` | crates/synbadd/src/pairing.rs:270-384 | ends as the step machine does for either winner of the race; paired exactly when the Hello is from the machine dialed, not from itself, both accept and the confirmation verifies; with any other id nothing is signed or stored |
| `PairingSafety.StepKeepsInv` | crates/synbadd/src/pairing.rs:270-384 | every delivery, decision and failure keeps what a session's phase says about its past |
| `PairingSafety.PairingAgreement` | crates/synbadd/src/pairing.rs:270-384 | in every run over a hostile network, persisted trust means both users accepted, both heard the other's Hello as sent, and both signed the same transcript |
| `PairingSafety.NoTrustWithoutConsent` | crates/synbadd/src/pairing.rs:320-364 | a session whose user has not accepted is trusted by no other machine and trusts none |
| `PairingSafety.PairsOnlyWithItsTarget` | crates/synbadd/src/pairing.rs:291-303 | in every run, a session that pairs has paired with the machine it dialed and not with itself |
| `PairingSafety.WrongHelloOrRefusalFails` | crates/synbadd/src/pairing.rs:291-364 | a Hello with another id or its own, or a refusal, ends the session failed and unsigned |
| `PairingSafety.HelloWithOwnKeyPairsAlone` | crates/synbadd/src/pairing.rs:301-303 | the condition on the peer's key is needed |
| `PairingProgress.BothUsersAcceptingPairs` | crates/synbadd/src/pairing.rs:320-365 | when both accept over a reliable channel, every order pairs both ends in six turns and none gets stuck |
| `AudioBridge.ActiveIffSomeDirection` | crates/synbad-audio/src/bridge.rs:313-325 | a peer is active exactly when a session would carry some direction |
| `AudioBridge.CurrentMeansRouted` | crates/synbad-audio/src/session.rs:367-383 | every session held captures by its peer's send switch and plays by its receive switch, both on without an override |
| `AudioBridge.UnaffectedIff` | crates/synbad-audio/src/bridge.rs:226-243 | gains, ports and other peers leave a session alone; a device, the master switch or one of its own directions does not |
| `AudioBridge.UnaffectedStaysCurrent` | crates/synbad-audio/src/bridge.rs:226-243 | sessions the reconfigure filter keeps are wanted and as freshly started under the new configuration |
| `AudioBridge.Bridge.StartSession` | crates/synbad-audio/src/session.rs:158-217 | directions and devices by the configuration, live exactly if they opened; exactly what fails to open is reported |
| `AudioBridge.Bridge.OnIncoming` | crates/synbad-audio/src/bridge.rs:159-211 | untrusted and inactive peers change nothing; a newer connection replaces the session, with exactly these events |
| `AudioBridge.Bridge.OnReconfigure` | crates/synbad-audio/src/bridge.rs:212-258 | exactly the affected sessions are closed, nothing but closings is reported, the rest go on untouched with the new gains |
| `AudioBridge.Bridge.OnClosePeer` | crates/synbad-audio/src/bridge.rs:269-279 | that session and no other is gone |
| `AudioBridge.Bridge.OnReap` | crates/synbad-audio/src/bridge.rs:145-156 | exactly the finished and untrusted sessions are gone, and nothing but closings is reported |
| `AudioBridge.Bridge.Handle` | crates/synbad-audio/src/bridge.rs:157-286 | each command leaves exactly the sessions it keeps, as they were, and the one it opened |
| `AudioBridge.Bridge.Run` | crates/synbad-audio/src/bridge.rs:132-293 | any commands keep every session current; after the drain starts and reported closings match one for one |

## Left out

- Integer widths of clocks and counters: Lamport clocks are unbounded (the source saturates or overflows at 64 bits); the failure count saturates at 32 bits and nonce counters end at 64 bits as in the source.
- The head hash: heads are compared as the hashed contents, so SHA-256 is taken to be collision-free.
- Restarts from a config and sidecar that do not match: the model saves both together and assumes both saves succeed, that machine ids are distinct, and that every machine bootstraps with its own stamp.
- SyncRejection.DivergenceIsPermanent: covers exchanges of any two diverged machines, not restarts, which reload older stamps; `SyncRejection.NamedMachinesStayApart` covers restarts for the two named installations.
- SyncGossip.SuccessfulDialsAreBounded: backoff and visibility are left to the schedule, which may dial whenever the guard allows.
- Supervision.Supervisor.Turn: the arms for pairing, audio and discovery do not touch the fields modelled; a child has a fresh pid and sends one exit message; timers and clocks are parameters.
- The Core program path: a change of the binary override during a resolution still spawns the earlier path.
- Replay.Daemon.Found: the protocol version of a peer can change without a broadcast, so the views compared leave it out.
- The GUI's trusted peers, pairing dialogs, log tail and config draft: written from several tasks or by the user.
- Following.CaughtUpWindowIsRight: one daemon lifetime per run, from any contents of the window; JSON encoding and the socket are a FIFO of events.
- TOML and JSON encoding: messages and states are values, state bytes are given.
- X25519, HKDF, Ed25519 and the AEAD internals: taken as functions with their usual laws; signatures are ideal, nonces of distinct sessions distinct, received fields shorter than a frame.
- Pairing.RunSession: timeouts and transport errors are failed reads or aborts; the code shown to the users is not compared in the model.
- Gains are reals: a not-a-number gain is rewritten on every reconfigure.
- AudioBridge.Bridge.Run: events reach the supervisor; if its end of the channel is gone the bridge stops without reporting.
- Layouts.LayoutDeterminesAdjacency: options are not read back, because one that spells another line is ambiguous; aliases are read back under their names, not per screen, because two screens may share a name.
- CipherStreams.ReceiveFromAnyone: that nothing on the wire is a forgery is a hypothesis about the wire; the cipher's strength is not modelled.
- IP literal parsing in `remote_address`: a parameter of the platform.
- Filesystem errors other than those named, and concurrent deletion of log files by others.
- The audio driver, resampling, jitter and Opus; mDNS, connection racing and listener rebinding; the updater and downloads; the tray, drawing and layout editor; log-line parsing: input and output plumbing, foreign libraries, or plain string matching.
