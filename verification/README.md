# nn-friends, modelled and proved in Dafny

nn-friends sits between consoles (Wii U, 3DS) and a remote account core. What is hard in it is a set of small stateful
protocols that must stay in step with that core while calls fail, connections break and the process restarts. This
project models those protocols and proves what they keep. The core, the resolver, the database and the clock are
abstract state that each call may find changed, and every call can fail where the code handles an error.

| file | what it models |
|---|---|
| `EventLog.dfy`, `CursorProtocol.dfy`, `Replays.dfy`, `Poller.dfy` | the event poller: one persisted cursor shared by a paging and a push transport. `CursorProtocol` is a state machine of every durable effect, with crashes, lost saves, replays and transport switches, and what its runs keep; `Replays` is how much of the log they can handle twice; `Poller` is the code's loops, each proved to perform a run of that machine |
| `Publisher.dfy` | one leased core session per connected person, kept by register, heartbeat, replace and expire |
| `Labels.dfy`, `Notifier.dfy` | the incremental notifications that keep a console's friend list in step with the core, and where their lines come from |
| `MiiCipher.dfy` | the CTR stream with a 16-byte counter that stands in for CCM, and the layout of the encrypted Mii |
| `Ascii.dfy`, `ConfigNames.dfy` | the environment-variable name printer and its parser |
| `CoreGraph.dfy`, `FriendSync.dfy` | the core's symmetric friend graph, two concurrent requests over it, and the 3DS friend sync |
| `ResolutionCache.dfy`, `TitleNames.dfy`, `OnlineIndex.dfy` | the two caches and the index of connected accounts, each against the history of what was stored |
| `Erase.dfy` | erasing an account's rows in one transaction |

`dafny verify dfyconfig.toml` verifies all of it.

## How it is put together

Code that changes state step by step is a class or a method with loops, and its contract ties the new state to the old
one or to a specification function; the theorems are then lemmas about those functions. Failures are nondeterministic.
A call that fails may still have taken effect on the other side wherever the code cannot tell. Where the code loops until
a call succeeds, the number of failures is arbitrary but finite. The history a claim is about (which events were handled, which
sessions were returned, which answers were stored) is a ghost variable.

## Where the code does not do what its documentation says

- The cursor "starts at the head" whenever the row cannot be read, not only when there is none
  (`coreevents/poller.go:125-148`). If the row is unreadable once on a running system, the events between the stored
  cursor and the head are skipped for good: `CursorProtocol.UnreadableRowLosesAnEvent` is such a run.
- If the save of a fresh cursor is lost, the next start may begin at a later head and skip events, although every load can
  read what there is (`CursorProtocol.LostFirstSaveLosesAnEvent`). `CursorProtocol.KeptIff` says of every run whether
  anything is ever missing, `CursorProtocol.FirstLoadIff` which first loads the guarantee begins with, and
  `CursorProtocol.LoadInSecure` which later loads end it.
- A load that can read neither the row nor the head starts from 0, and the first page after it moves the stored cursor
  backwards, so that more than one page can be replayed (`Replays.BlindLoadBreaksTheBound`; the exact condition is
  `Replays.BlindLoadIff`).
- A pass does not look the account of an unchanged session up again, so somebody who unlinks their console stays published
  for as long as the heartbeats are answered (`Publisher.OutdatedRecordStays`, `Publisher.OutdatedPass`; the exact
  condition, before the pass and after it, is in `Publisher.ConvergenceBefore` and `Publisher.Convergence`).
- A friend who connects here and leaves again between two notifier ticks is shown offline although they are live elsewhere,
  until their line changes (`Notifier.BlinkIsMissed`). A friend shown live at sign-in who is gone by the first tick is shown
  live from then on (`Notifier.GoneBeforeFirstTick`). The exact condition is `Notifier.TickInStepIff`.
- Two adjacent initialisms, as in `GRPCAPIKey` and `AccountGRPCAPIKey`, are printed as one piece and read back wrong
  (`ConfigNames.AdjacentInitialisms`; the exact condition for every name is `ConfigNames.RoundTripIff`).
- A user with no relationship at all cannot sync: the empty list is an error (`FriendSync.SyncFriend`).
- OnlinePIDOfAccount can miss an account that is still online from another console
  (`OnlineIndex.NewestForgetsTheOther`): exactly when the console that marked the account last has left as it
  (`OnlineIndex.OnlineMissedIff`, and `OnlineIndex.NewestNoneIff` for any account). It can also answer with a PID that has
  moved to another account (`OnlineIndex.MovedPidIsStale`; the exact condition is `OnlineIndex.NewestIff`).

SyncFriend compares listed PIDs at 64 bits when it removes and at 32 bits when it requests
(`nex/friends-3ds/sync_friend.go:34-61`), so the function has a case in which it removes a friend that it was given
(`FriendSync.WidePidLosesAFriend`, `FriendSync.SyncMeetsListIff`). The running 3DS server is not shown to have it: the
server leaves the stream settings at their defaults, under which a PID is read as four bytes.

## Model

| member | source | states |
|---|---|---|
| `EventLog.SeenGrows` | coreevents/poller.go:102-103 | appending newer events never lowers the rank of a cursor and keeps it once the log has reached the cursor, so a cursor stays a place in the log |
| `CursorProtocol.SafeMeans` | coreevents/poller.go:37-38 | a cursor is safe if and only if every event between the first cursor and it has been handled however the log grows |
| `CursorProtocol.KeptIff` | coreevents/poller.go:39-148 | over any run of pages, stream events, replays, lost saves, transport switches, crashes and loads: nothing is ever missing below the cursor if and only if at each load the loaded cursor is at or below the first one, or it is not past the head and the newest event at or below it has been handled or lies at or below the first cursor |
| `CursorProtocol.ClearIff` | coreevents/poller.go:85-123 | where nothing handled has a gap below it, that one event decides whether a cursor is safe |
| `CursorProtocol.LoadKeepsIff` | coreevents/poller.go:125-148 | a load keeps the guarantee if and only if it passes that test, and then leaves no gap |
| `CursorProtocol.SecureIff` | coreevents/poller.go:125-148 | from any point at which nothing is missing yet, the guarantee survives every continuation with readable loads if and only if nothing is missing, or can come to be, below the highest cursor such a load may come back with |
| `CursorProtocol.FirstLoadIff` | coreevents/poller.go:125-148 | after a first load the guarantee survives every continuation with readable loads if and only if the load found a row it did not have to write back, or its save worked, or the row it could not read is not past the head it started from, or it could read nothing and the row it missed is below every event |
| `CursorProtocol.AtLeastOnce` | coreevents/poller.go:39-123 | after such a first load, over any interleaving whose loads can read the row, every event between the first loaded cursor and the stored one, and up to the one in memory, has been handled |
| `CursorProtocol.FirstLoadOf` | coreevents/poller.go:47-48 | every run splits at its first load, so the claims about what follows a first load hold of every run |
| `CursorProtocol.LoadInSecure` | coreevents/poller.go:125-148 | in a process that has been secure so far, a load loses something if and only if it cannot read the row, can read the head, and the newest event lies above the first cursor and was never handled; otherwise the process stays secure |
| `CursorProtocol.UnreadableRowLosesAnEvent` | coreevents/poller.go:141-146 | a concrete run in which one unreadable row makes the loop skip an event that was never handled |
| `CursorProtocol.LostFirstSaveLosesAnEvent` | coreevents/poller.go:143-145 | a concrete run in which the save of a fresh cursor is lost and an event is skipped although every load can read what there is |
| `CursorProtocol.ExactlyOnce` | coreevents/poller.go:73-123 | without crashes, lost saves and unreadable rows, after a first load that found a row at or below the head or could read the head, what was handled is exactly the slice of the log after the first cursor, in order, once each |
| `CursorProtocol.NoLostSaveIff` | coreevents/poller.go:168-170 | no save of a run was lost if and only if the count of failed writes, which the code's loops keep, is 0 |
| `Replays.ReplayBound` | coreevents/poller.go:85-148 | if saves succeed and every load that can read neither row nor head happens while no handled event lies past entry 1000 of the log, at every crash point what was handled lies at or below the stored cursor or within the 500 events after it, within one on the stream, and within none between the two |
| `Replays.BlindLoadIff` | coreevents/poller.go:125-148 | a load that can read neither keeps that bound in every continuation if and only if no handled event lies past entry 1000 of the log |
| `Replays.BlindLoadBreaksTheBound` | coreevents/poller.go:147 | a concrete run: 1001 events drained and stored, a restart that can read nothing, and one page leave the stored cursor at entry 500 |
| `Replays.PageRun` | coreevents/poller.go:104-123 | the poll, the events and the save of one page store the cursor exactly behind the page |
| `Poller.Poller.HeadVersion` | coreevents/poller.go:150-166 | paging from 0 ends, and answers the newest version the log holds when the last page arrives, whatever the log's length; it fails if and only if a poll failed |
| `Poller.Poller.LoadCursor` | coreevents/poller.go:125-148 | which cursor is loaded and which row is left, for each combination of a readable row, a readable head, a cursor past the head and a lost save, with any 64-bit value through int64; the row counts as unreadable, the head as unknown and a save as lost only if that query, poll or write failed |
| `Poller.Poller.SaveCursor` | coreevents/poller.go:168-170 | the row is the cursor as a signed 64-bit integer, or unchanged if the write failed, and failed writes are counted |
| `Poller.Poller.HandlePage` | coreevents/poller.go:112-115 | the events of a page are handled one by one, each a step of the machine, and the cursor ends at the last of them |
| `Poller.Poller.TakePage` | coreevents/poller.go:112-122 | a page is handled whole and then stored: unless a write failed the row is its last version, an empty page leaves the row alone, and a short one ends the drain |
| `Poller.Poller.Drain` | coreevents/poller.go:102-123 | ends, and handles exactly the suffix of the log after the cursor, including at exact multiples of the page size and while the log grows; unless a write failed the row follows the cursor |
| `Poller.Poller.TakeEvent` | coreevents/poller.go:96-98 | a stream event is handled before it becomes the cursor and is stored, and unless the write failed the row is its version |
| `Poller.Poller.Listen` | coreevents/poller.go:85-99 | the open stream handles exactly the events between the cursor it started at and the one up to which the core has delivered, however often the core replays, ends only by breaking, and unless a write failed leaves the row at that cursor |
| `Poller.Poller.Stream` | coreevents/poller.go:73-100 | the core is asked for the stream exactly once; an open stream is followed until it breaks; a core without the call is reported as legacy, and one that refuses as a failure, and nothing is handled |
| `Poller.Poller.Resume` | coreevents/poller.go:48-49 | a process that finds no readable row handles no event that was in the log before it came, and one that finds a cursor at or below the head goes on exactly after it |
| `Poller.Poller.TickOn` | coreevents/poller.go:56-60 | each tick of a turn without a stream drains the log to its end |
| `Poller.Poller.Turn` | coreevents/poller.go:47-66 | one turn: one load, one drain, one request for the stream, which is over at the end, and the ticks if there is no stream |
| `Poller.Poller.Start` | coreevents/poller.go:39-67 | for any number of turns, whatever the core does: each turn loads once, drains once to the end of the log and asks for the stream once, which is over when the turn ends; a turn without a stream drains once more on every tick; every event of the log at the start above the cursor the first turn took up at has been handled; and all of it is a run of the state machine, so its theorems hold of the code |
| `Poller.PageAdvancesFrom` | coreevents/poller.go:102-123 | one page extends the handled slice by exactly that page, and a page shorter than the limit reaches the end of the log |
| `Poller.EventAdvances` | coreevents/poller.go:93-98 | the next stream event extends the handled slice by exactly that event |
| `Publisher.Publisher.RegisterLocked` | crosspresence/publisher.go:93-108 | a session is held afterwards only as the online entry asks, for the account behind the PID, and is listed in the core; without errors it is held exactly if there is an account |
| `Publisher.Publisher.Register` | crosspresence/publisher.go:98-107 | the registration is recorded exactly when it succeeded, for the account that was looked up |
| `Publisher.Publisher.ExpireLocked` | crosspresence/publisher.go:110-119 | the record is gone, the core was asked to end its session and no other, and its session is accounted for as expired, whether or not the call worked |
| `Publisher.Publisher.Expire` | crosspresence/publisher.go:86-91 | after a disconnect nothing is held for the PID and its session was handed to ExpireSession |
| `Publisher.Publisher.ReconcileOne` | crosspresence/publisher.go:63-78 | one turn of the pass touches only that PID: an unchanged record is heartbeated and, unless the heartbeat fails, kept with nothing else done; a changed one is handed to ExpireSession; unless its own lookup or registration fails, what is then held is for the account behind the PID |
| `Publisher.Publisher.Reconcile` | crosspresence/publisher.go:55-84 | whatever fails, after a pass the online entries are settled or not held, everyone else's session is expired, and sessions given up before are not touched; an unchanged record keeps its session, renewed in the pass, unless a heartbeat of that session failed, no other session is heartbeated in vain or handed to ExpireSession, and a pass over unchanged entries whose heartbeats are answered registers nothing; everybody whose own lookup or registration did not fail is held for their account or has none, and with none of them failing the pass converges whenever no unchanged record is outdated |
| `Publisher.PassCalls` | crosspresence/publisher.go:63-83 | the calls of a pass: which sessions lose a heartbeat, which are handed to ExpireSession, and when nothing is registered, told from the state before it |
| `Publisher.Publisher.HeldForALease` | crosspresence/publisher.go:14-16 | after a pass every session held is listed in the core under a lease of 45 seconds that began in the pass |
| `Publisher.Publisher.Beat` | crosspresence/publisher.go:67-72 | an answered heartbeat renews the lease and changes nothing else, a failed one deletes the record |
| `Publisher.Publisher.ExpireUnseen` | crosspresence/publisher.go:79-83 | the second loop ends exactly the sessions of those who are not online any more |
| `Publisher.Publisher.Run` | crosspresence/publisher.go:55-119 | over any run of passes, disconnects, relinked accounts and losses in the core, a session given up stays given up and is never renewed again, and one whose registration was answered with an error is never renewed |
| `Publisher.Publisher.GhostBound` | crosspresence/publisher.go:14-19 | a session no longer held lapses in the core within one lease of being given up, even if every ExpireSession fails, and one whose registration was answered with an error within one lease of being registered |
| `Publisher.Conservation` | crosspresence/publisher.go:56-119 | sessions known = held + expired + dropped, each counted once, and no two people share one |
| `Publisher.Publisher.Conserved` | crosspresence/publisher.go:56-119 | at every point of every run, whatever failed, the sessions the core has returned number the ones held plus the ones it was asked to end plus the ones a heartbeat of which failed |
| `Publisher.Convergence` | crosspresence/publisher.go:55-84 | after one pass over distinct PIDs without failed lookups or registrations, from any earlier state, exactly the people with an account are held, for that account, if and only if no unchanged record whose heartbeat was answered has lost or changed its account; whatever is held is as connected now and listed under a lease from this pass |
| `Publisher.ConvergenceBefore` | crosspresence/publisher.go:55-84 | told before the pass: it converges if no unchanged record names another account than the one behind its PID, and, when every heartbeat is answered, only then |
| `Publisher.OutdatedRecordStays` | crosspresence/publisher.go:66-69 | in every pass such a record is renewed without a lookup, and the pass has not converged, unless its heartbeat goes unanswered |
| `Publisher.OutdatedPass` | crosspresence/publisher.go:66-69 | such a pass: a PID that is not linked any more stays published |
| `Publisher.PassStaysGone` | crosspresence/publisher.go:56-84 | a pass leaves every session given up before it with its fate and its last renewal |
| `Labels.Description` | crosspresence/labels.go:63-84 | the line is never empty and at most 60 characters, so that "" can mean offline |
| `Labels.DescriptionSays` | crosspresence/labels.go:63-84 | without a title the line is "Online on" the place, with a known name "Playing" it on the place, else "Playing a game on" the place, in each case its first 60 characters |
| `Labels.ExampleLines` | crosspresence/labels.go:63-64 | the three lines the source gives as examples |
| `Labels.WhoDecides` | crosspresence/labels.go:37-56 | a client that is not blank decides the place alone, a blank one leaves the namespace to decide as a client of that name would unless it names an emulator, and the place is "another console" if and only if both are blank |
| `Labels.PlaceIgnoresBlanks` | crosspresence/labels.go:37-48 | blanks around the client or the namespace make no difference |
| `Labels.PlaceIgnoresCase` | crosspresence/labels.go:37-48 | nor does their case |
| `Labels.KnownEmulators` | crosspresence/labels.go:25-41 | the label of every known emulator, whatever the namespace |
| `Labels.KnownPlatforms` | crosspresence/labels.go:19-51 | the label of every known platform, reported by the client or, without one, by the namespace |
| `Labels.UnknownIsCapitalized` | crosspresence/labels.go:45-55 | any other word is shown without blanks, a capital in front and small letters after it |
| `Notifier.Diff` | crossnotify/crossnotify.go:28-44 | the changes list the patch from prev to now exactly: each friend at most once, with the right line |
| `Notifier.DiffApplies` | crossnotify/crossnotify.go:28-44 | applied in any order, the changes turn prev into now, except for friends that left and are connected here |
| `Notifier.DiffMinimal` | crossnotify/crossnotify.go:28-44 | any changes that turn prev into now mention every friend these mention |
| `Notifier.DiffSame` | crossnotify/crossnotify.go:28-44 | nothing is sent if and only if nothing changed but friends who connected here |
| `Notifier.ForeignFor` | crosspresence/glue.go:86-108 | each line is true of the core; if no call failed, no more friends who are live elsewhere are missing than there are friends beyond the 200 the core is asked about; if one failed the answer is empty |
| `Notifier.WholeTruth` | crosspresence/foreign.go:24-26 | with nobody beyond the 200, the answer is the whole truth |
| `Notifier.ForeignAccounts` | crosspresence/foreign.go:17-41 | exactly those of the first 200 accounts that are live on another platform, and nobody when the call fails |
| `Notifier.Notifier.ForeignFriends` | crosspresence/glue.go:71-87 | the same for a viewer's friends, and nothing when the friend list cannot be had |
| `Notifier.Notifier.Tick` | crossnotify/crossnotify.go:46-90 | every connected viewer is told exactly the patch from what they were sent last to the core's answer, which is missing for as many viewers as calls failed and for everyone else lacks nobody but friends beyond the cap; viewers who left are forgotten |
| `Notifier.TickIsAStep` | crossnotify/crossnotify.go:70-83 | what a tick does to a viewer is a tick of the viewer's run, so the claims about runs hold of it |
| `Notifier.MissedIsExact` | crossnotify/crossnotify.go:28-90 | at every point of every run of connects, disconnects, fetched lists and ticks, the friends shown wrong are exactly those whose line the console missed and has not been sent anew |
| `Notifier.TickInStepIff` | crossnotify/crossnotify.go:46-90 | over any run, a tick leaves the console showing the core's answer if and only if that answer differs from what was sent before for every friend whose line the console missed |
| `Notifier.NotifierKeepsUp` | crossnotify/crossnotify.go:46-90 | over any run, sign-in included, in which no friend both connects and disconnects between two ticks and whoever a fetched list showed otherwise than sent has another line at the next tick, after every tick the console shows the core's answer for every friend not connected here |
| `Notifier.MissedStays` | crossnotify/crossnotify.go:33-37 | a friend who is shown wrong stays so for as many ticks as the answer stays the same |
| `Notifier.BlinkIsMissed` | crossnotify/crossnotify.go:33-37 | a friend who connects and leaves between two ticks is shown offline at that tick and at every later one with the same line |
| `Notifier.GoneBeforeFirstTick` | crossnotify/crossnotify.go:38-42 | a friend shown live on the list fetched at sign-in who is gone by the first tick is shown live from then on |
| `MiiCipher.Increment` | utility/decrypt_mii.go:24-30 | the in-place increment of CTR mode is the big-endian increment of the whole block |
| `MiiCipher.XorKeyStream` | utility/decrypt_mii.go:24-30 | byte p of the output is the input byte XORed with byte p mod 16 of the cipher of the counter after p / 16 steps |
| `MiiCipher.XorBit` | utility/decrypt_mii.go:29-30 | each of the eight bits of the exclusive or is set if and only if exactly one of the two has it |
| `MiiCipher.BitsDecide` | utility/decrypt_mii.go:29-30 | a byte is decided by its eight bits |
| `MiiCipher.XorLaws` | utility/decrypt_mii.go:29-30 | a second time undoes it, zero does nothing, a byte clears itself, and the order is free |
| `MiiCipher.CounterBlockIs` | utility/decrypt_mii.go:19-23 | A_i for a 12-byte nonce is the byte 2, the nonce and i in three bytes |
| `MiiCipher.CounterRunsThrough` | utility/decrypt_mii.go:19-24 | below 2^(8L) blocks the 16-byte counter is A_0, A_1, ... of section 2.3 of RFC 3610 |
| `MiiCipher.CounterLeavesNonce` | utility/decrypt_mii.go:19-24 | the next step carries into the nonce or the flags |
| `MiiCipher.StreamKeepsNonceIff` | utility/decrypt_mii.go:19-24 | the first n counter blocks keep flags and nonce if and only if n is at most 2^(8L) |
| `MiiCipher.CcmDecrypt` | utility/decrypt_mii.go:13-33 | for every nonce that fits and every ciphertext that needs no more than 2^(8L) counter blocks, the result is the CCM decryption with S_0 skipped; a key of another length is an error |
| `MiiCipher.DecryptMiiData` | utility/decrypt_mii.go:35-57 | data shorter than 0x70 bytes and a key that is not 16, 24 or 32 bytes of hex are errors; otherwise the opened Mii of the first 0x60 bytes |
| `MiiCipher.MiiLayout` | utility/decrypt_mii.go:39-54 | the opened Mii byte by byte: 96 of them, the nonce at offset 12, and which input byte and which byte of the key stream make each other one, the cipher being applied to 2, the nonce, four zeros and the block number in three bytes |
| `MiiCipher.OpenSealed` | utility/decrypt_mii.go:35-57 | opening a sealed 96-byte Mii gives back that Mii, the nonce at offset 12 |
| `MiiCipher.SealOpened` | utility/decrypt_mii.go:35-57 | sealing an opened Mii gives back the encrypted data |
| `ConfigNames.ToEnvVarName` | globals/config_parser.go:104-133 | the loop prints exactly the specified name, underscores at the cuts |
| `ConfigNames.ToPascalCase` | globals/config_parser.go:63-74 | the loop joins the capitalised words of the lower-cased, split string |
| `ConfigNames.RoundTripIff` | globals/config_parser.go:63-133 | for every ASCII name: it is read back if and only if it has no underscore and every printed piece is all capitals (an initialism, or one and an S), an initialism with a small s (where that plural is allowed), or a word with no capital after its first letter |
| `ConfigNames.PieceIff` | globals/config_parser.go:76-102 | for every string: capitalising its lower case gives it back if and only if it looks like that |
| `ConfigNames.NamesRoundTrip` | globals/config_parser.go:63-133 | every name made of capitalised words, initialisms and allowed plurals, an initialism followed only by a word that is not a capital and an s, is read back |
| `ConfigNames.ChunksAreTokens` | globals/config_parser.go:104-133 | the printer puts its underscores exactly between the tokens of such a name |
| `ConfigNames.TokenReadsBack` | globals/config_parser.go:76-102 | each such token alone is read back as it was |
| `ConfigNames.AdjacentInitialisms` | globals/config_parser.go:104-133 | two initialisms in a row that the parser does not know as one are never read back, wherever they stand in a name |
| `ConfigNames.ApiKeysAreMisread` | globals/config.go:6-13 | two fields of the configuration, GRPCAPIKey and AccountGRPCAPIKey, are such names |
| `CoreGraph.MutualAdd` | coregraph/coregraph.go:295-333 | two requests toward each other, interleaved call by call in any way, end in a friendship, one answering complete and the other incomplete, and no other relation moves |
| `CoreGraph.PairTurnInv` | coregraph/coregraph.go:297-333 | every core call of the two keeps who waits for whom in step with the graph |
| `FriendSync.TurnsAreAsk` | coregraph/coregraph.go:297-333 | a request that is not interleaved is those two calls, and answers complete if and only if the two are friends afterwards |
| `FriendSync.Social.Request` | coregraph/coregraph.go:295-333 | under any failures the graph is unchanged or as requested, a lookup without an answer changes nothing, and complete is answered if and only if the two are friends now |
| `FriendSync.Social.AcceptRequest` | coregraph/coregraph.go:335-349 | succeeds exactly on a pending request from the other side, which it turns into a friendship |
| `FriendSync.Social.Remove` | coregraph/coregraph.go:351-363 | succeeds exactly where there is a relation, which it ends |
| `FriendSync.Social.PIDsRelated` | coregraph/coregraph.go:210-225 | FriendPIDs, and OutgoingAddresseePIDs likewise: no repeats, only accounts in that relation, and every one of them with a PID unless its own lookup failed |
| `FriendSync.GetUserFriends` | database/3ds/get_user_friends.go:13-50 | friends and outgoing requests, each once and of the right kind; an empty list is an error of its own, also for an unknown user |
| `FriendSync.SaveFriendship` | database/3ds/save_friendship.go:12-38 | the record tells how the two stand after the request, and an unknown recipient is a record, not an error |
| `FriendSync.IsPIDInRelationships` | nex/friends-3ds/sync_friend.go:86-94 | found if and only if some record's PID truncates to it |
| `FriendSync.DropUnlisted` | nex/friends-3ds/sync_friend.go:31-48 | ends exactly the relations shown and not listed, or some of them when a removal fails, which is when it fails |
| `FriendSync.AskListed` | nex/friends-3ds/sync_friend.go:53-69 | requests each listed PID that is not on the list yet, once, however often it is repeated, and fails exactly when a request does |
| `FriendSync.SyncFriend` | nex/friends-3ds/sync_friend.go:16-84 | under any failures only unlisted relations of the user end, only listed PIDs are requested, each at most once, and nobody else's relations move; it succeeds if and only if the list could be read and was not empty and no removal or request failed, and then everybody on the list who is not listed has been removed, everybody listed who was not on it has been requested, and the reply is the list and the requested; only people whose own lookup failed are not on the list; without failures it succeeds if and only if the user has a relation and does not list themselves, and then every relation to a known PID is synced, unlisted incoming requests and accounts without a PID unchanged, and the reply tells each of them |
| `FriendSync.SyncMeetsListIff` | nex/friends-3ds/sync_friend.go:31-69 | the relations shown afterwards are exactly the listed known PIDs if and only if no current one is listed only by a number wider than 32 bits |
| `FriendSync.SyncOfNarrowList` | nex/friends-3ds/sync_friend.go:31-69 | for a list of 32-bit PIDs they are, and syncing again changes nothing |
| `FriendSync.BothSync` | nex/friends-3ds/sync_friend.go:31-69 | two people whose lists name each other are friends once both have synced, whatever they were before |
| `FriendSync.WidePidLosesAFriend` | nex/friends-3ds/sync_friend.go:34-61 | the function given a number wider than 32 bits removes a friend its truncation names |
| `ResolutionCache.Cache.Begin` | coregraph/coregraph.go:100-112 | a lookup answers from the cache exactly while the last answer stored under its key lasts |
| `ResolutionCache.Cache.Finish` | coregraph/coregraph.go:117-132 | the resolver's answer is stored and given, an error changes nothing, and every answer ever given stays backed by one the resolver gave |
| `ResolutionCache.ServedIsOwn` | coregraph/coregraph.go:96-132 | over any interleaving, an answer a lookup gave was given by the resolver for that very pair less than 5 minutes before if found, less than 30 seconds before if not, unless another pair with the same key was asked about |
| `ResolutionCache.CachedIsBacked` | coregraph/coregraph.go:96-132 | a cached answer was given by the resolver under its key within that time |
| `ResolutionCache.CachedUntil` | coregraph/coregraph.go:96-132 | an answer lasts exactly 5 minutes if something was found and 30 seconds if not |
| `ResolutionCache.OwnAnswer` | coregraph/coregraph.go:100-112 | unless another pair with the same key has been asked about, a pair gets its own last answer |
| `ResolutionCache.LegalIsAlone` | coregraph/coregraph.go:100-156 | which no PIDs, and no accounts in namespaces free of the separator, can do to each other |
| `ResolutionCache.PidKeyInjective` | coregraph/coregraph.go:100 | no two (namespace, PID) pairs share a key, whatever the namespaces |
| `ResolutionCache.KeyInjective` | coregraph/coregraph.go:100-156 | no two pairs share a key as long as the namespaces, or else the subjects, are free of the separator |
| `ResolutionCache.KeySharedIff` | coregraph/coregraph.go:100-156 | a pair shares its key with some other pair if and only if there is a separator in its namespace or its subject |
| `ResolutionCache.MixedUpIff` | coregraph/coregraph.go:152-164 | a pair can be given the answer for another one if and only if the same holds |
| `ResolutionCache.AccountKeysCollide` | coregraph/coregraph.go:156 | the two account pairs that a separator in the namespace makes share a key |
| `ResolutionCache.SharedKeyMixesUp` | coregraph/coregraph.go:152-164 | where two pairs share a key, one is given the answer for the other |
| `TitleNames.Titles.Name` | crosspresence/labels.go:110-142 | the name is that of the last successful fetch, and a fetch is started exactly when none is outstanding and the last answer has run out |
| `TitleNames.Titles.Land` | crosspresence/labels.go:132-139 | a fetch that lands is no longer outstanding, brings its name if it succeeded, and leaves every name as it was if it failed |
| `TitleNames.DueIff` | crosspresence/labels.go:125-129 | a fetch is due if and only if none is outstanding and the last answer is over ten minutes old, or over six hours if there is a name, or there was none |
| `TitleNames.KeysOf` | crosspresence/labels.go:114 | in namespaces without a slash, two titles share a key if and only if namespace and title are the same but for case |
| `TitleNames.SingleFlight` | crosspresence/labels.go:130-139 | in every run at most one fetch of a key is outstanding |
| `TitleNames.NameIsLastSuccess` | crosspresence/labels.go:135-141 | the name is that of the last landing that brought one, with only failures after it, and empty if and only if there was none or it was empty |
| `TitleNames.StartsSpaced` | crosspresence/labels.go:126-131 | a fetch starts more than 10 minutes after the one before it |
| `TitleNames.RateBound` | crosspresence/labels.go:102-142 | k fetches of one key within a window W satisfy (k - 1) * 10 minutes < W |
| `OnlineIndex.Index.MarkAccountOnline` | globals/connected_accounts.go:19-35 | a mark that lands, however late, is the PID's last change; a failed or empty lookup changes nothing |
| `OnlineIndex.Index.MarkAccountOffline` | globals/connected_accounts.go:37-46 | afterwards the PID is in neither lookup, but for an account it had moved away from while connected |
| `OnlineIndex.Index.OnlinePIDsOfAccount` | globals/connected_accounts.go:48-60 | exactly the PIDs whose last change marked them with the account, each once, also when a PID's account changed |
| `OnlineIndex.Index.OnlinePIDOfAccount` | globals/connected_accounts.go:62-68 | no answer if and only if the account was never marked or the console that marked it last has left as it; otherwise that console, which is online with the account if and only if it was not marked with another one afterwards |
| `OnlineIndex.NewestNoneIff` | globals/connected_accounts.go:30-46 | over any history: when there is an answer and when there is none, and that the answer is the console of the last mark |
| `OnlineIndex.OnlineMissedIff` | globals/connected_accounts.go:37-46 | an account that is online on some console is missed if and only if the console that marked it last has left as it |
| `OnlineIndex.NewestIff` | globals/connected_accounts.go:30-46 | over any history, the PID answered is online with the account if and only if that is what it was last marked with |
| `OnlineIndex.MovedPidIsStale` | globals/connected_accounts.go:30-46 | a PID that moved to another account is still the answer for the one it left, even after it is gone |
| `OnlineIndex.NewestIsConnected` | globals/connected_accounts.go:62-68 | while no PID changes its account, that PID is one of OnlinePIDsOfAccount |
| `OnlineIndex.MarkKeepsSoundIff` | globals/connected_accounts.go:30-33 | a mark keeps the two maps in agreement if and only if it does not move a PID away from an account that still names it |
| `OnlineIndex.NewestForgetsTheOther` | globals/connected_accounts.go:37-46 | of two consoles on one account, the account is lost when the later one leaves |
| `Erase.Eraser.Erase` | erase/erase.go:49-85 | all or nothing: it fails if and only if the PID lookup or a call of the database failed, an error leaves every row unless it is the lost answer to the commit, and then the erasure is complete or has not happened; on success every row of the PIDs is gone, every other row is there, and the count is the rows removed |
| `Erase.StatementsCoverSchema` | erase/erase.go:37-47 | each table that holds people has exactly one statement, which looks at every column that names somebody |
| `Erase.LeftExactly` | erase/erase.go:34-47 | a statement removes every row that mentions a PID on either side and keeps every other one as often as it was there |
| `Erase.NobodyLeft` | erase/erase.go:34-47 | after an erasure a row is there if and only if it was there and none of the columns of its table that name people names one of the PIDs |
| `Erase.PurgedAgain` | erase/erase.go:1-5 | erasing again changes nothing, so a repeat counts 0 |
| `Erase.PIDsOfAccount` | coregraph/coregraph.go:466-505 | every non-zero Wii U and 3DS PID linked or resolved, each once; unknown if and only if one of the three lookups failed |

## Left out

- NEX and PRUDP packets, gRPC servers and the HTTP handlers: input and output over libraries that are not part of this model.
- AES and the tag of CCM: the block cipher is any function from blocks to blocks, and the code never checks the tag.
- The core, nn-account and Postgres: only the abstract state and the operations the code calls. The friend graph's rules are those the comments of coregraph/coregraph.go state; blocks are not in it.
- The profile cache, the Wii U friend_requests table and the debug friend.
- What `handle` does with an event: an event counts as handled when it is called.
- Other writers of the cursor row, and two pollers at once.
- TitleIDOf, ThreeDSPresence and WiiUPresence: single expressions.
- ParseFromEnv: reflection and environment access. Names, labels and titles are ASCII text.
- Notifier.Notifier.Tick: connects and disconnects do not fall inside a tick, though the code holds only its own lock; over runs they fall between ticks.
- Replays.ReplayBound: is about runs in which saves succeed; a lost save leaves the stored cursor behind by as much as was handled since.
- Publisher.Conservation: assumes that the core gives every registration a new session id, as the stand-in of the code's own tests does. If the core hands the id of an existing session out again, two people of one account, namespace and title could hold the same session.
- Publisher.Publisher.Conserved: assumes the same.
- Publisher.Publisher.Run: assumes the same; with ids handed out again, a session dropped after a lost heartbeat answer could be held again.
- Publisher.Convergence: accounts are linked and unlinked between passes, not during one.
- Publisher.Publisher.GhostBound: a heartbeat that reaches the core after its call has given up is not modelled; it would start the lease again at that later moment.
- Notifier.ForeignAccounts: assumes that the core answers with at most one presence an account. With several, the code keeps the last one of another platform.
- Poller.Poller.Start: takes the number of turns and of legacy ticks as arguments, because the loop never ends; failed polls, stream messages and events still to come are arbitrary but finite.
- MiiCipher.CcmDecrypt: nonces of at most 15 bytes; on longer ones the code panics.
- MiiCipher.XorKeyStream: writes block by block, while Go's implementation buffers several blocks of the same stream.
- FriendSync.SyncFriend: assumes that the PIDs and accounts of the 3DS namespace belong to each other one to one. Which PID belongs to which account does not change during a sync, nobody else changes the graph meanwhile, and the notification sent to a requested friend is not modelled.
- FriendSync.Social.PIDsRelated: one method for FriendPIDs and OutgoingAddresseePIDs, whose loops are the same.
- ResolutionCache.Cache.Begin: the clock does not run backwards. That an answer is the pair's own needs namespaces without the separator for accounts (`ResolutionCache.LegalIsAlone`), as the two the code uses are.
- CoreGraph.RequestFriend: that the core refuses a request to oneself is an assumption; coregraph does not say it, and "does not list themselves" in FriendSync.SyncFriend rests on it.
- Erase.Eraser.Erase: ending the live sessions first and the log line are not modelled; an error from a commit whose answer was lost may come after a complete erasure.
- Erase.PIDsOfAccount: takes each link's subject as the number it reads as, if it does.
