# A Dafny model of wkWebControl's control and state protocol

wkWebControl lets players steer worms of a running game from a browser. Three parties take part: the
browser sessions, a backend (Python), and a DLL inside the game (C++) with an IPC thread and the game
thread. Commands travel browser → backend → DLL over one TCP connection; game snapshots travel back
over the same connection. This project models that protocol, the store of team claims beside it, and
two algorithms of the DLL (the task-tree search and the signature scanner), and proves what the system
keeps over every run.

`dafny verify dfyconfig.toml` checks everything.

## How it is built

The code that changes state step by step is imperative Dafny: classes with the source's fields, loops
with the source's loops, each method proved against a function of its inputs or of the old state. The
laws are then lemmas about those functions. The properties that span threads and processes are proved
of transition systems, in which a run is any sequence of steps; a step is as small as the source's
locks and calls make it.

| file | what it models |
|---|---|
| `Json.dfy`, `JsonScan.dfy` | JSON text (sections 3 to 7 of RFC 8259) for the values exchanged; writer, reader, round trip, and that accepted text is balanced |
| `Protocol.dfy` | names, command lines, snapshot lines, with both ends of each |
| `Framing.dfy` | splitting a byte stream into lines |
| `StateReader.dfy`, `PushSender.dfy`, `PushStream.dfy` | the snapshot stream: reader, sender, and the two together with drops and reconnects |
| `CommandLink.dfy` | the command stream, byte by byte, with sends that break off |
| `ControlState.dfy`, `GameThread.dfy`, `ControlHooks.dfy` | the held-input register; the game thread over runs; its code: message hook, frame and teardown |
| `ControlSession.dfy`, `ControlPlane.dfy`, `ControlHistory.dfy`, `ControlStream.dfy` | a browser session; the whole control path as one transition system; its laws; its commands as a byte stream |
| `Store.dfy`, `Broadcaster.dfy`, `Claims.dfy` | the claim table, new-game detection, and concurrent claim requests |
| `TaskTree.dfy` | building the snapshot, finding the turn's worm, writing its weapon |
| `PatternScanner.dfy`, `OffsetCache.dfy` | signature scan, its memo and its file |

A byte of a stream is a Dafny `char`; everything either program writes is ASCII. Connections, sessions
and requests have unique numbers. What the network, the clock, the client and the game do is
nondeterministic: parameters of the steps, or `ok := *`.

## Where the code is not what its comments say

The model follows the code. These differences matter to the results.

- The DLL never looks at a command's `team` (`dll/src/IpcServer.cpp:41-60`), although `README.md:33-34`
  says it enforces the turn. Turns are gated in the backend only (`Protocol.TeamMakesNoDifference`).
- The held-input register is cleared only when a game is torn down (`dll/src/ControlHooks.cpp:310-313`),
  not on a turn change or a client's disconnect as `dll/src/ControlState.h:56-58` suggests. So an automatic
  release that is swallowed (`backend/app/main.py:237-238`) or lost can leave its flag set, with no session
  left to clear it: `ControlHistory.SwallowedReleaseSticks` is such a run. A loss does not always do that (the
  press may be lost as well, or a later edge get through); `ControlHistory.NoStuckInput` says exactly when the
  flag of an action nobody holds is set.
- A `sendall` that times out inside its line leaves the connection open with a torn line, and the next
  command sent whole is read as part of that line and dropped, although `send_command` returned
  (`CommandLink.TornSendLosesNext`). `CommandLink.StreamDecodes` and `CommandLink.HeardIsSent` say exactly
  which commands are applied.
- A malformed last line of a received chunk hides the good lines before it
  (`backend/app/ipc.py:204-213`). `StateReader.SkipStaleRefinesNaive` gives the exact condition under which
  skipping stale lines is harmless; the sender meets it (`PushStream.LatestWasPushed`).
- A claim request that read game 1's snapshot can insert after game 2 was detected
  (`Claims.OvertakenClaim`): `store.claim` does not know which game a request saw.
- A cache file written for another build of the game is believed: `OffsetCache.StaleFileMisleads`, and
  `OffsetCache.AfterLoading` for exactly when a lookup is right.
- `get_state` does not clear claims, whatever `backend/app/main.py:146-147` says; only the broadcaster does.
- Automatic release at the end of a session happens for a client's disconnect only
  (`backend/app/main.py:292-294`).
- A fire press and release between two frames makes no message at all; `sendInput` also drops a message
  when there is no turn-game task. The laws about fire are about sendInput's requests.

## Model

| member | source | states |
|---|---|---|
| ControlHistory.NoStuckInput | backend/app/main.py:223-294 | for any number of sessions and any interleaving of messages, turn and claim changes, disconnects, link failures, frames and teardowns: the flag of a level action that no session holds, once all commands in flight are applied, is set if and only if some step lost a release of it leaving it set (dead connection, torn line, swallowed exception) and no later step freed it (an edge of it got through, its press was lost too, or a game ended with no press on its way); and such a loss means a set flag even while a session holds the action |
| ControlHistory.StuckIsHistory | backend/app/main.py:227-239 | at every moment of a run, the actions recorded as stuck are exactly those with such a step behind them |
| ControlHistory.SwallowedReleaseSticks | dll/src/ControlState.h:56-58 | for every user, a run of thirteen steps after which no session is left, the link is up and the stream empty, and move-left is still set; the same run with the press lost as well ends with nothing set |
| ControlHistory.AllReleased | dll/src/ControlHooks.cpp:278-284 | from any reachable state with a sound link, along any run on which the link loses nothing: when all sessions are gone and the stream is drained, all five flags are off, and after one more active frame as many ReleaseWeapon inputs of the game have been requested of sendInput as FireWeapon ones |
| ControlHistory.Drained | dll/src/ControlHooks.cpp:278-284 | the same of any state with the invariant |
| ControlHistory.LinkStaysSound | backend/app/ipc.py:232-240 | steps on which nothing is lost keep the link up, whole and with nothing stuck |
| ControlHistory.AuthorisedHistory | backend/app/main.py:242-277 | every command forwarded in any run is the action, phase and value of a message received by that session at one step, when the snapshot of that moment showed the team's turn; a later step looked the team up and the store of that moment mapped it to the session's email; and a still later step sent it, no session having done anything in between; every automatic release is of an action whose last command from that session was such a forwarded press, for the team of its last forwarded level command |
| ControlHistory.ForwardedServed | backend/app/main.py:198-206 | the same for the history at any moment of a run, naming the three steps |
| ControlHistory.AlwaysServing | backend/app/main.py:259-277 | at every moment a session that is looking up or sending does so for a message it was just given, and nothing happened to any session since |
| ControlHistory.HeldIsHistory | backend/app/main.py:279-285 | a waiting session holds exactly the level actions whose last command, swallowed releases included, was a forwarded press, and holding anything implies a held team |
| ControlHistory.HeldTeamIsHistory | backend/app/main.py:225-225 | a session's held team is that of the last level command forwarded for it, and None if there was none |
| ControlHistory.PressedLastMeaning | backend/app/main.py:279-285 | the recursive reading of the log used by the invariant is "the latest entry of this session and action is a forwarded press" |
| ControlStream.AppliedWasSent | dll/src/IpcServer.cpp:118-143 | over every run, the edges the game has applied and those in flight are edges of logged commands, each once and in order, with the values as sent; and they are all of those whose send_command returned if nothing in flight is lost and no send breaks off inside its line |
| ControlStream.DeliverDecodes | dll/src/IpcServer.cpp:41-60 | delivering a command does to the register what the game makes of its text: its action and phase, and its value narrowed to 32 bits when that is defined |
| ControlStream.RegisterIsHistory | dll/src/ControlState.cpp:3-34 | over every run of the whole system the register is the history of the commands as the game decodes them, the reads of active frames and the clears of teardowns |
| ControlStream.EdgesAreApplied | dll/src/IpcServer.cpp:56-59 | the edges of that history are the applied ones of AppliedWasSent, one by one, values narrowed |
| ControlHistory.FrameIsGameThread | dll/src/ControlHooks.cpp:261-318 | the control path's frames and teardowns act on register, fire level and fire requests as the game thread's full message hook does, whose other messages leave these alone |
| ControlStream.RunIsConnection | backend/app/ipc.py:232-240 | over every run the link's torn flag says whether the attempts on the open connection left it inside a line, and, while nothing is lost, what the game got and what is in flight is what was left over plus the commands heard of those attempts |
| ControlStream.StreamOfRun | dll/src/IpcServer.cpp:118-143 | so on a connection with nothing left over and nothing lost, the bytes written by the run, cut into lines and decoded, are the commands applied and those in flight, in order |
| ControlPlane.StepKeepsInv | backend/app/main.py:223-294 | every step keeps the invariant: sessions match the log, at most one handler is busy, a set flag is held or stuck and a stuck action's flag is set, fire requests alternate |
| ControlPlane.SendStep | backend/app/main.py:271-285 | forwarding a command, whole, torn or refused, keeps it |
| ControlPlane.ReleaseStep | backend/app/main.py:227-239 | one automatic release, sent or swallowed, keeps it |
| ControlPlane.MessageStep | backend/app/main.py:242-267 | receiving a message and reading the turn keeps it, also when the answer is to release everything |
| ControlPlane.LookupStep | backend/app/main.py:205-206 | looking up the owner keeps it, whatever claims changed since the snapshot was read |
| ControlPlane.EndStep | backend/app/main.py:292-294 | a disconnect and the end of a release loop keep it |
| ControlPlane.LinkStep | backend/app/ipc.py:174-185 | connecting, dropping, losing commands in flight and delivering one keep it |
| ControlPlane.GameStep | dll/src/ControlHooks.cpp:261-318 | a frame and a teardown keep it |
| ControlPlane.FlagMeaning | dll/src/ControlState.cpp:3-11 | a flag after the whole queue is the phase of the last queued edge of its action, or the present flag if there is none |
| ControlSession.ControlSession.ReleaseHeld | backend/app/main.py:227-239 | tries exactly one release, for the held team, of each held action in any order and whatever fails, then holds nothing; does nothing when no team was ever controlled |
| ControlSession.ControlSession.OnMessage | backend/app/main.py:242-291 | the reply, the commands tried and the new held state for every well-formed message, in each of the cases unknown action, unknown phase, offline, not the user's turn, sent, and send failed |
| ControlSession.ControlSession.OnDisconnect | backend/app/main.py:292-294 | a disconnect tries a release of everything held |
| ControlSession.Transport.SendCommand | backend/app/ipc.py:232-240 | without a socket a send always raises, with one it may; either way it is one try |
| ControlSession.ReleaseLoopMatches | backend/app/main.py:227-239 | the small steps of the transition system, taken for the releases the handler makes in whatever order, end where the handler ends |
| ControlSession.StepsMatchHandler | backend/app/main.py:258-285 | served without interference, the small steps of one message leave of the session what the handler does, for each verdict and either outcome of the send |
| ControlSession.JudgeExactly | backend/app/main.py:198-206 | a user may act for a team exactly while a snapshot shows its turn and the store's reverse lookup gives that team for the user; otherwise offline or refused |
| ControlSession.AfterReleasesMeaning | backend/app/main.py:230-238 | after some releases the loop has left exactly the actions not yet tried |
| ControlState.Register.ApplyEdge | dll/src/ControlState.cpp:3-21 | the register's new state for each action and phase; everything else unchanged |
| ControlState.Register.Read | dll/src/ControlState.cpp:23-29 | returns the state and consumes the two one-shots only |
| ControlState.Register.Clear | dll/src/ControlState.cpp:31-34 | nothing held, nothing pending |
| ControlState.LevelIsHistory | dll/src/ControlState.cpp:6-11 | after any sequence of edges, reads and clears a level is set if and only if the latest edge of its action since the last clear is a press |
| ControlState.JumpIsHistory | dll/src/ControlState.cpp:16-29 | a jump is pending if and only if a jump press came after the last read or clear |
| ControlState.WeaponIsHistory | dll/src/ControlState.cpp:12-29 | the pending weapon is that of the last select press since the last read or clear, or -1 if there is none |
| ControlHooks.ControlHooks.HookTurnHandleMessage | dll/src/entities/CTaskTurnGame.cpp:18-42 | the thread's new state for any message; the original handler gets the message last, after only input messages, and exactly it unless the message ends a frame; only a frame touches the register, the game's memory, the published snapshot or the connection |
| ControlHooks.ControlHooks.SendInput | dll/src/ControlHooks.cpp:113-127 | one request; with a turn-game task the message re-enters the hook, its leading word the payload if there is one, else the tracked team, or 0 between turns; no other state changes |
| ControlHooks.ControlHooks.OnFrame | dll/src/ControlHooks.cpp:292-303 | a frame publishes and pushes the snapshot built of the present memory and turn, and, while a game is loaded, applies the held input: requests, consumed one-shots, and the one weapon write; nothing but input is dispatched |
| ControlHooks.ControlHooks.ApplyHeldInput | dll/src/ControlHooks.cpp:261-285 | one read of the register becomes the frame's requests (what these are: GameThread.FrameExactly); memory changes by the weapon choice only |
| ControlHooks.ControlHooks.ApplyFire | dll/src/ControlHooks.cpp:278-284 | FireWeapon on a rising level, ReleaseWeapon on a falling one, else nothing, and the level is remembered |
| ControlHooks.ControlHooks.ApplyWeapon | dll/src/ControlHooks.cpp:176-202 | the weapon write and the SelectWeapon input, whose leading word is the chosen id, happen together, for the tracked team's worm, or not at all |
| ControlHooks.WeaponReadyMeaning | dll/src/ControlHooks.cpp:176-191 | a choice finds its target if and only if its id is in 1..70 and table and worm are there; then a game is loaded and its turn-game task exists, so the input is not dropped |
| ControlHooks.FrameArms | dll/src/ControlHooks.cpp:266-270 | a frame leaves the worm whose turn it is with the pending weapon and its table entry exactly when SelectWeapon is due, and otherwise leaves memory as it is |
| ControlHooks.ControlHooks.OnGameTornDown | dll/src/ControlHooks.cpp:310-318 | no turn, no held input, fire level forgotten, and the published snapshot that of no game |
| GameThread.TurnTracking | dll/src/entities/CTaskTurnGame.cpp:24-33 | after any message sequence the tracked team is the 32-bit payload of the latest start message with data that no finish or teardown followed, else -1 |
| GameThread.FramesAreTheGames | dll/src/entities/CTaskTurnGame.cpp:33-37 | onFrame runs exactly once for each frame-finish message the game sends: injected input starts none |
| GameThread.InputIsInert | dll/src/entities/CTaskTurnGame.cpp:24-40 | injected input messages inserted anywhere in any run change nothing of its outcome: turn, register, requests, number of frames |
| GameThread.RegisterRuns | dll/src/ControlHooks.cpp:261-262 | under any interleaving of edges, frames and teardowns the register is the history of its operations |
| GameThread.FrameFollowsHistory | dll/src/ControlHooks.cpp:261-276 | at every active frame each direction is requested if and only if its latest edge since the last clear is a press, a jump if and only if one is pending, a weapon is chosen if and only if it is the non-negative one of the latest pending select press, and SelectWeapon goes with it if and only if its id is in 1..70 and table and worm are there |
| GameThread.FrameExactly | dll/src/ControlHooks.cpp:264-283 | a frame's requests are the due ones, each exactly once: jump, weapon choice and its input, left, right, up, down, fire edge, in that order |
| GameThread.JumpsBounded | dll/src/ControlHooks.cpp:264-264 | the Jump requests of a whole run, plus one if a jump is pending, never outnumber its jump presses |
| GameThread.FireEdges | dll/src/ControlHooks.cpp:278-284 | over every run the fire requests of one game are Fire, Release, Fire, ... and are exactly the edges of the held fire level sampled at that game's active frames |
| GameThread.FireCounts | dll/src/ControlHooks.cpp:206-206 | one more FireWeapon request than ReleaseWeapon ones exactly while the remembered level is set, else as many of each |
| CommandLink.ClientSession.Receive | dll/src/IpcServer.cpp:118-143 | one recv: the buffer becomes the text after the last line feed, and the effects of exactly the complete lines reach the register in order, whatever was buffered |
| CommandLink.ClientSession.HandleLine | dll/src/IpcServer.cpp:41-60 | one line's effect |
| CommandLink.StreamDecodes | dll/src/IpcServer.cpp:118-143 | on any connection, with sends that break off anywhere, the lines that do anything are exactly the commands sent whole on a clean stream, in order, each once |
| CommandLink.DeliveredPrefix | dll/src/IpcServer.cpp:122-132 | what the game has handled after any part of the stream is a prefix of those |
| CommandLink.BytesReachRegister | dll/src/IpcServer.cpp:41-60 | from the bytes of a connection to the register: its history grows by exactly the edges of the commands sent whole on a clean stream, in order, values narrowed to 32 bits |
| CommandLink.ApplyAllIsHistory | dll/src/IpcServer.cpp:56-59 | handling any lines extends the register's history by their edges |
| CommandLink.ChunksDoNotMatter | dll/src/IpcServer.cpp:122-132 | any chunking of a stream gives the same effects and buffer |
| CommandLink.HeardIsSent | backend/app/ipc.py:237-240 | all successful sends are applied if and only if each of them started at a line boundary |
| CommandLink.CleanMeaning | backend/app/ipc.py:237-240 | the stream is at a line boundary unless a send broke off after its first byte and none has succeeded since |
| CommandLink.TornSendLosesNext | backend/app/ipc.py:237-240 | for any two commands: one byte of the first, then the second sent whole, and nothing is applied |
| CommandLink.SpoiltLineIgnored | dll/src/IpcServer.cpp:43-48 | a torn beginning followed by any number of torn or whole commands never parses as one JSON value |
| CommandLink.PieceDepth | backend/app/protocol.py:53-55 | a proper beginning of a command's text has an unclosed brace |
| JsonScan.AcceptedIsBalanced | dll/src/IpcServer.cpp:43-48 | every text accepted as one JSON value closes each string and brace it opens |
| Protocol.NamesDecode | dll/src/Protocol.cpp:5-19 | both sides' action and phase names are inverse to their parsers, and the parsers accept no other action |
| Protocol.CommandRoundTrip | backend/app/protocol.py:44-55 | a written command holds no control character, and the DLL applies exactly its action, phase and 32-bit value |
| Protocol.CommandWire | backend/app/protocol.py:53-55 | the text of a command, character by character |
| Protocol.Wrap32Meaning | dll/src/IpcServer.cpp:57-57 | narrowing keeps a number modulo 2^32, gives a signed 32-bit one, and leaves those alone |
| Protocol.TeamMakesNoDifference | dll/src/IpcServer.cpp:41-60 | two commands that differ in the team have the same effect |
| Protocol.CommandDefaults | dll/src/IpcServer.cpp:43-59 | missing phase and value mean press and 0; another type, an unknown action, or text that is not JSON is ignored |
| Protocol.IncompleteCommands | dll/src/IpcServer.cpp:49-55 | a line without a type or without an action does nothing |
| Protocol.SnapshotRoundTrip | dll/src/IpcServer.cpp:64-112 | decoding an encoded snapshot gives it back, for any number of teams, worms and weapons and either state of the optional fields; its text holds no line feed |
| Protocol.TeamRoundTrip | backend/app/protocol.py:75-81 | the same for a team with its worms |
| Protocol.WormRoundTrip | backend/app/protocol.py:65-72 | the same for a worm |
| Protocol.WeaponRoundTrip | backend/app/protocol.py:84-93 | the same for a weapon entry |
| Protocol.SnapshotDefaults | backend/app/protocol.py:96-109 | an empty object is the snapshot of no game |
| Protocol.PartDefaults | backend/app/protocol.py:65-93 | teams, worms and weapon entries without their optional fields take the defaults, without their required ones they fail |
| Json.ParsePut | backend/app/protocol.py:53-55 | reading what was written, in either style and before any following text, gives the value back and stops where it ended |
| Json.TextRoundTrip | backend/app/protocol.py:111-114 | a document survives being written and read |
| Json.TextPrintable | dll/src/IpcServer.cpp:111-111 | written text has no control character, so its line's only line feed is the appended one |
| Json.Decimal | backend/app/protocol.py:53-55 | numbers are written in decimal without leading zeros |
| Framing.SplitJoin | dll/src/IpcServer.cpp:125-131 | lines and tail put together are the stream |
| Framing.SplitUnique | dll/src/IpcServer.cpp:125-131 | any decomposition into feed-free lines and a feed-free tail is that one |
| Framing.SplitAppend | backend/app/ipc.py:200-213 | splitting can be done piece by piece, carrying the tail |
| StateReader.TcpReader.Consume | backend/app/ipc.py:189-213 | one received chunk: the tail is buffered and only the last complete line, if any, is handed over |
| StateReader.TcpReader.OnLineReceived | backend/app/ipc.py:215-222 | a readable line replaces the latest snapshot, any other changes nothing |
| StateReader.TcpReader.Dropped | backend/app/ipc.py:178-181 | a dropped connection leaves no snapshot and no buffered text |
| StateReader.HandedSelection | backend/app/ipc.py:200-213 | for any chunking the buffer is the text after the last line feed, and the lines handed over are an increasing selection of the complete lines, the last at each chunk's end, ending with the last one |
| StateReader.LatestFromHanded | backend/app/ipc.py:215-226 | the latest snapshot is that of the handed lines read in turn |
| StateReader.SkippingAgrees | backend/app/ipc.py:201-213 | on a stream that ends well, skipping gives what reading every line gives, for every chunking |
| StateReader.SkipStaleRefinesNaive | backend/app/ipc.py:201-222 | however lines are read, skipping agrees with reading every line under every chunking if and only if the stream's last complete line can be read or none can |
| StateReader.OneChunk | backend/app/ipc.py:204-213 | otherwise a single chunk hides good lines behind the bad last one |
| PushSender.IpcServer.SendLine | dll/src/IpcServer.cpp:223-247 | the loop over send sizes, would-block and errors puts the bytes on the connection and closes it as SendExactly and SendOutcome say of the network's answers |
| PushSender.IpcServer.PushState | dll/src/IpcServer.cpp:204-248 | one push: throttled, without client, sent whole, dropped untouched, or torn and closed |
| PushSender.IpcServer.SetClient | dll/src/IpcServer.cpp:35-38 | replaces the client and nothing else |
| PushSender.SendOutcome | dll/src/IpcServer.cpp:223-247 | whatever the network answers: an open connection got the whole line or none of it, a closed one a proper prefix, and at most line length + 200 send calls were made |
| PushSender.SendExactly | dll/src/IpcServer.cpp:223-247 | by the network's answers: a first would-block drops the line, a failure closes at once, also on the first call, and a line begun is finished unless an answer fails or more than 200 would block, which closes the connection after exactly the bytes taken till then |
| PushSender.LineFinished | dll/src/IpcServer.cpp:234-241 | if the first call takes something, none made fails and at most 200 would block, the whole line is out and the client stays |
| PushSender.PushExactly | dll/src/IpcServer.cpp:204-248 | a push is an attempt exactly with a client and 15 ms or more since the last one's 32-bit tick; it then sets the tick, writes to that client's connection only, and counts the snapshot as sent exactly when its whole line is out; otherwise nothing changes |
| PushSender.PushDelivers | dll/src/IpcServer.cpp:211-232 | a network that takes bytes gets the whole snapshot, one that would block at once gets none of it, and the connection stays |
| PushSender.PushThrottled | dll/src/IpcServer.cpp:208-214 | despite the wrap-around of the 32-bit tick, attempts are at least 15 ms apart in true time |
| PushSender.SpacedApart | dll/src/IpcServer.cpp:31-33 | n attempts later is at least 15 n ms later |
| PushSender.AttemptsInWindow | dll/src/IpcServer.cpp:31-33 | any window of T ms holds at most T/15 + 1 attempts |
| PushStream.LatestWasPushed | backend/app/ipc.py:154-230 | in every reachable state latest_state() is None when nothing is connected, else exactly the last of the snapshots received whole on this connection, each of which pushState sent whole on it |
| PushStream.LatestNeverBack | backend/app/ipc.py:189-230 | within one connection the latest snapshot never goes back to an older one, however the run goes on |
| PushStream.PushedArrives | backend/app/ipc.py:189-230 | in every reachable state with the client's connection being read and the throttle open, a snapshot pushed to a network that takes it and then received is what latest_state() returns, whatever came before |
| PushStream.FirstSnapshotArrives | backend/app/ipc.py:154-187 | from the start, connecting, being served, one push and its receipt make that snapshot the latest |
| PushStream.CaughtUp | backend/app/ipc.py:215-230 | once all bytes of the connection are received, the latest snapshot is the last one sent whole on it |
| PushStream.SenderFraming | dll/src/IpcServer.cpp:204-248 | over every run the bytes accepted on a connection are whole lines and at most one proper prefix, and a connection with such a prefix is never pushed to again |
| PushStream.TornIsFinal | dll/src/IpcServer.cpp:233-246 | a torn connection's bytes never change again |
| PushStream.PushFrames | dll/src/IpcServer.cpp:217-247 | one push keeps a whole stream whole or tears and closes it |
| PushStream.RunThrottled | dll/src/IpcServer.cpp:208-214 | over every run all attempts are spaced |
| PushStream.StepKeepsInv | backend/app/ipc.py:154-187 | connects, accepts, ends of service, frames, deliveries and drops keep sender and reader in step |
| Store.MappingStore.Claim | backend/app/store.py:52-70 | succeeds if and only if neither the team nor the user is mapped, then adds exactly that mapping, and keeps the table unique both ways |
| Store.CanClaimExactly | backend/app/store.py:52-70 | a claim is possible exactly when neither lookup finds anything |
| Store.MappingStore.DeleteMapping | backend/app/store.py:72-77 | removes that team's mapping only |
| Store.MappingStore.ClearAll | backend/app/store.py:79-83 | leaves none |
| Store.MappingStore.TeamForEmail | backend/app/store.py:100-107 | the one team of a user, whatever the spelling of the email |
| Store.MappingStore.EmailForTeam | backend/app/store.py:92-98 | the one user of a team |
| Store.LookupsInverse | backend/app/store.py:92-107 | the two lookups are inverse to each other on lower-cased emails |
| Store.LowerExactly | backend/app/store.py:58-58 | lower-casing turns the letters A to Z into small ones and changes nothing else |
| Store.InsertKeepsUnique | backend/app/store.py:42-50 | inserting keeps the table unique both ways |
| Claims.Claim | backend/app/main.py:142-171 | the response and the table after a claim request run alone |
| Claims.ClaimAnswers | backend/app/main.py:142-171 | which answer each state gives, by what the store's lookups find and in the source's order: offline, the user's own team, no turn, team taken, granted |
| Claims.ClaimsUnderInterleaving | backend/app/main.py:142-171 | for any interleaving of the steps of any number of requests with removals and with the reading and acting of new-game detection: the table stays unique both ways, it is the one the log describes, and every success found neither key mapped |
| Claims.TableIsHistory | backend/app/store.py:52-83 | over every run a mapping is in the table if and only if its claim is the last thing that happened to its team, or it was on disk and nothing happened to it |
| Claims.RemovalsRemove | backend/app/store.py:72-83 | a removed team, or every team after a clear or a new game, is found no more, and no other lookup changes |
| Claims.OneSuccessBetweenRemovals | backend/app/store.py:52-70 | between two successes for the same team or the same user the first was removed |
| Claims.StepsMatchClaim | backend/app/main.py:142-171 | a request's steps with nothing in between do what the request does alone |
| Claims.NewGameClears | backend/app/main.py:52-54 | over any run the table is cleared for a new game as often as adjacent ids differ among the samples acted on |
| Claims.MappingsSinceNewGame | backend/app/main.py:52-54 | every mapping present was inserted after the last time the table was cleared for a new game |
| Claims.ClaimOrigin | backend/app/main.py:146-166 | every claim in the log was inserted for a request begun at an earlier step, under way ever since, on a snapshot of the recorded game with the claimed team in turn |
| Claims.OtherGameBegan | backend/app/main.py:146-166 | mappings of another game than the one now shown are those of requests begun before it was shown |
| Claims.OvertakenClaim | backend/app/main.py:146-166 | for every user, a run whose table ends with a mapping read in game 1 and inserted after game 2 was detected |
| Broadcaster.StateBroadcaster.DetectNewGame | backend/app/broadcaster.py:76-82 | one sample: the remembered id, and the store cleared exactly when a non-zero id replaces another |
| Broadcaster.ClearsAreChanges | backend/app/broadcaster.py:76-82 | the number of clears is the number of adjacent unequal ids after dropping offline and zero samples |
| Broadcaster.GapsDoNotMatter | backend/app/broadcaster.py:64-82 | offline or zero samples inserted anywhere change nothing |
| TaskTree.GameMemory.BuildSnapshot | dll/src/ControlHooks.cpp:34-100 | the snapshot of any memory and tree, with and without a game and a turn-game task (what it shows: the SnapshotShows rows) |
| TaskTree.GameMemory.CollectTeams | dll/src/entities/CTask.h:51-57 | the depth-first traversal with its capturing callback appends the views of the team tasks in preorder |
| TaskTree.GameMemory.CollectWorms | dll/src/ControlHooks.cpp:77-91 | a team's non-null children in order, each read as a worm (field by field: SnapshotShowsWorm) |
| TaskTree.SnapshotShowsWorm | dll/src/ControlHooks.cpp:82-90 | each of the seven fields of worm j of team i is the field of the memory task at that child |
| TaskTree.SnapshotShowsTeam | dll/src/ControlHooks.cpp:66-71 | number, owner, current worm, turn-holder and local flag of every listed team are those of its task, and it lists as many worms as children |
| TaskTree.SnapshotShowsGame | dll/src/ControlHooks.cpp:34-59 | every other field of the snapshot, with and without the game's globals and the turn-game task |
| TaskTree.TeamsExactly | dll/src/ControlHooks.cpp:62-64 | the listed teams are the visited tasks of class Team, in order, each as often |
| TaskTree.KidsExactly | dll/src/ControlHooks.cpp:77-79 | the listed worms are the children, null ones left out, in order |
| TaskTree.VisitsExactly | dll/src/entities/CTask.h:50-57 | a traversal visits exactly the tasks reachable by child numbers |
| TaskTree.VisitOrder | dll/src/entities/CTask.h:50-57 | it visits a task first, then its children's subtrees from the first to the last, each once |
| TaskTree.GameMemory.SearchTeam | dll/src/ControlHooks.cpp:146-157 | one loop finds the first child with the current worm's number, else the first active one |
| TaskTree.GameMemory.Search | dll/src/ControlHooks.cpp:139-158 | the traversal with its captured result is a fold over the preorder |
| TaskTree.GameMemory.FindActiveTurnWorm | dll/src/ControlHooks.cpp:133-160 | the worm of the tracked team's turn, or none |
| TaskTree.GameMemory.ApplyWeapon | dll/src/ControlHooks.cpp:176-201 | writes weapon and entry pointer of that worm only; nothing for ids outside 1..70, without a table, or without a worm |
| TaskTree.TurnWormIsPick | dll/src/ControlHooks.cpp:129-160 | for every finite tree and tracked team the search returns what a search of the rebuilt snapshot's list picks (first turn-holder team with a candidate; in it the first worm numbered current_worm, else the first active; none if there is none) if and only if the game's globals exist or the search finds nothing: without them the snapshot is empty and the search does not notice |
| TaskTree.SearchAgrees | dll/src/ControlHooks.cpp:139-158 | the same for any list of visited tasks |
| TaskTree.CandidateIsChoice | dll/src/ControlHooks.cpp:146-157 | a team's candidate in memory is the choice in its snapshot |
| TaskTree.WeaponWriteShows | dll/src/ControlHooks.cpp:193-194 | for any tree the rebuilt snapshot changes in the weapon field of that task, wherever it is listed as a worm, and in nothing else |
| TaskTree.WeaponWriteFrame | dll/src/ControlHooks.cpp:176-201 | when no task is listed twice, the change is the weapon field of exactly the one picked worm |
| TaskTree.WeaponWriteFields | dll/src/ControlHooks.cpp:193-194 | the write puts the id into the weapon field and table + 464 * id modulo 2^32, as a signed 32-bit value, into the entry pointer, and changes no other field of any task |
| TaskTree.WeaponTargetExactly | dll/src/ControlHooks.cpp:176-187 | it happens for an id from 1 to 70 with the game's globals, a weapon table and a worm whose turn it is, and then to that worm |
| PatternScanner.MatchAt | dll/src/PatternScanner.cpp:18-24 | true if and only if every byte under an x of the mask agrees |
| PatternScanner.FindInMainModule | dll/src/PatternScanner.cpp:30-43 | the scan's answer for any image, including none, too short, and an empty mask |
| PatternScanner.ScanIsLeastMatch | dll/src/PatternScanner.cpp:37-42 | the answer is the least matching address, and 0 if and only if nothing matches |
| PatternScanner.ScanFromMeaning | dll/src/PatternScanner.cpp:37-42 | the same from any starting offset |
| OffsetCache.Hooks.ScanPattern | dll/src/Hooks.cpp:33-55 | from any memo: the cached address if there is a non-zero one, else the scan's; the answer is the scan's if and only if the entry was absent, 0, or the scan's address; the flag for new offsets is set exactly when the name was not cached and was found |
| OffsetCache.LookupRemembers | dll/src/Hooks.cpp:51-54 | an answered name is in the memo with its answer, an unanswered lookup leaves no trace, and other names keep their entries |
| OffsetCache.AnsweredStays | dll/src/Hooks.cpp:36-39 | over any calls every name once answered stays in the memo with that answer |
| OffsetCache.SavedAnswers | dll/src/Hooks.cpp:57-74 | saved and loaded again, it is answered without an image to scan |
| OffsetCache.Hooks.LoadOffsets | dll/src/Hooks.cpp:57-66 | the entries of any file, up to the first that cannot be read, overwrite the memo in order |
| OffsetCache.Hooks.SaveOffsets | dll/src/Hooks.cpp:68-74 | nothing new: file untouched; else the file lists the memo, and loading it into an empty one gives it back if and only if every name can be stored |
| OffsetCache.FileRoundTrip | dll/src/Hooks.cpp:57-74 | the text written for any list of 32-bit addresses under names without white space is read back as that list |
| OffsetCache.FileFormat | dll/src/Hooks.cpp:71-73 | an entry is written as name, blank, lower-case hexadecimal, line feed |
| OffsetCache.ReadingStops | dll/src/Hooks.cpp:62-62 | reading stops at a number that does not fit in 32 bits and at a name without one |
| OffsetCache.SaveLoadRestores | dll/src/Hooks.cpp:57-74 | in any listing order, save then load restores the map |
| OffsetCache.SavedRestores | dll/src/Hooks.cpp:57-74 | after loading any file and any calls, what is saved restores the memo if and only if no name in it is empty or holds white space |
| OffsetCache.AfterLoading | dll/src/Hooks.cpp:33-66 | started with any file and after any calls, a lookup answers as a scan would if and only if the file's last readable entry for the name, if any, is 0 or the scan's address |
| OffsetCache.AnswersExactly | dll/src/Hooks.cpp:33-55 | the same from any memo: calls neither spoil nor repair an entry |
| OffsetCache.StaleFileMisleads | dll/src/Hooks.cpp:36-39 | a file with one wrong non-zero address makes the lookup answer it |
| OffsetCache.AlwaysAgrees | dll/src/Hooks.cpp:33-55 | from a memo whose non-zero addresses are the scan's (an empty one is), every lookup of every call sequence answers as a scan would, and the memo stays such |

## Left out

- Detours, inline assembly, memory offsets and the game's own message handlers: the game is an environment that sends messages, supplies a task tree and accepts dispatches.
- Winsock, asyncio and FastAPI plumbing, threads' start and stop, a socket handle closed twice: connections have unique numbers and send and receive return anything they may.
- JSON escapes, non-integer numbers and non-ASCII text: neither program writes any of these; a line that holds one counts as unreadable.
- Lenient coercions of the backend's validation (a number in a string): the DLL writes none.
- A command line with a field of another JSON type, or a value outside 64 bits: the outcome is `Undefined`; the backend never sends the former, and the latter only for a client's value outside 64 bits, for which the control path lets the game read any number.
- Client messages that are not well-formed objects with an integer `value`, and exceptions other than disconnect and offline: outside the session model.
- Case folding of emails beyond A to Z.
- The ammo table's index arithmetic and its scan: its entries for the turn's team are a parameter of the snapshot.
- OffsetCache.AnswersExactly: one signature per name, as in every call of the repository.
- A `0x` prefix or a sign in the offset file: the file is only ever written without them.
- TaskTree.WeaponWriteFrame: requires that no task is listed as a worm twice; TaskTree.WeaponWriteShows says what changes without that.
- Authentication headers, configuration, logging, scripts, static files, admin listing, the mock transport.
- The fan-out of snapshots to subscribers, and the React pages.
