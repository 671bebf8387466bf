# IPC box: a verified model of the shared-memory chat, the handshakes and the line editor

The project models three parts of the repository and proves what they are for.

**The shared-memory chat** (`src/shm_chat`).
`Rings` has the message box as a class over an array, proved against the queue it stands for.
`RingProtocol` breaks `messagebox_send` and `messagebox_recv` into the steps another process can
observe, with the message copied piece by piece in any order, and shows that every interleaving of
one producer and one consumer is a run of an atomic bounded queue.
`ChatSpec` is the server one request at a time. `ChatSystem` is the whole chat, all threads
interleaved; `ChatRefinement` shows that its server refines `ChatSpec`, `ChatRequests` follows the
clients' requests through the server's box, `ChatStreams` and `ChatTheorems` say what each client
gets, `ChatProgress` treats the waits and `ChatFairness` what gets through under a fair scheduler, and
`ChatWitnesses` has runs from the start in which things go wrong. `ChatServer` and `ChatClient` are
the programs themselves, with their loops and the one message each of them reuses; `ChatMessages` says which requests the messages come from and how they
are worded, `ChatDisplay` what is seen of them on a receiver's screen.

**The ping-pong handshakes** (`src/shm`, `src/mmap`, `src/eventfd`).
`Turns` is what the three have in common: rounds of one server turn and one client turn.
`GuardHandshake` is the guard-byte protocol at byte granularity; one parameter, where the payload
starts, makes it the shm program (guard beside the payload) or the mmap program (guard inside it).
`GuardPrograms` is the two processes over one mapping changed in place. `EventFd` is the token
handshake, protocol and program.

**The line editor** (`src/utils/utils.c`).
`LineEditor` is the editor over its NUL-terminated array, proved against a capped stack. `Screen`
adds a small terminal and shows that messages of peers never interrupt what is being typed.

`Runs` defines runs of a system of atomic steps for all of these; `Indexing` has index sets and
remainders, `Options` the optional value.

Memory is sequentially consistent throughout; the programs use no barriers on the ring positions.
A run is a sequence of steps, and the theorems hold for every run, that is for every interleaving.

Assumptions of the chat model, all of them about the surroundings of the code:

- Client ids are 1 to 100, and a box goes by its id, however often it is mapped.
- A send to, a receive from or a test of one box is one step. For a box with one producer and one
  consumer that is `RingProtocol.EveryRunIsAtomic`; for the server's box, which all clients write
  without a lock, it is an assumption. Test and send stay two steps.
- A client starts, that is sends JOIN and resets its box (`src/shm_chat/client.c:255-266`), in one
  step. It can do so again once it has sent its QUIT, whether or not that has been handled.
- A dispatch is identified by its place in the server's log, a sender by `sender_id`.

Assumption of the line editor model: every `linebuf_*` call is one step. Two threads share the line
buffer without a lock; what a print does in the middle of a key press is not modelled.

Results that are not what the code or its documentation suggests:

- A request sent after a passed full test can be lost when two clients race
  (`ChatWitnesses.RequestCanBeLost`), and exactly when is known
  (`ChatRequests.SendIsLostExactlyWhen`); if nobody posts between another's test and send, none is
  (`ChatRequests.RequestsGetThrough`).
- A whisper waits for room in the whisperer's own box, not in the receiver's, where it can be
  dropped (`ChatTheorems.WhisperDropsExactlyOnFullReceiver`, `ChatWitnesses.WhisperCanBeDropped`).
- The name of a client that has left can hide a live client from whispers
  (`ChatSpec.WhisperReachesIff`, `ChatSpec.StaleNameHidesLiveClient`).
- A client that whispered is announced under the name of whom it whispered to
  (`ChatClient.FarewellNamesTheClientIff`).
- The server waits on a client that stopped reading, unless its box has room for all that is to
  come, until that client is started anew, and for ever if it is not
  (`ChatProgress.ServerFinishesExactlyWhen`, `ChatProgress.ServerCanFinishExactlyWhen`,
  `ChatProgress.OnlyRestartHelps`, `ChatWitnesses.ServerCanHang`). If those it waits for read on,
  everything gets through (`ChatFairness.FairChatDelivers`).
- The guard handshakes need a segment without a leftover `'s'`
  (`GuardHandshake.SafeExactlyWhenFresh`).
- The eventfd handshake has no bound on its length (`EventFd.PutBacksUnbounded`). Put-backs are the
  only reason (`EventFd.RunLength`): it comes to an end under every strongly fair scheduler
  (`EventFd.StrongFairnessSuffices`), but not under every weakly fair one
  (`EventFd.WeakFairnessDoesNot`), which is enough for the guard handshakes
  (`GuardHandshake.WeakFairnessSuffices`).
- A redraw as long as its array loses the last typed character, behind a message of 4096
  characters or more the input line is not at the start of its line, and with a redraw longer than
  the array the program leaves it (`Screen.RestoresExactlyWhenItFits`). So the feature of
  README.md:41 does not hold for all lines that can be typed
  (`ChatClient.BroadcastRestoresExactlyWhen`, `ChatClient.OverfullHappens`,
  `ChatClient.ArrayCanBeLeft`).

## Model

| member | source | states |
|---|---|---|
| Rings.TestsMeanCapacity | src/shm_chat/message_box.c:157-165 | the two position tests are true exactly of the empty queue and of the queue with one message less than there are slots |
| Rings.WriteSlotIsHidden | src/shm_chat/message_box.c:101-101 | what is written at the write position before the position moves is not in the queue |
| Rings.PublishAppends | src/shm_chat/message_box.c:108-108 | the position store appends exactly the slot written |
| Rings.ReleaseDropsOldest | src/shm_chat/message_box.c:137-137 | the position store removes exactly the oldest message |
| Rings.MessageBox.Send | src/shm_chat/message_box.c:96-110 | appends the message and returns OK if fewer than N-1 are queued, else returns -1 and changes nothing |
| Rings.MessageBox.Recv | src/shm_chat/message_box.c:125-140 | takes the oldest message, or returns -1 with the box and the caller's buffer unchanged |
| Rings.MessageBox.CheckEmpty | src/shm_chat/message_box.c:158-160 | 1 exactly if nothing is queued |
| Rings.MessageBox.CheckFull | src/shm_chat/message_box.c:163-165 | 1 exactly if N-1 messages are queued |
| Rings.MessageBox.ResetPositions | src/shm_chat/client.c:264-266 | empties the box, whatever positions it had |
| RingProtocol.SlotsInUseDiffer | src/shm_chat/message_box.c:96-140 | in no run do producer and consumer copy the same slot at once |
| RingProtocol.StepRefines | src/shm_chat/message_box.c:96-140 | a send takes effect at its position store or failed test, a receive likewise; every other step leaves the atomic queue alone |
| RingProtocol.EveryRunIsAtomic | src/shm_chat/message_box.c:96-140 | linearizability: every interleaving of sub-steps is a run of the atomic queue with the same calls and the same returned values, for every N >= 2 |
| RingProtocol.RingIsAQueue | src/shm_chat/message_box.c:84-140 | over any number of wrap-arounds, successful sends = successful receives followed by the queue; the positions are the two totals modulo N, which differ by at most N-1 |
| RingProtocol.CallersSeeAQueue | src/shm_chat/message_box.c:96-140 | in every run, the messages whose sends have returned OK are those that receives have returned, followed by the queue, but for answers about to be returned; as many sends have failed as found the box full, as many receives as found it empty |
| RingProtocol.AnswersAreTrue | src/shm_chat/message_box.c:96-140 | from an empty box on, the sends that have returned OK, or are about to, are as many as took effect, and the receives likewise |
| RingProtocol.SendAlone | src/shm_chat/message_box.c:96-110 | an undisturbed send, copying in any order, ends in the ring that `MessageBox.Send` is proved to leave, and answers OK if and only if fewer than N-1 were queued |
| RingProtocol.UndisturbedSendAnswers | src/shm_chat/message_box.c:96-110 | an undisturbed send returns OK if and only if the queue grew by its message, and fails if and only if N-1 were queued, which it leaves |
| RingProtocol.RecvAlone | src/shm_chat/message_box.c:125-140 | an undisturbed receive, copying in any order, ends in the ring that `MessageBox.Recv` is proved to leave and returns the oldest message, or fails on an empty box |
| RingProtocol.SendAfterTestSucceeds | src/shm_chat/client.c:42-47 | once the sole producer has seen room, its next send returns OK however the consumer interleaves |
| RingProtocol.RecvAfterTestSucceeds | src/shm_chat/server.c:66-72 | once the sole consumer has seen a message, its next receive returns OK however the producer interleaves |
| Turns.CompleteTraceIsRounds | src/eventfd/eventfd.c:18-75 | a complete trace of the turn automaton is server turn, client turn, repeated once per round |
| Turns.TurnOf | src/eventfd/eventfd.c:18-75 | the server takes every other turn, beginning with the first |
| GuardHandshake.ServerStepKeepsInv | src/mmap/server.c:53-75 | every server step keeps, for each pair of program points, what guard and payload hold |
| GuardHandshake.ClientStepKeepsInv | src/mmap/client.c:44-65 | every client step keeps the same |
| GuardHandshake.HandshakeIsSafe | src/shm/shm.c:11-59 | in every run from a fresh segment the two are never both inside memset or memcpy, the server stays in its opening wait until the client has started, nobody leaves a later wait before the other's turn, and completed copies hold the bytes meant |
| GuardHandshake.MmapCopies | src/mmap/server.c:61-72 | with the guard inside the payload, whenever a copy is complete, in the last round too, the client's is a 'c' and then '*'s, the server's an 's' and then '@'s |
| GuardHandshake.ShmCopies | src/shm/shm.c:20-28 | with the guard beside the payload, whenever a copy is complete, in the last round too, the client's is only '*'s, the server's only '+'s |
| GuardHandshake.HandshakeAlternates | src/shm/shm.c:20-54 | every run's notifications are a trace of the turn automaton, every finished run's are all the rounds |
| GuardHandshake.StepCountsDown | src/shm/shm.c:3-54 | a failed guard load changes nothing, every other step lowers the number of moves left by exactly one |
| GuardHandshake.NeverStuck | src/shm/shm.c:3-54 | in every state that is not final some process can do something other than a failed load |
| GuardHandshake.SignalStays | src/shm/shm.c:3-9 | an awaited signal that is there stays until it is taken |
| GuardHandshake.HandshakeTerminates | src/mmap/server.c:56-72 | under every schedule the moves are bounded by, and at the end equal to, 2 + 2n(2*size+4); the end stays reachable |
| GuardHandshake.WeakFairnessSuffices | src/shm/shm.c:3-54 | every endless schedule from a fresh segment in which a process that has not ended is scheduled again comes to the end |
| GuardHandshake.StaleSignalBreaks | src/shm/shm.c:16-28 | from a leftover 's' there is a run in which the server copies its own '*'s as the reply of a client that has taken no turn |
| GuardHandshake.SafeExactlyWhenFresh | src/shm/shm.c:11-39 | all runs are safe if and only if the guard does not hold 's' at the start |
| GuardPrograms.Mapping.constructor | src/shm/shm_server.c:15-21 | the mapping has exactly offset + msg_size bytes |
| GuardPrograms.Mapping.ServerStep | src/mmap/server.c:53-75 | the server's accesses on the array, memset and memcpy going upwards, are steps of the protocol and stay inside the mapping |
| GuardPrograms.Mapping.ClientStep | src/mmap/client.c:44-65 | the client's likewise |
| GuardPrograms.Mapping.Execute | src/shm/shm.c:11-59 | under any schedule the two programs perform a run of the protocol, which takes the scheduled steps in order, leaving out exactly those of a process that is done by then |
| EventFd.StepKeepsInv | src/eventfd/eventfd.c:14-75 | each read or write call keeps that the place of the token determines where both processes are |
| EventFd.OneToken | src/eventfd/eventfd.c:14-75 | in every run there is exactly one token until the end, the counter is 0, 1 or 2, and the token's kind determines how the two loop indices compare |
| EventFd.TokensAlternate | src/eventfd/eventfd.c:18-74 | every run is a trace of the turn automaton, every finished one is all the rounds |
| EventFd.FinishedRunLength | src/eventfd/eventfd.c:18-74 | a finished run of n rounds with k put-backs made exactly 4n + 2k calls and left the counter 0 |
| EventFd.RunLength | src/eventfd/eventfd.c:18-74 | every run of n rounds with k put-backs has at most 4n + 2k calls, and that many if and only if it is finished |
| EventFd.StrongFairnessSuffices | src/eventfd/eventfd.c:18-74 | every endless schedule in which a process that can call again and again does call again comes to the end |
| EventFd.WeakFairnessDoesNot | src/eventfd/eventfd.c:58-73 | a schedule that never ends although a process that can call without interruption does call again |
| EventFd.NeverDeadlocked | src/eventfd/eventfd.c:18-74 | in every reachable state that is not final a call can proceed, and the end can be reached |
| EventFd.PutBacksUnbounded | src/eventfd/eventfd.c:58-73 | for every k there is a run with k put-backs |
| EventFd.TokenPair.ServerStep | src/eventfd/eventfd.c:14-44 | the server's next call on the shared counter is the protocol's step |
| EventFd.TokenPair.ClientStep | src/eventfd/eventfd.c:47-75 | the client's likewise |
| EventFd.TokenPair.RunToEnd | src/eventfd/eventfd.c:78-108 | the pair can be run to the end, where the counter is 0 |
| LineEditor.ReadyLineHasText | src/utils/utils.c:129-147 | a line that reading closes is not empty and has at most 4095 characters |
| LineEditor.TypingIsUndoneByErasing | src/utils/utils.c:136-146 | ordinary characters that fit, followed by as many erase keys, restore the line |
| LineEditor.ClosingKeyCompletes | src/utils/utils.c:129-133 | an ordinary text that fits, followed by Enter, end of transmission or the end of the input, is a ready line with that text, whatever is typed behind |
| LineEditor.KeysWithoutEffect | src/utils/utils.c:131-146 | on an empty line those keys and the erase keys change nothing, on a line of 4095 characters no ordinary character does |
| LineEditor.ErasingKeyTakesLast | src/utils/utils.c:136-140 | backspace and delete take the last character away |
| LineEditor.LineBuffer.Reset | src/utils/utils.c:115-120 | empties the line |
| LineEditor.LineBuffer.SetPrompt | src/shm_chat/client.c:239-241 | the prompt is the beginning of name and arrow that the field holds |
| LineEditor.LineBuffer.GetChar | src/utils/utils.c:129-147 | the buffer up to its position, followed by NUL, is a stack capped at 4095, and the echo is what the stack operation calls for |
| LineEditor.LineBuffer.Snprintf | src/utils/utils.c:157-167 | stores what fits the given size and a NUL, leaves the rest of the array alone, and counts everything asked for |
| LineEditor.LineBuffer.Print | src/utils/utils.c:151-170 | writes the clear sequence, the message, the prompt and the text; behind a message too long for its part come characters the array held before; a redraw as long as the array loses its last character; beyond that the program leaves the array |
| LineEditor.LineBuffer.NonCanonicalRead | src/shm_chat/client.c:75-84 | puts the prompt up, reads keys until the line is ready, and leaves in the field the text, cut to it and filled up with NULs; an ordinary text that fits, and Enter, end up in the field as typed |
| Screen.KeyKeepsShowing | src/utils/utils.c:136-146 | every key press leaves prompt and typed text at the bottom with blanks behind, and the lines above alone |
| Screen.RedrawRestores | src/utils/utils.c:151-170 | a print puts the message above and restores prompt and text, whatever the bottom line was |
| Screen.RestoresExactlyWhenItFits | src/utils/utils.c:152-169 | of all prints, overlong messages of one line and redraws longer than the array included, exactly those whose redraw fits restore the typed text |
| Screen.PeersNeverInterrupt | src/utils/utils.c:149-170 | for every mix of key presses, resets and prints of anything, whenever the latest print is of printable lines and fits, the bottom line shows what was typed as if nothing had been printed; and if all prints are such, every message line stands whole above |
| Screen.LatestPrintDecides | src/utils/utils.c:149-170 | from a print of printable lines that fits on, as long as only keys are pressed, the bottom line shows what was typed, whatever was there before |
| Screen.TypedTextShows | src/shm_chat/client.c:75-80 | an ordinary text typed since the last reset stands behind the prompt, with prints of any kind in between and a clean one last |
| Screen.WholeLineIsTyped | src/shm_chat/client.c:75-80 | whatever is printed between the keys of one reading, they give the line the editor gives without prints |
| ChatSpec.FirstOwner | src/shm_chat/server.c:174-181 | the first id with the name, or none |
| ChatSpec.InRoomMeansJoined | src/shm_chat/server.c:103-135 | a client is in the room if and only if the last of its JOINs and QUITs was a JOIN |
| ChatSpec.RegisteredNameIsLastJoined | src/shm_chat/server.c:105-135 | the registered name is that of the last JOIN, also after a QUIT |
| ChatSpec.RepliesEnumerateOthers | src/shm_chat/server.c:154-166 | after id i the replies are one per other live client below i, in increasing order |
| ChatSpec.ListAnswersForEveryOther | src/shm_chat/server.c:149-168 | a LIST is answered with exactly one SERVER message per other live client, worded "... is inside the room", in order of id, to the requester alone, at most 99 |
| ChatSpec.WhisperReachesIff | src/shm_chat/server.c:170-190 | a whisper to a live client reaches it, alone and under the sender's registered name, if and only if no lower id has or had that name |
| ChatSpec.StaleNameHidesLiveClient | src/shm_chat/server.c:135-181 | four requests after which a whisper to a live client's name goes nowhere |
| ChatRefinement.BeginFollowsSpec | src/shm_chat/server.c:98-191 | entering a case does to the room, and dispatches or leaves to be dispatched, what the request calls for |
| ChatRefinement.ServerRefinesSpec | src/shm_chat/server.c:61-192 | in every run of all threads the room is that of the requests taken one by one and the log a prefix of what they call for, all of it between requests |
| ChatRequests.RequestsAreHandledInOrder | src/shm_chat/client.c:87-198 | the requests handled of a client are, in order, the first of those that got into the server's box; the rest are still there |
| ChatRequests.FullExactlyWhen | src/shm_chat/message_box.c:96-108 | after any run the server's box is full if and only if its requests at the start, plus posts, less requests taken, come to its capacity or more and no last part of the run has more taken than posted |
| ChatRequests.SendIsLostExactlyWhen | src/shm_chat/client.c:119-123 | whatever happens between a client's test and its send, the send loses the request if and only if that holds of the run in between; else the request gets in |
| ChatRequests.RequestsGetThrough | src/shm_chat/client.c:87-198 | in every run in which no client posts between another's test and send, the requests of a client that were handled, followed by those still in the box, are exactly those it sent, JOINs aside |
| ChatRequests.RequestsAreConserved | src/shm_chat/client.c:87-198 | in every run at all the requests a client sent are as many as those handled, in the box, and lost |
| ChatRequests.UndisturbedSendGetsThrough | src/shm_chat/client.c:190-193 | with no other client posting between test and send, the send gets through |
| ChatRequests.TwoTestsOnePlace | src/shm_chat/client.c:167-170 | of two clients that tested the same last place, the second to send loses its request unnoticed |
| ChatWitnesses.RequestCanBeLost | src/shm_chat/client.c:189-193 | a run from the start, with both clients started first, in which that happens |
| ChatWitnesses.WhisperCanBeDropped | src/shm_chat/server.c:186-188 | a run from the start in which a whisper to a client that is in the room and reads on is dispatched and dropped |
| ChatWitnesses.ServerCanHang | src/shm_chat/server.c:162-162 | a run from the start, in which a client with a full box asks for the list and quits, after which no continuation lets the server finish unless that client starts again; if it does, one does |
| ChatStreams.BeginKeeps | src/shm_chat/server.c:66-98 | taking a request keeps every client's stream what the log says |
| ChatStreams.CastKeeps | src/shm_chat/server.c:25-33 | so does each step of the broadcast loop, though clients are reached one by one |
| ChatStreams.ReplyKeeps | src/shm_chat/server.c:154-166 | so does each step of the LIST loop, and no reply is ever dropped |
| ChatStreams.DeliverKeeps | src/shm_chat/server.c:183-189 | so does the end of a whisper |
| ChatTheorems.StreamIsDispatchLog | src/shm_chat/server.c:25-192 | at every moment of every run a client's received and pending messages are exactly the dispatches of its session addressed to it, less the dropped ones, in dispatch order |
| ChatTheorems.SameOrderForAll | src/shm_chat/server.c:25-33 | if a client has received two dispatches at one time and another client at a later time, in whatever sessions, they received the same messages in the same order |
| ChatTheorems.Conservation | src/shm_chat/server.c:25-33 | offered = received + pending + dropped for every session; no LIST reply is dropped |
| ChatTheorems.DropMeansFull | src/shm_chat/message_box.c:96-110 | a step drops something of a client if and only if it offers it a message and its box is full; it offers one if and only if one more dispatch of its session addressed to it has come past it |
| ChatTheorems.NothingIsMissed | src/shm_chat/server.c:25-33 | at every moment of its stay a client has every dispatch of its session addressed to it, exactly once, in order, if and only if its box was never full at an offer |
| ChatTheorems.ListReplyArrives | src/shm_chat/server.c:149-168 | after a LIST the requester's stream ends with exactly the replies, none dropped, however it was reading |
| ChatTheorems.ListReplyIsForRequesterAlone | src/shm_chat/server.c:149-168 | nobody else's stream has any of them |
| ChatTheorems.ListNeverWaits | src/shm_chat/server.c:162-164 | with at most 28 messages pending at its start a LIST never finds the box full |
| ChatTheorems.RegistryFollowsRequests | src/shm_chat/server.c:99-147 | in every run, who is in the room and under what name follows from the requests taken |
| ChatTheorems.WhisperIsRoutedIff | src/shm_chat/server.c:170-184 | in every run a whisper to a live client's name is on its way to it, under the name its sender last joined with, if and only if no lower id has or had the name |
| ChatTheorems.TestedBoxKeepsRoom | src/shm_chat/server.c:162-188 | a box the server has tested still has room when it sends |
| ChatTheorems.WhisperDropsExactlyOnFullReceiver | src/shm_chat/server.c:186-188 | after its wait the whisper is dropped exactly if the receiver's box is full, else it is the last message there; all other boxes stay as they are |
| ChatMessages.DispatchesAreInLog | src/shm_chat/server.c:98-191 | everything a request calls for is in the log, right behind what the requests before it call for |
| ChatMessages.HandledRequestsAreSpread | src/shm_chat/server.c:107-144 | in every run, for every JOIN and QUIT taken a SERVER message worded "... has joined the room" or "... has left the room" was dispatched to those in the room then, and every BROADCAST unchanged |
| ChatMessages.StreamsComeFromRequests | src/shm_chat/server.c:98-191 | in every run, every message in anybody's stream is one that a request taken calls for, in kind, sender, name and words; a BROADCAST is itself such a request |
| ChatProgress.CompleteRequest | src/shm_chat/server.c:154-188 | from any state that can complete, server and receiving threads alone reach the end of the request |
| ChatProgress.ServerFinishesExactlyWhen | src/shm_chat/server.c:162-186 | a reachable server can finish its request by its own steps and those of receiving threads if and only if it is in no undefined whisper and the client it waits for reads on or has room for all that is to come |
| ChatProgress.ServerCanFinishExactlyWhen | src/shm_chat/server.c:162-186 | whatever all threads may do, it can finish if and only if that holds, or the server's box has places enough for the client it waits for to quit and start anew |
| ChatProgress.StuckWhateverHappens | src/shm_chat/server.c:162-186 | if neither holds, no continuation, by whatever threads, lets the server finish |
| ChatProgress.OnlyRestartHelps | src/shm_chat/server.c:162-186 | a server that cannot finish on its own does not finish in any continuation in which the client it waits for is not started anew |
| ChatProgress.NoCircularWait | src/shm_chat/server.c:61-192 | if those the server waits for, or will for a queued LIST or WHISPER, are reading and no undefined whisper is queued, something can always move, and everything can be brought to rest: all queued requests handled in order, and the boxes of all who read empty |
| ChatFairness.FairChatDelivers | src/shm_chat/server.c:61-192 | in every endless run with a fair scheduler in which those the server waits for read on and no whisper is undefined, the requests in the server's box at any moment are all handled at a later one, in order, and the messages of a client that reads on and is not started anew are all received, in order |
| ChatServer.Server.Broadcast | src/shm_chat/server.c:25-33 | every client in the room is offered the message once; full boxes drop it |
| ChatServer.Server.WaitForRoom | src/shm_chat/server.c:162-162 | ends with room in the box and nothing lost from the stream |
| ChatServer.Server.AnswerList | src/shm_chat/server.c:149-168 | the requester's stream grows by all replies, nobody else's box changes |
| ChatServer.Server.PassOnWhisper | src/shm_chat/server.c:170-190 | finds the first owner of the name, and adds the whisper to its stream unless its box is full and not the sender's |
| ChatServer.Server.Handle | src/shm_chat/server.c:98-191 | the room becomes what the request makes of it and each stream grows by what the request dispatches to it unless dropped |
| ChatServer.Server.Run | src/shm_chat/server.c:61-192 | after any requests the room is the one `ChatSpec` gives, each request found the room the one before it left, and each stream has grown by what each request dispatches to it unless dropped on a box that was full then |
| ChatServer.AllThatIsDispatched | src/shm_chat/server.c:61-192 | a client whose box is not full when a request is taken gets all that is dispatched to it, in order |
| ChatServer.DroppedExactlyWhen | src/shm_chat/server.c:25-33 | a box drops what is dispatched to it if and only if it holds 127 messages, except for the replies to a LIST and a whisper to oneself, which are never dropped |
| ChatClient.RequestsAreTheClients | src/shm_chat/client.c:96-98 | every request carries the client's id |
| ChatClient.WhatLinesBecome | src/shm_chat/client.c:115-194 | for all typed lines: the lines that are no command become a BROADCAST each, with their text and in order; "/list" and "/whisper" a LIST each; the answers to a "/whisper" a WHISPER with that name and text; "/quit" a QUIT; "/help" nothing |
| ChatClient.EveryRequestCarriesLastTarget | src/shm_chat/client.c:96-147 | the whispers go to the targets of the typed lines, in order, and every request of any kind carries the target of the last whisper up to it, or the client's own name if there was none |
| ChatClient.QuitCarriesLastTarget | src/shm_chat/client.c:115-147 | leaving is the last request and carries the name last whispered to |
| ChatClient.FarewellNamesTheClientIff | src/shm_chat/client.c:115-162 | the announcement names the client itself if and only if it never whispered or last whispered to its own name |
| ChatClient.WhispererLeavesUnderAnotherName | src/shm_chat/client.c:115-147 | a client that whispers to bob and leaves is announced as bob |
| ChatClient.ReceivedMessageIsOneLine | src/shm_chat/client.c:48-68 | a printable message is printed as one whole line |
| ChatDisplay.SpokenLineIsSeen | src/shm_chat/client.c:59-62 | a line l typed by a client n that has not whispered is dispatched to all in the room, and stands above a receiver's prompt as "> n: l" |
| ChatDisplay.WhisperedLineIsSeen | src/shm_chat/client.c:54-58 | a whisper l of a client registered as n stands above its receiver's prompt as "[Private] n: l" |
| ChatDisplay.ComingIsSeen | src/shm_chat/server.c:107-114 | joining is seen by all in the room, the newcomer included, as "[Server] n has joined the room" |
| ChatDisplay.GoingIsSeen | src/shm_chat/server.c:135-145 | leaving, of a client that has only spoken, is seen by all others in the room as "[Server] n has left the room" |
| ChatDisplay.ListedClientIsSeen | src/shm_chat/server.c:149-166 | each reply to "/list" is seen by the requester as "[Server] x is inside the room" for another live client x |
| ChatDisplay.Receiver.Show | src/shm_chat/client.c:48-68 | the switch prints the line that these say, over what is being typed |
| ChatClient.BroadcastRestoresExactlyWhen | src/shm_chat/client.c:59-62 | after a broadcast its receiver sees what it was typing if and only if text and name have at most 4090 characters, and at most 8181 with prompt and typed line |
| ChatClient.OverfullHappens | src/utils/utils.c:161-169 | a broadcast and a line, both of which can be typed, and a prompt that together just fill the array, after which no terminal shows the line |
| ChatClient.ArrayCanBeLeft | src/utils/utils.c:161-169 | a broadcast and a line, both of which can be typed, and a prompt with which the print leaves its array |
| ChatClient.Sender.SendLine | src/shm_chat/client.c:101-194 | one turn of the loop posts what the lines it reads call for, and leaves the name last whispered to in the message |
| ChatClient.Sender.SendMessages | src/shm_chat/client.c:87-198 | all requests of the thread are those the typed lines amount to, in order |

## Left out

- Weak memory: the models are sequentially consistent; the programs have no barriers on the ring positions.
- Opening, sizing, mapping, unlinking and closing segments, argument parsing, error exits, the clock and printing to the server's console: foreign calls and I/O.
- SIGINT and crashes, other than that a receiving thread may stop at any time.
- Two clients writing the server's box at the same moment: a send to it is one step.
- A client start that is not one step: the code sends JOIN before it resets the positions, so a message sent in between would be lost.
- ChatServer.Server.WaitForRoom: in the class the owner of a full box is assumed to read on while the server sleeps; the interleaved model has no such assumption.
- ChatServer.Server.Handle: the class keeps each box as the queue that `Rings.MessageBox` is proved to keep, not as an array of its own.
- Whispers to names nobody has, or whose first owner has left: the program follows an unset or null pointer; the model stops there (`Undefined`).
- LineEditor.LineBuffer.Print: for a redraw longer than its array the program also writes out what lies behind the array; the model gives no output (None). That a message and prompt alone are longer than the array, so that the last piece would be stored behind it, needs a message no client forms.
- Screen.PeersNeverInterrupt: keys are printable ASCII or keys the editor interprets, and lines do not wrap.
- LineEditor.LineBuffer.NonCanonicalRead: keys that run out mean that no more has been typed yet.
- Names of 32 or more characters given on the command line: they overflow their field.
- src/socket, src/socket_local, src/utils/sockets.c: thin wrappers over stream sockets.
- src/mq: its message header is not the one the kernel reads on 64-bit systems.
- src/shm_condition: its mutex is locked again and never unlocked, so no handshake theorem holds.
- src/semaphore: its initial value and extra post give neither alternation nor exclusion.
- src/pipe, src/fifo, src/utils/signals.c: they depend on signal timing and sleeps.
