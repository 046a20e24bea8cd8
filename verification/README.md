# Session tables, routing and transfers of the VBE IDC services

This is a Dafny model, with proofs, of the parts of the VBE IDC repository that keep
state between messages.

- **Sessions.** Four services remember the requests that they have passed on. A session
  sits in a hash map under an identifier drawn from a 32-bit counter that wraps. In the
  server services it also sits in the array of the connection it came over, and a timer is
  armed for it. `InsertSession` and `EraseSession` have to keep these structures in step
  through every mixture of replies, timeouts and lost connections.
- **Channels.** The router maps channels to addresses; the round-robin allocator hands
  channels out with a cursor that may stand one past the end between two calls.
- **Sealed data.** Requests and responses carry an encoded and encrypted part, described by
  field lists, and the buffers for it are allocated and freed by hand.
- **Transfers.** The VBE service sorts the receivers of a transfer by channel, checks its
  total and has its users checked. The HLS service queues each transfer for every user that
  it touches and proposes it once it heads all these queues.

## How the model is built

The session model has three layers. The lowest is the heap: `Intrusive.BareHashMap` is a
table of 2^16 doubly linked chains that run through the session's own fields, and
`Intrusive.TypeArray` is an array whose elements know their positions. `Containers` joins
the maps and the arrays of one service. `ServerService.Service`, `ClientService.Service` and
`HlsService.Service` are the services themselves. Each method's contract equates the new
abstract state with one step of a transition system (`ServerSpec`, `ClientSpec`, `HlsSpec`),
and `Valid()` includes the invariant of that system. What is promised over whole runs is
proved about the transition systems, for any number of maps, handlers and steps.
`SessionTable` is the part that all four services share, and `WrappingId` its arithmetic.

`CVbeIdcService` and `CVbeIdcRegService` have the same two operations over different field
names, so one class models both; the number of maps and the first identifier (0 and 1) are
parameters of its constructor. The meant result of the registration server's `EraseSession`
on a miss is null; its body has no return statement there
(`vbe_idc_reg_service/vbe_idc_reg_service.inl:27`). Likewise
`CVbeIdcRrChannelAllocator::Init` has no return after its last statement, and success is
modelled (`vbe_idc_reg_service/vbe_idc_rr_channel_allocator.cpp:18`).

One class, `Session`, stands for all session classes. Its field `kind` is the class, which
fixes the map; `sessionId` is `m_nSessionID`, `m_nRegSessionID`, `m_nCltSessionID` or
`m_nHlsSessionID`, depending on the service. Timers are a set of sessions. A firing timer
leaves the set first, then `OnTimeOut` runs. `st`, `ticket`, `stamp`, `issued`, `arrived` and
`released` are ghost: the history that the proofs need.

What a service does beside these two operations has its own modules. `VbeSpec` gives the VBE
service's transfers, checks and deletions their own events; `ClientResponses` follows a request
to the VBE service and back. The HLS service's transfers are in `TransferOrder` (all queues are
one order of arrival, seen by each user), `TransferRelease` (the wake-ups after a release,
unrolled into one list of users due), `TransferSpec` (the events), `TransferRuns` and
`TransferService` (the code's own nested calls, proved to follow `TransferSpec`). `Runs` defines
runs of a transition system once for all of them. `ClientRuns`, `HlsLaws`, `VbeLaws` and
`TransferLaws` say of each event, on maps, arrays and timers and without naming the step
function, what it changes and what it leaves.

A field that nothing writes holds an arbitrary value: `Transfer.fieldId` in the HLS service,
`memory` in the VBE service. A step with no defined result, or after which two structures
disagree for good, is a `Fault` of the transfer model: taking the front of an empty queue,
proposing what is in the map, inserting what is linked, deleting what is in the map, and using
a key in use. A run of transfers is a run without such a step, and what may be done before one
is characterised exactly.

What is not in the repository is assumed openly:

- the cipher is a parameter; the assumption `Inverts` says that decryption undoes a
  successful encryption with the same key;
- the byte format of basic fields is a parameter; the assumption `Lawful` says that a field
  occupies the announced number of bytes and decodes from the front of any longer input.
  `Codec.LawsCanBeMet` shows that a format with these properties exists;
- whether a send, an allocation or a proposal succeeds is an argument or an arbitrary value;
- containers and the timer queue do what their names say. The two containers are built from
  the fields that the sessions declare, the timer queue is a set.

## What holds only under a condition

The properties below fail for the code as written. For each there is the exact condition, and
where it helps a concrete run.

- `DirectInsert` does not look for the key. It overwrites an entry exactly if that map still
  holds a session inserted a positive multiple of 2^32 insertions ago (`OverwriteIff`;
  `OverwriteHappens` builds the run). Without such an old session no insert of any run does
  (`TimelyRunIsValid`).
- The VBE service deletes a transfer without erasing it when its reply comes
  (`vbe_idc_service/vbe_idc_service.cpp:1538-1549`), when a check of its users fails (`1504-1507`),
  when a check cannot be sent after others were (`1422-1436`), and on a network error before it
  was proposed (`3075-3079`). Nothing deleted is referred to, over a whole run, if and only if no
  such event occurs (`AlwaysCleanIff`; `FreedTransferStays` and `FailedCheckStays` are runs).
- Map, array and timer of the VBE service agree if and only if no transfer is parked in an
  array and no stored check-user session has lost its timer (`AgreementIff`). An event
  ends the agreement if and only if it parks a transfer, because its proposal cannot be sent or
  its users are checked first, or is the timeout of a check-user session, whose body is empty
  (`AgreementSurvivesIff`; `UnsentTransferDisagrees` needs no check-user session). A disconnect
  leaves exactly these two kinds in the array (`DisconnectEmptiesIff`).
- A client looks every response up by its session's id, but most responses carry another
  one: the application's, the VBE service's own for a finished update or transfer, or one that
  was never written. An answer reaches the waiting session if and only if that id coincides with
  the session's and the answer goes to the session's map (`ResponseFindsSessionIff` per
  kind and occasion). With two transfers at a fresh VBE service the second answer completes the
  first transfer; with two services they can be swapped (`ResponsesGoAstray`).
- The HLS service asks `m_mapTransfer` for an id in a field that it never writes. For a
  transfer at the front of its queues the answer is right if and only if the field is a key in
  use exactly when the transfer is in the map (`GuardRightIff`). If the field is a key in use, the
  transfer is passed over (`HeldHappens`) and neither it nor anybody sharing a user with it is
  ever proposed (`BlockedRun`); in progress are exactly the entitled transfers if and only if
  this never happens to one that becomes entitled (`EntitledIff`). If the field is no key, a
  second wake-up proposes the transfer again (`ProposedTwiceHappens`).
- A release ends well if and only if it deserts no user and proposes nothing hastily
  (`ReleaseFineIff`). It deserts a user if, counting the releases that it sets off, one of the
  users queued before has nobody among the survivors; without haste that is exactly when the front
  of an empty queue is taken. It is hasty if a transfer is proposed while one of its own users is
  still due; without desertion that is exactly when a transfer is proposed twice. Releasing the
  last transfer of a user never ends well (`LastOfUserBreaks`); a release that leaves a successor in
  each queue can take an empty front as well (`CascadeBreaks`). Without releases in between, hasty
  means that two of the wake-ups are for one transfer (`ProposedTwiceIff`). So every result about
  runs of transfers, `EntitledIff` and `BlockedRun` among them, is about runs in which no user
  is deserted.
- A timed-out transfer is erased by the id in its field. That removes it if and only if the id
  is its key; if it is another session's key, that session and its timer go instead
  (`EraseByFieldIff`). A retry after a timeout inserts a session that is linked already
  (`RetryFindsSessionLinked`).
- The plain erase form keeps timers safe exactly if the session it removes has no armed timer
  (`PlainEraseSafeIff`).
- The router stores the same address object for every channel
  (`vbe_idc_common/vbe_idc_hls_router.cpp:90`), so every channel has the address of the last
  row. The configured addresses come out if and only if every row that no later row of its
  channel replaces has that address (`LoadChannelMapHlsAddr`).
- `m_nChannelID` of the register request wrapper is a copy
  (`vbe_idc_common/vbe_idc_common_msg_wrapper.h:51`), so unsealing does not change the
  caller's variable; all other members are restored (`Exchange`).
- `EncryptWrapperMsg` always reports success. A cipher failure goes unnoticed and the message
  is sent without data (`EncryptSend`). `DecryptWrapperMsg` keeps its buffer when decoding
  fails (`DecryptWrapperMsg` states it).
- The coins of a transfer are added up in 32 bits, so what is checked is the sum modulo 2^32.
  The announced total is the true sum exactly if that sum fits (`TotalIsTrueSumIff`);
  `OverflowingTotalAccepted` is an instance.
- A main transfer that has not exactly one receiver, and none on another channel, is blocked by
  the success of its proposal: it waits for answers that nobody will send
  (`StrandedBySuccess`), for ever and with everybody who shares a user with it (`BlockedRun`).

## Model

| member | source | states |
|---|---|---|
| WrappingId.NextOfNth | vbe_idc_service/vbe_idc_service.inl:10 | incrementing the wrapping counter once more gives the next draw, also across the wrap |
| WrappingId.SameIdIff | vbe_idc_service/vbe_idc_service.inl:6-10 | two draws give the same identifier if and only if a multiple of 2^32 draws lies between them |
| SessionTable.InvIssue | vbe_idc_service/vbe_idc_service.inl:6-10 | an insert of a session that is not stored, under an unused key, keeps every entry under the identifier its session drew |
| SessionTable.InvRemove | vbe_idc_service/vbe_idc_service.inl:16 | an erase by any identifier keeps the same invariant |
| SessionTable.LiveAfterIssue | vbe_idc_service/vbe_idc_service.inl:6-10 | an insert makes exactly one session live and changes nobody else's identifier |
| SessionTable.LiveAfterRemove | vbe_idc_service/vbe_idc_service.inl:16 | an erase ends exactly the session stored under that identifier |
| SessionTable.StoredOnce | vbe_idc_service/vbe_idc_service.inl:2-26 | a session is in at most one map and there under one identifier; it is stored if and only if it is live |
| SessionTable.CollisionIff | vbe_idc_service/vbe_idc_service.inl:6-10 | the counter stands at a session's identifier if and only if the session's age in inserts is a multiple of 2^32 |
| SessionTable.OverwriteIff | vbe_idc_service/vbe_idc_service.inl:10 | the unchecked insert overwrites an entry if and only if that map holds a session of such an age |
| SessionTable.FreshWithinWindow | vbe_idc_service/vbe_idc_service.inl:6-10 | if all live sessions are younger than 2^32 inserts, the next identifier is unused in every map and live identifiers are pairwise distinct across maps |
| SessionTable.ChurnKeeps | vbe_idc_service/vbe_idc_service.inl:2-26 | next to a session that stays, fewer than 2^32 rounds of inserting and erasing another one are all legal and leave it alone in its map |
| SessionTable.OverwriteHappens | vbe_idc_service/vbe_idc_service.inl:10 | after exactly 2^32 - 1 such rounds, and not earlier, the next unchecked insert meets the key of the session that stayed |
| ServerSpec.WithoutElement | vbe_idc_service/vbe_idc_service.inl:21 | constant-time erasing from a handler's array removes that session and only that one |
| ServerSpec.InvInsert | vbe_idc_service/vbe_idc_service.inl:2-11 | inserting keeps map, handler array, session fields and timer in agreement |
| ServerSpec.InvErase | vbe_idc_service/vbe_idc_service.inl:14-26 | erasing any identifier through any map keeps them in agreement |
| ServerSpec.ExpireIsErase | vbe_idc_service/vbe_idc_service.inl:14-26 | a timeout finds its own session under the identifier in its field and does to the tables what a reply to it would do |
| ServerSpec.DrainAbsorbsErase | vbe_idc_service/vbe_idc_service.inl:14-26 | erasing one of a handler's sessions leaves the goal of the disconnect unchanged |
| ServerSpec.InvDrained | vbe_idc_service/vbe_idc_service.inl:14-26 | removing all of a handler's sessions keeps the agreement for everybody else's |
| ServerSpec.InvStep | vbe_idc_service/vbe_idc_service.inl:2-26 | every event, connect, insert, reply, timeout or disconnect, keeps the invariant |
| ServerRuns.InvRun | vbe_idc_service/vbe_idc_service.inl:2-26 | so does every run from every state that has it |
| ServerRuns.InvAgrees | vbe_idc_service/vbe_idc_service.inl:2-26 | the invariant implies that stored sessions are the ones with armed timers, that each handler's array holds exactly its stored sessions once each, and that keys are the sessions' own identifiers |
| ServerRuns.ThreeWayAgreement | vbe_idc_reg_service/vbe_idc_reg_service.inl:3-27 | in every reachable state, over any number of maps and handlers, map, array and timer agree |
| ServerRuns.TimelyRunIsValid | vbe_idc_service/vbe_idc_service.inl:6-10 | if no session outlives 2^32 - 1 later inserts, no unchecked insert of the run meets a used key |
| ServerRuns.TimelyRunAgrees | vbe_idc_service/vbe_idc_service.inl:2-26 | map, array and timer agree after every run in which sessions are only required not to grow that old; unused keys need not be assumed |
| ServerRuns.Conservation | vbe_idc_reg_service/vbe_idc_reg_service.inl:4-27 | over every run, inserts minus sessions erased equals the total size of the maps, the total length of the arrays and the number of armed timers |
| ServerRuns.EntryAfterStep | vbe_idc_service/vbe_idc_service.inl:14-26 | unless its identifier is reissued, an entry is there after a step if and only if it was there before and the step does not complete it, and it is the same session |
| ServerRuns.CompletedOnce | vbe_idc_service/vbe_idc_service.inl:14-26 | in every run without a reissue, the number of completions under an identifier plus what is still stored equals what was stored: never two completions |
| ServerRuns.LaterEraseIsNull | vbe_idc_service/vbe_idc_service.inl:14-26 | after a reply, timeout or disconnect has completed an identifier, every erase of it before a reissue returns null and changes nothing |
| ServerRuns.DrainInAnyOrder | vbe_idc_service/vbe_idc_service.inl:14-26 | taking a handler's sessions in whatever order, erasing each ends in the drained state |
| ServerRuns.DrainIsComplete | vbe_idc_service/vbe_idc_service.inl:14-26 | after a drain nothing in maps or timers refers to the handler, and maps and arrays hold exactly what belongs to the others, as before |
| Intrusive.TypeArray.Insert | vbe_idc_service/vbe_idc_service.inl:5 | the session is appended and every element's stored index stays its position |
| Intrusive.TypeArray.Erase | vbe_idc_reg_service/vbe_idc_reg_service.h:65-94 | exactly that session goes, the last one takes its place and its stored index is right again |
| Intrusive.LayoutInsert | vbe_idc_reg_service/vbe_idc_reg_service.h:83-102 | a session linked in front of the chain of its key's bucket keeps chains, keys and table consistent |
| Intrusive.LayoutRemove | vbe_idc_reg_service/vbe_idc_reg_service.h:83-102 | so does taking a session out of the middle of its chain |
| Intrusive.BareHashMap.ChainsApart | vbe_idc_reg_service/vbe_idc_reg_service.h:83-102 | all 2^16 chains are well-formed doubly linked lists without repetition, and no session is in two of them |
| Intrusive.BareHashMap.NodesAreTable | vbe_idc_reg_service/vbe_idc_reg_service.h:83-102 | the linked sessions are the table's entries, each under its own `m_nKey` |
| Intrusive.BareHashMap.constructor | vbe_idc_reg_service/vbe_idc_reg_service.h:102 | a new map is empty |
| Intrusive.BareHashMap.Find | vbe_idc_hls/vbe_idc_hls_service.inl:32 | walking the chain finds the session stored under the key, or null if there is none |
| Intrusive.BareHashMap.PushFront | vbe_idc_reg_service/vbe_idc_reg_service.h:84-85 | linking in at the head changes that chain only and leaves all chains well formed |
| Intrusive.BareHashMap.Detach | vbe_idc_reg_service/vbe_idc_reg_service.h:84-85 | unlinking a node joins its neighbours and leaves all chains well formed |
| Intrusive.BareHashMap.DirectInsert | vbe_idc_reg_service/vbe_idc_reg_service.inl:12 | for an unused key and an unlinked session, the linked table refines a map update |
| Intrusive.BareHashMap.Erase | vbe_idc_reg_service/vbe_idc_reg_service.inl:18 | refines map removal and returns the removed session, or null without a change |
| Containers.SessionMaps.DirectInsert | vbe_idc_service/vbe_idc_service.inl:10 | an insert into one of the service's maps leaves the others as they are, though all link through the same kind of session fields |
| Containers.SessionMaps.Erase | vbe_idc_service/vbe_idc_service.inl:16 | an erase through one map leaves the others as they are |
| Containers.HandlerArrays.Insert | vbe_idc_service/vbe_idc_service.inl:5 | an insert into one handler's array leaves the other handlers' arrays and indexes right |
| Containers.HandlerArrays.Erase | vbe_idc_service/vbe_idc_service.inl:21 | an erase from one handler's array leaves the other handlers' arrays and indexes right |
| ServerService.Service.constructor | vbe_idc_reg_service/vbe_idc_reg_service.h:94-120 | a service starts with empty maps, no handler, no timer and the counter at its first value |
| ServerService.Service.Connect | vbe_idc_reg_service/vbe_idc_reg_service.h:88-95 | a new connection gets a handler of its own with an empty array, and nothing else changes |
| ServerService.Service.InsertSession | vbe_idc_service/vbe_idc_service.inl:2-11 | the heap after the stepwise updates is the abstract state after the insert, for the named map and handler, and the invariant holds |
| ServerService.Service.EraseSession | vbe_idc_service/vbe_idc_service.inl:14-26 | the heap follows the abstract erase; the result is the session found, or null without a change; also inside a timer callback, when the timer has left the queue |
| ServerService.Service.OnTimeOut | vbe_idc_reg_service/vbe_idc_reg_service.inl:15-27 | the heap follows the abstract timeout step |
| ServerService.Service.OnNetError | vbe_idc_reg_service/vbe_idc_reg_service.inl:15-27 | one session's network error shortens the handler's array and leaves the goal of the disconnect unchanged |
| ServerService.Service.OnDisconnect | vbe_idc_reg_service/vbe_idc_reg_service.inl:15-27 | taking sessions from the shrinking array until it is empty terminates and ends in the drained state |
| ClientSpec.InvStep | vbe_idc_client_service/vbe_idc_client_service.inl:3-24 | every insert, reply and timeout keeps map, timer and session id in agreement |
| ClientSpec.TableAgreement | vbe_idc_client_service/vbe_idc_client_service.inl:4-24 | in every reachable state the stored sessions are the ones with armed timers, each found under its own `m_nCltSessionID` |
| ClientRuns.InsertPutsIn | vbe_idc_client_service/vbe_idc_client_service.inl:4-10 | an insert stores the session under the counter, arms its timer, notes the id in it, moves the counter on by one, and changes nothing else |
| ClientRuns.ReplyTakesOut | vbe_idc_client_service/vbe_idc_client_service.inl:13-24 | a reply takes out the entry that it names and the timer of its session; every other entry and timer is as before; one that names no entry changes nothing |
| ClientRuns.TimeoutTakesOut | vbe_idc_client_service/vbe_idc_client_service.inl:13-24 | a timeout takes out the entry under the session's own id and the timer, and nothing else |
| ClientRuns.EntryAfterStep | vbe_idc_client_service/vbe_idc_client_service.inl:13-24 | unless its id is reissued, an entry is the same after an event, or gone if and only if the event is its reply or its session's timeout |
| ClientRuns.CompletedOnce | vbe_idc_client_service/vbe_idc_client_service.inl:13-24 | in every run without a reissue, completions under an id plus what is still stored equals what was stored: never two completions |
| ClientRuns.LaterReplyIsNull | vbe_idc_client_service/vbe_idc_client_service.inl:13-24 | after a completion, a further response under that id before a reissue finds nothing and changes nothing |
| ClientRuns.Conservation | vbe_idc_client_service/vbe_idc_client_service.inl:4-24 | over every run, sessions in less sessions out is the number stored and the number of armed timers |
| ClientService.Service.InsertSession | vbe_idc_client_service/vbe_idc_client_service.inl:3-10 | the heap after setting id, timer, map entry and counter one by one is the abstract state after the insert |
| ClientService.Service.EraseSession | vbe_idc_client_service/vbe_idc_client_service.inl:12-24 | the session found is returned, out of its map and with its timer cancelled, and nothing else changes; or null, and nothing changes |
| ClientService.Service.OnTimeOut | vbe_idc_client_service/vbe_idc_client_service.inl:12-24 | afterwards the session is in its map under its id no more, and of the timers only its own is gone |
| HlsSpec.InvStep | vbe_idc_hls/vbe_idc_hls_service.inl:2-27 | inserts into any map, both erase forms, timers and address writes keep the table consistent and every armed timer on a stored session, if the plain form is not applied to a session with an armed timer |
| HlsSpec.TimersAlwaysSafe | vbe_idc_hls/vbe_idc_hls_service.inl:3-27 | if the plain form is only applied to sessions with no armed timer, and the timer form anywhere, no armed timer refers to a session outside the maps in any reachable state |
| HlsSpec.ByClassIsValid | vbe_idc_hls/vbe_idc_hls_service.inl:10-27 | using the plain form for register and query sessions and the timer form for transfers is such a use |
| HlsSpec.PlainEraseSafeIff | vbe_idc_hls/vbe_idc_hls_service.inl:10-14 | the plain form keeps that property if and only if it does not remove a session with an armed timer |
| HlsSpec.EraseByFieldIff | vbe_idc_hls/vbe_idc_hls_service.inl:16-27 | erasing by an arbitrary id removes a given live session if and only if the id is its key; another session under that id goes with its timer and nobody else changes; without an entry nothing happens |
| HlsSpec.ReplyRouting | vbe_idc_hls/vbe_idc_hls_service.inl:3-33 | whatever is found under an id, in any map, is the session of the last insert that drew that id for that map, with the address that its field held then, and under its own id if that insert wrote one |
| HlsSpec.EraseTouchesOneEntry | vbe_idc_hls/vbe_idc_hls_service.inl:10-27 | an erase by either form changes no other entry of any map and nobody else's timer |
| HlsLaws.InsertPutsIn | vbe_idc_hls/vbe_idc_hls_service.inl:3-8 | an insert stores the session under the counter, writes address and id, moves the counter on, and arms nothing |
| HlsLaws.EraseTakesOut | vbe_idc_hls/vbe_idc_hls_service.inl:11-27 | both erase forms take out the entry that they name and no other; the timer form cancels that session's timer and the plain form none |
| HlsService.Service.InsertSession | vbe_idc_hls/vbe_idc_hls_service.inl:2-8 | for any of the maps, the heap follows the abstract insert, with source address and id written and no timer armed |
| HlsService.Service.EraseSession | vbe_idc_hls/vbe_idc_hls_service.inl:10-14 | from any state and map the heap follows the plain erase and returns the session found, or null; timers stay safe if and only if none was armed for it |
| HlsService.Service.EraseTimerSession | vbe_idc_hls/vbe_idc_hls_service.inl:16-27 | the heap follows the erase that also cancels the timer; the result is the session found, or null |
| HlsService.Service.FindSession | vbe_idc_hls/vbe_idc_hls_service.inl:29-33 | returns the session stored under the id, or null |
| ChannelRouting.RrChannelAllocator.Init | vbe_idc_reg_service/vbe_idc_rr_channel_allocator.cpp:11-19 | success puts the cursor at the first channel with no calls made; failure exactly if the router could not load a channel |
| ChannelRouting.RrChannelAllocator.AllocChannel | vbe_idc_reg_service/vbe_idc_rr_channel_allocator.cpp:21-33 | returns the next element of the specified sequence of results, which is a known channel |
| ChannelRouting.SlotIsModular | vbe_idc_reg_service/vbe_idc_rr_channel_allocator.cpp:18-32 | the cursor with N + 1 positions and lazy wrap reads position k mod N at the k-th call |
| ChannelRouting.KthResult | vbe_idc_reg_service/vbe_idc_rr_channel_allocator.cpp:18-32 | the k-th call, from 0, returns the channel at position k mod N of the iteration order |
| ChannelRouting.WindowIsPermutation | vbe_idc_reg_service/vbe_idc_rr_channel_allocator.cpp:21-33 | any N consecutive results, wherever they start in a run, are the N channels in some order |
| ChannelRouting.CountOf | vbe_idc_reg_service/vbe_idc_rr_channel_allocator.cpp:21-33 | a channel has been returned once a round, and once more if the cursor has passed it in the current one |
| ChannelRouting.FloorOrCeiling | vbe_idc_reg_service/vbe_idc_rr_channel_allocator.cpp:21-33 | after any k calls each channel has been returned floor(k/N) or ceil(k/N) times |
| ChannelRouting.Fairness | vbe_idc_reg_service/vbe_idc_rr_channel_allocator.cpp:21-33 | after any number of calls the counts of two channels differ by at most one |
| Codec.TwoPassesAgree | vbe_idc_client_sdk/vbe_idc_client_sdk.inl:9-22 | for every message with lists nested to any depth, the size pass announces exactly the bytes of the write pass |
| Codec.DecodeEncode | vbe_idc_common/vbe_idc_common_msg_wrapper.h:133-139 | decoding an encoded value in front of any further bytes gives the value and its length, for lists nested to any depth |
| Codec.DecodeEncodeList | vbe_idc_common/vbe_idc_common_msg_wrapper.h:138-139 | the same for a list of any length after its count |
| Codec.DecodeEncodeFields | vbe_idc_common/vbe_idc_common_msg_wrapper.h:23-173 | decoding the encoding of any field list gives every field back in order |
| Codec.EncodeAppend | vbe_idc_client_sdk/vbe_idc_client_sdk.inl:20-22 | the bytes of two field lists together are those of the first, then those of the second |
| Codec.EncodeOne | vbe_idc_common/vbe_idc_common_msg_wrapper.h:23 | one basic field is encoded as the field format says; one list of basic fields as its number and then its elements in order |
| Codec.ListIsFields | vbe_idc_common/vbe_idc_common_msg_wrapper.h:133-139 | a list of anything is encoded as its number and then its elements, as if each were a field |
| Codec.DecodeReads | vbe_idc_common/vbe_idc_common_msg_wrapper.inl:31 | decoding gives these values if and only if there are positions, starting at 0, such that each field is read where the one before ended |
| Codec.LawsCanBeMet | vbe_idc_common/vbe_idc_common_msg_wrapper.h:6 | the laws assumed of the basic fields are satisfiable |
| ClientSdk.EncodeState.CountFields | vbe_idc_client_sdk/vbe_idc_client_sdk.inl:11 | the size pass adds up to the specified size of all fields |
| ClientSdk.EncodeState.WriteFields | vbe_idc_client_sdk/vbe_idc_client_sdk.inl:20-22 | the write pass appends exactly the encoding of all fields to what the buffer holds, field after field by `Codec.EncodeAppend` |
| ClientSdk.Messages.GetDscMsg | vbe_idc_client_sdk/vbe_idc_client_sdk.inl:6-32 | null if and only if the allocator has no block; otherwise the body is filled exactly by the encoded fields and the header holds the node, the address and the type |
| ClientSdk.Messages.SendVbeMessage | vbe_idc_client_sdk/vbe_idc_client_sdk.inl:34-58 | returns 0 if and only if a message was allocated and sent, and then hands over exactly one message with the encoded body, the node, the address and the type; on either failure no message stays behind |
| SealedMessage.Wrapper.constructor | vbe_idc_common/vbe_idc_common_msg_wrapper.h:16-178 | every member denotes the caller's variable, but member 0 of the register request, the channel id, is a fresh copy |
| SealedMessage.EncodesToWire | vbe_idc_common/vbe_idc_common_msg_wrapper.h:16-178 | for each of the twelve wrappers, the plain text is its members' bytes in bound order, each in its own field format; a transfer request's lists as number and elements |
| SealedMessage.WireDecodes | vbe_idc_common/vbe_idc_common_msg_wrapper.h:16-178 | decoding such a plain text, whatever follows it, gives each member its value |
| SealedMessage.Endpoint.EncryptWrapperMsg | vbe_idc_common/vbe_idc_common_msg_wrapper.inl:3-19 | always reports 0; the output is the encryption of the plain text, spelled out member by member for each wrapper, or null if the cipher failed; the encode buffer is freed in both cases |
| SealedMessage.Endpoint.EncryptSend | vbe_idc_service/vbe_idc_service.inl:28-62 | whatever cipher and network do, all buffers are freed on return; what is sent is the encryption of the spelled-out plain text if there is one; the code reports only the network |
| SealedMessage.Endpoint.DecodeInto | vbe_idc_common/vbe_idc_common_msg_wrapper.inl:31 | decoding in place succeeds if and only if the whole field list decodes, and then every member holds its value |
| SealedMessage.Endpoint.DecryptWrapperMsg | vbe_idc_common/vbe_idc_common_msg_wrapper.inl:22-45 | non-null if and only if the data decrypts and decodes; then the members hold the decoded values and the buffer is the caller's; a failed decode leaves one buffer allocated; a failed decrypt changes nothing |
| SealedMessage.UnsealSeal | vbe_idc_common/vbe_idc_common_msg_wrapper.inl:4-45 | for every wrapper kind and all field values, decrypting and decoding the sealed text with the same key gives the values back |
| SealedMessage.Exchange | vbe_idc_common/vbe_idc_common_msg_wrapper.h:45-54 | sealing at one end and unsealing at the other sets every variable bound by reference to the value sent, leaves the by-value one alone, and leaves one buffer, the caller's |

## Transfers, responses and routes

What the services' own handlers make of the session tables, and what stands beside them; the
columns are those of the table above.

| member | source | states |
|---|---|---|
| HlsSpec.RetryFindsSessionLinked | vbe_idc_hls/vbe_idc_hls_service.cpp:614-621 | whenever a timer has fired in a reachable state, its session is still in a map and cannot be inserted again |
| HlsLaws.ArmPutsIn | vbe_idc_hls/vbe_idc_hls_service.cpp:505-506 | the insert of the transfer maps stores the session under the counter, arms its timer, and writes no field |
| HlsLaws.AddressIsWritten | vbe_idc_hls/vbe_idc_hls_service.cpp:314-318 | the address goes into the session's field before any map has the session |
| HlsLaws.TimersComeAndGo | vbe_idc_hls/vbe_idc_hls_service.cpp:699-720 | a firing timer is gone and nothing else; setting it again gives back the state before |
| HlsService.Service.ArmAndInsert | vbe_idc_hls/vbe_idc_hls_service.cpp:505-506 | the insert of the transfer maps arms a timer, takes the next key and writes no id |
| HlsService.Service.Rearm | vbe_idc_hls/vbe_idc_hls_service.cpp:699-720 | a timed-out request to another channel waits again, its session still stored |
| ChannelRouting.HlsRouter.LoadChannelMapHlsAddr | vbe_idc_common/vbe_idc_hls_router.cpp:66-111 | succeeds if and only if the table could be read and has a row; the channels are those of the rows; every channel is routed to the last row, and these are the configured routes if and only if every row that counts has that address |
| ChannelRouting.HlsRouter.GetHlsAddr | vbe_idc_common/vbe_idc_hls_router.cpp:27-45 | a known channel gives its current address, an unknown one -1 |
| ChannelRouting.AddressOf | vbe_idc_common/vbe_idc_hls_router.cpp:97-98 | the node is the node column and the service the HLS column, each narrowed to 16 bits and kept if it fits |
| Tokens.OnlineUsers.NewToken | vbe_idc_service/vbe_idc_service.cpp:1023-1034 | returns the first unused token at or after the counter in wrapping order and moves the counter past it; terminates if there is one |
| Tokens.OnlineUsers.Login | vbe_idc_service/vbe_idc_service.cpp:713-722 | a login gets a token that nobody has and displaces nobody |
| Tokens.FirstFreeIsUnique | vbe_idc_service/vbe_idc_service.cpp:1023-1034 | there is one nearest unused token, less than 2^32 steps away |
| TransferRequest.SortReceivers | vbe_idc_service/vbe_idc_service.cpp:1312-1401 | there is a list for exactly the channels that occur, with the keys of exactly that channel's positions in request order, the sponsor last; refused if and only if the sum modulo 2^32 differs from the total; direct if and only if every receiver is on the sponsor's channel |
| TransferRequest.OnTransferReq | vbe_idc_service/vbe_idc_service.cpp:1304-1406 | a parameter error if and only if the counts differ or are zero, a key does not decode, or the sum modulo 2^32 differs; otherwise such lists of the decoded receivers and the sponsor, and direct if and only if one channel is involved |
| TransferRequest.OfChannelHolds | vbe_idc_service/vbe_idc_service.cpp:1316-1351 | a channel's list holds the keys of exactly the positions of the request with that channel, in increasing order |
| TransferRequest.SumAdds | vbe_idc_service/vbe_idc_service.cpp:1349 | the sum of two coin lists together is the sum of their sums, and of one coin the coin |
| TransferRequest.TotalIsTrueSumIff | vbe_idc_service/vbe_idc_service.cpp:1349-1359 | a request that is accepted announces the true sum if and only if the true sum fits into 32 bits |
| TransferRequest.OverflowingTotalAccepted | vbe_idc_service/vbe_idc_service.cpp:1349-1359 | a request with two receivers of 2^31 coins each and a total of zero is accepted |
| VbeInvariant.WeakErase | vbe_idc_service/vbe_idc_service.cpp:1500 | erasing through any map by any id keeps maps and arrays in agreement, parked transfers aside |
| VbeInvariant.WeakPropose | vbe_idc_service/vbe_idc_service.cpp:1036-1066 | a proposal turns a parked transfer into a stored one with its timer and its own id |
| VbeInvariant.ChecksOpened | vbe_idc_service/vbe_idc_service.cpp:1409-1446 | the check-user sessions of a request are all stored, each new, and nobody else changes |
| VbeRuns.InvVbeStep | vbe_idc_service/vbe_idc_service.cpp:1279-1552 | every event of the VBE service keeps: maps, arrays and timers in order apart from parked transfers and silent checks, and each stored check for a channel still unchecked of its transfer |
| VbeRuns.CleanIff | vbe_idc_service/vbe_idc_service.cpp:1498-1552 | an event leaves no map, array, timer or check referring to a deleted session if and only if it is no reply to a proposed transfer, no failed check, no given-up request with checks out, and no network error of a parked transfer |
| VbeRuns.AlwaysCleanIff | vbe_idc_service/vbe_idc_service.cpp:1498-1552 | over every run of the VBE service, nothing deleted is ever referred to if and only if every event is harmless |
| VbeRuns.AgreementIff | vbe_idc_service/vbe_idc_service.cpp:1401-1450 | map, array and timer agree if and only if no transfer is parked and no stored check-user session is without its timer |
| VbeRuns.AgreementSurvivesIff | vbe_idc_service/vbe_idc_service.cpp:1401-1450 | an event ends the agreement if and only if it parks a transfer or is the timeout of a check-user session |
| VbeRuns.VbeAgreement | vbe_idc_service/vbe_idc_service.cpp:3047-3079 | after every run of harmless events and one more event of any kind, each array lists exactly the handler's stored and parked sessions, every timer belongs to a stored session, and only check-user sessions are stored without one |
| VbeRuns.TransferInTwoSteps | vbe_idc_service/vbe_idc_service.cpp:1449-1450 | parking a transfer and proposing it later come to exactly `InsertSession` |
| VbeRuns.NetErrorsLeave | vbe_idc_service/vbe_idc_service.cpp:3054-3079 | telling a handler's sessions of an error, in any order, leaves its check-user sessions and parked transfers and none of the others told |
| VbeRuns.DisconnectEmptiesIff | vbe_idc_service/vbe_idc_service.cpp:3054-3079 | a disconnect empties the handler's array if and only if it holds no check-user session and no parked transfer |
| VbeLaws.OpenPutsIn | vbe_idc_service/vbe_idc_service.cpp:1099-1107 | a login or operation is stored under the counter with its timer and id, last in its handler's array, and nothing else changes |
| VbeLaws.DirectPutsIn | vbe_idc_service/vbe_idc_service.cpp:1401-1450 | a direct transfer is last in the array; it is stored with timer and id if its proposal was sent, and parked if not |
| VbeLaws.CheckedPutsIn | vbe_idc_service/vbe_idc_service.cpp:1409-1450 | a request's checks are stored under the next ids in order, timed, seated, each for its own channel; the transfer behind them is parked, or deleted if a message could not be sent |
| VbeLaws.ReplyTakesOut | vbe_idc_service/vbe_idc_service.cpp:787-838 | a reply to a login or operation takes out its entry, its timer and its array slot, and nothing else |
| VbeLaws.TimeOutTakesOut | vbe_idc_service/vbe_idc_service.cpp:3047-3073 | so does a timeout, which deletes the session, except that a check-user session only loses its timer |
| VbeLaws.NetErrorTakesOut | vbe_idc_service/vbe_idc_service.cpp:3054-3079 | so does a network error of a stored session, except that nothing is done for a check-user session |
| VbeLaws.TransferReplyDeletes | vbe_idc_service/vbe_idc_service.cpp:1536-1552 | the reply to a transfer changes no map, array or timer, and deletes the transfer if and only if it is good |
| VbeLaws.FailureDeletes | vbe_idc_service/vbe_idc_service.cpp:1504-1507 | a failed check takes only itself out, and deletes itself and its transfer |
| VbeLaws.ConfirmationProposesIff | vbe_idc_service/vbe_idc_service.cpp:1511-1529 | a confirmed check leaves its transfer stored, timed, under the drawn id and no longer parked if and only if its channel was the only one unchecked and the proposal was sent; otherwise parked with exactly that channel gone |
| VbeLaws.ParkedUntilConfirmed | vbe_idc_service/vbe_idc_service.cpp:1498-1534 | over every harmless run, a checked transfer is parked if and only if some of its channels has not been confirmed, whatever the order of the replies |
| VbeLaws.ProposedAtLast | vbe_idc_service/vbe_idc_service.cpp:1526-1529 | the reply that confirms a channel proposes the transfer if and only if all others had been confirmed in the run |
| VbeExamples.FreedTransferStays | vbe_idc_service/vbe_idc_service.cpp:1538-1549 | a direct transfer that is done is deleted and still in map, array and timer queue |
| VbeExamples.UnsentTransferDisagrees | vbe_idc_service/vbe_idc_service.cpp:1404-1450 | a direct transfer whose proposal cannot be sent is in the array alone |
| VbeExamples.FailedCheckStays | vbe_idc_service/vbe_idc_service.cpp:1504-1507 | a transfer of two channels one of whose checks fails is deleted and still in the array |
| ClientResponses.ResponseFindsSessionIff | vbe_idc_service/vbe_idc_service.cpp:844-1016 | for each kind of request and each occasion of an answer, the response reaches the waiting session if and only if it goes to the session's map and the id that it carries, the session's, the application's, the VBE service's or an unwritten one, is the session's |
| ClientResponses.WrongSessionIff | vbe_idc_client_service/vbe_idc_client_service.cpp:82-373 | a response completes another session if and only if that one waits in the response's map under the id that it carries |
| ClientResponses.VbeDraws | vbe_idc_service/vbe_idc_service.cpp:1050-1063 | a transfer is answered under the number of sessions that its VBE service opened before |
| ClientResponses.ResponsesGoAstray | vbe_idc_service/vbe_idc_service.cpp:1544-1548 | at one fresh VBE service the second of two answers completes the first transfer and the first none; with two services the answers can be swapped |
| TransferOrder.EligibleHeads | vbe_idc_hls/vbe_idc_hls_service.cpp:404-419 | each queue of an eligible transfer starts with all its copies, and what follows is the queue without it |
| TransferOrder.HeadsAllIff | vbe_idc_hls/vbe_idc_hls_service.cpp:483-495 | a transfer heads the queues of all its users if and only if no earlier queued transfer has a user in common with it |
| TransferOrder.NewlyEligible | vbe_idc_hls/vbe_idc_hls_service.cpp:421-429 | a release makes only transfers eligible that share a user with the released one |
| TransferOrder.StaysEligible | vbe_idc_hls/vbe_idc_hls_service.cpp:404-419 | a release takes eligibility from no other transfer |
| TransferOrder.EligibleApart | vbe_idc_hls/vbe_idc_hls_service.cpp:483-495 | two eligible transfers have no user in common |
| TransferRelease.GuardRightIff | vbe_idc_hls/vbe_idc_hls_service.cpp:478-507 | for a transfer in front, the code does what it means to do if and only if the field's id is a key in use exactly when the transfer is in the map |
| TransferRelease.DrainReaches | vbe_idc_hls/vbe_idc_hls_service.cpp:421-429 | when all wake-ups are done, whoever is entitled is in progress or has a key in use in its field |
| TransferRelease.DrainEmpties | vbe_idc_hls/vbe_idc_hls_service.cpp:421-429 | the wake-ups end well only if every user queued or due still has somebody queued, and reach an empty queue only if one has not |
| TransferRelease.SurvivorsWithout | vbe_idc_hls/vbe_idc_hls_service.cpp:402-429 | the order in which refused transfers are released makes no difference to who survives |
| TransferRelease.DrainSurvivors | vbe_idc_hls/vbe_idc_hls_service.cpp:402-429 | at every stage of a release with its nested releases the same transfers are bound to survive; at the end they are exactly what is queued |
| TransferRelease.DoneIff | vbe_idc_hls/vbe_idc_hls_service.cpp:402-508 | the wake-ups end well if and only if no user is deserted and nothing is proposed hastily; if no user is deserted, something is proposed twice if and only if it is proposed hastily |
| TransferRelease.HastyIff | vbe_idc_hls/vbe_idc_hls_service.cpp:421-429 | without releases in between, something is proposed hastily if and only if two of the wake-ups due are for one free transfer, a user listed twice counting twice |
| TransferSpec.RequestCases | vbe_idc_hls/vbe_idc_hls_service.cpp:309-320 | a new request is passed over, proposed, released at once or runs into a key in use, and each exactly when |
| TransferSpec.InvStep | vbe_idc_hls/vbe_idc_hls_service.cpp:130-625 | every event that ends well keeps: whoever is in progress is entitled to be, in one place only, and under one key |
| TransferSpec.MutualExclusion | vbe_idc_hls/vbe_idc_hls_service.cpp:475-508 | two transfers in progress never have a user in common |
| TransferSpec.ReleaseFineIff | vbe_idc_hls/vbe_idc_hls_service.cpp:402-429 | a release, with all it sets off, ends well if and only if it deserts no user and proposes nothing hastily; it takes an empty front exactly if it deserts one, and proposes twice exactly if it is hasty, when it is not also the other |
| TransferSpec.ProposedTwiceIff | vbe_idc_hls/vbe_idc_hls_service.cpp:421-429 | if no main transfer is refused and somebody is left in each queue, something is proposed twice if and only if a transfer that becomes free has two places among the released one's users |
| TransferSpec.ReleaseHolds | vbe_idc_hls/vbe_idc_hls_service.cpp:421-429 | after a release, passed over are those that were before and those that became entitled with a key in use in their field |
| TransferSpec.StepGrows | vbe_idc_hls/vbe_idc_hls_service.cpp:130-625 | the same for every event |
| TransferLaws.ReleaseLaw | vbe_idc_hls/vbe_idc_hls_service.cpp:402-439 | a release that ends well takes the transfer out for good; besides it only refused main transfers go, and what is newly in the map was not refused or has one try |
| TransferLaws.RequestLaw | vbe_idc_hls/vbe_idc_hls_service.cpp:273-361 | a request that ends well is last in the queues; it goes into the map under the next key if it is entitled and its field is no key in use, and is released instead if it is main and refused |
| TransferLaws.SuccessReleasesIff | vbe_idc_hls/vbe_idc_hls_service.cpp:541-581 | a successful proposal releases its transfer if and only if it is not main or has exactly one receiver; otherwise it waits for as many answers as positions of its list name another channel |
| TransferLaws.FailureReleasesIff | vbe_idc_hls/vbe_idc_hls_service.cpp:510-539 | a failed proposal releases its transfer if and only if it is main; another one goes back under the next key with one more try, up to the limit |
| TransferLaws.AnswerLaw | vbe_idc_hls/vbe_idc_hls_service.cpp:363-388 | an answer lowers the count by one, and releases the transfer if and only if it was the last |
| TransferLaws.TimeOutLaw | vbe_idc_hls/vbe_idc_hls_service.cpp:583-625 | exactly when a timeout ends well, and what it then changes |
| TransferLaws.ReleasedAtLastAnswer | vbe_idc_hls/vbe_idc_hls_service.cpp:363-388 | over every run that ends well, a transfer waiting for n answers is released with the n-th answer, not earlier and not later |
| TransferLaws.SuccessAwaits | vbe_idc_hls/vbe_idc_hls_service.cpp:541-569 | after its success a main transfer with receivers on other channels is in that state, with n the number of positions that name them |
| TransferRuns.BusyIff | vbe_idc_hls/vbe_idc_hls_service.cpp:475-508 | in progress are exactly the entitled transfers if and only if nobody is passed over |
| TransferRuns.OldestIsBusy | vbe_idc_hls/vbe_idc_hls_service.cpp:475-508 | then, while transfers are queued, the oldest is in progress |
| TransferRuns.EntitledIff | vbe_idc_hls/vbe_idc_hls_service.cpp:475-508 | after every run that ends well, in progress are exactly the entitled transfers if and only if no event made one entitled while its field was a key in use |
| TransferRuns.StrandedBySuccess | vbe_idc_hls/vbe_idc_hls_service.cpp:541-569 | the success of a main transfer with not exactly one receiver blocks it if and only if every listed channel is the coordinator's own |
| TransferRuns.BlockedRun | vbe_idc_hls/vbe_idc_hls_service.cpp:363-625 | over every run that ends well, a transfer passed over, out of retries or waiting for nobody's answer is never released, and nobody who shares a user with it is in progress |
| TransferRuns.LastOfUserBreaks | vbe_idc_hls/vbe_idc_hls_service.cpp:421-429 | releasing the only transfer queued for one of its users never ends well |
| TransferExamples.ProposedTwiceHappens | vbe_idc_hls/vbe_idc_hls_service.cpp:421-429 | a transfer behind another one of the same two users is proposed twice |
| TransferExamples.CascadeBreaks | vbe_idc_hls/vbe_idc_hls_service.cpp:421-429 | a release that leaves a successor in each queue still reaches an empty one, when the successor is refused |
| TransferExamples.HeldHappens | vbe_idc_hls/vbe_idc_hls_service.cpp:478-481 | a transfer whose field holds the key of another one is passed over when its turn comes |
| TransferService.Service.HeadsAllQueues | vbe_idc_hls/vbe_idc_hls_service.cpp:483-495 | the loop over the transfer's users decides whether it heads all its queues |
| TransferService.Service.MaybePropose | vbe_idc_hls/vbe_idc_hls_service.cpp:475-508 | asking one transfer, with all nested releases, leaves the queues, the map, the counter and the retries as the unrolled wake-ups do, or reports their fault |
| TransferService.Service.ReleaseTransferSession | vbe_idc_hls/vbe_idc_hls_service.cpp:402-429 | the same for a release: out of all queues, then one wake-up for each listed user |
| TransferService.Service.OnTransferRequest | vbe_idc_hls/vbe_idc_hls_service.cpp:273-361 | the code follows the event of a request, whatever the proposals report, or reports its fault |
| TransferService.Service.OnProposeResult | vbe_idc_hls/vbe_idc_hls_service.cpp:110-143 | the code follows the event of a proposal's result, or reports its fault |
| TransferService.Service.OnTransferHlsHlsRsp | vbe_idc_hls/vbe_idc_hls_service.cpp:363-388 | the code follows the event of another channel's answer, or reports its fault |
| TransferService.Service.OnTimeOut | vbe_idc_hls/vbe_idc_hls_service.cpp:583-625 | the code follows the event of a timeout, or reports its fault |

## Left out

- ServerSpec.InvDrained: says nothing about the handler object itself, which the communication library deletes after the disconnect.
- ServerRuns.ThreeWayAgreement: holds for a service whose handlers leave the tables to the two operations, as the registration server's do; what the VBE service's keep is `VbeRuns.VbeAgreement`.
- VbeRuns.AlwaysCleanIff: memory is never used again, so a deleted session stays deleted; the order of messages and timers is arbitrary; the deletion of a connection's handler is library code and not among the references followed.
- VbeSpec.VbeStep: which replies delete their session is a parameter, since some of the query handlers do not; what happens after something deleted has been referred to is not promised.
- ServerService.Service.OnDisconnect: the loop that calls `OnNetError` is library code; the order in which it takes the sessions is arbitrary here.
- ServerService.Service.InsertSession: demands that the key is unused, as `DirectInsert` does; `TimelyRunIsValid` says when that is guaranteed and `OverwriteIff` when it is not.
- ClientService.Service.InsertSession: demands an unused key, as `ServerService.Service.InsertSession` does.
- HlsService.Service.InsertSession: demands an unused key, as `ServerService.Service.InsertSession` does.
- ServerService.Service.constructor: session classes are told apart by a number.
- Intrusive.TypeArray.Insert: positions are unbounded numbers; the wrap of a 32-bit index is not modelled.
- HlsService.Service.ArmAndInsert: uses the unchecked insert for the checked `Insert` of the transfer map; a session that is linked already, as in `RetryFindsSessionLinked`, cannot be inserted.
- ChannelRouting.HlsRouter.LoadChannelMapHlsAddr: the freeing of the replaced address objects is not modelled.
- ChannelRouting.RrChannelAllocator.Init: the iteration order of the unordered map is an argument; the map does not change after it.
- SealedMessage.Endpoint.EncryptWrapperMsg: allocating the encode buffer always succeeds, and the length after a cipher failure is arbitrary.
- SealedMessage.Endpoint.DecodeInto: the members that a failed decode has already written are left unspecified.
- Tokens.OnlineUsers.NewToken: demands that some token is unused; otherwise the source loops for ever.
- ClientResponses.ResponseFindsSessionIff: says where an answer goes if there is one; that some requests are never answered is not followed.
- TransferSpec.InvStep: the checked `Insert` of the transfer map is taken to refuse a key in use, which is a fault here; `Roomy` excludes it in the exact conditions.
- TransferSpec.Step: answers of other channels are counted and not matched with the channels that gave them; a channel without a known address never answers; the requests still under way to other channels are not erased.
- TransferSpec.ReleaseFineIff: demands that the next keys are neither in use nor in the field of a queued transfer, which the window of `FreshWithinWindow` and distinct unwritten values give.
- TransferSpec.ProposedTwiceIff: is about releases without nested ones; with them, when something is proposed twice depends on the order of the wake-ups, and `Hasty` follows that order.
- HLS check-user queries and their grouping, the proposal store, user information and user locks: no state that spans several of the modelled operations, or only declarations.
- Message handlers beyond their use of sessions, tokens and queues: they fill fields of responses.
- Reward distribution, share information, certificates and the fine food server: separate features without shared invariants.
- The cipher, the byte format of basic fields, sockets, real time, logging and the database: outside libraries.
- The smart contract's coin accounts: not part of the modelled services.
