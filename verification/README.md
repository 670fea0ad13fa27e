# A model of the Joker TV host software

The host software talks to a conditional access module over EN 50221, reassembles
MPEG sections, realigns a transport stream from USB and programs a serial flash.
These files model those parts in Dafny and prove what they promise.

The modules, from the wire upward:

- `Bytes`, `Asn1`: bytes and the EN 50221 length field.
- `SendQueue`: the linked send queue of a transport connection, in the heap.
- `Transport`, `TransportRuns`, `TransportTheorems`, `TransportProtocol`,
  `TransportPoll`, `TransportScript`, `TransportLayer`: the transport layer as a state
  machine over connections that carry a history; the invariant of every run; the
  theorems read off it; the protocol as an observer of the wire checks it; the poll
  over all slots, which comes to a run, and that run step by step; and the object whose
  methods change its slots in place, each proved against its step of the machine.
- `SessionMachine`, `SessionRuns`, `SessionTheorems`, `SessionProtocol`, `SessionLayer`:
  the same for the session layer, whose object sends through the transport object.
- `LayerRoundTrip`, `Loopback`: each layer prints what it parses, and the two joined
  end to end.
- `SectionBuf`, `TransportPayload`, `SectionBuffer`: the section reassembler, its
  independence of fragmentation, and its use on packed payloads.
- `Crc32`, `CrcProperties`, `Section`: the table-driven CRC against bit-by-bit
  division, its algebra, and the in-place section codec.
- `CaPmt`, `CamSync`, `CamWanted`, `CamTable`, `CamDelivery`: the CA PMT formatter with
  a receiver for its message, the table of programs that must stay in agreement with
  the CAM, which programs those are, and the way of a message through both EN 50221
  layers.
- `MmiFragments`, `MmiMenu`, `MmiResource`: MMI objects from fragments to menus.
- `TsRealign`, `PatReplacement`, `TsList`, `TsPresented`, `TsPool`, `TsDataPath`:
  transport packets across USB chunks, replaced tables, the byte FIFO between receiver
  and readers, what readers are shown of it, and all of them together.
- `ListHead`: the circular doubly linked list, in the heap.
- `Flash`, `Search`: image programming and the rolling exclusive-or search.

Histories (`log`, `gone`, `arrived`, `delivered`) are auxiliary: the code keeps none,
and no step reads them. Link writes, link reads, clocks, the application's answers
and failing commands are inputs, so every theorem holds for all of them.

## Where the code does not do what it says

- A create_session_response carries the session number in its last two bytes, and
  the code reads it one byte early (`3party/libdvben50221/en50221_session.c:647`).
  The model follows the code; `SessionTheorems.CreateResponseActivatesIff` says
  exactly which responses still work.
- A close_session_response has length 3, also when this code sends one, and the
  handler demands 4 (`en50221_session.c:724`): `CloseResponseCompletesIff`.
- A closing connection ends the sessions with its connection id on every slot
  (`en50221_session.c:926`), though an id is only unique within its slot:
  `SessionTheorems.ClosingIsLocalIff` says when no other slot is touched, and
  `SessionTheorems.OtherSlotIsEnded` gives an input where one is.
- S_SCALLBACK_REASON_CAMCONNECTFAIL has a branch (`en50221_session.c:516-537`) that
  is never taken: `SessionTheorems.EveryRunReportsNoConnectFail`.
- A lookup callback of the session layer that returns another code than 0 to -3 has it
  sent as the status byte (`en50221_session.c:433-455`), where 256 reads as open:
  `SessionProtocol.OtherCodeMaySayOpen`.
- section_buf_reset keeps wait_pdu, though its comment says that the buffer then
  waits for a unit start (`3party/libucsi/section_buf.h:55-67`):
  `SectionBuf.ResetWaitsIff`.
- section_buf_init accepts a maximum of 3, though its comment asks for more
  (`section_buf.h:50`): `SectionBuffer.Buffer.Initialise`.
- section_ext_encode stores the CRC of a section shorter than its extended header
  over that header: `Section.SizesThatComeBack`.
- joker_flash_write accepts 16 MiB, but its erase ahead then wraps to sector 0:
  `Flash.ImageIsStoredIff`.
- A menu with 253 or 254 choices wraps the one-byte text count:
  `MmiMenu.MenuComesBackIff`.
- The first PMT of a program is ignored when its version and its current_next
  indicator are both 0, the values the table starts with:
  `CamSync.FirstPmtIsStoredIff`.
- A PMT update that cannot be sent is stored all the same, so table and CAM then
  differ (`CamSync.UpdateStaysInAgreementIff`), until a synchronisation in which the
  program's object goes out or a later update that is sent (`CamSync.SyncRepairsIff`,
  `CamSync.UpdateRepairsIff`).

## Model

| member | source | states |
|---|---|---|
| `Asn1.Encode` | 3party/libdvben50221/asn_1.c:56-83 | Writes the shortest field for the length into the caller's array and nothing else, or returns -1 and writes nothing when it does not fit |
| `Asn1.FieldRoundTrip` | 3party/libdvben50221/asn_1.c:26-83 | Decoding undoes encoding for all 65536 lengths whatever follows, and no other field of at most that size denotes the same length |
| `Asn1.DecodePrefix` | 3party/libdvben50221/asn_1.c:26-54 | Decoding reads only the bytes it reports as used |
| `SendQueue.Queue.Append` | 3party/libdvben50221/en50221_transport.c:1310-1322 | queue_message on the head/tail list appends to the sequence it stands for |
| `SendQueue.Queue.Take` | 3party/libdvben50221/en50221_transport.c:449-464 | Taking the head returns the oldest message and leaves the rest in order, with a correct tail pointer |
| `SendQueue.Queue.Clear` | 3party/libdvben50221/en50221_transport.c:323-331 | Freeing the queue frees every message once, in order, and leaves it empty |
| `SendQueue.Queue.IsEmpty` | 3party/libdvben50221/en50221_transport.c:449-452 | The test on the head pointer is exact |
| `Transport.FirstIdle` | 3party/libdvben50221/en50221_transport.c:1285-1308 | The allocator finds the lowest idle connection from 1 on, or there is none |
| `Transport.ParseTpdu` | 3party/libdvben50221/en50221_transport.c:858-905 | A parsed TPDU always consumes at least two bytes and never more than there are, so the parser loop terminates on every input |
| `TransportRuns.RunKeeps` | 3party/libdvben50221/en50221_transport.c:443-523 | The layer invariant (states, queues, chains and the reading of each connection's history) is kept by every API call, poll visit and received TPDU |
| `TransportRuns.OnTpduKeeps` | 3party/libdvben50221/en50221_transport.c:858-1283 | Every TPDU, on any state and with any outcome of the link writes, keeps the invariant |
| `TransportRuns.OnVisitKeeps` | 3party/libdvben50221/en50221_transport.c:443-523 | A poll visit (send, empty poll, timeout) keeps the invariant |
| `TransportRuns.DiscardKeeps` | 3party/libdvben50221/en50221_transport.c:297-345 | Destroying a slot accounts for every message still queued |
| `TransportTheorems.EveryRunKeepsStatesSafe` | 3party/libdvben50221/en50221_transport.c:753-804 | In every run connection 0 stays idle, a T_DELETE_T_C is queued only in ACTIVE_DELETEQUEUED and only at the tail, IN_DELETION has an empty queue, and a chain exists only in the two active states |
| `TransportTheorems.AllocationLosesNoChain` | 3party/libdvben50221/en50221_transport.c:1285-1308 | The allocator, which overwrites chain_buffer, never meets a connection that has one |
| `TransportTheorems.EveryRunIsStopAndWaitFifo` | 3party/libdvben50221/en50221_transport.c:449-505 | In every run, on every connection: departures followed by the queue are the accepted messages in order, and between two transmissions tx_time was cleared |
| `TransportTheorems.TransmissionsAreSeparated` | 3party/libdvben50221/en50221_transport.c:449-505 | What the stop-and-wait flag of a history means: a clearing event strictly between any two transmissions |
| `TransportTheorems.EveryRunDeliversWhatWasSpelled` | 3party/libdvben50221/en50221_transport.c:1132-1237 | In every run the blocks passed upward are those that the accepted fragments spell |
| `TransportTheorems.InterleavedReassembly` | 3party/libdvben50221/en50221_transport.c:1132-1237 | For any interleaving of non-empty fragments over active connections, each T_DATA_LAST delivers its own connection's fragments since the previous one, and nothing else |
| `TransportTheorems.LastFragmentDeliversIff` | 3party/libdvben50221/en50221_transport.c:1170-1237 | The chain is delivered exactly when the closing fragment carries data, and dropped otherwise |
| `TransportProtocol.EveryRunFollowsTheProtocol` | 3party/libdvben50221/en50221_transport.c:443-523 | In every run the history of each connection is one that an observer, who knows only the bytes on the wire and the outcomes of the writes, allows event by event: after each TPDU, poll visit and call exactly the replies, queueings, timeouts and errors that it demands; and state, tx_time, queue and chain are what the observer works out |
| `TransportProtocol.StatusIsAnswered` | 3party/libdvben50221/en50221_transport.c:1262-1279 | A T_SB on an active connection is followed at once by the write of [0x81, 1, i] when its top bit is set, and a response is then awaited exactly when the write works or one was awaited; and when it is clear, tx_time is cleared and nothing is written |
| `TransportProtocol.OnlyStatusFetches` | 3party/libdvben50221/en50221_transport.c:858-1283 | Whatever transmits the tag 0x81 is the write that answers such a T_SB, right after it |
| `TransportProtocol.TpduErrorsAreReported` | 3party/libdvben50221/en50221_transport.c:973-1283 | The parser stops at a TPDU exactly when an error was reported on its account, and with that error |
| `TransportProtocol.UnknownConnectionIsRefused` | 3party/libdvben50221/en50221_transport.c:901-909 | A TPDU for a connection that is not there stops the parser with BadConnectionId and changes nothing |
| `TransportProtocol.VisitErrorsAreReported` | 3party/libdvben50221/en50221_transport.c:443-523 | Likewise a poll pass stops at a connection: a write that failed, or a response that is overdue on an active connection |
| `TransportProtocol.RequestIsRefused` | 3party/libdvben50221/en50221_transport.c:1068-1092 | With no free connection a T_REQUEST_T_C is answered [0x77, 2, i, 1] on the connection it came on, and no other changes |
| `TransportProtocol.RequestIsGranted` | 3party/libdvben50221/en50221_transport.c:1093-1130 | Else [0x87, 2, i, n] goes out there and [0x82, 1, n] on n, the lowest that was free, which is in creation afterwards exactly when both writes work; no other connection changes |
| `TransportProtocol.SendSucceedsIff` | 3party/libdvben50221/en50221_transport.c:556-619 | Data is taken exactly on an active connection of an open slot; the queue then grows by its message, and a call that fails changes nothing |
| `TransportProtocol.DeleteSucceedsIff` | 3party/libdvben50221/en50221_transport.c:753-804 | A deletion is taken exactly on an active connection or one in deletion; [0x84, 1, i] is queued, and a call that fails changes nothing |
| `TransportProtocol.CreateSucceedsIff` | 3party/libdvben50221/en50221_transport.c:707-751 | A new connection is made exactly when one from 1 on is free; the lowest of them is then in creation with its [0x82, 1, n] queued |
| `TransportLayer.Layer.constructor` | 3party/libdvben50221/en50221_transport.c:150-219 | Every slot closed and every connection idle |
| `TransportLayer.Layer.RegisterSlot` | 3party/libdvben50221/en50221_transport.c:261-295 | The first closed slot is opened, or OutOfSlots |
| `TransportLayer.Layer.DestroySlotAt` | 3party/libdvben50221/en50221_transport.c:297-345 | The slot is closed, each of its connections freed with its chain and queue, and the SLOTCLOSE callback is made exactly when there is such a slot |
| `TransportLayer.Layer.SendDataOn` | 3party/libdvben50221/en50221_transport.c:556-619 | The T_DATA_LAST message is queued on an active connection of an open slot, or the exact error and no change |
| `TransportLayer.Layer.SendDatavOn` | 3party/libdvben50221/en50221_transport.c:621-705 | A vector is queued as the joined data would be |
| `TransportLayer.Layer.NewConnection` | 3party/libdvben50221/en50221_transport.c:707-751 | Allocates the first idle connection and queues T_CREATE_T_C |
| `TransportLayer.Layer.DeleteConnection` | 3party/libdvben50221/en50221_transport.c:753-804 | Queues T_DELETE_T_C and changes the state, from ACTIVE or IN_DELETION only |
| `TransportLayer.Layer.AllocNewTc` | 3party/libdvben50221/en50221_transport.c:1285-1308 | The lowest idle number from 1 on becomes IN_CREATION with no chain and nothing else changes, or OutOfConnections |
| `TransportLayer.Layer.HandleRequest` | 3party/libdvben50221/en50221_transport.c:1068-1130 | For each outcome of the two link writes, the slots, the bytes written and the result of Transport.OnRequest: error reply, new connection withdrawn, or opened and announced |
| `TransportLayer.Layer.HandleTpdu` | 3party/libdvben50221/en50221_transport.c:973-1283 | For every tag, state, body and link outcome, exactly the connection, history with the bytes of any reply, and result of Transport.OnConnTpdu, and every other connection unchanged |
| `TransportLayer.Layer.ProcessReceived` | 3party/libdvben50221/en50221_transport.c:858-971 | On every input, well-formed or not, the loop ends with the slots and the result of the recursive Transport.ProcessData |
| `TransportLayer.Layer.PollConnections` | 3party/libdvben50221/en50221_transport.c:443-523 | The connection loop: one pass over the slot leaves exactly the slots, the polls written and the result of visiting its connections one by one, stopping at the first error |
| `TransportLayer.Layer.HearSlot` | 3party/libdvben50221/en50221_transport.c:393-442 | A read error, nothing, data for this slot, for another slot of the same device or for none (BadSlotId), or a device error: slots and result are those of TransportPoll.Hear |
| `TransportLayer.Layer.PollAll` | 3party/libdvben50221/en50221_transport.c:347-523 | For every outcome of poll(2), of the reads and writes and of the clock, the slots and the result of TransportPoll.Poll: each open slot hears what arrived and has its connections visited, up to the first error |
| `TransportPoll.Target` | 3party/libdvben50221/en50221_transport.c:408-429 | Data goes to an open slot with the handle that was read and the slot number that it names, and is refused only when no open slot has both |
| `TransportPoll.EveryUseIsARun` | 3party/libdvben50221/en50221_transport.c:347-523 | Any sequence of calls and whole polls over all slots comes to a run of the transport machine, so every theorem about all runs holds through all uses of the layer |
| `TransportScript.PollIsItsScript` | 3party/libdvben50221/en50221_transport.c:347-523 | A whole poll does, up to the first error, exactly the steps of a list worked out before it: for every open slot in order, each TPDU in what arrives for it (or BadSlotId, or BadCamData for what is no TPDU, or CaRead), and then a visit to each of its connections |
| `TransportScript.TurnVisitsEach` | 3party/libdvben50221/en50221_transport.c:443-445 | Each connection is visited once, in order |
| `TransportScript.TpdusComeBack` | 3party/libdvben50221/en50221_transport.c:858-905 | Any TPDUs sent one behind the other are taken apart into exactly those, whatever that is no TPDU is left behind |
| `TransportScript.CutShortIsGarbage` | 3party/libdvben50221/en50221_transport.c:866-905 | A TPDU that is cut short is not taken for one |
| `SessionMachine.FirstIdle` | 3party/libdvben50221/en50221_session.c:1026-1055 | The first idle session number from 1 on |
| `SessionRuns.RunKeeps` | 3party/libdvben50221/en50221_session.c:398-1024 | The session invariant is kept by every call and every transport callback |
| `SessionTheorems.EveryRunKeepsBindings` | 3party/libdvben50221/en50221_session.c:1026-1055 | In every run session 0 stays idle and a live session has the resource, slot, connection and callback of its allocation |
| `SessionTheorems.LiveBindingNeverChanges` | 3party/libdvben50221/en50221_session.c:398-1024 | No step rebinds a live session |
| `SessionTheorems.EveryApduReachesItsOwner` | 3party/libdvben50221/en50221_session.c:771-867 | In every run each APDU was handed to the callback bound at the last allocation of its session, and the slot and connection that its package arrived on are the ones bound then |
| `SessionTheorems.BoundIsLastAllocation` | 3party/libdvben50221/en50221_session.c:1026-1055 | What the invariant's binding means: the last allocation of the number in the history |
| `SessionTheorems.ClosingEndsExactly` | 3party/libdvben50221/en50221_session.c:912-971 | After a connection or slot closes no live session bears its id and all others are untouched, callback or not; each session that ended got exactly one CLOSE if a session callback is registered, and none if not |
| `SessionTheorems.EveryRunClosesAtMostOnce` | 3party/libdvben50221/en50221_session.c:912-971 | In every run each CLOSE of a session ends an allocation made before it that no CLOSE in between ended, and a live session's allocation is still open |
| `SessionTheorems.EveryRunReportsNoConnectFail` | 3party/libdvben50221/en50221_session.c:516-537 | Though the handler has a branch that reports CAMCONNECTFAIL, no run reports it |
| `SessionTheorems.ClosingIsLocalIff` | 3party/libdvben50221/en50221_session.c:912-945 | A closing connection leaves the sessions of the other slots alone exactly when no live one of them has the same connection id |
| `SessionTheorems.OtherSlotIsEnded` | 3party/libdvben50221/en50221_session.c:912-945 | An input where it does not: connection 1 of slot 0 closes, and the session on connection 1 of slot 1 ends |
| `SessionTheorems.CreateResponseActivatesIff` | 3party/libdvben50221/en50221_session.c:627-709 | A well-formed positive create_session_response activates its session exactly when the resource's low byte and both bytes of the number agree, because the number is read one byte early |
| `SessionTheorems.HostSessionsStayInCreation` | 3party/libdvben50221/en50221_session.c:627-709 | So no session numbered below 257 is opened by its own response |
| `SessionTheorems.CloseResponseCompletesIff` | 3party/libdvben50221/en50221_session.c:711-769 | A close_session_response completes a deletion exactly when its length byte is 4, though the standard's is 3, and a byte follows the session number |
| `SessionTheorems.OwnCloseResponseIsRefused` | 3party/libdvben50221/en50221_session.c:711-769 | The layer's own form of that response is refused |
| `SessionProtocol.OpenRequestIsAnswered` | 3party/libdvben50221/en50221_session.c:398-539 | Every well-formed open_session_request gets one answer where it came from: tag 0x92, length 7, a status byte worked out from the lookup, the free session and the session callback, the resource and the number; sessions and callbacks afterwards are exactly those listed |
| `SessionProtocol.OpenRequestOpensIff` | 3party/libdvben50221/en50221_session.c:447-537 | An idle session is active afterwards exactly when the lookup found the resource, the session callback is registered and accepts, the session is the first free one, and the answer went out |
| `SessionProtocol.StatusByteSays` | 3party/libdvben50221/en50221_session.c:433-476 | The third byte is 0x00 exactly when all but the sending holds, 0xF3 exactly when the callback refuses, 0xF1 exactly when none is registered or the lookup says -3, and 0xF2 exactly for -2 |
| `SessionProtocol.OtherCodeMaySayOpen` | 3party/libdvben50221/en50221_session.c:433-455 | A lookup code outside 0 to -3 is passed on modulo 256: for 256 the answer says open though nothing was opened |
| `SessionProtocol.CloseRequestIsAnswered` | 3party/libdvben50221/en50221_session.c:541-625 | [0x95, 2, hi, lo] is answered [0x96, 3, status, hi, lo]; the session ends, and its CLOSE is told, exactly when it is live and bound to where the request came from, and the status is 0 then and else 0xF0 |
| `SessionProtocol.CreateAsks` | 3party/libdvben50221/en50221_session.c:195-236 | create_session goes out, byte for byte, for the first free session, which waits if it was sent and is idle again if not |
| `SessionProtocol.DestroyAsks` | 3party/libdvben50221/en50221_session.c:238-278 | close_session_request goes out for a live session, which is in deletion if it was sent and idle if not; any other number is refused and nothing changes |
| `SessionProtocol.SendSends` | 3party/libdvben50221/en50221_session.c:280-318 | Data of an active session goes out behind [0x90, 2, number] on its own slot and connection; any other number is refused |
| `SessionProtocol.CreateResponseSettles` | 3party/libdvben50221/en50221_session.c:627-709 | What a create_session_response makes of the session that the code takes it for, and what is told: open and CONNECTED, or idle and CONNECTFAIL |
| `SessionProtocol.CloseResponseSettles` | 3party/libdvben50221/en50221_session.c:711-769 | A close_session_response of the length that the code demands makes the session it names idle when that is in deletion where it came from, and does nothing else |
| `SessionProtocol.OthersAreIgnored` | 3party/libdvben50221/en50221_session.c:972-1024 | Every other SPDU is ignored: an unknown tag, a wrong length byte, or too few bytes |
| `SessionProtocol.StrayPackageIsIgnored` | 3party/libdvben50221/en50221_session.c:771-828 | So is data for a session that is not active on the slot and connection it came on |
| `SessionProtocol.OpeningsAreTold` | 3party/libdvben50221/en50221_session.c:883-911 | The opening of a connection is told to the session callback with its own reason, when one is registered |
| `SessionLayer.Sessions.constructor` | 3party/libdvben50221/en50221_session.c:107-149 | Every session idle |
| `SessionLayer.Sessions.AllocNewSession` | 3party/libdvben50221/en50221_session.c:1026-1055 | The lowest idle session from 1 on is bound and IN_CREATION, or there is none and nothing changes |
| `SessionLayer.Sessions.CreateSessionTo` | 3party/libdvben50221/en50221_session.c:195-236 | Sessions and history are those of SessionMachine.CreateSession, where the transport object decides whether the send works, and that object has exactly the logged SPDUs queued |
| `SessionLayer.Sessions.DestroySessionOf` | 3party/libdvben50221/en50221_session.c:238-278 | Likewise for SessionMachine.DestroySession: only from ACTIVE or IN_DELETION, and idle when the send fails |
| `SessionLayer.Sessions.SendSessionData` | 3party/libdvben50221/en50221_session.c:280-318 | The data SPDU goes to the bound slot and connection of an active session, or the exact error |
| `SessionLayer.Sessions.SendSessionDatav` | 3party/libdvben50221/en50221_session.c:320-364 | A vector of at most 9 parts is sent as the joined data; more is an error |
| `SessionLayer.Sessions.HandleOpenRequest` | 3party/libdvben50221/en50221_session.c:398-539 | For every lookup, answer and send outcome the sessions, callbacks and response of SessionMachine.OnOpenRequest, and the transport object has that response queued |
| `SessionLayer.Sessions.HandleCloseRequest` | 3party/libdvben50221/en50221_session.c:541-625 | The session is closed and confirmed, or refused with 0xF0 |
| `SessionLayer.Sessions.HandleCreateResponse` | 3party/libdvben50221/en50221_session.c:627-709 | Sessions and callbacks are those of SessionMachine.OnCreateResponse, and nothing is sent |
| `SessionLayer.Sessions.HandleCloseResponse` | 3party/libdvben50221/en50221_session.c:711-769 | Sessions are those of SessionMachine.OnCloseResponse, with no callback and nothing sent |
| `SessionLayer.Sessions.HandleSessionPackage` | 3party/libdvben50221/en50221_session.c:771-867 | The loop hands up exactly the APDUs at the front of the package, in order |
| `SessionLayer.Sessions.HandleClose` | 3party/libdvben50221/en50221_session.c:912-971 | Every session that Ends, and no other, is idle afterwards, with its CLOSE callbacks in order of number |
| `SessionLayer.Sessions.TransportCallback` | 3party/libdvben50221/en50221_session.c:869-1024 | For every reason and every data, exactly the step SessionMachine.OnTransport, and the transport object has exactly the SPDUs logged in it queued |
| `LayerRoundTrip.ApdusOfConcatenation` | 3party/libdvben50221/en50221_session.c:829-867 | Splitting undoes concatenation of any well-formed APDUs |
| `LayerRoundTrip.ApdusOfAnything` | 3party/libdvben50221/en50221_session.c:829-867 | On any input the splitter yields well-formed APDUs that are a prefix of it, and stops only where none follows |
| `LayerRoundTrip.DataMessageParsesIff` | 3party/libdvben50221/en50221_transport.c:556-619 | A queued data message parses back exactly when its length fits 16 bits |
| `LayerRoundTrip.MessageIsDelivered` | 3party/libdvben50221/en50221_transport.c:858-971 | One such message on an active connection without a chain is delivered as it is |
| `LayerRoundTrip.SentDataIsDelivered` | 3party/libdvben50221/en50221_transport.c:556-705 | The message queued by a send, fed back to the parser, delivers the data |
| `LayerRoundTrip.SpduReachesCallback` | 3party/libdvben50221/en50221_session.c:771-867 | A data SPDU of well-formed APDUs makes one callback per APDU, in order |
| `Loopback.DataComesBack` | 3party/libdvben50221/en50221_session.c:280-364 | Both layers composed: any data sent on an active session, queued below, parsed again and handed up block by block, makes exactly one SPDU and one callback for each APDU it begins with, for 5 plus its size up to 65535 |
| `Loopback.SentApdusComeBack` | 3party/libdvben50221/en50221_session.c:280-364 | So well-formed APDUs come back at the session's callback as exactly those, in order |
| `Loopback.RoundTrip` | 3party/libdvben50221/en50221_session.c:280-364 | The same on the two objects, through their send, receive and callback methods |
| `Loopback.CloseSlot` | 3party/libdvben50221/en50221_transport.c:297-345 | Destroying a slot through both objects ends exactly the sessions on it and leaves those of other slots as they were |
| `SectionBuf.AddIsFragmentationFree` | 3party/libucsi/section_buf.c:41-110 | From every valid state, adding a and then b gives the state, total use and status of adding both at once |
| `SectionBuf.AddFromFresh` | 3party/libucsi/section_buf.c:41-110 | What a fresh buffer holds after any input, when it is complete, and when it is too long |
| `SectionBuf.AddKeepsValid` | 3party/libucsi/section_buf.c:41-110 | The state stays valid, uses no more than it was given, and reports completion exactly when complete |
| `SectionBuf.ResetWaitsIff` | 3party/libucsi/section_buf.h:55-67 | After a reset every payload without a unit start is skipped, as the comment promises, exactly when the buffer was waiting before |
| `SectionBuf.SynchronisedResetTakesData` | 3party/libucsi/section_buf.h:55-67 | A buffer that was not waiting takes data right after the reset |
| `TransportPayload.AddPayloadProgress` | 3party/libucsi/section_buf.c:112-173 | Every call on a non-empty payload consumes something, so the documented loop terminates |
| `TransportPayload.EverySectionIsReturned` | 3party/libucsi/section_buf.c:112-173 | Any sequence of sections packed into payloads as section 2.4.4 of ISO/IEC 13818-1 says is returned exactly, in order and without an error, by a synchronised receiver |
| `TransportPayload.EverySectionAfterJoin` | 3party/libucsi/section_buf.h:62-67 | The same from initialisation in mid-stream: every section from the first unit start on |
| `TransportPayload.BadPointerIff` | 3party/libucsi/section_buf.c:132-140 | A pointer is refused with -EINVAL exactly when it points past the payload; all of it is used up and what was held stays |
| `TransportPayload.PointerMeetsTheEndIff` | 3party/libucsi/section_buf.c:143-160 | With a section under way the unit start is accepted exactly when it comes where the section ends; one too early or too late is refused with -ERANGE, with the bytes used and held exactly known |
| `TransportPayload.JoinsAfterRefusal` | 3party/libucsi/section_buf.c:112-173 | After any refusal and a reset, every section from the next unit start on is returned |
| `SectionBuffer.Buffer.Initialise` | 3party/libucsi/section_buf.c:28-39 | The initial state, or -EINVAL and no change below 3 |
| `SectionBuffer.Buffer.ResetBuffer` | 3party/libucsi/section_buf.h:62-67 | The initial state with wait_pdu kept |
| `SectionBuffer.Buffer.Remaining` | 3party/libucsi/section_buf.h:104-107 | The bytes still expected |
| `SectionBuffer.Buffer.AddFragment` | 3party/libucsi/section_buf.c:41-110 | The buffer, the bytes used and the status are those of SectionBuf.Add, for every valid buffer and fragment |
| `SectionBuffer.Buffer.AddTransportPayload` | 3party/libucsi/section_buf.c:112-173 | The buffer, the bytes used and the status are those of SectionBuf.AddPayload, with and without the unit start indicator, bad pointers included |
| `Crc32.TableStep` | 3party/libucsi/crc32.c:23-89 | One table step is eight steps of division by 0x04C11DB7, for every register and byte |
| `Crc32.Round` | 3party/libucsi/crc32.h:48 | One round of the table-driven loop is one byte of the division |
| `Crc32.Compute` | 3party/libucsi/crc32.h:43-52 | The table-driven loop equals bit-by-bit division (Annex A of ISO/IEC 13818-1) on every input |
| `CrcProperties.CrcInjective` | 3party/libucsi/crc32.h:43-52 | For fixed bytes the CRC is injective in the register |
| `CrcProperties.WindowInjective` | 3party/libucsi/crc32.h:43-52 | From a fixed register the CRC is injective in any four bytes |
| `CrcProperties.BurstChangesCrc` | 3party/libucsi/crc32.h:43-52 | Any change within four consecutive bytes changes the CRC |
| `CrcProperties.ResidueIsZero` | 3party/libucsi/crc32.h:43-52 | A message followed by four bytes has CRC zero exactly when they are its own CRC, big-endian |
| `Section.Bswap16` | 3party/libucsi/endianops.h:92-94 | In place, the two bytes exchanged |
| `Section.Bswap32` | 3party/libucsi/endianops.h:96-98 | In place, the four bytes reversed |
| `Section.Codec` | 3party/libucsi/section.h:108-121 | Refused and unchanged below 3 bytes; else the length bytes are exchanged, and it succeeds exactly when the length is 3 plus the length field |
| `Section.CheckCrc` | 3party/libucsi/section.h:130-148 | Whether the CRC over the bytes as on the wire is zero; the buffer is the same afterwards, though swapped in between |
| `Section.CheckReadsTheWire` | 3party/libucsi/section.h:130-148 | The verdict is about the bytes as they were on the wire |
| `Section.ExtDecode` | 3party/libucsi/section.h:157-171 | Refused and unchanged without the syntax bit or, when asked for, with a wrong CRC; else the table id extension is in host order |
| `Section.ExtEncode` | 3party/libucsi/section.h:180-204 | Refused and unchanged without the syntax bit; else in network order, with the CRC of the preceding wire bytes in its last four when asked for, for every size that has room for them |
| `Section.DecodesIff` | 3party/libucsi/section.h:157-171 | Decoding succeeds exactly with the top bit of the third byte and, when asked for, a CRC of zero over the wire bytes; it exchanges bytes 3 and 4 and leaves the others |
| `Section.EncodesIff` | 3party/libucsi/section.h:180-204 | Encoding succeeds exactly with that bit, and without the CRC exchanges the same bytes |
| `Section.BurstIsDetected` | 3party/libucsi/section.h:130-148 | A section that passes fails after any change to at most four consecutive bytes that keeps the length field |
| `Section.EncodeThenDecode` | 3party/libucsi/section.h:157-204 | Encoding with a fresh CRC and decoding with the check succeeds and restores the size and every byte but the CRC, at 7 bytes and from 9 on |
| `Section.SizesThatComeBack` | 3party/libucsi/section.h:157-204 | That holds for all sections of a size exactly when the size is 7 or at least 9: at 4, 5, 6 and 8 the CRC overwrites the length field or the byte that the decoder swaps |
| `Section.EncodedCrc` | 3party/libucsi/section.h:157-204 | What then stands in the last four bytes is the CRC of the bytes before it as they are on the wire |
| `Section.EightBytesAreLost` | 3party/libucsi/section.h:180-204 | A section of 8 bytes does not come back when its fourth byte is not the first of that CRC |
| `CaPmt.ExtractDescriptors` | 3party/libdvben50221/en50221_app_ca.c:316-356 | The CA descriptors, in order |
| `CaPmt.ExtractStreams` | 3party/libdvben50221/en50221_app_ca.c:358-437 | Every stream with its CA descriptors |
| `CaPmt.CaOnlyKeepsCa` | 3party/libdvben50221/en50221_app_ca.c:316-356 | The descriptors with tag 0x09 are taken, each once and in order, and no others |
| `CaPmt.TryMove` | 3party/libdvben50221/en50221_app_ca.c:439-497 | The streams' descriptors move to the program exactly when all streams have the same |
| `CaPmt.EffectiveListsAreKept` | 3party/libdvben50221/en50221_app_ca.c:201-308 | Moved or not, each stream keeps its type, its pid and the list of CA descriptors that apply to it |
| `CaPmt.MovesIff` | 3party/libdvben50221/en50221_app_ca.c:218-226 | The streams lose their descriptors to the program exactly when that is asked for, the program has no CA descriptors, and all streams have the same ones; else every list is as it was extracted |
| `CaPmt.MovingIsNeverLonger` | 3party/libdvben50221/en50221_app_ca.c:439-497 | Moving never makes the message longer |
| `CaPmt.CalculateLength` | 3party/libdvben50221/en50221_app_ca.c:499-544 | Both results equal the sizes that the formatted program loop and the whole message have |
| `CaPmt.FormatPmt` | 3party/libdvben50221/en50221_app_ca.c:201-308 | -1 and nothing written when the predicted length exceeds the buffer, or else exactly the message of exactly that length |
| `CaPmt.MessageComesBackIff` | 3party/libdvben50221/en50221_app_ca.c:235-281 | Read back by section 8.4.3.4 of EN 50221 the message is the program, streams and CA descriptors it was made from, exactly when every descriptor loop fits 12 bits |
| `CaPmt.ReceiverSees` | 3party/libdvben50221/en50221_app_ca.c:201-308 | The same for what a program map is prepared to, moved or not |
| `CamSync.EveryRunAgrees` | src/joker_en50221.c:1272-1589 | In every run program numbers are unique, and each CI_CAM_SENT program's last OK_DESCRAMBLING object is its stored PMT unless an update was refused since |
| `CamSync.EveryRunWithoutRefusalIsInAgreement` | src/joker_en50221.c:1469-1560 | In every run in which no UPDATE is refused, the CAM has the stored PMT of each program sent to it |
| `CamSync.UpdateStaysInAgreementIff` | src/joker_en50221.c:1514-1550 | An update leaves agreement exactly when it is new, for a program the CAM has, and cannot be formatted or sent |
| `CamSync.SyncRepairsIff` | src/joker_en50221.c:1307-1430 | A program whose update was refused is in agreement after a synchronisation exactly when its object goes out in it |
| `CamSync.UpdateRepairsIff` | src/joker_en50221.c:1514-1550 | And after a new PMT exactly when that can be formatted and sent |
| `CamSync.FirstPmtIsStoredIff` | src/joker_en50221.c:1507-1523 | A program's first PMT is stored exactly when its version or its current_next indicator is not zero |
| `CamSync.RoundIsCompleteIff` | src/joker_en50221.c:1337-1386 | A sync sends ONLY, or FIRST MORE* LAST, exactly when no send of it fails, and then one object per selected program in table order |
| `CamSync.RoundLists` | src/joker_en50221.c:1350-1359 | The list management value of each object sent, failures or not |
| `CamSync.FormattedObjectsDecode` | src/joker_en50221.c:1361-1371 | Whatever fits the 4096-byte buffer decodes at the CAM to the program map it was made from |
| `CamWanted.EveryRunKnows` | src/joker_en50221.c:1272-1589 | In every run of adds, clears, PMT updates and CA information a program is meant for the CAM exactly when its last add came after the last clear, and its stored PMT is the last one that was news |
| `CamWanted.EverySendIsWanted` | src/joker_en50221.c:1307-1430 | In every run, every object that an event sends is for a number wanted before it, with the PMT that was last news |
| `CamWanted.RoundSendsTheWanted` | src/joker_en50221.c:1337-1386 | A synchronisation without failures sends exactly one OK_DESCRAMBLING object for each wanted number with a PMT, with that PMT, and none for any other |
| `CamWanted.ConnectedSyncSendsRound` | src/joker_en50221.c:1336-1430 | What a synchronisation adds to the history is that round and then only queries; programs that went out are marked as sent, and no other entry changes |
| `CamWanted.UnconnectedSyncWaits` | src/joker_en50221.c:1324-1326 | Before the CAM has connected a synchronisation does nothing |
| `CamWanted.NewsReachesTheCamIff` | src/joker_en50221.c:1507-1553 | New PMTs of wanted programs reach a connected CAM exactly when they can be formatted and sent: at once for one the CAM has, in a round for one it has not |
| `CamWanted.ConnectedIff` | src/joker_en50221.c:877-885 | The CAM counts as connected exactly when it has sent its CA information |
| `CamWanted.AddedWaits` | src/joker_en50221.c:1435-1462 | An added program waits, whatever it did before, keeps its PMT, and nothing else changes |
| `CamWanted.QueriesAsk` | src/joker_en50221.c:1390-1424 | Every program meant for the CAM is asked about, with a list of its own, when queries are wanted and it can be formatted and sent |
| `CamDelivery.ApduIsWellFormed` | 3party/libdvben50221/en50221_app_ca.c:144-169 | The APDU around an object is well formed, and its body is the object |
| `CamDelivery.ObjectIsDelivered` | 3party/libdvben50221/en50221_app_ca.c:144-169 | A formatted object sent on an active session goes down and up through both layers composed and arrives as one APDU, whose body decodes to the program map it was made from |
| `CamTable.Cam.AddOrFindProgram` | src/joker_en50221.c:1272-1302 | The program's entry, appended if it was missing |
| `CamTable.Cam.SyncCam` | src/joker_en50221.c:1307-1430 | Nothing before the CAM has connected; else the marked table, the objects of Round, then of Queries if wanted, and the command that switches the stream through the CAM or past it; -EIO exactly when that command fails |
| `CamTable.Cam.DescrambleAdd` | src/joker_en50221.c:1435-1462 | The program waits to be sent |
| `CamTable.Cam.PmtUpdate` | src/joker_en50221.c:1469-1560 | Table and objects sent are those of the Update event; -EINVAL for a bad section, -EIO exactly when an update is refused |
| `CamTable.Cam.DescrambleClear` | src/joker_en50221.c:1565-1589 | No program is wanted any more |
| `CamTable.Cam.CaInfoReceived` | src/joker_en50221.c:877-885 | The CAM is connected and synchronised |
| `MmiFragments.DefragmentRefinesMap` | 3party/libdvben50221/en50221_app_mmi.c:1172-1301 | Defragmentation refines a map from session and kind to bytes: one entry changes, and LAST returns it |
| `MmiFragments.EveryRunHolds` | 3party/libdvben50221/en50221_app_mmi.c:1172-1301 | In every run the bytes held for a session and kind are its fragments since its last completed object |
| `MmiFragments.LastYieldsItsFragments` | 3party/libdvben50221/en50221_app_mmi.c:1172-1301 | Under any interleaving LAST returns exactly that session's and kind's fragments, joined |
| `MmiMenu.TextComesBack` | 3party/libdvben50221/en50221_app_mmi.c:1303-1397 | A chain of TEXT_MORE and TEXT_LAST objects gives their texts joined and consumes exactly their bytes, whatever follows |
| `MmiMenu.MenuComesBack` | 3party/libdvben50221/en50221_app_mmi.c:884-938 | A menu of up to 252 choices gives exactly its texts and leaves exactly what follows it |
| `MmiMenu.RawMenuComesBack` | 3party/libdvben50221/en50221_app_mmi.c:950-953 | Choice count 0xff gives three texts and the rest as raw items |
| `MmiMenu.MenuComesBackIff` | 3party/libdvben50221/en50221_app_mmi.c:884-888 | A well-formed menu comes back exactly when it has at most 252 choices: at 253 and 254 the one-byte text count wraps |
| `MmiResource.Resource.Reassemble` | 3party/libdvben50221/en50221_app_mmi.c:1172-1301 | Records, status and reassembled object are those of Defragment |
| `MmiResource.ReadText` | 3party/libdvben50221/en50221_app_mmi.c:1303-1397 | Text, status, bytes consumed and error are those of the recursive ParseText, on every input |
| `MmiResource.ReadTexts` | 3party/libdvben50221/en50221_app_mmi.c:916-938 | The texts and the rest, or the first failure, on every input |
| `MmiResource.ReadMenu` | 3party/libdvben50221/en50221_app_mmi.c:878-953 | On every input what the callback gets, an error, or the open outcome, as ParseMenu says |
| `MmiResource.Resource.ParseListMenu` | 3party/libdvben50221/en50221_app_mmi.c:841-1009 | Records and outcome are those of OnListMenu: refused, waiting for more, or the callback with the menu |
| `MmiResource.EveryFragmentIsHeld` | 3party/libdvben50221/en50221_app_mmi.c:869-881 | In every run of the handler, over objects of any sessions and kinds, MORE and LAST, well-formed or cut short, it holds for each session and kind exactly the fragments since its last object |
| `MmiResource.EveryObjectIsAnswered` | 3party/libdvben50221/en50221_app_mmi.c:841-1009 | In every run: an object cut short is refused and changes nothing, a MORE waits, and a LAST shows or refuses all fragments of its session and kind since the last one, joined |
| `MmiResource.Unwrapped` | 3party/libdvben50221/en50221_app_mmi.c:852-867 | The object is the bytes that its length field announces, whatever follows them |
| `MmiResource.CutShort` | 3party/libdvben50221/en50221_app_mmi.c:858-862 | With fewer bytes than announced there is none |
| `MmiResource.MenuIsShown` | 3party/libdvben50221/en50221_app_mmi.c:841-1009 | After any run of the handler, a menu of up to 252 choices that was cut into objects anywhere, among other sessions' and kinds', is shown with exactly its texts |
| `TsRealign.NextTsOff` | src/u_drv_data.c:539-556 | The first offset that looks like a packet start, or -1 |
| `TsRealign.FirstFrom` | src/u_drv_data.c:539-556 | What first means: such an offset, none before it, and -1 only when there is none |
| `TsRealign.Realign` | src/u_drv_data.c:259-321 | For every input each node is a whole number of packets and the tail is shorter than one |
| `TsRealign.TransferKeepsAll` | src/u_drv_data.c:259-321 | One transfer of an aligned stream: node and new tail are old tail and received bytes |
| `TsRealign.EveryRunKeepsTheStream` | src/u_drv_data.c:259-321 | For an aligned stream cut into chunks of at least 188 bytes over any transfers, the queued nodes followed by the tail are the stream received |
| `TsRealign.EveryPacketBeginsWithSync` | src/u_drv_data.c:259-321 | So every packet of every node begins with 0x47 |
| `TsRealign.EveryChunkIsCut` | src/u_drv_data.c:269-320 | In sync or not, every chunk goes on with the packet that the tail began if 0x47 stands behind that; or else begins at the first place that looks like a start, the bytes before it dropped; or, without one, is passed over and the tail kept |
| `TsPool.Pool.constructor` | src/u_drv_data.c:55-75 | The initial pool, with the limit at least its default |
| `TsPool.Pool.TakeChunk` | src/u_drv_data.c:269-320 | What a chunk adds to the node is Out and the saved tail becomes Rest, for every chunk: not completed, in sync, out of sync, or short |
| `TsPool.Pool.RecordCallback` | src/u_drv_data.c:259-327 | One node, Realign of the old tail and the chunks, is queued, the tail is its remainder, and the readers' list is untouched |
| `TsPool.Pool.ProcessTs` | src/u_drv_data.c:145-163 | The oldest waiting node is shown to the hooks packet by packet and then moves to the readers' list as Insert says; nothing changes when none waits |
| `TsPool.RunHooks` | src/u_drv_data.c:135-145 | Each packet of the node whose PID has a hook is handed to it, in order, and no other |
| `TsPool.EveryPacketIsHooked` | src/u_drv_data.c:135-145 | With a hook on every PID the packets handed out are the node |
| `TsPool.HookedPacketsAreCalled` | src/u_drv_data.c:135-145 | With any set of hooks, the packets with a hooked PID are handed out with that PID, each once and in order, and nothing else is |
| `TsPool.Pool.ReadPass` | src/u_drv_data.c:641-673 | One pass under the lock: list, bytes and the number still wanted are those of Pass, and the reader's buffer changes exactly where those bytes go |
| `TsPool.Pool.ReadTsData` | src/u_drv_data.c:618-678 | The whole read with its waits, whatever is inserted between the passes: list, bytes and the number delivered are those of ReadAll, in the first bytes of the reader's buffer and nowhere else |
| `PatReplacement.ReplacePat` | src/u_drv_data.c:558-616 | Bytes and generator are those of the recursive Regenerate, on every input |
| `PatReplacement.ReplacePacket` | src/u_drv_data.c:575-609 | One packet: the generated table with its continuity counter, a null packet, or the packet itself |
| `PatReplacement.RegeneratedIsAlike` | src/u_drv_data.c:558-616 | Sizes are kept, and a byte changes only inside a packet that the scan stops at and that has PID 0 or 0x11 |
| `PatReplacement.GridPackets` | src/u_drv_data.c:573-576 | In a block of whole aligned packets the packets that the scan stops at are those of the 188-byte grid |
| `PatReplacement.TableCarriesCounter` | src/u_drv_data.c:577-583 | In place of each program association table the reader gets the generated one, whose continuity counter is the generator's plus the number of tables before it in the node, modulo 16 |
| `PatReplacement.DescriptionCarriesCounter` | src/u_drv_data.c:586-606 | In place of each service description the reader gets the next of the generated packets in turn, and the continuity counter common to them runs on likewise |
| `PatReplacement.TurnedModulo` | src/u_drv_data.c:597-600 | In turn means modulo their number |
| `PatReplacement.PidBits` | src/u_drv_data.c:575-576 | The PID is the low thirteen bits of the second and third byte |
| `PatReplacement.DescriptionBecomesNull` | src/u_drv_data.c:586-600 | Without generated description packets, in place of each service description the reader gets a null packet with its other bytes as they were |
| `PatReplacement.ContinuityRunsOn` | src/u_drv_data.c:578-581 | From node to node the generator's counter runs on over the tables of each, modulo 16 |
| `PatReplacement.GridIsKept` | src/u_drv_data.c:573-609 | Replacement keeps a sync byte at every packet boundary |
| `TsList.EveryRunConserves` | src/u_drv_data.c:147-163 | In every run of insertions, reads and table changes: ts_list_size is the sum of the queued sizes and within the limit, nodes leave in order of insertion, what was delivered is a prefix of each up to its read_off, and delivered and still queued bytes are those that arrived but for the replaced packets |
| `TsList.EveryRunChangesOnlyService` | src/u_drv_data.c:558-616 | For whole aligned nodes, in every run a delivered or queued byte differs from the one that arrived only where its own 188-byte packet has PID 0 or 0x11 |
| `TsList.EvictsOldest` | src/u_drv_data.c:153-159 | Eviction removes the oldest nodes |
| `TsList.EvictsLeast` | src/u_drv_data.c:153-159 | And no more of them than it must |
| `TsList.PassKeeps` | src/u_drv_data.c:641-673 | A pass keeps the list invariant, delivers what it counts, and comes up short only when the list is empty |
| `TsList.ReadAllKeeps` | src/u_drv_data.c:618-678 | A whole read, with any insertions between its passes, keeps the list invariant, delivers what it counts once and in order, and still wants bytes only when the list is empty |
| `TsList.ReadersFreeOnlyReadNodes` | src/u_drv_data.c:655-663 | A reader frees only nodes that were read to the end |
| `TsList.NothingIsLost` | src/u_drv_data.c:641-673 | Without replacement and eviction, what was delivered followed by what is queued is exactly what was inserted |
| `TsPresented.EveryReadIsServed` | src/u_drv_data.c:618-678 | With a generator set, a whole read, with any insertions and evictions between its passes, meets nodes in order: of each it hands out successive bytes; one not met before has all its tables replaced once, before anything is handed out and however it is read; one met before is not replaced again; and the nodes behind the first are untouched |
| `TsPresented.EveryRunIsServed` | src/u_drv_data.c:618-678 | The same for every run of insertions and reads until another generator is set |
| `TsPresented.RunGoesOn` | src/u_drv_data.c:618-678 | Every run comes to such a continuation of the store it had reached |
| `TsPresented.TablesAreGenerated` | src/u_drv_data.c:577-583 | So each packet with PID 0 that readers get of a node not met before is, where it stands in what they got, the generated table, its continuity counter counting all tables replaced before it, in earlier nodes and in its own, modulo 16 |
| `TsPresented.DescriptionsAreGenerated` | src/u_drv_data.c:592-606 | And each with PID 0x11 is the generated description packet whose turn it is, with its counter |
| `TsPresented.DescriptionsAreNull` | src/u_drv_data.c:586-591 | Or a null packet when there are none |
| `ListHead.AddTail` | include/joker_list.h:49-70 | The ring stands for the sequence with the item appended |
| `ListHead.Del` | include/joker_list.h:108-130 | The ring stands for the sequence without the entry, whose pointers are poisoned |
| `ListHead.Empty` | include/joker_list.h:96-99 | The test on the head is exact |
| `ListHead.First` | include/joker_list.h:80-91 | The entry at the front of the sequence |
| `ListHead.RingsAgree` | include/joker_list.h:37-70 | A ring determines the sequence it stands for |
| `ListHead.DropSome` | include/joker_list.h:177-181 | Safe iteration that deletes some entries meets each entry once, in order, and leaves exactly the others |
| `TsDataPath.DataPathKeepsTheStream` | src/u_drv_data.c:145-678 | USB callback to reader: when nothing was replaced or evicted, delivered bytes, queued bytes, nodes not yet taken and the tail are exactly the stream received |
| `TsDataPath.OnlyTablesAreReplaced` | src/u_drv_data.c:145-678 | With tables replaced and nodes evicted: each node delivered or queued is what arrived over USB, but for whole packets with PID 0 or 0x11 |
| `Flash.Device.Write` | src/joker_spi.c:138-203 | 0 exactly when no transfer fails and the size is from 1 to 16 MiB, and then the whole memory is known: image, blank rest of the erased sectors, everything else as it was |
| `Flash.Device.WriteNext` | src/joker_spi.c:176-200 | When it succeeds, the memory is that after erasing ahead, if the page reaches the next sector, and programming the page |
| `Flash.Device.EraseSector` | src/joker_spi.c:50-88 | The addressed 256 KiB sector (24-bit address) is blank when it returns 0, and else the code of the transfer that failed is returned |
| `Flash.Device.WritePage` | src/joker_spi.c:90-133 | Bits are cleared in the addressed page when it returns 0, and else the code of the transfer that failed is returned |
| `Flash.StepWrites` | src/joker_spi.c:176-200 | Each page falls in a sector blank from there on, and no erase reaches a page already written |
| `Flash.ImageIsStoredIff` | src/joker_spi.c:157-200 | After success the flash holds the image exactly when it is shorter than 16 MiB or its first sector is blank |
| `Flash.FullImageIsNotStored` | src/joker_spi.c:157-200 | A 16 MiB image with a zero first byte is lost there: the last erase address wraps to 0 |
| `Flash.RestIsKept` | src/joker_spi.c:176-200 | Beyond the last erased sector nothing changes |
| `Search.Xmemmem` | src/joker_utils.c:289-345 | The first occurrence, or None exactly when there is none, for all haystacks and needles |
| `Search.Find` | src/joker_utils.c:301-344 | The same for any group whose elements are their own inverses |
| `Search.TestIsExact` | src/joker_utils.c:336-342 | Equal window sums and n-1 equal characters are the same as an occurrence |
| `Search.LastIsForced` | src/joker_utils.c:336-342 | They force the last character |
| `Search.Slide` | src/joker_utils.c:331-333 | The rolling update is the sum of the moved window |

## Left out

- TransportLayer.Layer.PollAll: takes the device handle and slot number of each slot as an input, and the bookkeeping of the pollfd array is not part of this model.
- TransportLayer.Layer.ProcessReceived: assumes that a transport callback is registered, as it is in every use.
- SessionLayer.Sessions.HandleOpenRequest: takes the resource id of a failed lookup, which the code leaves uninitialised, as an input.
- SendQueue.Queue.Append: is the linked queue on its own; inside the transport object a connection's queue is the sequence that the queue is proved to stand for.
- ListHead.AddTail: likewise is the linked list on its own; the pool and the table of programs hold the sequences that such a list is proved to stand for.
- TsPool.Pool.RecordCallback: the node grows as needed, where the code allocates the received size plus one packet, and resubmission of the transfer is not part of this model.
- TsPool.Pool.ReadTsData: what the producer inserts while the reader waits is an input, and a read whose input ends is left waiting.
- TsRealign.EveryRunKeepsTheStream: needs chunks of at least one packet; a shorter one makes the code look at bytes left from an earlier transfer, which the model does too, but then promises only whole packets and a short tail.
- PatReplacement.ReplacePacket: takes an empty array of service description packets as the null pointer.
- MmiMenu.TextComesBack: is about texts that lie inside the data; the parser does not compare a text's length with what is there, and what it then reads is left open.
- MmiResource.Resource.Reassemble: takes the kind and MORE or LAST where the code takes the tag; its branch for other tags has no caller.
- CaPmt.FormatPmt: builds its lists as sequences where the code links nodes and frees them again, and takes the program map as lists, since the section iterators are not part of this model.
- Flash.Device.Write: starts from the bytes of the file and an idle device; opening and reading the file is left out, and a failed write promises nothing about the memory.
- Section.ExtEncode: asks for the memory that the code touches, 5 bytes and, for a new CRC, a size of at least 4 within the buffer; below that the code writes outside the section.
- Search.Xmemmem: takes char as signed (`Search.Find` holds for either), and works on sequences and returns an offset where the code returns a pointer.
- Memory exhaustion, zero-size reallocation, and 32-bit wrap-around of sizes and counters.
- Threads and locks: every handler, visit and pass is one atomic step.
- en50221_sl_broadcast_data, the deregistration of callbacks, and the destructors.
- section_ext_useful and the psi_table_state that it updates.
- What becomes of MMI subtitle objects after their reassembly, and the fixed-field EN 50221 messages: they would add only easy members.
- Generation of tables that need more than one packet, where the code reuses the packet.
