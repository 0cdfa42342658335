# PyConnect: a verified model

PyConnect connects C++ programs to a Python interpreter. A *wrapper* inside the C++ program
publishes attributes and methods; a *stub* inside the interpreter registers each wrapper as a
module, mirrors its attributes and calls its methods. The two exchange framed messages over
byte streams. This project models both ends and proves what the protocol is for.

The files, from the bytes upwards:

| file | contents |
|---|---|
| `Common.dfy` | variable-length integers, strings, numbers, typed values and the decoding cursor |
| `Buffers.dfy` | the same writers over a byte array, as the original fills its buffers |
| `OrderedMap.dfy`, `Names.dfy` | `std::map` with integer and with string keys: order, lookup, insertion |
| `Framing.dfy` | the frame `'#' len16 payload '@'`, and the receive loop as a function of reads |
| `FramingLosses.dfy` | exactly what is lost when a read ends at an unsafe cut |
| `ClientList.dfy` | the classes with the linked list of connections and the receive loop itself |
| `Messages.dfy` | every message: encoders, sizes, decoders, round trips |
| `Registry.dfy` | the stub's list of modules and its ids |
| `Routing.dfy` | `ObjectComm`, and runs of a stub's node: accept, read, broadcast, call, close |
| `Channels.dfy` | the choice of a connection on either side, over every sequence of messages |
| `Protocol.dfy` | any number of stubs and wrappers over FIFO channels, as a transition system |
| `Registration.dfy` | safety of ids and calls over all runs |
| `Coherence.dfy`, `FifteenModules.dfy` | coherence of the mirrors over all runs, and why its bound is sharp |
| `WrapperModel.dfy`, `WrapperObject.dfy` | the wrapper on bytes: functions, and the class proved to compute them |
| `StubModel.dfy`, `StubObjects.dfy` | the stub on bytes: functions, and the classes proved to compute them |
| `StubRules.dfy` | which Python statements are refused, and in which mode the others go out |
| `Calls.dfy` | a Python name to the C++ member and back, through the bytes |
| `WrapperRules.dfy` | what a wrapper answers to requests, and makes of missing arguments and closed connections |
| `WireExamples.dfy` | the messages of one small module, byte by byte |
| `Conversations.dfy` | whole conversations: one Python statement, there and back |
| `Refinement.dfy` | the code on bytes refines the transition system, message by message |
| `ByteNetwork.dfy` | any number of stubs and wrappers that work on bytes, connected by queues of encoded messages |
| `ByteQueues.dfy`, `Simulation.dfy` | when such a network is in a state of the transition system |
| `StubSteps.dfy`, `StubStatements.dfy`, `WrapperSteps.dfy` | each kind of step keeps the two together |
| `ByteRuns.dfy` | every run of the network on bytes is one of the transition system, and what follows |
| `ByteCalls.dfy`, `ByteUpdates.dfy` | over these runs: method calls there, updates and their callbacks back |
| `Joining.dfy` | a wrapper registers and is mirrored, as a run of the network on bytes |
| `ByteStreams.dfy` | the same network with framed byte streams, read in pieces, for channels |

## Main results

* **Framing.** However a stream is cut into reads, the receive loop delivers exactly the payloads
  sent *if and only if* no read ends behind byte 1, 2 or 3 of a frame or directly before its end
  byte; this holds from any state at a frame boundary, hence also after every error
  (`DeliveredExactlyWhenSafe`), and for each connection whatever the others do
  (`StreamsDoNotDisturbEachOther`). After an unsafe cut exactly those frames are delivered that are
  completed in step with the stream, as long as no read out of step starts like a frame
  (`DeliveredWhileInStep`); a payload that contains a frame shows why (`FalseStart`). The
  heap-allocated list and its loop compute the function these theorems are about.
* **Registration.** In every run a wrapper's id for a stub is unassigned or was issued to this
  very wrapper, so a request is carried out only where its module lives.
* **Coherence.** In every run in which a stub has issued at most 14 ids, whatever the other
  stubs have issued, its settled mirrors equal the wrappers' values, and its updates arrive
  complete and in order. Mirrors are coherent up to k ids *if and only if* k <= 14
  (`CoherentUpToFourteen`): with 15 ids there is a run in which a mirror is wrong for good. The
  source masks ids to four bits, which suggests 15; the id byte 255 of a wrapper that has no id
  yet is masked to 15 as well, so the fifteenth id is already unsafe.
* **Routing.** In every run with at most 15 ids, one declaration a read and one module a
  connection, each module is routed to the connection on which it was declared, and closing that
  connection removes the module and the route and nothing else. Both side conditions are shown
  to be needed. On stub and wrapper alike each message follows the last message that tied its
  key to a connection (`MessagesFollowTheLastTie`), and none is dropped between a tie and the next
  tie or close (`DeliveredUntilTheNextTie`).
* **Remote call.** Setting or calling by name reaches the C++ member of that name with exactly
  the values given; the answer comes back to the callback of this member, and the mirror then shows
  the new value (`SetComesBack`, `CallComesBack`). The answers to a call are stated for both modes,
  for void methods and others, and for methods that throw (`CallIsCarriedOut`). A call is refused
  *if and only if* a value is missing, is one too many or has the wrong type (`CallIsRefused`), and
  an assignment likewise (`SetIsRefused`).
* **Refinement.** Each step of the transition system, from discovery to shutdown, is one operation of
  the stub or the wrapper on encoded messages, and the messages it leaves out change nothing it
  sees; the classes, which fill arrays of a size computed beforehand, are proved equal to the
  functions used there.
* **The network on bytes.** Stubs and wrappers that run `processInput` on queues of encoded messages,
  with sets and calls from Python, writes by the programs, disconnects and shutdowns, are simulated
  by the transition system over every run in which no stub takes a message after it has issued more
  than 14 ids (`RunsAreTheMachines`). Hence no step of such a run reads beyond a message or past the
  end of a container (`EveryStepIsDefined`). Whenever nothing about an attribute is on its way
  between a stub and a wrapper, the Python object has it at its place, under its name and with its
  value (`ObjectsAreCoherent`); such a state is reached from every initial one (`WrapperJoins`). What
  the refinement assumes of single messages is proved there.
* **Calls and updates over runs.** In every such run, what a wrapped program has carried out for a stub
  are requests made at that stub, in order and each at most once (`CallsArriveInOrder`), and a
  program is never called unasked (`EveryCallWasAsked`). The update callbacks a Python object has had
  since EXPOSE, followed by the UPDATE messages queued for it, are the values its wrapper has
  announced, in order (`UpdatesAreHeardInOrder`).
* **Over streams.** If the messages are written as frames into byte streams and read back in pieces
  that end at safe cuts, messages are delivered exactly as the queues would hand them out
  (`StreamsCarryMessages`), and definedness and coherence hold there too
  (`StepsOverStreamsAreDefined`, `CoherentOverStreams`).

Where the code fails a promise, the exact condition is proved: `PackIntRoundTrip`,
`ShortStringRoundTrip`, `LongStringRoundTrip`, `LEIntRoundTrip`, `ShortRoundTrip`,
`ArgumentCountLimit`, `DeliveredExactlyWhenSafe`, `FalseStart`, `CoherentUpToFourteen`,
`SecondDeclarationIsNeverRouted`, `ClosingTakesTheFirstRoute`. Two results are about inputs that
the protocol itself never produces: `PackedIntLenExact` (a negative number would reserve two bytes
and write none) and `SecondExposeShiftsMethods` (an object that was given its interface twice).

## Conventions

A function that decodes returns `None` where the original would read beyond the message, walk past
the end of a container or call through a null pointer. `sent`, `calls` and `callbacks` record, in
order, what an object handed to the network, to the wrapped program or to Python. Fields called
history in a comment (`home`, `seen`, `told`, `last`, `dirty`) are kept by the model only. What the
wrapped program does when a method is called is a parameter (`Behaviour`).

## Model

| member | source | states |
|---|---|---|
| `Common.PackedIntLenExact` | PyConnectCommon.cpp:355-379 | the size computed for an integer is the number of bytes written exactly when the integer is not negative |
| `Common.PackIntRoundTrip` | PyConnectCommon.cpp:340-370 | an integer comes back, with the cursor behind it, if and only if it is in 0..32767 |
| `Common.CString` | PyConnectCommon.cpp:417-426 | what a C string keeps is everything before the first NUL, and all of it exactly when there is none |
| `Common.ShortStringRoundTrip` | PyConnectCommon.cpp:381-427 | a name comes back from its one-byte form if and only if it has at most 255 bytes and no NUL |
| `Common.LongStringRoundTrip` | PyConnectCommon.cpp:381-427 | a text comes back from its extended form if and only if it has at most 32767 bytes and no NUL |
| `Common.LEIntRoundTrip` | PyConnectCommon.h:355-391 | an integer comes back as its 32-bit cast, hence unchanged exactly when it is 32 bits wide |
| `Common.WireIsHostIndependent` | PyConnectCommon.h:355-373 | a big-endian and a little-endian host put the same bytes on the wire |
| `Common.ValidatedSizeExact` | PyConnectCommon.cpp:472-511 | the size answered for a value, a bool given for an int and a string with a NUL included, is the size packed, and 0 is answered exactly for a value of the wrong type |
| `Common.ArrivalPacks` | PyConnectCommon.cpp:537-562 | an int travels as its 32-bit cast, a bool given for an int as 0 or 1, a string up to its first NUL |
| `Common.ArrivesAsGiven` | PyConnectCommon.cpp:537-562 | what arrives of a value of the declared type is the value given; an int loses what is beyond 32 bits, a string what is behind a NUL, and a bool given for an int is 0 or 1 |
| `Common.AnyByteIsBool` | PyConnectCommon.cpp:598-604 | of the byte of a bool the stub looks at the lower four bits and the wrapper at all, and a wrapper with no byte left to count takes it for false |
| `Common.StubUnpackOfPacked` | PyConnectCommon.cpp:572-608 | the stub reads every packed value back and stops behind it; for a bool the count is not reduced |
| `Common.WrapperGetOfPacked` | PyConnectWrapper.h:143-155 | the wrapper reads every packed value back, takes its exact size off the count and stops behind it |
| `Buffers.PackIntToStr` | PyConnectCommon.cpp:355-370 | the bytes of the encoding stand behind those written before, and the number of bytes is returned |
| `Buffers.PackString` | PyConnectCommon.cpp:381-397 | length and characters stand behind the bytes written before, in either form |
| `Buffers.PackToLENumber` | PyConnectCommon.h:355-373 | either build of the loop writes the number lowest byte first |
| `Buffers.UnpackLENumber` | PyConnectCommon.h:374-391 | either build of the loop leaves the number in the host's own byte order and takes its size off the count |
| `OrderedMap.AssignSets` | PyConnectObjComm.cpp:131-133 | assigning one key of a map changes that key only and keeps the iteration order |
| `OrderedMap.FirstWithIsThere` | PyConnectObjComm.cpp:162-166 | the search by value finds the smallest key with that value, and finds one if there is any |
| `Names.FoundAt` | PyConnectWrapper.cpp:458-491 | in a name-ordered map each element is found under its own name at its own distance from the beginning |
| `Names.LessAtFirstDifference` | PyConnectWrapper.h:98 | the order of names is that of their first difference, byte by byte without sign |
| `Names.InsertKeeps` | PyConnectWrapper.cpp:546-547 | adding a new name keeps the order, adds that element and loses none |
| `Names.SortedUnique` | PyConnectWrapper.h:98 | a name-ordered map is determined by its elements |
| `Framing.NativeShort` | PyConnectNetComm.cpp:626-628 | the two bytes, in the host's order, make up the number |
| `Framing.ShortRoundTrip` | PyConnectNetComm.cpp:374-375 | a frame length is understood if and only if both ends have the same byte order or its two bytes are equal |
| `Framing.FillDispatchBuffer` | PyConnectNetComm.cpp:624-632 | the buffer holds exactly the frame of the payload, and the length returned is that of the frame |
| `Framing.FeedBounded` | PyConnectNetComm.cpp:364-444 | whatever bytes arrive, the buffered and the expected bytes together never exceed the buffer |
| `Framing.FeedConserves` | PyConnectNetComm.cpp:364-444 | for arbitrary bytes, the frames delivered and the frame begun account for at most the bytes that came in |
| `Framing.FeedAllConserves` | PyConnectNetComm.cpp:322-444 | the same over any sequence of reads |
| `Framing.SafeReadsDeliver` | PyConnectNetComm.cpp:361-444 | reads that end at safe cuts deliver every payload once and in order, also from the middle of a frame |
| `Framing.UnsafeReadsLose` | PyConnectNetComm.cpp:366-391 | a read that ends at an unsafe cut loses bytes for good |
| `Framing.DeliveredExactlyWhenSafe` | PyConnectNetComm.cpp:361-444 | exactly the payloads sent are delivered if and only if every read ends at a safe cut, from any state at a frame boundary |
| `FramingLosses.DeliveredWhileInStep` | PyConnectNetComm.cpp:361-444 | for reads of any lengths of which none out of step starts like a frame, exactly the frames completed in step are delivered |
| `FramingLosses.LostAndFound` | PyConnectNetComm.cpp:436-443 | an unsafe cut costs the frame it falls into and the whole next read; behind a read that ends between two frames everything is delivered again |
| `FramingLosses.CutBeforeTheEndByte` | PyConnectNetComm.cpp:385-390 | a cut directly before an end byte costs this frame and the whole next read, whatever the bytes are |
| `FramingLosses.FalseStart` | PyConnectNetComm.cpp:366-398 | a cut behind the third byte of a frame whose payload contains a frame delivers a payload that nobody sent |
| `ClientList.ClientFD.Receive` | PyConnectNetComm.cpp:361-444 | the loop over one read terminates, stays inside the read and the buffer, and computes the function of the framing theorems |
| `ClientList.ClientFD.NewMessage` | PyConnectNetComm.cpp:365-403 | one new message: delivered, begun or dropped, leaving strictly fewer bytes to look at |
| `ClientList.ClientFD.PatchCached` | PyConnectNetComm.cpp:404-435 | a cached message is completed, continued or dropped, leaving strictly fewer bytes to look at |
| `ClientList.NetComm.DestroyCurrentClient` | PyConnectNetComm.cpp:1220-1263 | the node is unlinked, its descriptor cleared, and the two pointers stand at the successor and its predecessor |
| `ClientList.NetComm.Visit` | PyConnectNetComm.cpp:325-454 | one iteration does to one connection what the read demands and keeps list, set and pointers consistent |
| `ClientList.NetComm.ProcessIncomingData` | PyConnectNetComm.cpp:322-456 | the loop that deletes while it iterates visits every connection once, in order, and keeps list and descriptor set consistent |
| `ClientList.NetComm.AddFdToClientList` | PyConnectNetComm.cpp:1158-1197 | the connection is appended, its descriptor set, and it becomes the active one |
| `ClientList.NetComm.DestroyClient` | PyConnectNetComm.cpp:1273-1317 | exactly the connection with this descriptor is unlinked, if there is one |
| `ClientList.PollTreatsAlone` | PyConnectNetComm.cpp:322-455 | a pass treats each connection as if it were the only one |
| `ClientList.PollKeeps` | PyConnectNetComm.cpp:332-343 | a pass keeps, in order, exactly the connections that were not ready or whose read succeeded |
| `ClientList.PollAllFeeds` | PyConnectNetComm.cpp:458-487 | over any run of passes a connection is fed its own reads and nothing else |
| `ClientList.StreamsDoNotDisturbEachOther` | PyConnectNetComm.cpp:322-487 | whatever the interleaving, a connection delivers exactly what its peer sent if and only if its own reads end at safe cuts of its own stream |
| `Messages.ExposeRoundTrip` | PyConnectStub.cpp:983-1011 | decoding EXPOSE gives back names, types, flags, values, return types and arguments of the whole interface in order and stops at the end byte |
| `Messages.ArgumentCountLimit` | PyConnectStub.cpp:1000 | a method survives the encoding if and only if it has at most 15 arguments |
| `Messages.DescRoundTrip` | PyConnectStub.cpp:568-581 | decoding DESC gives back every description in the order of the interface and stops at the end byte |
| `Messages.DeclareRoundTrip` | PyConnectStub.cpp:926-932 | option, name and description of a declaration come back and the end byte is what remains |
| `Messages.PortRoundTrip` | PyConnectNetComm.cpp:493-505 | the receiver of a broadcast gets the spliced port and, byte for byte, the original message |
| `Messages.BroadcastDeclareRoundTrip` | PyConnectNetComm.cpp:680-689 | name and description of a broadcast declaration survive the splice |
| `Messages.IndexRoundTrip` | PyConnectWrapper.cpp:395-398 | index and data of a call or an answer come back, with the size of the data as the remaining count |
| `Messages.AssignRoundTrip` | PyConnectWrapper.cpp:358-361 | the assigned id and the module name come back |
| `WireExamples.ExposeBytes` | PyConnectWrapper.cpp:135-232 | the bytes of EXPOSE for a module with two attributes and a method |
| `Registry.OrderedPairs` | PyConnectStub.cpp:711-719 | of any two modules the earlier one has the smaller id, and their names differ |
| `Registry.DeclareRegisters` | PyConnectStub.cpp:926-938 | a declaration registers its name under the next id exactly when the name is new, not empty and an id is left, and touches no other module |
| `Registry.DeleteRemoves` | PyConnectStub.cpp:840-865 | a deletion removes exactly that id |
| `Registry.IdsNeverReturn` | PyConnectStub.cpp:707-791 | over any sequence of declarations and deletions names stay distinct, ids increase within 1..255 and a removed id never names a module again |
| `Routing.ObjectComm.GetLastUsedCommChannel` | PyConnectObjComm.cpp:85-93 | the active connection is handed out once |
| `Routing.ObjectComm.SetLastUsedCommChannel` | PyConnectObjComm.cpp:103-116 | a valid connection becomes the active one |
| `Routing.ObjectComm.FindOrAddCommChanByMsgID` | PyConnectObjComm.cpp:118-152 | new state and connection are those of the routing function the run theorems use, on a stub and on a wrapper |
| `Routing.ObjectComm.ObjCommChannelShutdown` | PyConnectObjComm.cpp:159-186 | only the smallest key mapped to the connection is erased, and the message made up for the processor names it |
| `Routing.ModulesAreRoutedHome` | PyConnectObjComm.cpp:118-152 | in every run with at most 15 ids each registered module is routed to the open connection it was declared on, and to no other module's |
| `Routing.MessagesLeaveOnTheirConnection` | PyConnectNetComm.cpp:601-639 | in every such run each message ever written for a module id went to the connection that module was declared on |
| `Routing.ClosingRemovesTheModule` | PyConnectNetComm.cpp:341-342 | in every such run closing a connection removes it, its route and its module, and nothing else |
| `Routing.StaleRoutesStayStale` | PyConnectStub.cpp:787-790 | a route left over from a removed module never becomes the route of a module again |
| `Routing.KnownNameLeavesNoTrace` | PyConnectNetComm.cpp:687-694 | a broadcast declaration of a registered name leaves modules, routes and connections as they were; only the active connection is forgotten |
| `Routing.SecondDeclarationHasNoRoute` | PyConnectObjComm.cpp:131-133 | a second module declared in the same read is registered without a route |
| `Routing.SecondDeclarationIsNeverRouted` | PyConnectObjComm.cpp:131-133 | in no run that follows does such a module get a route |
| `Channels.MessagesFollowTheLastTie` | PyConnectObjComm.cpp:118-152 | on a stub each message for a module leaves on the connection of the last ASSIGN_ID for it, on a wrapper each message for a server on that of the last DECLARE or EXPOSE for it, whatever else is sent and closed |
| `Channels.DeliveredUntilTheNextTie` | PyConnectObjComm.cpp:118-152 | ASSIGN_ID on a stub, DECLARE or EXPOSE on a wrapper, written while a connection is active, goes there, and so does every later message for the same id until the id is tied anew or the connection closes |
| `Channels.TieIsWritten` | PyConnectObjComm.cpp:85-93 | such a message uses the active connection up and changes no other route; without one it is dropped |
| `Channels.DiscoveryIsWritten` | PyConnectObjComm.cpp:134-139 | the DISCOVERY of a stub goes to the active connection, uses it up and ties nothing |
| `Routing.ClosingTakesTheFirstRoute` | PyConnectObjComm.cpp:162-184 | without the limits, exactly the module with the masked smallest routed id and exactly the smallest route are removed |
| `Routing.AcceptedDeclaration` | PyConnectStub.cpp:641-656 | the answer to a declaration uses up the active connection and binds the new id to it |
| `Routing.StepKeeps` | PyConnectNetComm.cpp:322-455 | every step of a stub's node keeps the routing invariant |
| `Registration.StepKeeps` | PyConnectWrapper.cpp:331-390 | every step of every stub and wrapper keeps the invariant on ids, queues and entries |
| `Registration.HeldIdsWereIssued` | PyConnectWrapper.cpp:333-389 | in every run a wrapper's id for a stub is -1 or one this stub issued to this wrapper, so no two wrappers share one |
| `Registration.CallsReachTheirModule` | PyConnectWrapper.cpp:380-390 | in every run a request to set an attribute is carried out only by the wrapper that was given the id, under whose name the stub has the module; `ByteCalls.EveryCallWasAsked` says it of method calls |
| `Coherence.StepCo` | PyConnectStub.cpp:1031-1041 | every step keeps the relation between the mirrors of a stub, the queued messages and the wrappers' values, whatever other stubs do |
| `Coherence.MirrorsAreCoherent` | PyConnectStub.cpp:453-465 | in every run in which its stub has issued at most 14 ids a mirrored attribute with nothing on its way equals the wrapper's announced value, in both callback modes |
| `Coherence.UpdatesArriveInOrder` | PyConnectWrapper.h:326-349 | in every such run the updates received and then those in flight are what the wrapper announced since EXPOSE, in order |
| `FifteenModules.CoherentUpToFourteen` | PyConnectStub.cpp:969 | mirrors are coherent in all runs with at most k ids at the stub if and only if k is at most 14 |
| `FifteenModules.FifteenAreTooMany` | PyConnectStub.cpp:969 | a run with 15 ids in which a settled mirror differs from its wrapper: the update of an unassigned wrapper reaches module 15 |
| `WrapperModel.DecodedFits` | PyConnectWrapper.h:143-155 | from any bytes whatever, a decoded value has its declared type and can be sent on unchanged |
| `WrapperModel.ProcessInputKeepsValid` | PyConnectWrapper.cpp:299-456 | every message, of whatever content, keeps the maps ordered and the interface unchanged but for well-typed values |
| `WrapperObject.PyConnectWrapper.AddNewAttribute` | PyConnectWrapper.cpp:526-548 | an attribute is added under a new name of at most 255 bytes and refused otherwise |
| `WrapperObject.PyConnectWrapper.AddNewMethod` | PyConnectWrapper.cpp:550-571 | a method is added under a new name of at most 255 bytes and refused otherwise |
| `WrapperObject.PyConnectWrapper.ExportMethod` | PyConnectWrapper.h:652-672 | the two reversals cancel out: the published argument types are those of the C++ member, in its order, none optional |
| `WrapperObject.PyConnectWrapper.DeclarePyConnectModule` | PyConnectWrapper.cpp:99-133 | the buffer of the computed size is filled exactly by the declaration |
| `WrapperObject.PyConnectWrapper.DeclareModuleAttrMetd` | PyConnectWrapper.cpp:135-232 | the buffer of the computed size is filled exactly by EXPOSE, end byte last |
| `WrapperObject.PyConnectWrapper.DeclareModuleAttrMetdDesc` | PyConnectWrapper.cpp:234-297 | the buffer of the computed size is filled exactly by DESC, end byte last |
| `WrapperObject.PyConnectWrapper.SendAttrMetdResponse` | PyConnectWrapper.cpp:493-524 | the buffer of the computed size is filled exactly by the answer; an unknown server gets a blank entry |
| `WrapperObject.PyConnectWrapper.MeasureAttributes` | PyConnectWrapper.cpp:145-160 | the sizes added up are the number of bytes the attributes take |
| `WrapperObject.PyConnectWrapper.MeasureMethods` | PyConnectWrapper.cpp:162-170 | the sizes added up are the number of bytes the methods take |
| `WrapperObject.PyConnectWrapper.ValidateAttribute` | PyConnectWrapper.cpp:458-474 | an index is accepted exactly when the attribute at it has the name; the end of the map exactly when no attribute has it |
| `WrapperObject.PyConnectWrapper.ValidateMethod` | PyConnectWrapper.cpp:476-491 | an index is accepted exactly when the method at it has the name; the end of the map exactly when no method has it |
| `WrapperObject.PyConnectWrapper.UpdateAttribute` | PyConnectWrapper.h:325-349 | every server that wants updates gets one, in the order of their ids, and nobody else |
| `WrapperObject.PyConnectWrapper.SetAttrValue` | PyConnectWrapper.h:509-533 | the decoded value is assigned to this attribute and announced |
| `WrapperObject.PyConnectWrapper.MethodCall` | PyConnectWrapper.h:597-650 | the method is called once with the decoded arguments and answered as mode, result type and behaviour demand |
| `WrapperObject.PyConnectWrapper.ProcessInput` | PyConnectWrapper.cpp:299-456 | new state and result are those of the function the call and refinement theorems are about, and the invariant is kept |
| `WrapperObject.PyConnectWrapper.ModuleShutdown` | PyConnectWrapper.cpp:587-604 | every known server is told once, in order, the server map is emptied and the module destroyed |
| `StubObjects.PyConnectObject.SetAttribute` | PyConnectStub.cpp:399-493 | reserved names, read-only attributes, wrong types and method names are refused; otherwise one message is sent, and the mirror written only in no-callback mode |
| `StubObjects.PyConnectObject.PyCall` | PyConnectStub.cpp:1084-1147 | a call that is refused sends nothing; any other sends one message with the method's index and the packed arguments |
| `StubObjects.PyConnectObject.PackArguments` | PyConnectStub.cpp:1121-1133 | both packing loops fill the measured buffer exactly |
| `StubObjects.PackedEitherWay` | PyConnectStub.cpp:1101-1121 | the size measured beforehand is right for either packing order |
| `StubRules.CallIsRefused` | PyConnectStub.cpp:1084-1110 | a call raises an exception and sends nothing if and only if fewer values are given than arguments are needed, more than there are, or one of the wrong type; any other sends one message of the object's mode |
| `StubRules.ExportedNeedsAll` | PyConnectStub.cpp:1085-1095 | an exported method is called with exactly as many values as it has parameters, each of its type, or not at all |
| `StubRules.SetIsRefused` | PyConnectStub.cpp:399-493 | an assignment raises an exception if and only if its name is reserved, read-only or a method's, or the value has the wrong type; otherwise the object is changed and a message sent as name and mode demand |
| `StubRules.SwitchedMode` | PyConnectStub.cpp:405-412 | setting `__nocallback__` puts the object in exactly this mode, and the next set or call goes out with its message type |
| `StubRules.NamesAMethod` | PyConnectStub.cpp:343-377 | a name is a method's if it is neither reserved nor an attribute's, and the first method of the name is meant |
| `StubRules.NewModuleIsEmpty` | PyConnectStub.cpp:707-791 | a new object has the next id, no interface, callbacks on, and the given or the standard description |
| `StubRules.InterfaceIsTold` | PyConnectStub.cpp:984-1016 | EXPOSE leads to the creation callback with the module's id |
| `StubRules.ShutdownIsTold` | PyConnectStub.cpp:840-865 | MODULE_SHUTDOWN removes the module at its place and leads to the destruction callback with its name |
| `StubRules.PeerIsTold` | PyConnectStub.cpp:947-960 | a message from another interpreter leads to its callback with the text |
| `StubObjects.PyConnectObject.OnSetAttrMetdResp` | PyConnectStub.cpp:495-536 | an answer sets the attribute at its index or leads to the callback of the element at its index |
| `StubObjects.PyConnectObject.OnGetAttrResp` | PyConnectStub.cpp:538-566 | an update sets the attribute at its index and no other |
| `StubObjects.PyConnectObject.OnExpose` | PyConnectStub.cpp:984-1011 | the loops append all decoded attributes and methods in order |
| `StubObjects.PyConnectObject.OnSetAttrMetdDesc` | PyConnectStub.cpp:568-581 | the loops store each description at the element of its position |
| `StubObjects.PyConnectStub.RemoteAttrMethodCall` | PyConnectStub.cpp:611-639 | the buffer of the computed size is filled exactly by the call; an object without id sends nothing |
| `StubObjects.PyConnectStub.AssignModuleID` | PyConnectStub.cpp:641-656 | the buffer of the computed size is filled exactly by ASSIGN_ID |
| `StubObjects.PyConnectStub.SendDiscoveryMsg` | PyConnectStub.cpp:1157-1168 | DISCOVERY is sent in this stub's name |
| `StubObjects.PyConnectStub.AddNewModule` | PyConnectStub.cpp:707-791 | a module is listed last under the next id and the id is sent, unless the name is empty or the ids are used up |
| `StubObjects.PyConnectStub.FindModuleByID` | PyConnectStub.cpp:793-803 | the loop finds the first module with the id |
| `StubObjects.PyConnectStub.FindModuleByName` | PyConnectStub.cpp:867-877 | the loop finds the first module of that name, and finds one exactly when the name is registered |
| `StubObjects.PyConnectStub.DeleteModuleByID` | PyConnectStub.cpp:840-865 | the first module with the id is erased and reported |
| `StubObjects.PyConnectStub.ShutdownModuleByRef` | PyConnectStub.cpp:805-838 | a listed object is erased after its wrapper was told; any other changes nothing |
| `StubObjects.PyConnectStub.ProcessInput` | PyConnectStub.cpp:892-1058 | new state and result are those of the function the call and refinement theorems are about |
| `Calls.ArgumentsArrive` | PyConnectWrapper.h:556-563 | for every typed argument list, packing as announced and decoding in evaluation order gives exactly the arguments, leaves the exact rest of the count and the cursor on what follows |
| `Calls.OrderMatters` | PyConnectWrapper.cpp:117-122 | with the wrong announcement two integers arrive swapped |
| `Calls.SetByName` | PyConnectStub.cpp:431-466 | setting by name assigns exactly this value to the wrapper's attribute of that name and no other, and announces it |
| `Calls.CallByName` | PyConnectWrapper.cpp:392-410 | calling by name calls exactly the wrapper's method of that name, once, with exactly these arguments |
| `Calls.CallIsAnswered` | PyConnectWrapper.h:597-650 | the exact answers to a call: one result in callback mode, none in no-callback mode, an exception report in either, and after it the success of a void method in callback mode |
| `Calls.SilentCallSendsNothing` | PyConnectWrapper.h:607-615 | a call made in no-callback mode of a method that returns sends nothing back |
| `Calls.ReplyReturnsToTheMethod` | PyConnectStub.cpp:515-528 | the reply leads to the callback of the method that was called, with its result |
| `Calls.ExceptionReturnsToTheMethod` | PyConnectWrapper.h:633-637 | the report of an exception leads to the failure callback of the method that was called |
| `Calls.AnswerSetsTheAttribute` | PyConnectStub.cpp:501-514 | an answer with a value sets the attribute at its index and leads to the callback of a set |
| `Calls.FailureIsReported` | PyConnectStub.cpp:495-566 | an answer with an error leads to the failure callback of the member at its index, or to that of an unknown index, with the number |
| `Calls.UpdateReachesTheAttribute` | PyConnectStub.cpp:547-559 | an update sets the mirrored attribute of the name it was announced for, and no other |
| `Calls.InterfaceArrives` | PyConnectWrapper.cpp:372-377 | after EXPOSE and DESC every element of the mirror has name, type, flags, value, arguments and description of the wrapper's element at that place |
| `Calls.RegistrationOrderDoesNotMatter` | PyConnectWrapper.cpp:192-226 | what is published does not depend on the order of registration |
| `Calls.SecondExposeShiftsMethods` | PyConnectStub.cpp:309-332 | after a second EXPOSE calls carry the right index if and only if there are no attributes |
| `Conversations.SetComesBack` | PyConnectWrapper.h:475-478 | setting by name in callback mode: one request, the wrapper's value changes, one answer to this stub, after which the mirror shows the wrapper's new value and the update callback is called |
| `Conversations.CallComesBack` | PyConnectWrapper.h:588-632 | calling by name in callback mode: one request, one call with exactly these arguments, one reply, and the completion callback of this method gets the result |
| `Conversations.CallIsCarriedOut` | PyConnectWrapper.h:597-650 | calling by name in either mode: one call with exactly the values given, and its answers take the stub to the completion callback, the failure callback, both for a void method that threw, or none in no-callback mode |
| `WrapperRules.ValueIsAnswered` | PyConnectWrapper.cpp:411-425 | a request for a value is answered with the value of the attribute at the index, and with nothing for any other index |
| `WrapperRules.UpdatesGoToListeners` | PyConnectWrapper.h:326-349 | an update goes out once to every stub that wants updates, under the id it assigned, and to no other |
| `WrapperRules.DescriptionIsAnswered` | PyConnectWrapper.cpp:426-443 | a request for a description is answered with that of the member at the index; for a method with its index among the methods |
| `WrapperRules.MissingFromHere` | PyConnectWrapper.h:143-155 | once a bool is due and no byte is left to count, this and every later evaluated argument is zero |
| `WrapperRules.ClosingForgetsTheStub` | PyConnectObjComm.cpp:168-186 | the notice of a closed connection makes a wrapper forget the stub routed there and no other |
| `Refinement.AnnouncementsMatch` | PyConnectWrapper.h:342-348 | what a wrapper sends for an update is, for each stub, exactly the announcement of the transition system |
| `Refinement.WrapperRefinesMachine` | PyConnectWrapper.cpp:299-456 | processing an encoded message is the transition system's step for that message: same state, same replies, same announcement |
| `Refinement.StubRefinesMachine` | PyConnectStub.cpp:892-1058 | processing an encoded message is the transition system's step for that message: same modules, same mirrors, same replies |
| `Refinement.SetRefinesMachine` | PyConnectStub.cpp:440-466 | setting from Python is the transition system's step: same message, and the same mirror in either callback mode |
| `Refinement.DisconnectRefinesMachine` | PyConnectStub.cpp:805-838 | disconnecting from Python is the transition system's step, with the message byte for byte |
| `Refinement.DiscoverRefinesMachine` | PyConnectStub.cpp:1157-1168 | looking for modules is the transition system's step |
| `Refinement.AdvertiseRefinesMachine` | PyConnectWrapper.cpp:99-133 | broadcasting a declaration is the transition system's step |
| `Refinement.LocalWriteRefinesMachine` | PyConnectWrapper.h:475-476 | an assignment by the wrapped program is the transition system's step |
| `Refinement.PublishRefinesMachine` | PyConnectWrapper.h:325-349 | announcing an attribute by name is the transition system's step, for every stub |
| `Refinement.QuitRefinesMachine` | PyConnectWrapper.cpp:592-597 | on shutdown a wrapper sends each stub exactly what the transition system says |
| `Refinement.WrapperStutters` | PyConnectWrapper.cpp:391-448 | method calls, requests and unknown messages leave all the transition system sees of a wrapper |
| `Refinement.StubStutters` | PyConnectStub.cpp:1020-1044 | descriptions, and answers that carry no attribute value, leave all the transition system sees of a stub |
| `StubSteps.TakesExpose` | PyConnectStub.cpp:984-1011 | in a state of the simulation EXPOSE finds its module without an interface, and leaves it with the wrapper's |
| `StubSteps.TakesStutter` | PyConnectStub.cpp:1020-1044 | DESC and method answers find their module with its interface, so that they stay within its vectors |
| `WrapperSteps.RequestTaken` | PyConnectWrapper.cpp:299-456 | a queued request is taken within its bounds, and what goes out to each stub is what the transition system sends it |
| `WrapperSteps.CallTaken` | PyConnectWrapper.cpp:391-410 | a queued method call is taken within its bounds, and its answers go to the calling stub only |
| `ByteRuns.StepSim` | PyConnectStub.cpp:892-1058 | each step of the network on bytes is defined and is one step of the transition system, or none |
| `ByteRuns.RunsAreTheMachines` | PyConnectStub.cpp:892-1058 | every run of the network on bytes in which no stub takes a message after more than 14 ids ends in the state of a run of the transition system |
| `ByteRuns.EveryStepIsDefined` | PyConnectWrapper.cpp:299-456 | after every such run whatever comes next stays within its message and its containers, on either side |
| `ByteRuns.ObjectsAreCoherent` | PyConnectStub.cpp:453-465 | after every such run, with nothing about an attribute on its way between this stub and the wrapper, the Python object shows the attribute by place, name and announced value |
| `ByteRuns.DirtyIsUnannounced` | PyConnectWrapper.h:475-478 | the attributes that coherence leaves out are exactly those that the program assigned and nobody has announced since |
| `Calls.UnknownIndexIsUndefined` | PyConnectWrapper.cpp:392-410 | an index behind the last method makes the wrapper run past the end of its map, which is what a stub with too many ids can send |
| `Joining.WrapperJoins` | PyConnectWrapper.cpp:333-390 | from every initial network a run of five steps registers a wrapper, assigns its id and mirrors its interface, with nothing left on its way |
| `ByteCalls.CallsArriveInOrder` | PyConnectWrapper.cpp:391-410 | in every such run the calls carried out for a stub are some of the requests made there, in order, each at most once, and the requests not yet taken are on their way in order |
| `ByteCalls.EveryCallWasAsked` | PyConnectStub.cpp:1084-1147 | in every such run a wrapped program is called only for a request made before at the stub that issued the id to it: the method of that name, once, with the arrived arguments |
| `ByteCalls.AskedAsGiven` | PyConnectStub.cpp:1111-1133 | values of the declared types are asked for as they are given |
| `ByteCalls.RequestCarriedOut` | PyConnectWrapper.cpp:380-410 | a request is carried out once if its id is the one the wrapper has at this stub, and not at all otherwise |
| `ByteUpdates.UpdatesAreHeardInOrder` | PyConnectStub.cpp:538-566 | in every such run the update callbacks of a Python object since EXPOSE, and then the updates queued for it, are what its wrapper has announced since, in order |
| `ByteStreams.StreamsCarryMessages` | PyConnectNetComm.cpp:322-456 | every run over framed streams whose reads end at safe cuts delivers what a run of the network of messages has in its queues, with the same stubs and wrappers |
| `ByteStreams.StepsOverStreamsAreDefined` | PyConnectNetComm.cpp:322-456 | after every such run over streams whatever a party does next stays within its message and its containers |
| `ByteStreams.CoherentOverStreams` | PyConnectNetComm.cpp:322-456 | after every such run over streams, with nothing about an attribute on its way, the Python object shows it by place, name and announced value |
| `Refinement.RoutingRefined` | PyConnectStub.cpp:926-976 | the registry in the routing runs changes, and connections are refused, as by the whole stub |

## Left out

- Sockets, `select`, `accept`, port binding, multicast and addresses: a read is a byte sequence and a connection a number.
- Encryption and base64: the payload of a frame is an opaque byte string, in `ByteStreams` the message itself.
- Threads, mutexes and the interpreter lock: each message is one atomic step, and a Python callback does not call back into PyConnect.
- Python reference counts, dictionaries and callback lookup: a name outside the interface is accepted without effect, a callback is a name with one argument.
- Python integers wider than a C `long`.
- Floating-point meaning: floats and doubles are blocks of four and eight bytes.
- IPC socket directories, `disableNetComm`, `disableIPCComm` and `fini`: file-system work and teardown.
- Memory errors on malformed input: decoding beyond the message is `None`, and the methods require that it does not happen.
- String attributes of a wrapped program longer than 32767 bytes, for which the source computes too small a buffer, or with a NUL, which the receiver cuts: `Valid` of the wrapper excludes them, and no decoded value is one.
- Strings under Python 2, where the size of a string is not that up to its first NUL: the stub is the Python 3 build, and a string is its UTF-8 bytes.
- Deleting an attribute from Python, which is always refused, and setting `__doc__` to something that is not a string, which the model refuses.
- Messages that reach a wrapper after `moduleShutdown`, when the source would use a module that is gone.
- Optional arguments that are left out, in the theorems on what a wrapper does with a call: the export macro marks none; the flag is kept in EXPOSE and in the checks of a call.
- Composite argument types: the size of the C++ object is unknown to the model.
- In `Protocol`, method calls and DESC are not steps (they are in `ByteNetwork`); in both, closing a connection is no step and a stub and a wrapper have one connection (`Routing` treats these).
- In `ByteNetwork`, requests for a value or a description, which the stub never sends, peer messages, and calls of methods with optional arguments that leave some out.
- Coherence.MirrorsAreCoherent: excludes attributes the wrapped program assigned without announcing them, because the source sends nothing for these.
- In `ByteStreams`, messages that do not fit the dispatch buffer, which has no check of its own; a broadcast goes through the stream of its channel there.
- Refinement.StubRefinesMachine: asks that an update carries a value of the attribute's type, because the bytes alone do not say so; `ByteRuns.StepSim` proves that in every run of `ByteRuns.RunsAreTheMachines` it does.
- ByteRuns.RunsAreTheMachines: asks that no stub, this one or another, takes a message after more than 14 ids, because a stub that mistakes one module for another can send a wrapper an index it does not have (`Calls.UnknownIndexIsUndefined`), and then the wrapper's other stubs lose it too. A stub that takes no message may have issued any number.
- Routing.ModulesAreRoutedHome: descriptions in declarations are not parsed there, because routing does not depend on them.
