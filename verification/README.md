# IMqtt: verified models of its protocols and codecs

IMqtt wraps two MQTT 5 client libraries, Paho and Mosquitto, behind one C++ interface.  This project models
the parts of it that are hard to get right and proves what they keep.

**Dispatch queue** (`Dispatch*.dfy`).  Calls of `OnMqttMessage`, any number of them and on any threads, pass
messages to one dispatcher thread through a queue guarded by a mutex, a condition variable and an atomic exit
flag; the destructor stores the flag, notifies, joins and counts what was lost.  `DispatchModel` has every
thread as a program counter over the shared state, one action per access to it, spurious wake-ups included,
and a callback may itself call `OnMqttMessage`.  Proved over all interleavings: the system refines an atomic
first-in first-out channel (`DispatchChannel`); every run is finite but for new calls and spurious wake-ups,
and the states in which nothing can move are exactly rest, finished destruction and one hang
(`DispatchProgress`); what the destructor's count means, how many callbacks still start, and exactly when the
hang is possible (`DispatchShutdown`).  The hang is real: the exit flag is stored without the mutex, so
`notify_all` can fall between the worker's false predicate and its going to sleep.  What a caller can check is
proved too: without new calls and spurious wake-ups, a destructor can hang exactly when it is called on a queue
that is not at rest, that is, unless every call has returned and the worker sleeps; and one spurious wake-up
makes the hang possible even then.  The same model with the flag stored while holding the mutex is proved free
of it.  `DispatchQueues.DispatchQueue` is the object with its
fields updated in place, each update proved to be an action of the model.

**Message codec** (`KeyOrder`, `MqttMessage`, `PropertyCodec`, `CodecLaws`, `Delivery`, `MqttLibrary`,
`PahoClient`, `MosquittoClient`).  Each backend turns the optional fields of a message into PUBLISH properties
(section 3.3.2.3 of MQTT Version 5.0) and back.  The loops of the two `onMessageCb` and `PublishAsync` are
proved against functions of the list, and the four publish/receive pairs are characterised exactly: which
messages come back unchanged, and what happens to the others.  Two facts are worth a maintainer's attention.
The Mosquitto decoder stores the content type in the response topic (line 283), so a Mosquitto receiver restores
a message only if both fields are empty.  And Mosquitto's publish casts the payload size to 16 bits, so a payload
of 65536 bytes or more is cut to its size modulo 65536.

**Printing** (`MessagePrinting`).  A reader of the text that `ToString` prints, written on its own from the tags
of the source, gets back every field shown when text fields hold no newline and keys no colon; so the text tells
two messages apart exactly by those fields.  With colons in keys, messages without newlines print the same exactly
when they agree on everything else and their user properties yield the same texts; a message whose only user
property has a colon in its key always shares its print with another message.

**Lifecycles** (`LibraryLifecycle`, `PahoConnect`).  The counter that initialises the Mosquitto library with
the first client and cleans it up with the last, over all interleavings of constructors, throwing ones
included, and destructors.  A client whose constructor throws after the increment is never taken off the
counter nor destroyed: it keeps the library up for ever, and if it threw because the initialisation failed,
later clients work on a library that was never initialised.  Initialisations and cleanups alternate exactly in the runs in
which no client initialises while 2^32 others are counted, and a run in which one does is given.  `ConnectAsync`
of Paho waits on its own promise but shares one static context among all calls.  What each promise receives is
stated for all runs, and two promises of the source that do not hold in general get their exact conditions: a
call returns the first code of its own attempt, whatever the codes, exactly when the first callback fired while
it was the last call entered is its own; and a call can return exactly when it is still the last one entered or
such a callback has fired.  Calls that do not overlap meet both.

**Documentation search** (`SearchIds`, `SearchTree`).  The escape code of the search script is a prefix code in
lower-case letters, so filtering the lower-cased ids of rows by an encoded prefix is filtering names by prefix:
exactly for texts made of word characters, while other texts may also hit the number at the end of an id.  The
node walk finds the `SRChildren` DIV at the earliest position reached through DIVs.

`dafny verify dfyconfig.toml` checks everything.

Conventions.  A `std::string` is a `string` of bytes, a `std::map` a `map` together with its ascending
enumeration `Entries`.  Size casts to `int`, `uint16_t` and the 32-bit counter are written out.  The message of
call number i of `OnMqttMessage` is named i, because it arrives as a unique pointer.  Library calls are reduced
to what the clients need: an attempt to add a property succeeds or fails, a send yields a return code, and a read
finds the next matching property.

## Model

| member | source | states |
|---|---|---|
| DispatchInvariant.ReachableInv | src/MqttClient/DispatchQueue.cpp:33-81 | in every reachable state each thread is in its critical section exactly while it owns the mutex, messages are accounted for, and a sleeping worker with work is about to be notified |
| DispatchInvariant.CallKeeps | src/MqttClient/DispatchQueue.cpp:49-60 | every action of a call of OnMqttMessage keeps the invariant |
| DispatchInvariant.WorkerKeeps | src/MqttClient/DispatchQueue.cpp:62-81 | every action of the dispatcher thread keeps the invariant |
| DispatchInvariant.DestructorKeeps | src/MqttClient/DispatchQueue.cpp:33-47 | every action of the destructor keeps the invariant, in both variants |
| DispatchInvariant.CallbackEndsWithItsCalls | src/MqttClient/DispatchQueue.cpp:76-77 | in every reachable state, a call made inside the user's callback is under way only while that callback runs |
| DispatchChannel.ExactlyOnceInOrder | src/MqttClient/DispatchQueue.cpp:49-81 | pushed messages are the delivered ones, the one in flight and the queue, in this order, without repetition; a message is among them exactly when its call has pushed |
| DispatchChannel.StepRefinesChannel | src/MqttClient/DispatchQueue.cpp:49-81 | each action is a send, a receive of the next message, or nothing, of an atomic FIFO channel |
| DispatchChannel.EarlierCallFirst | src/MqttClient/DispatchQueue.cpp:49-60 | a call that returned before another began is delivered first |
| DispatchChannel.NoLostWakeUp | src/MqttClient/DispatchQueue.cpp:52-57 | while the worker sleeps on a non-empty queue some call is between its push and its notify_one |
| DispatchChannel.OwnerNeverBlocks | src/MqttClient/DispatchQueue.cpp:66-81 | the owner of the mutex always has an action, and each brings the release nearer |
| DispatchChannel.CriticalSectionsAreBounded | src/MqttClient/DispatchQueue.cpp:53-77 | whatever else runs, the mutex is released within five actions of its owner, which is never a worker asleep or in the user's callback |
| DispatchProgress.StepSpends | src/MqttClient/DispatchQueue.cpp:33-81 | every action uses up budget, new calls and spurious wake-ups adding at most 17 and 4 |
| DispatchProgress.RunsAreBounded | src/MqttClient/DispatchQueue.cpp:33-81 | the length of any run is bounded by the budget it starts with and what new calls and spurious wake-ups add |
| DispatchProgress.WorkerWindsDown | src/MqttClient/DispatchQueue.cpp:62-81 | once exit is stored the worker has at most seven actions left and no thread gives it more |
| DispatchProgress.StuckExactly | src/MqttClient/DispatchQueue.cpp:33-81 | nothing can move exactly when the queue is at rest with everything delivered, destroyed, or hung in the destructor; a callback that enqueues never deadlocks |
| DispatchProgress.DestructionEnds | src/MqttClient/DispatchQueue.cpp:33-47 | from the call of the destructor a run without new calls and spurious wake-ups is bounded and ends destroyed or hung; destroyed for sure when the flag is stored under the mutex |
| DispatchProgress.EveryMessageIsDelivered | src/MqttClient/DispatchQueue.cpp:49-81 | without destruction a bounded run brings every message to the user, in push order |
| DispatchShutdown.OnlyRacersPush | src/MqttClient/DispatchQueue.cpp:52-56 | after exit is stored only calls already past the exit test push |
| DispatchShutdown.ShutdownAccounting | src/MqttClient/DispatchQueue.cpp:35-45 | the destructor's number is pushed minus delivered at the count; nothing is delivered later; later pushes are of calls that were racing at the store of exit and had not pushed at the count, at most one each |
| DispatchShutdown.AtMostOneMoreCallback | src/MqttClient/DispatchQueue.cpp:67-78 | after the store of exit at most one callback starts, decided by where the worker stands then |
| DispatchShutdown.MissedExitIff | src/MqttClient/DispatchQueue.cpp:35-36 | when notify_all is due, the worker can sleep through it exactly when it stands between its false predicate and sleeping |
| DispatchShutdown.HangPossibleIff | src/MqttClient/DispatchQueue.cpp:35-39 | when notify_all is due, the destructor can hang exactly when the worker is about to sleep and no call past the exit test still waits for the mutex |
| DispatchShutdown.DestructorCanHangIff | src/MqttClient/DispatchQueue.cpp:33-39 | without new calls and spurious wake-ups a destructor called in a state can hang exactly when the queue is not at rest there; from rest it does not hang whenever it is called |
| DispatchShutdown.SpuriousWakeUpBringsHang | src/MqttClient/DispatchQueue.cpp:33-39 | with spurious wake-ups a destructor called in any state can hang |
| DispatchShutdown.HangExists | src/MqttClient/DispatchQueue.cpp:35-39 | a run of the program from construction that ends hung |
| DispatchShutdown.StoringUnderMutexNeverHangs | src/MqttClient/DispatchQueue.cpp:35-36 | with the flag stored under the mutex a sleeping worker always has its notify_all ahead, and no run hangs |
| DispatchQueues.DispatchQueue.constructor | src/MqttClient/DispatchQueue.cpp:26-31 | the object starts in the model's initial state |
| DispatchQueues.DispatchQueue.OnMqttMessage | src/MqttClient/DispatchQueue.cpp:49-60 | one shared access of a call, updating the fields as the model says |
| DispatchQueues.DispatchQueue.MessageDispatcherWorker | src/MqttClient/DispatchQueue.cpp:62-81 | one shared access of the dispatcher thread, updating the fields as the model says |
| DispatchQueues.DispatchQueue.Destructor | src/MqttClient/DispatchQueue.cpp:33-47 | one shared access of the destructor, updating the fields as the model says |
| DispatchQueues.DispatchQueue.Follow | src/MqttClient/DispatchQueue.cpp:33-81 | any schedule leaves the object in the state of the model's run, histories only growing and the invariant kept |
| KeyOrder.EntriesAscend | src/MqttClient/Interface/IMqttMessage.h:42 | a map is enumerated in ascending key order, each entry once |
| KeyOrder.LessIff | src/MqttClient/Interface/IMqttMessage.h:42 | one key comes before another exactly when it is a proper beginning of it or has the smaller character where they first differ |
| KeyOrder.FirstEntryWins | src/MqttClient/Paho/PahoClient.cpp:205-207 | after inserting entries one by one a key holds the value of its first entry |
| Messages.DigitsDenote | src/MqttClient/MqttMessage.cpp:38-41 | the printed digits denote the number |
| Messages.MqttMessage.constructor | src/MqttClient/Interface/IMqttMessage.h:81-86 | a new message has id -1 and empty optional fields |
| Messages.MqttMessage.InsertUserProp | src/MqttClient/Mosquitto/MosquittoClient.cpp:252 | inserting keeps the value a key already has and reports it |
| Messages.MqttMessage.GetCorrelationDataCastedToString | src/MqttClient/MqttMessage.cpp:58-63 | one character for each byte, of the same value and in the same place |
| Messages.CastIsInjective | src/MqttClient/MqttMessage.cpp:58-63 | the cast loses nothing |
| Messages.MqttMessage.ToString | src/MqttClient/MqttMessage.cpp:31-56 | the string is the joined lines of the message |
| MessagePrinting.ReadBackPrinted | src/MqttClient/MqttMessage.cpp:31-56 | a reader of the tagged lines gets back topic, qos, retain, non-negative id, the text of each user property in key order, correlation data, format and content type of every message without newlines, and accepts nothing else in between |
| MessagePrinting.CleanReadBack | src/MqttClient/MqttMessage.cpp:31-56 | with keys free of colons the user properties themselves are restored |
| MessagePrinting.PrintedSameIffSummarySame | src/MqttClient/MqttMessage.cpp:31-56 | messages with clean text print the same exactly when they agree on topic, qos, retain, non-negative id, user properties, correlation data, format and content type |
| MessagePrinting.PrintedSameIff | src/MqttClient/MqttMessage.cpp:31-56 | messages without newlines print the same exactly when they agree on everything else that is shown and on the texts of their user properties |
| MessagePrinting.ColonInKeyIsAmbiguous | src/MqttClient/MqttMessage.cpp:43-45 | for any message and any three texts, a message with the only user property k:mid to v and the same with k to mid:v differ and print the same, whether or not they hold newlines |
| PropertyCodec.PahoReadsOn | src/MqttClient/Paho/PahoClient.cpp:199-229 | reading by identifier is what taking in one property after the other yields |
| PropertyCodec.CutFacts | src/MqttClient/Mosquitto/MosquittoClient.cpp:402-403 | of a string handed over as a C string everything before its first NUL remains |
| PropertyCodec.CastsWrap | src/MqttClient/Paho/PahoClient.cpp:410 | a size cast to int or to 16 bits unsigned lies in the range of its type and differs from the size by a multiple of 2^32 or 2^16 |
| PropertyCodec.SpanFacts | src/MqttClient/Paho/PahoClient.cpp:410-430 | a buffer whose length is cast to int is handed over up to its length modulo 2^32 if that is below 2^31 |
| PropertyCodec.PahoEncodeHolds | src/MqttClient/Paho/PahoClient.cpp:415-467 | the published list holds each field once under its identifier, sizes cast to int |
| PropertyCodec.MosquittoEncodeHolds | src/MqttClient/Mosquitto/MosquittoClient.cpp:400-437 | the published list holds each field once under its identifier, strings cut at NUL, correlation size cast to 16 bits |
| PropertyCodec.IndicatorSent | src/MqttClient/Mosquitto/MosquittoClient.cpp:431-434 | both backends send one format indicator, 1 for UTF8 and 0 otherwise |
| PropertyCodec.SentInOrder | src/MqttClient/Mosquitto/MosquittoClient.cpp:400-437 | each backend sends the user properties in key order and then the other four in its own fixed order |
| CodecLaws.PahoRoundTrip | src/MqttClient/Paho/PahoClient.cpp:199-229 | Paho's decoder restores what Paho's encoder wrote exactly when every size fits an int |
| CodecLaws.MosquittoReadsBack | src/MqttClient/Mosquitto/MosquittoClient.cpp:241-292 | what Mosquitto reads back of any message it wrote, the content type in the response topic |
| CodecLaws.MosquittoRoundTrip | src/MqttClient/Mosquitto/MosquittoClient.cpp:279-285 | Mosquitto restores its own message exactly when user properties hold no NUL, correlation data is below 65536 bytes, and response topic and content type are empty |
| CodecLaws.Prefix16Facts | src/MqttClient/Mosquitto/MosquittoClient.cpp:444-445 | the prefix of size modulo 65536 is everything exactly below 65536 bytes |
| CodecLaws.MosquittoToPaho | src/MqttClient/Mosquitto/MosquittoClient.cpp:400-437 | Paho restores what Mosquitto wrote exactly when no string holds a NUL and correlation data is below 65536 bytes |
| CodecLaws.MosquittoReadsPaho | src/MqttClient/Mosquitto/MosquittoClient.cpp:241-292 | what Mosquitto reads of any message Paho wrote |
| CodecLaws.PahoToMosquitto | src/MqttClient/Paho/PahoClient.cpp:415-467 | Mosquitto restores what Paho wrote exactly when sizes fit, user properties hold no NUL, and response topic and content type are empty |
| CodecLaws.DecodersAgreeIff | src/MqttClient/Mosquitto/MosquittoClient.cpp:241-292 | on any list the decoders agree on user properties, correlation data and format exactly under conditions on NULs, first and last values |
| CodecLaws.DecodersAgreeFullyIff | src/MqttClient/Mosquitto/MosquittoClient.cpp:241-292 | on any list the decoders yield the same fields exactly when user properties hold no NUL, first and last correlation data are the same, no format indicator of 1 is hidden, the last content type is empty or absent, and the last response topic is, up to a NUL, what line 283 makes of the list |
| CodecLaws.DecodersOnValidLists | src/MqttClient/Mosquitto/MosquittoClient.cpp:241-292 | on lists without repeated single-valued properties and NULs Mosquitto's result is Paho's with the content type moved to the response topic |
| CodecLaws.OnlyOrderWithinIdentifiersMatters | src/MqttClient/Paho/PahoClient.cpp:199-229 | two lists with the same properties in the same order for each identifier are read alike by each decoder, however the identifiers are interleaved |
| CodecLaws.NeighboursCommute | src/MqttClient/Paho/PahoClient.cpp:199-229 | exchanging neighbours with different identifiers changes neither decoder's result |
| Delivery.PahoToPahoDelivers | src/MqttClient/Paho/PahoClient.cpp:183-239 | a published message arrives unchanged but for its id exactly when its topic is NUL-free and reported with its full length, and payload and fields fit an int |
| Delivery.MosquittoToMosquittoDelivers | src/MqttClient/Mosquitto/MosquittoClient.cpp:224-295 | the same for Mosquitto, payload below 65536 bytes |
| Delivery.MosquittoToPahoDelivers | src/MqttClient/Mosquitto/MosquittoClient.cpp:393-456 | the same from Mosquitto to Paho, the topic reported with its full length |
| Delivery.PahoToMosquittoDelivers | src/MqttClient/Paho/PahoClient.cpp:391-479 | the same from Paho to Mosquitto |
| MqttLibrary.ReadStringPair | src/MqttClient/Mosquitto/MosquittoClient.cpp:247-248 | the node read is the first user property from the cursor on, or the one after it if the first is skipped; there is none exactly when the list holds no such property |
| MqttLibrary.ReadCorrelationData | src/MqttClient/Mosquitto/MosquittoClient.cpp:262-263 | the first correlation data of the list, if any |
| MqttLibrary.ReadResponseTopic | src/MqttClient/Mosquitto/MosquittoClient.cpp:273 | the first response topic of the list, if any |
| MqttLibrary.ReadContentType | src/MqttClient/Mosquitto/MosquittoClient.cpp:281 | the first content type of the list, if any |
| MqttLibrary.ReadFormatIndicator | src/MqttClient/Mosquitto/MosquittoClient.cpp:289 | the first format indicator of the list, if any |
| PahoClients.PahoClient.OnMessageCb | src/MqttClient/Paho/PahoClient.cpp:183-239 | the message built by the loop holds first user values, last other values, and UTF8 if any indicator is 1 |
| PahoClients.PahoClient.PublishAsync | src/MqttClient/Paho/PahoClient.cpp:391-479 | the complete packet is sent exactly when every property was added, under the message's own id if that is positive, with indicator 1 or 0; status and token follow, the list is freed once |
| PahoClients.SameIdSentIff | src/MqttClient/Paho/PahoClient.cpp:411 | two messages go out under the same id, whatever id the library supplies, exactly when they have the same id or neither has a positive one; different positive ids never meet |
| MosquittoClients.MosquittoClient.ReadUserProps | src/MqttClient/Mosquitto/MosquittoClient.cpp:241-257 | the cursor loop ends and yields what inserting all user properties in order yields |
| MosquittoClients.MosquittoClient.ReadSingleProps | src/MqttClient/Mosquitto/MosquittoClient.cpp:259-292 | the other fields take the first value of their identifier, the response topic that of the content type if there is one |
| MosquittoClients.MosquittoClient.OnMessageCb | src/MqttClient/Mosquitto/MosquittoClient.cpp:224-295 | the whole message built from a packet |
| MosquittoClients.MosquittoClient.PublishAsync | src/MqttClient/Mosquitto/MosquittoClient.cpp:393-456 | the complete packet, with the payload prefix of size modulo 65536 and indicator 1 or 0, is sent exactly when every property was added; a token asked for is what that send leaves in it; the list is freed once |
| LibraryLifecycle.CounterCountsClients | src/MqttClient/Mosquitto/MosquittoClient.cpp:46-61 | in every run the counter is the number of counted clients, aborted ones included, modulo 2^32 |
| LibraryLifecycle.LibraryFollowsClients | src/MqttClient/Mosquitto/MosquittoClient.cpp:46-61 | initialisations and cleanups alternate exactly in the runs in which no client initialises while 2^32 others are counted; in those, cleanup finds no client in use and none aborted, and a client in use finds the library up exactly when no initialisation has failed |
| LibraryLifecycle.AtRestUpIff | src/MqttClient/Mosquitto/MosquittoClient.cpp:172-179 | with no constructor or destructor under way the library is up exactly while a client is live or one was aborted, no initialisation has failed, and the counter has not overflowed into a second one |
| LibraryLifecycle.ConstructorDecides | src/MqttClient/Mosquitto/MosquittoClient.cpp:68-71 | a client whose constructor throws is aborted for ever and can never be destroyed; one whose constructor ends can be, and is never aborted |
| LibraryLifecycle.FailedInitAborts | src/MqttClient/Mosquitto/MosquittoClient.cpp:50-53 | a client whose initialisation of the library fails is never destroyed |
| LibraryLifecycle.ThrowKeepsLibraryUp | src/MqttClient/Mosquitto/MosquittoClient.cpp:68-71 | after a constructor has thrown the library is up in every later state without failed or second initialisation |
| LibraryLifecycle.FailedInitIsNotRetried | src/MqttClient/Mosquitto/MosquittoClient.cpp:48-53 | a run in which a failed initialisation lets the next client use the uninitialised library |
| LibraryLifecycle.OverfillingInitialisesTwice | src/MqttClient/Mosquitto/MosquittoClient.cpp:48-53 | a run in which 2^32 live clients bring the counter round to zero and the next one initialises the library again |
| LibraryLifecycle.SharedLibrary.Act | src/MqttClient/Mosquitto/MosquittoClient.cpp:46-61 | one action of a constructor or destructor updates the shared state as the model says |
| LibraryLifecycle.SharedLibrary.Follow | src/MqttClient/Mosquitto/MosquittoClient.cpp:46-61 | any schedule leaves the shared state as the model says, the counter being the number of counted clients modulo 2^32 and the invariant kept unless a client initialises while 2^32 others are counted |
| PahoConnect.PromiseHoldsFirstWhileLast | src/MqttClient/Paho/PahoClient.cpp:257-279 | in every run a promise holds the first code any callback reports while its call is the last entered, and the context names the client of the first call |
| PahoConnect.ConnectReturnsOwnFirstCode | src/MqttClient/Paho/PahoClient.cpp:312-319 | in every run, a call that has returned holds the first code of its own attempt, and returned what it maps to, exactly when the first callback fired while it was last entered is its own or the two codes, or what they map to, happen to be the same |
| PahoConnect.OwnCodeForSureIff | src/MqttClient/Paho/PahoClient.cpp:257-279 | a call that has returned would have returned its own first code whatever codes had been reported exactly when the first callback fired while it was last entered is its own |
| PahoConnect.SequentialConnects | src/MqttClient/Paho/PahoClient.cpp:312-319 | calls one after the other whose callbacks fire before they return each return the mapped first code of their own attempt, however many callbacks fire |
| PahoConnect.CanReturnIff | src/MqttClient/Paho/PahoClient.cpp:257-260 | a call entered can return, or has, exactly when it is the last one entered or some callback found it so |
| PahoConnect.OvertakenCallNeverReturns | src/MqttClient/Paho/PahoClient.cpp:257-260 | a call overtaken before any callback fired never returns |
| PahoConnect.LateCallbackMisleads | src/MqttClient/Paho/PahoClient.cpp:270-279 | a run in which a late callback of one call decides the result of the next |
| PahoConnect.ConnectContext.EnterConnect | src/MqttClient/Paho/PahoClient.cpp:257-260 | entering installs the promise and keeps the first client |
| PahoConnect.ConnectContext.OnResult | src/MqttClient/Paho/PahoClient.cpp:261-279 | a callback sets the installed promise unless it is set |
| PahoConnect.ConnectContext.LeaveConnect | src/MqttClient/Paho/PahoClient.cpp:487-507 | the value returned is the mapped first code reported while the call was last entered, that of its own attempt if its own callback reported it |
| PahoConnect.ConnectContext.Follow | src/MqttClient/Paho/PahoClient.cpp:257-279 | any schedule leaves each promise with the first code reported while its call was last entered |
| SearchIds.ConvertToId | docs/html/search/search.js:24-45 | the loop yields the concatenated codes |
| SearchIds.CodeShape | docs/html/search/search.js:31-42 | lower-case letters, digits and units from 0x80 stand for themselves; every other unit becomes an underscore and two digits among 0-9 and a-f that denote it |
| SearchIds.PrefixIff | docs/html/search/search.js:24-45 | one encoded text starts with another exactly when the texts do |
| SearchIds.IdHasNoCapitals | docs/html/search/search.js:515 | an encoded text holds no capital letters, so lower-casing it changes nothing |
| SearchIds.TrimLeftTakesSpaces | docs/html/search/search.js:501 | exactly the leading spaces go |
| SearchIds.TrimRightTakesSpaces | docs/html/search/search.js:502 | exactly the trailing spaces go |
| SearchIds.RowPrefixStripped | docs/html/search/search.js:516 | exactly a leading sr, digits and underscore go |
| SearchIds.SearchResults.Search | docs/html/search/search.js:492-541 | result rows are shown exactly when their name starts with the encoded search, or without one the encoded query of the page address; other rows stay, and the count is that of the rows shown |
| SearchIds.RowMatchesIff | docs/html/search/search.js:518-519 | for a row named by the same code, matching is starting with the search text |
| SearchIds.RowFoundIff | docs/html/search/search.js:515-519 | a row with the id of a name and a number is found exactly when its name starts with the lower-cased text, or the text goes on after the name like an encoding of a beginning of the number |
| SearchIds.WordFindsExactly | docs/html/search/search.js:515-519 | a text of word characters finds exactly the rows whose name starts with it |
| SearchIds.NumberTakenForCode | docs/html/search/search.js:515-519 | a text that finds a row by its number although the name does not start with it |
| SearchTree.Climb | docs/html/search/search.js:455-464 | climbing loses no node that is still to be visited |
| SearchTree.FindChildElement | docs/html/search/search.js:435-469 | the walk ends on every tree with the first SRChildren DIV in document order reached through DIVs only, or with nothing, having looked at each such node before it once |
| SearchTree.DocumentOrderByPosition | docs/html/search/search.js:435-469 | document order lists the nodes at all positions reached through DIVs, each once, containers before contents before next siblings |
| SearchTree.FirstTargetByPosition | docs/html/search/search.js:435-469 | the node found is the SRChildren DIV at the earliest such position; none is found exactly when there is none |

## Left out

- The Mosquitto and Paho libraries, network, TLS: not part of this model; property add and read, send, init and cleanup appear only through the small contracts above.  A property read that fails for want of memory is not modelled.
- Object construction and end of life: the dispatch queue starts fully constructed (the thread is declared before the flag in `DispatchQueue.h`), and a call still under way when the destructor returns goes on in the model on the same state, where the program has undefined behaviour.  The same holds for a Paho callback that fires after its call has returned.
- C++ weak memory: all threads see one sequence of actions.
- Logging: every log call is a no-op, although the dispatcher thread logs while holding the mutex; a log callback that enqueues is not covered.
- The warning about lost messages: only its number is modelled.
- SearchTree.FindChildElement: DOM nodes are values and the cursor is the list of siblings ahead with those of its ancestors; node identity and a missing parent element are not modelled.
- SearchIds.SearchResults.Search: the page address and the browser's unescape and toLowerCase are parameters; a missing argument counts as an empty one.
- Delivery.PahoToPahoDelivers: a packet arrives as it was handed over, with fields of any size that an int can express, although the protocol limits strings to 65535 bytes; the same holds for the other three pairs.
- PahoClients.PahoClient.OnMessageCb: the length the library reports for the topic is at most that of the topic; a negative one, at which the string constructor throws, is not modelled.
- PropertyCodec.PahoEncodeHolds: a length that the cast to int makes negative stands for an empty span, whatever the library would do with it.
- Text representations of reason codes, log levels, trace levels, `SetCallbacks`, `InitLogMqttLib`, the reconnect delay and the sample: finite lookups and one-line updates.
- The search box, key navigation and result creation in search.js: user interface.
