# Node Application Metrics: a verified model

This project models the parts of Node Application Metrics whose correctness is hardest to see from the
code, and proves what each of them promises.

* **Object graphs** (`lib/serializer.js`): `ObjectGraph`, `Serialize`, `Deserialize`, `SerializerSimulation`,
  `SerializerRoundTrip`, `SerializerText`, `DeserializerText`, `ArraySharing`. A cyclic, shared graph, whose arrays may have holes and properties of their
  own, becomes a tree with back references and comes back isomorphic, exactly for the graphs named in
  `RoundTripExact`, and with the identity of its arrays exactly for those named in `SharingExact`. Both directions are recursive methods that
  update a cache (and, for the reader, a heap) in place.
* **CPU profiles** (`nodeprofplugin.cpp`, `appmetrics-api.js`): `StringReplace`, `ProfileText` print a tree
  with the recursive `visit` and its static counter; `JsonReader`, `ProfileJson` read the JSON mode's text by
  RFC 8259 (sections 2 to 7), `FormatProfiling`, `ProfileCsv` read the other mode's lines as the JavaScript
  does, and `ProfileDelivery` puts writer and reader together. Each round trip is proved through the characters, with
  the exact condition under which it is lossless.
* **Requests** (`lib/request.js`): `RequestTree` (the effect of each call), `RequestTracker` (the objects
  themselves), `RequestStack`, `RequestInvariant`, `RequestRuns` (every run refines one stack per domain),
  `RequestTraces` (what a stop does in any state, whatever the domains).
* **Messages to JavaScript** (`appmetrics.cpp`): `MessageProtocol` interleaves any number of producers with
  the event loop, step by step; `MessageQueue` is the linked list with its pointer walk and its memory, through
  any interleaving of the critical sections; `MessageSystem` carries out every run of the one on the other.
* **The watchdog** (`watchdog.h`): `WatchdogProtocol` interleaves main thread, profiler thread, timer and
  kernel; `Watchdog` holds the functions of the header, each taking its steps of the protocol.
* **The profiling plugin's states** (`nodeprofplugin.cpp`): `ProfilerStates` and `ProfilerPlugin`.
* **Heap sizes** (`nodeenvplugin.cpp`): `PowersOfTwo` and `HeapSizes`.

`Decimals`, `Options` and `Transitions` (runs of a state machine) are shared. Code that updates state is modelled by methods on mutable state; each
is tied, by its contract, to a function on a snapshot of that state, and the theorems are about runs of
those functions. `dafny verify dfyconfig.toml` checks the whole project.

Where a promise does not hold of the code on every input, the code is kept and the exact condition is
proved, in both directions:

* a reachable field that is undefined or a string starting with `CIRCULAR-`, a reachable array that holds anything
  but objects, has a hole or a property besides its elements, or a root that is an array does not survive the
  serializer (`RoundTripExact`), and an array held by two slots comes back as two (`SharingExact`);
* a field named `hasOwnProperty` makes the serializer throw, exactly when the object that has it is expanded
  (`ThrowsExactly`);
* a control character in a name makes the JSON profile unreadable, and a hit count with more than six
  significant digits is rounded (`JsonRoundTrip`, `JsonRoundTripExact`); a comma or newline in a name, or a
  hit count of a million or more, corrupts the CSV profile (`CsvRoundTripExact`);
* a message reaches the listener as it was sent exactly when its last byte and no other is a NUL
  (`DeliveredExactly`);
* stopping an active request outside the domain it was started in breaks the tracker's invariant
  (`StopKeepsInvariantExactly`);
* `sendData` loses a block of memory when the payload and the copy are allocated but the source is not
  (`MessageQueue.Queue.Prepare`);
* the profiler thread can run while the main thread sleeps in a poll, if the timer fired just before
  (`AsleepExactly`, `PollCanBeDisturbed`), and the protocol is free of deadlock only with the suspend signal
  dequeued first (`NoDeadlockExactly`);
* changing to or from JSON mode while profiling is enabled, or while a callback of the other mode is
  outstanding, breaks the plugin's invariant (`SafeExactly`, `ModeChangeSafeExactly`, `CarelessRunsBreak`);
* a requested semi-space above 2^63 bytes, such as that of a negative argument, is guessed as 0 (`GuessMaxSemiSpaceSize`).

Most of these come with a lemma at one concrete input.

The repository's documentation describes the `profiling` event as an object with `time` and `functions`
(`README.md:254-264`). The code emits `time` and `functions` with a `date` that is always 0, and in JSON mode
an object with `date` and `head` instead; the model follows the code.

## Model

| member | source | states |
|---|---|---|
| SerializerRoundTrip.RoundTripExact | lib/serializer.js:24-124 | for every finite graph without a field `idCount` or `__proto__`: `serialize` returns a text and deserializing it gives a graph isomorphic to the original (every field, field and array order, lengths, sharing of objects and cycles) if and only if the root is an object, every reachable array holds only objects, without holes or further properties, and no reachable object has a field that is undefined, a string starting with `CIRCULAR-`, or named `hasOwnProperty` |
| SerializerRoundTrip.RoundTrip | lib/serializer.js:24-124 | the two methods one after the other, on their own state: the graph in the reader's heap is isomorphic to the original under exactly that condition, and there is an exception exactly when `ThrowsExactly` says so |
| SerializerRoundTrip.TreeRoundTrip | lib/serializer.js:24-124 | apart from the exception, the tree that is built restores the graph if and only if the graph is supported |
| SerializerRoundTrip.ThrowsExactly | lib/serializer.js:42-43 | the call throws a TypeError if and only if it comes to expand an object or array with a field of its own named `hasOwnProperty`, even under holes, named properties and arrays in arrays |
| SerializerRoundTrip.ThrowsForReachable | lib/serializer.js:42-43 | where arrays have neither holes nor further properties, if and only if any such field is reachable from the root |
| SerializerText.TextExact | lib/serializer.js:24-96 | the text of every graph, supported or not, read off the graph: one object for each expanded value, numbered in the order of the ids; for an object or array its fields in order, for a string its characters under their indices, for null, a boolean, a number or undefined nothing but the id; each field and each element, holes included, is copied, written out or a back reference to what stands there |
| SerializerText.WriteText | lib/serializer.js:24-96 | the method without a cache, with its result stated over the graph and the text alone |
| SerializerText.StringElement | lib/serializer.js:42-87 | a string that is an array element is written as `idCount` and one field for each character |
| SerializerText.PrimitiveElement | lib/serializer.js:42-92 | null, a boolean, a number or a hole is written as `idCount` alone |
| SerializerText.ElementExpanded | lib/serializer.js:56-70 | every index below the length of an array in a field of an expanded object is expanded, with the value found there or undefined |
| SerializerRoundTrip.ExpandsOnce | lib/serializer.js:30-89 | for every finite graph, supported or not: what is expanded is exactly the least set that holds the root and, with each value, what its fields and the elements of arrays in its fields lead to (a hole leads to undefined, a named property of such an array to nothing); each once, and the ids in the text are 0, 1, 2, ... without gaps in depth-first preorder. Where an exception ends the call, this is what it would have expanded |
| SerializerRoundTrip.ExpandsObjects | lib/serializer.js:51-85 | besides reachable objects only the root and the elements of reachable arrays are expanded; every reachable object is, unless an array has holes or further properties |
| SerializerRoundTrip.ExpandsOnlyObjects | lib/serializer.js:51-85 | in a supported graph the reachable objects are expanded and nothing else |
| SerializerRoundTrip.Describe | lib/serializer.js:24-124 | for every graph, supported or not, what each value the specification caches has become after the round trip of the tree; an exception (`ThrowsExactly`) means that there is no text |
| SerializerRoundTrip.ReservedNameIsLost | lib/serializer.js:108-109 | no text whatever inflates to a graph in which a reachable object or array has a field `idCount`, because it is deleted from each of them |
| SerializerRoundTrip.CircularStringIsLost | lib/serializer.js:116-120 | one object with the string `CIRCULAR-0` in a field does not come back |
| SerializerRoundTrip.UndefinedIsLost | lib/serializer.js:87-92 | nor does one with an undefined field |
| SerializerRoundTrip.HasOwnPropertyThrows | lib/serializer.js:43 | one object with the field `hasOwnProperty` makes the call throw |
| SerializerRoundTrip.ArraysAreLost | lib/serializer.js:51-72 | an object holding an array of one number does not come back, nor one holding an empty array with a property, nor one holding an array with a hole before an object |
| ArraySharing.SharingExact | lib/serializer.js:51-72 | the isomorphism can be chosen one-to-one on arrays too if and only if the graph comes back and no array is held by two slots of reachable objects |
| ArraySharing.RebuiltHeldOnce | lib/serializer.js:112-121 | in the graph that comes back, whatever the text refers back to, no array is held by two slots |
| ArraySharing.ArraySharingIsLost | lib/serializer.js:51-56 | one array held by two fields: the graph comes back, but with two arrays |
| SerializerSimulation.SimulateSlots | lib/serializer.js:42-90 | wherever the writer and the reader stand at the same object with caches that agree, the rest of the walk keeps them in agreement: ids are rebound in the order they were pushed, and every rebuilt field corresponds to its original |
| SerializerSimulation.SimulateCached | lib/serializer.js:73-84 | the same for one value that is looked up in the cache, first visit or back reference: whenever the reader meets `CIRCULAR-k` its cache already holds the object rebuilt for id k, so there is no forward reference |
| Serialize.Serializer.SerializeRoot | lib/serializer.js:24-38 | the call without a cache terminates on every finite graph, cyclic or not; it throws if and only if a value in the specified cache has a field `hasOwnProperty`, and otherwise returns the text and the cache of the specification |
| Serialize.Serializer.Serialize | lib/serializer.js:24-96 | the recursive call appends to the shared cache and returns exactly the specified tree, text if and only if the id is 0; it throws if and only if the object itself or one that it cached has a field `hasOwnProperty`, and leaves a part of the specified cache then; decreases the number of cacheable values not yet cached |
| Serialize.Serializer.SerializeProperty | lib/serializer.js:47-88 | one property: an array, another object, or a value that is copied |
| Serialize.Serializer.SerializeArray | lib/serializer.js:51-72 | the loop over every index below an array's length, a hole reading as undefined and a named property not read at all: each element is replaced by a back reference or pushed and expanded, with the cache threaded through and the exception passed on |
| Serialize.Serializer.Replace | lib/serializer.js:73-84 | one value against the cache: a back reference, or pushed and expanded |
| Deserialize.Deserializer.DeserializeText | lib/serializer.js:101-124 | parsing and rewriting in place yields the specified heap, with the root at its first object |
| DeserializerText.ReadText | lib/serializer.js:101-124 | what any text with primitive ids becomes, read off the text: one cell for each object and array in the order of the text, its fields in order without `idCount`, and each back reference replaced by the last object before it with that id, or by undefined |
| DeserializerText.SlotsRead | lib/serializer.js:112-122 | the same for the rest of a walk, whatever was entered before |
| DeserializerText.BoundExact | lib/serializer.js:108-110 | which object a name is bound to: the last one entered under it |
| Deserialize.Deserializer.Deserialize | lib/serializer.js:101-124 | deletes `idCount`, binds it in the cache, rewrites the object in place, and changes nothing outside the object's own subtree |
| Deserialize.Deserializer.DeserializeProperties | lib/serializer.js:112-122 | the walk over the properties, each reading the cache left by the ones before |
| Deserialize.Deserializer.DeserializeSlot | lib/serializer.js:113-121 | one property: recursion into an object, then replacement of a back reference by the cached object, or by undefined if there is none |
| StringReplace.ReplaceInString | src/plugins/node/prof/nodeprofplugin.cpp:117-124 | for every non-empty pattern the in-place loop ends; the input is cut at the leftmost occurrences that do not overlap, and the pieces are joined by the replacement, never searching what was inserted |
| StringReplace.EmptyPatternNeverEnds | src/plugins/node/prof/nodeprofplugin.cpp:119-122 | with an empty pattern the loop is still going after any number of iterations |
| StringReplace.NonEmptyPatternEnds | src/plugins/node/prof/nodeprofplugin.cpp:119-122 | with any other it has finished after one iteration more than there are characters left |
| StringReplace.ReplacedIsSubstitution | src/plugins/node/prof/nodeprofplugin.cpp:117-124 | for one-character patterns the loop is simultaneous character-wise substitution |
| StringReplace.TwoPassesAreOne | src/plugins/node/prof/nodeprofplugin.cpp:156-159 | the two passes over a function name equal one escape map |
| StringReplace.PathPasses | src/plugins/node/prof/nodeprofplugin.cpp:152-155 | the two passes over a script path turn backslashes into slashes and escape the rest with the same map |
| ProfileText.Printer.ConstructNodeData | src/plugins/node/prof/nodeprofplugin.cpp:127-177 | appends one node's text in either mode to the stream |
| ProfileText.JsonPieces | src/plugins/node/prof/nodeprofplugin.cpp:161-167 | the JSON text of a node up to its first child, member by member |
| ProfileText.Printer.Visit | src/plugins/node/prof/nodeprofplugin.cpp:180-196 | appends the text of a whole subtree, numbering its nodes in preorder from the static counter, which it advances by the subtree's size |
| ProfileText.Printer.VisitChildren | src/plugins/node/prof/nodeprofplugin.cpp:185-191 | the loop over the children, with a comma between two of them in JSON mode only |
| ProfileText.Printer.ConstructData | src/plugins/node/prof/nodeprofplugin.cpp:198-213 | the text of a whole profile in either mode; the counter keeps its value for the next profile |
| ProfileJson.ReadEscaped | src/plugins/node/prof/nodeprofplugin.cpp:156-162 | unescaping an escaped string up to its closing quote is the identity if it has no control character, and fails otherwise |
| ProfileJson.ReadHits | src/plugins/node/prof/nodeprofplugin.cpp:164 | a printed hit count reads back as the count rounded to six significant digits, through scientific notation from 10^6 on |
| ProfileJson.RoundedHitsExact | src/plugins/node/prof/nodeprofplugin.cpp:129-164 | the rounding changes nothing exactly when the count has at most six significant digits |
| ProfileJson.ReadNode | src/plugins/node/prof/nodeprofplugin.cpp:146-196 | the text of a subtree parses, with anything behind it, to that subtree, or fails because of a control character in it |
| ProfileJson.JsonRoundTrip | src/plugins/node/prof/nodeprofplugin.cpp:146-213 | the JSON text of every profile tree parses if and only if no name or path has a control character, and then to the same tree: child order, ids, lines, names, paths with slashes |
| ProfileJson.JsonRoundTripExact | src/plugins/node/prof/nodeprofplugin.cpp:146-213 | and with the exact hit counts if and only if each has at most six significant digits |
| ProfileJson.ControlCharacterIsUnreadable | src/plugins/node/prof/nodeprofplugin.cpp:156-161 | a function name with a tab makes the whole profile unreadable |
| ProfileJson.SevenDigitsAreRounded | src/plugins/node/prof/nodeprofplugin.cpp:164 | 1234567 hits do not come back |
| ProfileDelivery.DeliverProfile | appmetrics-api.js:180-207 | printer and reader one after the other, in either mode: the event that is raised is the profile, with every id, line, name, path and count, if and only if names and counts suit the mode; an exception exactly for a control character in JSON mode |
| FormatProfiling.FormatProfiling | appmetrics-api.js:180-207 | the loop over the lines computes the fold that the CSV theorems are about; in JSON mode the parsed text is raised, or the exception |
| FormatProfiling.FormatCsvExact | appmetrics-api.js:184-203 | of any message, each line whose second field is `Node` makes one entry with its fields by position, missing ones undefined, in the order of the lines |
| FormatProfiling.FormatCsvPure | appmetrics-api.js:184-203 | whatever the message, no file or name in the result contains a comma or a newline |
| ProfileCsv.ParseIntText | appmetrics-api.js:193-200 | `parseInt` of a printed integer is that integer, negative ones included |
| ProfileCsv.CountReadExact | appmetrics-api.js:199 | `parseInt` of a printed hit count is that count exactly when it is below a million |
| ProfileCsv.CleanMessage | appmetrics-api.js:184-203 | with names free of separators the reader returns the start time and one record per node in preorder |
| ProfileCsv.CsvRoundTripExact | src/plugins/node/prof/nodeprofplugin.cpp:169-212 | the reader returns exactly each node's self id, parent id, file, name, line and count if and only if no name has a comma or newline and every count is below a million |
| ProfileCsv.CommaCorrupts | src/plugins/node/prof/nodeprofplugin.cpp:170-171 | a function named `a,b` does not come back |
| ProfileCsv.MillionCorrupts | appmetrics-api.js:199 | a million hits do not come back |
| ProfileCsv.RecordsRebuild | src/plugins/node/prof/nodeprofplugin.cpp:180-196 | the parent ids alone give back the original tree, shape and child order |
| RequestTracker.Tracker.StartRequest | lib/request.js:36-62 | creating and starting a request, in a new domain for a root, has the specified effect on all requests, counters and current requests |
| RequestTracker.Tracker.NewRequest | lib/request.js:46-61 | the constructor: parent from the domain in force, `top` and `children` linked, id from the right counter |
| RequestTracker.Tracker.Activate | lib/request.js:83-91 | start: active and current in the domain in force |
| RequestTracker.Tracker.TraceRequest | lib/request.js:64-72 | the upward recursion with its early exit |
| RequestTraces.StopExactly | lib/request.js:97-125 | in every state, and in whatever domain: stopping an active request ends exactly it and what is below it through active requests; of these the slow ones, and no others, have their trace stopped, and exactly they and all their ancestors have it started; its parent becomes current in the domain in force, and its event is raised if it has none and there is a domain |
| RequestTraces.StopTracesStack | lib/request.js:106-109 | under the invariant, the same in terms of the stack that is popped |
| RequestTraces.StopLeaves | lib/request.js:110-123 | what is current and what is raised after a stop, whatever its children do |
| RequestTraces.StopKeepsSane | lib/request.js:97-125 | what `StopExactly` requires is kept by every stop, in whatever domain |
| RequestTraces.StartKeepsSane | lib/request.js:36-91 | and by every start |
| RequestTracker.Tracker.StopRequest | lib/request.js:97-125 | the whole of stop on the objects, recursion and delayed tracing included, is the stop those theorems are about |
| RequestTracker.Tracker.StopChildren | lib/request.js:102-104 | the loop over the children as they were when it began |
| RequestTracker.Tracker.LeaveRequest | lib/request.js:110-123 | the parent becomes current; without one the domain has no current request and one event is raised |
| RequestStack.StopPops | lib/request.js:97-125 | stopping a request of a stack deactivates exactly it and everything above it and makes its parent current |
| RequestInvariant.StopOutcome | lib/request.js:97-125 | an active request always stands on the stack of its own domain, or alone outside any, and stopping it pops that stack |
| RequestInvariant.TopEndsChain | lib/request.js:51-55 | `top` is the end of the parent chain |
| RequestInvariant.ChildIdLarger | lib/request.js:33-61 | a child's id is larger than its parent's, although roots are numbered by another counter |
| RequestInvariant.IdsUniqueInTree | lib/request.js:23-34 | ids are unique inside every request tree |
| RequestRuns.TraceStartExact | lib/request.js:64-72 | despite the early exit, tracing marks exactly the request and all its ancestors, and `tracedStart` stays upward closed |
| RequestRuns.StartKeepsInv | lib/request.js:36-91 | a start keeps the invariant (tree shape, stacks, tracing, events, ids with typed roots numbered 1, 2, 3, ...) and pushes onto the stack of its domain only |
| RequestRuns.StopKeepsInv | lib/request.js:97-125 | a stop in the request's own domain keeps the invariant, pops it and everything above it, and leaves every other stack alone; an inactive request changes nothing |
| RequestRuns.StopKeepsInvariantExactly | lib/request.js:97-125 | a stop keeps the invariant if and only if the request is inactive or the call runs in the domain it was started in |
| RequestRuns.StoppedElsewhere | lib/request.js:110-112 | a request started in one domain and stopped in another, from start-up, breaks the invariant |
| RequestRuns.EventComesLast | lib/request.js:110-123 | stopping raises exactly one event for an active parentless request in a domain and none for any other request, and by then nothing in that domain is active |
| RequestRuns.RunRefinesStacks | lib/request.js:36-125 | in every state of every run the invariant holds and each domain's parent chain is what a plain stack would hold |
| MessageProtocol.EveryRunIsSafe | src/appmetrics.cpp:398-473 | in every interleaving: mutual exclusion; delivered, then detached, then listed messages are the enqueued ones in lock order; a non-empty list has a wakeup pending or coming; each producer's messages stay in its own order |
| MessageProtocol.StepKeepsAwake | src/appmetrics.cpp:398-410 | no single step of any thread loses a wakeup, though several are coalesced into one |
| MessageProtocol.StepKeepsProgramOrder | src/appmetrics.cpp:434-472 | no step loses or reorders a message between the call and the list |
| MessageProtocol.CallsRecorded | src/appmetrics.cpp:435-473 | the recorded calls are those of the run, and no producer is lost |
| MessageProtocol.QuietRunsEnd | src/appmetrics.cpp:398-473 | without new calls every run ends, within a bound computed from the state |
| MessageProtocol.NothingIsStranded | src/appmetrics.cpp:398-473 | and where it ends everything that was sent in the run has been delivered, in the order of its producer, and every producer can send again: no deadlock and no lost wakeup |
| MessageQueue.Queue.FindTail | src/appmetrics.cpp:462-465 | the pointer-to-pointer walk stops at the cell behind the last node, reading only live memory |
| MessageQueue.Queue.Append | src/appmetrics.cpp:461-467 | writing that cell appends exactly one node and keeps the list linked and ending in null |
| MessageQueue.Queue.NewPayload | src/appmetrics.cpp:440-457 | the copies made of one message, and what is left allocated when one of them fails |
| MessageQueue.Queue.Prepare | src/appmetrics.cpp:435-457 | `sendData` up to the lock: a payload is ready if and only if the size is not 0 and all three allocations succeed; memory is lost if and only if only the source could not be allocated |
| MessageQueue.Queue.Link | src/appmetrics.cpp:459-467 | its critical section, with other producers and the drain of a detached list at any point of theirs: one message is enqueued, the detached list is untouched |
| MessageQueue.Queue.SendData | src/appmetrics.cpp:435-473 | without interference, a message is enqueued and the wakeup sent if and only if the size is not 0 and all three allocations succeed; it carries the source, and the data if they are a C string |
| MessageQueue.Queue.Detach | src/appmetrics.cpp:405-410 | the whole list is taken and the list is empty, at that moment |
| MessageQueue.Queue.FreePayload | src/appmetrics.cpp:376-392 | frees the node and whatever it owns, each of them live until then |
| MessageQueue.Queue.Deliver | src/appmetrics.cpp:412-430 | one turn of the drain loop: the first node is delivered, with its data as the two copies through a C string read it, its `next` read, and then its blocks freed |
| MessageQueue.DeliveredExactly | src/appmetrics.cpp:420 | the bytes of a message reach the listener, all and unchanged, if and only if the first NUL is the last of them; otherwise the copy goes past the end of what it reads |
| MessageQueue.SourceAllocationLeaks | src/appmetrics.cpp:447-454 | a message whose source cannot be allocated is not sent, and leaves memory behind |
| MessageQueue.Queue.Turn | src/appmetrics.cpp:412-430 | the same amid everything other threads hold: the list they append to and their prepared payloads stay as they are |
| MessageQueue.Queue.EmitMessage | src/appmetrics.cpp:395-433 | with producers taking any steps between its turns, the list as it was detached is delivered in order; only without such steps is the list empty afterwards |
| MessageQueue.Queue.PerformPrepare | src/appmetrics.cpp:435-457 | a call that goes through leaves one payload prepared, which reads as what was sent, and changes nothing else |
| MessageQueue.Queue.PerformLink | src/appmetrics.cpp:459-467 | the `k`-th prepared payload moves to the end of the list |
| MessageQueue.Queue.Interleave | src/appmetrics.cpp:376-473 | any sequence of critical sections has, on prepared, listed, detached and delivered messages, the effect of its steps one after the other (`DidHappens`, `DidAllEach`); after it all live memory is owned by exactly one node in reach or was lost by `sendData`, so no freed node is reachable and no block is freed twice |
| MessageQueue.DidHappens | src/appmetrics.cpp:398-473 | what each step brings about: a message prepared, put at the end of the list, the whole list detached, the first message delivered |
| MessageQueue.DidAllEach | src/appmetrics.cpp:398-473 | each step of a sequence counts, in its turn |
| MessageQueue.FirstInFirstOut | src/appmetrics.cpp:398-473 | what has been delivered, detached and listed after any sequence is what was linked, in the order of the links |
| MessageQueue.SentArrives | src/appmetrics.cpp:412-456 | the listener gets the source of a call, and its data if and only if they are a C string |
| MessageSystem.Perform | src/appmetrics.cpp:398-473 | each step of a thread in the protocol is carried out on the linked list, with the list, the detached list, what was delivered and each producer's payload in memory as the protocol has them |
| MessageSystem.RunThreads | src/appmetrics.cpp:398-473 | in every run of any number of threads the memory agrees with the protocol and nothing is lost; once all threads rest, the messages of all calls of the run that got their memory have been delivered, each producer's in the order of its calls, the list is empty and all memory has been freed |
| WatchdogProtocol.ResumesConserved | src/plugins/node/prof/watchdog.h:114-273 | in every run each resume signal is queued, dropped, ignored, or ended one wait, and each activation is counted, reported or reset once |
| WatchdogProtocol.StartMakesThread | src/plugins/node/prof/watchdog.h:231-236 | from every state in which the main thread works, a start of either kind leads to a profiler thread, the one there was if there was one, which stays until it exits |
| WatchdogProtocol.CountsSinceStart | src/plugins/node/prof/watchdog.h:242 | a watched start begins with a count of 0, and until it is read the count is what has been activated since |
| WatchdogProtocol.StopWillWake | src/plugins/node/prof/watchdog.h:264-273 | in every state after the signal of a stop, a profiler thread that is or will be suspended has a resume signal queued |
| WatchdogProtocol.NoDeadlockExactly | src/plugins/node/prof/watchdog.h:71-72 | no reachable state is a deadlock if and only if the suspend signal is the one dequeued first |
| WatchdogProtocol.ResumeFirstDeadlocks | src/plugins/node/prof/watchdog.h:71-72 | the deadlock with the numbers the other way round: start, stop at once, ignore, wait for ever |
| WatchdogProtocol.BackgroundEnds | src/plugins/node/prof/watchdog.h:215-229 | while the main thread stands still, every step of the timer or the profiler thread uses up part of a bound |
| WatchdogProtocol.StallIsSampled | src/plugins/node/prof/watchdog.h:251-259 | from every reachable state in which the event loop works on under the watchdog, the other threads come to rest after finitely many steps, and only with the profiler thread awake |
| WatchdogProtocol.JoinReturns | src/plugins/node/prof/watchdog.h:264-273 | from every reachable state in the join, the other threads cannot go on for ever and come to rest only with the thread gone |
| WatchdogProtocol.AsleepExactly | src/plugins/node/prof/watchdog.h:114-147 | in every reachable poll, the profiler thread stays suspended whatever the other threads do meanwhile if and only if it is suspended, or about to be, with no resume signal queued |
| WatchdogProtocol.PollCanBeDisturbed | src/plugins/node/prof/watchdog.h:114-123 | a reachable poll in which it does not, because the timer fired before it was disarmed |
| Watchdog.Watchdog.StartCpuProfiling | src/plugins/node/prof/watchdog.h:231-262 | whatever the timeout, there is a profiler thread afterwards; unless profiling is plain or watched already it is watched, the count is 0, a suspend signal is queued and the timer armed, with the system calls in this order, and otherwise nothing else changes; these are its protocol steps |
| Watchdog.Watchdog.BeforeSyscall | src/plugins/node/prof/watchdog.h:114-123 | suspend signal, then disarm, just around the epoll waits of a watched thread |
| Watchdog.Watchdog.AfterSyscall | src/plugins/node/prof/watchdog.h:144-147 | rearm |
| Watchdog.Watchdog.StopCpuProfiling | src/plugins/node/prof/watchdog.h:264-273 | resume signal, disarm, delete, in this order, and no longer watched |
| Watchdog.Watchdog.WatchdogActivationCount | src/plugins/node/prof/watchdog.h:275-278 | reports every activation once |
| Watchdog.Watchdog.OnSignal | src/plugins/node/prof/watchdog.h:215-229 | a resume signal is ignored; entered for a suspend signal, whatever main thread and timer do between two returns of `sigwaitinfo`, however often it is interrupted or finds nothing, the loop is a run of the protocol and counts one activation if and only if it has ended; undisturbed, a pending resume signal ends it |
| ProfilerStates.CarefulRunsAreGood | src/plugins/node/prof/nodeprofplugin.cpp:252-302 | in every run that changes the mode only while disabled with nothing outstanding, the profiler runs iff enabled and the timer is active, with its 5000 ms period, iff enabled outside JSON mode |
| ProfilerStates.SafeExactly | src/plugins/node/prof/nodeprofplugin.cpp:335-400 | from a state, nothing but a mode change can break that invariant if and only if it holds, starts cannot fail, and no callback of the other mode that matters is outstanding |
| ProfilerStates.ModeChangeSafeExactly | src/plugins/node/prof/nodeprofplugin.cpp:405-422 | when a change of mode leads to such a state again |
| ProfilerStates.Breaks | src/plugins/node/prof/nodeprofplugin.cpp:348-360 | how each unsafe state goes wrong, such as a timer that restarts a disabled profiler's sampling |
| ProfilerStates.CarelessRunsBreak | src/plugins/node/prof/nodeprofplugin.cpp:405-422 | however the plugin starts, changing the mode at the wrong moment leads to a state in which profiler or timer do not match |
| ProfilerStates.TimerSends | src/plugins/node/prof/nodeprofplugin.cpp:252-302 | while profiling is enabled and timed, each turn of the timer sends the running profile, discards none and begins the next |
| ProfilerStates.DisableDiscards | src/plugins/node/prof/nodeprofplugin.cpp:388-400 | disabling discards the running profile |
| ProfilerPlugin.SplitJoined | index.js:267 | a command joined to its subject with a comma is taken apart again if and only if it has no comma itself |
| ProfilerPlugin.SplitWhole | src/plugins/node/prof/nodeprofplugin.cpp:526-528 | a message without a comma is its own command and its own subject |
| ProfilerPlugin.RequestExact | src/plugins/node/prof/nodeprofplugin.cpp:530-554 | which step each command about each subject stands for |
| ProfilerPlugin.Plugin.SendControlCommand | src/plugins/node/prof/nodeprofplugin.cpp:513-556 | the effect of every command without a comma on the plugin's own fields: `on` and anything else for the subsystem, by mode, with the threshold cleared by the latter; the JSON mode and its interval; the threshold; nothing for another topic or subject |
| ProfilerPlugin.Plugin.ReceiveMessage | src/plugins/node/prof/nodeprofplugin.cpp:513-556 | each message is exactly one step: request, mode (with its interval) or threshold; any other changes nothing |
| ProfilerPlugin.Plugin.SetEnabled | src/plugins/node/prof/nodeprofplugin.cpp:405-422 | which wakeup is sent depends on the mode at the time of the request; disabling resets the threshold |
| ProfilerPlugin.Plugin.Dispatch | src/plugins/node/prof/nodeprofplugin.cpp:335-400 | each callback and the timer take their step |
| ProfilerPlugin.Plugin.OnGatherDataOnV8Thread | src/plugins/node/prof/nodeprofplugin.cpp:295-302 | collects only when enabled, but restarts the profiler regardless |
| ProfilerPlugin.Plugin.Stop | src/plugins/node/prof/nodeprofplugin.cpp:492-511 | stops profiler and timer and closes every wakeup |
| PowersOfTwo.SmearDoubles | src/plugins/node/env/nodeenvplugin.cpp:222-230 | or-ing a number with itself shifted by w doubles a run of w ones at its top |
| HeapSizes.AlignToPowerOfTwo | src/plugins/node/env/nodeenvplugin.cpp:221-233 | the least power of two at or above v for 1 <= v <= 2^63 (2^31 for a 32-bit size), and 0 for every other v |
| HeapSizes.Align | src/plugins/node/env/nodeenvplugin.cpp:213-219 | the least multiple at or above the value if and only if that multiple fits, for every alignment; 0 when a page-like alignment overflows |
| HeapSizes.GuessSpaceSizeFromArgs | src/plugins/node/env/nodeenvplugin.cpp:167-195 | by position: the last argument that matches the name, underscores allowed for dashes, decides; 0 if none does |
| HeapSizes.RequestExact | src/plugins/node/env/nodeenvplugin.cpp:235-251 | a guess starts from the size given last if that is not 0, and from the default otherwise |
| HeapSizes.GuessMaxOldSpaceSize | src/plugins/node/env/nodeenvplugin.cpp:235-246 | the least multiple of the page size at or above the request, or 0 if there is none |
| HeapSizes.GuessMaxSemiSpaceSize | src/plugins/node/env/nodeenvplugin.cpp:248-259 | at once a power of two, a multiple of the page size and no smaller than the request, and the least such; 0 when the request is 0 or above half the range |
| HeapSizes.LeastOfPages | src/plugins/node/env/nodeenvplugin.cpp:256 | rounding to pages and then to a power of two is rounding to a power of two that is at least a page |
| HeapSizes.HugeSemiSpace | src/plugins/node/env/nodeenvplugin.cpp:248-259 | an option with the argument -1, which the conversion to an unsigned size turns into 2^64 - 2^20 bytes, is guessed as 0 |

## Left out

- RoundTripExact: graphs with a reachable field named `idCount` are outside its precondition, because the code uses that name itself; `ReservedNameIsLost` shows that they never come back. So are fields of their own named `__proto__`, whose assignment sets a prototype instead. Arrays are compared by content; `SharingExact` treats their identity.
- Deserializer.DeserializeText: texts whose `idCount` is an object or an array are excluded: the serializer never writes one, and using it as a property key calls its `toString`, which it may bring along. Texts with a repeated key are excluded, and so are back references to a name that the cache array has itself, such as `CIRCULAR-length`; only fields that start with `CIRCULAR-` anyway can hold them.
- Serializer.SerializeRoot: the text is modelled as the tree it denotes; the characters that `JSON.stringify` writes are not, nor the place of `idCount` among integer-like names, and a number is carried as its JSON text. Functions, symbols, other exotic values and inherited properties are not modelled, so a field named `toJSON` or `hasOwnProperty` is never callable.
- ConstructNodeData: names are the C strings that `ExtractV8String` extracts, so encoding to UTF-8 and cutting at a NUL happen before the model starts; its failure paths for lack of memory are not modelled.
- JsonRoundTrip: the RFC 8259 reader accepts `\u` escapes only outside the surrogate range; the printer writes none.
- Visit: the static id counter is unbounded; the C++ `int` would overflow after 2^31 nodes.
- FormatProfiling: JavaScript numbers are exact integers and rationals, without the limits of doubles.
- StopRequest: the timers and the configured thresholds are a predicate that says which requests were slow; the stack trace, the request's context and the payload of the event are not modelled. The domain in force is a parameter, so the domain module's own enter and exit are not modelled beyond the new domain of a root.
- CrossedRequests: the source promises no order between callbacks; the lemma only records that with both outstanding their order decides.
- ProfilesConserved: counts profiles by counters of the model.
- StartRequest: starting a stopped request object again is not modelled; the module's functions always start a new one.
- EmitMessage: the listener only appends to a log; an exception it throws is not modelled, nor what a copy finds beyond the end of a block. `SendData` follows the code's tests for failed allocations, although `new` may throw instead.
- Interleave: what a thread does inside a critical section, or to memory that only it knows, is one step.
- MessageProtocol: the mutex is fair enough that a free mutex can be taken.
- RunThreads: calls of `sendData` that return before the lock, for want of memory or with size 0, are not steps of the protocol; `SendData` treats them.
- Syscall: the system call itself, the patching of the machine code and the search of /proc are not modelled; a failed `CHECK` ends the process and is not modelled.
- WatchdogProtocol: an interrupted wait repeats without changing the state, so the bounds count the other steps only; whether a queued timer signal survives disarming or deleting the timer is left open, as POSIX leaves it.
- ProfilerPlugin: log messages, the published configuration and the content of the profile are left to the other modules; messages that arrive before the plugin starts are not modelled.
- GuessSpaceSizeFromArgs: `strtol` is a parameter, and multiplying its result is taken to wrap around, where C leaves a signed overflow undefined.
- GetNodeInformation: the other environment data are not modelled.
- Probes, aspects, the other plugins, headless mode, URL handling and heap dumps are not part of this model: they are glue around other libraries or simple folds that would only add easy members.
