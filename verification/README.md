# Verification of the libIEC61850 example applications

A Dafny 4.11 model of the parts of libIEC61850's example and demo programs that hold real state, with proofs about
every run of them. `dafny verify dfyconfig.toml` checks the whole project.

## What is modelled

**The BeagleBone demo** (`BeagleModel`, `BeagleSafety`, `BeagleHistory`, `BeagleExclusion`, `BeagleData`,
`BeagleTiming`, `BeagleDemo`, `BeagleClient`, `BeagleSession`, `BeagleChase`). Any number of clients compete for exclusive control of four LEDs. The server arbitrates, blinks
LEDs 1 to 3 while nobody holds control, carries out single point commands and a two-phase double point command with a
sleep in the middle, and mirrors the LEDs in its data model. `BeagleModel` is the labelled transition system; its
events are connect, close, forget (the library drops a closed connection), operate request, execution of the handler,
the end of the handler's sleep, and one pass of the main loop. An event that cannot happen in a state leaves the state
as it is, so every sequence of events is a run and no theorem needs a side condition on the schedule. `BeagleDemo` is
the program itself, a class whose methods update its fields in place, each method proved to make the matching step.
`BeagleSession` is the run of a client with any plan of operates and sleeps while everything else interferes: its
states are those of a run of the server, in which the client's own events are its plan. `BeagleChase` is the LED chaser,
a program that runs against that class, and its results say what holds at the states it passes through.

The dispatcher between request and handler is the library's (`src/iedserver/mms_mapping/control.c`), and two facts of
it shape the results:

* A positive response to an operate request is sent *before* the control handler runs, in a thread of its own
  (control.c:325-341). So a client can have operations on several control objects in flight at once
  (`TwoOperationsInFlight`), and after an accepted operate the data model may still show the old value
  (`FirstSleepMayBeDark`). What a client can rely on is the *settled* value, the one shown once the operation in flight
  has ended. At each sleep of the chaser exactly the right LED is settled on; from the third sleep on it is shown
  exactly if no operation on LEDs 1 to 3 is in flight, and before that `SleepTheorem` names the one exception, an `off`
  sent to an LED that was dark already. `HeadTheorem` says the same of DPCSO1 at the loop heads.
* The indication that a connection has closed comes *before* the library waits for the control threads of that
  connection (mms_mapping.c:1411-1423). So the device can go back to automatic mode, blink, and be taken over by another
  client while a double point command of the old holder still sleeps (`HolderMayLeaveDuringCommand`).
  `FlightBelongsToHolderUntilClose` gives the exact condition: an operation in flight belongs to the holder if and only
  if its client is not among the closed ones. Per control object operations never overlap, and each accepted one is
  carried out exactly once and in order (`OperationsRunOnceInOrder`, `SleepingDpcUndisturbed`), given the second
  assumption below. If a connection is removed before its control thread looks it up, the thread returns without running
  the handler (control.c:294-297). The control object then stays busy, unless it is the first one last used by that
  connection, which is put back to ready after the wait (mms_mapping.c:1430); in that case a thread that starts later
  still can run with the parameters of the next client's command.

So it depends on the clients whether operations exclude each other. `AtMostOneIff` and `ExclusiveIff` say exactly how:
at most one operation is ever in flight if and only if each accepted request finds its own client, and the clients that
have gone, without one; and it is moreover always the holder's, with the blinking stopped, if and only if clients
request and leave only when their own operations have ended.

What the data model shows after a run is a function of the past (`StatusIsLastWrite`, `DoubleIsLastCommand`). A test
command leaves no trace in it, wherever it comes in a run (`IneffectiveLeavesNoTrace`), but it does take control of a
free device and stop the blinking: the check handler does not look at its test argument, and none of `AcceptedIff`,
`HolderIff` and `NoToggleWhileHeld` depends on it.

The chaser's sleeps and loop heads are reached: `FavourableSucceeds` says of every plan that no operate is refused if
nobody else takes control first and the control threads get to run before each action, and then the chase is shown at
every sleep, the first included (`FavourableChaseIsShown`). `RefusedWhy` is the exact condition of a first refusal.

**The model browser** (`Outline`, `References`, `BrowserOutput`, `BrowserLists`, `ModelBrowser`). It prints a remote tree of any depth
as an indented outline and builds object references on the way down; after the data objects of each logical node it
prints its data sets, their members and its report control blocks. A reader of outlines, which passes over all lines
that are not of that form, is the printer's inverse, so the text determines the tree: of the outline alone if and only
if no name has a newline in it, of the whole output if and only if moreover no line of the lists is taken for one of
the outline (`ReadOutputIff`), which with single line names means that no member of a data set starts like an outline
line (`QuietIff`). The output then gives back the lists as well (`ReadAllListsOfOutput`). The references are proved to
be LD, LD/LN, LD/LN.DO, LD/LN.DO.DA and so on of the nodes, all different, and to split into the path of their node.

**The complex array server** (`ComplexArray`): leaves of a heap tree updated in place, with frames and exact contents.
**The report control block client** (`Reporting`, in `ReportControlBlock.dfy`): request masks over any history of
calls, and the delivery of reports. Two things do not hold of it. A value that waits to be sent is overwritten when the
block is read in between, although its bit stays in the mask (`ReadingDropsUnsentValue`, exact condition in
`SetValueKeptIff`). And every report is delivered as the report object made for the first one, which is right exactly
when the native library passes the same report each time (`DeliveredIffSameReport`); it does, as it keeps one report
object per registration (`src/iedclient/impl/client_report.c:171`, `:394`).
**The password server** (`PasswordControl`) and **the value enumerator** (`MmsEnumerator`). The password server's
handler ignores the test flag, so there it plays no part at all in any run (`TestFlagPlaysNoPart`).

## Assumptions

* A handler body, up to its sleep, is one atomic step, and so is one pass of the main loop. Check handlers are indeed
  serialised by the library (the user lock, `src/mms/iso_server/iso_connection.c:240`), but a handler in a control
  thread and the main loop are not kept apart by the code.
* The control thread of an accepted request is known to the library as a task of its connection from the moment of
  acceptance (in the code it registers itself when it starts, control.c:293-298).
* Requests come only from connected clients, and a connection's requests are answered one after the other
  (iso_connection.c:106-346).
* Clock samples, control values, the schedule, the tree of the remote side and the answers of the network are
  parameters; nothing is assumed of the clock except where a lemma says so.
* A data attribute holds what was last written to it; the server starts from the library's default values (false, zero
  quality, zero time).

## Model

| member | source | states |
|---|---|---|
| `BeagleSafety.StepInv` | demos/beaglebone/beagle_demo.c:37-146 | Every event keeps, from any state that has them, ownership, the owner of each operation in flight, and the mirror of LEDs and data model. |
| `BeagleSafety.ReachableInv` | demos/beaglebone/beagle_demo.c:151-245 | Start up establishes them, so they hold after every run. |
| `BeagleSafety.ModeOwnership` | demos/beaglebone/beagle_demo.c:27-70 | After every run automatic mode is on exactly when nobody holds control, and a holder is connected. |
| `BeagleSafety.DataModelMirrorsLeds` | demos/beaglebone/beagle_demo.c:72-146 | After every run each single point's stVal is what its LED shows; DPCSO1 is off or on exactly with LED4 steadily off or on, and intermediate exactly during the handler's sleep and with LED4 flashing. |
| `BeagleSafety.FlightBelongsToHolderUntilClose` | src/iedserver/mms_mapping/mms_mapping.c:1411-1423 | After every run an operation in flight is the holder's exactly if its client has not been closed; until then the main loop cannot toggle. |
| `BeagleSafety.ConnectedFlightsShareOwner` | demos/beaglebone/beagle_demo.c:56-70 | Operations of connected clients in flight together are one client's. |
| `BeagleSafety.SleepingDpcUndisturbed` | demos/beaglebone/beagle_demo.c:121-143 | During the sleep of the double point handler no events whatever change LED4, DPCSO1 or its command. |
| `BeagleSafety.DpcCommandCompletes` | demos/beaglebone/beagle_demo.c:121-143 | A double point command, with anything happening during its sleep, ends with the commanded state on LED4 and DPCSO1, stamped with its start. |
| `BeagleHistory.HolderIff` | demos/beaglebone/beagle_demo.c:37-70 | A client holds control exactly if some request of its was accepted and it has not gone since. |
| `BeagleHistory.RejectedIffHeldByOther` | demos/beaglebone/beagle_demo.c:56-70 | In every history, a request that reaches the check is rejected if and only if a request of another client was accepted before it and that client has not gone in between. |
| `BeagleHistory.NoToggleWhileHeld` | demos/beaglebone/beagle_demo.c:205-220 | No automatic toggle between an accepted request and the end of its client's connection. |
| `BeagleHistory.OperationsRunOnceInOrder` | src/iedserver/mms_mapping/control.c:1217-1328 | Per control object, the accepted operations are the ended ones followed by the one in flight: each runs once, in order, without overlap. |
| `BeagleHistory.OpenIff` | src/iedserver/mms_mapping/mms_mapping.c:1410-1446 | A client is connected exactly if it was let in, whoever held control, and its connection has not been closed since. |
| `BeagleHistory.ClosingIff` | src/iedserver/mms_mapping/mms_mapping.c:1410-1433 | The library waits for the control threads of a client exactly if its connection was closed and has not been forgotten since, which happens once no operation of its is in flight. |
| `BeagleHistory.AcceptedIff` | src/iedserver/mms_mapping/control.c:1232-1326 | A request is accepted if and only if, by the history, its client was let in and has not gone, all operations accepted for the object have ended, and nobody else holds control. |
| `BeagleHistory.SuccessorIsAccepted` | demos/beaglebone/beagle_demo.c:37-70 | A client that comes while another holds control is accepted on any idle object as soon as that one has gone. |
| `BeagleHistory.TwoOperationsInFlight` | src/iedserver/mms_mapping/control.c:325-341 | One client can have two operations in flight at once; `AtMostOneIff` says when this never happens. |
| `BeagleHistory.HolderMayLeaveDuringCommand` | src/iedserver/mms_mapping/mms_mapping.c:1411-1423 | A holder can go during its double point command; LEDs 1 to 3 then toggle and another client takes control before the command ends. |
| `BeagleExclusion.AtMostOneIff` | src/iedserver/mms_mapping/control.c:325-341 | For every run: at most one operation is in flight throughout if and only if every accepted request finds no operation of its own client in flight, and none of a client that has gone. |
| `BeagleExclusion.ExclusiveIff` | demos/beaglebone/beagle_demo.c:37-70 | For every run: throughout at most one operation is in flight, it is the holder's and automatic mode is off, if and only if every accepted request, and every end of a connection, finds its own client without an operation in flight. |
| `BeagleData.StatusIsLastWrite` | demos/beaglebone/beagle_demo.c:72-119 | After every run value, quality and time of a single point are those of its last write: a toggle, with the parity of all toggles, or the handler of the first accepted operation not ended by then, with that operation's value. |
| `BeagleData.StatusIfUnwritten` | demos/beaglebone/beagle_demo.c:72-119 | Every run with a write has a last one; without a write they are unset. |
| `BeagleData.TogglesIff` | demos/beaglebone/beagle_demo.c:205-220 | The main loop toggles at an event if and only if it is a clock sample, nobody holds control by the history, and a second has passed since the last toggle or, before any, since the start. |
| `BeagleData.DoubleIsLastCommand` | demos/beaglebone/beagle_demo.c:121-143 | After every run DPCSO1 has the time of the last effective command begun on it; its state is the commanded one if the sleep is over since, else intermediate. |
| `BeagleData.DoubleIfUndriven` | demos/beaglebone/beagle_demo.c:185-186 | With no such command DPCSO1 is off and has no time. |
| `BeagleData.IneffectiveLeavesNoTrace` | demos/beaglebone/beagle_demo.c:102-106 | A test or non-boolean command of the holder, inserted anywhere in a run while the holder stays and makes no other request for the object, changes no LED or attribute at any later time, and nothing at all once its handler has run. |
| `BeagleTiming.TogglesAtLeastASecondApart` | demos/beaglebone/beagle_demo.c:205-220 | In every run, for every clock, successive toggles are at least 1000 ms apart. |
| `BeagleTiming.KthToggleNotBefore` | demos/beaglebone/beagle_demo.c:205-220 | The k-th toggle comes no earlier than k seconds after the start. |
| `BeagleTiming.AutomaticToggleRate` | demos/beaglebone/beagle_demo.c:205-220 | While automatic mode lasts and samples come at most d ms apart, the first toggle is less than d ms late, given a sample before it was due, successive toggles are less than 1000 + d ms apart, and no sample is a second after the last toggle. |
| `BeagleTiming.BlinkParity` | demos/beaglebone/beagle_demo.c:203-214 | The blinking value is on exactly after an odd number of toggles. |
| `BeagleTiming.ToggleResynchronises` | demos/beaglebone/beagle_demo.c:72-97 | From any state, after a toggle and until a handler drives one of them, LEDs 1 to 3, their stVals and the loop's value are equal, with one time stamp and each with its own quality. |
| `BeagleDemo.DemoServer.constructor` | demos/beaglebone/beagle_demo.c:151-205 | Start up gives the initial state of the transition system. |
| `BeagleDemo.DemoServer.FlashLED` | demos/beaglebone/beaglebone_leds.c:16-33 | Sets trigger and both delays of one LED, and nothing else. |
| `BeagleDemo.DemoServer.SwitchLED` | demos/beaglebone/beaglebone_leds.c:35-52 | Sets trigger and brightness of one LED, and nothing else. |
| `BeagleDemo.DemoServer.InitLEDs` | demos/beaglebone/beaglebone_leds.c:54-61 | Switches all four LEDs off. |
| `BeagleDemo.DemoServer.ConnectionIndicationHandler` | demos/beaglebone/beagle_demo.c:37-54 | Releases control exactly if the closed connection held it. |
| `BeagleDemo.DemoServer.PerformCheckHandler` | demos/beaglebone/beagle_demo.c:56-70 | Takes free control; accepts exactly the holder. |
| `BeagleDemo.DemoServer.UpdateLEDstVal` | demos/beaglebone/beagle_demo.c:72-97 | The three update functions: LED, value, quality, time. |
| `BeagleDemo.DemoServer.ControlHandlerForBinaryOutput` | demos/beaglebone/beagle_demo.c:99-136 | The handler up to its sleep or end, with its result and all its branches. |
| `BeagleDemo.DemoServer.ControlHandlerAfterSleep` | demos/beaglebone/beagle_demo.c:130-143 | The handler after its sleep. |
| `BeagleDemo.DemoServer.OperateRequest` | src/iedserver/mms_mapping/control.c:1198-1328 | An operate request makes the request step and is answered as that step says. |
| `BeagleDemo.DemoServer.OperateThread` | src/iedserver/mms_mapping/control.c:286-363 | The control thread makes the execution step. |
| `BeagleDemo.DemoServer.MainLoopPass` | demos/beaglebone/beagle_demo.c:207-220 | One pass of the main loop makes the tick step. |
| `BeagleDemo.DemoServer.Interfere` | demos/beaglebone/beagle_demo.c:37-146 | Any sequence of events on the program is a run of the transition system. |
| `BeagleDemo.MainLoop` | demos/beaglebone/beagle_demo.c:205-245 | The main loop with any clock and any interleaving is a run of the transition system. |
| `BeagleClient.HandlersKeepSettled` | demos/beaglebone/beagle_demo.c:99-146 | Running accepted handlers changes no settled value. |
| `BeagleClient.InterferenceKeepsSettled` | demos/beaglebone/beagle_demo.c:37-146 | While a client holds control, no interleaving of others takes it away or changes a settled value. |
| `BeagleClient.AcceptedSettles` | src/iedserver/mms_mapping/control.c:1287-1313 | An accepted request settles its own object at the requested value and no other object. |
| `BeagleClient.InterferenceKeepsKnowledge` | demos/beaglebone/beagle_demo.c:37-146 | While a client holds control, no interleaving of others makes wrong what it knows of its last command: the object is settled there, only that command can be in flight, and if it asked for a change the object does not show it meanwhile. |
| `BeagleSession.AfterIsRun` | demos/beaglebone/beagle_client.c:56-98 | The states a client with any plan passes through, with any behaviour of the others, are states of one run of the server. |
| `BeagleSession.OwnEventsAreScript` | demos/beaglebone/beagle_client.c:56-81 | In that run the client's own events are exactly its planned requests, in order. |
| `BeagleSession.ClientKnows` | demos/beaglebone/beagle_client.c:56-81 | From its first operate on, as long as all are accepted, the client holds control and what it knows of every object is right, after each action and until the next. |
| `BeagleSession.RefusedWhy` | src/iedserver/mms_mapping/control.c:1217-1329 | While all operates before it were accepted, an operate is refused if and only if an operation on its object is in flight or, before any operate, somebody else holds control; the operation in flight is the client's own last command on the object, if it gave one. |
| `BeagleSession.FavourableSucceeds` | demos/beaglebone/beagle_client.c:56-81 | For every plan: if nobody else holds control at the start or operates before the client has, and the control threads get to run before each action, no operate is ever refused. |
| `BeagleChase.Operate` | src/iedclient/impl/client_control.c:278-343 | An operate call after interference makes the request step, and is answered as that step says. |
| `BeagleChase.Prepare` | demos/beaglebone/beagle_client.c:56-58 | The three operates before the loop are the first actions of the session, up to a refusal. |
| `BeagleChase.Advance` | demos/beaglebone/beagle_client.c:61-71 | One LED off, the next on, sleep: the next three actions, up to a refusal. |
| `BeagleChase.Round` | demos/beaglebone/beagle_client.c:60-81 | A round is the next ten actions, up to a refusal, and the states at its head and at the ends of its sleeps are the recorded ones. |
| `BeagleChase.Chase` | demos/beaglebone/beagle_client.c:56-98 | For every start, every interference and any number of rounds, the program makes the actions of its session up to the first refusal and then closes its connection; the states returned are the session's at the loop heads and the ends of the sleeps, all that it came to. |
| `BeagleChase.ChaserScript` | demos/beaglebone/beagle_client.c:56-81 | The requests of the chaser, one by one: three before the loop, and seven in each round, the last LED off before the next on. |
| `BeagleChase.ChaseOutcome` | demos/beaglebone/beagle_client.c:56-98 | At every recorded sleep exactly one of SPCSO1..3 is settled on, in turn, and shown from the third on exactly if no operation on the three is in flight; at every recorded head DPCSO1 is settled on exactly if led4State, and from the second on shown exactly if its command has ended. |
| `BeagleChase.SleepTheorem` | demos/beaglebone/beagle_client.c:63-71 | The same at every sleep of the session, with the exact condition at the first two: in flight only an off sent to a dark LED. |
| `BeagleChase.NeverTwoSettled` | demos/beaglebone/beagle_client.c:60-81 | From the first operate of the loop on, at every action and before the next, no two of SPCSO1..3 are settled on. |
| `BeagleChase.HeadTheorem` | demos/beaglebone/beagle_client.c:73-80 | The same at every loop head, with the exact condition at the first: an off sent to a dark LED4 that has not begun. |
| `BeagleChase.FavourableChaseIsShown` | demos/beaglebone/beagle_client.c:56-81 | In such a session every sleep of the chaser is reached, and just the right LED is lit at each, the first included. |
| `BeagleChase.ChaseShownAfterHandlers` | src/iedserver/mms_mapping/control.c:337-358 | Once the control threads have run, exactly the right LED is lit. |
| `BeagleChase.FirstSleepMayBeDark` | src/iedserver/mms_mapping/control.c:325-341 | An interference under which all operates up to the first sleep are accepted and yet all three LEDs are dark there, with DPCSO1 intermediate. |
| `Outline.ReadInvertsLines` | examples/iec61850_client_example2/client_example2.c:31-42 | Reading the lines of any forest, at any indent, gives that forest and what follows it. |
| `Outline.LinesInvertRead` | examples/iec61850_client_example2/client_example2.c:31-42 | Printing what was read, and appending the rest, gives the lines back, for any lines. |
| `Outline.OutlineIffReadInFull` | examples/iec61850_client_example2/client_example2.c:31-42 | Lines are the outline of a forest if and only if the reader uses them up. |
| `Outline.ReadOutlineIff` | examples/iec61850_client_example2/client_example2.c:12-45 | A forest is read off a text if and only if its lines are the outline lines of the text; then its names are single lines. |
| `Outline.ReadOutlineInvertsPrint` | examples/iec61850_client_example2/client_example2.c:12-45 | The printed characters give the forest back if and only if no name has a newline. |
| `Outline.PrintIsInjective` | examples/iec61850_client_example2/client_example2.c:12-45 | Forests with the same printed text are equal. |
| `Outline.NewlineInNameBreaksPrint` | examples/iec61850_client_example2/client_example2.c:34-35 | With a newline in a name two forests can print alike. |
| `References.SplitInvertsRefOf` | examples/iec61850_client_example2/client_example2.c:106 | Splitting the reference of a path at its first slash and then at dots gives the path. |
| `References.RefOfIsReference` | examples/iec61850_client_example2/client_example2.c:40-106 | The reference built step by step is LD, LD/LN, LD/LN.DO, LD/LN.DO.DA and so on. |
| `References.RefsAreReferences` | examples/iec61850_client_example2/client_example2.c:39-106 | The references built for a model are exactly these, of the nodes' paths, in the order of the outline. |
| `References.RefsAreOfPaths` | examples/iec61850_client_example2/client_example2.c:39-41 | The references built on the way down are those of the nodes' paths, in the order of the outline. |
| `References.PathsDistinct` | examples/iec61850_client_example2/client_example2.c:31-42 | With different names among siblings all paths are different. |
| `References.ReferencesIdentifyNodes` | examples/iec61850_client_example2/client_example2.c:88-110 | Every node has a reference of its own, which splits into the node's path. |
| `References.DirectoryOfChild` | src/iedclient/impl/ied_connection.c:1455-1475 | The directory request for the reference built for a child, which is split at its first slash and then at dots, is answered with that child's children. |
| `BrowserOutput.ReadOutputIff` | examples/iec61850_client_example2/client_example2.c:70-178 | The whole output, with headers and lists, gives the model back if and only if no node name has a newline and no line of the lists is taken for one of the outline. |
| `BrowserOutput.QuietIff` | examples/iec61850_client_example2/client_example2.c:112-174 | With single line names, no line of the lists of a logical node is taken for one of the outline if and only if no data set member starts, after any spaces, like an outline line. |
| `BrowserOutput.OutputDeterminesModel` | examples/iec61850_client_example2/client_example2.c:70-178 | Such models with the same output are the same, whatever their lists. |
| `BrowserOutput.SampleNode` | examples/iec61850_client_example2/client_example2.c:80-174 | The text of a logical node with one entry of each kind, character by character, for all names. |
| `BrowserOutput.SampleOutput` | examples/iec61850_client_example2/client_example2.c:70-183 | The text of the headers and of a device, likewise. |
| `BrowserLists.ReadListsInvertsText` | examples/iec61850_client_example2/client_example2.c:112-174 | The text of the lists of a logical node gives back each data set with name, members and whether it can be deleted, and the report control blocks of both kinds, for all single line names. |
| `BrowserLists.ReadAllListsOfOutput` | examples/iec61850_client_example2/client_example2.c:70-183 | The whole output gives back the model and the lists of each of its logical nodes, in order. |
| `BrowserLists.OutputDeterminesLists` | examples/iec61850_client_example2/client_example2.c:70-183 | Two such models with the same output are the same, with the same lists. |
| `BrowserLists.ListsRequestsAre` | examples/iec61850_client_example2/client_example2.c:112-160 | The list requests for a logical node, one by one: data sets, members of each by LD/LN.DS, unbuffered and buffered report control blocks. |
| `BrowserLists.DevicesRequestsAre` | examples/iec61850_client_example2/client_example2.c:80-160 | The list requests of a browse are just those for its logical nodes, by LD/LN. |
| `ModelBrowser.Sprintf` | examples/iec61850_client_example2/client_example2.c:39-40 | A string that fits is found in the buffer again, up to its terminating zero. |
| `ModelBrowser.Browser.PrintSpaces` | examples/iec61850_client_example2/client_example2.c:12-19 | Prints that many spaces. |
| `ModelBrowser.Browser.PrintDataDirectory` | examples/iec61850_client_example2/client_example2.c:21-45 | Prints the outline below the reference, asks once for each node by its own reference, terminates, stays within the 129-byte buffers; prints nothing for an unknown reference. |
| `ModelBrowser.Browser.PrintDataAttribute` | examples/iec61850_client_example2/client_example2.c:31-42 | The loop body: one line, one reference, one recursive call. |
| `ModelBrowser.Browser.PrintDataObjects` | examples/iec61850_client_example2/client_example2.c:88-109 | The same for the data objects of a logical node. |
| `ModelBrowser.Browser.PrintLists` | examples/iec61850_client_example2/client_example2.c:112-174 | Prints data sets, members and report control blocks of a logical node and makes just the requests for them, within the 129-byte buffer. |
| `ModelBrowser.Browser.PrintLogicalNodes` | examples/iec61850_client_example2/client_example2.c:80-178 | The loop over the logical nodes of a device: each with its outline and then its lists, and all requests. |
| `ModelBrowser.Browser.PrintDevices` | examples/iec61850_client_example2/client_example2.c:75-183 | The same for the devices of the server. |
| `ModelBrowser.Browser.PrintModel` | examples/iec61850_client_example2/client_example2.c:68-183 | The output is the whole output of the model, the directory requests are the references of its nodes, each once, and the list requests those of its logical nodes. |
| `ModelBrowser.BrowseAndReadBack` | examples/iec61850_client_example2/client_example2.c:21-183 | After a browse the text read back is the model and, for readable lists, the lists; no directory was asked for twice, and each request is LD, LD/LN, LD/LN.DO, LD/LN.DO.DA and so on, of its node's path. |
| `ComplexArray.MmsValue.GetElement` | src/mms/iso_mms/common/mms_value.c:1565-1574 | The component at an index, or null for other types and indices. |
| `ComplexArray.MmsValue.SetFloat` | src/mms/iso_mms/common/mms_value.c:461-471 | Writes a float value only. |
| `ComplexArray.NewArray` | src/mms/iso_mms/common/mms_value.c:1510-1523 | A newly made array tree is well shaped. |
| `ComplexArray.LeavesOf` | examples/server_example_complex_array/server_example_ca.c:31-47 | The walk down from the array reaches the four leaves of the element. |
| `ComplexArray.UpdateCMVArrayElement` | examples/server_example_complex_array/server_example_ca.c:28-49 | The element shows the new measurement, all other elements show what they did, and only the four leaves are written. |
| `ComplexArray.Initialise` | examples/server_example_complex_array/server_example_ca.c:74-88 | Element i shows magnitude 200 + i, angle 0.01 * (i + 1), quality 0 and the time. |
| `ComplexArray.MainLoop` | examples/server_example_complex_array/server_example_ca.c:103-122 | After any number of passes all elements show the last pass, with quality 0 up to the eleventh pass and 66 from the twelfth. |
| `ComplexArray.LeavesAreAt` | examples/server_example_complex_array/server_example_ca.c:31-47 | Where the leaves of an element are below the array. |
| `ComplexArray.Serve` | examples/server_example_complex_array/server_example_ca.c:74-122 | Both together, for every well shaped tree, with magnitude, angle, quality and time spelled out and nothing outside the first n elements changed. |
| `Reporting.BitsOfSum` | dotnet/IEC61850forCSharp/ReportControlBlock.cs:241-283 | A sum of distinct powers of two has just those bits. |
| `Reporting.BitsDetermine` | dotnet/IEC61850forCSharp/ReportControlBlock.cs:241-283 | Masks with the same bits are equal. |
| `Reporting.MaskDetermines` | dotnet/IEC61850forCSharp/ReportControlBlock.cs:241-283 | Two masks are equal if and only if they name the same parameters. |
| `Reporting.ReportControlBlock.Set` | dotnet/IEC61850forCSharp/ReportControlBlock.cs:319-411 | A setter writes the native value and adds its parameter to the flagged ones. |
| `Reporting.ReportControlBlock.GetRCBValues` | dotnet/IEC61850forCSharp/ReportControlBlock.cs:224-232 | A read overwrites native values, unless it fails. |
| `Reporting.ReportControlBlock.SetRCBValues` | dotnet/IEC61850forCSharp/ReportControlBlock.cs:239-291 | The mask sent has the bits of exactly the flagged parameters and no others. |
| `Reporting.Drive` | dotnet/IEC61850forCSharp/ReportControlBlock.cs:145-291 | For every history of calls, the k-th request names exactly the parameters set before it, with the native values of that time. |
| `Reporting.MaskBits` | dotnet/IEC61850forCSharp/ReportControlBlock.cs:241-283 | In every history, bit by bit, which parameter each bit of a mask sent stands for; bit 13 and those from 15 on are never set. |
| `Reporting.SameMaskIff` | dotnet/IEC61850forCSharp/ReportControlBlock.cs:239-291 | Two requests of a history have the same mask if and only if the same parameters had been set before them. |
| `Reporting.MaskBitsStay` | dotnet/IEC61850forCSharp/ReportControlBlock.cs:164-180 | A bit in the mask of one request of a history is in the masks of all later ones: flags are never reset. |
| `Reporting.NativeIs` | dotnet/IEC61850forCSharp/ReportControlBlock.cs:224-411 | Every native value is the one last set or read without error, whichever was later. |
| `Reporting.SetValueKeptIff` | dotnet/IEC61850forCSharp/ReportControlBlock.cs:224-232 | A set value is still there to be sent if and only if no other value was read from the server since. |
| `Reporting.ReadingDropsUnsentValue` | dotnet/IEC61850forCSharp/ReportControlBlock.cs:224-291 | Set, read, send: the request names the parameter and carries the server's own value. |
| `Reporting.ReportControlBlock.InstallReportHandler` | dotnet/IEC61850forCSharp/ReportControlBlock.cs:210-222 | Replaces handler and parameter; registers with the native library only the first time. |
| `Reporting.ReportControlBlock.InternalReportHandler` | dotnet/IEC61850forCSharp/ReportControlBlock.cs:184-201 | Delivers one report to the installed handler, as the report object first made. |
| `Reporting.Report` | dotnet/IEC61850forCSharp/ReportControlBlock.cs:182-222 | For every interleaving there is at most one registration, and each report is delivered once, in order, to the handler installed latest with its parameter. |
| `Reporting.DeliveredIffSameReport` | dotnet/IEC61850forCSharp/ReportControlBlock.cs:182-194 | As many deliveries as reports; a delivery is of its own report exactly if that is the first one's. |
| `Reporting.DeliveredTo` | dotnet/IEC61850forCSharp/ReportControlBlock.cs:184-222 | A report goes once, to the handler installed latest before it, with the parameter given then; an installation delivers nothing. |
| `PasswordControl.Memcmp` | examples/server_example4/server_example4.c:49-50 | Equality of the first bytes. |
| `PasswordControl.PasswordServer.ClientAuthenticator` | examples/server_example4/server_example4.c:44-68 | Lets in exactly the two passwords; the token is the second one's exactly for the second password. |
| `PasswordControl.PasswordServer.PerformCheckHandler` | examples/server_example4/server_example4.c:70-79 | Accepts exactly the second token. |
| `PasswordControl.PasswordServer.ControlHandlerForBinaryOutput` | examples/server_example4/server_example4.c:81-107 | Writes value and time of its own object only. |
| `PasswordControl.Serve` | examples/server_example4/server_example4.c:109-150 | Any sequence of events on the program is a run of its transition system. |
| `PasswordControl.HasTokenIff` | examples/server_example4/server_example4.c:44-68 | A client holds a token exactly if the history has it let in with that token's password, user1@testpw or user2@testpw, and not leaving since. |
| `PasswordControl.ConnectedIff` | examples/server_example4/server_example4.c:44-68 | A client is connected exactly if it was let in with one of the two passwords and has not left since. |
| `PasswordControl.MayOperateIff` | examples/server_example4/server_example4.c:44-79 | A client may operate exactly if the history has it let in with the second password and not leaving since. |
| `PasswordControl.PermissionIff` | examples/server_example4/server_example4.c:70-79 | An operation passes exactly for such a client, all operations that passed on the object before having been executed. |
| `PasswordControl.StatusIsLastPermitted` | examples/server_example4/server_example4.c:81-107 | After every run an object's status has the value of the last permitted operation executed on it and the time of that execution; unwritten if there is none. Permitted operations are executed once each, in order. |
| `PasswordControl.TestFlagPlaysNoPart` | examples/server_example4/server_example4.c:81-107 | For every history: marking all its operates as tests, or none, changes no token, no status and no acceptance. |
| `MmsEnumerator.GetElement` | dotnet/IEC61850forCSharp/MmsValue.cs:152-164 | The element, or the exception for a wrong type or index. |
| `MmsEnumerator.MmsValueEnumerator.MoveNext` | dotnet/IEC61850forCSharp/MmsValue.cs:299-307 | Moves on and tells whether there is an element, or throws for a simple value. |
| `MmsEnumerator.Drive` | dotnet/IEC61850forCSharp/MmsValue.cs:278-310 | After any calls, a last MoveNext has returned whether the moves since the last Reset are at most the number of elements, or thrown for a simple value; there is a current element exactly if there are such moves and no more than elements, and it is the one they count to. |
| `MmsEnumerator.Enumerate` | dotnet/IEC61850forCSharp/MmsValue.cs:273-310 | A full enumeration gives all elements in order and stops. |

## Left out

- Time activated and select-before-operate control: the demo's objects use direct control, and control.c's other models are not part of this model.
- A control thread that starts only after its client's connection was removed (control.c:296): see the assumptions.
- The command termination that a client of DPCSO1 gets when its handler ends (control.c:345-347): DPCSO1 is direct control with enhanced security (demos/beaglebone/static_model.c:1964). It is sent where an operation joins `EndedOps`, and it is how a client can know that it may request or leave without disturbing `ExclusiveIff`; SPCSO1 to SPCSO3 have normal security, and there a client can only read stVal.
- Interleavings inside a handler body or inside one pass of the main loop: each is one step.
- The order of the bits of DPCSO1's stVal on the wire: the state is the integer the program writes.
- The sine values of AnIn1 to AnIn4, which no control decision depends on.
- The sysfs files behind the LEDs beyond the trigger, brightness and delays last written; the delays before the first flash are taken as zero.
- Wrap-around of 64-bit times and 32-bit counters and indices, and rounding of floats: integers are unbounded and magnitudes are reals.
- Initialise: states sums over reals, because rounding of the accumulated float steps is not modelled.
- PrintModel: the error number in the second header line is zero, as the program goes on with the device list it got; how directory and list requests interleave is not recorded. A remote side that answers a list request with an error is not modelled: the program does not look at the error.
- Directory answers that differ from the tree: the library's logical node lookup also takes variables of a node whose name is a prefix of the wanted one (src/iedclient/impl/ied_connection.c:1300); here a lookup is exact. Sibling names differ, as the library removes duplicates (ied_connection.c:1177).
- PrintDataDirectory: asks that all references fit the buffers and names hold no separators, because sprintf checks nothing and the program itself relies on it.
- Chase: runs a given number of rounds, because a method has to end; the number is arbitrary.
- Changing the type or components of a value after it was made: in the complex array model they are constants.
- The other getters of the .NET classes, time conversions, `Quality` bits, and the other example programs: easy members without state.
