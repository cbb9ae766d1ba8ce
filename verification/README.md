# Vector clocks: a Dafny model

This project models the core of a small vector-clock simulation written in C#.
A fixed set of nodes each run a list of actions. An action either does local
work or sends a message to another node. Each node keeps a vector clock and
records a copy of it after every change. The model covers:

- `Clocks` (`clocks.dfy`): the clock algebra of `VectorClock.cs`. A clock is a
  `seq<nat>`. The module has the constructor, `Increment` (a local event) and
  `Merge` (the receive rule: the receiver's own entry goes up by one, every
  other entry becomes the larger of the two). It also defines the dominance
  order and causal precedence used to state properties.
- `Nodes` (`nodes.dfy`): one node of `Node.cs` as an immutable record of id,
  clock and history. It has the locked blocks of `DoWork`, `SendMessage` and
  `ReceiveMessage`, `UpdateClockHistory`, and `Run`'s choice of receiver.
- `Utils` (`utils.dfy`): `IdToName`, `GenerateRandomActionList` with its
  random draws passed in as a sequence, and the two console formatters. Text is
  a sequence of UTF-16 code units, as in .NET.
- `Simulation` (`simulation.dfy`): the roster of nodes, the relay that delivers
  a message, and each node's `Run` as a series of atomic events. A thread
  interleaving becomes a schedule, which is any sequence of those events.
  `Execute` runs a schedule. The lemmas hold for every schedule. A send is
  one event, so in a schedule the sender's increment is followed at once by
  the receiver's merge. A run's first snapshot is one event too. Interleavings
  that split either step are not covered (see "Left out").

Behaviour worth knowing:

- A node may send to itself. `SendMessage` does not reject it. Only `Run`'s
  receiver choice avoids it, and only when there are at least two nodes. The
  receive then counts as a second local event (`Simulation.SelfSendIsTwoLocalEvents`).
- The draw that names the sender is redirected to the next node round the
  ring. So with three or more nodes, that next node is picked by two draws and
  every other node by one (`Nodes.TargetPreimage`).
- `Merge` reads only the first `|c|` entries of the other clock, so that clock
  may be longer. When `selfId` is not an index of the clock, no entry is
  advanced.
- In the three-node run "A works, A sends to B, C works, B sends to C", C ends
  at `[2,2,2]`. The merge keeps C's own work in C's entry
  (`Clocks.ThreeNodeScenario`).

## Model

| member | source | states |
|---|---|---|
| Clocks.New | VectorClocks/VectorClock.cs:14-17 | a new clock has one entry per node, all zero, and is dominated by every clock of that length |
| Clocks.Increment | VectorClocks/VectorClock.cs:24-27 | entry k goes up by exactly one; no other entry changes and the length is kept; the old clock causally precedes the new one |
| Clocks.Merge | VectorClocks/VectorClock.cs:37-50 | the length is kept; the receiver's entry is its old value + 1 whatever the other clock says; every other entry is the max of the two; the result dominates the old clock (strictly when self is an index) and dominates the other clock off the self index |
| Clocks.MergeInPlace | VectorClocks/VectorClock.cs:37-50 | the index-by-index loop, which calls Increment at the self index, computes exactly Merge |
| Clocks.MergeIsLeast | VectorClocks/VectorClock.cs:39-49 | every clock that advances the self entry and dominates both inputs elsewhere dominates Merge's result, so Merge is the least such clock |
| Clocks.MergeOfKnownIsIncrement | VectorClocks/VectorClock.cs:41-47 | a message that carries nothing new to the receiver turns the receive into a plain local event |
| Clocks.IncrementsCommute | VectorClocks/VectorClock.cs:24-27 | local events at two nodes give the same clock in either order |
| Clocks.PrecedesIsStrictOrder | VectorClocks/VectorClock.cs:5-9 | causal precedence between clocks is irreflexive, asymmetric and transitive |
| Clocks.ThreeNodeScenario | VectorClocks/VectorClock.cs:24-50 | the clocks of the three-node example run, ending A=[2,0,0], B=[2,2,0], C=[2,2,2] |
| Nodes.NewNode | VectorClocks/Node.cs:22-27 | a new node has its id, an all-zero clock of the system's size and an empty history |
| Nodes.UpdateClockHistory | VectorClocks/Node.cs:72-75 | appends one copy of the current clock; older snapshots and the clock are unchanged; history consistency is kept |
| Nodes.Tick | VectorClocks/Node.cs:83-87 | the locked block of DoWork and SendMessage: only the node's own entry goes up by one, and exactly one snapshot, equal to the new clock, is appended |
| Nodes.ReceiveMessage | VectorClocks/Node.cs:112-119 | own entry + 1, other entries the max with the sender's clock, exactly one snapshot equal to the merged clock appended, id unchanged, consistency kept |
| Nodes.HistoryIsMonotone | VectorClocks/Node.cs:81-119 | in a consistent node every snapshot is dominated entry by entry by every later snapshot |
| Nodes.SnapshotsBelowClock | VectorClocks/Node.cs:72-75 | every recorded snapshot is dominated by the node's current clock |
| Nodes.ChooseTarget | VectorClocks/Node.cs:55-57 | the receiver lies in [0, n) and differs from the sender exactly when there are at least two nodes |
| Nodes.TargetPreimage | VectorClocks/Node.cs:54-57 | which draws give which receiver: each non-sender by its own draw, and the sender's successor also by the sender's draw |
| Utils.IdToName | VectorClocks/Utils.cs:45-48 | a one-unit name whose code is id + 65 when that fits in 16 bits |
| Utils.IdToNameIsLetter | VectorClocks/Utils.cs:41-48 | ids 0 to 25 are named 'A' to 'Z' in order |
| Utils.IdToNameInjective | VectorClocks/Utils.cs:45-48 | two ids in [0, 65536) share a name only if they are equal, and names repeat with period 65536 |
| Utils.GenerateRandomActionList | VectorClocks/Utils.cs:57-82 | never more than max actions; at least min when min <= max; draw at most 46 gives SendMessage, otherwise DoWork; the list continues only past draws above 8 or below min actions, and stops at max or at the first draw of at most 8 once min is reached |
| Utils.Join | VectorClocks/Utils.cs:94-99 | the joined text has the parts' total length plus one separator per gap, and starts with the first part |
| Utils.AppendJoined | VectorClocks/Utils.cs:94-99 | the append loop (part, then the separator unless last) builds exactly the head followed by the joined parts |
| Utils.GetFormattedNodeActionList | VectorClocks/Utils.cs:91-103 | the text is "Node " + name + ": { ", the action names separated by ", ", then " }" |
| Utils.Digits | VectorClocks/Utils.cs:122 | a counter renders as at least one decimal digit, with a leading '0' only for zero |
| Utils.DigitsRoundTrip | VectorClocks/Utils.cs:122 | reading the rendered digits back gives the counter |
| Utils.LineBreakPlacement | VectorClocks/Utils.cs:118 | stamp i starts with a line break exactly when (i + 1) % 7 == 0 |
| Utils.FormatStamp | VectorClocks/Utils.cs:119-125 | a stamp renders as "[" + "X:v" entries separated by "|" + "]" |
| Utils.FormatPiece | VectorClocks/Utils.cs:118-125 | snapshot i renders as its line break followed by the rendered stamp |
| Utils.GetFormattedNodeClockHistory | VectorClocks/Utils.cs:111-131 | the outer loop, which renders each snapshot with FormatStamp, builds exactly the text is "Node " + name + ": { ", the rendered stamps, each after its line break, separated by ", ", then " }" |
| Simulation.NewSystem | VectorClocks/VectorClockTester.cs:66-71 | n nodes, node i at index i, all clocks zero of length n, no snapshots, and the system invariant holds |
| Simulation.RelayMessage | VectorClocks/VectorClockTester.cs:29-33 | the receiver becomes its ReceiveMessage of the sender's clock, no other node changes, and the system stays well shaped |
| Simulation.DoWork | VectorClocks/Node.cs:81-88 | only the worker's own entry goes up by one, exactly one snapshot equal to the new clock is appended, and no other node changes |
| Simulation.SendMessage | VectorClocks/Node.cs:96-104 | the sender ticks and records, then the receiver merges the sender's new clock; no third node changes; the receiver dominates the sent clock off its own index |
| Simulation.Target | VectorClocks/Node.cs:53-59 | a send event's receiver is a node of the system |
| Simulation.Step | VectorClocks/Node.cs:46-61 | one event appends exactly one snapshot to the acting node and one to a send's receiver, keeps every snapshot already recorded, and leaves every other node unchanged |
| Simulation.Execute | VectorClocks/Node.cs:34-66 | a schedule keeps the system well shaped and its size |
| Simulation.RunEvents | VectorClocks/Node.cs:39-61 | a run is the first snapshot followed by the actions in order; every event is the running node's own, so the run projects onto that node as itself and onto every other node as nothing |
| Simulation.ProjectOwn | VectorClocks/Node.cs:34-66 | a schedule made only of one node's events is that node's projection and projects to nothing for every other node |
| Simulation.RelayKeepsValid | VectorClocks/Node.cs:112-119 | delivering a clock that knows no more of any node than the node itself keeps the system invariant |
| Simulation.DoWorkKeepsValid | VectorClocks/Node.cs:81-88 | work keeps the system invariant |
| Simulation.SendKeepsValid | VectorClocks/Node.cs:96-104 | a send and its receive keep the system invariant |
| Simulation.StepKeepsValid | VectorClocks/Node.cs:46-61 | every event keeps the system invariant |
| Simulation.ExecuteKeepsValid | VectorClocks/Node.cs:34-66 | every schedule keeps the system invariant: consistent histories, and no node knows more of a node's events than that node |
| Simulation.ExecuteAppends | VectorClocks/Node.cs:72-75 | over a schedule a node's history keeps every recorded snapshot and grows by one per own event plus one per message received |
| Simulation.BeginRecordsClock | VectorClocks/Node.cs:39-40 | the start of a run records the node's clock of that moment, and that snapshot is never altered |
| Simulation.FirstSnapshotIsZero | VectorClocks/Node.cs:39-40 | if no message reaches a node before its run begins, its first snapshot is the all-zero clock |
| Simulation.RunHistoryLength | VectorClocks/Node.cs:40-61 | a node whose own events are its run ends with 1 + #actions + #messages received snapshots |
| Simulation.HistoriesAreMonotone | VectorClocks/Node.cs:81-119 | along any schedule from the start, each snapshot has n entries and every entry is non-decreasing over a node's history |
| Simulation.SelfSendIsTwoLocalEvents | VectorClocks/Node.cs:96-104 | a send to oneself raises the own entry by two and appends two snapshots |
| Simulation.SendCausality | VectorClocks/Node.cs:96-119 | after a send the receiver's new clock is strictly later than the sent clock, and it is the receiver's newest snapshot |

## Left out

- Threads, the locks and the busy-wait start flag (`Node.cs:37`, `VectorClockTester.cs:19,66-78`) are concurrency. Each locked block is one atomic step, and the lemmas quantify over all schedules of those steps.
- The unlocked relay is not modelled. `SendMessage` releases the sender's lock (`Node.cs:98-102`) before the relay reads the sender's live clock (`Node.cs:103`). A receive into the sender can land in between, and the receiver then merges a clock the sender never recorded after its increment. The model makes a send one event, so it covers only schedules where nothing reaches the sender between its increment and the merge.
- The unlocked first snapshot is not modelled. `Run` takes its first snapshot without the lock (`Node.cs:40`). A concurrent receive can fall between the copy and the `Add`, leaving the merged clock before the zero clock in the history. In such runs the source breaks what `Simulation.HistoriesAreMonotone` and `Simulation.FirstSnapshotIsZero` state. The model makes `Begin` one event.
- `Thread.Sleep` between actions (`Node.cs:64`) only adds latency.
- `System.Random` is replaced by draws the caller supplies. In a run, draw k belongs to action k and is ignored for DoWork. The source draws only for sends.
- Console output is I/O: `RelayMessage`'s log line, `DidWork`, `Main` and `PrintBreak`.
- `CurrentTimeStamp` reads a stopwatch and the wall clock.
- The null-list early return in `Run` (`Node.cs:42-44`) is left out because the action list is a `seq`.
- The sender hands its live clock object to the receiver (`Node.cs:103`). The model passes its value. The two agree only when nothing changes the sender between its increment and the merge, as in every schedule of the model.
- Clocks.Increment: does not model 32-bit wrap-around, because counters are unbounded `nat`s. The same holds for Merge and for Digits, which renders only non-negative counters.
- Out-of-range indexing throws in the source: a bad node id in `Increment`, a bad receiver in `RelayMessage`, a shorter `other` clock in `Merge`. The model requires these inputs to be in range instead of modelling the exception.
- Utils.GenerateRandomActionList: the C# default arguments (min 2, max 5) become explicit parameters. The caller must supply one more draw than the longest possible list.
