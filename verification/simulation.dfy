/** The whole simulation run sequentially: a roster of nodes, the relay that
    delivers a message by having the receiver merge the sender's clock, and
    each node's Run as a series of atomic events. A schedule is any sequence
    of these events. Each send is one event, so a schedule places the sender's
    increment and the receiver's merge next to each other, and the first
    snapshot of a run is one event too. */
module Simulation {
  import opened Clocks
  import opened Nodes
  import opened Utils

  /** Node i of the roster sits at index i. */
  type System = seq<Node>

  /** Every node sits at its own index and has one clock entry per node. */
  predicate Shaped(sys: System)
  {
    forall i :: 0 <= i < |sys| ==> sys[i].id == i && |sys[i].clock| == |sys|
  }

  /** What every reachable system satisfies: well shaped, every node's
      history consistent with its clock, and no node knowing more about a
      node's events than that node itself. */
  predicate Valid(sys: System)
  {
    && Shaped(sys)
    && (forall i :: 0 <= i < |sys| ==> Consistent(sys[i]))
    && (forall i, j :: 0 <= i < |sys| && 0 <= j < |sys| ==> sys[i].clock[j] <= sys[j].clock[j])
  }

  /** The roster of `n` nodes, built before any thread starts. */
  function NewSystem(n: nat): (sys: System)
    ensures |sys| == n && Valid(sys)
    ensures forall i :: 0 <= i < n ==> sys[i].history == [] && sys[i].clock == New(n)
  {
    seq(n, i requires 0 <= i < n => NewNode(i, n))
  }

  /** Delivers a message: node `to` receives `senderClock`. */
  function RelayMessage(sys: System, to: int, senderClock: Clock): (r: System)
    requires 0 <= to < |sys| && |senderClock| >= |sys[to].clock|
    ensures |r| == |sys|
    ensures r[to] == ReceiveMessage(sys[to], senderClock)
    ensures forall k :: 0 <= k < |sys| && k != to ==> r[k] == sys[k]
    ensures Shaped(sys) ==> Shaped(r)
  {
    sys[to := ReceiveMessage(sys[to], senderClock)]
  }

  /** Node `i` does work: a local event and a snapshot, nothing else. */
  function DoWork(sys: System, i: int): (r: System)
    requires Shaped(sys) && 0 <= i < |sys|
    ensures Shaped(r) && |r| == |sys|
    ensures r[i].clock[i] == sys[i].clock[i] + 1
    ensures forall k :: 0 <= k < |sys| && k != i ==> r[i].clock[k] == sys[i].clock[k]
    ensures r[i].history == sys[i].history + [r[i].clock]
    ensures forall k :: 0 <= k < |sys| && k != i ==> r[k] == sys[k]
  {
    sys[i := Tick(sys[i])]
  }

  /** Node `from` sends to node `to`: the sender's local event and snapshot,
      then the receiver merges the clock the sender now holds. */
  function SendMessage(sys: System, from: int, to: int): (r: System)
    requires Shaped(sys) && 0 <= from < |sys| && 0 <= to < |sys|
    ensures Shaped(r) && |r| == |sys|
    ensures forall k :: 0 <= k < |sys| && k != from && k != to ==> r[k] == sys[k]
    ensures from != to ==> r[from] == Tick(sys[from])
    ensures from != to ==> r[to] == ReceiveMessage(sys[to], r[from].clock)
    ensures forall k :: 0 <= k < |sys| && k != to ==> Tick(sys[from]).clock[k] <= r[to].clock[k]
  {
    var afterSend := DoWork(sys, from);
    RelayMessage(afterSend, to, afterSend[from].clock)
  }

  /** One atomic event of some node's thread: the start of its run, which
      records the first snapshot, or one action of its list. A send draws
      its receiver with `draw`; a DoWork ignores the draw. */
  datatype Event = Begin(node: int) | Act(node: int, action: NodeAction, draw: int)

  predicate IsSend(e: Event)
  {
    e.Act? && e.action.SendMessage?
  }

  /** The event names a node of an `n`-node system, and a send's draw is one
      the random source can return for `n` nodes. */
  predicate EventOk(e: Event, n: int)
  {
    0 <= e.node < n && (IsSend(e) ==> 0 <= e.draw < n)
  }

  predicate EventsOk(s: seq<Event>, n: int)
  {
    forall k :: 0 <= k < |s| ==> EventOk(s[k], n)
  }

  /** The receiver of a send event. */
  function Target(e: Event, n: int): (to: int)
    requires IsSend(e) && EventOk(e, n)
    ensures 0 <= to < n
  {
    ChooseTarget(e.draw, e.node, n)
  }

  /** One event: it appends one snapshot to the acting node and one to the
      receiver of a send, keeps every snapshot already recorded, and leaves
      every other node alone. */
  function Step(sys: System, e: Event): (r: System)
    requires Shaped(sys) && EventOk(e, |sys|)
    ensures Shaped(r) && |r| == |sys|
    ensures forall j :: 0 <= j < |sys| ==> sys[j].history <= r[j].history
    ensures forall j :: 0 <= j < |sys| ==>
              |r[j].history| == |sys[j].history|
                + (if e.node == j then 1 else 0)
                + (if IsSend(e) && Target(e, |sys|) == j then 1 else 0)
    ensures forall j :: 0 <= j < |sys| && e.node != j && !(IsSend(e) && Target(e, |sys|) == j) ==>
              r[j] == sys[j]
  {
    match e
    case Begin(i) => sys[i := UpdateClockHistory(sys[i])]
    case Act(i, action, _) =>
      if action.DoWork? then DoWork(sys, i) else SendMessage(sys, i, Target(e, |sys|))
  }

  /** The system after the events of schedule `s`, in order. */
  function Execute(sys: System, s: seq<Event>): (r: System)
    requires Shaped(sys) && EventsOk(s, |sys|)
    ensures Shaped(r) && |r| == |sys|
    decreases |s|
  {
    if |s| == 0 then sys else Execute(Step(sys, s[0]), s[1..])
  }

  /** The events of node `j`'s own thread, in order. */
  function Project(s: seq<Event>, j: int): seq<Event>
  {
    if |s| == 0 then []
    else (if s[0].node == j then [s[0]] else []) + Project(s[1..], j)
  }

  /** How many sends of `s` deliver to node `j`. */
  function Received(s: seq<Event>, j: int, n: int): nat
    requires EventsOk(s, n)
  {
    if |s| == 0 then 0
    else (if IsSend(s[0]) && Target(s[0], n) == j then 1 else 0) + Received(s[1..], j, n)
  }

  /** The schedule of one node's Run: the first snapshot, then its actions
      in order, the k-th with the k-th draw. */
  function RunEvents(i: int, actions: seq<NodeAction>, draws: seq<int>): (s: seq<Event>)
    requires |draws| == |actions|
    ensures |s| == 1 + |actions| && s[0] == Begin(i)
    ensures forall k :: 0 <= k < |actions| ==> s[k + 1] == Act(i, actions[k], draws[k])
    ensures Project(s, i) == s
    ensures forall j :: j != i ==> Project(s, j) == []
  {
    var run := [Begin(i)] + seq(|actions|, k requires 0 <= k < |actions| => Act(i, actions[k], draws[k]));
    ProjectOwn(run, i);
    run
  }

  /** A schedule made only of node `i`'s events is its own projection onto
      `i` and projects to nothing for every other node. */
  lemma {:induction false} ProjectOwn(s: seq<Event>, i: int)
    requires forall k :: 0 <= k < |s| ==> s[k].node == i
    ensures Project(s, i) == s
    ensures forall j :: j != i ==> Project(s, j) == []
    decreases |s|
  {
    if |s| > 0 {
      ProjectOwn(s[1..], i);
      assert s == [s[0]] + s[1..];
    }
  }

  // Invariant preservation

  /** Delivering a clock that knows no more about any node than that node
      itself keeps the system valid. */
  lemma RelayKeepsValid(sys: System, to: int, senderClock: Clock)
    requires Valid(sys) && 0 <= to < |sys| && |senderClock| == |sys|
    requires forall k :: 0 <= k < |sys| ==> senderClock[k] <= sys[k].clock[k]
    ensures Valid(RelayMessage(sys, to, senderClock))
  {
    var r := RelayMessage(sys, to, senderClock);
    forall i, j | 0 <= i < |r| && 0 <= j < |r|
      ensures r[i].clock[j] <= r[j].clock[j]
    {
      if j == to {
        assert sys[i].clock[j] <= sys[j].clock[j];
      } else if i == to {
        assert sys[i].clock[j] <= sys[j].clock[j];
        assert senderClock[j] <= sys[j].clock[j];
      }
    }
  }

  lemma DoWorkKeepsValid(sys: System, i: int)
    requires Valid(sys) && 0 <= i < |sys|
    ensures Valid(DoWork(sys, i))
  {
    var r := DoWork(sys, i);
    forall a, b | 0 <= a < |r| && 0 <= b < |r|
      ensures r[a].clock[b] <= r[b].clock[b]
    {
      assert sys[a].clock[b] <= sys[b].clock[b];
    }
  }

  lemma SendKeepsValid(sys: System, from: int, to: int)
    requires Valid(sys) && 0 <= from < |sys| && 0 <= to < |sys|
    ensures Valid(SendMessage(sys, from, to))
  {
    var afterSend := DoWork(sys, from);
    DoWorkKeepsValid(sys, from);
    assert forall k :: 0 <= k < |sys| ==> afterSend[from].clock[k] <= afterSend[k].clock[k];
    RelayKeepsValid(afterSend, to, afterSend[from].clock);
  }

  lemma StepKeepsValid(sys: System, e: Event)
    requires Valid(sys) && EventOk(e, |sys|)
    ensures Valid(Step(sys, e))
  {
    match e
    case Begin(i) =>
    case Act(i, action, _) =>
      if action.DoWork? {
        DoWorkKeepsValid(sys, i);
      } else {
        SendKeepsValid(sys, i, Target(e, |sys|));
      }
  }

  /** Every schedule keeps the system valid. */
  lemma {:induction false} ExecuteKeepsValid(sys: System, s: seq<Event>)
    requires Valid(sys) && EventsOk(s, |sys|)
    ensures Valid(Execute(sys, s))
    decreases |s|
  {
    if |s| > 0 {
      StepKeepsValid(sys, s[0]);
      ExecuteKeepsValid(Step(sys, s[0]), s[1..]);
    }
  }

  // History bookkeeping

  /** A schedule appends to node `j`'s history one snapshot per event of its
      own and one per message it receives, and never alters a snapshot
      already recorded. */
  lemma {:induction false} ExecuteAppends(sys: System, s: seq<Event>, j: int)
    requires Shaped(sys) && EventsOk(s, |sys|) && 0 <= j < |sys|
    ensures var r := Execute(sys, s);
      && sys[j].history <= r[j].history
      && |r[j].history| == |sys[j].history| + |Project(s, j)| + Received(s, j, |sys|)
      && (Project(s, j) == [] && Received(s, j, |sys|) == 0 ==> r[j] == sys[j])
    decreases |s|
  {
    if |s| > 0 {
      ExecuteAppends(Step(sys, s[0]), s[1..], j);
    }
  }

  /** Running `a` then `b` is running their concatenation. */
  lemma {:induction false} ExecuteConcat(sys: System, a: seq<Event>, b: seq<Event>)
    requires Shaped(sys) && EventsOk(a, |sys|) && EventsOk(b, |sys|)
    ensures EventsOk(a + b, |sys|)
    ensures Execute(sys, a + b) == Execute(Execute(sys, a), b)
    decreases |a|
  {
    if |a| == 0 {
      assert a + b == b;
    } else {
      assert (a + b)[0] == a[0];
      assert (a + b)[1..] == a[1..] + b;
      ExecuteConcat(Step(sys, a[0]), a[1..], b);
    }
  }

  /** A schedule that starts with node `j`'s Begin records `j`'s clock of
      that moment right after every snapshot `j` already had, and keeps it. */
  lemma BeginRecordsClock(sys: System, s: seq<Event>, j: int)
    requires Shaped(sys) && EventsOk(s, |sys|) && 0 <= j < |sys|
    requires |s| > 0 && s[0] == Begin(j)
    ensures |sys[j].history| < |Execute(sys, s)[j].history|
    ensures Execute(sys, s)[j].history[|sys[j].history|] == sys[j].clock
  {
    var started := Step(sys, s[0]);
    assert started[j].history == sys[j].history + [sys[j].clock];
    ExecuteAppends(started, s[1..], j);
  }

  /** Node `j`'s first snapshot is the all-zero clock, provided no message
      reaches it before its run begins. */
  lemma FirstSnapshotIsZero(n: nat, s: seq<Event>, j: int, k: int)
    requires EventsOk(s, n) && 0 <= j < n
    requires 0 <= k < |s| && s[k] == Begin(j)
    requires Project(s[..k], j) == [] && Received(s[..k], j, n) == 0
    ensures |Execute(NewSystem(n), s)[j].history| > 0
    ensures Execute(NewSystem(n), s)[j].history[0] == New(n)
  {
    var init := NewSystem(n);
    assert s == s[..k] + s[k..];
    ExecuteConcat(init, s[..k], s[k..]);
    ExecuteAppends(init, s[..k], j);
    BeginRecordsClock(Execute(init, s[..k]), s[k..], j);
  }

  /** A node whose own events are exactly its Run ends with one snapshot for
      the start, one per action and one per message received. */
  lemma RunHistoryLength(n: nat, s: seq<Event>, j: int, actions: seq<NodeAction>, draws: seq<int>)
    requires EventsOk(s, n) && 0 <= j < n && |draws| == |actions|
    requires Project(s, j) == RunEvents(j, actions, draws)
    ensures |Execute(NewSystem(n), s)[j].history| == 1 + |actions| + Received(s, j, n)
  {
    ExecuteAppends(NewSystem(n), s, j);
  }

  /** Along any schedule, every node's snapshots only grow, entry by entry,
      and each has one entry per node. */
  lemma HistoriesAreMonotone(n: nat, s: seq<Event>, j: int, p: int, q: int)
    requires EventsOk(s, n) && 0 <= j < n
    requires 0 <= p <= q < |Execute(NewSystem(n), s)[j].history|
    ensures var h := Execute(NewSystem(n), s)[j].history;
      |h[p]| == n && Leq(h[p], h[q])
  {
    ExecuteKeepsValid(NewSystem(n), s);
    HistoryIsMonotone(Execute(NewSystem(n), s)[j], p, q);
  }

  // Causality

  /** Nothing stops a node from sending to itself (only Run's choice of
      receiver avoids it, and only with two or more nodes): the receive then
      merges the node's own clock, which amounts to a second local event. */
  lemma SelfSendIsTwoLocalEvents(sys: System, i: int)
    requires Shaped(sys) && 0 <= i < |sys|
    ensures var c := sys[i].clock;
      var r := SendMessage(sys, i, i)[i];
      && r.clock == Increment(Increment(c, i), i)
      && r.history == sys[i].history + [Increment(c, i), r.clock]
  {
    var ticked := Tick(sys[i]);
    MergeOfKnownIsIncrement(ticked.clock, ticked.clock, i);
  }

  /** After a send, the receiver's new clock is strictly later than the clock
      the sender sent, and it was recorded as the receiver's latest snapshot. */
  lemma SendCausality(sys: System, from: int, to: int)
    requires Valid(sys) && 0 <= from < |sys| && 0 <= to < |sys|
    ensures var sent := Tick(sys[from]).clock;
      var received := SendMessage(sys, from, to)[to];
      && Precedes(sent, received.clock)
      && received.history == (if from == to then Tick(sys[from]).history else sys[to].history) + [received.clock]
  {
    var sent := Tick(sys[from]).clock;
    var received := SendMessage(sys, from, to)[to].clock;
    if from != to {
      assert sys[from].clock[to] <= sys[to].clock[to];
    }
    assert sent[to] < received[to];
  }
}
