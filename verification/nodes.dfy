/** One simulated node: an identifier, a vector clock, and the history of
    snapshots of that clock, with each clock-changing operation taken as one
    atomic step (the C# class takes a lock around each of them). */
module Nodes {
  import opened Clocks

  /** `history` holds copies of `clock`, one appended after every mutation. */
  datatype Node = Node(id: int, clock: Clock, history: seq<Clock>)

  /** A node of a system of `numberOfNodes` nodes, before its run begins. */
  function NewNode(id: int, numberOfNodes: nat): (nd: Node)
    ensures nd.id == id && nd.history == []
    ensures |nd.clock| == numberOfNodes
    ensures forall i :: 0 <= i < numberOfNodes ==> nd.clock[i] == 0
  {
    Node(id, New(numberOfNodes), [])
  }

  /** The node's own bookkeeping is sound: every snapshot has the clock's
      length, each snapshot is dominated by the next one, and the last one is
      the current clock. */
  predicate Consistent(nd: Node)
  {
    && (forall k :: 0 <= k < |nd.history| ==> |nd.history[k]| == |nd.clock|)
    && (forall k :: 0 <= k < |nd.history| - 1 ==> Leq(nd.history[k], nd.history[k + 1]))
    && (|nd.history| > 0 ==> nd.history[|nd.history| - 1] == nd.clock)
  }

  /** Appends a copy of the current clock to the history. */
  function UpdateClockHistory(nd: Node): (r: Node)
    ensures r.id == nd.id && r.clock == nd.clock
    ensures |r.history| == |nd.history| + 1
    ensures r.history[..|nd.history|] == nd.history
    ensures r.history[|nd.history|] == nd.clock
    ensures Consistent(nd) ==> Consistent(r)
  {
    nd.(history := nd.history + [nd.clock])
  }

  /** The locked block shared by DoWork and SendMessage: a local event at this
      node, then a snapshot. */
  function Tick(nd: Node): (r: Node)
    requires 0 <= nd.id < |nd.clock|
    ensures r.id == nd.id
    ensures |r.clock| == |nd.clock|
    ensures r.clock[nd.id] == nd.clock[nd.id] + 1
    ensures forall i :: 0 <= i < |nd.clock| && i != nd.id ==> r.clock[i] == nd.clock[i]
    ensures r.history == nd.history + [r.clock]
    ensures Consistent(nd) ==> Consistent(r)
  {
    UpdateClockHistory(nd.(clock := Increment(nd.clock, nd.id)))
  }

  /** Receiving a message that carries `senderClock`: merge, then a snapshot. */
  function ReceiveMessage(nd: Node, senderClock: Clock): (r: Node)
    requires |senderClock| >= |nd.clock|
    ensures r.id == nd.id
    ensures |r.clock| == |nd.clock|
    ensures 0 <= nd.id < |nd.clock| ==> r.clock[nd.id] == nd.clock[nd.id] + 1
    ensures forall i :: 0 <= i < |nd.clock| && i != nd.id ==>
              r.clock[i] == Max(nd.clock[i], senderClock[i])
    ensures r.history == nd.history + [r.clock]
    ensures Consistent(nd) ==> Consistent(r)
  {
    UpdateClockHistory(nd.(clock := Merge(nd.clock, senderClock, nd.id)))
  }

  /** Every recorded snapshot is dominated by every later one. */
  lemma {:induction false} HistoryIsMonotone(nd: Node, p: int, q: int)
    requires Consistent(nd)
    requires 0 <= p <= q < |nd.history|
    ensures Leq(nd.history[p], nd.history[q])
    decreases q - p
  {
    if p < q {
      HistoryIsMonotone(nd, p + 1, q);
      assert Leq(nd.history[p], nd.history[p + 1]);
    }
  }

  /** Every recorded snapshot is dominated by the node's current clock. */
  lemma SnapshotsBelowClock(nd: Node, p: int)
    requires Consistent(nd)
    requires 0 <= p < |nd.history|
    ensures Leq(nd.history[p], nd.clock)
  {
    HistoryIsMonotone(nd, p, |nd.history| - 1);
  }

  /** Run's choice of receiver for a SendMessage action, from a draw in
      [0, n): the draw itself, or the next node round the ring when the draw
      names the sender. */
  function ChooseTarget(draw: int, id: int, n: int): (to: int)
    requires 0 <= draw < n
    ensures 0 <= to < n
    ensures 0 <= id < n ==> (to == id <==> n == 1)
  {
    if draw == id then (draw + 1) % n else draw
  }

  /** Which draws pick which receiver: each node other than the sender is
      picked by its own draw, and the sender's successor also by the sender's
      draw, so the choice is not uniform once there are three or more nodes. */
  lemma TargetPreimage(draw: int, id: int, n: int, to: int)
    requires 0 <= draw < n && 0 <= id < n
    ensures ChooseTarget(draw, id, n) == to <==>
              (draw == to && to != id) || (draw == id && to == (id + 1) % n)
    ensures ChooseTarget(id, id, n) == ChooseTarget((id + 1) % n, id, n) == (id + 1) % n
  {
  }
}
