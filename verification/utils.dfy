/** The stateless helpers of the simulation: the action type, the id-to-letter
    mapping, the action-list generator (with its random draws supplied by the
    caller), and the two console formatters. Text is modelled as .NET text is
    stored: a sequence of UTF-16 code units. */
module Utils {
  import opened Clocks
  import opened Nodes

  /** What a node does in one frame of its action list. */
  datatype NodeAction = DoWork | SendMessage

  /** A UTF-16 code unit, the element of a .NET string. */
  type CodeUnit = c: int | 0 <= c < 0x1_0000

  /** The code units of a literal whose characters all lie in the Basic
      Multilingual Plane. */
  function Text(s: string): (u: seq<CodeUnit>)
    requires forall i :: 0 <= i < |s| ==> s[i] as int < 0x1_0000
    ensures |u| == |s|
    ensures forall i :: 0 <= i < |s| ==> u[i] == s[i] as int
  {
    seq(|s|, i requires 0 <= i < |s| => s[i] as int)
  }

  /** The one-letter display name of a node: the character with code
      `id + 65`, truncated to 16 bits as a cast to a .NET char is. */
  function IdToName(id: int): (name: seq<CodeUnit>)
    ensures |name| == 1
    ensures 0 <= id + 65 < 0x1_0000 ==> name[0] == id + 65
  {
    [(id + 65) % 0x1_0000]
  }

  /** Ids 0 to 25 are named 'A' to 'Z', in order. */
  lemma IdToNameIsLetter(id: int)
    requires 0 <= id < 26
    ensures IdToName(id) == Text(["ABCDEFGHIJKLMNOPQRSTUVWXYZ"[id]])
  {
  }

  /** Names are distinct across any 2^16 consecutive ids, and repeat with
      that period. */
  lemma IdToNameInjective(a: int, b: int)
    requires 0 <= a < 0x1_0000 && 0 <= b < 0x1_0000
    ensures IdToName(a) == IdToName(b) <==> a == b
    ensures IdToName(a + 0x1_0000) == IdToName(a)
  {
    if IdToName(a) == IdToName(b) {
      var x, y := (a + 65) % 0x1_0000, (b + 65) % 0x1_0000;
      assert x == (if a + 65 < 0x1_0000 then a + 65 else a + 65 - 0x1_0000);
      assert y == (if b + 65 < 0x1_0000 then b + 65 else b + 65 - 0x1_0000);
    }
  }

  // Action-list generation

  /** Odds, out of 100, of a SendMessage and of a DoWork at each draw; the
      remainder is the chance that the list ends there once `min` is reached. */
  const WorkChance := 46
  const MsgChance := 46
  const EndChance := 100 - WorkChance - MsgChance

  /** The action a draw adds to the list. */
  function ActionForDraw(val: int): NodeAction
  {
    if val <= MsgChance then SendMessage else DoWork
  }

  /** Builds an action list from the successive values `draws[0]`,
      `draws[1]`, ... of the random source; the caller supplies at least one
      draw more than the largest list length. The result is fully determined:
      action k comes from draw k, every draw before the end either exceeded
      EndChance or came before `min` actions, and the list stops at `max`
      actions or at the first draw of at most EndChance once `min` is reached. */
  method GenerateRandomActionList(min: int, max: int, draws: seq<int>) returns (actions: seq<NodeAction>)
    requires |draws| > 0 && |draws| > max
    ensures |actions| == 0 || |actions| <= max
    ensures min <= max ==> min <= |actions|
    ensures forall k :: 0 <= k < |actions| ==> actions[k] == ActionForDraw(draws[k])
    ensures forall k :: 0 <= k < |actions| ==> k < max && (draws[k] > EndChance || k < min)
    ensures |actions| < |draws|
    ensures |actions| >= max || (|actions| >= min && draws[|actions|] <= EndChance)
  {
    actions := [];
    var counter := 0;
    var val := draws[0];
    while val > EndChance || counter < min
      invariant 0 <= counter < |draws|
      invariant counter == 0 || counter <= max
      invariant |actions| == counter && val == draws[counter]
      invariant forall k :: 0 <= k < counter ==> actions[k] == ActionForDraw(draws[k])
      invariant forall k :: 0 <= k < counter ==> k < max && (draws[k] > EndChance || k < min)
      decreases max - counter
    {
      if counter >= max {
        break;
      }
      if val <= MsgChance {
        actions := actions + [SendMessage];
      } else {
        actions := actions + [DoWork];
      }
      val := draws[counter + 1];
      counter := counter + 1;
    }
  }

  // Formatting

  /** Sum of the lengths of `parts`. */
  function TotalLength(parts: seq<seq<CodeUnit>>): nat
  {
    if |parts| == 0 then 0 else TotalLength(parts[..|parts| - 1]) + |parts[|parts| - 1]|
  }

  /** `parts` with `sep` between neighbours, built left to right as the
      formatting loops build it. */
  function Join(parts: seq<seq<CodeUnit>>, sep: seq<CodeUnit>): (r: seq<CodeUnit>)
    ensures |parts| > 0 ==> |r| == TotalLength(parts) + (|parts| - 1) * |sep|
    ensures |parts| > 0 ==> parts[0] <= r
    ensures |parts| == 0 ==> r == []
  {
    if |parts| == 0 then []
    else if |parts| == 1 then parts[0]
    else Join(parts[..|parts| - 1], sep) + sep + parts[|parts| - 1]
  }

  /** Joining one more part appends the separator and that part. */
  lemma JoinStep(parts: seq<seq<CodeUnit>>, sep: seq<CodeUnit>, i: int)
    requires 0 < i < |parts|
    ensures Join(parts[..i + 1], sep) == Join(parts[..i], sep) + sep + parts[i]
  {
    assert parts[..i + 1][..i] == parts[..i];
  }

  /** One step of a formatting loop: what has been built so far, plus part i,
      is the join of the first i + 1 parts. */
  lemma AppendPart(head: seq<CodeUnit>, parts: seq<seq<CodeUnit>>, sep: seq<CodeUnit>, i: int)
    requires 0 <= i < |parts|
    ensures head + Join(parts[..i], sep) + (if 0 < i then sep else []) + parts[i]
            == head + Join(parts[..i + 1], sep)
  {
    if i > 0 {
      JoinStep(parts, sep, i);
    } else {
      assert parts[..1] == [parts[0]];
    }
  }

  /** The name an action prints under. */
  function ActionName(a: NodeAction): seq<CodeUnit>
  {
    match a
    case DoWork => DoWorkName
    case SendMessage => SendMessageName
  }

  /** The names of the actions of `list`, in order. */
  function ActionNames(list: seq<NodeAction>): (names: seq<seq<CodeUnit>>)
    ensures |names| == |list|
    ensures forall i :: 0 <= i < |list| ==> names[i] == ActionName(list[i])
  {
    seq(|list|, i requires 0 <= i < |list| => ActionName(list[i]))
  }

  /** "Node X: { " then the action names separated by ", " then " }". */
  function ActionListText(list: seq<NodeAction>, nodeId: int): seq<CodeUnit>
  {
    NodeLabel + IdToName(nodeId) + NameEnd + ListOpen + Join(ActionNames(list), ListSep) + ListClose
  }

  // The literals the formatters print.
  const NodeLabel := Text("Node ")
  const NameEnd := Text(": ")
  const ListOpen := Text("{ ")
  const ListClose := Text(" }")
  const ListSep := Text(", ")
  const StampOpen := Text("[")
  const StampClose := Text("]")
  const EntrySep := Text("|")
  const ValueSep := Text(":")
  const NewLine := Text("\n\t  ")
  const DoWorkName := Text("DoWork")
  const SendMessageName := Text("SendMessage")

  /** The loop shape both formatters share: append each part to `head`,
      followed by `sep` unless it is the last. */
  method AppendJoined(head: seq<CodeUnit>, parts: seq<seq<CodeUnit>>, sep: seq<CodeUnit>) returns (str: seq<CodeUnit>)
    ensures str == head + Join(parts, sep)
  {
    str := head;
    for i := 0 to |parts|
      invariant str == head + Join(parts[..i], sep) + (if 0 < i < |parts| then sep else [])
    {
      AppendPart(head, parts, sep, i);
      str := str + parts[i];
      if i < |parts| - 1 {
        str := str + sep;
      }
    }
    assert parts[..|parts|] == parts;
  }

  /** The action-list formatter. */
  method GetFormattedNodeActionList(list: seq<NodeAction>, nodeId: int) returns (s: seq<CodeUnit>)
    ensures s == ActionListText(list, nodeId)
  {
    var str := AppendJoined(ListOpen, ActionNames(list), ListSep);
    str := str + ListClose;
    s := NodeLabel + IdToName(nodeId) + NameEnd + str;
  }

  /** The decimal rendering of a non-negative counter, as "{0}" formats an int. */
  function Digits(v: nat): (d: seq<CodeUnit>)
    ensures 1 <= |d|
    ensures forall i :: 0 <= i < |d| ==> '0' as int <= d[i] <= '9' as int
    ensures d[0] == '0' as int <==> v == 0
  {
    if v < 10 then ['0' as int + v] else Digits(v / 10) + ['0' as int + v % 10]
  }

  /** The number a string of decimal digits denotes. */
  function DigitsValue(d: seq<CodeUnit>): int
  {
    if |d| == 0 then 0 else DigitsValue(d[..|d| - 1]) * 10 + (d[|d| - 1] - '0' as int)
  }

  /** Reading the rendered digits back gives the counter. */
  lemma {:induction false} DigitsRoundTrip(v: nat)
    ensures DigitsValue(Digits(v)) == v
  {
    if v >= 10 {
      var d := Digits(v);
      assert d[..|d| - 1] == Digits(v / 10);
      DigitsRoundTrip(v / 10);
    }
  }

  /** "X:v", one entry of a rendered stamp. */
  function StampEntry(j: int, v: nat): seq<CodeUnit>
  {
    IdToName(j) + ValueSep + Digits(v)
  }

  /** The entries of a rendered stamp, one per node. */
  function StampEntries(stamp: Clock): (entries: seq<seq<CodeUnit>>)
    ensures |entries| == |stamp|
    ensures forall j :: 0 <= j < |stamp| ==> entries[j] == StampEntry(j, stamp[j])
  {
    seq(|stamp|, j requires 0 <= j < |stamp| => StampEntry(j, stamp[j]))
  }

  /** "[A:v0|B:v1|...]". */
  function StampText(stamp: Clock): seq<CodeUnit>
  {
    StampOpen + Join(StampEntries(stamp), EntrySep) + StampClose
  }

  /** What precedes stamp i: a line break before every seventh stamp. */
  function LineBreak(i: int): seq<CodeUnit>
  {
    if (i + 1) % 7 == 0 then NewLine else []
  }

  /** The stamps of a history, each after its line break. */
  function HistoryPieces(history: seq<Clock>): (pieces: seq<seq<CodeUnit>>)
    ensures |pieces| == |history|
    ensures forall i :: 0 <= i < |history| ==> pieces[i] == LineBreak(i) + StampText(history[i])
  {
    seq(|history|, i requires 0 <= i < |history| => LineBreak(i) + StampText(history[i]))
  }

  /** "Node X: { " then the rendered stamps separated by ", ", then " }". */
  function HistoryText(nodeId: int, history: seq<Clock>): seq<CodeUnit>
  {
    NodeLabel + IdToName(nodeId) + NameEnd + ListOpen + Join(HistoryPieces(history), ListSep) + ListClose
  }

  /** A stamp starts on a new line exactly when its position plus one is a
      multiple of seven. */
  lemma LineBreakPlacement(i: int, stamp: Clock)
    ensures (LineBreak(i) + StampText(stamp))[0] == '\n' as int <==> (i + 1) % 7 == 0
  {
  }

  /** The rendering of one stamp: the formatter's inner loop. */
  method FormatStamp(stamp: Clock) returns (s: seq<CodeUnit>)
    ensures s == StampText(stamp)
  {
    s := AppendJoined(StampOpen, StampEntries(stamp), EntrySep);
    s := s + StampClose;
  }

  /** Snapshot i as the outer loop renders it: its line break, then the stamp. */
  method FormatPiece(i: int, stamp: Clock) returns (p: seq<CodeUnit>)
    ensures p == LineBreak(i) + StampText(stamp)
  {
    var rendered := FormatStamp(stamp);
    p := LineBreak(i) + rendered;
  }

  /** The clock-history formatter: the outer loop over the snapshots, which
      renders each one with FormatStamp after its line break. */
  method GetFormattedNodeClockHistory(nodeId: int, node: Node) returns (s: seq<CodeUnit>)
    ensures s == HistoryText(nodeId, node.history)
  {
    var history := node.history;
    ghost var pieces := HistoryPieces(history);
    var str := ListOpen;
    for i := 0 to |history|
      invariant str == ListOpen + Join(pieces[..i], ListSep) + (if 0 < i < |history| then ListSep else [])
    {
      AppendPart(ListOpen, pieces, ListSep, i);
      var piece := FormatPiece(i, history[i]);
      str := str + piece;
      if i < |history| - 1 {
        str := str + ListSep;
      }
    }
    assert pieces[..|history|] == pieces;
    str := str + ListClose;
    s := NodeLabel + IdToName(nodeId) + NameEnd + str;
  }
}
