/** The conversation message model (core/message.go) and the pairing protocol every part of
    agents/ has to keep: each tool call is answered by exactly one result, the results stand
    directly behind their assistant message in call order, and no result lacks its call. */
module Messages {

  datatype Option<+T> = None | Some(value: T)

  /** A text, cut at its "#N" message references. The renumbering of merged contexts only
      looks at a text's prefix and at those references, so this is all the structure it needs.
      `zeros` counts the leading zeros of the number. */
  datatype Part = Lit(s: string) | Ref(n: nat, zeros: nat := 0)
  type Text = seq<Part>

  const SLIM_PREFIX := "[slim:"

  /** The result has already been replaced by a slimming pass. */
  predicate IsSlimPlaceholder(t: Text) {
    t != [] && t[0].Lit? && SLIM_PREFIX <= t[0].s
  }

  function Digits(n: nat): (d: nat) {
    if n < 10 then 1 else 1 + Digits(n / 10)
  }

  /** Length of the rendered text. */
  function Length(t: Text): nat {
    if t == [] then 0
    else (match t[0] case Lit(s) => |s| case Ref(n, zeros) => 1 + zeros + Digits(n)) + Length(t[1..])
  }

  predicate IsSpace(c: char) {
    c == ' ' || '\t' <= c <= '\r' || c == '\U{85}' || c == '\U{A0}' || c == '\U{1680}' ||
    '\U{2000}' <= c <= '\U{200A}' || c == '\U{2028}' || c == '\U{2029}' || c == '\U{202F}' ||
    c == '\U{205F}' || c == '\U{3000}'
  }

  /** strings.TrimSpace leaves nothing. */
  predicate IsBlank(t: Text) {
    forall p | p in t :: p.Lit? && forall c | c in p.s :: IsSpace(c)
  }

  datatype Role = User | Assistant | Tool | System
  datatype BlockKind = TextBlock | ImageBlock | SummaryBlock | CommandBlock | OtherBlock
  datatype Block = Block(kind: BlockKind, text: Text)
  datatype Call = Call(id: string, name: string, args: string)
  datatype Message = Message(role: Role, content: seq<Block>, reasoning: Text, signature: Text,
                             calls: seq<Call>, toolId: string)

  function TextMessage(role: Role, t: Text): Message {
    Message(role, [Block(TextBlock, t)], [], [], [], "")
  }

  function SystemMessage(t: Text): Message { TextMessage(System, t) }

  function UserMessage(t: Text): Message { TextMessage(User, t) }

  function ToolMessage(id: string, t: Text): Message {
    TextMessage(Tool, t).(toolId := id)
  }

  function AssistantMessage(t: Text, reasoning: Text, signature: Text, calls: seq<Call>): Message {
    Message(Assistant, [Block(TextBlock, t)], reasoning, signature, calls, "")
  }

  function ToolMessageWithImages(id: string, t: Text, images: seq<Block>): Message {
    if images == [] then ToolMessage(id, t)
    else Message(Tool, [Block(TextBlock, t)] + images, [], [], [], id)
  }

  predicate IsCommandMessage(m: Message) {
    m.content != [] && m.content[0].kind == CommandBlock
  }

  predicate IsSummaryMessage(m: Message) {
    m.content != [] && m.content[0].kind == SummaryBlock
  }

  /** What Message.Validate and the constructors guarantee: only assistants carry calls, a tool
      message has a first block and only texts and images, and summaries and commands are system messages. */
  predicate WellFormed(m: Message) {
    && (m.calls != [] ==> m.role == Assistant)
    && (m.role == Tool ==> m.content != [] && forall c | c in m.content :: c.kind == TextBlock || c.kind == ImageBlock)
    && (IsSummaryMessage(m) || IsCommandMessage(m) ==> m.role == System)
  }

  ghost predicate AllWellFormed(msgs: seq<Message>) {
    forall i | 0 <= i < |msgs| :: WellFormed(msgs[i])
  }

  // ---- the pairing protocol as a scanner -----------------------------------------------

  function Ids(calls: seq<Call>): (ids: seq<string>)
    ensures |ids| == |calls|
    ensures forall j | 0 <= j < |calls| :: ids[j] == calls[j].id
  {
    seq(|calls|, j requires 0 <= j < |calls| => calls[j].id)
  }

  /** The calls a message opens. */
  function CallIds(m: Message): seq<string> {
    if m.role == Assistant then Ids(m.calls) else []
  }

  /** One message against the calls still waiting for their results. */
  function Advance(open: seq<string>, m: Message): Option<seq<string>> {
    if m.role == Tool then
      if open != [] && open[0] == m.toolId then Some(open[1..]) else None
    else if open == [] then Some(CallIds(m))
    else None
  }

  /** The calls left open behind `msgs`; None when some message broke the protocol. */
  function Residue(open: seq<string>, msgs: seq<Message>): Option<seq<string>>
    decreases msgs
  {
    if msgs == [] then Some(open)
    else match Advance(open, msgs[0])
         case None => None
         case Some(rest) => Residue(rest, msgs[1..])
  }

  ghost predicate WellPaired(msgs: seq<Message>) {
    Residue([], msgs) == Some([])
  }

  /** The same protocol said with positions only: call j of the message at i is answered at
      i+1+j, and every tool message stands at such a place. */
  ghost predicate PairedByPosition(msgs: seq<Message>) {
    && (forall i, j | 0 <= i < |msgs| && 0 <= j < |CallIds(msgs[i])| :: AnsweredAt(msgs, i, j))
    && (forall k | 0 <= k < |msgs| && msgs[k].role == Tool :: exists i :: AnswersCallOf(msgs, i, k))
  }

  ghost predicate AnsweredAt(msgs: seq<Message>, i: int, j: int)
    requires 0 <= i < |msgs| && 0 <= j < |CallIds(msgs[i])|
  {
    i + 1 + j < |msgs| && msgs[i + 1 + j].role == Tool && msgs[i + 1 + j].toolId == CallIds(msgs[i])[j]
  }

  ghost predicate AnswersCallOf(msgs: seq<Message>, i: int, k: int)
    requires k < |msgs|
  {
    0 <= i < k && k - i - 1 < |CallIds(msgs[i])|
  }

  lemma {:induction false} ResidueConcat(open: seq<string>, a: seq<Message>, b: seq<Message>)
    ensures Residue(open, a + b) ==
            (match Residue(open, a) case None => None case Some(mid) => Residue(mid, b))
    decreases a
  {
    if a == [] {
      assert a + b == b;
    } else {
      assert (a + b)[0] == a[0] && (a + b)[1..] == a[1..] + b;
      match Advance(open, a[0]) {
        case None =>
        case Some(rest) => ResidueConcat(rest, a[1..], b);
      }
    }
  }

  lemma {:induction false} EmptyResidue(open: seq<string>)
    ensures Residue(open, []) == Some(open)
  {
  }

  lemma {:induction false} ResidueSnoc(open: seq<string>, a: seq<Message>, m: Message)
    ensures Residue(open, a + [m]) ==
            (match Residue(open, a) case None => None case Some(mid) => Advance(mid, m))
  {
    ResidueConcat(open, a, [m]);
    match Residue(open, a) {
      case None =>
      case Some(mid) =>
        match Advance(mid, m) {
          case None =>
          case Some(rest) => assert [m][1..] == [];
        }
    }
  }

  /** Messages that neither open nor answer a call. */
  ghost predicate Silent(msgs: seq<Message>) {
    forall i | 0 <= i < |msgs| :: msgs[i].role != Tool && CallIds(msgs[i]) == []
  }

  lemma {:induction false} SilentResidue(msgs: seq<Message>)
    requires Silent(msgs)
    ensures Residue([], msgs) == Some([])
  {
    if msgs != [] {
      assert msgs[0].role != Tool && CallIds(msgs[0]) == [];
      SilentResidue(msgs[1..]);
    }
  }

  /** They end with every call answered exactly if what they follow does. */
  lemma {:induction false} SilentKeepsPairing(msgs: seq<Message>, more: seq<Message>)
    requires Silent(more)
    ensures WellPaired(msgs + more) <==> WellPaired(msgs)
  {
    ResidueConcat([], msgs, more);
    SilentResidue(more);
    if more == [] {
      assert msgs + more == msgs;
    }
  }

  /** A pass that keeps roles, calls and result ids keeps the protocol, whatever texts it writes. */
  ghost predicate SameShape(m: Message, n: Message) {
    m.role == n.role && CallIds(m) == CallIds(n) && m.toolId == n.toolId
  }

  lemma {:induction false} SameShapeSameResidue(open: seq<string>, a: seq<Message>, b: seq<Message>)
    requires |a| == |b| && forall i | 0 <= i < |a| :: SameShape(a[i], b[i])
    ensures Residue(open, a) == Residue(open, b)
    decreases a
  {
    if a != [] {
      assert SameShape(a[0], b[0]);
      match Advance(open, a[0]) {
        case None =>
        case Some(rest) =>
          forall i | 0 <= i < |a[1..]| ensures SameShape(a[1..][i], b[1..][i]) {
            assert SameShape(a[i + 1], b[i + 1]);
          }
          SameShapeSameResidue(rest, a[1..], b[1..]);
      }
    }
  }

  /** In a well-paired context an open call at a position is answered right there. */
  lemma {:induction false} OpenCallsComeNext(open: seq<string>, msgs: seq<Message>, j: nat)
    requires Residue(open, msgs) == Some([]) && j < |open|
    ensures j < |msgs| && msgs[j].role == Tool && msgs[j].toolId == open[j]
  {
    if j > 0 { OpenCallsComeNext(open[1..], msgs[1..], j - 1); }
  }

  lemma {:induction false} ScanAt(msgs: seq<Message>, i: nat)
    requires WellPaired(msgs) && i <= |msgs|
    ensures Residue([], msgs[..i]).Some?
    ensures Residue(Residue([], msgs[..i]).value, msgs[i..]) == Some([])
  {
    assert msgs == msgs[..i] + msgs[i..];
    ResidueConcat([], msgs[..i], msgs[i..]);
  }

  /** Every open call behind a prefix belongs to the last non-tool message of the prefix. */
  lemma {:induction false} OpenCallsOwner(msgs: seq<Message>) returns (i: int)
    requires Residue([], msgs).Some? && Residue([], msgs).value != []
    ensures 0 <= i < |msgs| && msgs[i].role == Assistant
    ensures |msgs| - i - 1 < |CallIds(msgs[i])|
    ensures Residue([], msgs).value == CallIds(msgs[i])[|msgs| - i - 1..]
    ensures forall k | i < k < |msgs| :: msgs[k].role == Tool
  {
    var n := |msgs| - 1;
    assert msgs == msgs[..n] + [msgs[n]];
    ResidueSnoc([], msgs[..n], msgs[n]);
    var before := Residue([], msgs[..n]).value;
    if msgs[n].role == Tool {
      i := OpenCallsOwner(msgs[..n]);
      assert before[1..] == CallIds(msgs[i])[|msgs| - i - 1..];
    } else {
      i := n;
      assert CallIds(msgs[i]) == CallIds(msgs[i])[0..];
    }
  }

  lemma {:induction false} WellPairedIsPositional(msgs: seq<Message>)
    ensures WellPaired(msgs) <==> PairedByPosition(msgs)
  {
    if WellPaired(msgs) {
      forall i, j | 0 <= i < |msgs| && 0 <= j < |CallIds(msgs[i])| ensures AnsweredAt(msgs, i, j) {
        ScanAt(msgs, i);
        assert msgs[i..][0] == msgs[i] && msgs[i..][1..] == msgs[i + 1..];
        OpenCallsComeNext(CallIds(msgs[i]), msgs[i + 1..], j);
      }
      forall k | 0 <= k < |msgs| && msgs[k].role == Tool ensures exists i :: AnswersCallOf(msgs, i, k) {
        ScanAt(msgs, k);
        assert msgs[k..][0] == msgs[k];
        var i := OpenCallsOwner(msgs[..k]);
        assert AnswersCallOf(msgs, i, k);
      }
    }
    if PairedByPosition(msgs) {
      PositionsScan(msgs, |msgs|);
      assert msgs[..|msgs|] == msgs;
      if Residue([], msgs).value != [] { LastCallUnanswered(msgs); }
    }
  }

  lemma {:induction false} LastCallUnanswered(msgs: seq<Message>)
    requires Residue([], msgs).Some? && Residue([], msgs).value != []
    ensures !PairedByPosition(msgs)
  {
    var i := OpenCallsOwner(msgs);
    assert !AnsweredAt(msgs, i, |msgs| - i - 1);
  }

  /** Positional pairing lets the scanner pass every prefix. */
  lemma {:induction false} PositionsScan(msgs: seq<Message>, n: nat)
    requires PairedByPosition(msgs) && n <= |msgs|
    ensures Residue([], msgs[..n]).Some?
  {
    if n > 0 {
      PositionsScan(msgs, n - 1);
      assert msgs[..n] == msgs[..n - 1] + [msgs[n - 1]];
      ResidueSnoc([], msgs[..n - 1], msgs[n - 1]);
      var open := Residue([], msgs[..n - 1]).value;
      if open != [] {
        var i := OpenCallsOwner(msgs[..n - 1]);
        assert AnsweredAt(msgs, i, n - 1 - i - 1);
      } else if msgs[n - 1].role == Tool {
        var i :| AnswersCallOf(msgs, i, n - 1);
        assert AnsweredAt(msgs, i, n - 1 - i - 1);
        OwnerIsLast(msgs, i, n - 1);
      }
    }
  }

  /** A message whose calls reach position k still has the call for k open just before it. */
  lemma {:induction false} OwnerIsLast(msgs: seq<Message>, i: int, k: int)
    requires PairedByPosition(msgs) && k < |msgs| && AnswersCallOf(msgs, i, k)
    requires Residue([], msgs[..k]).Some?
    ensures Residue([], msgs[..k]).value == CallIds(msgs[i])[k - i - 1..]
    decreases k
  {
    assert msgs[..k] == msgs[..k - 1] + [msgs[k - 1]];
    ResidueSnoc([], msgs[..k - 1], msgs[k - 1]);
    if i == k - 1 {
      assert AnsweredAt(msgs, i, 0);
    } else {
      assert AnsweredAt(msgs, i, k - 1 - i - 1);
      OwnerIsLast(msgs, i, k - 1);
      assert CallIds(msgs[i])[k - 1 - i - 1..][1..] == CallIds(msgs[i])[k - i - 1..];
    }
  }

  // ---- unique call ids -------------------------------------------------------------------

  /** No id is used by two calls of the context. */
  ghost predicate UniqueCalls(msgs: seq<Message>) {
    forall i, j, i', j' | 0 <= i < |msgs| && 0 <= j < |CallIds(msgs[i])| &&
                          0 <= i' < |msgs| && 0 <= j' < |CallIds(msgs[i'])| &&
                          CallIds(msgs[i])[j] == CallIds(msgs[i'])[j'] :: i == i' && j == j'
  }

  ghost predicate HasCall(msgs: seq<Message>, id: string) {
    exists i :: 0 <= i < |msgs| && id in CallIds(msgs[i])
  }
}
