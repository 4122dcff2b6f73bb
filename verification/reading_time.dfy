/**
 * `remarkReadingTime`: counts the characters of the text, code and inline-code nodes of a
 * document and turns the count into a reading time in whole minutes. The tree itself is left
 * as it is; the result goes to the file's data.
 */
module ReadingTime {
  import opened Wrappers
  import opened JsValues
  import opened Mdast

  /** The reading speed used when none is configured, in characters per minute. */
  const DefaultWordsPerMinute := 400

  /** `options.wordsPerMinute || 400`: a missing or zero speed means the default. */
  function WordsPerMinute(option: Option<int>): (wpm: int)
    ensures wpm != 0
    ensures option.None? || option.value == 0 ==> wpm == DefaultWordsPerMinute
    ensures option.Some? && option.value != 0 ==> wpm == option.value
  {
    if option.None? || option.value == 0 then DefaultWordsPerMinute else option.value
  }

  /** The node types whose text is counted. */
  predicate Counted(node: MdNode) {
    node.kind.Text? || node.kind.Code? || node.kind.InlineCode?
  }

  /** The characters a node adds by itself: its value's length if it is counted, else none. */
  function Own(node: MdNode): nat {
    if Counted(node) then |node.value| else 0
  }

  /** The characters counted in a tree: its own and those of every node below it. */
  function CountChars(node: MdNode): nat
    decreases node, 1
  {
    Own(node) + CountAll(node.children, node)
  }

  /** The characters counted in a sequence of sibling trees. */
  function CountAll(nodes: seq<MdNode>, ghost parent: MdNode): nat
    requires forall c :: c in nodes ==> c < parent
    decreases parent, 0, |nodes|
  {
    if nodes == [] then 0
    else
      assert nodes[0] in nodes && forall c :: c in nodes[1..] ==> c in nodes;
      CountChars(nodes[0]) + CountAll(nodes[1..], parent)
  }

  /** The number of nodes in a tree, which bounds the work of any traversal. */
  function Size(node: MdNode): nat
    decreases node, 1
  {
    1 + SizeAll(node.children, node)
  }

  function SizeAll(nodes: seq<MdNode>, ghost parent: MdNode): nat
    requires forall c :: c in nodes ==> c < parent
    decreases parent, 0, |nodes|
  {
    if nodes == [] then 0
    else
      assert nodes[0] in nodes && forall c :: c in nodes[1..] ==> c in nodes;
      Size(nodes[0]) + SizeAll(nodes[1..], parent)
  }

  /** The count and size of a pending stack of trees, independent of a parent. */
  function StackCount(stack: seq<MdNode>): nat {
    if stack == [] then 0 else StackCount(stack[..|stack| - 1]) + CountChars(stack[|stack| - 1])
  }

  function StackSize(stack: seq<MdNode>): nat {
    if stack == [] then 0 else StackSize(stack[..|stack| - 1]) + Size(stack[|stack| - 1])
  }

  /** Pushing children one after the other adds their count and size to the stack's. */
  lemma {:induction false} PushAll(stack: seq<MdNode>, nodes: seq<MdNode>, parent: MdNode)
    requires forall c :: c in nodes ==> c < parent
    ensures StackCount(stack + nodes) == StackCount(stack) + CountAll(nodes, parent)
    ensures StackSize(stack + nodes) == StackSize(stack) + SizeAll(nodes, parent)
    decreases |nodes|
  {
    if nodes == [] {
      assert stack + nodes == stack;
    } else {
      var next := stack + [nodes[0]];
      assert forall c :: c in nodes[1..] ==> c in nodes;
      PushAll(next, nodes[1..], parent);
      assert next + nodes[1..] == stack + nodes;
      assert next[..|next| - 1] == stack;
    }
  }

  /**
   * The traversal `visit` performs, as a loop over a stack of pending subtrees: each node
   * adds its own characters, then its children are pushed.
   */
  method CountByVisit(tree: MdNode) returns (total: nat)
    ensures total == CountChars(tree)
  {
    total := 0;
    var stack := [tree];
    assert stack[..0] == [];
    while stack != []
      invariant total + StackCount(stack) == CountChars(tree)
      decreases StackSize(stack)
    {
      var node := stack[|stack| - 1];
      var rest := stack[..|stack| - 1];
      total := total + Own(node);
      PushAll(rest, node.children, node);
      stack := rest + node.children;
    }
  }

  /** `Math.max(1, Math.ceil(total / wpm))`. */
  function Minutes(total: nat, wpm: int): (m: nat)
    requires wpm != 0
    ensures m >= 1
    ensures wpm > 0 && total > 0 ==> (m - 1) * wpm < total <= m * wpm
    ensures total == 0 || wpm < 0 ==> m == 1
  {
    if wpm < 0 then 1
    else
      var q := (total + wpm - 1) / wpm;
      assert q * wpm <= total + wpm - 1 < q * wpm + wpm;
      assert (q + 1) * wpm == q * wpm + wpm;
      if q < 1 then 1 else q
  }

  /** More text never means less reading time. */
  lemma MinutesMonotone(a: nat, b: nat, wpm: int)
    requires wpm != 0 && a <= b
    ensures Minutes(a, wpm) <= Minutes(b, wpm)
  {
    if wpm > 0 && a > 0 {
      var ma, mb := Minutes(a, wpm), Minutes(b, wpm);
      if mb < ma {
        ScaleMonotone(ma - 1, mb, wpm);
      }
    }
  }

  lemma ScaleMonotone(x: int, y: int, l: int)
    requires x >= y && l >= 0
    ensures x * l >= y * l
  {
    assert x * l - y * l == (x - y) * l;
  }

  /** `file.data.readingTime`. */
  datatype ReadingTimeResult = ReadingTimeResult(text: string, minutes: nat, words: nat)

  /** The unit appended to the minutes. */
  const Unit := " 分钟"

  /** The reading time of a document under the plugin's options. */
  function Estimate(tree: MdNode, wordsPerMinute: Option<int>): (r: ReadingTimeResult)
    ensures r.words == CountChars(tree)
    ensures r.minutes >= 1
    ensures r.minutes == Minutes(r.words, WordsPerMinute(wordsPerMinute))
    ensures r.text == NatToString(r.minutes) + Unit
  {
    var words := CountChars(tree);
    var minutes := Minutes(words, WordsPerMinute(wordsPerMinute));
    ReadingTimeResult(NatToString(minutes) + Unit, minutes, words)
  }

  /** The text reads back as the minutes: its digits, before the unit, spell the number. */
  lemma TextReadsBack(tree: MdNode, wordsPerMinute: Option<int>)
    ensures var r := Estimate(tree, wordsPerMinute);
      && |r.text| > |Unit|
      && r.text[|r.text| - |Unit|..] == Unit
      && (forall k :: 0 <= k < |r.text| - |Unit| ==> '0' <= r.text[k] <= '9')
      && ParseDigits(r.text[..|r.text| - |Unit|]) == r.minutes
  {
    var r := Estimate(tree, wordsPerMinute);
    var digits := NatToString(r.minutes);
    assert r.text[..|r.text| - |Unit|] == digits;
    assert r.text[|r.text| - |Unit|..] == Unit;
    NatToStringRoundTrip(r.minutes);
  }
}
