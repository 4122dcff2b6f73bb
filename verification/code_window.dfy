/**
 * `rehypeCodeWindow`: replaces each `<pre>` of the HTML tree by a "code window", a fixed
 * structure of `div`s holding a header with three window controls and a language label, and a
 * content area holding the original `<pre>`.
 */
module CodeWindow {
  import opened Wrappers

  /** An HTML node: an element with its tag, its classes and its children, or a text node. */
  datatype HNode =
    | Element(tagName: string, className: Option<seq<string>>, children: seq<HNode>)
    | HText(value: string)

  const LanguagePrefix := "language-"

  /** The language named by the first class that starts with "language-", "" if none does. */
  function LanguageOfClasses(classes: seq<string>): (lang: string)
    ensures (exists k :: 0 <= k < |classes| && LanguagePrefix <= classes[k]) <==>
      exists k :: (0 <= k < |classes| && LanguagePrefix <= classes[k] && lang == classes[k][|LanguagePrefix|..]
        && forall j :: 0 <= j < k ==> !(LanguagePrefix <= classes[j]))
    ensures (forall k :: 0 <= k < |classes| ==> !(LanguagePrefix <= classes[k])) ==> lang == ""
  {
    if classes == [] then ""
    else if LanguagePrefix <= classes[0] then classes[0][|LanguagePrefix|..]
    else
      var rest := LanguageOfClasses(classes[1..]);
      assert forall k :: 1 <= k < |classes| ==> classes[k] == classes[1..][k - 1];
      if exists k :: 0 <= k < |classes[1..]| && LanguagePrefix <= classes[1..][k] then
        var k :| 0 <= k < |classes[1..]| && LanguagePrefix <= classes[1..][k] && rest == classes[1..][k][|LanguagePrefix|..]
          && forall j :: 0 <= j < k ==> !(LanguagePrefix <= classes[1..][j]);
        assert LanguagePrefix <= classes[k + 1] && rest == classes[k + 1][|LanguagePrefix|..];
        assert forall j :: 0 <= j < k + 1 ==> !(LanguagePrefix <= classes[j]) by {
          forall j | 0 <= j < k + 1
            ensures !(LanguagePrefix <= classes[j])
          {
            if j > 0 {
              assert classes[j] == classes[1..][j - 1];
            }
          }
        }
        rest
      else rest
  }

  /** The language the classes of an element name, "" when it has none. */
  function ElementLanguage(node: HNode): string {
    if node.Element? && node.className.Some? then LanguageOfClasses(node.className.value) else ""
  }

  /** The first child that is a `code` element, if any. */
  function FirstCode(children: seq<HNode>): (r: Option<HNode>)
    ensures r.Some? <==> exists k :: 0 <= k < |children| && children[k].Element? && children[k].tagName == "code"
    ensures r.Some? ==>
      exists k :: (0 <= k < |children| && children[k] == r.value
        && r.value.Element? && r.value.tagName == "code"
        && forall j :: 0 <= j < k ==> !(children[j].Element? && children[j].tagName == "code"))
  {
    if children == [] then None
    else if children[0].Element? && children[0].tagName == "code" then Some(children[0])
    else
      var r := FirstCode(children[1..]);
      assert forall k :: 1 <= k < |children| ==> children[k] == children[1..][k - 1];
      if r.Some? then
        var k :| 0 <= k < |children[1..]| && children[1..][k] == r.value
          && r.value.Element? && r.value.tagName == "code"
          && forall j :: 0 <= j < k ==> !(children[1..][j].Element? && children[1..][j].tagName == "code");
        assert children[k + 1] == r.value;
        assert forall j :: 0 <= j < k + 1 ==> !(children[j].Element? && children[j].tagName == "code") by {
          forall j | 0 <= j < k + 1
            ensures !(children[j].Element? && children[j].tagName == "code")
          {
            if j > 0 {
              assert children[j] == children[1..][j - 1];
            }
          }
        }
        r
      else
        assert forall k :: 1 <= k < |children| ==> !(children[k].Element? && children[k].tagName == "code") by {
          forall k | 1 <= k < |children|
            ensures !(children[k].Element? && children[k].tagName == "code")
          {
            assert children[k] == children[1..][k - 1];
          }
        }
        r
  }

  /** The language of a `<pre>`: its own classes first, else those of its first `code` child. */
  function Language(pre: HNode): (lang: string)
    requires pre.Element?
    ensures ElementLanguage(pre) != "" ==> lang == ElementLanguage(pre)
    ensures ElementLanguage(pre) == "" && FirstCode(pre.children).Some? ==>
      lang == ElementLanguage(FirstCode(pre.children).value)
    ensures ElementLanguage(pre) == "" && FirstCode(pre.children).None? ==> lang == ""
  {
    var own := ElementLanguage(pre);
    if own != "" then own
    else
      var code := FirstCode(pre.children);
      if code.Some? then ElementLanguage(code.value) else ""
  }

  /** `toUpperCase` on one character, for the ASCII letters. */
  function UpperAscii(c: char): (u: char)
    ensures 'a' <= c <= 'z' ==> 'A' <= u <= 'Z' && u as int == c as int - 32
    ensures !('a' <= c <= 'z') ==> u == c
  {
    if 'a' <= c <= 'z' then (c as int - 32) as char else c
  }

  /** The label shown in the header: the language capitalised, or "Code" when there is none. */
  function Label(lang: string): (shown: string)
    ensures lang == "" ==> shown == "Code"
    ensures lang != "" ==> |shown| == |lang| && shown[0] == UpperAscii(lang[0]) && shown[1..] == lang[1..]
  {
    if lang == "" then "Code" else [UpperAscii(lang[0])] + lang[1..]
  }

  /** A `div` or `span` with the given classes. */
  function Box(tag: string, classes: seq<string>, children: seq<HNode>): HNode {
    Element(tag, Some(classes), children)
  }

  /** The three decorative window controls. */
  const Controls: HNode := Box("div", ["window-controls"], [
    Box("span", ["control", "close"], []),
    Box("span", ["control", "minimize"], []),
    Box("span", ["control", "maximize"], [])])

  /** The code window around a `<pre>`, captioned `caption`. */
  function Wrapper(pre: HNode, caption: string): HNode {
    Box("div", ["code-window"], [
      Box("div", ["code-header"], [Controls, Box("span", ["code-lang"], [HText(caption)])]),
      Box("div", ["code-content"], [pre])])
  }

  /**
   * Whether a node is a code window: exactly the structure `Wrapper` builds, with its header,
   * its three controls, its label and its content area, around some `<pre>` and caption.
   */
  predicate IsWindow(node: HNode) {
    && node.Element? && |node.children| == 2
    && node.children[0].Element? && |node.children[0].children| == 2
    && node.children[0].children[1].Element? && |node.children[0].children[1].children| == 1
    && node.children[0].children[1].children[0].HText?
    && node.children[1].Element? && |node.children[1].children| == 1
    && node == Wrapper(node.children[1].children[0], node.children[0].children[1].children[0].value)
  }

  /** The `<pre>` and the label held by a code window. */
  function Unwrap(node: HNode): (r: Option<(HNode, string)>)
    ensures r.Some? <==> IsWindow(node)
    ensures r.Some? ==> node == Wrapper(r.value.0, r.value.1)
  {
    if IsWindow(node) then Some((node.children[1].children[0], node.children[0].children[1].children[0].value))
    else None
  }

  /** A code window gives back the `<pre>` and the label it was built from. */
  lemma UnwrapWrapper(pre: HNode, caption: string)
    ensures Unwrap(Wrapper(pre, caption)) == Some((pre, caption))
  {
  }

  /** Whether the visitor replaces the node: a `<pre>` element. */
  predicate IsPre(node: HNode) {
    node.Element? && node.tagName == "pre"
  }

  /**
   * The visitor on the element at `index` among `siblings`. Without a parent or an index it
   * does nothing, which `None` stands for; otherwise it gives the parent's new children, the
   * `<pre>` replaced in place by its code window.
   */
  function VisitElement(siblings: Option<seq<HNode>>, index: Option<nat>): (r: Option<seq<HNode>>)
    requires siblings.Some? && index.Some? ==> index.value < |siblings.value|
    ensures r.Some? <==> siblings.Some? && index.Some?
    ensures r.Some? ==> |r.value| == |siblings.value|
    ensures r.Some? ==> forall k :: 0 <= k < |r.value| && k != index.value ==> r.value[k] == siblings.value[k]
    ensures r.Some? && !IsPre(siblings.value[index.value]) ==> r.value == siblings.value
    ensures r.Some? && IsPre(siblings.value[index.value]) ==>
      var pre := siblings.value[index.value];
      && Unwrap(r.value[index.value]) == Some((pre, Label(Language(pre))))
      && r.value[index.value].className == Some(["code-window"])
      && r.value[index.value].children[0].children[0] == Controls
  {
    if siblings.None? || index.None? then None
    else
      var node := siblings.value[index.value];
      if !IsPre(node) then siblings
      else
        var wrapped := Wrapper(node, Label(Language(node)));
        UnwrapWrapper(node, Label(Language(node)));
        Some(siblings.value[index.value := wrapped])
  }

  /** A `<pre>` that names its language ignores the classes of its `code` child. */
  lemma PreLanguageWins(pre: HNode, code: HNode)
    requires pre.Element? && ElementLanguage(pre) != ""
    ensures Language(pre.(children := [code] + pre.children)) == Language(pre)
  {
  }

  /**
   * A `<pre>` whose first class is "language-" followed by a language name is labelled with
   * that name, whatever its other classes and its children.
   */
  lemma PrefixedClassLabel(lang: string, others: seq<string>, children: seq<HNode>)
    requires lang != ""
    ensures Language(Element("pre", Some([LanguagePrefix + lang] + others), children)) == lang
  {
    var first := LanguagePrefix + lang;
    assert first[..|LanguagePrefix|] == LanguagePrefix;
    assert first[|LanguagePrefix|..] == lang;
    assert ([first] + others)[0] == first;
  }

  /** A `<pre>` of class "language-typescript" is labelled "Typescript". */
  lemma TypescriptLabel(children: seq<HNode>)
    ensures Label(Language(Element("pre", Some([LanguagePrefix + "typescript"]), children))) == "Typescript"
  {
    PrefixedClassLabel("typescript", [], children);
    assert [LanguagePrefix + "typescript"] + [] == [LanguagePrefix + "typescript"];
    assert UpperAscii('t') == 'T';
    assert Label("typescript") == [UpperAscii('t')] + "ypescript";
  }
}
