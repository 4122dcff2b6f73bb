/**
 * `remarkMark`: rewrites a `:mark[text]{color=… bg=…}` text directive into a `Mark` component
 * whose props are exactly the colour and the background.
 */
module Mark {
  import opened Wrappers
  import opened Mdast

  /** Whether the plugin handles the node: a text directive named "mark". */
  predicate Handles(node: MdNode) {
    node.kind.TextDirective? && node.name == Some("mark")
  }

  /** The visitor on one node. */
  function RewriteMark(node: MdNode): (r: MdNode)
    ensures !Handles(node) ==> r == node
    ensures r.kind == node.kind && r.name == node.name && r.attributes == node.attributes
    ensures r.children == node.children && r.value == node.value
    ensures Handles(node) ==>
      && r.data.Some? && r.data.value.hName == Some("Mark")
      && r.data.value.hProperties.Some?
      && r.data.value.hProperties.value.Keys == {"color", "bg"}
      && r.data.value.hProperties.value["color"] == Attribute(AttributesOf(node), "color")
      && r.data.value.hProperties.value["bg"] == Attribute(AttributesOf(node), "bg")
  {
    if !Handles(node) then node
    else
      var data := DataOf(node);
      var attributes := AttributesOf(node);
      var props := map["color" := Attribute(attributes, "color"), "bg" := Attribute(attributes, "bg")];
      node.(data := Some(data.(hName := Some("Mark"), hProperties := Some(props))))
  }

  /** Running the plugin over its own output changes nothing more. */
  lemma MarkIdempotent(node: MdNode)
    ensures RewriteMark(RewriteMark(node)) == RewriteMark(node)
  {
  }

  /** Attributes other than the colour and the background never reach the component. */
  lemma OtherAttributesDropped(node: MdNode, key: string)
    requires Handles(node) && key != "color" && key != "bg"
    ensures key !in RewriteMark(node).data.value.hProperties.value
  {
  }
}
