/**
 * The Markdown syntax tree the remark plugins work on, reduced to what they read and write: a
 * node's type, its directive name, its literal value, its directive attributes, its children,
 * and the `data` record through which a plugin tells the HTML stage which component to render.
 */
module Mdast {
  import opened Wrappers

  datatype Kind =
    | Root
    | Paragraph
    | Text
    | Code
    | InlineCode
    | ContainerDirective
    | LeafDirective
    | TextDirective
    | OtherKind(name: string)

  /** Component props: a property whose value is `undefined` is present with `None`. */
  type Props = map<string, Option<string>>

  /** `node.data`: the component name and props the HTML stage uses. */
  datatype NodeData = NodeData(hName: Option<string>, hProperties: Option<Props>)

  datatype MdNode = MdNode(
    kind: Kind,
    name: Option<string>,
    value: string,
    attributes: Option<map<string, string>>,
    children: seq<MdNode>,
    data: Option<NodeData>)

  /** Whether the node is one of the three directive kinds. */
  predicate IsDirective(node: MdNode) {
    node.kind.ContainerDirective? || node.kind.LeafDirective? || node.kind.TextDirective?
  }

  /** `node.data || (node.data = {})`: the node's data record, a fresh empty one if it has none. */
  function DataOf(node: MdNode): (d: NodeData)
    ensures node.data.Some? ==> d == node.data.value
    ensures node.data.None? ==> d.hName.None? && d.hProperties.None?
  {
    node.data.GetOr(NodeData(None, None))
  }

  /** `node.attributes || {}`. */
  function AttributesOf(node: MdNode): (a: map<string, string>)
    ensures node.attributes.Some? ==> a == node.attributes.value
    ensures node.attributes.None? ==> a == map[]
  {
    node.attributes.GetOr(map[])
  }

  /** `attributes[key]`, undefined when the key is missing. */
  function Attribute(attributes: map<string, string>, key: string): Option<string> {
    if key in attributes then Some(attributes[key]) else None
  }

  /** A value that JavaScript counts as true: a string that is present and not empty. */
  predicate Truthy(v: Option<string>) {
    v.Some? && v.value != ""
  }

  /** `v || fallback` on an optional string. */
  function OrElse(v: Option<string>, fallback: string): (r: string)
    ensures Truthy(v) ==> r == v.value
    ensures !Truthy(v) ==> r == fallback
  {
    if Truthy(v) then v.value else fallback
  }
}
