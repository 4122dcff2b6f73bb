/**
 * `remarkAdmonitions`: rewrites a `:::note`-style directive into an `Admonition` component. The
 * directive's name is looked up in a table of the five admonition types; a block directive of
 * one of those types takes its title from a leading paragraph, and an inline one fails the file.
 */
module Admonition {
  import opened Wrappers
  import opened Mdast

  /** The admonition types, each mapped to itself by `TYPE_MAPPING`. */
  const AdmonitionTypes: set<string> := {"note", "tip", "info", "warning", "danger"}

  /**
   * The names a plain object literal answers through its prototype: looking one of them up
   * in `TYPE_MAPPING` yields an inherited method or object, which is truthy.
   */
  const InheritedNames: set<string> := {
    "constructor", "toString", "toLocaleString", "valueOf", "hasOwnProperty", "isPrototypeOf",
    "propertyIsEnumerable", "__proto__", "__defineGetter__", "__defineSetter__",
    "__lookupGetter__", "__lookupSetter__"}

  /** The key a directive's name is looked up under: a missing name becomes "undefined". */
  function LookupKey(name: Option<string>): string {
    if name.Some? then name.value else "undefined"
  }

  /**
   * `TYPE_MAPPING[inputType]` as written: the five types map to themselves, and an inherited
   * name yields a truthy value, modelled by the name itself.
   */
  function TypeMappingAsWritten(name: Option<string>): (t: Option<string>)
    ensures t.Some? <==> LookupKey(name) in AdmonitionTypes + InheritedNames
    ensures t.Some? ==> t.value == LookupKey(name)
  {
    var key := LookupKey(name);
    if key in AdmonitionTypes || key in InheritedNames then Some(key) else None
  }

  /** The intended lookup: only the table's own five keys. */
  function TypeMapping(name: Option<string>): (t: Option<string>)
    ensures t.Some? <==> name.Some? && name.value in AdmonitionTypes
    ensures t.Some? ==> t == name
  {
    if name.Some? && name.value in AdmonitionTypes then name else None
  }

  /** The error `file.fail` raises for an inline admonition. */
  function TextDirectiveError(t: string): string {
    "Unexpected ':" + t + "' text directive. Use ':::" + t + "' instead"
  }

  /**
   * The title taken from the children: the value of the first child of a leading paragraph
   * when that child is text, together with the children left once that paragraph is removed.
   */
  function ExtractTitle(children: seq<MdNode>): (r: (Option<string>, seq<MdNode>))
    ensures r.0.Some? <==>
      |children| > 0 && children[0].kind.Paragraph? && |children[0].children| > 0 && children[0].children[0].kind.Text?
    ensures r.0.Some? ==> r.0.value == children[0].children[0].value && r.1 == children[1..]
    ensures r.0.None? ==> r.1 == children
  {
    if |children| > 0 && children[0].kind.Paragraph? && |children[0].children| > 0
       && children[0].children[0].kind.Text? then
      (Some(children[0].children[0].value), children[1..])
    else (None, children)
  }

  /** The props of the component: type and title, then every attribute on top. */
  function AdmonitionProps(t: string, title: Option<string>, attributes: map<string, string>): (p: Props)
    ensures p.Keys == {"type", "title"} + attributes.Keys
    ensures forall k :: k in attributes ==> p[k] == Some(attributes[k])
    ensures "type" !in attributes ==> p["type"] == Some(t)
    ensures "title" !in attributes ==> p["title"] == (if Truthy(title) then title else None)
  {
    var titleProp := if Truthy(title) then title else Attribute(attributes, "title");
    map["type" := Some(t), "title" := titleProp] + map k | k in attributes :: Some(attributes[k])
  }

  /** The plugin's visitor on one node, under a given type lookup. */
  function RewriteWith(node: MdNode, mapping: Option<string> -> Option<string>): (r: Result<MdNode>)
    ensures !IsDirective(node) || mapping(node.name).None? ==> r == Ok(node)
    ensures IsDirective(node) && mapping(node.name).Some? && node.kind.TextDirective? ==>
      r == Err(TextDirectiveError(mapping(node.name).value))
    ensures IsDirective(node) && mapping(node.name).Some? && !node.kind.TextDirective? ==>
      && r.Ok?
      && r.value.kind == node.kind && r.value.name == node.name && r.value.value == node.value
      && r.value.attributes == node.attributes
      && r.value.children == ExtractTitle(node.children).1
      && r.value.data.Some? && r.value.data.value.hName == Some("Admonition")
      && r.value.data.value.hProperties
           == Some(AdmonitionProps(mapping(node.name).value, ExtractTitle(node.children).0, AttributesOf(node)))
  {
    if !IsDirective(node) then Ok(node)
    else
      var t := mapping(node.name);
      if t.None? then Ok(node)
      else if node.kind.TextDirective? then Err(TextDirectiveError(t.value))
      else
        var data := DataOf(node);
        var attributes := AttributesOf(node);
        var (title, children) := ExtractTitle(node.children);
        var props := AdmonitionProps(t.value, title, attributes);
        Ok(node.(children := children, data := Some(data.(hName := Some("Admonition"), hProperties := Some(props)))))
  }

  /** The plugin as written. */
  function RewriteAsWritten(node: MdNode): Result<MdNode> {
    RewriteWith(node, TypeMappingAsWritten)
  }

  /** The plugin with the intended lookup. */
  function Rewrite(node: MdNode): (r: Result<MdNode>)
    ensures !IsDirective(node) ==> r == Ok(node)
    ensures node.name.None? || node.name.value !in AdmonitionTypes ==> r == Ok(node)
    ensures IsDirective(node) && node.name.Some? && node.name.value in AdmonitionTypes ==>
      (r.Err? <==> node.kind.TextDirective?)
    ensures r.Err? ==> r.message == TextDirectiveError(node.name.value)
    ensures r.Ok? && r != Ok(node) ==>
      && r.value.data.Some? && r.value.data.value.hName == Some("Admonition")
      && r.value.data.value.hProperties.Some?
      && var props := r.value.data.value.hProperties.value;
         && props.Keys == {"type", "title"} + AttributesOf(node).Keys
         && (forall k :: k in AttributesOf(node) ==> props[k] == Some(AttributesOf(node)[k]))
         && ("type" !in AttributesOf(node) ==> props["type"] == node.name)
  {
    RewriteWith(node, TypeMapping)
  }

  /**
   * A block admonition loses at most its leading paragraph, and only when that paragraph's
   * first child is the text taken as the title: putting the paragraph back restores the children.
   */
  lemma TitleParagraphRestores(node: MdNode)
    requires Rewrite(node).Ok?
    ensures var r := Rewrite(node).value;
      || r.children == node.children
      || (|node.children| > 0 && node.children == [node.children[0]] + r.children
          && node.children[0].kind.Paragraph? && |node.children[0].children| > 0
          && node.children[0].children[0].kind.Text?)
  {
    var r := Rewrite(node).value;
    if r.children != node.children {
      assert node.children == [node.children[0]] + node.children[1..];
    }
  }

  /** On every name that is not inherited from the prototype, the plugin as written is the intended one. */
  lemma AgreesOffThePrototype(node: MdNode)
    requires LookupKey(node.name) !in InheritedNames
    ensures RewriteAsWritten(node) == Rewrite(node)
  {
    assert TypeMappingAsWritten(node.name) == TypeMapping(node.name);
  }

  /**
   * As written, a `:::constructor` block is rendered as an admonition whose type is the
   * inherited member, where the intended plugin leaves it alone.
   */
  lemma ConstructorBecomesAdmonition(children: seq<MdNode>)
    ensures var node := MdNode(ContainerDirective, Some("constructor"), "", None, children, None);
      && RewriteAsWritten(node).Ok?
      && RewriteAsWritten(node).value.data.value.hName == Some("Admonition")
      && Rewrite(node) == Ok(node)
  {
    var node := MdNode(ContainerDirective, Some("constructor"), "", None, children, None);
    assert "constructor" in InheritedNames;
    assert "constructor" !in AdmonitionTypes;
    assert TypeMappingAsWritten(node.name) == Some("constructor");
  }
}
