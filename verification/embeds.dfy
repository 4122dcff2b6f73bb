/**
 * `remarkBilibili` and `remarkYouTube`: rewrite a `::bilibili{bvid=…}` or `::youtube{id=…}`
 * leaf directive into a video component. The two plugins differ only in the directive name,
 * the attribute carrying the video id, the component and the default title.
 */
module Embeds {
  import opened Wrappers
  import opened Mdast

  /** What distinguishes one video plugin from the other. */
  datatype Embed = Embed(directive: string, idKey: string, component: string, defaultTitle: string)

  const Bilibili := Embed("bilibili", "bvid", "Bilibili", "Bilibili Video")
  const YouTube := Embed("youtube", "id", "YouTube", "YouTube Video")

  /** The default width and height of the player. */
  const DefaultWidth := "100%"
  const DefaultHeight := "400"

  /** Whether the plugin handles the node: a leaf directive with the plugin's name. */
  predicate Handles(node: MdNode, embed: Embed) {
    node.kind.LeafDirective? && node.name == Some(embed.directive)
  }

  /** The player's props: the id as given, and width, height and title or their defaults. */
  function PlayerProps(embed: Embed, attributes: map<string, string>): (p: Props)
    requires embed.idKey !in {"width", "height", "title"}
    ensures p.Keys == {embed.idKey, "width", "height", "title"}
    ensures p[embed.idKey] == Attribute(attributes, embed.idKey)
    ensures p["width"] == Some(OrElse(Attribute(attributes, "width"), DefaultWidth))
    ensures p["height"] == Some(OrElse(Attribute(attributes, "height"), DefaultHeight))
    ensures p["title"] == Some(OrElse(Attribute(attributes, "title"), embed.defaultTitle))
  {
    map[
      embed.idKey := Attribute(attributes, embed.idKey),
      "width" := Some(OrElse(Attribute(attributes, "width"), DefaultWidth)),
      "height" := Some(OrElse(Attribute(attributes, "height"), DefaultHeight)),
      "title" := Some(OrElse(Attribute(attributes, "title"), embed.defaultTitle))]
  }

  /**
   * The visitor on one node. A handled node always ends up with a data record; it names the
   * component only when the id attribute is present and not empty.
   */
  function RewriteEmbed(node: MdNode, embed: Embed): (r: MdNode)
    requires embed.idKey !in {"width", "height", "title"}
    ensures !Handles(node, embed) ==> r == node
    ensures r.kind == node.kind && r.name == node.name && r.attributes == node.attributes
    ensures r.children == node.children && r.value == node.value
    ensures Handles(node, embed) ==> r.data.Some?
    ensures Handles(node, embed) && !Truthy(Attribute(AttributesOf(node), embed.idKey)) ==>
      r.data == Some(DataOf(node))
    ensures Handles(node, embed) && Truthy(Attribute(AttributesOf(node), embed.idKey)) ==>
      && r.data.value.hName == Some(embed.component)
      && r.data.value.hProperties == Some(PlayerProps(embed, AttributesOf(node)))
  {
    if !Handles(node, embed) then node
    else
      var data := DataOf(node);
      var attributes := AttributesOf(node);
      if !Truthy(Attribute(attributes, embed.idKey)) then node.(data := Some(data))
      else node.(data := Some(data.(hName := Some(embed.component), hProperties := Some(PlayerProps(embed, attributes)))))
  }

  /** Running the plugin over its own output changes nothing more. */
  lemma EmbedIdempotent(node: MdNode, embed: Embed)
    requires embed.idKey !in {"width", "height", "title"}
    ensures RewriteEmbed(RewriteEmbed(node, embed), embed) == RewriteEmbed(node, embed)
  {
  }

  /** `remarkBilibili` on one node. */
  function RewriteBilibili(node: MdNode): (r: MdNode)
    ensures !Handles(node, Bilibili) ==> r == node
    ensures Truthy(Attribute(AttributesOf(node), "bvid")) && Handles(node, Bilibili) ==>
      && r.data.Some? && r.data.value.hName == Some("Bilibili")
      && r.data.value.hProperties.Some?
      && r.data.value.hProperties.value.Keys == {"bvid", "width", "height", "title"}
      && r.data.value.hProperties.value["bvid"] == Attribute(AttributesOf(node), "bvid")
      && r.data.value.hProperties.value["title"] == Some(OrElse(Attribute(AttributesOf(node), "title"), "Bilibili Video"))
    ensures !Truthy(Attribute(AttributesOf(node), "bvid")) ==> r.data.None? || r.data == Some(DataOf(node))
  {
    RewriteEmbed(node, Bilibili)
  }

  /** `remarkYouTube` on one node. */
  function RewriteYouTube(node: MdNode): (r: MdNode)
    ensures !Handles(node, YouTube) ==> r == node
    ensures Truthy(Attribute(AttributesOf(node), "id")) && Handles(node, YouTube) ==>
      && r.data.Some? && r.data.value.hName == Some("YouTube")
      && r.data.value.hProperties.Some?
      && r.data.value.hProperties.value.Keys == {"id", "width", "height", "title"}
      && r.data.value.hProperties.value["id"] == Attribute(AttributesOf(node), "id")
      && r.data.value.hProperties.value["title"] == Some(OrElse(Attribute(AttributesOf(node), "title"), "YouTube Video"))
    ensures !Truthy(Attribute(AttributesOf(node), "id")) ==> r.data.None? || r.data == Some(DataOf(node))
  {
    RewriteEmbed(node, YouTube)
  }

  /** A width, height or title given explicitly and not empty reaches the player unchanged. */
  lemma GivenSizesKept(node: MdNode, embed: Embed, key: string)
    requires embed.idKey !in {"width", "height", "title"}
    requires Handles(node, embed) && Truthy(Attribute(AttributesOf(node), embed.idKey))
    requires key in {"width", "height", "title"} && Truthy(Attribute(AttributesOf(node), key))
    ensures RewriteEmbed(node, embed).data.value.hProperties.value[key] == Some(AttributesOf(node)[key])
  {
  }
}
