/**
 * The breadcrumb helpers of `get-breadcrumb.ts`: the links of a chain of categories, and the
 * check that the category segments of a URL name a real ancestor chain. The breadcrumb
 * request is a parameter: a function from the last segment to the response it receives.
 */
module Breadcrumb {
  import opened Wrappers
  import opened CategoryTree

  /** `'breadcrumb'` leaves the last item without a link; `'post'` links every item. */
  datatype LinkMode = BreadcrumbMode | PostMode

  /** One breadcrumb entry; `link` is absent when the property is never set. */
  datatype Item = Item(id: string, text: string, link: Option<string>)

  /** The mode actually used: a missing argument means `'breadcrumb'`. */
  function ModeOf(mode: Option<LinkMode>): (m: LinkMode)
    ensures mode.None? ==> m == BreadcrumbMode
    ensures mode.Some? ==> m == mode.value
  {
    mode.GetOr(BreadcrumbMode)
  }

  /** The URL segment of a category: its slug, or its id when the slug is null or empty. */
  function Segment(c: Category): (seg: string)
    ensures c.slug.Some? && c.slug.value != "" ==> seg == c.slug.value
    ensures c.slug.None? || c.slug.value == "" ==> seg == c.id
  {
    if c.slug.Some? && c.slug.value != "" then c.slug.value else c.id
  }

  /** The URL path of a chain: "/" and the segment of each category, in order. */
  function PathOf(segments: seq<string>): string {
    if segments == [] then "" else PathOf(segments[..|segments| - 1]) + "/" + segments[|segments| - 1]
  }

  /** The segments of a chain of categories. */
  function SegmentsOf(categories: seq<Category>): (segs: seq<string>)
    ensures |segs| == |categories|
    ensures forall k :: 0 <= k < |categories| ==> segs[k] == Segment(categories[k])
  {
    if categories == [] then [] else [Segment(categories[0])] + SegmentsOf(categories[1..])
  }

  /** Whether the item at `index` of a chain of `count` receives a link. */
  predicate Linked(index: nat, count: nat, mode: LinkMode) {
    index + 1 < count || mode == PostMode
  }

  /** The item `getBreadcrumbsLinks` makes for the category at `index` of `categories`. */
  predicate ItemFits(item: Item, categories: seq<Category>, index: nat, mode: LinkMode)
    requires index < |categories|
  {
    && item.id == categories[index].id
    && item.text == categories[index].name
    && (item.link.Some? <==> Linked(index, |categories|, mode))
    && (item.link.Some? ==> item.link.value == PathOf(SegmentsOf(categories[..index + 1])))
  }

  /**
   * `getBreadcrumbsLinks`: one item per category, carrying its id and name; the linked items
   * carry the path of the chain up to and including their own category.
   */
  method BreadcrumbLinks(categories: seq<Category>, mode: Option<LinkMode>) returns (items: seq<Item>)
    ensures |items| == |categories|
    ensures forall k :: 0 <= k < |items| ==> ItemFits(items[k], categories, k, ModeOf(mode))
  {
    var m := ModeOf(mode);
    var link := "";
    items := [];
    var i := 0;
    while i < |categories|
      invariant 0 <= i <= |categories|
      invariant |items| == i
      invariant Linked(i, |categories|, m) ==> link == PathOf(SegmentsOf(categories[..i]))
      invariant forall k :: 0 <= k < i ==> ItemFits(items[k], categories, k, m)
    {
      var category := categories[i];
      var item := Item(category.id, category.name, None);
      if i < |categories| - 1 || m == PostMode {
        NextLink(categories, i, link);
        link := link + "/" + Segment(category);
        item := item.(link := Some(link));
      }
      AppendFits(items, item, categories, m);
      items := items + [item];
      i := i + 1;
    }
  }

  /** The path of a shorter prefix of segments is a prefix of the path of a longer one. */
  lemma {:induction false} PathPrefixes(segments: seq<string>, j: nat, k: nat)
    requires j <= k <= |segments|
    ensures PathOf(segments[..j]) <= PathOf(segments[..k])
    decreases k - j
  {
    if j < k {
      var shorter := segments[..k - 1];
      PathPrefixes(segments, j, k - 1);
      assert segments[..k][..k - 1] == shorter;
      assert PathOf(segments[..k]) == PathOf(shorter) + "/" + segments[k - 1];
    }
  }

  /** The link of each linked item extends the link of every linked item before it. */
  lemma LinksArePrefixes(categories: seq<Category>, j: nat, k: nat)
    requires j <= k < |categories|
    ensures PathOf(SegmentsOf(categories[..j + 1])) <= PathOf(SegmentsOf(categories[..k + 1]))
  {
    var segments := SegmentsOf(categories);
    SegmentsPrefix(categories, segments, j + 1);
    SegmentsPrefix(categories, segments, k + 1);
    PathPrefixes(segments, j + 1, k + 1);
  }

  /** The path of a prefix of the chain is the path of the prefix of its segments. */
  lemma SegmentsPrefix(categories: seq<Category>, segments: seq<string>, n: nat)
    requires segments == SegmentsOf(categories) && n <= |categories|
    ensures PathOf(SegmentsOf(categories[..n])) == PathOf(segments[..n])
  {
    var a, b := SegmentsOf(categories[..n]), segments[..n];
    forall m | 0 <= m < n
      ensures a[m] == b[m]
    {
      assert categories[..n][m] == categories[m];
    }
    assert a == b;
  }

  lemma AppendFits(items: seq<Item>, item: Item, categories: seq<Category>, m: LinkMode)
    requires |items| < |categories|
    requires forall k :: 0 <= k < |items| ==> ItemFits(items[k], categories, k, m)
    requires ItemFits(item, categories, |items|, m)
    ensures forall k :: 0 <= k < |items| + 1 ==> ItemFits((items + [item])[k], categories, k, m)
  {
    forall k | 0 <= k < |items| + 1
      ensures ItemFits((items + [item])[k], categories, k, m)
    {
      if k < |items| {
        assert (items + [item])[k] == items[k];
      }
    }
  }

  /** The link of the item at `i` extends the link before it by the item's own segment. */
  lemma NextLink(categories: seq<Category>, i: nat, link: string)
    requires i < |categories| && link == PathOf(SegmentsOf(categories[..i]))
    ensures link + "/" + Segment(categories[i]) == PathOf(SegmentsOf(categories[..i + 1]))
  {
    SegmentsSnoc(categories, i);
    PathSnoc(SegmentsOf(categories[..i]), Segment(categories[i]));
  }

  lemma PathSnoc(segments: seq<string>, s: string)
    ensures PathOf(segments + [s]) == PathOf(segments) + "/" + s
  {
    assert (segments + [s])[..|segments|] == segments;
  }

  lemma SegmentsSnoc(categories: seq<Category>, k: nat)
    requires k < |categories|
    ensures SegmentsOf(categories[..k + 1]) == SegmentsOf(categories[..k]) + [Segment(categories[k])]
  {
    var a, b := SegmentsOf(categories[..k + 1]), SegmentsOf(categories[..k]) + [Segment(categories[k])];
    assert |a| == |b|;
    forall m | 0 <= m < |a|
      ensures a[m] == b[m]
    {
      assert categories[..k + 1][m] == categories[m];
    }
  }

  /** The response to the breadcrumb request: its status and its decoded body. */
  datatype Response = Response(ok: bool, items: seq<Category>, message: string)

  /** What `getBreadcrumbsCategories` resolves to: the chain, or `false` for a forged URL. */
  datatype Verdict = Chain(items: seq<Category>) | Forged

  /** The fetched chain matches the segments: same length, and each position by id or slug. */
  predicate Matches(items: seq<Category>, segments: seq<string>) {
    && |items| == |segments|
    && forall k :: 0 <= k < |items| ==> items[k].id == segments[k] || items[k].slug == Some(segments[k])
  }

  /**
   * `getBreadcrumbsCategories`: no segments give an empty chain; otherwise the ancestor chain
   * of the last segment is requested, a failed request throws its message, and the chain is
   * returned when it matches the segments and rejected as forged when not.
   */
  function BreadcrumbsCategories(segments: Option<seq<string>>, request: string -> Response): (r: Result<Verdict>)
    ensures segments.None? || segments.value == [] ==> r == Ok(Chain([]))
    ensures segments.Some? && segments.value != [] ==>
      var response := request(segments.value[|segments.value| - 1]);
      && (!response.ok <==> r.Err?)
      && (r.Err? ==> r.message == response.message)
      && (r == Ok(Forged) <==> response.ok && !Matches(response.items, segments.value))
      && (r.Ok? && r.value.Chain? ==> r.value.items == response.items && Matches(r.value.items, segments.value))
  {
    match segments
    case Some(segs) =>
      if |segs| > 0 then
        var response := request(segs[|segs| - 1]);
        if !response.ok then Err(response.message)
        else if |response.items| != |segs| then Ok(Forged)
        else if !(forall k :: 0 <= k < |response.items| ==>
                    response.items[k].id == segs[k] || response.items[k].slug == Some(segs[k])) then Ok(Forged)
        else Ok(Chain(response.items))
      else Ok(Chain([]))
    case None => Ok(Chain([]))
  }

  /** Every chain matches its own segments, since a category's segment is its slug or its id. */
  lemma LinksAreAccepted(items: seq<Category>)
    ensures Matches(items, SegmentsOf(items))
  {
  }

  /**
   * A URL built from a chain by `getBreadcrumbsLinks` is never refused as forged: when the
   * request for its last segment answers with that chain, the chain comes back unchanged.
   */
  lemma BuiltUrlAccepted(items: seq<Category>, request: string -> Response)
    requires items != []
    requires var response := request(Segment(items[|items| - 1]));
      response.ok && response.items == items
    ensures BreadcrumbsCategories(Some(SegmentsOf(items)), request) == Ok(Chain(items))
  {
  }

  /**
   * Acceptance compares each segment with the id or the slug, while links use the slug first:
   * the URL `/a` of a category with id "a" and slug "x" is accepted, and its chain links `/x`.
   */
  lemma IdUrlRelinksBySlug()
    ensures var c := Category("a", "A", Some("x"), "0001", 1, 0);
      var request := (key: string) => Response(true, [c], "");
      && BreadcrumbsCategories(Some(["a"]), request) == Ok(Chain([c]))
      && PathOf(SegmentsOf([c])) == "/x"
  {
  }
}
