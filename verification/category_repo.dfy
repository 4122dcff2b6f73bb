/**
 * The category repository and the two category extension methods of the application client.
 * Storage is abstract: a `Storage` value bundles the lookups the code awaits, each a function
 * from a query to what the database answers, with a missing answer as `None`.
 */
module CategoryRepo {
  import opened Wrappers
  import opened CategoryTree
  import opened CategoryTreeFacts

  /** The filters the code hands to the storage. */
  datatype Where =
    | ById(id: string)          // `{ id }`
    | ByIdOrSlug(key: string)   // `{ OR: [{ id: key }, { slug: key }] }`
    | DepthOne                  // `{ depth: 1 }`, the roots of the stored forest

  /** The storage operations the repository relies on. */
  datatype Storage = Storage(
    findMany: Where -> seq<Category>,
    findFirst: Where -> Option<Category>,
    findDescendants: string -> Option<seq<Category>>,
    findAncestors: string -> Option<seq<Category>>)

  /** The filter of `queryCategoryDescendants`: a missing or empty `parentId` asks for the roots. */
  function CandidateFilter(parentId: Option<string>): (w: Where)
    ensures w == DepthOne <==> parentId.None? || parentId.value == ""
    ensures w != DepthOne ==> w == ByIdOrSlug(parentId.value)
  {
    match parentId
    case Some(key) => if key != "" then ByIdOrSlug(key) else DepthOne
    case None => DepthOne
  }

  /** The group of one candidate: the candidate, then its descendants (none when nil). */
  function Group(st: Storage, c: Category): (g: seq<Category>)
    ensures g != [] && g[0] == c
  {
    [c] + st.findDescendants(c.id).GetOr([])
  }

  /** Reference concatenation of the groups of `cands`, one group after another. */
  function Groups(st: Storage, cands: seq<Category>): seq<Category> {
    if cands == [] then [] else Group(st, cands[0]) + Groups(st, cands[1..])
  }

  /** The `reduce` of `queryCategoryDescendants`: appends the groups of `cands` to `acc`. */
  function AppendGroups(st: Storage, acc: seq<Category>, cands: seq<Category>): (r: seq<Category>)
    decreases |cands|
    ensures r == acc + Groups(st, cands)
  {
    if cands == [] then acc
    else
      assert acc + Group(st, cands[0]) + Groups(st, cands[1..]) == acc + Groups(st, cands);
      AppendGroups(st, acc + Group(st, cands[0]), cands[1..])
  }

  /**
   * `queryCategoryDescendants`: the candidates are the categories matching `parentId` by id or
   * slug, or the depth-1 categories without one; the result is each candidate followed by its
   * descendants, candidate after candidate.
   */
  function QueryDescendants(st: Storage, parentId: Option<string>): (r: seq<Category>)
    ensures r == Groups(st, st.findMany(CandidateFilter(parentId)))
  {
    AppendGroups(st, [], st.findMany(CandidateFilter(parentId)))
  }

  /** Each candidate's group occurs in the concatenation, at the end of the groups before it. */
  lemma {:induction false} GroupsLayout(st: Storage, cands: seq<Category>, k: nat)
    requires k < |cands|
    ensures |Groups(st, cands[..k])| < |Groups(st, cands)|
    ensures Groups(st, cands)[|Groups(st, cands[..k])|] == cands[k]
    ensures Groups(st, cands[..k]) + Group(st, cands[k]) <= Groups(st, cands)
    decreases k
  {
    if k == 0 {
      assert cands[..0] == [];
    } else {
      GroupsLayout(st, cands[1..], k - 1);
      assert cands[1..][..k - 1] == cands[..k][1..];
      assert cands[1..][k - 1] == cands[k];
      assert Groups(st, cands[..k]) == Group(st, cands[0]) + Groups(st, cands[1..][..k - 1]);
    }
  }

  /** Every element of the concatenation is a candidate or a stored descendant of one. */
  lemma {:induction false} GroupsMembers(st: Storage, cands: seq<Category>, x: Category)
    requires x in Groups(st, cands)
    ensures exists c :: c in cands && x in Group(st, c)
  {
    if x in Group(st, cands[0]) {
      assert cands[0] in cands;
    } else {
      GroupsMembers(st, cands[1..], x);
      var c :| c in cands[1..] && x in Group(st, c);
      assert c in cands;
    }
  }

  /** The concatenation is empty exactly when there are no candidates. */
  lemma GroupsEmpty(st: Storage, cands: seq<Category>)
    ensures Groups(st, cands) == [] <==> cands == []
  {
  }

  /** `queryCategoryTree`: the forest `buildTree` makes of the descendants query. */
  function QueryTree(st: Storage, parentId: Option<string>): (roots: seq<CategoryItem>)
    ensures roots == [] <==> st.findMany(CandidateFilter(parentId)) == []
  {
    GroupsEmpty(st, st.findMany(CandidateFilter(parentId)));
    BuildTree(QueryDescendants(st, parentId))
  }

  /** `queryCategoryList`: the depth-first flattening of that forest. */
  function QueryList(st: Storage, parentId: Option<string>): (flat: seq<Category>)
    ensures multiset(flat) <= multiset(QueryDescendants(st, parentId))
  {
    FlatWithinInput(QueryDescendants(st, parentId));
    GetFlatTree(QueryTree(st, parentId))
  }

  /** On a well-formed set of descendants the list holds exactly the queried categories. */
  lemma QueryListIsPermutation(st: Storage, parentId: Option<string>)
    requires WellFormed(QueryDescendants(st, parentId))
    ensures multiset(QueryList(st, parentId)) == multiset(QueryDescendants(st, parentId))
  {
    RoundTrip(QueryDescendants(st, parentId));
  }

  /**
   * `getAncestorChainWithSelf`: nothing when no category matches, otherwise the stored
   * ancestors (none when nil) followed by the matched category.
   */
  function AncestorChainWithSelf(st: Storage, where: Where): (chain: seq<Category>)
    ensures chain == [] <==> st.findFirst(where).None?
    ensures chain != [] ==>
      && chain[|chain| - 1] == st.findFirst(where).value
      && chain[..|chain| - 1] == st.findAncestors(st.findFirst(where).value.id).GetOr([])
  {
    match st.findFirst(where)
    case None => []
    case Some(current) =>
      var ancestors := st.findAncestors(current.id).GetOr([]);
      assert (ancestors + [current])[..|ancestors|] == ancestors;
      ancestors + [current]
  }

  /**
   * `getDescendantTreeWithSelf`: nothing when no category matches, otherwise the matched
   * category followed by its stored descendants (none when nil).
   */
  function DescendantTreeWithSelf(st: Storage, where: Where): (tree: seq<Category>)
    ensures tree == [] <==> st.findFirst(where).None?
    ensures tree != [] ==>
      && tree[0] == st.findFirst(where).value
      && tree[1..] == st.findDescendants(st.findFirst(where).value.id).GetOr([])
  {
    match st.findFirst(where)
    case None => []
    case Some(current) => [current] + st.findDescendants(current.id).GetOr([])
  }

  /**
   * `queryCategoryBreadcrumb`: nothing when no category has `latest` as id or slug, otherwise
   * the ancestor chain of the category found.
   */
  function QueryBreadcrumb(st: Storage, latest: string): (chain: seq<Category>)
    ensures st.findFirst(ByIdOrSlug(latest)).None? ==> chain == []
    ensures st.findFirst(ByIdOrSlug(latest)).Some? ==>
      chain == AncestorChainWithSelf(st, ById(st.findFirst(ByIdOrSlug(latest)).value.id))
  {
    match st.findFirst(ByIdOrSlug(latest))
    case None => []
    case Some(category) => AncestorChainWithSelf(st, ById(category.id))
  }

  /**
   * `queryCategoryBreadcrumb` against the client as it is built: the two extension methods are
   * registered under a `modal` key, which `$extends` does not read (it reads `model`), so once a
   * category is found the call to `getAncestorChainWithSelf` is not a function and the query
   * rejects. Only a key naming no category answers, with the empty chain.
   */
  function QueryBreadcrumbAsWritten(st: Storage, latest: string): (r: Result<seq<Category>>)
    ensures r.Err? <==> st.findFirst(ByIdOrSlug(latest)).Some?
    ensures r.Ok? ==> r.value == []
  {
    match st.findFirst(ByIdOrSlug(latest))
    case None => Ok([])
    case Some(_) => Err("prismaClient.category.getAncestorChainWithSelf is not a function")
  }

  /**
   * The client as built agrees with the query whose extension is registered under `model`
   * exactly when no category has `latest` as id or slug: every breadcrumb of a stored category
   * is lost.
   */
  lemma AsWrittenAgreesOnlyWhenMissing(st: Storage, latest: string)
    ensures QueryBreadcrumbAsWritten(st, latest) == Ok(QueryBreadcrumb(st, latest))
      <==> st.findFirst(ByIdOrSlug(latest)).None?
  {
  }

  /**
   * When the storage finds the category of the breadcrumb again by its id, the chain ends
   * with a category carrying that id, after the stored ancestors of that id.
   */
  lemma BreadcrumbEndsWithLatest(st: Storage, latest: string)
    requires st.findFirst(ByIdOrSlug(latest)).Some?
    requires var id := st.findFirst(ByIdOrSlug(latest)).value.id;
      st.findFirst(ById(id)).Some? && st.findFirst(ById(id)).value.id == id
    ensures var id := st.findFirst(ByIdOrSlug(latest)).value.id;
      var chain := QueryBreadcrumb(st, latest);
      && chain != []
      && chain[|chain| - 1].id == id
      && chain[..|chain| - 1] == st.findAncestors(id).GetOr([])
  {
  }

  /**
   * Asking for the descendants of a key that names exactly one category gives the same list
   * as the descendant tree of that category.
   */
  lemma DescendantsOfOneCandidate(st: Storage, key: string, c: Category)
    requires key != ""
    requires st.findMany(ByIdOrSlug(key)) == [c]
    requires st.findFirst(ById(c.id)) == Some(c)
    ensures QueryDescendants(st, Some(key)) == DescendantTreeWithSelf(st, ById(c.id))
  {
    assert Groups(st, [c]) == Group(st, c) + Groups(st, []);
  }
}
