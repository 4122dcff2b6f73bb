# A verified model of the blog's data core

This project models the pure, sequential logic under a Next.js blog application, and proves properties of it in Dafny. The model covers:

- **The category hierarchy engine.** Categories are stored flat. Each one carries a materialised `path` of four characters per level, plus a `depth`.
  - `buildTree` turns such a list into a forest; `getFlatTree` flattens a forest back in depth-first order.
  - The category repository composes these with storage lookups: descendants, tree, list and breadcrumb.
  - Two client extension methods build "ancestors, then self" and "self, then descendants".
- **Breadcrumbs.** Cumulative links for a chain of categories, and the check that the category segments of a URL name a real ancestor chain.
- **Pagination arithmetic.** The in-memory `paginate` of the fake database, and the adapter that turns the database pagination extension's meta into the application's shape.
- **Validators and form helpers.**
  - The strict post-request schema: per-field length bounds, optional slug uniqueness, no unknown keys.
  - The `orderBy` query field.
  - The server's and the form's slug-uniqueness checks.
  - The initial form values for creating or updating a post.
  - `cleanEmptyFields`. Its two copies, in the blog components and in the tutorial components, are the same code and are modelled once.
- **The theme store.** A four-action reducer over `{mode, compact}` and the store's initial state.
- **Markdown and HTML tree rewrites.**
  - The reading-time estimate.
  - The admonition, Bilibili, YouTube and mark directive rewrites.
  - The code-window wrapper around `<pre>` blocks.

Storage, HTTP requests and the browser's colour-scheme preference are not part of the model. They appear as function parameters: a `Storage` of lookups, a `request` function, and a `system` mode. Every operation is a pure function or a method over immutable values. As a consequence, "the input is not mutated" holds by construction.

Files, one module each:

- `wrappers.dfy`: `Option`, `Result`.
- `js_values.dfy`: record values, `trim`, decimal text.
- `category_tree.dfy`, `category_tree_facts.dfy`: `buildTree`, `getFlatTree` and their proofs.
- `category_repo.dfy`: the repository and the client extension methods.
- `breadcrumb.dfy`, `pagination.dfy`, `pagination_adapter.dfy`.
- `blog_schema.dfy`, `slug_unique.dfy`, `form_values.dfy`.
- `theme.dfy`.
- `mdast.dfy`, `reading_time.dfy`, `admonition.dfy`, `embeds.dfy`, `mark.dfy`, `code_window.dfy`.

### How `buildTree` is modelled

`buildTree` iterates over a stably sorted copy of its input. It registers each node in a path index, and then either:

- pushes the node onto the roots, when its depth is that of the first sorted node; or
- appends it to the children of the node the index holds for its parent path; or
- drops it, when the index holds nothing for that path.

The model states this per index of the sorted sequence. The `Placement` of a node is `Root`, `ChildOf(j)` or `Dropped`, where `j` is the last node at or before it whose path is the parent path. A later node with the same path replaces an earlier one in the index, and the model keeps that. The forest is the unfolding of these links: the children of a node are the nodes placed under it, in the order they were pushed.

"Well-formed" means two things:

- every category has depth at least 1 and a path of four characters per level;
- every category deeper than some other category has its parent path present in the input.

## Model

| member | source | states |
|---|---|---|
| CategoryTree.ParentPath | src/database/repositories/category.repo.ts:28 | the parent path is the path without its last four characters, and a path shorter than one segment has the empty parent path |
| CategoryTree.SortByPathLength | src/database/repositories/category.repo.ts:13 | the sorted copy is a permutation of the input ordered by non-decreasing path length |
| CategoryTreeFacts.SortIsStable | src/database/repositories/category.repo.ts:13 | categories whose paths have the same length keep their input order in the sorted copy |
| CategoryTree.PlacementOf | src/database/repositories/category.repo.ts:18-35 | a node is a root exactly when its depth is the first sorted node's depth; otherwise it hangs under the latest node at or before it whose path is its parent path, and it is dropped exactly when no such node exists |
| CategoryTree.Matching | src/database/repositories/category.repo.ts:22-34 | the roots, and the children of a node, are exactly the nodes with that placement, listed in the order they were pushed |
| CategoryTree.BuildTree | src/database/repositories/category.repo.ts:9-38 | the forest is empty exactly when the input is, and has no more roots than the input has categories |
| CategoryTreeFacts.RootsAreFirstDepth | src/database/repositories/category.repo.ts:13-25 | the roots are exactly the sorted categories at the first sorted category's depth, in sorted order |
| CategoryTreeFacts.SubtreeIsDescendants | src/database/repositories/category.repo.ts:28-34 | the subtree built under a node lists that node first, then exactly the nodes whose chain of parents reaches it |
| CategoryTreeFacts.DroppedSubtreeVanishes | src/database/repositories/category.repo.ts:21-34 | a dropped node and every node hanging below it are missing from the flattened forest |
| CategoryTree.GetFlatTree | src/database/repositories/category.repo.ts:45-54 | the accumulator-based flattening equals the reference pre-order: each node, then its flattened children, then its following siblings |
| CategoryTree.FlattenInto | src/database/repositories/category.repo.ts:46-53 | each step of the reduce appends the pre-order of the remaining roots to the accumulator |
| CategoryTreeFacts.RoundTrip | src/database/repositories/category.repo.ts:9-54 | on a well-formed input, flattening the built forest gives back exactly the input's categories, each as often as it occurs |
| CategoryTreeFacts.FlatWithinInput | src/database/repositories/category.repo.ts:9-54 | on any input, the flattened forest never holds a category more often than the input does |
| CategoryRepo.CandidateFilter | src/database/repositories/category.repo.ts:66 | a missing or empty parent id selects the depth-1 categories; any other selects by id or slug |
| CategoryRepo.QueryDescendants | src/database/repositories/category.repo.ts:63-86 | the result equals the reference concatenation of one group per candidate, in candidate order |
| CategoryRepo.GroupsLayout | src/database/repositories/category.repo.ts:78-84 | each candidate's group starts right after the groups of the candidates before it, and starts with the candidate itself |
| CategoryRepo.GroupsMembers | src/database/repositories/category.repo.ts:74-78 | every element of the result is a candidate or a stored descendant of one |
| CategoryRepo.DescendantsOfOneCandidate | src/database/repositories/category.repo.ts:74-78 | for a key naming exactly one category, the descendants query equals that category's descendant tree with itself |
| CategoryRepo.QueryTree | src/database/repositories/category.repo.ts:93-96 | the tree is empty exactly when no candidate is found |
| CategoryRepo.QueryList | src/database/repositories/category.repo.ts:107-110 | the list holds nothing beyond the queried descendants |
| CategoryRepo.QueryListIsPermutation | src/database/repositories/category.repo.ts:107-110 | on well-formed descendants, the list is a permutation of them |
| CategoryRepo.QueryBreadcrumb | src/database/repositories/category.repo.ts:117-131 | no category matching the id or slug gives an empty chain; otherwise the result is the ancestor chain of the matched category's id |
| CategoryRepo.QueryBreadcrumbAsWritten | src/database/client/app-client.ts:44-47 | with the extension registered under `modal`, the breadcrumb query rejects exactly when a category matches the key, and otherwise answers the empty chain |
| CategoryRepo.AsWrittenAgreesOnlyWhenMissing | src/database/repositories/category.repo.ts:117-131 | the query as built agrees with the corrected one exactly when no category matches the key |
| CategoryRepo.BreadcrumbEndsWithLatest | src/database/repositories/category.repo.ts:117-131 | the breadcrumb chain ends with the matched category, after that category's stored ancestors |
| CategoryRepo.AncestorChainWithSelf | src/database/client/app-client.ts:47-58 | empty exactly when nothing matches; otherwise it is the stored ancestors, where nil counts as empty, followed by the match |
| CategoryRepo.DescendantTreeWithSelf | src/database/client/app-client.ts:59-70 | empty exactly when nothing matches; otherwise it is the match followed by its stored descendants, where nil counts as empty |
| Breadcrumb.ModeOf | src/app/utils/get-breadcrumb.ts:14 | a missing mode means 'breadcrumb' |
| Breadcrumb.Segment | src/app/utils/get-breadcrumb.ts:23 | a category's URL segment is its slug, or its id when the slug is null or empty |
| Breadcrumb.BreadcrumbLinks | src/app/utils/get-breadcrumb.ts:12-28 | one item per category, in order, with its id and name. An item is linked exactly when it is not the last or the mode is 'post', and its link is "/"-joined segments of the chain up to it |
| Breadcrumb.PathPrefixes | src/app/utils/get-breadcrumb.ts:16-25 | the path built from the first j segments is a prefix of the path built from the first k segments whenever j <= k |
| Breadcrumb.LinksArePrefixes | src/app/utils/get-breadcrumb.ts:16-25 | each link is a prefix of every later link |
| Breadcrumb.BreadcrumbsCategories | src/app/utils/get-breadcrumb.ts:38-68 | no segments give an empty chain and a failed request throws its message. The chain is refused as forged exactly when its length or some position's id and slug disagree with the segments, and is otherwise returned unchanged |
| Breadcrumb.LinksAreAccepted | src/app/utils/get-breadcrumb.ts:23-62 | every chain matches the segments its own links are built from, since each segment is the category's slug or its id |
| Breadcrumb.BuiltUrlAccepted | src/app/utils/get-breadcrumb.ts:38-68 | a URL built from a chain is never refused as forged: when the request for its last segment answers with that chain, the check returns the chain |
| Breadcrumb.IdUrlRelinksBySlug | src/app/utils/get-breadcrumb.ts:23-62 | a URL naming a category by id is accepted, yet the links of the chain name it by slug: `/a` for id "a" and slug "x" links `/x` |
| Pagination.AtLeastOne | src/app/fake-database/pagination.ts:10-12 | a missing page parameter, or one below 1, becomes 1, and any other is kept |
| Pagination.Slice | src/app/fake-database/pagination.ts:18 | slicing clips both bounds to the length and is empty when they cross |
| Pagination.PageCount | src/app/fake-database/pagination.ts:21-24 | the page count is the least number of pages of `limit` items that hold all the items |
| Pagination.Paginate | src/app/fake-database/pagination.ts:5-42 | the meta echoes limit, page and item count, with the page count as above. The data is the slice from (page-1)·limit of length limit. The page size is the remainder, or the limit, on the last page and the limit elsewhere |
| Pagination.PageBounds | src/app/fake-database/pagination.ts:15-18 | a page holds at most `limit` items, namely the input's items from the start of the page on |
| Pagination.AllPages | src/app/fake-database/pagination.ts:15-24 | concatenating pages 1 to the last page reproduces the input exactly |
| Pagination.PastTheEnd | src/app/fake-database/pagination.ts:15-18 | a page beyond the last holds no data |
| Pagination.PageSizeAsWrittenPastTheEnd | src/app/fake-database/pagination.ts:27-30 | an empty list asked for page 1 of 10 reports a page size of 10 |
| Pagination.PaginateCorrected | src/app/fake-database/pagination.ts:5-42 | the corrected page size is the number of items on the page, and is 0 past the last page. The data and every other meta field (items per page, current page, page count, item count) are those of `paginate` |
| Pagination.PageSizeAgreesUpToLastPage | src/app/fake-database/pagination.ts:27-30 | up to the last page, the corrected meta equals the meta as written |
| PaginationAdapter.ItemsPerPage | src/database/adapters/pagination.adapter.ts:14 | items per page is the floor of total count over page count, and 0 without pages |
| PaginationAdapter.PageSizeAsWritten | src/database/adapters/pagination.adapter.ts:18-23 | on the last page with a non-zero remainder of total by page count, the page size is that remainder; otherwise it is items per page |
| PaginationAdapter.MetaWith | src/database/adapters/pagination.adapter.ts:24-34 | the meta has the five computed keys plus the extension's other keys. Those other keys override computed keys of the same name; the three counters are not copied |
| PaginationAdapter.Adapt | src/database/adapters/pagination.adapter.ts:10-35 | the data is the result unchanged, and the meta is as described for MetaWith, with the page size as written |
| PaginationAdapter.PageSizeAsWrittenMiscounts | src/database/adapters/pagination.adapter.ts:18-23 | the last page of 25 items in pages of 10 holds 5 items but reports a page size of 1 |
| PaginationAdapter.AdaptCorrected | src/database/adapters/pagination.adapter.ts:18-23 | the corrected page size is the number of items fetched; every other key is as in the adapter as written |
| PaginationAdapter.CorrectedPageSizeCountsItems | src/database/adapters/pagination.adapter.ts:18-23 | the corrected page size is `limit` before the last page and the number of items left on the last page |
| SlugUnique.IsSlugUnique | src/server/modules/blog/blog.service.ts:58-63 | a nil or empty slug is unique; otherwise it is unique exactly when no post holds it or the post holding it is the one being edited |
| SlugUnique.TakenSlugRefusedOnCreate | src/server/modules/blog/blog.service.ts:61-62 | when creating, a slug any post already holds is not unique |
| SlugUnique.SlugUniqueValidator | src/app/_components/blog-components/submit-form/validation.ts:14-31 | a nil or empty slug passes without a request and a failed request throws its message. Otherwise it passes exactly when no post is found or the post found has the edited id |
| SlugUnique.ValidatorAgreesWithService | src/app/_components/blog-components/submit-form/validation.ts:14-31 | when the server answers with the post the service would find, the form's validator and the service's check agree on every slug |
| BlogSchema.ValidatePost | src/server/modules/blog/blog.schema.ts:10-71 | a field is reported exactly when it breaks its rule, or for the slug when the validator refuses it; a key is reported exactly when it is not one of the six fields |
| BlogSchema.FieldRules | src/server/modules/blog/blog.schema.ts:14-67 | the rules are: title 1 to 200 characters, content at least 1, summary at most 300, keywords at most 200, description at most 300 and slug at most 250. The last four are optional |
| BlogSchema.AcceptsIff | src/server/modules/blog/blog.schema.ts:30-70 | a body is accepted exactly when every field meets its rule, the validator does not refuse the slug, and no other key is present |
| BlogSchema.NoValidatorNoRefinement | src/server/modules/blog/blog.schema.ts:21-27 | without a validator the slug is judged by its length alone |
| BlogSchema.StrictKeys | src/server/modules/blog/blog.schema.ts:70 | any key besides the six fields makes the body fail |
| BlogSchema.MinimalPostAccepted | src/server/modules/blog/blog.schema.ts:30-70 | a one-character title and content, with nothing else, are accepted |
| BlogSchema.TakenSlugRefused | src/server/modules/blog/blog.schema.ts:22-27 | with the service's uniqueness check as refinement, a slug another post holds is refused, and one nobody else holds passes the refinement |
| BlogSchema.ParseOrderBy | src/server/modules/blog/blog.schema.ts:127 | the field is accepted exactly when absent, 'asc' or 'desc', and maps to the matching order |
| FormValues.DefaultBlogFormValues | src/app/_components/blog-components/submit-form/utils.ts:6-30 | the values have exactly the listed fields. When creating every field holds ""; when updating a field holds the post's value, or undefined when the post lacks it |
| FormValues.CleanEmptyFields | src/app/_components/blog-components/submit-form/hooks.ts:35-41 | an entry is kept exactly when its value is not a string that trims to nothing, and kept entries are unchanged |
| FormValues.BlankIsWhiteSpace | src/app/_components/blog-components/submit-form/hooks.ts:38 | a value is dropped exactly when it is a string made only of white space |
| FormValues.CleanKeepsKeyed | src/app/_components/blog-components/submit-form/hooks.ts:36-40 | cleaning the entries of an object names each key at most once again |
| FormValues.CleanDistributes | src/app/_toturial-components/home/submit-form/hooks.ts:55-60 | cleaning joined entries is cleaning each part in turn, so the kept entries stay in their input order |
| FormValues.CleanIdempotent | src/app/_toturial-components/home/submit-form/hooks.ts:52-61 | cleaning twice equals cleaning once |
| Theme.Reduce | src/app/_components/theme/core/store.ts:20-52 | the four actions, each with its effect: <ul><li>a mode change from 'system' takes the system's scheme and from elsewhere the payload;</li><li>a toggle gives a mode other than 'system' that differs from the old one;</li><li>the compact actions set or flip the flag;</li><li>mode actions keep compact and compact actions keep the mode;</li><li>an unknown action changes nothing.</li></ul> |
| Theme.ToggleCompactTwice | src/app/_components/theme/core/store.ts:45-47 | toggling compact twice restores the state |
| Theme.ToggleModeTwice | src/app/_components/theme/core/store.ts:33-40 | toggling the mode twice restores a light or dark state, and turns 'system' into dark and then light |
| Theme.SecondChangeTakesPayload | src/app/_components/theme/core/store.ts:25-32 | when the first of two mode changes leaves the state outside 'system', the second one takes its payload |
| Theme.ModeActionsKeepCompact | src/app/_components/theme/core/store.ts:25-40 | any sequence of mode actions leaves compact as it was |
| Theme.CompactActionsKeepMode | src/app/_components/theme/core/store.ts:41-48 | any sequence of compact actions leaves the mode as it was |
| Theme.SystemOnlyByRequest | src/app/_components/theme/core/store.ts:20-52 | after leaving 'system', no sequence of actions without an explicit change to 'system' returns to it |
| Theme.CreateThemeState | src/app/_components/theme/core/store.ts:60-63 | the initial state is 'system' and not compact, except where an option overrides it |
| ReadingTime.WordsPerMinute | src/app/_components/mdx/mdx-client/custom-plugins/remark-reading-time.ts:23 | a missing or zero speed means 400, and any other is kept |
| ReadingTime.CountByVisit | src/app/_components/mdx/mdx-client/custom-plugins/remark-reading-time.ts:29-36 | the traversal's total equals the recursive count of the characters of all text, code and inline-code nodes |
| ReadingTime.Minutes | src/app/_components/mdx/mdx-client/custom-plugins/remark-reading-time.ts:39 | the minutes are at least 1, and are the least whole number of minutes the text needs at the given speed |
| ReadingTime.MinutesMonotone | src/app/_components/mdx/mdx-client/custom-plugins/remark-reading-time.ts:39 | more text never gives fewer minutes |
| ReadingTime.Estimate | src/app/_components/mdx/mdx-client/custom-plugins/remark-reading-time.ts:41-48 | the words are the character count, the minutes are computed from them, and the text is the minutes followed by " 分钟" |
| ReadingTime.TextReadsBack | src/app/_components/mdx/mdx-client/custom-plugins/remark-reading-time.ts:42 | the text is decimal digits then the unit, and the digits read back as the minutes |
| Admonition.TypeMappingAsWritten | src/app/_components/mdx/mdx-client/custom-plugins/remark-admonition.ts:12-18 | the lookup succeeds exactly for the five types and the names an object literal inherits |
| Admonition.TypeMapping | src/app/_components/mdx/mdx-client/custom-plugins/remark-admonition.ts:37-39 | the corrected lookup succeeds exactly for note, tip, info, warning and danger, each mapping to itself |
| Admonition.ExtractTitle | src/app/_components/mdx/mdx-client/custom-plugins/remark-admonition.ts:61-68 | a leading paragraph whose first child is text gives that text as title and is removed; otherwise the children are kept |
| Admonition.AdmonitionProps | src/app/_components/mdx/mdx-client/custom-plugins/remark-admonition.ts:79-83 | the props name exactly the type, the title and every attribute; each attribute wins over the type and the title, and an empty or missing extracted title leaves the title to the attribute or undefined |
| Admonition.RewriteWith | src/app/_components/mdx/mdx-client/custom-plugins/remark-admonition.ts:28-85 | non-directives and unmapped names are left alone, and a mapped text directive fails the file. A mapped block directive becomes an 'Admonition' with those props and loses its title paragraph |
| Admonition.Rewrite | src/app/_components/mdx/mdx-client/custom-plugins/remark-admonition.ts:28-85 | with the corrected lookup, only the five types are rewritten; an inline one fails with its message |
| Admonition.TitleParagraphRestores | src/app/_components/mdx/mdx-client/custom-plugins/remark-admonition.ts:61-68 | a rewritten block loses at most its leading title paragraph, and putting it back restores the children |
| Admonition.AgreesOffThePrototype | src/app/_components/mdx/mdx-client/custom-plugins/remark-admonition.ts:37-39 | on names that are not inherited object members, the plugin as written and the corrected one agree |
| Admonition.ConstructorBecomesAdmonition | src/app/_components/mdx/mdx-client/custom-plugins/remark-admonition.ts:37-39 | as written, a `:::constructor` block is rendered as an admonition |
| Embeds.PlayerProps | src/app/_components/mdx/mdx-client/custom-plugins/remark-bilibili.ts:27-32 | the props have exactly the id key, width, height and title. The id is passed through; the others default to '100%', '400' and the video title when missing or empty |
| Embeds.RewriteEmbed | src/app/_components/mdx/mdx-client/custom-plugins/remark-bilibili.ts:13-34 | only a leaf directive with the plugin's name is touched. It always gets a data record, which names the component only when the id attribute is present and not empty; nothing else changes |
| Embeds.EmbedIdempotent | src/app/_components/mdx/mdx-client/custom-plugins/remark-bilibili.ts:16-32 | running the rewrite on its own output changes nothing more |
| Embeds.RewriteBilibili | src/app/_components/mdx/mdx-client/custom-plugins/remark-bilibili.ts:15-32 | a `::bilibili` with a bvid becomes a 'Bilibili' player with props bvid, width, height and title |
| Embeds.RewriteYouTube | src/app/_components/mdx/mdx-client/custom-plugins/remark-youtube.ts:15-32 | a `::youtube` with an id becomes a 'YouTube' player with props id, width, height and title |
| Embeds.GivenSizesKept | src/app/_components/mdx/mdx-client/custom-plugins/remark-youtube.ts:29-31 | a width, height or title given and not empty reaches the player unchanged |
| Mark.RewriteMark | src/app/_components/mdx/mdx-client/custom-plugins/remark-mark.ts:16-25 | only a text directive named 'mark' is touched. It becomes a 'Mark' whose props are exactly color and bg, taken from the attributes and possibly undefined |
| Mark.MarkIdempotent | src/app/_components/mdx/mdx-client/custom-plugins/remark-mark.ts:16-25 | running the rewrite on its own output changes nothing more |
| Mark.OtherAttributesDropped | src/app/_components/mdx/mdx-client/custom-plugins/remark-mark.ts:22-25 | attributes other than color and bg never reach the component |
| CodeWindow.LanguageOfClasses | src/app/_components/mdx/mdx-client/custom-plugins/rehype-code-window.ts:36-42 | the language is the rest of the first class that starts with "language-", and empty when no class does |
| CodeWindow.FirstCode | src/app/_components/mdx/mdx-client/custom-plugins/rehype-code-window.ts:46-48 | the code child found is the first child that is a `code` element, and none is found exactly when there is none |
| CodeWindow.Language | src/app/_components/mdx/mdx-client/custom-plugins/rehype-code-window.ts:45-56 | the `pre`'s own language wins, else that of its first `code` child, else none |
| CodeWindow.PreLanguageWins | src/app/_components/mdx/mdx-client/custom-plugins/rehype-code-window.ts:45 | a `pre` naming its language ignores any `code` child |
| CodeWindow.PrefixedClassLabel | src/app/_components/mdx/mdx-client/custom-plugins/rehype-code-window.ts:36-42 | a `pre` whose first class is "language-" plus a name has that name as its language, whatever its other classes |
| CodeWindow.Label | src/app/_components/mdx/mdx-client/custom-plugins/rehype-code-window.ts:59-61 | the label is "Code" without a language; otherwise it is the language with its first character upper-cased and the rest unchanged |
| CodeWindow.TypescriptLabel | src/app/_components/mdx/mdx-client/custom-plugins/rehype-code-window.ts:59-61 | a `pre` of class "language-typescript" is labelled "Typescript" |
| CodeWindow.UnwrapWrapper | src/app/_components/mdx/mdx-client/custom-plugins/rehype-code-window.ts:84-140 | the window structure gives back the original `pre` and the label it was built with |
| CodeWindow.Unwrap | src/app/_components/mdx/mdx-client/custom-plugins/rehype-code-window.ts:84-140 | a node is unwrapped exactly when it is a code window: the `code-window` div holding the header (the three window controls and the `code-lang` label) and the `code-content` area. The parts unwrapped rebuild the node |
| CodeWindow.VisitElement | src/app/_components/mdx/mdx-client/custom-plugins/rehype-code-window.ts:26-143 | without a parent or index nothing happens. Otherwise a `pre` is replaced in place by exactly the window structure around it: class `code-window`, the three controls, its label and the `pre` itself. Every other sibling is unchanged |

## Left out

- Storage, HTTP and the browser. Prisma queries are abstract lookups, and the optional `select` parameter of the client extension methods is not modelled. The breadcrumb and by-slug requests are functions. `getSystemMode` is a parameter of the reducer.
- Asynchrony. `Promise.all` in the descendants query is modelled as sequential, which keeps candidate order.
- Where the extension methods live. The client registers them under a `modal` key of `$extends` (src/database/client/app-client.ts:45); see "## Findings". The repository queries other than the breadcrumb are modelled as if the key were `model`.
- The `visit` traversal of the Markdown and HTML plugins. Each rewrite is modelled on one node; the reading-time count covers the whole tree.
- Warnings and errors:
  - `console.warn` in the video plugins is not modelled.
  - `file.fail` in the admonition plugin is an `Err` result.
  - A thrown error in the breadcrumb and validator code is an `Err` result carrying its message.
- The zod error messages and the order in which zod reports issues. Issues are a set.
- Object key order, except in `cleanEmptyFields`, where entries are a sequence.
- BlogSchema.ValidatePost: a validator that throws or rejects is not modelled. The refinement is a total predicate.
- SlugUnique.IsSlugUnique: the outer function is `async` and returns a promise of the checker; only the checker is modelled.
- FormValues.DefaultBlogFormValues: `field in params.blog` also finds inherited members of the post object. The model only sees the post's own fields.
- Lengths:
  - String lengths count characters, where JavaScript counts UTF-16 code units.
  - This affects ValidatePost's bounds and ReadingTime.Estimate's count.
  - It also affects `path.length` in CategoryTree.SortByPathLength and `slice(0, -4)` in CategoryTree.ParentPath. Stored paths are ASCII digits, where the two counts agree.
- Pagination.Paginate: limit and page are integers. The list page passes `Number(page)` and `Number(limit)` of the query string (src/app/_components/blog-components/blog-list-page/blog-list-page.tsx:27-32); fractional values, `NaN`, and the floating-point `%` and `/` are not modelled.
- ReadingTime.WordsPerMinute: the speed is an integer. A fractional speed, and the floating-point division, are not modelled.
- CodeWindow.Label: upper-cases only the ASCII letters a-z. `toUpperCase` also maps other letters and can lengthen a string.
- Admonition.TypeMappingAsWritten: an inherited member found by the lookup is modelled by its name, since the model has no functions as values.
- Admonition.TypeMappingAsWritten: `toLocaleString` and the other inherited names are listed explicitly. A prototype changed at run time is not modelled.
- CodeWindow.VisitElement: HTML properties other than `className` are not modelled.
- Theme.CreateThemeState: an option explicitly set to `undefined` overrides the default in JavaScript. The model treats it as missing.
- PaginationAdapter.Adapt: the extension's counters are non-negative integers; other meta values are opaque.
- Counts in the category model (`numchild`) are carried but never read by the modelled code.

## Findings

| source | as written | input that shows it | evidently intended | confidence | as-written member | corrected member |
|---|---|---|---|---|---|---|
| src/database/adapters/pagination.adapter.ts:18-23 | the last page's size is the total count modulo the page count | 25 items in pages of 10: page 3 holds 5 items, reported page size 1 | the number of items on the current page, as the comment on the `pageSize` key (line 28) says | high, not executed | PaginationAdapter.PageSizeAsWrittenMiscounts | PaginationAdapter.AdaptCorrected |
| src/app/fake-database/pagination.ts:27-30 | a page that is not the last reports `limit` items even when it lies past the end | an empty list, page 1 of 10: no data, page size 10 | the page size is the number of items on the page | medium, not executed | Pagination.PageSizeAsWrittenPastTheEnd | Pagination.PaginateCorrected |
| src/app/_components/mdx/mdx-client/custom-plugins/remark-admonition.ts:37-39 | `TYPE_MAPPING[name]` also finds the members of `Object.prototype` | a `:::constructor` block becomes an admonition of an inherited type | only the five listed types are admonitions, as the comment at line 37 calls the table a whitelist | high, not executed | Admonition.ConstructorBecomesAdmonition | Admonition.Rewrite |
| src/database/client/app-client.ts:44-45 | the extension methods are registered under `modal`, a key `$extends` does not read; it reads `model` | any key naming a stored category: `prismaClient.category.getAncestorChainWithSelf` at src/database/repositories/category.repo.ts:127 is not a function, and the query rejects | the key `model`, so the repository reaches the methods defined at lines 47-70 | medium, not executed | CategoryRepo.QueryBreadcrumbAsWritten | CategoryRepo.QueryBreadcrumb |
