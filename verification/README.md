# Pagination bar of the food-ordering admin dashboard

The admin dashboard lists accounts, stores and system categories page by page.
Below each list sits a pagination bar. It has a Prev button, a row of page
buttons with `...` separators, and a Next button. This project models the logic
behind that bar. Its core is `getPaginationRange(currentPage, totalPages, maxButtons)`,
which the `Pagination` component always calls with `MAX_PAGE_BUTTONS = 7`.

- With at most one page the bar is empty.
- When every page fits in the budget, the bar lists them all.
- Otherwise the bar shows page 1, the window `max(2, cur-1) .. min(total-1, cur+1)`
  and the last page. A `...` goes after page 1 when the window starts beyond 2,
  and another goes before the last page when the window ends before `total-1`.
- Prev moves to `max(1, cur-1)` and is disabled on page 1. Next moves to
  `min(total, cur+1)` and is disabled on the last page.

The model is split into these modules:

- `Entries`: the entry datatype `Entry = Page(n) | Ellipsis`, the run of pages the
  window loop pushes (`Range`), and the structural predicates a well-formed bar
  satisfies.
- `Clamp`: `Math.max` and `Math.min` on integers.
- `Windowing`: `PaginationRange` as a pure function. `ComputePaginationRange`
  is the push-by-push construction of the TypeScript `getPaginationRange`, and
  it is proved equal to the pure function. This module also holds the properties of the bar.
- `Reference`: an independent description of the bar, proved equal to the
  algorithm. It decides page by page whether a page gets a button, then walks
  the pages in order and emits one `...` per run of omitted pages.
- `Navigation`: Prev and Next, their targets and their disabled conditions.
- `Cases`: concrete bars for the budget of seven.

JavaScript numbers are modelled as unbounded integers. Page counts are whole
numbers in the program (`Math.ceil` of a length over a page size).

Three behaviours of the code are worth knowing:

- With `maxButtons + 1` pages the bar can still show two `...` markers:
  8 pages with page 4 current give `[1, ..., 3, 4, 5, ..., 8]`
  (`Cases.OnePageOverBudget`).
- The comment on `MAX_PAGE_BUTTONS` (components/ui/pagination.tsx:5) says the
  maximum counts the first and last buttons and the `...` markers. The code
  uses `maxButtons` only to choose between listing every page and the windowed
  layout, and the windowed layout has up to 7 entries whatever the budget. So
  the limit holds only for a budget of 7 or more: with a budget of 5, six pages
  and page 3 current, the bar has six entries (`Cases.SmallerBudgetExceeded`).
  The component always passes 7, so its bar never exceeds 7 entries
  (`Windowing.AtMostMaxPageButtons`).
- Every `...` stands for at least one omitted page, except in one corner: two
  pages in the windowed layout (reachable only with a budget below 2) and a
  current page far outside them. There the code draws `[1, ..., 2]`
  (`Windowing.SpuriousEllipsisForTwoPages`, `Reference.DivergesForTwoPages`).
  The component never reaches this corner.

## Model

| member | source | states |
|---|---|---|
| Entries.Range | components/ui/pagination.tsx:35-37 | the window loop pushes one entry per page from start to end: entry i is page start+i, and there are end-start+1 entries (none when start > end) |
| Windowing.PaginationRange | components/ui/pagination.tsx:9-50 | empty for at most one page; exactly the pages 1..total, in order, when total fits in maxButtons; otherwise starts with page 1 and ends with page total |
| Windowing.PushPages | components/ui/pagination.tsx:35-37 | pushing pages lo..hi one at a time yields hi-lo+1 entries (none if lo > hi), entry i being page lo+i; the all-pages branch at line 18 is the case lo = 1 |
| Windowing.PushLastPage | components/ui/pagination.tsx:44-47 | after the last-page step the bar ends with page total; it is left unchanged iff it already ended with page total, and otherwise page total is appended as one new entry, so the last page is never duplicated |
| Windowing.ComputePaginationRange | components/ui/pagination.tsx:9-50 | the push-by-push construction (page 1, leading '...', window loop, trailing '...', guarded last page) builds exactly the bar PaginationRange describes |
| Windowing.LastPageGuardAlwaysFires | components/ui/pagination.tsx:44-47 | in the windowed layout the entry before the last-page step is never page total, because the window ends at total-1, so the last page is always appended |
| Windowing.WindowedLayout | components/ui/pagination.tsx:21-49 | position by position, the windowed bar is page 1, an optional '...', the window pages in order, an optional '...', and the last page |
| Windowing.EmptyIffSinglePage | components/ui/pagination.tsx:73-75 | the range is empty iff there is at most one page, which is exactly when the component renders nothing |
| Windowing.PagesIncreasingAndBounded | components/ui/pagination.tsx:21-49 | for every input, the page numbers strictly increase and all lie in [1, total] |
| Windowing.FirstAndLastAppearOnce | components/ui/pagination.tsx:26-47 | in the windowed layout, page 1 and page total each appear exactly once |
| Windowing.NoAdjacentEllipsesInRange | components/ui/pagination.tsx:29-42 | for every input, a '...' is always followed by a page button, so no two '...' are adjacent |
| Windowing.WindowedAtMostSeven | components/ui/pagination.tsx:21-49 | the windowed layout has at most 7 entries, whatever maxButtons is |
| Windowing.AtMostMaxPageButtons | components/ui/pagination.tsx:5-19 | with the budget MAX_PAGE_BUTTONS = 7, the bar never has more than 7 entries, counting the first and last pages and the '...' markers |
| Windowing.EllipsisIffOmitted | components/ui/pagination.tsx:29-42 | for a current page in [1, total], the leading '...' is present iff the window starts beyond 2, iff page 2 is missing; the trailing '...' is present iff the window ends before total-1, iff page total-1 is missing |
| Windowing.EmptyWindowBar | components/ui/pagination.tsx:23-47 | when the window is empty the bar is [1, ..., total] if pages lie between them and [1, 2] otherwise (outside the two-page corner) |
| Windowing.EllipsesMarkGapsInRange | components/ui/pagination.tsx:29-42 | each '...' sits between two pages whose numbers are not consecutive, and neighbouring page buttons are consecutive; holds for every input outside the two-page corner |
| Windowing.SpuriousEllipsisForTwoPages | components/ui/pagination.tsx:23-42 | with two pages, budget 1 and current page 4 or -1, the bar is [1, ..., 2]: a '...' with nothing omitted |
| Windowing.CurrentPageAppearsOnce | components/ui/pagination.tsx:110-126 | a current page in [1, total] appears in the bar exactly once, so exactly one button is drawn highlighted |
| Reference.MatchesReference | components/ui/pagination.tsx:9-50 | outside the two-page corner, the algorithm's bar equals the independent description: shown pages in order, with one '...' per run of omitted pages |
| Reference.ShownPagesExactly | components/ui/pagination.tsx:21-37 | a page gets a button iff it is page 1, page total, or within one of the current page (any page, when all fit) |
| Reference.DivergesForTwoPages | components/ui/pagination.tsx:29-42 | in the two-page corner the independent description gives [1, 2] and the algorithm differs from it |
| Navigation.PrevPage | components/ui/pagination.tsx:90-91 | Prev never goes below page 1 and, for a current page of at least 1, never forward; and clicking it leaves the page unchanged iff it is disabled (current page 1) |
| Navigation.NextPage | components/ui/pagination.tsx:138-139 | Next never goes beyond total; for a current page up to total it never goes backward, and from a stale page past the end it goes to page total; and clicking it leaves the page unchanged iff it is disabled (current page total) |
| Navigation.NavigationStaysInRange | components/ui/pagination.tsx:87-143 | from a page in [1, total], Prev and Next stay in [1, total] and move one step, or none when disabled |
| Navigation.PrevNextInverse | components/ui/pagination.tsx:87-143 | Next undoes an enabled Prev, and Prev undoes an enabled Next |
| Cases.TenPages | components/ui/pagination.tsx:21-49 | ten pages with budget 7: page 1 gives [1, 2, ..., 10], page 5 gives [1, ..., 4, 5, 6, ..., 10], page 10 gives [1, ..., 9, 10] |
| Cases.FewPages | components/ui/pagination.tsx:14-19 | zero or one page gives an empty bar, and five pages give [1, 2, 3, 4, 5] for any current page |
| Cases.OnePageOverBudget | components/ui/pagination.tsx:21-49 | eight pages with page 4 current give [1, ..., 3, 4, 5, ..., 8], which has two '...' markers |
| Cases.SmallerBudgetExceeded | components/ui/pagination.tsx:17-49 | with budget 5, six pages and page 3 current, the bar has six entries |

## Left out

- JSX rendering, CSS classes, the `Button` and `cn` helpers, React keys and the "page X of Y" caption are presentation. Of the rendering, only the highlight test `currentPage === page` is modelled, through `Windowing.CurrentPageAppearsOnce`.
- `setCurrentPage` is a callback into React state. Prev and Next are modelled by the page they pass to it.
- JavaScript number semantics are not modelled: fractional or NaN page numbers, and floating-point limits. Inputs are unbounded integers.
- Calling the function twice with the same inputs gives the same bar. This holds for any Dafny function, so it has no lemma of its own.
- The REST endpoint definitions (`features/*Api.ts`), the cached-user hook, the page layouts and the build configuration have no windowing logic. They are network I/O, cookie and JWT handling, and UI chrome, so they are not part of this model.
