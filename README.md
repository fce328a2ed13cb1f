# Helpdesk ticket tracker — a Dafny model

Helpdesk is a browser ticket tracker written in React. Its tickets live in
one IndexedDB object store, reached through the `useIndexedDB` hook. Three
screens work on top of it:

- a table that sorts, pages and adds tickets;
- a dashboard that counts and charts them;
- a detail screen that edits one ticket's status, priority and comments.

This project models those four files and proves what they promise.

Modules, each in its own file:

- `Wrappers`: `Option` and `Result`.
- `Records`: a ticket as a map from field name to value; the object spread as map union.
- `Text`: string `<`, `split`/`join` on one character, `trim`.
- `Sorting`: `Array.prototype.sort` on a copy, modelled as a stable insertion sort. It is proved to be a permutation, ordered under any total preorder, and stable.
- `Store`: the hook. The class `RecordStore` holds:
  - the connection and readiness flags;
  - the records, in ascending key order;
  - the auto-increment key generator.

  Each promise becomes a `Result`. Rejections become `StoreError` values.
- `Table`: the table screen. It holds:
  - the comparator with its rank maps, the sorted copy and `totalPages`;
  - `slice` pagination and the Back/Forward guards;
  - the sort selector;
  - the class `TableView` with the component's state and handlers.
- `Dashboard`: the dashboard's figures. They are the counters, the status and priority charts, the `reduce` fold that builds the timeline, the chart points, and the five most recent tickets.
- `Detail`: the detail screen. Its comment-list operations are pure functions. The class `DetailView` holds its handlers. Each handler awaits `updateData` and changes local state only after a successful write.

Three behaviours of the code worth knowing:

- `getAll` returns records in ascending key order, not in an unspecified order.
- `getDataById` has no readiness guard.
- A comparator result of NaN counts as "equal".

## Model

| member | source | states |
|---|---|---|
| Records.Merge | src/hooks/useIndexedDB.js:107 | the shallow merge `{ ...data, ...updatedData }` has the fields of both sides; the patch's value wins and every other field is kept |
| Records.With | src/components/DetailComponent/DetailComponent.js:29 | `{ ...ticket, field: v }` has field `field` set to `v` and every other field unchanged |
| Records.MergeOverwritingAll | src/components/DetailComponent/DetailComponent.js:29-31 | merging a patch that names every field of the base leaves only the patch, so writing the whole edited ticket stores exactly that ticket |
| Text.LessTrichotomy | src/components/TableComponent/TableComponent.js:84-85 | string `<` orders any two distinct strings one way and never both ways |
| Text.LessTransitive | src/components/TableComponent/TableComponent.js:84-85 | string `<` is transitive |
| Text.LessIrreflexive | src/components/TableComponent/TableComponent.js:84-85 | no string is `<` itself |
| Text.Split | src/components/TableComponent/TableComponent.js:93 | `split` on one character always yields at least one part |
| Text.JoinSplit | src/components/TableComponent/TableComponent.js:93 | joining the parts of a split with the separator gives back the original string |
| Text.SplitJoin | src/components/TableComponent/TableComponent.js:93 | splitting separator-free parts joined by the separator gives back those parts |
| Text.SplitPartsFree | src/components/TableComponent/TableComponent.js:93 | no part of a split contains the separator |
| Text.SplitFree | src/components/TableComponent/TableComponent.js:93 | a string without the separator splits into itself alone |
| Text.SplitPrefix | src/components/TableComponent/TableComponent.js:93 | a separator-free head followed by the separator becomes the first part; the rest splits on its own |
| Text.BeforeFirstIsPrefix | src/components/DashboardComponent/DashboardComponent.js:42 | `split("T")[0]` is a T-free prefix of the date that either ends the string or stops just before a `T` |
| Text.Trim | src/components/DetailComponent/DetailComponent.js:51 | `trim()`, white space and line terminators removed from both ends; Text.TrimEmptyIffBlank, Text.TrimStartBlank and Text.TrimEndBlank state what it yields |
| Text.TrimEmptyIffBlank | src/components/DetailComponent/DetailComponent.js:51 | `!comment.trim()` holds exactly when the comment consists only of white space and line terminators |
| Text.TrimStartBlank | src/components/DetailComponent/DetailComponent.js:51 | trimming the front empties exactly a blank string, and otherwise leaves a non-space first character |
| Text.TrimEndBlank | src/components/DetailComponent/DetailComponent.js:51 | trimming the end of a string that starts with a non-space character never empties it |
| Sorting.SortPermutation | src/components/TableComponent/TableComponent.js:67 | the sorted copy holds exactly the input's elements, as often as the input does |
| Sorting.InsertPermutation | src/components/TableComponent/TableComponent.js:67 | inserting one element adds exactly that element |
| Sorting.SortSorted | src/components/TableComponent/TableComponent.js:67-86 | under a comparator that is a total preorder on the input, no pair of the sorted copy is out of order |
| Sorting.SortedWithin | src/components/TableComponent/TableComponent.js:67-86 | the same, for inputs drawn from a larger set on which the comparator is a preorder |
| Sorting.InsertSorted | src/components/TableComponent/TableComponent.js:67-86 | inserting into a sorted sequence keeps it sorted |
| Sorting.SortAllTiesIdentity | src/components/TableComponent/TableComponent.js:67-68 | when the comparator calls every pair equal, the sort keeps the input order |
| Sorting.SortStable | src/components/TableComponent/TableComponent.js:67 | for every element, the elements the comparator calls equal to it keep their input order |
| Sorting.StableWithin | src/components/TableComponent/TableComponent.js:67 | stability, for inputs drawn from a larger set |
| Sorting.InsertTies | src/components/TableComponent/TableComponent.js:67 | inserting an element keeps the order of the elements tied with any given element |
| Sorting.PrefixComesFirst | src/components/DashboardComponent/DashboardComponent.js:25-27 | in a sorted sequence nothing beyond the first k elements comes before the k-th |
| Sorting.SortedPrefix | src/components/DashboardComponent/DashboardComponent.js:27 | a prefix of a sorted sequence is sorted |
| Store.Lookup | src/hooks/useIndexedDB.js:83 | `store.get(k)` finds a stored record whose key is `k`, or reports that no stored record has key `k` |
| Store.Put | src/hooks/useIndexedDB.js:108 | `store.put(r)` keeps the store in key order; afterwards key `r.id` holds `r`, every other key holds what it held, and the store grows by one exactly when the key was new |
| Store.Remove | src/hooks/useIndexedDB.js:73 | `store.delete(k)` keeps the store in key order; afterwards key `k` is absent, every other key holds what it held, and the store shrinks by one exactly when `k` was present |
| Store.LookupAt | src/hooks/useIndexedDB.js:58 | in a key-ordered store, looking up a record's own key finds that record |
| Store.UpdateResult | src/hooks/useIndexedDB.js:99-110 | `updateData` on a missing id rejects with "not found"; on success it resolves with the stored record merged with the patch, keyed by `id` when the patch does not name another id |
| Store.UpdateReadBack | src/hooks/useIndexedDB.js:99-110 | updating one non-key field of a present record and reading back gives the old record with only that field changed; other keys keep their records |
| Store.RecordStore.Store | src/hooks/useIndexedDB.js:43 | the put behind `add` and `updateData`: the store becomes `Put(records, r)`, the key joins the used keys, and the generator moves past the key when the key reaches it |
| Store.StoreKeepsKeysValid | src/hooks/useIndexedDB.js:34-47 | writing a record under its key and moving the key generator past that key keeps the store in key order, every stored key among the used ones, and the generator above every used key |
| Store.RemoveKeepsKeysValid | src/hooks/useIndexedDB.js:64-77 | deleting a key keeps the store in key order and every stored key among the used ones |
| Store.RecordStore.constructor | src/hooks/useIndexedDB.js:4-5 | a newly mounted hook has no connection and is not ready; the object store holds what earlier sessions left in it (in key order) and the key generator keeps its position; a database created for the first time starts empty with the generator at 1 |
| Store.RecordStore.Open | src/hooks/useIndexedDB.js:18-28 | `onsuccess` records the connection and sets `dbReady`; `onerror` clears `dbReady` and keeps `db` |
| Store.RecordStore.AddData | src/hooks/useIndexedDB.js:34-47 | rejects when not ready (nothing changes); without an `id` the record is stored under the generator's next key, never used before; an explicit numeric `id` is stored unless taken (ConstraintError); any success adds exactly one record under a fresh key; the new key joins the used keys, the generator moves past it, and neither ever goes back |
| Store.RecordStore.GetAllData | src/hooks/useIndexedDB.js:49-62 | rejects when not ready; otherwise resolves with every stored record, once each, in ascending key order |
| Store.RecordStore.GetDataById | src/hooks/useIndexedDB.js:79-87 | no readiness guard: fails only while there is no connection, otherwise resolves with the record under `id` or `undefined` |
| Store.RecordStore.UpdateData | src/hooks/useIndexedDB.js:90-115 | rejects when not ready or when `id` is absent, and changes nothing then; on success it puts the merged record; with a patch that keeps the id, only key `id` changes and the store keeps its size; the put key joins the used keys and the generator never goes back |
| Store.RecordStore.DeleteData | src/hooks/useIndexedDB.js:64-77 | rejects when not ready; otherwise resolves whether or not the key was present, and the key is gone |
| Store.KeysAreNeverReused | src/hooks/useIndexedDB.js:34-115 | an `id` is never reassigned: after an add, an update, deleting the added record and another add, a further add without `id` receives a key different from every key handed out before, the deleted one included |
| Table.ValueLess | src/components/TableComponent/TableComponent.js:84-85 | `a[sortKey] < b[sortKey]`: numbers numerically, strings and arrays by their string forms (an array joined with commas), `undefined` never; Table.ValueLessOrder proves it a strict total order on one-type values |
| Table.Compare | src/components/TableComponent/TableComponent.js:67-86 | the comparator body for one key and direction: rank differences for priority and status, `<` both ways for other keys, 0 with no key; Table.DescendingNegatesAscending, Table.RankCompare and Table.ThreeWayPreorder state its properties |
| Table.Comparator | src/components/TableComponent/TableComponent.js:67-86 | the comparator passed to `sort`; Table.RankedPreorder and Table.ThreeWayPreorder prove it a total preorder where the values allow it |
| Table.DescendingNegatesAscending | src/components/TableComponent/TableComponent.js:72-85 | for every key, the descending comparator is the ascending one negated |
| Table.SortedDataIsPermutation | src/components/TableComponent/TableComponent.js:67 | `sortedData` is a permutation of `data` |
| Table.UnsortedKeepsFetchOrder | src/components/TableComponent/TableComponent.js:67-68 | with no sort key, `sortedData` is `data` in fetch order |
| Table.PriorityRanks | src/components/TableComponent/TableComponent.js:64-76 | Низкий (1) comes before Средний (2), and Средний before Высокий (3), when ascending; descending reverses each pair |
| Table.StatusRanks | src/components/TableComponent/TableComponent.js:65-82 | Новые (1) comes before В процессе (2), and В процессе before Завершенные (3), when ascending; descending reverses each pair |
| Table.RankCompare | src/components/TableComponent/TableComponent.js:72-82 | on two ranked tickets the priority or status comparator is the difference of their ranks, in the chosen direction |
| Table.RankedPreorder | src/components/TableComponent/TableComponent.js:72-82 | on tickets that all carry a listed value, the priority and status comparators are total preorders |
| Table.SortByRank | src/components/TableComponent/TableComponent.js:64-82 | sorting by a ranked key keeps every ticket and orders the ranks ascending or descending |
| Table.SortByPriority | src/components/TableComponent/TableComponent.js:64-76 | sorting by priority keeps every ticket and orders ranks 1, 2, 3 ascending, or 3, 2, 1 descending |
| Table.SortByStatus | src/components/TableComponent/TableComponent.js:65-82 | sorting by status keeps every ticket and orders ranks 1, 2, 3 ascending, or 3, 2, 1 descending |
| Table.ValueLessOrder | src/components/TableComponent/TableComponent.js:84-85 | `<` on values of one type (all strings or all numbers) is asymmetric, total and transitive in its negation |
| Table.ThreeWayPreorder | src/components/TableComponent/TableComponent.js:84-85 | on values of one type the three-way comparison is a total preorder in either direction |
| Table.SortByOtherKey | src/components/TableComponent/TableComponent.js:84-85 | sorting by any other key of one type keeps every ticket; ascending, no value is less than an earlier one; descending, none is greater |
| Table.SortIsStable | src/components/TableComponent/TableComponent.js:67 | tickets the comparator calls equal keep their fetch order |
| Table.PriorityDescendingExample | src/components/TableComponent/TableComponent.js:64-76 | Низкий, Высокий, Средний sorted by priority, descending, gives Высокий, Средний, Низкий |
| Table.StatusAscendingExample | src/components/TableComponent/TableComponent.js:65-82 | Завершенные, Новые, В процессе sorted by status, ascending, gives Новые, В процессе, Завершенные |
| Table.TotalPages | src/components/TableComponent/TableComponent.js:104 | `Math.ceil(len / perPage)`: the pages cover all items with the last page non-empty, and there is no page exactly when there are no items |
| Table.Slice | src/components/TableComponent/TableComponent.js:90 | `Array.prototype.slice` with negative indices counted from the end and both ends clamped to the length; Table.PageIsSlice states it for the indices pagination uses |
| Table.CurrentItems | src/components/TableComponent/TableComponent.js:88-90 | `currentItems` for a page; Table.PageIsSlice, Table.PagesArePrefix, Table.AllPagesReproduce and Table.PageSizes state what the pages hold |
| Table.PageIsSlice | src/components/TableComponent/TableComponent.js:88-90 | page `p` is the items from `(p-1)*n` to `min(p*n, len)` |
| Table.PagesArePrefix | src/components/TableComponent/TableComponent.js:88-90 | pages 1 to `c` in turn are the first `min(c*n, len)` items |
| Table.AllPagesReproduce | src/components/TableComponent/TableComponent.js:88-104 | reading pages 1 to `totalPages` in turn gives back `sortedData` exactly |
| Table.PageSizes | src/components/TableComponent/TableComponent.js:88-104 | every page before the last holds `n` items; the last holds the non-empty remainder |
| Table.PaginationExample | src/components/TableComponent/TableComponent.js:88-159 | 120 tickets at 50 a page make pages of 50, 50 and 20, and page 3 has "Вперед" disabled |
| Table.BackDisabled | src/components/TableComponent/TableComponent.js:157 | "Назад" is disabled on page 1; Table.NavigationStaysInRange states where the button leads |
| Table.ForwardDisabled | src/components/TableComponent/TableComponent.js:159 | the code's guard `currentPage === totalPages`; Table.NavigationStaysInRange and Table.ForwardLeavesEmptyTable state where the button leads |
| Table.NavigationStaysInRange | src/components/TableComponent/TableComponent.js:157-159 | "Назад" is disabled exactly on page 1 and "Вперед" exactly on page `totalPages`; with at least one page, the buttons keep the page within 1..`totalPages` |
| Table.ForwardLeavesEmptyTable | src/components/TableComponent/TableComponent.js:159 | on an empty table `totalPages` is 0, so page 1 leaves "Вперед" enabled and it leads to page 2 |
| Table.ForwardAtEndStaysInRange | src/components/TableComponent/TableComponent.js:157-159 | with "Вперед" disabled from the last page onward, the buttons keep the page within 1..max(1, `totalPages`), on an empty table too |
| Table.ParseSortValue | src/components/TableComponent/TableComponent.js:93 | `value.split("-")` read as key and order; Table.ParseSortOption and Table.ParseSortKeyOnly state the two shapes of selector value |
| Table.ParseSortOption | src/components/TableComponent/TableComponent.js:93-170 | a selector value `key-order` splits into its key and its order |
| Table.ParseSortKeyOnly | src/components/TableComponent/TableComponent.js:93-95 | a selector value without `-` sets the key and leaves the order `undefined` |
| Table.TableView.constructor | src/components/TableComponent/TableComponent.js:7-20 | the initial state: no data, the empty form, no sort key, order `asc`, page 1, 50 per page |
| Table.TableView.Load | src/components/TableComponent/TableComponent.js:24-35 | once the store is ready, `data` becomes every stored ticket; otherwise it is left alone |
| Table.TableView.HandleAddItem | src/components/TableComponent/TableComponent.js:42-62 | does nothing when not ready; a form without `id` is stored under the generator's next key, with that key as its `id`, and no other key changes; a form with a free numeric `id` is stored under it; a taken or non-numeric `id` changes nothing; on success `data` is refetched and the form cleared, and a failed step leaves `data` and the form as they were |
| Table.TableView.HandleSortChange | src/components/TableComponent/TableComponent.js:92-96 | sets the key and order from the split selector value |
| Table.TableView.ResetSorting | src/components/TableComponent/TableComponent.js:98-101 | restores key `''` and order `asc`, so the table shows the fetch order again |
| Table.TableView.HandlePageChange | src/components/TableComponent/TableComponent.js:103 | sets the current page |
| Table.TableView.PressBack | src/components/TableComponent/TableComponent.js:157 | goes one page back unless on page 1 |
| Table.TableView.PressForward | src/components/TableComponent/TableComponent.js:159 | goes one page on unless on the last page (corrected guard), and keeps the page within range |
| Dashboard.Matching | src/components/DashboardComponent/DashboardComponent.js:22 | `filter(t => t[field] === v)`, never longer than its input, with recursive calls' bounds; Dashboard.MatchingMembers and Dashboard.MatchingSplits state what it keeps |
| Dashboard.NotMatching | src/components/DashboardComponent/DashboardComponent.js:21 | `filter(t => t[field] !== v)`, never longer than its input; Dashboard.NotMatchingMembers and Dashboard.MatchingSplits state what it keeps |
| Dashboard.MatchingMembers | src/components/DashboardComponent/DashboardComponent.js:20-38 | `filter(t => t[field] === v)` keeps exactly the tickets whose field is `v` |
| Dashboard.NotMatchingMembers | src/components/DashboardComponent/DashboardComponent.js:21 | `filter(t => t[field] !== v)` keeps exactly the tickets whose field is not `v`, an absent field included |
| Dashboard.MatchingSplits | src/components/DashboardComponent/DashboardComponent.js:21-22 | the two filters split the tickets between them |
| Dashboard.OpenPlusResolved | src/components/DashboardComponent/DashboardComponent.js:20-22 | `openTickets + resolvedTickets = totalTickets`, and no ticket is counted as both |
| Dashboard.StatusData | src/components/DashboardComponent/DashboardComponent.js:30-33 | the slices "Открытые" and "Решённые" add up to the number of tickets; the open slice is empty exactly when every ticket is Завершенные, the resolved one exactly when none is |
| Dashboard.PriorityData | src/components/DashboardComponent/DashboardComponent.js:35-39 | one bar per listed priority with that priority's ticket count; Dashboard.PriorityCounts states how the bars add up |
| Dashboard.PriorityCounts | src/components/DashboardComponent/DashboardComponent.js:35-39 | the three priority bars add up to at most the number of tickets, and to exactly that number when every ticket has one of the three priorities |
| Dashboard.DateKey | src/components/DashboardComponent/DashboardComponent.js:42 | `t.creationDate.split("T")[0]`, failing where `creationDate` is not a string; Text.BeforeFirstIsPrefix and Dashboard.FoldDefined state what it yields and when |
| Dashboard.Bump | src/components/DashboardComponent/DashboardComponent.js:43 | `acc[date]` set to its old count, or 0 when it has none, plus one, on an accumulator with its keys in insertion order; Dashboard.BumpSpec and Dashboard.BumpTotal state its effect |
| Dashboard.Fold | src/components/DashboardComponent/DashboardComponent.js:41-45 | the `reduce` over the tickets, None where `split` throws; Dashboard.FoldDefined, Dashboard.FoldTotal, Dashboard.FoldCounts and Dashboard.TimelineSpec state its result |
| Dashboard.BumpSpec | src/components/DashboardComponent/DashboardComponent.js:43 | one fold step counts its day once more and keeps the keys distinct and in insertion order |
| Dashboard.BumpTotal | src/components/DashboardComponent/DashboardComponent.js:43 | one fold step adds one to the sum of the counts |
| Dashboard.FoldDefined | src/components/DashboardComponent/DashboardComponent.js:41-45 | the fold completes exactly when every `creationDate` is a string; otherwise `split` throws |
| Dashboard.FoldTotal | src/components/DashboardComponent/DashboardComponent.js:41-45 | the fold extends the accumulator's keys and adds one per ticket to the total |
| Dashboard.FoldCounts | src/components/DashboardComponent/DashboardComponent.js:41-45 | after the fold, each day's count is its earlier count plus that day's tickets |
| Dashboard.TimelineSpec | src/components/DashboardComponent/DashboardComponent.js:41-45 | when every date is a string: the timeline's keys are the distinct days and include every ticket's day; each count equals that day's number of tickets and is at least 1; the counts sum to the number of tickets |
| Dashboard.OccursOwnDay | src/components/DashboardComponent/DashboardComponent.js:42 | a ticket's own day occurs among the tickets |
| Dashboard.Points | src/components/DashboardComponent/DashboardComponent.js:47-50 | `Object.keys(timelineData).map(...)`; Dashboard.PointsFollowKeys states that it follows the keys one to one |
| Dashboard.TimelineChartData | src/components/DashboardComponent/DashboardComponent.js:41-50 | `timelineChartData`, None where building `timelineData` throws; Dashboard.TimelineChartSpec states its points |
| Dashboard.PointsFollowKeys | src/components/DashboardComponent/DashboardComponent.js:47-50 | the chart points follow the keys one to one, in key order, each with that key's count |
| Dashboard.TimelineChartSpec | src/components/DashboardComponent/DashboardComponent.js:41-50 | `timelineChartData` has one point per distinct day, in key order, with that day's ticket count (at least 1); every ticket's day has a point |
| Dashboard.NewestFirst | src/components/DashboardComponent/DashboardComponent.js:26 | `new Date(b.creationDate) - new Date(a.creationDate)`, NaN read as "equal"; Dashboard.NewestFirstPreorder and Dashboard.NewestFirstSorted state its order |
| Dashboard.RecentTickets | src/components/DashboardComponent/DashboardComponent.js:25-27 | sort a copy newest first and `slice(0, 5)`; Dashboard.RecentTicketsSpec, Dashboard.RecentTicketsNewest and Dashboard.RecentTicketsOmitNothingNewer state its result |
| Dashboard.NewestFirstPreorder | src/components/DashboardComponent/DashboardComponent.js:26 | with every date valid, the date comparator is a total preorder |
| Dashboard.NewestFirstSorted | src/components/DashboardComponent/DashboardComponent.js:26 | sorted under the date comparator means non-increasing creation time |
| Dashboard.RecentTicketsSpec | src/components/DashboardComponent/DashboardComponent.js:25-27 | `recentTickets` is the first `min(5, n)` of the sorted copy and is made of the input's tickets |
| Dashboard.RecentTicketsNewest | src/components/DashboardComponent/DashboardComponent.js:25-27 | with every date valid, `recentTickets` runs newest first |
| Dashboard.RecentTicketsOmitNothingNewer | src/components/DashboardComponent/DashboardComponent.js:25-27 | with every date valid, no omitted ticket is newer than the last one shown |
| Detail.Truthy | src/components/DetailComponent/DetailComponent.js:53 | truthiness of `ticket.comments`, which decides whether the empty list replaces it: `undefined`, `""` and 0 are falsy; Detail.AppendCommentSpec states the result |
| Detail.Spread | src/components/DetailComponent/DetailComponent.js:53 | `[...c]`: a list spreads into its elements, a string into its characters (Detail.Chars), a number throws |
| Detail.AppendComment | src/components/DetailComponent/DetailComponent.js:53 | the old comments, or none when they are falsy, spread and followed by the input; Detail.AppendCommentSpec and Detail.AppendLonger state the new list |
| Detail.Chars | src/components/DetailComponent/DetailComponent.js:53 | spreading a string gives one one-character string per character |
| Detail.AppendCommentSpec | src/components/DetailComponent/DetailComponent.js:53 | the new list is the old comments plus the untrimmed input at the end, or just the input when there are none; it throws only when `comments` is a non-zero number |
| Detail.DropIndex | src/components/DetailComponent/DetailComponent.js:64 | `filter((_, i) => i !== index)` drops exactly the element at `index` when it is in range, and nothing otherwise |
| Detail.RemoveComment | src/components/DetailComponent/DetailComponent.js:64 | `ticket.comments.filter((_, i) => i !== index)`; Detail.DropIndex and Detail.RemoveCommentSpec state what stays |
| Detail.RemoveCommentSpec | src/components/DetailComponent/DetailComponent.js:64 | deleting at an in-range index removes exactly that comment and keeps the rest in order, one shorter; an out-of-range index changes nothing |
| Detail.WithStatus | src/components/DetailComponent/DetailComponent.js:29 | the edited ticket equals the old one except for `status` |
| Detail.WithPriority | src/components/DetailComponent/DetailComponent.js:41 | the edited ticket equals the old one except for `priority` |
| Detail.AppendLonger | src/components/DetailComponent/DetailComponent.js:53-55 | appending always changes the stored `comments` value |
| Detail.DetailView.constructor | src/components/DetailComponent/DetailComponent.js:7-11 | no ticket loaded, empty comment input |
| Detail.DetailView.Load | src/components/DetailComponent/DetailComponent.js:13-24 | once ready, the ticket is the stored record under `id`, or `undefined`, and it agrees with the store |
| Detail.DetailView.Commit | src/components/DetailComponent/DetailComponent.js:30-35 | `await updateData` then `setTicket`: the write succeeds exactly when the store is ready and holds `id`; then key `id` holds the stored record merged with the patch, every other key is unchanged, and the ticket is the new one; a failed write leaves the ticket and the store alone; a ticket in step with the store stays in step |
| Detail.DetailView.HandleStatusChange | src/components/DetailComponent/DetailComponent.js:26-36 | does nothing without a ticket, when the store is not ready or when `id` is absent; otherwise the ticket is the old one with the new status and key `id` holds the stored record merged with it, every other key unchanged |
| Detail.DetailView.HandlePriorityChange | src/components/DetailComponent/DetailComponent.js:38-48 | the same for the priority: without a ticket or a writable `id` nothing changes; otherwise ticket and store record both carry the new priority and no other key changes |
| Detail.DetailView.HandleAddComment | src/components/DetailComponent/DetailComponent.js:50-60 | a blank input, a missing ticket, an unspreadable `comments` or a failed write is a no-op; otherwise key `id` holds the stored record with the extended list, no other key changes, the ticket gets the same list and the input is cleared |
| Detail.DetailView.HandleDeleteComment | src/components/DetailComponent/DetailComponent.js:62-70 | without a ticket, a comment list or a writable `id` nothing happens; otherwise key `id` holds the stored record with the list minus the comment at `index`, no other key changes, and the ticket's list loses the same comment |

## Left out

- Rendering is not modelled: JSX, the recharts charts, CSS classes, routing (`navigate`, `handleBack`, `App.js`, `Sidebar.js`).
- Console diagnostics are not modelled. A caught error becomes "nothing changes".
- Input plumbing is not modelled: `handleFormChange` and the comment textarea's `onChange`. The fields `form` and `comment` are plain fields that callers write.
- IndexedDB machinery is not modelled: `indexedDB.open`, `onupgradeneeded` and store creation, versions, transactions and request objects. The store is a key-ordered sequence of records plus the key generator.
- Asynchrony is not modelled: promise scheduling, effects re-running on dependency changes, and React state batching. Each operation runs to completion, one after another. So the lost-update race between the read and the write inside `updateData` is not modelled.
- Store.RecordStore.AddData: only integer keys are modelled. A record whose `id` is a string, an array or a non-integer number is rejected as `InvalidKey`, where IndexedDB would store it under that key.
- Store.RecordStore.AddData: the key generator's upper limit of 2^53 is not modelled.
- Store.RecordStore.UpdateData: the same `InvalidKey` simplification applies to a merged record whose `id` is not an integer.
- Detail.DetailView.Load: the route parameter's `Number(id)` is modelled as an integer `id`. A non-numeric route id (NaN, a DataError in `get`) is not modelled.
- Table.ValueLess: strings and arrays compare by their string forms, an array being its elements joined with commas. A number against a string or an array is not modelled: JavaScript converts the other side to a number, and the model calls such a pair neither less nor greater.
- Table.ValueLessOrder: proved for all-string and all-number values only. On arrays `<` is not total, since different arrays can join to the same string.
- Table.TableView.PressForward: it applies the corrected guard `currentPage >= totalPages` (see Findings), not the `===` of the code. The code's guard is `Table.ForwardDisabled`, whose behaviour on an empty table `Table.ForwardLeavesEmptyTable` shows.
- Table.SortByOtherKey: proved only for a key whose values are all strings or all numbers. With mixed types the comparator need not be a preorder.
- Table.SortByPriority: proved only when every ticket has one of the three listed priorities. An unlisted value gives NaN, which counts as "equal", and that breaks transitivity.
- Table.SortByStatus: the same restriction, for the three statuses.
- Dashboard.RecentTicketsNewest: proved only when every `creationDate` gives a valid date, for the same reason.
- Dashboard.RecentTicketsOmitNothingNewer: the same restriction.
- Dashboard.TimeValue: `new Date(...)` is modelled this way:
  - string parsing is the parameter `parse`;
  - a time value is an integer number of milliseconds within the valid range;
  - floating-point fractions of a millisecond are not modelled.
- Dashboard.Fold: the timeline object's key order is modelled as insertion order. Keys that look like array indices would come first in `Object.keys`, and that is not modelled. Keys inherited from `Object.prototype` (such as `constructor`) are not modelled either.
- Text.Less: strings compare by Unicode code point. JavaScript compares UTF-16 code units, which differ only for characters outside the Basic Multilingual Plane.
- Table.TotalPages: `Math.ceil(len / itemsPerPage)` is computed in integers. With a positive page size it equals the floating-point result for every length the table can hold.
- Records.Value: a field value is a string, an integer or a list of strings. Booleans, `null`, non-integer numbers and nested objects are not modelled.

## Findings

| source | as written | input that shows it | evidently intended | confidence | as-written member | corrected member |
|---|---|---|---|---|---|---|
| src/components/TableComponent/TableComponent.js:159 | "Вперед" is disabled only when `currentPage === totalPages` | an empty table: `totalPages` is 0 while the page is 1, so "Вперед" stays enabled and leads to page 2, 3, … of zero pages | disable it from the last page onward (`currentPage >= totalPages`), so the page never passes the last one | not executed | Table.ForwardLeavesEmptyTable | Table.ForwardAtEndStaysInRange |
