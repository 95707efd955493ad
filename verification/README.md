# Conversation-log page of the support dashboard, as a Dafny model

The dashboard's logs page (`apps/dashboard/pages/logs/index.tsx`) lists an
organisation's agent conversations with infinite scroll, filters them by tab,
evaluation and agent, and lets an operator resolve or un-resolve the open
conversation. Behind its React hooks sit a handful of pure decision rules.
This project states those rules as Dafny functions over immutable values and
proves what the page relies on them for:

- `RouterQuery` (query.dfy): the route's query parameters as a map, and the
  select filters' write and clear rules.
- `Conversations` (conversation.dfy): conversation statuses and records.
- `Tabs` (tabs.dfy): the four tabs, `tabToParams`, tab changes and the
  default-tab effect.
- `PageKeys` (pagekeys.dfy): the infinite-scroll key function. It decides
  whether a next page is requested, with which cursor and filters. Also the
  scroll state it drives (end flag, page count, `loadMore`).
- `ConversationList` (conversationlist.dfy): the merge of the pinned
  conversation with the flattened pages.
- `StatusWorkflow` (statusworkflow.dfy): the banner's buttons per status, and
  the status change with its tab redirect.
- `EmptyState` (emptystate.dfy): `hasFilterApplied` and the "No Data" guard.
- `Optional` (optional.dfy): `None` for JavaScript's `undefined`.

The page key is modelled as the ordered parameter record handed to
`URLSearchParams`. Object spread is modelled with JavaScript's property
semantics: an existing name keeps its place and takes the new value, and a
new name goes last. The properties are then proved from that model, not
assumed.

## Model

| member | source | states |
|---|---|---|
| RouterQuery.OnSelect | apps/dashboard/pages/logs/index.tsx:70-76 | A select change writes the filter parameter only for a non-empty string value; otherwise the query is unchanged; no other parameter changes |
| RouterQuery.OnClear | apps/dashboard/pages/logs/index.tsx:98-103 | Clearing sets the filter parameter to '' (present, empty) and keeps every other parameter |
| RouterQuery.ShowsClearButton | apps/dashboard/pages/logs/index.tsx:86-109 | The clear button (replacing the dropdown indicator) is shown exactly when the filter reads as a non-empty string |
| RouterQuery.SelectThenClear | apps/dashboard/pages/logs/index.tsx:70-109 | Clearing after any selection equals clearing; after a clear the clear button is hidden; after a non-empty selection it is shown; an ignored change leaves its visibility as it was |
| RouterQuery.OnSelectIdempotent | apps/dashboard/pages/logs/index.tsx:70-76 | Choosing the same value twice equals choosing it once |
| Tabs.Parse | apps/dashboard/pages/logs/index.tsx:115-148 | The tab switch recognises a value exactly when it is some tab's value, and then returns that tab |
| Tabs.ParseName | apps/dashboard/pages/logs/index.tsx:115-120 | Each tab is recognised from its own value (so tab values are distinct) |
| Tabs.TabToParams | apps/dashboard/pages/logs/index.tsx:122-148 | tabToParams is total: a recognised tab gives exactly status then unread, carrying that tab's status and unread restriction; any other or missing tab gives no parameters |
| Tabs.TabToParamsTable | apps/dashboard/pages/logs/index.tsx:122-148 | The literal table: human_requested and unresolved give their status with unread ''; all gives '' and ''; unread gives status '' with unread true; anything else gives {} |
| Tabs.ChangeTab | apps/dashboard/pages/logs/index.tsx:203-206 | After a tab change the tab parameter is recognised as that tab; nothing else changes |
| Tabs.ShownTab | apps/dashboard/pages/logs/index.tsx:396 | The tab bar shows the tab parameter when it is non-empty and the all tab otherwise; what it shows is never empty |
| Tabs.DefaultTab | apps/dashboard/pages/logs/index.tsx:255-259 | After the default-tab effect the tab parameter is non-empty; a set tab is left alone; the tab shown in the tab bar (line 396) does not change; only the tab parameter is ever added or changed |
| Tabs.DefaultTabIdempotent | apps/dashboard/pages/logs/index.tsx:255-259 | Running the default-tab effect twice equals running it once |
| PageKeys.SpreadFresh | apps/dashboard/pages/logs/index.tsx:178-184 | Spreading properties with names new to the object appends them in order and overrides nothing |
| PageKeys.SpreadLookup | apps/dashboard/pages/logs/index.tsx:178-184 | After a spread, a name takes the spread-in value when the spread-in object has it, and the original value otherwise |
| PageKeys.Cursor | apps/dashboard/pages/logs/index.tsx:175-176 | Definition only: `previousPageData?.[length - 1]?.id || ''`; what it puts in the key is proved by PageKeyParams (the key's first entry) |
| PageKeys.PageKey | apps/dashboard/pages/logs/index.tsx:167-173 | The key is null (end reached) exactly when a previous page exists and is empty; the first page always gets a key |
| PageKeys.PageKeyParams | apps/dashboard/pages/logs/index.tsx:175-184 | A produced key starts with cursor (the previous page's last id, '' on the first page), conversationId, eval and agentId (each '' when missing); the tab's parameters follow, overriding none of them; no name repeats |
| PageKeys.PageKeyTabFilters | apps/dashboard/pages/logs/index.tsx:178-184 | On a recognised tab the key's status is the tab's status restriction ('' for none) and unread is true exactly on the unread tab |
| PageKeys.SameLastIdSameKey | apps/dashboard/pages/logs/index.tsx:175-176 | The key depends on the previous page only through the id of its last conversation |
| PageKeys.OnKey | apps/dashboard/pages/logs/index.tsx:168-172 | Computing a key sets the end flag exactly when the key is null, and never clears it |
| PageKeys.LoadMore | apps/dashboard/pages/logs/index.tsx:526-534 | loadMore asks for exactly one more page unless the list is loading or revalidating, and then asks for none |
| PageKeys.HasMore | apps/dashboard/pages/logs/index.tsx:535 | The scroller asks for more pages exactly while the end flag is unset (`hasMore={!state.hasReachedEnd}`) |
| PageKeys.EndIsFinal | apps/dashboard/pages/logs/index.tsx:526-535 | The scroller stops asking for more exactly when a key met an empty previous page, and no later key or loadMore restarts it |
| PageKeys.EndSurvivesTabChange | apps/dashboard/pages/logs/index.tsx:159-173 | As written: after the end of one tab's list, switching tabs starts a different list, yet the scroller still reports nothing more to load |
| PageKeys.FirstKeysDiffer | apps/dashboard/pages/logs/index.tsx:175-184 | Two different recognised tabs give different first-page keys |
| PageKeys.ResetOnNewList | apps/dashboard/pages/logs/index.tsx:159-173 | Corrected: when the first-page key changes, the end flag is cleared; otherwise the state is kept |
| PageKeys.NewTabCanLoadMore | apps/dashboard/pages/logs/index.tsx:535 | Corrected: after switching to another tab, the new tab's list can load further pages |
| ConversationList.FlattenAppend | apps/dashboard/pages/logs/index.tsx:240 | Flattening the pages commutes with appending pages |
| ConversationList.FlattenMembership | apps/dashboard/pages/logs/index.tsx:240 | A conversation is in the flattened list exactly when it is on some page |
| ConversationList.WithoutId | apps/dashboard/pages/logs/index.tsx:240-243 | Every item the id filter leaves differs from the pinned id, and the filter never lengthens the list |
| ConversationList.WithoutIdMembership | apps/dashboard/pages/logs/index.tsx:240-243 | An item survives the id filter exactly when it was in the list and its id is not the pinned id (no pinned conversation: every item survives) |
| ConversationList.WithoutIdIsSubsequence | apps/dashboard/pages/logs/index.tsx:240-243 | The id filter keeps the relative order of the surviving items |
| ConversationList.WithoutIdCounts | apps/dashboard/pages/logs/index.tsx:240-243 | Only items with the pinned id are removed; every other item keeps its number of occurrences, duplicates included |
| ConversationList.Merge | apps/dashboard/pages/logs/index.tsx:235-245 | A pinned conversation comes first and no later item shares its id; without one the list is the pages concatenated in order |
| ConversationList.MergeMembership | apps/dashboard/pages/logs/index.tsx:235-245 | A conversation is listed exactly when it is the pinned one, or is on a loaded page and does not carry the pinned id |
| ConversationList.MergeKeepsOrderAndCounts | apps/dashboard/pages/logs/index.tsx:235-245 | Past the pinned head, the list is an order-preserving subsequence of the pages, with the counts of every non-pinned-id item unchanged |
| ConversationList.LoadingAPageAppends | apps/dashboard/pages/logs/index.tsx:235-245 | Loading one more page only appends that page's surviving items; the items already shown keep their places |
| StatusWorkflow.Offered | apps/dashboard/pages/logs/index.tsx:294-381 | The status button always changes the status and never targets HUMAN_REQUESTED; it targets RESOLVED exactly when the status is not RESOLVED |
| StatusWorkflow.BannerActions | apps/dashboard/pages/logs/index.tsx:293-382 | Nothing open: no buttons. Otherwise exactly one status button, last, with the offered target, and before it an email button exactly when the lead has an email: mailto for HUMAN_REQUESTED, copy otherwise |
| StatusWorkflow.TabAfter | apps/dashboard/pages/logs/index.tsx:228-233 | After a status change the tab becomes unresolved for UNRESOLVED and all for RESOLVED, and is unchanged otherwise; no other parameter is added or changed |
| StatusWorkflow.HandleBannerAction | apps/dashboard/pages/logs/index.tsx:213-234 | The open conversation takes the target status, keeping its id and lead, and the query is redirected by TabAfter |
| StatusWorkflow.Press | apps/dashboard/pages/logs/index.tsx:300-372 | The banner buttons' onClick handlers: the status button runs handleBannerAction, the email buttons (clipboard, mailto) leave the page state unchanged; no button changes which conversation is open or touches a parameter other than the tab |
| StatusWorkflow.StatusChangeStaysVisible | apps/dashboard/pages/logs/index.tsx:228-233 | After pressing the status button, the tab the page lands on restricts to the new status or to none, and not to unread, so the tab's own restriction does not exclude the conversation (the backend's reading of `status` and the eval/agent filters are outside this) |
| StatusWorkflow.PressStatusTwice | apps/dashboard/pages/logs/index.tsx:293-382 | Resolve and Un-Resolve undo each other, landing on the tab for the status; HUMAN_REQUESTED ends UNRESOLVED after two presses |
| StatusWorkflow.StatusButton | apps/dashboard/pages/logs/index.tsx:310-319 | The open conversation's banner always holds a status button |
| EmptyState.HasFilterApplied | apps/dashboard/pages/logs/index.tsx:154-157 | A filter is applied when eval or agentId is non-empty or the tab is not 'all'; a missing tab counts as applied; with no filter applied the tab bar shows 'all' and both filters read '' |
| EmptyState.ShowsNoData | apps/dashboard/pages/logs/index.tsx:263-267 | "No Data" requires that loading has finished, the merged list is empty and no filter is applied, so the tab is 'all' |
| EmptyState.NoDataExactly | apps/dashboard/pages/logs/index.tsx:263-267 | "No Data" shows exactly when not loading, nothing is pinned, every page is empty, the tab is 'all' and neither eval nor agentId is set |
| EmptyState.FilterControls | apps/dashboard/pages/logs/index.tsx:154-157 | Choosing an eval or agent applies a filter; clearing both leaves only the tab deciding; a missing tab counts as a filter until the default-tab effect sets 'all' |

## Left out

- Rendering, styling and layout (MUI components, JSX) are left out: they are presentation only.
- The SWR hooks, the Next.js router, `useSession`, `InfiniteScroll`, `navigator.clipboard` and `window.location` are left out as foreign effects. Their inputs and outputs are plain values here: the query is a map, the loaded pages a sequence of sequences, and the banner's email buttons leave the page state unchanged.
- The query is a `map<string, string>`. Array-valued query parameters are left out: the page casts every parameter to `string`.
- The select's `typeof value === 'string'` test is folded into the value type: both selects on the page offer only string options.
- The text of the key: `URLSearchParams.toString()` (application/x-www-form-urlencoded serialisation, `true` written as "true") is left out. The key is the ordered parameter record, and `/api/logs?` is a constant prefix.
- The key function's `pageIndex` argument is unused by the page, and so is absent from the model.
- `LIMIT` (line 54) is declared but not used by the shown code. The page size is the backend's business.
- Network calls (`updateConversationStatus`, `/api/logs`, `/api/logs/{id}`, `/api/agents`) are left out because the backend is not shown. A status update is "status := target", and the refetches after it are not modelled.
- StatusWorkflow.HandleBannerAction: a failing status update is not modelled. In the source it rejects the promise, so the page neither refetches nor redirects. The backend that would fail is not shown.
- The session guard (line 261), the effect that opens the pinned conversation (lines 247-253), and opening a conversation by clicking it (lines 578-582) are left out. Each is a plain assignment of hook state with nothing to state beyond it.
- `relativeDate`, `handleEvalAnswer`, `ImproveAnswerModal`, `ChatBox` and `ConversationExport` are left out because their implementations are not shown.
- Conversation statuses other than the three the page switches on are left out. The page's `default` branch is reached here only when no conversation is loaded.
- components/Datasources.tsx is not part of this model. It is a CRUD wrapper (axios posts, SWR polling, `window.confirm`, a usage guard whose code is not shown), and its only logic is the numeric defaulting of `limit`/`offset`.
- apps/dashboard/components/APIToolForm.tsx is not part of this model. Its zod schema is declared but never wired in (the resolver is commented out), and the rest is form rendering.

## Findings

| source | as written | input that shows it | evidently intended | confidence | as-written member | corrected member |
|---|---|---|---|---|---|---|
| apps/dashboard/pages/logs/index.tsx:159-173 | `hasReachedEnd` is set by the key function when a page comes back empty, and nothing ever clears it; `hasMore` is `!hasReachedEnd` (line 535) | scroll the "all" tab to its end (an empty page), then switch to "unresolved" with more than one page of conversations: the new list loads its first page only | a change of filters starts a new list, and its end flag starts cleared | medium, not executed | PageKeys.EndSurvivesTabChange | PageKeys.NewTabCanLoadMore |
