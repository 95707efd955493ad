/** When the logs page shows its "No Data" state instead of the list. */
module EmptyState {
  import opened Optional
  import opened RouterQuery
  import opened Conversations
  import opened Tabs
  import opened ConversationList

  /**
    hasFilterApplied: an evaluation or agent filter is set, or the tab is not
    'all' (a missing tab counts as a filter).
   */
  predicate HasFilterApplied(q: Query)
    ensures !HasFilterApplied(q) ==> ShownTab(q) == Name(All) && Text(q, "eval") == "" && Text(q, "agentId") == ""
    ensures Get(q, "tab") == None ==> HasFilterApplied(q)
  {
    Truthy(Get(q, "eval")) || Truthy(Get(q, "agentId")) || Get(q, "tab") != Some(Name(All))
  }

  /** The "No Data" guard: loaded, nothing to list, and no filter narrowing the list. */
  predicate ShowsNoData(isLoading: bool, conversations: seq<Conversation>, q: Query)
    ensures ShowsNoData(isLoading, conversations, q) ==> !isLoading && conversations == [] && Parse(Get(q, "tab")) == Some(All)
  {
    !isLoading && |conversations| == 0 && !HasFilterApplied(q)
  }

  /**
    "No Data" is shown exactly when the list has loaded, no conversation is
    pinned, every loaded page is empty, the tab is 'all' and neither the
    evaluation nor the agent filter holds a value.
   */
  lemma NoDataExactly(isLoading: bool, pinned: Option<Conversation>, pages: seq<seq<Conversation>>, q: Query)
    ensures ShowsNoData(isLoading, Merge(pinned, pages), q) <==>
              && !isLoading
              && pinned.None?
              && Flatten(pages) == []
              && Get(q, "tab") == Some("all")
              && Text(q, "eval") == ""
              && Text(q, "agentId") == ""
  {
  }

  /**
    The filter controls and the tab effect move hasFilterApplied as the page
    intends: choosing an evaluation or agent applies a filter; clearing both
    leaves only the tab deciding; a missing tab counts as a filter until the
    default-tab effect sets it to 'all'.
   */
  lemma FilterControls(q: Query, name: string, value: Option<string>)
    requires name == "eval" || name == "agentId"
    ensures Truthy(value) ==> HasFilterApplied(OnSelect(q, name, value))
    ensures !HasFilterApplied(OnClear(OnClear(q, "eval"), "agentId")) <==> Get(q, "tab") == Some("all")
    ensures Get(q, "tab") == None ==> HasFilterApplied(q)
    ensures Get(q, "tab") == None ==>
              (HasFilterApplied(DefaultTab(q)) <==> Truthy(Get(q, "eval")) || Truthy(Get(q, "agentId")))
  {
  }
}
