/**
  The four tabs of the logs page, the filter parameters each one adds to the
  list query (tabToParams), and the page's handling of the `tab` parameter.
 */
module Tabs {
  import opened Optional
  import opened RouterQuery
  import opened Conversations

  /** TabEnum. */
  datatype Tab = All | Unresolved | Unread | HumanRequested

  /** The string value of a tab, as stored in the `tab` query parameter. */
  function Name(t: Tab): string
  {
    match t
    case All => "all"
    case Unresolved => "unresolved"
    case Unread => "unread"
    case HumanRequested => "human_requested"
  }

  /** The `switch (tab)`: the tab whose value the parameter holds, if any. */
  function Parse(s: Option<string>): (r: Option<Tab>)
    ensures r.Some? ==> s == Some(Name(r.value))
    ensures r.None? ==> forall t :: s != Some(Name(t))
  {
    if s == Some("human_requested") then Some(HumanRequested)
    else if s == Some("unresolved") then Some(Unresolved)
    else if s == Some("all") then Some(All)
    else if s == Some("unread") then Some(Unread)
    else None
  }

  /** Every tab is recognised from its own value, so distinct tabs have distinct values. */
  lemma ParseName(t: Tab)
    ensures Parse(Some(Name(t))) == Some(t)
  {
  }

  /** What a tab shows, read as a restriction on status: None is "any status". */
  function StatusFilter(t: Tab): Option<ConversationStatus>
  {
    match t
    case HumanRequested => Some(HUMAN_REQUESTED)
    case Unresolved => Some(UNRESOLVED)
    case _ => None
  }

  /** Whether a tab shows only conversations with unread messages. */
  predicate UnreadOnly(t: Tab)
  {
    t == Unread
  }

  /** A value of the parameter record handed to URLSearchParams: a string or a boolean. */
  datatype ParamValue = Str(s: string) | Boolean(b: bool)

  /** The value of the `status` parameter for a status restriction: the status's name, or '' for none. */
  function StatusParam(f: Option<ConversationStatus>): string
  {
    if f.Some? then StatusName(f.value) else ""
  }

  /**
    tabToParams: a recognised tab yields exactly `status` then `unread`,
    carrying that tab's status restriction and unread restriction; any other
    value of the parameter, a missing one included, yields no parameters.
   */
  function TabToParams(tab: Option<string>): (r: seq<(string, ParamValue)>)
    ensures r == [] <==> Parse(tab).None?
    ensures r != [] ==>
              && |r| == 2
              && r[0] == ("status", Str(StatusParam(StatusFilter(Parse(tab).value))))
              && r[1] == ("unread", if UnreadOnly(Parse(tab).value) then Boolean(true) else Str(""))
  {
    match Parse(tab)
    case Some(HumanRequested) => [("status", Str(StatusName(HUMAN_REQUESTED))), ("unread", Str(""))]
    case Some(Unresolved) => [("status", Str(StatusName(UNRESOLVED))), ("unread", Str(""))]
    case Some(All) => [("status", Str("")), ("unread", Str(""))]
    case Some(Unread) => [("status", Str("")), ("unread", Boolean(true))]
    case None => []
  }

  /** The table of tabToParams written out value by value. */
  lemma TabToParamsTable(other: string)
    requires Parse(Some(other)).None?
    ensures TabToParams(Some("human_requested")) == [("status", Str("HUMAN_REQUESTED")), ("unread", Str(""))]
    ensures TabToParams(Some("unresolved")) == [("status", Str("UNRESOLVED")), ("unread", Str(""))]
    ensures TabToParams(Some("all")) == [("status", Str("")), ("unread", Str(""))]
    ensures TabToParams(Some("unread")) == [("status", Str("")), ("unread", Boolean(true))]
    ensures TabToParams(Some(other)) == [] && TabToParams(None) == []
  {
  }

  /** handleChangeTab: the `tab` parameter becomes the tab's value; nothing else changes. */
  function ChangeTab(q: Query, t: Tab): (r: Query)
    ensures Parse(Get(r, "tab")) == Some(t)
    ensures r.Keys == q.Keys + {"tab"}
    ensures forall k :: k in q && k != "tab" ==> r[k] == q[k]
  {
    q["tab" := Name(t)]
  }

  /** The tab the tab bar shows: the `tab` parameter, or 'all' when it is missing or empty. */
  function ShownTab(q: Query): (r: string)
    ensures r != ""
    ensures Truthy(Get(q, "tab")) ==> Get(q, "tab") == Some(r)
    ensures !Truthy(Get(q, "tab")) ==> Parse(Some(r)) == Some(All)
  {
    if Truthy(Get(q, "tab")) then q["tab"] else Name(All)
  }

  /** The effect run when `tab` changes: a missing or empty `tab` is replaced by 'all'. */
  function DefaultTab(q: Query): (r: Query)
    ensures Truthy(Get(r, "tab"))
    ensures Truthy(Get(q, "tab")) ==> r == q
    ensures ShownTab(r) == ShownTab(q)
    ensures r.Keys == q.Keys + {"tab"}
    ensures forall k :: k in q && k != "tab" ==> r[k] == q[k]
  {
    if !Truthy(Get(q, "tab")) then ChangeTab(q, All) else q
  }

  /** Running the default-tab effect again changes nothing. */
  lemma DefaultTabIdempotent(q: Query)
    ensures DefaultTab(DefaultTab(q)) == DefaultTab(q)
  {
  }
}
