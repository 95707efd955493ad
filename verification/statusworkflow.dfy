/**
  The banner over the open conversation: which buttons it offers for each
  status (BannerActions), and what pressing the status button does
  (handleBannerAction): the status changes and the page moves to a tab.
 */
module StatusWorkflow {
  import opened Optional
  import opened RouterQuery
  import opened Conversations
  import opened Tabs

  /** A banner button: copy the lead's email, open a mailto link, or change the status. */
  datatype Button = CopyEmail(email: string) | SendEmail(href: string) | SetStatus(target: ConversationStatus)

  /**
    The status the banner's status button moves a conversation to: Resolve
    from UNRESOLVED and HUMAN_REQUESTED, Un-Resolve from RESOLVED. It always
    changes the status and never requests a human.
   */
  function Offered(s: ConversationStatus): (r: ConversationStatus)
    ensures r != s && r != HUMAN_REQUESTED
    ensures r == RESOLVED <==> s != RESOLVED
  {
    match s
    case UNRESOLVED => RESOLVED
    case HUMAN_REQUESTED => RESOLVED
    case RESOLVED => UNRESOLVED
  }

  /**
    BannerActions for the open conversation (None while it is not loaded).
    An open conversation gets exactly one status button, last, targeting
    Offered(status); before it an email button exactly when the lead has a
    non-empty email: a mailto link for HUMAN_REQUESTED, a copy button
    otherwise. Nothing open, no buttons.
   */
  function BannerActions(open: Option<Conversation>): (r: seq<Button>)
    ensures open.None? ==> r == []
    ensures open.Some? ==> 1 <= |r| <= 2 && r[|r| - 1] == SetStatus(Offered(open.value.status))
    ensures open.Some? ==> (|r| == 2 <==> Truthy(open.value.leadEmail))
    ensures open.Some? && |r| == 2 ==>
              r[0] == if open.value.status == HUMAN_REQUESTED
                      then SendEmail("mailto:" + open.value.leadEmail.value)
                      else CopyEmail(open.value.leadEmail.value)
  {
    match open
    case None => []
    case Some(c) =>
      var email := if Truthy(c.leadEmail) then c.leadEmail.value else "";
      match c.status
      case UNRESOLVED =>
        (if email != "" then [CopyEmail(email)] else []) + [SetStatus(RESOLVED)]
      case HUMAN_REQUESTED =>
        (if email != "" then [SendEmail("mailto:" + email)] else []) + [SetStatus(RESOLVED)]
      case RESOLVED =>
        (if email != "" then [CopyEmail(email)] else []) + [SetStatus(UNRESOLVED)]
  }

  /** The part of the page state the banner acts on: the route's query and the open conversation. */
  datatype View = View(query: Query, open: Option<Conversation>)

  /**
    The redirect after a status change: to the unresolved tab after
    un-resolving, to the all tab after resolving, and no move otherwise.
    Only the tab parameter is touched.
   */
  function TabAfter(q: Query, target: ConversationStatus): (r: Query)
    ensures target == UNRESOLVED ==> Parse(Get(r, "tab")) == Some(Unresolved)
    ensures target == RESOLVED ==> Parse(Get(r, "tab")) == Some(All)
    ensures target == HUMAN_REQUESTED ==> r == q
    ensures r.Keys <= q.Keys + {"tab"}
    ensures forall k :: k in q && k != "tab" ==> k in r && r[k] == q[k]
  {
    if target == UNRESOLVED then ChangeTab(q, Unresolved)
    else if target == RESOLVED then ChangeTab(q, All)
    else q
  }

  /**
    handleBannerAction on the open conversation: the backend update is taken
    to succeed, so the open conversation (same id, same lead) now has the
    target status, and the page is redirected by TabAfter.
   */
  function HandleBannerAction(v: View, target: ConversationStatus): (r: View)
    requires v.open.Some?
    ensures r.open.Some? && r.open.value.status == target
    ensures r.open.value.id == v.open.value.id && r.open.value.leadEmail == v.open.value.leadEmail
    ensures r.query == TabAfter(v.query, target)
  {
    View(TabAfter(v.query, target), Some(v.open.value.(status := target)))
  }

  /**
    Pressing a banner button: the status button runs handleBannerAction; the
    email buttons leave the page state alone. No button changes which
    conversation is open or touches a parameter other than the tab.
   */
  function Press(v: View, b: Button): (r: View)
    requires v.open.Some?
    ensures r.open.Some? && r.open.value.id == v.open.value.id
    ensures r.query.Keys <= v.query.Keys + {"tab"}
    ensures forall k :: k in v.query && k != "tab" ==> k in r.query && r.query[k] == v.query[k]
    ensures !b.SetStatus? ==> r == v
  {
    match b
    case SetStatus(target) => HandleBannerAction(v, target)
    case _ => v
  }

  /**
    After pressing the banner's status button, the tab the page moved to
    restricts the list to the new status or to none, and not to unread
    conversations, so the tab's own restriction does not exclude it.
   */
  lemma StatusChangeStaysVisible(v: View, b: Button)
    requires v.open.Some? && b in BannerActions(v.open) && b.SetStatus?
    ensures var r := Press(v, b);
      && Parse(Get(r.query, "tab")).Some?
      && StatusFilter(Parse(Get(r.query, "tab")).value) in {None, Some(r.open.value.status)}
      && !UnreadOnly(Parse(Get(r.query, "tab")).value)
  {
  }

  /**
    Resolve and Un-Resolve undo each other: pressing the status button twice
    brings a RESOLVED or UNRESOLVED conversation back to its status, on the
    tab that goes with it. A HUMAN_REQUESTED conversation ends UNRESOLVED:
    the banner never leads back to HUMAN_REQUESTED.
   */
  lemma PressStatusTwice(v: View)
    requires v.open.Some?
    ensures var once := Press(v, StatusButton(v));
      var twice := Press(once, StatusButton(once));
      && twice.open.value.status == (if v.open.value.status == HUMAN_REQUESTED then UNRESOLVED else v.open.value.status)
      && Parse(Get(twice.query, "tab")) == Some(if twice.open.value.status == RESOLVED then All else Unresolved)
  {
  }

  /** The status button of the banner over an open conversation. */
  function StatusButton(v: View): (b: Button)
    requires v.open.Some?
    ensures b in BannerActions(v.open) && b.SetStatus?
  {
    var bs := BannerActions(v.open);
    bs[|bs| - 1]
  }
}
