/**
  The key function handed to the infinite-scroll hook: whether another page
  of conversations is requested, and with which query parameters; and the
  scroll state it drives (reached-the-end flag, page count, loadMore).
 */
module PageKeys {
  import opened Optional
  import opened RouterQuery
  import opened Conversations
  import opened Tabs

  /** The own properties of a plain object, in property order. */
  type Entries<V> = seq<(string, V)>

  /** Whether the object has a property of this name. */
  predicate Has<V>(es: Entries<V>, name: string)
  {
    es != [] && (es[0].0 == name || Has(es[1..], name))
  }

  /** No name occurs twice, as in any object. */
  predicate DistinctNames<V>(es: Entries<V>)
  {
    forall i, j :: 0 <= i < j < |es| ==> es[i].0 != es[j].0
  }

  /** The value of a property, if the object has it. */
  function Lookup<V>(es: Entries<V>, name: string): (r: Option<V>)
    ensures r.None? <==> !Has(es, name)
  {
    if es == [] then None
    else if es[0].0 == name then Some(es[0].1)
    else Lookup(es[1..], name)
  }

  lemma {:induction false} HasAppend<V>(a: Entries<V>, b: Entries<V>, name: string)
    ensures Has(a + b, name) <==> Has(a, name) || Has(b, name)
    decreases |a|
  {
    if a == [] {
      assert a + b == b;
    } else {
      assert (a + b)[1..] == a[1..] + b;
      HasAppend(a[1..], b, name);
    }
  }

  /**
    Setting one property of a plain object: an existing property keeps its
    place and takes the new value, a new property goes last.
   */
  function Assign<V>(es: Entries<V>, name: string, v: V): (r: Entries<V>)
    ensures Lookup(r, name) == Some(v)
    ensures forall n :: n != name ==> Lookup(r, n) == Lookup(es, n)
    ensures Has(es, name) ==> |r| == |es|
    ensures !Has(es, name) ==> r == es + [(name, v)]
  {
    if es == [] then [(name, v)]
    else if es[0].0 == name then [(name, v)] + es[1..]
    else
      assert es == [es[0]] + es[1..];
      [es[0]] + Assign(es[1..], name, v)
  }

  /** An object literal `{...base, ...extra}`: the properties of extra are assigned onto base in order. */
  function Spread<V>(base: Entries<V>, extra: Entries<V>): Entries<V>
    decreases |extra|
  {
    if extra == [] then base
    else Spread(Assign(base, extra[0].0, extra[0].1), extra[1..])
  }

  /**
    When extra brings only new names, spreading it overrides nothing: the
    result is base followed by extra, in order.
   */
  lemma {:induction false} SpreadFresh<V>(base: Entries<V>, extra: Entries<V>)
    requires DistinctNames(extra)
    requires forall i :: 0 <= i < |extra| ==> !Has(base, extra[i].0)
    ensures Spread(base, extra) == base + extra
    decreases |extra|
  {
    if extra != [] {
      var e := extra[0];
      var rest := extra[1..];
      var next := base + [e];
      calc {
        Spread(base, extra);
        Spread(Assign(base, e.0, e.1), rest);
      == { assert !Has(base, extra[0].0); }
        Spread(next, rest);
      == { DistinctTail(extra); StillFresh(base, extra); SpreadFresh(next, rest); }
        next + rest;
        base + extra;
      }
    }
  }

  /** After the first new property is appended, the remaining ones are still new. */
  lemma StillFresh<V>(base: Entries<V>, extra: Entries<V>)
    requires extra != [] && DistinctNames(extra)
    requires forall i :: 0 <= i < |extra| ==> !Has(base, extra[i].0)
    ensures forall i :: 1 <= i < |extra| ==> !Has(base + [extra[0]], extra[i].0)
  {
    forall i | 1 <= i < |extra|
      ensures !Has(base + [extra[0]], extra[i].0)
    {
      HasAppend(base, [extra[0]], extra[i].0);
      assert [extra[0]][1..] == [];
    }
  }

  /**
    With distinct names in extra, a property of the spread object has
    extra's value when extra has it and base's value otherwise.
   */
  lemma {:induction false} SpreadLookup<V>(base: Entries<V>, extra: Entries<V>, n: string)
    requires DistinctNames(extra)
    ensures Lookup(Spread(base, extra), n) == if Has(extra, n) then Lookup(extra, n) else Lookup(base, n)
    decreases |extra|
  {
    if extra != [] {
      var next := Assign(base, extra[0].0, extra[0].1);
      var rest := extra[1..];
      DistinctTail(extra);
      SpreadLookup(next, rest, n);
      if n == extra[0].0 {
        NotHasDistinctTail(extra);
      }
    }
  }

  /** Dropping the first property keeps names distinct. */
  lemma DistinctTail<V>(es: Entries<V>)
    requires es != [] && DistinctNames(es)
    ensures DistinctNames(es[1..])
  {
  }

  /** A name that occurs at no position is not a property. */
  lemma {:induction false} NotHasAt<V>(es: Entries<V>, name: string)
    requires forall i :: 0 <= i < |es| ==> es[i].0 != name
    ensures !Has(es, name)
    decreases |es|
  {
    if es != [] {
      var rest := es[1..];
      forall i | 0 <= i < |rest|
        ensures rest[i].0 != name
      {
        assert rest[i] == es[i + 1];
      }
      NotHasAt(rest, name);
    }
  }

  /** In an object with distinct names the first name does not occur again. */
  lemma NotHasDistinctTail<V>(es: Entries<V>)
    requires es != [] && DistinctNames(es)
    ensures !Has(es[1..], es[0].0)
  {
    var rest := es[1..];
    forall i | 0 <= i < |rest|
      ensures rest[i].0 != es[0].0
    {
      assert rest[i] == es[i + 1];
    }
    NotHasAt(rest, es[0].0);
  }

  /** What the key function returns: null (no further page), or the parameters of the next request. */
  datatype Key = End | Fetch(params: Entries<ParamValue>)

  /** `previousPageData?.[length - 1]?.id || ''`: the id of the previous page's last conversation, '' without one. */
  function Cursor(prev: Option<seq<Conversation>>): string
  {
    if prev.Some? && prev.value != [] then prev.value[|prev.value| - 1].id else ""
  }

  /** The four parameters written before the tab's: cursor, conversation id, evaluation and agent. */
  function BaseParams(q: Query, cursor: string): Entries<ParamValue>
  {
    [ ("cursor", Str(cursor)),
      ("conversationId", Str(Text(q, "conversationId"))),
      ("eval", Str(Text(q, "eval"))),
      ("agentId", Str(Text(q, "agentId"))) ]
  }

  /**
    The key function. `prev` is the previous page's data, None for the first
    page. The request for `/api/logs` is built from the parameter record
    (the URLSearchParams serialisation of it is not modelled). The first
    page, having no previous page, always gets a key.
   */
  function PageKey(q: Query, prev: Option<seq<Conversation>>): (k: Key)
    ensures k.End? <==> prev == Some([])
  {
    if prev.Some? && prev.value == [] then End
    else Fetch(Spread(BaseParams(q, Cursor(prev)), TabToParams(Get(q, "tab"))))
  }

  /**
    Whenever a key is produced: cursor is the previous page's last id ('' on
    the first page); conversationId, eval and agentId are always present,
    read as '' when missing; the tab only adds status and unread after them,
    overriding none of the four; and no parameter is written twice.
   */
  lemma PageKeyParams(q: Query, prev: Option<seq<Conversation>>)
    requires prev != Some([])
    ensures var ps := PageKey(q, prev).params;
      && |ps| >= 4
      && ps[..4] == [ ("cursor", Str(if prev.None? then "" else prev.value[|prev.value| - 1].id)),
                      ("conversationId", Str(Text(q, "conversationId"))),
                      ("eval", Str(Text(q, "eval"))),
                      ("agentId", Str(Text(q, "agentId"))) ]
      && ps[4..] == TabToParams(Get(q, "tab"))
      && DistinctNames(ps)
  {
    var base := BaseParams(q, Cursor(prev));
    var extra := TabToParams(Get(q, "tab"));
    assert PageKey(q, prev).params == base + extra by {
      forall i | 0 <= i < |extra|
        ensures !Has(base, extra[i].0)
      {
        NotHasAt(base, extra[i].0);
      }
      SpreadFresh(base, extra);
    }
    KeyNamesDistinct(base, extra);
  }

  /** The four base names and the tab's two are all different. */
  lemma KeyNamesDistinct(base: Entries<ParamValue>, extra: Entries<ParamValue>)
    requires |base| == 4 && base[0].0 == "cursor" && base[1].0 == "conversationId"
    requires base[2].0 == "eval" && base[3].0 == "agentId"
    requires extra == [] || (|extra| == 2 && extra[0].0 == "status" && extra[1].0 == "unread")
    ensures DistinctNames(base + extra)
  {
  }

  /**
    A recognised tab's restrictions reach the request: status carries the
    tab's status restriction ('' for none) and unread is true exactly on the
    unread tab.
   */
  lemma PageKeyTabFilters(q: Query, prev: Option<seq<Conversation>>, t: Tab)
    requires prev != Some([])
    requires Get(q, "tab") == Some(Name(t))
    ensures Lookup(PageKey(q, prev).params, "status") == Some(Str(StatusParam(StatusFilter(t))))
    ensures Lookup(PageKey(q, prev).params, "unread") == Some(if UnreadOnly(t) then Boolean(true) else Str(""))
  {
    ParseName(t);
    var base := BaseParams(q, Cursor(prev));
    var extra := TabToParams(Get(q, "tab"));
    SpreadLookup(base, extra, "status");
    SpreadLookup(base, extra, "unread");
  }

  /**
    Cursor pagination: the key depends on the previous page only through the
    id of its last conversation.
   */
  lemma SameLastIdSameKey(q: Query, p1: seq<Conversation>, p2: seq<Conversation>)
    requires p1 != [] && p2 != []
    requires p1[|p1| - 1].id == p2[|p2| - 1].id
    ensures PageKey(q, Some(p1)) == PageKey(q, Some(p2))
  {
  }

  /** The infinite-scroll state: pages requested so far, and whether the end was seen. */
  datatype Scroll = Scroll(size: nat, hasReachedEnd: bool)

  /** The scroller asks for more while the end has not been seen (hasMore). */
  predicate HasMore(s: Scroll)
  {
    !s.hasReachedEnd
  }

  /** Computing a key: an End key records that the end was reached; nothing else changes. */
  function OnKey(s: Scroll, k: Key): (r: Scroll)
    ensures r.size == s.size
    ensures r.hasReachedEnd <==> s.hasReachedEnd || k.End?
  {
    if k.End? then s.(hasReachedEnd := true) else s
  }

  /** loadMore: one more page is requested unless the list is loading or revalidating. */
  function LoadMore(s: Scroll, isLoading: bool, isValidating: bool): (r: Scroll)
    ensures r.hasReachedEnd == s.hasReachedEnd
    ensures r.size == if isLoading || isValidating then s.size else s.size + 1
  {
    if isLoading || isValidating then s else s.(size := s.size + 1)
  }

  /**
    Once the key function has seen an empty previous page the scroller stops
    asking for more, and neither loadMore nor any later key restarts it.
   */
  lemma EndIsFinal(s: Scroll, q: Query, page: seq<Conversation>, isLoading: bool, isValidating: bool, k: Key)
    ensures HasMore(OnKey(s, PageKey(q, Some(page)))) <==> HasMore(s) && page != []
    ensures !HasMore(s) ==> !HasMore(LoadMore(s, isLoading, isValidating)) && !HasMore(OnKey(s, k))
  {
  }

  /**
    The page as written: the end flag is only ever set, by OnKey. After the
    end of one tab's list was seen, moving to another tab starts a new list
    (its first key is a fresh request with a different status or unread
    filter), yet the scroller still reports nothing more to load.
   */
  lemma EndSurvivesTabChange(s: Scroll, q: Query, t: Tab)
    requires !HasMore(s)
    requires Parse(Get(q, "tab")).Some? && Parse(Get(q, "tab")).value != t
    ensures PageKey(ChangeTab(q, t), None).Fetch?
    ensures PageKey(ChangeTab(q, t), None) != PageKey(q, None)
    ensures !HasMore(OnKey(s, PageKey(ChangeTab(q, t), None)))
  {
    FirstKeysDiffer(q, t);
  }

  /** Two different recognised tabs give different first-page keys. */
  lemma FirstKeysDiffer(q: Query, t: Tab)
    requires Parse(Get(q, "tab")).Some? && Parse(Get(q, "tab")).value != t
    ensures PageKey(ChangeTab(q, t), None) != PageKey(q, None)
  {
    var q' := ChangeTab(q, t);
    var a, b := TabToParams(Get(q, "tab")), TabToParams(Get(q', "tab"));
    assert a != b by {
      assert Parse(Get(q', "tab")) == Some(t);
      assert a[0].1 != b[0].1 || a[1].1 != b[1].1;
    }
    assert PageKey(q, None).params[4..] == a by {
      PageKeyParams(q, None);
    }
    assert PageKey(q', None).params[4..] == b by {
      PageKeyParams(q', None);
    }
  }

  /**
    The end flag as the page evidently intends it: a query whose first page
    differs starts a new list, so the end seen for the old list is
    forgotten; the same list keeps its state.
   */
  function ResetOnNewList(s: Scroll, before: Query, after: Query): (r: Scroll)
    ensures r.size == s.size
    ensures PageKey(before, None) != PageKey(after, None) ==> HasMore(r)
    ensures PageKey(before, None) == PageKey(after, None) ==> r == s
  {
    if PageKey(before, None) != PageKey(after, None) then s.(hasReachedEnd := false) else s
  }

  /** With the reset, moving to another tab lets its list load further pages. */
  lemma NewTabCanLoadMore(s: Scroll, q: Query, t: Tab)
    requires Parse(Get(q, "tab")).Some? && Parse(Get(q, "tab")).value != t
    ensures HasMore(OnKey(ResetOnNewList(s, q, ChangeTab(q, t)), PageKey(ChangeTab(q, t), None)))
  {
    FirstKeysDiffer(q, t);
  }
}
