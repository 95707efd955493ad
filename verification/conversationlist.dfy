/**
  The list the logs page renders: the conversation pinned by the
  `conversationId` parameter first, then every loaded page in order with the
  pinned conversation's id filtered out.
 */
module ConversationList {
  import opened Optional
  import opened Conversations

  /** `pages.flat()`: the pages concatenated in order. */
  function Flatten<T>(pages: seq<seq<T>>): seq<T>
  {
    if pages == [] then [] else pages[0] + Flatten(pages[1..])
  }

  /** Flattening commutes with appending pages. */
  lemma {:induction false} FlattenAppend<T>(a: seq<seq<T>>, b: seq<seq<T>>)
    ensures Flatten(a + b) == Flatten(a) + Flatten(b)
    decreases |a|
  {
    if a == [] {
      assert a + b == b;
    } else {
      assert (a + b)[1..] == a[1..] + b;
      FlattenAppend(a[1..], b);
    }
  }

  /** Flattening with one more page appends that page. */
  lemma FlattenAppendPage<T>(pages: seq<seq<T>>, page: seq<T>)
    ensures Flatten(pages + [page]) == Flatten(pages) + page
  {
    FlattenAppend(pages, [page]);
    assert [page][1..] == [];
    assert Flatten([page]) == page + [];
  }

  /** An item is in the flattened list exactly when it is on some page. */
  lemma {:induction false} FlattenMembership<T>(pages: seq<seq<T>>, x: T)
    ensures x in Flatten(pages) <==> exists i :: 0 <= i < |pages| && x in pages[i]
    decreases |pages|
  {
    if pages != [] {
      FlattenMembership(pages[1..], x);
      if x in Flatten(pages[1..]) {
        var i :| 0 <= i < |pages[1..]| && x in pages[1..][i];
        assert x in pages[i + 1];
      }
      if exists i :: 0 <= i < |pages| && x in pages[i] {
        var i :| 0 <= i < |pages| && x in pages[i];
        if i > 0 {
          assert x in pages[1..][i - 1];
        }
      }
    }
  }

  /**
    The filter `each.id !== pinned?.id`: an item survives unless its id is
    the pinned id. With no pinned conversation the id is undefined, which no
    item's id equals.
   */
  predicate Keeps(pinnedId: Option<string>, c: Conversation)
  {
    pinnedId != Some(c.id)
  }

  /** The items of xs that Keeps admits, in order: every item left is kept, and the list never grows. */
  function WithoutId(xs: seq<Conversation>, pinnedId: Option<string>): (r: seq<Conversation>)
    ensures |r| <= |xs|
    ensures forall i :: 0 <= i < |r| ==> Keeps(pinnedId, r[i])
  {
    if xs == [] then []
    else (if Keeps(pinnedId, xs[0]) then [xs[0]] else []) + WithoutId(xs[1..], pinnedId)
  }

  /** An item survives the filter exactly when it is in the list and Keeps admits it. */
  lemma {:induction false} WithoutIdMembership(xs: seq<Conversation>, pinnedId: Option<string>, c: Conversation)
    ensures c in WithoutId(xs, pinnedId) <==> c in xs && Keeps(pinnedId, c)
    decreases |xs|
  {
    if xs != [] {
      var head := if Keeps(pinnedId, xs[0]) then [xs[0]] else [];
      WithoutIdMembership(xs[1..], pinnedId, c);
      assert WithoutId(xs, pinnedId) == head + WithoutId(xs[1..], pinnedId);
      assert xs == [xs[0]] + xs[1..];
    }
  }

  /** xs occurs in ys in order, possibly with other items between. */
  predicate IsSubsequence<T(==)>(xs: seq<T>, ys: seq<T>)
    decreases |ys|
  {
    if xs == [] then true
    else if ys == [] then false
    else if xs[0] == ys[0] then IsSubsequence(xs[1..], ys[1..])
    else IsSubsequence(xs, ys[1..])
  }

  /** Filtering keeps the relative order of the surviving items. */
  lemma {:induction false} WithoutIdIsSubsequence(xs: seq<Conversation>, pinnedId: Option<string>)
    ensures IsSubsequence(WithoutId(xs, pinnedId), xs)
    decreases |xs|
  {
    if xs != [] {
      WithoutIdIsSubsequence(xs[1..], pinnedId);
      var tail := WithoutId(xs[1..], pinnedId);
      if Keeps(pinnedId, xs[0]) {
        assert ([xs[0]] + tail)[1..] == tail;
      } else {
        assert WithoutId(xs, pinnedId) == tail;
        SubsequenceOfTail(tail, xs);
      }
    }
  }

  /** A subsequence of the tail is a subsequence of the whole. */
  lemma {:induction false} SubsequenceOfTail<T>(xs: seq<T>, ys: seq<T>)
    requires ys != [] && IsSubsequence(xs, ys[1..])
    ensures IsSubsequence(xs, ys)
    decreases |ys|, 1
  {
    if xs != [] && xs[0] == ys[0] {
      SubsequenceDropHead(xs, ys[1..]);
    }
  }

  /** Dropping the first item of a subsequence leaves a subsequence. */
  lemma {:induction false} SubsequenceDropHead<T>(xs: seq<T>, ys: seq<T>)
    requires xs != [] && IsSubsequence(xs, ys)
    ensures IsSubsequence(xs[1..], ys)
    decreases |ys|, 2
  {
    if xs[0] == ys[0] {
      if xs[1..] != [] {
        SubsequenceOfTail(xs[1..], ys);
      }
    } else {
      SubsequenceDropHead(xs, ys[1..]);
      if xs[1..] != [] {
        SubsequenceOfTail(xs[1..], ys);
      }
    }
  }

  /**
    Only items carrying the pinned id are dropped: every other item keeps its
    number of occurrences, duplicates included.
   */
  lemma {:induction false} WithoutIdCounts(xs: seq<Conversation>, pinnedId: Option<string>, c: Conversation)
    ensures multiset(WithoutId(xs, pinnedId))[c] == if Keeps(pinnedId, c) then multiset(xs)[c] else 0
    decreases |xs|
  {
    if xs != [] {
      var head := if Keeps(pinnedId, xs[0]) then [xs[0]] else [];
      WithoutIdCounts(xs[1..], pinnedId, c);
      assert WithoutId(xs, pinnedId) == head + WithoutId(xs[1..], pinnedId);
      assert multiset(WithoutId(xs, pinnedId)) == multiset(head) + multiset(WithoutId(xs[1..], pinnedId));
      assert xs == [xs[0]] + xs[1..];
      assert multiset(xs) == multiset([xs[0]]) + multiset(xs[1..]);
    }
  }

  /** Filtering commutes with appending. */
  lemma {:induction false} WithoutIdAppend(a: seq<Conversation>, b: seq<Conversation>, pinnedId: Option<string>)
    ensures WithoutId(a + b, pinnedId) == WithoutId(a, pinnedId) + WithoutId(b, pinnedId)
    decreases |a|
  {
    if a == [] {
      assert a + b == b;
    } else {
      assert (a + b)[1..] == a[1..] + b;
      WithoutIdAppend(a[1..], b, pinnedId);
    }
  }

  /** The id the list filters out: the pinned conversation's, undefined without one. */
  function PinnedId(pinned: Option<Conversation>): Option<string>
  {
    if pinned.Some? then Some(pinned.value.id) else None
  }

  /**
    The `conversations` memo. `pinned` is the single conversation loaded for
    the `conversationId` parameter, `pages` the loaded pages (none while the
    list has not loaded). The pinned conversation comes first and never
    again; without one the list is the pages in order.
   */
  function Merge(pinned: Option<Conversation>, pages: seq<seq<Conversation>>): (r: seq<Conversation>)
    ensures pinned.Some? ==> |r| >= 1 && r[0] == pinned.value
    ensures pinned.Some? ==> forall i :: 1 <= i < |r| ==> r[i].id != pinned.value.id
    ensures pinned.None? ==> r == Flatten(pages)
  {
    var rest := WithoutId(Flatten(pages), PinnedId(pinned));
    if pinned.None? then
      WithoutIdNoPin(Flatten(pages));
      rest
    else
      [pinned.value] + rest
  }

  /** Merge is the pinned head, if any, followed by the filtered pages. */
  lemma MergeUnfold(pinned: Option<Conversation>, pages: seq<seq<Conversation>>)
    ensures Merge(pinned, pages) == (if pinned.Some? then [pinned.value] else []) + WithoutId(Flatten(pages), PinnedId(pinned))
  {
  }

  /** Without a pinned id nothing is filtered out. */
  lemma {:induction false} WithoutIdNoPin(xs: seq<Conversation>)
    ensures WithoutId(xs, None) == xs
    decreases |xs|
  {
    if xs != [] {
      WithoutIdNoPin(xs[1..]);
      assert xs == [xs[0]] + xs[1..];
    }
  }

  /** A conversation is listed exactly when it is pinned or loaded without the pinned id. */
  lemma MergeMembership(pinned: Option<Conversation>, pages: seq<seq<Conversation>>, c: Conversation)
    ensures c in Merge(pinned, pages) <==> pinned == Some(c) || (c in Flatten(pages) && Keeps(PinnedId(pinned), c))
  {
    MergeUnfold(pinned, pages);
    WithoutIdMembership(Flatten(pages), PinnedId(pinned), c);
  }

  /**
    Apart from the pinned head, the list is the loaded conversations in their
    loaded order, each occurring as often as it was loaded unless it carries
    the pinned id.
   */
  lemma MergeKeepsOrderAndCounts(pinned: Option<Conversation>, pages: seq<seq<Conversation>>, c: Conversation)
    ensures var r := Merge(pinned, pages);
      var rest := if pinned.Some? then r[1..] else r;
      && IsSubsequence(rest, Flatten(pages))
      && multiset(rest)[c] == if Keeps(PinnedId(pinned), c) then multiset(Flatten(pages))[c] else 0
  {
    var rest := WithoutId(Flatten(pages), PinnedId(pinned));
    WithoutIdIsSubsequence(Flatten(pages), PinnedId(pinned));
    WithoutIdCounts(Flatten(pages), PinnedId(pinned), c);
    if pinned.Some? {
      assert Merge(pinned, pages)[1..] == rest;
    } else {
      WithoutIdNoPin(Flatten(pages));
    }
  }

  /** The filtered list of the pages with one more page is the old filtered list followed by the new page filtered. */
  lemma FilteredPagesAppend(pinnedId: Option<string>, pages: seq<seq<Conversation>>, page: seq<Conversation>)
    ensures WithoutId(Flatten(pages + [page]), pinnedId) == WithoutId(Flatten(pages), pinnedId) + WithoutId(page, pinnedId)
  {
    FlattenAppendPage(pages, page);
    WithoutIdAppend(Flatten(pages), page, pinnedId);
  }

  /**
    Loading one more page only appends to the list: what was shown stays, in
    place, and the new page's items follow (the pinned id filtered out).
   */
  lemma LoadingAPageAppends(pinned: Option<Conversation>, pages: seq<seq<Conversation>>, page: seq<Conversation>)
    ensures Merge(pinned, pages + [page]) == Merge(pinned, pages) + WithoutId(page, PinnedId(pinned))
  {
    var id := PinnedId(pinned);
    var head := if pinned.Some? then [pinned.value] else [];
    var shown := WithoutId(Flatten(pages), id);
    var added := WithoutId(page, id);
    calc {
      Merge(pinned, pages + [page]);
    == { MergeUnfold(pinned, pages + [page]); }
      head + WithoutId(Flatten(pages + [page]), id);
    == { FilteredPagesAppend(id, pages, page); }
      head + (shown + added);
    ==
      (head + shown) + added;
    == { MergeUnfold(pinned, pages); }
      Merge(pinned, pages) + added;
    }
  }
}
