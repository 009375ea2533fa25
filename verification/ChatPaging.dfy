/** Chat history read page by page, upward from the newest message, while it changes underneath. */
module ChatPaging {
  import opened Prelude

  /** A message's place in the conversation. */
  datatype Key = Key(createdAt: int, id: nat)
  type Snapshot = set<Key>

  predicate Older(a: Key, b: Key) {
    a.createdAt < b.createdAt || (a.createdAt == b.createdAt && a.id < b.id)
  }

  // ---------------------------------------------------------------- one page

  /** The filter of a page: everything, or what is strictly before the cursor. */
  function Before(messages: Snapshot, cursor: Option<Key>): (r: Snapshot)
    ensures r <= messages
  {
    set k | k in messages && (cursor.Some? ==> Older(k, cursor.value))
  }

  ghost predicate IsNewest(messages: Snapshot, m: Key) {
    m in messages && forall k :: k in messages ==> k == m || Older(k, m)
  }

  lemma {:induction false} NewestExists(messages: Snapshot)
    requires messages != {}
    ensures exists m :: IsNewest(messages, m)
    decreases |messages|
  {
    var m :| m in messages;
    var rest := messages - {m};
    assert forall k :: k in messages ==> k == m || k in rest;
    if rest == {} {
      assert IsNewest(messages, m);
    } else {
      NewestExists(rest);
      var n :| IsNewest(rest, n);
      assert IsNewest(messages, if Older(m, n) then n else m);
    }
  }

  ghost function Newest(messages: Snapshot): (m: Key)
    requires messages != {}
    ensures IsNewest(messages, m)
  {
    NewestExists(messages);
    var m :| IsNewest(messages, m);
    m
  }

  /** Ordered by time and id, both descending, and cut off after `take`. */
  ghost function Latest(messages: Snapshot, take: nat): seq<Key>
    decreases take
  {
    if take == 0 || messages == {} then []
    else [Newest(messages)] + Latest(messages - {Newest(messages)}, take - 1)
  }

  function Reverse(s: seq<Key>): seq<Key> {
    seq(|s|, i requires 0 <= i < |s| => s[|s| - 1 - i])
  }

  ghost function FindAll(messages: Snapshot, cursor: Option<Key>, take: nat): seq<Key> {
    Reverse(Latest(Before(messages, cursor), take))
  }

  predicate Ascending(s: seq<Key>) {
    forall i, j :: 0 <= i < j < |s| ==> Older(s[i], s[j])
  }

  predicate AllIn(s: seq<Key>, messages: Snapshot) {
    forall i :: 0 <= i < |s| ==> s[i] in messages
  }

  predicate OlderThanAll(k: Key, s: seq<Key>) {
    forall i :: 0 <= i < |s| ==> Older(k, s[i])
  }

  predicate Descending(s: seq<Key>) {
    forall i, j :: 0 <= i < j < |s| ==> Older(s[j], s[i])
  }

  ghost predicate LeavesOutOlder(messages: Snapshot, s: seq<Key>) {
    forall k {:trigger OlderThanAll(k, s)} :: k in messages && k !in s ==> OlderThanAll(k, s)
  }

  lemma NewestInFront(messages: Snapshot, m: Key, rest: seq<Key>)
    requires IsNewest(messages, m)
    requires AllIn(rest, messages - {m}) && Descending(rest) && LeavesOutOlder(messages - {m}, rest)
    ensures AllIn([m] + rest, messages) && Descending([m] + rest) && LeavesOutOlder(messages, [m] + rest)
  {
    var s := [m] + rest;
    forall i, j | 0 <= i < j < |s|
      ensures Older(s[j], s[i])
    {
      assert s[j] == rest[j - 1];
    }
    forall k | k in messages && k !in s
      ensures OlderThanAll(k, s)
    {
      assert k != s[0] && k !in rest;
      assert OlderThanAll(k, rest);
    }
  }

  lemma {:induction false} LatestAreTheNewest(messages: Snapshot, take: nat)
    ensures var s := Latest(messages, take);
            && |s| == Min(take, |messages|)
            && AllIn(s, messages) && Descending(s) && LeavesOutOlder(messages, s)
    decreases take
  {
    if take > 0 && messages != {} {
      var m := Newest(messages);
      LatestAreTheNewest(messages - {m}, take - 1);
      NewestInFront(messages, m, Latest(messages - {m}, take - 1));
    }
  }

  lemma ReverseKeeps(s: seq<Key>)
    ensures forall k :: k in s ==> k in Reverse(s)
  {
    forall k | k in s
      ensures k in Reverse(s)
    {
      var i :| 0 <= i < |s| && s[i] == k;
      assert Reverse(s)[|s| - 1 - i] == k;
    }
  }

  lemma FirstIsOldest(s: seq<Key>, k: Key)
    requires Ascending(s) && k in s
    ensures !Older(k, s[0])
  {
    var i :| 0 <= i < |s| && s[i] == k;
    assert i > 0 ==> Older(s[0], s[i]);
  }

  /** A page is the newest `take` messages before the cursor, oldest first: anything left out of it
      is older than all of it. */
  lemma PageIsNewestBeforeCursor(messages: Snapshot, cursor: Option<Key>, take: nat)
    ensures var page := FindAll(messages, cursor, take);
            && |page| == Min(take, |Before(messages, cursor)|)
            && AllIn(page, Before(messages, cursor))
            && Ascending(page)
            && (forall k :: k in Before(messages, cursor) && k !in page ==> OlderThanAll(k, page))
  {
    LatestAreTheNewest(Before(messages, cursor), take);
    var s := Latest(Before(messages, cursor), take);
    var page := FindAll(messages, cursor, take);
    ReverseKeeps(s);
    forall k | k in Before(messages, cursor) && k !in page
      ensures OlderThanAll(k, page)
    {
      assert OlderThanAll(k, s);
    }
  }

  // ---------------------------------------------------------------- all pages

  datatype Loaded = Loaded(messages: seq<Key>, complete: bool)

  /** The reader asks for pages while they come back full, each before the oldest message so far;
      page i is answered from snapshot i. */
  ghost function LoadAll(snapshots: seq<Snapshot>, cursor: Option<Key>, take: nat): Loaded
    decreases |snapshots|
  {
    if snapshots == [] then Loaded([], false) else
    var page := FindAll(snapshots[0], cursor, take);
    if |page| < take || page == [] then Loaded(page, true) else
    var earlier := LoadAll(snapshots[1..], Some(page[0]), take);
    Loaded(earlier.messages + page, earlier.complete)
  }

  /** What arrives after a page is not before the oldest message on it. */
  ghost predicate NoneBefore(older: Snapshot, newer: Snapshot, first: Key) {
    forall k :: k in newer && k !in older ==> !Older(k, first)
  }

  /** Between pages anything may be deleted, and nothing arrives that the next page could show. */
  ghost predicate Conversation(snapshots: seq<Snapshot>, cursor: Option<Key>, take: nat)
    decreases |snapshots|
  {
    |snapshots| > 1 ==>
      var page := FindAll(snapshots[0], cursor, take);
      page != [] && |page| == take ==>
        && NoneBefore(snapshots[0], snapshots[1], page[0])
        && Conversation(snapshots[1..], Some(page[0]), take)
  }

  /** What the next page can still show was there for this one, and this one did not show it. */
  lemma NextPageShrinks(older: Snapshot, newer: Snapshot, cursor: Option<Key>, take: nat)
    requires var page := FindAll(older, cursor, take);
             page != [] && |page| == take && NoneBefore(older, newer, page[0])
    ensures var page := FindAll(older, cursor, take);
            && Before(newer, Some(page[0])) <= Before(older, cursor)
            && |Before(newer, Some(page[0]))| + take <= |Before(older, cursor)|
  {
    PageIsNewestBeforeCursor(older, cursor, take);
    var page := FindAll(older, cursor, take);
    var left := Before(newer, Some(page[0]));
    assert page[0] in Before(older, cursor);
    forall k | k in left
      ensures k in Before(older, cursor) && k !in page
    {
      if k in page {
        FirstIsOldest(page, k);
      }
    }
    DistinctCount(page, Before(older, cursor) - left);
    var shown := Before(older, cursor) - left;
    assert left + shown == Before(older, cursor);
  }

  lemma {:induction false} DistinctCount(s: seq<Key>, messages: Snapshot)
    requires Ascending(s) && AllIn(s, messages)
    ensures |s| <= |messages|
    decreases |s|
  {
    if s != [] {
      var last := s[|s| - 1];
      assert last in messages;
      DistinctCount(s[..|s| - 1], messages - {last});
    }
  }

  /** Pages never overlap and never go back: what is loaded is strictly in order, so each message is
      in it at most once, and all of it is from before the cursor. */
  lemma {:induction false} LoadedInOrder(snapshots: seq<Snapshot>, cursor: Option<Key>, take: nat)
    ensures var r := LoadAll(snapshots, cursor, take);
            && Ascending(r.messages)
            && (cursor.Some? ==> forall i :: 0 <= i < |r.messages| ==> Older(r.messages[i], cursor.value))
    decreases |snapshots|
  {
    if snapshots != [] {
      PageIsNewestBeforeCursor(snapshots[0], cursor, take);
      var page := FindAll(snapshots[0], cursor, take);
      if |page| == take && page != [] {
        LoadedInOrder(snapshots[1..], Some(page[0]), take);
        var earlier := LoadAll(snapshots[1..], Some(page[0]), take).messages;
        assert page[0] in Before(snapshots[0], cursor);
        JoinAscending(earlier, page);
      }
    }
  }

  lemma JoinAscending(a: seq<Key>, b: seq<Key>)
    requires Ascending(a) && Ascending(b) && b != []
    requires forall i :: 0 <= i < |a| ==> Older(a[i], b[0])
    ensures Ascending(a + b)
  {
    forall i, j | 0 <= i < j < |a + b|
      ensures Older((a + b)[i], (a + b)[j])
    {
      if i < |a| <= j {
        assert Older(a[i], b[0]);
        assert (a + b)[j] == b[j - |a|];
      }
    }
  }

  predicate Throughout(snapshots: seq<Snapshot>, k: Key) {
    forall i :: 0 <= i < |snapshots| ==> k in snapshots[i]
  }

  /** Nothing that stays is missed, even when messages used as cursors are deleted. */
  lemma {:induction false} LoadedIsComplete(snapshots: seq<Snapshot>, cursor: Option<Key>, take: nat, k: Key)
    requires LoadAll(snapshots, cursor, take).complete
    requires Throughout(snapshots, k)
    requires cursor.Some? ==> Older(k, cursor.value)
    requires take > 0
    ensures k in LoadAll(snapshots, cursor, take).messages
    decreases |snapshots|
  {
    PageIsNewestBeforeCursor(snapshots[0], cursor, take);
    var page := FindAll(snapshots[0], cursor, take);
    assert k in snapshots[0];
    assert k in Before(snapshots[0], cursor);
    if |page| < take {
      if k !in page {
        ShortPageHasAll(snapshots[0], cursor, take, k);
      }
    } else if k !in page {
      assert OlderThanAll(k, page);
      LoadedIsComplete(snapshots[1..], Some(page[0]), take, k);
    }
  }

  lemma ShortPageHasAll(messages: Snapshot, cursor: Option<Key>, take: nat, k: Key)
    requires |FindAll(messages, cursor, take)| < take
    requires k in Before(messages, cursor)
    ensures k in FindAll(messages, cursor, take)
  {
    PageIsNewestBeforeCursor(messages, cursor, take);
    var page := FindAll(messages, cursor, take);
    var all := Before(messages, cursor);
    if k !in page {
      assert AllIn(page, all - {k});
      DistinctCount(page, all - {k});
    }
  }

  lemma OnePageLess(left: nat, all: nat, pages: nat, take: nat)
    requires left + take <= all < pages * take
    ensures left < (pages - 1) * take
  {
  }

  /** Paging ends: a conversation of n messages takes at most n / take + 1 pages. */
  lemma {:induction false} PagingEnds(snapshots: seq<Snapshot>, cursor: Option<Key>, take: nat)
    requires Conversation(snapshots, cursor, take)
    requires take > 0
    requires snapshots != [] && |Before(snapshots[0], cursor)| < |snapshots| * take
    ensures LoadAll(snapshots, cursor, take).complete
    decreases |snapshots|
  {
    PageIsNewestBeforeCursor(snapshots[0], cursor, take);
    var page := FindAll(snapshots[0], cursor, take);
    if |page| == take {
      assert |snapshots| > 1;
      NextPageShrinks(snapshots[0], snapshots[1], cursor, take);
      OnePageLess(|Before(snapshots[1], Some(page[0]))|, |Before(snapshots[0], cursor)|, |snapshots|, take);
      PagingEnds(snapshots[1..], Some(page[0]), take);
    }
  }

  /** Reading upward from the newest page ends, and has every message that stays exactly once, in order. */
  lemma HistoryIsComplete(snapshots: seq<Snapshot>, take: nat)
    requires Conversation(snapshots, None, take)
    requires take > 0
    requires snapshots != [] && |snapshots[0]| < |snapshots| * take
    ensures var r := LoadAll(snapshots, None, take);
            && r.complete
            && Ascending(r.messages)
            && (forall k :: Throughout(snapshots, k) ==> k in r.messages)
  {
    assert Before(snapshots[0], None) == snapshots[0];
    PagingEnds(snapshots, None, take);
    LoadedInOrder(snapshots, None, take);
    forall k | Throughout(snapshots, k)
      ensures k in LoadAll(snapshots, None, take).messages
    {
      LoadedIsComplete(snapshots, None, take, k);
    }
  }
}
