/** One check cycle of the bot: for every configured search, the posts just
    fetched are compared with the search's list of already-sent post IDs, the
    new ones are delivered oldest first, the IDs of the delivered ones are
    appended and the list is cut to its newest 200 entries.

    The fetch result and the outcome of each delivery are inputs: a fetch is
    `Option<seq<Post>>` (None when the request failed), and `succeeds(k)` says
    whether the k-th delivery attempt of a search reached the webhook. */
module CheckCycle {
  import opened Wrappers
  import opened Records

  const MaxIdsToStore: nat := 200

  /** A value of the persisted state object: an array of ID strings, or any
      other JSON value a hand-edited state file may hold. */
  datatype Entry = IdList(ids: seq<string>) | NotAList

  /** The persisted state: search key to entry. */
  type State = map<string, Entry>

  /** The list a search starts from: its array entry, or [] when the key is
      missing or holds something other than an array. */
  function StoredIds(state: State, key: string): seq<string> {
    if key in state && state[key].IdList? then state[key].ids else []
  }

  predicate NoDuplicates(ids: seq<string>) {
    forall i, j :: 0 <= i < j < |ids| ==> ids[i] != ids[j]
  }

  predicate DistinctIds(posts: seq<Post>) {
    forall i, j :: 0 <= i < j < |posts| ==> posts[i].id != posts[j].id
  }

  /** IDs strictly decreasing: the API's newest-first order. */
  predicate NewestFirst(posts: seq<Post>) {
    forall i, j :: 0 <= i < j < |posts| ==> posts[i].id > posts[j].id
  }

  /** IDs strictly increasing. */
  predicate OldestFirst(posts: seq<Post>) {
    forall i, j :: 0 <= i < j < |posts| ==> posts[i].id < posts[j].id
  }

  /** The fetched posts whose ID string is not among the sent IDs, in the API's order. */
  function Unsent(sent: seq<string>, fetched: seq<Post>): (r: seq<Post>)
    ensures |r| <= |fetched|
  {
    if fetched == [] then []
    else
      var last := fetched[|fetched| - 1];
      Unsent(sent, fetched[..|fetched| - 1]) + (if IdString(last.id) in sent then [] else [last])
  }

  function Reverse<T>(s: seq<T>): (r: seq<T>)
    ensures |r| == |s|
  {
    if s == [] then [] else [s[|s| - 1]] + Reverse(s[..|s| - 1])
  }

  /** The posts handed to delivery, in the order they are delivered. */
  function DeliveryOrder(sent: seq<string>, fetched: seq<Post>): seq<Post> {
    Reverse(Unsent(sent, fetched))
  }

  /** The ID strings of the delivered posts whose attempt succeeded, in delivery order. */
  function Appended(order: seq<Post>, succeeds: nat -> bool): (ids: seq<string>)
    ensures |ids| <= |order|
  {
    if order == [] then []
    else
      var n := |order| - 1;
      Appended(order[..n], succeeds) + (if succeeds(n) then [IdString(order[n].id)] else [])
  }

  /** The ID strings of some posts, in order. */
  function IdStrings(posts: seq<Post>): (ids: seq<string>)
    ensures |ids| == |posts|
  {
    if posts == [] then [] else IdStrings(posts[..|posts| - 1]) + [IdString(posts[|posts| - 1].id)]
  }

  /** A list cut to its newest entries: the suffix of length min(|ids|, 200). */
  function KeepNewest(ids: seq<string>): (kept: seq<string>)
    ensures |kept| == if |ids| <= MaxIdsToStore then |ids| else MaxIdsToStore
    ensures kept == ids[|ids| - |kept|..]
  {
    if |ids| > MaxIdsToStore then ids[|ids| - MaxIdsToStore..] else ids
  }

  /** The state after processing one search with key `key`. A failed fetch
      leaves an array entry alone, writes [] for a missing or non-array entry
      and skips delivery and trimming. */
  function SearchOutcome(state: State, key: string, fetched: Option<seq<Post>>, succeeds: nat -> bool): (next: State)
    ensures key in next && next[key].IdList?
    ensures forall k :: k in next <==> k in state || k == key
    ensures forall k :: k in state && k != key ==> next[k] == state[k]
  {
    var ids := StoredIds(state, key);
    match fetched
    case None => state[key := IdList(ids)]
    case Some(posts) => state[key := IdList(KeepNewest(ids + Appended(DeliveryOrder(ids, posts), succeeds)))]
  }

  /** What one search hands to delivery. */
  function Attempts(state: State, key: string, fetched: Option<seq<Post>>): seq<Post> {
    if fetched.None? then [] else DeliveryOrder(StoredIds(state, key), fetched.value)
  }

  /** The state after processing the searches in order; search i sees fetch(i)
      and delivery outcomes succeeds(i). */
  function CycleOutcome(
    state: State, searches: seq<SearchConfig>,
    fetch: nat -> Option<seq<Post>>, succeeds: nat -> nat -> bool): State
    decreases |searches|
  {
    if searches == [] then state
    else
      var n := |searches| - 1;
      SearchOutcome(CycleOutcome(state, searches[..n], fetch, succeeds), searches[n].tags, fetch(n), succeeds(n))
  }

  /** What each search of a cycle hands to delivery, in configured order. */
  function CycleAttempts(
    state: State, searches: seq<SearchConfig>,
    fetch: nat -> Option<seq<Post>>, succeeds: nat -> nat -> bool): (attempts: seq<seq<Post>>)
    ensures |attempts| == |searches|
    decreases |searches|
  {
    if searches == [] then []
    else
      var n := |searches| - 1;
      CycleAttempts(state, searches[..n], fetch, succeeds)
        + [Attempts(CycleOutcome(state, searches[..n], fetch, succeeds), searches[n].tags, fetch(n))]
  }

  /** `latestPosts.filter(post => !sentIds.has(String(post.id)))`, where
      `sentIds` is the set view of the stored list. */
  method SelectUnsent(sentIds: set<string>, stored: seq<string>, latest: seq<Post>) returns (newPosts: seq<Post>)
    requires forall id :: id in sentIds <==> id in stored
    ensures newPosts == Unsent(stored, latest)
  {
    newPosts := [];
    for i := 0 to |latest|
      invariant newPosts == Unsent(stored, latest[..i])
    {
      assert latest[..i + 1][..i] == latest[..i];
      if IdString(latest[i].id) !in sentIds {
        newPosts := newPosts + [latest[i]];
      }
    }
    assert latest[..|latest|] == latest;
  }

  /** A second write to a key hides the first. */
  lemma UpdateTwice(state: State, key: string, first: Entry, second: Entry)
    ensures state[key := first][key := second] == state[key := second]
  {
  }

  /** The in-memory state object of one cycle, loaded at its start and saved at its end. */
  class StateTable {
    var entries: State

    constructor (loaded: State)
      ensures entries == loaded
    {
      entries := loaded;
    }

    /** The body of the cycle for one search. Returns the posts handed to
        delivery, in order. */
    method ProcessSearch(search: SearchConfig, fetched: Option<seq<Post>>, succeeds: nat -> bool)
      returns (attempted: seq<Post>)
      modifies this
      ensures entries == SearchOutcome(old(entries), search.tags, fetched, succeeds)
      ensures attempted == Attempts(old(entries), search.tags, fetched)
    {
      var key := search.tags;
      if !(key in entries && entries[key].IdList?) {
        entries := entries[key := IdList([])];
      }
      var stored := entries[key].ids;
      assert stored == StoredIds(old(entries), key);
      assert entries == old(entries)[key := IdList(stored)];
      var sentIds := set id | id in stored;
      attempted := [];
      if fetched.None? {
        return;
      }
      ghost var normalised := entries;
      assert fetched.Some?;
      var newPosts := SelectUnsent(sentIds, stored, fetched.value);
      if |newPosts| > 0 {
        attempted := Reverse(newPosts);
        DeliverInOrder(key, attempted, succeeds);
      } else {
        assert stored + [] == stored;
        assert entries == normalised[key := IdList(stored + [])];
      }
      ghost var appended := Appended(DeliveryOrder(stored, fetched.value), succeeds);
      assert entries == normalised[key := IdList(stored + appended)];
      var list := entries[key].ids;
      assert list == stored + appended;
      ghost var kept := KeepNewest(list);
      if |list| > MaxIdsToStore {
        ghost var untrimmed := entries;
        entries := entries[key := IdList(list[|list| - MaxIdsToStore..])];
        assert entries == untrimmed[key := IdList(kept)];
        UpdateTwice(normalised, key, IdList(list), IdList(kept));
      }
      assert entries == normalised[key := IdList(kept)];
      UpdateTwice(old(entries), key, IdList(stored), IdList(kept));
      assert SearchOutcome(old(entries), key, fetched, succeeds) == old(entries)[key := IdList(kept)];
    }

    /** Delivers `order` one post at a time and appends the ID string of each
        post whose delivery succeeded to the list under `key`. */
    method DeliverInOrder(key: string, order: seq<Post>, succeeds: nat -> bool)
      requires key in entries && entries[key].IdList?
      modifies this
      ensures entries == old(entries)[key := IdList(old(entries)[key].ids + Appended(order, succeeds))]
    {
      ghost var stored := entries[key].ids;
      assert stored + [] == stored;
      assert entries == entries[key := IdList(stored + [])];
      for k := 0 to |order|
        invariant entries == old(entries)[key := IdList(stored + Appended(order[..k], succeeds))]
      {
        assert order[..k + 1][..k] == order[..k];
        ghost var done := Appended(order[..k], succeeds);
        var post := order[k];
        var success := succeeds(k);
        if success {
          entries := entries[key := IdList(entries[key].ids + [IdString(post.id)])];
          assert stored + done + [IdString(post.id)] == stored + (done + [IdString(post.id)]);
        } else {
          assert done + [] == done;
        }
      }
      assert order[..|order|] == order;
    }

    /** One check cycle over the configured searches, in order. Returns, per
        search, the posts handed to delivery. */
    method PerformCheck(searches: seq<SearchConfig>, fetch: nat -> Option<seq<Post>>, succeeds: nat -> nat -> bool)
      returns (attempted: seq<seq<Post>>)
      modifies this
      ensures entries == CycleOutcome(old(entries), searches, fetch, succeeds)
      ensures attempted == CycleAttempts(old(entries), searches, fetch, succeeds)
    {
      attempted := [];
      for i := 0 to |searches|
        invariant entries == CycleOutcome(old(entries), searches[..i], fetch, succeeds)
        invariant attempted == CycleAttempts(old(entries), searches[..i], fetch, succeeds)
      {
        assert searches[..i + 1][..i] == searches[..i];
        var a := ProcessSearch(searches[i], fetch(i), succeeds(i));
        attempted := attempted + [a];
      }
      assert searches[..|searches|] == searches;
    }
  }
}
