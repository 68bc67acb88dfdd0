/** What the check cycle guarantees about the sent-ID lists: deduplication
    against the stored list, oldest-first delivery, append-on-success,
    trimming to 200, the effect of a failed fetch, and which keys a cycle
    touches. */
module CycleProperties {
  import opened Wrappers
  import opened Records
  import opened CheckCycle

  // ---------------------------------------------------------------------
  // Sequence helpers

  lemma {:induction false} ReverseAt<T>(s: seq<T>, k: nat)
    requires k < |s|
    ensures Reverse(s)[k] == s[|s| - 1 - k]
  {
    if k > 0 {
      ReverseAt(s[..|s| - 1], k - 1);
    }
  }

  lemma ReverseMembership<T>(s: seq<T>, x: T)
    ensures x in Reverse(s) <==> x in s
  {
  }

  /** Whatever survives trimming was in the list. */
  lemma KeptWereThere(ids: seq<string>, x: string)
    requires x in KeepNewest(ids)
    ensures x in ids
  {
  }

  lemma ConcatNoDuplicates(a: seq<string>, b: seq<string>)
    requires NoDuplicates(a) && NoDuplicates(b)
    requires forall x :: x in b ==> x !in a
    ensures NoDuplicates(a + b)
  {
    var c := a + b;
    forall i, j | 0 <= i < j < |c| ensures c[i] != c[j] {
      if j < |a| {
        assert c[i] == a[i] && c[j] == a[j];
      } else if i < |a| {
        assert c[i] == a[i] && c[j] == b[j - |a|];
        assert b[j - |a|] in b;
      } else {
        assert c[i] == b[i - |a|] && c[j] == b[j - |a|];
      }
    }
  }

  // ---------------------------------------------------------------------
  // Selecting and ordering the new posts

  /** A fetched post is kept by the filter exactly when its ID string is not
      among the sent IDs. */
  lemma {:induction false} UnsentMembership(sent: seq<string>, fetched: seq<Post>, p: Post)
    ensures p in Unsent(sent, fetched) <==> p in fetched && IdString(p.id) !in sent
  {
    if fetched != [] {
      var n := |fetched| - 1;
      UnsentMembership(sent, fetched[..n], p);
      assert fetched == fetched[..n] + [fetched[n]];
    }
  }

  /** A post is handed to delivery exactly when it was fetched and its ID
      string is not in the list the search started from: a post already in
      the list is never delivered again. */
  lemma DeliveredExactlyUnsent(sent: seq<string>, fetched: seq<Post>, p: Post)
    ensures p in DeliveryOrder(sent, fetched) <==> p in fetched && IdString(p.id) !in sent
  {
    ReverseMembership(Unsent(sent, fetched), p);
    UnsentMembership(sent, fetched, p);
  }

  /** Delivery runs through the new posts in exactly the reverse of the API's order. */
  lemma DeliveryReversesApiOrder(sent: seq<string>, fetched: seq<Post>)
    ensures |DeliveryOrder(sent, fetched)| == |Unsent(sent, fetched)|
    ensures forall k :: 0 <= k < |Unsent(sent, fetched)| ==>
              DeliveryOrder(sent, fetched)[k] == Unsent(sent, fetched)[|Unsent(sent, fetched)| - 1 - k]
  {
    forall k | 0 <= k < |Unsent(sent, fetched)|
      ensures DeliveryOrder(sent, fetched)[k] == Unsent(sent, fetched)[|Unsent(sent, fetched)| - 1 - k]
    {
      ReverseAt(Unsent(sent, fetched), k);
    }
  }

  lemma {:induction false} UnsentKeepsOrder(sent: seq<string>, fetched: seq<Post>)
    requires NewestFirst(fetched)
    ensures NewestFirst(Unsent(sent, fetched))
  {
    if fetched != [] {
      var n := |fetched| - 1;
      var init := fetched[..n];
      UnsentKeepsOrder(sent, init);
      var u := Unsent(sent, init);
      forall i | 0 <= i < |u| ensures u[i].id > fetched[n].id {
        UnsentMembership(sent, init, u[i]);
      }
    }
  }

  /** When the API answers newest first, the new posts go out oldest first. */
  lemma DeliveredOldestFirst(sent: seq<string>, fetched: seq<Post>)
    requires NewestFirst(fetched)
    ensures OldestFirst(DeliveryOrder(sent, fetched))
  {
    UnsentKeepsOrder(sent, fetched);
    DeliveryReversesApiOrder(sent, fetched);
  }

  lemma {:induction false} UnsentDistinct(sent: seq<string>, fetched: seq<Post>)
    requires DistinctIds(fetched)
    ensures DistinctIds(Unsent(sent, fetched))
  {
    if fetched != [] {
      var n := |fetched| - 1;
      var init := fetched[..n];
      UnsentDistinct(sent, init);
      var u := Unsent(sent, init);
      forall i | 0 <= i < |u| ensures u[i].id != fetched[n].id {
        UnsentMembership(sent, init, u[i]);
      }
    }
  }

  lemma ReverseDistinct(posts: seq<Post>)
    requires DistinctIds(posts)
    ensures DistinctIds(Reverse(posts))
  {
    var r := Reverse(posts);
    forall i, j | 0 <= i < j < |r| ensures r[i].id != r[j].id {
      ReverseAt(posts, i);
      ReverseAt(posts, j);
    }
  }

  // ---------------------------------------------------------------------
  // Appending on success

  /** An ID string is appended exactly when some attempt that succeeded
      delivered a post with that ID. */
  lemma {:induction false} AppendedMembership(order: seq<Post>, succeeds: nat -> bool, x: string)
    ensures x in Appended(order, succeeds) <==>
            exists k :: 0 <= k < |order| && succeeds(k) && IdString(order[k].id) == x
  {
    if order != [] {
      var n := |order| - 1;
      var init := order[..n];
      AppendedMembership(init, succeeds, x);
      if x in Appended(init, succeeds) {
        var k :| 0 <= k < n && succeeds(k) && IdString(init[k].id) == x;
        assert order[k] == init[k];
      }
      if exists k :: 0 <= k < |order| && succeeds(k) && IdString(order[k].id) == x {
        var k :| 0 <= k < |order| && succeeds(k) && IdString(order[k].id) == x;
        if k < n {
          assert init[k] == order[k];
        }
      }
    }
  }

  /** When every delivery succeeds, every delivered ID is appended, in order. */
  lemma {:induction false} AllDelivered(order: seq<Post>, succeeds: nat -> bool)
    requires forall k :: 0 <= k < |order| ==> succeeds(k)
    ensures Appended(order, succeeds) == IdStrings(order)
  {
    if order != [] {
      AllDelivered(order[..|order| - 1], succeeds);
    }
  }

  /** When every delivery fails, nothing is appended. */
  lemma {:induction false} NoneDelivered(order: seq<Post>, succeeds: nat -> bool)
    requires forall k :: 0 <= k < |order| ==> !succeeds(k)
    ensures Appended(order, succeeds) == []
  {
    if order != [] {
      NoneDelivered(order[..|order| - 1], succeeds);
    }
  }

  lemma {:induction false} AppendedNoDuplicates(order: seq<Post>, succeeds: nat -> bool)
    requires DistinctIds(order)
    ensures NoDuplicates(Appended(order, succeeds))
  {
    if order != [] {
      var n := |order| - 1;
      var init := order[..n];
      AppendedNoDuplicates(init, succeeds);
      var a := Appended(init, succeeds);
      forall x | x in a ensures x != IdString(order[n].id) {
        AppendedMembership(init, succeeds, x);
        var k :| 0 <= k < n && succeeds(k) && IdString(init[k].id) == x;
        IdStringInjective(init[k].id, order[n].id);
      }
      ConcatNoDuplicates(a, if succeeds(n) then [IdString(order[n].id)] else []);
    }
  }

  // ---------------------------------------------------------------------
  // Trimming

  /** At most 200 IDs are appended per search in practice (the API returns at
      most 6 posts); the appended ones then all survive trimming, at the end. */
  lemma RecentSurviveTrim(ids: seq<string>, recent: seq<string>)
    requires |recent| <= MaxIdsToStore
    ensures |recent| <= |KeepNewest(ids + recent)|
    ensures KeepNewest(ids + recent)[|KeepNewest(ids + recent)| - |recent|..] == recent
  {
  }

  lemma KeepNewestNoDuplicates(ids: seq<string>)
    requires NoDuplicates(ids)
    ensures NoDuplicates(KeepNewest(ids))
  {
  }

  // ---------------------------------------------------------------------
  // One search

  /** A failed fetch leaves an array entry exactly as it was, and turns a
      missing or non-array entry into []. No other key changes. */
  lemma FetchFailure(state: State, key: string, succeeds: nat -> bool)
    ensures SearchOutcome(state, key, None, succeeds)[key] == IdList(StoredIds(state, key))
    ensures key !in state ==> SearchOutcome(state, key, None, succeeds)[key] == IdList([])
    ensures key in state && state[key].IdList? ==> SearchOutcome(state, key, None, succeeds) == state
  {
  }

  /** After a successful fetch: the list has at most 200 entries; when nothing
      had to be trimmed it is the old list followed by the IDs delivered
      successfully, in delivery order; and every entry was either in the old
      list or delivered successfully in this search. */
  lemma SearchUpdatesList(state: State, key: string, posts: seq<Post>, succeeds: nat -> bool)
    ensures |SearchOutcome(state, key, Some(posts), succeeds)[key].ids| <= MaxIdsToStore
    ensures var stored := StoredIds(state, key);
            var appended := Appended(DeliveryOrder(stored, posts), succeeds);
            |stored| + |appended| <= MaxIdsToStore ==>
              SearchOutcome(state, key, Some(posts), succeeds)[key].ids == stored + appended
    ensures forall x :: x in SearchOutcome(state, key, Some(posts), succeeds)[key].ids ==>
              x in StoredIds(state, key) ||
              exists k :: 0 <= k < |DeliveryOrder(StoredIds(state, key), posts)| && succeeds(k) &&
                          IdString(DeliveryOrder(StoredIds(state, key), posts)[k].id) == x
  {
    var stored := StoredIds(state, key);
    var order := DeliveryOrder(stored, posts);
    forall x | x in SearchOutcome(state, key, Some(posts), succeeds)[key].ids
      ensures x in stored || exists k :: 0 <= k < |order| && succeeds(k) && IdString(order[k].id) == x
    {
      KeptWereThere(stored + Appended(order, succeeds), x);
      AppendedMembership(order, succeeds, x);
    }
  }

  /** A new post whose every delivery attempt failed is not recorded, and the
      next cycle that fetches it again hands it to delivery again. */
  lemma FailedDeliveryRetried(
    state: State, key: string, posts: seq<Post>, succeeds: nat -> bool, later: seq<Post>, p: Post)
    requires p in posts && IdString(p.id) !in StoredIds(state, key)
    requires p in later
    requires forall k ::
               (0 <= k < |DeliveryOrder(StoredIds(state, key), posts)| &&
                DeliveryOrder(StoredIds(state, key), posts)[k].id == p.id) ==> !succeeds(k)
    ensures IdString(p.id) !in SearchOutcome(state, key, Some(posts), succeeds)[key].ids
    ensures p in DeliveryOrder(StoredIds(SearchOutcome(state, key, Some(posts), succeeds), key), later)
  {
    var stored := StoredIds(state, key);
    var order := DeliveryOrder(stored, posts);
    var x := IdString(p.id);
    if x in SearchOutcome(state, key, Some(posts), succeeds)[key].ids {
      KeptWereThere(stored + Appended(order, succeeds), x);
      AppendedMembership(order, succeeds, x);
      var k :| 0 <= k < |order| && succeeds(k) && IdString(order[k].id) == x;
      IdStringInjective(order[k].id, p.id);
      assert false;
    }
    DeliveredExactlyUnsent(StoredIds(SearchOutcome(state, key, Some(posts), succeeds), key), later, p);
  }

  /** A post delivered successfully is not delivered again by the next search
      of the same key: neither by the next cycle nor by a second configured
      search with the same tags in the same cycle. */
  lemma DeliveredNotRepeated(
    state: State, key: string, posts: seq<Post>, succeeds: nat -> bool, later: seq<Post>, k: nat)
    requires |posts| <= MaxIdsToStore
    requires k < |DeliveryOrder(StoredIds(state, key), posts)| && succeeds(k)
    ensures DeliveryOrder(StoredIds(state, key), posts)[k] !in
            DeliveryOrder(StoredIds(SearchOutcome(state, key, Some(posts), succeeds), key), later)
  {
    var stored := StoredIds(state, key);
    var order := DeliveryOrder(stored, posts);
    var appended := Appended(order, succeeds);
    var p := order[k];
    AppendedMembership(order, succeeds, IdString(p.id));
    RecentSurviveTrim(stored, appended);
    var kept := KeepNewest(stored + appended);
    assert IdString(p.id) in kept[|kept| - |appended|..];
    DeliveredExactlyUnsent(kept, later, p);
  }

  /** The list stays free of duplicates when the API's posts have distinct IDs. */
  lemma SearchKeepsNoDuplicates(state: State, key: string, fetched: Option<seq<Post>>, succeeds: nat -> bool)
    requires NoDuplicates(StoredIds(state, key))
    requires fetched.Some? ==> DistinctIds(fetched.value)
    ensures NoDuplicates(SearchOutcome(state, key, fetched, succeeds)[key].ids)
  {
    if fetched.Some? {
      var stored := StoredIds(state, key);
      var order := DeliveryOrder(stored, fetched.value);
      UnsentDistinct(stored, fetched.value);
      ReverseDistinct(Unsent(stored, fetched.value));
      AppendedNoDuplicates(order, succeeds);
      var appended := Appended(order, succeeds);
      forall x | x in appended ensures x !in stored {
        AppendedMembership(order, succeeds, x);
        var k :| 0 <= k < |order| && succeeds(k) && IdString(order[k].id) == x;
        DeliveredExactlyUnsent(stored, fetched.value, order[k]);
      }
      ConcatNoDuplicates(stored, appended);
      KeepNewestNoDuplicates(stored + appended);
    }
  }

  /** The filter tests against the list as it was before delivery, so a post
      the API returns twice is delivered twice and recorded twice. */
  lemma RepeatedPostSentTwice(state: State, key: string, p: Post, succeeds: nat -> bool)
    requires StoredIds(state, key) == []
    requires succeeds(0) && succeeds(1)
    ensures DeliveryOrder([], [p, p]) == [p, p]
    ensures SearchOutcome(state, key, Some([p, p]), succeeds)[key] == IdList([IdString(p.id), IdString(p.id)])
    ensures !NoDuplicates(SearchOutcome(state, key, Some([p, p]), succeeds)[key].ids)
  {
    assert [p, p][..1] == [p];
    assert Unsent([], [p, p]) == [p, p];
    assert Reverse([p, p]) == [p, p] by {
      assert [p, p][..1] == [p];
    }
    assert [p, p][..1] == [p];
    assert Appended([p, p], succeeds) == [IdString(p.id), IdString(p.id)];
    var list := SearchOutcome(state, key, Some([p, p]), succeeds)[key].ids;
    assert list[0] == list[1];
  }

  /** A list of 200 entries with one newly delivered post loses its oldest
      entry and gains the new ID at the end. */
  lemma FullListScenario(state: State, key: string, p: Post, succeeds: nat -> bool)
    requires |StoredIds(state, key)| == MaxIdsToStore
    requires IdString(p.id) !in StoredIds(state, key) && succeeds(0)
    ensures SearchOutcome(state, key, Some([p]), succeeds)[key]
            == IdList(StoredIds(state, key)[1..] + [IdString(p.id)])
  {
  }

  /** Stored ["100", "101"], the API returns 103, 102, 101 (newest first):
      102 and 103 are new and are delivered in that order. */
  lemma NewPostsOrderScenario(p103: Post, p102: Post, p101: Post)
    requires p103.id == 103 && p102.id == 102 && p101.id == 101
    ensures DeliveryOrder(["100", "101"], [p103, p102, p101]) == [p102, p103]
  {
    assert IdString(101) == "101" && IdString(102) == "102" && IdString(103) == "103";
    var fetched := [p103, p102, p101];
    var sent := ["100", "101"];
    assert fetched[..2] == [p103, p102] && [p103, p102][..1] == [p103] && [p103][..0] == [];
    assert Unsent(sent, [p103]) == [p103];
    assert Unsent(sent, [p103, p102]) == [p103, p102];
    assert Unsent(sent, fetched) == [p103, p102];
    assert [p103, p102][..1] == [p103];
    assert Reverse([p103, p102]) == [p102, p103];
  }

  /** The same scenario with both deliveries succeeding: the list becomes
      ["100", "101", "102", "103"]. */
  lemma NewPostsScenario(state: State, p103: Post, p102: Post, p101: Post, succeeds: nat -> bool)
    requires state == map["catgirl" := IdList(["100", "101"])]
    requires p103.id == 103 && p102.id == 102 && p101.id == 101
    requires succeeds(0) && succeeds(1)
    ensures SearchOutcome(state, "catgirl", Some([p103, p102, p101]), succeeds)["catgirl"]
            == IdList(["100", "101", "102", "103"])
  {
    NewPostsOrderScenario(p103, p102, p101);
    assert IdString(102) == "102" && IdString(103) == "103";
    assert [p102, p103][..1] == [p102];
    assert Appended([p102, p103], succeeds) == ["102", "103"];
    assert StoredIds(state, "catgirl") == ["100", "101"];
  }

  // ---------------------------------------------------------------------
  // A whole cycle

  /** Every list holds at most 200 IDs. */
  predicate WithinBound(state: State) {
    forall k :: k in state && state[k].IdList? ==> |state[k].ids| <= MaxIdsToStore
  }

  /** Every list is free of duplicates. */
  predicate DuplicateFree(state: State) {
    forall k :: k in state && state[k].IdList? ==> NoDuplicates(state[k].ids)
  }

  lemma SearchKeepsBound(state: State, key: string, fetched: Option<seq<Post>>, succeeds: nat -> bool)
    requires WithinBound(state)
    ensures WithinBound(SearchOutcome(state, key, fetched, succeeds))
  {
  }

  /** A cycle keeps every list within 200 entries. */
  lemma {:induction false} CycleKeepsBound(
    state: State, searches: seq<SearchConfig>, fetch: nat -> Option<seq<Post>>, succeeds: nat -> nat -> bool)
    requires WithinBound(state)
    ensures WithinBound(CycleOutcome(state, searches, fetch, succeeds))
  {
    if searches != [] {
      var n := |searches| - 1;
      CycleKeepsBound(state, searches[..n], fetch, succeeds);
      SearchKeepsBound(CycleOutcome(state, searches[..n], fetch, succeeds), searches[n].tags, fetch(n), succeeds(n));
    }
  }

  /** A cycle keeps every list free of duplicates when each fetch has distinct IDs. */
  lemma {:induction false} CycleKeepsNoDuplicates(
    state: State, searches: seq<SearchConfig>, fetch: nat -> Option<seq<Post>>, succeeds: nat -> nat -> bool)
    requires DuplicateFree(state)
    requires forall i :: 0 <= i < |searches| && fetch(i).Some? ==> DistinctIds(fetch(i).value)
    ensures DuplicateFree(CycleOutcome(state, searches, fetch, succeeds))
  {
    if searches != [] {
      var n := |searches| - 1;
      var before := CycleOutcome(state, searches[..n], fetch, succeeds);
      CycleKeepsNoDuplicates(state, searches[..n], fetch, succeeds);
      SearchKeepsNoDuplicates(before, searches[n].tags, fetch(n), succeeds(n));
    }
  }

  /** Search i of a cycle hands to delivery the new posts of its own fetch,
      judged against the state the searches before it left. */
  lemma {:induction false} CycleAttemptsAt(
    state: State, searches: seq<SearchConfig>, fetch: nat -> Option<seq<Post>>, succeeds: nat -> nat -> bool,
    i: nat)
    requires i < |searches|
    ensures CycleAttempts(state, searches, fetch, succeeds)[i]
            == Attempts(CycleOutcome(state, searches[..i], fetch, succeeds), searches[i].tags, fetch(i))
  {
    var n := |searches| - 1;
    if i < n {
      CycleAttemptsAt(state, searches[..n], fetch, succeeds, i);
      assert searches[..n][..i] == searches[..i];
    }
  }

  /** A cycle touches only the keys of the configured searches. */
  lemma {:induction false} CycleFrame(
    state: State, searches: seq<SearchConfig>, fetch: nat -> Option<seq<Post>>, succeeds: nat -> nat -> bool,
    key: string)
    requires forall i :: 0 <= i < |searches| ==> searches[i].tags != key
    ensures key in CycleOutcome(state, searches, fetch, succeeds) <==> key in state
    ensures key in state ==> CycleOutcome(state, searches, fetch, succeeds)[key] == state[key]
  {
    if searches != [] {
      CycleFrame(state, searches[..|searches| - 1], fetch, succeeds, key);
    }
  }

  /** After a cycle every configured search has an array entry, even one whose
      fetch failed. */
  lemma {:induction false} CycleMaterialisesKeys(
    state: State, searches: seq<SearchConfig>, fetch: nat -> Option<seq<Post>>, succeeds: nat -> nat -> bool,
    i: nat)
    requires i < |searches|
    ensures searches[i].tags in CycleOutcome(state, searches, fetch, succeeds)
    ensures CycleOutcome(state, searches, fetch, succeeds)[searches[i].tags].IdList?
  {
    var n := |searches| - 1;
    if i < n {
      CycleMaterialisesKeys(state, searches[..n], fetch, succeeds, i);
    }
  }

  /** A search whose fetch failed keeps its stored array unchanged over the
      cycle, provided no other configured search shares its tags. */
  lemma {:induction false} FailedFetchIsolated(
    state: State, searches: seq<SearchConfig>, fetch: nat -> Option<seq<Post>>, succeeds: nat -> nat -> bool,
    i: nat)
    requires i < |searches| && fetch(i).None?
    requires forall j :: 0 <= j < |searches| && j != i ==> searches[j].tags != searches[i].tags
    requires searches[i].tags in state && state[searches[i].tags].IdList?
    ensures searches[i].tags in CycleOutcome(state, searches, fetch, succeeds)
    ensures CycleOutcome(state, searches, fetch, succeeds)[searches[i].tags] == state[searches[i].tags]
  {
    var key := searches[i].tags;
    var n := |searches| - 1;
    var before := CycleOutcome(state, searches[..n], fetch, succeeds);
    if i < n {
      FailedFetchIsolated(state, searches[..n], fetch, succeeds, i);
    } else {
      CycleFrame(state, searches[..n], fetch, succeeds, key);
      FetchFailure(before, key, succeeds(n));
    }
  }
}
