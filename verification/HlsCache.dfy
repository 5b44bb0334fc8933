/** The disk cache of generated HLS output: least recently used entries go first, down to a size limit. */
module HlsCache {
  import opened Wrappers
  import opened Bytes

  /** A track and one of its variants: the directory an entry lives in. */
  datatype Key = Key(trackId: string, variant: string)

  /** A playlist with its init and media segments. */
  datatype Segments = Segments(count: nat, files: seq<Byte>)

  datatype Entry = Entry(segments: Segments, lastAccess: nat)

  type Store = map<Key, Entry>

  datatype EntryInfo = EntryInfo(root: Key, size: nat, lastAccess: nat)

  datatype HlsError = Io | InvalidData | Unsupported

  type Generator = Key -> Result<Segments, HlsError>

  function InfoOf(store: Store, k: Key): EntryInfo
    requires k in store
  {
    EntryInfo(k, |store[k].segments.files|, store[k].lastAccess)
  }

  // The size of a store.

  ghost function Total(store: Store): nat {
    if store == map[] then 0
    else
      var k :| k in store;
      |store[k].segments.files| + Total(store - {k})
  }

  lemma {:induction false} TotalWithout(store: Store, k: Key)
    requires k in store
    ensures Total(store) == |store[k].segments.files| + Total(store - {k})
    decreases |store|
  {
    var first :| first in store && Total(store) == |store[first].segments.files| + Total(store - {first});
    if first != k {
      TotalWithout(store - {first}, k);
      TotalWithout(store - {k}, first);
      assert store - {first} - {k} == store - {k} - {first};
    }
  }

  // Sorting by access time.

  predicate SortedByAccess(infos: seq<EntryInfo>) {
    forall i, j :: 0 <= i < j < |infos| ==> infos[i].lastAccess <= infos[j].lastAccess
  }

  /** Put `x` after the entries that are no newer. */
  function Insert(infos: seq<EntryInfo>, x: EntryInfo): seq<EntryInfo> {
    if infos == [] || infos[|infos| - 1].lastAccess <= x.lastAccess then infos + [x]
    else Insert(infos[..|infos| - 1], x) + [infos[|infos| - 1]]
  }

  /** A stable sort. */
  function Sort(infos: seq<EntryInfo>): seq<EntryInfo> {
    if infos == [] then [] else Insert(Sort(infos[..|infos| - 1]), infos[|infos| - 1])
  }

  lemma {:induction false} InsertAdds(infos: seq<EntryInfo>, x: EntryInfo)
    ensures multiset(Insert(infos, x)) == multiset(infos) + multiset{x}
    decreases |infos|
  {
    if infos != [] {
      var n := |infos| - 1;
      InsertAdds(infos[..n], x);
      assert infos == infos[..n] + [infos[n]];
    }
  }

  lemma {:induction false} InsertIsBounded(infos: seq<EntryInfo>, x: EntryInfo, bound: nat)
    requires x.lastAccess <= bound && forall i :: 0 <= i < |infos| ==> infos[i].lastAccess <= bound
    ensures forall i :: 0 <= i < |Insert(infos, x)| ==> Insert(infos, x)[i].lastAccess <= bound
    decreases |infos|
  {
    if infos != [] {
      InsertIsBounded(infos[..|infos| - 1], x, bound);
    }
  }

  lemma {:induction false} InsertSorts(infos: seq<EntryInfo>, x: EntryInfo)
    requires SortedByAccess(infos)
    ensures SortedByAccess(Insert(infos, x))
    decreases |infos|
  {
    if infos != [] && infos[|infos| - 1].lastAccess > x.lastAccess {
      var n := |infos| - 1;
      InsertSorts(infos[..n], x);
      InsertIsBounded(infos[..n], x, infos[n].lastAccess);
    }
  }

  lemma {:induction false} SortSorts(infos: seq<EntryInfo>)
    ensures SortedByAccess(Sort(infos))
    ensures multiset(Sort(infos)) == multiset(infos)
    decreases |infos|
  {
    hide Insert, SortedByAccess;
    if infos == [] {
      NothingIsSorted();
    } else {
      var n := |infos| - 1;
      SortSorts(infos[..n]);
      InsertSorts(Sort(infos[..n]), infos[n]);
      InsertAdds(Sort(infos[..n]), infos[n]);
      assert infos == infos[..n] + [infos[n]];
    }
  }

  lemma NothingIsSorted()
    ensures SortedByAccess([])
  {
  }

  /** Each entry is listed once. */
  ghost predicate Lists(infos: seq<EntryInfo>, store: Store) {
    && (forall x <- infos :: x.root in store && x == InfoOf(store, x.root))
    && (forall k <- store :: multiset(infos)[InfoOf(store, k)] == 1)
  }

  lemma SortedLists(infos: seq<EntryInfo>, store: Store)
    requires Lists(infos, store)
    ensures Lists(Sort(infos), store)
  {
    hide Sort;
    SortSorts(infos);
    forall x <- Sort(infos)
      ensures x.root in store && x == InfoOf(store, x.root)
    {
      assert x in multiset(Sort(infos));
      assert x in infos;
    }
  }

  lemma TwoPlaces(infos: seq<EntryInfo>, i: nat, j: nat)
    requires i < j < |infos| && infos[i] == infos[j]
    ensures multiset(infos)[infos[i]] >= 2
  {
    assert infos == infos[..j] + infos[j..];
    assert infos[..j][i] == infos[i] && infos[j..][0] == infos[j];
  }

  lemma ListedOnce(infos: seq<EntryInfo>, store: Store, i: nat, j: nat)
    requires Lists(infos, store) && i < j < |infos|
    ensures infos[i].root != infos[j].root
  {
    Listed(infos, store, i);
    Listed(infos, store, j);
    if infos[i] == infos[j] {
      TwoPlaces(infos, i, j);
    }
  }

  lemma Listed(infos: seq<EntryInfo>, store: Store, i: nat)
    requires Lists(infos, store) && i < |infos|
    ensures infos[i].root in store && infos[i] == InfoOf(store, infos[i].root)
  {
    assert infos[i] in infos;
  }

  // Eviction.

  ghost predicate Preserved(preserve: Option<Key>, k: Key) {
    preserve == Some(k)
  }

  /** What eviction does. Entries leave whole, oldest access first, never the preserved one, and
      no more of them than the limit asks for. */
  ghost predicate Evicted(before: Store, after: Store, limit: nat, preserve: Option<Key>) {
    && after.Keys <= before.Keys
    && (forall k <- after :: after[k] == before[k])
    && (forall k <- before :: Preserved(preserve, k) ==> k in after)
    && (Total(after) <= limit || forall k <- after :: Preserved(preserve, k))
    && (forall gone <- before, kept <- after :: gone !in after && !Preserved(preserve, kept) ==>
          before[gone].lastAccess <= before[kept].lastAccess)
    && (after != before ==> exists last :: IsLastEvicted(before, after, limit, last))
  }

  /** Keeping `last`, the newest of the evicted, would have broken the limit. */
  ghost predicate IsLastEvicted(before: Store, after: Store, limit: nat, last: Key) {
    && last in before && last !in after
    && (forall gone <- before :: gone !in after ==> before[gone].lastAccess <= before[last].lastAccess)
    && Total(after) + |before[last].segments.files| > limit
  }

  /** The first `i` of the sorted entries have been visited. */
  ghost predicate EvictedUpTo(infos: seq<EntryInfo>, i: nat, before: Store, store: Store, limit: nat,
    preserve: Option<Key>)
  {
    && i <= |infos| && Lists(infos, before) && SortedByAccess(infos)
    && store.Keys <= before.Keys
    && (forall k <- store :: store[k] == before[k])
    && (forall j :: 0 <= j < |infos| ==> (infos[j].root in store <==> j >= i || Preserved(preserve, infos[j].root)))
    && (store != before ==> exists last :: IsLastEvicted(before, store, limit, last))
  }

  lemma IndexOf(infos: seq<EntryInfo>, store: Store, k: Key) returns (j: nat)
    requires Lists(infos, store) && k in store
    ensures j < |infos| && infos[j] == InfoOf(store, k)
  {
    assert InfoOf(store, k) in multiset(infos);
    assert InfoOf(store, k) in infos;
    j :| j < |infos| && infos[j] == InfoOf(store, k);
  }

  lemma EvictionBegins(infos: seq<EntryInfo>, store: Store, limit: nat, preserve: Option<Key>)
    requires Lists(infos, store)
    ensures EvictedUpTo(Sort(infos), 0, store, store, limit, preserve)
  {
    hide Sort, Lists;
    SortSorts(infos);
    SortedLists(infos, store);
    AllListed(Sort(infos), store);
  }

  lemma KeepNext(infos: seq<EntryInfo>, i: nat, before: Store, store: Store, limit: nat, preserve: Option<Key>)
    requires i < |infos| && EvictedUpTo(infos, i, before, store, limit, preserve) && preserve == Some(infos[i].root)
    ensures EvictedUpTo(infos, i + 1, before, store, limit, preserve)
  {
    hide Lists, SortedByAccess, IsLastEvicted;
  }

  lemma EvictNext(infos: seq<EntryInfo>, i: nat, before: Store, store: Store, limit: nat, preserve: Option<Key>)
    requires i < |infos| && EvictedUpTo(infos, i, before, store, limit, preserve)
    requires Total(store) > limit && preserve != Some(infos[i].root)
    ensures infos[i].root in store
    ensures Total(store - {infos[i].root}) == Total(store) - infos[i].size
    ensures EvictedUpTo(infos, i + 1, before, store - {infos[i].root}, limit, preserve)
  {
    hide Total;
    var k := infos[i].root;
    var after := store - {k};
    TotalWithout(store, k);
    forall j | 0 <= j < |infos| && j != i
      ensures infos[j].root != k
    {
      if j < i {
        ListedOnce(infos, before, j, i);
      } else {
        ListedOnce(infos, before, i, j);
      }
    }
    forall gone <- before | gone !in after
      ensures before[gone].lastAccess <= before[k].lastAccess
    {
      var j := IndexOf(infos, before, gone);
    }
    assert IsLastEvicted(before, after, limit, k);
  }

  lemma EvictionEnds(infos: seq<EntryInfo>, i: nat, before: Store, store: Store, limit: nat, preserve: Option<Key>)
    requires EvictedUpTo(infos, i, before, store, limit, preserve)
    requires Total(store) <= limit || i == |infos|
    ensures Evicted(before, store, limit, preserve)
  {
    hide Total, IsLastEvicted, Preserved;
    forall k <- before
      ensures exists j: nat {:trigger infos[j]} :: j < |infos| && infos[j] == InfoOf(before, k)
    {
      var j := IndexOf(infos, before, k);
    }
  }

  lemma NothingEvicted(store: Store, limit: nat, preserve: Option<Key>)
    requires Total(store) <= limit
    ensures Evicted(store, store, limit, preserve)
  {
  }

  /** An entry that fits the limit together with all that are as recent, and the preserved one, stays. */
  ghost function Recent(store: Store, since: nat, preserve: Option<Key>): Store {
    map k | k in store && (store[k].lastAccess >= since || Preserved(preserve, k)) :: store[k]
  }

  lemma {:induction false} SmallerStore(part: Store, whole: Store)
    requires part.Keys <= whole.Keys
    requires forall k <- part :: |part[k].segments.files| == |whole[k].segments.files|
    ensures Total(part) <= Total(whole)
    ensures part.Keys == whole.Keys ==> Total(part) == Total(whole)
    decreases |part|
  {
    if part != map[] {
      var k :| k in part;
      TotalWithout(part, k);
      TotalWithout(whole, k);
      SmallerStore(part - {k}, whole - {k});
    }
  }

  lemma RecentEntriesStay(before: Store, after: Store, limit: nat, preserve: Option<Key>, key: Key)
    requires Evicted(before, after, limit, preserve) && key in before
    requires Total(Recent(before, before[key].lastAccess, preserve)) <= limit
    ensures key in after
  {
    hide Total;
    if key !in after {
      var last :| IsLastEvicted(before, after, limit, last);
      var recent := Recent(before, before[key].lastAccess, preserve);
      var more := after[last := before[last]];
      TotalWithout(more, last);
      assert more - {last} == after;
      SmallerStore(more, recent);
    }
  }

  // Requests.

  /** Every stored entry is what generating it now would give. */
  ghost predicate Faithful(store: Store, generate: Generator) {
    forall k <- store :: generate(k) == Ok(store[k].segments)
  }

  /** How a request changes the store, and its answer. */
  ghost predicate Served(before: Store, after: Store, limit: nat, generate: Generator, key: Key, now: nat,
    answer: Result<Segments, HlsError>)
  {
    exists room :: Evicted(before, room, limit, None) && ServedIn(room, after, limit, generate, key, now, answer)
  }

  ghost predicate ServedIn(room: Store, after: Store, limit: nat, generate: Generator, key: Key, now: nat,
    answer: Result<Segments, HlsError>)
  {
    if key in room then answer == Ok(room[key].segments) && after == room[key := Entry(room[key].segments, now)]
    else
      && answer == generate(key)
      && match answer
         case Err(_) => after == room
         case Ok(segments) => Evicted(room[key := Entry(segments, now)], after, limit, Some(key))
  }

  /** The limit holds, but for a single entry that does not fit it alone. */
  ghost predicate WithinLimit(store: Store, limit: nat) {
    Total(store) <= limit || exists k :: store.Keys == {k}
  }

  /** The cache is invisible: the answer is what generating would have given, and it is now stored. */
  lemma ServingIsTransparent(before: Store, after: Store, limit: nat, generate: Generator, key: Key, now: nat,
    answer: Result<Segments, HlsError>)
    requires Faithful(before, generate) && Served(before, after, limit, generate, key, now, answer)
    ensures answer == generate(key)
    ensures Faithful(after, generate) && WithinLimit(after, limit)
    ensures answer.Ok? ==> key in after && after[key] == Entry(answer.value, now)
  {
    hide Total, IsLastEvicted;
    var room :| Evicted(before, room, limit, None) && ServedIn(room, after, limit, generate, key, now, answer);
    EmptyStore();
    assert room == map[] || Total(room) <= limit;
    if key in room {
      SmallerStore(room, after);
    } else if answer.Ok? && Total(after) > limit {
      assert after.Keys == {key};
    }
  }

  lemma EmptyStore()
    ensures Total(map[]) == 0
  {
  }

  datatype Request = Request(key: Key, now: nat)

  ghost predicate Run(stores: seq<Store>, limit: nat, generate: Generator, requests: seq<Request>,
    answers: seq<Result<Segments, HlsError>>)
  {
    && |stores| == |requests| + 1 && |answers| == |requests|
    && stores[0] == map[]
    && (forall i :: 0 <= i < |requests| ==>
          Served(stores[i], stores[i + 1], limit, generate, requests[i].key, requests[i].now, answers[i]))
  }

  /** Over a whole run from an empty cache, every answer is what generating would have given. */
  lemma {:induction false} RunIsTransparent(stores: seq<Store>, limit: nat, generate: Generator, requests: seq<Request>,
    answers: seq<Result<Segments, HlsError>>, n: nat)
    requires Run(stores, limit, generate, requests, answers) && n <= |requests|
    ensures Faithful(stores[n], generate) && WithinLimit(stores[n], limit)
    ensures forall i :: 0 <= i < n ==> answers[i] == generate(requests[i].key)
    ensures forall i :: 0 <= i < n && answers[i].Ok? ==> requests[i].key in stores[i + 1]
    decreases n
  {
    hide Served, Total;
    if n == 0 {
      EmptyStore();
    } else {
      RunIsTransparent(stores, limit, generate, requests, answers, n - 1);
      var r := requests[n - 1];
      ServingIsTransparent(stores[n - 1], stores[n], limit, generate, r.key, r.now, answers[n - 1]);
    }
  }

  lemma NothingLeft(infos: seq<EntryInfo>, store: Store, left: Store)
    requires Lists(infos, store) && left.Keys <= store.Keys
    requires forall j :: 0 <= j < |infos| ==> infos[j].root !in left
    ensures left == map[]
  {
    if left != map[] {
      var k :| k in left;
      var j := IndexOf(infos, store, k);
    }
  }

  class Cache {
    const maxSizeBytes: nat
    var entries: Store

    constructor (maxSizeBytes: nat)
      ensures this.maxSizeBytes == maxSizeBytes && entries == map[]
    {
      this.maxSizeBytes := maxSizeBytes;
      entries := map[];
    }

    method CollectCacheEntries() returns (infos: seq<EntryInfo>)
      ensures Lists(infos, entries)
    {
      infos := [];
      var left := entries.Keys;
      while left != {}
        invariant left <= entries.Keys
        invariant forall x <- infos :: x.root in entries && x.root !in left && x == InfoOf(entries, x.root)
        invariant forall k <- entries :: k !in left ==> multiset(infos)[InfoOf(entries, k)] == 1
        decreases |left|
      {
        var k :| k in left;
        left := left - {k};
        assert InfoOf(entries, k) !in multiset(infos);
        infos := infos + [InfoOf(entries, k)];
      }
    }

    method EnforceSizeLimit(preserve: Option<Key>)
      modifies this
      ensures Evicted(old(entries), entries, maxSizeBytes, preserve)
    {
      hide *;
      var infos := CollectCacheEntries();
      var totalSize := SumOfSizes(infos, entries);
      if totalSize <= maxSizeBytes {
        NothingEvicted(entries, maxSizeBytes, preserve);
        return;
      }
      ghost var before := entries;
      EvictionBegins(infos, entries, maxSizeBytes, preserve);
      infos := Sort(infos);
      var i := 0;
      while i < |infos|
        invariant i <= |infos|
        invariant EvictedUpTo(infos, i, before, entries, maxSizeBytes, preserve)
        invariant totalSize == Total(entries)
      {
        if totalSize <= maxSizeBytes {
          break;
        }
        if preserve != Some(infos[i].root) {
          EvictNext(infos, i, before, entries, maxSizeBytes, preserve);
          entries := entries - {infos[i].root};
          totalSize := totalSize - infos[i].size;
        } else {
          KeepNext(infos, i, before, entries, maxSizeBytes, preserve);
        }
        i := i + 1;
      }
      EvictionEnds(infos, i, before, entries, maxSizeBytes, preserve);
    }

    method GetOrGenerate(key: Key, generate: Generator, now: nat) returns (answer: Result<Segments, HlsError>)
      modifies this
      ensures Served(old(entries), entries, maxSizeBytes, generate, key, now, answer)
    {
      hide Evicted;
      EnforceSizeLimit(None);
      ghost var room := entries;
      if key in entries {
        answer := Ok(entries[key].segments);
        entries := entries[key := entries[key].(lastAccess := now)];
      } else {
        answer := generate(key);
        if answer.Ok? {
          entries := entries[key := Entry(answer.value, now)];
          EnforceSizeLimit(Some(key));
        }
      }
      assert ServedIn(room, entries, maxSizeBytes, generate, key, now, answer);
    }

    method SumOfSizes(infos: seq<EntryInfo>, ghost store: Store) returns (sum: nat)
      requires Lists(infos, store)
      ensures sum == Total(store)
    {
      sum := 0;
      ghost var left := store;
      AllListed(infos, store);
      for i := 0 to |infos|
        invariant left.Keys <= store.Keys && forall k <- left :: left[k] == store[k]
        invariant forall j :: 0 <= j < |infos| ==> (infos[j].root in left <==> j >= i)
        invariant sum + Total(left) == Total(store)
      {
        hide Total, Lists;
        forall j | 0 <= j < |infos| && j != i
          ensures infos[j].root != infos[i].root
        {
          ListedOnce(infos, store, if j < i then j else i, if j < i then i else j);
        }
        TotalWithout(left, infos[i].root);
        assert infos[i].size == |left[infos[i].root].segments.files| by { Listed(infos, store, i); }
        sum := sum + infos[i].size;
        left := left - {infos[i].root};
      }
      NothingLeft(infos, store, left);
    }
  }

  lemma AllListed(infos: seq<EntryInfo>, store: Store)
    requires Lists(infos, store)
    ensures forall i :: 0 <= i < |infos| ==> infos[i].root in store && infos[i] == InfoOf(store, infos[i].root)
  {
    assert forall i :: 0 <= i < |infos| ==> infos[i] in infos;
  }
}
