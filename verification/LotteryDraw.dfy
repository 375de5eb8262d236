/** The draw as `LotteryService` performs it: entry objects are shared between the fetched list
    and the pools, and winners are marked by writing to those objects. */
module LotteryDraw {
  import opened Ordering
  import opened LotterySpec

  class LotteryEntry {
    const id: string
    const userId: string
    const zoneId: string
    const groupSize: int
    var status: Status

    constructor (id: string, userId: string, zoneId: string, groupSize: int)
      ensures this.id == id && this.userId == userId && this.zoneId == zoneId && this.groupSize == groupSize
      ensures status == PENDING
    {
      this.id, this.userId, this.zoneId, this.groupSize := id, userId, zoneId, groupSize;
      status := PENDING;
    }

    function View(): Entry {
      Entry(id, userId, zoneId, groupSize)
    }

    function Key(): string {
      PoolKey(zoneId, groupSize)
    }
  }

  function Views(entries: seq<LotteryEntry>): set<Entry> {
    set e | e in entries :: e.View()
  }

  function ViewList(entries: seq<LotteryEntry>): (r: seq<Entry>) {
    seq(|entries|, i requires 0 <= i < |entries| => entries[i].View())
  }

  lemma ViewsOfListing(entries: seq<LotteryEntry>)
    ensures (set v | v in ViewList(entries)) == Views(entries)
  {
    forall v | v in ViewList(entries) ensures v in Views(entries) {
      var i :| 0 <= i < |entries| && ViewList(entries)[i] == v;
      assert entries[i] in entries;
    }
    forall e | e in entries ensures e.View() in ViewList(entries) {
      var i :| 0 <= i < |entries| && entries[i] == e;
      assert ViewList(entries)[i] == e.View();
    }
  }

  /** The verdicts depend on which entries are drawn, not on the order in which they are listed. */
  lemma ListOrderDoesNotMatter(entries: seq<LotteryEntry>, others: seq<LotteryEntry>, keccak: string -> string, seed: string)
    requires multiset(entries) == multiset(others)
    ensures Views(entries) == Views(others)
    ensures forall v :: Verdict(keccak, seed, Views(entries), v) == Verdict(keccak, seed, Views(others), v)
  {
    forall e ensures e in entries <==> e in others {
      assert e in entries <==> e in multiset(entries);
      assert e in others <==> e in multiset(others);
    }
  }

  ghost predicate DistinctRows(entries: seq<LotteryEntry>) {
    forall i, j :: 0 <= i < j < |entries| ==> entries[i].id != entries[j].id
  }

  lemma DistinctRowsView(entries: seq<LotteryEntry>)
    requires DistinctRows(entries)
    ensures DistinctIds(Views(entries))
    ensures forall d, e :: d in entries && e in entries && d.View() == e.View() ==> d == e
  {
  }

  // ---------------------------------------------------------------- pools

  /** The entries of one pool, in the order of the list. */
  function InPool(entries: seq<LotteryEntry>, key: string): seq<LotteryEntry> {
    if entries == [] then [] else
      var rest := InPool(entries[..|entries| - 1], key);
      var last := entries[|entries| - 1];
      if last.Key() == key then rest + [last] else rest
  }

  lemma {:induction false} InPoolSound(entries: seq<LotteryEntry>, key: string)
    ensures forall i :: 0 <= i < |InPool(entries, key)| ==>
      InPool(entries, key)[i] in entries && InPool(entries, key)[i].Key() == key
  {
    if entries != [] {
      InPoolSound(entries[..|entries| - 1], key);
    }
  }

  lemma {:induction false} InPoolComplete(entries: seq<LotteryEntry>, key: string, i: nat)
    requires i < |entries| && entries[i].Key() == key
    ensures entries[i] in InPool(entries, key)
  {
    if i < |entries| - 1 {
      InPoolComplete(entries[..|entries| - 1], key, i);
    }
  }

  lemma InPoolMembers(entries: seq<LotteryEntry>, key: string)
    ensures forall i :: 0 <= i < |InPool(entries, key)| ==>
      InPool(entries, key)[i] in entries && InPool(entries, key)[i].Key() == key
    ensures forall i :: 0 <= i < |entries| && entries[i].Key() == key ==> entries[i] in InPool(entries, key)
  {
    InPoolSound(entries, key);
    forall i | 0 <= i < |entries| && entries[i].Key() == key ensures entries[i] in InPool(entries, key) {
      InPoolComplete(entries, key, i);
    }
  }

  lemma {:induction false} InPoolDistinct(entries: seq<LotteryEntry>, key: string)
    requires DistinctRows(entries)
    ensures DistinctRows(InPool(entries, key))
  {
    if entries != [] {
      var n := |entries| - 1;
      var rest := InPool(entries[..n], key);
      InPoolDistinct(entries[..n], key);
      InPoolMembers(entries[..n], key);
      forall i | 0 <= i < |rest| ensures rest[i].id != entries[n].id {
        var k :| 0 <= k < n && entries[k] == rest[i];
      }
    }
  }

  lemma InPoolGrows(entries: seq<LotteryEntry>, i: nat, key: string)
    requires i < |entries|
    ensures InPool(entries[..i + 1], key) ==
      if entries[i].Key() == key then InPool(entries[..i], key) + [entries[i]] else InPool(entries[..i], key)
  {
    assert entries[..i + 1][..i] == entries[..i];
  }

  lemma OwnPoolNotEmpty(entries: seq<LotteryEntry>, e: LotteryEntry)
    requires e in entries
    ensures InPool(entries, e.Key()) != []
  {
    var i :| 0 <= i < |entries| && entries[i] == e;
    InPoolComplete(entries, e.Key(), i);
  }

  method GroupIntoPools(entries: seq<LotteryEntry>) returns (pools: map<string, seq<LotteryEntry>>)
    ensures forall k :: k in pools ==> pools[k] == InPool(entries, k)
    ensures forall k :: k !in pools ==> InPool(entries, k) == []
    ensures forall e :: e in entries ==> e.Key() in pools
  {
    pools := map[];
    for i := 0 to |entries|
      invariant forall k :: k in pools ==> pools[k] == InPool(entries[..i], k)
      invariant forall k :: k !in pools ==> InPool(entries[..i], k) == []
    {
      var entry := entries[i];
      var pool := if entry.Key() in pools then pools[entry.Key()] else [];
      pools := pools[entry.Key() := pool + [entry]];
      forall k ensures InPool(entries[..i + 1], k) ==
        if entry.Key() == k then InPool(entries[..i], k) + [entry] else InPool(entries[..i], k)
      {
        InPoolGrows(entries, i, k);
      }
    }
    assert entries[..|entries|] == entries;
    forall e | e in entries ensures e.Key() in pools {
      OwnPoolNotEmpty(entries, e);
    }
  }

  // ---------------------------------------------------------------- one pool

  function WithKeys(entries: seq<LotteryEntry>, keccak: string -> string, seed: string, poolKey: string)
    : (r: seq<Keyed<LotteryEntry>>)
  {
    seq(|entries|, i requires 0 <= i < |entries| =>
      Keyed(keccak(Packed(seed, poolKey, entries[i].id)), entries[i]))
  }

  lemma KeysSeparateEntries(entries: seq<LotteryEntry>, keccak: string -> string, seed: string, poolKey: string)
    requires DistinctRows(entries) && CollisionFree(keccak, seed, Views(entries))
    requires forall e :: e in entries ==> e.Key() == poolKey
    ensures DistinctKeys(WithKeys(entries, keccak, seed, poolKey))
  {
    var keyed := WithKeys(entries, keccak, seed, poolKey);
    DistinctRowsView(entries);
    forall x, y | x in Views(entries) && y in Views(entries)
      ensures PoolKey(x.zoneId, x.groupSize) == PoolKey(y.zoneId, y.groupSize) {}
    PoolKeysDiffer(keccak, seed, Views(entries), Views(entries));
    forall i, j | 0 <= i < j < |keyed| ensures keyed[i].key != keyed[j].key {
      var x, y := entries[i], entries[j];
      assert x in entries && y in entries;
      assert x.View() in Views(entries) && y.View() in Views(entries) && x.View() != y.View();
      assert SortKey(keccak, seed, x.View()) == keyed[i].key;
      assert SortKey(keccak, seed, y.View()) == keyed[j].key;
    }
  }

  ghost predicate SortedPool(entries: seq<LotteryEntry>, keccak: string -> string, seed: string,
                             sorted: seq<Keyed<LotteryEntry>>)
  {
    && (forall i, j :: 0 <= i < j < |sorted| ==> Less(sorted[i].key, sorted[j].key))
    && (forall i :: 0 <= i < |sorted| ==> sorted[i].value in entries)
    && (forall i :: 0 <= i < |sorted| ==> sorted[i].key == SortKey(keccak, seed, sorted[i].value.View()))
    && (forall e :: e in entries ==> exists i :: 0 <= i < |sorted| && sorted[i].value == e)
  }

  lemma SortingThePool(entries: seq<LotteryEntry>, keccak: string -> string, seed: string, poolKey: string)
    requires DistinctRows(entries) && CollisionFree(keccak, seed, Views(entries))
    requires forall e :: e in entries ==> e.Key() == poolKey
    ensures SortedPool(entries, keccak, seed, SortByKey(WithKeys(entries, keccak, seed, poolKey)))
  {
    var keyed := WithKeys(entries, keccak, seed, poolKey);
    var sorted := SortByKey(keyed);
    KeysSeparateEntries(entries, keccak, seed, poolKey);
    SortSorts(keyed);
    PermutationKeepsDistinct(keyed, sorted);
    forall i, j | 0 <= i < j < |sorted| ensures Less(sorted[i].key, sorted[j].key) {
      LessTotal(sorted[i].key, sorted[j].key);
    }
    forall i | 0 <= i < |sorted|
      ensures sorted[i].value in entries && sorted[i].key == SortKey(keccak, seed, sorted[i].value.View())
    {
      var j := SameElements(sorted, keyed, i);
      assert entries[j] in entries;
    }
    forall e | e in entries ensures exists i :: 0 <= i < |sorted| && sorted[i].value == e {
      var k :| 0 <= k < |entries| && entries[k] == e;
      var i := SameElements(keyed, sorted, k);
      assert sorted[i] == keyed[k];
    }
  }

  /** In the sorted pool each entry stands at the position of its rank. */
  lemma Standing(entries: seq<LotteryEntry>, keccak: string -> string, seed: string,
                 sorted: seq<Keyed<LotteryEntry>>, i: nat)
    requires SortedPool(entries, keccak, seed, sorted) && i < |sorted|
    ensures |Ahead(keccak, seed, Views(entries), sorted[i].value.View())| == i
  {
    var listed := seq(|sorted|, k requires 0 <= k < |sorted| => sorted[k].value);
    assert Views(listed) == Views(entries) by {
      forall e | e in entries ensures e in listed {
        var k :| 0 <= k < |sorted| && sorted[k].value == e;
        assert listed[k] == e;
      }
    }
    ViewsOfListing(listed);
    var order := ViewList(listed);
    assert forall k :: 0 <= k < |order| ==> SortKey(keccak, seed, order[k]) == sorted[k].key;
    RankIsPosition(keccak, seed, order, i);
  }

  lemma MarkedOnce(entries: seq<LotteryEntry>, keccak: string -> string, seed: string,
                   sorted: seq<Keyed<LotteryEntry>>)
    requires SortedPool(entries, keccak, seed, sorted)
    ensures forall i, j :: 0 <= i < j < |sorted| ==> sorted[i].value != sorted[j].value
  {
    forall i, j | 0 <= i < j < |sorted| ensures sorted[i].value != sorted[j].value {
      LessAsymmetric(sorted[i].key, sorted[j].key);
    }
  }

  method MarkByPosition(sorted: seq<Keyed<LotteryEntry>>, winnerCount: nat)
    requires forall i, j :: 0 <= i < j < |sorted| ==> sorted[i].value != sorted[j].value
    modifies (set k | k in sorted :: k.value)`status
    ensures forall j :: 0 <= j < |sorted| ==> sorted[j].value.status == if j < winnerCount then WON else LOST
  {
    for index := 0 to |sorted|
      invariant forall j :: 0 <= j < index ==> sorted[j].value.status == if j < winnerCount then WON else LOST
    {
      sorted[index].value.status := if index < winnerCount then WON else LOST;
    }
  }

  method SelectWinners(entries: seq<LotteryEntry>, keccak: string -> string, randomSeed: string, poolKey: string)
    requires DistinctRows(entries) && CollisionFree(keccak, randomSeed, Views(entries))
    requires forall e :: e in entries ==> e.Key() == poolKey
    modifies entries`status
    ensures forall e :: e in entries ==>
      e.status == if |Ahead(keccak, randomSeed, Views(entries), e.View())| < Quota(|entries|) then WON else LOST
  {
    var sorted := SortByKey(WithKeys(entries, keccak, randomSeed, poolKey));
    SortingThePool(entries, keccak, randomSeed, poolKey);
    MarkedOnce(entries, keccak, randomSeed, sorted);
    var half := (|sorted| + 1) / 2;
    var winnerCount := if half > 1 then half else 1;
    MarkByPosition(sorted, winnerCount);
    forall e | e in entries
      ensures e.status == if |Ahead(keccak, randomSeed, Views(entries), e.View())| < Quota(|entries|) then WON else LOST
    {
      var i :| 0 <= i < |sorted| && sorted[i].value == e;
      Standing(entries, keccak, randomSeed, sorted, i);
    }
  }

  // ---------------------------------------------------------------- the whole draw

  ghost predicate ListsOnce(found: seq<Keyed<()>>, keys: set<string>) {
    && DistinctKeys(found)
    && (forall i :: 0 <= i < |found| ==> found[i].key in keys)
    && (forall k :: k in keys ==> exists i :: 0 <= i < |found| && found[i].key == k)
  }

  lemma ListsOneMore(found: seq<Keyed<()>>, keys: set<string>, k: string)
    requires ListsOnce(found, keys) && k !in keys
    ensures ListsOnce(found + [Keyed(k, ())], keys + {k})
  {
    var more := found + [Keyed(k, ())];
    forall x | x in keys + {k} ensures exists i :: 0 <= i < |more| && more[i].key == x {
      if x == k {
        assert more[|found|].key == x;
      } else {
        var i :| 0 <= i < |found| && found[i].key == x;
        assert more[i].key == x;
      }
    }
  }

  /** `Array.from(pools.keys())`, in an order of the map's choosing. */
  method ListKeys(pools: map<string, seq<LotteryEntry>>) returns (found: seq<Keyed<()>>)
    ensures ListsOnce(found, pools.Keys)
  {
    found := [];
    var left := pools.Keys;
    while left != {}
      invariant left <= pools.Keys && ListsOnce(found, pools.Keys - left)
    {
      var k :| k in left;
      ListsOneMore(found, pools.Keys - left, k);
      assert pools.Keys - left + {k} == pools.Keys - (left - {k});
      found := found + [Keyed(k, ())];
      left := left - {k};
    }
    assert pools.Keys - left == pools.Keys;
  }

  function KeysOf(s: seq<Keyed<()>>): (r: seq<string>)
    ensures |r| == |s|
    ensures forall i :: 0 <= i < |s| ==> r[i] == s[i].key
  {
    seq(|s|, i requires 0 <= i < |s| => s[i].key)
  }

  ghost predicate Ascend(keys: seq<string>) {
    forall i, j :: 0 <= i < j < |keys| ==> Less(keys[i], keys[j])
  }

  lemma SortedKeysAscend(found: seq<Keyed<()>>, keys: set<string>)
    requires ListsOnce(found, keys)
    ensures Ascend(KeysOf(SortByKey(found)))
  {
    var sorted := SortByKey(found);
    SortSorts(found);
    PermutationKeepsDistinct(found, sorted);
    forall i, j | 0 <= i < j < |sorted| ensures Less(sorted[i].key, sorted[j].key) {
      LessTotal(sorted[i].key, sorted[j].key);
    }
  }

  lemma SortedKeysComplete(found: seq<Keyed<()>>, keys: set<string>)
    requires ListsOnce(found, keys)
    ensures forall k :: k in KeysOf(SortByKey(found)) <==> k in keys
  {
    var sorted := SortByKey(found);
    var r := KeysOf(sorted);
    forall k | k in keys ensures k in r {
      var i :| 0 <= i < |found| && found[i].key == k;
      var j := SameElements(found, sorted, i);
      assert r[j] == k;
    }
    forall j | 0 <= j < |r| ensures r[j] in keys {
      var i := SameElements(sorted, found, j);
    }
  }

  /** `Array.from(pools.keys()).sort()` */
  method SortedPoolKeys(pools: map<string, seq<LotteryEntry>>) returns (keys: seq<string>)
    ensures forall k :: k in keys <==> k in pools
    ensures Ascend(keys)
  {
    var found := ListKeys(pools);
    keys := KeysOf(SortByKey(found));
    SortedKeysAscend(found, pools.Keys);
    SortedKeysComplete(found, pools.Keys);
  }

  /** What a pool's own loop decides is the verdict over the whole list. */
  lemma PoolVerdict(entries: seq<LotteryEntry>, keccak: string -> string, seed: string, e: LotteryEntry)
    requires DistinctRows(entries) && e in entries
    ensures Views(InPool(entries, e.Key())) == Pool(Views(entries), e.View())
    ensures |InPool(entries, e.Key())| == |Pool(Views(entries), e.View())|
  {
    var pool := InPool(entries, e.Key());
    InPoolMembers(entries, e.Key());
    InPoolDistinct(entries, e.Key());
    forall x | x in entries && x.View() in Pool(Views(entries), e.View()) ensures x in pool {
      var k :| 0 <= k < |entries| && entries[k] == x;
    }
    forall x | x in pool ensures x.View() in Pool(Views(entries), e.View()) {
      assert x.Key() == e.Key();
      PoolKeyInjective(x.zoneId, x.groupSize, e.zoneId, e.groupSize);
    }
    assert Views(pool) == Pool(Views(entries), e.View());
    ViewsOfListing(pool);
    DistinctListing(ViewList(pool));
  }

  method DrawPool(entries: seq<LotteryEntry>, keccak: string -> string, randomSeed: string, key: string,
                  pool: seq<LotteryEntry>)
    requires DistinctRows(entries) && CollisionFree(keccak, randomSeed, Views(entries))
    requires pool == InPool(entries, key)
    modifies pool`status
    ensures forall e :: e in entries && e.Key() == key ==>
      e.status == Verdict(keccak, randomSeed, Views(entries), e.View())
  {
    InPoolMembers(entries, key);
    InPoolDistinct(entries, key);
    assert Views(pool) <= Views(entries);
    SelectWinners(pool, keccak, randomSeed, key);
    forall e | e in entries && e.Key() == key
      ensures e.status == Verdict(keccak, randomSeed, Views(entries), e.View())
    {
      PoolVerdict(entries, keccak, randomSeed, e);
    }
  }

  /** The entries of the list that win the draw over `all`, in the order of the list. */
  function WinnersAmong(entries: seq<LotteryEntry>, keccak: string -> string, seed: string, all: set<Entry>)
    : seq<LotteryEntry>
  {
    if entries == [] then []
    else
      var last := entries[|entries| - 1];
      WinnersAmong(entries[..|entries| - 1], keccak, seed, all)
        + if Wins(keccak, seed, all, last.View()) then [last] else []
  }

  lemma {:induction false} WinnersAmongMembers(entries: seq<LotteryEntry>, keccak: string -> string, seed: string, all: set<Entry>)
    ensures forall e :: e in WinnersAmong(entries, keccak, seed, all) <==> e in entries && Wins(keccak, seed, all, e.View())
  {
    if entries != [] {
      var n := |entries| - 1;
      WinnersAmongMembers(entries[..n], keccak, seed, all);
      assert entries == entries[..n] + [entries[n]];
    }
  }

  ghost predicate ComesBefore(s: seq<LotteryEntry>, x: LotteryEntry, y: LotteryEntry) {
    exists i, j :: 0 <= i < j < |s| && s[i] == x && s[j] == y
  }

  lemma ComesBeforeInLonger(s: seq<LotteryEntry>, last: LotteryEntry, x: LotteryEntry, y: LotteryEntry)
    requires ComesBefore(s, x, y) || (x in s && y == last)
    ensures ComesBefore(s + [last], x, y)
  {
    var longer := s + [last];
    if ComesBefore(s, x, y) {
      var i, j :| 0 <= i < j < |s| && s[i] == x && s[j] == y;
      assert longer[i] == x && longer[j] == y;
    } else {
      var i :| 0 <= i < |s| && s[i] == x;
      assert longer[i] == x && longer[|s|] == y;
    }
  }

  lemma {:induction false} WinnerIsEntry(entries: seq<LotteryEntry>, keccak: string -> string, seed: string, all: set<Entry>, i: nat)
    requires i < |WinnersAmong(entries, keccak, seed, all)|
    ensures WinnersAmong(entries, keccak, seed, all)[i] in entries
  {
    var n := |entries| - 1;
    assert entries == entries[..n] + [entries[n]];
    if i < |WinnersAmong(entries[..n], keccak, seed, all)| {
      WinnerIsEntry(entries[..n], keccak, seed, all, i);
    }
  }

  lemma {:induction false} WinnersInOrder(entries: seq<LotteryEntry>, keccak: string -> string, seed: string, all: set<Entry>,
                                          i: nat, j: nat)
    requires i < j < |WinnersAmong(entries, keccak, seed, all)|
    ensures var r := WinnersAmong(entries, keccak, seed, all); ComesBefore(entries, r[i], r[j])
  {
    var n := |entries| - 1;
    var r, most := WinnersAmong(entries, keccak, seed, all), WinnersAmong(entries[..n], keccak, seed, all);
    assert entries == entries[..n] + [entries[n]];
    if j < |most| {
      WinnersInOrder(entries[..n], keccak, seed, all, i, j);
      ComesBeforeInLonger(entries[..n], entries[n], most[i], most[j]);
      assert r[j] == most[j];
    } else {
      WinnerIsEntry(entries[..n], keccak, seed, all, i);
      assert r[j] == entries[n];
      ComesBeforeInLonger(entries[..n], entries[n], most[i], r[j]);
    }
    assert r[i] == most[i];
  }

  /** `entries.filter((e) => e.status === WON)` */
  function Won(entries: seq<LotteryEntry>): seq<LotteryEntry>
    reads entries
  {
    if entries == [] then []
    else
      var last := entries[|entries| - 1];
      Won(entries[..|entries| - 1]) + if last.status == WON then [last] else []
  }

  lemma {:induction false} WonAreWinners(entries: seq<LotteryEntry>, keccak: string -> string, seed: string, all: set<Entry>)
    requires forall e :: e in entries ==> e.status == Verdict(keccak, seed, all, e.View())
    ensures Won(entries) == WinnersAmong(entries, keccak, seed, all)
  {
    if entries != [] {
      WonAreWinners(entries[..|entries| - 1], keccak, seed, all);
    }
  }

  lemma PrefixGrows<T>(s: seq<T>, p: nat)
    requires p < |s|
    ensures forall x :: x in s[..p + 1] <==> x in s[..p] || x == s[p]
  {
    assert s[..p + 1] == s[..p] + [s[p]];
  }

  /** Steps 2 and 3 of `draw`: every fetched entry ends with its verdict, whatever status it came with. */
  method DrawStatuses(entries: seq<LotteryEntry>, keccak: string -> string, randomSeed: string)
    returns (winners: seq<LotteryEntry>)
    requires DistinctRows(entries) && CollisionFree(keccak, randomSeed, Views(entries))
    modifies entries`status
    ensures forall e :: e in entries ==> e.status == Verdict(keccak, randomSeed, Views(entries), e.View())
    ensures winners == WinnersAmong(entries, keccak, randomSeed, Views(entries))
    ensures forall e :: e in winners <==> e in entries && Wins(keccak, randomSeed, Views(entries), e.View())
    ensures forall e :: e in entries ==> DrawnAs(keccak, randomSeed, Views(entries), e.View(), e.status)
    ensures forall i, j :: 0 <= i < j < |winners| ==> ComesBefore(entries, winners[i], winners[j])
  {
    var pools := GroupIntoPools(entries);
    var keys := SortedPoolKeys(pools);
    for p := 0 to |keys|
      invariant forall e :: e in entries && e.Key() in keys[..p] ==>
        e.status == Verdict(keccak, randomSeed, Views(entries), e.View())
    {
      InPoolMembers(entries, keys[p]);
      LessAsymmetric(keys[p], keys[p]);
      assert keys[p] !in keys[..p];
      DrawPool(entries, keccak, randomSeed, keys[p], pools[keys[p]]);
      PrefixGrows(keys, p);
    }
    assert keys[..|keys|] == keys;
    winners := Winners(entries);
    WonAreWinners(entries, keccak, randomSeed, Views(entries));
    WinnersAmongMembers(entries, keccak, randomSeed, Views(entries));
    forall i, j | 0 <= i < j < |winners| ensures ComesBefore(entries, winners[i], winners[j]) {
      WinnersInOrder(entries, keccak, randomSeed, Views(entries), i, j);
    }
    forall e | e in entries ensures DrawnAs(keccak, randomSeed, Views(entries), e.View(), e.status) {
      VerdictMeans(keccak, randomSeed, Views(entries), e.View());
    }
  }

  method Winners(entries: seq<LotteryEntry>) returns (winners: seq<LotteryEntry>)
    ensures winners == Won(entries)
  {
    winners := [];
    for i := 0 to |entries|
      invariant winners == Won(entries[..i])
    {
      assert entries[..i + 1][..i] == entries[..i];
      if entries[i].status == WON {
        winners := winners + [entries[i]];
      }
    }
    assert entries[..|entries|] == entries;
  }
}
