/** What a draw means, said of sets of entries: an entry wins when fewer entries of its
    pool than the pool's quota have a smaller sort key. */
module LotterySpec {
  import opened Ordering
  import Numerals

  datatype Status = PENDING | WON | LOST

  datatype Entry = Entry(id: string, userId: string, zoneId: string, groupSize: int)

  // ---------------------------------------------------------------- keys

  function PoolKey(zoneId: string, groupSize: int): string {
    zoneId + ":" + Numerals.Decimal(groupSize)
  }

  /** A pool key names one zone and one group size, also when the zone id holds colons. */
  lemma PoolKeyInjective(z: string, g: int, z': string, g': int)
    requires PoolKey(z, g) == PoolKey(z', g')
    ensures z == z' && g == g'
  {
    LastColon(z, g);
    LastColon(z', g');
    var k := PoolKey(z, g);
    assert z == k[..|z|] == z';
    assert Numerals.Decimal(g) == k[|z| + 1..] == Numerals.Decimal(g');
    Numerals.DecimalInjective(g, g');
  }

  lemma LastColon(z: string, g: int)
    ensures PoolKey(z, g)[|z|] == ':'
    ensures forall i :: |z| < i < |PoolKey(z, g)| ==> PoolKey(z, g)[i] != ':'
  {
    forall i | |z| < i < |PoolKey(z, g)| ensures PoolKey(z, g)[i] != ':' {
      assert PoolKey(z, g)[i] in Numerals.Decimal(g);
    }
  }

  /** `solidityPacked(['string','string','string'], ...)`: the bytes of the three strings, without separators. */
  function Packed(seed: string, poolKey: string, id: string): string {
    seed + poolKey + id
  }

  /** Seeds have one width and so have row ids, which is why leaving separators out loses nothing. */
  lemma PackedInjective(s: string, p: string, i: string, s': string, p': string, i': string)
    requires |s| == |s'| && |i| == |i'|
    requires Packed(s, p, i) == Packed(s', p', i')
    ensures s == s' && p == p' && i == i'
  {
    var k := Packed(s, p, i);
    assert |p| == |p'|;
    assert s == k[..|s|] == s';
    assert p == k[|s|..|s| + |p|] == p';
    assert i == k[|s| + |p|..] == i';
  }

  function SortKey(keccak: string -> string, seed: string, e: Entry): string {
    keccak(Packed(seed, PoolKey(e.zoneId, e.groupSize), e.id))
  }

  ghost predicate DistinctIds(entries: set<Entry>) {
    forall x, y :: x in entries && y in entries && x.id == y.id ==> x == y
  }

  /** The hash separates the strings that this draw hashes. */
  ghost predicate CollisionFree(keccak: string -> string, seed: string, entries: set<Entry>) {
    forall x, y :: x in entries && y in entries && SortKey(keccak, seed, x) == SortKey(keccak, seed, y) ==>
      Packed(seed, PoolKey(x.zoneId, x.groupSize), x.id) == Packed(seed, PoolKey(y.zoneId, y.groupSize), y.id)
  }

  // ---------------------------------------------------------------- the outcome

  function Pool(entries: set<Entry>, e: Entry): set<Entry> {
    set x | x in entries && x.zoneId == e.zoneId && x.groupSize == e.groupSize
  }

  function Ahead(keccak: string -> string, seed: string, pool: set<Entry>, e: Entry): set<Entry> {
    set x | x in pool && Less(SortKey(keccak, seed, x), SortKey(keccak, seed, e))
  }

  /** Math.max(1, Math.ceil(n * 0.5)) */
  function Quota(n: nat): (q: nat)
    ensures q >= 1 && 2 * q >= n && (q > 1 ==> 2 * (q - 1) < n)
  {
    if n <= 1 then 1 else (n + 1) / 2
  }

  predicate Wins(keccak: string -> string, seed: string, entries: set<Entry>, e: Entry) {
    |Ahead(keccak, seed, Pool(entries, e), e)| < Quota(|Pool(entries, e)|)
  }

  function Verdict(keccak: string -> string, seed: string, entries: set<Entry>, e: Entry): Status {
    if Wins(keccak, seed, entries, e) then WON else LOST
  }

  /** The hash that decides where an entry stands: seed, `zone:size` and id, one after the other. */
  function Draws(keccak: string -> string, seed: string, e: Entry): string {
    keccak(seed + (e.zoneId + ":" + Numerals.Decimal(e.groupSize)) + e.id)
  }

  /** The status of an entry, from the entries and the hash alone: WON for the first of its zone and size, and for
      everyone whom less than half of them stand before. */
  ghost predicate DrawnAs(keccak: string -> string, seed: string, entries: set<Entry>, e: Entry, status: Status) {
    var pool := set x | x in entries && x.zoneId == e.zoneId && x.groupSize == e.groupSize;
    var before := set x | x in pool && Less(Draws(keccak, seed, x), Draws(keccak, seed, e));
    status == if |before| == 0 || 2 * |before| < |pool| then WON else LOST
  }

  lemma VerdictMeans(keccak: string -> string, seed: string, entries: set<Entry>, e: Entry)
    ensures DrawnAs(keccak, seed, entries, e, Verdict(keccak, seed, entries, e))
  {
    var pool := set x | x in entries && x.zoneId == e.zoneId && x.groupSize == e.groupSize;
    var before := set x | x in pool && Less(Draws(keccak, seed, x), Draws(keccak, seed, e));
    assert forall x :: SortKey(keccak, seed, x) == Draws(keccak, seed, x);
    assert pool == Pool(entries, e) && before == Ahead(keccak, seed, pool, e);
    var n, q := |pool|, Quota(|pool|);
    assert |before| < q <==> |before| == 0 || 2 * |before| < n;
  }

  /** Entries of other pools have no say. */
  lemma OtherPoolsDoNotMatter(keccak: string -> string, seed: string, entries: set<Entry>, others: set<Entry>, e: Entry)
    requires forall x :: x in others ==> PoolKey(x.zoneId, x.groupSize) != PoolKey(e.zoneId, e.groupSize)
    ensures Verdict(keccak, seed, entries + others, e) == Verdict(keccak, seed, entries, e)
    ensures Verdict(keccak, seed, entries - others, e) == Verdict(keccak, seed, entries, e)
  {
    assert Pool(entries + others, e) == Pool(entries, e);
    assert Pool(entries - others, e) == Pool(entries, e);
  }

  // ---------------------------------------------------------------- counting winners

  ghost predicate KeysDiffer(keccak: string -> string, seed: string, entries: set<Entry>) {
    forall x, y :: x in entries && y in entries && x != y ==>
      SortKey(keccak, seed, x) != SortKey(keccak, seed, y)
  }

  /** In one pool the key of an entry varies only with its id. */
  lemma PoolKeysDiffer(keccak: string -> string, seed: string, entries: set<Entry>, pool: set<Entry>)
    requires DistinctIds(entries) && CollisionFree(keccak, seed, entries)
    requires pool <= entries
    requires forall x, y :: x in pool && y in pool ==> PoolKey(x.zoneId, x.groupSize) == PoolKey(y.zoneId, y.groupSize)
    ensures KeysDiffer(keccak, seed, pool)
  {
    forall x, y | x in pool && y in pool && x != y
      ensures SortKey(keccak, seed, x) != SortKey(keccak, seed, y)
    {
      var p := PoolKey(x.zoneId, x.groupSize);
      assert x.id == Packed(seed, p, x.id)[|seed| + |p|..];
      assert y.id == Packed(seed, p, y.id)[|seed| + |p|..];
    }
  }

  lemma {:induction false} LastInPool(keccak: string -> string, seed: string, pool: set<Entry>) returns (m: Entry)
    requires KeysDiffer(keccak, seed, pool) && pool != {}
    ensures m in pool
    ensures Ahead(keccak, seed, pool, m) == pool - {m}
    decreases |pool|
  {
    var e :| e in pool;
    if pool == {e} {
      LessAsymmetric(SortKey(keccak, seed, e), SortKey(keccak, seed, e));
      m := e;
    } else {
      var l := LastInPool(keccak, seed, pool - {e});
      var ke, kl := SortKey(keccak, seed, e), SortKey(keccak, seed, l);
      LessTotal(ke, kl);
      LessAsymmetric(ke, kl);
      m := if Less(kl, ke) then e else l;
      forall x | x in pool - {m} ensures Less(SortKey(keccak, seed, x), SortKey(keccak, seed, m)) {
        if x != e && x != l {
          assert x in Ahead(keccak, seed, pool - {e}, l);
          if m == e {
            LessTransitive(SortKey(keccak, seed, x), kl, ke);
          }
        }
      }
      LessAsymmetric(SortKey(keccak, seed, m), SortKey(keccak, seed, m));
    }
  }

  function Leaders(keccak: string -> string, seed: string, pool: set<Entry>, n: nat): set<Entry> {
    set x | x in pool && |Ahead(keccak, seed, pool, x)| < n
  }

  lemma {:induction false} LeadersCount(keccak: string -> string, seed: string, pool: set<Entry>, n: nat)
    requires KeysDiffer(keccak, seed, pool) && n <= |pool|
    ensures |Leaders(keccak, seed, pool, n)| == n
    decreases |pool|
  {
    if pool == {} {
      assert Leaders(keccak, seed, pool, n) == {};
    } else {
      var m := LastInPool(keccak, seed, pool);
      var rest := pool - {m};
      forall x | x in rest ensures Ahead(keccak, seed, rest, x) == Ahead(keccak, seed, pool, x) {
        assert x in Ahead(keccak, seed, pool, m);
        LessAsymmetric(SortKey(keccak, seed, x), SortKey(keccak, seed, m));
      }
      if n < |pool| {
        LeadersCount(keccak, seed, rest, n);
        assert Leaders(keccak, seed, pool, n) == Leaders(keccak, seed, rest, n);
      } else {
        LeadersCount(keccak, seed, rest, n - 1);
        forall x | x in pool ensures |Ahead(keccak, seed, pool, x)| < n {
          LessAsymmetric(SortKey(keccak, seed, x), SortKey(keccak, seed, x));
          assert Ahead(keccak, seed, pool, x) < pool;
          StrictSubsetSmaller(Ahead(keccak, seed, pool, x), pool);
        }
        assert Leaders(keccak, seed, pool, n) == pool;
      }
    }
  }

  lemma {:induction false} StrictSubsetSmaller<T>(a: set<T>, b: set<T>)
    requires a < b
    ensures |a| < |b|
  {
    var x :| x in b && x !in a;
    SubsetNotLarger(a, b - {x});
  }

  lemma {:induction false} SubsetNotLarger<T>(a: set<T>, b: set<T>)
    requires a <= b
    ensures |a| <= |b|
    decreases |a|
  {
    if a != {} {
      var x :| x in a;
      SubsetNotLarger(a - {x}, b - {x});
    }
  }

  /** Every pool has exactly its quota of winners. */
  lemma QuotaIsMet(keccak: string -> string, seed: string, entries: set<Entry>, e: Entry)
    requires DistinctIds(entries) && CollisionFree(keccak, seed, entries)
    requires e in entries
    ensures |set x | x in Pool(entries, e) && Wins(keccak, seed, entries, x)| == Quota(|Pool(entries, e)|)
  {
    var pool := Pool(entries, e);
    PoolKeysDiffer(keccak, seed, entries, pool);
    assert e in pool;
    SubsetNotLarger({e}, pool);
    LeadersCount(keccak, seed, pool, Quota(|pool|));
    forall x | x in pool ensures Pool(entries, x) == pool {}
    assert (set x | x in pool && Wins(keccak, seed, entries, x)) == Leaders(keccak, seed, pool, Quota(|pool|));
  }

  // ---------------------------------------------------------------- rank and position

  lemma {:induction false} DistinctListing<T>(s: seq<T>)
    requires forall i, j :: 0 <= i < j < |s| ==> s[i] != s[j]
    ensures |set x | x in s| == |s|
  {
    if |s| > 0 {
      var n := |s| - 1;
      DistinctListing(s[..n]);
      assert (set x | x in s) == (set x | x in s[..n]) + {s[n]};
    }
  }

  ghost predicate Ascending(keccak: string -> string, seed: string, order: seq<Entry>) {
    forall j, k :: 0 <= j < k < |order| ==> Less(SortKey(keccak, seed, order[j]), SortKey(keccak, seed, order[k]))
  }

  lemma AheadIsBefore(keccak: string -> string, seed: string, order: seq<Entry>, i: nat, j: nat)
    requires i < |order| && j < |order| && Ascending(keccak, seed, order)
    ensures Less(SortKey(keccak, seed, order[j]), SortKey(keccak, seed, order[i])) <==> j < i
    ensures j != i ==> order[j] != order[i]
  {
    LessAsymmetric(SortKey(keccak, seed, order[j]), SortKey(keccak, seed, order[i]));
  }

  /** In a listing by ascending key, the entries ahead of the one at position i are the i before it. */
  lemma RankIsPosition(keccak: string -> string, seed: string, order: seq<Entry>, i: nat)
    requires i < |order| && Ascending(keccak, seed, order)
    ensures |Ahead(keccak, seed, (set x | x in order), order[i])| == i
  {
    var before := order[..i];
    forall j, k | 0 <= j < k < |before| ensures before[j] != before[k] {
      AheadIsBefore(keccak, seed, order, k, j);
    }
    DistinctListing(before);
    forall j | 0 <= j < |order|
      ensures Less(SortKey(keccak, seed, order[j]), SortKey(keccak, seed, order[i])) <==> j < i
    {
      AheadIsBefore(keccak, seed, order, i, j);
    }
    AheadListed(keccak, seed, order, i);
  }

  lemma AheadListed(keccak: string -> string, seed: string, order: seq<Entry>, i: nat)
    requires i < |order|
    requires forall j :: 0 <= j < |order| ==>
      (Less(SortKey(keccak, seed, order[j]), SortKey(keccak, seed, order[i])) <==> j < i)
    ensures Ahead(keccak, seed, (set x | x in order), order[i]) == set x | x in order[..i]
  {
  }
}
