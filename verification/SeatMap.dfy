/** The nested seat map and the flat counts it adds up to. */
module SeatMap {
  import opened Options
  import opened Seats
  import opened SeatRuns

  /** One line of SELECT zoneId, row, COUNT(*), COUNT(*) FILTER (available) ... GROUP BY zoneId, row. */
  datatype GroupRow = GroupRow(zoneId: string, row: string, total: nat, available: nat)

  datatype RowSummary = RowSummary(row: string, totalSeats: nat, availableSeats: nat)

  datatype ZoneSummary = ZoneSummary(zoneId: string, rows: seq<RowSummary>, totalSeats: nat, availableSeats: nat)

  datatype SeatMapResponse = SeatMapResponse(eventId: string, zones: seq<ZoneSummary>, totalSeats: nat, totalAvailable: nat)

  // ---------------------------------------------------------------- what the query returns

  function InRow(seats: map<string, SeatRow>, eventId: string, zoneId: string, row: string, free: bool): set<string> {
    set id | id in Among(seats, eventId, free) && seats[id].zoneId == zoneId && seats[id].place.row == row
  }

  function InZone(seats: map<string, SeatRow>, eventId: string, zoneId: string, free: bool): set<string> {
    set id | id in Among(seats, eventId, free) && seats[id].zoneId == zoneId
  }

  ghost predicate Counted(seats: map<string, SeatRow>, eventId: string, g: GroupRow) {
    && g.total == |InRow(seats, eventId, g.zoneId, g.row, false)|
    && g.available == |InRow(seats, eventId, g.zoneId, g.row, true)|
  }

  ghost predicate HasGroup(groups: seq<GroupRow>, zoneId: string, row: string) {
    exists k :: 0 <= k < |groups| && groups[k].zoneId == zoneId && groups[k].row == row
  }

  ghost predicate DistinctGroups(groups: seq<GroupRow>) {
    forall i, j :: 0 <= i < j < |groups| ==> groups[i].zoneId != groups[j].zoneId || groups[i].row != groups[j].row
  }

  /** Each (zone, row) of the event once, with its counts; no other rows. */
  ghost predicate Grouped(seats: map<string, SeatRow>, eventId: string, groups: seq<GroupRow>) {
    && DistinctGroups(groups)
    && (forall k :: 0 <= k < |groups| ==> Counted(seats, eventId, groups[k]) && groups[k].total > 0)
    && (forall id :: id in Among(seats, eventId, false) ==> HasGroup(groups, seats[id].zoneId, seats[id].place.row))
  }

  // ---------------------------------------------------------------- what the loops compute

  function OfZone(groups: seq<GroupRow>, zoneId: string): (r: seq<GroupRow>) {
    if groups == [] then []
    else
      var last := groups[|groups| - 1];
      OfZone(groups[..|groups| - 1], zoneId) + if last.zoneId == zoneId then [last] else []
  }

  function Summary(g: GroupRow): RowSummary {
    RowSummary(g.row, g.total, g.available)
  }

  function Summaries(groups: seq<GroupRow>): (r: seq<RowSummary>)
    ensures |r| == |groups|
  {
    seq(|groups|, i requires 0 <= i < |groups| => Summary(groups[i]))
  }

  function SumTotal(rows: seq<RowSummary>): nat {
    if rows == [] then 0 else SumTotal(rows[..|rows| - 1]) + rows[|rows| - 1].totalSeats
  }

  function SumAvailable(rows: seq<RowSummary>): nat {
    if rows == [] then 0 else SumAvailable(rows[..|rows| - 1]) + rows[|rows| - 1].availableSeats
  }

  // ---------------------------------------------------------------- sums are sizes

  /** The event's seats standing in one of the listed rows. */
  ghost function Covered(seats: map<string, SeatRow>, eventId: string, groups: seq<GroupRow>, free: bool): set<string> {
    set id | id in Among(seats, eventId, free) && HasGroup(groups, seats[id].zoneId, seats[id].place.row)
  }

  lemma CoveredExtends(seats: map<string, SeatRow>, eventId: string, groups: seq<GroupRow>, g: GroupRow, free: bool)
    requires DistinctGroups(groups + [g])
    ensures |Covered(seats, eventId, groups + [g], free)|
         == |Covered(seats, eventId, groups, free)| + |InRow(seats, eventId, g.zoneId, g.row, free)|
  {
    var most, more := Covered(seats, eventId, groups, free), InRow(seats, eventId, g.zoneId, g.row, free);
    var longer := groups + [g];
    assert forall k :: 0 <= k < |groups| ==> longer[k] == groups[k];
    forall id | id in Among(seats, eventId, free)
      ensures HasGroup(longer, seats[id].zoneId, seats[id].place.row)
        <==> HasGroup(groups, seats[id].zoneId, seats[id].place.row) || id in more
    {
      if HasGroup(groups, seats[id].zoneId, seats[id].place.row) {
        var k :| 0 <= k < |groups| && groups[k].zoneId == seats[id].zoneId && groups[k].row == seats[id].place.row;
        assert longer[k] == groups[k];
      } else if id in more {
        assert longer[|groups|] == g;
      }
    }
    assert Covered(seats, eventId, longer, free) == most + more;
    assert most !! more by {
      assert longer[|groups|] == g;
    }
  }

  lemma {:induction false} SumsAreSizes(seats: map<string, SeatRow>, eventId: string, groups: seq<GroupRow>)
    requires DistinctGroups(groups)
    requires forall k :: 0 <= k < |groups| ==> Counted(seats, eventId, groups[k])
    ensures SumTotal(Summaries(groups)) == |Covered(seats, eventId, groups, false)|
    ensures SumAvailable(Summaries(groups)) == |Covered(seats, eventId, groups, true)|
  {
    if groups == [] {
      assert Covered(seats, eventId, groups, false) == {};
      assert Covered(seats, eventId, groups, true) == {};
    } else {
      var most, last := groups[..|groups| - 1], groups[|groups| - 1];
      SumsAreSizes(seats, eventId, most);
      assert groups == most + [last];
      assert Summaries(groups)[..|groups| - 1] == Summaries(most);
      CoveredExtends(seats, eventId, most, last, false);
      CoveredExtends(seats, eventId, most, last, true);
    }
  }

  lemma {:induction false} OfZoneSelects(groups: seq<GroupRow>, zoneId: string)
    ensures forall g :: g in OfZone(groups, zoneId) <==> g in groups && g.zoneId == zoneId
  {
    if groups != [] {
      var most, last := groups[..|groups| - 1], groups[|groups| - 1];
      OfZoneSelects(most, zoneId);
      assert groups == most + [last];
    }
  }

  lemma {:induction false} OfZoneDistinct(groups: seq<GroupRow>, zoneId: string)
    requires DistinctGroups(groups)
    ensures DistinctGroups(OfZone(groups, zoneId))
  {
    if groups != [] {
      var most, last := groups[..|groups| - 1], groups[|groups| - 1];
      var ofMost := OfZone(most, zoneId);
      OfZoneDistinct(most, zoneId);
      OfZoneSelects(most, zoneId);
      forall k | 0 <= k < |ofMost| ensures ofMost[k].zoneId != last.zoneId || ofMost[k].row != last.row {
        assert ofMost[k] in ofMost;
        var m :| 0 <= m < |most| && most[m] == ofMost[k];
        assert groups[m] == most[m];
      }
    }
  }

  ghost predicate Precedes(groups: seq<GroupRow>, g: GroupRow, h: GroupRow) {
    exists i, j :: 0 <= i < j < |groups| && groups[i] == g && groups[j] == h
  }

  lemma PrecedesExtends(groups: seq<GroupRow>, last: GroupRow, g: GroupRow, h: GroupRow)
    requires Precedes(groups, g, h) || (g in groups && h == last)
    ensures Precedes(groups + [last], g, h)
  {
    var longer := groups + [last];
    if Precedes(groups, g, h) {
      var i, j :| 0 <= i < j < |groups| && groups[i] == g && groups[j] == h;
      assert longer[i] == g && longer[j] == h;
    } else {
      var i :| 0 <= i < |groups| && groups[i] == g;
      assert longer[i] == g && longer[|groups|] == h;
    }
  }

  /** A zone's lines stay in the order of the query. */
  lemma {:induction false} OfZoneInOrder(groups: seq<GroupRow>, zoneId: string, k: nat, l: nat)
    requires k < l < |OfZone(groups, zoneId)|
    ensures Precedes(groups, OfZone(groups, zoneId)[k], OfZone(groups, zoneId)[l])
  {
    var most, last := groups[..|groups| - 1], groups[|groups| - 1];
    var ofMost := OfZone(most, zoneId);
    assert groups == most + [last];
    if l < |ofMost| {
      OfZoneInOrder(most, zoneId, k, l);
    } else {
      OfZoneSelects(most, zoneId);
      assert ofMost[k] in ofMost;
    }
    PrecedesExtends(most, last, OfZone(groups, zoneId)[k], OfZone(groups, zoneId)[l]);
  }

  /** The totals of a zone's rows are the numbers of its seats. */
  lemma ZoneTotals(seats: map<string, SeatRow>, eventId: string, groups: seq<GroupRow>, zoneId: string)
    requires Grouped(seats, eventId, groups)
    ensures SumTotal(Summaries(OfZone(groups, zoneId))) == |InZone(seats, eventId, zoneId, false)|
    ensures SumAvailable(Summaries(OfZone(groups, zoneId))) == |InZone(seats, eventId, zoneId, true)|
  {
    var own := OfZone(groups, zoneId);
    OfZoneSelects(groups, zoneId);
    OfZoneDistinct(groups, zoneId);
    forall k | 0 <= k < |own| ensures Counted(seats, eventId, own[k]) && own[k].zoneId == zoneId {
      assert own[k] in own;
    }
    SumsAreSizes(seats, eventId, own);
    forall id | id in InZone(seats, eventId, zoneId, false)
      ensures HasGroup(own, seats[id].zoneId, seats[id].place.row)
    {
      assert HasGroup(groups, seats[id].zoneId, seats[id].place.row);
      var k :| 0 <= k < |groups| && groups[k].zoneId == zoneId && groups[k].row == seats[id].place.row;
      assert groups[k] in own;
    }
    assert Covered(seats, eventId, own, false) == InZone(seats, eventId, zoneId, false);
    assert Covered(seats, eventId, own, true) == InZone(seats, eventId, zoneId, true);
  }

  // ---------------------------------------------------------------- zones make up the event

  function ZoneSum(zones: seq<ZoneSummary>, free: bool): nat {
    if zones == [] then 0
    else
      var last := zones[|zones| - 1];
      ZoneSum(zones[..|zones| - 1], free) + if free then last.availableSeats else last.totalSeats
  }

  ghost predicate DistinctZones(zones: seq<ZoneSummary>) {
    forall i, j :: 0 <= i < j < |zones| ==> zones[i].zoneId != zones[j].zoneId
  }

  /** A row of a zone's entry, with the true numbers of its seats. */
  ghost predicate RowOk(seats: map<string, SeatRow>, eventId: string, zoneId: string, r: RowSummary) {
    && r.totalSeats == |InRow(seats, eventId, zoneId, r.row, false)|
    && r.availableSeats == |InRow(seats, eventId, zoneId, r.row, true)|
  }

  ghost predicate HasRow(rows: seq<RowSummary>, row: string) {
    exists k :: 0 <= k < |rows| && rows[k].row == row
  }

  /** Some line of the query for the one row comes before some line for the other. */
  ghost predicate RowPrecedes(groups: seq<GroupRow>, zoneId: string, row: string, other: string) {
    exists g, h :: Precedes(groups, g, h) && g.zoneId == zoneId == h.zoneId && g.row == row && h.row == other
  }

  /** Every row with a seat of the zone once, in the order of the query, with its true numbers. */
  ghost predicate RowsOk(seats: map<string, SeatRow>, eventId: string, groups: seq<GroupRow>, z: ZoneSummary) {
    && (forall k :: 0 <= k < |z.rows| ==> RowOk(seats, eventId, z.zoneId, z.rows[k]))
    && (forall id :: id in InZone(seats, eventId, z.zoneId, false) ==> HasRow(z.rows, seats[id].place.row))
    && (forall k, l :: 0 <= k < l < |z.rows| ==>
          z.rows[k].row != z.rows[l].row && RowPrecedes(groups, z.zoneId, z.rows[k].row, z.rows[l].row))
  }

  lemma RowsAreTrue(seats: map<string, SeatRow>, eventId: string, groups: seq<GroupRow>, z: ZoneSummary)
    requires Grouped(seats, eventId, groups) && z.rows == Summaries(OfZone(groups, z.zoneId))
    ensures RowsOk(seats, eventId, groups, z)
  {
    var own := OfZone(groups, z.zoneId);
    OfZoneSelects(groups, z.zoneId);
    forall k | 0 <= k < |own| ensures RowOk(seats, eventId, z.zoneId, z.rows[k]) {
      assert own[k] in own;
      var m :| 0 <= m < |groups| && groups[m] == own[k];
      assert Counted(seats, eventId, groups[m]);
    }
    forall id | id in InZone(seats, eventId, z.zoneId, false) ensures HasRow(z.rows, seats[id].place.row) {
      assert HasGroup(groups, z.zoneId, seats[id].place.row);
      var k :| 0 <= k < |groups| && groups[k].zoneId == z.zoneId && groups[k].row == seats[id].place.row;
      assert groups[k] in own;
      var m :| 0 <= m < |own| && own[m] == groups[k];
      assert z.rows[m].row == seats[id].place.row;
    }
    forall k, l | 0 <= k < l < |own|
      ensures z.rows[k].row != z.rows[l].row && RowPrecedes(groups, z.zoneId, z.rows[k].row, z.rows[l].row)
    {
      RowsInOrder(groups, z, k, l);
    }
  }

  lemma RowsInOrder(groups: seq<GroupRow>, z: ZoneSummary, k: nat, l: nat)
    requires DistinctGroups(groups) && z.rows == Summaries(OfZone(groups, z.zoneId))
    requires k < l < |z.rows|
    ensures z.rows[k].row != z.rows[l].row && RowPrecedes(groups, z.zoneId, z.rows[k].row, z.rows[l].row)
  {
    var own := OfZone(groups, z.zoneId);
    OfZoneSelects(groups, z.zoneId);
    OfZoneDistinct(groups, z.zoneId);
    OfZoneInOrder(groups, z.zoneId, k, l);
    assert own[k] in own && own[l] in own;
    assert Precedes(groups, own[k], own[l]) && z.rows[k].row == own[k].row && z.rows[l].row == own[l].row;
  }

  /** A zone's entry: its rows, and the true numbers of its seats. */
  ghost predicate ZoneOk(seats: map<string, SeatRow>, eventId: string, groups: seq<GroupRow>, z: ZoneSummary) {
    && RowsOk(seats, eventId, groups, z)
    && z.totalSeats == |InZone(seats, eventId, z.zoneId, false)|
    && z.availableSeats == |InZone(seats, eventId, z.zoneId, true)|
  }

  ghost predicate HasZone(zones: seq<ZoneSummary>, zoneId: string) {
    exists k :: 0 <= k < |zones| && zones[k].zoneId == zoneId
  }

  ghost function InZones(seats: map<string, SeatRow>, eventId: string, zones: seq<ZoneSummary>, free: bool): set<string> {
    set id | id in Among(seats, eventId, free) && HasZone(zones, seats[id].zoneId)
  }

  lemma HasZoneExtends(zones: seq<ZoneSummary>, z: ZoneSummary, zoneId: string)
    ensures HasZone(zones + [z], zoneId) <==> HasZone(zones, zoneId) || z.zoneId == zoneId
  {
    var longer := zones + [z];
    if HasZone(zones, zoneId) {
      var k :| 0 <= k < |zones| && zones[k].zoneId == zoneId;
      assert longer[k] == zones[k];
    } else if z.zoneId == zoneId {
      assert longer[|zones|] == z;
    }
  }

  lemma InZonesExtends(seats: map<string, SeatRow>, eventId: string, zones: seq<ZoneSummary>, z: ZoneSummary, free: bool)
    requires !HasZone(zones, z.zoneId)
    ensures |InZones(seats, eventId, zones + [z], free)|
         == |InZones(seats, eventId, zones, free)| + |InZone(seats, eventId, z.zoneId, free)|
  {
    var most, more := InZones(seats, eventId, zones, free), InZone(seats, eventId, z.zoneId, free);
    forall zoneId: string ensures HasZone(zones + [z], zoneId) <==> HasZone(zones, zoneId) || z.zoneId == zoneId {
      HasZoneExtends(zones, z, zoneId);
    }
    assert InZones(seats, eventId, zones + [z], free) == most + more;
    assert most !! more;
  }

  lemma {:induction false} ZoneSumsAreSizes(seats: map<string, SeatRow>, eventId: string, groups: seq<GroupRow>,
                                                  zones: seq<ZoneSummary>, free: bool)
    requires DistinctZones(zones)
    requires forall k :: 0 <= k < |zones| ==> ZoneOk(seats, eventId, groups, zones[k])
    ensures ZoneSum(zones, free) == |InZones(seats, eventId, zones, free)|
  {
    if zones == [] {
      assert InZones(seats, eventId, zones, free) == {};
    } else {
      var n := |zones| - 1;
      ZoneSumsAreSizes(seats, eventId, groups, zones[..n], free);
      assert zones == zones[..n] + [zones[n]];
      InZonesExtends(seats, eventId, zones[..n], zones[n], free);
    }
  }

  // ---------------------------------------------------------------- the two loops

  ghost predicate DistinctIds(ids: seq<string>) {
    forall i, j :: 0 <= i < j < |ids| ==> ids[i] != ids[j]
  }

  /** `zoneId` has turned up among the first n lines. */
  ghost predicate Seen(groups: seq<GroupRow>, n: nat, zoneId: string) {
    exists i :: 0 <= i < n && i < |groups| && groups[i].zoneId == zoneId
  }

  /** Zones are listed in the order in which they first turn up. */
  ghost predicate FirstSeenOrder(order: seq<string>, groups: seq<GroupRow>) {
    forall k, l :: 0 <= k < l < |order| ==> SeenBefore(groups, order[k], order[l])
  }

  ghost predicate SeenBefore(groups: seq<GroupRow>, zoneId: string, later: string) {
    exists n: nat :: n <= |groups| && Seen(groups, n, zoneId) && !Seen(groups, n, later)
  }

  /** The zones of the first n lines, each once. */
  ghost predicate ListsZones(order: seq<string>, groups: seq<GroupRow>, n: nat) {
    DistinctIds(order) && FirstSeenOrder(order, groups) && forall z :: z in order <==> Seen(groups, n, z)
  }

  lemma SeenNext(groups: seq<GroupRow>, i: nat, z: string)
    requires i < |groups|
    ensures Seen(groups, i + 1, z) <==> Seen(groups, i, z) || groups[i].zoneId == z
  {
    if Seen(groups, i, z) {
      var k :| 0 <= k < i && groups[k].zoneId == z;
      assert groups[k].zoneId == z && k < i + 1;
    }
  }

  lemma FirstSeenOrderGrows(order: seq<string>, groups: seq<GroupRow>, i: nat, zoneId: string)
    requires i <= |groups| && ListsZones(order, groups, i) && !Seen(groups, i, zoneId)
    ensures FirstSeenOrder(order + [zoneId], groups)
  {
    var longer := order + [zoneId];
    forall k, l | 0 <= k < l < |longer| ensures SeenBefore(groups, longer[k], longer[l]) {
      if l == |order| {
        assert order[k] in order;
        assert Seen(groups, i, order[k]) && !Seen(groups, i, zoneId);
      } else {
        assert SeenBefore(groups, order[k], order[l]);
      }
    }
  }

  lemma ListsZonesGrows(order: seq<string>, groups: seq<GroupRow>, i: nat)
    requires i < |groups| && ListsZones(order, groups, i)
    ensures ListsZones(if groups[i].zoneId in order then order else order + [groups[i].zoneId], groups, i + 1)
  {
    var z := groups[i].zoneId;
    if z !in order {
      FirstSeenOrderGrows(order, groups, i, z);
    }
    forall y ensures Seen(groups, i + 1, y) <==> Seen(groups, i, y) || z == y {
      SeenNext(groups, i, y);
    }
  }

  lemma OfZoneGrows(groups: seq<GroupRow>, i: nat, zoneId: string)
    requires i < |groups|
    ensures OfZone(groups[..i + 1], zoneId) ==
      OfZone(groups[..i], zoneId) + if groups[i].zoneId == zoneId then [groups[i]] else []
  {
    assert groups[..i + 1][..i] == groups[..i];
  }

  lemma SummariesExtend(groups: seq<GroupRow>, g: GroupRow)
    ensures Summaries(groups + [g]) == Summaries(groups) + [Summary(g)]
  {
  }

  ghost predicate MapsZones(zonesMap: map<string, seq<RowSummary>>, groups: seq<GroupRow>) {
    && (forall z :: z in zonesMap <==> OfZone(groups, z) != [])
    && (forall z :: z in zonesMap ==> zonesMap[z] == Summaries(OfZone(groups, z)))
  }

  lemma MapsZonesGrows(zonesMap: map<string, seq<RowSummary>>, groups: seq<GroupRow>, i: nat)
    requires i < |groups| && MapsZones(zonesMap, groups[..i])
    ensures var r := groups[i];
      var list := if r.zoneId in zonesMap then zonesMap[r.zoneId] else [];
      MapsZones(zonesMap[r.zoneId := list + [Summary(r)]], groups[..i + 1])
  {
    var r := groups[i];
    var list := if r.zoneId in zonesMap then zonesMap[r.zoneId] else [];
    var more := zonesMap[r.zoneId := list + [Summary(r)]];
    forall z ensures z in more <==> OfZone(groups[..i + 1], z) != []
             ensures z in more ==> more[z] == Summaries(OfZone(groups[..i + 1], z))
    {
      OfZoneGrows(groups, i, z);
      SummariesExtend(OfZone(groups[..i], z), r);
    }
  }

  /** A Map keeps its keys in the order of their first insertion: `order` lists them. */
  method GroupByZone(groups: seq<GroupRow>) returns (zonesMap: map<string, seq<RowSummary>>, order: seq<string>)
    ensures DistinctIds(order) && forall z :: z in order <==> z in zonesMap
    ensures FirstSeenOrder(order, groups)
    ensures MapsZones(zonesMap, groups)
  {
    zonesMap, order := map[], [];
    for i := 0 to |groups|
      invariant ListsZones(order, groups, i) && forall z :: z in order <==> z in zonesMap
      invariant MapsZones(zonesMap, groups[..i])
    {
      var r := groups[i];
      MapsZonesGrows(zonesMap, groups, i);
      ListsZonesGrows(order, groups, i);
      var list := if r.zoneId in zonesMap then zonesMap[r.zoneId] else [];
      if r.zoneId !in zonesMap {
        order := order + [r.zoneId];
      }
      zonesMap := zonesMap[r.zoneId := list + [Summary(r)]];
    }
    assert groups[..|groups|] == groups;
  }

  function Zone(zoneId: string, rows: seq<RowSummary>): ZoneSummary {
    ZoneSummary(zoneId, rows, SumTotal(rows), SumAvailable(rows))
  }

  method ListZones(zonesMap: map<string, seq<RowSummary>>, order: seq<string>)
    returns (zones: seq<ZoneSummary>, totalSeats: nat, totalAvailable: nat)
    requires forall k :: 0 <= k < |order| ==> order[k] in zonesMap
    ensures |zones| == |order| && forall k :: 0 <= k < |order| ==> zones[k] == Zone(order[k], zonesMap[order[k]])
    ensures totalSeats == ZoneSum(zones, false) && totalAvailable == ZoneSum(zones, true)
  {
    zones, totalSeats, totalAvailable := [], 0, 0;
    for i := 0 to |order|
      invariant |zones| == i && forall k :: 0 <= k < i ==> zones[k] == Zone(order[k], zonesMap[order[k]])
      invariant totalSeats == ZoneSum(zones, false) && totalAvailable == ZoneSum(zones, true)
    {
      var zone := Zone(order[i], zonesMap[order[i]]);
      assert (zones + [zone])[..i] == zones;
      zones := zones + [zone];
      totalSeats, totalAvailable := totalSeats + zone.totalSeats, totalAvailable + zone.availableSeats;
    }
  }

  /** Each zone once, with its rows and true numbers, and grand totals that are the event's flat counts. */
  ghost predicate TrueTo(r: SeatMapResponse, seats: map<string, SeatRow>, groups: seq<GroupRow>) {
    && DistinctZones(r.zones)
    && (forall k :: 0 <= k < |r.zones| ==> ZoneOk(seats, r.eventId, groups, r.zones[k]))
    && (forall id :: id in Among(seats, r.eventId, false) ==> HasZone(r.zones, seats[id].zoneId))
    && r.totalSeats == |Among(seats, r.eventId, false)|
    && r.totalAvailable == |Among(seats, r.eventId, true)|
  }

  lemma ListedZonesAreTrue(seats: map<string, SeatRow>, groups: seq<GroupRow>, order: seq<string>, r: SeatMapResponse)
    requires Grouped(seats, r.eventId, groups) && DistinctIds(order)
    requires forall z :: OfZone(groups, z) != [] ==> z in order
    requires |r.zones| == |order|
    requires forall k :: 0 <= k < |order| ==> r.zones[k] == Zone(order[k], Summaries(OfZone(groups, order[k])))
    requires r.totalSeats == ZoneSum(r.zones, false) && r.totalAvailable == ZoneSum(r.zones, true)
    ensures TrueTo(r, seats, groups)
  {
    forall k | 0 <= k < |r.zones| ensures ZoneOk(seats, r.eventId, groups, r.zones[k]) {
      ZoneTotals(seats, r.eventId, groups, order[k]);
      RowsAreTrue(seats, r.eventId, groups, r.zones[k]);
    }
    EveryZoneListed(seats, r.eventId, groups, r.zones, order);
    ZoneSumsAreSizes(seats, r.eventId, groups, r.zones, false);
    ZoneSumsAreSizes(seats, r.eventId, groups, r.zones, true);
    assert InZones(seats, r.eventId, r.zones, false) == Among(seats, r.eventId, false);
    assert InZones(seats, r.eventId, r.zones, true) == Among(seats, r.eventId, true);
  }

  /** The event is not found exactly when it has no seats; otherwise the map is true to them. */
  method GetSeatMap(eventId: string, groups: seq<GroupRow>, ghost seats: map<string, SeatRow>)
    returns (r: Option<SeatMapResponse>)
    requires Grouped(seats, eventId, groups)
    ensures r.None? <==> Among(seats, eventId, false) == {}
    ensures r.Some? ==> r.value.eventId == eventId && TrueTo(r.value, seats, groups)
    ensures r.Some? ==> forall k, l :: 0 <= k < l < |r.value.zones| ==>
      SeenBefore(groups, r.value.zones[k].zoneId, r.value.zones[l].zoneId)
  {
    NotFoundIffNoSeats(seats, eventId, groups);
    if |groups| == 0 {
      return None;
    }
    var zonesMap, order := GroupByZone(groups);
    var zones, totalSeats, totalAvailable := ListZones(zonesMap, order);
    var response := SeatMapResponse(eventId, zones, totalSeats, totalAvailable);
    ListedZonesAreTrue(seats, groups, order, response);
    r := Some(response);
  }

  lemma NotFoundIffNoSeats(seats: map<string, SeatRow>, eventId: string, groups: seq<GroupRow>)
    requires Grouped(seats, eventId, groups)
    ensures groups == [] <==> Among(seats, eventId, false) == {}
  {
    if groups != [] {
      assert Counted(seats, eventId, groups[0]);
      var id :| id in InRow(seats, eventId, groups[0].zoneId, groups[0].row, false);
      assert id in Among(seats, eventId, false);
    }
  }

  lemma EveryZoneListed(seats: map<string, SeatRow>, eventId: string, groups: seq<GroupRow>,
                        zones: seq<ZoneSummary>, order: seq<string>)
    requires Grouped(seats, eventId, groups)
    requires |zones| == |order| && forall k :: 0 <= k < |order| ==> zones[k].zoneId == order[k]
    requires forall z :: OfZone(groups, z) != [] ==> z in order
    ensures forall id :: id in Among(seats, eventId, false) ==> HasZone(zones, seats[id].zoneId)
  {
    forall id | id in Among(seats, eventId, false) ensures HasZone(zones, seats[id].zoneId) {
      var zoneId := seats[id].zoneId;
      assert HasGroup(groups, zoneId, seats[id].place.row);
      var k :| 0 <= k < |groups| && groups[k].zoneId == zoneId && groups[k].row == seats[id].place.row;
      OfZoneSelects(groups, zoneId);
      assert groups[k] in OfZone(groups, zoneId);
      assert zoneId in order;
      var m :| 0 <= m < |order| && order[m] == zoneId;
      assert zones[m].zoneId == zoneId;
    }
  }
}
