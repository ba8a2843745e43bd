/** The playlist queue (`copilot/playlist.py`): a table of rows keyed by an autoincrement id and
    ordered by a `position` column, which after every public operation reads as a plain
    sequence. The catalog lookup is a set of known track ids; clocks are parameters. */
module Playlist {
  import opened Wrappers

  type TrackId = string

  datatype Row = Row(trackId: TrackId, position: int, addedAt: int)

  type Table = map<nat, Row>

  /** What a queue entry is to its users: everything but its place. */
  datatype Item = Item(trackId: TrackId, addedAt: int)

  datatype Entry = Entry(trackId: TrackId, position: nat, addedAt: int, known: bool)

  datatype QueueError = ValueError | KeyError(trackId: TrackId)

  // ---------------------------------------------------------------- the table as a sequence

  ghost predicate Listed(order: seq<nat>, table: Table) {
    forall i :: 0 <= i < |order| ==> order[i] in table
  }

  ghost predicate Covers(order: seq<nat>, table: Table) { forall id :: id in table ==> id in order }

  ghost predicate Rising(order: seq<nat>, table: Table)
    requires Listed(order, table)
  {
    forall i, j :: 0 <= i < j < |order| ==> table[order[i]].position < table[order[j]].position
  }

  /** `order` lists the row ids once each, by strictly rising position. */
  ghost predicate Ordered(order: seq<nat>, table: Table) {
    Listed(order, table) && Covers(order, table) && Rising(order, table)
  }

  ghost predicate Dense(order: seq<nat>, table: Table) {
    Ordered(order, table) && forall i :: 0 <= i < |order| ==> table[order[i]].position == i
  }

  function ItemOf(row: Row): Item { Item(row.trackId, row.addedAt) }

  ghost function Items(order: seq<nat>, table: Table): seq<Item>
    requires Listed(order, table)
  {
    seq(|order|, i requires 0 <= i < |order| => ItemOf(table[order[i]]))
  }

  /** The known head of the queue and what follows it, once dangling entries are dropped. */
  function DropDangling(items: seq<Item>, catalog: set<TrackId>): seq<Item> {
    if items == [] || items[0].trackId in catalog then items else DropDangling(items[1..], catalog)
  }

  lemma {:induction false} DropDanglingMeaning(items: seq<Item>, catalog: set<TrackId>)
    ensures var rest := DropDangling(items, catalog);
            var n := |items| - |rest|;
            0 <= n && rest == items[n..]
            && (forall k :: 0 <= k < n ==> items[k].trackId !in catalog)
            && (rest != [] ==> rest[0].trackId in catalog)
  {
    if items != [] && items[0].trackId !in catalog { DropDanglingMeaning(items[1..], catalog); }
  }

  function Without(items: seq<Item>, id: TrackId): seq<Item> {
    if items == [] then []
    else
      var last := items[|items| - 1];
      Without(items[..|items| - 1], id) + if last.trackId == id then [] else [last]
  }

  /** Every entry of the track is gone, and every other one is still there, as often as before. */
  lemma {:induction false} WithoutMeaning(items: seq<Item>, id: TrackId)
    ensures forall item :: multiset(Without(items, id))[item] == if item.trackId == id then 0 else multiset(items)[item]
  {
    if items != [] {
      WithoutMeaning(items[..|items| - 1], id);
      assert items == items[..|items| - 1] + [items[|items| - 1]];
    }
  }

  /** Where entry `i` stands once the entries of the track are gone. */
  function NewPlace(items: seq<Item>, id: TrackId, i: nat): nat
    requires i <= |items|
  {
    |Without(items[..i], id)|
  }

  /** The entries that stay keep their order: each is found at its new place, and of two that stay
      the earlier one comes first. */
  lemma {:induction false} WithoutKeepsOrder(items: seq<Item>, id: TrackId, i: nat)
    requires i < |items| && items[i].trackId != id
    ensures NewPlace(items, id, i) < |Without(items, id)|
    ensures Without(items, id)[NewPlace(items, id, i)] == items[i]
    ensures forall j :: i < j <= |items| ==> NewPlace(items, id, i) < NewPlace(items, id, j)
    decreases |items|
  {
    assert items[..|items|] == items;
    forall j | i < j < |items| ensures NewPlace(items, id, i) < NewPlace(items, id, j) {
      WithoutKeepsOrder(items[..j], id, i);
      assert items[..j][..i] == items[..i];
    }
    if i < |items| - 1 {
      WithoutKeepsOrder(items[..|items| - 1], id, i);
      assert items[..|items| - 1][..i] == items[..i];
    }
  }

  predicate Has(items: seq<Item>, id: TrackId) { exists k :: 0 <= k < |items| && items[k].trackId == id }

  lemma HasSplit(items: seq<Item>, id: TrackId)
    requires items != []
    ensures Has(items, id) <==> Has(items[..|items| - 1], id) || items[|items| - 1].trackId == id
  {
  }

  lemma {:induction false} WithoutShrinks(items: seq<Item>, id: TrackId)
    ensures |Without(items, id)| <= |items|
    ensures |Without(items, id)| < |items| <==> Has(items, id)
    ensures !Has(items, id) ==> Without(items, id) == items
  {
    if items != [] {
      WithoutShrinks(items[..|items| - 1], id);
      HasSplit(items, id);
      hide Has;
      assert items == items[..|items| - 1] + [items[|items| - 1]];
    }
  }

  function Cut<T>(s: seq<T>, i: int): seq<T>
    requires 0 <= i < |s|
  {
    s[..i] + s[i + 1..]
  }

  function Moved<T>(s: seq<T>, i: int, j: int): seq<T>
    requires 0 <= i < |s| && 0 <= j < |s|
  {
    Cut(s, i)[..j] + [s[i]] + Cut(s, i)[j..]
  }

  /** What stands at `k` after element `i` has moved to `j`: that element at `j`, its right or left
      neighbour between the two, and elsewhere what stood there. */
  lemma MovedAt<T>(s: seq<T>, i: int, j: int, k: int)
    requires 0 <= i < |s| && 0 <= j < |s| && 0 <= k < |s|
    ensures |Moved(s, i, j)| == |s|
    ensures Moved(s, i, j)[k] ==
            s[if k == j then i else if i <= k < j then k + 1 else if j < k <= i then k - 1 else k]
  {
  }

  /** Moving back undoes a move. */
  lemma MovedBack<T>(s: seq<T>, i: int, j: int)
    requires 0 <= i < |s| && 0 <= j < |s|
    ensures |Moved(s, i, j)| == |s| && Moved(Moved(s, i, j), j, i) == s
  {
    var moved := Moved(s, i, j);
    MovedAt(s, i, j, j);
    forall k | 0 <= k < |s| ensures Moved(moved, j, i)[k] == s[k] {
      MovedAt(moved, j, i, k);
      hide Moved;
      MovedAt(s, i, j, if k == i then j else if j <= k < i then k + 1 else if i < k <= j then k - 1 else k);
    }
  }

  function FirstIndex(items: seq<Item>, id: TrackId): (i: nat)
    ensures i <= |items|
    ensures forall k :: 0 <= k < i ==> items[k].trackId != id
    ensures i < |items| ==> items[i].trackId == id
  {
    if items == [] || items[0].trackId == id then 0 else 1 + FirstIndex(items[1..], id)
  }

  function ClampIndex(position: int, n: nat): (i: nat)
    requires n > 0
    ensures 0 <= position < n ==> i == position
    ensures position < 0 ==> i == 0
    ensures position >= n ==> i == n - 1
  {
    var upper := if position < n - 1 then position else n - 1;
    if upper < 0 then 0 else upper
  }

  /** The stamp a rewrite gives a track: that of its last entry. */
  function LastStamp(items: seq<Item>, id: TrackId): Option<int> {
    if items == [] then None
    else if items[|items| - 1].trackId == id then Some(items[|items| - 1].addedAt)
    else LastStamp(items[..|items| - 1], id)
  }

  lemma {:induction false} HasStamp(items: seq<Item>, k: nat)
    requires k < |items|
    ensures LastStamp(items, items[k].trackId).Some?
  {
    if k < |items| - 1 { HasStamp(items[..|items| - 1], k); }
  }

  function Restamped(moved: seq<Item>, items: seq<Item>): seq<Item>
    requires forall item :: item in moved ==> LastStamp(items, item.trackId).Some?
  {
    seq(|moved|, i requires 0 <= i < |moved| =>
      Item(moved[i].trackId, LastStamp(items, moved[i].trackId).value))
  }

  lemma MovedStays<T>(s: seq<T>, i: int, j: int)
    requires 0 <= i < |s| && 0 <= j < |s|
    ensures forall x :: x in Moved(s, i, j) <==> x in s
  {
    var cut := Cut(s, i);
    assert s == s[..i] + [s[i]] + s[i + 1..];
    assert cut == cut[..j] + cut[j..];
    assert forall x :: x in s <==> x in cut || x == s[i];
    assert forall x :: x in cut <==> x in cut[..j] || x in cut[j..];
  }

  lemma {:induction false} MovedHasStamps(items: seq<Item>, i: int, j: int)
    requires 0 <= i < |items| && 0 <= j < |items|
    ensures forall item :: item in Moved(items, i, j) ==> LastStamp(items, item.trackId).Some?
  {
    MovedStays(items, i, j);
    forall item | item in Moved(items, i, j) ensures LastStamp(items, item.trackId).Some? {
      var k :| 0 <= k < |items| && items[k] == item;
      HasStamp(items, k);
    }
  }

  /** Entry `k` is the last one of its track. */
  predicate IsLastOf(items: seq<Item>, k: nat, id: TrackId) {
    k < |items| && items[k].trackId == id && forall j :: k < j < |items| ==> items[j].trackId != id
  }

  /** A track has a stamp if and only if it is queued, and it is that of its last entry. */
  lemma {:induction false} LastStampMeaning(items: seq<Item>, id: TrackId)
    ensures LastStamp(items, id).Some? <==> Has(items, id)
    ensures forall k: nat :: IsLastOf(items, k, id) ==> LastStamp(items, id) == Some(items[k].addedAt)
  {
    if items != [] && items[|items| - 1].trackId != id {
      var front := items[..|items| - 1];
      LastStampMeaning(front, id);
      HasSplit(items, id);
      hide Has;
      forall k: nat | IsLastOf(items, k, id) ensures LastStamp(items, id) == Some(items[k].addedAt) {
        assert IsLastOf(front, k, id);
      }
    }
  }

  /** The queue after its entry `i` is moved to `j`: the new order, stamps by track. */
  function Relocated(items: seq<Item>, i: int, j: int): seq<Item>
    requires 0 <= i < |items| && 0 <= j < |items|
  {
    MovedHasStamps(items, i, j);
    Restamped(Moved(items, i, j), items)
  }

  lemma {:induction false} RelocatedMeaning(items: seq<Item>, i: int, j: int, k: int)
    requires 0 <= i < |items| && 0 <= j < |items| && 0 <= k < |items|
    ensures |Relocated(items, i, j)| == |items|
    ensures Relocated(items, i, j)[k].trackId ==
            items[if k == j then i else if i <= k < j then k + 1 else if j < k <= i then k - 1 else k].trackId
    ensures LastStamp(items, Relocated(items, i, j)[k].trackId) == Some(Relocated(items, i, j)[k].addedAt)
  {
    MovedAt(items, i, j, k);
    MovedHasStamps(items, i, j);
    hide Moved;
    assert Moved(items, i, j)[k] in Moved(items, i, j);
  }

  /** The stamps survive a move if and only if every entry already carries the stamp of the
      last entry of its track: with differing duplicates the earlier stamps are lost. */
  lemma {:induction false} ReorderKeepsStamps(items: seq<Item>, i: int, j: int)
    requires 0 <= i < |items| && 0 <= j < |items|
    ensures Relocated(items, i, j) == Moved(items, i, j)
       <==> forall item :: item in items ==> LastStamp(items, item.trackId) == Some(item.addedAt)
  {
    var moved := Moved(items, i, j);
    MovedStays(items, i, j);
    MovedHasStamps(items, i, j);
    if Restamped(moved, items) == moved {
      forall item | item in items ensures LastStamp(items, item.trackId) == Some(item.addedAt) {
        assert item in moved;
        var k :| 0 <= k < |moved| && moved[k] == item;
        assert Restamped(moved, items)[k] == moved[k];
      }
    } else {
      var k :| 0 <= k < |moved| && Restamped(moved, items)[k] != moved[k];
      assert moved[k] in items;
    }
  }

  /** `out` is the queue as the wire shows it: dense positions, joined with the catalog. */
  ghost predicate IsSnapshot(out: seq<Entry>, items: seq<Item>, catalog: set<TrackId>) {
    |out| == |items|
    && forall i :: 0 <= i < |out| ==>
         out[i] == Entry(items[i].trackId, i, items[i].addedAt, items[i].trackId in catalog)
  }

  function Tracks(items: seq<Item>): (ids: seq<TrackId>)
    ensures |ids| == |items|
    ensures forall k :: 0 <= k < |ids| ==> ids[k] == items[k].trackId
  {
    seq(|items|, k requires 0 <= k < |items| => items[k].trackId)
  }

  function TrackIds(entries: seq<Entry>): (ids: seq<TrackId>)
    ensures |ids| == |entries|
    ensures forall k :: 0 <= k < |ids| ==> ids[k] == entries[k].trackId
  {
    seq(|entries|, k requires 0 <= k < |entries| => entries[k].trackId)
  }

  ghost predicate IsStamped(items: seq<Item>, ids: seq<TrackId>, stamps: map<TrackId, int>, now: int) {
    |items| == |ids|
    && forall k :: 0 <= k < |ids| ==> items[k] == Item(ids[k], if ids[k] in stamps then stamps[ids[k]] else now)
  }

  /** Inserting the moved ids with the dict's stamps relocates the entry. */
  lemma RewriteRelocates(items: seq<Item>, ids: seq<TrackId>, stamps: map<TrackId, int>, after: seq<Item>,
                         i: int, j: int, now: int)
    requires ids == Tracks(items) && 0 <= i < |items| && 0 <= j < |items|
    requires forall id :: id in stamps <==> LastStamp(items, id).Some?
    requires forall id :: id in stamps ==> LastStamp(items, id) == Some(stamps[id])
    requires IsStamped(after, Moved(ids, i, j), stamps, now)
    ensures after == Relocated(items, i, j)
  {
    hide Relocated, Moved, LastStamp;
    MovedAt(ids, i, j, 0);
    RelocatedMeaning(items, i, j, 0);
    forall k | 0 <= k < |items| ensures after[k] == Relocated(items, i, j)[k] {
      MovedAt(ids, i, j, k);
      RelocatedMeaning(items, i, j, k);
    }
  }

  lemma SnapshotTracks(out: seq<Entry>, items: seq<Item>, catalog: set<TrackId>)
    requires IsSnapshot(out, items, catalog)
    ensures |out| == |items| && TrackIds(out) == Tracks(items)
  {
  }

  /** `list.index`, or the length where that raises. */
  method IndexOf(ids: seq<TrackId>, id: TrackId) returns (cur: nat)
    ensures cur <= |ids| && (forall k :: 0 <= k < cur ==> ids[k] != id) && (cur < |ids| ==> ids[cur] == id)
  {
    cur := 0;
    while cur < |ids| && ids[cur] != id
      invariant cur <= |ids| && forall k :: 0 <= k < cur ==> ids[k] != id
    {
      cur := cur + 1;
    }
  }

  // ---------------------------------------------------------------- SQL over the table

  ghost predicate IsLeast(table: Table, first: nat) {
    first in table && forall id :: id in table ==> table[first].position <= table[id].position
  }

  /** The one row with the least position is the first of the order. */
  lemma LeastIsFirst(order: seq<nat>, table: Table)
    requires Ordered(order, table) && table != map[]
    ensures order != [] && order[0] in table && IsLeast(table, order[0])
    ensures forall id :: IsLeast(table, id) ==> id == order[0]
  {
  }

  /** Without its first row the table is ordered by the rest. */
  lemma DropFirst(order: seq<nat>, table: Table)
    requires Ordered(order, table) && order != []
    ensures order[0] in table && Ordered(order[1..], table - {order[0]})
    ensures Items(order[1..], table - {order[0]}) == Items(order, table)[1..]
  {
  }

  /** `... ORDER BY position ASC LIMIT 1` on a table that has rows. */
  method SelectFirst(table: Table, ghost order: seq<nat>) returns (first: nat)
    requires Ordered(order, table) && table != map[]
    ensures first in table && order != [] && first == order[0]
  {
    hide Ordered;
    LeastIsFirst(order, table);
    first :| first in table && forall id :: id in table ==> table[first].position <= table[id].position;
    assert IsLeast(table, first);
  }

  /** `SELECT id ... ORDER BY position`. */
  method SelectByPosition(table: Table, ghost order: seq<nat>) returns (ids: seq<nat>)
    requires Ordered(order, table)
    ensures ids == order
  {
    hide Ordered, Items;
    ids := [];
    var left := table;
    ghost var rest := order;
    while left != map[]
      invariant order == ids + rest && Ordered(rest, left)
      decreases |left|
    {
      var first := SelectFirst(left, rest);
      DropFirst(rest, left);
      ids := ids + [first];
      left, rest := left - {first}, rest[1..];
    }
    TableSize(rest, left);
  }

  lemma {:induction false} TableSize(order: seq<nat>, table: Table)
    requires Ordered(order, table)
    ensures |table| == |order|
  {
    if order == [] {
      assert table.Keys == {};
    } else {
      hide Ordered, Items;
      DropFirst(order, table);
      TableSize(order[1..], table - {order[0]});
      assert table.Keys == (table - {order[0]}).Keys + {order[0]};
    }
  }

  lemma OrderDistinct(order: seq<nat>, table: Table)
    requires Ordered(order, table)
    ensures forall i :: 0 <= i < |order| ==> order[i] in table
    ensures forall i, j :: 0 <= i < j < |order| ==> order[i] != order[j]
  {
  }

  lemma Renumbered(order: seq<nat>, before: Table, after: Table)
    requires Ordered(order, before) && after.Keys == before.Keys
    requires forall id :: id in before ==> ItemOf(after[id]) == ItemOf(before[id])
    requires forall j :: 0 <= j < |order| ==> order[j] in after && after[order[j]].position == j
    ensures Dense(order, after) && Items(order, after) == Items(order, before)
  {
  }

  /** The rows of the order that another track owns. */
  ghost function Kept(order: seq<nat>, table: Table, id: TrackId): seq<nat>
    requires Listed(order, table)
  {
    if order == [] then []
    else
      var last := order[|order| - 1];
      Kept(order[..|order| - 1], table, id) + if table[last].trackId == id then [] else [last]
  }

  lemma {:induction false} KeptMembers(order: seq<nat>, table: Table, id: TrackId)
    requires Listed(order, table)
    ensures forall row :: row in Kept(order, table, id) <==> row in order && table[row].trackId != id
    ensures forall i :: 0 <= i < |Kept(order, table, id)| ==> Kept(order, table, id)[i] in order
  {
    if order != [] {
      KeptMembers(order[..|order| - 1], table, id);
      assert order == order[..|order| - 1] + [order[|order| - 1]];
    }
  }

  lemma RisingAppend(order: seq<nat>, last: nat, table: Table)
    requires Listed(order, table) && last in table && Rising(order, table)
    requires forall row :: row in order ==> row in table && table[row].position < table[last].position
    ensures Listed(order + [last], table) && Rising(order + [last], table)
  {
  }

  lemma RisingFront(order: seq<nat>, table: Table)
    requires order != [] && Listed(order, table) && Rising(order, table)
    ensures var front, last := order[..|order| - 1], order[|order| - 1];
            && Listed(front, table) && Rising(front, table)
            && forall row :: row in front ==> row in table && table[row].position < table[last].position
  {
  }

  lemma {:induction false} KeptRising(order: seq<nat>, table: Table, id: TrackId)
    requires Listed(order, table) && Rising(order, table)
    ensures Listed(Kept(order, table, id), table) && Rising(Kept(order, table, id), table)
  {
    if order != [] {
      var front, last := order[..|order| - 1], order[|order| - 1];
      RisingFront(order, table);
      KeptRising(front, table, id);
      KeptMembers(front, table, id);
      hide Rising;
      RisingAppend(Kept(front, table, id), last, table);
    }
  }

  lemma {:induction false} KeptItems(order: seq<nat>, table: Table, id: TrackId)
    requires Listed(order, table)
    ensures var kept := Kept(order, table, id);
            Listed(kept, table) && Items(kept, table) == Without(Items(order, table), id)
  {
    if order != [] {
      var front, last := order[..|order| - 1], order[|order| - 1];
      KeptItems(front, table, id);
      var items := Items(order, table);
      assert items[..|items| - 1] == Items(front, table);
      assert items[|items| - 1].trackId == table[last].trackId;
      var kept := Kept(front, table, id);
      assert Items(kept + [last], table) == Items(kept, table) + [ItemOf(table[last])];
    }
  }

  function DeleteWhere(table: Table, id: TrackId): Table {
    map row | row in table && table[row].trackId != id :: table[row]
  }

  lemma DeletedOrdered(order: seq<nat>, table: Table, id: TrackId)
    requires Ordered(order, table)
    ensures Ordered(Kept(order, table, id), DeleteWhere(table, id))
    ensures Items(Kept(order, table, id), DeleteWhere(table, id)) == Without(Items(order, table), id)
  {
    var kept, left := Kept(order, table, id), DeleteWhere(table, id);
    KeptMembers(order, table, id);
    KeptRising(order, table, id);
    KeptItems(order, table, id);
    forall i | 0 <= i < |kept| ensures kept[i] in left { assert kept[i] in kept; }
    assert Items(kept, left) == Items(kept, table);
  }

  lemma NothingDeleted(order: seq<nat>, table: Table, id: TrackId)
    requires Ordered(order, table) && !Has(Items(order, table), id)
    ensures DeleteWhere(table, id) == table
  {
    forall row | row in table ensures table[row].trackId != id {
      var k :| 0 <= k < |order| && order[k] == row;
      assert Items(order, table)[k].trackId == table[row].trackId;
    }
  }

  /** The dict from track id to stamp that a rewrite builds: the last entry of a track wins. */
  method StampsByTrack(entries: seq<Entry>, ghost items: seq<Item>, ghost catalog: set<TrackId>)
      returns (stamps: map<TrackId, int>)
    requires IsSnapshot(entries, items, catalog)
    ensures forall id :: id in stamps <==> LastStamp(items, id).Some?
    ensures forall id :: id in stamps ==> LastStamp(items, id) == Some(stamps[id])
  {
    stamps := map[];
    for k := 0 to |entries|
      invariant forall id :: id in stamps <==> LastStamp(items[..k], id).Some?
      invariant forall id :: id in stamps ==> LastStamp(items[..k], id) == Some(stamps[id])
    {
      stamps := stamps[entries[k].trackId := entries[k].addedAt];
      assert items[..k + 1][..k] == items[..k];
    }
    assert items[..|items|] == items;
  }

  // ---------------------------------------------------------------- the queue

  class PlaylistQueue {
    var table: Table
    var nextId: nat
    ghost var order: seq<nat>

    ghost predicate Sparse()
      reads this
    {
      Ordered(order, table) && forall id :: id in table ==> id < nextId
    }

    /** Positions are exactly 0 .. n - 1. */
    ghost predicate Valid()
      reads this
    {
      Sparse() && Dense(order, table)
    }

    ghost function Contents(): seq<Item>
      reads this
      requires Sparse()
    {
      Items(order, table)
    }

    constructor ()
      ensures Valid() && Contents() == []
    {
      table, nextId, order := map[], 0, [];
    }

    method Insert(trackId: TrackId, position: int, addedAt: int)
      requires Valid() && position == |order|
      modifies this
      ensures Valid() && Contents() == old(Contents()) + [Item(trackId, addedAt)]
      ensures |order| == old(|order|) + 1
    {
      table := table[nextId := Row(trackId, position, addedAt)];
      order := order + [nextId];
      nextId := nextId + 1;
    }

    /** `COALESCE(MAX(position), -1)`. */
    method LastPosition() returns (last: int)
      requires Valid()
      ensures last == |order| - 1
    {
      last := -1;
      var left := table.Keys;
      while left != {}
        invariant left <= table.Keys && -1 <= last < |order|
        invariant forall id :: id in table && id !in left ==> table[id].position <= last
        decreases left
      {
        var id :| id in left;
        if table[id].position > last { last := table[id].position; }
        left := left - {id};
      }
      if order != [] { assert order[|order| - 1] in table; }
    }

    method Enqueue(trackId: TrackId, now: int, catalog: set<TrackId>) returns (r: Result<Entry, QueueError>)
      requires Valid()
      modifies this
      ensures Valid()
      ensures if trackId == "" then r == Err(ValueError) && Contents() == old(Contents())
              else r == Ok(Entry(trackId, old(|Contents()|), now, trackId in catalog))
                   && Contents() == old(Contents()) + [Item(trackId, now)]
    {
      if trackId == "" { return Err(ValueError); }
      var last := LastPosition();
      Insert(trackId, last + 1, now);
      return Ok(Entry(trackId, last + 1, now, trackId in catalog));
    }

    /** Closes the gaps in `position`; the order and the rows are otherwise as they were. */
    method Renumber()
      requires Sparse()
      modifies this
      ensures Valid() && Contents() == old(Contents())
    {
      hide Ordered, Items;
      var ids := SelectByPosition(table, order);
      OrderDistinct(order, table);
      for i := 0 to |ids|
        invariant order == old(order) && nextId == old(nextId) && table.Keys == old(table).Keys
        invariant forall j :: 0 <= j < i ==> table[ids[j]].position == j
        invariant forall id :: id in table ==> ItemOf(table[id]) == ItemOf(old(table)[id])
      {
        table := table[ids[i] := table[ids[i]].(position := i)];
      }
      Renumbered(order, old(table), table);
    }

    /** Deletes the row at the head. */
    method PopHead() returns (trackId: TrackId)
      requires Sparse() && table != map[]
      modifies this
      ensures Sparse() && old(|Contents()|) > 0 && old(Contents())[0].trackId == trackId
      ensures Contents() == old(Contents())[1..] && |table| < old(|table|)
    {
      var head := SelectFirst(table, order);
      DropFirst(order, table);
      trackId := table[head].trackId;
      hide Ordered;
      table := table - {head};
      order := order[1..];
    }

    method Dequeue(catalog: set<TrackId>) returns (r: Option<TrackId>)
      requires Valid()
      modifies this
      ensures Valid()
      ensures var rest := DropDangling(old(Contents()), catalog);
              if rest == [] then r == None && Contents() == []
              else r == Some(rest[0].trackId) && Contents() == rest[1..]
    {
      while true
        invariant Sparse()
        invariant DropDangling(Contents(), catalog) == DropDangling(old(Contents()), catalog)
        decreases |table|
      {
        TableSize(order, table);
        if table == map[] { return None; }
        var trackId := PopHead();
        if trackId in catalog {
          Renumber();
          return Some(trackId);
        }
      }
    }

    method ListQueue(catalog: set<TrackId>) returns (out: seq<Entry>)
      requires Valid()
      ensures IsSnapshot(out, Contents(), catalog)
    {
      var ids := SelectByPosition(table, order);
      out := [];
      for i := 0 to |ids|
        invariant |out| == i
        invariant forall k :: 0 <= k < i ==>
                    out[k] == Entry(Contents()[k].trackId, k, Contents()[k].addedAt, Contents()[k].trackId in catalog)
      {
        var row := table[ids[i]];
        out := out + [Entry(row.trackId, i, row.addedAt, row.trackId in catalog)];
      }
    }

    /** `DELETE ... WHERE track_id = ?`, and how many rows that took. */
    method DeleteTrack(trackId: TrackId) returns (rowcount: nat)
      requires Valid()
      modifies this
      ensures Sparse() && Contents() == Without(old(Contents()), trackId)
      ensures rowcount == 0 <==> !Has(old(Contents()), trackId)
      ensures rowcount == 0 ==> Valid()
    {
      var left := DeleteWhere(table, trackId);
      DeletedOrdered(order, table, trackId);
      WithoutShrinks(Contents(), trackId);
      TableSize(order, table);
      TableSize(Kept(order, table, trackId), left);
      rowcount := |table| - |left|;
      if !Has(Contents(), trackId) { NothingDeleted(order, table, trackId); }
      hide Ordered;
      table := left;
      order := if Has(old(Contents()), trackId) then Kept(order, old(table), trackId) else order;
    }

    method Remove(trackId: TrackId, catalog: set<TrackId>) returns (r: Result<seq<Entry>, QueueError>)
      requires Valid()
      modifies this
      ensures Valid() && Contents() == Without(old(Contents()), trackId)
      ensures if Has(old(Contents()), trackId) then r.Ok? && IsSnapshot(r.value, Contents(), catalog)
              else r == Err(KeyError(trackId)) && Contents() == old(Contents())
    {
      WithoutShrinks(Contents(), trackId);
      var rowcount := DeleteTrack(trackId);
      if rowcount == 0 { return Err(KeyError(trackId)); }
      Renumber();
      var out := ListQueue(catalog);
      return Ok(out);
    }

    /** Wipes the table and inserts the given order afresh, stamps looked up by track id. */
    method Rewrite(ids: seq<TrackId>, stamps: map<TrackId, int>, now: int)
      modifies this
      requires Valid()
      ensures Valid() && IsStamped(Contents(), ids, stamps, now)
    {
      table, order := map[], [];
      for position := 0 to |ids|
        invariant Valid() && |order| == position
        invariant forall k :: 0 <= k < position ==>
                    Contents()[k] == Item(ids[k], if ids[k] in stamps then stamps[ids[k]] else now)
      {
        hide Ordered;
        var trackId := ids[position];
        Insert(trackId, position, if trackId in stamps then stamps[trackId] else now);
      }
    }

    /** Moves the first entry of the track to the given position, or to the end nearest to it. Every
        entry is then stamped like the last one of its track. */
    method Reorder(trackId: TrackId, newPosition: int, now: int, catalog: set<TrackId>)
      returns (r: Result<seq<Entry>, QueueError>)
      requires Valid()
      modifies this
      ensures Valid()
      ensures var items := old(Contents());
              var n := |items|;
              var i := FirstIndex(items, trackId);
              if i == n then r == Err(KeyError(trackId)) && Contents() == items
              else
                var j := if newPosition < 0 then 0 else if newPosition < n then newPosition else n - 1;
                && r.Ok? && IsSnapshot(r.value, Contents(), catalog)
                && Contents() == if i == j then items else Relocated(items, i, j)
    {
      hide Ordered, Items, Dense, IsSnapshot, Moved, Relocated, IsStamped;
      ghost var items := Contents();
      var entries := ListQueue(catalog);
      var ids := TrackIds(entries);
      SnapshotTracks(entries, items, catalog);
      var cur := IndexOf(ids, trackId);
      assert cur == FirstIndex(items, trackId);
      if cur == |ids| { return Err(KeyError(trackId)); }
      var clamped := ClampIndex(newPosition, |ids|);
      if cur == clamped { return Ok(entries); }
      var stamps := StampsByTrack(entries, items, catalog);
      Rewrite(Moved(ids, cur, clamped), stamps, now);
      RewriteRelocates(items, ids, stamps, Contents(), cur, clamped, now);
      entries := ListQueue(catalog);
      return Ok(entries);
    }

    method Clear()
      modifies this
      ensures Valid() && Contents() == []
    {
      table, order := map[], [];
      assert Contents() == [];
    }

    method Count() returns (n: nat)
      requires Valid()
      ensures n == |Contents()|
    {
      TableSize(order, table);
      return |table|;
    }
  }
}
