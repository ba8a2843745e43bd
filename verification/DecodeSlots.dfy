/** The slot table of `SymphoniaDecodeService` as the control thread sees it
    (`engine/src/audio/decode.rs`): claiming and releasing the 16 slots, handles, stem bundles,
    and the audio thread's `read`. `DecodeRing` puts the threads beside each other. */
module DecodeSlots {
  import opened Wrappers

  const MAX_DECODE_SLOTS: nat := 16
  const RING_SAMPLES: nat := 48000
  const ID_SPAN: nat := 0x1000_0000  // 28 bits of id below 4 bits of slot

  // ---------------------------------------------------------------- handles

  type Handle = h: int | 0 <= h < 0x1_0000_0000

  const NONE: Handle := 0xFFFF_FFFF

  /** `(slot << 28) | (id & 0x0FFF_FFFF)`. */
  function EncodeHandle(slot: nat, id: nat): Handle
    requires slot < MAX_DECODE_SLOTS
  {
    slot * ID_SPAN + id % ID_SPAN
  }

  function HandleSlot(h: Handle): nat { h / ID_SPAN }

  function HandleId(h: Handle): nat { h % ID_SPAN }

  /** A handle gives back its slot and the low 28 bits of its id, and reads as "no track" for
      one pair only. */
  lemma HandleRoundTrip(slot: nat, id: nat)
    requires slot < MAX_DECODE_SLOTS
    ensures EncodeHandle(slot, id) == 0x1000_0000 * slot + id % 0x1000_0000
    ensures HandleSlot(EncodeHandle(slot, id)) == slot && HandleId(EncodeHandle(slot, id)) == id % 0x1000_0000
    ensures EncodeHandle(slot, id) == 0xFFFF_FFFF <==> slot == 15 && id % 0x1000_0000 == 0xFFF_FFFF
    ensures NONE == 0xFFFF_FFFF
  {
  }

  // ---------------------------------------------------------------- slots

  datatype Slot = Slot(occupied: bool, queue: seq<real>, shutdown: bool, joinHeld: bool)

  type Table = seq<Slot>

  datatype DecodeError = NoFreeSlot | SourceError | SpawnError

  /** What the environment makes of an `open` that found a slot. */
  datatype OpenOutcome = Opens | SourceFails | SpawnFails

  function FirstFree(slots: Table): (i: nat)
    ensures i <= |slots| && (i < |slots| ==> !slots[i].occupied)
    ensures forall j :: 0 <= j < i ==> slots[j].occupied
  {
    if slots == [] || !slots[0].occupied then 0 else 1 + FirstFree(slots[1..])
  }

  function Occupied(slots: Table): set<nat> {
    set i | 0 <= i < |slots| && slots[i].occupied
  }

  ghost predicate TableOk(slots: Table) {
    && |slots| == MAX_DECODE_SLOTS
    && forall i :: 0 <= i < |slots| ==>
         && (slots[i].joinHeld <==> slots[i].occupied)
         && (!slots[i].occupied ==> slots[i].queue == [])
         && |slots[i].queue| <= RING_SAMPLES
  }

  /** Equal slots, but for a shutdown flag that the next `open` of a free slot resets anyway. */
  ghost predicate SameSlot(a: Slot, b: Slot) {
    && a.occupied == b.occupied && a.queue == b.queue && a.joinHeld == b.joinHeld
    && (a.occupied ==> a.shutdown == b.shutdown)
  }

  ghost predicate SameTable(a: Table, b: Table) {
    |a| == |b| && forall i :: 0 <= i < |a| ==> SameSlot(a[i], b[i])
  }

  /** The occupied slots are those of the live handles, one handle each. */
  ghost predicate Owned(live: set<Handle>, occupied: set<nat>) {
    && (forall h :: h in live ==> HandleSlot(h) in occupied)
    && (forall i :: i in occupied ==> exists h :: h in live && HandleSlot(h) == i)
    && (forall g, h :: g in live && h in live && HandleSlot(g) == HandleSlot(h) ==> g == h)
  }

  lemma OwnedClaim(live: set<Handle>, occupied: set<nat>, h: Handle)
    requires Owned(live, occupied) && HandleSlot(h) !in occupied
    ensures h !in live && Owned(live + {h}, occupied + {HandleSlot(h)})
  {
  }

  /** The handles that a close of slot `i` leaves live. */
  ghost function Survivors(live: set<Handle>, i: nat): set<Handle> {
    set g | g in live && HandleSlot(g) != i
  }

  lemma OwnedRelease(live: set<Handle>, occupied: set<nat>, i: nat)
    requires Owned(live, occupied)
    ensures Owned(Survivors(live, i), occupied - {i})
    ensures forall h :: h in live && HandleSlot(h) == i ==> Survivors(live, i) == live - {h}
  {
  }

  // ---------------------------------------------------------------- stem bundles

  const STEMS: nat := 4

  ghost function Elements(handles: seq<Handle>): set<Handle> { set h | h in handles }

  ghost function SlotsOf(handles: seq<Handle>): set<nat> { set h | h in handles :: HandleSlot(h) }

  /** The slots that closing all of `handles` releases: a handle that reads as "none" is passed over. */
  ghost function ClosedSlots(handles: seq<Handle>): set<nat> {
    set h | h in handles && h != NONE :: HandleSlot(h)
  }

  /** Handle number `k` is the next id on the least slot that is free in `table` and not one of
      the earlier handles' slots. */
  ghost predicate IsNextFree(handles: seq<Handle>, table: Table, id: nat, k: nat)
    requires k < |handles| && |table| == MAX_DECODE_SLOTS
  {
    var i, earlier := HandleSlot(handles[k]), SlotsOf(handles[..k]);
    && handles[k] == EncodeHandle(i, id + k)
    && !table[i].occupied && i !in earlier
    && forall j :: 0 <= j < i ==> table[j].occupied || j in earlier
  }

  ghost predicate OpenedInOrder(handles: seq<Handle>, table: Table, id: nat)
    requires |table| == MAX_DECODE_SLOTS
  {
    forall k :: 0 <= k < |handles| ==> IsNextFree(handles, table, id, k)
  }

  /** `slots` is `table` with the free slots `taken` newly opened. */
  ghost predicate TakenFrom(slots: Table, table: Table, taken: set<nat>) {
    && |slots| == |table|
    && (forall i :: i in taken ==> 0 <= i < |table| && !table[i].occupied && slots[i] == Slot(true, [], false, true))
    && (forall i :: 0 <= i < |table| && i !in taken ==> SameSlot(slots[i], table[i]))
  }

  /** `slots` is `table` with `released` closed. */
  ghost predicate ReleasedFrom(slots: Table, table: Table, released: set<nat>) {
    && |slots| == |table|
    && (forall i :: 0 <= i < |table| ==>
          slots[i] == if i in released then Slot(false, [], true, false) else table[i])
  }

  lemma SlotsOfSnoc(handles: seq<Handle>, h: Handle)
    ensures SlotsOf(handles + [h]) == SlotsOf(handles) + {HandleSlot(h)}
    ensures Elements(handles + [h]) == Elements(handles) + {h}
  {
  }

  lemma ClosedSlotsSnoc(handles: seq<Handle>, h: Handle)
    ensures ClosedSlots(handles + [h]) == ClosedSlots(handles) + if h == NONE then {} else {HandleSlot(h)}
  {
  }

  /** The live handles are those of `before` and `handles`, all of them new. */
  ghost predicate LiveGrew(live: set<Handle>, before: set<Handle>, handles: seq<Handle>) {
    live == before + Elements(handles) && Elements(handles) !! before
  }

  lemma LiveGrewSnoc(live: set<Handle>, before: set<Handle>, handles: seq<Handle>, h: Handle)
    requires h in live && LiveGrew(live - {h}, before, handles)
    ensures LiveGrew(live, before, handles + [h])
  {
  }

  /** A call that began on `table` with `before` live has opened `handles`, each on a slot of its own. */
  ghost predicate StemsOpened(
    slots: Table, live: set<Handle>, table: Table, before: set<Handle>, id: nat, handles: seq<Handle>)
  {
    && TableOk(table) && OpenedInOrder(handles, table, id) && LiveGrew(live, before, handles)
    && TakenFrom(slots, table, SlotsOf(handles)) && |SlotsOf(handles)| == |handles|
  }

  lemma NoHandlesYet(table: Table, id: nat, live: set<Handle>)
    requires TableOk(table)
    ensures StemsOpened(table, live, table, live, id, [])
  {
  }

  lemma NextIsLeastFree(now: Table, table: Table, id: nat, handles: seq<Handle>, h: Handle)
    requires TableOk(now) && |table| == MAX_DECODE_SLOTS && TakenFrom(now, table, SlotsOf(handles))
    requires FirstFree(now) < MAX_DECODE_SLOTS && h == EncodeHandle(FirstFree(now), id + |handles|)
    ensures HandleSlot(h) == FirstFree(now) && IsNextFree(handles + [h], table, id, |handles|)
  {
  }

  lemma OneMoreOpened(slots: Table, now: Table, table: Table, id: nat, handles: seq<Handle>, h: Handle)
    requires TableOk(now) && |table| == MAX_DECODE_SLOTS
    requires OpenedInOrder(handles, table, id) && TakenFrom(now, table, SlotsOf(handles))
    requires FirstFree(now) < MAX_DECODE_SLOTS && h == EncodeHandle(FirstFree(now), id + |handles|)
    requires slots == now[FirstFree(now) := Slot(true, [], false, true)]
    ensures OpenedInOrder(handles + [h], table, id) && TakenFrom(slots, table, SlotsOf(handles + [h]))
    ensures |SlotsOf(handles + [h])| == |SlotsOf(handles)| + 1
  {
    NextIsLeastFree(now, table, id, handles, h);
    SlotsOfSnoc(handles, h);
    assert (handles + [h])[..|handles|] == handles;
    forall k | 0 <= k < |handles|
      ensures IsNextFree(handles + [h], table, id, k)
    {
      assert IsNextFree(handles, table, id, k);
      assert (handles + [h])[..k] == handles[..k];
    }
    hide IsNextFree, FirstFree, SlotsOf;
  }

  /** One of the handles, numbered from `id`, is on the last slot with an all-ones id. */
  ghost predicate GotNone(handles: seq<Handle>, id: nat) {
    exists k :: 0 <= k < |handles|
             && HandleSlot(handles[k]) == MAX_DECODE_SLOTS - 1 && (id + k) % ID_SPAN == ID_SPAN - 1
  }

  /** That handle, and no other, reads as "none". */
  lemma NoneOpened(table: Table, id: nat, handles: seq<Handle>)
    requires |table| == MAX_DECODE_SLOTS && OpenedInOrder(handles, table, id)
    ensures NONE in handles <==> GotNone(handles, id)
  {
    forall k | 0 <= k < |handles|
      ensures handles[k] == NONE <==>
                HandleSlot(handles[k]) == MAX_DECODE_SLOTS - 1 && (id + k) % ID_SPAN == ID_SPAN - 1
    {
      assert IsNextFree(handles, table, id, k);
      HandleRoundTrip(HandleSlot(handles[k]), id + k);
    }
  }

  /** Two handles of one call never share a slot. */
  lemma OpenedDistinct(table: Table, id: nat, handles: seq<Handle>, g: Handle, h: Handle)
    requires |table| == MAX_DECODE_SLOTS && OpenedInOrder(handles, table, id)
    requires g in handles && h in handles && HandleSlot(g) == HandleSlot(h)
    ensures g == h
  {
    var i :| 0 <= i < |handles| && handles[i] == g;
    var j :| 0 <= j < |handles| && handles[j] == h;
    assert IsNextFree(handles, table, id, i) && IsNextFree(handles, table, id, j);
  }

  /** The table after a rollback is the table before the call exactly when no handle read as "none". */
  lemma AfterRollback(slots: Table, failed: Table, now: Table, table: Table, id: nat, handles: seq<Handle>)
    requires TableOk(table) && OpenedInOrder(handles, table, id) && TakenFrom(now, table, SlotsOf(handles))
    requires SameTable(failed, now) && ReleasedFrom(slots, failed, ClosedSlots(handles))
    ensures SameTable(slots, table) <==> NONE !in handles
  {
    if NONE in handles {
      var last := HandleSlot(NONE);
      if last in ClosedSlots(handles) {
        var h :| h in handles && h != NONE && HandleSlot(h) == last;
        OpenedDistinct(table, id, handles, h, NONE);
      }
      assert last in SlotsOf(handles) && SameSlot(failed[last], now[last]);
      assert !SameSlot(slots[last], table[last]);
    } else {
      assert ClosedSlots(handles) == SlotsOf(handles);
      forall i | 0 <= i < |table|
        ensures SameSlot(slots[i], table[i])
      {
        assert SameSlot(failed[i], now[i]);
      }
    }
  }

  class SymphoniaDecodeService {
    var slots: Table
    var nextId: nat
    var underruns: nat
    /** Handles given out and not closed since. */
    ghost var live: set<Handle>

    ghost predicate Valid()
      reads this
    {
      TableOk(slots) && Owned(live, Occupied(slots))
    }

    constructor ()
      ensures Valid() && live == {} && Occupied(slots) == {} && underruns == 0 && nextId == 1
    {
      slots := seq(MAX_DECODE_SLOTS, _ => Slot(false, [], false, false));
      nextId, underruns, live := 1, 0, {};
    }

    method Open(outcome: OpenOutcome) returns (r: Result<Handle, DecodeError>)
      requires Valid()
      modifies `slots, `nextId, `live
      ensures Valid()
      ensures var i := FirstFree(old(slots));
              match r
              case Err(e) =>
                && SameTable(slots, old(slots)) && nextId == old(nextId) && live == old(live)
                && (e == NoFreeSlot <==> i == MAX_DECODE_SLOTS)
                && (outcome == Opens ==> e == NoFreeSlot)
              case Ok(h) =>
                && outcome == Opens && i < MAX_DECODE_SLOTS && slots == old(slots)[i := Slot(true, [], false, true)]
                && h == EncodeHandle(i, old(nextId)) && nextId == old(nextId) + 1
                && live == old(live) + {h} && h !in old(live)
    {
      hide Owned, EncodeHandle, HandleSlot;
      var i := FindFree();
      if i == |slots| {
        return Err(NoFreeSlot);
      }
      slots := slots[i := slots[i].(occupied := true, shutdown := false)];
      Drain(i);
      if outcome != Opens {
        slots := slots[i := slots[i].(occupied := false)];
        assert Occupied(slots) == Occupied(old(slots));
        return Err(if outcome == SourceFails then SourceError else SpawnError);
      }
      slots := slots[i := slots[i].(joinHeld := true)];
      var h := EncodeHandle(i, nextId);
      HandleRoundTrip(i, nextId);
      OwnedClaim(live, Occupied(old(slots)), h);
      assert Occupied(slots) == Occupied(old(slots)) + {i};
      nextId := nextId + 1;
      live := live + {h};
      r := Ok(h);
    }

    method FindFree() returns (i: nat)
      ensures i == FirstFree(slots)
    {
      i := 0;
      assert slots[0..] == slots;
      while i < |slots| && slots[i].occupied
        invariant i <= |slots| && FirstFree(slots) == i + FirstFree(slots[i..])
      {
        assert slots[i..][1..] == slots[i + 1..];
        i := i + 1;
      }
    }

    /** Pop a slot's ring until it is empty. */
    method Drain(i: nat)
      requires i < |slots|
      modifies `slots
      ensures slots == old(slots)[i := old(slots[i]).(queue := [])]
    {
      while slots[i].queue != []
        invariant |slots| == |old(slots)|
        invariant slots == old(slots)[i := old(slots[i]).(queue := slots[i].queue)]
        decreases |slots[i].queue|
      {
        slots := slots[i := slots[i].(queue := slots[i].queue[1..])];
      }
    }

    /** Signal, drain, join, drain again, release. Only the slot bits of the handle matter. */
    method Close(h: Handle)
      requires Valid()
      modifies `slots, `live
      ensures Valid()
      ensures var i := HandleSlot(h);
              if h == NONE || !old(slots)[i].occupied then slots == old(slots) && live == old(live)
              else slots == old(slots)[i := Slot(false, [], true, false)]
                   && live == Survivors(old(live), i)
      ensures h != NONE && h in old(live) ==> live == old(live) - {h}
    {
      if h == NONE {
        return;
      }
      var i := HandleSlot(h);
      if !slots[i].occupied {
        return;
      }
      slots := slots[i := slots[i].(shutdown := true)];
      var spins := 0;
      while spins < RING_SAMPLES / 8 && slots[i].queue != []
        invariant |slots| == |old(slots)| && live == old(live)
        invariant slots == old(slots)[i := old(slots[i]).(shutdown := true, queue := slots[i].queue)]
      {
        slots := slots[i := slots[i].(queue := slots[i].queue[1..])];
        spins := spins + 1;
      }
      slots := slots[i := slots[i].(joinHeld := false)];
      Drain(i);
      slots := slots[i := slots[i].(occupied := false)];
      OwnedRelease(live, Occupied(old(slots)), i);
      assert Occupied(slots) == Occupied(old(slots)) - {i};
      live := Survivors(live, i);
    }

    /** Fill `buf` from the handle's ring, zero the rest, and count one underrun if there was a rest. */
    method Read(h: Handle, buf: array<real>) returns (written: nat)
      requires Valid()
      modifies `slots, `underruns, buf
      ensures Valid() && live == old(live)
      ensures var i := HandleSlot(h);
              if h == NONE || buf.Length == 0 || !old(slots)[i].occupied
              then written == 0 && slots == old(slots) && underruns == old(underruns) && buf[..] == old(buf[..])
              else
                var queue := old(slots)[i].queue;
                var k := if |queue| < buf.Length then |queue| else buf.Length;
                && written == buf.Length
                && slots == old(slots)[i := old(slots)[i].(queue := queue[k..])]
                && buf[..] == queue[..k] + seq(buf.Length - k, _ => 0.0)
                && underruns == old(underruns) + if k < buf.Length then 1 else 0
    {
      if h == NONE || buf.Length == 0 {
        return 0;
      }
      var i := HandleSlot(h);
      if !slots[i].occupied {
        return 0;
      }
      ghost var queue := slots[i].queue;
      var k := 0;
      while k < buf.Length && slots[i].queue != []
        invariant k <= buf.Length && k <= |queue| && |slots| == |old(slots)| && underruns == old(underruns)
        invariant slots == old(slots)[i := old(slots)[i].(queue := queue[k..])]
        invariant buf[..k] == queue[..k]
      {
        buf[k] := slots[i].queue[0];
        slots := slots[i := slots[i].(queue := slots[i].queue[1..])];
        k := k + 1;
      }
      assert Occupied(slots) == Occupied(old(slots));
      assert k < buf.Length ==> k == |queue|;
      if k < buf.Length {
        forall j | k <= j < buf.Length {
          buf[j] := 0.0;
        }
        underruns := underruns + 1;
      }
      assert buf[..] == buf[..k] + buf[k..] && buf[k..] == seq(buf.Length - k, _ => 0.0);
      written := buf.Length;
    }

    /** Open four stems, or close the ones opened so far and fail. `got` lists the handles this
        call opened. A failed call restores the table unless one of them reads as "none". */
    method OpenStems(outcomes: seq<OpenOutcome>) returns (r: Result<seq<Handle>, DecodeError>, ghost got: seq<Handle>)
      requires Valid() && |outcomes| == STEMS
      modifies `slots, `nextId, `live
      ensures Valid() && |got| <= STEMS && nextId == old(nextId) + |got|
      ensures |old(slots)| == MAX_DECODE_SLOTS && OpenedInOrder(got, old(slots), old(nextId))
      ensures r.Ok? ==>
                && r.value == got && |got| == STEMS
                && StemsOpened(slots, live, old(slots), old(live), old(nextId), got)
      ensures r.Err? ==>
                && |got| < STEMS
                && live == old(live) + (if NONE in got then {NONE} else {})
                && (SameTable(slots, old(slots)) <==> !GotNone(got, old(nextId)))
    {
      ghost var table, id, before := slots, nextId, live;
      NoHandlesYet(table, id, before);
      var handles: seq<Handle> := [];
      for i := 0 to STEMS
        invariant Valid() && |handles| == i && nextId == id + i
        invariant StemsOpened(slots, live, table, before, id, handles)
      {
        ghost var now := slots;
        var h := OpenStem(outcomes[i], handles, table, id, before);
        if h.Err? {
          RollBack(handles, now, table, id, before);
          return Err(h.error), handles;
        }
        handles := handles + [h.value];
      }
      r, got := Ok(handles), handles;
    }

    /** One more stem beside `handles`. */
    method OpenStem(
      outcome: OpenOutcome, ghost handles: seq<Handle>, ghost table: Table, ghost id: nat, ghost before: set<Handle>)
      returns (r: Result<Handle, DecodeError>)
      requires Valid() && nextId == id + |handles| && StemsOpened(slots, live, table, before, id, handles)
      modifies `slots, `nextId, `live
      ensures Valid()
      ensures r.Err? ==> SameTable(slots, old(slots)) && live == old(live) && nextId == old(nextId)
      ensures r.Ok? ==>
                StemsOpened(slots, live, table, before, id, handles + [r.value]) && nextId == old(nextId) + 1
    {
      hide OpenedInOrder, TakenFrom, SameTable, SlotsOf, LiveGrew;
      r := Open(outcome);
      if r.Ok? {
        OneMoreOpened(slots, old(slots), table, id, handles, r.value);
        LiveGrewSnoc(live, before, handles, r.value);
      }
    }

    /** Close the stems opened before the failing one. `table` is the table before the call,
        `now` before the failing open. */
    method RollBack(
      handles: seq<Handle>, ghost now: Table, ghost table: Table, ghost id: nat, ghost before: set<Handle>)
      requires Valid() && SameTable(slots, now) && StemsOpened(now, live, table, before, id, handles)
      modifies `slots, `live
      ensures Valid()
      ensures live == before + if NONE in handles then {NONE} else {}
      ensures SameTable(slots, table) <==> !GotNone(handles, id)
    {
      assert |table| == MAX_DECODE_SLOTS;
      hide OpenedInOrder, TakenFrom, SameTable, SlotsOf, ReleasedFrom, ClosedSlots, TableOk, Owned;
      CloseAll(handles);
      AfterRollback(slots, old(slots), now, table, id, handles);
      NoneOpened(table, id, handles);
    }

    /** `close_stems`, and the rollback of `open_stems`: handles that read as "none" are passed over. */
    method CloseAll(handles: seq<Handle>)
      requires Valid() && Elements(handles) <= live
      modifies `slots, `live
      ensures Valid() && live == old(live) - (Elements(handles) - {NONE})
      ensures ReleasedFrom(slots, old(slots), ClosedSlots(handles))
    {
      for i := 0 to |handles|
        invariant Valid() && live == old(live) - (Elements(handles[..i]) - {NONE})
        invariant ReleasedFrom(slots, old(slots), ClosedSlots(handles[..i]))
      {
        assert handles[..i + 1] == handles[..i] + [handles[i]];
        ClosedSlotsSnoc(handles[..i], handles[i]);
        if handles[i] != NONE {
          Close(handles[i]);
        }
      }
      assert handles[..|handles|] == handles;
    }
  }
}
