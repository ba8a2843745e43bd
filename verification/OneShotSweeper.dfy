/** Beat-effect one-shots over whole runs: the reducer's `EffectOneShot` and the sweeper that
    disengages expired ones (`engine/src/oneshot_sweeper.rs`). */
module OneShotSweeper {
  import opened Wrappers
  import opened EngineState
  import opened EngineRuns
  import opened LoopSnap

  function SlotOf(s: State, id: DeckId, k: nat): EffectSlot
    requires k < 3
  {
    s.DeckOf(id).effects[k]
  }

  // ---------------------------------------------------------------- a one-shot in flight

  /** The events that may touch what a one-shot on slot `k` of deck `id` depends on. */
  predicate Disturbs(kind: EventKind, id: DeckId, k: nat) {
    match kind
    case EffectEnable(d, slot, _) => d == id && slot == k
    case EffectAssign(d, slot, _) => d == id && slot == k
    case EffectClear(d, slot) => d == id && slot == k
    case EffectOneShot(d, slot, _) => d == id && slot == k
    case EffectSwapSlots(d, a, b) =>
      d == id && LastSlot(a) != LastSlot(b) && (LastSlot(a) == k || LastSlot(b) == k)
    case DeckUnload(d) => d == id
    case _ => false
  }

  predicate Undisturbed(log: seq<Event>, id: DeckId, k: nat) {
    forall i :: 0 <= i < |log| ==> !Disturbs(log[i].kind, id, k)
  }

  /** What a one-shot depends on in its slot. */
  function Timer(e: EffectSlot): (U32, bool, Option<OneShotState>) { (e.effectId, e.enabled, e.oneShot) }

  lemma OtherEventsKeepSlots(s: State, ev: Event, id: DeckId)
    requires !EditsSlot(ev.kind) && ev.kind != DeckUnload(id)
    ensures Apply(s, ev).DeckOf(id).effects == s.DeckOf(id).effects
  {
  }

  lemma SlotEventsAreLocal(s: State, ev: Event, id: DeckId, k: nat)
    requires k < 3 && EditsSlot(ev.kind) && !Disturbs(ev.kind, id, k)
    ensures Timer(SlotOf(Apply(s, ev), id, k)) == Timer(SlotOf(s, id, k))
  {
  }

  lemma {:induction false} UndisturbedStep(s: State, ev: Event, id: DeckId, k: nat)
    requires k < 3 && !Disturbs(ev.kind, id, k)
    ensures Timer(SlotOf(Apply(s, ev), id, k)) == Timer(SlotOf(s, id, k))
  {
    hide Apply, Timer;
    if EditsSlot(ev.kind) { SlotEventsAreLocal(s, ev, id, k); } else { OtherEventsKeepSlots(s, ev, id); }
  }

  /** No other event, retunes by `DeckLoad` included, moves the end time, the frozen beat
      period, the remembered flag or the engagement. */
  lemma {:induction false} UndisturbedRun(s: State, log: seq<Event>, id: DeckId, k: nat)
    requires k < 3 && Undisturbed(log, id, k)
    ensures Timer(SlotOf(Replay(s, log), id, k)) == Timer(SlotOf(s, id, k))
  {
    hide Apply, Timer, Disturbs;
    if log != [] {
      UndisturbedRun(s, log[..|log| - 1], id, k);
      UndisturbedStep(Replay(s, log[..|log| - 1]), log[|log| - 1], id, k);
    }
  }

  /** A slot in flight whose timer any disturbing event changes. */
  const IN_FLIGHT := EffectSlot(1, map[], 0.0, false, None, Some(OneShotState(0, false, 1.0)))

  lemma InFlightMoves(kind: EventKind, id: DeckId, k: nat) returns (s: State)
    requires k < 3 && Disturbs(kind, id, k)
    ensures Timer(SlotOf(Apply(s, Event(0, kind)), id, k)) != Timer(SlotOf(s, id, k))
  {
    s := DEFAULT_STATE.With(id, DEFAULT_DECK.(effects := DEFAULT_DECK.effects[k := IN_FLIGHT]));
    hide OneShotEnd;
  }

  /** Those are exactly the events that change some slot's timer. */
  lemma DisturbsIffMoves(kind: EventKind, id: DeckId, k: nat)
    requires k < 3
    ensures Disturbs(kind, id, k) <==>
              exists s: State, ts: I64 :: Timer(SlotOf(Apply(s, Event(ts, kind)), id, k)) != Timer(SlotOf(s, id, k))
  {
    if Disturbs(kind, id, k) {
      var s := InFlightMoves(kind, id, k);
    } else {
      forall s: State, ts: I64 ensures Timer(SlotOf(Apply(s, Event(ts, kind)), id, k)) == Timer(SlotOf(s, id, k)) {
        UndisturbedStep(s, Event(ts, kind), id, k);
      }
    }
    hide Apply, Timer, Disturbs;
  }

  // ---------------------------------------------------------------- one sweep

  predicate Expired(s: State, now: int, id: DeckId, k: nat)
    requires k < 3
  {
    SlotOf(s, id, k).oneShot.Some? && now >= SlotOf(s, id, k).oneShot.value.endsAtMicros
  }

  function DeckAt(n: nat): DeckId { if n < 3 then A else B }

  function Place(id: DeckId, k: nat): nat { if id == A then k else 3 + k }

  function Disengage(s: State, id: DeckId, k: nat): EventKind
    requires k < 3 && SlotOf(s, id, k).oneShot.Some?
  {
    EffectEnable(id, k, SlotOf(s, id, k).oneShot.value.wasEnabled)
  }

  /** The events a sweep of snapshot `s` gets through to the control loop from the first `n`
      of the six slots, deck A first. `accepts` is what the channel answers for each slot. */
  function Sent(s: State, now: int, accepts: (DeckId, nat) -> bool, n: nat): seq<EventKind>
    requires n <= 6
  {
    if n == 0 then []
    else
      var id, k := DeckAt(n - 1), (n - 1) % 3;
      Sent(s, now, accepts, n - 1)
      + (if Expired(s, now, id, k) && accepts(id, k) then [Disengage(s, id, k)] else [])
  }

  /** `sweep_snapshot`: scan both decks' slots, forward a disengage for every expired one-shot,
      count the forwards that were accepted. */
  method SweepSnapshot(snap: State, now: I64, accepts: (DeckId, nat) -> bool)
    returns (sent: seq<EventKind>, emitted: nat)
    ensures sent == Sent(snap, now, accepts, 6)
    ensures emitted == |sent|
  {
    sent, emitted := [], 0;
    for i := 0 to 2
      invariant sent == Sent(snap, now, accepts, 3 * i) && emitted == |sent|
    {
      var id := if i == 0 then A else B;
      for k := 0 to 3
        invariant sent == Sent(snap, now, accepts, 3 * i + k) && emitted == |sent|
      {
        assert DeckAt(3 * i + k) == id && (3 * i + k) % 3 == k;
        var oneShot := snap.DeckOf(id).effects[k].oneShot;
        if oneShot.Some? && now >= oneShot.value.endsAtMicros {
          if accepts(id, k) {
            sent := sent + [EffectEnable(id, k, oneShot.value.wasEnabled)];
            emitted := emitted + 1;
          }
        }
      }
    }
  }

  // ---------------------------------------------------------------- folding a sweep back

  /** The control loop applies the swept events in order; the reducer never reads their stamps. */
  function Fold(s: State, kinds: seq<EventKind>, stamp: nat -> I64): State {
    if kinds == [] then s
    else Apply(Fold(s, kinds[..|kinds| - 1], stamp), Event(stamp(|kinds| - 1), kinds[|kinds| - 1]))
  }

  /** The slot after its one-shot has been swept. */
  function Disengaged(e: EffectSlot): EffectSlot
    requires e.oneShot.Some?
  {
    e.(enabled := e.oneShot.value.wasEnabled, oneShot := None)
  }

  /** The slot after the first `n` places of the sweep have been folded in. */
  function SweptSlot(s: State, now: int, accepts: (DeckId, nat) -> bool, n: nat, id: DeckId, k: nat): EffectSlot
    requires k < 3
  {
    var e := SlotOf(s, id, k);
    if Place(id, k) < n && Expired(s, now, id, k) && accepts(id, k) then Disengaged(e) else e
  }

  /** The state after the first `n` places: only those slots, in only those fields, differ. */
  function SweptState(s: State, now: int, accepts: (DeckId, nat) -> bool, n: nat): State {
    State(s.deckA.(effects := seq(3, k requires 0 <= k < 3 => SweptSlot(s, now, accepts, n, A, k))),
          s.deckB.(effects := seq(3, k requires 0 <= k < 3 => SweptSlot(s, now, accepts, n, B, k))),
          s.master)
  }

  lemma EnableOnly(s: State, ts: I64, id: DeckId, k: nat, enabled: bool)
    requires k < 3
    ensures var after := Apply(s, Event(ts, EffectEnable(id, k, enabled)));
            after == s.With(id, PutSlot(s.DeckOf(id), k, SlotOf(s, id, k).(enabled := enabled, oneShot := None)))
  {
  }

  lemma SweptNext(s: State, now: int, accepts: (DeckId, nat) -> bool, n: nat)
    requires n < 6
    ensures var id, k := DeckAt(n), n % 3;
            var t := SweptState(s, now, accepts, n);
            SlotOf(t, id, k) == SlotOf(s, id, k)
            && SweptState(s, now, accepts, n + 1)
               == if Expired(s, now, id, k) && accepts(id, k)
                  then t.With(id, PutSlot(t.DeckOf(id), k, Disengaged(SlotOf(s, id, k)))) else t
  {
  }

  /** A sweep folded back through the reducer restores exactly the expired slots whose event
      got through, to the flag each had before its one-shot, and touches nothing else. */
  lemma {:induction false} FoldIsSwept(s: State, now: int, accepts: (DeckId, nat) -> bool, n: nat, stamp: nat -> I64)
    requires n <= 6
    ensures Fold(s, Sent(s, now, accepts, n), stamp) == SweptState(s, now, accepts, n)
  {
    hide Apply, SweptState;
    if n == 0 {
      NothingSwept(s, now, accepts);
    } else {
      FoldIsSwept(s, now, accepts, n - 1, stamp);
      SweptNext(s, now, accepts, n - 1);
      var id, k := DeckAt(n - 1), (n - 1) % 3;
      if Expired(s, now, id, k) && accepts(id, k) {
        var before, all := Sent(s, now, accepts, n - 1), Sent(s, now, accepts, n);
        assert all[..|all| - 1] == before && all[|before|] == Disengage(s, id, k);
        assert Fold(s, all, stamp) == Apply(Fold(s, before, stamp), Event(stamp(|before|), Disengage(s, id, k)));
        var t := SweptState(s, now, accepts, n - 1);
        EnableOnly(t, stamp(|before|), id, k, SlotOf(s, id, k).oneShot.value.wasEnabled);
        assert SlotOf(t, id, k) == SlotOf(s, id, k);
        assert Fold(s, all, stamp) == t.With(id, PutSlot(t.DeckOf(id), k, Disengaged(SlotOf(s, id, k))));
      } else {
        assert Sent(s, now, accepts, n) == Sent(s, now, accepts, n - 1);
      }
    }
  }

  lemma NothingSwept(s: State, now: int, accepts: (DeckId, nat) -> bool)
    ensures SweptState(s, now, accepts, 0) == s
  {
  }

  function AfterSweep(s: State, now: int, accepts: (DeckId, nat) -> bool, stamp: nat -> I64): State {
    Fold(s, Sent(s, now, accepts, 6), stamp)
  }

  lemma SweepEffect(s: State, now: int, accepts: (DeckId, nat) -> bool, stamp: nat -> I64, id: DeckId, k: nat)
    requires k < 3
    ensures SlotOf(AfterSweep(s, now, accepts, stamp), id, k)
         == if Expired(s, now, id, k) && accepts(id, k) then Disengaged(SlotOf(s, id, k)) else SlotOf(s, id, k)
  {
    hide Fold, Sent, Expired, Disengaged;
    FoldIsSwept(s, now, accepts, 6, stamp);
  }

  /** After a sweep exactly the one-shots whose event was refused are still due. */
  lemma RefusedStayDue(s: State, now: int, accepts: (DeckId, nat) -> bool, stamp: nat -> I64, id: DeckId, k: nat)
    requires k < 3
    ensures Expired(AfterSweep(s, now, accepts, stamp), now, id, k) <==> Expired(s, now, id, k) && !accepts(id, k)
  {
    hide AfterSweep;
    SweepEffect(s, now, accepts, stamp, id, k);
  }

  /** The slots a first pass was refused and a second pass gets through. */
  function Retried(first: (DeckId, nat) -> bool, second: (DeckId, nat) -> bool): (DeckId, nat) -> bool {
    (id: DeckId, k: nat) => !first(id, k) && second(id, k)
  }

  function TakesAll(): (DeckId, nat) -> bool { (id: DeckId, k: nat) => true }

  /** The next pass over the new state sends exactly the events the channel refused. */
  lemma {:induction false} RetrySendsRefused(s: State, now: int, first: (DeckId, nat) -> bool,
                                             second: (DeckId, nat) -> bool, stamp: nat -> I64, n: nat)
    requires n <= 6
    ensures Sent(AfterSweep(s, now, first, stamp), now, second, n)
         == Sent(s, now, Retried(first, second), n)
  {
    hide AfterSweep, Expired;
    if n > 0 {
      RetrySendsRefused(s, now, first, second, stamp, n - 1);
      RefusedStayDue(s, now, first, stamp, DeckAt(n - 1), (n - 1) % 3);
      SweepEffect(s, now, first, stamp, DeckAt(n - 1), (n - 1) % 3);
    }
  }

  /** When the channel took everything, a second sweep at the same time emits nothing and
      folding it changes nothing. */
  lemma SecondSweepIsIdle(s: State, now: int, stamp: nat -> I64, accepts: (DeckId, nat) -> bool)
    ensures var after := AfterSweep(s, now, TakesAll(), stamp);
            Sent(after, now, accepts, 6) == [] && AfterSweep(after, now, accepts, stamp) == after
  {
    hide AfterSweep;
    RetrySendsRefused(s, now, TakesAll(), accepts, stamp, 6);
    NobodySends(s, now, Retried(TakesAll(), accepts), 6);
    AfterSweepIsFold(AfterSweep(s, now, TakesAll(), stamp), now, accepts, stamp);
  }

  lemma AfterSweepIsFold(s: State, now: int, accepts: (DeckId, nat) -> bool, stamp: nat -> I64)
    ensures AfterSweep(s, now, accepts, stamp) == Fold(s, Sent(s, now, accepts, 6), stamp)
  {
  }

  lemma {:induction false} NobodySends(s: State, now: int, accepts: (DeckId, nat) -> bool, n: nat)
    requires n <= 6 && forall id: DeckId, k: nat :: !accepts(id, k)
    ensures Sent(s, now, accepts, n) == []
  {
    if n > 0 { NobodySends(s, now, accepts, n - 1); }
  }

  // ---------------------------------------------------------------- the whole life of a one-shot

  /** The state after `EffectOneShot` and then `log`. */
  function Launched(s: State, ts: I64, id: DeckId, k: nat, beats: U8, log: seq<Event>): State
    requires k < 3
  {
    Replay(Apply(s, Event(ts, EffectOneShot(id, k, beats))), log)
  }

  /** Firing engages the slot, remembers the flag it had and the deck's beat period, and sets the end
      the clamped number of beats ahead: short by less than a microsecond a beat of the deck's own
      tempo, or of exactly half a second a beat without a grid, unless that overflows 64 bits. */
  lemma {:induction false} FireSetsTimer(s: State, ts: I64, id: DeckId, k: nat, beats: U8)
    requires k < 3 && SlotOf(s, id, k).effectId != 0
    ensures var period := s.DeckOf(id).grid.periodMs;
            var e := SlotOf(Apply(s, Event(ts, EffectOneShot(id, k, beats))), id, k);
            && e.enabled && e.effectId == SlotOf(s, id, k).effectId && e.oneShot.Some?
            && e.oneShot.value.wasEnabled == SlotOf(s, id, k).enabled
            && e.oneShot.value.beatPeriodMs == (if period > 0.0 then period else 500.0)
            && e.oneShot.value.endsAtMicros == OneShotEnd(ts, period, beats)
    ensures var period := s.DeckOf(id).grid.periodMs;
            var end := SlotOf(Apply(s, Event(ts, EffectOneShot(id, k, beats))), id, k).oneShot.value.endsAtMicros;
            var b := if beats < 1 then 1 else if beats > 64 then 64 else beats;
            if period <= 0.0 then
              end == if ts + 500_000 * b > 0x7FFF_FFFF_FFFF_FFFF then 0x7FFF_FFFF_FFFF_FFFF else ts + 500_000 * b
            else
              var length := b as real * (1000.0 * period);
              && end as real <= ts as real + length
              && (length <= 0x7FFF_FFFF_FFFF_FFFF as real && ts as real + length <= 0x7FFF_FFFF_FFFF_FFFF as real
                  ==> ts as real + length - b as real < end as real)
  {
    hide Apply, OneShotEnd, SlotOf;
    FireStep(s, ts, id, k, beats);
    EndIsBeatsAhead(ts, s.DeckOf(id).grid.periodMs, beats);
  }

  lemma FireStep(s: State, ts: I64, id: DeckId, k: nat, beats: U8)
    requires k < 3 && SlotOf(s, id, k).effectId != 0
    ensures var period := s.DeckOf(id).grid.periodMs;
            var e := SlotOf(Apply(s, Event(ts, EffectOneShot(id, k, beats))), id, k);
            e.enabled && e.effectId == SlotOf(s, id, k).effectId
            && e.oneShot == Some(OneShotState(OneShotEnd(ts, period, beats), SlotOf(s, id, k).enabled,
                                              if period > 0.0 then period else 500.0))
  {
    hide OneShotEnd;
  }

  lemma {:induction false} EndIsBeatsAhead(ts: I64, period: real, beats: U8)
    ensures var end := OneShotEnd(ts, period, beats);
            var b := if beats < 1 then 1 else if beats > 64 then 64 else beats;
            if period <= 0.0 then
              end == if ts + 500_000 * b > 0x7FFF_FFFF_FFFF_FFFF then 0x7FFF_FFFF_FFFF_FFFF else ts + 500_000 * b
            else
              var length := b as real * (1000.0 * period);
              && end as real <= ts as real + length
              && (length <= 0x7FFF_FFFF_FFFF_FFFF as real && ts as real + length <= 0x7FFF_FFFF_FFFF_FFFF as real
                  ==> ts as real + length - b as real < end as real)
  {
    DurationIsBeats(period, beats);
    hide OneShotDuration;
  }

  /** A one-shot lasts its beats at the deck's tempo, short by less than a microsecond a beat,
      unless that overflows 64 bits; a deck with no grid counts half a second a beat. */
  lemma {:induction false} DurationIsBeats(period: real, beats: U8)
    ensures OneShotDuration(period, beats) >= 0
    ensures var b := if beats < 1 then 1 else if beats > 64 then 64 else beats;
            if period <= 0.0 then OneShotDuration(period, beats) == 500_000 * b
            else
              var length := b as real * (1000.0 * period);
              && OneShotDuration(period, beats) as real <= length
              && (length <= I64_MAX as real ==> length - b as real < OneShotDuration(period, beats) as real)
  {
    if period > 0.0 {
      var x, b := period * 1000.0, OneShotBeats(beats);
      var f := x.Floor;
      TimesNat(f, x, b);
      if f > I64_MAX { TimesNat(I64_MAX, I64_MAX as real, b); }
    }
  }

  lemma TimesNat(f: int, x: real, b: nat)
    requires f as real <= x < f as real + 1.0 && b >= 1
    ensures (f * b) as real <= b as real * x < (f * b) as real + b as real
  {
    var low, high := f as real, f as real + 1.0;
    ScaleUp(low, x, b as real);
    ScaleUp(x, high, b as real);
    assert low * b as real == (f * b) as real;
    assert high * b as real == low * b as real + b as real;
  }

  /** An undisturbed one-shot keeps the slot engaged until its end time, and the first sweep
      from then on whose event gets through puts back the flag the slot had when it fired. */
  lemma OneShotLifecycle(s: State, ts: I64, id: DeckId, k: nat, beats: U8, log: seq<Event>,
                         now: int, accepts: (DeckId, nat) -> bool, stamp: nat -> I64)
    requires k < 3 && SlotOf(s, id, k).effectId != 0 && Undisturbed(log, id, k)
    ensures var flown := Launched(s, ts, id, k, beats, log);
            var e := SlotOf(AfterSweep(flown, now, accepts, stamp), id, k);
            var period := s.DeckOf(id).grid.periodMs;
            var b := if beats < 1 then 1 else if beats > 64 then 64 else beats;
            && SlotOf(flown, id, k).enabled && SlotOf(flown, id, k).oneShot.Some?
            && var end := SlotOf(flown, id, k).oneShot.value.endsAtMicros;
               && (now < end ==> e == SlotOf(flown, id, k))
               && (now >= end && accepts(id, k) ==> e.enabled == SlotOf(s, id, k).enabled && e.oneShot.None?)
               && (if period <= 0.0 then
                     end == if ts + 500_000 * b > 0x7FFF_FFFF_FFFF_FFFF then 0x7FFF_FFFF_FFFF_FFFF else ts + 500_000 * b
                   else
                     var length := b as real * (1000.0 * period);
                     && end as real <= ts as real + length
                     && (length <= 0x7FFF_FFFF_FFFF_FFFF as real && ts as real + length <= 0x7FFF_FFFF_FFFF_FFFF as real
                         ==> ts as real + length - b as real < end as real))
  {
    hide Apply, Replay, OneShotEnd, AfterSweep;
    FireSetsTimer(s, ts, id, k, beats);
    var fired := Apply(s, Event(ts, EffectOneShot(id, k, beats)));
    UndisturbedRun(fired, log, id, k);
    SweepEffect(Launched(s, ts, id, k, beats, log), now, accepts, stamp, id, k);
  }

  /** Firing again while a one-shot is in flight records the engaged flag, so what the final
      sweep leaves is always on: the original flag comes back if and only if it was on. */
  lemma {:induction false} OverlapForgetsFlag(s: State, ts: I64, id: DeckId, k: nat, beats: U8, log: seq<Event>,
                           again: I64, beatsAgain: U8, rest: seq<Event>,
                           now: int, accepts: (DeckId, nat) -> bool, stamp: nat -> I64)
    requires k < 3 && SlotOf(s, id, k).effectId != 0
    requires Undisturbed(log, id, k) && Undisturbed(rest, id, k) && accepts(id, k)
    requires Expired(Launched(Launched(s, ts, id, k, beats, log), again, id, k, beatsAgain, rest), now, id, k)
    ensures var flown := Launched(Launched(s, ts, id, k, beats, log), again, id, k, beatsAgain, rest);
            SlotOf(AfterSweep(flown, now, accepts, stamp), id, k).enabled
    ensures var flown := Launched(Launched(s, ts, id, k, beats, log), again, id, k, beatsAgain, rest);
            SlotOf(AfterSweep(flown, now, accepts, stamp), id, k).enabled == SlotOf(s, id, k).enabled
            <==> SlotOf(s, id, k).enabled
  {
    hide Apply, Replay, OneShotEnd, AfterSweep;
    FireSetsTimer(s, ts, id, k, beats);
    UndisturbedRun(Apply(s, Event(ts, EffectOneShot(id, k, beats))), log, id, k);
    OneShotLifecycle(Launched(s, ts, id, k, beats, log), again, id, k, beatsAgain, rest, now, accepts, stamp);
  }

  // ---------------------------------------------------------------- a sweep that lands late

  /** The sweeper reads a snapshot and the control loop applies its event later. If nothing
      disturbed the slot in between, the event still does what a sweep of the later state would. */
  lemma {:induction false} SweepToleratesDelay(s: State, log: seq<Event>, now: int, id: DeckId, k: nat, ts: I64)
    requires k < 3 && Expired(s, now, id, k) && Undisturbed(log, id, k)
    ensures var t := Replay(s, log);
            Expired(t, now, id, k)
            && SlotOf(Apply(t, Event(ts, Disengage(s, id, k))), id, k) == Disengaged(SlotOf(t, id, k))
  {
    hide Replay, Apply;
    UndisturbedRun(s, log, id, k);
    EnableOnly(Replay(s, log), ts, id, k, SlotOf(s, id, k).oneShot.value.wasEnabled);
  }

  /** If the slot was fired again in between, the event cuts the new one-shot short: the timer is
      gone, and the slot goes off early if and only if it was off before the expired one-shot. */
  lemma {:induction false} LateSweepCutsRefire(s: State, log: seq<Event>, now: int, id: DeckId, k: nat, ts: I64,
                            again: I64, beats: U8, rest: seq<Event>)
    requires k < 3 && Expired(s, now, id, k) && SlotOf(Replay(s, log), id, k).effectId != 0
    requires Undisturbed(rest, id, k)
    ensures var t := Launched(Replay(s, log), again, id, k, beats, rest);
            var after := SlotOf(Apply(t, Event(ts, Disengage(s, id, k))), id, k);
            SlotOf(t, id, k).oneShot.Some? && SlotOf(t, id, k).enabled
            && after.oneShot == None && (!after.enabled <==> !SlotOf(s, id, k).oneShot.value.wasEnabled)
  {
    hide Replay, Apply;
    FireSetsTimer(Replay(s, log), again, id, k, beats);
    UndisturbedRun(Apply(Replay(s, log), Event(again, EffectOneShot(id, k, beats))), rest, id, k);
    EnableOnly(Launched(Replay(s, log), again, id, k, beats, rest), ts, id, k,
               SlotOf(s, id, k).oneShot.value.wasEnabled);
  }
}
