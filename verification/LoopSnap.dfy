/** Bar loops: where `SetLoopBars` puts the loop (`clamp_loop_bars`,
    `next_downbeat_at_or_after_ms` and the `SetLoopBars` arm of `apply`). */
module LoopSnap {
  import opened Wrappers
  import opened EngineState
  import opened EngineRuns

  // ---------------------------------------------------------------- bar presets

  function Distance(x: int, y: int): nat { if x < y then y - x else x - y }

  /** The preset is a nearest one, and the smallest of the nearest. */
  lemma ClampLoopBarsNearest(bars: U8)
    ensures ClampLoopBars(bars) in [1, 2, 4, 8, 16]
    ensures forall p :: p in [1, 2, 4, 8, 16] ==> Distance(bars, ClampLoopBars(bars)) <= Distance(bars, p)
    ensures forall p :: p in [1, 2, 4, 8, 16] && Distance(bars, p) == Distance(bars, ClampLoopBars(bars)) ==>
                          ClampLoopBars(bars) <= p
  {
  }

  // ---------------------------------------------------------------- analysed downbeats

  /** `d` is the entry the scan stops at: the first one not before `pos`. */
  ghost predicate IsFirst(downbeats: seq<U32>, pos: U64, i: int) {
    0 <= i < |downbeats| && downbeats[i] >= pos && forall k :: 0 <= k < i ==> downbeats[k] < pos
  }

  lemma {:induction false} ScanFindsFirst(downbeats: seq<U32>, pos: U64) returns (i: nat)
    ensures match FirstAtOrAfter(downbeats, pos)
            case Some(d) => IsFirst(downbeats, pos, i) && downbeats[i] == d
            case None => forall k :: 0 <= k < |downbeats| ==> downbeats[k] < pos
  {
    if downbeats == [] || downbeats[0] >= pos { return 0; }
    i := ScanFindsFirst(downbeats[1..], pos);
    assert downbeats == [downbeats[0]] + downbeats[1..];
    i := i + 1;
  }

  // ---------------------------------------------------------------- extrapolated bar lines

  lemma ScaleUp(a: real, b: real, c: real)
    requires a <= b && c > 0.0
    ensures a * c <= b * c
    ensures a < b ==> a * c < b * c
  {
  }

  lemma CeilIsLeast(x: real)
    ensures Ceil(x) as real - 1.0 < x <= Ceil(x) as real
  {
  }

  /** `n` is the least bar line not before `pos`, counted from the anchor. */
  ghost predicate IsLeastBar(pos: U64, anchor: U64, bar: real, n: int) {
    BarLine(anchor, n - 1, bar) < pos as real <= BarLine(anchor, n, bar)
  }

  lemma DivideOut(x: real, bar: real, lo: real, hi: real)
    requires bar > 0.0 && lo < x / bar <= hi
    ensures lo * bar < x <= hi * bar
  {
  }

  lemma BarsToIsLeast(pos: U64, anchor: U64, bar: real)
    requires bar > 0.0 && pos > anchor
    ensures IsLeastBar(pos, anchor, bar, BarsTo(pos, anchor, bar))
  {
    hide Ceil;
    var x := (pos - anchor) as real;
    CeilIsLeast(x / bar);
    DivideOut(x, bar, (Ceil(x / bar) - 1) as real, Ceil(x / bar) as real);
  }

  lemma LeastBarMonotone(pos: U64, later: U64, anchor: U64, bar: real, n: int, m: int)
    requires bar > 0.0 && pos <= later
    requires IsLeastBar(pos, anchor, bar, n) && IsLeastBar(later, anchor, bar, m)
    ensures n <= m
  {
  }

  lemma RoundNotBelow(x: real, p: int)
    requires x >= p as real
    ensures Round(x) >= p
  {
  }

  lemma RoundMonotone(x: real, y: real)
    requires x <= y
    ensures Round(x) <= Round(y)
  {
  }

  // ---------------------------------------------------------------- the snap point

  /** `snap` is the millisecond nearest to the `n`-th bar line after the anchor, four beats to the
      bar, and that is the first line not before the playhead. */
  ghost predicate OnBarLine(pos: U64, anchor: U64, period: real, n: int, snap: U64) {
    var bar := 4.0 * period;
    var line := anchor as real + n as real * bar;
    && line - bar < pos as real <= line
    && (if line < 0xFFFF_FFFF_FFFF_FFFF as real then -0.5 < snap as real - line <= 0.5
        else snap == 0xFFFF_FFFF_FFFF_FFFF)
  }

  /** What the snap point is: the first analysed downbeat not before the playhead; failing that the
      anchor while the playhead has not passed it; failing that the first bar line not before it. */
  ghost predicate IsSnap(pos: U64, anchor: U64, period: real, downbeats: seq<U32>, snap: U64) {
    (exists i :: IsFirst(downbeats, pos, i) && snap == downbeats[i])
    || ((forall k :: 0 <= k < |downbeats| ==> downbeats[k] < pos)
        && (if pos <= anchor then snap == anchor else exists n :: OnBarLine(pos, anchor, period, n, snap)))
  }

  lemma RoundNear(x: real)
    requires x >= 0.0
    ensures 0 <= Round(x) && -0.5 < Round(x) as real - x <= 0.5
  {
  }

  lemma {:induction false} Extrapolated(pos: U64, anchor: U64, period: real)
    requires period > 0.0 && pos > anchor
    ensures var n := BarsTo(pos, anchor, BarMs(period));
            var snap := SaturateU64(Round(BarLine(anchor, n, BarMs(period))));
            OnBarLine(pos, anchor, period, n, snap) && snap >= pos
  {
    var bar := BarMs(period);
    var n := BarsTo(pos, anchor, bar);
    BarsToIsLeast(pos, anchor, bar);
    var line := BarLine(anchor, n, bar);
    assert BarLine(anchor, n - 1, bar) == line - bar by { OneBarBack(anchor, n, bar); }
    RoundNotBelow(line, pos);
    RoundNear(line);
    hide Round, BarsTo;
  }

  lemma OneBarBack(anchor: U64, n: int, bar: real)
    ensures BarLine(anchor, n - 1, bar) == BarLine(anchor, n, bar) - bar
  {
    assert (n - 1) as real == n as real - 1.0;
    assert (n as real - 1.0) * bar == n as real * bar - bar;
  }

  /** Where the playhead snaps: to analysed downbeat `i`, to the anchor, or to bar line `n`. */
  lemma {:induction false} SnapPoint(pos: U64, anchor: U64, period: real, downbeats: seq<U32>) returns (i: nat, n: int)
    requires period > 0.0
    ensures var snap := NextDownbeat(pos, anchor, period, downbeats);
            && snap >= pos && IsSnap(pos, anchor, period, downbeats, snap)
            && if exists k :: 0 <= k < |downbeats| && downbeats[k] >= pos then
                 && i < |downbeats| && downbeats[i] == snap && forall k :: 0 <= k < i ==> downbeats[k] < pos
               else if pos <= anchor then snap == anchor
               else
                 var bar := 4.0 * period;
                 var line := anchor as real + n as real * bar;
                 && line - bar < pos as real <= line
                 && (line < 0xFFFF_FFFF_FFFF_FFFF as real ==> -0.5 < snap as real - line <= 0.5)
                 && (line >= 0xFFFF_FFFF_FFFF_FFFF as real ==> snap == 0xFFFF_FFFF_FFFF_FFFF)
  {
    i := ScanFindsFirst(downbeats, pos);
    n := if pos > anchor then BarsTo(pos, anchor, BarMs(period)) else 0;
    hide Round, BarLine, BarsTo, SaturateU64;
    if FirstAtOrAfter(downbeats, pos).None? && pos > anchor { Extrapolated(pos, anchor, period); }
  }

  /** Moving the playhead forward never moves the snap point back, whatever the grid:
      the analysed downbeats need not even be sorted. */
  lemma SnapMonotone(pos: U64, later: U64, anchor: U64, period: real, downbeats: seq<U32>)
    requires period > 0.0 && pos <= later
    ensures NextDownbeat(pos, anchor, period, downbeats) <= NextDownbeat(later, anchor, period, downbeats)
  {
    hide IsSnap, Round, BarLine, BarsTo;
    var _, _ := SnapPoint(later, anchor, period, downbeats);
    var i := ScanFindsFirst(downbeats, pos);
    var j := ScanFindsFirst(downbeats, later);
    if FirstAtOrAfter(downbeats, pos).None? && pos > anchor {
      ExtrapolationMonotone(pos, later, anchor, BarMs(period));
    }
  }

  lemma {:induction false} ExtrapolationMonotone(pos: U64, later: U64, anchor: U64, bar: real)
    requires bar > 0.0 && anchor < pos <= later
    ensures Round(BarLine(anchor, BarsTo(pos, anchor, bar), bar))
         <= Round(BarLine(anchor, BarsTo(later, anchor, bar), bar))
  {
    hide Round, BarsTo, IsLeastBar;
    var n, m := BarsTo(pos, anchor, bar), BarsTo(later, anchor, bar);
    BarsToIsLeast(pos, anchor, bar);
    BarsToIsLeast(later, anchor, bar);
    LeastBarMonotone(pos, later, anchor, bar, n, m);
    ScaleUp(n as real, m as real, bar);
    RoundMonotone(BarLine(anchor, n, bar), BarLine(anchor, m, bar));
  }

  // ---------------------------------------------------------------- the event

  /** `SetLoopBars` on a deck with a beat grid arms a loop from the snap point, of the rounded
      length of the nearest preset number of 4/4 bars; without a grid it changes nothing. */
  lemma SetLoopBarsArms(s: State, ts: I64, id: DeckId, bars: U8)
    ensures var d := s.DeckOf(id);
            var after := Apply(s, Event(ts, SetLoopBars(id, bars)));
            if d.grid.periodMs <= 0.0 then after == s
            else
              var l := after.DeckOf(id).loop;
              after == s.With(id, d.(loop := l))
              && l.active && l.inMs.Some? && l.outMs.Some?
              && l.inMs.value == NextDownbeat(d.positionMs, d.grid.anchorMs, d.grid.periodMs, d.grid.downbeats)
              && IsSnap(d.positionMs, d.grid.anchorMs, d.grid.periodMs, d.grid.downbeats, l.inMs.value)
              && d.positionMs <= l.inMs.value <= l.outMs.value
              && IsLoopLength(l.outMs.value, l.inMs.value, ClampLoopBars(bars), d.grid.periodMs)
  {
    hide IsSnap, NextDownbeat, LoopLength, ClampLoopBars;
    var d := s.DeckOf(id);
    if d.grid.periodMs > 0.0 {
      var _, _ := SnapPoint(d.positionMs, d.grid.anchorMs, d.grid.periodMs, d.grid.downbeats);
      LoopLengthRounds(bars, d.grid.periodMs);
    }
  }

  /** On every reachable state the bar loop arms exactly on loaded decks. */
  lemma {:induction false} BarLoopArmsIffLoaded(log: seq<Event>, ts: I64, id: DeckId, bars: U8)
    ensures var s := Replay(DEFAULT_STATE, log);
            var after := Apply(s, Event(ts, SetLoopBars(id, bars)));
            if s.DeckOf(id).loaded.Some? then after.DeckOf(id).loop.active else after == s
  {
    hide Apply, Replay;
    ReachableInv(log);
    SetLoopBarsArms(Replay(DEFAULT_STATE, log), ts, id, bars);
  }

  /** The loop is within half a millisecond of its exact musical length, unless its end would
      pass the largest 64-bit position. */
  ghost predicate IsLoopLength(end: U64, start: U64, preset: U8, period: real) {
    end == 0xFFFF_FFFF_FFFF_FFFF
    || -0.5 < (end - start) as real - preset as real * 4.0 * period <= 0.5
  }

  lemma LoopLengthRounds(bars: U8, period: real)
    requires period > 0.0
    ensures LoopLength(bars, period) == U64_MAX
         || -0.5 < LoopLength(bars, period) as real - ClampLoopBars(bars) as real * 4.0 * period <= 0.5
  {
  }
}
