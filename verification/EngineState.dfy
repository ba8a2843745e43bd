/** The event-sourced reducer (`engine/src/state.rs`): the engine state, the event kinds and
    `apply`. Floating point is modelled by exact reals, machine integers by ranges of `int`
    with their saturating operations written out. */
module EngineState {
  import opened Wrappers

  const U64_MAX: int := 0xFFFF_FFFF_FFFF_FFFF
  const I64_MAX: int := 0x7FFF_FFFF_FFFF_FFFF
  const I32_MAX: int := 0x7FFF_FFFF
  const DOWNBEATS_INLINE_CAPACITY := 64
  const LOOP_BAR_PRESETS: seq<int> := [1, 2, 4, 8, 16]

  type U8 = x: int | 0 <= x <= 255
  type U32 = x: int | 0 <= x <= 0xFFFF_FFFF
  type U64 = x: int | 0 <= x <= U64_MAX
  type I32 = x: int | -I32_MAX - 1 <= x <= I32_MAX
  type I64 = x: int | -I64_MAX - 1 <= x <= I64_MAX

  datatype DeckId = A | B

  datatype EqBand = Low | Mid | High

  datatype CrossfaderCurve = Linear | Dipped | Sharp | Scratch

  datatype TrackRef = TrackRef(id: string, path: string)

  datatype Shape = Sine | Saw | Square | Triangle

  datatype RateDiv = Bar | Beat | Half | Quarter | Eighth | Sixteenth

  datatype LfoConfig = LfoConfig(shape: Shape, rateDiv: RateDiv, depth: real, targetParam: U8)

  datatype OneShotState = OneShotState(endsAtMicros: I64, wasEnabled: bool, beatPeriodMs: real)

  datatype EffectSlot = EffectSlot(
    effectId: U32,
    params: map<string, real>,
    wetDry: real,
    enabled: bool,
    lfo: Option<LfoConfig>,
    oneShot: Option<OneShotState>)

  const EMPTY_SLOT := EffectSlot(0, map[], 0.0, false, None, None)

  type Effects = s: seq<EffectSlot> | |s| == 3 witness [EMPTY_SLOT, EMPTY_SLOT, EMPTY_SLOT]
  type HotCues = s: seq<Option<U64>> | |s| == 8 witness [None, None, None, None, None, None, None, None]
  type StemGains = s: seq<real> | |s| == 4 witness [1.0, 1.0, 1.0, 1.0]

  const ALL_AUDIBLE: StemGains := [1.0, 1.0, 1.0, 1.0]

  datatype Tone = Tone(pitchSemitones: real, tempoRatio: real, eqLowDb: real, eqMidDb: real, eqHighDb: real)

  datatype LoopRegion = LoopRegion(inMs: Option<U64>, outMs: Option<U64>, active: bool)

  datatype BeatGrid = BeatGrid(bpm: real, anchorMs: U64, periodMs: real, phaseOffsetMs: I32, downbeats: seq<U32>)

  datatype Stems = Stems(gains: StemGains, mode: bool)

  /** A deck; fields that always change together are grouped. */
  datatype Deck = Deck(
    loaded: Option<TrackRef>,
    playing: bool,
    positionMs: U64,
    tone: Tone,
    loop: LoopRegion,
    hotCues: HotCues,
    copilotEngaged: bool,
    trackGainDb: real,
    grid: BeatGrid,
    effects: Effects,
    handoffUntilFrame: U64,
    stems: Stems)

  const DEFAULT_DECK := Deck(
    None, false, 0, Tone(0.0, 1.0, 0.0, 0.0, 0.0), LoopRegion(None, None, false),
    [None, None, None, None, None, None, None, None], false, 0.0, BeatGrid(0.0, 0, 0.0, 0, []),
    [EMPTY_SLOT, EMPTY_SLOT, EMPTY_SLOT], 0, Stems(ALL_AUDIBLE, false))

  datatype SidechainConfig = SidechainConfig(
    enabled: bool,
    triggerDeck: DeckId,
    thresholdDb: real,
    ratio: real,
    attackMs: real,
    releaseMs: real,
    makeupGainDb: real)

  /** The fields of the engine state that belong to neither deck. */
  datatype Master = Master(
    crossfader: real,
    curve: CrossfaderCurve,
    volumeDb: real,
    sessionActive: bool,
    bpm: real,
    limiterEnabled: bool,
    limiterThresholdDb: real,
    sidechain: SidechainConfig)

  const DEFAULT_MASTER :=
    Master(0.5, Linear, 0.0, false, 120.0, true, -0.5,
           SidechainConfig(false, A, -12.0, 4.0, 5.0, 200.0, 0.0))

  datatype State = State(deckA: Deck, deckB: Deck, master: Master) {
    function DeckOf(id: DeckId): Deck {
      if id == A then deckA else deckB
    }

    function With(id: DeckId, d: Deck): State {
      if id == A then this.(deckA := d) else this.(deckB := d)
    }
  }

  const DEFAULT_STATE := State(DEFAULT_DECK, DEFAULT_DECK, DEFAULT_MASTER)

  datatype EventKind =
    | DeckLoad(deck: DeckId, track: TrackRef, bpm: real, anchorMs: U64, downbeatsMs: seq<U32>,
               hotCues: HotCues, trackGainDb: real)
    | DeckUnload(deck: DeckId)
    | DeckLoadStems(deck: DeckId, track: TrackRef, stemPaths: seq<string>, bpm: real, anchorMs: U64,
                    downbeatsMs: seq<U32>, hotCues: HotCues)
    | SetStemGain(deck: DeckId, stem: U8, gain: real)
    | DeckPlay(deck: DeckId)
    | DeckPause(deck: DeckId)
    | DeckCue(deck: DeckId, positionMs: U64)
    | Crossfader(value: real)
    | SetCrossfaderCurve(curve: CrossfaderCurve)
    | EqAdjust(deck: DeckId, band: EqBand, valueDb: real)
    | HotCueSet(deck: DeckId, slot: U8, positionMs: U64)
    | HotCueTrigger(deck: DeckId, slot: U8)
    | LoopIn(deck: DeckId)
    | LoopOut(deck: DeckId)
    | LoopExit(deck: DeckId)
    | SetLoopBars(deck: DeckId, bars: U8)
    | PitchBend(deck: DeckId, semitones: real)
    | TempoBend(deck: DeckId, ratio: real)
    | PitchTempoReset(deck: DeckId)
    | PhaseNudge(deck: DeckId, deltaMs: I32)
    | SetMasterBpm(bpm: real)
    | SetSidechainEnabled(enabled: bool)
    | SetSidechainParams(triggerDeck: Option<DeckId>, scThresholdDb: Option<real>, scRatio: Option<real>,
                         attackMs: Option<real>, releaseMs: Option<real>, makeupGainDb: Option<real>)
    | EffectAssign(deck: DeckId, slot: U8, effectId: U32)
    | EffectClear(deck: DeckId, slot: U8)
    | EffectParam(deck: DeckId, slot: U8, param: string, value: real)
    | EffectWetDry(deck: DeckId, slot: U8, value: real)
    | EffectEnable(deck: DeckId, slot: U8, enabled: bool)
    | EffectSwapSlots(deck: DeckId, slotA: U8, slotB: U8)
    | EffectLfoSet(deck: DeckId, slot: U8, config: LfoConfig)
    | EffectLfoClear(deck: DeckId, slot: U8)
    | EffectOneShot(deck: DeckId, slot: U8, beats: U8)
    | CopilotEngage(deck: DeckId)
    | CopilotDisengage(deck: DeckId)
    | TakeOver(deck: DeckId, handoffUntilFrame: U64)
    | SetMasterLimiterEnabled(enabled: bool)
    | SetMasterLimiterThreshold(thresholdDb: real)
    | SessionStart
    | SessionEnd

  datatype Event = Event(tsMicros: I64, kind: EventKind)

  // ---------------------------------------------------------------- arithmetic

  function Clamp(x: real, lo: real, hi: real): real {
    if x < lo then lo else if x > hi then hi else x
  }

  function SaturateU64(x: int): U64 {
    if x < 0 then 0 else if x > U64_MAX then U64_MAX else x
  }

  function SaturateI64(x: int): I64 {
    if x < -I64_MAX - 1 then -I64_MAX - 1 else if x > I64_MAX then I64_MAX else x
  }

  function SaturateI32(x: int): I32 {
    if x < -I32_MAX - 1 then -I32_MAX - 1 else if x > I32_MAX then I32_MAX else x
  }

  /** `f64::round` on a non-negative number: halves go up. */
  function Round(x: real): int { (x + 0.5).Floor }

  function Ceil(x: real): int { -((-x).Floor) }

  // ---------------------------------------------------------------- bar loops

  /** The pairwise walk of `clamp_loop_bars` over the preset windows from `i` on. */
  function NearerOfWindow(bars: U8, i: nat): U8
    requires i < |LOOP_BAR_PRESETS|
    decreases |LOOP_BAR_PRESETS| - i
  {
    if i + 1 == |LOOP_BAR_PRESETS| then LOOP_BAR_PRESETS[0]
    else
      var lo, hi := LOOP_BAR_PRESETS[i], LOOP_BAR_PRESETS[i + 1];
      if lo <= bars <= hi then (if bars - lo <= hi - bars then lo else hi)
      else NearerOfWindow(bars, i + 1)
  }

  function ClampLoopBars(bars: U8): U8 {
    if bars <= LOOP_BAR_PRESETS[0] then LOOP_BAR_PRESETS[0]
    else if bars >= LOOP_BAR_PRESETS[4] then LOOP_BAR_PRESETS[4]
    else NearerOfWindow(bars, 0)
  }

  /** The first analysed downbeat not before `pos`, in list order. */
  function FirstAtOrAfter(downbeats: seq<U32>, pos: U64): Option<U32> {
    if downbeats == [] then None
    else if downbeats[0] >= pos then Some(downbeats[0])
    else FirstAtOrAfter(downbeats[1..], pos)
  }

  /** Milliseconds in a 4/4 bar. */
  function BarMs(period: real): real { period * 4.0 }

  function BarLine(anchor: U64, n: int, bar: real): real { anchor as real + n as real * bar }

  /** The least whole number of bars from `anchor` that reaches `pos`. */
  function BarsTo(pos: U64, anchor: U64, bar: real): int
    requires bar > 0.0
  {
    Ceil((pos - anchor) as real / bar)
  }

  /** `next_downbeat_at_or_after_ms`. */
  function NextDownbeat(pos: U64, anchor: U64, period: real, downbeats: seq<U32>): U64 {
    match FirstAtOrAfter(downbeats, pos)
    case Some(d) => d
    case None =>
      var bar := BarMs(period);
      if bar <= 0.0 then pos
      else if pos <= anchor then anchor
      else SaturateU64(Round(BarLine(anchor, BarsTo(pos, anchor, bar), bar)))
  }

  function LoopLength(bars: U8, period: real): U64 {
    SaturateU64(Round(ClampLoopBars(bars) as real * 4.0 * period))
  }

  function ArmBarLoop(d: Deck, bars: U8): Deck {
    var g := d.grid;
    if g.periodMs <= 0.0 then d
    else
      var start := NextDownbeat(d.positionMs, g.anchorMs, g.periodMs, g.downbeats);
      d.(loop := LoopRegion(Some(start), Some(SaturateU64(start + LoopLength(bars, g.periodMs))), true))
  }

  // ---------------------------------------------------------------- deck loads

  /** What `DeckLoad` and `DeckLoadStems` share; the gain is set by the caller. */
  function Loaded(d: Deck, track: TrackRef, bpm: real, anchor: U64, downbeats: seq<U32>, hotCues: HotCues,
                  stemMode: bool): Deck
  {
    var safeBpm := if bpm > 0.0 then bpm else 120.0;
    var take := if |downbeats| < DOWNBEATS_INLINE_CAPACITY then |downbeats| else DOWNBEATS_INLINE_CAPACITY;
    d.(loaded := Some(track), positionMs := 0, playing := false, hotCues := hotCues,
       grid := BeatGrid(safeBpm, anchor, 60000.0 / safeBpm, 0, downbeats[..take]),
       stems := Stems(ALL_AUDIBLE, stemMode))
  }

  // ---------------------------------------------------------------- effects chain

  /** The number of parameter descriptors an effect registers. */
  function DescriptorCount(effectId: U32): U8 {
    if effectId == 1 then 3        // filter
    else if effectId == 2 then 3   // echo
    else if effectId == 3 then 3   // reverb
    else if effectId == 4 then 2   // gate
    else 0
  }

  function PutSlot(d: Deck, slot: U8, e: EffectSlot): Deck
    requires slot < 3
  {
    d.(effects := d.effects[slot := e])
  }

  function BoundedLfo(effectId: U32, config: LfoConfig): LfoConfig {
    var c := config.(depth := Clamp(config.depth, 0.0, 1.0));
    var count := DescriptorCount(effectId);
    if c.targetParam >= count then c.(targetParam := if count == 0 then 0 else count - 1) else c
  }

  /** Microseconds per beat of a one-shot, and the beat period frozen with it. */
  function OneShotBeat(period: real): (I64, real) {
    if period > 0.0 then (SaturateI64((period * 1000.0).Floor), period) else (500_000, 500.0)
  }

  function OneShotBeats(beats: U8): U8 { if beats < 1 then 1 else if beats > 64 then 64 else beats }

  function OneShotDuration(period: real, beats: U8): I64 {
    SaturateI64(OneShotBeat(period).0 * OneShotBeats(beats))
  }

  function OneShotEnd(ts: I64, period: real, beats: U8): I64 {
    SaturateI64(ts + OneShotDuration(period, beats))
  }

  function FireOneShot(d: Deck, ts: I64, slot: U8, beats: U8): Deck
    requires slot < 3
  {
    var e := d.effects[slot];
    if e.effectId == 0 then d
    else
      PutSlot(d, slot, e.(enabled := true,
                          oneShot := Some(OneShotState(OneShotEnd(ts, d.grid.periodMs, beats), e.enabled,
                                                       OneShotBeat(d.grid.periodMs).1))))
  }

  function LastSlot(slot: U8): U8 { if slot < 2 then slot else 2 }

  function SwapSlots(d: Deck, slotA: U8, slotB: U8): Deck {
    var a, b := LastSlot(slotA), LastSlot(slotB);
    if a == b then d
    else d.(effects := d.effects[a := d.effects[b]][b := d.effects[a]])
  }

  // ---------------------------------------------------------------- the reducer

  function OrElse(v: Option<real>, lo: real, hi: real, prior: real): real {
    match v case Some(x) => Clamp(x, lo, hi) case None => prior
  }

  function Apply(s: State, ev: Event): State {
    match ev.kind
    case SessionStart => s.(master := s.master.(sessionActive := true))
    case SessionEnd => s.(master := s.master.(sessionActive := false))
    case DeckLoad(id, track, bpm, anchor, downbeats, hotCues, gain) =>
      s.With(id, Loaded(s.DeckOf(id), track, bpm, anchor, downbeats, hotCues, false).(trackGainDb := gain))
    case DeckLoadStems(id, track, _, bpm, anchor, downbeats, hotCues) =>
      s.With(id, Loaded(s.DeckOf(id), track, bpm, anchor, downbeats, hotCues, true))
    case SetStemGain(id, stem, gain) =>
      if stem < 4 then
        var d := s.DeckOf(id);
        s.With(id, d.(stems := d.stems.(gains := d.stems.gains[stem := Clamp(gain, 0.0, 1.0)])))
      else s
    case DeckUnload(id) => s.With(id, DEFAULT_DECK)
    case PhaseNudge(id, delta) =>
      var d := s.DeckOf(id);
      s.With(id, d.(grid := d.grid.(phaseOffsetMs := SaturateI32(d.grid.phaseOffsetMs + delta))))
    case EffectAssign(id, slot, effectId) =>
      if slot < 3 then s.With(id, PutSlot(s.DeckOf(id), slot, EffectSlot(effectId, map[], 0.5, true, None, None)))
      else s
    case EffectClear(id, slot) =>
      if slot < 3 then s.With(id, PutSlot(s.DeckOf(id), slot, EMPTY_SLOT)) else s
    case EffectParam(id, slot, param, value) =>
      if slot < 3 then
        var e := s.DeckOf(id).effects[slot];
        s.With(id, PutSlot(s.DeckOf(id), slot, e.(params := e.params[param := value])))
      else s
    case EffectWetDry(id, slot, value) =>
      if slot < 3 then
        s.With(id, PutSlot(s.DeckOf(id), slot, s.DeckOf(id).effects[slot].(wetDry := Clamp(value, 0.0, 1.0))))
      else s
    case EffectEnable(id, slot, enabled) =>
      if slot < 3 then
        s.With(id, PutSlot(s.DeckOf(id), slot, s.DeckOf(id).effects[slot].(enabled := enabled, oneShot := None)))
      else s
    case EffectSwapSlots(id, slotA, slotB) => s.With(id, SwapSlots(s.DeckOf(id), slotA, slotB))
    case EffectLfoSet(id, slot, config) =>
      if slot < 3 then
        var e := s.DeckOf(id).effects[slot];
        s.With(id, PutSlot(s.DeckOf(id), slot, e.(lfo := Some(BoundedLfo(e.effectId, config)))))
      else s
    case EffectLfoClear(id, slot) =>
      if slot < 3 then s.With(id, PutSlot(s.DeckOf(id), slot, s.DeckOf(id).effects[slot].(lfo := None))) else s
    case EffectOneShot(id, slot, beats) =>
      if slot < 3 then s.With(id, FireOneShot(s.DeckOf(id), ev.tsMicros, slot, beats)) else s
    case DeckPlay(id) => s.With(id, s.DeckOf(id).(playing := true))
    case DeckPause(id) => s.With(id, s.DeckOf(id).(playing := false))
    case DeckCue(id, position) => s.With(id, s.DeckOf(id).(positionMs := position))
    case Crossfader(value) => s.(master := s.master.(crossfader := Clamp(value, 0.0, 1.0)))
    case SetCrossfaderCurve(curve) => s.(master := s.master.(curve := curve))
    case EqAdjust(id, band, valueDb) =>
      var clamped := Clamp(valueDb, -26.0, 6.0);
      var d := s.DeckOf(id);
      s.With(id, d.(tone := match band
                            case Low => d.tone.(eqLowDb := clamped)
                            case Mid => d.tone.(eqMidDb := clamped)
                            case High => d.tone.(eqHighDb := clamped)))
    case HotCueSet(id, slot, position) =>
      if slot < 8 then
        var d := s.DeckOf(id);
        s.With(id, d.(hotCues := d.hotCues[slot := Some(position)]))
      else s
    case HotCueTrigger(id, slot) =>
      if slot < 8 && s.DeckOf(id).hotCues[slot].Some? then
        s.With(id, s.DeckOf(id).(positionMs := s.DeckOf(id).hotCues[slot].value))
      else s
    case LoopIn(id) =>
      var d := s.DeckOf(id);
      s.With(id, d.(loop := d.loop.(inMs := Some(d.positionMs))))
    case LoopOut(id) =>
      var d := s.DeckOf(id);
      s.With(id, d.(loop := d.loop.(outMs := Some(d.positionMs), active := d.loop.inMs.Some?)))
    case LoopExit(id) => s.With(id, s.DeckOf(id).(loop := LoopRegion(None, None, false)))
    case SetLoopBars(id, bars) => s.With(id, ArmBarLoop(s.DeckOf(id), bars))
    case PitchBend(id, semitones) =>
      var d := s.DeckOf(id);
      s.With(id, d.(tone := d.tone.(pitchSemitones := Clamp(semitones, -12.0, 12.0))))
    case TempoBend(id, ratio) =>
      var d := s.DeckOf(id);
      s.With(id, d.(tone := d.tone.(tempoRatio := Clamp(ratio, 0.5, 2.0))))
    case PitchTempoReset(id) =>
      var d := s.DeckOf(id);
      s.With(id, d.(tone := d.tone.(pitchSemitones := 0.0, tempoRatio := 1.0)))
    case CopilotEngage(id) => s.With(id, s.DeckOf(id).(copilotEngaged := true))
    case CopilotDisengage(id) => s.With(id, s.DeckOf(id).(copilotEngaged := false))
    case SetMasterBpm(bpm) => if bpm > 0.0 then s.(master := s.master.(bpm := bpm)) else s
    case SetSidechainEnabled(enabled) =>
      s.(master := s.master.(sidechain := s.master.sidechain.(enabled := enabled)))
    case SetSidechainParams(trigger, threshold, ratio, attack, release, makeup) =>
      var sc := s.master.sidechain;
      s.(master := s.master.(sidechain := SidechainConfig(
                               sc.enabled,
                               if trigger.Some? then trigger.value else sc.triggerDeck,
                               OrElse(threshold, -60.0, 0.0, sc.thresholdDb),
                               OrElse(ratio, 1.0, 20.0, sc.ratio),
                               OrElse(attack, 0.1, 100.0, sc.attackMs),
                               OrElse(release, 10.0, 2000.0, sc.releaseMs),
                               OrElse(makeup, 0.0, 24.0, sc.makeupGainDb))))
    case TakeOver(id, until) => s.With(id, s.DeckOf(id).(copilotEngaged := false, handoffUntilFrame := until))
    case SetMasterLimiterEnabled(enabled) => s.(master := s.master.(limiterEnabled := enabled))
    case SetMasterLimiterThreshold(threshold) =>
      s.(master := s.master.(limiterThresholdDb := Clamp(threshold, -24.0, 0.0)))
  }

  /** The state after a log of events. */
  function Replay(s: State, log: seq<Event>): State {
    if log == [] then s else Apply(Replay(s, log[..|log| - 1]), log[|log| - 1])
  }
}
