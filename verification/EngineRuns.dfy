/** What holds over whole event logs: the invariant of every state the reducer can reach, and
    the split of a replay into three independent folds. */
module EngineRuns {
  import opened Wrappers
  import opened EngineState

  // ---------------------------------------------------------------- invariant

  predicate Within(x: real, lo: real, hi: real) { lo <= x <= hi }

  predicate LfoFits(effectId: U32, c: LfoConfig) {
    Within(c.depth, 0.0, 1.0)
    && (if DescriptorCount(effectId) == 0 then c.targetParam == 0
        else c.targetParam < DescriptorCount(effectId))
  }

  /** A live one-shot sits on an enabled, assigned slot with a positive frozen beat; an LFO
      targets a parameter the slot's current effect has. */
  predicate SlotInv(e: EffectSlot) {
    Within(e.wetDry, 0.0, 1.0)
    && (e.lfo.Some? ==> LfoFits(e.effectId, e.lfo.value))
    && (e.oneShot.Some? ==> e.enabled && e.effectId != 0 && e.oneShot.value.beatPeriodMs > 0.0)
  }

  predicate SlotsInv(effects: Effects) {
    SlotInv(effects[0]) && SlotInv(effects[1]) && SlotInv(effects[2])
  }

  /** A deck has a beat grid exactly when it is loaded, and then tempo and beat period agree. */
  predicate GridInv(loaded: bool, g: BeatGrid) {
    (loaded <==> g.bpm > 0.0)
    && (loaded ==> g.periodMs > 0.0 && g.bpm * g.periodMs == 60000.0)
    && (!loaded ==> g.bpm == 0.0 && g.periodMs == 0.0 && g.downbeats == [])
    && |g.downbeats| <= DOWNBEATS_INLINE_CAPACITY
  }

  predicate ToneInv(t: Tone) {
    Within(t.pitchSemitones, -12.0, 12.0) && Within(t.tempoRatio, 0.5, 2.0)
    && Within(t.eqLowDb, -26.0, 6.0) && Within(t.eqMidDb, -26.0, 6.0) && Within(t.eqHighDb, -26.0, 6.0)
  }

  /** Gains stay in range, and only a loaded deck is in stem mode. */
  predicate StemsInv(loaded: bool, st: Stems) {
    (st.mode ==> loaded) && forall i :: 0 <= i < 4 ==> Within(st.gains[i], 0.0, 1.0)
  }

  predicate LoopInv(l: LoopRegion) { l.active ==> l.inMs.Some? && l.outMs.Some? }

  predicate DeckInv(d: Deck) {
    GridInv(d.loaded.Some?, d.grid) && StemsInv(d.loaded.Some?, d.stems)
    && ToneInv(d.tone) && LoopInv(d.loop) && SlotsInv(d.effects)
  }

  predicate MasterInv(m: Master) {
    Within(m.crossfader, 0.0, 1.0)
    && m.bpm > 0.0
    && m.volumeDb == 0.0
    && Within(m.limiterThresholdDb, -24.0, 0.0)
    && Within(m.sidechain.thresholdDb, -60.0, 0.0)
    && Within(m.sidechain.ratio, 1.0, 20.0)
    && Within(m.sidechain.attackMs, 0.1, 100.0)
    && Within(m.sidechain.releaseMs, 10.0, 2000.0)
    && Within(m.sidechain.makeupGainDb, 0.0, 24.0)
  }

  predicate StateInv(s: State) { DeckInv(s.deckA) && DeckInv(s.deckB) && MasterInv(s.master) }

  lemma DefaultInv()
    ensures StateInv(DEFAULT_STATE)
  {
  }

  /** The deck an event addresses, if any. */
  function Target(kind: EventKind): Option<DeckId> {
    match kind
    case Crossfader(_) | SetCrossfaderCurve(_) | SetMasterBpm(_) | SetSidechainEnabled(_)
       | SetSidechainParams(_, _, _, _, _, _) | SetMasterLimiterEnabled(_)
       | SetMasterLimiterThreshold(_) | SessionStart | SessionEnd => None
    case _ => Some(kind.deck)
  }

  predicate Loads(kind: EventKind) { kind.DeckLoad? || kind.DeckLoadStems? || kind.DeckUnload? }

  predicate EditsSlot(kind: EventKind) {
    kind.EffectAssign? || kind.EffectClear? || kind.EffectParam? || kind.EffectWetDry? || kind.EffectEnable?
    || kind.EffectSwapSlots? || kind.EffectLfoSet? || kind.EffectLfoClear? || kind.EffectOneShot?
  }

  lemma LoadKeepsInv(s: State, ev: Event)
    requires Loads(ev.kind) && DeckInv(s.DeckOf(ev.kind.deck))
    ensures DeckInv(Apply(s, ev).DeckOf(ev.kind.deck))
  {
  }

  lemma {:induction false} RewritesSlotKeepsInv(s: State, ev: Event)
    requires ev.kind.EffectAssign? || ev.kind.EffectClear? || ev.kind.EffectParam? || ev.kind.EffectWetDry?
    requires DeckInv(s.DeckOf(ev.kind.deck))
    ensures DeckInv(Apply(s, ev).DeckOf(ev.kind.deck))
  {
    hide GridInv, StemsInv, ToneInv, LoopInv;
  }

  lemma {:induction false} ModulatesSlotKeepsInv(s: State, ev: Event)
    requires ev.kind.EffectEnable? || ev.kind.EffectLfoClear? || ev.kind.EffectLfoSet?
    requires DeckInv(s.DeckOf(ev.kind.deck))
    ensures DeckInv(Apply(s, ev).DeckOf(ev.kind.deck))
  {
    hide GridInv, StemsInv, ToneInv, LoopInv;
  }

  lemma MovesSlotKeepsInv(s: State, ev: Event)
    requires ev.kind.EffectSwapSlots? || ev.kind.EffectOneShot?
    requires DeckInv(s.DeckOf(ev.kind.deck))
    ensures DeckInv(Apply(s, ev).DeckOf(ev.kind.deck))
  {
    hide OneShotEnd, GridInv, StemsInv, ToneInv, LoopInv;
  }

  predicate TurnsKnob(kind: EventKind) {
    kind.SetStemGain? || kind.EqAdjust? || kind.PitchBend? || kind.TempoBend? || kind.PitchTempoReset?
  }

  lemma KnobEventKeepsInv(s: State, ev: Event)
    requires TurnsKnob(ev.kind) && DeckInv(s.DeckOf(ev.kind.deck))
    ensures DeckInv(Apply(s, ev).DeckOf(ev.kind.deck))
  {
  }

  predicate MovesLoop(kind: EventKind) {
    kind.LoopIn? || kind.LoopOut? || kind.LoopExit? || kind.SetLoopBars?
  }

  lemma LoopEventKeepsInv(s: State, ev: Event)
    requires MovesLoop(ev.kind) && DeckInv(s.DeckOf(ev.kind.deck))
    ensures DeckInv(Apply(s, ev).DeckOf(ev.kind.deck))
  {
  }

  lemma TransportEventKeepsInv(s: State, ev: Event)
    requires Target(ev.kind).Some? && !Loads(ev.kind) && !EditsSlot(ev.kind)
    requires !TurnsKnob(ev.kind) && !MovesLoop(ev.kind)
    requires DeckInv(s.DeckOf(ev.kind.deck))
    ensures DeckInv(Apply(s, ev).DeckOf(ev.kind.deck))
  {
    hide SlotsInv, ToneInv, StemsInv, LoopInv, SaturateI32;
  }

  lemma MasterEventKeepsInv(s: State, ev: Event)
    requires Target(ev.kind).None? && MasterInv(s.master)
    ensures MasterInv(Apply(s, ev).master)
  {
  }

  lemma {:induction false} ApplyKeepsInv(s: State, ev: Event)
    requires StateInv(s)
    ensures StateInv(Apply(s, ev))
  {
    hide Apply, DeckInv, MasterInv;
    ApplyIsLocal(s, s, ev);
    if Target(ev.kind).None? { MasterEventKeepsInv(s, ev); }
    else if Loads(ev.kind) { LoadKeepsInv(s, ev); }
    else if ev.kind.EffectSwapSlots? || ev.kind.EffectOneShot? { MovesSlotKeepsInv(s, ev); }
    else if ev.kind.EffectEnable? || ev.kind.EffectLfoClear? || ev.kind.EffectLfoSet? { ModulatesSlotKeepsInv(s, ev); }
    else if EditsSlot(ev.kind) { RewritesSlotKeepsInv(s, ev); }
    else if MovesLoop(ev.kind) { LoopEventKeepsInv(s, ev); }
    else if TurnsKnob(ev.kind) { KnobEventKeepsInv(s, ev); }
    else { TransportEventKeepsInv(s, ev); }
  }

  /** Every state any event log can reach from the default state meets the invariant. */
  lemma {:induction false} ReachableInv(log: seq<Event>)
    ensures StateInv(Replay(DEFAULT_STATE, log))
  {
    hide StateInv, Apply;
    if log == [] {
      DefaultInv();
    } else {
      ReachableInv(log[..|log| - 1]);
      ApplyKeepsInv(Replay(DEFAULT_STATE, log[..|log| - 1]), log[|log| - 1]);
    }
  }

  // ---------------------------------------------------------------- factorisation

  /** One event reads and writes the deck it addresses and nothing else; an event that
      addresses no deck reads and writes the master section and nothing else. */
  lemma ApplyIsLocal(s: State, t: State, ev: Event)
    ensures match Target(ev.kind)
            case None =>
              Apply(s, ev).deckA == s.deckA && Apply(s, ev).deckB == s.deckB
              && (s.master == t.master ==> Apply(s, ev).master == Apply(t, ev).master)
            case Some(id) =>
              Apply(s, ev).master == s.master
              && Apply(s, ev).DeckOf(Other(id)) == s.DeckOf(Other(id))
              && (s.DeckOf(id) == t.DeckOf(id) ==> Apply(s, ev).DeckOf(id) == Apply(t, ev).DeckOf(id))
    ensures Target(ev.kind) == Some(A) ==> Apply(s, ev) == s.(deckA := Apply(s, ev).deckA)
    ensures Target(ev.kind) == Some(B) ==> Apply(s, ev) == s.(deckB := Apply(s, ev).deckB)
  {
    hide Loaded, PutSlot, SwapSlots, FireOneShot, ArmBarLoop, BoundedLfo, Clamp, SaturateI32, OrElse;
  }

  function Other(id: DeckId): DeckId { if id == A then B else A }

  /** The events of a log that address `target`, in order. */
  function Only(log: seq<Event>, target: Option<DeckId>): (r: seq<Event>)
    ensures forall e :: e in r ==> Target(e.kind) == target
  {
    if log == [] then []
    else
      var last := log[|log| - 1];
      Only(log[..|log| - 1], target) + (if Target(last.kind) == target then [last] else [])
  }

  function PartOf(s: State, target: Option<DeckId>): (Option<Deck>, Option<Master>) {
    match target
    case None => (None, Some(s.master))
    case Some(id) => (Some(s.DeckOf(id)), None)
  }

  lemma PartStep(s: State, t: State, ev: Event, target: Option<DeckId>)
    requires PartOf(s, target) == PartOf(t, target)
    ensures Target(ev.kind) == target ==> PartOf(Apply(s, ev), target) == PartOf(Apply(t, ev), target)
    ensures Target(ev.kind) != target ==> PartOf(Apply(s, ev), target) == PartOf(s, target)
  {
  }

  /** Each part of a replayed state is the fold of that part's own events alone. */
  lemma {:induction false} ReplayProjects(s: State, log: seq<Event>, target: Option<DeckId>)
    ensures PartOf(Replay(s, log), target) == PartOf(Replay(s, Only(log, target)), target)
  {
    hide Apply, PartOf;
    if log != [] {
      var front, last := log[..|log| - 1], log[|log| - 1];
      ReplayProjects(s, front, target);
      PartStep(Replay(s, front), Replay(s, Only(front, target)), last, target);
      if Target(last.kind) == target {
        var only := Only(front, target) + [last];
        assert only[..|only| - 1] == Only(front, target);
      } else {
        assert Only(log, target) == Only(front, target);
      }
    }
  }

  /** However two logs interleave their deck-A, deck-B and master events, they reach the same
      state when the three subsequences agree. */
  lemma ReplayFactorises(s: State, log: seq<Event>, other: seq<Event>)
    requires Only(log, Some(A)) == Only(other, Some(A))
    requires Only(log, Some(B)) == Only(other, Some(B))
    requires Only(log, None) == Only(other, None)
    ensures Replay(s, log) == Replay(s, other)
  {
    hide Replay, Only;
    ReplayProjects(s, log, Some(A));
    ReplayProjects(s, other, Some(A));
    ReplayProjects(s, log, Some(B));
    ReplayProjects(s, other, Some(B));
    ReplayProjects(s, log, None);
    ReplayProjects(s, other, None);
  }
}
