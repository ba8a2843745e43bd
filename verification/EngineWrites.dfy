/** Who writes what in the reducer, field by field: over any log a field holds what the last event
    that writes it put there. `EngineState` says it event by event; here every outcome is spelled
    out in the event's own numbers. */
module EngineWrites {
  import opened Wrappers
  import opened EngineState
  import opened EngineRuns

  // ---------------------------------------------------------------- which events write a field

  datatype Field =
    | PlayingField | PositionField | PitchField | TempoField | EqField(band: EqBand) | LoopField
    | CueField(slot: nat) | CopilotField | HandoffField | TrackField | PhaseField | StemField(stem: nat)
    | ParamField(slot: nat, param: string) | WetDryField(slot: nat) | LfoField(slot: nat)
    | EnabledField(slot: nat) | EffectField(slot: nat)

  predicate SameParam(m: map<string, real>, m': map<string, real>, param: string) {
    (param in m <==> param in m') && (param in m ==> m'[param] == m[param])
  }

  /** The field is the same in both decks. */
  predicate SameField(d: Deck, d': Deck, f: Field) {
    match f
    case PlayingField => d'.playing == d.playing
    case PositionField => d'.positionMs == d.positionMs
    case PitchField => d'.tone.pitchSemitones == d.tone.pitchSemitones
    case TempoField => d'.tone.tempoRatio == d.tone.tempoRatio
    case EqField(Low) => d'.tone.eqLowDb == d.tone.eqLowDb
    case EqField(Mid) => d'.tone.eqMidDb == d.tone.eqMidDb
    case EqField(High) => d'.tone.eqHighDb == d.tone.eqHighDb
    case LoopField => d'.loop == d.loop
    case CueField(k) => k < 8 ==> d'.hotCues[k] == d.hotCues[k]
    case CopilotField => d'.copilotEngaged == d.copilotEngaged
    case HandoffField => d'.handoffUntilFrame == d.handoffUntilFrame
    case TrackField =>
      && d'.loaded == d.loaded && d'.trackGainDb == d.trackGainDb && d'.stems.mode == d.stems.mode
      && d'.grid.bpm == d.grid.bpm && d'.grid.anchorMs == d.grid.anchorMs && d'.grid.periodMs == d.grid.periodMs
      && d'.grid.downbeats == d.grid.downbeats
    case PhaseField => d'.grid.phaseOffsetMs == d.grid.phaseOffsetMs
    case StemField(k) => k < 4 ==> d'.stems.gains[k] == d.stems.gains[k]
    case ParamField(k, param) => k < 3 ==> SameParam(d.effects[k].params, d'.effects[k].params, param)
    case WetDryField(k) => k < 3 ==> d'.effects[k].wetDry == d.effects[k].wetDry
    case LfoField(k) => k < 3 ==> d'.effects[k].lfo == d.effects[k].lfo
    case EnabledField(k) => k < 3 ==> d'.effects[k].enabled == d.effects[k].enabled
    case EffectField(k) => k < 3 ==> d'.effects[k].effectId == d.effects[k].effectId
  }

  /** A swap moves slot `k`; a slot number past the last counts as the last. */
  predicate Swaps(kind: EventKind, k: nat) {
    kind.EffectSwapSlots?
    && (kind.slotA == k || kind.slotB == k || (k == 2 && (kind.slotA > 2 || kind.slotB > 2)))
  }

  predicate Reassigns(kind: EventKind, k: nat) {
    (kind.EffectAssign? || kind.EffectClear?) && kind.slot == k
  }

  predicate NewTrack(kind: EventKind) { kind.DeckLoad? || kind.DeckLoadStems? }

  /** The event may write the field of the deck it addresses; an unload writes all of them. */
  predicate Writes(kind: EventKind, f: Field) {
    || kind.DeckUnload?
    || match f
       case PlayingField => kind.DeckPlay? || kind.DeckPause? || NewTrack(kind)
       case PositionField => kind.DeckCue? || kind.HotCueTrigger? || NewTrack(kind)
       case PitchField => kind.PitchBend? || kind.PitchTempoReset?
       case TempoField => kind.TempoBend? || kind.PitchTempoReset?
       case EqField(band) => kind.EqAdjust? && kind.band == band
       case LoopField => kind.LoopIn? || kind.LoopOut? || kind.LoopExit? || kind.SetLoopBars?
       case CueField(k) => (kind.HotCueSet? && kind.slot == k) || NewTrack(kind)
       case CopilotField => kind.CopilotEngage? || kind.CopilotDisengage? || kind.TakeOver?
       case HandoffField => kind.TakeOver?
       case TrackField => NewTrack(kind)
       case PhaseField => kind.PhaseNudge? || NewTrack(kind)
       case StemField(k) => (kind.SetStemGain? && kind.stem == k) || NewTrack(kind)
       case ParamField(k, param) =>
         (kind.EffectParam? && kind.slot == k && kind.param == param) || Reassigns(kind, k) || Swaps(kind, k)
       case WetDryField(k) => (kind.EffectWetDry? && kind.slot == k) || Reassigns(kind, k) || Swaps(kind, k)
       case LfoField(k) =>
         ((kind.EffectLfoSet? || kind.EffectLfoClear?) && kind.slot == k) || Reassigns(kind, k) || Swaps(kind, k)
       case EnabledField(k) =>
         ((kind.EffectEnable? || kind.EffectOneShot?) && kind.slot == k) || Reassigns(kind, k) || Swaps(kind, k)
       case EffectField(k) => Reassigns(kind, k) || Swaps(kind, k)
  }

  /** None of the events writes the field of deck `id`. */
  predicate Leaves(rest: seq<Event>, id: DeckId, f: Field) {
    forall i :: 0 <= i < |rest| ==> Target(rest[i].kind) != Some(id) || !Writes(rest[i].kind, f)
  }

  predicate OfSlot(f: Field) {
    f.ParamField? || f.WetDryField? || f.LfoField? || f.EnabledField? || f.EffectField?
  }

  lemma OnlyEffects(s: State, ev: Event, id: DeckId)
    requires Target(ev.kind) == Some(id) && EditsSlot(ev.kind)
    ensures var d := s.DeckOf(id);
            Apply(s, ev).DeckOf(id) == d.(effects := Apply(s, ev).DeckOf(id).effects)
  {
    hide OneShotEnd, OneShotBeat, BoundedLfo, Clamp;
  }

  lemma SwapUnwritten(s: State, ev: Event, id: DeckId, f: Field)
    requires Target(ev.kind) == Some(id) && ev.kind.EffectSwapSlots? && OfSlot(f) && f.slot < 3
    requires !Writes(ev.kind, f)
    ensures SameField(s.DeckOf(id), Apply(s, ev).DeckOf(id), f)
  {
  }

  lemma SlotUnwritten(s: State, ev: Event, id: DeckId, f: Field)
    requires Target(ev.kind) == Some(id) && EditsSlot(ev.kind) && !ev.kind.EffectSwapSlots?
    requires OfSlot(f) && f.slot < 3 && !Writes(ev.kind, f)
    ensures SameField(s.DeckOf(id), Apply(s, ev).DeckOf(id), f)
  {
    hide OneShotEnd, OneShotBeat, BoundedLfo, Clamp;
  }

  lemma KnobUnwritten(s: State, ev: Event, id: DeckId, f: Field)
    requires Target(ev.kind) == Some(id) && !Writes(ev.kind, f) && TurnsKnob(ev.kind)
    ensures SameField(s.DeckOf(id), Apply(s, ev).DeckOf(id), f)
  {
    hide Clamp, ArmBarLoop, PutSlot, SwapSlots, FireOneShot, Loaded, BoundedLfo, OrElse, SaturateI32;
  }

  lemma OnlyLoop(s: State, ev: Event, id: DeckId)
    requires Target(ev.kind) == Some(id) && MovesLoop(ev.kind)
    ensures var d := s.DeckOf(id);
            Apply(s, ev).DeckOf(id) == d.(loop := Apply(s, ev).DeckOf(id).loop)
  {
    hide NextDownbeat, LoopLength;
  }

  lemma LoadUnwritten(s: State, ev: Event, id: DeckId, f: Field)
    requires Target(ev.kind) == Some(id) && !Writes(ev.kind, f) && Loads(ev.kind)
    ensures SameField(s.DeckOf(id), Apply(s, ev).DeckOf(id), f)
  {
  }

  lemma TransportUnwritten(s: State, ev: Event, id: DeckId, f: Field)
    requires Target(ev.kind) == Some(id) && !Writes(ev.kind, f)
    requires !EditsSlot(ev.kind) && !TurnsKnob(ev.kind) && !MovesLoop(ev.kind) && !Loads(ev.kind)
    requires f.PlayingField? || f.PositionField? || f.CueField? || f.CopilotField? || f.HandoffField? || f.PhaseField?
    ensures SameField(s.DeckOf(id), Apply(s, ev).DeckOf(id), f)
  {
    hide Loaded, PutSlot, SwapSlots, FireOneShot, ArmBarLoop, BoundedLfo, Clamp, SaturateI32, OrElse;
  }

  lemma TransportOnly(s: State, ev: Event, id: DeckId)
    requires Target(ev.kind) == Some(id)
    requires !EditsSlot(ev.kind) && !TurnsKnob(ev.kind) && !MovesLoop(ev.kind) && !Loads(ev.kind)
    ensures var d, d' := s.DeckOf(id), Apply(s, ev).DeckOf(id);
            d' == Deck(d.loaded, d'.playing, d'.positionMs, d.tone, d.loop, d'.hotCues, d'.copilotEngaged,
                       d.trackGainDb, d.grid.(phaseOffsetMs := d'.grid.phaseOffsetMs), d.effects,
                       d'.handoffUntilFrame, d.stems)
  {
    hide Loaded, PutSlot, SwapSlots, FireOneShot, ArmBarLoop, BoundedLfo, Clamp, SaturateI32, OrElse;
  }

  lemma Unwritten(s: State, ev: Event, id: DeckId, f: Field)
    requires Target(ev.kind) != Some(id) || !Writes(ev.kind, f)
    ensures SameField(s.DeckOf(id), Apply(s, ev).DeckOf(id), f)
  {
    ApplyIsLocal(s, s, ev);
    if Target(ev.kind) == Some(id) {
      if EditsSlot(ev.kind) {
        OnlyEffects(s, ev, id);
        hide Apply;
        if OfSlot(f) && f.slot < 3 {
          if ev.kind.EffectSwapSlots? { SwapUnwritten(s, ev, id, f); } else { SlotUnwritten(s, ev, id, f); }
        }
      } else {
        hide Apply;
        if TurnsKnob(ev.kind) { KnobUnwritten(s, ev, id, f); }
        else if MovesLoop(ev.kind) { OnlyLoop(s, ev, id); }
        else if Loads(ev.kind) { LoadUnwritten(s, ev, id, f); }
        else {
          TransportOnly(s, ev, id);
          if f.PlayingField? || f.PositionField? || f.CueField? || f.CopilotField? || f.HandoffField? || f.PhaseField? {
            TransportUnwritten(s, ev, id, f);
          }
        }
      }
    }
    hide Apply, Writes;
  }

  /** A field that no event of a log writes is at its end what it was at its start. */
  lemma {:induction false} LeftAlone(s: State, rest: seq<Event>, id: DeckId, f: Field)
    requires Leaves(rest, id, f)
    ensures SameField(s.DeckOf(id), Replay(s, rest).DeckOf(id), f)
  {
    hide Apply, Writes;
    if rest != [] {
      LeftAlone(s, rest[..|rest| - 1], id, f);
      Unwritten(Replay(s, rest[..|rest| - 1]), rest[|rest| - 1], id, f);
    }
  }

  lemma {:induction false} ReplaySplit(s: State, log: seq<Event>, more: seq<Event>)
    ensures Replay(s, log + more) == Replay(Replay(s, log), more)
  {
    hide Apply;
    if more == [] {
      assert log + more == log;
    } else {
      ReplaySplit(s, log, more[..|more| - 1]);
      assert (log + more)[..|log + more| - 1] == log + more[..|more| - 1];
    }
  }

  /** What an event wrote is still there after any events that do not write the field. */
  lemma {:induction false} LastWrite(s: State, log: seq<Event>, ev: Event, rest: seq<Event>, id: DeckId, f: Field)
    requires Leaves(rest, id, f)
    ensures SameField(Apply(Replay(s, log), ev).DeckOf(id), Replay(s, log + [ev] + rest).DeckOf(id), f)
  {
    hide Apply, SameField, Leaves;
    AfterEvent(s, log, ev, rest);
    LeftAlone(Apply(Replay(s, log), ev), rest, id, f);
  }

  lemma {:induction false} AfterEvent(s: State, log: seq<Event>, ev: Event, rest: seq<Event>)
    ensures Replay(s, log + [ev] + rest) == Replay(Apply(Replay(s, log), ev), rest)
  {
    ReplaySplit(s, log + [ev], rest);
    assert (log + [ev])[..|log|] == log;
    hide Apply;
  }

  // ---------------------------------------------------------------- transport

  /** A deck plays if its last play, pause, load or unload was a play. */
  lemma LastPlayPause(s: State, log: seq<Event>, ts: I64, id: DeckId, on: bool, rest: seq<Event>)
    requires forall i :: 0 <= i < |rest| ==>
               var e := rest[i].kind;
               e != DeckPlay(id) && e != DeckPause(id) && e != DeckUnload(id)
               && !((e.DeckLoad? || e.DeckLoadStems?) && e.deck == id)
    ensures var ev := Event(ts, if on then DeckPlay(id) else DeckPause(id));
            var after := Replay(s, log + [ev] + rest);
            (if id == A then after.deckA else after.deckB).playing == on
  {
    var ev := Event(ts, if on then DeckPlay(id) else DeckPause(id));
    LastWrite(s, log, ev, rest, id, PlayingField);
    hide Replay;
  }

  /** The playhead is where the last cue put it. */
  lemma LastCue(s: State, log: seq<Event>, ts: I64, id: DeckId, position: U64, rest: seq<Event>)
    requires forall i :: 0 <= i < |rest| ==>
               var e := rest[i].kind;
               && e != DeckUnload(id)
               && !((e.DeckCue? || e.HotCueTrigger? || e.DeckLoad? || e.DeckLoadStems?) && e.deck == id)
    ensures var after := Replay(s, log + [Event(ts, DeckCue(id, position))] + rest);
            (if id == A then after.deckA else after.deckB).positionMs == position
  {
    LastWrite(s, log, Event(ts, DeckCue(id, position)), rest, id, PositionField);
    hide Replay;
  }

  lemma CueSteps(s: State, ts: I64, id: DeckId, slot: U8, position: U64)
    ensures var d := s.DeckOf(id);
            var stored, jumped := Apply(s, Event(ts, HotCueSet(id, slot, position))),
                                  Apply(s, Event(ts, HotCueTrigger(id, slot)));
            if slot < 8 then
              stored.DeckOf(id).hotCues[slot] == Some(position)
              && jumped.DeckOf(id).positionMs == match d.hotCues[slot] case Some(at) => at case None => d.positionMs
            else stored == s && jumped == s
  {
  }

  /** Triggering a hot cue jumps to where it was last set, while no new track has replaced the cues;
      a slot past the eighth does nothing, either way. */
  lemma HotCueRecalls(s: State, log: seq<Event>, ts: I64, id: DeckId, slot: U8, position: U64, between: seq<Event>,
                      again: I64)
    requires forall i :: 0 <= i < |between| ==>
               var e := between[i].kind;
               && e != DeckUnload(id) && !((e.DeckLoad? || e.DeckLoadStems?) && e.deck == id)
               && !(e.HotCueSet? && e.deck == id && e.slot == slot)
    ensures var before := Replay(s, log + [Event(ts, HotCueSet(id, slot, position))] + between);
            var after := Apply(before, Event(again, HotCueTrigger(id, slot)));
            if slot < 8 then (if id == A then after.deckA else after.deckB).positionMs == position
            else after == before && Apply(before, Event(again, HotCueSet(id, slot, position))) == before
  {
    var first := Event(ts, HotCueSet(id, slot, position));
    LastWrite(s, log, first, between, id, CueField(slot));
    hide Replay, Apply, Leaves, Writes;
    CueSteps(Replay(s, log), ts, id, slot, position);
    CueSteps(Replay(s, log + [first] + between), again, id, slot, position);
  }

  // ---------------------------------------------------------------- tone

  /** Each band is at its own last setting, cut to -26 .. 6 dB. */
  lemma LastEq(s: State, log: seq<Event>, ts: I64, id: DeckId, band: EqBand, db: real, rest: seq<Event>)
    requires forall i :: 0 <= i < |rest| ==>
               var e := rest[i].kind;
               e != DeckUnload(id) && !(e.EqAdjust? && e.deck == id && e.band == band)
    ensures var after := Replay(s, log + [Event(ts, EqAdjust(id, band, db))] + rest);
            var tone := (if id == A then after.deckA else after.deckB).tone;
            (match band case Low => tone.eqLowDb case Mid => tone.eqMidDb case High => tone.eqHighDb)
            == if db < -26.0 then -26.0 else if db > 6.0 then 6.0 else db
  {
    LastWrite(s, log, Event(ts, EqAdjust(id, band, db)), rest, id, EqField(band));
    hide Replay;
  }

  /** Pitch and tempo are at their last setting, cut to an octave and to half and double speed. */
  lemma LastPitch(s: State, log: seq<Event>, ts: I64, id: DeckId, semitones: real, rest: seq<Event>)
    requires forall i :: 0 <= i < |rest| ==>
               var e := rest[i].kind;
               e != DeckUnload(id) && e != PitchTempoReset(id) && !(e.PitchBend? && e.deck == id)
    ensures var after := Replay(s, log + [Event(ts, PitchBend(id, semitones))] + rest);
            (if id == A then after.deckA else after.deckB).tone.pitchSemitones
            == if semitones < -12.0 then -12.0 else if semitones > 12.0 then 12.0 else semitones
  {
    LastWrite(s, log, Event(ts, PitchBend(id, semitones)), rest, id, PitchField);
    hide Replay;
  }

  lemma LastTempo(s: State, log: seq<Event>, ts: I64, id: DeckId, ratio: real, rest: seq<Event>)
    requires forall i :: 0 <= i < |rest| ==>
               var e := rest[i].kind;
               e != DeckUnload(id) && e != PitchTempoReset(id) && !(e.TempoBend? && e.deck == id)
    ensures var after := Replay(s, log + [Event(ts, TempoBend(id, ratio))] + rest);
            (if id == A then after.deckA else after.deckB).tone.tempoRatio
            == if ratio < 0.5 then 0.5 else if ratio > 2.0 then 2.0 else ratio
  {
    LastWrite(s, log, Event(ts, TempoBend(id, ratio)), rest, id, TempoField);
    hide Replay;
  }

  /** A reset puts both back to neutral, until the next bend. */
  lemma LastReset(s: State, log: seq<Event>, ts: I64, id: DeckId, rest: seq<Event>)
    requires forall i :: 0 <= i < |rest| ==>
               rest[i].kind != DeckUnload(id)
               && !((rest[i].kind.PitchBend? || rest[i].kind.TempoBend?) && rest[i].kind.deck == id)
    ensures var after := Replay(s, log + [Event(ts, PitchTempoReset(id))] + rest);
            var tone := (if id == A then after.deckA else after.deckB).tone;
            tone.pitchSemitones == 0.0 && tone.tempoRatio == 1.0
  {
    var ev := Event(ts, PitchTempoReset(id));
    hide Replay, Leaves;
    AfterEvent(s, log, ev, rest);
    ResetStays(Apply(Replay(s, log), ev), rest, id);
  }

  lemma {:induction false} ResetStays(s: State, rest: seq<Event>, id: DeckId)
    requires s.DeckOf(id).tone.pitchSemitones == 0.0 && s.DeckOf(id).tone.tempoRatio == 1.0
    requires forall i :: 0 <= i < |rest| ==>
               rest[i].kind != DeckUnload(id)
               && !((rest[i].kind.PitchBend? || rest[i].kind.TempoBend?) && rest[i].kind.deck == id)
    ensures Replay(s, rest).DeckOf(id).tone.pitchSemitones == 0.0 && Replay(s, rest).DeckOf(id).tone.tempoRatio == 1.0
  {
    if rest != [] {
      var front, last := rest[..|rest| - 1], rest[|rest| - 1];
      ResetStays(s, front, id);
      if last.kind != PitchTempoReset(id) {
        Unwritten(Replay(s, front), last, id, PitchField);
        Unwritten(Replay(s, front), last, id, TempoField);
        hide Apply;
      }
    }
  }

  /** A stem is at its last gain, cut to 0 .. 1, until the next load. */
  lemma LastStemGain(s: State, log: seq<Event>, ts: I64, id: DeckId, stem: U8, gain: real, rest: seq<Event>)
    requires stem < 4
    requires forall i :: 0 <= i < |rest| ==>
               var e := rest[i].kind;
               && e != DeckUnload(id) && !((e.DeckLoad? || e.DeckLoadStems?) && e.deck == id)
               && !(e.SetStemGain? && e.deck == id && e.stem == stem)
    ensures var after := Replay(s, log + [Event(ts, SetStemGain(id, stem, gain))] + rest);
            (if id == A then after.deckA else after.deckB).stems.gains[stem]
            == if gain < 0.0 then 0.0 else if gain > 1.0 then 1.0 else gain
  {
    LastWrite(s, log, Event(ts, SetStemGain(id, stem, gain)), rest, id, StemField(stem));
    hide Replay;
  }

  // ---------------------------------------------------------------- manual loops

  predicate NoLoopEvent(log: seq<Event>, id: DeckId) {
    forall i :: 0 <= i < |log| ==>
      var e := log[i].kind;
      e != DeckUnload(id) && !((e.LoopIn? || e.LoopOut? || e.LoopExit? || e.SetLoopBars?) && e.deck == id)
  }

  lemma LoopPoints(s: State, ts: I64, id: DeckId)
    ensures var d := if id == A then s.deckA else s.deckB;
            && Apply(s, Event(ts, LoopIn(id))).DeckOf(id).loop
               == LoopRegion(Some(d.positionMs), d.loop.outMs, d.loop.active)
            && Apply(s, Event(ts, LoopOut(id))).DeckOf(id).loop
               == LoopRegion(d.loop.inMs, Some(d.positionMs), d.loop.inMs != None)
            && Apply(s, Event(ts, LoopExit(id))).DeckOf(id).loop == LoopRegion(None, None, false)
  {
  }

  lemma LoopStays(s: State, log: seq<Event>, ev: Event, rest: seq<Event>, id: DeckId)
    requires NoLoopEvent(rest, id)
    ensures Replay(s, log + [ev] + rest).DeckOf(id).loop == Apply(Replay(s, log), ev).DeckOf(id).loop
  {
    assert Leaves(rest, id, LoopField);
    LastWrite(s, log, ev, rest, id, LoopField);
    hide Replay, Apply;
  }

  /** Setting a loop's in point and then its out point arms it from where the playhead was at the
      first to where it was at the second, and so it stays until the next loop event. */
  lemma ManualLoop(s: State, log: seq<Event>, ts: I64, id: DeckId, between: seq<Event>, ts2: I64, rest: seq<Event>)
    requires NoLoopEvent(between, id) && NoLoopEvent(rest, id)
    ensures var entry := Replay(s, log);
            var middle := Replay(s, log + [Event(ts, LoopIn(id))] + between);
            var after := Replay(s, log + [Event(ts, LoopIn(id))] + between + [Event(ts2, LoopOut(id))] + rest);
            (if id == A then after.deckA else after.deckB).loop
            == LoopRegion(Some((if id == A then entry.deckA else entry.deckB).positionMs),
                          Some((if id == A then middle.deckA else middle.deckB).positionMs), true)
  {
    hide Replay, Apply, NoLoopEvent;
    var first := log + [Event(ts, LoopIn(id))] + between;
    LoopStays(s, log, Event(ts, LoopIn(id)), between, id);
    LoopStays(s, first, Event(ts2, LoopOut(id)), rest, id);
    LoopPoints(Replay(s, log), ts, id);
    LoopPoints(Replay(s, first), ts2, id);
  }

  /** An out point without an in point arms nothing, and leaving a loop forgets both. */
  lemma LoopEnds(s: State, log: seq<Event>, ts: I64, id: DeckId, rest: seq<Event>)
    requires NoLoopEvent(rest, id)
    ensures var after := Replay(s, log + [Event(ts, LoopExit(id))] + rest);
            (if id == A then after.deckA else after.deckB).loop == LoopRegion(None, None, false)
    ensures var before, after := Replay(s, log), Replay(s, log + [Event(ts, LoopOut(id))] + rest);
            (if id == A then before.deckA else before.deckB).loop.inMs == None
            ==> !(if id == A then after.deckA else after.deckB).loop.active
  {
    hide Replay, Apply, NoLoopEvent;
    LoopStays(s, log, Event(ts, LoopExit(id)), rest, id);
    LoopStays(s, log, Event(ts, LoopOut(id)), rest, id);
    LoopPoints(Replay(s, log), ts, id);
  }

  // ---------------------------------------------------------------- copilot

  lemma CopilotSteps(s: State, ts: I64, id: DeckId, until: U64)
    ensures Apply(s, Event(ts, CopilotEngage(id))).DeckOf(id).copilotEngaged
    ensures !Apply(s, Event(ts, CopilotDisengage(id))).DeckOf(id).copilotEngaged
    ensures var d := Apply(s, Event(ts, TakeOver(id, until))).DeckOf(id);
            !d.copilotEngaged && d.handoffUntilFrame == until
  {
  }

  /** The copilot has a deck if the last word on it was an engage; a take-over also sets the frame up
      to which it fades out. */
  lemma LastCopilot(s: State, log: seq<Event>, ts: I64, id: DeckId, kind: EventKind, rest: seq<Event>)
    requires kind == CopilotEngage(id) || kind == CopilotDisengage(id) || (kind.TakeOver? && kind.deck == id)
    requires forall i :: 0 <= i < |rest| ==>
               var e := rest[i].kind;
               && e != DeckUnload(id) && e != CopilotEngage(id) && e != CopilotDisengage(id)
               && !(e.TakeOver? && e.deck == id)
    ensures var after := Replay(s, log + [Event(ts, kind)] + rest);
            var d := if id == A then after.deckA else after.deckB;
            (d.copilotEngaged <==> kind.CopilotEngage?)
            && (kind.TakeOver? ==> d.handoffUntilFrame == kind.handoffUntilFrame)
  {
    assert Leaves(rest, id, CopilotField) && Leaves(rest, id, HandoffField);
    hide Leaves;
    LastWrite(s, log, Event(ts, kind), rest, id, CopilotField);
    if kind.TakeOver? { LastWrite(s, log, Event(ts, kind), rest, id, HandoffField); }
    hide Replay, Apply;
    CopilotSteps(Replay(s, log), ts, id, if kind.TakeOver? then kind.handoffUntilFrame else 0);
  }

  // ---------------------------------------------------------------- loads and the beat grid

  /** An unload leaves the deck as it was at the start: empty, stopped, neutral, without cues, loop or
      effects. The engine starts with two such decks, the crossfader in the middle, 120 BPM, the
      limiter on just below full scale and ducking off. */
  lemma UnloadEmpties(s: State, ts: I64, id: DeckId)
    ensures var none := EffectSlot(0, map[], 0.0, false, None, None);
            var empty := Deck(None, false, 0, Tone(0.0, 1.0, 0.0, 0.0, 0.0), LoopRegion(None, None, false),
                              [None, None, None, None, None, None, None, None], false, 0.0,
                              BeatGrid(0.0, 0, 0.0, 0, []), [none, none, none], 0, Stems([1.0, 1.0, 1.0, 1.0], false));
            && Apply(s, Event(ts, DeckUnload(id))) == (if id == A then s.(deckA := empty) else s.(deckB := empty))
            && DEFAULT_STATE == State(empty, empty, Master(0.5, Linear, 0.0, false, 120.0, true, -0.5,
                                                           SidechainConfig(false, A, -12.0, 4.0, 5.0, 200.0, 0.0)))
  {
  }

  /** A load starts its track from the top, stopped, with its own grid and cues and all stems up. */
  lemma FreshLoad(s: State, ts: I64, kind: EventKind)
    requires kind.DeckLoad? || kind.DeckLoadStems?
    ensures var after := Apply(s, Event(ts, kind));
            var before := if kind.deck == A then s.deckA else s.deckB;
            var d := if kind.deck == A then after.deckA else after.deckB;
            && d.positionMs == 0 && !d.playing && d.hotCues == kind.hotCues && d.grid.phaseOffsetMs == 0
            && d.stems.gains == [1.0, 1.0, 1.0, 1.0]
            && d.trackGainDb == (if kind.DeckLoad? then kind.trackGainDb else before.trackGainDb)
            && d.tone == before.tone && d.loop == before.loop && d.effects == before.effects
  {
  }

  /** The beat grid is that of the last load, whatever else happens: 120 BPM for a track without a
      tempo, and at most the first 64 downbeats. */
  lemma LastLoad(s: State, log: seq<Event>, ts: I64, kind: EventKind, rest: seq<Event>)
    requires kind.DeckLoad? || kind.DeckLoadStems?
    requires forall i :: 0 <= i < |rest| ==>
               var e := rest[i].kind;
               e != DeckUnload(kind.deck) && !((e.DeckLoad? || e.DeckLoadStems?) && e.deck == kind.deck)
    ensures var after := Replay(s, log + [Event(ts, kind)] + rest);
            var d := if kind.deck == A then after.deckA else after.deckB;
            && d.loaded == Some(kind.track) && (d.stems.mode <==> kind.DeckLoadStems?)
            && d.grid.bpm == (if kind.bpm > 0.0 then kind.bpm else 120.0)
            && d.grid.bpm * d.grid.periodMs == 60000.0 && d.grid.anchorMs == kind.anchorMs
            && d.grid.downbeats == kind.downbeatsMs[..if |kind.downbeatsMs| < 64 then |kind.downbeatsMs| else 64]
  {
    LastWrite(s, log, Event(ts, kind), rest, kind.deck, TrackField);
    LoadedGrid(Replay(s, log), Event(ts, kind));
    hide Replay, Apply;
  }

  lemma LoadedGrid(s: State, ev: Event)
    requires ev.kind.DeckLoad? || ev.kind.DeckLoadStems?
    ensures var d, kind := Apply(s, ev).DeckOf(ev.kind.deck), ev.kind;
            && d.loaded == Some(kind.track) && (d.stems.mode <==> kind.DeckLoadStems?)
            && d.grid.bpm == (if kind.bpm > 0.0 then kind.bpm else 120.0)
            && d.grid.bpm * d.grid.periodMs == 60000.0 && d.grid.anchorMs == kind.anchorMs
            && d.grid.downbeats == kind.downbeatsMs[..if |kind.downbeatsMs| < 64 then |kind.downbeatsMs| else 64]
  {
  }

  /** The nudges a log gives a deck, added up. */
  function Nudged(log: seq<Event>, id: DeckId): int {
    if log == [] then 0
    else
      var last := log[|log| - 1].kind;
      Nudged(log[..|log| - 1], id) + if last.PhaseNudge? && last.deck == id then last.deltaMs else 0
  }

  /** Between loads a deck's phase offset is the sum of its nudges, so long as no partial sum leaves
      32 bits; one nudge too far stops at the end of the range. */
  lemma {:induction false} PhaseAddsUp(s: State, log: seq<Event>, id: DeckId)
    requires forall i :: 0 <= i < |log| ==>
               log[i].kind != DeckUnload(id)
               && !((log[i].kind.DeckLoad? || log[i].kind.DeckLoadStems?) && log[i].kind.deck == id)
    requires var start := (if id == A then s.deckA else s.deckB).grid.phaseOffsetMs;
             forall n :: 0 <= n <= |log| ==> -0x8000_0000 <= start + Nudged(log[..n], id) <= 0x7FFF_FFFF
    ensures var after := Replay(s, log);
            (if id == A then after.deckA else after.deckB).grid.phaseOffsetMs
            == (if id == A then s.deckA else s.deckB).grid.phaseOffsetMs + Nudged(log, id)
  {
    if log != [] {
      var front, last := log[..|log| - 1], log[|log| - 1];
      assert log[..|log|] == log;
      forall n | 0 <= n <= |front| ensures front[..n] == log[..n] {}
      PhaseAddsUp(s, front, id);
      NudgeStep(Replay(s, front), last, id);
      hide Apply;
    }
  }

  lemma NudgeStep(s: State, ev: Event, id: DeckId)
    requires ev.kind != DeckUnload(id)
    requires !((ev.kind.DeckLoad? || ev.kind.DeckLoadStems?) && ev.kind.deck == id)
    ensures var after := Apply(s, ev);
            var p := (if id == A then s.deckA else s.deckB).grid.phaseOffsetMs
                     + if ev.kind.PhaseNudge? && ev.kind.deck == id then ev.kind.deltaMs else 0;
            (if id == A then after.deckA else after.deckB).grid.phaseOffsetMs
            == if p < -0x8000_0000 then -0x8000_0000 else if p > 0x7FFF_FFFF then 0x7FFF_FFFF else p
  {
    if !(ev.kind.PhaseNudge? && ev.kind.deck == id) {
      Unwritten(s, ev, id, PhaseField);
      hide Apply;
    }
  }

  // ---------------------------------------------------------------- effect slots

  /** Assigning an effect starts its slot afresh at half wet and on, clearing empties it, and no effect
      event with a slot number past the third does anything. */
  lemma SlotStartsAfresh(s: State, ts: I64, id: DeckId, slot: U8, effectId: U32)
    ensures var filled, cleared := Apply(s, Event(ts, EffectAssign(id, slot, effectId))),
                                   Apply(s, Event(ts, EffectClear(id, slot)));
            if slot < 3 then
              && (if id == A then filled.deckA else filled.deckB).effects[slot]
                 == EffectSlot(effectId, map[], 0.5, true, None, None)
              && (if id == A then cleared.deckA else cleared.deckB).effects[slot]
                 == EffectSlot(0, map[], 0.0, false, None, None)
            else filled == s && cleared == s
  {
  }

  lemma PastLastSlot(s: State, ts: I64, kind: EventKind)
    requires kind.EffectParam? || kind.EffectWetDry? || kind.EffectEnable? || kind.EffectLfoSet? || kind.EffectLfoClear?
          || kind.EffectOneShot?
    requires kind.slot >= 3
    ensures Apply(s, Event(ts, kind)) == s
  {
  }

  /** No assignment, clearing, swap or unload of slot `k` of the deck. */
  predicate SlotStays(log: seq<Event>, id: DeckId, k: nat) {
    forall i :: 0 <= i < |log| ==>
      var e := log[i].kind;
      && e != DeckUnload(id)
      && !((e.EffectAssign? || e.EffectClear?) && e.deck == id && e.slot == k)
      && !(e.EffectSwapSlots? && e.deck == id
           && (e.slotA == k || e.slotB == k || (k == 2 && (e.slotA > 2 || e.slotB > 2))))
  }

  lemma AssignStep(s: State, ts: I64, id: DeckId, slot: U8, effectId: U32)
    requires slot < 3
    ensures Apply(s, Event(ts, EffectAssign(id, slot, effectId))).DeckOf(id).effects[slot].effectId == effectId
  {
  }

  lemma KnobSteps(s: State, ts: I64, id: DeckId, slot: U8, param: string, value: real)
    requires slot < 3
    ensures var params := Apply(s, Event(ts, EffectParam(id, slot, param, value))).DeckOf(id).effects[slot].params;
            param in params && params[param] == value
    ensures Apply(s, Event(ts, EffectWetDry(id, slot, value))).DeckOf(id).effects[slot].wetDry
         == if value < 0.0 then 0.0 else if value > 1.0 then 1.0 else value
  {
  }

  lemma SwitchSteps(s: State, ts: I64, id: DeckId, slot: U8, on: bool)
    requires slot < 3
    ensures Apply(s, Event(ts, EffectEnable(id, slot, on))).DeckOf(id).effects[slot].enabled == on
    ensures Apply(s, Event(ts, EffectLfoClear(id, slot))).DeckOf(id).effects[slot].lfo == None
  {
  }

  lemma LastEffect(s: State, log: seq<Event>, ts: I64, id: DeckId, slot: U8, effectId: U32, rest: seq<Event>)
    requires slot < 3 && SlotStays(rest, id, slot)
    ensures var after := Replay(s, log + [Event(ts, EffectAssign(id, slot, effectId))] + rest);
            (if id == A then after.deckA else after.deckB).effects[slot].effectId == effectId
  {
    assert Leaves(rest, id, EffectField(slot));
    hide Leaves, SlotStays;
    LastWrite(s, log, Event(ts, EffectAssign(id, slot, effectId)), rest, id, EffectField(slot));
    hide Replay, Apply;
    AssignStep(Replay(s, log), ts, id, slot, effectId);
  }

  /** While the effect stays in its slot, each knob of it is where it was last put. */
  lemma LastParam(s: State, log: seq<Event>, ts: I64, id: DeckId, slot: U8, param: string, value: real,
                  rest: seq<Event>)
    requires slot < 3 && SlotStays(rest, id, slot)
    requires forall i :: 0 <= i < |rest| ==>
               var e := rest[i].kind;
               !(e.EffectParam? && e.deck == id && e.slot == slot && e.param == param)
    ensures var after := Replay(s, log + [Event(ts, EffectParam(id, slot, param, value))] + rest);
            var params := (if id == A then after.deckA else after.deckB).effects[slot].params;
            param in params && params[param] == value
  {
    assert Leaves(rest, id, ParamField(slot, param));
    hide Leaves, SlotStays;
    LastWrite(s, log, Event(ts, EffectParam(id, slot, param, value)), rest, id, ParamField(slot, param));
    hide Replay, Apply;
    KnobSteps(Replay(s, log), ts, id, slot, param, value);
  }

  lemma LastWetDry(s: State, log: seq<Event>, ts: I64, id: DeckId, slot: U8, value: real, rest: seq<Event>)
    requires slot < 3 && SlotStays(rest, id, slot)
    requires forall i :: 0 <= i < |rest| ==>
               var e := rest[i].kind; !(e.EffectWetDry? && e.deck == id && e.slot == slot)
    ensures var after := Replay(s, log + [Event(ts, EffectWetDry(id, slot, value))] + rest);
            (if id == A then after.deckA else after.deckB).effects[slot].wetDry
            == if value < 0.0 then 0.0 else if value > 1.0 then 1.0 else value
  {
    assert Leaves(rest, id, WetDryField(slot));
    hide Leaves, SlotStays;
    LastWrite(s, log, Event(ts, EffectWetDry(id, slot, value)), rest, id, WetDryField(slot));
    hide Replay, Apply;
    KnobSteps(Replay(s, log), ts, id, slot, "", value);
  }

  lemma LastEnable(s: State, log: seq<Event>, ts: I64, id: DeckId, slot: U8, on: bool, rest: seq<Event>)
    requires slot < 3 && SlotStays(rest, id, slot)
    requires forall i :: 0 <= i < |rest| ==>
               var e := rest[i].kind; !((e.EffectEnable? || e.EffectOneShot?) && e.deck == id && e.slot == slot)
    ensures var after := Replay(s, log + [Event(ts, EffectEnable(id, slot, on))] + rest);
            (if id == A then after.deckA else after.deckB).effects[slot].enabled == on
  {
    assert Leaves(rest, id, EnabledField(slot));
    hide Leaves, SlotStays;
    LastWrite(s, log, Event(ts, EffectEnable(id, slot, on)), rest, id, EnabledField(slot));
    hide Replay, Apply;
    SwitchSteps(Replay(s, log), ts, id, slot, on);
  }

  /** The LFO is the one last attached, its depth cut to 0 .. 1 and its target to the last parameter
      the slot's effect has: three for filter, echo and reverb, two for the gate, else none. */
  lemma LastLfo(s: State, log: seq<Event>, ts: I64, id: DeckId, slot: U8, config: LfoConfig, rest: seq<Event>)
    requires slot < 3 && SlotStays(rest, id, slot)
    requires forall i :: 0 <= i < |rest| ==>
               var e := rest[i].kind; !((e.EffectLfoSet? || e.EffectLfoClear?) && e.deck == id && e.slot == slot)
    ensures var before, after := Replay(s, log), Replay(s, log + [Event(ts, EffectLfoSet(id, slot, config))] + rest);
            var effect := (if id == A then before.deckA else before.deckB).effects[slot].effectId;
            var count := if 1 <= effect <= 3 then 3 else if effect == 4 then 2 else 0;
            (if id == A then after.deckA else after.deckB).effects[slot].lfo
            == Some(LfoConfig(config.shape, config.rateDiv,
                              if config.depth < 0.0 then 0.0 else if config.depth > 1.0 then 1.0 else config.depth,
                              if config.targetParam < count then config.targetParam
                              else if count == 0 then 0 else count - 1))
  {
    LfoStays(s, log, Event(ts, EffectLfoSet(id, slot, config)), rest, id, slot);
    LfoSteps(Replay(s, log), ts, id, slot, config);
    hide Replay, Apply, SlotStays;
  }

  lemma NoLfo(s: State, log: seq<Event>, ts: I64, id: DeckId, slot: U8, rest: seq<Event>)
    requires slot < 3 && SlotStays(rest, id, slot)
    requires forall i :: 0 <= i < |rest| ==>
               var e := rest[i].kind; !((e.EffectLfoSet? || e.EffectLfoClear?) && e.deck == id && e.slot == slot)
    ensures var after := Replay(s, log + [Event(ts, EffectLfoClear(id, slot))] + rest);
            (if id == A then after.deckA else after.deckB).effects[slot].lfo == None
  {
    LfoStays(s, log, Event(ts, EffectLfoClear(id, slot)), rest, id, slot);
    hide Replay, Apply, SlotStays;
    SwitchSteps(Replay(s, log), ts, id, slot, false);
  }

  lemma LfoStays(s: State, log: seq<Event>, ev: Event, rest: seq<Event>, id: DeckId, slot: U8)
    requires slot < 3 && SlotStays(rest, id, slot)
    requires forall i :: 0 <= i < |rest| ==>
               var e := rest[i].kind; !((e.EffectLfoSet? || e.EffectLfoClear?) && e.deck == id && e.slot == slot)
    ensures Replay(s, log + [ev] + rest).DeckOf(id).effects[slot].lfo
         == Apply(Replay(s, log), ev).DeckOf(id).effects[slot].lfo
  {
    assert Leaves(rest, id, LfoField(slot));
    hide Leaves, SlotStays;
    LastWrite(s, log, ev, rest, id, LfoField(slot));
    hide Replay, Apply;
  }

  lemma LfoSteps(s: State, ts: I64, id: DeckId, slot: U8, config: LfoConfig)
    requires slot < 3
    ensures var effect := s.DeckOf(id).effects[slot].effectId;
            var count := if 1 <= effect <= 3 then 3 else if effect == 4 then 2 else 0;
            Apply(s, Event(ts, EffectLfoSet(id, slot, config))).DeckOf(id).effects[slot].lfo
            == Some(LfoConfig(config.shape, config.rateDiv,
                              if config.depth < 0.0 then 0.0 else if config.depth > 1.0 then 1.0 else config.depth,
                              if config.targetParam < count then config.targetParam
                              else if count == 0 then 0 else count - 1))
  {
  }

  /** Swapping exchanges two slots, numbers past the third counting as the third, and swapping again
      puts them back. */
  lemma SwapExchanges(s: State, ts: I64, id: DeckId, slotA: U8, slotB: U8, again: I64)
    ensures var after := Apply(s, Event(ts, EffectSwapSlots(id, slotA, slotB)));
            var before, swapped := (if id == A then s.deckA else s.deckB).effects,
                                   (if id == A then after.deckA else after.deckB).effects;
            var a, b := if slotA < 2 then slotA else 2, if slotB < 2 then slotB else 2;
            && swapped[a] == before[b] && swapped[b] == before[a]
            && (forall k :: 0 <= k < 3 && k != a && k != b ==> swapped[k] == before[k])
    ensures var swap := EffectSwapSlots(id, slotA, slotB);
            Apply(Apply(s, Event(ts, swap)), Event(again, swap)) == s
  {
    SwapTwice(s.DeckOf(id), slotA, slotB);
  }

  lemma SwapTwice(d: Deck, slotA: U8, slotB: U8)
    ensures SwapSlots(SwapSlots(d, slotA, slotB), slotA, slotB) == d
  {
    assert SwapSlots(SwapSlots(d, slotA, slotB), slotA, slotB).effects == d.effects;
  }

  // ---------------------------------------------------------------- the master section

  datatype MasterField = FaderField | CurveField | SessionField | BpmField | LimiterField | ThresholdField
                       | DuckField | DuckParamsField

  predicate SameMaster(m: Master, m': Master, f: MasterField) {
    match f
    case FaderField => m'.crossfader == m.crossfader
    case CurveField => m'.curve == m.curve
    case SessionField => m'.sessionActive == m.sessionActive
    case BpmField => m'.bpm == m.bpm
    case LimiterField => m'.limiterEnabled == m.limiterEnabled
    case ThresholdField => m'.limiterThresholdDb == m.limiterThresholdDb
    case DuckField => m'.sidechain.enabled == m.sidechain.enabled
    case DuckParamsField => m'.sidechain == m.sidechain.(enabled := m'.sidechain.enabled)
  }

  predicate WritesMaster(kind: EventKind, f: MasterField) {
    match f
    case FaderField => kind.Crossfader?
    case CurveField => kind.SetCrossfaderCurve?
    case SessionField => kind.SessionStart? || kind.SessionEnd?
    case BpmField => kind.SetMasterBpm? && kind.bpm > 0.0
    case LimiterField => kind.SetMasterLimiterEnabled?
    case ThresholdField => kind.SetMasterLimiterThreshold?
    case DuckField => kind.SetSidechainEnabled?
    case DuckParamsField => kind.SetSidechainParams?
  }

  lemma MasterUnwritten(s: State, ev: Event, f: MasterField)
    requires !WritesMaster(ev.kind, f)
    ensures SameMaster(s.master, Apply(s, ev).master, f)
  {
    ApplyIsLocal(s, s, ev);
    if Target(ev.kind) != None { hide Apply, WritesMaster; }
  }

  lemma {:induction false} MasterLeftAlone(s: State, rest: seq<Event>, f: MasterField)
    requires forall i :: 0 <= i < |rest| ==> !WritesMaster(rest[i].kind, f)
    ensures SameMaster(s.master, Replay(s, rest).master, f)
  {
    hide Apply, WritesMaster;
    if rest != [] {
      MasterLeftAlone(s, rest[..|rest| - 1], f);
      MasterUnwritten(Replay(s, rest[..|rest| - 1]), rest[|rest| - 1], f);
    }
  }

  lemma {:induction false} LastMasterWrite(s: State, log: seq<Event>, ev: Event, rest: seq<Event>, f: MasterField)
    requires forall i :: 0 <= i < |rest| ==> !WritesMaster(rest[i].kind, f)
    ensures SameMaster(Apply(Replay(s, log), ev).master, Replay(s, log + [ev] + rest).master, f)
  {
    hide Apply, SameMaster, WritesMaster;
    AfterEvent(s, log, ev, rest);
    MasterLeftAlone(Apply(Replay(s, log), ev), rest, f);
  }

  /** The crossfader is where it was last moved to, between full A at 0 and full B at 1. */
  lemma LastCrossfader(s: State, log: seq<Event>, ts: I64, value: real, rest: seq<Event>)
    requires forall i :: 0 <= i < |rest| ==> !rest[i].kind.Crossfader?
    ensures Replay(s, log + [Event(ts, Crossfader(value))] + rest).master.crossfader
         == if value < 0.0 then 0.0 else if value > 1.0 then 1.0 else value
  {
    LastMasterWrite(s, log, Event(ts, Crossfader(value)), rest, FaderField);
    hide Replay;
  }

  lemma LastCurve(s: State, log: seq<Event>, ts: I64, curve: CrossfaderCurve, rest: seq<Event>)
    requires forall i :: 0 <= i < |rest| ==> !rest[i].kind.SetCrossfaderCurve?
    ensures Replay(s, log + [Event(ts, SetCrossfaderCurve(curve))] + rest).master.curve == curve
  {
    LastMasterWrite(s, log, Event(ts, SetCrossfaderCurve(curve)), rest, CurveField);
    hide Replay;
  }

  lemma SessionSteps(s: State, ts: I64, on: bool)
    ensures Apply(s, Event(ts, if on then SessionStart else SessionEnd)).master.sessionActive == on
  {
  }

  /** A session runs from its start to its end. */
  lemma LastSession(s: State, log: seq<Event>, ts: I64, on: bool, rest: seq<Event>)
    requires forall i :: 0 <= i < |rest| ==> rest[i].kind != SessionStart && rest[i].kind != SessionEnd
    ensures Replay(s, log + [Event(ts, if on then SessionStart else SessionEnd)] + rest).master.sessionActive == on
  {
    LastMasterWrite(s, log, Event(ts, if on then SessionStart else SessionEnd), rest, SessionField);
    hide Replay, Apply;
    SessionSteps(Replay(s, log), ts, on);
  }

  /** The session tempo is the last positive one asked for. */
  lemma LastMasterBpm(s: State, log: seq<Event>, ts: I64, bpm: real, rest: seq<Event>)
    requires bpm > 0.0 && forall i :: 0 <= i < |rest| ==> !(rest[i].kind.SetMasterBpm? && rest[i].kind.bpm > 0.0)
    ensures Replay(s, log + [Event(ts, SetMasterBpm(bpm))] + rest).master.bpm == bpm
  {
    LastMasterWrite(s, log, Event(ts, SetMasterBpm(bpm)), rest, BpmField);
    hide Replay;
  }

  lemma LastLimiter(s: State, log: seq<Event>, ts: I64, on: bool, rest: seq<Event>)
    requires forall i :: 0 <= i < |rest| ==> !rest[i].kind.SetMasterLimiterEnabled?
    ensures Replay(s, log + [Event(ts, SetMasterLimiterEnabled(on))] + rest).master.limiterEnabled == on
  {
    LastMasterWrite(s, log, Event(ts, SetMasterLimiterEnabled(on)), rest, LimiterField);
    hide Replay;
  }

  lemma LastLimiterThreshold(s: State, log: seq<Event>, ts: I64, db: real, rest: seq<Event>)
    requires forall i :: 0 <= i < |rest| ==> !rest[i].kind.SetMasterLimiterThreshold?
    ensures Replay(s, log + [Event(ts, SetMasterLimiterThreshold(db))] + rest).master.limiterThresholdDb
         == if db < -24.0 then -24.0 else if db > 0.0 then 0.0 else db
  {
    LastMasterWrite(s, log, Event(ts, SetMasterLimiterThreshold(db)), rest, ThresholdField);
    hide Replay;
  }

  lemma LastSidechainSwitch(s: State, log: seq<Event>, ts: I64, on: bool, rest: seq<Event>)
    requires forall i :: 0 <= i < |rest| ==> !rest[i].kind.SetSidechainEnabled?
    ensures Replay(s, log + [Event(ts, SetSidechainEnabled(on))] + rest).master.sidechain.enabled == on
  {
    LastMasterWrite(s, log, Event(ts, SetSidechainEnabled(on)), rest, DuckField);
    hide Replay;
  }

  /** Of the ducking parameters an event gives some; those are cut to their ranges, the others keep
      what they were. */
  lemma LastSidechainParams(s: State, log: seq<Event>, ts: I64, kind: EventKind, rest: seq<Event>)
    requires kind.SetSidechainParams? && forall i :: 0 <= i < |rest| ==> !rest[i].kind.SetSidechainParams?
    ensures var was, now := Replay(s, log).master.sidechain,
                              Replay(s, log + [Event(ts, kind)] + rest).master.sidechain;
            && now.triggerDeck == (if kind.triggerDeck.Some? then kind.triggerDeck.value else was.triggerDeck)
            && now.thresholdDb == Given(kind.scThresholdDb, -60.0, 0.0, was.thresholdDb)
            && now.ratio == Given(kind.scRatio, 1.0, 20.0, was.ratio)
            && now.attackMs == Given(kind.attackMs, 0.1, 100.0, was.attackMs)
            && now.releaseMs == Given(kind.releaseMs, 10.0, 2000.0, was.releaseMs)
            && now.makeupGainDb == Given(kind.makeupGainDb, 0.0, 24.0, was.makeupGainDb)
  {
    LastMasterWrite(s, log, Event(ts, kind), rest, DuckParamsField);
    hide Replay;
  }

  /** The value given, cut to its range, or the one before. */
  function Given(v: Option<real>, lo: real, hi: real, before: real): (r: real)
    requires lo <= hi
    ensures v == None ==> r == before
    ensures v.Some? && lo <= v.value <= hi ==> r == v.value
    ensures v.Some? && v.value < lo ==> r == lo
    ensures v.Some? && v.value > hi ==> r == hi
  {
    match v
    case None => before
    case Some(x) => if x < lo then lo else if x > hi then hi else x
  }
}
