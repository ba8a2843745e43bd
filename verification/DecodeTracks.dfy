/** What the handles of `engine/src/audio/decode.rs` deliver, told by the packets their `open` was
    given: the ring protocol judges a handle by its generation's stream, this module says which
    `open` of the run that is and where every sample of its packets turns up. */
module DecodeTracks {
  import opened Wrappers
  import opened DecodeSlots
  import opened DecodeRing

  // ---------------------------------------------------------------- which open a generation is

  function Spawns(steps: seq<Step>): nat {
    if steps == [] then 0
    else Spawns(steps[..|steps| - 1]) + if steps[|steps| - 1].OpenSpawn? then 1 else 0
  }

  /** The `g`-th decoder to be spawned is that of the `open` of this slot with these packets. */
  ghost predicate OpenedAt(steps: seq<Step>, g: nat, slot: nat, packets: seq<Frames>, c: nat, s: nat) {
    && c < s < |steps| && steps[c] == OpenClaim(slot, packets) && steps[s] == OpenSpawn
    && (forall j :: c < j < s ==> !steps[j].OpenClaim?) && Spawns(steps[..s]) == g
  }

  ghost predicate OpenedWith(steps: seq<Step>, g: nat, slot: nat, packets: seq<Frames>) {
    exists c, s :: OpenedAt(steps, g, slot, packets, c, s)
  }

  lemma {:induction false} RunLast(m: Machine, steps: seq<Step>, m': Machine) returns (mid: Machine)
    requires IsRun(m, steps, m') && steps != []
    ensures IsRun(m, steps[..|steps| - 1], mid)
    ensures Placed(mid) && Enabled(mid, steps[|steps| - 1]) && m' == Next(mid, steps[|steps| - 1])
    decreases |steps|
  {
    hide Next, Enabled, Placed;
    var front := steps[..|steps| - 1];
    if |steps| == 1 {
      mid := m;
      assert front == [] && steps[1..] == [];
    } else {
      mid := RunLast(Next(m, steps[0]), steps[1..], m');
      assert front[1..] == steps[1..][..|steps| - 2] && front[0] == steps[0];
    }
  }

  predicate Opening(c: ControlPc) { c.AtReset? || c.AtDrain? || c.AtSource? }

  /** What the history of generations looks at, after a step other than of the control thread. */
  lemma OthersLeaveControl(m: Machine, s: Step)
    requires Placed(m) && Enabled(m, s) && (s.DecoderStep? || s.DecoderFails? || s.ReadBegin? || s.ReadStep?)
    ensures var m' := Next(m, s);
            && m'.control == m.control && m'.nextThread == m.nextThread
            && m'.streams == m.streams && m'.handles == m.handles
  {
    match s
    case DecoderStep(t) =>
      DecoderFrame(m, t);
      hide DecoderStepped;
    case ReadStep =>
      ReadFrame(m);
      hide ReadStepped;
    case _ =>
  }

  lemma ControlHistory(m: Machine)
    requires Placed(m) && Enabled(m, ControlStep)
    ensures var m' := Next(m, ControlStep);
            && m'.nextThread == m.nextThread && m'.streams == m.streams
            && (Opening(m'.control) ==> Opening(m.control) && m'.control.packets == m.control.packets
                                        && m'.control.slot == m.control.slot)
            && !m'.control.AtStore?
            && m'.handles == if m.control.AtStore? then m.handles[m.control.thread := m.control.slot] else m.handles
  {
  }

  lemma OpeningFrom(m: Machine, s: Step)
    requires Placed(m) && Enabled(m, s) && Opening(Next(m, s).control)
    ensures var c := Next(m, s).control;
            if s.OpenClaim? then c.slot == s.slot && c.packets == s.packets
            else Opening(m.control) && c.slot == m.control.slot && c.packets == m.control.packets
  {
    if s.ControlStep? { ControlHistory(m); }
    if s.DecoderStep? || s.DecoderFails? || s.ReadBegin? || s.ReadStep? { OthersLeaveControl(m, s); }
    hide ControlStepped, DecoderStepped, ReadStepped, Stream;
  }

  /** The history of generations: one more with each spawn, its handle out once the join handle is stored. */
  lemma GenerationsFrom(m: Machine, s: Step)
    requires Placed(m) && Enabled(m, s)
    ensures var m' := Next(m, s);
            && m'.nextThread == m.nextThread + (if s.OpenSpawn? then 1 else 0)
            && (m'.streams == if s.OpenSpawn? then m.streams[m.nextThread := Stream(m.control.packets)] else m.streams)
            && (m'.control.AtStore? ==>
                  if s.OpenSpawn? then m'.control == AtStore(m.control.slot, m.nextThread) else m'.control == m.control)
            && (m'.handles == if m.control.AtStore? && s.ControlStep?
                              then m.handles[m.control.thread := m.control.slot] else m.handles)
  {
    if s.ControlStep? { ControlHistory(m); }
    if s.DecoderStep? || s.DecoderFails? || s.ReadBegin? || s.ReadStep? { OthersLeaveControl(m, s); }
    hide ControlStepped, DecoderStepped, ReadStepped, Stream;
  }

  lemma {:induction false} ClaimedAs(steps: seq<Step>, m: Machine) returns (c: nat)
    requires IsRun(START, steps, m) && Opening(m.control)
    ensures c < |steps| && steps[c] == OpenClaim(m.control.slot, m.control.packets)
    ensures forall j :: c < j < |steps| ==> !steps[j].OpenClaim?
  {
    hide Next, Enabled, Placed;
    if steps == [] {
      assert false;
    } else {
      var mid := RunLast(START, steps, m);
      hide IsRun;
      c := |steps| - 1;
      OpeningFrom(mid, steps[c]);
      if !steps[c].OpenClaim? { c := ClaimedAs(steps[..|steps| - 1], mid); }
    }
  }

  /** Generations are numbered by their spawns, and no handle is out before its spawn. */
  lemma {:induction false} Generations(steps: seq<Step>, m: Machine)
    requires IsRun(START, steps, m)
    ensures m.nextThread == Spawns(steps) && forall g :: g in m.streams <==> 0 <= g < m.nextThread
    ensures forall g :: g in m.handles ==> g < m.nextThread
    ensures m.control.AtStore? ==> m.control.thread < m.nextThread
  {
    hide Next, Enabled, Placed;
    if steps != [] {
      var mid := RunLast(START, steps, m);
      hide IsRun;
      Generations(steps[..|steps| - 1], mid);
      GenerationsFrom(mid, steps[|steps| - 1]);
      hide Stream;
    }
  }

  lemma OpenedLater(steps: seq<Step>, s: Step, g: nat, slot: nat, packets: seq<Frames>)
    requires OpenedWith(steps, g, slot, packets)
    ensures OpenedWith(steps + [s], g, slot, packets)
  {
    var c: nat, k: nat :| OpenedAt(steps, g, slot, packets, c, k);
    assert (steps + [s])[..k] == steps[..k];
    assert OpenedAt(steps + [s], g, slot, packets, c, k);
  }

  /** The `open` a generation's stream comes from, and the slot its handle refers to. */
  lemma {:induction false} OpenedBy(steps: seq<Step>, m: Machine, g: nat) returns (slot: nat, packets: seq<Frames>)
    requires IsRun(START, steps, m) && g in m.streams
    ensures OpenedWith(steps, g, slot, packets) && m.streams[g] == Stream(packets)
    ensures g in m.handles ==> m.handles[g] == slot
    ensures m.control.AtStore? && m.control.thread == g ==> m.control.slot == slot
  {
    hide Next, Enabled, Placed, Stream;
    if steps == [] {
      assert false;
    } else {
      var mid := RunLast(START, steps, m);
      hide IsRun;
      var n := |steps| - 1;
      var front, last := steps[..n], steps[n];
      assert steps == front + [last];
      Generations(front, mid);
      GenerationsFrom(mid, last);
      if g in mid.streams {
        slot, packets := OpenedBy(front, mid, g);
        OpenedLater(front, last, g, slot, packets);
      } else {
        assert Enabled(mid, OpenSpawn) ==> mid.control.AtSource? by { SpawnsAtSource(mid); }
        slot, packets := mid.control.slot, mid.control.packets;
        var c := ClaimedAs(front, mid);
        assert OpenedAt(steps, g, slot, packets, c, n);
      }
    }
  }

  lemma SpawnsAtSource(m: Machine)
    ensures Enabled(m, OpenSpawn) ==> m.control.AtSource?
  {
  }

  // ---------------------------------------------------------------- what a handle plays

  /** The two samples of frame `k` of packet `p` stand where the frames before leave off, so far as
      the samples reach. */
  ghost predicate PlaysFrame(s: seq<Sample>, g: nat, packets: seq<Frames>, p: nat, k: nat)
    requires p < |packets| && k < |packets[p].0| && k < |packets[p].1|
  {
    var at := 2 * (TotalFrames(packets[..p]) + k);
    && (at < |s| ==> s[at] == Sample(packets[p].0[k], g, at))
    && (at + 1 < |s| ==> s[at + 1] == Sample(packets[p].1[k], g, at + 1))
  }

  /** The samples are those of the packets from the first on: every frame in packet order, left
      before right, none missing, repeated or foreign. */
  ghost predicate Plays(s: seq<Sample>, g: nat, packets: seq<Frames>) {
    && |s| <= 2 * TotalFrames(packets)
    && forall p: nat, k: nat :: p < |packets| && k < |packets[p].0| && k < |packets[p].1| ==>
                                  PlaysFrame(s, g, packets, p, k)
  }

  lemma {:induction false} PlaysStream(s: seq<Sample>, g: nat, packets: seq<Frames>)
    ensures Plays(s, g, packets) <==> Numbered(s, Stream(packets), g)
  {
    StreamLength(packets);
    hide Stream, TotalFrames;
    if Numbered(s, Stream(packets), g) {
      forall p: nat, k: nat | p < |packets| && k < |packets[p].0| && k < |packets[p].1|
        ensures PlaysFrame(s, g, packets, p, k)
      {
        StreamAt(packets, p, k);
      }
    }
    if Plays(s, g, packets) {
      forall n | 0 <= n < |s| ensures s[n] == Sample(Stream(packets)[n], g, n) {
        var p, k := FrameAt(packets, n / 2);
        assert PlaysFrame(s, g, packets, p, k);
        StreamAt(packets, p, k);
      }
    }
  }

  /** Every sample any handle delivers is one of the packets of the `open` whose generation it
      bears, at its place in them. */
  lemma {:induction false} DeliveredFromPackets(steps: seq<Step>, m: Machine, h: nat, i: nat)
      returns (slot: nat, packets: seq<Frames>, p: nat, k: nat)
    requires IsRun(START, steps, m) && i < |Got(m, h)|
    ensures OpenedWith(steps, Got(m, h)[i].gen, slot, packets)
    ensures p < |packets| && k < |packets[p].0| && k < |packets[p].1|
    ensures var s, at := Got(m, h)[i], 2 * (TotalFrames(packets[..p]) + k);
            (s.index == at && s.value == packets[p].0[k]) || (s.index == at + 1 && s.value == packets[p].1[k])
  {
    DeliveredInOrder(steps, m, h);
    hide IsRun, Got, Stream;
    var s := Got(m, h)[i];
    assert s in Got(m, h);
    slot, packets := OpenedBy(steps, m, s.gen);
    StreamLength(packets);
    p, k := FrameAt(packets, s.index / 2);
    StreamAt(packets, p, k);
  }

  /** What a handle has delivered is its own track, from the first frame of the first packet on, if
      and only if each of its pops found its own track in the slot, and nobody else had taken a
      sample of that track before. */
  lemma {:induction false} DeliveredPlaysIff(steps: seq<Step>, m: Machine, h: nat)
      returns (slot: nat, packets: seq<Frames>)
    requires IsRun(START, steps, m) && h in m.streams
    ensures OpenedWith(steps, h, slot, packets) && (h in m.handles ==> m.handles[h] == slot)
    ensures Plays(Got(m, h), h, packets) <==> NeverForeign(m.removals, h) && NeverRobbed(m.removals, h)
  {
    DeliveredIsPrefix(steps, m, h);
    hide IsRun, Got, Stream, Plays, Numbered;
    slot, packets := OpenedBy(steps, m, h);
    PlaysStream(Got(m, h), h, packets);
  }

  /** While a handle is open, what has left its ring and then what is in it is its track from the
      start; all of the track once the decoder has ended well. */
  lemma {:induction false} OpenRingHoldsTrack(steps: seq<Step>, m: Machine, i: nat, g: nat)
      returns (slot: nat, packets: seq<Frames>)
    requires IsRun(START, steps, m) && InSlot(m, i) && m.rings[i].gen == Some(g) && !m.rings[i].shutdown
    ensures OpenedWith(steps, g, slot, packets) && Plays(Of(m.removals, g) + m.rings[i].queue, g, packets)
    ensures g !in m.threads && g !in m.cut ==> |Of(m.removals, g) + m.rings[i].queue| == 2 * TotalFrames(packets)
  {
    OpenHandleLosesNothing(steps, m, i, g);
    hide IsRun, Of, Got, Stream, Plays;
    slot, packets := OpenedBy(steps, m, g);
    PlaysStream(Of(m.removals, g) + m.rings[i].queue, g, packets);
    StreamLength(packets);
  }

  /** When callers take turns every handle plays its own track from the start, before and after its
      close; and while it is open, a track whose decoder has ended well and whose ring is empty has
      been played to its last frame. */
  lemma {:induction false} InTurnPlays(steps: seq<Step>, m: Machine, h: nat) returns (slot: nat, packets: seq<Frames>)
    requires IsRunInTurn(START, steps, m) && h in m.streams
    ensures OpenedWith(steps, h, slot, packets) && (h in m.handles ==> m.handles[h] == slot)
    ensures Plays(Got(m, h), h, packets)
    ensures forall i :: 0 <= i < |m.rings| && m.rings[i].gen == Some(h) && !m.rings[i].shutdown
                        && m.rings[i].queue == [] && h !in m.threads && h !in m.cut
                        ==> |Got(m, h)| == 2 * TotalFrames(packets)
  {
    InTurnIsPolite(steps, m, h);
    DeliveredIsPrefix(steps, m, h);
    InTurnDeliversPrefix(steps, m, h);
    hide IsRun, IsRunInTurn, Got, Stream, Plays;
    slot, packets := OpenedBy(steps, m, h);
    PlaysStream(Got(m, h), h, packets);
    StreamLength(packets);
  }

  // ---------------------------------------------------------------- a read by itself

  lemma ReadTakesOne(m: Machine)
    requires Placed(m) && m.audio.Popping? && |m.audio.out| < m.audio.want && m.rings[m.audio.slot].queue != []
    ensures var m', a := Next(m, ReadStep), m.audio;
            var ring := m.rings[a.slot];
            && m'.audio == a.(out := a.out + [ring.queue[0]])
            && m'.underruns == m.underruns && m'.finished == m.finished
            && m'.rings == m.rings[a.slot := ring.(queue := ring.queue[1..])]
  {
  }

  lemma ReadReturns(m: Machine)
    requires Placed(m) && m.audio.Popping? && |m.audio.out| <= m.audio.want
    requires |m.audio.out| == m.audio.want || m.rings[m.audio.slot].queue == []
    ensures var m', a := Next(m, ReadStep), m.audio;
            && m'.audio == Silent && m'.rings == m.rings && |m'.finished| == |m.finished| + 1
            && m'.finished[|m.finished|].gen == a.gen && m'.finished[|m.finished|].popped == a.out
            && m'.underruns == m.underruns + if |a.out| < a.want then 1 else 0
  {
  }

  lemma ReadTail(m: Machine, n: nat, m': Machine)
    requires IsRun(m, seq(n + 1, _ => ReadStep), m') && Placed(m) && m.audio.Popping?
    ensures if n == 0 then m' == Next(m, ReadStep)
            else Placed(Next(m, ReadStep)) && IsRun(Next(m, ReadStep), seq(n, _ => ReadStep), m')
  {
    var steps := seq(n + 1, _ => ReadStep);
    assert steps[0] == ReadStep && steps[1..] == seq(n, _ => ReadStep);
    hide Next;
  }

  /** The read has come back with `n` samples more, taken from its slot's ring in order. */
  ghost predicate ReadBack(m: Machine, n: nat, m': Machine)
    requires m.audio.Popping? && InSlot(m, m.audio.slot) && n <= |m.rings[m.audio.slot].queue|
  {
    var a, ring := m.audio, m.rings[m.audio.slot];
    && m'.audio == Silent && |m'.finished| == |m.finished| + 1
    && m'.finished[|m.finished|].gen == a.gen && m'.finished[|m.finished|].popped == a.out + ring.queue[..n]
    && m'.rings == m.rings[a.slot := ring.(queue := ring.queue[n..])]
    && m'.underruns == m.underruns + if |a.out| + n < a.want then 1 else 0
  }

  lemma ReadsOneMore(m: Machine, next: Machine, n: nat, m': Machine)
    requires m.audio.Popping? && InSlot(m, m.audio.slot) && n < |m.rings[m.audio.slot].queue|
    requires var a, ring := m.audio, m.rings[m.audio.slot];
             && next.audio == a.(out := a.out + [ring.queue[0]]) && next.underruns == m.underruns
             && next.finished == m.finished && next.rings == m.rings[a.slot := ring.(queue := ring.queue[1..])]
    requires ReadBack(next, n, m')
    ensures ReadBack(m, n + 1, m')
  {
    var queue := m.rings[m.audio.slot].queue;
    assert queue[..n + 1] == [queue[0]] + queue[1..][..n];
    assert queue[1..][n..] == queue[n + 1..];
  }

  lemma {:induction false} ReadRuns(m: Machine, n: nat, m': Machine)
    requires Placed(m) && m.audio.Popping? && |m.audio.out| <= m.audio.want
    requires n <= |m.rings[m.audio.slot].queue| && n <= m.audio.want - |m.audio.out|
    requires n == |m.rings[m.audio.slot].queue| || n == m.audio.want - |m.audio.out|
    requires IsRun(m, seq(n + 1, _ => ReadStep), m')
    ensures ReadBack(m, n, m')
    decreases n
  {
    ReadTail(m, n, m');
    hide IsRun, Next;
    if n == 0 {
      ReadReturns(m);
    } else {
      hide ReadBack;
      ReadTakesOne(m);
      ReadRuns(Next(m, ReadStep), n - 1, m');
      ReadsOneMore(m, Next(m, ReadStep), n - 1, m');
    }
  }

  /** A read that nothing interrupts takes what it is asked for, in ring order, or all there is if
      that is less; only then does it count an underrun. */
  lemma {:induction false} ReadAlone(m: Machine, n: nat, m': Machine)
    requires Placed(m) && m.audio.Popping? && m.audio.out == []
    requires var queue := m.rings[m.audio.slot].queue;
             n == if m.audio.want < |queue| then m.audio.want else |queue|
    requires IsRun(m, seq(n + 1, _ => ReadStep), m')
    ensures var a, ring := m.audio, m.rings[m.audio.slot];
            && m'.audio == Silent && |m'.finished| == |m.finished| + 1
            && m'.finished[|m.finished|].gen == a.gen && m'.finished[|m.finished|].popped == ring.queue[..n]
            && m'.rings == m.rings[a.slot := ring.(queue := ring.queue[n..])]
            && m'.underruns == m.underruns + if |ring.queue| < a.want then 1 else 0
  {
    ReadRuns(m, n, m');
    hide IsRun;
  }
}
