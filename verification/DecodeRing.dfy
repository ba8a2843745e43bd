/** The three kinds of threads around the sample rings of `engine/src/audio/decode.rs`, as a step
    machine: the control thread inside `open` and `close`, one decoder thread per open track inside
    `push_into_ring` / `push_blocking`, and the audio thread inside `read`. Every step is one atomic
    operation on a flag or a ring. Only `open` and `close` exclude each other, being on one control
    thread: a `read` may overlap a `close` of its slot, and either may be called with a handle
    whose slot has passed to another track, as both look at nothing but the slot bits and
    `occupied`. Samples carry where they came from, so that what a read returned can be judged. */
module DecodeRing {
  import opened Wrappers
  import opened DecodeSlots

  type Frames = (seq<real>, seq<real>)

  /** The interleaved samples of one decoded packet: left and right in turn. */
  function Interleave(l: seq<real>, r: seq<real>): (s: seq<real>)
    decreases |l|
  {
    if l == [] || r == [] then [] else [l[0], r[0]] + Interleave(l[1..], r[1..])
  }

  /** The whole stream a decoder has to push. */
  function Stream(packets: seq<Frames>): seq<real> {
    if packets == [] then [] else Interleave(packets[0].0, packets[0].1) + Stream(packets[1..])
  }

  /** How many frames a packet has: the shorter channel's, as the two are zipped. */
  function FramesIn(packet: Frames): nat {
    if |packet.0| < |packet.1| then |packet.0| else |packet.1|
  }

  lemma {:induction false} InterleaveLength(l: seq<real>, r: seq<real>)
    ensures |Interleave(l, r)| == 2 * FramesIn((l, r))
    decreases |l|
  {
    if l != [] && r != [] { InterleaveLength(l[1..], r[1..]); }
  }

  /** Left and right alternate. */
  lemma {:induction false} InterleaveAt(l: seq<real>, r: seq<real>, k: nat)
    requires k < |l| && k < |r|
    ensures 2 * k + 1 < |Interleave(l, r)|
    ensures Interleave(l, r)[2 * k] == l[k] && Interleave(l, r)[2 * k + 1] == r[k]
  {
    if k > 0 { InterleaveAt(l[1..], r[1..], k - 1); }
  }

  function TotalFrames(packets: seq<Frames>): nat {
    if packets == [] then 0 else FramesIn(packets[0]) + TotalFrames(packets[1..])
  }

  /** The stream is the packets in order: frame `k` of packet `p` comes after all frames of the
      packets before, its left sample first. */
  lemma {:induction false} StreamAt(packets: seq<Frames>, p: nat, k: nat)
    requires p < |packets| && k < |packets[p].0| && k < |packets[p].1|
    ensures var at := 2 * (TotalFrames(packets[..p]) + k);
            at + 1 < |Stream(packets)| && Stream(packets)[at] == packets[p].0[k]
            && Stream(packets)[at + 1] == packets[p].1[k]
    decreases p
  {
    InterleaveLength(packets[0].0, packets[0].1);
    if p == 0 {
      InterleaveAt(packets[0].0, packets[0].1, k);
    } else {
      StreamAt(packets[1..], p - 1, k);
      assert packets[..p][1..] == packets[1..][..p - 1];
    }
  }

  lemma {:induction false} StreamLength(packets: seq<Frames>)
    ensures |Stream(packets)| == 2 * TotalFrames(packets)
  {
    if packets != [] {
      InterleaveLength(packets[0].0, packets[0].1);
      StreamLength(packets[1..]);
    }
  }

  /** Every place of the stream belongs to one frame of one packet. */
  lemma {:induction false} FrameAt(packets: seq<Frames>, n: nat) returns (p: nat, k: nat)
    requires n < TotalFrames(packets)
    ensures p < |packets| && k < |packets[p].0| && k < |packets[p].1| && n == TotalFrames(packets[..p]) + k
  {
    if n < FramesIn(packets[0]) {
      p, k := 0, n;
    } else {
      p, k := FrameAt(packets[1..], n - FramesIn(packets[0]));
      assert packets[..p + 1][1..] == packets[1..][..p];
      p := p + 1;
    }
  }

  /** A sample in a ring: the generation whose decoder pushed it, and how many it pushed before. */
  datatype Sample = Sample(value: real, gen: nat, index: nat)

  /** A live decoder thread; its id is also the generation of the `open` that spawned it. `armed`
      says it has seen the shutdown flag clear and is about to push `chunk[0]`. */
  datatype Decoder = Decoder(slot: nat, packets: seq<Frames>, chunk: seq<real>, armed: bool, pushed: nat)

  /** One slot. `join` is the id of the thread its join handle refers to; `gen` the generation of
      the open in possession of it. */
  datatype Ring = Ring(occupied: bool, queue: seq<Sample>, shutdown: bool, join: Option<nat>, gen: Option<nat>)

  /** Inside `open` or `close` of the slot, before the named statement. */
  datatype ControlPc =
    | Idle
    | AtReset(slot: nat, packets: seq<Frames>)
    | AtDrain(slot: nat, packets: seq<Frames>)
    | AtSource(slot: nat, packets: seq<Frames>)
    | AtStore(slot: nat, thread: nat)
    | AtBeltDrain(slot: nat, left: nat)
    | AtJoin(slot: nat)
    | AtFinalDrain(slot: nat)

  /** Inside `read` with the handle of generation `gen`, `out` popped so far. */
  datatype AudioPc = Silent | Popping(slot: nat, gen: nat, want: nat, out: seq<Sample>)

  /** A finished read: whose handle, how many samples were asked for, what was popped, and what the
      caller's buffer held. */
  datatype ReadRecord = ReadRecord(gen: nat, want: nat, popped: seq<Sample>, buffer: seq<real>)

  /** A sample leaving a ring: popped by a read with the handle of generation `via`, or drained by
      the control thread, while the slot was in the possession of `owner`. */
  datatype Removal = Removal(via: Option<nat>, owner: Option<nat>, sample: Sample)

  /** `handles` is what `open` has returned, from generation to slot. `streams` (of every
      generation), `cut` (generations whose decoder failed), `finished` reads and `removals` are
      history. */
  datatype Machine = Machine(
    rings: seq<Ring>, control: ControlPc, threads: map<nat, Decoder>, audio: AudioPc,
    nextThread: nat, underruns: nat, handles: map<nat, nat>,
    streams: map<nat, seq<real>>, cut: set<nat>, finished: seq<ReadRecord>, removals: seq<Removal>)

  datatype Step =
    | OpenClaim(slot: nat, packets: seq<Frames>)
    | OpenFails
    | OpenSpawn
    | CloseSignal(slot: nat)
    | ControlStep               // the one way on from every other control point
    | DecoderStep(thread: nat)
    | DecoderFails(thread: nat) // decode error, resample error or panic
    | ReadBegin(gen: nat, want: nat)
    | ReadStep

  predicate InSlot(m: Machine, slot: nat) { slot < |m.rings| }

  ghost predicate Enabled(m: Machine, s: Step) {
    match s
    case OpenClaim(slot, _) =>
      m.control == Idle && InSlot(m, slot) && !m.rings[slot].occupied
      && forall j :: 0 <= j < slot ==> m.rings[j].occupied
    case OpenFails => m.control.AtSource?
    case OpenSpawn => m.control.AtSource?
    case CloseSignal(slot) => m.control == Idle && InSlot(m, slot) && m.rings[slot].occupied
    case ControlStep =>
      && m.control != Idle && !m.control.AtSource? && InSlot(m, m.control.slot)
      && (m.control.AtJoin? && m.rings[m.control.slot].join.Some? ==>
            m.rings[m.control.slot].join.value !in m.threads)
    case DecoderStep(t) => t in m.threads
    case DecoderFails(t) => t in m.threads
    case ReadBegin(g, want) =>
      m.audio == Silent && want > 0 && g in m.handles && InSlot(m, m.handles[g]) && m.rings[m.handles[g]].occupied
    case ReadStep => m.audio.Popping?
  }

  function SetRing(m: Machine, slot: nat, ring: Ring): Machine
    requires InSlot(m, slot)
  {
    m.(rings := m.rings[slot := ring])
  }

  /** `queue.pop()` on a ring that has samples. */
  function Popped(m: Machine, i: nat, via: Option<nat>): Machine
    requires InSlot(m, i) && m.rings[i].queue != []
  {
    var ring := m.rings[i];
    SetRing(m, i, ring.(queue := ring.queue[1..])).(removals := m.removals + [Removal(via, ring.gen, ring.queue[0])])
  }

  function ControlStepped(m: Machine): Machine
    requires m.control != Idle && InSlot(m, m.control.slot)
  {
    var i := m.control.slot;
    var ring := m.rings[i];
    match m.control
    case AtReset(_, packets) => SetRing(m, i, ring.(shutdown := false)).(control := AtDrain(i, packets))
    case AtDrain(_, packets) =>
      if ring.queue != [] then Popped(m, i, None) else m.(control := AtSource(i, packets))
    case AtSource(_, _) => m
    case AtStore(_, t) =>
      SetRing(m, i, ring.(join := Some(t))).(control := Idle, handles := m.handles[t := i])
    case AtBeltDrain(_, left) =>
      if left > 0 && ring.queue != [] then Popped(m, i, None).(control := AtBeltDrain(i, left - 1))
      else m.(control := AtJoin(i))
    case AtJoin(_) => SetRing(m, i, ring.(join := None)).(control := AtFinalDrain(i))
    case AtFinalDrain(_) =>
      if ring.queue != [] then Popped(m, i, None)
      else SetRing(m, i, ring.(occupied := false, gen := None)).(control := Idle)
  }

  /** The decoder loop: exit on shutdown or at the end, else interleave the next packet; for every
      sample check the flag, then try to push, and try again while the ring is full. */
  function DecoderStepped(m: Machine, t: nat): Machine
    requires t in m.threads && InSlot(m, m.threads[t].slot)
  {
    var d := m.threads[t];
    var ring := m.rings[d.slot];
    if d.chunk == [] then
      if ring.shutdown || d.packets == [] then m.(threads := m.threads - {t})
      else m.(threads := m.threads[t := d.(chunk := Interleave(d.packets[0].0, d.packets[0].1),
                                           packets := d.packets[1..], armed := false)])
    else if !d.armed then
      m.(threads := m.threads[t := if ring.shutdown then d.(chunk := d.chunk[1..]) else d.(armed := true)])
    else if |ring.queue| < RING_SAMPLES then
      SetRing(m, d.slot, ring.(queue := ring.queue + [Sample(d.chunk[0], t, d.pushed)]))
        .(threads := m.threads[t := d.(chunk := d.chunk[1..], armed := false, pushed := d.pushed + 1)])
    else m.(threads := m.threads[t := d.(armed := false)])
  }

  function Values(s: seq<Sample>): (v: seq<real>)
    ensures |v| == |s| && forall k :: 0 <= k < |s| ==> v[k] == s[k].value
  {
    seq(|s|, k requires 0 <= k < |s| => s[k].value)
  }

  function ReadStepped(m: Machine): Machine
    requires m.audio.Popping? && InSlot(m, m.audio.slot)
  {
    var a := m.audio;
    var ring := m.rings[a.slot];
    if |a.out| >= a.want then
      m.(audio := Silent, finished := m.finished + [ReadRecord(a.gen, a.want, a.out, Values(a.out))])
    else if ring.queue != [] then
      Popped(m, a.slot, Some(a.gen)).(audio := a.(out := a.out + [ring.queue[0]]))
    else
      m.(audio := Silent, underruns := m.underruns + 1,
         finished := m.finished + [ReadRecord(a.gen, a.want, a.out, Values(a.out) + seq(a.want - |a.out|, _ => 0.0))])
  }

  ghost predicate Placed(m: Machine) {
    && |m.rings| == MAX_DECODE_SLOTS
    && (m.control != Idle ==> InSlot(m, m.control.slot))
    && (m.audio.Popping? ==> InSlot(m, m.audio.slot))
    && (forall t :: t in m.threads ==> InSlot(m, m.threads[t].slot))
  }

  function Next(m: Machine, s: Step): Machine
    requires Placed(m) && Enabled(m, s)
  {
    match s
    case OpenClaim(slot, packets) =>
      SetRing(m, slot, m.rings[slot].(occupied := true)).(control := AtReset(slot, packets))
    case OpenFails =>
      SetRing(m, m.control.slot, m.rings[m.control.slot].(occupied := false)).(control := Idle)
    case OpenSpawn =>
      var i, t := m.control.slot, m.nextThread;
      SetRing(m, i, m.rings[i].(gen := Some(t)))
        .(control := AtStore(i, t), nextThread := t + 1,
          threads := m.threads[t := Decoder(i, m.control.packets, [], false, 0)],
          streams := m.streams[t := Stream(m.control.packets)])
    case CloseSignal(slot) =>
      SetRing(m, slot, m.rings[slot].(shutdown := true)).(control := AtBeltDrain(slot, RING_SAMPLES / 8))
    case ControlStep => ControlStepped(m)
    case DecoderStep(t) => DecoderStepped(m, t)
    case DecoderFails(t) => m.(threads := m.threads - {t}, cut := m.cut + {t})
    case ReadBegin(g, want) => m.(audio := Popping(m.handles[g], g, want, []))
    case ReadStep => ReadStepped(m)
  }

  const START := Machine(
    seq(MAX_DECODE_SLOTS, _ => Ring(false, [], false, None, None)), Idle, map[], Silent, 0, 0, map[], map[], {}, [], [])

  ghost predicate IsRun(m: Machine, steps: seq<Step>, m': Machine)
    decreases |steps|
  {
    if steps == [] then m' == m
    else Placed(m) && Enabled(m, steps[0]) && IsRun(Next(m, steps[0]), steps[1..], m')
  }

  // ---------------------------------------------------------------- where samples go

  /** The samples of a generation that have left its ring, in order. */
  function Of(log: seq<Removal>, g: nat): seq<Sample> {
    if log == [] then []
    else
      var last := log[|log| - 1];
      Of(log[..|log| - 1], g) + if last.sample.gen == g then [last.sample] else []
  }

  /** The samples popped by reads with the handle of a generation, in order. */
  function ByHandle(log: seq<Removal>, h: nat): seq<Sample> {
    if log == [] then []
    else
      var last := log[|log| - 1];
      ByHandle(log[..|log| - 1], h) + if last.via == Some(h) then [last.sample] else []
  }

  /** What finished reads with a handle returned before their padding. */
  function PoppedBy(finished: seq<ReadRecord>, h: nat): seq<Sample> {
    if finished == [] then []
    else
      var last := finished[|finished| - 1];
      PoppedBy(finished[..|finished| - 1], h) + if last.gen == h then last.popped else []
  }

  /** With those of a read in progress: everything a handle has delivered. */
  function Got(m: Machine, h: nat): seq<Sample> {
    PoppedBy(m.finished, h) + if m.audio.Popping? && m.audio.gen == h then m.audio.out else []
  }

  /** Samples 0, 1, 2, ... of the generation's stream: none missing, repeated, out of order or foreign. */
  ghost predicate Numbered(s: seq<Sample>, stream: seq<real>, g: nat) {
    |s| <= |stream| && forall k :: 0 <= k < |s| ==> s[k] == Sample(stream[k], g, k)
  }

  /** What the generation's decoder thread still has to push. */
  function Rest(d: Decoder): seq<real> { d.chunk + Stream(d.packets) }

  // ---------------------------------------------------------------- invariant

  /** What left the ring, then what is in it, then what the decoder holds, is the stream; once the
      ring is shut down the decoder pushes at most the one sample it is armed with. */
  ghost predicate Flow(m: Machine, g: nat, ring: Ring) {
    g in m.streams
    && var all := Of(m.removals, g) + ring.queue;
       var stream := m.streams[g];
       && Numbered(all, stream, g)
       && (g in m.threads ==>
             var d := m.threads[g];
             d.pushed == |all| && (d.armed ==> d.chunk != [])
             && (if ring.shutdown then d.armed ==> |all| < |stream| && d.chunk[0] == stream[|all|]
                 else stream[|all|..] == Rest(d)))
       && (g !in m.threads && !ring.shutdown && g !in m.cut ==> |all| == |stream|)
  }

  predicate ControlAt(m: Machine, slot: nat) { m.control != Idle && m.control.slot == slot }

  /** A slot nobody has, or that `open` has claimed and not yet spawned a decoder for. */
  ghost predicate VacantOk(m: Machine, i: nat, ring: Ring) {
    && ring.queue == [] && ring.join == None
    && (if ControlAt(m, i)
        then ring.occupied && (m.control.AtReset? || ((m.control.AtDrain? || m.control.AtSource?) && !ring.shutdown))
        else !ring.occupied)
  }

  /** A slot in the possession of generation `g`: live, about to be handed out, or closing. */
  ghost predicate OwnedOk(m: Machine, i: nat, ring: Ring, g: nat) {
    && ring.occupied && g < m.nextThread && |ring.queue| <= RING_SAMPLES && Flow(m, g, ring)
    && (if !ControlAt(m, i) then !ring.shutdown && ring.join == Some(g)
        else
          match m.control
          case AtStore(_, t) => t == g && !ring.shutdown && ring.join == None
          case AtBeltDrain(_, _) => ring.shutdown && ring.join == Some(g)
          case AtJoin(_) => ring.shutdown && ring.join == Some(g)
          case AtFinalDrain(_) => ring.shutdown && ring.join == None && g !in m.threads
          case _ => false)
  }

  ghost predicate RingOk(m: Machine, i: nat)
    requires InSlot(m, i)
  {
    match m.rings[i].gen
    case None => VacantOk(m, i, m.rings[i])
    case Some(g) => OwnedOk(m, i, m.rings[i], g)
  }

  /** Every live decoder thread is the one its slot belongs to. */
  ghost predicate ThreadsOk(m: Machine) {
    forall t :: t in m.threads ==>
      t < m.nextThread && InSlot(m, m.threads[t].slot) && m.rings[m.threads[t].slot].gen == Some(t)
  }

  /** How many finished reads had to be padded. */
  function Padded(finished: seq<ReadRecord>): nat {
    if finished == [] then 0
    else
      var last := finished[|finished| - 1];
      Padded(finished[..|finished| - 1]) + if |last.popped| < |last.buffer| then 1 else 0
  }

  /** A read fills the buffer with what it popped, then silence. */
  ghost predicate ReadOk(r: ReadRecord) {
    && |r.buffer| == r.want && Values(r.popped) <= r.buffer
    && forall k :: |r.popped| <= k < |r.buffer| ==> r.buffer[k] == 0.0
  }

  ghost predicate ReadsOk(m: Machine) {
    && (forall k :: 0 <= k < |m.finished| ==> ReadOk(m.finished[k]))
    && m.underruns == Padded(m.finished)
    && (m.audio.Popping? ==> |m.audio.out| <= m.audio.want)
  }

  /** What has left the rings: samples of their owners, each generation's from the first on. */
  ghost predicate LogOk(m: Machine) {
    && (forall g :: g in m.streams ==> g < m.nextThread && Numbered(Of(m.removals, g), m.streams[g], g))
    && (forall k :: 0 <= k < |m.removals| ==>
          m.removals[k].owner == Some(m.removals[k].sample.gen) && m.removals[k].sample.gen in m.streams)
  }

  ghost predicate BooksOk(m: Machine) { forall h: nat :: Got(m, h) == ByHandle(m.removals, h) }

  /** No two slots in the possession of one generation. */
  ghost predicate GensDistinct(m: Machine) {
    forall i, j :: 0 <= i < j < |m.rings| && m.rings[i].gen.Some? ==> m.rings[i].gen != m.rings[j].gen
  }

  ghost predicate RingsOk(m: Machine) { forall i :: 0 <= i < |m.rings| ==> RingOk(m, i) }

  ghost predicate Inv(m: Machine) {
    && Placed(m) && ThreadsOk(m) && ReadsOk(m) && LogOk(m) && BooksOk(m) && GensDistinct(m) && RingsOk(m)
    && (forall g :: g in m.handles ==> InSlot(m, m.handles[g]))
  }

  // ---------------------------------------------------------------- every step keeps it

  /** The step changes nothing that the invariant of generation `g` looks at. */
  ghost predicate SameGen(m: Machine, m': Machine, g: nat) {
    && (g in m.threads <==> g in m'.threads) && (g in m.threads ==> m'.threads[g] == m.threads[g])
    && Of(m'.removals, g) == Of(m.removals, g)
    && (g in m.streams ==> g in m'.streams && m'.streams[g] == m.streams[g])
    && (g in m'.cut <==> g in m.cut)
  }

  lemma OtherRingStays(m: Machine, m': Machine, j: nat)
    requires InSlot(m, j) && InSlot(m', j) && RingOk(m, j)
    requires m'.rings[j] == m.rings[j] && m.nextThread <= m'.nextThread
    requires if ControlAt(m, j) then m'.control == m.control else !ControlAt(m', j)
    requires m.rings[j].gen.Some? ==> SameGen(m, m', m.rings[j].gen.value)
    ensures RingOk(m', j)
  {
  }

  /** A step that is about slot `i` alone. */
  lemma OneSlotSteps(m: Machine, m': Machine, i: nat)
    requires Inv(m) && InSlot(m, i) && |m'.rings| == |m.rings| && m.nextThread <= m'.nextThread
    requires forall j :: 0 <= j < |m.rings| && j != i ==> m'.rings[j] == m.rings[j]
    requires m'.control == m.control
          || ((m.control == Idle || ControlAt(m, i)) && (m'.control == Idle || ControlAt(m', i)))
    requires forall g: nat :: m.rings[i].gen != Some(g) && m'.rings[i].gen != Some(g) ==> SameGen(m, m', g)
    requires m'.rings[i].gen == m.rings[i].gen || m'.rings[i].gen == None || m'.rings[i].gen == Some(m.nextThread)
    requires RingOk(m', i)
    ensures GensDistinct(m') && RingsOk(m')
  {
    forall j | 0 <= j < |m'.rings|
      ensures RingOk(m', j)
    {
      assert RingOk(m, j);
      if j != i { OtherRingStays(m, m', j); }
    }
    forall j, k | 0 <= j < k < |m'.rings| && m'.rings[j].gen.Some?
      ensures m'.rings[j].gen != m'.rings[k].gen
    {
      assert RingOk(m, j) && RingOk(m, k);
    }
  }

  lemma LogGrows(log: seq<Removal>, r: Removal)
    ensures forall g: nat :: Of(log + [r], g) == Of(log, g) + if r.sample.gen == g then [r.sample] else []
    ensures forall h: nat :: ByHandle(log + [r], h) == ByHandle(log, h) + if r.via == Some(h) then [r.sample] else []
  {
    assert (log + [r])[..|log|] == log;
  }

  /** The sample at the head of a ring is the next one of its owner, and popping it only moves it. */
  lemma PopMovesOne(m: Machine, i: nat, via: Option<nat>)
    requires Inv(m) && InSlot(m, i) && m.rings[i].queue != []
    ensures m.rings[i].gen.Some?
    ensures var g := m.rings[i].gen.value;
            && m.rings[i].queue[0].gen == g && g in m.streams
            && Flow(Popped(m, i, via), g, Popped(m, i, via).rings[i])
            && LogOk(Popped(m, i, via))
  {
    assert RingOk(m, i);
    var g, m' := m.rings[i].gen.value, Popped(m, i, via);
    var queue := m.rings[i].queue;
    LogGrows(m.removals, Removal(via, Some(g), queue[0]));
    var all := Of(m.removals, g) + queue;
    assert all[|Of(m.removals, g)|] == queue[0];
    assert Of(m'.removals, g) + m'.rings[i].queue == all;
    assert Numbered(Of(m'.removals, g), m.streams[g], g) by {
      forall k | 0 <= k < |Of(m'.removals, g)| ensures Of(m'.removals, g)[k] == Sample(m.streams[g][k], g, k) {
        assert Of(m'.removals, g)[k] == all[k];
      }
    }
  }

  lemma PopKeepsRing(m: Machine, i: nat, via: Option<nat>)
    requires Inv(m) && InSlot(m, i) && m.rings[i].queue != []
    ensures var m' := Popped(m, i, via);
            RingOk(m', i) && forall g: nat :: m.rings[i].gen != Some(g) ==> SameGen(m, m', g)
  {
    assert RingOk(m, i);
    PopMovesOne(m, i, via);
    LogGrows(m.removals, Removal(via, m.rings[i].gen, m.rings[i].queue[0]));
    hide Flow, LogOk, BooksOk, ReadsOk, GensDistinct, ThreadsOk, Of, ByHandle;
  }

  /** Whoever pops it, everything but the reader's own books stays in order. */
  lemma PopKeepsRings(m: Machine, i: nat, via: Option<nat>)
    requires Inv(m) && InSlot(m, i) && m.rings[i].queue != []
    ensures var m' := Popped(m, i, via);
            Placed(m') && ThreadsOk(m') && LogOk(m') && GensDistinct(m') && RingsOk(m')
  {
    PopMovesOne(m, i, via);
    PopKeepsRing(m, i, via);
    hide Flow, LogOk, RingsOk, RingOk, SameGen, Of, ByHandle, ReadsOk, BooksOk, GensDistinct;
    OneSlotSteps(m, Popped(m, i, via), i);
  }

  lemma DrainKeepsInv(m: Machine, i: nat)
    requires Inv(m) && InSlot(m, i) && m.rings[i].queue != []
    ensures Inv(Popped(m, i, None))
  {
    var m' := Popped(m, i, None);
    LogGrows(m.removals, m'.removals[|m.removals|]);
    PopKeepsRings(m, i, None);
    hide LogOk, RingsOk, Of, ThreadsOk, GensDistinct, ByHandle;
    assert forall h: nat :: Got(m', h) == Got(m, h);
  }

  /** A control step: one slot, the control position and the handles change, no thread and no history. */
  lemma ControlOnly(m: Machine, i: nat, ring: Ring, control: ControlPc, handles: map<nat, nat>)
    requires Inv(m) && InSlot(m, i) && (m.control == Idle || ControlAt(m, i)) && (control.Idle? || control.slot == i)
    requires RingOk(m.(rings := m.rings[i := ring], control := control, handles := handles), i)
    requires ring.gen == m.rings[i].gen
          || (ring.gen == None && forall t :: t in m.threads ==> m.rings[i].gen != Some(t))
    requires forall g :: g in handles ==> handles[g] < |m.rings|
    ensures Inv(m.(rings := m.rings[i := ring], control := control, handles := handles))
  {
    var m' := m.(rings := m.rings[i := ring], control := control, handles := handles);
    assert forall h: nat :: Got(m', h) == Got(m, h);
    hide Got, Padded, RingOk, ReadOk, Flow, ByHandle, Of;
    OneSlotSteps(m, m', i);
  }

  lemma StartInv()
    ensures Inv(START)
  {
  }

  /** A decoder that is about to push when the flag is set still pushes the right sample. */
  lemma ShutdownFlow(m: Machine, g: nat, ring: Ring)
    requires Flow(m, g, ring) && !ring.shutdown
    ensures Flow(m, g, ring.(shutdown := true))
    ensures g in m.threads && m.threads[g].armed ==>
              var sofar := |Of(m.removals, g) + ring.queue|;
              sofar < |m.streams[g]| && m.threads[g].chunk[0] == m.streams[g][sofar]
  {
    var stream, all := m.streams[g], Of(m.removals, g) + ring.queue;
    if g in m.threads && m.threads[g].armed {
      assert stream[|all|..][0] == Rest(m.threads[g])[0];
    }
  }

  /** The control thread's quiet steps, by the ring and the position they leave. */
  lemma QuietControlRing(m: Machine, s: Step)
    requires Inv(m) && Enabled(m, s) && (s.OpenClaim? || s.OpenFails? || s.CloseSignal? || s.ControlStep?)
    requires s.ControlStep? && !m.control.AtReset? && !m.control.AtStore? && !m.control.AtJoin? ==>
               m.rings[m.control.slot].queue == [] || (m.control.AtBeltDrain? && m.control.left == 0)
    ensures var i, m' := if s.OpenClaim? || s.CloseSignal? then s.slot else m.control.slot, Next(m, s);
            && InSlot(m, i) && (m.control == Idle || ControlAt(m, i)) && (m'.control.Idle? || m'.control.slot == i)
            && m' == m.(rings := m.rings[i := m'.rings[i]], control := m'.control, handles := m'.handles)
            && RingOk(m', i)
            && (m'.rings[i].gen == m.rings[i].gen
                || (m'.rings[i].gen == None && forall t :: t in m.threads ==> m.rings[i].gen != Some(t)))
            && (forall g :: g in m'.handles ==> m'.handles[g] < |m.rings|)
  {
    hide LogOk, BooksOk, ReadsOk, GensDistinct, Numbered, Of, Rest;
    var i := if s.OpenClaim? || s.CloseSignal? then s.slot else m.control.slot;
    assert RingOk(m, i);
    if s.CloseSignal? { ShutdownFlow(m, m.rings[i].gen.value, m.rings[i]); }
  }

  lemma ControlKeepsInv(m: Machine, s: Step)
    requires Inv(m) && Enabled(m, s) && (s.OpenClaim? || s.OpenFails? || s.CloseSignal? || s.ControlStep?)
    ensures Inv(Next(m, s))
  {
    assert Placed(m);
    hide Inv, RingOk;
    var c := m.control;
    if s.ControlStep? && (c.AtDrain? || c.AtFinalDrain?) && m.rings[c.slot].queue != [] {
      DrainKeepsInv(m, c.slot);
    } else if s.ControlStep? && c.AtBeltDrain? && c.left > 0 && m.rings[c.slot].queue != [] {
      DrainKeepsInv(m, c.slot);
      BeltCounts(Popped(m, c.slot, None));
    } else {
      QuietControlRing(m, s);
      var i := if s.OpenClaim? || s.CloseSignal? then s.slot else c.slot;
      ControlOnly(m, i, Next(m, s).rings[i], Next(m, s).control, Next(m, s).handles);
    }
  }

  lemma BeltCounts(m: Machine)
    requires Inv(m) && m.control.AtBeltDrain? && m.control.left > 0
    ensures Inv(m.(control := AtBeltDrain(m.control.slot, m.control.left - 1)))
  {
    var i := m.control.slot;
    assert RingOk(m, i);
    hide LogOk, BooksOk, ReadsOk, GensDistinct, Numbered, Of, Rest;
    assert m.rings[i := m.rings[i]] == m.rings;
    ControlOnly(m, i, m.rings[i], AtBeltDrain(i, m.control.left - 1), m.handles);
  }

  lemma {:induction false} NothingRemoved(log: seq<Removal>, g: nat)
    requires forall k :: 0 <= k < |log| ==> log[k].sample.gen != g
    ensures Of(log, g) == []
  {
    if log != [] { NothingRemoved(log[..|log| - 1], g); }
  }

  lemma SpawnRing(m: Machine)
    requires Inv(m) && Enabled(m, OpenSpawn)
    ensures m.rings[m.control.slot].gen == None && m.nextThread !in m.streams && m.nextThread !in m.threads
    ensures Of(m.removals, m.nextThread) == [] && RingOk(Next(m, OpenSpawn), m.control.slot)
  {
    hide Stream, ReadsOk, GensDistinct, BooksOk;
    assert RingOk(m, m.control.slot);
    NothingRemoved(m.removals, m.nextThread);
  }

  lemma SpawnFrame(m: Machine)
    requires Inv(m) && Enabled(m, OpenSpawn)
    ensures var m' := Next(m, OpenSpawn);
            Placed(m') && ThreadsOk(m') && LogOk(m') && BooksOk(m') && ReadsOk(m')
  {
    SpawnRing(m);
    hide Stream, RingOk, GensDistinct, ByHandle, Padded, ReadOk, PoppedBy;
    assert forall k :: 0 <= k < |m.removals| ==> m.removals[k].sample.gen != m.nextThread;
  }

  lemma SpawnOthers(m: Machine)
    requires Placed(m) && Enabled(m, OpenSpawn)
    ensures forall g: nat :: g != m.nextThread ==> SameGen(m, Next(m, OpenSpawn), g)
  {
    hide Of, Stream;
  }

  lemma SpawnKeepsInv(m: Machine)
    requires Inv(m) && Enabled(m, OpenSpawn)
    ensures Inv(Next(m, OpenSpawn))
  {
    SpawnRing(m);
    SpawnFrame(m);
    SpawnOthers(m);
    hide Stream, RingOk, GensDistinct, SameGen, LogOk, BooksOk, ReadsOk, ThreadsOk;
    OneSlotSteps(m, Next(m, OpenSpawn), m.control.slot);
  }

  /** Pushing the next sample appends it to what the ring has been given. */
  lemma PushExtends(m: Machine, t: nat)
    requires Placed(m) && t in m.threads && Flow(m, t, m.rings[m.threads[t].slot])
    requires m.threads[t].armed && |m.rings[m.threads[t].slot].queue| < RING_SAMPLES
    ensures Flow(DecoderStepped(m, t), t, DecoderStepped(m, t).rings[m.threads[t].slot])
  {
    var m', d := DecoderStepped(m, t), m.threads[t];
    var ring, stream := m.rings[d.slot], m.streams[t];
    var gone, all := Of(m.removals, t), Of(m.removals, t) + ring.queue;
    if !ring.shutdown {
      ShutdownFlow(m, t, ring);
      assert Rest(m'.threads[t]) == Rest(d)[1..];
      assert stream[|all|..][1..] == stream[|all| + 1..];
    }
    hide Stream, Rest, Of;
    assert gone + m'.rings[d.slot].queue == all + [Sample(stream[|all|], t, |all|)];
  }

  lemma DecoderFlow(m: Machine, t: nat)
    requires Placed(m) && t in m.threads && Flow(m, t, m.rings[m.threads[t].slot])
    ensures Flow(DecoderStepped(m, t), t, DecoderStepped(m, t).rings[m.threads[t].slot])
  {
    var m', d := DecoderStepped(m, t), m.threads[t];
    if d.armed && |m.rings[d.slot].queue| < RING_SAMPLES {
      PushExtends(m, t);
    } else {
      hide Of, Numbered;
      if t in m'.threads && !m.rings[d.slot].shutdown { assert Rest(m'.threads[t]) == Rest(d); }
      if t !in m'.threads && !m.rings[d.slot].shutdown { assert Rest(d) == []; }
    }
  }

  /** A decoder touches its thread and its ring's samples, nothing else. */
  lemma DecoderFrame(m: Machine, t: nat)
    requires Placed(m) && t in m.threads
    ensures var m', i := DecoderStepped(m, t), m.threads[t].slot;
            && m'.rings == m.rings[i := m.rings[i].(queue := m'.rings[i].queue)]
            && m'.threads - {t} == m.threads - {t} && (t in m'.threads ==> m'.threads[t].slot == i)
            && m'.threads.Keys <= m.threads.Keys
            && m' == m.(rings := m'.rings, threads := m'.threads)
            && |m'.rings[i].queue| <= (if |m.rings[i].queue| < RING_SAMPLES then RING_SAMPLES else |m.rings[i].queue|)
  {
  }

  lemma DecoderThreads(m: Machine, t: nat)
    requires Placed(m) && ThreadsOk(m) && t in m.threads
    ensures Placed(DecoderStepped(m, t)) && ThreadsOk(DecoderStepped(m, t))
  {
    DecoderFrame(m, t);
    hide DecoderStepped;
    var m' := DecoderStepped(m, t);
    forall u | u in m'.threads
      ensures m'.threads[u].slot == m.threads[u].slot
    {
      if u != t { assert (m'.threads - {t})[u] == (m.threads - {t})[u]; }
    }
  }

  lemma DecoderRing(m: Machine, t: nat)
    requires Placed(m) && t in m.threads && InSlot(m, m.threads[t].slot) && RingOk(m, m.threads[t].slot)
    requires m.rings[m.threads[t].slot].gen == Some(t)
    ensures RingOk(DecoderStepped(m, t), m.threads[t].slot)
  {
    DecoderFlow(m, t);
    DecoderFrame(m, t);
    hide DecoderStepped, Flow;
  }

  lemma DecoderKeepsInv(m: Machine, t: nat)
    requires Inv(m) && t in m.threads
    ensures Inv(Next(m, DecoderStep(t)))
  {
    var m', i := DecoderStepped(m, t), m.threads[t].slot;
    assert RingOk(m, i);
    DecoderRing(m, t);
    DecoderThreads(m, t);
    DecoderFrame(m, t);
    hide DecoderStepped, RingOk, Of, ByHandle, Got, Padded, ReadOk, GensDistinct, Numbered, ThreadsOk;
    BooksSame(m, m');
    OthersKeep(m, m', t);
    assert LogOk(m') && ReadsOk(m') && BooksOk(m');
    hide LogOk, BooksOk, ReadsOk;
    OneSlotSteps(m, m', i);
  }

  lemma BooksSame(m: Machine, m': Machine)
    requires m'.finished == m.finished && m'.audio == m.audio
    ensures forall h: nat :: Got(m', h) == Got(m, h)
  {
  }

  lemma OthersKeep(m: Machine, m': Machine, t: nat)
    requires m'.threads - {t} == m.threads - {t} && m'.removals == m.removals
    requires m'.streams == m.streams && m'.cut - {t} == m.cut - {t}
    ensures forall u: nat :: u != t ==> SameGen(m, m', u)
  {
    forall u: nat | u != t ensures SameGen(m, m', u) {
      assert u in m.threads <==> u in m.threads - {t};
      assert u in m'.threads <==> u in m'.threads - {t};
      assert u in m.cut <==> u in m.cut - {t};
      assert u in m'.cut <==> u in m'.cut - {t};
      if u in m.threads { assert (m'.threads - {t})[u] == (m.threads - {t})[u]; }
    }
  }

  lemma FailureKeepsInv(m: Machine, t: nat)
    requires Inv(m) && t in m.threads
    ensures Inv(Next(m, DecoderFails(t)))
  {
    var m', i := Next(m, DecoderFails(t)), m.threads[t].slot;
    assert RingOk(m, i);
    hide Of, ByHandle, Padded, ReadOk, GensDistinct, Numbered, Got;
    BooksSame(m, m');
    OthersKeep(m, m', t);
    assert RingOk(m', i) && LogOk(m') && ReadsOk(m') && BooksOk(m') && ThreadsOk(m');
    hide ThreadsOk, RingOk, LogOk, BooksOk, ReadsOk;
    OneSlotSteps(m, m', i);
  }

  lemma RecordGrows(finished: seq<ReadRecord>, r: ReadRecord)
    ensures Padded(finished + [r]) == Padded(finished) + if |r.popped| < |r.buffer| then 1 else 0
    ensures forall h: nat :: PoppedBy(finished + [r], h) == PoppedBy(finished, h) + if r.gen == h then r.popped else []
  {
    assert (finished + [r])[..|finished|] == finished;
  }

  /** A read writes what it pops in its books. */
  lemma ReadBooks(m: Machine)
    requires Placed(m) && BooksOk(m) && m.audio.Popping?
    ensures BooksOk(ReadStepped(m))
  {
    hide Values, PoppedBy, ByHandle;
    var m', a := ReadStepped(m), m.audio;
    if m'.audio == Silent {
      RecordGrows(m.finished, m'.finished[|m.finished|]);
    } else {
      LogGrows(m.removals, m'.removals[|m.removals|]);
    }
    forall h: nat ensures Got(m', h) == ByHandle(m'.removals, h) {
      assert Got(m, h) == ByHandle(m.removals, h);
    }
  }

  lemma ReadRecords(m: Machine)
    requires ReadsOk(m) && m.audio.Popping? && InSlot(m, m.audio.slot)
    ensures ReadsOk(ReadStepped(m))
  {
    hide Values, Padded;
    var m' := ReadStepped(m);
    if m'.audio == Silent { RecordGrows(m.finished, m'.finished[|m.finished|]); }
  }

  /** A read pops a sample or leaves the rings alone; its own position and the reads' history follow. */
  lemma ReadFrame(m: Machine)
    requires m.audio.Popping? && InSlot(m, m.audio.slot)
    ensures var m', a := ReadStepped(m), m.audio;
            && (m'.audio.Popping? ==> m'.audio.slot == a.slot)
            && (if |a.out| < a.want && m.rings[a.slot].queue != []
                then m' == Popped(m, a.slot, Some(a.gen)).(audio := m'.audio)
                else m' == m.(audio := m'.audio, underruns := m'.underruns, finished := m'.finished))
  {
    hide Popped, Values;
  }

  lemma ReadKeepsInv(m: Machine)
    requires Inv(m) && Enabled(m, ReadStep)
    ensures Inv(Next(m, ReadStep))
  {
    var m', a := ReadStepped(m), m.audio;
    ReadBooks(m);
    ReadRecords(m);
    ReadFrame(m);
    hide BooksOk, ReadsOk, LogOk, ThreadsOk, GensDistinct, RingsOk, ReadStepped;
    if |a.out| < a.want && m.rings[a.slot].queue != [] {
      PopKeepsRings(m, a.slot, Some(a.gen));
      AudioUnread(Popped(m, a.slot, Some(a.gen)), m');
    } else {
      AudioUnread(m, m');
    }
  }

  /** Nothing the rings answer for looks at the reader. */
  lemma AudioUnread(m: Machine, m': Machine)
    requires m' == m.(audio := m'.audio, underruns := m'.underruns, finished := m'.finished)
    requires ThreadsOk(m) && LogOk(m) && GensDistinct(m) && RingsOk(m)
    ensures ThreadsOk(m') && LogOk(m') && GensDistinct(m') && RingsOk(m')
  {
    hide Of, Numbered, Rest;
    forall j | 0 <= j < |m'.rings| ensures RingOk(m', j) { assert RingOk(m, j); }
  }

  lemma ReadBeginKeepsInv(m: Machine, s: Step)
    requires Inv(m) && Enabled(m, s) && s.ReadBegin?
    ensures Inv(Next(m, s))
  {
    var m' := Next(m, s);
    AudioUnread(m, m');
    hide LogOk, ThreadsOk, GensDistinct, RingsOk, ByHandle;
    assert forall h: nat :: Got(m', h) == Got(m, h);
  }

  lemma StepKeepsInv(m: Machine, s: Step)
    requires Inv(m) && Enabled(m, s)
    ensures Inv(Next(m, s))
  {
    hide Inv;
    match s
    case OpenClaim(_, _) => ControlKeepsInv(m, s);
    case OpenFails => ControlKeepsInv(m, s);
    case OpenSpawn => SpawnKeepsInv(m);
    case CloseSignal(_) => ControlKeepsInv(m, s);
    case ControlStep => ControlKeepsInv(m, s);
    case DecoderStep(t) => DecoderKeepsInv(m, t);
    case DecoderFails(t) => FailureKeepsInv(m, t);
    case ReadBegin(_, _) => ReadBeginKeepsInv(m, s);
    case ReadStep => ReadKeepsInv(m);
  }

  lemma {:induction false} RunKeepsInv(m: Machine, steps: seq<Step>, m': Machine)
    requires Inv(m) && IsRun(m, steps, m')
    ensures Inv(m')
    decreases |steps|
  {
    if steps != [] {
      StepKeepsInv(m, steps[0]);
      RunKeepsInv(Next(m, steps[0]), steps[1..], m');
    }
  }

  // ---------------------------------------------------------------- over every interleaving

  /** A ring never has two live decoder threads. */
  lemma OneDecoderPerRing(steps: seq<Step>, m: Machine, t: nat, u: nat)
    requires IsRun(START, steps, m) && t in m.threads && u in m.threads && m.threads[t].slot == m.threads[u].slot
    ensures t == u
  {
    StartInv();
    RunKeepsInv(START, steps, m);
  }

  /** The 16 rings hold half a second of stereo each, and never more. */
  lemma RingsBounded(steps: seq<Step>, m: Machine, i: nat)
    requires IsRun(START, steps, m)
    ensures |m.rings| == 16 && (i < 16 ==> |m.rings[i].queue| <= 48_000)
  {
    StartInv();
    RunKeepsInv(START, steps, m);
    if i < 16 { assert RingOk(m, i); }
  }

  /** A decoder that has seen the flag clear pushes its next sample at once, and waits exactly while its
      ring is full. */
  lemma WaitsIffFull(m: Machine, t: nat)
    requires Placed(m) && t in m.threads && m.threads[t].chunk != [] && m.threads[t].armed
    ensures var d, m' := m.threads[t], Next(m, DecoderStep(t));
            && t in m'.threads
            && if |m.rings[d.slot].queue| < 48_000 then
                 && m'.rings[d.slot].queue == m.rings[d.slot].queue + [Sample(d.chunk[0], t, d.pushed)]
                 && m'.threads[t].chunk == d.chunk[1..]
               else m'.rings == m.rings && m'.threads[t].chunk == d.chunk
  {
    hide Interleave, Values;
  }

  /** Every read fills the buffer it was given with what it popped and then silence, and the
      underrun counter is the number of reads that needed silence. */
  lemma UnderrunsCountPaddedReads(steps: seq<Step>, m: Machine)
    requires IsRun(START, steps, m)
    ensures m.underruns == Padded(m.finished)
    ensures forall k :: 0 <= k < |m.finished| ==>
              var r := m.finished[k];
              && |r.buffer| == r.want && |r.popped| <= r.want
              && forall j :: 0 <= j < |r.buffer| ==> r.buffer[j] == if j < |r.popped| then r.popped[j].value else 0.0
  {
    StartInv();
    RunKeepsInv(START, steps, m);
  }

  /** Samples of one generation appear in the order of its stream, none twice. */
  ghost predicate InOrder(s: seq<Sample>) {
    forall i, j :: 0 <= i < j < |s| && s[i].gen == s[j].gen ==> s[i].index < s[j].index
  }

  lemma NumberedFront(front: seq<Removal>, last: Removal, g: nat, stream: seq<real>)
    requires Numbered(Of(front + [last], g), stream, g)
    ensures Numbered(Of(front, g), stream, g)
    ensures last.sample.gen == g ==>
              last.sample.index == |Of(front, g)| < |stream| && last.sample.value == stream[last.sample.index]
  {
    LogGrows(front, last);
    assert Of(front + [last], g)[..|Of(front, g)|] == Of(front, g);
    if last.sample.gen == g { assert Of(front + [last], g)[|Of(front, g)|] == last.sample; }
  }

  /** Samples that have left their ring, with the values of their stream. */
  ghost predicate Known(s: seq<Sample>, log: seq<Removal>, streams: map<nat, seq<real>>) {
    forall k :: 0 <= k < |s| ==>
      s[k].gen in streams && s[k].index < |Of(log, s[k].gen)| <= |streams[s[k].gen]|
      && s[k].value == streams[s[k].gen][s[k].index]
  }

  lemma KnownGrows(s: seq<Sample>, front: seq<Removal>, last: Removal, streams: map<nat, seq<real>>)
    requires Known(s, front, streams) && last.sample.gen in streams && InOrder(s)
    requires forall g :: g in streams ==> Numbered(Of(front + [last], g), streams[g], g)
    ensures Known(s, front + [last], streams)
    ensures Known(s + [last.sample], front + [last], streams) && InOrder(s + [last.sample])
  {
    LogGrows(front, last);
    NumberedFront(front, last, last.sample.gen, streams[last.sample.gen]);
    forall k | 0 <= k < |s| ensures |Of(front + [last], s[k].gen)| <= |streams[s[k].gen]| {
      assert Numbered(Of(front + [last], s[k].gen), streams[s[k].gen], s[k].gen);
    }
    hide Of, Numbered;
  }

  lemma AllNumberedFront(front: seq<Removal>, last: Removal, streams: map<nat, seq<real>>)
    requires forall g :: g in streams ==> Numbered(Of(front + [last], g), streams[g], g)
    ensures forall g :: g in streams ==> Numbered(Of(front, g), streams[g], g)
  {
    hide Of, Numbered;
    forall g | g in streams ensures Numbered(Of(front, g), streams[g], g) {
      NumberedFront(front, last, g, streams[g]);
    }
  }

  lemma {:induction false} HandleInOrder(log: seq<Removal>, h: nat, streams: map<nat, seq<real>>)
    requires forall g :: g in streams ==> Numbered(Of(log, g), streams[g], g)
    requires forall k :: 0 <= k < |log| ==> log[k].sample.gen in streams
    ensures InOrder(ByHandle(log, h)) && Known(ByHandle(log, h), log, streams)
  {
    if log != [] {
      var front, last := log[..|log| - 1], log[|log| - 1];
      assert log == front + [last];
      LogGrows(front, last);
      hide Of, ByHandle, Numbered, Known, InOrder;
      AllNumberedFront(front, last, streams);
      assert last.sample.gen in streams;
      HandleInOrder(front, h, streams);
      KnownGrows(ByHandle(front, h), front, last, streams);
    }
  }

  /** Whatever overlaps whatever: every sample a handle delivers is a sample of the stream it is
      tagged with, and those of one stream come in that stream's order, none twice. */
  lemma DeliveredInOrder(steps: seq<Step>, m: Machine, h: nat)
    requires IsRun(START, steps, m)
    ensures forall i, j :: 0 <= i < j < |Got(m, h)| && Got(m, h)[i].gen == Got(m, h)[j].gen ==>
              Got(m, h)[i].index < Got(m, h)[j].index
    ensures forall s :: s in Got(m, h) ==>
              s.gen in m.streams && s.index < |m.streams[s.gen]| && s.value == m.streams[s.gen][s.index]
  {
    StartInv();
    RunKeepsInv(START, steps, m);
    HandleInOrder(m.removals, h, m.streams);
  }

  /** Reads with the handle only ever popped while its own track had the slot. */
  ghost predicate NeverForeign(log: seq<Removal>, h: nat) {
    forall k :: 0 <= k < |log| && log[k].via == Some(h) ==> log[k].owner == Some(h)
  }

  /** Before each of those pops, nobody else took a sample of the track: neither a close, which
      drains the ring it is about to free, nor a read with another track's handle. */
  ghost predicate NeverRobbed(log: seq<Removal>, h: nat) {
    forall j, k :: 0 <= j < k < |log| && log[k].via == Some(h) && log[j].owner == Some(h) ==> log[j].via == Some(h)
  }

  lemma {:induction false} OwnSamplesOnly(log: seq<Removal>, h: nat)
    requires forall k :: 0 <= k < |log| ==> log[k].owner == Some(log[k].sample.gen)
    ensures NeverForeign(log, h) <==> forall s :: s in ByHandle(log, h) ==> s.gen == h
  {
    if log != [] {
      var front, last := log[..|log| - 1], log[|log| - 1];
      assert log == front + [last];
      OwnSamplesOnly(front, h);
      if last.via == Some(h) {
        assert ByHandle(log, h) == ByHandle(front, h) + [last.sample];
        assert last.sample in ByHandle(log, h);
      }
    }
  }

  /** A handle that is only ever read in the time of its own track, however its close overlaps
      those reads, delivers a subsequence of that track: nothing foreign, repeated or reordered. */
  lemma DeliveredIsSubsequence(steps: seq<Step>, m: Machine, h: nat)
    requires IsRun(START, steps, m)
    ensures NeverForeign(m.removals, h) <==> forall s :: s in Got(m, h) ==> s.gen == h
    ensures NeverForeign(m.removals, h) ==>
              forall i, j :: 0 <= i < j < |Got(m, h)| ==> Got(m, h)[i].index < Got(m, h)[j].index
  {
    StartInv();
    RunKeepsInv(START, steps, m);
    OwnSamplesOnly(m.removals, h);
    DeliveredInOrder(steps, m, h);
    if NeverForeign(m.removals, h) {
      forall i, j | 0 <= i < j < |Got(m, h)| ensures Got(m, h)[i].index < Got(m, h)[j].index {
        assert Got(m, h)[i] in Got(m, h) && Got(m, h)[j] in Got(m, h);
      }
    }
  }

  /** With no foreign pop, a handle's pops are some of its track's removals; all of them exactly
      when nobody else removed any. */
  lemma {:induction false} OwnPopsAmongRemovals(log: seq<Removal>, h: nat)
    requires forall k :: 0 <= k < |log| ==> log[k].owner == Some(log[k].sample.gen)
    requires NeverForeign(log, h)
    ensures |ByHandle(log, h)| <= |Of(log, h)|
    ensures |ByHandle(log, h)| == |Of(log, h)| <==>
              forall k :: 0 <= k < |log| && log[k].owner == Some(h) ==> log[k].via == Some(h)
    ensures |ByHandle(log, h)| == |Of(log, h)| ==> ByHandle(log, h) == Of(log, h)
  {
    if log != [] {
      var front, last := log[..|log| - 1], log[|log| - 1];
      assert log == front + [last];
      OwnPopsAmongRemovals(front, h);
    }
  }

  lemma {:induction false} PrefixIffOnLog(log: seq<Removal>, h: nat, stream: seq<real>)
    requires forall k :: 0 <= k < |log| ==> log[k].owner == Some(log[k].sample.gen)
    requires Numbered(Of(log, h), stream, h)
    ensures Numbered(ByHandle(log, h), stream, h) <==> NeverForeign(log, h) && NeverRobbed(log, h)
  {
    if log != [] {
      var front, last := log[..|log| - 1], log[|log| - 1];
      assert log == front + [last];
      assert Of(log, h)[..|Of(front, h)|] == Of(front, h);
      PrefixIffOnLog(front, h, stream);
      if last.via == Some(h) { LastPopFits(front, last, h, stream); }
    }
  }

  lemma LastPopFits(front: seq<Removal>, last: Removal, h: nat, stream: seq<real>)
    requires forall k :: 0 <= k < |front| ==> front[k].owner == Some(front[k].sample.gen)
    requires last.owner == Some(last.sample.gen) && last.via == Some(h)
    requires Numbered(Of(front + [last], h), stream, h)
    requires Numbered(ByHandle(front, h), stream, h) <==> NeverForeign(front, h) && NeverRobbed(front, h)
    ensures Numbered(ByHandle(front + [last], h), stream, h)
       <==> NeverForeign(front + [last], h) && NeverRobbed(front + [last], h)
  {
    var log := front + [last];
    LogGrows(front, last);
    var mine, all := ByHandle(front, h), Of(front, h);
    assert ByHandle(log, h) == mine + [last.sample];
    if last.owner == Some(h) { assert Of(log, h)[|all|] == last.sample; }
    if Numbered(ByHandle(log, h), stream, h) {
      assert ByHandle(log, h)[..|mine|] == mine && ByHandle(log, h)[|mine|] == last.sample;
      assert Numbered(mine, stream, h);
      OwnPopsAmongRemovals(front, h);
      assert |mine| == |all|;
    }
    if NeverForeign(log, h) && NeverRobbed(log, h) {
      assert forall k :: 0 <= k < |front| ==> front[k] == log[k];
      assert NeverForeign(front, h) && NeverRobbed(front, h);
      assert forall k :: 0 <= k < |front| && front[k].owner == Some(h) ==> front[k].via == Some(h);
      OwnPopsAmongRemovals(front, h);
      assert ByHandle(log, h) == Of(log, h);
    }
  }

  /** What a handle has delivered is samples 0, 1, 2, ... of its own track if and only if each of its
      pops found its own track in the slot, and nobody else had taken a sample of that track before. */
  lemma DeliveredIsPrefix(steps: seq<Step>, m: Machine, h: nat)
    requires IsRun(START, steps, m) && h in m.streams
    ensures Numbered(Got(m, h), m.streams[h], h) <==> NeverForeign(m.removals, h) && NeverRobbed(m.removals, h)
    ensures NeverForeign(m.removals, h) && NeverRobbed(m.removals, h) ==> Values(Got(m, h)) <= m.streams[h]
  {
    StartInv();
    RunKeepsInv(START, steps, m);
    PrefixIffOnLog(m.removals, h, m.streams[h]);
  }

  lemma LogOnlyGrows(m: Machine, s: Step)
    requires Placed(m) && Enabled(m, s)
    ensures m.removals <= Next(m, s).removals
  {
    match s
    case DecoderStep(t) =>
      DecoderFrame(m, t);
      hide DecoderStepped;
    case ReadStep =>
      ReadFrame(m);
      hide ReadStepped;
    case _ =>
  }

  lemma {:induction false} LogGrowsOverRun(m: Machine, more: seq<Step>, m': Machine)
    requires IsRun(m, more, m')
    ensures m.removals <= m'.removals
    decreases |more|
  {
    hide Next, Enabled;
    if more != [] {
      LogOnlyGrows(m, more[0]);
      LogGrowsOverRun(Next(m, more[0]), more[1..], m');
    }
  }

  lemma {:induction false} RunAppend(m: Machine, steps: seq<Step>, mid: Machine, more: seq<Step>, m': Machine)
    requires IsRun(m, steps, mid) && IsRun(mid, more, m')
    ensures IsRun(m, steps + more, m')
    decreases |steps|
  {
    hide Next, Enabled, Placed;
    if steps == [] {
      assert steps + more == more;
    } else {
      RunAppend(Next(m, steps[0]), steps[1..], mid, more, m');
      assert (steps + more)[1..] == steps[1..] + more;
    }
  }

  /** `read` ignores the id of its handle. A read whose slot has passed to another track takes that
      track's next sample, and what its handle has delivered is never a prefix again. */
  lemma StaleReadSpoils(steps: seq<Step>, m: Machine, more: seq<Step>, m': Machine)
    requires IsRun(START, steps, m) && m.audio.Popping? && |m.audio.out| < m.audio.want
    requires InSlot(m, m.audio.slot) && m.rings[m.audio.slot].queue != []
    requires m.rings[m.audio.slot].gen != Some(m.audio.gen)
    requires IsRun(m, [ReadStep] + more, m') && m.audio.gen in m'.streams
    ensures m.rings[m.audio.slot].gen == Some(m.rings[m.audio.slot].queue[0].gen)
    ensures !Numbered(Got(m', m.audio.gen), m'.streams[m.audio.gen], m.audio.gen)
  {
    StartInv();
    RunKeepsInv(START, steps, m);
    PopMovesOne(m, m.audio.slot, Some(m.audio.gen));
    var popped := Next(m, ReadStep);
    assert ([ReadStep] + more)[1..] == more;
    var k := |m.removals|;
    assert popped.removals[k].via == Some(m.audio.gen) && popped.removals[k].owner != Some(m.audio.gen);
    hide Next, Inv, RingOk, Enabled, Numbered, Of;
    LogGrowsOverRun(popped, more, m');
    assert m'.removals[k] == popped.removals[k];
    RunAppend(START, steps, m, [ReadStep] + more, m');
    DeliveredIsPrefix(steps + ([ReadStep] + more), m', m.audio.gen);
  }

  /** While a handle is open nothing is lost on the way: what left the ring, what is in it and what
      the decoder still has to push are the stream, and once the decoder has ended well and the
      ring is empty, a handle that alone read the track has delivered all of it. */
  lemma OpenHandleLosesNothing(steps: seq<Step>, m: Machine, i: nat, g: nat)
    requires IsRun(START, steps, m) && InSlot(m, i) && m.rings[i].gen == Some(g) && !m.rings[i].shutdown
    ensures g in m.streams
    ensures var all := Of(m.removals, g) + m.rings[i].queue;
            && Numbered(all, m.streams[g], g)
            && (g in m.threads ==> m.streams[g][|all|..] == Rest(m.threads[g]))
            && (g !in m.threads && g !in m.cut ==> |all| == |m.streams[g]|)
    ensures m.rings[i].queue == [] && g !in m.threads && g !in m.cut && NeverForeign(m.removals, g)
            && (forall k :: 0 <= k < |m.removals| && m.removals[k].owner == Some(g) ==> m.removals[k].via == Some(g))
            ==> Values(Got(m, g)) == m.streams[g]
  {
    StartInv();
    RunKeepsInv(START, steps, m);
    assert RingOk(m, i);
    if m.rings[i].queue == [] && NeverForeign(m.removals, g) {
      OwnPopsAmongRemovals(m.removals, g);
      assert Of(m.removals, g) + m.rings[i].queue == Of(m.removals, g);
    }
  }

  // ---------------------------------------------------------------- when callers take turns

  /** The callers' side of it: a handle is read only between its `open` and its `close`, and is not
      closed while it is being read. */
  ghost predicate InTurn(m: Machine, s: Step)
    requires Placed(m) && Enabled(m, s)
  {
    && (s.CloseSignal? ==> !(m.audio.Popping? && m.audio.slot == s.slot))
    && (s.ReadBegin? ==> m.rings[m.handles[s.gen]].gen == Some(s.gen) && !m.rings[m.handles[s.gen]].shutdown)
  }

  ghost predicate IsRunInTurn(m: Machine, steps: seq<Step>, m': Machine)
    decreases |steps|
  {
    if steps == [] then m' == m
    else Placed(m) && Enabled(m, steps[0]) && InTurn(m, steps[0]) && IsRunInTurn(Next(m, steps[0]), steps[1..], m')
  }

  /** No drain of the control thread took a sample of a generation that is still open. */
  ghost predicate DrainsClosed(m: Machine) {
    forall i, k :: 0 <= i < |m.rings| && 0 <= k < |m.removals| && m.removals[k].via == None
                   && m.rings[i].gen == m.removals[k].owner
                   ==> m.rings[i].shutdown
  }

  /** No read is in progress on a closing slot or another track's, and only closes took samples
      that were not their reader's. */
  ghost predicate Polite(m: Machine) {
    && (m.audio.Popping? ==>
          && InSlot(m, m.audio.slot)
          && m.rings[m.audio.slot].gen == Some(m.audio.gen) && !m.rings[m.audio.slot].shutdown)
    && (forall k :: 0 <= k < |m.removals| && m.removals[k].via.Some? ==> m.removals[k].owner == m.removals[k].via)
    && DrainsClosed(m)
    && (forall h: nat :: NeverRobbed(m.removals, h))
  }

  lemma RobbedGrows(log: seq<Removal>, r: Removal, h: nat)
    requires NeverRobbed(log, h)
    requires r.via == Some(h) ==> forall j :: 0 <= j < |log| && log[j].owner == Some(h) ==> log[j].via == Some(h)
    ensures NeverRobbed(log + [r], h)
  {
  }

  lemma DrainStaysPolite(m: Machine, i: nat)
    requires Inv(m) && Polite(m) && InSlot(m, i) && m.rings[i].queue != [] && m.rings[i].shutdown
    ensures Polite(Popped(m, i, None))
  {
    hide RingOk, LogOk, BooksOk, ReadsOk, ThreadsOk, NeverRobbed;
    PopMovesOne(m, i, None);
    var r := Removal(None, m.rings[i].gen, m.rings[i].queue[0]);
    forall h: nat ensures NeverRobbed(m.removals + [r], h) { RobbedGrows(m.removals, r, h); }
  }

  lemma QuietStaysPolite(m: Machine, m': Machine, i: nat)
    requires Polite(m) && InSlot(m, i) && m' == m.(rings := m'.rings, control := m'.control, handles := m'.handles)
    requires |m'.rings| == |m.rings| && m'.rings == m.rings[i := m'.rings[i]]
    requires m'.rings[i].gen == None
          || (m'.rings[i].gen == m.rings[i].gen && (m.rings[i].shutdown ==> m'.rings[i].shutdown))
    requires m.audio.Popping? && m.audio.slot == i ==> m'.rings[i].gen == m.rings[i].gen && !m'.rings[i].shutdown
    requires forall k :: 0 <= k < |m.removals| ==> m.removals[k].owner.Some?
    ensures Polite(m')
  {
    hide NeverRobbed;
  }

  lemma ControlStaysPolite(m: Machine, s: Step)
    requires Inv(m) && Enabled(m, s) && Polite(m) && InTurn(m, s)
    requires s.OpenClaim? || s.OpenFails? || s.CloseSignal? || s.ControlStep?
    ensures Polite(Next(m, s))
  {
    var c := m.control;
    var i := if s.OpenClaim? || s.CloseSignal? then s.slot else c.slot;
    assert RingOk(m, i);
    assert forall k :: 0 <= k < |m.removals| ==> m.removals[k].owner.Some?;
    hide LogOk, BooksOk, ReadsOk, ThreadsOk, Flow, NeverRobbed, GensDistinct;
    if s.ControlStep? && (c.AtBeltDrain? || c.AtFinalDrain?) && m.rings[i].queue != []
       && (c.AtBeltDrain? ==> c.left > 0) {
      DrainStaysPolite(m, i);
    } else {
      hide Polite, DrainsClosed;
      if m.audio.Popping? { PoliteAudio(m); }
      QuietStaysPolite(m, Next(m, s), i);
    }
  }

  lemma PoliteAudio(m: Machine)
    requires Polite(m) && m.audio.Popping?
    ensures InSlot(m, m.audio.slot) && m.rings[m.audio.slot].gen.Some? && !m.rings[m.audio.slot].shutdown
  {
  }

  lemma ReadStaysPolite(m: Machine)
    requires Inv(m) && Polite(m) && m.audio.Popping?
    ensures Polite(ReadStepped(m))
  {
    hide RingOk, LogOk, BooksOk, ReadsOk, ThreadsOk, NeverRobbed;
    var a, log := m.audio, m.removals;
    if |a.out| < a.want && m.rings[a.slot].queue != [] {
      PopMovesOne(m, a.slot, Some(a.gen));
      var r := Removal(Some(a.gen), Some(a.gen), m.rings[a.slot].queue[0]);
      forall h: nat ensures NeverRobbed(log + [r], h) { RobbedGrows(log, r, h); }
    }
  }

  lemma SpawnStaysPolite(m: Machine)
    requires Inv(m) && Enabled(m, OpenSpawn) && Polite(m)
    ensures Polite(Next(m, OpenSpawn))
  {
    SpawnRing(m);
    hide RingOk, BooksOk, ReadsOk, ThreadsOk, NeverRobbed, Of, Numbered, Stream;
    assert forall k :: 0 <= k < |m.removals| ==> m.removals[k].owner != Some(m.nextThread);
  }

  lemma StepStaysPolite(m: Machine, s: Step)
    requires Inv(m) && Enabled(m, s) && Polite(m) && InTurn(m, s)
    ensures Polite(Next(m, s))
  {
    match s
    case OpenSpawn => SpawnStaysPolite(m);
    case ReadStep => ReadStaysPolite(m);
    case DecoderStep(t) =>
      DecoderFrame(m, t);
      hide DecoderStepped, RingOk, BooksOk, ReadsOk, ThreadsOk, NeverRobbed, LogOk;
    case DecoderFails(_) =>
    case ReadBegin(_, _) =>
    case _ => ControlStaysPolite(m, s);
  }

  lemma {:induction false} RunStaysPolite(m: Machine, steps: seq<Step>, m': Machine)
    requires Inv(m) && Polite(m) && IsRunInTurn(m, steps, m')
    ensures Inv(m') && Polite(m') && IsRun(m, steps, m')
    decreases |steps|
  {
    hide Inv, Polite, Enabled, Next;
    if steps != [] {
      StepKeepsInv(m, steps[0]);
      StepStaysPolite(m, steps[0]);
      RunStaysPolite(Next(m, steps[0]), steps[1..], m');
    }
  }

  lemma {:induction false} InTurnIsPolite(steps: seq<Step>, m: Machine, h: nat)
    requires IsRunInTurn(START, steps, m)
    ensures IsRun(START, steps, m) && Polite(m) && NeverForeign(m.removals, h) && NeverRobbed(m.removals, h)
  {
    StartInv();
    assert Polite(START);
    RunStaysPolite(START, steps, m);
  }

  /** When callers take turns every handle delivers a prefix of its own track, before and after its
      close; and of a track whose decoder has ended well and whose ring is empty, all of it. */
  lemma InTurnDeliversPrefix(steps: seq<Step>, m: Machine, h: nat)
    requires IsRunInTurn(START, steps, m) && h in m.streams
    ensures Values(Got(m, h)) <= m.streams[h]
    ensures forall i :: 0 <= i < |m.rings| && m.rings[i].gen == Some(h) && !m.rings[i].shutdown
                        && m.rings[i].queue == [] && h !in m.threads && h !in m.cut
                        ==> Values(Got(m, h)) == m.streams[h]
  {
    InTurnIsPolite(steps, m, h);
    DeliveredIsPrefix(steps, m, h);
    forall i | 0 <= i < |m.rings| && m.rings[i].gen == Some(h) && !m.rings[i].shutdown
               && m.rings[i].queue == [] && h !in m.threads && h !in m.cut
      ensures Values(Got(m, h)) == m.streams[h]
    {
      OpenHandleLosesNothing(steps, m, i, h);
    }
  }

  // ---------------------------------------------------------------- a close in the middle of a read

  lemma Then(steps: seq<Step>, m: Machine, s: Step) returns (longer: seq<Step>, m': Machine)
    requires IsRun(START, steps, m) && Placed(m) && Enabled(m, s)
    ensures IsRun(START, longer, m') && m' == Next(m, s)
  {
    longer, m' := steps + [s], Next(m, s);
    assert IsRun(m', [], m') && IsRun(m, [s], m');
    RunAppend(START, steps, m, [s], m');
  }

  /** Slot 0 is open with both samples of a two-sample track in its ring. */
  ghost predicate TwoQueued(m: Machine) {
    && Placed(m) && m.control == Idle && m.audio == Silent && m.removals == [] && m.finished == []
    && m.handles == map[0 := 0] && m.streams == map[0 := [1.0, 2.0]]
    && m.rings[0] == Ring(true, [Sample(1.0, 0, 0), Sample(2.0, 0, 1)], false, Some(0), Some(0))
  }

  const TWO_SAMPLES: seq<Frames> := [([1.0], [2.0])]

  lemma TwoSamples()
    ensures Interleave(TWO_SAMPLES[0].0, TWO_SAMPLES[0].1) == [1.0, 2.0] && Stream(TWO_SAMPLES) == [1.0, 2.0]
  {
    assert Interleave([1.0][1..], [2.0][1..]) == [];
    assert TWO_SAMPLES[1..] == [];
  }

  lemma OpenSlot() returns (steps: seq<Step>, m: Machine)
    ensures IsRun(START, steps, m) && Placed(m) && m.control == Idle && m.audio == Silent
    ensures m.removals == [] && m.finished == [] && m.handles == map[0 := 0] && m.streams == map[0 := [1.0, 2.0]]
    ensures m.threads == map[0 := Decoder(0, TWO_SAMPLES, [], false, 0)]
    ensures m.rings[0] == Ring(true, [], false, Some(0), Some(0))
  {
    TwoSamples();
    BeginRun();
    hide Interleave, Stream, IsRun;
    steps, m := Then([], START, OpenClaim(0, TWO_SAMPLES));
    steps, m := Then(steps, m, ControlStep);
    steps, m := Then(steps, m, ControlStep);
    steps, m := Then(steps, m, OpenSpawn);
    steps, m := Then(steps, m, ControlStep);
  }

  lemma OpenTwoSamples() returns (steps: seq<Step>, m: Machine)
    ensures IsRun(START, steps, m) && TwoQueued(m)
  {
    TwoSamples();
    hide Interleave, Stream, IsRun;
    steps, m := OpenSlot();
    steps, m := Then(steps, m, DecoderStep(0));
    assert m.threads[0].chunk == [1.0, 2.0];
    steps, m := Then(steps, m, DecoderStep(0));
    steps, m := Then(steps, m, DecoderStep(0));
    assert m.rings[0].queue == [Sample(1.0, 0, 0)] && m.threads[0].chunk == [2.0];
    steps, m := Then(steps, m, DecoderStep(0));
    steps, m := Then(steps, m, DecoderStep(0));
  }

  lemma BeginRun()
    ensures IsRun(START, [], START)
  {
  }

  lemma CloseBegun() returns (steps: seq<Step>, m: Machine)
    ensures IsRun(START, steps, m) && Placed(m) && m.streams == map[0 := [1.0, 2.0]] && m.finished == []
    ensures m.removals == [Removal(None, Some(0), Sample(1.0, 0, 0))] && m.audio == Popping(0, 0, 2, [])
    ensures m.rings[0].gen == Some(0) && m.rings[0].queue == [Sample(2.0, 0, 1)]
  {
    steps, m := OpenTwoSamples();
    hide IsRun;
    steps, m := Then(steps, m, ReadBegin(0, 2));
    steps, m := Then(steps, m, CloseSignal(0));
    steps, m := Then(steps, m, ControlStep);
  }

  /** A handle read in its own track's time only, whose close drains the first sample while the
      read is under way, delivers the second sample alone: no prefix of the track. */
  lemma CloseOverlapsRead() returns (steps: seq<Step>, m: Machine)
    ensures IsRun(START, steps, m) && m.streams == map[0 := [1.0, 2.0]]
    ensures NeverForeign(m.removals, 0) && Values(Got(m, 0)) == [2.0]
    ensures !Numbered(Got(m, 0), m.streams[0], 0)
  {
    steps, m := CloseBegun();
    hide IsRun;
    steps, m := Then(steps, m, ReadStep);
    assert Got(m, 0) == [Sample(2.0, 0, 1)];
    assert Got(m, 0)[0] != Sample(1.0, 0, 0);
  }
}
