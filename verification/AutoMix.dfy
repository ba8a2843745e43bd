/** The auto-mix controller (`copilot/auto_mix.py`): per-deck arming, the background tasks that
    submit a plan's events one await at a time, and switching auto-mix off in the middle. The
    notifier does not suspend, so `tick` and `set_auto_mix` are single steps; a task runs from
    one submission's await to the next. What the engine reports, what the ranker proposes and
    whether a submission succeeds is up to the environment. */
module AutoMix {
  import opened Wrappers
  import opened Playlist

  const LOOKAHEAD_MS := 30_000

  datatype DeckId = A | B

  datatype Status = Idle | Armed | Transitioning | Done

  /** What the controller reads off one deck; the duration comes from the library row. */
  datatype DeckView = DeckView(
    loaded: Option<TrackId>, playing: bool, engaged: bool, positionMs: int, durationMs: Option<int>)

  datatype EngineView = EngineView(deckA: DeckView, deckB: DeckView, crossfader: real) {
    function Deck(d: DeckId): DeckView { if d == A then deckA else deckB }
  }

  type Event = int

  type Plan = seq<Event>

  // ---------------------------------------------------------------- when to mix

  /** `_seconds_to_mix`: whole seconds left, once inside the look-ahead window. */
  function SecondsToMix(v: DeckView): Option<int> {
    if v.loaded.None? || !v.playing || v.durationMs.None? || v.durationMs.value <= 0 then None
    else
      var remaining := v.durationMs.value - v.positionMs;
      if remaining > LOOKAHEAD_MS then None
      else Some(if remaining / 1000 > 0 then remaining / 1000 else 0)
  }

  function Eligible(v: DeckView, enabled: bool): bool {
    enabled && v.engaged && v.playing && v.loaded.Some?
    && SecondsToMix(v).Some? && SecondsToMix(v).value >= 0
  }

  /** The window opens 30 seconds before the end and stays open past it; inside it the countdown
      is the floor of the seconds left, never negative. */
  lemma EligibleMeaning(v: DeckView, enabled: bool)
    ensures Eligible(v, enabled) <==>
              enabled && v.engaged && v.playing && v.loaded.Some? && v.durationMs.Some? && v.durationMs.value > 0
              && v.positionMs >= v.durationMs.value - 30_000
    ensures Eligible(v, enabled) ==>
              var left := v.durationMs.value - v.positionMs;
              var s := SecondsToMix(v).value;
              if left < 0 then s == 0 else 1000 * s <= left < 1000 * s + 1000
  {
  }

  /** `_active_deck`. */
  function ActiveDeck(view: EngineView): Option<DeckId> {
    if view.deckA.playing && !view.deckB.playing then Some(A)
    else if view.deckB.playing && !view.deckA.playing then Some(B)
    else if view.deckA.playing && view.deckB.playing then Some(if view.crossfader < 0.5 then A else B)
    else None
  }

  /** A deck that plays alone is the active one; of two the crossfader decides; else there is none. */
  lemma ActiveDeckMeaning(view: EngineView)
    ensures ActiveDeck(view) == Some(A) <==> view.deckA.playing && (view.deckB.playing ==> view.crossfader < 0.5)
    ensures ActiveDeck(view) == Some(B) <==> view.deckB.playing && (view.deckA.playing ==> view.crossfader >= 0.5)
    ensures ActiveDeck(view) == None <==> !view.deckA.playing && !view.deckB.playing
  {
  }

  /** What a tick is told: the engine state, the library, the ranker's answer should it be asked
      for either deck, and the plan that a playlist pick turns into. */
  datatype TickInput = TickInput(
    view: EngineView, catalog: set<TrackId>, rankedA: Option<Plan>, rankedB: Option<Plan>, plans: map<TrackId, Plan>)
  {
    function Ranked(d: DeckId): Option<Plan> { if d == A then rankedA else rankedB }
  }

  function PlanFor(input: TickInput, track: TrackId): Plan {
    if track in input.plans then input.plans[track] else []
  }

  /** `_build_proposal` as called for deck `d`, and the queue it leaves. */
  function BuildProposal(queue: seq<Item>, d: DeckId, input: TickInput): (Option<Plan>, seq<Item>) {
    if queue == [] then (input.Ranked(d), queue)
    else
      var active := ActiveDeck(input.view);
      if active.None? || input.view.Deck(active.value).loaded.None? then (None, queue)
      else
        var rest := DropDangling(queue, input.catalog);
        if rest == [] then (None, []) else (Some(PlanFor(input, rest[0].trackId)), rest[1..])
  }

  /** A deck plays a loaded track, alone or on the louder side of the crossfader. */
  predicate OnAir(view: EngineView) {
    || (view.deckA.playing && view.deckA.loaded.Some? && (!view.deckB.playing || view.crossfader < 0.5))
    || (view.deckB.playing && view.deckB.loaded.Some? && (!view.deckA.playing || view.crossfader >= 0.5))
  }

  /** A queue that has entries is consumed exactly when a deck is on air; then the first known entry
      is played, and the ranker is never asked. An empty queue leaves it all to the ranker. */
  lemma QueueComesFirst(queue: seq<Item>, d: DeckId, input: TickInput) returns (n: nat)
    ensures n <= |queue| && forall k :: 0 <= k < n ==> queue[k].trackId !in input.catalog
    ensures n < |queue| ==> queue[n].trackId in input.catalog
    ensures var (plan, left) := BuildProposal(queue, d, input);
            if queue == [] then left == [] && plan == if d == A then input.rankedA else input.rankedB
            else if !OnAir(input.view) then plan == None && left == queue
            else if n == |queue| then plan == None && left == []
            else
              && plan == Some(if queue[n].trackId in input.plans then input.plans[queue[n].trackId] else [])
              && left == queue[n + 1..]
  {
    ActiveDeckMeaning(input.view);
    DropDanglingMeaning(queue, input.catalog);
    n := |queue| - |DropDangling(queue, input.catalog)|;
  }

  // ---------------------------------------------------------------- the controller

  datatype PerDeck = PerDeck(
    enabled: bool, status: Status, lastTrack: Option<TrackId>, lastSeconds: Option<int>, inFlight: Option<nat>)

  datatype Ending = Completed | Failed | Unwound

  datatype Pc = Created | Submitting | Ended(how: Ending)

  /** A background task: the plan it submits, the track it was launched for, how many
      submissions it has started. */
  datatype Task = Task(deck: DeckId, track: Option<TrackId>, plan: Plan, pc: Pc, started: nat, cancelled: bool)

  datatype Submission = Submission(task: nat, event: Event)

  /** `out` is every submission started, in order. `sawOther` remembers for which tasks a later
      tick found the deck holding another track than the one they were launched for. */
  datatype Controller = Controller(
    deckA: PerDeck, deckB: PerDeck, queue: seq<Item>, tasks: seq<Task>, out: seq<Submission>, sawOther: set<nat>)
  {
    function Deck(d: DeckId): PerDeck { if d == A then deckA else deckB }

    function With(d: DeckId, per: PerDeck): Controller {
      if d == A then this.(deckA := per) else this.(deckB := per)
    }
  }

  const FRESH_DECK := PerDeck(false, Idle, None, None, None)

  const START := Controller(FRESH_DECK, FRESH_DECK, [], [], [], {})

  datatype Step =
    | Enqueued(item: Item)
    | SetAutoMix(deck: DeckId, enabled: bool)
    | Tick(input: TickInput)
    | TaskRuns(task: nat, ok: bool)

  function SwitchedTo(m: Controller, d: DeckId, enabled: bool): Controller {
    var per := m.Deck(d).(enabled := enabled);
    if enabled || per.inFlight.None? then m.With(d, per)
    else
      var t := per.inFlight.value;
      m.With(d, per.(inFlight := None, status := Idle, lastSeconds := None))
        .(tasks := if t < |m.tasks| && !m.tasks[t].pc.Ended? then m.tasks[t := m.tasks[t].(cancelled := true)]
                   else m.tasks)
  }

  function TickDeck(m: Controller, d: DeckId, input: TickInput): Controller {
    var per, v := m.Deck(d), input.view.Deck(d);
    if per.status == Transitioning || per.status == Done then
      if v.loaded != per.lastTrack
      then m.With(d, per.(status := Idle, lastTrack := None, lastSeconds := None))
      else m
    else if !Eligible(v, per.enabled) then m.With(d, per.(lastSeconds := None))
    else
      var counted := per.(lastSeconds := SecondsToMix(v));
      if per.status != Idle then m.With(d, counted)
      else
        var (plan, left) := BuildProposal(m.queue, d, input);
        if plan.None? then m.With(d, counted).(queue := left)
        else
          m.With(d, counted.(status := Armed, lastTrack := v.loaded, inFlight := Some(|m.tasks|)))
            .(queue := left, tasks := m.tasks + [Task(d, v.loaded, plan.value, Created, 0, false)])
  }

  function Sightings(m: Controller, input: TickInput): set<nat> {
    set t | 0 <= t < |m.tasks| && input.view.Deck(m.tasks[t].deck).loaded != m.tasks[t].track
  }

  function Ticked(m: Controller, input: TickInput): Controller {
    TickDeck(TickDeck(m, A, input), B, input).(sawOther := m.sawOther + Sightings(m, input))
  }

  /** The `finally` of `_execute`, with the status the ending leaves. */
  function EndTask(m: Controller, t: nat, how: Ending): Controller
    requires t < |m.tasks|
  {
    var d := m.tasks[t].deck;
    var per := m.Deck(d).(inFlight := None);
    m.With(d, match how
              case Completed => per.(status := Done)
              case Failed => per.(status := Idle, lastSeconds := None)
              case Unwound => per)
      .(tasks := m.tasks[t := m.tasks[t].(pc := Ended(how))])
  }

  function SubmitNext(m: Controller, t: nat): Controller
    requires t < |m.tasks| && m.tasks[t].started <= |m.tasks[t].plan|
  {
    var task := m.tasks[t];
    if task.started == |task.plan| then EndTask(m, t, Completed)
    else
      m.(tasks := m.tasks[t := task.(pc := Submitting, started := task.started + 1)],
         out := m.out + [Submission(t, task.plan[task.started])])
  }

  /** A task runs to its next await. Cancelled before its first step it never runs its body. */
  function TaskStepped(m: Controller, t: nat, ok: bool): Controller
    requires t < |m.tasks| && m.tasks[t].started <= |m.tasks[t].plan|
  {
    var task := m.tasks[t];
    match task.pc
    case Created =>
      if task.cancelled then m.(tasks := m.tasks[t := task.(pc := Ended(Unwound))])
      else SubmitNext(m.With(task.deck, m.Deck(task.deck).(status := Transitioning)), t)
    case Submitting =>
      if task.cancelled then EndTask(m, t, Unwound)
      else if !ok then EndTask(m, t, Failed)
      else SubmitNext(m, t)
    case Ended(_) => m
  }

  function Next(m: Controller, s: Step): Controller {
    match s
    case Enqueued(item) => m.(queue := m.queue + [item])
    case SetAutoMix(d, enabled) => SwitchedTo(m, d, enabled)
    case Tick(input) => Ticked(m, input)
    case TaskRuns(t, ok) =>
      if t < |m.tasks| && m.tasks[t].started <= |m.tasks[t].plan| then TaskStepped(m, t, ok) else m
  }

  function Run(steps: seq<Step>): Controller {
    if steps == [] then START else Next(Run(steps[..|steps| - 1]), steps[|steps| - 1])
  }

  // ---------------------------------------------------------------- when plans are launched

  /** The deck's track is in its last 30 seconds, and the deck is free to mix. */
  predicate Due(per: PerDeck, v: DeckView) {
    && per.enabled && per.status == Idle && v.engaged && v.playing && v.loaded.Some?
    && v.durationMs.Some? && v.durationMs.value > 0 && v.positionMs >= v.durationMs.value - 30_000
  }

  lemma TickDeckLaunches(m: Controller, d: DeckId, input: TickInput)
    ensures var m' := TickDeck(m, d, input);
            var per, per' := if d == A then m.deckA else m.deckB, if d == A then m'.deckA else m'.deckB;
            var v := if d == A then input.view.deckA else input.view.deckB;
            var (plan, left) := BuildProposal(m.queue, d, input);
            && (if d == A then m'.deckB == m.deckB else m'.deckA == m.deckA)
            && (if Due(per, v) && plan.Some?
                then m'.tasks == m.tasks + [Task(d, v.loaded, plan.value, Created, 0, false)]
                     && per'.status == Armed && per'.inFlight == Some(|m.tasks|) && per'.lastTrack == v.loaded
                else m'.tasks == m.tasks && per'.inFlight == per.inFlight)
            && m'.queue == if Due(per, v) then left else m.queue
  {
    hide BuildProposal, SecondsToMix, Eligible;
    EligibleMeaning(input.view.Deck(d), m.Deck(d).enabled);
    assert Due(m.Deck(d), input.view.Deck(d)) <==>
           m.Deck(d).status == Idle && Eligible(input.view.Deck(d), m.Deck(d).enabled);
    var plan := BuildProposal(m.queue, d, input).0;
    assert plan.None? || plan.Some?;
  }

  /** What a tick shows of a deck: once a plan is under way nothing changes until the deck holds
      another track, which makes it idle again; else the whole seconds left, inside the last 30
      seconds of a track auto-mix may end, and no countdown outside of them. */
  lemma TickShows(m: Controller, input: TickInput, d: DeckId)
    ensures var m' := Next(m, Tick(input));
            var per, per' := if d == A then m.deckA else m.deckB, if d == A then m'.deckA else m'.deckB;
            var v := if d == A then input.view.deckA else input.view.deckB;
            if per.status == Transitioning || per.status == Done then
              per' == if v.loaded == per.lastTrack then per
                      else per.(status := Idle, lastTrack := None, lastSeconds := None)
            else if per.enabled && v.engaged && v.playing && v.loaded.Some? && v.durationMs.Some?
                    && v.durationMs.value > 0 && v.durationMs.value - v.positionMs <= 30_000 then
              var left := v.durationMs.value - v.positionMs;
              per'.lastSeconds == Some(if left < 0 then 0 else left / 1000)
            else per' == per.(lastSeconds := None)
  {
    TickDeckShows(m, A, input);
    TickDeckShows(TickDeck(m, A, input), B, input);
    hide TickDeck;
  }

  lemma TickDeckShows(m: Controller, d: DeckId, input: TickInput)
    ensures var m' := TickDeck(m, d, input);
            var per, per' := if d == A then m.deckA else m.deckB, if d == A then m'.deckA else m'.deckB;
            var v := if d == A then input.view.deckA else input.view.deckB;
            && (if d == A then m'.deckB == m.deckB else m'.deckA == m.deckA)
            && (if per.status == Transitioning || per.status == Done then
                  per' == if v.loaded == per.lastTrack then per
                          else per.(status := Idle, lastTrack := None, lastSeconds := None)
                else if per.enabled && v.engaged && v.playing && v.loaded.Some? && v.durationMs.Some?
                        && v.durationMs.value > 0 && v.durationMs.value - v.positionMs <= 30_000 then
                  var left := v.durationMs.value - v.positionMs;
                  per'.lastSeconds == Some(if left < 0 then 0 else left / 1000)
                else per' == per.(lastSeconds := None))
  {
    hide BuildProposal;
  }

  /** The queue that deck B's turn of a tick finds: what deck A's has left. */
  function QueueAt(m: Controller, d: DeckId, input: TickInput): seq<Item> {
    if d == A then m.queue else TickDeck(m, A, input).queue
  }

  /** A deck's turn takes the queue it finds exactly when the deck is due. */
  lemma QueueHandedOn(m: Controller, input: TickInput)
    ensures QueueAt(m, A, input) == m.queue
    ensures QueueAt(m, B, input) ==
            if Due(m.deckA, input.view.deckA) then BuildProposal(m.queue, A, input).1 else m.queue
  {
    TickDeckLaunches(m, A, input);
    hide TickDeck, BuildProposal;
  }

  /** A tick launches a plan for a deck exactly when the deck is due and there is a proposal: one
      task, for the loaded track, with the proposed plan and nothing of it submitted yet. */
  lemma TickLaunchesIff(m: Controller, input: TickInput, d: DeckId)
    ensures var m' := Next(m, Tick(input));
            var per, per' := if d == A then m.deckA else m.deckB, if d == A then m'.deckA else m'.deckB;
            var v := if d == A then input.view.deckA else input.view.deckB;
            var plan := BuildProposal(QueueAt(m, d, input), d, input).0;
            && |m.tasks| <= |m'.tasks| && m'.tasks[..|m.tasks|] == m.tasks
            && ((exists t :: |m.tasks| <= t < |m'.tasks| && m'.tasks[t].deck == d) <==> Due(per, v) && plan.Some?)
            && (forall t :: |m.tasks| <= t < |m'.tasks| && m'.tasks[t].deck == d ==>
                  && m'.tasks[t] == Task(d, v.loaded, plan.value, Created, 0, false)
                  && per'.inFlight == Some(t) && per'.status == Armed)
  {
    TickDeckLaunches(m, A, input);
    TickDeckLaunches(TickDeck(m, A, input), B, input);
    hide TickDeck, BuildProposal, Due;
    var mid, m' := TickDeck(m, A, input), Next(m, Tick(input));
    if |mid.tasks| > |m.tasks| { assert m'.tasks[|m.tasks|] == mid.tasks[|m.tasks|]; }
    if |m'.tasks| > |mid.tasks| { assert m'.tasks[|mid.tasks|].deck == B; }
  }

  lemma OthersLaunchNothing(m: Controller, s: Step)
    requires !s.Tick?
    ensures |Next(m, s).tasks| == |m.tasks|
    ensures forall t :: 0 <= t < |m.tasks| ==>
              && Next(m, s).tasks[t].deck == m.tasks[t].deck && Next(m, s).tasks[t].track == m.tasks[t].track
              && Next(m, s).tasks[t].plan == m.tasks[t].plan
  {
  }

  /** Every task of every run was launched by a tick that found its deck due, for the track that
      was loaded and with the plan proposed then. */
  lemma {:induction false} LaunchedWhenDue(steps: seq<Step>, t: nat) returns (k: nat)
    requires t < |Run(steps).tasks|
    ensures k < |steps| && steps[k].Tick?
    ensures var m, input, task := Run(steps[..k]), steps[k].input, Run(steps).tasks[t];
            && (if task.deck == A then Due(m.deckA, input.view.deckA) && input.view.deckA.loaded == task.track
                else Due(m.deckB, input.view.deckB) && input.view.deckB.loaded == task.track)
            && BuildProposal(QueueAt(m, task.deck, input), task.deck, input).0 == Some(task.plan)
  {
    hide Next, Due, BuildProposal, QueueAt;
    k := |steps| - 1;
    var front, last := steps[..k], steps[k];
    var m := Run(front);
    if last.Tick? {
      TickLaunchesIff(m, last.input, A);
      TickLaunchesIff(m, last.input, B);
      if t < |m.tasks| {
        assert Run(steps).tasks[t] == m.tasks[t];
        k := LaunchedWhenDue(front, t);
        assert front[..k] == steps[..k];
      }
    } else {
      OthersLaunchNothing(m, last);
      k := LaunchedWhenDue(front, t);
      assert front[..k] == steps[..k];
    }
  }

  // ---------------------------------------------------------------- the queue over a run

  /** The entries a run puts on the queue, in order. */
  function EnqueuedBy(steps: seq<Step>): seq<Item> {
    if steps == [] then []
    else
      var last := steps[|steps| - 1];
      EnqueuedBy(steps[..|steps| - 1]) + if last.Enqueued? then [last.item] else []
  }

  lemma ProposalConsumes(queue: seq<Item>, d: DeckId, input: TickInput) returns (n: nat)
    ensures n <= |queue| && BuildProposal(queue, d, input).1 == queue[n..]
  {
    var k := QueueComesFirst(queue, d, input);
    var left := BuildProposal(queue, d, input).1;
    n := |queue| - |left|;
  }

  lemma StepConsumes(m: Controller, s: Step) returns (n: nat)
    ensures n <= |m.queue| && Next(m, s).queue == m.queue[n..] + if s.Enqueued? then [s.item] else []
  {
    if s.Tick? {
      TickDeckLaunches(m, A, s.input);
      TickDeckLaunches(TickDeck(m, A, s.input), B, s.input);
      var i := ProposalConsumes(m.queue, A, s.input);
      var mid := TickDeck(m, A, s.input);
      var j := ProposalConsumes(mid.queue, B, s.input);
      n := |m.queue| - |Next(m, s).queue|;
      hide TickDeck, BuildProposal, Due;
    } else {
      n := 0;
    }
  }

  /** First in, first out: the queue is always the last of what was put on it, in that order. */
  lemma {:induction false} QueueIsFifo(steps: seq<Step>) returns (n: nat)
    ensures n <= |EnqueuedBy(steps)| && Run(steps).queue == EnqueuedBy(steps)[n..]
  {
    hide Next;
    if steps == [] {
      n := 0;
    } else {
      var front, last := steps[..|steps| - 1], steps[|steps| - 1];
      var earlier := QueueIsFifo(front);
      var taken := StepConsumes(Run(front), last);
      n := earlier + taken;
      assert EnqueuedBy(front)[earlier..][taken..] == EnqueuedBy(front)[n..];
    }
  }

  // ---------------------------------------------------------------- how a task ends

  /** The task running on while every submission succeeds. */
  function RunsOn(m: Controller, t: nat, n: nat): Controller
    decreases n
  {
    if n == 0 then m else RunsOn(Next(m, TaskRuns(t, true)), t, n - 1)
  }

  lemma SubmitsOne(m: Controller, t: nat)
    requires t < |m.tasks| && (m.tasks[t].pc == Created || m.tasks[t].pc == Submitting) && !m.tasks[t].cancelled
    requires m.tasks[t].started < |m.tasks[t].plan|
    ensures var m' := Next(m, TaskRuns(t, true));
            && m'.out == m.out + [Submission(t, m.tasks[t].plan[m.tasks[t].started])]
            && |m'.tasks| == |m.tasks|
            && m'.tasks[t] == m.tasks[t].(pc := Submitting, started := m.tasks[t].started + 1)
            && (m.tasks[t].pc == Created ==>
                  (if m.tasks[t].deck == A then m'.deckA else m'.deckB).status == Transitioning)
  {
  }

  lemma CompletesLast(m: Controller, t: nat)
    requires t < |m.tasks| && (m.tasks[t].pc == Created || m.tasks[t].pc == Submitting) && !m.tasks[t].cancelled
    requires m.tasks[t].started == |m.tasks[t].plan|
    ensures var m' := Next(m, TaskRuns(t, true));
            && m'.out == m.out && |m'.tasks| == |m.tasks| && m'.tasks[t] == m.tasks[t].(pc := Ended(Completed))
            && var per' := if m.tasks[t].deck == A then m'.deckA else m'.deckB;
               per'.status == Done && per'.inFlight == None
  {
  }

  /** A task nobody cancels whose submissions all succeed sends the rest of its plan in order, and
      leaves its deck done and off the books. */
  lemma {:induction false} PlanCompletes(m: Controller, t: nat)
    requires t < |m.tasks| && (m.tasks[t].pc == Created || m.tasks[t].pc == Submitting) && !m.tasks[t].cancelled
    requires m.tasks[t].started <= |m.tasks[t].plan|
    ensures var task := m.tasks[t];
            var m' := RunsOn(m, t, |task.plan| - task.started + 1);
            && |m'.out| == |m.out| + |task.plan| - task.started && m'.out[..|m.out|] == m.out
            && (forall k :: task.started <= k < |task.plan| ==>
                  m'.out[|m.out| + k - task.started] == Submission(t, task.plan[k]))
            && |m'.tasks| == |m.tasks| && m'.tasks[t] == task.(pc := Ended(Completed), started := |task.plan|)
            && var per' := if task.deck == A then m'.deckA else m'.deckB;
               per'.status == Done && per'.inFlight == None
    decreases |m.tasks[t].plan| - m.tasks[t].started
  {
    var next := Next(m, TaskRuns(t, true));
    var n := |m.tasks[t].plan| - m.tasks[t].started;
    if n == 0 {
      CompletesLast(m, t);
      hide Next;
      assert RunsOn(m, t, 1) == RunsOn(next, t, 0);
    } else {
      SubmitsOne(m, t);
      hide Next;
      PlanCompletes(next, t);
      assert RunsOn(m, t, n + 1) == RunsOn(next, t, n);
      var m' := RunsOn(next, t, n);
      assert m'.out[..|m.out|] == m'.out[..|next.out|][..|m.out|];
      assert m'.out[|m.out|] == next.out[|m.out|];
    }
  }

  /** A submission that fails ends the task and leaves its deck idle, to be proposed for again; a
      cancelled task ends at its next step. Neither submits anything more. */
  lemma FailureAndCancelEnd(m: Controller, t: nat, ok: bool)
    requires t < |m.tasks| && !m.tasks[t].pc.Ended? && m.tasks[t].started <= |m.tasks[t].plan|
    requires m.tasks[t].cancelled || (m.tasks[t].pc == Submitting && !ok)
    ensures var m' := Next(m, TaskRuns(t, ok));
            && m'.out == m.out && |m'.tasks| == |m.tasks|
            && m'.tasks[t].pc == Ended(if m.tasks[t].cancelled then Unwound else Failed)
            && (!m.tasks[t].cancelled ==>
                  var per' := if m.tasks[t].deck == A then m'.deckA else m'.deckB;
                  per'.status == Idle && per'.lastSeconds == None && per'.inFlight == None)
  {
  }

  // ---------------------------------------------------------------- plan order, on every run

  /** The events of one task among all submissions, in order. */
  function SentBy(out: seq<Submission>, t: nat): seq<Event> {
    if out == [] then []
    else
      var last := out[|out| - 1];
      SentBy(out[..|out| - 1], t) + if last.task == t then [last.event] else []
  }

  ghost predicate TaskOrderly(m: Controller, t: nat)
    requires t < |m.tasks|
  {
    var task := m.tasks[t];
    task.started <= |task.plan| && SentBy(m.out, t) == task.plan[..task.started]
    && (task.pc == Ended(Completed) ==> task.started == |task.plan|)
  }

  ghost predicate Orderly(m: Controller) {
    (forall t :: 0 <= t < |m.tasks| ==> TaskOrderly(m, t))
    && (forall k :: 0 <= k < |m.out| ==> m.out[k].task < |m.tasks|)
  }

  lemma {:induction false} NothingSent(out: seq<Submission>, t: nat)
    requires forall k :: 0 <= k < |out| ==> out[k].task != t
    ensures SentBy(out, t) == []
  {
    if out != [] { NothingSent(out[..|out| - 1], t); }
  }

  lemma SubmitKeepsOrder(m: Controller, t: nat)
    requires Orderly(m) && t < |m.tasks|
    ensures m.tasks[t].started <= |m.tasks[t].plan| && Orderly(SubmitNext(m, t))
  {
    assert TaskOrderly(m, t);
    var m' := SubmitNext(m, t);
    forall u | 0 <= u < |m'.tasks| ensures TaskOrderly(m', u) {
      assert TaskOrderly(m, u);
      if m'.out != m.out { assert m'.out[..|m'.out| - 1] == m.out; }
    }
  }

  lemma SameLogKeepsOrder(m: Controller, m': Controller)
    requires Orderly(m) && m'.out == m.out && |m'.tasks| == |m.tasks|
    requires forall t :: 0 <= t < |m.tasks| ==>
               m'.tasks[t].plan == m.tasks[t].plan && m'.tasks[t].started == m.tasks[t].started
               && (m'.tasks[t].pc == Ended(Completed) ==> m.tasks[t].pc == Ended(Completed))
    ensures Orderly(m')
  {
    forall t | 0 <= t < |m'.tasks| ensures TaskOrderly(m', t) { assert TaskOrderly(m, t); }
  }

  lemma TickDeckKeepsOrder(m: Controller, d: DeckId, input: TickInput)
    requires Orderly(m)
    ensures Orderly(TickDeck(m, d, input))
  {
    var m' := TickDeck(m, d, input);
    forall t | 0 <= t < |m'.tasks| ensures TaskOrderly(m', t) {
      if t < |m.tasks| { assert TaskOrderly(m, t); } else { NothingSent(m.out, t); }
    }
  }

  lemma StepKeepsOrder(m: Controller, s: Step)
    requires Orderly(m)
    ensures Orderly(Next(m, s))
  {
    match s
    case Enqueued(_) => SameLogKeepsOrder(m, Next(m, s));
    case SetAutoMix(_, _) => SameLogKeepsOrder(m, Next(m, s));
    case Tick(input) =>
      TickDeckKeepsOrder(m, A, input);
      TickDeckKeepsOrder(TickDeck(m, A, input), B, input);
      SameLogKeepsOrder(TickDeck(TickDeck(m, A, input), B, input), Next(m, s));
    case TaskRuns(t, ok) => TaskKeepsOrder(m, t, ok);
  }

  lemma TaskKeepsOrder(m: Controller, t: nat, ok: bool)
    requires Orderly(m)
    ensures Orderly(Next(m, TaskRuns(t, ok)))
  {
    var m' := Next(m, TaskRuns(t, ok));
    if t < |m.tasks| && m.tasks[t].started <= |m.tasks[t].plan| && m.tasks[t].pc == Created && !m.tasks[t].cancelled {
      var mid := m.With(m.tasks[t].deck, m.Deck(m.tasks[t].deck).(status := Transitioning));
      SameLogKeepsOrder(m, mid);
      SubmitKeepsOrder(mid, t);
    } else if t < |m.tasks| && m.tasks[t].pc == Submitting && !m.tasks[t].cancelled && ok {
      SubmitKeepsOrder(m, t);
    } else {
      SameLogKeepsOrder(m, m');
    }
  }

  lemma StartOrderly()
    ensures Orderly(START)
  {
  }

  lemma {:induction false} RunKeepsOrder(steps: seq<Step>)
    ensures Orderly(Run(steps))
  {
    hide Next, Orderly;
    if steps == [] {
      StartOrderly();
    } else {
      RunKeepsOrder(steps[..|steps| - 1]);
      StepKeepsOrder(Run(steps[..|steps| - 1]), steps[|steps| - 1]);
    }
  }

  /** Whatever happens, a task's submissions are a prefix of its plan, in plan order and without
      repeats, and all of it once the task completes. */
  lemma {:induction false} PlanOrder(steps: seq<Step>, t: nat)
    requires t < |Run(steps).tasks|
    ensures var task := Run(steps).tasks[t];
            task.started <= |task.plan| && SentBy(Run(steps).out, t) == task.plan[..task.started]
            && (task.pc == Ended(Completed) ==> SentBy(Run(steps).out, t) == task.plan)
  {
    hide Next;
    RunKeepsOrder(steps);
    assert TaskOrderly(Run(steps), t);
  }

  // ---------------------------------------------------------------- one plan at a time

  ghost predicate Live(task: Task) { !task.pc.Ended? && !task.cancelled }

  /** A task that has been cancelled in the middle of its body and has not unwound yet. */
  ghost predicate Unwinding(task: Task) { task.pc == Submitting && task.cancelled }

  /** What the controller relies on at a tick: a deck's track does not change while a plan of that
      deck is being submitted, and a cancelled task unwinds before its deck is on again. */
  ghost predicate Assumed(m: Controller, s: Step) {
    s.Tick? ==>
      forall t :: 0 <= t < |m.tasks| ==>
        (Live(m.tasks[t]) ==> s.input.view.Deck(m.tasks[t].deck).loaded == m.tasks[t].track)
        && (Unwinding(m.tasks[t]) ==> !m.Deck(m.tasks[t].deck).enabled)
  }

  ghost predicate AllAssumed(steps: seq<Step>) {
    forall k :: 0 <= k < |steps| ==> Assumed(Run(steps[..k]), steps[k])
  }

  /** The task has let go of its track: it failed, auto-mix was switched off under it, or its deck
      was since seen with another track. */
  ghost predicate Released(m: Controller, t: nat)
    requires t < |m.tasks|
  {
    m.tasks[t].pc == Ended(Failed) || m.tasks[t].cancelled || t in m.sawOther
  }

  ghost predicate TaskOk(m: Controller, t: nat)
    requires t < |m.tasks|
  {
    var task, per := m.tasks[t], m.Deck(m.tasks[t].deck);
    && (Live(task) ==> per.inFlight == Some(t) && t !in m.sawOther)
    && (Unwinding(task) ==> per.inFlight == None && per.status != Armed && per.status != Transitioning)
    && (task.pc == Ended(Unwound) ==> task.cancelled)
    && (!Released(m, t) ==>
          per.status != Idle && per.lastTrack == task.track
          && forall u :: t < u < |m.tasks| ==> m.tasks[u].deck != task.deck)
  }

  ghost predicate DeckOk(m: Controller, d: DeckId) {
    var per := m.Deck(d);
    && (per.inFlight.Some? <==> per.status == Armed || per.status == Transitioning)
    && (per.inFlight.Some? ==>
          var t := per.inFlight.value;
          t < |m.tasks| && m.tasks[t].deck == d && Live(m.tasks[t]) && m.tasks[t].track == per.lastTrack
          && (per.status == Armed <==> m.tasks[t].pc == Created))
  }

  ghost predicate Inv(m: Controller) {
    DeckOk(m, A) && DeckOk(m, B)
    && (forall t :: 0 <= t < |m.tasks| ==> TaskOk(m, t))
    && (forall t :: t in m.sawOther ==> t < |m.tasks|)
  }

  lemma SwitchKeepsInv(m: Controller, d: DeckId, enabled: bool)
    requires Inv(m)
    ensures Inv(SwitchedTo(m, d, enabled))
  {
    var m' := SwitchedTo(m, d, enabled);
    if m.Deck(d).inFlight.Some? { assert TaskOk(m, m.Deck(d).inFlight.value); }
    forall t | 0 <= t < |m'.tasks| ensures TaskOk(m', t) { assert TaskOk(m, t); }
  }

  lemma EndKeepsInv(m: Controller, t: nat, how: Ending)
    requires Inv(m) && t < |m.tasks| && m.tasks[t].pc == Submitting
    requires how == Unwound <==> m.tasks[t].cancelled
    ensures Inv(EndTask(m, t, how))
  {
    var m' := EndTask(m, t, how);
    assert TaskOk(m, t);
    forall u | 0 <= u < |m'.tasks| ensures TaskOk(m', u) { assert TaskOk(m, u); }
  }

  lemma SubmitKeepsInv(m: Controller, t: nat)
    requires Inv(m) && t < |m.tasks| && Live(m.tasks[t]) && m.tasks[t].pc == Submitting
    requires m.tasks[t].started <= |m.tasks[t].plan|
    ensures Inv(SubmitNext(m, t))
  {
    if m.tasks[t].started == |m.tasks[t].plan| {
      EndKeepsInv(m, t, Completed);
    } else {
      var m' := SubmitNext(m, t);
      forall u | 0 <= u < |m'.tasks| ensures TaskOk(m', u) { assert TaskOk(m, u); }
    }
  }

  /** The first stretch of `_execute` is that of a task already submitting, on a deck in transition. */
  lemma StartKeepsInv(m: Controller, t: nat)
    requires Inv(m) && t < |m.tasks| && Live(m.tasks[t]) && m.tasks[t].pc == Created
    requires m.tasks[t].started <= |m.tasks[t].plan|
    ensures Inv(SubmitNext(m.With(m.tasks[t].deck, m.Deck(m.tasks[t].deck).(status := Transitioning)), t))
  {
    var d := m.tasks[t].deck;
    var running := m.With(d, m.Deck(d).(status := Transitioning))
                    .(tasks := m.tasks[t := m.tasks[t].(pc := Submitting)]);
    assert TaskOk(m, t);
    forall u | 0 <= u < |running.tasks| ensures TaskOk(running, u) { assert TaskOk(m, u); }
    SubmitKeepsInv(running, t);
    var direct := SubmitNext(m.With(d, m.Deck(d).(status := Transitioning)), t);
    assert direct.tasks == SubmitNext(running, t).tasks;
  }

  lemma TaskKeepsInv(m: Controller, t: nat, ok: bool)
    requires Inv(m)
    ensures Inv(Next(m, TaskRuns(t, ok)))
  {
    if t < |m.tasks| && m.tasks[t].started <= |m.tasks[t].plan| {
      assert TaskOk(m, t);
      match m.tasks[t].pc
      case Ended(_) =>
      case Submitting =>
        if m.tasks[t].cancelled { EndKeepsInv(m, t, Unwound); }
        else if !ok { EndKeepsInv(m, t, Failed); }
        else { SubmitKeepsInv(m, t); }
      case Created =>
        if m.tasks[t].cancelled {
          var m' := Next(m, TaskRuns(t, ok));
          forall u | 0 <= u < |m'.tasks| ensures TaskOk(m', u) { assert TaskOk(m, u); }
        } else {
          StartKeepsInv(m, t);
        }
    }
  }

  /** What holds between the two halves of a tick, before its sightings are recorded: as the
      invariant, with the deck about to be handled reading the tick's own view. */
  ghost predicate Sighted(m: Controller, input: TickInput) {
    forall t :: 0 <= t < |m.tasks| ==>
      (Live(m.tasks[t]) ==> input.view.Deck(m.tasks[t].deck).loaded == m.tasks[t].track)
      && (Unwinding(m.tasks[t]) ==> !m.Deck(m.tasks[t].deck).enabled)
      && (t in m.sawOther <== input.view.Deck(m.tasks[t].deck).loaded != m.tasks[t].track)
  }

  lemma TickDeckKeepsSighted(m: Controller, d: DeckId, input: TickInput)
    requires Sighted(m, input)
    ensures Sighted(TickDeck(m, d, input), input)
  {
  }

  lemma TickDeckKeepsInv(m: Controller, d: DeckId, input: TickInput)
    requires Inv(m) && Sighted(m, input)
    ensures Inv(TickDeck(m, d, input)) && Sighted(TickDeck(m, d, input), input)
  {
    hide BuildProposal, SecondsToMix;
    TickDeckKeepsSighted(m, d, input);
    var m' := TickDeck(m, d, input);
    forall t | 0 <= t < |m'.tasks| ensures TaskOk(m', t) {
      if t < |m.tasks| { assert TaskOk(m, t); }
    }
  }

  lemma SightingsUnread(m: Controller, d: DeckId, input: TickInput, seen: set<nat>)
    ensures TickDeck(m.(sawOther := seen), d, input) == TickDeck(m, d, input).(sawOther := seen)
    ensures TickDeck(m, d, input).sawOther == m.sawOther
  {
  }

  lemma RecordingKeepsInv(m: Controller, input: TickInput, seen: set<nat>)
    requires Inv(m) && Assumed(m, Tick(input)) && seen == m.sawOther + Sightings(m, input)
    ensures Inv(m.(sawOther := seen)) && Sighted(m.(sawOther := seen), input)
  {
    var m' := m.(sawOther := seen);
    forall t | 0 <= t < |m'.tasks| ensures TaskOk(m', t) { assert TaskOk(m, t); }
  }

  /** Recording a tick's sightings first changes nothing its two halves look at. */
  lemma TickKeepsInv(m: Controller, input: TickInput)
    requires Inv(m) && Assumed(m, Tick(input))
    ensures Inv(Ticked(m, input))
  {
    hide Inv, TickDeck, Sighted, Assumed;
    var seen := m.sawOther + Sightings(m, input);
    var first := TickDeck(m, A, input);
    RecordingKeepsInv(m, input, seen);
    SightingsUnread(m, A, input, seen);
    SightingsUnread(first, B, input, seen);
    TickDeckKeepsInv(m.(sawOther := seen), A, input);
    TickDeckKeepsInv(first.(sawOther := seen), B, input);
  }

  lemma StepKeepsInv(m: Controller, s: Step)
    requires Inv(m) && Assumed(m, s)
    ensures Inv(Next(m, s))
  {
    match s
    case Enqueued(_) =>
      forall t | 0 <= t < |m.tasks| ensures TaskOk(Next(m, s), t) { assert TaskOk(m, t); }
    case SetAutoMix(d, enabled) => SwitchKeepsInv(m, d, enabled);
    case TaskRuns(t, ok) => TaskKeepsInv(m, t, ok);
    case Tick(input) =>
      TickKeepsInv(m, input);
  }

  lemma StartInv()
    ensures Inv(START)
  {
  }

  lemma {:induction false} RunKeepsInv(steps: seq<Step>)
    requires AllAssumed(steps)
    ensures Inv(Run(steps))
  {
    hide Inv, Next, Assumed;
    if steps == [] {
      StartInv();
    } else {
      var front := steps[..|steps| - 1];
      forall k | 0 <= k < |front| ensures Assumed(Run(front[..k]), front[k]) {
        assert front[..k] == steps[..k];
        assert Assumed(Run(steps[..k]), steps[k]);
      }
      RunKeepsInv(front);
      assert Assumed(Run(steps[..|steps| - 1]), steps[|steps| - 1]);
      StepKeepsInv(Run(front), steps[|steps| - 1]);
    }
  }

  // ---------------------------------------------------------------- what operators can rely on

  /** Each deck has at most one plan in flight. */
  lemma {:induction false} OneInFlight(steps: seq<Step>, t: nat, u: nat)
    requires AllAssumed(steps) && t < |Run(steps).tasks| && u < |Run(steps).tasks|
    requires Live(Run(steps).tasks[t]) && Live(Run(steps).tasks[u])
    requires Run(steps).tasks[t].deck == Run(steps).tasks[u].deck
    ensures t == u
  {
    hide Next;
    RunKeepsInv(steps);
    assert TaskOk(Run(steps), t) && TaskOk(Run(steps), u);
  }

  lemma SightingStep(m: Controller, s: Step, t: nat)
    requires t in Next(m, s).sawOther
    ensures t in m.sawOther
         || (s.Tick? && t < |m.tasks|
             && (if m.tasks[t].deck == A then s.input.view.deckA else s.input.view.deckB).loaded != m.tasks[t].track)
  {
    if s.Tick? {
      SightingsUnread(m, A, s.input, {});
      SightingsUnread(TickDeck(m, A, s.input), B, s.input, {});
      hide TickDeck;
    }
  }

  lemma TaskKept(m: Controller, s: Step, t: nat)
    requires t < |m.tasks|
    ensures t < |Next(m, s).tasks|
    ensures Next(m, s).tasks[t].deck == m.tasks[t].deck && Next(m, s).tasks[t].track == m.tasks[t].track
  {
    if s.Tick? {
      TickLaunchesIff(m, s.input, A);
      hide Next;
    } else {
      OthersLaunchNothing(m, s);
      hide Next;
    }
  }

  /** A task on record as seen with another track was, by some tick of the run. */
  lemma {:induction false} SeenByTick(steps: seq<Step>, t: nat) returns (k: nat)
    requires t in Run(steps).sawOther
    ensures k < |steps| && steps[k].Tick? && t < |Run(steps[..k]).tasks| && t < |Run(steps).tasks|
    ensures var task := Run(steps).tasks[t];
            var view := steps[k].input.view;
            (if task.deck == A then view.deckA else view.deckB).loaded != task.track
  {
    hide Next;
    if steps == [] {
      assert false;
    } else {
      k := |steps| - 1;
      var front := steps[..k];
      SightingStep(Run(front), steps[k], t);
      if t in Run(front).sawOther {
        k := SeenByTick(front, t);
        assert front[..k] == steps[..k];
      }
      TaskKept(Run(front), steps[|steps| - 1], t);
    }
  }

  lemma CancelStep(m: Controller, s: Step, t: nat)
    requires Inv(m) && t < |Next(m, s).tasks| && Next(m, s).tasks[t].cancelled
    ensures t < |m.tasks| && (m.tasks[t].cancelled || s == SetAutoMix(m.tasks[t].deck, false))
  {
    if s.Tick? {
      TickLaunchesIff(m, s.input, A);
      TickLaunchesIff(m, s.input, B);
      hide Next, Inv;
    } else {
      hide TaskOk;
    }
  }

  /** A cancelled task was cancelled by switching its own deck off. */
  lemma {:induction false} CancelledByOff(steps: seq<Step>, t: nat) returns (k: nat)
    requires AllAssumed(steps) && t < |Run(steps).tasks| && Run(steps).tasks[t].cancelled
    ensures k < |steps| && steps[k] == SetAutoMix(Run(steps).tasks[t].deck, false)
  {
    hide Next, Inv, Assumed;
    if steps == [] {
      assert false;
    } else {
      k := |steps| - 1;
      var front := steps[..k];
      assert AllAssumed(front) by {
        forall j | 0 <= j < |front| ensures Assumed(Run(front[..j]), front[j]) { assert front[..j] == steps[..j]; }
      }
      RunKeepsInv(front);
      CancelStep(Run(front), steps[k], t);
      TaskKept(Run(front), steps[k], t);
      if Run(front).tasks[t].cancelled { k := CancelledByOff(front, t); }
    }
  }

  /** A second plan for a deck is only launched once the first has failed, its deck has been switched
      off, or a tick has seen the deck with another track. */
  lemma {:induction false} OneLaunchPerTrack(steps: seq<Step>, t: nat, u: nat)
    requires AllAssumed(steps) && t < u < |Run(steps).tasks|
    requires Run(steps).tasks[t].deck == Run(steps).tasks[u].deck
    ensures var task := Run(steps).tasks[t];
            || task.pc == Ended(Failed)
            || (exists k :: 0 <= k < |steps| && steps[k] == SetAutoMix(task.deck, false))
            || (exists k :: 0 <= k < |steps| && steps[k].Tick? && t < |Run(steps[..k]).tasks|
                  && steps[k].input.view.Deck(task.deck).loaded != task.track)
  {
    hide Next;
    RunKeepsInv(steps);
    assert TaskOk(Run(steps), t);
    if Run(steps).tasks[t].cancelled { var k := CancelledByOff(steps, t); }
    if t in Run(steps).sawOther { var k := SeenByTick(steps, t); }
  }

  predicate NeverOn(steps: seq<Step>, d: DeckId) {
    forall k :: 0 <= k < |steps| ==> steps[k] != SetAutoMix(d, true)
  }

  /** The submissions of a deck's tasks, in order. */
  function OutOf(m: Controller, out: seq<Submission>, d: DeckId): seq<Submission> {
    if out == [] then []
    else
      var last := out[|out| - 1];
      OutOf(m, out[..|out| - 1], d) + if last.task < |m.tasks| && m.tasks[last.task].deck == d then [last] else []
  }

  /** Auto-mix is off on the deck, and its live tasks have nothing left to submit; in the strict
      sense it has no live tasks at all. */
  ghost predicate Quiet(m: Controller, d: DeckId, strict: bool) {
    !m.Deck(d).enabled
    && forall t :: 0 <= t < |m.tasks| && m.tasks[t].deck == d && Live(m.tasks[t]) ==>
                     !strict && m.tasks[t].started >= |m.tasks[t].plan|
  }

  ghost predicate Silent(m: Controller, d: DeckId) { Quiet(m, d, true) }

  lemma {:induction false} OutOfSameDecks(m: Controller, m': Controller, out: seq<Submission>, d: DeckId)
    requires forall k :: 0 <= k < |out| ==> out[k].task < |m.tasks|
    requires |m.tasks| <= |m'.tasks| && forall t :: 0 <= t < |m.tasks| ==> m'.tasks[t].deck == m.tasks[t].deck
    ensures OutOf(m', out, d) == OutOf(m, out, d)
  {
    if out != [] { OutOfSameDecks(m, m', out[..|out| - 1], d); }
  }

  lemma QuietTickDeck(m: Controller, e: DeckId, input: TickInput, d: DeckId, strict: bool)
    requires Quiet(m, d, strict)
    ensures Quiet(TickDeck(m, e, input), d, strict) && TickDeck(m, e, input).out == m.out
    ensures |m.tasks| <= |TickDeck(m, e, input).tasks|
    ensures forall t :: 0 <= t < |m.tasks| ==> TickDeck(m, e, input).tasks[t] == m.tasks[t]
  {
    hide BuildProposal, SecondsToMix;
  }

  lemma QuietTask(m: Controller, t: nat, ok: bool, d: DeckId, strict: bool)
    requires Quiet(m, d, strict)
    ensures var m' := Next(m, TaskRuns(t, ok));
            Quiet(m', d, strict) && (m'.out != m.out ==> t < |m.tasks| && m.tasks[t].deck != d)
  {
    hide SentBy, TickDeck, SwitchedTo, Sightings;
  }

  /** A task step keeps the other tasks and logs at most one submission, of a live task. */
  lemma TaskFrame(m: Controller, t: nat, ok: bool)
    ensures var m' := Next(m, TaskRuns(t, ok));
            |m'.tasks| == |m.tasks|
            && (forall u :: 0 <= u < |m.tasks| ==> m'.tasks[u].deck == m.tasks[u].deck)
            && (m'.out == m.out
                || (t < |m.tasks| && Live(m.tasks[t]) && |m'.out| == |m.out| + 1
                    && m'.out[..|m.out|] == m.out && m'.out[|m.out|].task == t))
  {
    hide SentBy;
  }

  lemma QuietTaskStep(m: Controller, t: nat, ok: bool, d: DeckId, strict: bool)
    requires Quiet(m, d, strict) && Orderly(m)
    ensures var m' := Next(m, TaskRuns(t, ok));
            Quiet(m', d, strict) && OutOf(m', m'.out, d) == OutOf(m, m.out, d)
  {
    var m' := Next(m, TaskRuns(t, ok));
    hide Next, TaskOrderly, Quiet;
    QuietTask(m, t, ok, d, strict);
    TaskFrame(m, t, ok);
    OutOfSameDecks(m, m', m.out, d);
  }

  lemma QuietStep(m: Controller, s: Step, d: DeckId, strict: bool)
    requires Quiet(m, d, strict) && Orderly(m) && s != SetAutoMix(d, true)
    ensures Quiet(Next(m, s), d, strict) && OutOf(Next(m, s), Next(m, s).out, d) == OutOf(m, m.out, d)
  {
    var m' := Next(m, s);
    match s
    case Enqueued(_) => OutOfSameDecks(m, m', m.out, d);
    case SetAutoMix(_, _) => OutOfSameDecks(m, m', m.out, d);
    case Tick(input) =>
      hide TickDeck;
      QuietTickDeck(m, A, input, d, strict);
      QuietTickDeck(TickDeck(m, A, input), B, input, d, strict);
      OutOfSameDecks(m, m', m.out, d);
    case TaskRuns(t, ok) =>
      hide Next, Quiet, Orderly;
      QuietTaskStep(m, t, ok, d, strict);
  }

  /** The submissions of deck `d` over a run that switches it off after `steps`. */
  function OutAfterOff(steps: seq<Step>, d: DeckId, more: seq<Step>): seq<Submission> {
    var m := Run(steps + [SetAutoMix(d, false)] + more);
    OutOf(m, m.out, d)
  }

  lemma RunSnoc(steps: seq<Step>, s: Step)
    ensures Run(steps + [s]) == Next(Run(steps), s)
  {
    assert (steps + [s])[..|steps|] == steps;
  }

  lemma {:induction false} QuietRun(steps: seq<Step>, d: DeckId, more: seq<Step>, strict: bool)
    requires NeverOn(more, d) && Quiet(SwitchedTo(Run(steps), d, false), d, strict)
    ensures Quiet(Run(steps + [SetAutoMix(d, false)] + more), d, strict)
    ensures OutAfterOff(steps, d, more) == OutAfterOff(steps, d, [])
  {
    var off := steps + [SetAutoMix(d, false)];
    assert off + [] == off;
    RunSnoc(steps, SetAutoMix(d, false));
    hide Quiet, OutOf, Run, SwitchedTo;
    if more == [] {
      assert off + more == off;
    } else {
      hide Next;
      var front, last := more[..|more| - 1], more[|more| - 1];
      assert more == front + [last] && off + more == off + front + [last];
      QuietRun(steps, d, front, strict);
      RunSnoc(off + front, last);
      RunKeepsOrder(off + front);
      QuietStep(Run(off + front), last, d, strict);
    }
  }

  // ---------------------------------------------------------------- exactly when switching off is final

  /** The controller's books list every live task of the deck. */
  ghost predicate OnBooks(m: Controller, d: DeckId) {
    forall t :: 0 <= t < |m.tasks| && m.tasks[t].deck == d && Live(m.tasks[t]) ==> m.Deck(d).inFlight == Some(t)
  }

  /** Switching a deck off stops every task of it if and only if the one task it cancels is the
      only one alive. */
  lemma OffSilencesIffOnBooks(m: Controller, d: DeckId)
    ensures Silent(SwitchedTo(m, d, false), d) <==> OnBooks(m, d)
  {
    var m' := SwitchedTo(m, d, false);
    if Silent(m', d) {
      forall t | 0 <= t < |m.tasks| && m.tasks[t].deck == d && Live(m.tasks[t])
        ensures m.Deck(d).inFlight == Some(t)
      {
        assert !Live(m'.tasks[t]);
      }
    }
  }

  /** A live task with events left that the books do not list. */
  ghost predicate Escapes(m: Controller, d: DeckId, t: nat) {
    t < |m.tasks| && m.tasks[t].deck == d && Live(m.tasks[t]) && m.Deck(d).inFlight != Some(t)
    && m.tasks[t].started < |m.tasks[t].plan|
  }

  /** Switching off does not cancel it, and its next event goes out when it next runs. */
  lemma EscapedTaskSubmits(m: Controller, d: DeckId, t: nat)
    requires Escapes(m, d, t)
    ensures var off := SwitchedTo(m, d, false);
            !off.Deck(d).enabled && off.out == m.out
            && Next(off, TaskRuns(t, true)).out == m.out + [Submission(t, m.tasks[t].plan[m.tasks[t].started])]
  {
  }

  lemma OffQuietsUnlessEscapes(m: Controller, d: DeckId)
    requires forall t :: !Escapes(m, d, t)
    ensures Quiet(SwitchedTo(m, d, false), d, false)
  {
    var m' := SwitchedTo(m, d, false);
    forall t | 0 <= t < |m'.tasks| && m'.tasks[t].deck == d && Live(m'.tasks[t])
      ensures m'.tasks[t].started >= |m'.tasks[t].plan|
    {
      assert !Escapes(m, d, t);
    }
  }

  lemma EscapedOut(steps: seq<Step>, d: DeckId, t: nat)
    requires Escapes(Run(steps), d, t)
    ensures NeverOn([TaskRuns(t, true)], d) && OutAfterOff(steps, d, [TaskRuns(t, true)]) != OutAfterOff(steps, d, [])
  {
    var m, off := Run(steps), steps + [SetAutoMix(d, false)];
    assert off + [] == off && off[..|off| - 1] == steps;
    var all := off + [TaskRuns(t, true)];
    assert all[..|all| - 1] == off;
    EscapedTaskSubmits(m, d, t);
    TaskFrame(SwitchedTo(m, d, false), t, true);
    RunKeepsOrder(off);
    var m1, m2 := Run(off), Run(all);
    hide Next, SwitchedTo, TaskOrderly, Escapes;
    assert m2.out[..|m2.out| - 1] == m1.out;
    OutOfSameDecks(m1, m2, m1.out, d);
  }

  /** On every run whatever: `set_auto_mix(deck, False)` ends the deck's submissions, until it is
      switched on again, if and only if no live task of the deck with events left is off the books. */
  lemma OffIsFinalIff(steps: seq<Step>, d: DeckId)
    ensures (forall more :: NeverOn(more, d) ==> OutAfterOff(steps, d, more) == OutAfterOff(steps, d, []))
       <==> forall t :: !Escapes(Run(steps), d, t)
  {
    hide Run, OutAfterOff, Escapes, NeverOn;
    if forall t :: !Escapes(Run(steps), d, t) {
      forall more | NeverOn(more, d) ensures OutAfterOff(steps, d, more) == OutAfterOff(steps, d, []) {
        OffQuietsUnlessEscapes(Run(steps), d);
        QuietRun(steps, d, more, false);
      }
    } else {
      var t :| Escapes(Run(steps), d, t);
      EscapedOut(steps, d, t);
    }
  }

  /** The books are in order on every run that meets the assumptions. */
  lemma {:induction false} AssumedKeepsBooks(steps: seq<Step>, d: DeckId)
    requires AllAssumed(steps)
    ensures OnBooks(Run(steps), d)
  {
    hide Next;
    RunKeepsInv(steps);
    forall t | 0 <= t < |Run(steps).tasks| && Run(steps).tasks[t].deck == d && Live(Run(steps).tasks[t])
      ensures Run(steps).Deck(d).inFlight == Some(t)
    {
      assert TaskOk(Run(steps), t);
    }
  }

  /** So there, once `set_auto_mix(deck, False)` has returned, no submission for that deck starts
      until it is switched on again. */
  lemma NoSubmissionAfterOff(steps: seq<Step>, d: DeckId, more: seq<Step>)
    requires AllAssumed(steps) && NeverOn(more, d)
    ensures Silent(Run(steps + [SetAutoMix(d, false)] + more), d)
    ensures OutAfterOff(steps, d, more) == OutAfterOff(steps, d, [])
  {
    hide Run, OutAfterOff, AllAssumed;
    AssumedKeepsBooks(steps, d);
    OffSilencesIffOnBooks(Run(steps), d);
    QuietRun(steps, d, more, true);
  }

  // ---------------------------------------------------------------- exactly how a task leaves the books

  /** What takes a live task off the books of its deck: another task of the deck coming to its
      `finally`, or a tick launching beside it. */
  ghost predicate LosesTask(m: Controller, s: Step, d: DeckId, u: nat)
    requires u < |m.tasks|
  {
    Live(m.tasks[u]) && m.tasks[u].deck == d
    && match s
       case TaskRuns(t, _) => t < |m.tasks| && t != u && m.tasks[t].deck == d && m.tasks[t].started <= |m.tasks[t].plan|
                              && Unwinding(m.tasks[t])
       case Tick(_) => exists v :: |m.tasks| <= v < |Next(m, s).tasks| && Next(m, s).tasks[v].deck == d
       case _ => false
  }

  lemma BooksAfterTick(m: Controller, e: DeckId, input: TickInput, d: DeckId)
    ensures var m' := TickDeck(m, e, input);
            |m.tasks| <= |m'.tasks| <= |m.tasks| + 1 && m.tasks == m'.tasks[..|m.tasks|]
            && (|m'.tasks| > |m.tasks| ==> m'.tasks[|m.tasks|].deck == e && Live(m'.tasks[|m.tasks|]))
            && m'.Deck(d).inFlight
               == if e == d && |m'.tasks| > |m.tasks| then Some(|m.tasks|) else m.Deck(d).inFlight
  {
    hide BuildProposal, SecondsToMix, Eligible;
  }

  lemma BooksAfterBoth(m: Controller, input: TickInput, d: DeckId)
    ensures var m' := Next(m, Tick(input));
            |m.tasks| <= |m'.tasks| && m.tasks == m'.tasks[..|m.tasks|]
            && (if exists v :: |m.tasks| <= v < |m'.tasks| && m'.tasks[v].deck == d
                then m'.Deck(d).inFlight.Some? && |m.tasks| <= m'.Deck(d).inFlight.value < |m'.tasks|
                     && forall v :: |m.tasks| <= v < |m'.tasks| && m'.tasks[v].deck == d ==>
                                      m'.Deck(d).inFlight == Some(v)
                else m'.Deck(d).inFlight == m.Deck(d).inFlight)
  {
    hide TickDeck;
    var mid := TickDeck(m, A, input);
    BooksAfterTick(m, A, input, d);
    BooksAfterTick(mid, B, input, d);
    var m' := Next(m, Tick(input));
    if |mid.tasks| > |m.tasks| { assert m'.tasks[|m.tasks|] == mid.tasks[|m.tasks|]; }
  }

  lemma TickLosesTask(m: Controller, input: TickInput, d: DeckId)
    requires OnBooks(m, d)
    ensures OnBooks(Next(m, Tick(input)), d) <==> forall u :: 0 <= u < |m.tasks| ==> !LosesTask(m, Tick(input), d, u)
  {
    var m' := Next(m, Tick(input));
    BooksAfterBoth(m, input, d);
    hide Next;
    assert forall u :: 0 <= u < |m.tasks| ==> m'.tasks[u] == m.tasks[u];
    if u :| 0 <= u < |m.tasks| && LosesTask(m, Tick(input), d, u) {
      assert m'.Deck(d).inFlight != Some(u);
      assert m'.tasks[u].deck == d && Live(m'.tasks[u]);
    } else {
      forall u | 0 <= u < |m'.tasks| && m'.tasks[u].deck == d && Live(m'.tasks[u])
        ensures m'.Deck(d).inFlight == Some(u)
      {
        if u < |m.tasks| { assert !LosesTask(m, Tick(input), d, u); }
      }
    }
  }

  lemma StepLosesTask(m: Controller, t: nat, ok: bool, d: DeckId, u: nat)
    requires OnBooks(m, d) && u < |m.tasks| && LosesTask(m, TaskRuns(t, ok), d, u)
    ensures !OnBooks(Next(m, TaskRuns(t, ok)), d)
  {
    var m' := Next(m, TaskRuns(t, ok));
    assert m'.tasks[u] == m.tasks[u] && m'.Deck(d).inFlight == None;
  }

  lemma StepKeepsTask(m: Controller, t: nat, ok: bool, d: DeckId, u: nat)
    requires OnBooks(m, d) && u < |m.tasks| && !LosesTask(m, TaskRuns(t, ok), d, u)
    requires u < |Next(m, TaskRuns(t, ok)).tasks|
    requires Next(m, TaskRuns(t, ok)).tasks[u].deck == d && Live(Next(m, TaskRuns(t, ok)).tasks[u])
    ensures Next(m, TaskRuns(t, ok)).Deck(d).inFlight == Some(u)
  {
  }

  lemma TaskLosesTask(m: Controller, t: nat, ok: bool, d: DeckId)
    requires OnBooks(m, d)
    ensures OnBooks(Next(m, TaskRuns(t, ok)), d)
       <==> forall u :: 0 <= u < |m.tasks| ==> !LosesTask(m, TaskRuns(t, ok), d, u)
  {
    var m' := Next(m, TaskRuns(t, ok));
    TaskFrame(m, t, ok);
    hide Next, LosesTask;
    if u :| 0 <= u < |m.tasks| && LosesTask(m, TaskRuns(t, ok), d, u) {
      StepLosesTask(m, t, ok, d, u);
    } else {
      forall u | 0 <= u < |m'.tasks| && m'.tasks[u].deck == d && Live(m'.tasks[u])
        ensures m'.Deck(d).inFlight == Some(u)
      {
        StepKeepsTask(m, t, ok, d, u);
      }
    }
  }

  /** From books in order, a step puts them out of order in exactly those two ways. */
  lemma BooksLostIff(m: Controller, s: Step, d: DeckId)
    requires OnBooks(m, d)
    ensures OnBooks(Next(m, s), d) <==> forall u :: 0 <= u < |m.tasks| ==> !LosesTask(m, s, d, u)
  {
    match s
    case Tick(input) => TickLosesTask(m, input, d);
    case TaskRuns(t, ok) => TaskLosesTask(m, t, ok, d);
    case Enqueued(_) =>
    case SetAutoMix(e, enabled) =>
      var m' := Next(m, s);
      forall u | 0 <= u < |m'.tasks| && m'.tasks[u].deck == d && Live(m'.tasks[u])
        ensures m'.Deck(d).inFlight == Some(u)
      {
        assert Live(m.tasks[u]);
      }
  }

  /** A task unwinding beside a live one takes the live one off the books: switched off after that,
      the deck goes on submitting. */
  lemma UnwindingLetsEscape(m: Controller, t: nat, u: nat, ok: bool)
    requires t < |m.tasks| && u < |m.tasks| && m.tasks[u].deck == m.tasks[t].deck
    requires Unwinding(m.tasks[t]) && m.tasks[t].started <= |m.tasks[t].plan|
    requires Live(m.tasks[u]) && m.tasks[u].started < |m.tasks[u].plan|
    ensures var d := m.tasks[t].deck;
            var unwound := Next(m, TaskRuns(t, ok));
            Escapes(unwound, d, u)
            && Next(SwitchedTo(unwound, d, false), TaskRuns(u, true)).out
               == m.out + [Submission(u, m.tasks[u].plan[m.tasks[u].started])]
  {
    var d, unwound := m.tasks[t].deck, Next(m, TaskRuns(t, ok));
    assert Escapes(unwound, d, u);
    EscapedTaskSubmits(unwound, d, u);
  }

  /** A plan still being submitted gets a second one beside it, at the first eligible tick that has
      a proposal, exactly when the tick before found its deck holding another track. */
  lemma SecondPlanIffTrackChanged(m: Controller, t: nat, first: TickInput, second: TickInput)
    requires Inv(m) && t < |m.tasks| && Live(m.tasks[t]) && m.tasks[t].pc == Submitting
    requires var d := m.tasks[t].deck;
             Eligible(second.view.Deck(d), m.Deck(d).enabled) && BuildProposal(m.queue, d, second).0.Some?
    ensures var d := m.tasks[t].deck;
            var m' := TickDeck(TickDeck(m, d, first), d, second);
            Live(m'.tasks[t]) && m'.tasks[t].deck == d
            && ((exists u :: 0 <= u < |m'.tasks| && u != t && m'.tasks[u].deck == d && Live(m'.tasks[u]))
                <==> first.view.Deck(d).loaded != m.tasks[t].track)
            && (first.view.Deck(d).loaded != m.tasks[t].track ==> !OnBooks(m', d))
  {
    hide BuildProposal, Eligible, SecondsToMix;
    assert TaskOk(m, t);
    var d := m.tasks[t].deck;
    var m' := TickDeck(TickDeck(m, d, first), d, second);
    assert m'.tasks[..|m.tasks|] == m.tasks;
    if first.view.Deck(d).loaded != m.tasks[t].track {
      assert m'.tasks[|m.tasks|].deck == d && Live(m'.tasks[|m.tasks|]);
      assert m'.Deck(d).inFlight == Some(|m.tasks|);
    } else {
      assert m'.tasks == m.tasks;
      forall u | 0 <= u < |m.tasks| && u != t && m.tasks[u].deck == d ensures !Live(m.tasks[u]) { assert TaskOk(m, u); }
    }
  }

  // ---------------------------------------------------------------- a run that breaks an assumption

  const ON_AIR := DeckView(Some("x"), true, true, 190_000, Some(200_000))
  const SILENT_DECK := DeckView(None, false, false, 0, None)
  const NEAR_END := TickInput(EngineView(ON_AIR, SILENT_DECK, 0.0), {}, Some([7, 8]), None, map[])

  /** Switched on, launched and submitting; off and on again with the old task still to unwind;
      relaunched; the old task unwinds, the new one starts submitting; switched off. */
  function EarlyRearm(): Controller {
    var launched := Next(Next(Next(START, SetAutoMix(A, true)), Tick(NEAR_END)), TaskRuns(0, true));
    var rearmed := Next(Next(Next(launched, SetAutoMix(A, false)), SetAutoMix(A, true)), Tick(NEAR_END));
    Next(Next(Next(rearmed, TaskRuns(0, true)), TaskRuns(1, true)), SetAutoMix(A, false))
  }

  /** Re-armed too early, a deck's new plan escapes being switched off: the old task's `finally`
      took the new one off the books. */
  lemma {:induction false} EarlyRearmEscapesOff()
    ensures var off := EarlyRearm();
            var later := Next(off, TaskRuns(1, true));
            !off.deckA.enabled && |later.out| > |off.out| && later.out[|off.out|] == Submission(1, 8)
  {
    var m2 := Next(Next(START, SetAutoMix(A, true)), Tick(NEAR_END));
    var m6 := Next(Next(Next(Next(m2, TaskRuns(0, true)), SetAutoMix(A, false)), SetAutoMix(A, true)), Tick(NEAR_END));
    var m8 := Next(Next(m6, TaskRuns(0, true)), TaskRuns(1, true));
    assert m2.tasks == [Task(A, Some("x"), [7, 8], Created, 0, false)];
    assert m6.tasks[1] == Task(A, Some("x"), [7, 8], Created, 0, false) && m6.deckA.inFlight == Some(1);
    assert m8.tasks[1] == Task(A, Some("x"), [7, 8], Submitting, 1, false) && m8.deckA.inFlight == None;
  }

  // ---------------------------------------------------------------- the object

  class AutoMixController {
    var deckA: PerDeck
    var deckB: PerDeck
    var queue: seq<Item>
    var tasks: seq<Task>
    ghost var out: seq<Submission>
    ghost var sawOther: set<nat>

    ghost function View(): Controller
      reads this
    {
      Controller(deckA, deckB, queue, tasks, out, sawOther)
    }

    constructor ()
      ensures View() == START
    {
      deckA, deckB, queue, tasks, out, sawOther := FRESH_DECK, FRESH_DECK, [], [], [], {};
    }

    function Per(d: DeckId): PerDeck
      reads this
    {
      if d == A then deckA else deckB
    }

    method Store(d: DeckId, per: PerDeck)
      modifies this
      ensures View() == old(View()).With(d, per)
    {
      if d == A { deckA := per; } else { deckB := per; }
    }

    /** `set_auto_mix`. */
    method Switch(d: DeckId, enabled: bool)
      modifies this
      ensures View() == Next(old(View()), SetAutoMix(d, enabled))
      ensures var per := if d == A then old(deckA) else old(deckB);
              && (if d == A then deckB == old(deckB) else deckA == old(deckA))
              && (if d == A then deckA else deckB) ==
                 if enabled || per.inFlight == None then per.(enabled := enabled)
                 else per.(enabled := false, status := Idle, lastSeconds := None, inFlight := None)
    {
      var per := Per(d).(enabled := enabled);
      if !enabled && per.inFlight.Some? {
        var t := per.inFlight.value;
        if t < |tasks| && !tasks[t].pc.Ended? {
          tasks := tasks[t := tasks[t].(cancelled := true)];
        }
        per := per.(inFlight := None, status := Idle, lastSeconds := None);
      }
      Store(d, per);
    }

    /** One turn of the loop in `tick`. */
    method TickOne(d: DeckId, input: TickInput)
      modifies this
      ensures View() == TickDeck(old(View()), d, input)
    {
      hide BuildProposal, SecondsToMix;
      var per, v := Per(d), input.view.Deck(d);
      if per.status == Transitioning || per.status == Done {
        if v.loaded != per.lastTrack {
          Store(d, per.(status := Idle, lastTrack := None, lastSeconds := None));
        }
        return;
      }
      if !Eligible(v, per.enabled) {
        Store(d, per.(lastSeconds := None));
        return;
      }
      per := per.(lastSeconds := SecondsToMix(v));
      if per.status == Idle {
        var (plan, left) := BuildProposal(queue, d, input);
        queue := left;
        if plan.Some? {
          per := per.(status := Armed, lastTrack := v.loaded, inFlight := Some(|tasks|));
          tasks := tasks + [Task(d, v.loaded, plan.value, Created, 0, false)];
        }
      }
      Store(d, per);
    }

    /** `tick`. */
    method TickBoth(input: TickInput)
      modifies this
      ensures View() == Next(old(View()), Tick(input))
    {
      hide TickDeck;
      ghost var seen := Sightings(View(), input);
      TickOne(A, input);
      TickOne(B, input);
      SightingsUnread(old(View()), A, input, old(sawOther));
      SightingsUnread(TickDeck(old(View()), A, input), B, input, old(sawOther));
      sawOther := sawOther + seen;
    }

    /** The loop over the plan, up to its next await. */
    method Submit(t: nat)
      requires t < |tasks| && tasks[t].started <= |tasks[t].plan|
      modifies this
      ensures View() == SubmitNext(old(View()), t)
    {
      var task := tasks[t];
      if task.started == |task.plan| {
        Finish(t, Completed);
      } else {
        tasks := tasks[t := task.(pc := Submitting, started := task.started + 1)];
        out := out + [Submission(t, task.plan[task.started])];
      }
    }

    /** The endings of `_execute`: the status each leaves, and the `finally`. */
    method Finish(t: nat, how: Ending)
      requires t < |tasks|
      modifies this
      ensures View() == EndTask(old(View()), t, how)
    {
      var per := Per(tasks[t].deck);
      match how {
        case Completed => per := per.(status := Done);
        case Failed => per := per.(status := Idle, lastSeconds := None);
        case Unwound =>
      }
      Store(tasks[t].deck, per.(inFlight := None));
      tasks := tasks[t := tasks[t].(pc := Ended(how))];
    }

    /** `_execute` woken up: its first step, or the await it was in coming back. */
    method Resume(t: nat, ok: bool)
      requires t < |tasks| && tasks[t].started <= |tasks[t].plan|
      modifies this
      ensures View() == Next(old(View()), TaskRuns(t, ok))
    {
      var task := tasks[t];
      match task.pc {
        case Created =>
          if task.cancelled {
            tasks := tasks[t := task.(pc := Ended(Unwound))];
          } else {
            Store(task.deck, Per(task.deck).(status := Transitioning));
            Submit(t);
          }
        case Submitting =>
          if task.cancelled { Finish(t, Unwound); }
          else if !ok { Finish(t, Failed); }
          else { Submit(t); }
        case Ended(_) =>
      }
    }
  }
}
