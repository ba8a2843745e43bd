/** `SyncDaemon` (`copilot/cloud_sync/daemon.py`): the backoff schedule, the bookkeeping of a
    tick, and the wake / skip / stop protocol between the loop thread and any number of RPC
    threads. Time is in seconds as a real; the schedule stamp is in microseconds. */
module SyncDaemon {
  const MAX_BACKOFF_SECONDS := 600.0

  // ---------------------------------------------------------------- backoff

  function Pow2(n: nat): (p: nat)
    ensures p >= 1
  {
    if n == 0 then 1 else 2 * Pow2(n - 1)
  }

  /** `next_wait_seconds`. */
  function NextWait(tick: real, failures: nat): real {
    if failures == 0 then tick
    else
      var exponent := if failures < 16 then failures else 16;
      var wait := tick * (Pow2(exponent) as real);
      if wait < MAX_BACKOFF_SECONDS then wait else MAX_BACKOFF_SECONDS
  }

  function MinReal(a: real, b: real): real { if a < b then a else b }

  /** The schedule with no clamp on the exponent. */
  function CappedDoubling(tick: real, failures: nat): real {
    MinReal(tick * (Pow2(failures) as real), MAX_BACKOFF_SECONDS)
  }

  lemma {:induction false} Pow2Monotone(m: nat, n: nat)
    requires m <= n
    ensures Pow2(m) <= Pow2(n)
  {
    if m < n { Pow2Monotone(m, n - 1); }
  }

  lemma ScaleMonotone(t: real, a: nat, b: nat)
    requires t >= 0.0 && a <= b
    ensures t * (a as real) <= t * (b as real)
  {
  }

  lemma CapReachedAtClamp(tick: real)
    requires tick >= 0.01
    ensures tick * (Pow2(16) as real) >= MAX_BACKOFF_SECONDS
  {
    assert Pow2(5) == 32 && Pow2(10) == 1024 && Pow2(16) == 65536;
  }

  /** With the floor the constructor puts under `tick`, the exponent clamp never shows. */
  lemma {:induction false} BackoffIsCappedDoubling(tick: real, failures: nat)
    requires tick >= 0.01 && failures >= 1
    ensures NextWait(tick, failures) == CappedDoubling(tick, failures)
  {
    hide Pow2;
    if failures > 16 {
      CapReachedAtClamp(tick);
      Pow2Monotone(16, failures);
      ScaleMonotone(tick, Pow2(16), Pow2(failures));
    }
  }

  lemma CappedDoublingMonotone(tick: real, f: nat, g: nat)
    requires tick >= 0.0 && f <= g
    ensures CappedDoubling(tick, f) <= CappedDoubling(tick, g) <= MAX_BACKOFF_SECONDS
  {
    hide Pow2;
    Pow2Monotone(f, g);
    ScaleMonotone(tick, Pow2(f), Pow2(g));
  }

  lemma BackoffMonotone(tick: real, f: nat, g: nat)
    requires tick >= 0.01 && 1 <= f <= g
    ensures NextWait(tick, f) <= NextWait(tick, g) <= MAX_BACKOFF_SECONDS
  {
    hide NextWait, CappedDoubling;
    BackoffIsCappedDoubling(tick, f);
    BackoffIsCappedDoubling(tick, g);
    CappedDoublingMonotone(tick, f, g);
  }

  /** The schedule, failure by failure: the configured tick, then twice as long each time, up to ten
      minutes. */
  lemma BackoffSchedule(tick: real, failures: nat)
    requires tick >= 0.01
    ensures NextWait(tick, 0) == tick
    ensures NextWait(tick, 1) == if 2.0 * tick < 600.0 then 2.0 * tick else 600.0
    ensures failures >= 1 ==>
              var wait := 2.0 * NextWait(tick, failures);
              NextWait(tick, failures + 1) == if wait < 600.0 then wait else 600.0
  {
    BackoffIsCappedDoubling(tick, 1);
    assert Pow2(1) == 2;
    if failures >= 1 {
      BackoffIsCappedDoubling(tick, failures);
      BackoffIsCappedDoubling(tick, failures + 1);
      hide NextWait;
      assert Pow2(failures + 1) == 2 * Pow2(failures);
      hide Pow2;
    }
  }

  /** A first failure never shortens the wait exactly when the configured tick is within the cap. */
  lemma FirstFailureBacksOff(tick: real)
    requires tick >= 0.01
    ensures (forall f: nat :: NextWait(tick, 0) <= NextWait(tick, f)) <==> tick <= MAX_BACKOFF_SECONDS
  {
    assert NextWait(tick, 1) == MinReal(tick * 2.0, MAX_BACKOFF_SECONDS);
    if tick <= MAX_BACKOFF_SECONDS {
      forall f: nat
        ensures NextWait(tick, 0) <= NextWait(tick, f)
      {
        if f > 0 { BackoffMonotone(tick, 1, f); }
      }
    }
  }

  // ---------------------------------------------------------------- the wake / skip / stop protocol

  /** Where the loop thread is inside `_loop`. */
  datatype LoopPc =
    | Scheduling  // before next_wait_seconds
    | Waiting     // inside _wake.wait
    | Woken       // the wait returned, _wake.clear is next
    | Cleared     // the _stop check is next
    | Deciding    // the skip check is next
    | Ticking     // inside tick_once
    | Exited

  /** Where an RPC thread is: between the two statements of `wake_now`, or of `stop`. */
  datatype RpcPc = InWakeNow(skip: bool) | InStop

  /** The shared flags, every thread's position, and counters of what has happened. `owed` says
      that a `wake_now(skip_next_tick=False)` has been neither answered by the start of a tick
      nor overridden by a later `wake_now(skip_next_tick=True)`. */
  datatype Protocol = Protocol(
    wake: bool, stop: bool, skip: bool, pc: LoopPc, rpcs: map<nat, RpcPc>,
    owed: bool, skipCalls: nat, skips: nat, ticks: nat, ticksSinceStop: nat)

  const STARTED := Protocol(false, false, false, Scheduling, map[], false, 0, 0, 0, 0)

  datatype Action =
    | WakeNowFlag(t: nat, skipNext: bool)  // first statement of wake_now
    | StopFlag(t: nat)                     // first statement of stop
    | SetWake(t: nat)                      // second statement of either
    | Loop(timeout: bool)                  // the loop thread's next step

  ghost predicate CanStep(p: Protocol, a: Action) {
    match a
    case WakeNowFlag(t, _) => t !in p.rpcs
    case StopFlag(t) => t !in p.rpcs
    case SetWake(t) => t in p.rpcs
    case Loop(timeout) => p.pc != Exited && (p.pc == Waiting ==> p.wake || timeout)
  }

  function LoopStepped(p: Protocol): Protocol {
    match p.pc
    case Scheduling => p.(pc := Waiting)
    case Waiting => p.(pc := Woken)
    case Woken => p.(wake := false, pc := Cleared)
    case Cleared => if p.stop then p.(pc := Exited) else p.(pc := Deciding)
    case Deciding =>
      if p.skip then p.(skip := false, skips := p.skips + 1, pc := Scheduling)
      else p.(pc := Ticking, owed := false, ticks := p.ticks + 1,
              ticksSinceStop := if p.stop then p.ticksSinceStop + 1 else p.ticksSinceStop)
    case Ticking => p.(pc := Scheduling)
    case Exited => p
  }

  function FlagSet(p: Protocol, skipNext: bool): Protocol {
    p.(skip := skipNext, owed := !skipNext, skipCalls := if skipNext then p.skipCalls + 1 else p.skipCalls)
  }

  function Stepped(p: Protocol, a: Action): Protocol {
    match a
    case WakeNowFlag(t, skipNext) => FlagSet(p, skipNext).(rpcs := p.rpcs[t := InWakeNow(skipNext)])
    case StopFlag(t) => p.(stop := true, rpcs := p.rpcs[t := InStop])
    case SetWake(t) => p.(wake := true, rpcs := p.rpcs - {t})
    case Loop(_) => LoopStepped(p)
  }

  ghost predicate IsRun(p: Protocol, actions: seq<Action>, p': Protocol)
    decreases |actions|
  {
    if actions == [] then p' == p
    else CanStep(p, actions[0]) && IsRun(Stepped(p, actions[0]), actions[1..], p')
  }

  /** The loop has passed its wait and will start a tick unless it is stopped first. */
  predicate Committed(p: Protocol) {
    (p.pc == Cleared || p.pc == Deciding) && !p.skip
  }

  ghost predicate SomeRpcAt(p: Protocol, at: RpcPc) {
    exists t :: t in p.rpcs && p.rpcs[t] == at
  }

  ghost predicate Inv(p: Protocol) {
    && (p.owed ==> !p.skip && (p.wake || Committed(p) || p.pc == Exited || SomeRpcAt(p, InWakeNow(false))))
    && p.skips + (if p.skip then 1 else 0) <= p.skipCalls
    && (p.pc == Exited ==> p.stop)
    && (p.stop ==> p.wake || p.pc == Cleared || p.pc == Exited || SomeRpcAt(p, InStop))
    && (SomeRpcAt(p, InStop) ==> p.stop)
    && (if p.stop then p.ticksSinceStop + (if p.pc == Deciding then 1 else 0) <= 1 else p.ticksSinceStop == 0)
  }

  lemma SubsetSize<T>(a: set<T>, b: set<T>)
    requires a <= b
    ensures |a| <= |b|
  {
    assert b == a + (b - a);
  }

  lemma StepKeepsInv(p: Protocol, a: Action)
    requires Inv(p) && CanStep(p, a)
    ensures Inv(Stepped(p, a))
  {
    var p' := Stepped(p, a);
    if a.WakeNowFlag? || a.StopFlag? {
      assert p'.rpcs[a.t] == if a.StopFlag? then InStop else InWakeNow(a.skipNext);
      forall at | SomeRpcAt(p, at) ensures SomeRpcAt(p', at) {
        var t :| t in p.rpcs && p.rpcs[t] == at;
        assert p'.rpcs[t] == at;
      }
    }
  }

  lemma {:induction false} RunKeepsInv(p: Protocol, actions: seq<Action>, p': Protocol)
    requires Inv(p) && IsRun(p, actions, p')
    ensures Inv(p')
    decreases |actions|
  {
    if actions != [] {
      StepKeepsInv(p, actions[0]);
      RunKeepsInv(Stepped(p, actions[0]), actions[1..], p');
    }
  }

  // ---------------------------------------------------------------- what the history counts

  /** The state after `actions`; a run is determined by them. */
  function RunOf(actions: seq<Action>): Protocol {
    if actions == [] then STARTED else Stepped(RunOf(actions[..|actions| - 1]), actions[|actions| - 1])
  }

  /** Action `k` is the loop's skip check, and passes: a tick starts. */
  predicate TickStarts(actions: seq<Action>, k: int) {
    0 <= k < |actions| && actions[k].Loop? && RunOf(actions[..k]).pc == Deciding && !RunOf(actions[..k]).skip
  }

  /** Action `k` is the loop's skip check, and the iteration is skipped. */
  predicate Skips(actions: seq<Action>, k: int) {
    0 <= k < |actions| && actions[k].Loop? && RunOf(actions[..k]).pc == Deciding && RunOf(actions[..k]).skip
  }

  predicate AsksToSkip(actions: seq<Action>, k: int) {
    0 <= k < |actions| && actions[k].WakeNowFlag? && actions[k].skipNext
  }

  predicate Stopped(actions: seq<Action>, k: int) {
    0 <= k <= |actions| && exists j :: 0 <= j < k && actions[j].StopFlag?
  }

  /** Action `k` demands a tick, and no tick has started and no skip been asked for since. */
  predicate DemandOpen(actions: seq<Action>, k: int) {
    && 0 <= k < |actions| && actions[k].WakeNowFlag? && !actions[k].skipNext
    && forall j :: k < j < |actions| ==> !TickStarts(actions, j) && !AsksToSkip(actions, j)
  }

  lemma {:induction false} RunIsRunOf(before: seq<Action>, actions: seq<Action>, p': Protocol)
    requires IsRun(RunOf(before), actions, p')
    ensures p' == RunOf(before + actions)
    decreases |actions|
  {
    hide Stepped, CanStep;
    if actions == [] {
      assert before + actions == before;
    } else {
      var next := before + [actions[0]];
      assert next[..|next| - 1] == before;
      RunIsRunOf(next, actions[1..], p');
      assert next + actions[1..] == before + actions;
    }
  }

  lemma PrefixSame(actions: seq<Action>, k: int)
    requires actions != [] && 0 <= k < |actions| - 1
    ensures var front := actions[..|actions| - 1];
            && (TickStarts(actions, k) <==> TickStarts(front, k)) && (Skips(actions, k) <==> Skips(front, k))
            && (AsksToSkip(actions, k) <==> AsksToSkip(front, k))
  {
    assert actions[..|actions| - 1][..k] == actions[..k];
  }

  /** A demand stays open over one more action unless that starts a tick or asks for a skip. */
  lemma {:induction false} DemandLater(actions: seq<Action>, k: int)
    requires 0 <= k < |actions| - 1
    ensures var n := |actions| - 1;
            DemandOpen(actions, k) <==>
              DemandOpen(actions[..n], k) && !TickStarts(actions, n) && !AsksToSkip(actions, n)
  {
    var n := |actions| - 1;
    forall j | 0 <= j < n
      ensures TickStarts(actions, j) == TickStarts(actions[..n], j)
      ensures AsksToSkip(actions, j) == AsksToSkip(actions[..n], j)
    {
      PrefixSame(actions, j);
    }
    hide TickStarts, AsksToSkip;
  }

  lemma {:induction false} OwedMeaning(actions: seq<Action>)
    ensures RunOf(actions).owed <==> exists k :: DemandOpen(actions, k)
  {
    if actions != [] {
      var n := |actions| - 1;
      OwedStep(actions);
      hide TickStarts, RunOf, AsksToSkip;
      OwedMeaning(actions[..n]);
      forall k | 0 <= k < n { DemandLater(actions, k); }
      assert DemandOpen(actions, n) <==> actions[n].WakeNowFlag? && !actions[n].skipNext;
      assert forall k :: DemandOpen(actions, k) ==> 0 <= k <= n;
      assert forall k :: DemandOpen(actions[..n], k) ==> 0 <= k < n;
      hide DemandOpen;
      if RunOf(actions[..n]).owed {
        var k :| DemandOpen(actions[..n], k);
        assert DemandOpen(actions, k) <==> !TickStarts(actions, n) && !AsksToSkip(actions, n);
      }
    }
  }

  lemma StepCounts(p: Protocol, a: Action)
    ensures var p' := Stepped(p, a);
            var atCheck := a.Loop? && p.pc == Deciding;
            && (p'.owed <==> (a.WakeNowFlag? && !a.skipNext)
                             || (p.owed && !(atCheck && !p.skip) && !(a.WakeNowFlag? && a.skipNext)))
            && p'.skips == p.skips + (if atCheck && p.skip then 1 else 0)
            && p'.skipCalls == p.skipCalls + (if a.WakeNowFlag? && a.skipNext then 1 else 0)
            && p'.ticksSinceStop == p.ticksSinceStop + (if atCheck && !p.skip && p.stop then 1 else 0)
            && (p'.stop <==> p.stop || a.StopFlag?)
  {
  }

  lemma LastStep(actions: seq<Action>)
    requires actions != []
    ensures RunOf(actions) == Stepped(RunOf(actions[..|actions| - 1]), actions[|actions| - 1])
  {
  }

  lemma OwedStep(actions: seq<Action>)
    requires actions != []
    ensures var n := |actions| - 1;
            RunOf(actions).owed <==>
              || (actions[n].WakeNowFlag? && !actions[n].skipNext)
              || (RunOf(actions[..n]).owed && !TickStarts(actions, n) && !AsksToSkip(actions, n))
  {
    LastStep(actions);
    StepCounts(RunOf(actions[..|actions| - 1]), actions[|actions| - 1]);
    hide RunOf, Stepped;
  }

  lemma {:induction false} StopMeaning(actions: seq<Action>)
    ensures RunOf(actions).stop <==> Stopped(actions, |actions|)
  {
    if actions != [] {
      LastStep(actions);
      StepCounts(RunOf(actions[..|actions| - 1]), actions[|actions| - 1]);
      hide RunOf, Stepped;
      StopMeaning(actions[..|actions| - 1]);
    }
  }

  ghost function SkipsOf(actions: seq<Action>): set<nat> { set k: nat | k < |actions| && Skips(actions, k) }

  ghost function AsksOf(actions: seq<Action>): set<nat> { set k: nat | k < |actions| && AsksToSkip(actions, k) }

  /** The ticks that start once the stop flag is set. */
  ghost function LateTicks(actions: seq<Action>): set<nat> {
    set k: nat | k < |actions| && TickStarts(actions, k) && RunOf(actions[..k]).stop
  }

  lemma {:induction false} HistoryGrows(actions: seq<Action>)
    requires actions != []
    ensures var n := |actions| - 1;
            var front := actions[..n];
            && SkipsOf(actions) == SkipsOf(front) + (if Skips(actions, n) then {n} else {})
            && AsksOf(actions) == AsksOf(front) + (if AsksToSkip(actions, n) then {n} else {})
            && LateTicks(actions) ==
               LateTicks(front) + (if TickStarts(actions, n) && RunOf(front).stop then {n} else {})
            && n !in SkipsOf(front) && n !in AsksOf(front) && n !in LateTicks(front)
  {
    var n := |actions| - 1;
    forall k | 0 <= k < n
      ensures TickStarts(actions, k) == TickStarts(actions[..n], k) && actions[..n][..k] == actions[..k]
      ensures Skips(actions, k) == Skips(actions[..n], k) && AsksToSkip(actions, k) == AsksToSkip(actions[..n], k)
    {
      PrefixSame(actions, k);
    }
    hide TickStarts, Skips, AsksToSkip, RunOf;
  }

  lemma {:induction false} CountersMeaning(actions: seq<Action>)
    ensures RunOf(actions).skips == |SkipsOf(actions)| && RunOf(actions).skipCalls == |AsksOf(actions)|
    ensures RunOf(actions).ticksSinceStop == |LateTicks(actions)|
  {
    if actions == [] {
      assert SkipsOf([]) == {} && AsksOf([]) == {} && LateTicks([]) == {};
    } else {
      CountersStep(actions);
      HistoryGrows(actions);
      hide TickStarts, Skips, AsksToSkip, RunOf, SkipsOf, AsksOf, LateTicks;
      CountersMeaning(actions[..|actions| - 1]);
    }
  }

  lemma CountersStep(actions: seq<Action>)
    requires actions != []
    ensures var n := |actions| - 1;
            var p, p' := RunOf(actions[..n]), RunOf(actions);
            && p'.skips == p.skips + (if Skips(actions, n) then 1 else 0)
            && p'.skipCalls == p.skipCalls + (if AsksToSkip(actions, n) then 1 else 0)
            && p'.ticksSinceStop == p.ticksSinceStop + (if TickStarts(actions, n) && p.stop then 1 else 0)
  {
    LastStep(actions);
    StepCounts(RunOf(actions[..|actions| - 1]), actions[|actions| - 1]);
    hide RunOf, Stepped;
  }

  // ---------------------------------------------------------------- over every interleaving

  lemma {:induction false} RunMeaning(actions: seq<Action>, p: Protocol)
    requires IsRun(STARTED, actions, p)
    ensures Inv(p) && p == RunOf(actions)
  {
    RunKeepsInv(STARTED, actions, p);
    RunIsRunOf([], actions, p);
    assert [] + actions == actions;
  }

  /** No lost wakeup, in every interleaving: once its call has returned, a demand for a tick that no
      tick has answered and no later call has turned into a skip shows as a set wake event or a
      loop that is past its wait with the skip flag clear. */
  lemma {:induction false} NoLostWakeup(actions: seq<Action>, p: Protocol, k: nat)
    requires IsRun(STARTED, actions, p) && DemandOpen(actions, k) && !SomeRpcAt(p, InWakeNow(false))
    ensures p.wake || ((p.pc == Cleared || p.pc == Deciding) && !p.skip) || p.pc == Exited
  {
    RunMeaning(actions, p);
    OwedMeaning(actions);
  }

  /** Skipped iterations never outnumber the calls that asked for one. */
  lemma {:induction false} SkipsBounded(actions: seq<Action>, p: Protocol)
    requires IsRun(STARTED, actions, p)
    ensures |set k: nat | k < |actions| && Skips(actions, k)| <= |set k: nat | k < |actions| && AsksToSkip(actions, k)|
  {
    RunMeaning(actions, p);
    CountersMeaning(actions);
    assert SkipsOf(actions) == set k: nat | k < |actions| && Skips(actions, k);
    assert AsksOf(actions) == set k: nat | k < |actions| && AsksToSkip(actions, k);
  }

  lemma OneLateTick(actions: seq<Action>, j: nat, k: nat)
    requires j in LateTicks(actions) && k in LateTicks(actions) && |LateTicks(actions)| <= 1
    ensures j == k
  {
    hide LateTicks;
    SubsetSize({j, k}, LateTicks(actions));
    assert |{j, k}| <= 1;
  }

  lemma {:induction false} StoppedBy(actions: seq<Action>, k: int)
    requires TickStarts(actions, k) && Stopped(actions, k)
    ensures 0 <= k && k in LateTicks(actions)
  {
    StopMeaning(actions[..k]);
    var j :| 0 <= j < k && actions[j].StopFlag?;
    assert actions[..k][j].StopFlag?;
  }

  /** After the stop flag is set at most one more tick starts, and once a `stop` call has set
      both events the loop cannot sleep through it. */
  lemma {:induction false} NoLostStop(actions: seq<Action>, p: Protocol)
    requires IsRun(STARTED, actions, p)
    ensures forall j, k ::
              TickStarts(actions, j) && TickStarts(actions, k) && Stopped(actions, j) && Stopped(actions, k) ==> j == k
    ensures Stopped(actions, |actions|) && !SomeRpcAt(p, InStop) ==> p.wake || p.pc == Cleared || p.pc == Exited
  {
    RunMeaning(actions, p);
    CountersMeaning(actions);
    StopMeaning(actions);
    hide RunOf, TickStarts, LateTicks, IsRun;
    forall j, k | TickStarts(actions, j) && TickStarts(actions, k) && Stopped(actions, j) && Stopped(actions, k)
      ensures j == k
    {
      StoppedBy(actions, j);
      StoppedBy(actions, k);
      OneLateTick(actions, j, k);
    }
  }

  /** The loop thread takes `n` steps with every other thread idle and no wait timing out. */
  ghost predicate RunsAlone(p: Protocol, n: nat, p': Protocol)
    decreases n
  {
    if n == 0 then p' == p
    else CanStep(p, Loop(false)) && RunsAlone(LoopStepped(p), n - 1, p')
  }

  /** Loop steps from `pc` to the next tick check that passes. */
  function StepsToTick(pc: LoopPc): nat {
    match pc
    case Deciding => 1 case Cleared => 2 case Woken => 3 case Waiting => 4
    case Scheduling => 5 case Ticking => 6 case Exited => 0
  }

  lemma {:induction false} AnswersDemand(p: Protocol) returns (p': Protocol)
    requires Inv(p) && p.owed && p.rpcs == map[] && !p.stop
    ensures RunsAlone(p, StepsToTick(p.pc), p') && p'.pc == Ticking && p'.ticks == p.ticks + 1
    decreases StepsToTick(p.pc)
  {
    StepKeepsInv(p, Loop(false));
    if p.pc == Deciding {
      p' := LoopStepped(p);
      assert RunsAlone(p', 0, p');
    } else {
      p' := AnswersDemand(LoopStepped(p));
    }
  }

  /** In every run: a demand whose caller has returned is answered by a tick within six loop
      steps, without waiting for any timeout, unless another thread acts or the daemon is stopped. */
  lemma {:induction false} DemandIsAnswered(actions: seq<Action>, p: Protocol, k: nat) returns (n: nat, p': Protocol)
    requires IsRun(STARTED, actions, p) && DemandOpen(actions, k) && p.rpcs == map[] && !p.stop
    ensures 1 <= n <= 6 && RunsAlone(p, n, p') && p'.pc == Ticking && p'.ticks == p.ticks + 1
  {
    RunMeaning(actions, p);
    OwedMeaning(actions);
    n := StepsToTick(p.pc);
    p' := AnswersDemand(p);
  }

  function StepsToExit(p: Protocol): nat {
    match p.pc
    case Exited => 0 case Cleared => 1 case Woken => 2 case Waiting => 3
    case Scheduling => 4 case Ticking => 5 case Deciding => if p.skip then 5 else 6
  }

  lemma {:induction false} AnswersStop(p: Protocol) returns (p': Protocol)
    requires Inv(p) && p.stop && p.rpcs == map[]
    ensures RunsAlone(p, StepsToExit(p), p') && p'.pc == Exited
    decreases StepsToExit(p)
  {
    if p.pc == Exited {
      p' := p;
    } else {
      StepKeepsInv(p, Loop(false));
      p' := AnswersStop(LoopStepped(p));
    }
  }

  /** In every run: once `stop` has returned from setting its events, the loop left to itself
      exits within six steps, again without waiting for any timeout. */
  lemma StopIsAnswered(actions: seq<Action>, p: Protocol) returns (n: nat, p': Protocol)
    requires IsRun(STARTED, actions, p) && p.stop && p.rpcs == map[]
    ensures n <= 6 && RunsAlone(p, n, p') && p'.pc == Exited
  {
    RunKeepsInv(STARTED, actions, p);
    n := StepsToExit(p);
    p' := AnswersStop(p);
  }

  // ---------------------------------------------------------------- the daemon object

  datatype SyncStats = SyncStats(
    lastPullMicros: int, lastPushMicros: int, lastPullFetched: int, lastPullApplied: int,
    lastPushPushed: int, lastTickError: bool, nextSyncMicros: int)

  /** How a `tick_once` ended: with both passes' counters and whether either reported a
      transport error, or by raising before its bookkeeping. */
  datatype TickEnd =
    | Recorded(nowMicros: int, fetched: int, applied: int, inserted: int, pushed: int, error: bool)
    | Raised

  /** A clean tick forgets all failures; any other kind of end adds one. */
  function FailuresAfter(failures: nat, end: TickEnd): nat {
    if end.Recorded? && !end.error then 0 else failures + 1
  }

  /** The count after a sequence of ticks. */
  function FailuresAfterAll(failures: nat, ends: seq<TickEnd>): nat {
    if ends == [] then failures
    else FailuresAfter(FailuresAfterAll(failures, ends[..|ends| - 1]), ends[|ends| - 1])
  }

  /** The failure count is the number of ticks since the last clean one, and all of them come on top
      where there has been none. */
  lemma {:induction false} FailuresSinceClean(failures: nat, ends: seq<TickEnd>, k: nat)
    requires k <= |ends| && forall j :: k <= j < |ends| ==> ends[j].Raised? || ends[j].error
    requires k > 0 ==> ends[k - 1].Recorded? && !ends[k - 1].error
    ensures FailuresAfterAll(failures, ends) == (if k > 0 then 0 else failures) + |ends| - k
  {
    if k < |ends| { FailuresSinceClean(failures, ends[..|ends| - 1], k); }
  }

  /** The counters change only when the tick recorded itself, the deadline never. */
  function StatsAfter(stats: SyncStats, end: TickEnd): SyncStats {
    match end
    case Raised => stats
    case Recorded(now, fetched, applied, inserted, pushed, error) =>
      SyncStats(now, now, fetched, applied + inserted, pushed, error, stats.nextSyncMicros)
  }

  class Daemon {
    const tick: real
    var wake: bool
    var stop: bool
    var skipNextAutoTick: bool
    var consecutiveFailures: nat
    var stats: SyncStats
    var pc: LoopPc
    var rpcs: map<nat, RpcPc>
    ghost var owed: bool
    ghost var skipCalls: nat
    ghost var skips: nat
    ghost var ticks: nat
    ghost var ticksSinceStop: nat

    ghost function View(): Protocol
      reads this
    {
      Protocol(wake, stop, skipNextAutoTick, pc, rpcs, owed, skipCalls, skips, ticks, ticksSinceStop)
    }

    /** The constructor's floor on the tick length, then `start`. */
    constructor (tickSeconds: real)
      ensures tick >= 0.01 && (tickSeconds >= 0.01 ==> tick == tickSeconds)
      ensures View() == STARTED && Inv(View()) && consecutiveFailures == 0
    {
      tick := if tickSeconds > 0.01 then tickSeconds else 0.01;
      wake, stop, skipNextAutoTick, consecutiveFailures := false, false, false, 0;
      stats := SyncStats(0, 0, 0, 0, 0, false, 0);
      pc, rpcs := Scheduling, map[];
      owed, skipCalls, skips, ticks, ticksSinceStop := false, 0, 0, 0, 0;
    }

    method NextWaitSeconds() returns (wait: real)
      ensures wait == NextWait(tick, consecutiveFailures)
    {
      if consecutiveFailures <= 0 {
        return tick;
      }
      var exponent := if consecutiveFailures < 16 then consecutiveFailures else 16;
      var scaled := tick * (Pow2(exponent) as real);
      wait := if scaled < MAX_BACKOFF_SECONDS then scaled else MAX_BACKOFF_SECONDS;
    }

    /** What `tick_once` (from either thread) or the loop's exception arms record. */
    method EndTick(end: TickEnd)
      modifies `consecutiveFailures, `stats
      ensures consecutiveFailures == FailuresAfter(old(consecutiveFailures), end)
      ensures stats == StatsAfter(old(stats), end)
      ensures end.Raised? ==> stats == old(stats) && consecutiveFailures == old(consecutiveFailures) + 1
      ensures end.Recorded? ==>
                && consecutiveFailures == (if end.error then old(consecutiveFailures) + 1 else 0)
                && stats.lastPullMicros == stats.lastPushMicros == end.nowMicros
                && stats.lastPullFetched == end.fetched && stats.lastPullApplied == end.applied + end.inserted
                && stats.lastPushPushed == end.pushed && stats.lastTickError == end.error
                && stats.nextSyncMicros == old(stats).nextSyncMicros
    {
      match end
      case Raised =>
        consecutiveFailures := consecutiveFailures + 1;
      case Recorded(now, fetched, applied, inserted, pushed, error) =>
        consecutiveFailures := if error then consecutiveFailures + 1 else 0;
        stats := SyncStats(now, now, fetched, applied + inserted, pushed, error, stats.nextSyncMicros);
    }

    /** First half of `wake_now`, under the stats lock. */
    method WakeNowFlag(t: nat, skipNext: bool)
      requires CanStep(View(), Action.WakeNowFlag(t, skipNext)) && Inv(View())
      modifies `skipNextAutoTick, `rpcs, `owed, `skipCalls
      ensures View() == Stepped(old(View()), Action.WakeNowFlag(t, skipNext)) && Inv(View())
    {
      StepKeepsInv(View(), Action.WakeNowFlag(t, skipNext));
      skipNextAutoTick := skipNext;
      rpcs := rpcs[t := InWakeNow(skipNext)];
      owed, skipCalls := !skipNext, if skipNext then skipCalls + 1 else skipCalls;
    }

    /** First half of `stop`. */
    method StopFlag(t: nat)
      requires CanStep(View(), Action.StopFlag(t)) && Inv(View())
      modifies `stop, `rpcs
      ensures View() == Stepped(old(View()), Action.StopFlag(t)) && Inv(View())
    {
      StepKeepsInv(View(), Action.StopFlag(t));
      stop := true;
      rpcs := rpcs[t := InStop];
    }

    /** Second half of `wake_now` and of `stop`. */
    method SetWake(t: nat)
      requires CanStep(View(), Action.SetWake(t)) && Inv(View())
      modifies `wake, `rpcs
      ensures View() == Stepped(old(View()), Action.SetWake(t)) && Inv(View())
    {
      StepKeepsInv(View(), Action.SetWake(t));
      wake := true;
      rpcs := rpcs - {t};
    }

    /** One step of `_loop`. `now` is the clock when it schedules, `end` how its tick ends. */
    method LoopOnce(timeout: bool, now: int, end: TickEnd)
      requires CanStep(View(), Loop(timeout)) && Inv(View())
      modifies `wake, `skipNextAutoTick, `pc, `consecutiveFailures, `stats, `owed, `skips, `ticks, `ticksSinceStop
      ensures View() == Stepped(old(View()), Loop(timeout)) && Inv(View())
      ensures consecutiveFailures
           == if old(pc) == Ticking then FailuresAfter(old(consecutiveFailures), end) else old(consecutiveFailures)
      ensures stats == match old(pc)
        case Scheduling =>
          old(stats).(nextSyncMicros := now + (NextWait(tick, old(consecutiveFailures)) * 1000000.0).Floor)
        case Ticking => StatsAfter(old(stats), end)
        case _ => old(stats)
    {
      StepKeepsInv(View(), Loop(timeout));
      hide NextWait, StatsAfter, FailuresAfter;
      match pc
      case Scheduling =>
        var wait := NextWaitSeconds();
        stats := stats.(nextSyncMicros := now + (wait * 1000000.0).Floor);
        pc := Waiting;
      case Waiting =>
        pc := Woken;
      case Woken =>
        wake, pc := false, Cleared;
      case Cleared =>
        pc := if stop then Exited else Deciding;
      case Deciding =>
        if skipNextAutoTick {
          skipNextAutoTick, pc, skips := false, Scheduling, skips + 1;
        } else {
          pc, owed, ticks := Ticking, false, ticks + 1;
          ticksSinceStop := if stop then ticksSinceStop + 1 else ticksSinceStop;
        }
      case Ticking =>
        EndTick(end);
        pc := Scheduling;
    }
  }
}
