/** The whole sync protocol as a step machine: any number of replicas, each a
    `TrackLibrary` with its outbox, against one remote.

    A pull or push pass is a run of single-row steps here (`PullIsRun` and `PushIsRun` below), so
    passes of all replicas, concurrent passes of one replica and local writes interleave freely
    between rows. Within a row they do not: comparing a fetched row's stamp and writing the row is
    one step, and so is loading, uploading and unqueueing one id. The source does neither under a
    lock; `LateMergeKeepsInv` and `LateWriteKeepsMark` say exactly when a local write that
    lands in the middle does no harm. */
module CloudSync {
  import opened Wrappers
  import opened CloudRows
  import opened CloudStore
  import opened CloudSyncer

  datatype Replica = Replica(tracks: Tracks, pending: map<Id, int>)

  /** `written`, `writers` and `seen` are history: every version ever written by a local write
      (or seeded), the replica whose write it was, and every version that was ever at the
      remote. A pull merges rows fetched earlier, so it merges rows of `seen`. */
  datatype World = World(
    replicas: seq<Replica>, remote: Remote,
    written: set<RemoteTrack>, writers: map<RemoteTrack, nat>, seen: set<RemoteTrack>)

  datatype Step =
    | Add(r: nat, id: Id, meta: Meta, cues: seq<Option<int>>, local: LocalOnly, now: int, queuedAt: int)
    | Merge(r: nat, row: RemoteTrack)
    | Push(r: nat, id: Id)
    | PushUnacknowledged(r: nat, id: Id)  // uploaded, but the client saw a transport error
    | Requeue(r: nat, now: int)

  /** The clock assumption: a local write's stamp is new for its track and above the
      stamp of the row it replaces. */
  ghost predicate FreshStamp(w: World, r: nat, id: Id, now: int)
    requires r < |w.replicas|
  {
    && now >= 0
    && (forall v :: v in w.written && v.trackId == id ==> v.stamp != now)
    && (id in w.replicas[r].tracks ==> w.replicas[r].tracks[id].stamp < now)
  }

  ghost predicate Enabled(w: World, s: Step) {
    && s.r < |w.replicas|
    && (s.Add? ==> FreshStamp(w, s.r, s.id, s.now))
    && (s.Merge? ==> s.row in w.seen)
  }

  function Added(w: World, r: nat, id: Id, row: LocalRow, queuedAt: int): World
    requires r < |w.replicas|
  {
    var me := w.replicas[r];
    w.(replicas := w.replicas[r := Replica(me.tracks[id := row], me.pending[id := queuedAt])],
       written := w.written + {ToWire(id, row)}, writers := w.writers[ToWire(id, row) := r])
  }

  function MergedAt(w: World, r: nat, row: RemoteTrack): World
    requires r < |w.replicas|
  {
    var me := w.replicas[r];
    w.(replicas := w.replicas[r := me.(tracks := MergedRow(me.tracks, row))])
  }

  /** The replica uploads its row of `id`; `acknowledged` says whether it unqueues it too. */
  function PushedAt(w: World, r: nat, id: Id, acknowledged: bool): World
    requires r < |w.replicas|
  {
    var me := w.replicas[r];
    if id !in me.tracks then w
    else
      var remote := Upserted(w.remote, ToWire(id, me.tracks[id]));
      w.(replicas := if acknowledged then w.replicas[r := me.(pending := me.pending - {id})] else w.replicas,
         remote := remote,
         seen := w.seen + {remote[id]})
  }

  function RequeuedAt(w: World, r: nat, now: int): World
    requires r < |w.replicas|
  {
    var me := w.replicas[r];
    w.(replicas := w.replicas[r := me.(pending := (map id | id in me.tracks :: now) + me.pending)])
  }

  function Next(w: World, s: Step): World
    requires s.r < |w.replicas|
  {
    match s
    case Add(r, id, meta, cues, local, now, queuedAt) => Added(w, r, id, LocalRow(meta, cues, local, now), queuedAt)
    case Merge(r, row) => MergedAt(w, r, row)
    case Push(r, id) => PushedAt(w, r, id, true)
    case PushUnacknowledged(r, id) => PushedAt(w, r, id, false)
    case Requeue(r, now) => RequeuedAt(w, r, now)
  }

  /** What the steps do to the stepping replica and the remote; no other replica notices. */
  lemma StepMeaning(w: World, s: Step)
    requires s.r < |w.replicas|
    ensures var w', me := Next(w, s), w.replicas[s.r];
            && w'.replicas == w.replicas[s.r := w'.replicas[s.r]]
            && var me' := w'.replicas[s.r];
               match s
               case Add(_, id, meta, cues, local, now, queuedAt) =>
                 && me' == Replica(me.tracks[id := LocalRow(meta, cues, local, now)], me.pending[id := queuedAt])
                 && w'.remote == w.remote
               case Merge(_, row) =>
                 && me'.pending == me.pending && w'.remote == w.remote
                 && me'.tracks == if row.trackId in me.tracks && row.stamp <= me.tracks[row.trackId].stamp
                                  then me.tracks else me.tracks[row.trackId := FromWire(row)]
               case Requeue(_, now) =>
                 && me'.tracks == me.tracks && w'.remote == w.remote
                 && (forall id :: id in me'.pending <==> id in me.tracks || id in me.pending)
                 && (forall id :: id in me'.pending ==>
                       me'.pending[id] == if id in me.pending then me.pending[id] else now)
               case Push(_, id) =>
                 me' == if id in me.tracks then me.(pending := me.pending - {id}) else me
               case PushUnacknowledged(_, _) => me' == me
    ensures s.Push? || s.PushUnacknowledged? ==>
              var me := w.replicas[s.r];
              Next(w, s).remote ==
              if s.id !in me.tracks || (s.id in w.remote && me.tracks[s.id].stamp < w.remote[s.id].stamp)
              then w.remote else w.remote[s.id := ToWire(s.id, me.tracks[s.id])]
  {
    hide ToWire, FromWire;
  }

  ghost predicate IsRun(w: World, steps: seq<Step>, w': World)
    decreases |steps|
  {
    if steps == [] then w' == w
    else Enabled(w, steps[0]) && IsRun(Next(w, steps[0]), steps[1..], w')
  }

  /** `n` empty libraries against a remote seeded with canonical rows. */
  function Start(n: nat, seed: Remote): World {
    World(seq(n, _ => Replica(map[], map[])), seed, seed.Values, map[], seed.Values)
  }

  ghost predicate GoodSeed(seed: Remote) {
    KeyedById(seed) && forall id :: id in seed ==> Canonical(seed[id]) && seed[id].stamp >= 0
  }

  // ---------------------------------------------------------------- invariant

  ghost predicate RemoteAtLeast(remote: Remote, id: Id, stamp: int) {
    id in remote && remote[id].stamp >= stamp
  }

  ghost predicate StampsUnique(written: set<RemoteTrack>) {
    forall u, v :: u in written && v in written && u.trackId == v.trackId && u.stamp == v.stamp ==> u == v
  }

  ghost predicate HistoryOk(w: World) {
    && (forall v :: v in w.written ==> Canonical(v) && v.stamp >= 0)
    && StampsUnique(w.written)
    && w.seen <= w.written
    && (forall v :: v in w.seen ==> RemoteAtLeast(w.remote, v.trackId, v.stamp))
  }

  ghost predicate RemoteOk(w: World) {
    KeyedById(w.remote) && forall id :: id in w.remote ==> w.remote[id] in w.seen
  }

  /** Every local row is a version that was written; an unqueued one is not ahead of the remote. */
  ghost predicate ReplicaOk(w: World, me: Replica) {
    && me.pending.Keys <= me.tracks.Keys
    && (forall id :: id in me.tracks ==> ToWire(id, me.tracks[id]) in w.written)
    && (forall id :: id in me.tracks && id !in me.pending ==> RemoteAtLeast(w.remote, id, me.tracks[id].stamp))
  }

  ghost predicate QueuedAtLeast(me: Replica, id: Id, stamp: int) {
    id in me.pending && id in me.tracks && me.tracks[id].stamp >= stamp
  }

  /** No write is lost: it, or a later one of its track, is at the remote or in its writer's outbox. */
  ghost predicate Kept(w: World, v: RemoteTrack) {
    || RemoteAtLeast(w.remote, v.trackId, v.stamp)
    || (v in w.writers && w.writers[v] < |w.replicas| && QueuedAtLeast(w.replicas[w.writers[v]], v.trackId, v.stamp))
  }

  ghost predicate Inv(w: World) {
    && HistoryOk(w)
    && RemoteOk(w)
    && (forall r :: 0 <= r < |w.replicas| ==> ReplicaOk(w, w.replicas[r]))
    && (forall v :: v in w.written ==> Kept(w, v))
  }

  lemma StartInv(n: nat, seed: Remote)
    requires GoodSeed(seed)
    ensures Inv(Start(n, seed))
  {
  }

  /** No track leaves the remote and no stamp there goes down. */
  ghost predicate RemoteRises(remote: Remote, remote': Remote) {
    forall id :: id in remote ==> RemoteAtLeast(remote', id, remote[id].stamp)
  }

  /** What `me` had queued is still queued in `me'`, no older, or has reached the remote. */
  ghost predicate QueueKept(me: Replica, me': Replica, remote': Remote) {
    forall id :: id in me.pending && id in me.tracks ==>
      QueuedAtLeast(me', id, me.tracks[id].stamp) || RemoteAtLeast(remote', id, me.tracks[id].stamp)
  }

  /** Only the stepping replica `r` can endanger the invariant. */
  lemma OneReplicaSteps(w: World, w': World, r: nat)
    requires Inv(w) && r < |w.replicas| == |w'.replicas|
    requires forall q :: 0 <= q < |w.replicas| && q != r ==> w'.replicas[q] == w.replicas[q]
    requires RemoteRises(w.remote, w'.remote) && w.written <= w'.written
    requires forall v :: v in w.written && v in w.writers ==> v in w'.writers && w'.writers[v] == w.writers[v]
    requires HistoryOk(w') && RemoteOk(w') && ReplicaOk(w', w'.replicas[r])
    requires QueueKept(w.replicas[r], w'.replicas[r], w'.remote)
    requires forall v :: v in w'.written && v !in w.written ==> Kept(w', v)
    ensures Inv(w')
  {
  }

  lemma AddKeepsHistory(w: World, r: nat, id: Id, row: LocalRow, queuedAt: int)
    requires r < |w.replicas| && FreshStamp(w, r, id, row.stamp) && HistoryOk(w)
    ensures HistoryOk(Added(w, r, id, row, queuedAt))
  {
  }

  lemma NewWriteKept(w: World, r: nat, id: Id, row: LocalRow, queuedAt: int)
    requires r < |w.replicas|
    ensures Kept(Added(w, r, id, row, queuedAt), ToWire(id, row))
  {
    hide ToWire;
  }

  lemma {:induction false} AddKeepsInv(w: World, r: nat, id: Id, row: LocalRow, queuedAt: int)
    requires r < |w.replicas| && FreshStamp(w, r, id, row.stamp) && Inv(w)
    ensures Inv(Added(w, r, id, row, queuedAt))
  {
    hide ToWire, Canonical, HistoryOk, Kept;
    AddKeepsHistory(w, r, id, row, queuedAt);
    NewWriteKept(w, r, id, row, queuedAt);
    assert ReplicaOk(w, w.replicas[r]);
    OneReplicaSteps(w, Added(w, r, id, row, queuedAt), r);
  }

  lemma {:induction false} MergeKeepsInv(w: World, r: nat, row: RemoteTrack)
    requires r < |w.replicas| && row in w.seen && Inv(w)
    ensures Inv(MergedAt(w, r, row))
  {
    hide ToWire, FromWire, Canonical, StampsUnique, Kept;
    var w' := MergedAt(w, r, row);
    WireRoundTrip(row);
    assert ReplicaOk(w, w.replicas[r]);
    assert ReplicaOk(w', w'.replicas[r]);
    OneReplicaSteps(w, w', r);
  }

  lemma PushKeepsParts(w: World, r: nat, id: Id, acknowledged: bool)
    requires r < |w.replicas| && HistoryOk(w) && RemoteOk(w) && ReplicaOk(w, w.replicas[r])
    requires id in w.replicas[r].tracks
    ensures var w' := PushedAt(w, r, id, acknowledged);
            HistoryOk(w') && RemoteOk(w') && ReplicaOk(w', w'.replicas[r]) && RemoteRises(w.remote, w'.remote)
  {
    hide ToWire, Canonical, StampsUnique;
  }

  lemma {:induction false} PushKeepsInv(w: World, r: nat, id: Id, acknowledged: bool)
    requires r < |w.replicas| && Inv(w)
    ensures Inv(PushedAt(w, r, id, acknowledged)) && RemoteRises(w.remote, PushedAt(w, r, id, acknowledged).remote)
  {
    assert ReplicaOk(w, w.replicas[r]);
    if id in w.replicas[r].tracks {
      PushKeepsParts(w, r, id, acknowledged);
      hide ToWire, HistoryOk, RemoteOk, ReplicaOk, Kept, RemoteRises;
      OneReplicaSteps(w, PushedAt(w, r, id, acknowledged), r);
    }
  }

  lemma {:induction false} RequeueKeepsInv(w: World, r: nat, now: int)
    requires r < |w.replicas| && Inv(w)
    ensures Inv(RequeuedAt(w, r, now))
  {
    assert ReplicaOk(w, w.replicas[r]);
    OneReplicaSteps(w, RequeuedAt(w, r, now), r);
  }

  lemma {:induction false} StepKeepsInv(w: World, s: Step)
    requires Enabled(w, s) && Inv(w)
    ensures Inv(Next(w, s)) && RemoteRises(w.remote, Next(w, s).remote)
    ensures |Next(w, s).replicas| == |w.replicas|
  {
    match s
    case Add(r, id, meta, cues, local, now, at) => AddKeepsInv(w, r, id, LocalRow(meta, cues, local, now), at);
    case Merge(r, row) => MergeKeepsInv(w, r, row);
    case Push(r, id) => PushKeepsInv(w, r, id, true);
    case PushUnacknowledged(r, id) => PushKeepsInv(w, r, id, false);
    case Requeue(r, now) => RequeueKeepsInv(w, r, now);
  }

  lemma {:induction false} RunKeepsInv(w: World, steps: seq<Step>, w': World)
    requires Inv(w) && IsRun(w, steps, w')
    ensures Inv(w') && RemoteRises(w.remote, w'.remote) && |w'.replicas| == |w.replicas|
    decreases |steps|
  {
    if steps != [] {
      StepKeepsInv(w, steps[0]);
      RunKeepsInv(Next(w, steps[0]), steps[1..], w');
    }
  }

  // ---------------------------------------------------------------- safety over whole runs

  /** At every point of every run: an outbox names only tracks that exist, a row that is not
      in it is not ahead of the remote, and remote stamps have only risen. */
  lemma OutboxSafety(n: nat, seed: Remote, steps: seq<Step>, w: World, r: nat, id: Id)
    requires GoodSeed(seed) && IsRun(Start(n, seed), steps, w) && r < n
    ensures |w.replicas| == n && forall t :: t in seed ==> t in w.remote && w.remote[t].stamp >= seed[t].stamp
    ensures id in w.replicas[r].pending ==> id in w.replicas[r].tracks
    ensures id in w.replicas[r].tracks && id !in w.replicas[r].pending ==>
              id in w.remote && w.remote[id].stamp >= w.replicas[r].tracks[id].stamp
  {
    StartInv(n, seed);
    RunKeepsInv(Start(n, seed), steps, w);
    assert ReplicaOk(w, w.replicas[r]);
  }

  lemma SameStampSameVersion(w: World, u: RemoteTrack, v: RemoteTrack)
    requires HistoryOk(w) && u in w.written && v in w.written && u.trackId == v.trackId && u.stamp == v.stamp
    ensures u == v
  {
  }

  /** At every point of every run, the highest-stamped version ever written of a track is the
      remote's row, or still the row of the replica that wrote it, and queued there. */
  lemma HighestWriteKept(n: nat, seed: Remote, steps: seq<Step>, w: World, v: RemoteTrack)
    requires GoodSeed(seed) && IsRun(Start(n, seed), steps, w)
    requires v in w.written && forall u :: u in w.written && u.trackId == v.trackId ==> u.stamp <= v.stamp
    ensures || (v.trackId in w.remote && w.remote[v.trackId] == v)
            || (v in w.writers && w.writers[v] < |w.replicas|
                && var writer := w.replicas[w.writers[v]];
                   v.trackId in writer.pending && v.trackId in writer.tracks
                   && ToWire(v.trackId, writer.tracks[v.trackId]) == v)
  {
    hide ToWire, Canonical, StampsUnique;
    StartInv(n, seed);
    RunKeepsInv(Start(n, seed), steps, w);
    assert Kept(w, v);
    if RemoteAtLeast(w.remote, v.trackId, v.stamp) {
      SameStampSameVersion(w, w.remote[v.trackId], v);
    } else {
      var r := w.writers[v];
      assert ReplicaOk(w, w.replicas[r]);
      SameStampSameVersion(w, ToWire(v.trackId, w.replicas[r].tracks[v.trackId]), v);
    }
  }

  // ---------------------------------------------------------------- convergence

  ghost predicate Drained(w: World) {
    forall r :: 0 <= r < |w.replicas| ==> w.replicas[r].pending == map[]
  }

  /** Every replica makes one full pull. */
  function PulledEverywhere(w: World): World {
    w.(replicas := seq(|w.replicas|, r requires 0 <= r < |w.replicas| =>
      w.replicas[r].(tracks := Merged(w.replicas[r].tracks, Since(w.remote, 0)))))
  }

  ghost predicate Agrees(me: Replica, remote: Remote) {
    && me.tracks.Keys == remote.Keys
    && forall id :: id in remote ==> ToWire(id, me.tracks[id]) == remote[id]
  }

  ghost predicate Converged(w: World) {
    forall r :: 0 <= r < |w.replicas| ==> Agrees(w.replicas[r], w.remote)
  }

  lemma MergedRowStamps(tracks: Tracks, row: RemoteTrack)
    ensures var merged := MergedRow(tracks, row);
            && row.trackId in merged && merged[row.trackId].stamp >= row.stamp
            && forall id :: id in tracks ==> id in merged && merged[id].stamp >= tracks[id].stamp
  {
    hide FromWire;
  }

  ghost predicate StampsRise(tracks: Tracks, tracks': Tracks) {
    forall id :: id in tracks ==> id in tracks' && tracks'[id].stamp >= tracks[id].stamp
  }

  /** Remote, outboxes and history are the same, and no local stamp is lower. */
  ghost predicate Settling(w: World, w': World) {
    && w'.remote == w.remote && w'.written == w.written && |w'.replicas| == |w.replicas|
    && forall r :: 0 <= r < |w.replicas| ==>
         w'.replicas[r].pending == w.replicas[r].pending && StampsRise(w.replicas[r].tracks, w'.replicas[r].tracks)
  }

  ghost predicate HasMerged(w: World, s: Step) {
    s.Merge? && s.r < |w.replicas| && s.row.trackId in w.replicas[s.r].tracks
    && w.replicas[s.r].tracks[s.row.trackId].stamp >= s.row.stamp
  }

  lemma MergeSettles(w: World, s: Step)
    requires s.Merge? && s.r < |w.replicas|
    ensures Settling(w, Next(w, s)) && HasMerged(Next(w, s), s)
  {
    MergedRowStamps(w.replicas[s.r].tracks, s.row);
    hide MergedRow;
  }

  lemma SettlingOn(w: World, mid: World, w': World, s: Step)
    requires Settling(w, mid) && Settling(mid, w')
    ensures Settling(w, w') && (HasMerged(mid, s) ==> HasMerged(w', s))
  {
  }

  /** Merging fetched rows leaves the remote and the outboxes alone, lowers no local stamp, and
      leaves every replica at least as new as each row it merged. */
  lemma {:induction false} MergesSettle(w: World, more: seq<Step>, w': World)
    requires Inv(w) && IsRun(w, more, w') && forall s :: s in more ==> s.Merge?
    ensures Inv(w') && Settling(w, w') && forall s :: s in more ==> HasMerged(w', s)
    decreases |more|
  {
    if more != [] {
      var s, next := more[0], Next(w, more[0]);
      assert more == [s] + more[1..];
      StepKeepsInv(w, s);
      MergeSettles(w, s);
      hide Inv, Next, Settling, HasMerged;
      MergesSettle(next, more[1..], w');
      SettlingOn(w, next, w', s);
    }
  }

  lemma SettledAgrees(w: World, me: Replica)
    requires HistoryOk(w) && RemoteOk(w) && ReplicaOk(w, me) && me.pending == map[]
    requires forall id :: id in w.remote ==> id in me.tracks && me.tracks[id].stamp >= w.remote[id].stamp
    ensures Agrees(me, w.remote)
  {
    hide ToWire, StampsUnique, Canonical;
    forall id | id in w.remote ensures ToWire(id, me.tracks[id]) == w.remote[id] {
      assert RemoteAtLeast(w.remote, id, me.tracks[id].stamp);
      SameStampSameVersion(w, ToWire(id, me.tracks[id]), w.remote[id]);
    }
    assert forall id :: id in me.tracks ==> RemoteAtLeast(w.remote, id, me.tracks[id].stamp);
  }

  /** Every replica merges every row of the remote, in whatever order. */
  ghost predicate EveryonePulls(w: World, more: seq<Step>) {
    && (forall s :: s in more ==> s.Merge?)
    && forall r, id :: 0 <= r < |w.replicas| && id in w.remote ==> Merge(r, w.remote[id]) in more
  }

  /** Once every outbox of a run has drained and every replica has pulled every row once more, in
      any order and with any fetched rows merged in between, all replicas and the remote hold the
      same cloud row for every track, and it is the highest-stamped version ever written. */
  lemma Convergence(n: nat, seed: Remote, steps: seq<Step>, w: World, more: seq<Step>, w': World)
    requires GoodSeed(seed) && IsRun(Start(n, seed), steps, w) && Drained(w)
    requires IsRun(w, more, w') && EveryonePulls(w, more)
    ensures forall r :: 0 <= r < |w'.replicas| ==> w'.replicas[r].tracks.Keys == w'.remote.Keys
    ensures forall r, id :: 0 <= r < |w'.replicas| && id in w'.replicas[r].tracks ==>
              id in w'.remote && ToWire(id, w'.replicas[r].tracks[id]) == w'.remote[id]
    ensures forall v :: v in w'.written ==>
              v.trackId in w'.remote && (w'.remote[v.trackId] == v || w'.remote[v.trackId].stamp > v.stamp)
  {
    StartInv(n, seed);
    RunKeepsInv(Start(n, seed), steps, w);
    MergesSettle(w, more, w');
    hide IsRun;
    forall r | 0 <= r < |w'.replicas| ensures Agrees(w'.replicas[r], w'.remote) {
      assert ReplicaOk(w', w'.replicas[r]);
      forall id | id in w'.remote
        ensures id in w'.replicas[r].tracks && w'.replicas[r].tracks[id].stamp >= w'.remote[id].stamp
      {
        assert HasMerged(w', Merge(r, w.remote[id]));
        assert w.remote[id].trackId == id;
      }
      SettledAgrees(w', w'.replicas[r]);
    }
    forall v | v in w'.written
      ensures v.trackId in w'.remote && (w'.remote[v.trackId] == v || w'.remote[v.trackId].stamp > v.stamp)
    {
      assert Kept(w', v);
      if w'.remote[v.trackId].stamp == v.stamp { SameStampSameVersion(w', w'.remote[v.trackId], v); }
    }
  }

  // ---------------------------------------------------------------- passes are runs

  lemma {:induction false} RunThenStep(w: World, steps: seq<Step>, w1: World, s: Step)
    requires IsRun(w, steps, w1) && Enabled(w1, s)
    ensures IsRun(w, steps + [s], Next(w1, s))
    decreases |steps|
  {
    if steps == [] {
      assert IsRun(Next(w, s), [], Next(w, s));
    } else {
      RunThenStep(Next(w, steps[0]), steps[1..], w1, s);
      assert (steps + [s])[1..] == steps[1..] + [s];
    }
  }

  /** A pull pass over rows the remote once had is a run of merges. */
  lemma {:induction false} PullIsRun(w: World, r: nat, rows: seq<RemoteTrack>)
    returns (steps: seq<Step>, w': World)
    requires r < |w.replicas| && forall row :: row in rows ==> row in w.seen
    ensures IsRun(w, steps, w')
    ensures (forall s :: s in steps ==> s.Merge? && s.r == r) && forall row :: row in rows ==> Merge(r, row) in steps
    ensures w' == w.(replicas := w.replicas[r := w.replicas[r].(tracks := MergedRows(w.replicas[r].tracks, rows))])
  {
    if rows == [] {
      steps, w' := [], w;
      assert w.replicas[r := w.replicas[r]] == w.replicas;
    } else {
      var last := rows[|rows| - 1];
      var earlier, w1 := PullIsRun(w, r, rows[..|rows| - 1]);
      steps, w' := earlier + [Merge(r, last)], Next(w1, Merge(r, last));
      assert Enabled(w1, Merge(r, last));
      RunThenStep(w, earlier, w1, Merge(r, last));
    }
  }

  /** A push pass that got through `done` is a run of pushes. */
  lemma {:induction false} PushIsRun(w: World, r: nat, done: seq<Id>)
    returns (steps: seq<Step>, w': World)
    requires r < |w.replicas|
    ensures IsRun(w, steps, w') && w'.written == w.written && w'.writers == w.writers && w.seen <= w'.seen
    ensures var me := w.replicas[r];
            && w'.replicas == w.replicas[r := me.(pending := me.pending - Present(me.tracks, done))]
            && w'.remote == PushedIds(w.remote, me.tracks, done)
  {
    if done == [] {
      steps, w' := [], w;
      assert w.replicas[r].pending - Present(w.replicas[r].tracks, done) == w.replicas[r].pending;
      assert w.replicas[r := w.replicas[r]] == w.replicas;
    } else {
      var init, last := done[..|done| - 1], done[|done| - 1];
      var earlier, w1 := PushIsRun(w, r, init);
      steps, w' := earlier + [Push(r, last)], Next(w1, Push(r, last));
      RunThenStep(w, earlier, w1, Push(r, last));
      var me := w.replicas[r];
      assert done == init + [last];
      assert Present(me.tracks, done) == Present(me.tracks, init) + if last in me.tracks then {last} else {};
      assert w'.replicas[r].pending == me.pending - Present(me.tracks, done);
    }
  }

  // ---------------------------------------------------------------- two limits of the protocol

  /** `set_hot_cues` rewrites the cue column and nothing else: no new stamp, no outbox entry. */
  function CuesSetAt(w: World, r: nat, id: Id, cues: seq<Option<int>>): World
    requires r < |w.replicas| && id in w.replicas[r].tracks
  {
    var me := w.replicas[r];
    w.(replicas := w.replicas[r := me.(tracks := me.tracks[id := me.tracks[id].(cues := cues)])])
  }

  lemma PullKeepsCues(me: Replica, remote: Remote, id: Id, cues: seq<Option<int>>)
    requires Agrees(me, remote) && id in me.tracks
    ensures var tracks := me.tracks[id := me.tracks[id].(cues := cues)];
            && Merged(tracks, Since(remote, 0)) == tracks
            && (Agrees(me.(tracks := tracks), remote) <==> EncodeCues(ReadCues(cues)) == remote[id].hotCuesMs)
  {
  }

  lemma PullKeepsAgreement(me: Replica, remote: Remote)
    requires Agrees(me, remote)
    ensures Merged(me.tracks, Since(remote, 0)) == me.tracks
  {
  }

  /** After it, a converged world converges again exactly when the new cues are the ones the
      remote already has; otherwise no pull repairs the difference and no push is due. */
  lemma SetHotCuesConverges(w: World, r: nat, id: Id, cues: seq<Option<int>>)
    requires Converged(w) && Drained(w) && r < |w.replicas| && id in w.replicas[r].tracks
    ensures Drained(CuesSetAt(w, r, id, cues))
    ensures Converged(PulledEverywhere(CuesSetAt(w, r, id, cues)))
       <==> EncodeCues(ReadCues(cues)) == w.remote[id].hotCuesMs
  {
    hide Agrees, Merged, Since, EncodeCues, ReadCues;
    var w1 := CuesSetAt(w, r, id, cues);
    forall q | 0 <= q < |w.replicas|
      ensures PulledEverywhere(w1).replicas[q] == w1.replicas[q]
    {
      PullKeepsCues(w.replicas[r], w.remote, id, cues);
      PullKeepsAgreement(w.replicas[q], w.remote);
    }
    PullKeepsCues(w.replicas[r], w.remote, id, cues);
    assert w1.replicas[r].tracks == PulledEverywhere(w1).replicas[r].tracks;
  }

  /** A push whose three statements are not one step: `loaded` was read before a local write
      replaced the row, and the clear that follows deletes by id. */
  function PushedLate(w: World, r: nat, id: Id, loaded: LocalRow): World
    requires r < |w.replicas|
  {
    var me := w.replicas[r];
    w.(replicas := w.replicas[r := me.(pending := me.pending - {id})],
       remote := Upserted(w.remote, ToWire(id, loaded)))
  }

  /** Such a clear keeps the outbox safe exactly when the row is no newer than the uploaded one
      or the remote already had it; otherwise the late write loses its outbox mark. */
  lemma {:induction false} LateWriteKeepsMark(w: World, r: nat, id: Id, loaded: LocalRow)
    requires r < |w.replicas| && RemoteOk(w) && ReplicaOk(w, w.replicas[r]) && id in w.replicas[r].tracks
    ensures ReplicaOk(PushedLate(w, r, id, loaded), PushedLate(w, r, id, loaded).replicas[r])
       <==> || w.replicas[r].tracks[id].stamp <= loaded.stamp
            || (id in w.remote && w.replicas[r].tracks[id].stamp <= w.remote[id].stamp)
  {
    hide ToWire, Canonical;
    var w' := PushedLate(w, r, id, loaded);
    assert ReplicaOk(w, w.replicas[r]);
    assert RemoteAtLeast(w'.remote, id, w.replicas[r].tracks[id].stamp)
      <==> || w.replicas[r].tracks[id].stamp <= loaded.stamp
           || (id in w.remote && w.replicas[r].tracks[id].stamp <= w.remote[id].stamp);
  }

  /** A merge whose comparison and write are not one step: the row is written whatever the replica
      has got by then. */
  function AppliedLate(w: World, r: nat, row: RemoteTrack): World
    requires r < |w.replicas|
  {
    var me := w.replicas[r];
    w.(replicas := w.replicas[r := me.(tracks := me.tracks[row.trackId := FromWire(row)])])
  }

  /** Over a local write `v` that landed in between, it keeps the invariant exactly when the row is
      no older than that write or the remote has caught up with it; otherwise the write is lost,
      at the remote and at its writer. */
  lemma {:induction false} LateMergeKeepsInv(w: World, r: nat, row: RemoteTrack, v: RemoteTrack)
    requires Inv(w) && r < |w.replicas| && row in w.seen && row.trackId in w.replicas[r].tracks
    requires v == ToWire(row.trackId, w.replicas[r].tracks[row.trackId]) && v in w.writers && w.writers[v] == r
    ensures Inv(AppliedLate(w, r, row)) <==> Kept(AppliedLate(w, r, row), v)
    ensures Kept(AppliedLate(w, r, row), v)
       <==> row.stamp >= v.stamp || RemoteAtLeast(w.remote, v.trackId, v.stamp)
  {
    hide ToWire, FromWire, Canonical, StampsUnique;
    var w', id := AppliedLate(w, r, row), row.trackId;
    WireRoundTrip(row);
    assert ReplicaOk(w, w.replicas[r]);
    assert ReplicaOk(w', w'.replicas[r]);
    if Kept(w', v) {
      forall u | u in w.written ensures Kept(w', u) { assert Kept(w, u); }
      forall q | 0 <= q < |w'.replicas| ensures ReplicaOk(w', w'.replicas[q]) { assert ReplicaOk(w, w.replicas[q]); }
    }
  }
}
