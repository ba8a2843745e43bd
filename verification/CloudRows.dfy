/** Row shapes of the cloud sync: the local `tracks` row, the row on the wire,
    and the conversions between them (`copilot/cloud_sync/client.py`,
    `copilot/library.py`). */
module CloudRows {
  import opened Wrappers

  type Id = string

  const HOT_CUE_SLOTS := 8

  /** The columns that travel to the cloud as they are. */
  datatype Meta = Meta(path: string, bpm: real, camelotKey: string, energy: real, durationS: real)

  /** The columns the cloud never sees. */
  datatype LocalOnly = LocalOnly(
    anchorMs: int, beatPeriodMs: real, downbeatsMs: seq<int>,
    lufs: Option<real>, trackGainDb: Option<real>, source: string)

  /** `cues` is the JSON array of the `hot_cues_json` column, which `add_track` stores unchecked. */
  datatype LocalRow = LocalRow(meta: Meta, cues: seq<Option<int>>, local: LocalOnly, stamp: int)

  datatype RemoteTrack = RemoteTrack(trackId: Id, meta: Meta, hotCuesMs: seq<int>, stamp: int)

  /** `_hot_cues_from_json`: eight slots, anything negative reads as empty. */
  function ReadCues(column: seq<Option<int>>): (cues: seq<Option<int>>) {
    seq(HOT_CUE_SLOTS, i requires 0 <= i < HOT_CUE_SLOTS =>
      if i < |column| && column[i].Some? && column[i].value >= 0 then column[i] else None)
  }

  /** `RemoteTrack.from_local`: pad or cut to eight slots, empty becomes -1. */
  function EncodeCues(cues: seq<Option<int>>): (ms: seq<int>) {
    seq(HOT_CUE_SLOTS, i requires 0 <= i < HOT_CUE_SLOTS =>
      if i < |cues| && cues[i].Some? then cues[i].value else -1)
  }

  /** `hot_cues_as_options`: any negative value is an empty slot. */
  function DecodeCues(ms: seq<int>): (cues: seq<Option<int>>) {
    seq(|ms|, i requires 0 <= i < |ms| => if ms[i] < 0 then None else Some(ms[i]))
  }

  /** `row_for_cloud_push` followed by `RemoteTrack.from_local`. */
  function ToWire(id: Id, row: LocalRow): (wire: RemoteTrack)
    ensures Canonical(wire) && wire.trackId == id && wire.stamp == row.stamp
  {
    RemoteTrack(id, row.meta, EncodeCues(ReadCues(row.cues)), row.stamp)
  }

  /** `hot_cues_as_options` followed by `upsert_from_remote`. */
  function FromWire(wire: RemoteTrack): (row: LocalRow)
    ensures row.stamp == wire.stamp
  {
    LocalRow(
      wire.meta,
      DecodeCues(wire.hotCuesMs),
      LocalOnly(0, 60000.0 / (if wire.meta.bpm > 1.0 then wire.meta.bpm else 1.0), [], None, None, "cloud"),
      wire.stamp)
  }

  /** What another replica sees of a row: the shared columns and the stamp, and eight cue slots, each
      its position or -1. */
  lemma ToWireMeaning(id: Id, row: LocalRow)
    ensures var wire := ToWire(id, row);
            && wire.trackId == id && wire.meta == row.meta && wire.stamp == row.stamp && |wire.hotCuesMs| == 8
            && forall i :: 0 <= i < 8 ==>
                 wire.hotCuesMs[i] ==
                 if i < |row.cues| && row.cues[i].Some? && row.cues[i].value >= 0 then row.cues[i].value else -1
  {
  }

  lemma BeatPeriod(bpm: real)
    requires bpm >= 1.0
    ensures 60000.0 / bpm * bpm == 60000.0
  {
  }

  /** What a pulled row is locally: the shared columns and the stamp, its cues, and for the columns
      the cloud does not carry a beat grid from the tempo alone, without downbeats or loudness. */
  lemma FromWireMeaning(wire: RemoteTrack)
    ensures var row := FromWire(wire);
            && row.meta == wire.meta && row.stamp == wire.stamp && |row.cues| == |wire.hotCuesMs|
            && (forall i :: 0 <= i < |row.cues| ==>
                  row.cues[i] == if wire.hotCuesMs[i] >= 0 then Some(wire.hotCuesMs[i]) else None)
            && row.local.anchorMs == 0 && row.local.downbeatsMs == []
            && row.local.lufs == None && row.local.trackGainDb == None && row.local.source == "cloud"
            && row.local.beatPeriodMs * (if wire.meta.bpm >= 1.0 then wire.meta.bpm else 1.0) == 60000.0
  {
    BeatPeriod(if wire.meta.bpm >= 1.0 then wire.meta.bpm else 1.0);
  }

  /** Wire rows that survive a visit to a replica unchanged. */
  predicate Canonical(wire: RemoteTrack) {
    && |wire.hotCuesMs| == HOT_CUE_SLOTS
    && forall i :: 0 <= i < HOT_CUE_SLOTS ==> wire.hotCuesMs[i] >= -1
  }

  /** A wire row pulled into a library and pushed again comes back as it was exactly
      when it has eight cue slots, none of them below the -1 sentinel. */
  lemma WireRoundTrip(wire: RemoteTrack)
    ensures ToWire(wire.trackId, FromWire(wire)) == wire <==> Canonical(wire)
  {
  }

  /** What a replica pushes is canonical, and the cues another replica reads from it
      are the cues the first one reads from its own column. */
  lemma PushedRowIsCanonical(id: Id, row: LocalRow)
    ensures Canonical(ToWire(id, row))
    ensures ReadCues(FromWire(ToWire(id, row)).cues) == ReadCues(row.cues)
  {
  }
}
