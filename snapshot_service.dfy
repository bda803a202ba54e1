/**
 * The per-room action log, action counter, stored snapshot and connection
 * counter of the sync server, with an in-memory map per Redis key family
 * standing for the Redis stream and hashes.
 */
module SnapshotService {
  import opened Wrappers
  import opened Text
  import opened Actions
  import opened Snapshots

  /** A snapshot is taken each time this many actions have been recorded. */
  const SNAPSHOT_THRESHOLD: nat := 50

  function SnapshotKey(roomId: string): string { "puzzle:" + roomId + ":snapshot" }
  function ActionsKey(roomId: string): string { "puzzle:" + roomId + ":actions" }
  function ActionCountKey(roomId: string): string { "puzzle:" + roomId + ":actionCount" }
  function ConnectionsMadeKey(roomId: string): string { "puzzle:" + roomId + ":connectionsMade" }

  lemma {:induction false} KeyInjective(r1: string, r2: string, suffix: string)
    requires "puzzle:" + r1 + suffix == "puzzle:" + r2 + suffix
    ensures r1 == r2
  {
    var k := "puzzle:" + r1 + suffix;
    assert |r1| == |r2|;
    assert r1 == k[7..7 + |r1|];
    assert r2 == ("puzzle:" + r2 + suffix)[7..7 + |r2|];
  }

  lemma {:induction false} KeyTail(r: string, suffix: string, j: nat)
    requires 1 <= j <= |suffix|
    ensures var k := "puzzle:" + r + suffix; k[|k| - j] == suffix[|suffix| - j]
  {
  }

  /**
   * Each key builder names a different key for every room, and keys of
   * different families never coincide, so the four maps below together
   * hold exactly what the Redis keyspace holds for the rooms.
   */
  lemma {:induction false} KeysSeparateRooms(r1: string, r2: string)
    ensures SnapshotKey(r1) == SnapshotKey(r2) ==> r1 == r2
    ensures ActionsKey(r1) == ActionsKey(r2) ==> r1 == r2
    ensures ActionCountKey(r1) == ActionCountKey(r2) ==> r1 == r2
    ensures ConnectionsMadeKey(r1) == ConnectionsMadeKey(r2) ==> r1 == r2
    ensures SnapshotKey(r1) != ActionsKey(r2) && SnapshotKey(r1) != ActionCountKey(r2)
    ensures SnapshotKey(r1) != ConnectionsMadeKey(r2) && ActionsKey(r1) != ActionCountKey(r2)
    ensures ActionsKey(r1) != ConnectionsMadeKey(r2) && ActionCountKey(r1) != ConnectionsMadeKey(r2)
  {
    if SnapshotKey(r1) == SnapshotKey(r2) { KeyInjective(r1, r2, ":snapshot"); }
    if ActionsKey(r1) == ActionsKey(r2) { KeyInjective(r1, r2, ":actions"); }
    if ActionCountKey(r1) == ActionCountKey(r2) { KeyInjective(r1, r2, ":actionCount"); }
    if ConnectionsMadeKey(r1) == ConnectionsMadeKey(r2) { KeyInjective(r1, r2, ":connectionsMade"); }
    KeyTail(r1, ":snapshot", 1);
    KeyTail(r1, ":snapshot", 2);
    KeyTail(r1, ":actions", 1);
    KeyTail(r1, ":actionCount", 1);
    KeyTail(r2, ":actions", 1);
    KeyTail(r2, ":actionCount", 1);
    KeyTail(r2, ":actionCount", 2);
    KeyTail(r2, ":connectionsMade", 1);
  }

  /** One stream entry: its id and the `a` field holding the encoded action. */
  datatype Entry = Entry(id: nat, payload: string)

  /** The `puzzle:<room>:snapshot` hash. */
  datatype StoredSnapshot = StoredSnapshot(lastMessageId: Option<nat>, snapshotData: State)

  /** What `getLatestState` produces: `null`, a snapshot, or a TypeError. */
  datatype Latest = NoState | Derived(state: State, lastMessageId: Option<nat>) | Crashed

  /** Stream ids grow strictly along the log. */
  ghost predicate Increasing(log: seq<Entry>) {
    forall i, j :: 0 <= i < j < |log| ==> log[i].id < log[j].id
  }

  /** `xrange(key, start, '+')`: the entries whose id is `start` or later. */
  function RangeFrom(log: seq<Entry>, start: nat): (r: seq<Entry>)
    decreases |log|
  {
    if log == [] then []
    else if log[0].id >= start then [log[0]] + RangeFrom(log[1..], start)
    else RangeFrom(log[1..], start)
  }

  /** The range holds exactly the entries whose id is at least `start`. */
  lemma {:induction false} RangeFromMembers(log: seq<Entry>, start: nat)
    ensures forall e :: e in RangeFrom(log, start) <==> e in log && e.id >= start
    decreases |log|
  {
    if log != [] {
      RangeFromMembers(log[1..], start);
      assert log == [log[0]] + log[1..];
    }
  }

  /** Every entry's payload, decoded by `Action.fromString`. */
  function Decode(log: seq<Entry>): (ds: seq<Option<Action>>)
    ensures |ds| == |log|
    decreases |log|
  {
    if log == [] then [] else [FromString(log[0].payload)] + Decode(log[1..])
  }

  lemma {:induction false} DecodeAt(log: seq<Entry>, i: nat)
    requires i < |log|
    ensures Decode(log)[i] == FromString(log[i].payload)
    decreases i
  {
    if i > 0 {
      DecodeAt(log[1..], i - 1);
    }
  }

  /** Apply one decoded entry; `None` where the source throws. */
  function Step(s: State, d: Option<Action>): (r: Option<State>)
    ensures r.Some? <==> d.Some? && Transition(s, d.value).Some?
  {
    match d
    case None => None
    case Some(a) => Transition(s, a)
  }

  /** Apply decoded entries in order onto `s`, stopping at the first failure. */
  function Run(s: State, ds: seq<Option<Action>>): Option<State>
    decreases |ds|
  {
    if ds == [] then Some(s)
    else
      match Step(s, ds[0])
      case None => None
      case Some(t) => Run(t, ds[1..])
  }

  /** Decode and apply every entry of a log in order onto `s`. */
  function Replay(s: State, log: seq<Entry>): Option<State>
  {
    Run(s, Decode(log))
  }

  /** Running `xs + ys` is running `ys` on the result of running `xs`. */
  lemma {:induction false} RunConcat(s: State, xs: seq<Option<Action>>, ys: seq<Option<Action>>)
    ensures Run(s, xs + ys) == (match Run(s, xs) case None => None case Some(t) => Run(t, ys))
    decreases |xs|
  {
    if xs == [] {
      assert xs + ys == ys;
    } else {
      assert (xs + ys)[0] == xs[0];
      assert (xs + ys)[1..] == xs[1..] + ys;
      match Step(s, xs[0])
      case None =>
      case Some(t) => RunConcat(t, xs[1..], ys);
    }
  }

  /** A run that fails on a prefix of the entries fails on all of them. */
  lemma {:induction false} RunStops(s: State, ds: seq<Option<Action>>, n: nat)
    requires n <= |ds| && Run(s, ds[..n]).None?
    ensures Run(s, ds).None?
  {
    assert ds == ds[..n] + ds[n..];
    RunConcat(s, ds[..n], ds[n..]);
  }

  /** Running one more entry is one more step. */
  lemma {:induction false} RunSnoc(s: State, ds: seq<Option<Action>>, o: Option<Action>)
    ensures Run(s, ds + [o]) == (match Run(s, ds) case None => None case Some(t) => Step(t, o))
  {
    RunConcat(s, ds, [o]);
  }

  /** The payloads of `log` are the encodings of `actions`, one for one. */
  ghost predicate Encodes(log: seq<Entry>, actions: seq<Action>) {
    |log| == |actions| && forall i :: 0 <= i < |log| ==> EncodesAt(log, actions, i)
  }

  ghost predicate EncodesAt(log: seq<Entry>, actions: seq<Action>, i: nat)
    requires i < |log| && i < |actions|
  {
    log[i].payload == ToString(actions[i])
  }

  /** Every payload of an encoded log decodes to the action it encodes. */
  lemma {:induction false} EncodedDecodes(log: seq<Entry>, actions: seq<Action>, i: nat)
    requires Encodes(log, actions) && i < |log|
    ensures Decode(log)[i] == Some(actions[i])
  {
    assert EncodesAt(log, actions, i);
    DecodeAt(log, i);
    FromStringToString(actions[i]);
  }

  /** Replaying an encoded log is folding the actions it encodes. */
  lemma {:induction false} ReplayEncoded(s: State, log: seq<Entry>, actions: seq<Action>)
    requires Encodes(log, actions)
    ensures Replay(s, log) == Fold(s, actions)
    decreases |log|
  {
    if log != [] {
      EncodedDecodes(log, actions, 0);
      assert Encodes(log[1..], actions[1..]) by {
        forall i | 0 <= i < |log| - 1
          ensures EncodesAt(log[1..], actions[1..], i)
        {
          assert EncodesAt(log, actions, i + 1);
        }
      }
      match Transition(s, actions[0])
      case None =>
      case Some(t) => ReplayEncoded(t, log[1..], actions[1..]);
    }
  }

  /** Slices of an encoded log encode the same slices of its actions. */
  lemma {:induction false} EncodesSlices(log: seq<Entry>, actions: seq<Action>, k: nat)
    requires Encodes(log, actions) && k <= |log|
    ensures Encodes(log[..k], actions[..k]) && Encodes(log[k..], actions[k..])
  {
    forall i | 0 <= i < k
      ensures EncodesAt(log[..k], actions[..k], i)
    {
      assert EncodesAt(log, actions, i);
    }
    forall i | 0 <= i < |log| - k
      ensures EncodesAt(log[k..], actions[k..], i)
    {
      assert EncodesAt(log, actions, k + i);
    }
  }

  /** `getLatestState` on a room's log and the snapshot stored for it. */
  function LatestState(log: seq<Entry>, stored: Option<StoredSnapshot>): Latest
  {
    var messages :=
      if stored.Some? && stored.value.lastMessageId.Some?
      then RangeFrom(log, stored.value.lastMessageId.value) else log;
    if |messages| == 0 && stored.None? then NoState
    else
      var base := if stored.Some? then stored.value.snapshotData else Empty;
      if |messages| == 1 then Derived(base, None)
      else if |messages| == 0 then Crashed
      else
        match Replay(base, messages)
        case None => Crashed
        case Some(d) => Derived(d, Some(messages[|messages| - 1].id))
  }

  /** With increasing ids, the inclusive range from an entry's id is the suffix from that entry. */
  lemma {:induction false} RangeFromSuffix(log: seq<Entry>, k: nat)
    requires Increasing(log) && k < |log|
    ensures RangeFrom(log, log[k].id) == log[k..]
    decreases |log|
  {
    if k == 0 {
      RangeFromAll(log[1..], log[0].id);
    } else {
      RangeFromSuffix(log[1..], k - 1);
      assert log[1..][k - 1..] == log[k..];
    }
  }

  lemma {:induction false} RangeFromAll(log: seq<Entry>, start: nat)
    requires forall i :: 0 <= i < |log| ==> log[i].id > start
    ensures RangeFrom(log, start) == log
    decreases |log|
  {
    if log != [] {
      RangeFromAll(log[1..], start);
    }
  }

  /**
   * A stored snapshot taken after the first `k` of the recorded `actions`:
   * its data is their fold from the empty state, and a recorded
   * `lastMessageId` is the id of entry `k - 1`.
   */
  ghost predicate SoundAt(log: seq<Entry>, actions: seq<Action>, st: StoredSnapshot, k: nat) {
    k <= |log| && k <= |actions|
    && Fold(Empty, actions[..k]) == Some(st.snapshotData)
    && (st.lastMessageId.Some? ==> 1 <= k && log[k - 1].id == st.lastMessageId.value)
  }

  /** What `getLatestState` yields once the log has moved past the stored snapshot. */
  function Converged(log: seq<Entry>, actions: seq<Action>): (r: Latest)
    requires |log| >= 1
    ensures r.Derived? ==> r.lastMessageId == Some(log[|log| - 1].id)
  {
    match Fold(Empty, actions)
    case None => Crashed
    case Some(d) => Derived(d, Some(log[|log| - 1].id))
  }

  /**
   * `getLatestState` serves the fold of every recorded action, whichever
   * snapshot is stored, as long as the read covers at least two entries:
   * the snapshot plus the entries read from its inclusive `lastMessageId`
   * rebuild the same state as the whole log from empty. The exception is
   * the one-entry read, which returns the snapshot unapplied; it arises
   * when the snapshot is marked with the last entry, and the snapshot then
   * already is that fold.
   */
  lemma {:induction false} LatestStateConverges(log: seq<Entry>, actions: seq<Action>, stored: Option<StoredSnapshot>, k: nat)
    requires Increasing(log) && Encodes(log, actions)
    requires stored.Some? ==> SoundAt(log, actions, stored.value, k) && |log| >= 1
    requires stored.None? || stored.value.lastMessageId.None? ==> |log| >= 2
    ensures stored.Some? && stored.value.lastMessageId.Some? && k == |log| ==>
              LatestState(log, stored) == Derived(stored.value.snapshotData, None)
              && Fold(Empty, actions) == Some(stored.value.snapshotData)
    ensures !(stored.Some? && stored.value.lastMessageId.Some? && k == |log|) ==>
              LatestState(log, stored) == Converged(log, actions)
  {
    if stored.None? {
      ReplayEncoded(Empty, log, actions);
    } else if stored.value.lastMessageId.None? {
      ConvergesWithoutMark(log, actions, stored.value, k);
    } else {
      RangeFromSuffix(log, k - 1);
      if k < |log| {
        ConvergesFromMark(log, actions, stored.value, k);
      } else {
        assert actions[..k] == actions;
      }
    }
  }

  /** A stored snapshot without `lastMessageId`: the whole log is replayed onto it. */
  lemma {:induction false} ConvergesWithoutMark(log: seq<Entry>, actions: seq<Action>, st: StoredSnapshot, k: nat)
    requires Encodes(log, actions) && SoundAt(log, actions, st, k) && st.lastMessageId.None? && |log| >= 2
    ensures LatestState(log, Some(st)) == Converged(log, actions)
  {
    ReplayEncoded(st.snapshotData, log, actions);
    FoldFromSnapshot(actions, st.snapshotData, k);
  }

  /** A stored snapshot with `lastMessageId`: the log from the marked entry on is replayed onto it. */
  lemma {:induction false} ConvergesFromMark(log: seq<Entry>, actions: seq<Action>, st: StoredSnapshot, k: nat)
    requires Encodes(log, actions) && SoundAt(log, actions, st, k) && st.lastMessageId.Some? && k < |log|
    requires RangeFrom(log, st.lastMessageId.value) == log[k - 1..]
    ensures LatestState(log, Some(st)) == Converged(log, actions)
  {
    var messages := log[k - 1..];
    EncodesSlices(log, actions, k - 1);
    ReplayEncoded(st.snapshotData, messages, actions[k - 1..]);
    FoldFromBoundary(actions, st.snapshotData, k);
    assert messages[|messages| - 1] == log[|log| - 1];
  }

  /** `getLatestState` is `null` exactly when there is no snapshot and the log is empty. */
  lemma {:induction false} NoStateExactly(log: seq<Entry>, stored: Option<StoredSnapshot>)
    ensures LatestState(log, stored).NoState? <==> stored.None? && log == []
  {
  }

  /** The one-entry quirk: without a snapshot, a one-action log rebuilds to the empty state. */
  lemma {:induction false} SingleEntryUnapplied(e: Entry)
    ensures LatestState([e], None) == Derived(Empty, None)
  {
  }

  /** With a snapshot stored but nothing read after it, the source reads `messages[-1]` and throws. */
  lemma {:induction false} EmptyReadCrashes(log: seq<Entry>, st: StoredSnapshot)
    requires st.lastMessageId.Some? && forall i :: 0 <= i < |log| ==> log[i].id < st.lastMessageId.value
    ensures LatestState(log, Some(st)) == Crashed
  {
    RangeFromNone(log, st.lastMessageId.value);
  }

  lemma {:induction false} RangeFromNone(log: seq<Entry>, start: nat)
    requires forall i :: 0 <= i < |log| ==> log[i].id < start
    ensures RangeFrom(log, start) == []
    decreases |log|
  {
    if log != [] {
      RangeFromNone(log[1..], start);
    }
  }

  /** The id Redis generates for an appended entry: above every id in the stream. */
  function NextId(log: seq<Entry>, clock: nat): (id: nat)
    ensures Increasing(log) ==> forall i :: 0 <= i < |log| ==> log[i].id < id
  {
    if log != [] && clock <= log[|log| - 1].id then log[|log| - 1].id + 1 else clock
  }

  /** The store invariant, over the key families of every room. */
  ghost predicate ValidRooms(logs: map<string, seq<Entry>>, recorded: map<string, seq<Action>>,
                             actionCounts: map<string, int>,
                             snapshots: map<string, StoredSnapshot>, snapPoints: map<string, nat>)
  {
    LogsWellFormed(logs, recorded)
    && CountsMatch(logs, actionCounts)
    && SnapshotsSound(logs, recorded, snapshots, snapPoints)
  }

  /** Ids increase along every log and every payload encodes a recorded action. */
  ghost predicate LogsWellFormed(logs: map<string, seq<Entry>>, recorded: map<string, seq<Action>>) {
    recorded.Keys == logs.Keys
    && forall r {:trigger LogWellFormed(logs, recorded, r)} :: r in logs ==> LogWellFormed(logs, recorded, r)
  }

  ghost predicate LogWellFormed(logs: map<string, seq<Entry>>, recorded: map<string, seq<Action>>, r: string)
    requires r in logs && r in recorded
  {
    Increasing(logs[r]) && Encodes(logs[r], recorded[r])
  }

  /** The action counter of a room is its number of entries modulo the threshold. */
  ghost predicate CountsMatch(logs: map<string, seq<Entry>>, actionCounts: map<string, int>) {
    actionCounts.Keys == logs.Keys
    && forall r {:trigger CountMatches(logs, actionCounts, r)} :: r in logs ==> CountMatches(logs, actionCounts, r)
  }

  ghost predicate CountMatches(logs: map<string, seq<Entry>>, actionCounts: map<string, int>, r: string)
    requires r in logs && r in actionCounts
  {
    actionCounts[r] == |logs[r]| % SNAPSHOT_THRESHOLD
  }

  /** A stored snapshot exists once the threshold was reached and is sound. */
  ghost predicate SnapshotsSound(logs: map<string, seq<Entry>>, recorded: map<string, seq<Action>>,
                                 snapshots: map<string, StoredSnapshot>, snapPoints: map<string, nat>)
  {
    forall r {:trigger SnapshotSound(logs, recorded, snapshots, snapPoints, r)} ::
      r in snapshots ==> SnapshotSound(logs, recorded, snapshots, snapPoints, r)
  }

  ghost predicate SnapshotSound(logs: map<string, seq<Entry>>, recorded: map<string, seq<Action>>,
                                snapshots: map<string, StoredSnapshot>, snapPoints: map<string, nat>, r: string)
    requires r in snapshots
  {
    r in logs && r in recorded && r in snapPoints && |logs[r]| >= SNAPSHOT_THRESHOLD
    && SoundAt(logs[r], recorded[r], snapshots[r], snapPoints[r])
  }

  /** Appending an encoded action under a fresh id keeps every log well formed. */
  lemma {:induction false} AppendKeepsLogs(logs: map<string, seq<Entry>>, recorded: map<string, seq<Action>>,
                                           roomId: string, clock: nat, a: Action)
    requires LogsWellFormed(logs, recorded)
    ensures var log := if roomId in logs then logs[roomId] else [];
            var acts := if roomId in recorded then recorded[roomId] else [];
            var e := Entry(NextId(log, clock), ToString(a));
            LogsWellFormed(logs[roomId := log + [e]], recorded[roomId := acts + [a]])
  {
    var log := if roomId in logs then logs[roomId] else [];
    if roomId in logs {
      assert LogWellFormed(logs, recorded, roomId);
    }
    AppendFreshKeepsLogs(logs, recorded, roomId, Entry(NextId(log, clock), ToString(a)), a);
  }

  lemma {:induction false} AppendFreshKeepsLogs(logs: map<string, seq<Entry>>, recorded: map<string, seq<Action>>,
                                                roomId: string, e: Entry, a: Action)
    requires LogsWellFormed(logs, recorded)
    requires var log := if roomId in logs then logs[roomId] else [];
             (forall i :: 0 <= i < |log| ==> log[i].id < e.id) && e.payload == ToString(a)
    ensures var log := if roomId in logs then logs[roomId] else [];
            var acts := if roomId in recorded then recorded[roomId] else [];
            LogsWellFormed(logs[roomId := log + [e]], recorded[roomId := acts + [a]])
  {
    var log := if roomId in logs then logs[roomId] else [];
    var acts := if roomId in recorded then recorded[roomId] else [];
    if roomId in logs {
      assert LogWellFormed(logs, recorded, roomId);
    }
    var logs', recorded' := logs[roomId := log + [e]], recorded[roomId := acts + [a]];
    assert Encodes(log + [e], acts + [a]) by {
      forall i | 0 <= i < |log| + 1
        ensures EncodesAt(log + [e], acts + [a], i)
      {
        if i < |log| {
          assert EncodesAt(log, acts, i);
        }
      }
    }
    assert Increasing(log + [e]);
    forall r | r in logs'
      ensures LogWellFormed(logs', recorded', r)
    {
      if r != roomId {
        assert LogWellFormed(logs, recorded, r);
      }
    }
  }

  /** Counting one more action keeps every counter in step with its log. */
  lemma {:induction false} AppendKeepsCounts(logs: map<string, seq<Entry>>, actionCounts: map<string, int>,
                                             roomId: string, e: Entry)
    requires CountsMatch(logs, actionCounts)
    ensures var log := if roomId in logs then logs[roomId] else [];
            var count := (if roomId in actionCounts then actionCounts[roomId] else 0) + 1;
            count == |log| % SNAPSHOT_THRESHOLD + 1
            && (count == SNAPSHOT_THRESHOLD <==> (|log| + 1) % SNAPSHOT_THRESHOLD == 0)
            && CountsMatch(logs[roomId := log + [e]],
                           actionCounts[roomId := if count >= SNAPSHOT_THRESHOLD then 0 else count])
  {
    var log := if roomId in logs then logs[roomId] else [];
    if roomId in logs {
      assert CountMatches(logs, actionCounts, roomId);
    }
    var logs' := logs[roomId := log + [e]];
    var count := (if roomId in actionCounts then actionCounts[roomId] else 0) + 1;
    var counts' := actionCounts[roomId := if count >= SNAPSHOT_THRESHOLD then 0 else count];
    forall r | r in logs'
      ensures CountMatches(logs', counts', r)
    {
      if r != roomId {
        assert CountMatches(logs, actionCounts, r);
      }
    }
  }

  /** Appending to a log leaves the snapshots stored for it sound. */
  lemma {:induction false} AppendKeepsSnapshots(logs: map<string, seq<Entry>>, recorded: map<string, seq<Action>>,
                                                snapshots: map<string, StoredSnapshot>, snapPoints: map<string, nat>,
                                                roomId: string, e: Entry, a: Action)
    requires SnapshotsSound(logs, recorded, snapshots, snapPoints)
    ensures var log := if roomId in logs then logs[roomId] else [];
            var acts := if roomId in recorded then recorded[roomId] else [];
            SnapshotsSound(logs[roomId := log + [e]], recorded[roomId := acts + [a]], snapshots, snapPoints)
            && (roomId in snapshots ==> roomId in snapPoints && snapPoints[roomId] < |log| + 1)
  {
    var log := if roomId in logs then logs[roomId] else [];
    var acts := if roomId in recorded then recorded[roomId] else [];
    var logs', recorded' := logs[roomId := log + [e]], recorded[roomId := acts + [a]];
    forall r | r in snapshots
      ensures SnapshotSound(logs', recorded', snapshots, snapPoints, r)
    {
      assert SnapshotSound(logs, recorded, snapshots, snapPoints, r);
      if r == roomId {
        var k := snapPoints[r];
        assert (acts + [a])[..k] == acts[..k];
        if k >= 1 {
          assert (log + [e])[k - 1] == log[k - 1];
        }
      }
    }
    if roomId in snapshots {
      assert SnapshotSound(logs, recorded, snapshots, snapPoints, roomId);
    }
  }

  /** Storing the fold of a room's whole log, marked with its last entry, keeps the snapshots sound. */
  lemma {:induction false} SnapshotKeepsSound(logs: map<string, seq<Entry>>, recorded: map<string, seq<Action>>,
                                              snapshots: map<string, StoredSnapshot>, snapPoints: map<string, nat>,
                                              roomId: string, st: StoredSnapshot)
    requires SnapshotsSound(logs, recorded, snapshots, snapPoints)
    requires roomId in logs && roomId in recorded && |logs[roomId]| >= SNAPSHOT_THRESHOLD
    requires |recorded[roomId]| == |logs[roomId]|
    requires Fold(Empty, recorded[roomId]) == Some(st.snapshotData)
    requires st.lastMessageId == Some(logs[roomId][|logs[roomId]| - 1].id)
    ensures SnapshotsSound(logs, recorded, snapshots[roomId := st], snapPoints[roomId := |logs[roomId]|])
  {
    var snapshots', snapPoints' := snapshots[roomId := st], snapPoints[roomId := |logs[roomId]|];
    forall r | r in snapshots'
      ensures SnapshotSound(logs, recorded, snapshots', snapPoints', r)
    {
      if r == roomId {
        assert recorded[roomId][..|logs[roomId]|] == recorded[roomId];
      } else {
        assert SnapshotSound(logs, recorded, snapshots, snapPoints, r);
      }
    }
  }

  /**
   * At the threshold, with entries appended since the last snapshot,
   * `getLatestState` yields the fold of every recorded action, and storing
   * it keeps the snapshots sound.
   */
  lemma {:induction false} ThresholdConverges(logs: map<string, seq<Entry>>, recorded: map<string, seq<Action>>,
                                              snapshots: map<string, StoredSnapshot>, snapPoints: map<string, nat>,
                                              roomId: string)
    requires LogsWellFormed(logs, recorded) && SnapshotsSound(logs, recorded, snapshots, snapPoints)
    requires roomId in logs && |logs[roomId]| >= SNAPSHOT_THRESHOLD
    requires roomId in snapshots ==> roomId in snapPoints && snapPoints[roomId] < |logs[roomId]|
    ensures var stored := if roomId in snapshots then Some(snapshots[roomId]) else None;
            LatestState(logs[roomId], stored) == Converged(logs[roomId], recorded[roomId])
    ensures var log := logs[roomId];
            Fold(Empty, recorded[roomId]).Some? ==>
              SnapshotsSound(logs, recorded,
                snapshots[roomId := StoredSnapshot(Some(log[|log| - 1].id), Fold(Empty, recorded[roomId]).value)],
                snapPoints[roomId := |log|])
  {
    var log := logs[roomId];
    assert LogWellFormed(logs, recorded, roomId);
    if roomId in snapshots {
      assert SnapshotSound(logs, recorded, snapshots, snapPoints, roomId);
      LatestStateConverges(log, recorded[roomId], Some(snapshots[roomId]), snapPoints[roomId]);
    } else {
      LatestStateConverges(log, recorded[roomId], None, 0);
    }
    if Fold(Empty, recorded[roomId]).Some? {
      SnapshotKeepsSound(logs, recorded, snapshots, snapPoints, roomId,
                         StoredSnapshot(Some(log[|log| - 1].id), Fold(Empty, recorded[roomId]).value));
    }
  }

  class SnapshotStore {
    /** `puzzle:<room>:actions`, by room. */
    var logs: map<string, seq<Entry>>
    /** `puzzle:<room>:actionCount`, by room. */
    var actionCounts: map<string, int>
    /** `puzzle:<room>:snapshot`, by room. */
    var snapshots: map<string, StoredSnapshot>
    /** `puzzle:<room>:connectionsMade`, by room. */
    var connectionsMade: map<string, int>
    /** The actions whose encodings each room's log holds. */
    ghost var recorded: map<string, seq<Action>>
    /** For each stored snapshot, how many log entries it covers. */
    ghost var snapPoints: map<string, nat>

    function Log(roomId: string): seq<Entry>
      reads this
    {
      if roomId in logs then logs[roomId] else []
    }

    ghost function Recorded(roomId: string): seq<Action>
      reads this
    {
      if roomId in recorded then recorded[roomId] else []
    }

    function Stored(roomId: string): Option<StoredSnapshot>
      reads this
    {
      if roomId in snapshots then Some(snapshots[roomId]) else None
    }

    /**
     * Ids increase and every payload encodes a recorded action; the counter
     * is the number of entries modulo the threshold; a stored snapshot is
     * sound and exists only once the threshold was reached.
     */
    ghost predicate Valid()
      reads this
    {
      ValidRooms(logs, recorded, actionCounts, snapshots, snapPoints)
    }

    constructor()
      ensures Valid()
      ensures logs == map[] && actionCounts == map[] && snapshots == map[] && connectionsMade == map[]
    {
      logs := map[];
      actionCounts := map[];
      snapshots := map[];
      connectionsMade := map[];
      recorded := map[];
      snapPoints := map[];
    }

    /** The `incr_or_reset` Lua function: increment, and store 0 once the threshold is reached. */
    method IncrOrReset(roomId: string, threshold: int) returns (actionCount: int)
      modifies this
      ensures actionCount == (if roomId in old(actionCounts) then old(actionCounts)[roomId] else 0) + 1
      ensures actionCounts == old(actionCounts)[roomId := if actionCount >= threshold then 0 else actionCount]
      ensures logs == old(logs) && snapshots == old(snapshots) && connectionsMade == old(connectionsMade)
      ensures recorded == old(recorded) && snapPoints == old(snapPoints)
    {
      actionCount := (if roomId in actionCounts then actionCounts[roomId] else 0) + 1;
      actionCounts := actionCounts[roomId := actionCount];
      if actionCount >= threshold {
        actionCounts := actionCounts[roomId := 0];
      }
    }

    /** `streamAllActions`: the payload of every entry, in log order. */
    method StreamAllActions(roomId: string) returns (actions: seq<string>)
      ensures |actions| == |Log(roomId)|
      ensures forall i :: 0 <= i < |actions| ==> actions[i] == Log(roomId)[i].payload
    {
      var messages := Log(roomId);
      var len := |messages|;
      var buffer := new string[len];
      for i := 0 to len
        invariant forall j :: 0 <= j < i ==> buffer[j] == messages[j].payload
      {
        buffer[i] := messages[i].payload;
      }
      actions := buffer[..];
    }

    /**
     * `getLatestState`: a fresh `Snapshot` built from the stored data, the
     * entries from the stored `lastMessageId` applied to it one by one.
     */
    method GetLatestState(roomId: string) returns (r: Latest)
      ensures r == LatestState(Log(roomId), Stored(roomId))
    {
      var stored := Stored(roomId);
      var log := Log(roomId);
      var messages :=
        if stored.Some? && stored.value.lastMessageId.Some?
        then RangeFrom(log, stored.value.lastMessageId.value) else log;
      if |messages| == 0 && stored.None? {
        return NoState;
      }
      var derived := new Snapshot(if stored.Some? then Some(stored.value.snapshotData) else None);
      if |messages| == 1 {
        return Derived(derived.Stringify(), derived.lastMessageId);
      }
      var ok := ApplyMessages(derived, messages);
      if !ok || |messages| == 0 {
        return Crashed;
      }
      derived.SetLastMessageId(messages[|messages| - 1].id);
      return Derived(derived.Stringify(), derived.lastMessageId);
    }

    /**
     * `createSnapshot`: store the latest state and its `lastMessageId`.
     * Where `getLatestState` gives `null` or throws, the source throws and
     * nothing is stored; `ok` is then false.
     */
    method CreateSnapshot(roomId: string) returns (ok: bool)
      modifies this
      ensures var latest := LatestState(old(Log(roomId)), old(Stored(roomId)));
              ok == latest.Derived?
              && snapshots == (if ok then old(snapshots)[roomId := StoredSnapshot(latest.lastMessageId, latest.state)]
                               else old(snapshots))
      ensures logs == old(logs) && actionCounts == old(actionCounts) && connectionsMade == old(connectionsMade)
      ensures recorded == old(recorded)
      ensures snapPoints == if ok then old(snapPoints)[roomId := |old(Log(roomId))|] else old(snapPoints)
    {
      var latest := GetLatestState(roomId);
      if !latest.Derived? {
        return false;
      }
      snapshots := snapshots[roomId := StoredSnapshot(latest.lastMessageId, latest.state)];
      snapPoints := snapPoints[roomId := |Log(roomId)|];
      return true;
    }

    /**
     * `recordAction`: append the encoded action to the room's stream, count
     * it, and create a snapshot when the count reaches the threshold. The
     * result is the new entry's id, or the error the snapshot raised. The
     * snapshot stored is the fold of every action recorded for the room,
     * marked with the new entry's id.
     */
    method RecordAction(roomId: string, action: Action, clock: nat) returns (r: Result<nat, string>)
      requires Valid()
      modifies this
      ensures Valid()
      ensures logs == old(logs)[roomId := old(Log(roomId)) + [Entry(NextId(old(Log(roomId)), clock), ToString(action))]]
      ensures recorded == old(recorded)[roomId := old(Recorded(roomId)) + [action]]
      ensures r.Success? ==> r.value == NextId(old(Log(roomId)), clock)
      ensures snapshots - {roomId} == old(snapshots) - {roomId} && connectionsMade == old(connectionsMade)
      ensures |Log(roomId)| % SNAPSHOT_THRESHOLD != 0 ==> r.Success? && snapshots == old(snapshots)
      ensures |Log(roomId)| % SNAPSHOT_THRESHOLD == 0 ==>
                (r.Success? <==> Fold(Empty, Recorded(roomId)).Some?)
                && Stored(roomId) == (if r.Success?
                                      then Some(StoredSnapshot(Some(r.value), Fold(Empty, Recorded(roomId)).value))
                                      else old(Stored(roomId)))
    {
      AppendKeepsLogs(logs, recorded, roomId, clock, action);
      AppendKeepsCounts(logs, actionCounts, roomId, Entry(NextId(Log(roomId), clock), ToString(action)));
      AppendKeepsSnapshots(logs, recorded, snapshots, snapPoints, roomId,
                           Entry(NextId(Log(roomId), clock), ToString(action)), action);
      var messageId := XAdd(roomId, action, clock);
      var actionCount := IncrOrReset(roomId, SNAPSHOT_THRESHOLD);
      if actionCount == SNAPSHOT_THRESHOLD {
        var ok := SnapshotAtThreshold(roomId);
        if !ok {
          return Failure("TypeError");
        }
      }
      return Success(messageId);
    }

    /**
     * The `createSnapshot` call `recordAction` makes when the counter reaches
     * the threshold: it stores the fold of every recorded action, marked
     * with the newest entry, or fails where that fold fails.
     */
    method SnapshotAtThreshold(roomId: string) returns (ok: bool)
      requires Valid() && roomId in logs && |Log(roomId)| >= SNAPSHOT_THRESHOLD
      requires roomId in snapshots ==> roomId in snapPoints && snapPoints[roomId] < |Log(roomId)|
      modifies this
      ensures Valid()
      ensures ok <==> Fold(Empty, Recorded(roomId)).Some?
      ensures snapshots == if ok then old(snapshots)[roomId := StoredSnapshot(Some(old(Log(roomId))[|old(Log(roomId))| - 1].id),
                                                                              Fold(Empty, Recorded(roomId)).value)]
                           else old(snapshots)
      ensures logs == old(logs) && recorded == old(recorded)
      ensures actionCounts == old(actionCounts) && connectionsMade == old(connectionsMade)
    {
      ghost var log := logs[roomId];
      ghost var folded := Fold(Empty, recorded[roomId]);
      assert LogsWellFormed(logs, recorded);
      ThresholdConverges(logs, recorded, snapshots, snapPoints, roomId);
      assert LatestState(log, Stored(roomId)) == Converged(log, recorded[roomId]);
      ok := CreateSnapshot(roomId);
      assert ok <==> folded.Some?;
    }

    /**
     * `xadd(key, '*', 'a', action.toString())`: append the encoded action
     * under an id above every id in the stream.
     */
    method XAdd(roomId: string, action: Action, clock: nat) returns (id: nat)
      modifies this
      ensures id == NextId(old(Log(roomId)), clock)
      ensures logs == old(logs)[roomId := old(Log(roomId)) + [Entry(id, ToString(action))]]
      ensures recorded == old(recorded)[roomId := old(Recorded(roomId)) + [action]]
      ensures actionCounts == old(actionCounts) && snapshots == old(snapshots)
      ensures connectionsMade == old(connectionsMade) && snapPoints == old(snapPoints)
    {
      id := NextId(Log(roomId), clock);
      logs := logs[roomId := Log(roomId) + [Entry(id, ToString(action))]];
      recorded := recorded[roomId := Recorded(roomId) + [action]];
    }

    /** `incrementConnectionsMade`: `incrby` on the room's counter. */
    method IncrementConnectionsMade(roomId: string, count: int) returns (total: int)
      modifies this
      ensures total == (if roomId in old(connectionsMade) then old(connectionsMade)[roomId] else 0) + count
      ensures connectionsMade == old(connectionsMade)[roomId := total]
      ensures logs == old(logs) && actionCounts == old(actionCounts) && snapshots == old(snapshots)
      ensures recorded == old(recorded) && snapPoints == old(snapPoints)
    {
      total := (if roomId in connectionsMade then connectionsMade[roomId] else 0) + count;
      connectionsMade := connectionsMade[roomId := total];
    }

    /**
     * `getConnectionsMade`: the stored counter read back as text through
     * `parseInt(count, 10) || 0`, so a missing counter reads as 0.
     */
    method GetConnectionsMade(roomId: string) returns (count: int)
      ensures count == if roomId in connectionsMade then connectionsMade[roomId] else 0
    {
      var text: Option<string> := if roomId in connectionsMade then Some(IntToString(connectionsMade[roomId])) else None;
      var parsed := if text.Some? then ParseInt(text.value) else None;
      if text.Some? {
        ParseIntOfIntToString(connectionsMade[roomId]);
      }
      count := if parsed.Some? && parsed.value != 0 then parsed.value else 0;
    }
  }

  /**
   * The loop of `getLatestState`: decode each message and apply it to
   * `derived`. `ok` is false where the source throws.
   */
  method ApplyMessages(derived: Snapshot, messages: seq<Entry>) returns (ok: bool)
    modifies derived
    ensures ok <==> Replay(old(derived.Stringify()), messages).Some?
    ensures ok ==> Some(derived.Stringify()) == Replay(old(derived.Stringify()), messages)
    ensures derived.lastMessageId == old(derived.lastMessageId)
  {
    ghost var base := derived.Stringify();
    ghost var ds := Decode(messages);
    var i := 0;
    while i < |messages|
      invariant 0 <= i <= |messages|
      invariant Run(base, ds[..i]) == Some(derived.Stringify())
      invariant derived.lastMessageId == old(derived.lastMessageId)
    {
      var action := FromString(messages[i].payload);
      DecodeAt(messages, i);
      assert ds[..i + 1] == ds[..i] + [action];
      RunSnoc(base, ds[..i], action);
      if action.None? {
        RunStops(base, ds, i + 1);
        return false;
      }
      var applied := derived.Apply(action.value);
      if !applied {
        RunStops(base, ds, i + 1);
        return false;
      }
      i := i + 1;
    }
    assert ds[..i] == ds;
    return true;
  }
}
