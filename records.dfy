/** The records the store keeps: weight-log entries and the device-info object, how they are
    written as JSON and read back, and the transforms the store applies to the list of entries. */
module Records {
  import opened Outcomes
  import opened Filters
  import opened Json

  /** The two lifecycle states a caller can give a weight log. */
  datatype SyncStatus = Pending | Synced

  function StatusTag(s: SyncStatus): string
  {
    match s
    case Pending => "pending"
    case Synced => "synced"
  }

  const PENDING: JsValue := Str(StatusTag(Pending))
  const SYNCED: JsValue := Str(StatusTag(Synced))

  /** A weight measurement as a caller hands it to the store (the `WeightLog` interface).
      The timestamp is its only identifier. */
  datatype WeightLog = WeightLog(userId: string, weight: int, notes: string, timestamp: string, syncStatus: SyncStatus)

  /** A weight log as it is read back from storage: nothing checks the types of its properties,
      and any of them may be missing. */
  datatype LogEntry = LogEntry(userId: JsValue, weight: JsValue, notes: JsValue, timestamp: JsValue, syncStatus: JsValue)

  /** `{ ...log, syncStatus: "pending" }`: the entry `saveWeightLog` appends. */
  function AsPending(log: WeightLog): (e: LogEntry)
    ensures e.syncStatus == PENDING && e.timestamp == Str(log.timestamp)
    ensures e.userId == Str(log.userId) && e.weight == Num(log.weight) && e.notes == Str(log.notes)
  {
    LogEntry(Str(log.userId), Num(log.weight), Str(log.notes), Str(log.timestamp), PENDING)
  }

  // ---------------------------------------------------------------- objects and lookup

  /** Property lookup on a parsed object: `undefined` when the key is absent, and the last
      occurrence when it is repeated, as `JSON.parse` keeps it. */
  function Lookup(ms: seq<Member>, key: string): (r: JsValue)
    ensures r.Undefined? || (key, r) in ms
  {
    if ms == [] then Undefined
    else if ms[|ms| - 1].0 == key then ms[|ms| - 1].1
    else Lookup(ms[..|ms| - 1], key)
  }

  predicate DistinctKeys(ms: seq<Member>)
  {
    forall i, j :: 0 <= i < j < |ms| ==> ms[i].0 != ms[j].0
  }

  lemma {:induction false} LookupAbsent(ms: seq<Member>, key: string)
    requires forall i :: 0 <= i < |ms| ==> ms[i].0 != key
    ensures Lookup(ms, key) == Undefined
  {
    if ms != [] {
      LookupAbsent(ms[..|ms| - 1], key);
    }
  }

  /** Leaving out undefined properties, as `JSON.stringify` does, does not change what a lookup
      finds when every key occurs once. */
  lemma {:induction false} LookupIgnoresUndefined(ms: seq<Member>, key: string)
    requires DistinctKeys(ms)
    ensures Lookup(Filter(IsDefined, ms), key) == Lookup(ms, key)
  {
    if ms != [] {
      var init, last := ms[..|ms| - 1], ms[|ms| - 1];
      assert ms == init + [last];
      FilterConcat(IsDefined, init, [last]);
      var kept := Filter(IsDefined, init);
      assert Filter(IsDefined, [last]) == if IsDefined(last) then [last] else [];
      LookupIgnoresUndefined(init, key);
      hide Filter;
      if IsDefined(last) {
        assert Filter(IsDefined, ms) == kept + [last];
        assert (kept + [last])[..|kept|] == kept;
      } else {
        assert Filter(IsDefined, ms) == kept;
        if last.0 == key {
          LookupAbsent(init, key);
        }
      }
    }
  }

  /** With distinct keys, looking up a member's key finds that member's value. */
  lemma {:induction false} LookupFinds(ms: seq<Member>, i: nat)
    requires DistinctKeys(ms) && i < |ms|
    ensures Lookup(ms, ms[i].0) == ms[i].1
  {
    if i < |ms| - 1 {
      assert ms[..|ms| - 1][i] == ms[i];
      LookupFinds(ms[..|ms| - 1], i);
    }
  }

  /** Of repeated keys the last one is read: a member that no later member shares its key with
      gives the value of its key, as `JSON.parse` keeps the last occurrence. */
  lemma {:induction false} LookupLast(ms: seq<Member>, i: nat)
    requires i < |ms|
    requires forall j :: i < j < |ms| ==> ms[j].0 != ms[i].0
    ensures Lookup(ms, ms[i].0) == ms[i].1
  {
    if i < |ms| - 1 {
      assert ms[..|ms| - 1][i] == ms[i];
      LookupLast(ms[..|ms| - 1], i);
    }
  }

  /** The properties of an entry, in the order the `WeightLog` interface declares them. */
  function ToMembers(e: LogEntry): seq<Member>
  {
    [("userId", e.userId), ("weight", e.weight), ("notes", e.notes),
     ("timestamp", e.timestamp), ("syncStatus", e.syncStatus)]
  }

  function FromMembers(ms: seq<Member>): LogEntry
  {
    LogEntry(Lookup(ms, "userId"), Lookup(ms, "weight"), Lookup(ms, "notes"),
             Lookup(ms, "timestamp"), Lookup(ms, "syncStatus"))
  }

  /** The object `JSON.stringify` writes for an entry. */
  function EntryObject(e: LogEntry): (ms: seq<Member>)
    ensures AllDefined(ms)
  {
    Filter(IsDefined, ToMembers(e))
  }

  lemma EntryRoundTrip(e: LogEntry)
    ensures FromMembers(EntryObject(e)) == e
  {
    var ms := ToMembers(e);
    assert DistinctKeys(ms);
    LookupFinds(ms, 0);
    LookupFinds(ms, 1);
    LookupFinds(ms, 2);
    LookupFinds(ms, 3);
    LookupFinds(ms, 4);
    LookupIgnoresUndefined(ms, "userId");
    LookupIgnoresUndefined(ms, "weight");
    LookupIgnoresUndefined(ms, "notes");
    LookupIgnoresUndefined(ms, "timestamp");
    LookupIgnoresUndefined(ms, "syncStatus");
  }

  // ---------------------------------------------------------------- the stored array

  /** The objects `JSON.stringify` writes for a list of entries, in order. */
  function EntryObjects(logs: seq<LogEntry>): (os: seq<seq<Member>>)
    ensures AllObjectsDefined(os)
  {
    if logs == [] then []
    else
      var rest := EntryObjects(logs[1..]);
      assert forall i :: 1 <= i < 1 + |rest| ==> ([EntryObject(logs[0])] + rest)[i] == rest[i - 1];
      [EntryObject(logs[0])] + rest
  }

  /** The entries read back from parsed objects, in order. */
  function EntriesOf(os: seq<seq<Member>>): seq<LogEntry>
  {
    if os == [] then [] else [FromMembers(os[0])] + EntriesOf(os[1..])
  }

  /** Reading back the objects written for a list of entries gives the entries. */
  lemma {:induction false} EntriesOfObjects(logs: seq<LogEntry>)
    ensures EntriesOf(EntryObjects(logs)) == logs
  {
    hide EntryObject, FromMembers;
    if logs != [] {
      var os := EntryObjects(logs);
      assert os[0] == EntryObject(logs[0]) && os[1..] == EntryObjects(logs[1..]);
      EntryRoundTrip(logs[0]);
      EntriesOfObjects(logs[1..]);
      assert [logs[0]] + logs[1..] == logs;
    }
  }

  /** `JSON.stringify` of a list of entries. */
  function EncodeLogs(logs: seq<LogEntry>): string
  {
    ArrayText(EntryObjects(logs))
  }

  /** `JSON.parse` of the stored text; `None` where it would throw. */
  function DecodeLogs(text: string): Option<seq<LogEntry>>
  {
    match ParseArrayText(text)
    case Some(os) => Some(EntriesOf(os))
    case None => None
  }

  /** Reading back a written list of entries gives the same entries, in the same order; and the
      written text is never empty, so it is never mistaken for a missing value. */
  lemma LogsRoundTrip(logs: seq<LogEntry>)
    ensures EncodeLogs(logs) != []
    ensures DecodeLogs(EncodeLogs(logs)) == Some(logs)
  {
    ArrayTextRoundTrip(EntryObjects(logs));
    EntriesOfObjects(logs);
  }

  // ---------------------------------------------------------------- marking entries synced

  /** `log.timestamp === timestamp ? { ...log, syncStatus: "synced" } : log` */
  function MarkOne(e: LogEntry, timestamp: string): (r: LogEntry)
    ensures r.(syncStatus := e.syncStatus) == e
    ensures r != e ==> e.timestamp == Str(timestamp) && r.syncStatus == SYNCED
  {
    if e.timestamp == Str(timestamp) then e.(syncStatus := SYNCED) else e
  }

  /** `logs.map(...)` with `MarkOne`. */
  function MarkSynced(logs: seq<LogEntry>, timestamp: string): (r: seq<LogEntry>)
    ensures |r| == |logs|
  {
    if logs == [] then [] else [MarkOne(logs[0], timestamp)] + MarkSynced(logs[1..], timestamp)
  }

  /** Marking keeps the length and the order; each entry whose timestamp equals the argument
      becomes synced with its other properties unchanged, and every other entry is untouched. */
  lemma {:induction false} MarkSyncedPointwise(logs: seq<LogEntry>, timestamp: string)
    ensures |MarkSynced(logs, timestamp)| == |logs|
    ensures forall i :: 0 <= i < |logs| && logs[i].timestamp == Str(timestamp) ==>
      MarkSynced(logs, timestamp)[i] == logs[i].(syncStatus := SYNCED)
    ensures forall i :: 0 <= i < |logs| && logs[i].timestamp != Str(timestamp) ==>
      MarkSynced(logs, timestamp)[i] == logs[i]
  {
    if logs != [] {
      MarkSyncedPointwise(logs[1..], timestamp);
      var r := MarkSynced(logs, timestamp);
      assert forall i :: 1 <= i < |logs| ==> r[i] == MarkSynced(logs[1..], timestamp)[i - 1] && logs[i] == logs[1..][i - 1];
    }
  }

  /** Marking the same timestamp a second time changes nothing. */
  lemma {:induction false} MarkSyncedIdempotent(logs: seq<LogEntry>, timestamp: string)
    ensures MarkSynced(MarkSynced(logs, timestamp), timestamp) == MarkSynced(logs, timestamp)
  {
    if logs != [] {
      var m := MarkSynced(logs, timestamp);
      assert m[0] == MarkOne(logs[0], timestamp) && m[1..] == MarkSynced(logs[1..], timestamp);
      MarkSyncedIdempotent(logs[1..], timestamp);
    }
  }

  // ---------------------------------------------------------------- pending entries

  /** `log.syncStatus === "pending"` */
  predicate IsPending(e: LogEntry) { e.syncStatus == PENDING }

  /** The entries still waiting to be synced, in stored order. */
  function PendingItems(logs: seq<LogEntry>): (r: seq<LogEntry>)
    ensures forall e :: e in r <==> e in logs && IsPending(e)
  {
    Filter(IsPending, logs)
  }

  /** The entries whose timestamp differs from `timestamp`, in order. */
  function WithoutTimestamp(logs: seq<LogEntry>, timestamp: string): seq<LogEntry>
  {
    Filter((e: LogEntry) => e.timestamp != Str(timestamp), logs)
  }

  /** After marking a timestamp synced, the pending entries are the ones before, less those with
      that timestamp, still in stored order. */
  lemma {:induction false} PendingAfterMark(logs: seq<LogEntry>, timestamp: string)
    ensures PendingItems(MarkSynced(logs, timestamp)) == WithoutTimestamp(PendingItems(logs), timestamp)
  {
    if logs != [] {
      var m := MarkSynced(logs, timestamp);
      assert m[0] == MarkOne(logs[0], timestamp) && m[1..] == MarkSynced(logs[1..], timestamp);
      PendingAfterMark(logs[1..], timestamp);
      var head := if IsPending(logs[0]) then [logs[0]] else [];
      FilterConcat((e: LogEntry) => e.timestamp != Str(timestamp), head, PendingItems(logs[1..]));
    }
  }

  /** Appending an entry appends it to the pending entries exactly when it is pending. */
  lemma PendingAfterAppend(logs: seq<LogEntry>, e: LogEntry)
    ensures PendingItems(logs + [e]) == PendingItems(logs) + (if IsPending(e) then [e] else [])
  {
    FilterConcat(IsPending, logs, [e]);
  }

  // ---------------------------------------------------------------- validation

  /** JavaScript truthiness of a primitive. */
  predicate Truthy(v: JsValue)
  {
    match v
    case Undefined => false
    case Null => false
    case Bool(b) => b
    case Num(n) => n != 0
    case Str(s) => s != ""
  }

  /** The check `validateAndCleanupData` applies: a truthy user id, a weight of type number (of
      any value), a truthy timestamp and one of the two status strings. */
  predicate IsValid(e: LogEntry)
  {
    && Truthy(e.userId)
    && e.weight.Num?
    && Truthy(e.timestamp)
    && (e.syncStatus == PENDING || e.syncStatus == SYNCED)
  }

  /** The entries `validateAndCleanupData` keeps, in stored order. */
  function ValidLogs(logs: seq<LogEntry>): (r: seq<LogEntry>)
    ensures forall e :: e in r <==> e in logs && IsValid(e)
  {
    Filter(IsValid, logs)
  }

  /** Cleanup keeps exactly the valid entries: none valid is lost, none invalid survives. */
  lemma ValidLogsExactly(logs: seq<LogEntry>)
    ensures forall i :: 0 <= i < |logs| && IsValid(logs[i]) ==> logs[i] in ValidLogs(logs)
    ensures forall e :: e in ValidLogs(logs) ==> e in logs && IsValid(e)
  {
    var r := ValidLogs(logs);
    forall e | e in r
      ensures e in logs && IsValid(e)
    {
      var i :| 0 <= i < |r| && r[i] == e;
    }
  }

  /** Cleaning a cleaned list drops nothing: a second run of the cleanup writes nothing. */
  lemma CleanupIdempotent(logs: seq<LogEntry>)
    ensures ValidLogs(ValidLogs(logs)) == ValidLogs(logs)
    ensures |ValidLogs(ValidLogs(logs))| == |ValidLogs(logs)|
  {
    FilterIdempotent(IsValid, logs);
  }

  /** The cleanup writes exactly when it changes the list. */
  lemma CleanupWritesOnlyOnChange(logs: seq<LogEntry>)
    ensures |ValidLogs(logs)| == |logs| <==> ValidLogs(logs) == logs
    ensures |ValidLogs(logs)| == |logs| <==> forall i :: 0 <= i < |logs| ==> IsValid(logs[i])
  {
    FilterDropsNothing(IsValid, logs);
  }

  /** A saved log survives cleanup exactly when its user id and timestamp are non-empty; its
      weight is not checked beyond being a number, so a zero or negative weight is kept. */
  lemma SavedLogValidity(log: WeightLog)
    ensures IsValid(AsPending(log)) <==> log.userId != "" && log.timestamp != ""
  {
  }

  // ---------------------------------------------------------------- device info

  /** The last connected device, when it connected, and its battery level, as read back. */
  datatype DeviceInfo = DeviceInfo(lastConnectedDevice: JsValue, lastConnectionTime: JsValue, batteryLevel: JsValue)

  function DeviceMembers(info: DeviceInfo): seq<Member>
  {
    [("lastConnectedDevice", info.lastConnectedDevice), ("lastConnectionTime", info.lastConnectionTime),
     ("batteryLevel", info.batteryLevel)]
  }

  function EncodeDeviceInfo(info: DeviceInfo): string
  {
    Stringify(DeviceMembers(info))
  }

  function DecodeDeviceInfo(text: string): Option<DeviceInfo>
  {
    match ParseObjectText(text)
    case Some(ms) => Some(DeviceInfo(Lookup(ms, "lastConnectedDevice"), Lookup(ms, "lastConnectionTime"), Lookup(ms, "batteryLevel")))
    case None => None
  }

  /** Reading back written device info gives the same info, and the text is never empty. */
  lemma DeviceInfoRoundTrip(info: DeviceInfo)
    ensures EncodeDeviceInfo(info) != []
    ensures DecodeDeviceInfo(EncodeDeviceInfo(info)) == Some(info)
  {
    var ms := DeviceMembers(info);
    assert DistinctKeys(ms);
    LookupFinds(ms, 0);
    LookupFinds(ms, 1);
    LookupFinds(ms, 2);
    StringifyRoundTrip(ms);
    LookupIgnoresUndefined(ms, "lastConnectedDevice");
    LookupIgnoresUndefined(ms, "lastConnectionTime");
    LookupIgnoresUndefined(ms, "batteryLevel");
  }
}
