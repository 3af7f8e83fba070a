/** The offline store for weight logs (`OfflineStorage`). Every weight-log operation reads the whole
    list stored under `weight_logs`, changes it and writes the whole list back; the three
    weight-log operations go through `retryOperation`. The store's state is the `AsyncStorage`
    handle each method is given. */
module OfflineStorage {
  import opened Outcomes
  import opened Filters
  import opened Json
  import opened Records
  import opened KeyValue
  import Retry

  const WEIGHT_LOGS: string := "weight_logs"
  const LAST_SYNC: string := "last_sync"
  const PENDING_SYNC: string := "pending_sync"
  const USER_DATA: string := "user_data"
  const DEVICE_INFO: string := "device_info"

  /** The keys this store owns, which `clearAllData` removes. */
  const STORAGE_KEYS: seq<string> := [WEIGHT_LOGS, LAST_SYNC, PENDING_SYNC, USER_DATA, DEVICE_INFO]

  // ---------------------------------------------------------------- reading the stored list

  /** The list of entries the store holds: the empty list when the key is absent or holds the
      empty string, or when its text does not parse. */
  function StoredLogs(items: map<string, string>): seq<LogEntry>
  {
    match Get(items, WEIGHT_LOGS)
    case None => []
    case Some(text) =>
      if text == "" then []
      else
        match DecodeLogs(text)
        case Some(logs) => logs
        case None => []
  }

  /** What a read of the list gives when the stored list is `stored`: the empty list when the read
      threw, as `getWeightLogs` swallows the error. */
  function ReadOrEmpty(stored: seq<LogEntry>, readFailed: bool): seq<LogEntry>
  {
    if readFailed then [] else stored
  }

  function WriteLogs(items: map<string, string>, logs: seq<LogEntry>): map<string, string>
  {
    items[WEIGHT_LOGS := EncodeLogs(logs)]
  }

  /** Whatever list is written is the list read back, and no other key changes. */
  lemma StoredAfterWrite(items: map<string, string>, logs: seq<LogEntry>)
    ensures StoredLogs(WriteLogs(items, logs)) == logs
    ensures forall k :: k != WEIGHT_LOGS ==> Get(WriteLogs(items, logs), k) == Get(items, k)
  {
    LogsRoundTrip(logs);
  }

  // ---------------------------------------------------------------- the operations given to retryOperation

  /** The operations `OfflineStorage` passes to `retryOperation`, as data. */
  datatype Operation = GetLogs | SaveLog(log: WeightLog) | MarkLogSynced(timestamp: string)

  function Rank(op: Operation): nat
  {
    if op.GetLogs? then 0 else 1
  }

  /** Backend calls that `attempts` attempts of `op` make: one read each, and for the two
      writing operations one write each as well. */
  function CallsFor(op: Operation, attempts: nat): nat
  {
    if op.GetLogs? then attempts else 2 * attempts
  }

  /** The list a writing operation stores, given the list it read. */
  function Update(op: Operation, logs: seq<LogEntry>): seq<LogEntry>
    requires !op.GetLogs?
  {
    match op
    case SaveLog(log) => logs + [AsPending(log)]
    case MarkLogSynced(timestamp) => MarkSynced(logs, timestamp)
  }

  /** The outcome of one attempt of `op` whose first backend call is number `c`, on a store that
      holds `stored`. A writing attempt reads first (through `getWeightLogs`, which never throws)
      and fails only when its write throws. */
  function AttemptOutcome(op: Operation, stored: seq<LogEntry>, faulty: set<nat>, c: nat): Outcome<seq<LogEntry>>
  {
    if op.GetLogs? then Ok(ReadOrEmpty(stored, c in faulty))
    else if c + 1 in faulty then Fail(StorageFault(c + 1))
    else Ok(Update(op, ReadOrEmpty(stored, c in faulty)))
  }

  /** The k-th attempt of `op`. A failed attempt writes nothing, so every attempt finds the store
      as the first one did. */
  function Attempts(op: Operation, stored: seq<LogEntry>, faulty: set<nat>, c0: nat): nat -> Outcome<seq<LogEntry>>
  {
    (k: nat) => AttemptOutcome(op, stored, faulty, c0 + CallsFor(op, k))
  }

  /** `retryOperation(op, retries)` started at backend call `c0` on a store that holds `stored`:
      its outcome and the number of attempts. A failed attempt writes nothing, so every attempt
      finds the store as the first one did. */
  function RunWith(op: Operation, stored: seq<LogEntry>, faulty: set<nat>, c0: nat, retries: nat): (Outcome<seq<LogEntry>>, nat)
    decreases retries
  {
    var o := AttemptOutcome(op, stored, faulty, c0);
    if o.Ok? || retries == 0 then (o, 1)
    else
      var rest := RunWith(op, stored, faulty, c0 + CallsFor(op, 1), retries - 1);
      (rest.0, rest.1 + 1)
  }

  /** A run with the default budget of `Retry.MAX_RETRIES` retries. */
  function Run(op: Operation, stored: seq<LogEntry>, faulty: set<nat>, c0: nat): (Outcome<seq<LogEntry>>, nat)
  {
    RunWith(op, stored, faulty, c0, Retry.MAX_RETRIES)
  }

  /** The stored items once a run of `op` ended with `o`: a successful write replaces the list. */
  function ItemsAfter(op: Operation, items: map<string, string>, o: Outcome<seq<LogEntry>>): map<string, string>
  {
    if o.Ok? && !op.GetLogs? then WriteLogs(items, o.value) else items
  }

  // ---------------------------------------------------------------- facts about the runs

  /** A run whose first attempt succeeds, or that has no retries left, is that one attempt. */
  lemma RunStops(op: Operation, stored: seq<LogEntry>, faulty: set<nat>, c0: nat, retries: nat)
    requires AttemptOutcome(op, stored, faulty, c0).Ok? || retries == 0
    ensures RunWith(op, stored, faulty, c0, retries) == (AttemptOutcome(op, stored, faulty, c0), 1)
  {
  }

  /** After a failed first attempt, a run is the run with one retry fewer that starts where that
      attempt's backend calls end, plus that attempt. */
  lemma RunAfterFailure(op: Operation, stored: seq<LogEntry>, faulty: set<nat>, c0: nat, retries: nat)
    requires AttemptOutcome(op, stored, faulty, c0).Fail? && retries > 0
    ensures var rest := RunWith(op, stored, faulty, c0 + CallsFor(op, 1), retries - 1);
      RunWith(op, stored, faulty, c0, retries) == (rest.0, rest.1 + 1)
  {
  }

  /** A run of the store is the generic `retryOperation` applied to the store's attempts, the
      `from`-th attempt starting where the earlier ones' backend calls end. */
  lemma {:induction false} RunIsRetry(op: Operation, stored: seq<LogEntry>, faulty: set<nat>, c0: nat, retries: nat, from: nat)
    ensures RunWith(op, stored, faulty, c0 + CallsFor(op, from), retries)
         == Retry.RetryOperation(Attempts(op, stored, faulty, c0), retries, from)
    decreases retries
  {
    hide AttemptOutcome, RunWith, Retry.RetryOperation;
    var attempt := Attempts(op, stored, faulty, c0);
    var c := c0 + CallsFor(op, from);
    assert attempt(from) == AttemptOutcome(op, stored, faulty, c);
    if attempt(from).Ok? || retries == 0 {
      Retry.RetryStops(attempt, retries, from);
      RunStops(op, stored, faulty, c, retries);
    } else {
      Retry.RetryContinues(attempt, retries, from);
      RunAfterFailure(op, stored, faulty, c, retries);
      RunIsRetry(op, stored, faulty, c0, retries - 1, from + 1);
      assert c + CallsFor(op, 1) == c0 + CallsFor(op, from + 1);
    }
  }

  /** `getWeightLogs` makes one attempt and never throws. */
  lemma GetLogsNeverRetries(stored: seq<LogEntry>, faulty: set<nat>, c0: nat)
    ensures Run(GetLogs, stored, faulty, c0) == (Ok(ReadOrEmpty(stored, c0 in faulty)), 1)
  {
  }

  /** A writing operation makes at most four attempts, its writes being backend calls
      `c0 + 1`, `c0 + 3`, `c0 + 5` and `c0 + 7`; it is rejected, with the error of its fourth
      write, exactly when all four writes throw; otherwise it stores the update of the list its
      last attempt read. */
  lemma WriteRun(op: Operation, stored: seq<LogEntry>, faulty: set<nat>, c0: nat)
    requires !op.GetLogs?
    ensures var run := Run(op, stored, faulty, c0);
      && 1 <= run.1 <= Retry.MAX_RETRIES + 1
      && (run.0.Fail? <==> c0 + 1 in faulty && c0 + 3 in faulty && c0 + 5 in faulty && c0 + 7 in faulty)
      && (run.0.Fail? ==> run.1 == Retry.MAX_RETRIES + 1 && run.0.error == StorageFault(c0 + 7))
      && (run.0.Ok? ==> c0 + 2 * (run.1 - 1) + 1 !in faulty && run.0.value == Update(op, ReadOrEmpty(stored, c0 + 2 * (run.1 - 1) in faulty)))
  {
    hide Update;
    if AttemptOutcome(op, stored, faulty, c0).Ok? {
      RunStops(op, stored, faulty, c0, 3);
    } else if AttemptOutcome(op, stored, faulty, c0 + 2).Ok? {
      RunAfterFailure(op, stored, faulty, c0, 3);
      RunStops(op, stored, faulty, c0 + 2, 2);
    } else if AttemptOutcome(op, stored, faulty, c0 + 4).Ok? {
      RunAfterFailure(op, stored, faulty, c0, 3);
      RunAfterFailure(op, stored, faulty, c0 + 2, 2);
      RunStops(op, stored, faulty, c0 + 4, 1);
    } else {
      RunAfterFailure(op, stored, faulty, c0, 3);
      RunAfterFailure(op, stored, faulty, c0 + 2, 2);
      RunAfterFailure(op, stored, faulty, c0 + 4, 1);
      RunStops(op, stored, faulty, c0 + 6, 0);
    }
  }

  /** With a healthy backend, saving appends the log, marked pending, to the stored list in one
      attempt. */
  lemma SaveWithoutFaults(stored: seq<LogEntry>, faulty: set<nat>, c0: nat, log: WeightLog)
    requires Faultless(faulty, c0, c0 + 2)
    ensures Run(SaveLog(log), stored, faulty, c0) == (Ok(stored + [AsPending(log)]), 1)
  {
    assert c0 !in faulty && c0 + 1 !in faulty;
  }

  /** A save that resolves has either appended the log to the stored list or, when the read of
      its successful attempt threw, replaced the list by the log alone. */
  lemma SaveAppendsOrReplaces(stored: seq<LogEntry>, faulty: set<nat>, c0: nat, log: WeightLog)
    ensures var o := Run(SaveLog(log), stored, faulty, c0).0;
      o.Ok? ==> o.value == stored + [AsPending(log)] || o.value == [AsPending(log)]
  {
    WriteRun(SaveLog(log), stored, faulty, c0);
    assert [] + [AsPending(log)] == [AsPending(log)];
  }

  /** When the read of a save throws and its write does not, the store is indistinguishable from
      an empty one: the stored list is replaced by the new log alone. */
  lemma SaveAfterFailedRead(stored: seq<LogEntry>, faulty: set<nat>, c0: nat, log: WeightLog)
    requires c0 in faulty && c0 + 1 !in faulty
    ensures Run(SaveLog(log), stored, faulty, c0) == (Ok([AsPending(log)]), 1)
  {
    assert [] + [AsPending(log)] == [AsPending(log)];
  }

  /** With a healthy backend, marking stores the marked list in one attempt. */
  lemma MarkWithoutFaults(stored: seq<LogEntry>, faulty: set<nat>, c0: nat, timestamp: string)
    requires Faultless(faulty, c0, c0 + 2)
    ensures Run(MarkLogSynced(timestamp), stored, faulty, c0) == (Ok(MarkSynced(stored, timestamp)), 1)
  {
    assert c0 !in faulty && c0 + 1 !in faulty;
  }

  /** When the read of a mark throws and its write does not, the stored list is replaced by the
      empty list: every stored entry is lost. */
  lemma MarkAfterFailedRead(stored: seq<LogEntry>, faulty: set<nat>, c0: nat, timestamp: string)
    requires c0 in faulty && c0 + 1 !in faulty
    ensures Run(MarkLogSynced(timestamp), stored, faulty, c0) == (Ok([]), 1)
  {
  }

  /** Marking the same timestamp twice on a healthy backend leaves the store as marking once. */
  lemma MarkTwiceIsMarkOnce(items: map<string, string>, faulty: set<nat>, c0: nat, timestamp: string)
    requires Faultless(faulty, c0, c0 + 4)
    ensures var op := MarkLogSynced(timestamp);
      var once := ItemsAfter(op, items, Run(op, StoredLogs(items), faulty, c0).0);
      ItemsAfter(op, once, Run(op, StoredLogs(once), faulty, c0 + 2).0) == once
  {
    var marked := MarkSynced(StoredLogs(items), timestamp);
    MarkWithoutFaults(StoredLogs(items), faulty, c0, timestamp);
    var once := WriteLogs(items, marked);
    StoredAfterWrite(items, marked);
    MarkWithoutFaults(marked, faulty, c0 + 2, timestamp);
    MarkSyncedIdempotent(StoredLogs(items), timestamp);
    assert WriteLogs(once, marked) == once;
  }

  // ---------------------------------------------------------------- sequences of saves

  /** The entries `saveWeightLog` appends for `logs`, in order. */
  function AllPending(logs: seq<WeightLog>): seq<LogEntry>
  {
    if logs == [] then [] else [AsPending(logs[0])] + AllPending(logs[1..])
  }

  /** The i-th appended entry is the i-th log marked pending. */
  lemma {:induction false} AllPendingPointwise(logs: seq<WeightLog>)
    ensures |AllPending(logs)| == |logs|
    ensures forall i :: 0 <= i < |logs| ==> AllPending(logs)[i] == AsPending(logs[i])
    decreases |logs|
  {
    if logs != [] {
      AllPendingPointwise(logs[1..]);
      assert forall i :: 1 <= i < |logs| ==> logs[1..][i - 1] == logs[i];
    }
  }

  /** The stored list after saving `logs` one after another, the first save starting at backend
      call `c0`, on a store holding `stored`: a resolved save leaves its value stored (by
      `StoredAfterWrite`), a rejected one leaves the list as it was. */
  function SaveEach(stored: seq<LogEntry>, faulty: set<nat>, c0: nat, logs: seq<WeightLog>): seq<LogEntry>
    decreases |logs|
  {
    if logs == [] then stored
    else
      var run := Run(SaveLog(logs[0]), stored, faulty, c0);
      SaveEach(if run.0.Ok? then run.0.value else stored, faulty, c0 + 2 * run.1, logs[1..])
  }

  /** `SaveEach` continues from the store one `SaveWeightLog` call leaves: the list read from the
      items `ItemsAfter` gives, at the call counter its ensures give. */
  lemma SaveEachAfterSave(items: map<string, string>, faulty: set<nat>, c0: nat, logs: seq<WeightLog>)
    requires logs != []
    ensures var run := Run(SaveLog(logs[0]), StoredLogs(items), faulty, c0);
      SaveEach(StoredLogs(items), faulty, c0, logs)
        == SaveEach(StoredLogs(ItemsAfter(SaveLog(logs[0]), items, run.0)), faulty, c0 + 2 * run.1, logs[1..])
  {
    var run := Run(SaveLog(logs[0]), StoredLogs(items), faulty, c0);
    if run.0.Ok? {
      StoredAfterWrite(items, run.0.value);
    }
    hide StoredLogs, WriteLogs, Run;
  }

  /** On a healthy backend the first save of a sequence appends its log in one attempt, and
      the rest of the sequence runs on a healthy backend. */
  lemma SaveEachStep(stored: seq<LogEntry>, faulty: set<nat>, c0: nat, logs: seq<WeightLog>)
    requires logs != [] && Faultless(faulty, c0, c0 + 2 * |logs|)
    ensures SaveEach(stored, faulty, c0, logs) == SaveEach(stored + [AsPending(logs[0])], faulty, c0 + 2, logs[1..])
    ensures Faultless(faulty, c0 + 2, c0 + 2 + 2 * |logs[1..]|)
  {
    assert Faultless(faulty, c0, c0 + 2);
    SaveWithoutFaults(stored, faulty, c0, logs[0]);
  }

  /** Appending the first entry and then the entries of the rest appends the entries of all. */
  lemma AppendPending(stored: seq<LogEntry>, logs: seq<WeightLog>)
    requires logs != []
    ensures (stored + [AsPending(logs[0])]) + AllPending(logs[1..]) == stored + AllPending(logs)
  {
  }

  /** No data loss on save: after sequential saves on a healthy backend the store holds what it
      held before followed by every saved log, each pending, in the order they were saved. */
  lemma {:induction false} NoLossOnSequentialSaves(stored: seq<LogEntry>, faulty: set<nat>, c0: nat, logs: seq<WeightLog>)
    requires Faultless(faulty, c0, c0 + 2 * |logs|)
    ensures SaveEach(stored, faulty, c0, logs) == stored + AllPending(logs)
    decreases |logs|
  {
    if logs != [] {
      SaveEachStep(stored, faulty, c0, logs);
      AppendPending(stored, logs);
      NoLossOnSequentialSaves(stored + [AsPending(logs[0])], faulty, c0 + 2, logs[1..]);
    }
  }

  /** Every entry saved by `saveWeightLog` is pending. */
  lemma SavedArePending(logs: seq<WeightLog>)
    ensures PendingItems(AllPending(logs)) == AllPending(logs)
  {
    FilterDropsNothing(IsPending, AllPending(logs));
  }

  /** Of three entries, dropping the timestamp that only the middle one carries keeps the outer
      two. */
  lemma DropMiddle(entries: seq<LogEntry>, timestamp: string)
    requires |entries| == 3 && entries[1].timestamp == Str(timestamp)
    requires entries[0].timestamp != Str(timestamp) && entries[2].timestamp != Str(timestamp)
    ensures WithoutTimestamp(entries, timestamp) == [entries[0], entries[2]]
  {
    var without := (e: LogEntry) => e.timestamp != Str(timestamp);
    assert entries == [entries[0]] + ([entries[1]] + [entries[2]]);
    FilterConcat(without, [entries[0]], [entries[1]] + [entries[2]]);
    FilterConcat(without, [entries[1]], [entries[2]]);
    assert Filter(without, [entries[1]]) == [];
  }

  /** A healthy stretch of calls is healthy on both sides of any split point. */
  lemma FaultlessSplit(faulty: set<nat>, from: nat, mid: nat, to: nat)
    requires from <= mid <= to && Faultless(faulty, from, to)
    ensures Faultless(faulty, from, mid) && Faultless(faulty, mid, to)
  {
  }

  /** Three saves into an empty store on a healthy backend leave the three logs, pending, in
      the order they were saved. */
  lemma SaveThreeStored(faulty: set<nat>, c0: nat, logs: seq<WeightLog>)
    requires |logs| == 3 && Faultless(faulty, c0, c0 + 6)
    ensures SaveEach([], faulty, c0, logs) == [AsPending(logs[0]), AsPending(logs[1]), AsPending(logs[2])]
  {
    NoLossOnSequentialSaves([], faulty, c0, logs);
    AllPendingPointwise(logs);
  }

  /** Freshly saved entries are all reported pending. */
  lemma ThreePending(entries: seq<LogEntry>, a: WeightLog, b: WeightLog, c: WeightLog)
    requires entries == [AsPending(a), AsPending(b), AsPending(c)]
    ensures PendingItems(entries) == entries
  {
    FilterDropsNothing(IsPending, entries);
  }

  /** Marking the middle of three freshly saved entries leaves the outer two pending. */
  lemma MarkMiddle(entries: seq<LogEntry>, a: WeightLog, b: WeightLog, c: WeightLog, faulty: set<nat>, c0: nat)
    requires entries == [AsPending(a), AsPending(b), AsPending(c)]
    requires a.timestamp != b.timestamp && c.timestamp != b.timestamp
    requires Faultless(faulty, c0, c0 + 2)
    ensures var marked := Run(MarkLogSynced(b.timestamp), entries, faulty, c0).0;
      marked.Ok? && PendingItems(marked.value) == [AsPending(a), AsPending(c)]
  {
    MarkWithoutFaults(entries, faulty, c0, b.timestamp);
    ThreePending(entries, a, b, c);
    PendingAfterMark(entries, b.timestamp);
    DropMiddle(entries, b.timestamp);
  }

  /** Three logs saved into an empty store are all pending in the order saved; once the second
      is marked synced, the first and the third remain pending. */
  lemma SaveThreeMarkOne(faulty: set<nat>, c0: nat, logs: seq<WeightLog>)
    requires |logs| == 3
    requires logs[0].timestamp != logs[1].timestamp && logs[2].timestamp != logs[1].timestamp
    requires Faultless(faulty, c0, c0 + 8)
    ensures var saved := SaveEach([], faulty, c0, logs);
      && PendingItems(saved) == [AsPending(logs[0]), AsPending(logs[1]), AsPending(logs[2])]
      && var marked := Run(MarkLogSynced(logs[1].timestamp), saved, faulty, c0 + 6).0;
         marked.Ok? && PendingItems(marked.value) == [AsPending(logs[0]), AsPending(logs[2])]
  {
    var saved := SaveEach([], faulty, c0, logs);
    FaultlessSplit(faulty, c0, c0 + 6, c0 + 8);
    SaveThreeStored(faulty, c0, logs);
    ThreePending(saved, logs[0], logs[1], logs[2]);
    MarkMiddle(saved, logs[0], logs[1], logs[2], faulty, c0 + 6);
  }

  // ---------------------------------------------------------------- retryOperation and the weight-log operations

  /** One attempt of `op`: the body of the closure `OfflineStorage` hands to `retryOperation`. */
  method Attempt(storage: AsyncStorage, op: Operation) returns (r: Outcome<seq<LogEntry>>)
    modifies storage
    ensures r == AttemptOutcome(op, StoredLogs(old(storage.items)), storage.faulty, old(storage.calls))
    ensures storage.calls == old(storage.calls) + CallsFor(op, 1)
    ensures storage.items == ItemsAfter(op, old(storage.items), r)
    decreases Rank(op), 0
  {
    if op.GetLogs? {
      var read := storage.GetItem(WEIGHT_LOGS);
      if read.Fail? {
        // the error is caught and logged
        return Ok([]);
      }
      match read.value
      case None =>
        r := Ok([]);
      case Some(text) =>
        if text == "" {
          r := Ok([]);
        } else {
          match DecodeLogs(text)
          case Some(logs) =>
            r := Ok(logs);
          case None =>
            // `JSON.parse` threw; the error is caught and logged
            r := Ok([]);
        }
    } else {
      var logs := GetWeightLogs(storage);
      var updated := Update(op, logs);
      var written := storage.SetItem(WEIGHT_LOGS, EncodeLogs(updated));
      if written.Fail? {
        // the error is logged and rethrown
        return Fail(written.error);
      }
      r := Ok(updated);
    }
  }

  /** `retryOperation(op, retries)`: attempts `op`; after a failure it tries again while retries
      are left, one fewer each time, and otherwise rethrows the error. `items0` names the items
      the store holds when the call starts, which a failed attempt leaves as they were. */
  method RetryOperation(storage: AsyncStorage, op: Operation, retries: nat, ghost items0: map<string, string>) returns (r: Outcome<seq<LogEntry>>)
    requires storage.items == items0
    modifies storage
    ensures var run := RunWith(op, StoredLogs(items0), storage.faulty, old(storage.calls), retries);
      r == run.0 && storage.calls == old(storage.calls) + CallsFor(op, run.1)
    ensures storage.items == ItemsAfter(op, items0, r)
    decreases Rank(op), 1, retries
  {
    hide StoredLogs, WriteLogs;
    ghost var c0 := storage.calls;
    ghost var stored := StoredLogs(items0);
    r := Attempt(storage, op);
    if r.Fail? && retries > 0 {
      RunAfterFailure(op, stored, storage.faulty, c0, retries);
      r := RetryOperation(storage, op, retries - 1, items0);
    } else {
      RunStops(op, stored, storage.faulty, c0, retries);
    }
  }

  /** `getWeightLogs`: the stored list, or the empty list when it is absent, empty or unreadable,
      or when the read throws; it never throws. */
  method GetWeightLogs(storage: AsyncStorage) returns (logs: seq<LogEntry>)
    modifies storage
    ensures logs == ReadOrEmpty(StoredLogs(old(storage.items)), old(storage.calls) in storage.faulty)
    ensures old(storage.calls) !in storage.faulty ==> logs == StoredLogs(old(storage.items))
    ensures storage.items == old(storage.items) && storage.calls == old(storage.calls) + 1
    decreases 0, 2
  {
    GetLogsNeverRetries(StoredLogs(storage.items), storage.faulty, storage.calls);
    var r := RetryOperation(storage, GetLogs, Retry.MAX_RETRIES, storage.items);
    logs := r.value;
  }

  /** `saveWeightLog`: appends `log`, marked pending, to the stored list. */
  method SaveWeightLog(storage: AsyncStorage, log: WeightLog) returns (r: Status)
    modifies storage
    ensures var run := Run(SaveLog(log), StoredLogs(old(storage.items)), storage.faulty, old(storage.calls));
      && r == ToStatus(run.0)
      && storage.calls == old(storage.calls) + 2 * run.1
      && storage.items == ItemsAfter(SaveLog(log), old(storage.items), run.0)
    ensures Faultless(storage.faulty, old(storage.calls), old(storage.calls) + 2) ==>
      && r.Resolved?
      && StoredLogs(storage.items) == StoredLogs(old(storage.items)) + [AsPending(log)]
      && storage.calls == old(storage.calls) + 2
    ensures r.Resolved? ==>
      || StoredLogs(storage.items) == StoredLogs(old(storage.items)) + [AsPending(log)]
      || StoredLogs(storage.items) == [AsPending(log)]
    ensures r.Rejected? ==> storage.items == old(storage.items) && storage.calls == old(storage.calls) + 8
  {
    ghost var items0, c0 := storage.items, storage.calls;
    WriteRun(SaveLog(log), StoredLogs(items0), storage.faulty, c0);
    SaveAppendsOrReplaces(StoredLogs(items0), storage.faulty, c0, log);
    if Faultless(storage.faulty, c0, c0 + 2) {
      SaveWithoutFaults(StoredLogs(items0), storage.faulty, c0, log);
    }
    var o := RetryOperation(storage, SaveLog(log), Retry.MAX_RETRIES, storage.items);
    if o.Ok? {
      StoredAfterWrite(items0, o.value);
    }
    r := ToStatus(o);
  }

  /** `markLogAsSynced`: marks synced every stored entry whose timestamp equals `timestamp`. */
  method MarkLogAsSynced(storage: AsyncStorage, timestamp: string) returns (r: Status)
    modifies storage
    ensures var run := Run(MarkLogSynced(timestamp), StoredLogs(old(storage.items)), storage.faulty, old(storage.calls));
      && r == ToStatus(run.0)
      && storage.calls == old(storage.calls) + 2 * run.1
      && storage.items == ItemsAfter(MarkLogSynced(timestamp), old(storage.items), run.0)
    ensures Faultless(storage.faulty, old(storage.calls), old(storage.calls) + 2) ==>
      && r.Resolved?
      && StoredLogs(storage.items) == MarkSynced(StoredLogs(old(storage.items)), timestamp)
      && storage.calls == old(storage.calls) + 2
    ensures r.Rejected? ==> storage.items == old(storage.items) && storage.calls == old(storage.calls) + 8
  {
    ghost var items0, c0 := storage.items, storage.calls;
    WriteRun(MarkLogSynced(timestamp), StoredLogs(items0), storage.faulty, c0);
    if Faultless(storage.faulty, c0, c0 + 2) {
      MarkWithoutFaults(StoredLogs(items0), storage.faulty, c0, timestamp);
    }
    var o := RetryOperation(storage, MarkLogSynced(timestamp), Retry.MAX_RETRIES, storage.items);
    if o.Ok? {
      StoredAfterWrite(items0, o.value);
    }
    r := ToStatus(o);
  }

  /** `getPendingSyncItems`: the stored entries that are pending, in stored order; the store is
      not changed. */
  method GetPendingSyncItems(storage: AsyncStorage) returns (pending: seq<LogEntry>)
    modifies storage
    ensures pending == PendingItems(ReadOrEmpty(StoredLogs(old(storage.items)), old(storage.calls) in storage.faulty))
    ensures old(storage.calls) !in storage.faulty ==> pending == PendingItems(StoredLogs(old(storage.items)))
    ensures storage.items == old(storage.items) && storage.calls == old(storage.calls) + 1
  {
    var logs := GetWeightLogs(storage);
    pending := PendingItems(logs);
  }

  // ---------------------------------------------------------------- validation and cleanup

  /** The stored items after `validateAndCleanupData` started at backend call `c0`. */
  function CleanupItems(items: map<string, string>, faulty: set<nat>, c0: nat): map<string, string>
  {
    var logs := ReadOrEmpty(StoredLogs(items), c0 in faulty);
    var valid := ValidLogs(logs);
    if |valid| != |logs| && c0 + 1 !in faulty then WriteLogs(items, valid) else items
  }

  /** After a cleanup on a healthy backend the store holds exactly its valid entries, in order. */
  lemma CleanupKeepsValid(items: map<string, string>, faulty: set<nat>, c0: nat)
    requires Faultless(faulty, c0, c0 + 2)
    ensures StoredLogs(CleanupItems(items, faulty, c0)) == ValidLogs(StoredLogs(items))
  {
    var logs := StoredLogs(items);
    assert c0 !in faulty && c0 + 1 !in faulty;
    CleanupWritesOnlyOnChange(logs);
    StoredAfterWrite(items, ValidLogs(logs));
  }

  /** Once a cleanup has run on a healthy backend, running it again changes nothing, whatever
      faults the second run meets. */
  lemma CleanupTwiceIsCleanupOnce(items: map<string, string>, faulty: set<nat>, c0: nat, c1: nat)
    requires Faultless(faulty, c0, c0 + 2)
    ensures CleanupItems(CleanupItems(items, faulty, c0), faulty, c1) == CleanupItems(items, faulty, c0)
  {
    var once := CleanupItems(items, faulty, c0);
    CleanupKeepsValid(items, faulty, c0);
    CleanupIdempotent(StoredLogs(items));
    if c1 !in faulty {
      CleanupWritesOnlyOnChange(StoredLogs(once));
    }
  }

  /** `validateAndCleanupData`: drops the invalid entries, writing only when one was dropped;
      errors are logged and swallowed. */
  method ValidateAndCleanupData(storage: AsyncStorage)
    modifies storage
    ensures storage.items == CleanupItems(old(storage.items), storage.faulty, old(storage.calls))
    ensures var logs := ReadOrEmpty(StoredLogs(old(storage.items)), old(storage.calls) in storage.faulty);
      storage.calls == old(storage.calls) + (if |ValidLogs(logs)| != |logs| then 2 else 1)
  {
    var logs := GetWeightLogs(storage);
    var validLogs := ValidLogs(logs);
    if |validLogs| != |logs| {
      var written := storage.SetItem(WEIGHT_LOGS, EncodeLogs(validLogs));
      // a failed write is logged and swallowed
    }
  }

  // ---------------------------------------------------------------- device info, sync time, user data

  /** What `getDeviceInfo` returns when its read did not throw. */
  function ReadDeviceInfo(items: map<string, string>): Option<DeviceInfo>
  {
    match Get(items, DEVICE_INFO)
    case None => None
    case Some(text) => if text == "" then None else DecodeDeviceInfo(text)
  }

  /** Saved device info is what is read back. */
  lemma DeviceInfoSaved(items: map<string, string>, info: DeviceInfo)
    ensures ReadDeviceInfo(items[DEVICE_INFO := EncodeDeviceInfo(info)]) == Some(info)
  {
    DeviceInfoRoundTrip(info);
  }

  /** `saveDeviceInfo`: overwrites the device info; a failed write is rethrown. */
  method SaveDeviceInfo(storage: AsyncStorage, info: DeviceInfo) returns (r: Status)
    modifies storage
    ensures storage.calls == old(storage.calls) + 1
    ensures r.Resolved? <==> old(storage.calls) !in storage.faulty
    ensures r.Rejected? ==> r.error == StorageFault(old(storage.calls)) && storage.items == old(storage.items)
    ensures r.Resolved? ==> storage.items == old(storage.items)[DEVICE_INFO := EncodeDeviceInfo(info)]
    ensures r.Resolved? ==> ReadDeviceInfo(storage.items) == Some(info)
  {
    DeviceInfoSaved(storage.items, info);
    var written := storage.SetItem(DEVICE_INFO, EncodeDeviceInfo(info));
    r := ToStatus(written);
  }

  /** `getDeviceInfo`: the stored device info, or `None` when there is none or the read or the
      parse throws. */
  method GetDeviceInfo(storage: AsyncStorage) returns (info: Option<DeviceInfo>)
    modifies storage
    ensures storage.items == old(storage.items) && storage.calls == old(storage.calls) + 1
    ensures info == if old(storage.calls) in storage.faulty then None else ReadDeviceInfo(old(storage.items))
  {
    var read := storage.GetItem(DEVICE_INFO);
    if read.Fail? {
      return None;
    }
    match read.value
    case None =>
      info := None;
    case Some(text) =>
      info := if text == "" then None else DecodeDeviceInfo(text);
  }

  /** `getLastSyncTime`: the stored text as it is, or `None` when absent or the read throws. */
  method GetLastSyncTime(storage: AsyncStorage) returns (time: Option<string>)
    modifies storage
    ensures storage.items == old(storage.items) && storage.calls == old(storage.calls) + 1
    ensures time == if old(storage.calls) in storage.faulty then None else Get(old(storage.items), LAST_SYNC)
  {
    var read := storage.GetItem(LAST_SYNC);
    time := if read.Fail? then None else read.value;
  }

  /** `updateLastSyncTime`: stores `now`, the current time as an ISO-8601 string, unencoded. */
  method UpdateLastSyncTime(storage: AsyncStorage, now: string) returns (r: Status)
    modifies storage
    ensures storage.calls == old(storage.calls) + 1
    ensures r.Resolved? <==> old(storage.calls) !in storage.faulty
    ensures r.Rejected? ==> r.error == StorageFault(old(storage.calls)) && storage.items == old(storage.items)
    ensures r.Resolved? ==> storage.items == old(storage.items)[LAST_SYNC := now]
    ensures r.Resolved? ==> Get(storage.items, LAST_SYNC) == Some(now)
  {
    var written := storage.SetItem(LAST_SYNC, now);
    r := ToStatus(written);
  }

  /** What `getUserData` returns when its read did not throw. */
  function ReadUserData(items: map<string, string>): Option<seq<Member>>
  {
    match Get(items, USER_DATA)
    case None => None
    case Some(text) => if text == "" then None else ParseObjectText(text)
  }

  /** Saved user data is read back without its undefined properties. */
  lemma UserDataSaved(items: map<string, string>, data: seq<Member>)
    ensures ReadUserData(items[USER_DATA := Stringify(data)]) == Some(Filter(IsDefined, data))
  {
    StringifyRoundTrip(data);
  }

  /** `saveUserData`: overwrites the cached user data; a failed write is rethrown. */
  method SaveUserData(storage: AsyncStorage, data: seq<Member>) returns (r: Status)
    modifies storage
    ensures storage.calls == old(storage.calls) + 1
    ensures r.Resolved? <==> old(storage.calls) !in storage.faulty
    ensures r.Rejected? ==> r.error == StorageFault(old(storage.calls)) && storage.items == old(storage.items)
    ensures r.Resolved? ==> storage.items == old(storage.items)[USER_DATA := Stringify(data)]
    ensures r.Resolved? ==> ReadUserData(storage.items) == Some(Filter(IsDefined, data))
  {
    UserDataSaved(storage.items, data);
    var written := storage.SetItem(USER_DATA, Stringify(data));
    r := ToStatus(written);
  }

  /** `getUserData`: the cached user data, or `None` when there is none or the read or the parse
      throws. */
  method GetUserData(storage: AsyncStorage) returns (data: Option<seq<Member>>)
    modifies storage
    ensures storage.items == old(storage.items) && storage.calls == old(storage.calls) + 1
    ensures data == if old(storage.calls) in storage.faulty then None else ReadUserData(old(storage.items))
  {
    var read := storage.GetItem(USER_DATA);
    if read.Fail? {
      return None;
    }
    match read.value
    case None =>
      data := None;
    case Some(text) =>
      data := if text == "" then None else ParseObjectText(text);
  }

  // ---------------------------------------------------------------- clearing and accounting

  /** `clearAllData`: removes the five owned keys in one call and leaves every other key as it
      was; a failed removal is rethrown and removes nothing. */
  method ClearAllData(storage: AsyncStorage) returns (r: Status)
    modifies storage
    ensures storage.calls == old(storage.calls) + 1
    ensures r.Resolved? <==> old(storage.calls) !in storage.faulty
    ensures r.Rejected? ==> r.error == StorageFault(old(storage.calls)) && storage.items == old(storage.items)
    ensures r.Resolved? ==> forall i :: 0 <= i < |STORAGE_KEYS| ==> STORAGE_KEYS[i] !in storage.items
    ensures r.Resolved? ==> forall k :: k !in STORAGE_KEYS ==> Get(storage.items, k) == Get(old(storage.items), k)
  {
    var removed := storage.MultiRemove(STORAGE_KEYS);
    r := ToStatus(removed);
  }

  /** `getStorageSize`: the sum of the lengths of the values under all keys of the backend, the
      store's own and any other; 0 when any backend call throws. */
  method GetStorageSize(storage: AsyncStorage) returns (total: nat)
    modifies storage
    ensures storage.items == old(storage.items)
    ensures Faultless(storage.faulty, old(storage.calls), storage.calls) ==> total == TotalSize(storage.items)
    ensures !Faultless(storage.faulty, old(storage.calls), storage.calls) ==>
      total == 0 && storage.calls - 1 in storage.faulty
    ensures Faultless(storage.faulty, old(storage.calls), old(storage.calls) + 1 + |old(storage.items)|) ==>
      storage.calls == old(storage.calls) + 1 + |old(storage.items)|
    ensures Faultless(storage.faulty, old(storage.calls), storage.calls) ==>
      storage.calls == old(storage.calls) + 1 + |old(storage.items)|
    ensures !Faultless(storage.faulty, old(storage.calls), storage.calls) ==>
      Faultless(storage.faulty, old(storage.calls), storage.calls - 1)
  {
    ghost var c0 := storage.calls;
    var listed := storage.GetAllKeys();
    if listed.Fail? {
      return 0;
    }
    var keys := listed.value;
    DistinctKeysCount(storage.items, keys);
    total := 0;
    var i := 0;
    while i < |keys|
      invariant 0 <= i <= |keys|
      invariant storage.items == old(storage.items)
      invariant storage.calls == c0 + 1 + i
      invariant Faultless(storage.faulty, c0, storage.calls)
      invariant total + SizeOf(storage.items, keys[i..]) == SizeOf(storage.items, keys)
    {
      SizeOfStep(storage.items, keys, i);
      var read := storage.GetItem(keys[i]);
      if read.Fail? {
        return 0;
      }
      if read.value.Some? && read.value.value != "" {
        total := total + |read.value.value|;
      }
      i := i + 1;
    }
    SizeOfEnumeration(storage.items, keys);
  }
}
