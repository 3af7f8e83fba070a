# Offline weight-log store

This project models `OfflineStorage`, the module of a React Native weight-tracking app that
keeps the user's weight logs on the device so that they survive loss of connectivity and can
be synced to the server later. The store sits on a string key-value backend (`AsyncStorage`).
The whole list of logs is kept as one JSON array under the key `weight_logs`. Beside it the store
keeps the device info, the last sync time and cached user data, each under a key of its own.

The model has seven modules:

- `KeyValue`: the backend. `AsyncStorage` is a class whose fields are the stored items and a
  count of the backend calls made so far. A fixed set of call numbers throws. This set stands in
  for the storage faults a real device produces, so every fault pattern can be reasoned about.
- `Retry`: `retryOperation` for any operation, as a pure recursive function over the outcome of
  each attempt, with its properties. These cover the attempt budget, the first success, the last
  error and the exact number of attempts. `OfflineStorage.RunWith` is the same recursion over the
  store's own attempts, and `OfflineStorage.RunIsRetry` proves the two agree.
- `Json`: the JSON text the store writes (`JSON.stringify`) and reads (`JSON.parse`), with
  round-trip proofs for numbers, strings, primitives, objects and arrays of objects.
- `Records`: weight-log entries as read back (`LogEntry`, whose properties are each missing or
  of any JSON primitive type, with integer numbers only) and as given by callers (`WeightLog`).
  The module covers their encoding, the device-info object, and the three list transforms the
  store applies: mark synced, pending filter and validation filter.
- `Filters`: the order-preserving filter (`Array.prototype.filter`) and its algebra.
- `Outcomes`: success or thrown error, and the resolved or rejected status of a promise.
- `OfflineStorage`: the store's operations as methods on an `AsyncStorage` handle. Each method
  is proved against a pure description of its effect: the stored list before and after, the
  backend calls it makes, and the outcome. Lemmas about those descriptions state what the store
  promises and where it loses data.

Behaviour captured on purpose, as the code does it:

- a read of the log list that throws, or text that does not parse, yields the empty list;
- a save or a mark whose read failed but whose write succeeded therefore overwrites the
  stored list (`SaveAfterFailedRead`, `MarkAfterFailedRead`);
- logs are identified only by their exact timestamp, so marking one marks all entries that
  share it;
- validation checks the type of `weight`, never its value.

## Model

| member | source | states |
|---|---|---|
| Retry.RetryOperation | utils/offlineStorage.ts:30-43 | at least one and at most `retries + 1` attempts are made, and the outcome is that of the last attempt made |
| Retry.RetryStopsAtFirstSuccess | utils/offlineStorage.ts:34-41 | every attempt before the last failed, and the last one succeeded or used up the budget, so no attempt follows a success |
| Retry.RetryDeterminedBy | utils/offlineStorage.ts:30-43 | a run of n attempts whose first n-1 fail and whose last succeeds or exhausts the budget is exactly the run the retry makes |
| Retry.RetrySucceedsIff | utils/offlineStorage.ts:34-41 | the call resolves if and only if one of the `retries + 1` attempts succeeds |
| Retry.RetryExhausted | utils/offlineStorage.ts:37-41 | when every attempt fails, all `retries + 1` attempts are made and the last attempt's error is rethrown |
| Retry.RetrySucceedsOnAttempt | utils/offlineStorage.ts:34-39 | when attempt k is the first success, the call resolves with its value after exactly k + 1 attempts |
| Outcomes.ToStatus | utils/offlineStorage.ts:100-103 | a promise resolves exactly when the operation succeeded, and a rejection carries the operation's error |
| Filters.Filter | utils/offlineStorage.ts:172 | the filtered list is no longer than the input, holds only input elements that pass, and holds every input element that passes |
| Filters.FilterConcat | utils/offlineStorage.ts:172 | filtering distributes over concatenation, so the stored order is kept |
| Filters.FilterIdempotent | utils/offlineStorage.ts:183-189 | filtering a filtered list changes nothing |
| Filters.FilterDropsNothing | utils/offlineStorage.ts:191 | the filtered list has the input's length if and only if every element passes, and if and only if it equals the input |
| Json.DigitChar | utils/offlineStorage.ts:54 | a digit value is written as the decimal digit character with that value |
| Json.Digits | utils/offlineStorage.ts:54 | a natural number is written as a non-empty run of decimal digits, which starts with zero only for zero itself |
| Json.DigitsRoundTrip | utils/offlineStorage.ts:54 | reading back the digits written for n gives n |
| Json.DigitRun | utils/offlineStorage.ts:67 | the digit run at the front of a text is maximal: all digits, followed by the end or by a non-digit |
| Json.DigitRunOf | utils/offlineStorage.ts:67 | a digit run followed by a non-digit is read to its full length |
| Json.ParseMagnitude | utils/offlineStorage.ts:67 | a successful digit-run parse consumes input |
| Json.ParseNumber | utils/offlineStorage.ts:67 | a successful number parse consumes input |
| Json.LeadingZeroRejected | utils/offlineStorage.ts:67 | a number of several digits that starts with zero, signed or not, does not parse, as `JSON.parse` refuses it |
| Json.MagnitudeRoundTrip | utils/offlineStorage.ts:54 | the digits written for n, followed by a non-digit, do not start with a minus sign and read back as n, leaving the rest |
| Json.NumberRoundTrip | utils/offlineStorage.ts:54 | a written integer followed by a non-digit parses back to the same integer and leaves the rest of the text |
| Json.Escape | utils/offlineStorage.ts:54 | defines how a string body is written: a backslash before each quote and each backslash, every other character as it is |
| Json.ParseStringBody | utils/offlineStorage.ts:67 | a successful string-body parse consumes input |
| Json.OtherEscapeRejected | utils/offlineStorage.ts:67 | a backslash followed by anything but a quote or a backslash makes the string unreadable |
| Json.ParseString | utils/offlineStorage.ts:67 | a successful string parse consumes input |
| Json.StringBodyRoundTrip | utils/offlineStorage.ts:54 | an escaped string body and its closing quote parse back to the original string |
| Json.StringRoundTrip | utils/offlineStorage.ts:54 | a written string literal parses back to the same string and leaves the rest of the text |
| Json.EncodeValue | utils/offlineStorage.ts:54 | defines the text of a primitive: `null`, `true` or `false`, a decimal integer, or a quoted escaped string |
| Json.ParseValue | utils/offlineStorage.ts:67 | a parsed primitive is never `undefined`, and parsing consumes input |
| Json.NotStartsWith | utils/offlineStorage.ts:67 | a text whose first character differs from a literal word's does not start with it |
| Json.ValueRoundTrip | utils/offlineStorage.ts:54 | every defined primitive parses back from its text |
| Json.ParseMember | utils/offlineStorage.ts:67 | a parsed property has a defined value, and parsing consumes input |
| Json.ParseMemberList | utils/offlineStorage.ts:67 | parsed properties all have defined values |
| Json.ParseObject | utils/offlineStorage.ts:67 | a parsed object has only defined properties |
| Json.MemberRoundTrip | utils/offlineStorage.ts:54 | a written property parses back to the same key and value |
| Json.MemberListRoundTrip | utils/offlineStorage.ts:54 | written properties followed by the closing brace parse back in order |
| Json.ObjectRoundTrip | utils/offlineStorage.ts:54 | an object of defined properties parses back from its text |
| Json.Stringify | utils/offlineStorage.ts:141 | defines `JSON.stringify` of a flat object: its defined properties in order, with the `undefined` ones left out |
| Json.ParseObjectList | utils/offlineStorage.ts:67 | parsed array elements are objects of defined properties |
| Json.ParseArray | utils/offlineStorage.ts:67 | a parsed array holds objects of defined properties |
| Json.ObjectListRoundTrip | utils/offlineStorage.ts:54 | written objects followed by the closing bracket parse back in order |
| Json.ArrayRoundTrip | utils/offlineStorage.ts:54 | an array of objects parses back from its text |
| Json.ParseObjectText | utils/offlineStorage.ts:151 | a whole text parsed as an object yields only defined properties |
| Json.ParseArrayText | utils/offlineStorage.ts:67 | a whole text parsed as an array yields objects of defined properties |
| Json.StringifyRoundTrip | utils/offlineStorage.ts:141 | `JSON.stringify` of an object is non-empty and parses back to the object without its `undefined` properties |
| Json.ArrayTextRoundTrip | utils/offlineStorage.ts:54 | the text of an array of objects is non-empty (so truthy) and parses back to the same array |
| Records.AsPending | utils/offlineStorage.ts:51 | the appended entry carries the caller's user id, weight, notes and timestamp, with status "pending" whatever status was given |
| Records.Lookup | utils/offlineStorage.ts:67 | a property read is `undefined` or a value the object holds under that key; of repeated keys the last one is read, as `JSON.parse` keeps it |
| Records.LookupAbsent | utils/offlineStorage.ts:67 | a property that is not in the object reads as `undefined` |
| Records.LookupIgnoresUndefined | utils/offlineStorage.ts:54 | when every key occurs once, as in any JS object, dropping `undefined` properties on write does not change what any key reads as |
| Records.LookupFinds | utils/offlineStorage.ts:67 | with distinct keys, each property reads as its own value |
| Records.LookupLast | utils/offlineStorage.ts:67 | of repeated keys the last one is read: a property that no later property shares its key with reads as its own value, as `JSON.parse` keeps the last occurrence |
| Records.FromMembers | utils/offlineStorage.ts:67 | defines how an entry is read from a parsed object: each of the five `WeightLog` properties is looked up, `undefined` when missing, and other properties are ignored |
| Records.EntryObject | utils/offlineStorage.ts:54 | the object written for an entry holds only defined properties, as `JSON.stringify` drops `undefined` ones |
| Records.EntryObjects | utils/offlineStorage.ts:54 | the objects written for a list of entries hold only defined properties |
| Records.EntriesOf | utils/offlineStorage.ts:67 | defines how the parsed array is read: one entry per object, in order |
| Records.EntriesOfObjects | utils/offlineStorage.ts:54 | reading entries back from the objects written for them gives the same entries, in order |
| Records.EncodeLogs | utils/offlineStorage.ts:54 | defines the stored text of a list of entries: a JSON array of one object per entry, in order |
| Records.DecodeLogs | utils/offlineStorage.ts:67 | defines how the stored text is read back: an array of objects gives one entry per object, any other text does not parse |
| Records.EntryRoundTrip | utils/offlineStorage.ts:54 | an entry written as an object reads back as the same entry, missing properties included |
| Records.LogsRoundTrip | utils/offlineStorage.ts:52-55 | the stored text of a list of entries is non-empty and reads back as the same list |
| Records.MarkOne | utils/offlineStorage.ts:80 | marking an entry changes at most its status, and changes it only to "synced" on an entry whose timestamp is the argument |
| Records.MarkSynced | utils/offlineStorage.ts:79-81 | marking a list keeps its length |
| Records.MarkSyncedPointwise | utils/offlineStorage.ts:79-81 | marking keeps length and order, makes every entry with the timestamp synced with its other properties unchanged, and leaves every other entry as it was |
| Records.MarkSyncedIdempotent | utils/offlineStorage.ts:79-81 | marking the same timestamp twice is the same as marking it once |
| Records.IsPending | utils/offlineStorage.ts:172 | defines a pending entry: its status is the string "pending" |
| Records.PendingItems | utils/offlineStorage.ts:172 | an entry is pending-for-sync if and only if it is a stored entry whose status is "pending" |
| Records.WithoutTimestamp | utils/offlineStorage.ts:79-81 | defines the entries whose timestamp differs from the argument, in order: those a mark leaves untouched |
| Records.PendingAfterMark | utils/offlineStorage.ts:79-81 | after a mark, the pending entries are those before it without the marked timestamp, in order |
| Records.PendingAfterAppend | utils/offlineStorage.ts:51 | an appended entry joins the end of the pending entries exactly when it is pending |
| Records.Truthy | utils/offlineStorage.ts:185-187 | defines JavaScript truthiness of a primitive: anything but `undefined`, `null`, `false`, 0 and the empty string |
| Records.IsValid | utils/offlineStorage.ts:184-188 | defines the validation test: a truthy user id, a weight of type number, a truthy timestamp, and status "pending" or "synced" |
| Records.ValidLogs | utils/offlineStorage.ts:183-189 | an entry survives cleanup if and only if it is a stored entry that passes validation |
| Records.ValidLogsExactly | utils/offlineStorage.ts:183-189 | cleanup keeps every valid entry and no invalid one |
| Records.CleanupIdempotent | utils/offlineStorage.ts:183-191 | cleaning a cleaned list drops nothing, so a second run writes nothing |
| Records.CleanupWritesOnlyOnChange | utils/offlineStorage.ts:191 | the length check fires if and only if some entry is invalid, and if and only if the list changes |
| Records.SavedLogValidity | utils/offlineStorage.ts:183-189 | a saved log passes validation if and only if its user id and timestamp are non-empty, whatever its weight |
| Records.EncodeDeviceInfo | utils/offlineStorage.ts:96-99 | defines the stored text of device info: `JSON.stringify` of its three properties, `undefined` ones left out |
| Records.DecodeDeviceInfo | utils/offlineStorage.ts:109 | defines how device info is read back: a flat object gives its three properties, `undefined` when missing, and any other text does not parse |
| Records.DeviceInfoRoundTrip | utils/offlineStorage.ts:94-114 | written device info is non-empty and reads back as the same info |
| KeyValue.TotalSize | utils/offlineStorage.ts:206-212 | defines the storage size: the sum of the lengths of all stored values |
| KeyValue.TotalSizeRemove | utils/offlineStorage.ts:207-212 | the total size is the size of one value plus the total of the other keys |
| KeyValue.SizeOf | utils/offlineStorage.ts:207-212 | defines the sum the loop builds: the value lengths under the listed keys, in listing order, with a key that is not stored adding 0 |
| KeyValue.SizeOfIgnores | utils/offlineStorage.ts:207-212 | summing over keys that exclude k does not depend on k's value |
| KeyValue.SizeOfEnumeration | utils/offlineStorage.ts:207-212 | summing over a listing of every key, each listed once, gives the total size of the store |
| KeyValue.DistinctKeysCount | utils/offlineStorage.ts:205 | a listing of every key, each listed once, has as many entries as the store has keys |
| KeyValue.AsyncStorage.GetItem | utils/offlineStorage.ts:66 | a read returns the stored value or none, changes nothing, and throws exactly on a faulty call |
| KeyValue.AsyncStorage.SetItem | utils/offlineStorage.ts:52-55 | a write replaces one key's value, or throws and changes nothing |
| KeyValue.AsyncStorage.MultiRemove | utils/offlineStorage.ts:161 | a multi-remove deletes exactly the given keys, or throws and changes nothing |
| KeyValue.AsyncStorage.GetAllKeys | utils/offlineStorage.ts:205 | the listing holds every stored key exactly once, or the call throws |
| OfflineStorage.StoredLogs | utils/offlineStorage.ts:66-67 | defines the list a read that does not throw returns: the decoded list, or the empty list when the text is missing, empty or unparsable |
| OfflineStorage.ReadOrEmpty | utils/offlineStorage.ts:68-71 | defines the list an attempt reads: the stored list, or the empty list when the read threw and `getWeightLogs` swallowed the error |
| OfflineStorage.WriteLogs | utils/offlineStorage.ts:52-55 | defines the store after a list is written: the list's JSON text under `weight_logs`, every other key unchanged |
| OfflineStorage.StoredAfterWrite | utils/offlineStorage.ts:52-55 | the list read back after a write is the list written, and no other key changes |
| OfflineStorage.GetLogsNeverRetries | utils/offlineStorage.ts:63-73 | reading the logs takes one attempt and never rejects |
| OfflineStorage.WriteRun | utils/offlineStorage.ts:47-61 | a save or mark makes at most four attempts and is rejected, with its fourth write's error, exactly when all four writes throw; otherwise it stores the update of the list its last attempt read |
| OfflineStorage.SaveWithoutFaults | utils/offlineStorage.ts:47-61 | without faults a save resolves in one attempt and appends the log, marked pending, to the stored list |
| OfflineStorage.SaveAppendsOrReplaces | utils/offlineStorage.ts:47-61 | a resolved save either appended the log or, when its read threw, replaced the stored list by the log alone |
| OfflineStorage.SaveAfterFailedRead | utils/offlineStorage.ts:50-55 | when the read throws and the write does not, every earlier log is lost and only the new one is stored |
| OfflineStorage.MarkWithoutFaults | utils/offlineStorage.ts:75-91 | without faults a mark resolves in one attempt and stores the marked list |
| OfflineStorage.MarkAfterFailedRead | utils/offlineStorage.ts:78-85 | when the read throws and the write does not, the stored list is replaced by the empty list |
| OfflineStorage.MarkTwiceIsMarkOnce | utils/offlineStorage.ts:75-91 | on a healthy backend a second mark of the same timestamp leaves the store as it is |
| OfflineStorage.AllPending | utils/offlineStorage.ts:51 | defines the entries a sequence of saves appends: each log marked pending, in order |
| OfflineStorage.SaveEach | utils/offlineStorage.ts:47-61 | defines `saveWeightLog` called once per log, one after another: each save runs on the list and call counter the previous one left, as `SaveWeightLog`'s ensures give them, and a rejected save leaves the list as it was |
| OfflineStorage.AllPendingPointwise | utils/offlineStorage.ts:51 | the entries appended for a list of logs are, position by position, those logs marked pending |
| OfflineStorage.SaveEachAfterSave | utils/offlineStorage.ts:47-61 | the sequence of saves goes on from the store one `SaveWeightLog` call leaves: the list read from the items `ItemsAfter` gives, at the call counter after that call's attempts |
| OfflineStorage.SaveEachStep | utils/offlineStorage.ts:47-61 | on a healthy backend the first of several saves appends its log in one attempt, and the rest run on a healthy backend |
| OfflineStorage.AppendPending | utils/offlineStorage.ts:51 | appending the first pending entry and then those of the rest appends those of all the logs |
| OfflineStorage.NoLossOnSequentialSaves | utils/offlineStorage.ts:47-61 | saves made one after another on a healthy backend lose nothing: the store holds the earlier entries followed by every saved log, pending, in the order saved |
| OfflineStorage.SavedArePending | utils/offlineStorage.ts:51 | every entry a save appends is reported as pending |
| OfflineStorage.DropMiddle | utils/offlineStorage.ts:79-81 | of three entries, removing the timestamp only the middle one carries keeps the outer two in order |
| OfflineStorage.SaveThreeStored | utils/offlineStorage.ts:47-61 | three saves into an empty store on a healthy backend store the three logs, pending, in order |
| OfflineStorage.MarkMiddle | utils/offlineStorage.ts:75-91 | marking the middle of three freshly saved entries, on a healthy backend, resolves and leaves the outer two pending |
| OfflineStorage.SaveThreeMarkOne | utils/offlineStorage.ts:47-91 | three logs saved into an empty store are all pending in the order saved; once the second is marked synced, the first and third remain pending |
| OfflineStorage.CallsFor | utils/offlineStorage.ts:48-71 | defines the backend calls a number of attempts makes: one read each, and one write each as well for a save or a mark |
| OfflineStorage.Update | utils/offlineStorage.ts:47-91 | defines what an attempt writes: the list it read with the pending log appended (save), or the list it read marked synced (mark) |
| OfflineStorage.AttemptOutcome | utils/offlineStorage.ts:48-72 | defines one attempt's outcome: a read that throws gives the empty list and never fails the attempt, a write that throws fails it with that call's error |
| OfflineStorage.Attempt | utils/offlineStorage.ts:48-60 | one attempt's outcome, the backend calls it makes and the store it leaves are those its pure description gives |
| OfflineStorage.RunWith | utils/offlineStorage.ts:30-43 | defines the store's retry: attempts until one succeeds or the retries are used up, each attempt starting after the backend calls of the ones before it |
| OfflineStorage.Run | utils/offlineStorage.ts:25-43 | defines the retry with the default budget of `MAX_RETRIES` = 3 retries |
| OfflineStorage.ItemsAfter | utils/offlineStorage.ts:47-91 | defines the store a run leaves: the written list under `weight_logs` when a save or mark resolved, and the store unchanged when the run rejected or only read |
| OfflineStorage.RunIsRetry | utils/offlineStorage.ts:30-43 | retrying the store's attempts is the generic `retryOperation` applied to them, attempt k starting where the k earlier attempts' backend calls end |
| OfflineStorage.RetryOperation | utils/offlineStorage.ts:30-43 | the recursive retry's outcome and backend calls are those of `RunWith` with the given number of retries, and the store afterwards holds the written list exactly when the run resolved a write |
| OfflineStorage.GetWeightLogs | utils/offlineStorage.ts:63-73 | the stored list, or the empty list when the read throws or the text is missing, empty or unparsable; nothing is written |
| OfflineStorage.SaveWeightLog | utils/offlineStorage.ts:47-61 | without faults the stored list grows by the pending log; a resolved save appended or replaced; a rejected save made 4 attempts and changed nothing |
| OfflineStorage.MarkLogAsSynced | utils/offlineStorage.ts:75-91 | without faults the stored list becomes its marked form; a rejected mark made 4 attempts and changed nothing |
| OfflineStorage.GetPendingSyncItems | utils/offlineStorage.ts:169-177 | the pending stored entries in stored order, without changing the store |
| OfflineStorage.CleanupKeepsValid | utils/offlineStorage.ts:180-201 | after a cleanup on a healthy backend the store holds exactly its valid entries in order |
| OfflineStorage.CleanupTwiceIsCleanupOnce | utils/offlineStorage.ts:180-201 | after one cleanup on a healthy backend, a second run changes nothing, whatever faults it meets |
| OfflineStorage.CleanupItems | utils/offlineStorage.ts:180-201 | defines the store a cleanup leaves: the valid entries are written when an entry was dropped, the read did not throw and the write does not throw; otherwise the store is unchanged |
| OfflineStorage.ValidateAndCleanupData | utils/offlineStorage.ts:180-201 | leaves the store `CleanupItems` describes: the valid entries are written only when an entry was dropped and the read did not throw, errors are swallowed, and one or two backend calls are made |
| OfflineStorage.DeviceInfoSaved | utils/offlineStorage.ts:94-114 | saved device info is what a later read returns |
| OfflineStorage.SaveDeviceInfo | utils/offlineStorage.ts:94-104 | replaces the device info, or rejects with the backend's error and changes nothing |
| OfflineStorage.ReadDeviceInfo | utils/offlineStorage.ts:108-109 | defines what a device-info read that does not throw returns: none for a missing or empty text, otherwise the parsed object or none when it does not parse |
| OfflineStorage.GetDeviceInfo | utils/offlineStorage.ts:106-114 | the stored device info, or none when it is absent or unreadable or the read throws; nothing is written |
| OfflineStorage.GetLastSyncTime | utils/offlineStorage.ts:117-124 | the stored text unchanged, or none when absent or when the read throws |
| OfflineStorage.UpdateLastSyncTime | utils/offlineStorage.ts:126-136 | stores the given time, which a later read returns, or rejects and changes nothing |
| OfflineStorage.UserDataSaved | utils/offlineStorage.ts:139-156 | saved user data reads back without its `undefined` properties |
| OfflineStorage.SaveUserData | utils/offlineStorage.ts:139-146 | replaces the user data, or rejects with the backend's error and changes nothing |
| OfflineStorage.ReadUserData | utils/offlineStorage.ts:150-151 | defines what a user-data read that does not throw returns: none for a missing or empty text, otherwise the parsed object or none when it does not parse |
| OfflineStorage.GetUserData | utils/offlineStorage.ts:148-156 | the stored user data, or none when it is absent or unreadable or the read throws; nothing is written |
| OfflineStorage.ClearAllData | utils/offlineStorage.ts:159-166 | removes all five owned keys and leaves every other key as it was, or rejects and removes nothing |
| OfflineStorage.GetStorageSize | utils/offlineStorage.ts:203-218 | the sum of the lengths of all stored values when no call throws, after one listing call and one read per key; 0 otherwise, the throwing call being the last one made; nothing is written |

## Left out

- The one-second delay between attempts, and asynchrony. Operations run one after another. Two
  interleaved read-modify-write operations, which could lose an update, are not modelled.
- Console logging in the catch blocks.
- `new Date().toISOString()` is passed to `UpdateLastSyncTime` as the parameter `now`.
- The JSON model covers the texts the store itself writes: compact output, integer numbers, and
  string escapes for `"` and `\` only. It has no floating-point weights, `NaN` or `Infinity`, no
  whitespace and no nested values inside a log or device-info object. Such text is read as text
  that does not parse, even when it is valid JSON. Within these forms the reader rejects what
  `JSON.parse` rejects, such as a number with a leading zero or an unknown escape, apart from
  raw control characters (see `Json.ParseStringBody` below).
- A weight with a fraction, such as `72.4`, is the common case of such text. A stored list
  holding one reads as unparsable, so the model's read gives `[]`, a healthy save replaces the
  whole list with `[log]`, a mark writes `[]`, the pending list is empty and cleanup writes
  nothing. The code appends, marks, lists and keeps those entries, since their weight is a number.
  The model's callers can only give integer weights (`WeightLog.weight: int`).
- Json.Escape: control characters are written as they are, where `JSON.stringify` writes `\n`,
  `\t` or `\uXXXX`. The round trip still holds in the model, but a note holding a newline is
  stored as different text from the code's.
- Json.ParseStringBody: reads a raw control character inside a string, which `JSON.parse`
  rejects, and rejects the escapes `\/`, `\b`, `\f`, `\n`, `\r`, `\t` and `\uXXXX`, which
  `JSON.parse` accepts. A stored text that uses them reads as unparsable.
- A stored text that parses to something other than an array (for example `{}`, `5` or `null`)
  is returned by `getWeightLogs` in the code, and the next `push` or `map` then throws.
  `OfflineStorage.GetWeightLogs` treats it as unparsable and returns the empty list. On such a
  text the code's `saveWeightLog` and `markLogAsSynced` throw on every attempt and reject after
  four attempts, leaving the text as it was. `OfflineStorage.SaveWeightLog` and
  `OfflineStorage.MarkLogAsSynced` instead resolve after one healthy attempt and overwrite the
  text with `[log]` or `[]`. `getPendingSyncItems` and `validateAndCleanupData` agree with the
  model here: the code's `filter` throws, the error is caught, and nothing is written.
- An array whose elements are not all objects, such as `[e, 1]` or `[null]`, is read as
  unparsable too, so the model's read gives `[]` for it, its save overwrites it with `[log]`,
  its mark with `[]`, its pending list is empty and its cleanup writes nothing. The code works
  on it element by element. Its save appends the log. Its mark marks the objects with the
  timestamp and writes every other element back unchanged. Its cleanup keeps the valid objects
  and writes them. Its pending list holds the pending objects. A `null` element makes the mark,
  the cleanup and the pending filter throw: the mark rejects after four attempts, and the other
  two catch the error, so the cleanup writes nothing and the pending list is `[]`.
- Properties other than the five `WeightLog` fields are dropped when an entry is read back, and
  the three `DeviceInfo` fields are the only ones kept for device info. `OfflineStorage.SaveUserData`,
  `OfflineStorage.UserDataSaved` and `OfflineStorage.GetUserData` handle user data only when it
  is a flat JSON object of primitives. `saveUserData` in the code accepts any value, including
  arrays, nested objects and `null`.
- `value.length` counts UTF-16 code units. `GetStorageSize` counts characters of `seq<char>`.
- No code in the store drives the sync to a server: nothing calls `getPendingSyncItems` and then
  `markLogAsSynced`, so no sync loop is modelled.
- `KeyValue.AsyncStorage`: the AsyncStorage library is not part of this model. Its four calls are
  specified by what the store relies on, and a fault is a thrown error on a given call number.
