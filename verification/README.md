# Mood journal core, modelled in Dafny

This project models the logic of a mobile mood journal (RegistroEmocional). It has three parts.

- **The bubble canvas** (`canvas.dfy`, module `Canvas`, from `app/App.js`). The user taps emotions. The first tap on a name creates a *bubble* (`burbuja`). Later taps on that name raise its count and append an *occurrence record* (`registro`). In connection mode, two taps link two bubbles with a *connection* (`conexion`). Deleting a bubble also deletes its connections. The user can edit the note of one record. A bubble is drawn at a size that grows with its count.
- **The local-first sync service** (`storage.dfy`, module `SyncStore`, from `app/services/storage.js`). Day snapshots are stored on the device under `"emociones_" + date`. A duplicate-free queue (`cola_sinc`) holds the keys still to be uploaded. A flush uploads every queued day and marks each one synced. Reads go to the backend when the device is online and otherwise use the local copy. A status call reports the pending count. Clearing the cache removes every day snapshot.
- **The backend** (`server.dfy`, module `Server`, and `stats.dfy`, module `Stats`, from `backend/server.js`). Records are upserted, read and deleted by (user, day). The statistics handler folds per-emotion totals and ranks the top five. The export handler reports per-day totals.

Shared shapes are in `model.dfy` (`Model`). `Option` is in `wrappers.dfy` (`Wrappers`). Order-preserving filter, duplicate freedom and a stable insertion sort are in `seqs.dfy` (`Seqs`).

The React state setters, AsyncStorage, NetInfo, axios and MongoDB become pure functions over immutable values:

- a bubble list and a connection list;
- a `map<string, Snapshot>` plus a `seq<string>` queue;
- a sequence of backend records in insertion order, where `findOne` returns the first match.

Nondeterministic inputs are parameters:

- `Date.now()`, used as a fresh id, is `stamp`;
- a tap's ISO timestamp is `now`;
- the random default position is `draw`;
- connectivity is `online`;
- the upload outcome for the i-th queued key is `postOk(i)`;
- the backend's reply to a one-day read is `fetched`, which is `None` when the request failed;
- calendar days on the backend are integers, for a server whose clock runs at UTC offset 0 (see the time-zone line under "## Left out"), and the statistics handler's clock is `now` in milliseconds.

A failed upload throws to the `catch` at `storage.js:88-91`. The queue is cleared at `storage.js:85` only after a complete pass, so a failed flush keeps the whole queue; that is what `SyncStore.Sync` states. Queued keys with no local data are skipped and then dropped by that clear (`SyncStore.SyncAfterClearDropsQueue`).

## Model

| member | source | states |
|---|---|---|
| Canvas.FindByName | RegistroEmocional/app/App.js:85 | returns the index of the first bubble with that name, or None exactly when no bubble has it |
| Canvas.AddEmotion | RegistroEmocional/app/App.js:84-108 | the list keeps its length exactly when the name is already present, otherwise it grows by one; the name is present afterwards; every existing bubble keeps its id, name, color and position |
| Canvas.AddExistingChangesOnlyThatBubble | RegistroEmocional/app/App.js:85-96 | on a well-formed canvas, a tap on an existing name raises that bubble's count by exactly 1 and appends one note-less record at the end of its records; every other bubble is unchanged |
| Canvas.AddNewAppendsOneBubble | RegistroEmocional/app/App.js:97-107 | a new name appends exactly one bubble (id `stamp`, count 1, a single record stamped `now`) and keeps the earlier bubbles unchanged and in order |
| Canvas.AddEmotionPreservesWellFormed | RegistroEmocional/app/App.js:84-108 | bubble names stay pairwise distinct, ids stay distinct given a fresh id, and `count == |registros|` holds for every bubble |
| Canvas.RepeatedAddsCountTaps | RegistroEmocional/app/App.js:84-108 | n taps on a new name yield one bubble at the end with count n and n records carrying the n timestamps in tap order |
| Canvas.ToggleConnecting | RegistroEmocional/app/App.js:165 | the header button flips connection mode and changes nothing else, so a picked origin survives cancelling |
| Canvas.TapBubble | RegistroEmocional/app/App.js:112-129 | in connection mode, a tap with no origin only sets the origin; a tap on a different id appends one connection from the origin to the tapped bubble, clears the origin, leaves the mode and keeps the bubbles; a tap on the origin's id changes nothing; outside the mode, connections, origin and mode stay and the bubbles are the emotion added again by name, which is then present |
| Canvas.TwoTapsConnect | RegistroEmocional/app/App.js:112-125 | in connection mode the first tap only records the origin; a tap on a bubble with a different id then appends one connection from origin to destination, clears the origin and leaves the mode; no bubble changes |
| Canvas.TapOnOriginIsNoOp | RegistroEmocional/app/App.js:113-125 | a second tap on the origin's own id changes nothing |
| Canvas.TapOutsideModeCountsBubble | RegistroEmocional/app/App.js:126-128 | outside connection mode, tapping a bubble of a well-formed canvas counts one more tap on that bubble alone |
| Canvas.DeleteBubble | RegistroEmocional/app/App.js:131-135 | the kept bubbles are exactly those with a different id; the kept connections are exactly those whose origin and destination both differ from the id; the mode and the origin are left as they were |
| Canvas.DeleteKeepsBubbleOrder | RegistroEmocional/app/App.js:132 | the bubble filter distributes over any split of the list, so the surviving bubbles keep their order and multiplicity |
| Canvas.DeleteKeepsOrder | RegistroEmocional/app/App.js:133 | the connection filter distributes over any split of the list, so the surviving connections keep their order and multiplicity |
| Canvas.DeletePreservesNoDangling | RegistroEmocional/app/App.js:131-133 | if every connection's ends name bubbles before the delete, the same holds after it |
| Canvas.StaleOriginMakesDanglingConnection | RegistroEmocional/app/App.js:112-135 | from a valid two-bubble canvas in connection mode, the sequence tap A, delete A, tap B stores a connection whose origin no longer exists |
| Canvas.DeleteBubbleChecked | RegistroEmocional/app/App.js:131-135 | deletes the same bubbles and connections as `DeleteBubble` and keeps the mode; a picked origin with the deleted id is dropped (the origin becomes none), any other picked origin is kept, and no origin appears when none was picked |
| Canvas.DeleteCheckedPreservesInvariant | RegistroEmocional/app/App.js:131-135 | the corrected delete keeps the whole editing invariant: well-formed bubbles, no dangling connection, no stale origin |
| Canvas.AddNote | RegistroEmocional/app/App.js:137-148 | only the note of record i of the bubbles with that id changes; that record keeps its timestamp and intensity; all other records, every length and count, and all other bubbles are unchanged |
| Canvas.AddNotePreservesWellFormed | RegistroEmocional/app/App.js:137-145 | editing a note keeps names and ids distinct and counts equal to record lengths |
| Canvas.BubbleSize | RegistroEmocional/app/App.js:150-152 | the size is at most 150, equals 60 + 15·count up to count 6, and is 150 from count 6 on |
| Canvas.BubbleSizeMonotone | RegistroEmocional/app/App.js:150-152 | a larger count never gives a smaller size |
| Canvas.StepPreservesInvariant | RegistroEmocional/app/App.js:84-152 | every action the screen allows (pick, toggle, tap, corrected delete, note) preserves unique names and ids, `count == |registros|`, no dangling connection and no stale origin |
| SyncStore.KeyOf | RegistroEmocional/app/services/storage.js:30 | the key is the prefix `emociones_` followed by the date, and the date can be read back from it |
| SyncStore.KeyOfInjective | RegistroEmocional/app/services/storage.js:30 | different dates never share a key |
| SyncStore.Enqueue | RegistroEmocional/app/services/storage.js:44-51 | the key is in the queue afterwards; a present key leaves the queue unchanged, an absent one is appended at the end; the queue's set gains exactly the key and duplicate freedom is preserved |
| SyncStore.SaveLocal | RegistroEmocional/app/services/storage.js:29-36 | the date's key holds `{bubbles, connections, date, synced: false}`, every other entry is unchanged, and the key is enqueued |
| SyncStore.LoadLocal | RegistroEmocional/app/services/storage.js:38-42 | returns the stored snapshot under the date's key, and None exactly when there is none |
| SyncStore.SaveLocalThenLoadLocal | RegistroEmocional/app/services/storage.js:29-42 | a local read after a local write returns the written snapshot for that date and what was there before for any other date |
| SyncStore.FlushFrom | RegistroEmocional/app/services/storage.js:66-82 | the store keeps its keys and only ever changes the synced flag; unqueued keys are untouched; the pass completes exactly when every queued key with data uploads; a complete pass marks every such key synced and has sent exactly their uploads, in queue order |
| SyncStore.FlushFailsAt | RegistroEmocional/app/services/storage.js:66-91 | when the upload at position k is the first to fail, the pass fails, marks exactly the earlier keys with data, and has sent exactly their uploads |
| SyncStore.Sync | RegistroEmocional/app/services/storage.js:55-92 | offline it returns false and changes nothing; it returns true exactly when online and every queued key with data uploads; success empties the queue and marks every queued key synced; failure leaves the queue as it was; payloads are never changed |
| SyncStore.SyncFailsAt | RegistroEmocional/app/services/storage.js:66-91 | an online flush whose k-th upload is the first to fail returns false, marks only the earlier keys synced, leaves every other entry and the queue unchanged |
| SyncStore.Status | RegistroEmocional/app/services/storage.js:181-188 | `pendientes` is the length of the queue, and `sincronizado` holds exactly when it is 0, which is exactly when the queue is empty |
| SyncStore.StatusCountsDistinctKeys | RegistroEmocional/app/services/storage.js:181-188 | with a duplicate-free queue, the pending count is the number of distinct queued keys |
| SyncStore.SaveLocalLeavesPending | RegistroEmocional/app/services/storage.js:29-51 | after a local write the status is never "synced" |
| SyncStore.ClearCache | RegistroEmocional/app/services/storage.js:175-179 | removes exactly the keys that start with `emociones_`, keeps the other entries' values, and leaves the queue alone |
| SyncStore.ClearCacheForgetsEveryDay | RegistroEmocional/app/services/storage.js:175-179 | after clearing, no date has local data |
| SyncStore.FlushSkipsMissing | RegistroEmocional/app/services/storage.js:66-68 | queued keys without stored data are skipped: nothing is sent and the pass completes |
| SyncStore.SyncAfterClearDropsQueue | RegistroEmocional/app/services/storage.js:66-87 | after clearing the cache, an online flush sends nothing, succeeds, and empties the queue, so those keys are forgotten |
| SyncStore.Save | RegistroEmocional/app/services/storage.js:146-155 | the date's local entry holds the saved lists whatever the network does; offline it is exactly the local write; online, when every queued upload succeeds the queue is emptied and the day is stored as synced, and when one fails the queue is the local write's queue; other entries change at most in their synced flag; duplicate freedom of the queue is preserved |
| SyncStore.Load | RegistroEmocional/app/services/storage.js:157-171 | offline, or when the request failed, it returns the local lists and changes nothing; online with a reply, it returns the reply and writes it over the date's entry as unsynced, the key is enqueued as `Enqueue` does, and every other entry keeps its value |
| SyncStore.SaveThenOfflineLoad | RegistroEmocional/app/services/storage.js:146-171 | a save, online or not, followed by an offline read returns exactly the saved lists |
| SyncStore.OnlineLoadOverwritesLocal | RegistroEmocional/app/services/storage.js:157-166 | an online read that receives lists returns them, and a later offline read returns the same lists |
| SyncStore.EmptyServerDayWipesLocal | RegistroEmocional/app/services/storage.js:157-166 | a non-empty local day read online, when the backend has no record for it, comes back empty and its local bubbles are replaced by an empty list |
| SyncStore.LoadChecked | RegistroEmocional/app/services/storage.js:157-171 | behaves as `Load` when the backend returns a non-empty day, and otherwise returns the local lists and changes nothing |
| SyncStore.LoadCheckedKeepsLocalDay | RegistroEmocional/app/services/storage.js:157-171 | with the empty-reply check, an online read of a day the backend lacks keeps the device unchanged and returns the local lists |
| Server.FindDay | RegistroEmocional/backend/server.js:97-103 | returns the first record of the user for the day, or None exactly when there is none |
| Server.Upsert | RegistroEmocional/backend/server.js:97-122 | an existing record gets the new lists and update time in place, no record is added, and the others are unchanged; otherwise exactly one record is appended; the stored record is returned |
| Server.UpsertPreservesOnePerDay | RegistroEmocional/backend/server.js:97-122 | at most one record per (user, day) is preserved |
| Server.GetDay | RegistroEmocional/backend/server.js:74-82 | a missing (user, day) yields empty bubble and connection lists; otherwise the record's lists |
| Server.UpsertThenGet | RegistroEmocional/backend/server.js:74-122 | a read after an upsert returns exactly the lists written |
| Server.UpsertLeavesOtherDays | RegistroEmocional/backend/server.js:97-122 | an upsert does not change the read of any other (user, day) |
| Server.DeleteDay | RegistroEmocional/backend/server.js:255-261 | removes the first record of the user for the day and keeps the rest in order; without such a record nothing changes |
| Server.DeleteRemovesDay | RegistroEmocional/backend/server.js:255-261 | with one record per (user, day), deleting keeps exactly the other records in order, and a read then yields empty lists |
| Stats.Tally | RegistroEmocional/backend/server.js:173-181 | a bubble whose name has no entry yet appends one entry with its name, count and color, and only then does the list grow; otherwise names and colors stay, entries of other names are untouched, and, when names are distinct, the entry of its name gains the bubble's count |
| Stats.TallyStep | RegistroEmocional/backend/server.js:173-181 | one bubble folded in keeps the entries the exact per-name aggregates of the bubbles seen so far |
| Stats.Aggregate | RegistroEmocional/backend/server.js:172-182 | one entry per distinct name and one for every name seen; each count is that name's total over all bubbles; each color is that of the first bubble with the name; the counts sum to the total of all taps |
| Stats.Top5 | RegistroEmocional/backend/server.js:192-199 | min(5, n) entries, sorted non-increasing by count, a sub-multiset of the input (no entry repeated), with distinct names when the input's names are distinct; no left-out entry has a count above the last kept one |
| Stats.Select | RegistroEmocional/backend/server.js:155-158 | selects exactly the user's records from the window's first day on |
| Stats.FirstDay | RegistroEmocional/backend/server.js:152-153 | the first day of the statistics window is the one whose midnight is at or after the cutoff while the previous day's midnight is before it |
| Stats.WindowByDay | RegistroEmocional/backend/server.js:152-158 | a record stamped at midnight of its day is on or after the cutoff (now moved back `dias` days, time of day kept) exactly when its day is at least `FirstDay`: today minus `dias` plus one, or today minus `dias` when now is exactly midnight |
| Stats.StatisticsFor | RegistroEmocional/backend/server.js:147-201 | the statistics of the records selected by timestamp equal those of the records selected by day from `FirstDay`; away from midnight the window is the last `dias` days up to today |
| Stats.Compute | RegistroEmocional/backend/server.js:160-201 | the day count is the number of records; the per-name entries are the aggregates; the average is absent with no days and otherwise the sum of the per-name counts over the day count; connections are summed; the top five are sorted, a sub-multiset of the per-name entries with distinct names, carry their name's total and first color, and beat every omitted entry |
| Stats.TopEntriesAreAggregates | RegistroEmocional/backend/server.js:192-199 | each ranked entry carries its name's aggregated count and color |
| Stats.ExportDayOf | RegistroEmocional/backend/server.js:219-235 | one exported emotion per bubble with its name and frequency; each of its occurrences carries the time, note and intensity of the corresponding record, in order; `total_emociones` equals the sum of the exported frequencies and `total_conexiones` the number of connections |
| Stats.ExportOrder | RegistroEmocional/backend/server.js:214-216 | the records exported are a permutation of the user's records (each exactly once), ordered oldest day first |
| Stats.ExportUser | RegistroEmocional/backend/server.js:214-241 | the days are the export of each record in that order, one per record of the user; `total_dias` equals the number of exported days and the number of the user's records; days come oldest first |
| Stats.ExportAgreesWithStatistics | RegistroEmocional/backend/server.js:172-240 | over the same records, the export's per-day totals sum to the statistics' total taps and total connections |
| Stats.TwoDayExample | RegistroEmocional/backend/server.js:160-188 | two days, Alegría 3 then Alegría 2 plus Miedo 1, give 2 days, an Alegría total of 5 and an average of 6 over 2 |

## Left out

- Rendering, modals, styles, `Alert` and the SVG lines (`App.js:154-590`) are not modelled; only the connection-mode button handler at line 165 is kept.
- The autosave effect, the initial load and the 30-second sync timer (`App.js:43-82`) are event plumbing; the functions they call are modelled.
- The random default position, `Date.now()` ids and ISO timestamps are nondeterministic and are parameters (`draw`, `stamp`, `now`); a zero coordinate falling back to the draw follows `posicion?.x ||` literally.
- The device user id generation (`storage.js:17-25`) is random and I/O; the id is the `user` parameter, and the window in which it is still `null` during start-up is not modelled.
- AsyncStorage, NetInfo and axios are replaced by a map plus a queue, a connectivity flag and the `postOk`/`fetched` oracles. JSON serialisation is taken to be lossless. A failing storage medium is not modelled.
- `SyncStore.Save`: uses one connectivity flag for both of `guardar`'s checks (`storage.js:151` and the one inside `sincronizar`), because the network can change between them only by timing.
- `SyncStore.Load`: returns the bubble and connection lists only, not the whole server document or stored snapshot, because the screen reads only those (`App.js:61-64`).
- The client wrappers for history, statistics and export (`storage.js:108-142`) are HTTP pass-throughs; the backend handlers they call are modelled instead. The history endpoint (`server.js:129-144`) is not modelled: a date filter and sort with no logic of its own.
- Overlapping flushes and writes during a flush are concurrency, not modelled; each operation runs to completion.
- The Mongoose connection, schema, Express wiring and health check (`server.js:1-62`, `server.js:270-282`) and `backend/models/Emocion.js` (a schema only) are not modelled.
- Server time zones are not modelled: the model is the backend on a server at UTC offset 0, where every handler sees the same calendar day. The upsert turns the date into UTC midnight and stores the server's local midnight of that instant (`server.js:93-94`, `server.js:116`). The read and delete handlers search from UTC midnight for one day (`server.js:70-72`, `server.js:251-253`). At any other offset, a read or delete of day D finds the record stored for D+1, so `Server.UpsertThenGet` and `Server.DeleteRemovesDay` describe the program only on a UTC server. Days are whole days of 86 400 000 ms from the epoch; daylight-saving days are not 24 hours long.
- `toFixed(1)` formatting of the average is floating point; the average is the ratio `Ratio(total, days)`, `NoDays` standing for the reported 0.
- `parseInt(dias)` returning NaN for a non-numeric query, and emotion names that collide with `Object.prototype` properties, are not modelled; days is an integer and names are plain keys.
- Stats.Top5: does not state stability (equal counts keep their first-seen order), although the insertion sort that computes it is stable.
- Stats.ExportOrder: the order among records of the same day is that of a stable sort; MongoDB leaves it unspecified.
- `Canvas.AddNote`: requires the record index to exist for the bubbles with that id, because its only caller (`App.js:297`) passes the index of a displayed record; the array growth JavaScript would perform for a larger index is not modelled.
- `Canvas.TwoTapsConnect`: a connection's id is the `stamp` parameter; its freshness is not tracked, because no operation looks connections up by id.

## Findings

| source | as written | input that shows it | evidently intended | confidence | as-written member | corrected member |
|---|---|---|---|---|---|---|
| RegistroEmocional/app/services/storage.js:162 | an online read accepts any reply that has a `burbujas` array. That includes the `{burbujas: [], conexiones: []}` the backend sends for a day it lacks (`server.js:82`). The empty reply is written over the local copy | a day saved while offline, with bubbles, that is read online (the start-up load) before a flush has uploaded it | use the local copy when the backend has no data for the day, as the comment at `storage.js:169` says | medium, not executed | SyncStore.EmptyServerDayWipesLocal | SyncStore.LoadChecked |
| RegistroEmocional/app/App.js:131-135 | deleting a bubble does not reset the connection origin picked by a first tap | connection mode on; tap A; long-press A and delete it (the delete dialog opens in connection mode too); tap B. A connection from A's id to B is stored, and A is gone | deleting the origin bubble also drops it as origin, so no connection can point at a deleted bubble | medium, not executed | Canvas.StaleOriginMakesDanglingConnection | Canvas.DeleteBubbleChecked |
