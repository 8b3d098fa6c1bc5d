# Verified model of the Linux translation client

The project models the client's state machine and four pieces of algorithmic code
around it, and proves what they promise over all inputs and all runs.

* **Client state** (`src/model.rs`). `Transitions` gives, for each of the 32 kinds of
  public call that change `AppState`, the next state or the refusal; `Step`, `After`
  and `Run` put them together. `Client.AppState` is the mutable object: its methods
  have the branches, the order of guards and the assignments of the original, and each
  is proved to take exactly the transition of its name, or to change nothing at all when
  it refuses. `ObjectRuns` performs any sequence of calls on the object and proves that it
  ends where `Run` does, so that the properties of runs are properties of the object.
  `Guards` says exactly which calls are refused and with which error, `Fields` which calls write
  each field and with what. `Invariant`, `Runs`, `SavedRuns`, `Pending`, `Sessions`, `Exclusion`,
  `Streaming` and `Documents` prove the properties of runs; `SavedRows` and `RowUpdates` relate the
  saved list to a map.
* **Routing candidates** (`src/model.rs`): keyboard moves and drag-and-drop (`Routing`).
* **Message catalogs** (`src/localization.rs`): the binary parser (`MoCatalog`), what it reads
  from any bytes (`MoReading`), a writer in both byte orders (`MoEncoder`), the textual parser and a
  printer (`PoCatalog`), what it reads from any text (`PoBlocks`), the two unescapers (`Escapes`)
  and the lookups (`Catalogs`). File layout: section 10.3 of
  the GNU gettext manual, "The Format of GNU MO Files".
* **Call scanner** (`tools/check-localization-placeholders.py`): the scanner
  and its round trips (`CallScanner`), and where it cuts any text (`CallPlaces`).
* **OCR** (`src/ocr.rs`, `src/file_import.rs`): the page loop (`OcrPages`) and the document
  job builder (`OcrJob`).

`Wrappers`, `Ordering`, `Text`, `Locales` and `Profiles` hold what these share.

## Reading the statements

* Core's rule for model identifiers that `with_selected_model` accepts is not part of this
  repository. Every statement takes it as an arbitrary predicate `rule`.
* UTF-8 encoding and lossy decoding are a `Codec`, of which only `Inverse` is used:
  decoding what was encoded gives it back.
* `usize` and `isize` are those of a 64-bit target; saturation and sequence bounds are
  written out.
* What an external program or the file system answers is an input: a `PageFile` carries
  the file stem, the metadata and the recogniser's result. That result includes the failure
  of decoding its output as UTF-8.
* The fields of `AppState` are grouped into records by subject. All setters of request
  inputs are one kind of call, `SetInput`, with the input as argument; those of worker status,
  counters and appearance are another, `SetPreference`.
* `Inv` needs no obligation on callers. `Every(rule, s, ops, ok)` states an obligation at
  each call of a run; it appears only where a property needs it. `Throughout(rule, s, ops, holds)`
  states a property of every state of a run. A lemma that equates the two shows that the
  obligation is exact: the property holds throughout if and only if every call meets it.

## Where the code does less than one may expect

* `begin_model_selection` does not consult Core's rule for model identifiers, so a discovered
  model that Core refuses becomes pending and cannot be confirmed, only rolled back
  (`Pending.RefusedModelStaysPending`). `Pending.PendingModelResolves` gives the exact condition.
* A finished stream can be reopened and then accepts a second terminal event. Seven kinds of
  call do that: `record_stream_error` and `pause_document_translation` always, `provider_failed`,
  `profile_storage_unavailable` and a matching `provider_connection_failed` when a provider is
  active, and an accepted connection request or result. `Streaming.TwoCompletions` shows it for a
  stream error and for a provider failure; `Streaming.TerminalLeftExactly` and
  `Streaming.SingleTerminalExactly` give the exact conditions.
* `update_saved_profile_health` neither sorts nor looks at the secret. `SavedRuns.OrderRun` and
  `SavedRuns.SecretsRun` say exactly when the saved list stays ordered and free of session secrets;
  `SavedRuns.RenameBreaksOrder`, `SavedRuns.HealthStoresSecret` and
  `Pending.SecretRowStaysPending` show runs that break this. It also replaces a live provider that
  was never saved when the identifiers agree (`Sessions.HealthReplacesProvider`;
  `Sessions.IntactRun` is exact).
* Several methods write the status without testing for a pending connection, and stream
  events are only refused in a terminal status. `Exclusion.ExclusionRun` gives the exact
  obligation under which connecting, choosing a model, deleting and translating exclude each
  other; `Exclusion.ClearWhileConnecting` shows a run that breaks it.
* A keyboard move by more than one place does not keep the order of the other candidates
  (`Routing.MoveKeepsOthers`).
* A catalog may hold an entry whose first slot is empty; `get` then answers the empty text
  instead of the fallback, `get_plural` does not (`Catalogs.GetIsEmpty`,
  `MoEncoder.EmptyFirstSlot`, `Catalogs.PluralNeverEmpty`).
* The textual parser drops an entry with an empty identifier, the binary parser keeps it
  (`PoCatalog.FormsDisagree`); `PoCatalog.FormsAgree` says exactly when the two forms are the same
  catalog. A `#, fuzzy` line does not drop the entry that follows it
  (`PoCatalog.OtherLinesAreIgnored`).
* For the count zero in Brazilian Portuguese the program takes the plural slot, while the catalog
  declares `plural=(n > 1)` (`l10n/linux/pt-BR/LC_MESSAGES/linguamesh.po`), which makes zero
  singular. `Catalogs.PluralIndexFollowsCatalog` shows that this is the only count and the only
  locale where the program departs from the rule of its catalog.
* A carriage return that is the last character of a text belongs to its last line, where a final
  newline would remove it; `PoBlocks.FinalNewlineOptional` excludes that case.
* The page loop accepts a page numbered zero, which the job builder then refuses
  (`OcrJob.PipelineBound`, `OcrJob.PageZeroRefused`).

## Model

| member | source | states |
|---|---|---|
| `Invariant.InvStep` | src/model.rs:619-1523 | Every public call, whatever its arguments and whether or not it is accepted, keeps: unique saved ids; the form-selected, restart-default, connected and pending-deletion pointers name saved rows; a connected saved row is the active provider and the restart default and agrees with it except for the secret; selected and pending models were discovered; no provider means no models; storage not available means no rows, no pointers and no save intent |
| `Invariant.InvReachable` | src/model.rs:487-525 | The invariant holds in every state reachable from the default by any calls at all |
| `Invariant.WorkspaceFrame` | src/model.rs:1193-1523 | Workspace, document and stream calls leave providers, saved rows, pointers, storage and models untouched |
| `Invariant.ConnectedKeeps` | src/model.rs:901-957 | A connection result that is accepted, with or without a saved row, keeps all pointers valid and ties the connected row to the active provider |
| `Invariant.ConfirmModelSavedKeeps` | src/model.rs:1033-1091 | A confirmed model keeps the connected row in agreement with the active provider |
| `Invariant.ConfirmDeletionKeeps` | src/model.rs:1137-1165 | After a confirmed deletion every remaining pointer still names a remaining row, and a connection to another row still agrees with it |
| `Invariant.UpdateHealthKeeps` | src/model.rs:619-639 | After a health update the connected row still agrees with the active provider, and every pointer still names a row |
| `Client.AppState.constructor` | src/model.rs:487-525 | A new object is in the default state and satisfies the invariant |
| `Client.AppState.UpdateSavedProfileHealth` | src/model.rs:619-639 | Replaces the first row of that id, and the active provider if it has that id; refuses an unknown id without a trace; keeps the invariant |
| `Client.AppState.RestoreSavedProfiles` | src/model.rs:761-804 | Restores rows and default only in a disconnected idle state, from unique rows with no session secret and an enabled default; refuses otherwise without a trace |
| `Client.HasUniqueIds` | src/model.rs:779-785 | The search that stops at the first repeated id answers exactly whether all ids are different |
| `Client.AppState.RestoreSavedProfile` | src/model.rs:807-813 | Restores one row as its own default |
| `Client.AppState.ProfileStorageUnavailable` | src/model.rs:816-824 | Drops every row, pointer, pending deletion and save intent; keeps the live session |
| `Client.AppState.SelectSavedProfile` | src/model.rs:827-850 | Moves the form selection only, to a saved row or to none, and only while nothing is under way |
| `Client.AppState.BeginProviderConnection` | src/model.rs:853-858 | Starts a connection that will not be saved |
| `Client.AppState.BeginProviderConnectionWithPersistence` | src/model.rs:861-889 | Starts a connection only while nothing is under way, for an enabled profile, and with a save intent only if storage is available |
| `Client.AppState.ProviderConnected` | src/model.rs:892-898 | Commits a connection result that brings no saved row |
| `Client.AppState.ProviderConnectedWithSavedProfile` | src/model.rs:901-957 | Commits provider, models and saved row together, only if the result is the pending request's own and the saved row matches the save intent and the profile; a stale result changes nothing |
| `Client.AppState.ProviderConnectionFailed` | src/model.rs:960-970 | Rolls back the pending connection only for the exact pending profile |
| `Client.AppState.ProviderFailed` | src/model.rs:973-984 | Drops the pending connection and keeps the previous session; a running stream keeps its status |
| `Client.AppState.BeginModelSelection` | src/model.rs:987-1006 | Makes a discovered model pending, only with a provider and with no connection, stream or deletion under way |
| `Client.AppState.ConfirmModelSelection` | src/model.rs:1009-1030 | Confirms the pending model, supplying the saved row from the client's own list |
| `Client.AppState.ConfirmModelSelectionWithSavedProfile` | src/model.rs:1033-1091 | Confirms the pending model of the active provider only with a saved row that matches it, present exactly if the connection is saved; otherwise nothing changes |
| `Client.AppState.ModelSelectionFailed` | src/model.rs:1094-1105 | Rolls back exactly the pending model and keeps the selected one |
| `Client.AppState.SelectModel` | src/model.rs:1182-1190 | Selects a discovered model directly and forgets a pending one |
| `Client.AppState.BeginProfileDeletion` | src/model.rs:1108-1134 | Makes the deletion of a saved row pending, only with storage and with nothing under way |
| `Client.AppState.ConfirmProfileDeletion` | src/model.rs:1137-1165 | Removes the pending row and clears exactly the pointers that name it |
| `Client.AppState.ProfileDeletionFailed` | src/model.rs:1168-1179 | Rolls back exactly the pending deletion and keeps every row and pointer |
| `Client.AppState.SetSourceText` | src/model.rs:1193-1195 | Sets the source text of the next request and nothing else |
| `Client.AppState.SetSourceLocale` | src/model.rs:1214-1216 | Sets the source locale of the next request and nothing else |
| `Client.AppState.SetTargetLocale` | src/model.rs:1219-1221 | Sets the target locale of the next request and nothing else |
| `Client.AppState.SetGlossary` | src/model.rs:1224-1226 | Sets the glossary of the next request and nothing else |
| `Client.AppState.SetPrivacyMode` | src/model.rs:1313-1315 | Sets the privacy mode of the next request and nothing else |
| `Client.AppState.SetQualityMode` | src/model.rs:1318-1320 | Sets the quality mode of the next request and nothing else |
| `Client.AppState.SetTranslationPreset` | src/model.rs:1323-1325 | Sets the preset of the next request and nothing else |
| `Client.AppState.MarkWorkerReady` | src/model.rs:547-549 | Marks the worker as ready and changes nothing else |
| `Client.AppState.MarkWorkerUnavailable` | src/model.rs:552-554 | Marks the worker as failed and changes nothing else |
| `Client.AppState.RestoreTranslationHistoryCount` | src/model.rs:1271-1273 | Sets the history count and nothing else |
| `Client.AppState.ClearTranslationHistoryCount` | src/model.rs:1276-1278 | Sets the history count to zero and nothing else |
| `Client.AppState.RestoreTranslationHistoryEnabled` | src/model.rs:1281-1283 | Sets the history policy and nothing else |
| `Client.AppState.RestoreTranslationMemoryCount` | src/model.rs:1298-1300 | Sets the memory count and nothing else |
| `Client.AppState.ClearTranslationMemoryCount` | src/model.rs:1303-1305 | Sets the memory count to zero and nothing else |
| `Client.AppState.RestoreTranslationMemoryEnabled` | src/model.rs:1308-1310 | Sets the memory policy and nothing else |
| `Client.AppState.SetTheme` | src/model.rs:1328-1330 | Sets the theme and nothing else |
| `Client.AppState.SetLocale` | src/model.rs:1333-1335 | Sets the interface locale and nothing else |
| `Client.AppState.RecordRoutingDecision` | src/model.rs:708-710 | Recording a routing decision changes nothing else |
| `Client.AppState.ClearWorkspace` | src/model.rs:1198-1211 | Forgets source text, result, error, sequence and routing decision; the status follows from the provider |
| `Client.AppState.BeginTranslation` | src/model.rs:1338-1380 | Returns a request with each of the seven current inputs in its place and the selected model, and opens an empty stream, only while nothing is under way and with non-blank text; otherwise nothing changes |
| `Client.AppState.BeginDocumentTranslation` | src/model.rs:1383-1409 | Opens an empty stream under the same guards, with no demand on the source text |
| `Client.AppState.SetDocumentOutput` | src/model.rs:1412-1415 | Progress replaces the output and marks it partial |
| `Client.AppState.CompleteDocumentTranslation` | src/model.rs:1418-1423 | A complete document is not partial and clears the error |
| `Client.AppState.CancelDocumentTranslation` | src/model.rs:1426-1430 | A cancelled document keeps its text, partial if there is any |
| `Client.AppState.PauseDocumentTranslation` | src/model.rs:1433-1438 | A paused document keeps its text and leaves the client ready |
| `Client.AppState.FailDocumentTranslation` | src/model.rs:1441-1450 | A failed document keeps its text and reports the error |
| `Client.AppState.RequestCancellation` | src/model.rs:1453-1459 | Only a translating stream starts cancelling |
| `Client.AppState.ApplyTranslationEvent` | src/model.rs:1462-1503 | Takes the step of an acceptable event and refuses any other without a trace |
| `Client.AppState.RecordClientError` | src/model.rs:1506-1509 | Ends in failure with an internal error; output and its partial mark stay |
| `Client.AppState.RecordStreamError` | src/model.rs:1512-1516 | Cancels the stream with an internal error, from any status |
| `Client.AppState.RecordOperationFailure` | src/model.rs:1519-1523 | Ends in failure and keeps the output, partial if there is any |
| `Guards.RefusedExactly` | src/model.rs:619-1503 | Every call is accepted if and only if none of its checks fails, and otherwise refused with the error of the first that does, in the order of the program |
| `Fields.FieldsStep` | src/model.rs:547-1523 | Every accepted call writes exactly its own fields, each with its own value, and a refused call writes none: seen field by field, for providers, models, pointers, storage, error, inputs, routing decision and preferences |
| `Fields.ChoicesRun` | src/model.rs:901-1190 | After any run the selected model is that of the last accepted connection, confirmation or direct selection, and what is pending is what the last accepted call started, unless one ended it since |
| `Fields.PointersRun` | src/model.rs:761-1523 | After any run the form selection, restart default, connected row and storage status are those of the last accepted calls that set them, and the error is the one last reported, a failed stream's being that of its own event, or none if cleared since |
| `Fields.InputsRun` | src/model.rs:1193-1325 | After any run each request input is the one set last; clearing the workspace sets the text to the empty one |
| `Fields.RequestCarriesInputs` | src/model.rs:1338-1380 | On any run from the default, an accepted request has the text, locales, glossary, privacy, quality and preset that were set last, or the defaults, and the model selected last |
| `Fields.ConnectionSelects` | src/model.rs:901-957 | An accepted connection selects the model of the pending profile if discovery found it and none otherwise, and is in all else the pending profile |
| `ObjectRuns.Perform` | src/model.rs:547-1523 | One public call on the object, of any kind, changes it exactly as the transition functions say, reports whether it was accepted, and changes nothing when refused |
| `ObjectRuns.PerformAll` | src/model.rs:547-1523 | Any sequence of calls leaves the object in the state of the run, and replaying only the accepted calls from the same state ends there too |
| `Runs.RefusedCallsErase` | src/model.rs:619-1503 | Since a refusal keeps the state, which the methods of the object show, deleting all refused calls from any run gives the same final state and a run of accepted calls only |
| `SavedRuns.UpdateStep` | src/model.rs:619-1165 | What each call does to the saved rows, and what it can bring: a session secret only by a health update, a row with a new id only by a restore or a remembered connection |
| `RowUpdates.ListedIsMapped` | src/model.rs:2244-2261 | On the map that the list represents, building, saving, replacing, removing and clearing rows are map build, update, update, removal and emptying; ids stay unique |
| `SavedRuns.SavedMapStep` | src/model.rs:619-1165 | One call acts on the map from id to saved profile as its update says, touching only the named id |
| `SavedRuns.SavedMapRun` | src/model.rs:619-1165 | After any run the saved list represents the map that the updates of its calls give one after another, with unique ids |
| `SavedRuns.RestoreIgnoresOrder` | src/model.rs:761-804 | Restoring any permutation of the rows gives the same state or the same refusal |
| `SavedRows.UpsertIsUpdate` | src/model.rs:2252-2261 | Inserting or replacing a row sets exactly its key in the map, keeps ids unique and gives an ordered list |
| `SavedRows.RemoveIsRemoval` | src/model.rs:1144-1152 | Removing a row removes exactly its key and keeps the order |
| `SavedRows.SortKeepsRows` | src/model.rs:2244-2250 | Sorting by display name and id gives an ordered list with the same rows and the same map |
| `SavedRows.RowLeExactly` | src/model.rs:2244-2250 | Rows are compared by display name, and rows of one name by id |
| `Ordering.StringLeExactly` | src/model.rs:2244-2250 | Texts are compared by the first character in which they differ, a prefix coming first |
| `SavedRows.MapDeterminesOrderedRows` | src/model.rs:2244-2250 | An ordered list with unique ids is the only ordered list of its map |
| `SavedRows.FindRowIsLookup` | src/model.rs:2235-2242 | The search by id is the lookup in the map |
| `SavedRows.ReplaceKeepsOrder` | src/model.rs:630 | Replacing a row in place keeps the order exactly if it fits between its neighbours |
| `SavedRuns.OrderStep` | src/model.rs:619-1165 | From an ordered list, every call leaves an ordered list, if and only if it is not a health update that moves its row past a neighbour |
| `SavedRuns.OrderRun` | src/model.rs:619-1165 | The saved list is ordered throughout a run if and only if every health update of the run fits between its neighbours |
| `SavedRuns.KeptNamesRun` | src/model.rs:619-1165 | It is ordered throughout every run whose health updates keep display names |
| `SavedRuns.RenameBreaksOrder` | src/model.rs:619-639 | A concrete run after which the list is out of order |
| `RowUpdates.KeptNameFits` | src/model.rs:619-639 | A health update that keeps the display name never disturbs the order |
| `SavedRuns.SecretsStep` | src/model.rs:619-1082 | Saved rows stay free of session secrets, if and only if the call is not an accepted health update that carries one |
| `SavedRuns.SecretsRun` | src/model.rs:619-1082 | They are free of session secrets throughout a run if and only if no health update of the run stores one |
| `SavedRuns.HealthStoresSecret` | src/model.rs:619-639 | A concrete run after which a saved row holds a session secret |
| `Pending.PendingModelResolves` | src/model.rs:1009-1105 | In every state of the invariant, a pending model is confirmed if and only if Core accepts its id and the connected row carries no session secret; it can always be rolled back |
| `Pending.PendingModelNeverStuck` | src/model.rs:987-1091 | On every run in which no health update stores a session secret, a pending model that Core accepts is confirmed, and is then selected with nothing pending |
| `Pending.ConfirmationResolves` | src/model.rs:1083-1086 | After an accepted confirmation the model is selected, in the provider too, and nothing is pending |
| `Pending.RollbackKeepsModel` | src/model.rs:1094-1105 | After a rollback nothing is pending and selected model and provider are as before |
| `Pending.RefusedModelStaysPending` | src/model.rs:987-1091 | A concrete run whose pending model cannot be confirmed, because the request did not consult Core's rule |
| `Pending.SecretRowStaysPending` | src/model.rs:619-1091 | A concrete run whose pending model cannot be confirmed, because a health update stored a session secret in the connected row |
| `Pending.PendingDeletionResolves` | src/model.rs:1137-1179 | After any run from the default, a pending deletion can be confirmed and rolled back, for exactly the pending id |
| `Pending.DeletionSparesOthers` | src/model.rs:1151-1161 | A deletion keeps every pointer to another row, clears those to the deleted one, and keeps the live provider and its models |
| `Pending.PendingConnectionResolves` | src/model.rs:901-970 | A pending provider accepts its own normalised result with exactly the save outcomes that match, and there is one; the result exists exactly unless discovery found a requested model that Core refuses; it is rolled back for exactly the pending profile |
| `SavedRuns.RowsStep` | src/model.rs:619-1165 | A new id in the saved rows was brought by this accepted restore or remembered connection |
| `SavedRuns.NoResurrection` | src/model.rs:619-1165 | Over any run, an absent id stays absent unless an accepted restore or remembered connection brings it |
| `SavedRuns.DeletedStaysDeleted` | src/model.rs:1137-1165 | After a confirmed deletion in any reachable state, no model confirmation, health update or other call brings the id back by itself |
| `SavedRuns.StorageLossIsFinal` | src/model.rs:816-824 | After storage loss there are no rows and no save intent until an accepted restore |
| `SavedRuns.DefaultStep` | src/model.rs:761-1165 | The exact calls that make a profile the restart default or end that: only restores, remembered connections, its deletion and storage loss |
| `SavedRuns.DefaultProvenance` | src/model.rs:827-957 | Form selection, unsaved switches, failures, model changes and health updates never make a profile the restart default |
| `SavedRuns.DefaultPersists` | src/model.rs:827-957 | The restart default survives any run that does not delete it, choose another or lose storage |
| `Sessions.SessionProvenance` | src/model.rs:901-984 | In every reachable state the active provider's id and the models are those of the last accepted connection result |
| `Sessions.IntactRun` | src/model.rs:619-1165 | The whole live provider is the last connected profile, up to its selected model, throughout a run if and only if no health update of a saved row of its id replaces it |
| `Sessions.HealthReplacesProvider` | src/model.rs:630-637 | A concrete run in which a health update of a saved row replaces a live provider that was never saved |
| `Sessions.RequestNamesDiscoveredModel` | src/model.rs:1338-1380 | Every accepted request names a model of the last accepted connection result |
| `Exclusion.ExclusionStep` | src/model.rs:861-1523 | One call keeps "connecting exactly while a provider is pending, and at most one activity under way" if and only if the caller met the stated obligation |
| `Exclusion.ExclusionReachable` | src/model.rs:861-1523 | The exclusion holds at the end of every run from the default whose calls meet the obligation |
| `Exclusion.ExclusionRun` | src/model.rs:861-1523 | The exclusion holds throughout a run if and only if every call of the run meets the obligation |
| `Exclusion.ClearWhileConnecting` | src/model.rs:1198-1211 | A concrete run that breaks the exclusion |
| `Exclusion.SimpleDisciplineSuffices` | src/model.rs:1198-1523 | No unguarded status writer while connecting and stream traffic only during a stream is enough to meet the obligation throughout |
| `Exclusion.UnderWayBlocks` | src/model.rs:827-1409 | While something is under way every call that starts something is refused with the error that names it; only a pending model may be replaced by another |
| `Streaming.StreamStep` | src/model.rs:816-1523 | What each public call does to output, partial mark, usage, sequence and status of a stream |
| `Streaming.ResetStep` | src/model.rs:1198-1409 | A request, a document job and a clearing leave an empty stream, translating after the first two and idle after the last |
| `Streaming.EventsAlwaysOrdered` | src/model.rs:1462-1503 | With no obligation on the caller: until the next request, document job or clearing, the accepted events of any run start with Started, have no other, increase strictly in sequence, and the usage is that of the last completion |
| `Streaming.StreamedFollows` | src/model.rs:1412-1523 | One call keeps output and status in agreement with the accepted events if and only if it meets the stated obligation |
| `Streaming.StreamRefinement` | src/model.rs:1412-1523 | However events, cancellations, errors and all other public calls interleave: the output is the concatenation of the accepted deltas, and a terminal status comes from the last event and tells whether the output is partial, throughout the run, if and only if every call meets the obligation |
| `Streaming.StreamFromRequest` | src/model.rs:1338-1523 | The same for every run of public calls from an accepted request or document job to the next one |
| `Streaming.UndisturbedSuffices` | src/model.rs:816-1523 | No document call, no error record, no connection call after the end and no connection result without a request is enough to meet the obligation throughout |
| `Streaming.EventAcceptedExactly` | src/model.rs:1462-1478 | An event is accepted if and only if no terminal status is reached and the accepted events stay well ordered with it |
| `Streaming.TranslatingEntered` | src/model.rs:1453-1503 | A stream that does not translate comes to translate if and only if its first event is accepted, and not while it is being cancelled |
| `Streaming.NeverTranslatesAgain` | src/model.rs:1453-1523 | After its first event, a stream that has stopped translating never translates again, whatever is called before the next reset |
| `Streaming.StoppingRun` | src/model.rs:816-1523 | A stream that is being cancelled or has ended stays so throughout a run if and only if no call of the run takes it out |
| `Streaming.TerminalLeftExactly` | src/model.rs:816-1523 | One public call leaves a terminal status if and only if it is a stream error, a paused document, a provider failure, storage loss or matching connection failure with an active provider, or an accepted connection request or result |
| `Streaming.SingleTerminalExactly` | src/model.rs:816-1523 | At every point of a run of any public calls up to the next reset, with any event that may come next, at most one terminal event was accepted, if and only if none of those calls comes after the terminal event while sequence numbers are left |
| `Streaming.SingleTerminalFromRequest` | src/model.rs:1338-1523 | The same from any accepted request or document job |
| `Streaming.TwoCompletions` | src/model.rs:973-1516 | Concrete streams from any accepted request that accept two completions: one with a late stream error, one with a late provider failure and no stream error |
| `Documents.ClearForgetsWork` | src/model.rs:1198-1211 | After any translations, document jobs, errors and routing decisions, clearing gives the state that clearing at once would have given |
| `Documents.DocumentOutcome` | src/model.rs:1383-1450 | A document job ends with exactly its final text whatever progress it reported; output is partial unless complete or empty; only a failed job has an error; a new job can begin after any of the four endings |
| `Routing.Candidates.MoveRoutingProfileId` | src/model.rs:44-64 | The in-place move with saturating arithmetic exchanges the candidate with the one at its target, or refuses and leaves the list alone when that is outside |
| `Routing.Candidates.MoveRoutingProfileIdBefore` | src/model.rs:67-90 | The in-place drag carries the candidate before its target, or refuses and leaves the list alone |
| `Routing.MovedKeepsMultiset` | src/model.rs:44-64 | A keyboard move keeps exactly the same candidates |
| `Routing.MoveAcceptedExactly` | src/model.rs:44-64 | On any list a move is accepted if and only if the candidate is there and its target is in the list, and then exchanges exactly these two |
| `Routing.DragAcceptedExactly` | src/model.rs:67-90 | A drag is accepted if and only if it moves one candidate of the list to another |
| `Routing.MoveUndone` | src/model.rs:44-64 | A move changes only the two places it exchanges, and the opposite move undoes it |
| `Routing.MoveKeepsOthers` | src/model.rs:44-64 | A move keeps the relative order of all other candidates if and only if it goes at most one place |
| `Routing.DraggedPlacesBefore` | src/model.rs:67-90 | On any list a drag keeps the candidates and the relative order of all others and ends immediately before the target |
| `Routing.DragIsRepeatedSteps` | src/model.rs:44-90 | On distinct candidates a drag equals repeated single keyboard steps of the dragged one |
| `Routing.StepsReachEveryOrdering` | src/model.rs:44-64 | Accepted single keyboard steps turn any ordering into any other |
| `MoCatalog.FromMo` | src/localization.rs:15-95 | On arbitrary bytes the loop ends, reads nothing out of range and returns the last-wins merge of the independently decoded entries |
| `MoCatalog.DecodeEntry` | src/localization.rs:41-86 | One entry is skipped exactly if one of its descriptors or strings is out of range or its original has no context |
| `MoReading.ReadExactly` | src/localization.rs:172-180 | A word is read if and only if four bytes are left, and is the number with these base 256 digits, lowest first in little-endian files and last in the others |
| `MoReading.HeaderExactly` | src/localization.rs:17-39 | A file is read if and only if it has twenty bytes, one of the two magic numbers and the version zero |
| `MoReading.DescribedExactly` | src/localization.rs:41-78 | A string is read if and only if its descriptor and all its bytes are in the file, and is these bytes |
| `MoReading.EntryExactly` | src/localization.rs:73-86 | An entry is read if and only if both strings are, its context is what stands before the first separator, and its slots are the NUL-separated pieces of the translation |
| `MoReading.ParsedExactly` | src/localization.rs:15-95 | The catalog of any bytes holds for each context the slots of its last readable entry with text, and nothing without a header |
| `MoReading.EntryWithoutContext` | src/localization.rs:80-82 | Adding an entry whose original has no context, as header entries, changes nothing |
| `MoCatalog.DamageIsLocal` | src/localization.rs:40-93 | Two files whose bytes differ only in the descriptors and strings of one entry hold the same slots for every other context |
| `MoCatalog.ParserInvertsLayout` | src/localization.rs:15-95 | Any file that carries the entries, tables and strings placed anywhere and in either byte order, is read as their last-wins merge |
| `MoEncoder.EncoderFollowsLayout` | src/localization.rs:172-184 | What the writer produces carries the entries, as the word and slice readers see it |
| `MoEncoder.RoundTrip` | src/localization.rs:15-95 | Every catalog listed by encodable entries comes back exactly from its little-endian and its big-endian encoding |
| `MoEncoder.EmptyFirstSlot` | src/localization.rs:87-150 | A concrete file whose lookup is empty although the fallback is not |
| `Catalogs.MergedLookup` | src/localization.rs:87-92 | A context is present exactly if some entry of it has text, and the last such entry wins |
| `Catalogs.MergedOfListing` | src/localization.rs:87-92 | Entries that list a catalog merge to exactly that catalog |
| `Catalogs.DroppingIdsExactly` | src/localization.rs:87-114 | Dropping the entries with an empty identifier leaves the catalog as it is if and only if each of them that wins its context has the same text as the winner among the others |
| `Catalogs.IdsSufficeDistinct` | src/localization.rs:87-114 | With distinct contexts that is so if and only if every entry with text has an identifier |
| `Catalogs.GetIsEmpty` | src/localization.rs:145-150 | A lookup with a non-empty fallback is empty if and only if the last entry of the context has text but none in its first slot |
| `Catalogs.PluralNeverEmpty` | src/localization.rs:153-169 | A plural lookup with non-empty fallbacks is never empty, for any catalog, locale and count |
| `Catalogs.GetAnswers` | src/localization.rs:145-150 | A lookup answers with the first slot of the key, or with the fallback if the catalog does not hold it |
| `Catalogs.PluralAnswers` | src/localization.rs:153-169 | A plural lookup answers with the slot at the index, or the first one, or the singular for index zero and the plural otherwise, whichever first has text |
| `Catalogs.PluralIndexFollowsCatalog` | src/localization.rs:295-334 | The slot index is that of the rule which the catalog of the locale declares, if and only if it is not the count zero in Brazilian Portuguese; it is always a declared slot |
| `Escapes.ParsePoString` | src/localization.rs:195-220 | The loop unescapes the text between the quotes and keeps a dangling backslash; unquoted text is refused |
| `Escapes.RustString` | tools/check-localization-placeholders.py:67-84 | The loop unescapes the text between the quotes of the stripped value; unquoted text and a dangling backslash are refused |
| `Escapes.QuoteRoundTrip` | src/localization.rs:195-220 | Both readings give back any text from its escaped, quoted form, the Rust one with any padding |
| `Escapes.EveryLiteral` | src/localization.rs:195-220 | Every quoted text is made of plain and escaped characters and perhaps a dangling backslash; both readings give their meanings, only n, r and t standing for another character, and differ in the dangling one |
| `Escapes.OnlyQuotedTextIsRead` | tools/check-localization-placeholders.py:67-71 | The PO reading accepts exactly quoted text, the Rust reading only text quoted after stripping |
| `Escapes.DanglingExactly` | src/localization.rs:216-218 | An escape is unfinished if and only if the text ends in an odd number of backslashes |
| `Escapes.ReadingsAgree` | tools/check-localization-placeholders.py:67-84 | On text without surrounding whitespace both readings refuse the same unquoted inputs and agree otherwise, except that an odd number of final backslashes is refused by one and kept by the other |
| `PoCatalog.FromPo` | src/localization.rs:98-143 | The line loop returns what the entry-by-entry reading of the lines gives, on arbitrary text |
| `PoBlocks.ParsedByBlocks` | src/localization.rs:98-143 | On any text: blank lines separate blocks, each saying an entry if its literals, assigned to the keyword last read in the block, give a context, an identifier and a message that are there and the last two not empty; the last block needs no blank line after it |
| `PoBlocks.TrailingBlankLines` | src/localization.rs:105-116 | Blank lines appended to a text that ends a line never change its catalog |
| `PoBlocks.FinalNewlineOptional` | src/localization.rs:105 | Nor does a final newline, unless the text ends in a carriage return |
| `PoBlocks.LineEndsAlike` | src/localization.rs:105 | Printed entries are read alike with either kind of line end |
| `PoCatalog.ParserInvertsPrinter` | src/localization.rs:98-143 | Printed entries, their texts broken into any quoted chunks over several lines, are read as the last-wins merge of those that have an identifier |
| `PoBlocks.ParserInvertsTightText` | src/localization.rs:98-143 | The same for a printer with blank lines between entries only, with and without a newline at the end |
| `PoCatalog.OtherLinesAreIgnored` | src/localization.rs:117-140 | Comments, marks of fuzzy entries and any other line without keyword or quote change nothing, not even the current field |
| `PoCatalog.EmptyIdDropped` | src/localization.rs:106-114 | An entry whose identifier is empty, however it is broken into chunks, adds nothing to a textual catalog |
| `PoCatalog.FormsDisagree` | src/localization.rs:80-114 | A concrete entry that is found in the binary form and missing in the textual one |
| `PoCatalog.FormsAgree` | src/localization.rs:15-143 | For singular entries, the printed text and any binary file that carries them are the same catalog if and only if no entry without an identifier wins its context with a text of its own |
| `PoCatalog.EncodedFormsAgree` | src/localization.rs:15-150 | Under that condition the printed text and the encoded bytes answer every lookup alike |
| `CallScanner.SplitArguments` | tools/check-localization-placeholders.py:34-64 | The index loop returns what reading the text once, character by character, finds: the stripped arguments and the closing index |
| `CallScanner.ReadCharacter` | tools/check-localization-placeholders.py:44-62 | The loop's case analysis decides exactly whether a character closes the call, ends an argument or belongs to it |
| `CallPlaces.ArgumentsExactly` | tools/check-localization-placeholders.py:34-64 | On any source a call is found if and only if some parenthesis outside strings closes it, at the first that does, and its arguments are the stripped pieces between the commas at depth one outside strings |
| `CallScanner.ArgumentsPartitionTheCall` | tools/check-localization-placeholders.py:34-64 | On any source where a call is found, a closing parenthesis stands at the reported index and the unstripped arguments joined by commas are the text between the parentheses |
| `CallScanner.ScanNodes` | tools/check-localization-placeholders.py:44-63 | Scanning an argument with nested groups and literals reads exactly its text and comes out at the same depth |
| `CallScanner.CallRoundTrip` | tools/check-localization-placeholders.py:34-64 | For any printed call, each argument comes back stripped, with the closing index, whatever precedes and follows the call |
| `CallScanner.LiteralsRoundTrip` | tools/check-localization-placeholders.py:34-84 | Quoting any non-empty list of strings, with any padding, and splitting the call gives pieces that read back as exactly those strings |
| `OcrPages.RecognizePages` | src/ocr.rs:144-191 | The loop sorts by page number, skips pages without text, and stops at the first failure or exceeded limit |
| `OcrPages.RecognisedExactly` | src/ocr.rs:144-191 | The first image in page order with something wrong decides the error; otherwise the result is the page of every image with text, in order, or NoText if there is none |
| `OcrPages.CountRefused` | src/ocr.rs:151-156 | No image and more than 64 images are refused |
| `OcrPages.RecognisedPages` | src/ocr.rs:158-191 | A success loses and adds nothing: its pages are exactly the number and trimmed text of each image with text, and every image was recognised |
| `OcrPages.RecognitionBounds` | src/ocr.rs:144-191 | Returned pages are in page order, trimmed, not empty, together at most 4 MiB, at least one and at most one for each image |
| `OcrPages.OnlyTiesMatter` | src/ocr.rs:144-191 | Two directory listings that agree on the order of the images with the same page number give the same pages or the same failure |
| `OcrPages.ListingOrderIsIrrelevant` | src/ocr.rs:144-150 | With different page numbers the order of the directory listing does not matter |
| `OcrPages.PageNumberReadBack` | src/ocr.rs:237-239 | The number is read back from any name ending in a dash, zero padding and the number |
| `OcrPages.PageNumberExactly` | src/ocr.rs:237-239 | A name has a page number if and only if digits of a value that fits, after an optional plus sign, follow its last dash |
| `OcrJob.DocumentJobFromOcr` | src/file_import.rs:88-137 | The builder with saturating counters returns the job of all pages' parts, or refuses unusable pages and parts over the limit |
| `OcrJob.AddPage` | src/file_import.rs:103-126 | One page adds its marker and its non-empty lines, and index and byte count keep up |
| `OcrJob.JobAccounting` | src/file_import.rs:97-137 | Segments are numbered 0, 1, 2 and so on, there is one marker for each page, and the bytes counted with saturation are exactly those of all segments with their line endings and at most 4 MiB |
| `OcrJob.JobExactly` | src/file_import.rs:88-137 | The builder succeeds if and only if there are pages, all have a number and text, and their document has at most 4 MiB; the segments then spell out exactly that document, untranslated; each error has its exact condition |
| `OcrJob.JobDecodes` | src/file_import.rs:99-136 | Grouping a job's segments by kind recovers each page's number and exactly its non-empty lines |
| `OcrJob.JobSize` | src/file_import.rs:99-127 | The byte count is at most the sum over pages of text length, 13 and the digits of the page number |
| `OcrJob.PipelineBound` | src/ocr.rs:150-191 | On recognised pages the builder reports a bad structure exactly for a page numbered zero, its only other error is TooLarge, and that only if the allowance for the pages is over the limit |
| `OcrJob.PageZeroRefused` | src/file_import.rs:99-102 | A concrete page image numbered zero that is recognised and whose job is refused |

## Left out

- FromMo: UTF-8 decoding is a parameter; invalid UTF-8 in a file is whatever that parameter makes of it.
- SplitArguments: the opening index is not negative; callers take it from a match.
- RecognizePages: rendering, process limits, temporary directories and permissions; each recogniser result is an input.
- Core's provider adapters, document codecs, routing planner, storage and secret broker: not in this repository.
- The worker and the window (`src/worker.rs`, `src/main.rs`) and D-Bus (`src/secret_service.rs`): not part of this model.
- Diagnostics, labels, onboarding stages and error texts: formatting of values that the state already holds.
- `routing_mode_for_selection` and `ordered_routing_profile_ids`: short lookups that no modelled operation uses.
- The other localization checks and tools: scans of the source tree.
- Hash-set and tree-map internals: a catalog and a set of seen ids are a `map` and a `set`.
