# A verified model of the sticky-note board's change tracking

This project models, in Dafny, the core of a web application for boards of sticky notes joined by
connections. The model covers:

- **Change descriptors and their merge.** A pending change of a note or a connection is a Create,
  an Edit or a Delete. Two successive changes of one entity fold into one, cancel out, or
  conflict. The model gives each descriptor a meaning, as a partial map on the entity's state. It
  proves that folding is sound with respect to applying the two changes one after the other
  (`snapshot_merge.dfy`).
- **The snapshot.** This is the board's record of pending changes: two insertion-ordered maps,
  with push, shift, dirtiness and its `state` event, reset, and the raw form
  (`snapshot.dfy`, `ordered_maps.dfy`, `decimal.dfy`).
- **Descriptor builders.** These build a descriptor from a note or a connection
  (`note_snapshot.dfy`, `connection_snapshot.dfy`). Six older in-place editors update the same
  maps; the model shows they agree with pushing wherever a push does not conflict
  (`snapshot_editors.dfy`).
- **The undo/redo history.** It is a bounded list of named (backward, forward) snapshot pairs with
  a cursor. It has begin/end transactions, recording switched off during undo and redo, trimming
  to the limit, and the raw form. It is checked against the repository's history scenarios
  (`action_history.dfy`).
- **The document model.** A board, its notes and their connections are objects that refer to one
  another. Their methods change them and record every change (`board.dfy`). Alongside it are the
  typed event listener with deferred removal (`event_listeners.dfy`), the rectangles
  (`rects.dfy`), the settings store (`settings.dfy`), the title directive
  (`title_directive.dfy`) and the keyboard state (`keyboard.dfy`).
- **The server side.** This covers the PHP validator combinators and request helpers
  (`validation.dfy`, `session.dfy`, `php_values.dfy`). It also covers the board update endpoint,
  which applies a delta of note and connection changes to the tables in one transaction
  (`board_update.dfy`).

Code that works by changing state step by step is modelled by classes with `modifies` clauses:
the snapshot, the history, the board and its notes and connections, the listener list, the
settings store, the title directive, the keyboard state, the rectangles, and the in-place editors.
Each method is proved to leave the state that a specification function of the old state
describes. The properties are proved about those functions.

In server/common/session.php, `get_request`, `vis_string` and `vis_number` behave as their
namesakes in server/common/validation.php, and are modelled once, in `Validation`. Its
`require_method` (server/common/session.php:146-155) differs: a listed method passes with no value
returned, where server/common/validation.php:215-224 returns the method. It is modelled by
`SessionHelpers.RequireMethodSession`.

## Model

| member | source | states |
|---|---|---|
| SnapshotMerge.Merge | src/snapshot/Snapshot.ts:18-68 | two absent changes cancel out, and one absent change gives the other; a conflict occurs exactly when the later change's precondition on existence disagrees with what the earlier one leaves; Create then Delete cancels; otherwise the result keeps the earlier change's precondition and the later change's outcome, and writes the union of the fields with the later values winning (nothing for a Delete) |
| SnapshotMerge.Apply | src/snapshot/Snapshot.ts:4-16 | a change applies exactly when the entity's existence matches what the change expects, and leaves the entity existing exactly when the change creates or edits it |
| SnapshotMerge.MergeRefinesSequence | src/snapshot/Snapshot.ts:18-68 | wherever applying the earlier change and then the later one succeeds, the merged change gives the same entity; apart from a Create cancelled by a Delete, it applies exactly where the pair does |
| SnapshotMerge.ConflictNeverApplies | src/snapshot/Snapshot.ts:59-67 | a conflict means no entity state lets both changes apply in order |
| SnapshotMerge.NoConflictApplies | src/snapshot/Snapshot.ts:28-66 | two changes that do not conflict both apply to some entity state |
| SnapshotMerge.SetEntity | src/snapshot/Snapshot.ts:117-119 | replacing the entity under one key leaves every other key's entity as it was |
| SnapshotMerge.ApplyAll | src/snapshot/Snapshot.ts:99-100 | applying a map of pending changes gives each key's entity the result of its own change, and keeps the entities without one |
| SnapshotMerge.EntityWithin | src/snapshot/Snapshot.ts:71-76 | each entity of a document whose fields are all known has only known fields |
| SnapshotMerge.PushReplays | src/snapshot/Snapshot.ts:108-138 | when the pending map takes a document to another and a later change applies there, pushing that change gives a map that takes the first document straight to the result |
| SnapshotMerge.ShiftReplays | src/snapshot/Snapshot.ts:140-170 | when an earlier change applies to a document and the pending map applies after it, shifting that change in front gives a map that takes the document straight to where the two lead |
| SnapshotMerge.DocExt | src/snapshot/Snapshot.ts:99-100 | two documents with the same entity under every key are equal |
| SnapshotMerge.ForwardReplays | src/snapshot/Snapshot.ts:108-138 | pushing the forward changes of a run of edits, oldest first, gives a map that takes the first document to the last, which is what redo replays |
| SnapshotMerge.BackwardRestores | src/snapshot/Snapshot.ts:140-170 | shifting the backward changes of a run of edits, oldest first, gives a map that takes the last document back to the first, which is what undo replays |
| SnapshotMerge.MergePreservesFull | src/snapshot/Snapshot.ts:29-39 | merging changes whose Creates carry every field stores only such changes |
| SnapshotMerge.Overlay | src/snapshot/Snapshot.ts:32-38 | overlaying an edit's fields on a create's payload gives the payload with those fields replaced |
| OrderedMaps.OrderedMap.Get | src/snapshot/Snapshot.ts:110 | get finds a value exactly for the keys present, and it is the stored one |
| OrderedMaps.OrderedMap.Set | src/snapshot/Snapshot.ts:119 | set stores the value; a new key goes last in insertion order, and an existing key keeps its place |
| OrderedMaps.OrderedMap.SetTwice | src/snapshot/Snapshot.ts:119 | setting a key twice is setting it to the second value |
| OrderedMaps.OrderedMap.SetSame | src/snapshot/Snapshot.ts:119 | setting a key to the value it holds changes nothing |
| OrderedMaps.OrderedMap.Remove | src/snapshot/Snapshot.ts:117 | delete drops exactly that key from the entries and from the key order, the other keys keeping their order; dropping an absent key changes nothing |
| OrderedMaps.OrderedMap.Values | src/snapshot/Snapshot.ts:202-207 | values() lists one value per key, in insertion order |
| OrderedMaps.Empty | src/snapshot/Snapshot.ts:99-100 | a new map is well formed and empty |
| OrderedMaps.Without | src/snapshot/Snapshot.ts:117 | dropping a key from the key order keeps every other key as often as it occurred and removes every occurrence of the key, without creating repeats |
| OrderedMaps.WithoutAppend | src/snapshot/Snapshot.ts:117 | dropping a key from a concatenation is dropping it from each part, so the remaining keys keep their relative order |
| OrderedMaps.LoadValues | src/snapshot/Snapshot.ts:196-219 | setting each value of a map under its own key, in order, into an empty map rebuilds the map, order included |
| OrderedMaps.LoadAll | src/snapshot/Snapshot.ts:211-219 | loading values under distinct keys they determine gives a map of exactly those keys, in that order |
| OrderedMaps.SetNewKey | src/snapshot/Snapshot.ts:213 | setting a new key to its reference value extends a map that agrees with the reference |
| OrderedMaps.ValueList | src/snapshot/Snapshot.ts:202-207 | the loop collects the values in insertion order |
| OrderedMaps.LoadInto | src/snapshot/Snapshot.ts:212-217 | the loop sets each value under its key, in order |
| Snapshots.NoteKey | src/snapshot/Snapshot.ts:188-190 | a note's key is its id in decimal, never empty |
| Snapshots.PortChar | src/snapshot/Snapshot.ts:192-194 | a port is shown as one digit, its enum number |
| Snapshots.NoteKeyInjective | src/snapshot/Snapshot.ts:188-190 | distinct note ids give distinct keys |
| Snapshots.NoSeparator | src/snapshot/Snapshot.ts:192-194 | a number's decimal text holds neither ',' nor '>' |
| Snapshots.FirstSeparator | src/snapshot/Snapshot.ts:192-194 | in a key part followed by a separator, the first such separator ends the part |
| Snapshots.SplitAt | src/snapshot/Snapshot.ts:192-194 | two keys that split at their first separator split into equal parts |
| Snapshots.ConnectionKeyInjective | src/snapshot/Snapshot.ts:192-194 | distinct (a, pa, b, pb) give distinct keys |
| Snapshots.KeyTailInjective | src/snapshot/Snapshot.ts:192-194 | the part of a key after the first comma determines pa, b and pb |
| Snapshots.PortCharInjective | src/snapshot/Snapshot.ts:192-194 | distinct ports give distinct digits |
| Snapshots.ConnectionSetValid | src/snapshot/Snapshot.ts:135 | storing a connection change under its own key keeps a snapshot well formed |
| Snapshots.ConnectionRemoveValid | src/snapshot/Snapshot.ts:133 | dropping a connection change keeps a snapshot well formed |
| Snapshots.EmptySnapshot | src/snapshot/Snapshot.ts:98-106 | a new snapshot is well formed and clean |
| Snapshots.StoreResult | src/snapshot/Snapshot.ts:113-120 | a conflict keeps the map as it was; a cancelled merge deletes the key; a result is set under it |
| Snapshots.PushNote | src/snapshot/Snapshot.ts:108-122 | pushing a note change stores merge(old, new) under the note's key and leaves the connections alone |
| Snapshots.ShiftNote | src/snapshot/Snapshot.ts:140-154 | shifting a note change stores merge(new, old) under the note's key and leaves the connections alone |
| Snapshots.PushConnection | src/snapshot/Snapshot.ts:124-138 | pushing a connection change stores merge(old, new) under its key and leaves the notes alone |
| Snapshots.ShiftConnection | src/snapshot/Snapshot.ts:156-170 | shifting a connection change stores merge(new, old) under its key and leaves the notes alone |
| Snapshots.DirtyIffPending | src/snapshot/Snapshot.ts:178-180 | a snapshot is dirty exactly when some change is pending |
| Snapshots.ConflictKeepsSnapshot | src/snapshot/Snapshot.ts:113-115 | a push or shift that conflicts leaves the snapshot exactly as it was |
| Snapshots.LoadRaw | src/snapshot/Snapshot.ts:211-219 | loading keeps the snapshot well formed and its board |
| Snapshots.LoadKeyed | src/snapshot/Snapshot.ts:211-219 | loading keeps every change under its own key |
| Snapshots.RawRoundTrip | src/snapshot/Snapshot.ts:196-219 | loading toRaw's output into a new snapshot of the same board rebuilds the same maps, insertion order included |
| Snapshots.Snapshot.constructor | src/snapshot/Snapshot.ts:98-106 | a new snapshot holds no changes and has emitted nothing |
| Snapshots.Snapshot.Dirty | src/snapshot/Snapshot.ts:178-180 | the getter is the snapshot's dirtiness |
| Snapshots.Snapshot.CheckDirty | src/snapshot/Snapshot.ts:172-176 | the new dirtiness is emitted exactly when it differs from the old one, and the maps are untouched |
| Snapshots.Snapshot.PushNoteAction | src/snapshot/Snapshot.ts:108-122 | the snapshot becomes PushNote of the old one; the answer is false exactly when the merge conflicts (where the source warns); state is emitted only when dirtiness flips |
| Snapshots.Snapshot.PushConnectionAction | src/snapshot/Snapshot.ts:124-138 | the snapshot becomes PushConnection of the old one; false exactly on a conflict; state is emitted only when dirtiness flips |
| Snapshots.Snapshot.ShiftNoteAction | src/snapshot/Snapshot.ts:140-154 | the snapshot becomes ShiftNote of the old one; false exactly on a conflict; state is emitted only when dirtiness flips |
| Snapshots.Snapshot.ShiftConnectionAction | src/snapshot/Snapshot.ts:156-170 | the snapshot becomes ShiftConnection of the old one; false exactly on a conflict; state is emitted only when dirtiness flips |
| Snapshots.Snapshot.Reset | src/snapshot/Snapshot.ts:182-186 | reset empties both maps and emits false, even when the snapshot was clean |
| Snapshots.Snapshot.ToRaw | src/snapshot/Snapshot.ts:196-209 | toRaw lists the board id and both maps' changes in insertion order |
| Snapshots.Snapshot.FromRaw | src/snapshot/Snapshot.ts:211-219 | fromRaw sets each listed change under its own key, after what is there, and emits nothing |
| NoteSnapshots.ToInt32 | src/snapshot/NoteSnapshot.ts:11 | `n \| 0` is the signed 32-bit integer congruent to n, and n itself when it fits |
| NoteSnapshots.ImgValue | src/snapshot/NoteSnapshot.ts:11 | a note without an image records 0, and one with an image records its id |
| NoteSnapshots.Payload | src/snapshot/NoteSnapshot.ts:4-13 | a note's payload holds every field with the note's current value |
| NoteSnapshots.Create | src/snapshot/NoteSnapshot.ts:4-13 | create is a Create with the note's id and every field, each read from the note |
| NoteSnapshots.Edit | src/snapshot/NoteSnapshot.ts:15-37 | edit is an Edit with the note's id and exactly the listed fields, each read from the note |
| NoteSnapshots.Delete | src/snapshot/NoteSnapshot.ts:39-44 | delete is a Delete with the note's id and nothing else |
| NoteSnapshots.BuildersWellFormed | src/snapshot/NoteSnapshot.ts:4-44 | all three descriptors of a note map to the note's key, and the Create carries the full payload |
| NoteSnapshots.CreateDeleteInverse | src/snapshot/NoteSnapshot.ts:4-44 | create brings the note into being with its payload, and delete removes exactly that |
| NoteSnapshots.EditPairInverse | src/snapshot/NoteSnapshot.ts:15-37 | for a change confined to the listed fields, the edit read after it redoes it and the edit read before it undoes it |
| NoteSnapshots.OverlayPayload | src/snapshot/NoteSnapshot.ts:15-37 | overlaying an edit on an older payload that differs only in the listed fields gives the current payload |
| ConnectionSnapshots.GetId | src/snapshot/ConnectionSnapshot.ts:4-11 | getId is (a, pa, b, pb) in the connection's stored order |
| ConnectionSnapshots.SplitWords | src/snapshot/ConnectionSnapshot.ts:19 | cutting at spaces always gives at least one word |
| ConnectionSnapshots.SplitWordsAppend | src/snapshot/ConnectionSnapshot.ts:19 | a run without spaces joins the word being read |
| ConnectionSnapshots.NoSpace | src/snapshot/ConnectionSnapshot.ts:19 | a number's decimal text has no space |
| ConnectionSnapshots.Words | src/snapshot/ConnectionSnapshot.ts:19 | each number of the pattern becomes its decimal text |
| ConnectionSnapshots.SplitJoin | src/snapshot/ConnectionSnapshot.ts:19 | cutting the joined pattern at spaces gives the numbers' decimal texts |
| ConnectionSnapshots.SplitSingle | src/snapshot/ConnectionSnapshot.ts:19 | a word without spaces splits into itself |
| ConnectionSnapshots.SplitCons | src/snapshot/ConnectionSnapshot.ts:19 | a word, a space and the rest split into the word followed by the rest's words |
| ConnectionSnapshots.DashRoundTrip | src/snapshot/ConnectionSnapshot.ts:19 | the space-joined dash string loses nothing: reading it back gives the pattern |
| ConnectionSnapshots.Payload | src/snapshot/ConnectionSnapshot.ts:13-21 | a connection's payload holds color, size and the joined dash |
| ConnectionSnapshots.Create | src/snapshot/ConnectionSnapshot.ts:13-21 | create is a Create with the identity and every field, the dash joined with single spaces |
| ConnectionSnapshots.Edit | src/snapshot/ConnectionSnapshot.ts:23-42 | edit is an Edit with the identity and exactly the listed fields, each read from the connection |
| ConnectionSnapshots.Delete | src/snapshot/ConnectionSnapshot.ts:44-49 | delete is a Delete with the identity and nothing else |
| ConnectionSnapshots.BuildersWellFormed | src/snapshot/ConnectionSnapshot.ts:4-49 | all descriptors of a connection share its key, and the Create carries the full payload |
| ConnectionSnapshots.CreateDeleteInverse | src/snapshot/ConnectionSnapshot.ts:13-49 | create brings the connection into being with its payload, and delete removes exactly that |
| ConnectionSnapshots.EditPairInverse | src/snapshot/ConnectionSnapshot.ts:23-42 | the (reverse, forward) edits of a change confined to the listed fields undo and redo each other |
| ConnectionSnapshots.OverlayPayload | src/snapshot/ConnectionSnapshot.ts:23-42 | overlaying an edit on an older payload that differs only in the listed fields gives the current payload |
| SnapshotEditors.CreateEntry | src/snapshot/SACreateNote.ts:11-20 | the full payload replaces whatever was stored under the key, as a Create when nothing was stored and an Edit otherwise; every other entry and the key order are kept |
| SnapshotEditors.EditEntry | src/snapshot/SAEditNote.ts:12-37 | the entry under the key becomes an Edit with only the id when absent, a stored Delete is retyped to Edit, a stored Create stays Create; the listed values overwrite its fields and the rest are kept; other entries are untouched |
| SnapshotEditors.Retyped | src/snapshot/SAEditNote.ts:13-21 | the entry the edit starts from is never a Delete |
| SnapshotEditors.Overlay | src/snapshot/SAEditNote.ts:22-37 | setting the listed values keeps the entry's type and id, and overwrites exactly those fields |
| SnapshotEditors.OverlayOneMore | src/snapshot/SAEditNote.ts:22-37 | each turn of the field loop sets one more listed value on the entry |
| SnapshotEditors.SetField | src/snapshot/SAEditNote.ts:25 | assigning one field keeps the entry's type and id |
| SnapshotEditors.DeleteEntry | src/snapshot/SADeleteNote.ts:11-26 | a stored Create is removed; otherwise the entry under the key becomes a data-free Delete, inserted with the id when absent; other entries are untouched |
| SnapshotEditors.CreateAgreesWithPush | src/snapshot/SACreateNote.ts:11-20 | wherever pushing a Create would not conflict, the in-place create leaves what the push leaves |
| SnapshotEditors.EditAgreesWithPush | src/snapshot/SAEditNote.ts:12-37 | wherever pushing an Edit would not conflict, the in-place edit leaves what the push leaves |
| SnapshotEditors.DeleteAgreesWithPush | src/snapshot/SADeleteNote.ts:11-26 | wherever pushing a Delete would not conflict, the in-place delete leaves what the push leaves |
| SnapshotEditors.ListedNoteValues | src/snapshot/SAEditNote.ts:22-37 | exactly the listed note fields, each with the note's current value, and 0 for a missing image |
| SnapshotEditors.StoredNotePayload | src/snapshot/SACreateNote.ts:13-20 | the written payload holds every note field with the note's current value, and 0 for a missing image |
| SnapshotEditors.StoredNoteValuesMatchBuilders | src/snapshot/SACreateNote.ts:19 | for an image id that fits in 32 bits, the in-place editors write what the descriptor builders record |
| SnapshotEditors.ApplyCreateNote | src/snapshot/SACreateNote.ts:9-21 | apply writes the note's full payload under its key, as CreateEntry says, and changes nothing else in the snapshot |
| SnapshotEditors.SetNoteFields | src/snapshot/SAEditNote.ts:22-37 | the field loop sets each listed field on the stored entry |
| SnapshotEditors.ApplyEditNote | src/snapshot/SAEditNote.ts:10-38 | apply leaves the note entry that EditEntry describes, and changes nothing else in the snapshot |
| SnapshotEditors.ApplyDeleteNote | src/snapshot/SADeleteNote.ts:9-27 | apply leaves the note entry absent or a data-free Delete, as DeleteEntry says, and changes nothing else |
| SnapshotEditors.ListedConnectionValues | src/snapshot/SAEditConnection.ts:25-37 | exactly the listed connection fields with their current values, the dash joined by spaces |
| SnapshotEditors.StoredConnectionPayload | src/snapshot/SACreateConnection.ts:13-22 | the written payload holds color, size and the space-joined dash |
| SnapshotEditors.ConnectionValuesMatchBuilders | src/snapshot/SACreateConnection.ts:19-21 | the connection editors write exactly what the descriptor builders record |
| SnapshotEditors.ApplyCreateConnection | src/snapshot/SACreateConnection.ts:9-23 | apply writes the identity and full payload under the connection's key, as CreateEntry says, and changes nothing else |
| SnapshotEditors.SetConnectionFields | src/snapshot/SAEditConnection.ts:25-37 | the field loop sets each listed field on the stored entry |
| SnapshotEditors.ApplyEditConnection | src/snapshot/SAEditConnection.ts:10-38 | apply leaves the connection entry that EditEntry describes, and changes nothing else |
| SnapshotEditors.ApplyDeleteConnection | src/snapshot/SADeleteConnection.ts:9-29 | apply leaves the connection entry absent or a data-free Delete, as DeleteEntry says, and changes nothing else |
| Validation.StrTrSingle | server/common/validation.php:187-189 | strtr with one pair replaces each occurrence of the pattern, scanning left to right |
| Validation.NamedRequired | server/common/validation.php:187-189 | the default "required" message names the key it is about |
| Validation.Required | server/common/validation.php:93-106 | the rule fails exactly on null (a missing key), with the given or the default message, and never stops or throws |
| Validation.Optional | server/common/validation.php:108-115 | the rule never fails, and it stops the key's remaining rules exactly when the value is null |
| Validation.IsString | server/common/validation.php:31-44 | the rule passes exactly the strings, and fails on every other value |
| Validation.IsNumber | server/common/validation.php:61-74 | the rule passes exactly what is_numeric accepts |
| Validation.IsHexAsWritten | server/common/validation.php:46-59 | the rule as written: it throws on values with no string form, and passes exactly the texts the pattern `/^[0-9A-Fa-f]*$/` matches, where `$` also matches before a final newline |
| Validation.IsHex | server/common/validation.php:46-59 | the intended rule: it passes exactly the values whose text is made only of hex digits, including "" and null, and throws exactly where a value has no text |
| Validation.HexAcceptsNewline | server/common/validation.php:48 | "abcde\n" passes the rule as written but fails the intended one |
| Validation.InEnum | server/common/validation.php:76-91 | the rule passes exactly the values strictly equal to a listed one |
| Validation.ExactLength | server/common/validation.php:117-135 | the rule passes exactly when strlen equals the bound, and throws where strlen would |
| Validation.MinLength | server/common/validation.php:137-155 | the rule passes exactly when strlen is at least the bound |
| Validation.MaxLength | server/common/validation.php:157-175 | the rule passes exactly when strlen is at most the bound |
| Validation.CheckKeyDecisive | server/common/validation.php:183-198 | a key's verdict is decided by its first rule that does not simply pass: its error, its throw, or a stop; later rules are never consulted |
| Validation.CheckRules | server/common/validation.php:183-198 | the inner loop over one key's rules computes the key's verdict |
| Validation.Validate | server/common/validation.php:177-208 | the loop over all keys returns the validated array, or the errors answered with 400, or the throw |
| Validation.Unthrown | server/common/validation.php:182-199 | once a rule throws, no later key changes the outcome |
| Validation.ValidatedRead | server/common/validation.php:184-195 | every validated entry holds the input's value for that key, or null when the key is missing |
| Validation.ValidatedNamed | server/common/validation.php:182-195 | every validated key is a key of the rules |
| Validation.ValidatedComplete | server/common/validation.php:182-199 | without errors, every key that has at least one rule is validated |
| Validation.FirstErrorKept | server/common/validation.php:186-191 | a key has an error exactly when one of its rules fails before a stop, and the kept message is the first failure's, with %name% replaced by the key |
| Validation.ErrorsFromKeys | server/common/validation.php:186-191 | only keys of the rules receive errors |
| Validation.OptionalAbsent | server/common/validation.php:192-195 | a missing key led by optional enters the result as null without an error |
| Validation.TrimmedPairs | server/common/validation.php:6-11 | each GET or POST string value is trimmed and keeps its key and position |
| Validation.RequestSpec | server/common/validation.php:3-29 | get_request ends in a TypeError exactly when a GET or POST field is an array, whatever the body; otherwise it rejects a malformed JSON body exactly when the content type is JSON and the body does not decode; a merged request is an array |
| Validation.AbsorbedRead | server/common/validation.php:6-26 | after the writes, a key reads as its last written value, and any other key keeps its old value |
| Validation.RequestPrecedence | server/common/validation.php:3-29 | a key takes its value from the JSON body, else from FILES, else from POST, else from GET (the last two trimmed), else null |
| Validation.Absorb | server/common/validation.php:12-14 | the FILES loop writes each pair in order |
| Validation.AbsorbTrimmed | server/common/validation.php:6-11 | the GET and POST loops write each trimmed value in order, and fail exactly when some field is an array, on which trim throws |
| Validation.GetRequest | server/common/validation.php:3-29 | the merged request; a malformed JSON body (answered with 400); or the TypeError of an array-valued GET or POST field, as RequestSpec describes |
| Validation.ValidateRequest | server/common/validation.php:210-213 | None exactly for a malformed body; a crash when a GET or POST field is an array; otherwise the outcome of validate over the merged request |
| Validation.RequireMethod | server/common/validation.php:215-224 | it returns the request's method exactly when that method is listed; otherwise None, answered with 405 |
| SessionHelpers.RequireMethodSession | server/common/session.php:146-155 | the older require_method lets the request pass exactly when its method is listed, returning no value; otherwise 405 |
| SessionHelpers.RequireMethodPost | server/common/session.php:157-160 | exactly a POST request passes |
| SessionHelpers.RequireMethodGet | server/common/session.php:162-165 | exactly a GET request passes |
| Validation.OptionalUser | server/common/validation.php:254-265 | a user id that is not PHP-empty is kept; otherwise the session's user id is used, or 0 when the session has none |
| Validation.OptionalUserIdempotent | server/common/validation.php:254-265 | calling optional_user a second time changes nothing |
| SessionHelpers.RequiredNonEmpty | server/common/session.php:85-98 | the older required fails exactly on PHP-empty values: null, false, 0, 0.0, "", "0" and the empty array |
| SessionHelpers.RequiredStricter | server/common/session.php:85-98 | the older required rejects "0", which validation.php's accepts, and rejects everything that one rejects |
| SessionHelpers.MinLengthRequired | server/common/session.php:100-114 | the rule passes exactly when strlen is at least the bound, and its message is the fixed "required" text |
| SessionHelpers.ValidateRequestOld | server/common/session.php:116-144 | the older validate_request rejects a malformed body with 400, crashes with 500 on an array-valued GET or POST field, and otherwise gives validate's verdict over the merged request, leaving the status at 200 even on errors |
| SessionHelpers.Spelled | server/common/session.php:214-223 | the draws spell a string of the same length made of alphabet characters |
| SessionHelpers.GenerateRandom | server/common/session.php:214-223 | the result has exactly `len` characters (none for a negative length), each from the 62-character alphabet, spelled by the draws in order |
| SessionHelpers.Draws | server/common/session.php:214-223 | for every string of alphabet characters there are in-range draws that pick exactly those characters |
| SessionHelpers.EveryStringPossible | server/common/session.php:214-223 | every string of alphabet characters is a possible result of generate_random |
| BoardUpdate.ImageOf | server/api/board/update.php:76 | the stored image is NULL exactly when the given image is null or loosely equal to 0 |
| BoardUpdate.DeleteNotes | server/api/board/update.php:151-156 | no row of that note on the board remains, every other row is kept, and no row is added |
| BoardUpdate.EditNote | server/api/board/update.php:57-80 | the statement fails exactly when neither a full position, nor the text, nor the image is given; otherwise rows not of the note are kept, and on each row of the note x and y are set only when both are given, text when given, the image when given (0 as NULL), and every other column is kept |
| BoardUpdate.NoteAction | server/api/board/update.php:137-157 | a note's switch never touches the connections, and stops the request only with a failure |
| BoardUpdate.DeleteConns | server/api/board/update.php:190-198 | no row of that connection on the board remains, every other row is kept, and no row is added |
| BoardUpdate.EditConn | server/api/board/update.php:82-107 | the statement fails exactly when none of color, size and dash is given; otherwise rows the item does not name are kept, and on each named row color is set to the colour's text, size and dash are set, each only when given, and every other column is kept |
| BoardUpdate.EditedImageZeroIsNull | server/api/board/update.php:75-77 | an edit giving image 0 succeeds and stores NULL for the image of each row of the note |
| BoardUpdate.NumericColorStored | server/api/board/update.php:176-185 | a colour given as the number 123456, whole or as 123456.0, passes the colour rules through its text "123456", and a created connection stores that text |
| BoardUpdate.SixDigits | server/api/board/update.php:182 | the decimal text PHP gives 123456 is "123456" |
| BoardUpdate.ConnAction | server/api/board/update.php:171-199 | a connection's step never touches the notes, and stops the request only with a failure |
| BoardUpdate.Database.ApplyItems | server/api/board/update.php:128-158 | each foreach loop validates and applies the items in order, stopping at the first item that ends the request |
| BoardUpdate.Database.Update | server/api/board/update.php:6-233 | the endpoint's response and the tables it leaves are those of the request's specification. The endpoint uses the intended hex test (`IsHex`, `AllHex`) for the colour and the board id, not vis_hex as written; the difference is under Findings |
| BoardUpdate.Database.Transaction | server/api/board/update.php:127-233 | the transaction runs the note loop, then the connection loop, then the dangling check, and commits or rolls back as its specification says |
| BoardUpdate.StoppedStays | server/api/board/update.php:128-200 | once an item ends the request, the later items change nothing |
| BoardUpdate.RollbackUnlessCommitted | server/api/board/update.php:202-233 | every response except a commit leaves the tables as they were: wrong method, non-JSON, malformed or invalid input, unknown board, a failed statement, or a dangling connection |
| BoardUpdate.CommittedHasNoDangling | server/api/board/update.php:202-221 | after a commit, every connection of the board has both of its notes on the board |
| BoardUpdate.FoldNeverStopsCommitted | server/api/board/update.php:128-200 | a loop whose steps never stop with a commit never stops with one |
| BoardUpdate.NoteStepFrame | server/api/board/update.php:128-158 | a note item leaves the connections alone, and stops the request only with a failure |
| BoardUpdate.ConnStepFrame | server/api/board/update.php:160-200 | a connection item leaves the notes alone, and stops the request only with a failure |
| BoardUpdate.FoldKeepsNotes | server/api/board/update.php:160-200 | the connection loop as a whole keeps the notes table |
| BoardUpdate.FoldKeepsConns | server/api/board/update.php:128-158 | the note loop as a whole keeps the connections table |
| BoardUpdate.NotesBeforeConnections | server/api/board/update.php:127-200 | a committed request applies every note change before any connection change, and the note loop leaves the connections alone |
| BoardUpdate.OutOfOrderRefused | server/api/board/update.php:171-173 | a connection with a > b is refused with "Invalid input format", whatever its type |
| BoardUpdate.UnknownTypeIgnored | server/api/board/update.php:137-157 | a note whose type is not 0, 1 or 2 is skipped without a change |
| BoardUpdate.CreatedImageZeroIsNull | server/api/board/update.php:138-147 | a created note with image 0 or none is appended with a NULL image |
| BoardUpdate.HalfPositionNotWritten | server/api/board/update.php:64-69 | an edit that gives x without y writes neither |
| BoardUpdate.DeleteRemovesNote | server/api/board/update.php:151-156 | a delete leaves no row of that note on the board and keeps every other row |
| BoardUpdate.ColorNewlineAsWritten | server/api/board/update.php:167 | a color of five hex digits and a newline passes the color rules as written, and the intended rules reject it |
| SettingsStore.MakeKey | src/utils/Settings.ts:7-12 | a key keeps its names; a value default becomes a thunk returning that value, and a function default is kept as the thunk |
| SettingsStore.KeyGroup.SubGroup | src/utils/Settings.ts:21-23 | a sub-group's names are the group's names followed by the new name |
| SettingsStore.KeyGroup.MakeKeyIn | src/utils/Settings.ts:25-27 | a key made in a group has the sub-group's path and wraps a value default as a constant thunk |
| SettingsStore.PathOf | src/utils/Settings.ts:50-58 | the walk visits the key's names; a key without names uses the property "undefined" |
| SettingsStore.Put | src/utils/Settings.ts:65-78 | storing adds the path's first name at the top and keeps every other top-level entry |
| SettingsStore.GetAfterPut | src/utils/Settings.ts:47-78 | reading a path after storing a value there gives the value back |
| SettingsStore.PutKeepsDisjoint | src/utils/Settings.ts:65-78 | storing under one path leaves every path that branches off it elsewhere as it was |
| SettingsStore.ChainLookup | src/utils/Settings.ts:47-63 | walking a whole chain of objects reaches the last name's object, and reading there is the lookup |
| SettingsStore.ChainBlocked | src/utils/Settings.ts:50-56 | a walk that meets a non-object before the last name fails as a whole |
| SettingsStore.ChainPut | src/utils/Settings.ts:65-78 | writing the value into the leaf object updates every object on the path, as storing along the whole path does |
| SettingsStore.Settings.Walk | src/utils/Settings.ts:48-56 | the walk's loop yields one object per name, creating the missing ones, and fails exactly when a name before the last holds a non-object |
| SettingsStore.Settings.Rebuild | src/utils/Settings.ts:65-78 | the write at the end of the walk stores the value under the path |
| SettingsStore.Settings.Get | src/utils/Settings.ts:47-63 | get returns the stored value and leaves the store alone when the value is present; otherwise it stores the key's default and returns it; a blocked walk fails with no change |
| SettingsStore.Settings.Set | src/utils/Settings.ts:65-78 | set stores the value under the key's path, creating missing objects, and returns it; a blocked walk fails with no change |
| SettingsStore.Settings.Reset | src/utils/Settings.ts:80-82 | reset stores the key's default and returns it, as set with the default does |
| SettingsStore.GetTwice | src/utils/Settings.ts:58-62 | after the default was stored by one get, a second get finds that default |
| TitleDirectives.FindIndex | src/utils/TitleDirective.ts:40 | the index of the element's first entry, or -1 exactly when the element has no entry |
| TitleDirectives.SpliceOne | src/utils/TitleDirective.ts:41 | splice(i, 1) removes entry i for an index in range, removes the last entry for -1, and removes nothing past the end |
| TitleDirectives.Unmounted | src/utils/TitleDirective.ts:39-47 | with the lookup guarded, an element without an entry changes neither the stack nor the title; otherwise exactly one entry goes |
| TitleDirectives.UnknownUnmountDropsTop | src/utils/TitleDirective.ts:40-41 | as written, unmounting an element that has no entry drops the top entry; the guarded version keeps the stack |
| TitleDirectives.UnmountShowsTop | src/utils/TitleDirective.ts:42-46 | unmounting keeps the document showing the top entry's title, and the empty title once the last entry is gone |
| TitleDirectives.UnmountRemovesEntry | src/utils/TitleDirective.ts:39-41 | when every element has at most one entry, the unmounted element has none afterwards |
| TitleDirectives.TitleDirective.Mounted | src/utils/TitleDirective.ts:15-27 | mounted pushes the element's transformed title and shows it; without a transform the document shows the bound value itself |
| TitleDirectives.TitleDirective.Updated | src/utils/TitleDirective.ts:29-37 | updated retitles the element's first entry and shows it only when that entry is on top, the bound value itself when there is no transform; an unknown element changes nothing, and throws when the stack is empty |
| TitleDirectives.TitleDirective.BeforeUnmount | src/utils/TitleDirective.ts:39-47 | beforeUnmount leaves the stack and title that the guarded unmount gives, so the top title stays shown; without a transform, taking off the last entry shows the empty string that null becomes |
| Keyboard.Join | src/utils/keyboard.ts:100 | joining no parts gives "", and joining one part gives that part |
| Keyboard.JoinSnoc | src/utils/keyboard.ts:100 | joining one more part appends the separator and the part, or gives the part alone when nothing came before |
| Keyboard.GetModifier | src/utils/keyboard.ts:94-101 | the string is empty exactly when no modifier is pressed |
| Keyboard.GetModifierInjective | src/utils/keyboard.ts:94-101 | different sets of pressed modifiers always give different strings |
| Keyboard.MetaFirst | src/utils/keyboard.ts:96 | the string starts with "meta" exactly when meta is pressed |
| Keyboard.MetaPrefix | src/utils/keyboard.ts:96-100 | with meta pressed, the string is "meta", followed by '+' and the other modifiers when there are any |
| Keyboard.MetaStripped | src/utils/keyboard.ts:96-100 | two equal strings that agree on meta stay equal once meta is taken off |
| Keyboard.RestInjective | src/utils/keyboard.ts:97-100 | without meta, different sets of ctrl, alt and shift give different strings |
| Keyboard.NoMetaString | src/utils/keyboard.ts:97-100 | without meta, the string's length tells the eight combinations apart |
| Keyboard.Lower | src/utils/keyboard.ts:35 | lower-casing keeps the length and lowers each ASCII capital, keeping every other character |
| Keyboard.KeyString | src/utils/keyboard.ts:30-35 | the key string is never shorter than the key |
| Keyboard.KeyStringExtendsModifier | src/utils/keyboard.ts:30-35 | the lookup key is the ctrl/alt/shift modifier string, then '+' and the key, all lower-cased |
| Keyboard.KeyboardAction.constructor | src/utils/keyboard.ts:3-15 | both flags start false, with no events, no shortcuts and nothing fired |
| Keyboard.KeyboardAction.OnKeyDown | src/utils/keyboard.ts:17-43 | Control and Shift set their flag and emit true; Alt does nothing; any other key fires the listeners of its key string and prevents the default exactly when that key has listeners |
| Keyboard.KeyboardAction.OnKeyUp | src/utils/keyboard.ts:45-56 | Control and Shift clear their flag and emit false; other keys change nothing |
| Keyboard.KeyboardAction.OnWindowUnfocus | src/utils/keyboard.ts:58-63 | blur clears both flags and emits false on each |
| Keyboard.KeyboardAction.AddShortcut | src/utils/keyboard.ts:65-72 | the key gets a listener list the first time, and the action listens on it |
| Keyboard.KeyboardAction.RemoveShortcut | src/utils/keyboard.ts:74-80 | an unregistered key answers false with no change; otherwise the list's own remove answers whether the action was listening |
| Keyboard.KeyboardAction.CtrlPressed | src/utils/keyboard.ts:82-84 | the getter is the last value emitted on ctrlState, and false before any |
| Keyboard.RemoveKeepsIdle | src/utils/keyboard.ts:74-80 | removing from an idle listener list keeps it idle, and answers whether the action was there |
| Rects.Rect.constructor | src/math/Rect.ts:25-29 | the four edges are stored as given |
| Rects.Rect.Create | src/math/Rect.ts:12-34 | a rectangle argument is copied edge for edge; a number without a second argument throws; four numbers give those edges; two numbers give the single point |
| Rects.Rect.PointHoldsOnlyItself | src/math/Rect.ts:30-32 | a rectangle whose edges meet at (x, y) holds that point and no other |
| Rects.Rect.Width | src/math/Rect.ts:44-46 | the left edge plus the width is the right edge, and the width is non-negative exactly when the edges are in order |
| Rects.Rect.Height | src/math/Rect.ts:48-50 | the top edge plus the height is the bottom edge, and the height is non-negative exactly when the edges are in order |
| Rects.Rect.UnionWithPointF | src/math/Rect.ts:71-77 | afterwards the point is inside, no edge moved inward, and each edge either stayed or moved to the point |
| Rects.Rect.UnionWithRectF | src/math/Rect.ts:79-85 | afterwards the given edges are inside, no edge moved inward, and each edge is the old one or the given one |
| Rects.Rect.UnionWithRect | src/math/Rect.ts:87-93 | afterwards the other rectangle is inside, no edge moved inward, and each edge is the old one or the other's |
| Rects.Rect.Expand | src/math/Rect.ts:95-101 | every edge moves out by the amount, width and height grow by twice it, and for a non-negative amount every point inside before stays inside |
| Rects.PointInsideAgrees | src/math/Rect.ts:103-121 | with exact arithmetic, the corner-and-size test agrees with isInside, and the corner (x, y) passes it exactly when the edges are in order |
| Rects.RectInsideOrder | src/math/Rect.ts:64-69 | isRectInside is reflexive and transitive |
| Rects.RectInsideKeepsPoints | src/math/Rect.ts:52-69 | a point inside a rectangle that lies within another is inside the other |
| Rects.RectMinMax.Width | src/math/RectMinMax.ts:35-37 | the width is never negative and equals r minus l |
| Rects.RectMinMax.Height | src/math/RectMinMax.ts:39-41 | the height is never negative and equals b minus t |
| Rects.MakeMinMax | src/math/RectMinMax.ts:11-33 | a RectMinMax argument is copied; a number without y1 throws; four numbers give those corners; two numbers give a zero-size rectangle at the point |
| Rects.MinMaxOrdered | src/math/RectMinMax.ts:43-57 | l is at most r and t at most b, and l and r are the two x coordinates |
| Rects.SwapInvariant | src/math/RectMinMax.ts:35-57 | swapping the corners on either axis changes none of l, r, t, b, width or height |
| EventListeners.IndexOf | src/utils/TypedEventListener.ts:15 | the first position holding the pair, or -1 exactly when the pair is not registered |
| EventListeners.SpliceOne | src/utils/TypedEventListener.ts:29 | splice(i, 1) removes position i and shifts the rest down; an index past the end removes nothing |
| EventListeners.Insert | src/utils/TypedEventListener.ts:42 | inserting into a descending list keeps it descending and adds exactly the one index |
| EventListeners.SortDescending | src/utils/TypedEventListener.ts:42 | sort((a, b) => b - a) orders the queued indices largest first and keeps the same indices |
| EventListeners.Fresh | src/utils/TypedEventListener.ts:10-12 | a new list has no listeners and a valid, empty queue |
| EventListeners.Listened | src/utils/TypedEventListener.ts:14-21 | listen appends the pair unless it is registered already, in which case nothing changes; afterwards the pair is registered |
| EventListeners.Down | src/utils/TypedEventListener.ts:54-56 | the countdown queues every index in its range that is not queued yet, each once |
| EventListeners.QueueStep | src/utils/TypedEventListener.ts:54-56 | each turn of clear's loop queues its index unless that index is queued already |
| EventListeners.TransferredTo | src/utils/TypedEventListener.ts:48-50 | the destination's list grows by exactly the source's listeners |
| EventListeners.ListenKeepsNoDuplicates | src/utils/TypedEventListener.ts:14-21 | listen never registers the same pair twice, and afterwards there is a listener |
| EventListeners.RemoveOutsideEmit | src/utils/TypedEventListener.ts:23-32 | outside an emit, remove answers whether the pair was registered, and the pair's position is taken out at once |
| EventListeners.SpliceDropsOnly | src/utils/TypedEventListener.ts:29 | splicing out a pair that occurs once leaves no occurrence of it |
| EventListeners.WithoutPastEnd | src/utils/TypedEventListener.ts:43-45 | positions at or past the end of the list take nothing out |
| EventListeners.WithoutNone | src/utils/TypedEventListener.ts:43-45 | taking out only positions past the end keeps the list |
| EventListeners.WithoutEmpty | src/utils/TypedEventListener.ts:41 | taking out no positions keeps the list |
| EventListeners.WithoutAppend | src/utils/TypedEventListener.ts:43-45 | positions that all lie in a prefix leave what follows it untouched |
| EventListeners.SpliceMatchesWithout | src/utils/TypedEventListener.ts:42-45 | splicing distinct indices largest first removes exactly those positions |
| EventListeners.WithoutSplice | src/utils/TypedEventListener.ts:43-45 | splicing one position after taking out smaller ones is taking them all out together |
| EventListeners.SortedDistinct | src/utils/TypedEventListener.ts:42 | sorting indices queued once each gives them strictly descending, the same indices |
| EventListeners.SortStrict | src/utils/TypedEventListener.ts:42 | the sort of indices without repeats is strictly descending |
| EventListeners.InsertStrict | src/utils/TypedEventListener.ts:42 | inserting a new index into a strictly descending list keeps it strictly descending |
| EventListeners.FinishRemovesPending | src/utils/TypedEventListener.ts:39-45 | the end of emit leaves the list not emitting with an empty queue, and exactly the queued positions removed |
| EventListeners.ClearedValid | src/utils/TypedEventListener.ts:52-60 | clear keeps the queue valid, and during an emit leaves the list itself alone |
| EventListeners.ReenteredValid | src/utils/TypedEventListener.ts:34-39 | the calls listeners make while emitting keep the queue valid and only ever append to the list |
| EventListeners.EmitOutcome | src/utils/TypedEventListener.ts:34-46 | after emit, the list is what the listeners' calls made of it minus the queued positions, the queue is empty and emitting is off |
| EventListeners.DeferredRemoveMatchesImmediate | src/utils/TypedEventListener.ts:23-46 | a removal during an emit has, once the emit is over, the effect of an immediate removal |
| EventListeners.RemoveTwiceDuringEmit | src/utils/TypedEventListener.ts:23-46 | with the duplicate guard, removing the same pair twice during an emit takes out that pair and no other |
| EventListeners.ClearDuringEmit | src/utils/TypedEventListener.ts:52-60 | clear during an emit leaves no listener once the emit is over |
| EventListeners.AllPositions | src/utils/TypedEventListener.ts:52-60 | taking out every position leaves the empty list |
| EventListeners.ListenAfterClearDuringEmit | src/utils/TypedEventListener.ts:52-60 | with clear queueing only real positions, a pair registered after clear in the same emit stays registered |
| EventListeners.TransferMovesAll | src/utils/TypedEventListener.ts:48-50 | transfer appends the source's pairs, in order, after the destination's, and the result has a listener exactly when either list had one |
| EventListeners.RemovedAsWritten | src/utils/TypedEventListener.ts:23-32 | remove as written answers whether the pair was registered, and during an emit queues its index even when it is queued already |
| EventListeners.CountdownFrom | src/utils/TypedEventListener.ts:54-56 | the loop as written queues the indices from the length itself down to 0 |
| EventListeners.ClearedAsWritten | src/utils/TypedEventListener.ts:52-60 | clear as written queues one index more than there are listeners |
| EventListeners.DoubleRemoveDropsNeighbour | src/utils/TypedEventListener.ts:23-46 | as written, a listener that removes itself twice during an emit takes its neighbour out as well |
| EventListeners.SortTwoIndices | src/utils/TypedEventListener.ts:42 | two indices sort with the larger first |
| EventListeners.SpliceTwice | src/utils/TypedEventListener.ts:43-45 | two splices of a two-element list, the second at 0, leave nothing |
| EventListeners.ClearThenListenDropsNewcomer | src/utils/TypedEventListener.ts:52-60 | as written, a pair registered after clear in the same emit is dropped too |
| EventListeners.TypedEventListener.constructor | src/utils/TypedEventListener.ts:9-12 | a new list is empty, not emitting, with an empty queue |
| EventListeners.TypedEventListener.Listen | src/utils/TypedEventListener.ts:14-21 | listen updates the list as the listen specification says and keeps the queue valid |
| EventListeners.TypedEventListener.Remove | src/utils/TypedEventListener.ts:23-32 | remove updates the list and answers as the remove specification says |
| EventListeners.TypedEventListener.Clear | src/utils/TypedEventListener.ts:52-60 | clear empties the list, or during an emit queues every position not yet queued |
| EventListeners.TypedEventListener.QueueAll | src/utils/TypedEventListener.ts:54-56 | the loop of clear appends, from the last position down, every position not yet queued |
| EventListeners.TypedEventListener.Emit | src/utils/TypedEventListener.ts:34-46 | emit runs the registered listeners in order, including those they add, and ends with the queued removals applied, the queue empty and emitting off |
| EventListeners.TypedEventListener.RunListeners | src/utils/TypedEventListener.ts:36-38 | the listeners' calls while emitting (listen, remove, clear, and another list's transfer into this one) update the list as their specifications say, only ever appending to it |
| EventListeners.TypedEventListener.FlushPending | src/utils/TypedEventListener.ts:39-45 | the end of emit sorts the queue largest first, splices each index and empties the queue |
| EventListeners.TypedEventListener.Transfer | src/utils/TypedEventListener.ts:48-50 | every pair moves, in order, to the end of the destination, leaving the source empty and its emitting flag and queue as they were; the source stays consistent exactly when nothing was queued; a transfer to itself changes nothing |
| EventListeners.TypedEventListener.HasAny | src/utils/TypedEventListener.ts:62-64 | true exactly when some pair is registered |
| EventListeners.SpliceEach | src/utils/TypedEventListener.ts:43-45 | the splice loop splices each index in the given order |
| EventListeners.ReenteredSnoc | src/utils/TypedEventListener.ts:36-38 | running one more call continues from the state the earlier calls left |
| EventListeners.SpliceAllSnoc | src/utils/TypedEventListener.ts:43-45 | one more splice continues from the list the earlier splices left |
| ActionHistories.NewEntry | src/snapshot/ActionHistory.ts:110-116 | a new action holds the name and two clean snapshots of the board |
| ActionHistories.Fresh | src/snapshot/ActionHistory.ts:30-34 | a new history is well formed, records, and has nothing to undo or redo |
| ActionHistories.UndoName | src/snapshot/ActionHistory.ts:69-72 | nothing exactly when undo is not possible, otherwise the name of the entry at the index |
| ActionHistories.RedoName | src/snapshot/ActionHistory.ts:78-81 | nothing exactly when redo is not possible, otherwise the name of the entry after the index |
| ActionHistories.TrimStep | src/snapshot/ActionHistory.ts:119-122 | one more shift of the front entry moves the open entry as dropping all of them at once does |
| ActionHistories.Trimmed | src/snapshot/ActionHistory.ts:118-123 | at most `limit` entries remain, the newest ones, and the index moves back by the number dropped but never below -1 |
| ActionHistories.DroppedFront | src/snapshot/ActionHistory.ts:118-123 | trimming is one cut of the entries beyond the limit off the front |
| ActionHistories.TrimmedFits | src/snapshot/ActionHistory.ts:119 | a history within its limit is left as it is |
| ActionHistories.TrimmedTail | src/snapshot/ActionHistory.ts:125-129 | trimAction keeps exactly the entries up to the index, so nothing is left to redo |
| ActionHistories.Began | src/snapshot/ActionHistory.ts:36-48 | begin keeps the history well formed |
| ActionHistories.Opened | src/snapshot/ActionHistory.ts:41-45 | the entries after the index are dropped, an empty entry under the name is appended at the index after it and opened |
| ActionHistories.Ended | src/snapshot/ActionHistory.ts:50-53 | end closes the open entry and forgets its name, leaving the entries and the index |
| ActionHistories.LimitSet | src/snapshot/ActionHistory.ts:59-63 | a limit of zero or less is stored as 0 and the history stays well formed |
| ActionHistories.Undone | src/snapshot/ActionHistory.ts:92-100 | undo keeps the history well formed |
| ActionHistories.Redone | src/snapshot/ActionHistory.ts:83-90 | redo keeps the history well formed |
| ActionHistories.Recorded | src/snapshot/ActionHistory.ts:146-147 | recording a change into an entry keeps its name and board and both snapshots well formed |
| ActionHistories.RecordedInto | src/snapshot/ActionHistory.ts:136-137 | recording into the open entry, in the list or trimmed out of it, keeps the history well formed |
| ActionHistories.Added | src/snapshot/ActionHistory.ts:141-149 | adding a change keeps the history well formed |
| ActionHistories.AddedSteps | src/snapshot/ActionHistory.ts:141-149 | adding is opening an entry named '' where none is open, recording into it, then one `changed` event |
| ActionHistories.OpenAfterBegin | src/snapshot/ActionHistory.ts:36-48 | after begin an entry is open under the name given |
| ActionHistories.Raw | src/snapshot/ActionHistory.ts:151-161 | toRaw writes one record per entry, in order |
| ActionHistories.EntryFromRaw | src/snapshot/ActionHistory.ts:165-169 | an entry read back keeps the record's name and holds two snapshots of the board |
| ActionHistories.Loaded | src/snapshot/ActionHistory.ts:163-171 | fromRaw appends one entry per record after the existing ones and leaves the index, the open entry and the limit |
| ActionHistories.EntriesFromRaw | src/snapshot/ActionHistory.ts:164-170 | one entry per record, in order |
| ActionHistories.BeginIdempotent | src/snapshot/ActionHistory.ts:37 | beginning twice under the same name opens one entry |
| ActionHistories.BeginStartsEntry | src/snapshot/ActionHistory.ts:36-48 | a begin that opens an entry keeps the entries up to the index, appends the new one, keeps the newest within the limit, leaves nothing to redo, and with a positive limit makes the new entry the one undo reverts and the open one |
| ActionHistories.TrimmedLast | src/snapshot/ActionHistory.ts:118-123 | trimming keeps a last, open, indexed entry last and open |
| ActionHistories.BeginAppends | src/snapshot/ActionHistory.ts:36-48 | below the limit, begin appends one open entry after the index |
| ActionHistories.AddAt | src/snapshot/ActionHistory.ts:141-149 | with an entry open in the list, a change is recorded into that entry alone |
| ActionHistories.UndoThenRedo | src/snapshot/ActionHistory.ts:83-100 | undo then redo gives the history back with the open entry closed and two events |
| ActionHistories.RedoThenUndo | src/snapshot/ActionHistory.ts:83-100 | redo then undo gives the history back with the open entry closed and two events |
| ActionHistories.NewTransactionDropsRedoTail | src/snapshot/ActionHistory.ts:36-48 | after an undo a new transaction discards the undone entry and leaves nothing to redo |
| ActionHistories.NotRecording | src/snapshot/ActionHistory.ts:142 | while recording is off a change is ignored and no event is emitted |
| ActionHistories.AddRecords | src/snapshot/ActionHistory.ts:141-149 | a change goes into the open entry, or into a new entry named '' at the end; one event is emitted either way |
| ActionHistories.LimitBounds | src/snapshot/ActionHistory.ts:59-63 | the limit setter keeps at most the new limit's entries, the newest ones, with the index at -1 or above, and changes nothing else when they fit |
| ActionHistories.RawRoundTrip | src/snapshot/ActionHistory.ts:151-171 | loading what toRaw writes into a fresh history of the board gives the same entries back |
| ActionHistories.RecordedAll | src/snapshot/ActionHistory.ts:141-149 | recording a run of changes keeps the entry's name, board and well-formed snapshots |
| ActionHistories.RecordedAccumulates | src/snapshot/ActionHistory.ts:146-147 | an entry fed a run of changes holds the forward actions pushed in order and the backward actions shifted in front in order |
| ActionHistories.RecordedEntryReplays | src/snapshot/ActionHistory.ts:83-100 | for a run of edits the forward snapshot takes the first documents to the last (redo) and the backward snapshot takes them back (undo) |
| ActionHistories.UndoneAsWritten | src/snapshot/ActionHistory.ts:92-100 | as written, undo throws exactly when it is not possible, and then leaves recording off |
| ActionHistories.RedoneAsWritten | src/snapshot/ActionHistory.ts:83-90 | as written, redo throws exactly when it is not possible, and then leaves recording off |
| ActionHistories.UndoWhenEmptyStopsRecording | src/snapshot/ActionHistory.ts:84-85 | on a fresh history undo or redo as written loses the next change; with them doing nothing it is recorded |
| ActionHistories.TrimmedAsWritten | src/snapshot/ActionHistory.ts:118-123 | as written, the index moves back once per dropped entry with no lower bound |
| ActionHistories.LimitSetAsWritten | src/snapshot/ActionHistory.ts:59-63 | as written, the limit setter is the unbounded trim at the clamped limit |
| ActionHistories.Popped | src/snapshot/ActionHistory.ts:126-128 | each pop removes one entry, and none from an empty list |
| ActionHistories.LimitDrivesIndexBelowFirst | src/snapshot/ActionHistory.ts:59-63 | three undone entries and a limit of 1: as written the index reaches -3 and trimAction's loop can never stop; with the bound the entry is still there to redo |
| ActionHistories.SingleChange | src/snapshot/ActionHistory.test.ts:30-52 | a single pending change applies to a one-entity document as the change does |
| ActionHistories.StartState | src/snapshot/ActionHistory.test.ts:23-28 | a new history has nothing to undo or redo |
| ActionHistories.RecordedIntoEmpty | src/snapshot/ActionHistory.ts:146-147 | a note change recorded into an empty entry is stored under the note's key |
| ActionHistories.CreatingHistory | src/snapshot/ActionHistory.test.ts:35-37 | the history while 'new note' is open after a note is created |
| ActionHistories.CreatedHistory | src/snapshot/ActionHistory.test.ts:35-38 | the history once 'new note' is ended |
| ActionHistories.CreateUndoRedo | src/snapshot/ActionHistory.test.ts:30-52 | undo removes the created note, redo adds it back, with canUndo and canRedo as the scenario expects |
| ActionHistories.MovedHistory | src/snapshot/ActionHistory.test.ts:59-64 | a created note moved in a second transaction gives two entries, the second open |
| ActionHistories.SecondTransaction | src/snapshot/ActionHistory.ts:36-48 | a change under a new name after an open one-entry history goes into a second entry |
| ActionHistories.BeganSecond | src/snapshot/ActionHistory.ts:36-48 | beginning a new name after an open one-entry history appends and opens a second entry |
| ActionHistories.MoveApplies | src/snapshot/ActionHistory.test.ts:63-79 | the move's forward edit takes the note to (100, 200) and its backward edit takes it back |
| ActionHistories.MoveUndoRedo | src/snapshot/ActionHistory.test.ts:54-80 | undo reverts only the move and redo replays it, with canUndo and canRedo as the scenario expects |
| ActionHistories.ReplaceSecond | src/snapshot/ActionHistory.ts:36-48 | undoing the second of two entries and recording a new transaction replaces it |
| ActionHistories.UndoSecond | src/snapshot/ActionHistory.ts:92-100 | undoing the open second entry moves the index to the first and closes it |
| ActionHistories.AddSecond | src/snapshot/ActionHistory.ts:141-149 | a change goes into the open second entry |
| ActionHistories.BeginAfterFirst | src/snapshot/ActionHistory.ts:36-48 | with the index on the first entry, begin replaces the rest by one open entry |
| ActionHistories.NewActionAfterUndo | src/snapshot/ActionHistory.test.ts:83-121 | a new transaction after the undo replaces the undone move; undo and redo then move the note between (0, 0) and (300, 400) |
| ActionHistories.ReadEntries | src/snapshot/ActionHistory.ts:164-170 | the fromRaw loop reads one entry per record, in order |
| ActionHistories.ActionHistory.constructor | src/snapshot/ActionHistory.ts:30-34 | the object starts as the fresh history |
| ActionHistories.ActionHistory.Begin | src/snapshot/ActionHistory.ts:36-48 | begin leaves the history Began describes and warns exactly for a new entry with the empty name |
| ActionHistories.ActionHistory.End | src/snapshot/ActionHistory.ts:50-53 | end leaves the history Ended describes |
| ActionHistories.ActionHistory.SetLimit | src/snapshot/ActionHistory.ts:59-63 | the setter leaves the history LimitSet describes |
| ActionHistories.ActionHistory.TrimHistory | src/snapshot/ActionHistory.ts:118-123 | trimHistory leaves the history Trimmed describes |
| ActionHistories.ActionHistory.DropFront | src/snapshot/ActionHistory.ts:119-122 | the shift loop drops exactly the entries beyond the limit off the front |
| ActionHistories.ActionHistory.TrimAction | src/snapshot/ActionHistory.ts:125-129 | the pop loop leaves the history TrimmedTail describes |
| ActionHistories.ActionHistory.Undo | src/snapshot/ActionHistory.ts:92-100 | undo hands the entry's backward snapshot to the target, records none of what it reports, and leaves the history Undone describes; it warns exactly when undo is not possible |
| ActionHistories.ActionHistory.Redo | src/snapshot/ActionHistory.ts:83-90 | redo hands the next entry's forward snapshot to the target, records none of what it reports, and leaves the history Redone describes |
| ActionHistories.ActionHistory.Add | src/snapshot/ActionHistory.ts:141-149 | adding leaves the history Added describes |
| ActionHistories.ActionHistory.EnsureOpen | src/snapshot/ActionHistory.ts:143-145 | an entry named '' is begun exactly when none is open |
| ActionHistories.ActionHistory.RecordIntoOpen | src/snapshot/ActionHistory.ts:146-147 | the change is recorded into the open entry as RecordedInto describes |
| ActionHistories.ActionHistory.AddNoteAction | src/snapshot/ActionHistory.ts:141-149 | addNoteSnapshotAction leaves the history Added describes |
| ActionHistories.ActionHistory.AddConnectionAction | src/snapshot/ActionHistory.ts:131-139 | addConnectionSnapshotAction leaves the history Added describes |
| ActionHistories.ActionHistory.ToRaw | src/snapshot/ActionHistory.ts:151-161 | toRaw returns Raw of the history |
| ActionHistories.ActionHistory.FromRaw | src/snapshot/ActionHistory.ts:163-171 | fromRaw leaves the history Loaded describes |
| Boards.StoredImage.constructor | src/model/StoredImage.ts:3-7 | a new image keeps its id and has no listeners on its `destroyed` event |
| Boards.ImageId | src/snapshot/NoteSnapshot.ts:4-13 | a note has an image id exactly when it has an image |
| Boards.SpliceOne | src/model/NoteView.ts:113-114 | `splice(i, 1)` removes the element at `i`, counting a negative start from the end, and nothing past the end |
| Boards.RemoveFirst | src/model/ConnectionView.ts:66-69 | the list loses the first occurrence of the element and nothing else, and is unchanged when the element is not in it |
| Boards.SpliceKeeps | src/model/ConnectionView.ts:68 | cutting out one element keeps every other element, adds none, and removes the element from a list without duplicates |
| Boards.DestroyTwiceDropsAnother | src/model/NoteView.ts:113-114 | as written, destroying a note no longer in the list removes the board's last note; the guarded removal keeps it |
| Boards.IsDashEqual | src/model/ConnectionView.ts:154-162 | two dash patterns are equal exactly when they have the same length and agree element by element |
| Boards.GetMatchingStyle | src/model/ConnectionView.ts:164-192 | nothing for no connections; otherwise each field is kept exactly when every connection agrees with the first on it, and nothing when no field is kept |
| Boards.BoardView.constructor | src/model/BoardView.ts:29-33 | a new board has no notes or connections, the default color ff0000 and size 5, and an empty snapshot of its id |
| Boards.BoardView.Resolve | src/model/BoardView.ts:52-61 | a note given directly is itself; an id resolves exactly when the id map holds it, and otherwise fails naming the id |
| Boards.BoardView.IsConnected | src/model/BoardView.ts:83-94 | fails exactly when the first note is an unknown id; otherwise true exactly when the first note's connection map holds the second id |
| Boards.BoardView.NewNote | src/model/BoardView.ts:35-41 | the new note is appended to the list, mapped under its id and announced, and its Create is pushed into the snapshot |
| Boards.BoardView.CreateNote | src/model/BoardView.ts:43-49 | the new note has an id below 0x7fffffff that was not in use and no connections; it is appended to the notes, the id map and the created-notes signal, the id now resolves to it, its creation is recorded in the snapshot, and it listens to its image's destroyed signal |
| Boards.BoardView.NewConnection | src/model/BoardView.ts:51-81 | an unknown id fails and changes nothing, and so does a pair already connected; otherwise the ends are connected smaller id first, in the given or the board's default style: each end files the connection under the other's id, so each now reads as connected to the other, the connection is appended and announced, a (Delete, Create) pair is recorded, the style becomes the board's new default, and the notes are kept |
| Boards.BoardView.Connect | src/model/BoardView.ts:63-80 | an already connected pair fails and changes nothing; otherwise a new connection is filed under both ends, listed, announced, emits (Delete, Create) and becomes the board's default style |
| Boards.BoardView.Forget | src/model/NoteView.ts:113-115 | the note leaves the board's list where it is there, and the id map |
| Boards.BoardView.Unlist | src/model/ConnectionView.ts:66-69 | the connection leaves the board's list where it is there |
| Boards.Ordered | src/model/BoardView.ts:63-65 | the two ends, smaller id first |
| Boards.NoteView.constructor | src/model/NoteView.ts:32-80 | a new note holds its fields, is detached, has no connections, listens to its image, and pushes its Create |
| Boards.NoteView.Attach | src/model/NoteView.ts:82-90 | the note is attached |
| Boards.NoteView.Detach | src/model/NoteView.ts:92-102 | the note is detached |
| Boards.NoteView.Move | src/model/NoteView.ts:128-134 | the note moves by (dx, dy) and pushes an Edit of x and y, attached or not |
| Boards.NoteView.SetText | src/model/NoteView.ts:173-185 | the text is set and, when attached, an Edit of the text is pushed, changed or not |
| Boards.NoteView.SetImg | src/model/NoteView.ts:148-167 | the image is set, the old image forgets the note, the new one lists it, and an Edit of the image is pushed only when it changed and the note is attached |
| Boards.NoteView.OnImageDestroyed | src/model/NoteView.ts:187-189 | the note loses its image, pushing an Edit of it when it had one and is attached |
| Boards.NoteView.Destroy | src/model/NoteView.ts:108-118 | each of the note's connections is visited once and destroyed: it leaves the board's list and is detached, its (Create, Delete) pair of its state is appended in visit order, and every note at a far end forgets this note; the image is dropped, the note leaves the list where it is there and the id map, is detached, and the snapshot ends as DestroyedInto says |
| Boards.NoteView.Retire | src/model/NoteView.ts:112-117 | the image is dropped and forgets the note, the note leaves the board and is detached, and the snapshot ends as DestroyedInto says |
| Boards.NoteView.OnEndDragDot | src/model/NoteView.ts:213-231 | a drop off a dot, on the note itself or on a note already connected does nothing; otherwise a connection from the dragged port to the dropped-on port is made in the board's style, filed under each end's map, appended and announced, with its (Delete, Create) pair recorded; the board's defaults and notes are kept |
| Boards.NoteView.DestroyConnections | src/model/NoteView.ts:109-111 | the loop visits each connection of the note exactly once; each leaves the board's list and is detached, the (Create, Delete) pairs of their states are appended in visit order, every note at a far end loses this note's key and keeps the rest of its map, and this note's map ends empty |
| Boards.NoteView.DestroyFiled | src/model/ConnectionView.ts:64-73 | one connection's destroy: its pair is appended, it leaves the board's list where it is there, both ends forget each other, it is detached, and every other note keeps its map |
| Boards.FarEndsFiled | src/model/ConnectionView.ts:70-71 | a connection's far end is the note filed under its own id, which is the key destroy deletes on that side |
| Boards.ConnSetRemove | src/model/ConnectionView.ts:70-71 | deleting one key drops exactly that key's connection from the note's connections |
| Boards.VisitStep | src/model/NoteView.ts:109-111 | one connection visited before a repeat-free visit of the others is a repeat-free visit of all |
| Boards.NoteView.Unfile | src/model/ConnectionView.ts:70-71 | one key leaves the note's connection map |
| Boards.SomeKey | src/model/NoteView.ts:109 | a key of a non-empty connection map |
| Boards.DestroyLeavesDelete | src/model/NoteView.test.ts:31-46 | destroying a note leaves its pending change a Delete, or nothing when it was created since the last save |
| Boards.ImageDestroyedAfterCreate | src/model/NoteView.test.ts:13-29 | a new note whose image is destroyed while shown is saved as created with image 0 |
| Boards.ReplacedImageForgetsNote | src/model/NoteView.ts:149-151 | the old image no longer lists the note and keeps every other listener |
| Boards.DestroyedInto | src/model/NoteView.ts:112-117 | destroying a note keeps the snapshot well formed |
| Boards.ConnectionView.constructor | src/model/ConnectionView.ts:23-46 | the connection is filed under both ends, takes its style through the setters, records nothing while detached and emits (Delete, Create) |
| Boards.ConnectionView.Attach | src/model/ConnectionView.ts:48-51 | the connection is attached |
| Boards.ConnectionView.Destroy | src/model/ConnectionView.ts:64-73 | emits (Create, Delete), leaves the board's list where it is there and both ends' maps, and is detached |
| Boards.ConnectionView.SetColor | src/model/ConnectionView.ts:79-88 | the color and the board's default are set, and (reverse, forward) Edits of the color are emitted when attached, changed or not |
| Boards.ConnectionView.SetSize | src/model/ConnectionView.ts:94-104 | the size and the board's default are set, and (reverse, forward) Edits of the size are emitted when attached |
| Boards.ConnectionView.SetDash | src/model/ConnectionView.ts:110-119 | an equal pattern changes nothing; otherwise the dash and the board's default are set and, when attached, (reverse, forward) Edits of the dash are emitted |
| Decimal.DigitChar | src/snapshot/Snapshot.ts:188-190 | the character of a digit value is a digit that reads back as that value |
| Decimal.NatToString | src/snapshot/Snapshot.ts:188-190 | a natural number renders as at least one decimal digit |
| Decimal.IntToString | src/snapshot/Snapshot.ts:188-190 | `toString` of an integer: a leading '-' exactly for negatives, digits after it |
| Decimal.ParseNatToString | src/snapshot/Snapshot.ts:188-190 | reading the digits of a natural number back gives the number |
| Decimal.ParseIntToString | src/snapshot/Snapshot.ts:188-190 | reading the text of an integer back gives the integer |
| Decimal.IntToStringInjective | src/snapshot/Snapshot.ts:188-190 | distinct note ids render to distinct keys |
| PhpValues.Put | server/common/validation.php:7 | writing an array key stores the value, keeping an existing key's place |
| PhpValues.Values | server/api/board/update.php:13 | the values an array's loop visits are at most one per key |
| PhpValues.ListOf | server/api/board/update.php:13 | a decoded JSON list is an array keyed "0", "1", … in order |
| PhpValues.ListOfAt | server/api/board/update.php:13 | each item of a decoded list is stored under its index |
| PhpValues.ListValues | server/api/board/update.php:13 | looping over a decoded list visits its items in order |
| PhpValues.ListValuesAt | server/api/board/update.php:13 | the values visited under a list of keys depend only on the entries under those keys |
| PhpValues.Text | server/common/validation.php:120 | the string a value converts to: the string itself, "" for null, the decimal digits of an integer or of a whole float below 10^14, and none exactly for arrays and the other floats |
| PhpValues.DotAt | server/common/validation.php:63 | the position of the first '.' of a numeral, or its length when there is none |
| PhpValues.Pow10 | server/common/validation.php:63 | a power of ten is positive |
| PhpValues.NumericIntText | server/common/validation.php:63 | the decimal text of an integer is numeric and stands for that integer |
| PhpValues.TrimStart | server/common/validation.php:7 | the suffix left after stripping blanks from the front, starting with a non-blank |
| PhpValues.TrimEnd | server/common/validation.php:7 | the prefix left after stripping blanks from the end, ending with a non-blank |
| PhpValues.Trim | server/common/validation.php:7 | trim leaves a slice of the string that neither starts nor ends with a blank |
| PhpValues.TrimIdempotent | server/common/validation.php:10 | trimming twice trims nothing more |
| PhpValues.ReplaceAbsent | server/common/validation.php:187-189 | a string without the pattern comes back unchanged |
| PhpValues.ReplaceWithoutFirst | server/common/validation.php:187-189 | a string without the pattern's first character comes back unchanged |
| PhpValues.ReplaceFront | server/common/validation.php:187-189 | a pattern at the front is replaced and the scan goes on after it |
| Validation.LongestPrefix | server/common/validation.php:124-127 | the longest listed pattern the text starts with, or none when it starts with none of them |
| Validation.CheckKey | server/common/validation.php:183-197 | the rules of one key never give both an error and a throw |
| Validation.Decisive | server/common/validation.php:183-197 | the position of the first rule that does not simply pass: every rule before it passes without a stop |
| Validation.Step | server/common/validation.php:183-197 | one key's rules keep the validated value an array |
| Validation.Run | server/common/validation.php:182-199 | the loop over the keys keeps the validated value an array |
| Validation.Absorbed | server/common/validation.php:6-14 | writing pairs in order keeps an array an array |
| Validation.TrimmedStep | server/common/validation.php:6-11 | one more turn of the GET or POST loop writes the next value trimmed |
| SessionHelpers.IndexIn | server/common/session.php:216-220 | the position of a character in the alphabet holds that character |
| BoardUpdate.OptionalPasses | server/api/board/update.php:167 | `optional()` passes "abcde\n" without stopping |
| BoardUpdate.ExactSix | server/api/board/update.php:167 | "abcde\n" has length 6, so `exact_length(6)` passes it |
| BoardUpdate.PassingKey | server/api/board/update.php:167 | three rules that pass without a stop enter the key with no error |
| BoardUpdate.FailingSecond | server/api/board/update.php:167 | a second rule that fails after a passing first gives the key that error |
| BoardUpdate.Database.constructor | server/api/board/update.php:6-233 | the tables start as given |
| OrderedMaps.Load | src/snapshot/Snapshot.ts:211-219 | setting each value in order under its key keeps the ordered map well formed |
| EventListeners.Without | src/utils/TypedEventListener.ts:42-45 | removing a set of positions never lengthens the list |
| EventListeners.TailStrict | src/utils/TypedEventListener.ts:42 | a strictly descending list stays so without its head |
| EventListeners.ConsStrict | src/utils/TypedEventListener.ts:42 | a head above a strictly descending list keeps it strictly descending |
| Keyboard.JoinStarts | src/utils/keyboard.ts:100 | a join starts with the first character of its first part |
| Keyboard.LowerChar | src/utils/keyboard.ts:35 | a lowered character is no ASCII capital, and any other character is kept |
| SettingsStore.Settings.constructor | src/utils/Settings.ts:41-45 | a store under a name holds the given dictionary |
| TitleDirectives.TitleDirective.constructor | src/utils/TitleDirective.ts:10-13 | a directive starts with an empty stack and the document's title |

## Left out

- I/O and host effects:
  - `localStorage`;
  - window and DOM listeners;
  - element creation and positioning: `updatePosition`, `updateView`, the `rect` getter, `highlight`;
  - `attach`/`detach` beyond an `attached` flag;
  - `http_response_code`, `echo` and `exit`, which become the returned verdicts.
- `console.warn`: a returned flag.
- `use_db`, `upload_file`, `delete_file`, `has_file` and `require_user` in server/common/session.php: these use the database, the filesystem and the session.
- Database access in server/api/board/update.php: the tables are abstract lists of rows, and the access query is a given map from board id to board.
- `hex2bin`: the stored color is the colour's text itself, not the bytes it decodes to. A colour that is absent or null stores "", as `hex2bin` does with an empty string, and a colour given as a whole number stores its decimal text.
- `BoardUpdate.Database.Update`: a colour given as a float that is not whole, or whose size is 10^14 or more, makes the hex rule throw and the request abort. PHP would render it with a fraction or an exponent, fail the hex rule and answer 400; those renderings are not modelled.
- `PhpValues.Text`: gives no text for such floats. Hence `Validation.IsHex`, `Validation.IsHexAsWritten`, `Validation.ExactLength`, `Validation.MinLength`, `Validation.MaxLength` and `SessionHelpers.MinLengthRequired` throw on them, where PHP would test their rendered text.
- `json_decode`'s handling of malformed text: a body either decodes to a value or is malformed.
- Floating point: coordinates, sizes and dash values are `int` or `real`, with no rounding, NaN or infinities.
- `is_numeric`: modelled on optional-sign decimal numerals only, without leading whitespace or exponents.
- `strlen`: counts characters, not bytes.
- Randomness:
  - `Math.random` in `createNote` is a choice among the unused ids below 0x7fffffff;
  - `rand` in `generate_random` is a sequence of draws given as a parameter.
- The `Settings` constructor's parse of stored JSON, and `save`: the dictionary is given.
- The `KeyboardAction` constructor's window listeners: these become method calls.
- Settings: JavaScript's prototype lookup, and property access on non-object values. A name before the last that holds a non-object value stops the walk of get and set as a failure. In JavaScript a `null` there throws a TypeError at once. A string or a number is read silently, and a built-in property such as a string's `length` lets the walk go on. The write that follows a missing property throws a TypeError, because modules run in strict mode.
- `SettingsStore.Settings.Get`: returns a copy of the stored value, where get in src/utils/Settings.ts:61 returns the stored object itself. Changes made through that reference do not reach the store in the model. One such change: the shortcut manager keeps the result of get (src/utils/ShortcutManager.ts:16) and pushes onto its arrays without calling set (src/utils/ShortcutManager.ts:58).
- `Keyboard.Lower` and `Keyboard.LowerChar`: lower only the ASCII capitals A to Z. `toLowerCase` also lowers other scripts' capitals, and can change a string's length (İ becomes i and a combining dot). Key names made of ASCII are lowered as the source lowers them.
- `EventListeners.TypedEventListener.Emit`: a listener that emits the same list again, or transfers this list's pairs to another list while it is emitted, is not modelled. The calls a listener can make back are listen, remove, clear and another list's transfer into this one.
- `EventListeners.TypedEventListener.RunListeners`: covers the same calls as `Emit`, without a nested emit or a transfer out of the emitting list.
- `EventListeners.TypedEventListener.Transfer`: transferring out of a list while it emits leaves its queued indices pointing past its emptied list. The contract states this: the source's list stays consistent exactly when nothing was queued.
- `Boards.NoteView.DestroyConnections`: the for-of loop over the connection map is a recursion on the remaining keys, visiting them in an unspecified order, not the map's insertion order. The contract states what holds for every order: each connection is visited once, and the pairs follow the visit order.
- `Boards.NoteView.Destroy`: has the same visit order. It also drops the image and removes the note from the board before the connection loop runs, not after. The two parts write disjoint state, so the final state is the same. Only the interleaving of the connection pairs with the snapshot's note events is not modelled, and those go to two separate logs.
- The messages of the TypeErrors and PHP errors the source throws on input of the wrong type: each becomes an error outcome (`Threw`, `Crashed`, `TrimFailed`, `None`), without its message.
- `ActionHistories.ActionHistory.constructor`: requires a limit of 0 or more. src/snapshot/ActionHistory.ts:30-33 stores the limit without the clamp of the setter (:59-63). With a negative limit, the first begin reaches trimHistory (:118-123), whose `history.length > limit` stays true on the empty list, so the shift loop never ends. The model does not represent a loop that never ends. The one call in the tests passes a positive limit.
- The history's snapshot factory: each new snapshot is an empty snapshot of the board.
  - History entries hold snapshot values, not shared objects. An entry trimmed out of the list while still open is kept by value.
- The history's target `apply`: it is abstract. The changes it reports while replaying are a parameter of `Undo` and `Redo`.
- `Boards.NoteView.Destroy`: does not restate the image's listener removal. `Boards.NoteView.Retire` states it, and `Destroy` calls it.
- `Boards.BoardView.NewConnection`: takes the dash pattern as a parameter.
  - src/model/BoardView.ts:77 passes none to the connection's constructor, and that class has no `defaultDash`.
  - A drop on a dot passes the board's last used pattern.
- `Boards.StoredImage.constructor`: gives the image the `destroyed` event that src/model/NoteView.ts subscribes to. src/model/StoredImage.ts declares no such event; its `path` and `fullPath` are left out.
- The board's `noteSnapshotAction` and `applySnapshot`, used by the tests, are not in src/model/BoardView.ts.
  - Notes push forward changes into the board's snapshot.
  - Connections log their (backward, forward) pairs on the board.
- ShortcutManager, PointerHandler, the selection tools, ImageStorage and the network clients are not part of this model.

## Findings

| source | as written | input that shows it | evidently intended | confidence | as-written member | corrected member |
|---|---|---|---|---|---|---|
| src/snapshot/ActionHistory.ts:83-100 | undo and redo only warn when not possible, then turn recording off and throw reading the entry at index -1 or past the end, so recording stays off | a fresh history, undo, then any change: the change is never recorded (`UndoWhenEmptyStopsRecording`) | undo and redo do nothing where not possible | not executed | ActionHistories.UndoneAsWritten | ActionHistories.Undone |
| src/snapshot/ActionHistory.ts:118-123 | each entry trimmed off the front moves the index back, even past -1 | three entries all undone, limit set to 1: the index becomes -3, and the next begin's pop loop never ends (`LimitDrivesIndexBelowFirst`) | the index stays at -1 or above | not executed | ActionHistories.TrimmedAsWritten | ActionHistories.Trimmed |
| src/utils/TypedEventListener.ts:23-32 | a pair removed twice during one emit has its index queued twice | listeners [a, b], emit removes a twice: both a and b are gone (`DoubleRemoveDropsNeighbour`) | the pair is removed once, and the other listeners stay (`RemoveTwiceDuringEmit`) | not executed | EventListeners.RemovedAsWritten | EventListeners.Removed |
| src/utils/TypedEventListener.ts:52-60 | clear during emit queues every index from the list's length down to 0, one past the last | clear then listen c during one emit: c is dropped when the queue is flushed (`ClearThenListenDropsNewcomer`) | only the listeners present at the clear are removed (`ListenAfterClearDuringEmit`) | not executed | EventListeners.ClearedAsWritten | EventListeners.Cleared |
| src/model/NoteView.ts:113-114 | destroy splices at `indexOf(this)` without checking for -1 | a note destroyed when no longer in the list: `splice(-1, 1)` removes the board's last note (`DestroyTwiceDropsAnother`) | remove the note only where it is in the list, as the connection's destroy does | not executed | Boards.RemoveFirstAsWritten | Boards.RemoveFirst |
| src/utils/TitleDirective.ts:40-41 | unmount splices at `findIndex` without checking for -1 | unmounting an element that was never mounted removes the top title (`UnknownUnmountDropsTop`) | an unknown element changes nothing | not executed | TitleDirectives.UnmountedAsWritten | TitleDirectives.Unmounted |
| server/common/validation.php:46-59 | `/^[0-9A-Fa-f]*$/` lets a trailing newline through, because `$` also matches before a final newline | "abcde\n" passes `vis_hex` and `exact_length(6)` as a connection color (`BoardUpdate.ColorNewlineAsWritten`) | exactly hex digits (`HexAcceptsNewline`) | not executed | Validation.IsHexAsWritten | Validation.IsHex |
