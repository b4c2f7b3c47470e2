# Expert notes: the note list and the "add note" card

This project models the two pieces of logic in the NLW Expert notes app that
hold state, and proves what they promise.

- **The note list** (`App`, `nlw-expert-notes/src/app.tsx`). Notes are kept newest
  first. Creating a note puts it at the front. Deleting removes every note with
  the given id. After each change the whole list is written to the single
  storage slot `notesCookies`. When the search text is empty the page lists all
  notes. Otherwise it lists the notes whose lower-cased content includes the
  search text as typed.
- **The "add note" card** (`NewNoteCard`,
  `nlw-expert-notes/src/components/new-note-card.tsx`). It has three state
  fields: `shouldShowOnboarding`, `content` (the draft) and `isRecording`. It
  also holds a handle to the browser's speech recognizer. Each of its seven
  event handlers updates these fields. Saving a non-empty draft passes it to the
  list through `onNoteCreated`.

Files:

- `wrappers.dfy`: `Option`, plus the toast notices and their message texts (module `Feedback`).
- `strings.dfy`: `toLowerCase` with ASCII case mapping, and `includes`.
- `note_store.dfy`: `Note`; `Filter` (JavaScript's `filter`) and its
  lemmas; deleting (`Without`); searching (`Search`); and the class `Store`
  holding `notes`, `search` and the storage slot `stored`.
- `capture_surface.dfy`: the transcript fold, the recognizer `SpeechRecognition`
  reduced to whether it is listening, and the class `NewNoteCard`.
- `app.dfy`: how `App` connects the card to the list, plus usage scenarios written as
  client methods.

The state-changing handlers are methods. Their `ensures` clauses give the whole
new state in terms of the old state. Each class has a `Valid()` invariant that
every method keeps:

- `Store.Valid()`: ids are unique, and once the slot has been written it holds exactly the in-memory list.
- `NewNoteCard.Valid()`: `isRecording` is true exactly when the current recognizer is listening.

The list computations are functions, and the lemmas next to them describe what
those functions mean. `SelectsInOrder` is the reference used for `filter`: the
result holds exactly the elements that satisfy the predicate, each occurrence
once, in their original order.

Three behaviours of the code that the model keeps as written:

- `onNoteCreated` does not check for empty content. Only the card refuses an
  empty draft (new-note-card.tsx:48), so `Store.Create("")` does store a note.
  `App.SaveDraft` proves that notes created through the card are never empty.
- Search lower-cases only the note content, not the query (app.tsx:63). A query
  with an upper-case letter therefore matches nothing: "MILK" does not find
  "Buy Milk", but "milk" does.
- Stop-recording only clears `isRecording`. Onboarding stays as it was
  (new-note-card.tsx:96-104).

## Model

| member | source | states |
|---|---|---|
| NoteStore.Filter | nlw-expert-notes/src/app.tsx:44-46 | the result is no longer than the input, and a note is in it iff it is in the input and satisfies the predicate |
| NoteStore.FilterKeepsOrder | nlw-expert-notes/src/app.tsx:44-46 | filtering selects exactly the elements at the positions where the predicate holds, in strictly increasing position order |
| NoteStore.FilterPreservesUniqueIds | nlw-expert-notes/src/app.tsx:44-46 | a filtered list of notes with unique ids still has unique ids |
| NoteStore.Without | nlw-expert-notes/src/app.tsx:44-46 | after deleting `id`, no note with that id is left, and every note with another id is kept |
| NoteStore.DeleteKeepsOrder | nlw-expert-notes/src/app.tsx:44-46 | deleting keeps every note with another id, in its original relative order |
| NoteStore.DeleteAbsent | nlw-expert-notes/src/app.tsx:44-46 | deleting an id no note has leaves the list unchanged |
| NoteStore.DeletePresent | nlw-expert-notes/src/app.tsx:44-46 | with unique ids, deleting the id at position i removes exactly that note, so the length drops by one |
| NoteStore.DeleteIdempotent | nlw-expert-notes/src/app.tsx:44-46 | deleting the same id twice gives the same list as deleting it once |
| NoteStore.DeleteUndoesCreate | nlw-expert-notes/src/app.tsx:29-52 | deleting the id of a note that was just put at the front with a fresh id gives back the old list |
| NoteStore.Search | nlw-expert-notes/src/app.tsx:63 | an empty query returns the whole list; otherwise a note is in the result iff it is in the list and its lower-cased content includes the query as typed |
| NoteStore.SearchKeepsOrder | nlw-expert-notes/src/app.tsx:63 | for a non-empty query, the result holds exactly the matching notes in their original order |
| NoteStore.UppercaseQueryFindsNothing | nlw-expert-notes/src/app.tsx:63 | a query that contains an upper-case ASCII letter matches no note, because only the content is lower-cased |
| NoteStore.SearchIsCaseSensitiveOnTheQuery | nlw-expert-notes/src/app.tsx:63 | the note "Buy Milk" is found by "milk" and not by "MILK" |
| Strings.Lower | nlw-expert-notes/src/app.tsx:63 | lower-casing keeps the length, leaves no upper-case letter, maps each ASCII capital to its small letter and changes nothing else |
| Strings.Contains | nlw-expert-notes/src/app.tsx:63 | `includes`: the empty text is included in every string, a string includes itself, and an included text is never longer than the string |
| NoteStore.Matches | nlw-expert-notes/src/app.tsx:63 | the filter callback: the empty query matches every note, and a matching query is never longer than the note's content |
| Strings.LoweredLacksUpper | nlw-expert-notes/src/app.tsx:63 | a lower-cased string never includes a text that has an upper-case letter |
| NoteStore.Store.FilteredNotes | nlw-expert-notes/src/app.tsx:63 | `filteredNotes`, read from the state without changing it: with an empty search it is the whole list; otherwise exactly the matching notes in their original order; it keeps ids unique |
| NoteStore.Store.constructor | nlw-expert-notes/src/app.tsx:16-27 | the list starts as the slot's list when the slot holds one and as empty otherwise, and the search text starts empty |
| NoteStore.Store.Create | nlw-expert-notes/src/app.tsx:29-41 | for any content, the empty one included, the new list is the new note followed by the old list unchanged; the slot then holds the whole new list; ids stay unique when the given id is fresh |
| NoteStore.Store.Delete | nlw-expert-notes/src/app.tsx:43-52 | the new list is the old one with that id filtered out; the slot holds the whole new list; the success notice is shown even when the id is absent |
| NoteStore.Store.SetSearch | nlw-expert-notes/src/app.tsx:55-59 | only the search text changes; the list and the slot stay as they were, and the page then lists the old notes searched with the new text |
| CaptureSurface.Transcript | nlw-expert-notes/src/components/new-note-card.tsx:80-82 | the `reduce` left fold, starting from the empty string, equals the first alternative of every result joined front to back, each once and in order (`HandleResult` then makes this the draft) |
| CaptureSurface.TranscriptAppend | nlw-expert-notes/src/components/new-note-card.tsx:80-82 | transcribing two batches of results gives the two transcripts joined |
| CaptureSurface.NewNoteCard.constructor | nlw-expert-notes/src/components/new-note-card.tsx:10-16 | the card starts with onboarding shown, an empty draft, not recording and no recognizer |
| CaptureSurface.NewNoteCard.HandleStartEditor | nlw-expert-notes/src/components/new-note-card.tsx:18-20 | only the onboarding flag changes, to false |
| CaptureSurface.NewNoteCard.HandleContentChanged | nlw-expert-notes/src/components/new-note-card.tsx:22-30 | the draft becomes the new value; onboarding turns on if the value is empty and otherwise stays as it was; the recording flag stays |
| CaptureSurface.NewNoteCard.HandleCloseOnboarding | nlw-expert-notes/src/components/new-note-card.tsx:32-41 | the card ends with onboarding shown, an empty draft and not recording; the recognizer is stopped only if one exists; no note is handed over |
| CaptureSurface.NewNoteCard.HandleSaveNote | nlw-expert-notes/src/components/new-note-card.tsx:43-56 | an empty draft hands over nothing, shows the error notice and changes no field; a non-empty draft is handed over exactly once, then the card is reset as by close |
| CaptureSurface.NewNoteCard.HandleStartRecording | nlw-expert-notes/src/components/new-note-card.tsx:58-94 | without the capability only the info notice appears; with it a new listening recognizer is installed, recording turns on, onboarding turns off, and the draft stays |
| CaptureSurface.NewNoteCard.HandleResult | nlw-expert-notes/src/components/new-note-card.tsx:79-85 | the draft is replaced by the transcript of the event, whatever it held before; nothing else changes |
| CaptureSurface.NewNoteCard.HandleStopRecording | nlw-expert-notes/src/components/new-note-card.tsx:96-104 | recording turns off and a recognizer, if one exists, is stopped; the draft and onboarding stay |
| App.SaveDraft | nlw-expert-notes/src/app.tsx:86 | an empty draft changes neither the card, nor its recognizer, nor the store, and shows the error notice; a non-empty draft becomes a new note at the front, the slot holds the new list, and the card is reset with onboarding shown, not recording and the recognizer stopped; the search text never changes; a list of non-empty notes stays one |
| App.HelloWorldScenario | nlw-expert-notes/src/app.tsx:29-52 | starting empty, creating "Hello" then "World" gives [World, Hello], and deleting Hello's id then gives [World] |
| App.EmptyContentScenario | nlw-expert-notes/src/app.tsx:29-41 | creating with the empty content stores a note with empty content |
| App.UnsupportedBrowserScenario | nlw-expert-notes/src/components/new-note-card.tsx:58-65 | without speech recognition, asking to record leaves onboarding shown, the draft empty and recording off, and shows the info notice |
| App.InterimResultsScenario | nlw-expert-notes/src/components/new-note-card.tsx:79-85 | two events with "hello " and then "hello " + "world" leave the draft "hello world", not the two transcripts appended |

## Left out

- Rendering: the JSX, the Radix dialog and the styling (app.tsx:66-96, new-note-card.tsx:106-151) are presentation only.
- CaptureSurface.NewNoteCard.HandleSaveNote: the save button is hidden while recording (new-note-card.tsx:134-144), but the model does not require `!isRecording`. It models the handler for any state, and a save while recording stops the recognizer, as close does.
- `localStorage` and `JSON.parse`/`JSON.stringify` (app.tsx:20-26, 40, 50) are left out. Browser storage and the serialiser are foreign code. The slot is the already-parsed list (`Option<seq<Note>>`, `None` while the key is empty). That the `Date` comes back as a string after a reload is not modelled.
- NoteStore.Store.constructor: what happens when the slot holds text that does not parse (app.tsx:23) is not modelled. The constructor takes a parsed list instead, and it requires that list's ids to be unique.
- `crypto.randomUUID()` and `new Date()` (app.tsx:31-32) are nondeterministic. They are parameters of `Store.Create` and `App.SaveDraft` (`id`, `date` as a millisecond count). `Store.Create` requires the id to be fresh.
- Speech recognition settings (`lang`, `continuous`, `maxAlternatives`, `interimResults`, new-note-card.tsx:74-77) and the `onerror` logging (new-note-card.tsx:87-89) are left out. The recognizer is external. It is reduced to a `listening` flag that `start()` sets and `stop()` clears. Recognition ending by itself is not modelled.
- CaptureSurface.NewNoteCard.HandleResult requires that a recognizer exists, because the callback is attached to one. It also requires every result to have at least one alternative, because the code reads `result[0]` without checking.
- The recognizer handle is a module-level variable in the source (new-note-card.tsx:10), shared by every card. `App` renders one card, so the model gives the handle to the card.
- Starting to record while a recognizer is still listening drops the old handle without stopping it. The model keeps this behaviour. Its invariant speaks only about the current handle.
- React batches state updates within a handler. The model applies them in order. Each handler sets each field at most once or to the same value, so the final state is the same either way.
- The order of side effects inside one handler is not modelled. Examples are the `onNoteCreated` call before the toast, or the toast before the state update. Toasts are returned as values; `console.error` is omitted.
- Strings.Lower: only the ASCII letters A-Z are lower-cased; JavaScript's `toLowerCase` maps all of Unicode. For this Portuguese app that matters: a note containing "É" is found by "é" in the source but not in the model, and by "É" in the model but not in the source.
- The note card component that calls `onNoteDeleted`, and the `logo` asset, are not part of this model.
