/**
 * How `App` wires the two parts together (nlw-expert-notes/src/app.tsx
 * passes its `onNoteCreated` to the card), and the usage scenarios the two
 * parts are meant to support, stated as client methods.
 */
module App {
  import opened Wrappers
  import opened Feedback
  import opened NoteStore
  import opened CaptureSurface

  predicate NonEmptyContents(notes: seq<Note>) {
    forall i :: 0 <= i < |notes| ==> notes[i].content != ""
  }

  /**
   * Pressing "save" on the card: the card's draft reaches the list through
   * `onNoteCreated` only when it is non-empty, so a list of non-empty notes
   * stays one. `id` and `date` are what `crypto.randomUUID()` and
   * `new Date()` would return.
   */
  method SaveDraft(card: NewNoteCard, store: Store, id: string, date: int) returns (notice: Toast)
    requires card.Valid() && store.Valid() && !HasId(store.notes, id)
    modifies card, card.speechRecognition, store
    ensures card.Valid() && store.Valid()
    ensures card.speechRecognition == old(card.speechRecognition)
    ensures store.search == old(store.search)
    ensures old(card.content) == "" ==>
      && store.notes == old(store.notes) && store.stored == old(store.stored) && notice == EmptyNote
      && card.content == old(card.content)
      && card.shouldShowOnboarding == old(card.shouldShowOnboarding)
      && card.isRecording == old(card.isRecording)
      && (card.speechRecognition != null ==>
            card.speechRecognition.listening == old(card.speechRecognition.listening))
    ensures old(card.content) != "" ==>
      && store.notes == [Note(id, date, old(card.content))] + old(store.notes)
      && store.stored == Some(store.notes)
      && notice == NoteSaved
      && card.content == "" && card.shouldShowOnboarding && !card.isRecording
      && (card.speechRecognition != null ==> !card.speechRecognition.listening)
    ensures NonEmptyContents(old(store.notes)) ==> NonEmptyContents(store.notes)
  {
    var created;
    created, notice := card.HandleSaveNote();
    if created.Some? {
      store.Create(created.value, id, date);
    }
  }

  /** Create "Hello", then "World", then delete "Hello": newest first, and only "Hello" goes. */
  method HelloWorldScenario(helloId: string, worldId: string, t1: int, t2: int)
    returns (afterCreates: seq<Note>, afterDelete: seq<Note>)
    requires helloId != worldId
    ensures afterCreates == [Note(worldId, t2, "World"), Note(helloId, t1, "Hello")]
    ensures afterDelete == [Note(worldId, t2, "World")]
  {
    var store := new Store(None);
    store.Create("Hello", helloId, t1);
    store.Create("World", worldId, t2);
    afterCreates := store.notes;
    DeletePresent(store.notes, 1);
    var _ := store.Delete(helloId);
    afterDelete := store.notes;
  }

  /** The list itself accepts an empty note; only the card refuses one. */
  method EmptyContentScenario(id: string, t: int) returns (after: seq<Note>, stored: Option<seq<Note>>)
    ensures after == [Note(id, t, "")] && stored == Some(after)
  {
    var store := new Store(None);
    store.Create("", id, t);
    after, stored := store.notes, store.stored;
  }

  /** Asking to record in a browser without speech recognition leaves the card as it was. */
  method UnsupportedBrowserScenario()
    returns (onboarding: bool, draft: string, recording: bool, notice: Option<Toast>)
    ensures onboarding && draft == "" && !recording
    ensures notice == Some(RecordingUnsupported)
  {
    var card := new NewNoteCard();
    notice := card.HandleStartRecording(false);
    onboarding, draft, recording := card.shouldShowOnboarding, card.content, card.isRecording;
  }

  /**
   * Two interim events, the second repeating the first result and adding
   * one: the draft is the second event's transcript, not the two appended.
   */
  method InterimResultsScenario() returns (draft: string)
    ensures draft == "hello world"
  {
    var card := new NewNoteCard();
    var _ := card.HandleStartRecording(true);
    card.HandleResult([["hello "]]);
    card.HandleResult([["hello "], ["world"]]);
    draft := card.content;
  }
}
