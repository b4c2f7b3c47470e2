/**
 * The "add note" card (nlw-expert-notes/src/components/new-note-card.tsx):
 * a dialog that collects a draft either by typing or from the browser's
 * speech recognizer, and hands a non-empty draft to the note list.
 */
module CaptureSurface {
  import opened Wrappers
  import opened Feedback

  /**
   * The browser's speech recognizer, reduced to whether it is listening:
   * `start()` turns it on and `stop()` turns it off, whatever it was doing.
   */
  class SpeechRecognition {
    var listening: bool

    /** `new SpeechRecognitionAPI()`: created idle. */
    constructor ()
      ensures !listening
    {
      listening := false;
    }

    method Start()
      modifies this
      ensures listening
    {
      listening := true;
    }

    method Stop()
      modifies this
      ensures !listening
    {
      listening := false;
    }
  }

  /** Every result of a recognition event carries at least one alternative. */
  predicate WellFormed(results: seq<seq<string>>) {
    forall i :: 0 <= i < |results| ==> |results[i]| > 0
  }

  /** The best alternatives of an event, in order. */
  function Firsts(results: seq<seq<string>>): (firsts: seq<string>)
    requires WellFormed(results)
    ensures |firsts| == |results|
    ensures forall i :: 0 <= i < |results| ==> firsts[i] == results[i][0]
  {
    seq(|results|, i requires 0 <= i < |results| => results[i][0])
  }

  /** Plain concatenation of a list of strings, front to back. */
  function Concat(parts: seq<string>): string
    decreases |parts|
  {
    if parts == [] then "" else parts[0] + Concat(parts[1..])
  }

  lemma {:induction false} ConcatAppend(a: seq<string>, b: seq<string>)
    ensures Concat(a + b) == Concat(a) + Concat(b)
    decreases |a|
  {
    if a == [] {
      assert a + b == b;
    } else {
      assert (a + b)[1..] == a[1..] + b;
      ConcatAppend(a[1..], b);
    }
  }

  /**
   * The transcript of one recognition event: the `reduce` that concatenates
   * the first alternative of every result, starting from the empty string.
   * A left fold, so it peels off the last result; it yields every best
   * alternative, each once, in order, and nothing else.
   */
  function Transcript(results: seq<seq<string>>): (text: string)
    requires WellFormed(results)
    ensures text == Concat(Firsts(results))
    decreases |results|
  {
    if results == [] then ""
    else
      var init, last := results[..|results| - 1], results[|results| - 1][0];
      assert Firsts(results) == Firsts(init) + [last];
      ConcatAppend(Firsts(init), [last]);
      assert Concat([last]) == last;
      Transcript(init) + last
  }

  /** Transcribing two batches of results is transcribing each and joining the texts. */
  lemma {:induction false} TranscriptAppend(a: seq<seq<string>>, b: seq<seq<string>>)
    requires WellFormed(a) && WellFormed(b)
    ensures WellFormed(a + b)
    ensures Transcript(a + b) == Transcript(a) + Transcript(b)
  {
    assert Firsts(a + b) == Firsts(a) + Firsts(b);
    ConcatAppend(Firsts(a), Firsts(b));
  }

  /**
   * The component's state: the three `useState` fields and the recognizer
   * handle, which the source keeps in a module-level variable and here
   * belongs to the card.
   */
  class NewNoteCard {
    var shouldShowOnboarding: bool
    var content: string
    var isRecording: bool
    var speechRecognition: SpeechRecognition?

    /** The recording flag is on exactly when the current recognizer is listening. */
    ghost predicate Valid()
      reads this, speechRecognition
    {
      isRecording <==> (speechRecognition != null && speechRecognition.listening)
    }

    /** The first render: onboarding shown, empty draft, not recording, no recognizer. */
    constructor ()
      ensures Valid()
      ensures shouldShowOnboarding && content == "" && !isRecording
      ensures speechRecognition == null
    {
      shouldShowOnboarding := true;
      content := "";
      isRecording := false;
      speechRecognition := null;
    }

    /** `handleStartEditor`: switches from the onboarding text to the text area. */
    method HandleStartEditor()
      requires Valid()
      modifies this
      ensures Valid()
      ensures !shouldShowOnboarding
      ensures content == old(content) && isRecording == old(isRecording)
      ensures speechRecognition == old(speechRecognition)
    {
      shouldShowOnboarding := false;
    }

    /** `handleContentChanged`: the draft becomes the typed value; clearing it shows onboarding. */
    method HandleContentChanged(value: string)
      requires Valid()
      modifies this
      ensures Valid()
      ensures content == value
      ensures shouldShowOnboarding == (value == "" || old(shouldShowOnboarding))
      ensures isRecording == old(isRecording)
      ensures speechRecognition == old(speechRecognition)
    {
      content := value;
      if value == "" {
        shouldShowOnboarding := true;
      }
    }

    /** `handleCloseOnboarding`: stops a recognizer if there is one and resets the card. */
    method HandleCloseOnboarding()
      requires Valid()
      modifies this, speechRecognition
      ensures Valid()
      ensures shouldShowOnboarding && content == "" && !isRecording
      ensures speechRecognition == old(speechRecognition)
      ensures speechRecognition != null ==> !speechRecognition.listening
    {
      if speechRecognition != null {
        speechRecognition.Stop();
      }
      // The source calls `setIsRecording(false)` twice here; once is enough.
      shouldShowOnboarding := true;
      isRecording := false;
      content := "";
    }

    /**
     * `handleSaveNote`. `created` is the argument of the one `onNoteCreated`
     * call, or `None` when the draft is empty and nothing is called.
     */
    method HandleSaveNote() returns (created: Option<string>, notice: Toast)
      requires Valid()
      modifies this, speechRecognition
      ensures Valid()
      ensures speechRecognition == old(speechRecognition)
      ensures old(content) == "" ==>
        && created == None && notice == EmptyNote
        && shouldShowOnboarding == old(shouldShowOnboarding)
        && content == old(content) && isRecording == old(isRecording)
        && (speechRecognition != null ==> speechRecognition.listening == old(speechRecognition.listening))
      ensures old(content) != "" ==>
        && created == Some(old(content)) && notice == NoteSaved
        && shouldShowOnboarding && content == "" && !isRecording
        && (speechRecognition != null ==> !speechRecognition.listening)
    {
      if content == "" {
        created, notice := None, EmptyNote;
      } else {
        created := Some(content);
        notice := NoteSaved;
        content := "";
        HandleCloseOnboarding();
      }
    }

    /**
     * `handleStartRecording`; `available` says whether the browser offers a
     * speech recognizer. Without one only a notice appears; with one a fresh,
     * listening recognizer replaces the handle.
     */
    method HandleStartRecording(available: bool) returns (notice: Option<Toast>)
      requires Valid()
      modifies this
      ensures Valid()
      ensures content == old(content)
      ensures !available ==>
        && notice == Some(RecordingUnsupported)
        && shouldShowOnboarding == old(shouldShowOnboarding)
        && isRecording == old(isRecording)
        && speechRecognition == old(speechRecognition)
      ensures available ==>
        && notice == None && isRecording && !shouldShowOnboarding
        && speechRecognition != null && fresh(speechRecognition)
        && speechRecognition.listening
    {
      if !available {
        notice := Some(RecordingUnsupported);
        return;
      }
      notice := None;
      isRecording := true;
      shouldShowOnboarding := false;
      var recognizer := new SpeechRecognition();
      speechRecognition := recognizer;
      recognizer.Start();
    }

    /**
     * The recognizer's `onresult` callback: the draft becomes the transcript
     * of the event, dropping whatever it held before.
     */
    method HandleResult(results: seq<seq<string>>)
      requires Valid() && speechRecognition != null && WellFormed(results)
      modifies this
      ensures Valid()
      ensures content == Transcript(results)
      ensures shouldShowOnboarding == old(shouldShowOnboarding)
      ensures isRecording == old(isRecording)
      ensures speechRecognition == old(speechRecognition)
    {
      content := Transcript(results);
    }

    /** `handleStopRecording`: stops a recognizer if there is one; the draft stays. */
    method HandleStopRecording()
      requires Valid()
      modifies this, speechRecognition
      ensures Valid()
      ensures !isRecording
      ensures content == old(content)
      ensures shouldShowOnboarding == old(shouldShowOnboarding)
      ensures speechRecognition == old(speechRecognition)
      ensures speechRecognition != null ==> !speechRecognition.listening
    {
      if speechRecognition != null {
        speechRecognition.Stop();
      }
      isRecording := false;
    }
  }
}
