/**
  The sleep card: which score it shows and in which colour, and how its note editor
  moves between viewing, editing and saving.
*/
module SleepCard {
  import opened Wrappers
  import opened Js
  import OuraApi

  type SleepRecord = OuraApi.SleepRecord
  type SleepNote = OuraApi.SleepNote

  // ---------------------------------------------------------------------------
  // The displayed score

  const NOT_AVAILABLE := "N/A"

  /** Where the raw upstream record may hold a score: `score`, then `contributors.score.value`. */
  const RAW_SCORE_PATHS: seq<Path> := [["score"], ["contributors", "score", "value"]]

  /** `sleepData.score && sleepData.score > 0` */
  predicate PositiveScore(score: Value)
  {
    Truthy(score) && Above(ToNumber(score), 0.0)
  }

  /**
    `getDisplayScore`: the record's own score when it is above 0, else what the raw
    record offers.
  */
  function GetDisplayScore(d: SleepRecord): (r: Value)
    ensures Truthy(r)
    ensures r == d.score || r == Str(NOT_AVAILABLE) || r == GetPath(d.rawData, RAW_SCORE_PATHS[0])
      || r == GetPath(d.rawData, RAW_SCORE_PATHS[1])
  {
    if PositiveScore(d.score) then d.score else RawDisplayScore(d.rawData)
  }

  /**
    The rest of `getDisplayScore`: a truthy `score` in the raw record, else a truthy
    `contributors.score.value` there, else `'N/A'`.
  */
  function RawDisplayScore(raw: Value): (r: Value)
    ensures Truthy(r)
    ensures r == Str(NOT_AVAILABLE) || r == GetPath(raw, RAW_SCORE_PATHS[0]) || r == GetPath(raw, RAW_SCORE_PATHS[1])
  {
    assert GetPath(raw, RAW_SCORE_PATHS[1]) == Get(Get(Get(raw, "contributors"), "score"), "value");
    if Truthy(raw) && Truthy(Get(raw, "score")) then Get(raw, "score")
    else if Truthy(raw) && Truthy(Get(raw, "contributors"))
      && Truthy(Get(Get(raw, "contributors"), "score"))
      && Truthy(Get(Get(Get(raw, "contributors"), "score"), "value"))
    then Get(Get(Get(raw, "contributors"), "score"), "value")
    else Str(NOT_AVAILABLE)
  }

  /**
    The fallback order of the displayed score is the record's own positive score, then the
    first truthy raw candidate in the order of `RAW_SCORE_PATHS`, then `'N/A'`.
  */
  lemma DisplayScoreOrder(d: SleepRecord)
    ensures GetDisplayScore(d) ==
      if PositiveScore(d.score) then d.score else FirstTruthy(d.rawData, RAW_SCORE_PATHS, Str(NOT_AVAILABLE))
  {
    RawDisplayScoreOrder(d.rawData);
  }

  lemma RawDisplayScoreOrder(raw: Value)
    ensures RawDisplayScore(raw) == FirstTruthy(raw, RAW_SCORE_PATHS, Str(NOT_AVAILABLE))
  {
    var first := Get(raw, "score");
    var deep := Get(Get(Get(raw, "contributors"), "score"), "value");
    assert GetPath(raw, RAW_SCORE_PATHS[0]) == first;
    assert GetPath(raw, RAW_SCORE_PATHS[1]) == deep;
    if Truthy(first) {
      assert Truthy(raw);
      FirstTruthyPicksFirst(raw, RAW_SCORE_PATHS, Str(NOT_AVAILABLE), 0);
    } else if Truthy(deep) {
      assert Truthy(raw);
      FirstTruthyPicksFirst(raw, RAW_SCORE_PATHS, Str(NOT_AVAILABLE), 1);
    } else {
      FirstTruthyFallsBack(raw, RAW_SCORE_PATHS, Str(NOT_AVAILABLE));
    }
  }

  /** A score of 0 in the record never shows as 0: it falls back to the raw record or to `'N/A'`. */
  lemma ZeroScoreFallsBack(d: SleepRecord)
    requires d.score == Num(0.0)
    ensures GetDisplayScore(d) != Num(0.0)
    ensures !Truthy(d.rawData) ==> GetDisplayScore(d) == Str(NOT_AVAILABLE)
  {
    if !Truthy(d.rawData) {
      assert Get(d.rawData, "score") == Undef;
    }
  }

  // ---------------------------------------------------------------------------
  // Colours

  /** The badge colours, from the best score to no score. */
  datatype Badge = Emerald | Amber | Red | Gray

  function BadgeRank(b: Badge): nat
  {
    match b
    case Gray => 0
    case Red => 1
    case Amber => 2
    case Emerald => 3
  }

  /**
    The badge colour of a displayed score: at least 75 emerald, at least 60 amber, above 0
    red, and gray otherwise or for `'N/A'`. The comparisons coerce the score with `Number`.
  */
  function BadgeOf(displayScore: Value): (b: Badge)
    ensures displayScore == Str(NOT_AVAILABLE) ==> b == Gray
  {
    var isValidScore := displayScore != Str(NOT_AVAILABLE);
    var n := ToNumber(displayScore);
    if isValidScore && AtLeast(n, 75.0) then Emerald
    else if isValidScore && AtLeast(n, 60.0) then Amber
    else if isValidScore && Above(n, 0.0) then Red
    else Gray
  }

  /** A higher numeric score never gets a lower badge. */
  lemma BadgeMonotone(a: real, b: real)
    requires a <= b
    ensures BadgeRank(BadgeOf(Num(a))) <= BadgeRank(BadgeOf(Num(b)))
  {
  }

  /** Numeric scores: the tiers start at 75, 60 and just above 0. */
  lemma BadgeThresholds(x: real)
    ensures BadgeOf(Num(x)) == Emerald <==> x >= 75.0
    ensures BadgeOf(Num(x)) == Gray <==> x <= 0.0
    ensures BadgeOf(Num(x)) == Amber <==> 60.0 <= x < 75.0
  {
  }

  /** A record whose own score is above 0 shows it with a coloured (not gray) badge. */
  lemma PositiveScoreIsColoured(d: SleepRecord, x: real)
    requires d.score == Num(x) && x > 0.0
    ensures GetDisplayScore(d) == Num(x)
    ensures BadgeOf(GetDisplayScore(d)) != Gray
  {
  }

  /** The colours of `getScoreColor`. */
  datatype Tone = Green | Yellow | RedTone

  /** `getScoreColor`: at least 80 green, at least 70 yellow, red otherwise (NaN included). */
  function ScoreColor(score: Number): (t: Tone)
    ensures score.NaN? ==> t == RedTone
  {
    if AtLeast(score, 80.0) then Green
    else if AtLeast(score, 70.0) then Yellow
    else RedTone
  }

  function ToneRank(t: Tone): nat
  {
    match t
    case RedTone => 0
    case Yellow => 1
    case Green => 2
  }

  /** A higher score never gets a lower tone, and the tones start at 80 and 70. */
  lemma ScoreColorMonotone(a: real, b: real)
    requires a <= b
    ensures ToneRank(ScoreColor(Finite(a))) <= ToneRank(ScoreColor(Finite(b)))
    ensures ScoreColor(Finite(a)) == Green <==> a >= 80.0
    ensures ScoreColor(Finite(a)) == Yellow <==> 70.0 <= a < 80.0
  {
  }

  // ---------------------------------------------------------------------------
  // The note editor

  const SAVE_REFUSED := "Failed to save notes. The database might not be set up correctly."
  const SAVE_FAILED := "An unexpected error occurred while saving notes."

  /** What `upsertSleepNote` does: stores and returns the note, returns nothing, or throws. */
  datatype SaveOutcome = Stored(note: SleepNote) | Refused | Failed

  /** `sleepData.notes?.notes || ''`: the saved text, or the empty text when there is no note. */
  function SavedText(note: Option<SleepNote>): (t: string)
    ensures note.None? ==> t == ""
  {
    if note.Some? then note.value.notes else ""
  }

  /** `notes === sleepData.notes?.notes`: there is a saved note and the text is its text. */
  predicate Unchanged(text: string, note: Option<SleepNote>)
  {
    note.Some? && note.value.notes == text
  }

  /**
    What the editor shows: the text being edited, whether it is open, the error of the
    last save, the record's note, and the texts sent to `upsertSleepNote` so far.
  */
  datatype Editor = Editor(notes: string, isEditing: bool, isDialogOpen: bool,
                           saveError: Option<string>, note: Option<SleepNote>, saves: seq<string>)

  /** `handleSaveNotes`: send the text; a stored note replaces the record's note and closes the editor. */
  function Save(e: Editor, outcome: SaveOutcome): (r: Editor)
    ensures r.saves == e.saves + [e.notes]
  {
    var sent := e.(saves := e.saves + [e.notes], saveError := None);
    match outcome
    case Stored(n) => sent.(note := Some(n), notes := n.notes, isDialogOpen := false, isEditing := false)
    case Refused => sent.(saveError := Some(SAVE_REFUSED))
    case Failed => sent.(saveError := Some(SAVE_FAILED))
  }

  /** `handleNotesClick` */
  function NotesClick(e: Editor): (r: Editor)
    ensures r.isEditing
  {
    e.(isEditing := true)
  }

  /** `handleBlur`: save a changed text, otherwise just stop editing. */
  function Blur(e: Editor, outcome: SaveOutcome): Editor
  {
    if !Unchanged(e.notes, e.note) then Save(e, outcome) else e.(isEditing := false)
  }

  /** `handleKeyDown`: Escape discards the edit, Enter saves, other keys change nothing. */
  function KeyDown(e: Editor, key: string, outcome: SaveOutcome): Editor
  {
    if key == "Escape" then e.(isEditing := false, notes := SavedText(e.note))
    else if key == "Enter" then Save(e, outcome)
    else e
  }

  /** Exactly a stored note ends the edit; a refused or failed save keeps the text and the editor open with an error. */
  lemma SaveOutcomes(e: Editor, outcome: SaveOutcome)
    ensures outcome.Stored? ==> var r := Save(e, outcome);
      r.note == Some(outcome.note) && r.notes == outcome.note.notes && !r.isEditing && r.saveError == None
    ensures !outcome.Stored? ==> var r := Save(e, outcome);
      r.note == e.note && r.notes == e.notes && r.isEditing == e.isEditing && r.saveError.Some?
  {
  }

  /** Blur saves exactly when the text differs from the saved note, and otherwise leaves editing. */
  lemma BlurSavesChanges(e: Editor, outcome: SaveOutcome)
    ensures Blur(e, outcome).saves != e.saves <==> !Unchanged(e.notes, e.note)
    ensures Unchanged(e.notes, e.note) ==> Blur(e, outcome) == e.(isEditing := false)
  {
  }

  /** A typed text that differs from the saved note is sent by the next blur, and one that matches it is not. */
  lemma TypedTextSavedOnBlur(e: Editor, text: string, outcome: SaveOutcome)
    ensures var r := Blur(e.(notes := text), outcome);
      && (!Unchanged(text, e.note) ==> r.saves == e.saves + [text])
      && (Unchanged(text, e.note) ==> r.saves == e.saves && !r.isEditing && r.notes == text)
  {
  }

  /** Without a saved note, blurring always saves, even an empty text (`'' !== undefined`). */
  lemma BlurWithoutNoteSaves(e: Editor, outcome: SaveOutcome)
    requires e.note.None?
    ensures Blur(e, outcome).saves == e.saves + [e.notes]
  {
  }

  /** Escape leaves editing and restores the saved text or `''`, without saving. */
  lemma EscapeRestores(e: Editor, outcome: SaveOutcome)
    ensures var r := KeyDown(e, "Escape", outcome);
      !r.isEditing && r.notes == SavedText(e.note) && r.saves == e.saves && r.note == e.note
  {
  }

  /** Enter saves the current text; a key other than Escape and Enter changes nothing. */
  lemma EnterSaves(e: Editor, key: string, outcome: SaveOutcome)
    ensures KeyDown(e, "Enter", outcome) == Save(e, outcome)
    ensures key != "Escape" && key != "Enter" ==> KeyDown(e, key, outcome) == e
  {
  }

  /** Once a note is stored, blurring does not save it again. */
  lemma StoredThenBlurIsQuiet(e: Editor, n: SleepNote, outcome: SaveOutcome)
    ensures var s := Save(e, Stored(n));
      Blur(s, outcome) == s
  {
  }

  /** After Escape, blurring saves again exactly when the record has no note. */
  lemma EscapeThenBlur(e: Editor, o1: SaveOutcome, o2: SaveOutcome)
    ensures var r := KeyDown(e, "Escape", o1);
      Blur(r, o2).saves != r.saves <==> e.note.None?
  {
  }

  /** The card's editor. `note` is the record's `sleepData.notes`, which a stored save replaces in place. */
  class NoteEditor {
    var notes: string
    var isEditing: bool
    var isSubmitting: bool
    var isDialogOpen: bool
    var saveError: Option<string>
    var note: Option<SleepNote>
    var saves: seq<string>

    function State(): Editor
      reads this
    {
      Editor(notes, isEditing, isDialogOpen, saveError, note, saves)
    }

    /** The mounted card: the editor shows the saved text and is closed. */
    constructor(note: Option<SleepNote>)
      ensures State() == Editor(SavedText(note), false, false, None, note, []) && !isSubmitting
    {
      this.notes := SavedText(note);
      this.isEditing := false;
      this.isSubmitting := false;
      this.isDialogOpen := false;
      this.saveError := None;
      this.note := note;
      this.saves := [];
    }

    method SaveNotes(outcome: SaveOutcome)
      modifies this
      ensures State() == Save(old(State()), outcome) && !isSubmitting
    {
      saveError := None;
      isSubmitting := true;
      saves := saves + [notes];
      match outcome {
        case Stored(n) =>
          note := Some(n);
          notes := n.notes;
          isDialogOpen := false;
          isEditing := false;
        case Refused =>
          saveError := Some(SAVE_REFUSED);
        case Failed =>
          saveError := Some(SAVE_FAILED);
      }
      isSubmitting := false;
    }

    /** The textarea's `onChange`: the typed text replaces the edited notes. */
    method HandleChange(text: string)
      modifies this
      ensures State() == old(State()).(notes := text) && isSubmitting == old(isSubmitting)
    {
      notes := text;
    }

    method HandleNotesClick()
      modifies this
      ensures State() == NotesClick(old(State())) && isSubmitting == old(isSubmitting)
    {
      isEditing := true;
    }

    method HandleBlur(outcome: SaveOutcome)
      modifies this
      ensures State() == Blur(old(State()), outcome)
      ensures !Unchanged(old(notes), old(note)) ==> !isSubmitting
      ensures Unchanged(old(notes), old(note)) ==> isSubmitting == old(isSubmitting)
    {
      if note.None? || notes != note.value.notes {
        SaveNotes(outcome);
      } else {
        isEditing := false;
      }
    }

    method HandleKeyDown(key: string, outcome: SaveOutcome)
      modifies this
      ensures State() == KeyDown(old(State()), key, outcome)
      ensures key == "Enter" ==> !isSubmitting
      ensures key != "Enter" ==> isSubmitting == old(isSubmitting)
    {
      if key == "Escape" {
        isEditing := false;
        notes := SavedText(note);
      } else if key == "Enter" {
        SaveNotes(outcome);
      }
    }
  }
}
