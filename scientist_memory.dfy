/**
 * src/hooks/useScientistMemory.ts: the scientist's memory ledger. Two
 * append-only lists of strings, the notes and the mood trajectory, that only
 * `clear` empties. The refs callbacks read are copies the effects refresh
 * after a render, so between an update and `SyncRefs` they still hold the
 * old lists.
 */
module Memory {
  class ScientistMemory {
    var notes: seq<string>
    var moods: seq<string>
    /** `accumulatedNotesRef.current` */
    var notesRef: seq<string>
    /** `moodTrajectoryRef.current` */
    var moodsRef: seq<string>

    constructor ()
      ensures notes == [] && moods == [] && notesRef == [] && moodsRef == []
    {
      notes := [];
      moods := [];
      notesRef := [];
      moodsRef := [];
    }

    /** `addNote`: the note goes at the tail; moods and the refs are untouched. */
    method AddNote(note: string)
      modifies this
      ensures notes == old(notes) + [note]
      ensures moods == old(moods) && notesRef == old(notesRef) && moodsRef == old(moodsRef)
    {
      notes := notes + [note];
    }

    /** `addMood`: the mood goes at the tail; notes and the refs are untouched. */
    method AddMood(mood: string)
      modifies this
      ensures moods == old(moods) + [mood]
      ensures notes == old(notes) && notesRef == old(notesRef) && moodsRef == old(moodsRef)
    {
      moods := moods + [mood];
    }

    /** `clear`: both lists become empty; the refs keep their values until the effects run. */
    method Clear()
      modifies this
      ensures notes == [] && moods == []
      ensures notesRef == old(notesRef) && moodsRef == old(moodsRef)
    {
      notes := [];
      moods := [];
    }

    /** The two effects copying the state into the refs after a render. */
    method SyncRefs()
      modifies this
      ensures notesRef == notes == old(notes) && moodsRef == moods == old(moods)
    {
      notesRef := notes;
      moodsRef := moods;
    }
  }
}
