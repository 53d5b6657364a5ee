/** The feedback form and its CSV store (features/5-Feedback.py): a
    submission with every required field filled in is appended to the
    store as one row; anything else is refused and the store is left as it
    was. */
module FeedbackStore {
  import opened Wrappers

  /** The "Easy to Use" choices. */
  datatype Ease = Yes | No | Somewhat

  /** The rating slider's range. */
  type Rating = r: int | 1 <= r <= 5 witness 3

  /** One saved row, with the six columns of the store. */
  datatype Feedback = Feedback(name: string, email: string, rating: Rating, easyToUse: Ease,
                               challenges: string, generalFeedback: string)

  /** The submit-time check: full name, email and challenges are required;
      the rating and ease always have a value and general feedback is
      optional. */
  predicate RequiredMissing(name: string, email: string, challenges: string) {
    name == "" || email == "" || challenges == ""
  }

  /** `save_feedback` on the file's rows: with no file the store becomes
      the one new row, otherwise the new row follows the old ones. */
  function Saved(file: Option<seq<Feedback>>, row: Feedback): (rows: seq<Feedback>)
    ensures |rows| == (if file.Some? then |file.value| else 0) + 1
    ensures rows[|rows| - 1] == row
    ensures file.Some? ==> rows[..|rows| - 1] == file.value
  {
    match file
    case None => [row]
    case Some(old_rows) => old_rows + [row]
  }

  /** The store after saving `rows` one after the other. */
  function AfterSaves(file: Option<seq<Feedback>>, rows: seq<Feedback>): (r: Option<seq<Feedback>>)
    decreases |rows|
  {
    if rows == [] then file
    else Some(Saved(AfterSaves(file, rows[..|rows| - 1]), rows[|rows| - 1]))
  }

  /** Saves into a missing store leave exactly the saved rows, in
      submission order. */
  lemma {:induction false} SavesFromNothing(rows: seq<Feedback>)
    requires rows != []
    ensures AfterSaves(None, rows) == Some(rows)
  {
    if |rows| == 1 {
      assert rows[..0] == [] && rows == [rows[0]];
    } else {
      SavesFromNothing(rows[..|rows| - 1]);
      assert rows[..|rows| - 1] + [rows[|rows| - 1]] == rows;
    }
  }

  /** Saves into an existing store keep its rows, unchanged and first, and
      add the new rows after them in submission order. */
  lemma {:induction false} SavesAppend(existing: seq<Feedback>, rows: seq<Feedback>)
    ensures AfterSaves(Some(existing), rows) == Some(existing + rows)
  {
    if rows == [] {
      assert existing + rows == existing;
    } else {
      var init, last := rows[..|rows| - 1], rows[|rows| - 1];
      SavesAppend(existing, init);
      assert AfterSaves(Some(existing), rows) == Some(Saved(Some(existing + init), last));
      assert existing + init + [last] == existing + rows;
    }
  }

  /** The feedback file: `None` until the first row is saved. */
  class Store {
    var file: Option<seq<Feedback>>

    constructor ()
      ensures file == None
    {
      file := None;
    }

    /** `save_feedback`: the file is rewritten with the new row appended. */
    method Save(row: Feedback)
      modifies this
      ensures file == Some(Saved(old(file), row))
    {
      if file.Some? {
        file := Some(file.value + [row]);
      } else {
        file := Some([row]);
      }
    }

    /** Pressing "Submit": a submission missing a required field is refused
        and nothing is saved; any other is saved as one row holding exactly
        the six submitted values. */
    method Submit(name: string, email: string, rating: Rating, easyToUse: Ease,
                  challenges: string, generalFeedback: string) returns (saved: bool)
      modifies this
      ensures saved <==> !RequiredMissing(name, email, challenges)
      ensures !saved ==> file == old(file)
      ensures saved ==> file == Some(Saved(old(file), Feedback(name, email, rating, easyToUse, challenges, generalFeedback)))
    {
      if RequiredMissing(name, email, challenges) {
        return false;
      }
      Save(Feedback(name, email, rating, easyToUse, challenges, generalFeedback));
      saved := true;
    }
  }
}
