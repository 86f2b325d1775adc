/**
 * The subjects card: a text input whose trimmed, non-blank content is
 * forwarded as a new subject, and one row per subject whose delete action
 * forwards that row's subject.
 */
module SubjectsManager {
  import opened Js
  import opened Text

  /** The component's one state field, the text in the new-subject input. */
  class SubjectInput {
    var newSubject: string

    /** The input starts empty. */
    constructor()
      ensures newSubject == ""
    {
      newSubject := "";
    }

    /** Typing into the input. */
    method SetNewSubject(text: string)
      modifies this
      ensures newSubject == text
    {
      newSubject := text;
    }

    /** The Add button is disabled exactly when the input trims to nothing. */
    predicate AddDisabled()
      reads this
      ensures AddDisabled() <==> AllSpace(newSubject)
    {
      BlankIffAllSpace(newSubject);
      IsBlank(newSubject)
    }

    /**
     * `handleAddClick`: a non-blank input is forwarded trimmed and the input
     * is cleared; a blank one forwards nothing and stays as it is.
     */
    method HandleAddClick() returns (added: Option<string>)
      modifies this
      ensures added == Forwarded(old(newSubject))
      ensures added.Some? <==> !old(AddDisabled())
      ensures added.Some? ==> added.value == Trim(old(newSubject)) && newSubject == ""
      ensures added.None? ==> newSubject == old(newSubject)
    {
      if !IsBlank(newSubject) {
        added := Some(Trim(newSubject));
        newSubject := "";
      } else {
        added := None;
      }
    }

    /** Pressing a key in the input: Enter behaves as the Add button, any other key does nothing. */
    method KeyPress(key: string) returns (added: Option<string>)
      modifies this
      ensures key != "Enter" ==> added == None && newSubject == old(newSubject)
      ensures key == "Enter" && old(AddDisabled()) ==> added == None && newSubject == old(newSubject)
      ensures key == "Enter" && !old(AddDisabled()) ==> added == Some(Trim(old(newSubject))) && newSubject == ""
    {
      if key == "Enter" {
        added := HandleAddClick();
      } else {
        added := None;
      }
    }
  }

  /** What the Add button forwards for a given input, if anything. */
  function Forwarded(input: string): (added: Option<string>)
  {
    if IsBlank(input) then None else Some(Trim(input))
  }

  /**
   * A forwarded name is never blank and has nothing left to trim, so
   * forwarding it again as typed would give the same name.
   */
  lemma ForwardedIsTrimmedName(input: string)
    ensures Forwarded(input).Some? ==> !IsBlank(Forwarded(input).value)
    ensures Forwarded(input).Some? ==> Trim(Forwarded(input).value) == Forwarded(input).value
    ensures Forwarded(input).Some? ==> Forwarded(Forwarded(input).value) == Forwarded(input)
    ensures Forwarded(input).None? <==> AllSpace(input)
  {
    TrimIdempotent(input);
    BlankIffAllSpace(input);
  }

  /** Spaces typed around a name are not forwarded. */
  lemma PaddedNameForwardedBare(pre: string, name: string, post: string)
    requires AllSpace(pre) && AllSpace(post)
    requires name != [] && !IsSpace(name[0]) && !IsSpace(name[|name| - 1])
    ensures Forwarded(pre + name + post) == Some(name)
  {
    TrimPadded(pre, name, post);
  }

  /** One row of the subject list: the name shown and the name its delete action forwards. */
  datatype SubjectRow = SubjectRow(shown: string, deletes: string)

  /** The list's rows, one per subject, in order. */
  function Rows(subjects: seq<string>): (rows: seq<SubjectRow>)
    ensures |rows| == |subjects|
    ensures forall i :: 0 <= i < |rows| ==> rows[i].shown == subjects[i]
    ensures forall i :: 0 <= i < |rows| ==> rows[i].deletes == rows[i].shown
  {
    seq(|subjects|, i requires 0 <= i < |subjects| => SubjectRow(subjects[i], subjects[i]))
  }
}
