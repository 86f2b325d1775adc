/**
 * The syllabus editor: per-subject topic lists that can be appended to,
 * edited in place and deleted from, every change reported to the parent and
 * then written to storage; and the subject list, sorted in place.
 *
 * The syllabus is a prop: each handler is given it and reports the new one
 * through the effect log `effects`, in the order the component makes its
 * two calls. The component's own `useState` fields are the fields of
 * `SyllabusEditor`.
 */
module SyllabusManager {
  import opened Js
  import opened Text
  import opened Planner

  // ---------------------------------------------------------------------
  // Copy-on-write updates of the syllabus
  // ---------------------------------------------------------------------

  /**
   * `{ ...data, [subject]: [...(data[subject] || []), topic] }`: the topic
   * appended to the subject's list, which is created when absent; every
   * other subject keeps its list.
   */
  function WithTopicAdded(data: Syllabus, subject: string, topic: string): (r: Syllabus)
    ensures r.Keys == data.Keys + {subject}
    ensures r[subject] == (if subject in data then data[subject] else []) + [topic]
    ensures forall s :: s in data && s != subject ==> r[s] == data[s]
  {
    data[subject := (if subject in data then data[subject] else []) + [topic]]
  }

  /**
   * `copy = [...data[subject]]; copy[index] = text; { ...data, [subject]: copy }`:
   * the topic at `index` replaced (one past the end appends, as a JS array
   * does); the length, the other topics and the other subjects are kept.
   */
  function WithTopicReplaced(data: Syllabus, subject: string, index: int, text: string): (r: Syllabus)
    requires subject in data && 0 <= index <= |data[subject]|
    ensures r.Keys == data.Keys
    ensures |r[subject]| == if index < |data[subject]| then |data[subject]| else |data[subject]| + 1
    ensures r[subject][index] == text
    ensures forall k :: 0 <= k < |data[subject]| && k != index ==> r[subject][k] == data[subject][k]
    ensures forall s :: s in data && s != subject ==> r[s] == data[s]
  {
    var topics := data[subject];
    data[subject := if index < |topics| then topics[index := text] else topics + [text]]
  }

  /**
   * `{ ...data, [subject]: data[subject].filter((_, i) => i !== index) }`:
   * the topic at `index` removed, the rest in order; an index outside the
   * list removes nothing.
   */
  function WithTopicRemoved(data: Syllabus, subject: string, index: int): (r: Syllabus)
    requires subject in data
    ensures r.Keys == data.Keys
    ensures 0 <= index < |data[subject]| ==> r[subject] == data[subject][..index] + data[subject][index + 1..]
    ensures !(0 <= index < |data[subject]|) ==> r == data
    ensures forall s :: s in data && s != subject ==> r[s] == data[s]
  {
    data[subject := RemoveIndex(data[subject], index)]
  }

  /** Removing the topic just added to an existing subject gives back the syllabus as it was. */
  lemma RemoveAddedTopic(data: Syllabus, subject: string, topic: string)
    requires subject in data
    ensures WithTopicRemoved(WithTopicAdded(data, subject, topic), subject, |data[subject]|) == data
  {
    var added := WithTopicAdded(data, subject, topic);
    var back := WithTopicRemoved(added, subject, |data[subject]|);
    assert added[subject][..|data[subject]|] == data[subject];
    assert back[subject] == data[subject];
    assert back.Keys == data.Keys;
  }

  /** Replacing a topic with the text it already has gives back the same syllabus. */
  lemma ReplaceWithSame(data: Syllabus, subject: string, index: int)
    requires subject in data && 0 <= index < |data[subject]|
    ensures WithTopicReplaced(data, subject, index, data[subject][index]) == data
  {
    assert data[subject][index := data[subject][index]] == data[subject];
  }

  /**
   * A topic typed with white space around it is stored without it: the
   * trimmed text is non-empty, starts and ends with a non-space character,
   * and is the typed text with only white space removed from its ends.
   */
  lemma StoredTopicIsTrimmed(typed: string)
    requires !IsBlank(typed)
    ensures Trim(typed) != ""
    ensures !IsSpace(Trim(typed)[0]) && !IsSpace(Trim(typed)[|Trim(typed)| - 1])
    ensures exists a :: Surrounds(typed, Trim(typed), a)
  {
    TrimSpec(typed);
  }

  // ---------------------------------------------------------------------
  // The component's state and its handlers
  // ---------------------------------------------------------------------

  /** What the editor reports, in order: the new syllabus to the parent, then to storage. */
  datatype Effect = SyllabusChanged(data: Syllabus) | SyllabusSaved(data: Syllabus)

  /** `saveSyllabus(data)`: the parent is told first, storage second. */
  function SaveEffects(data: Syllabus): (e: seq<Effect>)
    ensures |e| == 2 && e[0].data == data && e[1].data == data
    ensures e[0].SyllabusChanged? && e[1].SyllabusSaved?
  {
    [SyllabusChanged(data), SyllabusSaved(data)]
  }

  /** `editingTopic`: the index of the topic being edited (`null` when none) and its draft text. */
  datatype TopicEdit = TopicEdit(index: Option<int>, text: string)

  const NoTopicEdit: TopicEdit := TopicEdit(None, "")

  /** The editor's `useState` fields, and the calls it has made so far. */
  class SyllabusEditor {
    var editingSubject: Option<string>
    var newTopic: string
    var editingTopic: TopicEdit
    var effects: seq<Effect>

    constructor()
      ensures editingSubject == None && newTopic == "" && editingTopic == NoTopicEdit && effects == []
    {
      editingSubject := None;
      newTopic := "";
      editingTopic := NoTopicEdit;
      effects := [];
    }

    /** Typing a new topic; in the list view the subject whose box it is becomes the editing subject. */
    method TypeNewTopic(text: string, subject: Option<string>)
      modifies this`newTopic, this`editingSubject
      ensures newTopic == text
      ensures editingSubject == if subject.Some? then subject else old(editingSubject)
    {
      newTopic := text;
      if subject.Some? {
        editingSubject := subject;
      }
    }

    /** `setEditingSubject`: the list view's pencil button sets it, its cancel button clears it. */
    method SetEditingSubject(subject: Option<string>)
      modifies this`editingSubject
      ensures editingSubject == subject
    {
      editingSubject := subject;
    }

    /** The new-topic box of `subject` in the list view shows the draft only when that subject is being edited. */
    function ShownNewTopic(subject: string): (shown: string)
      reads this
      ensures editingSubject != Some(subject) ==> shown == ""
      ensures editingSubject == Some(subject) ==> shown == newTopic
    {
      if editingSubject == Some(subject) then newTopic else ""
    }

    /**
     * Whether the Add button is disabled: in the dialog (no subject given)
     * when the draft is blank; in the list view also when another subject is
     * being edited.
     */
    predicate AddDisabled(listSubject: Option<string>)
      reads this
      ensures AddDisabled(listSubject) <==> AllSpace(newTopic) || (listSubject.Some? && editingSubject != listSubject)
    {
      BlankIffAllSpace(newTopic);
      IsBlank(newTopic) || (listSubject.Some? && editingSubject != listSubject)
    }

    /**
     * In the list view only the box of the subject being edited has a live
     * Add button, and that box shows the draft the button would add.
     */
    lemma ListAddEnabledOnlyForEditingSubject(subject: string)
      ensures !AddDisabled(Some(subject)) ==>
                editingSubject == Some(subject) && ShownNewTopic(subject) == newTopic && !AllSpace(newTopic)
      ensures editingSubject != Some(subject) ==> AddDisabled(Some(subject)) && ShownNewTopic(subject) == ""
      ensures AddDisabled(None) ==> AddDisabled(Some(subject))
    {
    }

    /**
     * `addTopic`: a blank draft does nothing; otherwise the trimmed draft is
     * appended to the subject's topics, the new syllabus is reported and
     * saved, and the draft is cleared.
     */
    method AddTopic(syllabusData: Syllabus, subject: string)
      modifies this`effects, this`newTopic
      ensures IsBlank(old(newTopic)) ==> effects == old(effects) && newTopic == old(newTopic)
      ensures !IsBlank(old(newTopic)) ==>
                effects == old(effects) + SaveEffects(WithTopicAdded(syllabusData, subject, Trim(old(newTopic)))) &&
                newTopic == ""
      ensures effects == old(effects) <==> old(AddDisabled(None))
    {
      if Trim(newTopic) == "" {
        return;
      }
      var updated := WithTopicAdded(syllabusData, subject, Trim(newTopic));
      effects := effects + SaveEffects(updated);
      newTopic := "";
    }

    /**
     * `updateTopic`: blank text does nothing, nor does a subject without a
     * list (copying `undefined` throws); otherwise the topic at `index` is
     * replaced by the trimmed text, the new syllabus is reported and saved,
     * and the topic editor is closed.
     */
    method UpdateTopic(syllabusData: Syllabus, subject: string, index: int, newText: string)
      requires !IsBlank(newText) && subject in syllabusData ==> 0 <= index <= |syllabusData[subject]|
      modifies this`effects, this`editingTopic
      ensures IsBlank(newText) || subject !in syllabusData ==>
                effects == old(effects) && editingTopic == old(editingTopic)
      ensures !IsBlank(newText) && subject in syllabusData ==>
                effects == old(effects) + SaveEffects(WithTopicReplaced(syllabusData, subject, index, Trim(newText))) &&
                editingTopic == NoTopicEdit
    {
      if Trim(newText) == "" || subject !in syllabusData {
        return;
      }
      var updated := WithTopicReplaced(syllabusData, subject, index, Trim(newText));
      effects := effects + SaveEffects(updated);
      editingTopic := NoTopicEdit;
    }

    /**
     * `deleteTopic`: the topic at `index` is removed, and the new syllabus is
     * reported and saved; a subject without a list does nothing (filtering
     * `undefined` throws).
     */
    method DeleteTopic(syllabusData: Syllabus, subject: string, index: int)
      modifies this`effects
      ensures subject !in syllabusData ==> effects == old(effects)
      ensures subject in syllabusData ==>
                effects == old(effects) + SaveEffects(WithTopicRemoved(syllabusData, subject, index))
    {
      if subject !in syllabusData {
        return;
      }
      var updated := WithTopicRemoved(syllabusData, subject, index);
      effects := effects + SaveEffects(updated);
    }

    /** `startEditingTopic`: the topic editor opens on `index` with the topic's text. */
    method StartEditingTopic(index: int, text: string)
      modifies this`editingTopic
      ensures editingTopic == TopicEdit(Some(index), text)
    {
      editingTopic := TopicEdit(Some(index), text);
    }

    /** Typing in the topic editor changes only the draft text. */
    method EditTopicText(text: string)
      modifies this`editingTopic
      ensures editingTopic == old(editingTopic).(text := text)
    {
      editingTopic := editingTopic.(text := text);
    }

    /** The topic editor's cancel button. */
    method CancelTopicEdit()
      modifies this`editingTopic
      ensures editingTopic == NoTopicEdit
    {
      editingTopic := NoTopicEdit;
    }
  }

  // ---------------------------------------------------------------------
  // `subjectList.sort()`
  // ---------------------------------------------------------------------

  /**
   * The default sort order of strings: character by character, a proper
   * prefix first.
   */
  predicate StrLe(a: string, b: string)
  {
    if a == [] then true
    else if b == [] then false
    else if a[0] != b[0] then a[0] < b[0]
    else StrLe(a[1..], b[1..])
  }

  /** Every string is ordered against itself. */
  lemma {:induction false} StrLeRefl(a: string)
    ensures StrLe(a, a)
  {
    if a != [] {
      StrLeRefl(a[1..]);
    }
  }

  /** Any two strings are ordered one way or the other. */
  lemma {:induction false} StrLeTotal(a: string, b: string)
    ensures StrLe(a, b) || StrLe(b, a)
  {
    if a != [] && b != [] && a[0] == b[0] {
      StrLeTotal(a[1..], b[1..]);
    }
  }

  /** Two strings ordered both ways are equal. */
  lemma {:induction false} StrLeAntisymmetric(a: string, b: string)
    requires StrLe(a, b) && StrLe(b, a)
    ensures a == b
  {
    if a != [] && b != [] {
      StrLeAntisymmetric(a[1..], b[1..]);
      assert a == [a[0]] + a[1..] && b == [b[0]] + b[1..];
    }
  }

  /** The order is transitive. */
  lemma {:induction false} StrLeTransitive(a: string, b: string, c: string)
    requires StrLe(a, b) && StrLe(b, c)
    ensures StrLe(a, c)
  {
    if a != [] && b != [] && c != [] && a[0] == b[0] && b[0] == c[0] {
      StrLeTransitive(a[1..], b[1..], c[1..]);
    }
  }

  /** The first `n` entries of `s` are in order. */
  ghost predicate SortedPrefix(s: seq<string>, n: int)
  {
    forall p, q :: 0 <= p < q < n && q < |s| ==> StrLe(s[p], s[q])
  }

  ghost predicate Sorted(s: seq<string>) { SortedPrefix(s, |s|) }

  /** The first entry of a sorted sequence is not above any of its entries. */
  lemma SortedHead(s: seq<string>, x: string)
    requires Sorted(s) && x in multiset(s)
    ensures StrLe(s[0], x)
  {
    var j :| 0 <= j < |s| && s[j] == x;
    if j == 0 { StrLeRefl(x); }
  }

  /** Dropping the first entry of both sides keeps two multisets with equal heads equal. */
  lemma TailsSameElements(s: seq<string>, t: seq<string>)
    requires s != [] && t != [] && s[0] == t[0] && multiset(s) == multiset(t)
    ensures multiset(s[1..]) == multiset(t[1..])
  {
    assert s == [s[0]] + s[1..] && t == [t[0]] + t[1..];
    assert multiset(s) == multiset{s[0]} + multiset(s[1..]);
    assert multiset(t) == multiset{t[0]} + multiset(t[1..]);
    forall z ensures multiset(s[1..])[z] == multiset(t[1..])[z] {
      assert multiset(s)[z] == multiset{s[0]}[z] + multiset(s[1..])[z];
      assert multiset(t)[z] == multiset{t[0]}[z] + multiset(t[1..])[z];
    }
  }

  /** Sorted sequences with the same elements are the same sequence: the order decides the result. */
  lemma {:induction false} SortedUnique(s: seq<string>, t: seq<string>)
    requires Sorted(s) && Sorted(t) && multiset(s) == multiset(t)
    ensures s == t
    decreases |s|
  {
    if s != [] {
      assert |t| == |multiset(t)| == |s|;
      assert t[0] in multiset(t) && s[0] in multiset(s);
      SortedHead(s, t[0]);
      SortedHead(t, s[0]);
      StrLeAntisymmetric(s[0], t[0]);
      TailsSameElements(s, t);
      SortedUnique(s[1..], t[1..]);
      assert s == [s[0]] + s[1..] && t == [t[0]] + t[1..];
    }
  }

  /**
   * `subjectList.sort()`: reorders the caller's array in place into the
   * default string order; it holds the same names as before.
   */
  method SortSubjects(a: array<string>)
    modifies a
    ensures Sorted(a[..])
    ensures multiset(a[..]) == multiset(old(a[..]))
  {
    if a.Length == 0 {
      return;
    }
    var i := 1;
    while i < a.Length
      invariant 1 <= i <= a.Length
      invariant SortedPrefix(a[..], i)
      invariant multiset(a[..]) == multiset(old(a[..]))
    {
      InsertLast(a, i);
      i := i + 1;
    }
  }

  /**
   * While `a[i]` moves left: the entries up to `i` other than the one at `j`
   * are in order, and the moving entry is not above any entry to its right.
   */
  ghost predicate Inserting(s: seq<string>, j: int, i: int)
    requires 0 <= j <= i < |s|
  {
    (forall p, q :: 0 <= p < q <= i && p != j && q != j ==> StrLe(s[p], s[q])) &&
    (forall q :: j < q <= i ==> StrLe(s[j], s[q]))
  }

  /** Swapping the moving entry with a larger left neighbour keeps `Inserting`, one place further left. */
  lemma SwapStep(s: seq<string>, j: int, i: int)
    requires 0 < j <= i < |s|
    requires Inserting(s, j, i) && !StrLe(s[j - 1], s[j])
    ensures Inserting(s[j - 1 := s[j]][j := s[j - 1]], j - 1, i)
    ensures multiset(s[j - 1 := s[j]][j := s[j - 1]]) == multiset(s)
  {
    StrLeTotal(s[j - 1], s[j]);
  }

  /** Once the moving entry is at the front or not below its left neighbour, the prefix is in order. */
  lemma InsertDone(s: seq<string>, j: int, i: int)
    requires 0 <= j <= i < |s|
    requires Inserting(s, j, i) && (j == 0 || StrLe(s[j - 1], s[j]))
    ensures SortedPrefix(s, i + 1)
  {
    forall p, q | 0 <= p < q <= i
      ensures StrLe(s[p], s[q])
    {
      if q == j && p < j - 1 {
        StrLeTransitive(s[p], s[j - 1], s[j]);
      }
    }
  }

  /** Moves `a[i]` left, by swaps, to its place among the sorted `a[..i]`. */
  method InsertLast(a: array<string>, i: int)
    requires 0 < i < a.Length
    requires SortedPrefix(a[..], i)
    modifies a
    ensures SortedPrefix(a[..], i + 1)
    ensures multiset(a[..]) == multiset(old(a[..]))
  {
    var j := i;
    while j > 0 && !StrLe(a[j - 1], a[j])
      invariant 0 <= j <= i
      invariant multiset(a[..]) == multiset(old(a[..]))
      invariant Inserting(a[..], j, i)
    {
      ghost var before := a[..];
      SwapStep(before, j, i);
      a[j - 1], a[j] := a[j], a[j - 1];
      assert a[..] == before[j - 1 := before[j]][j := before[j - 1]];
      j := j - 1;
    }
    InsertDone(a[..], j, i);
  }
}
