/**
 * What the translation promises, stated about the specification functions
 * of `FormEditor`: per question (title, `required`, type tag, options,
 * grading) and over the whole list (skipping, order, indices, failure).
 */
module FormEditorProperties {
  import opened Wrappers
  import opened Questions
  import opened FormsApi
  import opened FormEditor

  /** The option list of a question body, whichever of the two option-carrying parts holds it. */
  function OptionsOf(question: Question): seq<ChoiceOption> {
    if question.choiceQuestion.Some? then question.choiceQuestion.value.options
    else if question.dropdownQuestion.Some? then question.dropdownQuestion.value.options
    else []
  }

  /** Number of options flagged `isCorrect: true`. */
  function FlaggedCount(entries: seq<ChoiceOption>): nat {
    if entries == [] then 0
    else FlaggedCount(entries[..|entries| - 1]) + (if entries[|entries| - 1].isCorrect == Some(true) then 1 else 0)
  }

  /** A titled question whose type needs options but that has none: the loop raises on it. */
  predicate OptionsMissing(q: QuestionRecord) {
    q.title.Some? && Upper(q.typeTag.GetOr("")) in ChoiceTags && q.options.None?
  }

  /** Positions, in increasing order, of the first `n` questions that carry a title. */
  function TitledPositions(qs: seq<QuestionRecord>, n: nat): (p: seq<nat>)
    requires n <= |qs|
    ensures forall k :: 0 <= k < |p| ==> p[k] < n && qs[p[k]].title.Some?
    ensures forall j, k :: 0 <= j < k < |p| ==> p[j] < p[k]
    ensures forall i :: 0 <= i < n && qs[i].title.Some? ==> i in p
  {
    if n == 0 then []
    else TitledPositions(qs, n - 1) + (if qs[n - 1].title.Some? then [n - 1] else [])
  }

  // ---- one question ----

  /** The item keeps the title verbatim and the input position; `required` defaults to true. */
  lemma TitleLocationRequired(i: nat, q: QuestionRecord)
    requires q.title.Some?
    ensures ItemRequest(i, q).Success? ==>
      var r := ItemRequest(i, q).value;
      r.item.title == q.title.value && r.location.index == i &&
      r.item.question.required == (if q.required.Some? then q.required.value else true)
  {
  }

  /** Translation of a titled question fails exactly when its type needs options and it has none. */
  lemma MissingOptionsAborts(i: nat, q: QuestionRecord)
    requires q.title.Some?
    ensures ItemRequest(i, q).Failure? <==> OptionsMissing(q)
    ensures ItemRequest(i, q).Failure? ==> ItemRequest(i, q).error == OptionsNotIterable(i)
  {
  }

  /** Type tags that are equal after upper-casing ("radio", "Radio", "RADIO") give the same request. */
  lemma TypeTagIgnoresCase(i: nat, q: QuestionRecord, tag: string)
    requires q.title.Some?
    requires Upper(tag) == Upper(q.typeTag.GetOr(""))
    ensures ItemRequest(i, q.(typeTag := Some(tag))) == ItemRequest(i, q)
  {
  }

  /** A missing, blank or unrecognised type yields an item with no typed body and no grading. */
  lemma UnrecognisedTypeHasNoBody(i: nat, q: QuestionRecord)
    requires q.title.Some?
    requires !IsTypeTag(Upper(q.typeTag.GetOr("")))
    ensures ItemRequest(i, q).Success?
    ensures var question := ItemRequest(i, q).value.item.question;
      question.choiceQuestion.None? && question.dropdownQuestion.None? &&
      question.textQuestion.None? && question.grading.None?
  {
  }

  /**
   * Each recognised type fills exactly its own body: RADIO and CHECKBOX a
   * choice question of that type, DROPDOWN a dropdown question, TEXT an
   * empty text question.
   */
  lemma TypedBodies(i: nat, q: QuestionRecord)
    requires q.title.Some? && !OptionsMissing(q)
    ensures var question := ItemRequest(i, q).value.item.question;
      var t := Upper(q.typeTag.GetOr(""));
      (t == "RADIO" ==> question.choiceQuestion.Some? && question.choiceQuestion.value.choiceType == RADIO &&
                        question.dropdownQuestion.None? && question.textQuestion.None?) &&
      (t == "CHECKBOX" ==> question.choiceQuestion.Some? && question.choiceQuestion.value.choiceType == CHECKBOX &&
                           question.dropdownQuestion.None? && question.textQuestion.None?) &&
      (t == "DROPDOWN" ==> question.dropdownQuestion.Some? && question.choiceQuestion.None? &&
                           question.textQuestion.None?) &&
      (t == "TEXT" ==> question.textQuestion == Some(TextQuestion) && question.choiceQuestion.None? &&
                       question.dropdownQuestion.None?)
  {
  }

  /** For RADIO, CHECKBOX and DROPDOWN there is one option entry per input option, same value, same order. */
  lemma OptionsPreserved(i: nat, q: QuestionRecord)
    requires q.title.Some? && q.options.Some?
    requires Upper(q.typeTag.GetOr("")) in ChoiceTags
    ensures ItemRequest(i, q).Success?
    ensures var entries := OptionsOf(ItemRequest(i, q).value.item.question);
      |entries| == |q.options.value| &&
      forall k :: 0 <= k < |entries| ==> entries[k].value == q.options.value[k]
  {
  }

  /** Grading flags every option equal to `correct`, so their number is how often `correct` occurs. */
  lemma {:induction false} GradedFlagCount(options: seq<string>, correct: string)
    ensures FlaggedCount(Graded(OptionEntries(options), correct)) == multiset(options)[correct]
  {
    if options != [] {
      var init := options[..|options| - 1];
      var last := options[|options| - 1];
      GradedFlagCount(init, correct);
      assert Graded(OptionEntries(options), correct)[..|options| - 1] == Graded(OptionEntries(init), correct);
      assert options == init + [last];
    }
  }

  /**
   * A RADIO question with a truthy `correct`: every option gets `isCorrect`
   * equal to whether its value is `correct`, as many options are flagged as
   * `correct` occurs among them (exactly one when it occurs once, none when
   * it does not occur), and the grading block names `correct` for 1 point.
   */
  lemma RadioGrading(i: nat, q: QuestionRecord)
    requires q.title.Some? && q.options.Some?
    requires Upper(q.typeTag.GetOr("")) == "RADIO" && HasCorrect(q.correct)
    ensures ItemRequest(i, q).Success?
    ensures var question := ItemRequest(i, q).value.item.question;
      var entries := OptionsOf(question);
      (forall k :: 0 <= k < |entries| ==> entries[k].isCorrect == Some(entries[k].value == q.correct.value)) &&
      FlaggedCount(entries) == multiset(q.options.value)[q.correct.value] &&
      question.grading == Some(Grading([CorrectAnswer(q.correct.value)], 1))
  {
    GradedFlagCount(q.options.value, q.correct.value);
  }

  /** Without a RADIO type and a truthy `correct`, no option carries `isCorrect` and there is no grading. */
  lemma NoGradingOtherwise(i: nat, q: QuestionRecord)
    requires q.title.Some? && !OptionsMissing(q)
    requires !(Upper(q.typeTag.GetOr("")) == "RADIO" && HasCorrect(q.correct))
    ensures var question := ItemRequest(i, q).value.item.question;
      question.grading.None? &&
      forall k :: 0 <= k < |OptionsOf(question)| ==> OptionsOf(question)[k].isCorrect.None?
  {
  }

  // ---- the whole list ----

  /**
   * When the first `n` questions translate, there is one request per titled
   * question, in input order, each carrying the position of its question in
   * the input and equal to that question's own translation.
   */
  lemma {:induction false} RequestsFollowTitledPositions(qs: seq<QuestionRecord>, n: nat)
    requires n <= |qs| && RequestsUpTo(qs, n).Success?
    ensures |RequestsUpTo(qs, n).value| == |TitledPositions(qs, n)|
    ensures forall k :: 0 <= k < |TitledPositions(qs, n)| ==>
      var i := TitledPositions(qs, n)[k];
      RequestsUpTo(qs, n).value[k].location.index == i &&
      ItemRequest(i, qs[i]) == Success(RequestsUpTo(qs, n).value[k])
  {
    if n > 0 {
      RequestsFollowTitledPositions(qs, n - 1);
    }
  }

  /**
   * The loop aborts exactly when some titled question lacks the options its
   * type needs, and then with the first such question's position.
   */
  lemma {:induction false} FailureAtFirstMissingOptions(qs: seq<QuestionRecord>, n: nat)
    requires n <= |qs|
    ensures RequestsUpTo(qs, n).Failure? <==> exists j :: 0 <= j < n && OptionsMissing(qs[j])
    ensures RequestsUpTo(qs, n).Failure? ==>
      var j := RequestsUpTo(qs, n).error.index;
      j < n && OptionsMissing(qs[j]) && forall i :: 0 <= i < j ==> !OptionsMissing(qs[i])
  {
    if n > 0 {
      FailureAtFirstMissingOptions(qs, n - 1);
      if RequestsUpTo(qs, n - 1).Success? && qs[n - 1].title.Some? {
        MissingOptionsAborts(n - 1, qs[n - 1]);
      }
    }
  }

  /**
   * Over the whole list: a question gets a request exactly when it has a
   * title, the requests' indices strictly increase (gaps where questions
   * were skipped), and each request is its question's own translation.
   */
  lemma OneRequestPerTitledQuestion(qs: seq<QuestionRecord>)
    requires FormRequests(qs).Success?
    ensures var rs := FormRequests(qs).value;
      (forall i :: 0 <= i < |qs| ==> (qs[i].title.Some? <==> exists k :: 0 <= k < |rs| && rs[k].location.index == i)) &&
      (forall j, k :: 0 <= j < k < |rs| ==> rs[j].location.index < rs[k].location.index) &&
      (forall k :: 0 <= k < |rs| ==> rs[k].location.index < |qs| && qs[rs[k].location.index].title.Some? &&
                                     ItemRequest(rs[k].location.index, qs[rs[k].location.index]) == Success(rs[k]))
  {
    RequestsFollowTitledPositions(qs, |qs|);
    var rs := FormRequests(qs).value;
    var p := TitledPositions(qs, |qs|);
    forall i | 0 <= i < |qs| && qs[i].title.Some?
      ensures exists k :: 0 <= k < |rs| && rs[k].location.index == i
    {
      var k :| 0 <= k < |p| && p[k] == i;
      assert rs[k].location.index == i;
    }
  }
}
