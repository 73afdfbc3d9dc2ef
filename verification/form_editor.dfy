/**
 * `edit_form`: translation of the question records into the list of
 * `createItem` requests of one `batchUpdate` call. The specification is the
 * function `FormRequests`; the methods `EditForm`, `BuildItemRequest` and
 * `MarkCorrect` follow the loop of the program and are proved against it.
 */
module FormEditor {
  import opened Wrappers
  import opened Questions
  import opened FormsApi

  /**
   * The only failure of the translation: a RADIO, CHECKBOX or DROPDOWN
   * question without `options` makes the list comprehension iterate over
   * `None`, which raises and aborts the whole batch.
   */
  datatype EditError = OptionsNotIterable(index: nat)

  /** The upper-cased type tags whose body is built from the option list. */
  const ChoiceTags: set<string> := {"RADIO", "CHECKBOX", "DROPDOWN"}

  /** `[{'value': option} for option in options]` */
  function OptionEntries(options: seq<string>): seq<ChoiceOption> {
    seq(|options|, k requires 0 <= k < |options| => ChoiceOption(options[k], None))
  }

  /** Every entry with `isCorrect` set to whether its value is `correct`. */
  function Graded(entries: seq<ChoiceOption>, correct: string): seq<ChoiceOption> {
    seq(|entries|, k requires 0 <= k < |entries| => entries[k].(isCorrect := Some(entries[k].value == correct)))
  }

  /** The `question` part of an item for the upper-cased type tag `questionType`. */
  function TypedQuestion(q: QuestionRecord, questionType: string): Question
    requires questionType in ChoiceTags ==> q.options.Some?
  {
    var plain := Question(q.required.GetOr(true), None, None, None, None);
    if questionType == "RADIO" then
      var entries := OptionEntries(q.options.value);
      if HasCorrect(q.correct) then
        plain.(choiceQuestion := Some(ChoiceQuestion(RADIO, Graded(entries, q.correct.value))),
               grading := Some(Grading([CorrectAnswer(q.correct.value)], 1)))
      else
        plain.(choiceQuestion := Some(ChoiceQuestion(RADIO, entries)))
    else if questionType == "CHECKBOX" then
      plain.(choiceQuestion := Some(ChoiceQuestion(CHECKBOX, OptionEntries(q.options.value))))
    else if questionType == "DROPDOWN" then
      plain.(dropdownQuestion := Some(DropdownQuestion(OptionEntries(q.options.value))))
    else if questionType == "TEXT" then
      plain.(textQuestion := Some(TextQuestion))
    else
      plain
  }

  /** The request for the titled question `q` found at position `i` of the input. */
  function ItemRequest(i: nat, q: QuestionRecord): Result<CreateItemRequest, EditError>
    requires q.title.Some?
  {
    var questionType := Upper(q.typeTag.GetOr(""));
    if questionType in ChoiceTags && q.options.None? then
      Failure(OptionsNotIterable(i))
    else
      Success(CreateItem(Item(q.title.value, TypedQuestion(q, questionType)), Location(i)))
  }

  /** The requests for the first `n` questions, or the error that stopped the loop. */
  function RequestsUpTo(qs: seq<QuestionRecord>, n: nat): Result<seq<CreateItemRequest>, EditError>
    requires n <= |qs|
  {
    if n == 0 then Success([])
    else
      match RequestsUpTo(qs, n - 1)
      case Failure(e) => Failure(e)
      case Success(rs) =>
        if qs[n - 1].title.None? then Success(rs)
        else
          match ItemRequest(n - 1, qs[n - 1])
          case Failure(e) => Failure(e)
          case Success(r) => Success(rs + [r])
  }

  /** `batch_update_body['requests']` as built from the whole question list. */
  function FormRequests(qs: seq<QuestionRecord>): Result<seq<CreateItemRequest>, EditError> {
    RequestsUpTo(qs, |qs|)
  }

  /** Once the loop has raised, translating further questions does not change the outcome. */
  lemma {:induction false} FailureSticks(qs: seq<QuestionRecord>, i: nat, n: nat)
    requires i <= n <= |qs|
    requires RequestsUpTo(qs, i).Failure?
    ensures RequestsUpTo(qs, n) == RequestsUpTo(qs, i)
  {
    if n > i {
      FailureSticks(qs, i, n - 1);
    }
  }

  /** The inner loop of the RADIO branch: sets `isCorrect` on each option in place. */
  method MarkCorrect(options: array<ChoiceOption>, correct: string)
    modifies options
    ensures options[..] == Graded(old(options[..]), correct)
  {
    for k := 0 to options.Length
      invariant forall j :: 0 <= j < k ==> options[j] == old(options[j]).(isCorrect := Some(old(options[j]).value == correct))
      invariant forall j :: k <= j < options.Length ==> options[j] == old(options[j])
    {
      options[k] := options[k].(isCorrect := Some(options[k].value == correct));
    }
  }

  /** Builds the `createItem` request for the titled question `q` at input position `i`. */
  method BuildItemRequest(i: nat, q: QuestionRecord) returns (r: Result<CreateItemRequest, EditError>)
    requires q.title.Some?
    ensures r == ItemRequest(i, q)
  {
    var question := Question(q.required.GetOr(true), None, None, None, None);
    var questionType := Upper(q.typeTag.GetOr(""));
    var options := q.options;
    if questionType == "RADIO" {
      if options.None? {
        return Failure(OptionsNotIterable(i));
      }
      var opts := options.value;
      var entries := new ChoiceOption[|opts|](k requires 0 <= k < |opts| => ChoiceOption(opts[k], None));
      assert entries[..] == OptionEntries(opts);
      question := question.(choiceQuestion := Some(ChoiceQuestion(RADIO, entries[..])));
      var correctAnswer := q.correct;
      if HasCorrect(correctAnswer) {
        MarkCorrect(entries, correctAnswer.value);
        // the entries stored in choiceQuestion are the objects just marked
        question := question.(choiceQuestion := Some(ChoiceQuestion(RADIO, entries[..])));
        question := question.(grading := Some(Grading([CorrectAnswer(correctAnswer.value)], 1)));
      }
    } else if questionType == "CHECKBOX" {
      if options.None? {
        return Failure(OptionsNotIterable(i));
      }
      question := question.(choiceQuestion := Some(ChoiceQuestion(CHECKBOX, OptionEntries(options.value))));
    } else if questionType == "DROPDOWN" {
      if options.None? {
        return Failure(OptionsNotIterable(i));
      }
      question := question.(dropdownQuestion := Some(DropdownQuestion(OptionEntries(options.value))));
    } else if questionType == "TEXT" {
      question := question.(textQuestion := Some(TextQuestion));
    }
    r := Success(CreateItem(Item(q.title.value, question), Location(i)));
  }

  /**
   * The loop of `edit_form`: skips untitled questions, appends one request
   * per titled question, and stops at the first question whose options
   * cannot be iterated.
   */
  method EditForm(questions: seq<QuestionRecord>) returns (r: Result<seq<CreateItemRequest>, EditError>)
    ensures r == FormRequests(questions)
  {
    var requests: seq<CreateItemRequest> := [];
    for i := 0 to |questions|
      invariant RequestsUpTo(questions, i) == Success(requests)
    {
      var question := questions[i];
      if question.title.None? {
        continue;
      }
      var itemRequest := BuildItemRequest(i, question);
      if itemRequest.Failure? {
        FailureSticks(questions, i + 1, |questions|);
        return Failure(itemRequest.error);
      }
      requests := requests + [itemRequest.value];
    }
    r := Success(requests);
  }
}
