/**
 * The parts of a Google Forms `batchUpdate` request that the translator
 * writes, with the field names it uses. An absent key is `None`.
 */
module FormsApi {
  import opened Wrappers

  /** One entry of an option list: `{'value': v}`, with `isCorrect` once graded. */
  datatype ChoiceOption = ChoiceOption(value: string, isCorrect: Option<bool>)

  datatype ChoiceType = RADIO | CHECKBOX

  datatype ChoiceQuestion = ChoiceQuestion(choiceType: ChoiceType, options: seq<ChoiceOption>)

  /** A dropdown body carries its options and no type field. */
  datatype DropdownQuestion = DropdownQuestion(options: seq<ChoiceOption>)

  /** The empty object `{}` sent for a free-text question. */
  datatype TextQuestion = TextQuestion

  datatype CorrectAnswer = CorrectAnswer(value: string)

  datatype Grading = Grading(correctAnswers: seq<CorrectAnswer>, points: int)

  /** `questionItem.question` of an item. */
  datatype Question = Question(
    required: bool,
    choiceQuestion: Option<ChoiceQuestion>,
    dropdownQuestion: Option<DropdownQuestion>,
    textQuestion: Option<TextQuestion>,
    grading: Option<Grading>)

  datatype Item = Item(title: string, question: Question)

  datatype Location = Location(index: nat)

  /** `{'createItem': {'item': ..., 'location': ...}}` */
  datatype CreateItemRequest = CreateItem(item: Item, location: Location)
}
