# magic-form: the question-to-request translator

magic-form reads a JSON document whose `questions` array describes quiz
questions and turns it into a Google Forms quiz. The only logic in it is
`edit_form`. It walks the question records in order and builds the list of
`createItem` requests that it sends in one `batchUpdate` call. `main.py` (the
Streamlit variant) and `first.py` (the console variant) contain the same
function line for line in how the requests are built. They differ only in
their messages: `main.py` reports through `st.write`, both for a skipped
question and, after the batch call, "Questions added to the form."
(main.py:170), while `first.py` prints the skip message and leaves the
completion message to its `main` (first.py:162). This project models the
request-building once.

- `wrappers.dfy`: `Option`, where `None` is a key missing from a JSON object, and `Result`.
- `questions.dfy`: the input record `QuestionRecord`, the truthiness of `correct`, and `str.upper` as the type-tag comparison uses it.
- `forms_api.dfy`: the request shapes the translator writes (`createItem`, `item`, `question`, `choiceQuestion`, `dropdownQuestion`, `textQuestion`, `grading`, `location`), with the field names the program uses (`choiceType` stands for the program's `type`, a reserved word in Dafny).
- `form_editor.dfy`: the specification function `FormRequests` and the imperative translation proved against it. `EditForm` is the outer loop: it skips untitled questions with `continue` and appends one request per titled question. `BuildItemRequest` builds one request step by step. `MarkCorrect` is the inner loop that sets `isCorrect` in place on an array of option entries.
- `form_editor_properties.dfy`: lemmas stating what the translation promises for one question and for the whole list.

A titled RADIO, CHECKBOX or DROPDOWN question without `options` makes the program
iterate over `None`. That raises and aborts `edit_form` before anything is
sent. The model returns `Failure(OptionsNotIterable(i))` for it, where `i` is
the first such question's position.

A RADIO question with a truthy `correct` flags every option whose value
equals it, so zero, one or several options can be flagged, and the grading
block is attached in every case. `RadioGrading` proves that the number
flagged equals the number of times `correct` occurs among the options.

## Model

| member | source | states |
|---|---|---|
| FormEditor.EditForm | main.py:119-166 | the loop's result is `FormRequests(questions)`: untitled questions are skipped, titled ones each append their request, the first question whose options cannot be iterated aborts the loop |
| FormEditor.BuildItemRequest | main.py:131-163 | the request built step by step (base item, then the typed body, then marking and grading for RADIO) equals the specification `ItemRequest(i, q)` |
| FormEditor.MarkCorrect | main.py:155-156 | afterwards every option in the array is its old self with `isCorrect` set to whether its value equals `correct`; nothing else changes |
| FormEditorProperties.TitledPositions | main.py:125-128 | the positions it lists are exactly the titled questions' positions, each below `n`, in strictly increasing order |
| FormEditorProperties.TitleLocationRequired | main.py:131-145 | the item title is the question's title verbatim, `location.index` is the question's input position, and `required` is the question's value or true when absent |
| FormEditorProperties.MissingOptionsAborts | main.py:148-161 | a titled question fails to translate exactly when its upper-cased type is RADIO, CHECKBOX or DROPDOWN and it has no `options`, and the error names its position |
| Questions.UpperMatchesWord | main.py:148 | an upper-cased tag equals RADIO, CHECKBOX, DROPDOWN or TEXT exactly when it has that length and each of its characters is a case variant of the tag's character there, so "radio", "Radio" and "RADIO" all match RADIO |
| FormEditorProperties.TypeTagIgnoresCase | first.py:124 | replacing the type tag by any tag equal to it after upper-casing leaves the request unchanged |
| FormEditorProperties.UnrecognisedTypeHasNoBody | first.py:124-139 | a missing, blank or unrecognised type still yields a request, with no choice, dropdown or text body and no grading |
| FormEditorProperties.TypedBodies | main.py:150-163 | RADIO and CHECKBOX yield a choice question of that type, DROPDOWN a dropdown question with no type, TEXT an empty text question, and no other body is set |
| FormEditorProperties.OptionsPreserved | first.py:127-137 | for RADIO, CHECKBOX and DROPDOWN the output has one option entry per input option, with the same value, in the same order |
| FormEditorProperties.GradedFlagCount | main.py:155-156 | after marking, the number of options flagged correct equals the number of occurrences of `correct` among the option values |
| FormEditorProperties.RadioGrading | first.py:129-133 | for RADIO with a truthy `correct`, each option's `isCorrect` is whether its value equals `correct`, the flagged count is the occurrence count, and grading is `{correctAnswers: [correct], points: 1}` even when no option matches |
| FormEditorProperties.NoGradingOtherwise | first.py:130-139 | without both a RADIO type and a truthy `correct` (absent or empty), no option carries `isCorrect` and there is no grading |
| FormEditorProperties.RequestsFollowTitledPositions | first.py:101-142 | the k-th request belongs to the k-th titled question: it carries that question's input position and is that question's own translation |
| FormEditorProperties.FailureAtFirstMissingOptions | main.py:125-161 | the loop fails exactly when some titled question lacks the options its type needs, and then reports the first such position |
| FormEditorProperties.OneRequestPerTitledQuestion | main.py:125-166 | on success a question has a request exactly when it has a title, request indices strictly increase with gaps where questions were skipped, and each request is its question's translation |

## Left out

- Authentication (`authenticate`), form creation (`create_new_form`), the service client (`create_forms_service`) and the final `batchUpdate(...).execute()` call are network, file and OAuth-library I/O. The model ends at the list of requests that would be sent.
- `load_questions_from_json` and `get_file_paths` are file and environment I/O. The model starts from the parsed records.
- The skip messages (`st.write` in `main.py`, `print` in `first.py`) and the rest of the Streamlit UI are output only. They do not affect the requests.
- JSON values of other kinds are not modelled. Each question is an object, the title, type, option values and `correct` are strings, `options` is a list, and `required` is a boolean. These cases have no counterpart here:
  - a present `title: null`, which the program translates;
  - a non-string `type`, which makes `.upper()` raise;
  - a non-boolean `required`, which is copied as is;
  - a question record that is a string rather than an object, where `'title' not in question` becomes a substring test;
  - an `options` value that is a string, where the comprehension builds one option per character.
- Questions.UpperChar: only the case mappings that produce an ASCII capital are modelled. These are `a`-`z`, dotless i (U+0131) and long s (U+017F). Python's other mappings, including the multi-character ones such as `ß` to `SS`, never turn a tag into RADIO, CHECKBOX, DROPDOWN or TEXT, so the comparisons come out the same.
- The `questionItem` wrapper around `question` carries no logic. It is folded into `Item`.
- In the program, marking mutates option objects that are already stored in `choiceQuestion`, through aliasing. `BuildItemRequest` marks the array and then stores its contents again, which leaves the same final value.
- The shape of the `grading` block (`correctAnswers` as a list, `points`) is reproduced as the program writes it. It is not checked against what the remote service accepts.
