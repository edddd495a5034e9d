# Quiz generator: the deterministic core

The quiz application pastes a text into a prompt, asks a generative model for
three multiple-choice questions as JSON, and shows them as a form that it scores.
Most of `quizapp.py` is page layout and a call to the model service. This project
models the logic inside that plumbing:

- cleaning the reply text: strip it, remove a leading "```json" and a trailing "```",
  then strip it again;
- reading the `mcqs` list out of the decoded document, and folding every failure of
  the service call, the decoder or the shape check into an empty list with a notice;
- the per-session store with its two lists, `questions` and `corrected_answers`
  (`Quiz.Session`), and what the "Generate" button does to it;
- building the answer key `options[correct]`, with Python's subscript rules;
- submitting the form: refuse while a selection is unset, otherwise count the
  selections that equal their answer after `strip().lower()`.

Modules: `Wrappers` (Option, Result), `Text` (Python's `strip`, `removeprefix`,
`removesuffix`, `lower`), `Json` (decoded values and `container[key]`), `Fetcher`
(`fetch_questions`), `Quiz` (the session, the answer key, scoring) and `Scenarios`
(concrete runs: the example quiz and the inputs behind the findings).

Inputs the model does not compute are parameters. These are the service's reply
(`Fetcher.Reply`), `json.loads` (a function `string -> Parse`), Python's `str()` on
an option value (a function `Value -> string`), and the radio values, one per
question, where `Null` stands for Python's `None`.

In three places the code does something other than its comments or messages
suggest. The model follows the code:
- "Generate" with empty text shows only "Please paste some text content", but the
  reset under "Reset previous quiz state" (lines 122-124) has already run before the
  check at line 126, so a previous quiz disappears.
- A decoded document that is not a dict fails in `.get` with AttributeError. It gets
  the generic "An unexpected error occurred" notice (lines 94-97), not "API returned
  unexpected JSON structure" (line 77).
- The prompt asks for "exactly 3" questions (line 37), but any non-empty `mcqs` list
  is accepted (line 76). Its length and the shape of its questions are not checked
  there.

## Model

| member | source | states |
|---|---|---|
| `Text.Strip` | quizapp.py:71 | `str.strip()`: the result neither starts nor ends with whitespace and is no longer than the input |
| `Text.StripIsSlice` | quizapp.py:71 | stripping only removes whitespace: the result is a contiguous slice of the input with only whitespace before and after it |
| `Text.StripPadded` | quizapp.py:71 | any whitespace around a string that is already trimmed is removed, and nothing else |
| `Text.StripTrimmed` | quizapp.py:71 | stripping a trimmed string changes nothing, so stripping twice is the same as stripping once |
| `Text.RemovePrefix` | quizapp.py:71 | `s.removeprefix(p)`: when `s` starts with `p`, the result is what follows it (`p` + result is `s`); otherwise `s` is unchanged |
| `Text.RemoveSuffix` | quizapp.py:71 | `s.removesuffix(p)`: when `s` ends with `p`, the result is what precedes it (result + `p` is `s`); otherwise `s` is unchanged |
| `Text.Lower` | quizapp.py:177 | `s.lower()`: same length, each capital letter becomes its small letter (code point + 32), every other character is kept in place, so no capital is left |
| `Text.LowerIdempotent` | quizapp.py:177 | lower-casing twice is lower-casing once |
| `Text.StripLower` | quizapp.py:177 | stripping and lower-casing commute, so `strip().lower()` is also `lower().strip()` |
| `Text.StripIgnoresPadding` | quizapp.py:71 | adding whitespace around any string does not change what it strips to |
| `Json.Subscript` | quizapp.py:134 | Python's `container[key]`: a dict finds exactly its string keys; on a dict KeyError is raised exactly for a hashable key it lacks, and a list or dict key raises TypeError; only a dict raises KeyError; a list or a string finds exactly the indexes in `-n .. n-1` (a boolean counting as 0 or 1), and gives the item, or the one-character string, at that index, counting a negative index from the end; null, booleans and numbers cannot be subscripted |
| `Fetcher.Clean` | quizapp.py:71 | the cleaned reply has no leading or trailing whitespace |
| `Fetcher.CleanFenced` | quizapp.py:70-71 | a reply wrapped as "```json" + s + "```", with any whitespace around it, cleans to `strip(s)` |
| `Fetcher.CleanUnfenced` | quizapp.py:71 | if the stripped reply neither starts with "```json" nor ends with "```", cleaning is plain stripping |
| `Fetcher.McqsField` | quizapp.py:74-80 | the list is accepted exactly when the document is a dict whose `mcqs` is a non-empty list, and then it is returned unchanged; a dict without such a list gets the structure notice; a non-dict gets the unexpected-error notice |
| `Fetcher.Fetch` | quizapp.py:58-97 | the question list is non-empty exactly when no notice is shown; a non-empty result is always the `mcqs` list of the decoded, cleaned reply; a payload whose cleaned text decodes to a dict with a non-empty `mcqs` list returns exactly that list with no notice; a blocked reply (reason defaulting to "Unknown"), a rate-limit error, any other client error, a decode failure (which logs the raw text) and a decoded document failing the `mcqs` check each return `[]` with their own notice (for the last, the structure notice or the generic error notice that the check gives) |
| `Fetcher.FetchIgnoresFences` | quizapp.py:68-80 | a reply wrapped in "```json" ... "```" fences, with any whitespace around them, yields the same questions as the bare reply, provided the bare reply, once stripped, neither starts with "```json" nor ends with "```" itself (no JSON text does) |
| `Quiz.AnswerOf` | quizapp.py:134 | `q["options"][q["correct"]]`: a non-dict question raises a non-KeyError; a missing "options" or "correct" raises KeyError; otherwise it is the subscript of the options by the letter, found exactly when a string letter is a key of a dict of options |
| `Quiz.DeriveAnswerKey` | quizapp.py:133-135 | either every question has an answer and the key has one entry per question, entry i being `options[correct]` of question i, or it reports the first question whose lookup raised and what it raised |
| `Quiz.GenerateAsWritten` | quizapp.py:121-141 | the "Generate" branch as written: the two lists agree (same length, each answer its question's `options[correct]`) exactly when no exception escaped; the quiz is non-empty only on success or on an escaped exception |
| `Quiz.AbortedLeavesHalfQuiz` | quizapp.py:130-171 | as written, an escaped lookup error leaves questions with no answers, and the result loop then raises at the first question |
| `Quiz.FirstFault` | quizapp.py:169-173 | the first question at which the result loop raises: either the answer list is too short for it or it has no "mcq"; no earlier question raises |
| `Quiz.NormalizeIsCanonical` | quizapp.py:177 | `str(x).strip().lower()` has no surrounding whitespace and no capital letter, and normalising it again changes nothing |
| `Quiz.NormalizeIgnoresPadding` | quizapp.py:177 | whitespace around a rendered value never changes its normal form |
| `Quiz.NormalizeIgnoresCase` | quizapp.py:177 | lower-casing a rendered value first never changes its normal form |
| `Quiz.MatchesUpToPaddingAndCase` | quizapp.py:177 | a selection is judged right whenever, after both are lower-cased, it renders as the answer with whitespace around it: letter case on either side ("PARIS" against "Paris") and surrounding whitespace are ignored |
| `Quiz.Marks` | quizapp.py:165-178 | the marks of a submission never exceed the number of questions |
| `Quiz.Score` | quizapp.py:165-178 | the result loop, adding one mark per question whose normalised selection equals its normalised answer, computes exactly `Quiz.Marks` |
| `Quiz.MarksBounded` | quizapp.py:165-184 | marks never exceed the number of questions, equal it exactly when every normalised selection equals its normalised answer, and equal the number of indices that match |
| `Quiz.AnswerKeyScoresFull` | quizapp.py:133-178 | selecting `options[correct]` for every question earns full marks |
| `Quiz.Session.constructor` | quizapp.py:106-107 | a new session holds two empty lists, which agree |
| `Quiz.Session.Generate` | quizapp.py:121-141 | after "Generate" the two lists always agree; empty text or a failed fetch leaves no quiz; a quiz is stored exactly on success, and it is the fetched list with its answer key; a failed answer key leaves no quiz; otherwise the outcome is the one of the code as written |
| `Quiz.Session.Submit` | quizapp.py:144-184 | the corrected result loop, which never reads "mcq" (see the second finding): no form without questions; any unset selection gives the warning and no score; otherwise the score is the number of matching selections out of the number of questions |
| `Scenarios.ListLetterAbortsAsWritten` | quizapp.py:130-139 | as written, a question whose letter is a list makes the answer key raise TypeError, which escapes and leaves the question stored with no answer |
| `Scenarios.UntitledQuestionFaultsAsWritten` | quizapp.py:173 | as written, a question without "mcq" gets a valid answer key, yet the result loop raises on it |

## Left out

- The prompt text (lines 33-50) and the difficulty level, which only enters the prompt.
- The service client: `configure_google_ai` and the API key lookup (lines 12-26), the model call and its generation settings (lines 52-61). The reply is a parameter.
- `json.loads` is a parameter. Object key order is not kept (a `map`), which matters only for the order in which options are shown. NaN and Infinity floats are not modelled.
- Page rendering: layout, headers, the spinner, `st.stop`, and the list of radio options built at line 152. Failures in that rendering are not modelled: on the half-built quiz of the first finding, the form itself may raise before any submission.
- Message texts, `st.success` and the console `print`s. Notices carry only the data that goes into them.
- The host framework's rerun model: one call of `Generate` or `Submit` stands for one button press. The reset at lines 186-189 is commented out in the source, so it is not modelled.
- `user_selections` is a dict whose keys are 0, 1, … in insertion order. `Quiz.Session.Submit` holds it as the sequence of its values.
- Text.Lower: only ASCII letters are lower-cased. Python's `str.lower()` covers all of Unicode, so the properties of `Text.Lower`, `Text.StripLower` and the `Quiz.Normalize…` lemmas are stated for that ASCII mapping.
- Quiz.Matches: Python's `str()` of a selection or an answer is the parameter `render`. Only its result is compared; `Quiz.MatchesUpToPaddingAndCase` and the `Quiz.Normalize…` lemmas state what the comparison ignores.

## Findings

| source | as written | input that shows it | evidently intended | confidence | as-written member | corrected member |
|---|---|---|---|---|---|---|
| quizapp.py:131-139 | Only KeyError is caught while the answer key is built. A TypeError or IndexError from `q["options"][q["correct"]]` escapes after `questions` was stored at line 130. The quiz is left without answers, and the next submission raises IndexError at line 171. | `{"mcqs": [{"mcq": "q", "options": {"a": "x"}, "correct": ["a"]}]}` (a list letter is unhashable) | Any invalid structure clears the quiz, as the comment "Clear invalid state" says | medium, not executed | `Quiz.GenerateAsWritten`, `Scenarios.ListLetterAbortsAsWritten` | `Quiz.Session.Generate` |
| quizapp.py:173 | The result loop reads `question['mcq']` with no default. The form at line 151 shows such a question with the placeholder "Missing question text". Submitting raises KeyError, and no score is shown. | `{"mcqs": [{"options": {"a": "x"}, "correct": "a"}]}`, with "x" selected | The result is shown and the score reported, reading the text with the same default as line 151 | medium, not executed | `Quiz.FirstFault`, `Scenarios.UntitledQuestionFaultsAsWritten` | `Quiz.Session.Submit` |
