# Snap_Study quiz core in Dafny

This project models the logic at the heart of Snap_Study, which turns a
lecture video into a summary, a translation and a quiz. The modelled parts are:

- **The quiz parser** (`parseQuizData` of the interactive quiz component). It reads the
  generator's loosely formatted text line by line and builds question records
  (`Question N: …`, `(A)`…`(D)` options, `Correct Answer: (X)`). It keeps only the
  records with exactly four options. A record's id is the number of records finished
  before it, counted before that filter. Any exception in the loop yields no questions.
  The parser is modelled twice:
  - as the imperative loop (`QuizParser.ParseQuizData`);
  - as a left fold of a one-line step over classified lines (`QuizParser.ParseQuiz`).
  The loop is proved equal to the fold. Properties are proved about the fold, including
  a round trip from the block format the generator is asked to write
  (`QuizFormat.FormatThenParse`).
- **The quiz session** (`QuizSession.Quiz`). This is a class with the component's
  state fields:
  - the questions;
  - the index on screen;
  - the letter chosen per question id;
  - whether the quiz was started;
  - whether the results are shown;
  - the score.
  Each handler of the component is one method. `Dispatch` adds what the rendered page
  allows (which buttons exist in each phase, and when Previous and Next are disabled),
  and keeps an invariant tying the score to the answers. The review list of the results
  page is a pure projection.
- **The language picker**. This covers:
  - the selected-language fallback;
  - the debounced search filter;
  - the open, close and select handlers and the search state (class
    `LanguageDropdown.Dropdown`).
- **Upload file-name sanitising** of the back end (`Filename.SanitizeFilename`).
- **`translate_text`** of the back end:
  - the short-text guard;
  - 5000-character chunking;
  - the loop over chunks;
  - the space join;
  - the mapping of failures to messages.
  The remote translator is a function parameter.

Shared text helpers (`Text`) model JavaScript `String.prototype.trim`, Python
`str.strip`, `split('\n')` and the regular-expression pieces the parser uses.

Question ids are the record positions before the four-option filter. The id is set
when a record opens, as the number of records finished before it
(`InteractiveQuiz.jsx` line 40). The filter (line 60) does not renumber them. Surviving
ids are therefore strictly increasing but can have gaps, and that is what the model
states (`QuizParser.ParseQuiz`, `QuizParser.Records`).

## Model

| member | source | states |
|---|---|---|
| QuizParser.IsQuestionHeader | frontend/src/components/InteractiveQuiz.jsx:34 | `/^Question\s*\d+:/i`: the word in any case, optional white space, at least one digit, a colon |
| QuizParser.HeaderPrompt | frontend/src/components/InteractiveQuiz.jsx:37 | the prompt is what follows the line's first colon (after `Question` and the number) and the white space after that colon; it does not start with white space |
| QuizParser.IsOptionLine | frontend/src/components/InteractiveQuiz.jsx:43 | `/^\([A-D]\)/`: an opening parenthesis, an upper-case A to D, a closing parenthesis, case-sensitive |
| QuizParser.IsAnswerLine | frontend/src/components/InteractiveQuiz.jsx:52 | `/^Correct Answer:\s*\([A-D]\)/i`: the words in any case, optional white space, a parenthesised letter A to D in either case |
| QuizParser.OptionOf | frontend/src/components/InteractiveQuiz.jsx:43-48 | an option's letter is the character at index 1 (one of A-D); its text is the trimmed rest from index 4, empty when the line is shorter |
| QuizParser.ParenLetterPos | frontend/src/components/InteractiveQuiz.jsx:54 | finds the first upper-case `(A)`..`(D)`; `None` exactly when the line has none |
| QuizParser.Classify | frontend/src/components/InteractiveQuiz.jsx:34-56 | a trimmed line is a header, an option or a correct-answer line, the three patterns tried in that order; an extracted letter is A-D |
| QuizParser.LineKinds | frontend/src/components/InteractiveQuiz.jsx:31-32 | one classification per line, each line trimmed first |
| QuizParser.Step | frontend/src/components/InteractiveQuiz.jsx:34-56 | one line never drops finished records and finishes at most one; an open record stays open; numbering is kept; the step throws exactly when a record is open and a correct-answer line has no upper-case letter to extract |
| QuizParser.RunFrom | frontend/src/components/InteractiveQuiz.jsx:31-57 | the loop only appends finished records, keeps the numbering and keeps an open record open |
| QuizParser.Run | frontend/src/components/InteractiveQuiz.jsx:28-57 | from the empty state, every finished record's id is its position and the open record's id is the count before it |
| QuizParser.Close | frontend/src/components/InteractiveQuiz.jsx:59 | appending the open record keeps ids equal to positions |
| QuizParser.NonBlankLines | frontend/src/components/InteractiveQuiz.jsx:27 | the filter never adds lines |
| QuizParser.NonBlankMembers | frontend/src/components/InteractiveQuiz.jsx:27 | a line survives the filter exactly when it is not blank once trimmed |
| QuizParser.Records | frontend/src/components/InteractiveQuiz.jsx:27-59 | before the filter, record k has id k |
| QuizParser.KeepFourOptions | frontend/src/components/InteractiveQuiz.jsx:60 | a record is kept exactly when it has four options; increasing ids stay increasing |
| QuizParser.ParseQuiz | frontend/src/components/InteractiveQuiz.jsx:25-65 | every returned question has exactly four options; a throw anywhere gives the empty list; otherwise exactly the four-option records; ids strictly increase |
| QuizParser.ParseQuizData | frontend/src/components/InteractiveQuiz.jsx:25-65 | the imperative loop with its mutable open record returns exactly `ParseQuiz` |
| QuizParser.ParseLine | frontend/src/components/InteractiveQuiz.jsx:32-56 | the loop body throws exactly when `Step` fails, and otherwise produces `Step`'s new state |
| QuizParser.RunFromAppend | frontend/src/components/InteractiveQuiz.jsx:31-57 | the loop over two pieces is the loop over the second from where the first ended; a throw is final |
| QuizParser.LineKindsAppend | frontend/src/components/InteractiveQuiz.jsx:31-32 | classification distributes over concatenation |
| QuizParser.LineKindAt | frontend/src/components/InteractiveQuiz.jsx:32 | the kind at position i is the classification of trimmed line i |
| QuizParser.KindsFromEach | frontend/src/components/InteractiveQuiz.jsx:32 | classifications agreeing line by line determine the whole kind sequence |
| QuizParser.NoHeaderNoRecord | frontend/src/components/InteractiveQuiz.jsx:43-56 | option and correct-answer lines seen while no record is open change nothing |
| QuizParser.NoHeaderNoQuestions | frontend/src/components/InteractiveQuiz.jsx:27-60 | input with no header line parses to no questions |
| QuizParser.OpenAfterHeader | frontend/src/components/InteractiveQuiz.jsx:35-41 | once a header has been seen a record is open to the end |
| QuizParser.ThrowAfterHeader | frontend/src/components/InteractiveQuiz.jsx:52-54 | a correct-answer line without an upper-case letter after any header makes the loop throw |
| QuizParser.ThrowingAnswerLineEmptiesQuiz | frontend/src/components/InteractiveQuiz.jsx:52-63 | such a line after a header empties the whole result, whatever else the input holds |
| QuizParser.OptionsIn | frontend/src/components/InteractiveQuiz.jsx:43-51 | the options a run of lines contributes are at most one per line |
| QuizParser.WithinRecord | frontend/src/components/InteractiveQuiz.jsx:43-56 | inside a record, options are appended in encounter order with no de-duplication; prompt, id and finished records are untouched; without a correct-answer line the correct answer is untouched too |
| QuizParser.LaterAnswerOverwrites | frontend/src/components/InteractiveQuiz.jsx:43-56 | the last correct-answer line of a record decides its correct answer: it overwrites any earlier one, and the option and other lines after it leave it alone |
| QuizParser.HeaderOpensRecord | frontend/src/components/InteractiveQuiz.jsx:34-41 | a header finalises the open record and opens one with its prompt, no options, correct answer `''` and the count of finalised records as id |
| QuizParser.RecordWithoutAnswerLine | frontend/src/components/InteractiveQuiz.jsx:34-56 | a record with no correct-answer line ends with the options of its option lines and correct answer `''` |
| QuizParser.AnswerLineIsNotHeaderOrOption | frontend/src/components/InteractiveQuiz.jsx:34-52 | a correct-answer line matches neither earlier pattern |
| QuizParser.AnswerLineThrows | frontend/src/components/InteractiveQuiz.jsx:52-54 | a correct-answer line with no upper-case parenthesised letter is classified as throwing |
| QuizParser.LowerCaseAnswerLineThrows | frontend/src/components/InteractiveQuiz.jsx:52-54 | `Correct Answer: (b)` passes the case-insensitive test but has no upper-case letter to extract |
| QuizParser.SkipWhileStopsAt | frontend/src/components/InteractiveQuiz.jsx:34 | scanning a character class stops at the first character outside it |
| QuizParser.ParenLetterPosIs | frontend/src/components/InteractiveQuiz.jsx:54 | the extraction finds the first parenthesised upper-case letter |
| QuizFormat.FormatThenParse | backend/quiz_generator.py:81-93 | quiz text in the requested block format, blank lines between blocks, parses back to its questions with ids 0, 1, 2, … |
| QuizFormat.CloseStateAfter | frontend/src/components/InteractiveQuiz.jsx:59 | the state after the last block closes to the expected questions |
| QuizFormat.RunQuizLines | frontend/src/components/InteractiveQuiz.jsx:31-57 | the loop over the formatted lines ends in the state that has every block but the last finished |
| QuizFormat.RunBlock | frontend/src/components/InteractiveQuiz.jsx:34-56 | one block finishes the open record and opens the block's own, complete record |
| QuizFormat.BlockKinds | frontend/src/components/InteractiveQuiz.jsx:32-56 | the six lines of a block are classified as header, four options and answer |
| QuizFormat.RunSixKinds | frontend/src/components/InteractiveQuiz.jsx:34-56 | header, four options and an answer build one record with those options and that answer |
| QuizFormat.RunFromCons | frontend/src/components/InteractiveQuiz.jsx:31-57 | the loop over a first line and the rest is the step and then the loop |
| QuizFormat.BlockNonBlank | frontend/src/components/InteractiveQuiz.jsx:27 | the filter drops exactly the blank separator of a block |
| QuizFormat.HeaderFacts | frontend/src/components/InteractiveQuiz.jsx:34-41 | a formatted header line classifies as a header with its prompt |
| QuizFormat.HeaderMatches | frontend/src/components/InteractiveQuiz.jsx:34-37 | a formatted header matches the header pattern and strips back to its prompt |
| QuizFormat.HeaderLayout | backend/quiz_generator.py:88 | the character layout of `Question N: prompt` |
| QuizFormat.HeaderUnpadded | frontend/src/components/InteractiveQuiz.jsx:32 | a formatted header survives trimming and has no line break |
| QuizFormat.OptionFacts | frontend/src/components/InteractiveQuiz.jsx:43-48 | a formatted option line classifies as that option |
| QuizFormat.OptionMatches | frontend/src/components/InteractiveQuiz.jsx:43-48 | a formatted option line matches only the option pattern and gives back its option |
| QuizFormat.OptionUnpadded | frontend/src/components/InteractiveQuiz.jsx:32 | a formatted option line survives trimming and has no line break |
| QuizFormat.AnswerFacts | frontend/src/components/InteractiveQuiz.jsx:52-55 | a formatted answer line classifies as that letter |
| QuizFormat.AnswerMatches | frontend/src/components/InteractiveQuiz.jsx:34-52 | a formatted answer line matches only the answer pattern |
| QuizFormat.AnswerFound | frontend/src/components/InteractiveQuiz.jsx:54 | the extraction finds the letter at position 17 |
| QuizFormat.AnswerUnpadded | frontend/src/components/InteractiveQuiz.jsx:32 | a formatted answer line survives trimming and has no line break |
| QuizFormat.QuizLinesFacts | frontend/src/components/InteractiveQuiz.jsx:27 | formatted lines hold no line break; there are none exactly when there are no drafts |
| QuizFormat.BlockHasNoNewline | frontend/src/components/InteractiveQuiz.jsx:27 | no line of a block holds a line break |
| QuizFormat.LineStartIsVisible | frontend/src/components/InteractiveQuiz.jsx:27 | every non-separator line of a block starts with a visible character |
| QuizFormat.NonBlankAppend | frontend/src/components/InteractiveQuiz.jsx:27 | the blank-line filter distributes over concatenation |
| QuizFormat.NonBlankKeepsAll | frontend/src/components/InteractiveQuiz.jsx:27 | lines that are all non-blank pass the filter unchanged |
| QuizFormat.KeepAllFourOptions | frontend/src/components/InteractiveQuiz.jsx:60 | records that all have four options pass the filter unchanged |
| QuizSession.CorrectCount | frontend/src/components/InteractiveQuiz.jsx:97-105 | the number of correctly answered questions is at most the number of questions |
| QuizSession.NoAnswersScoreZero | frontend/src/components/InteractiveQuiz.jsx:97-105 | with no answers the score is zero |
| QuizSession.FullScoreIff | frontend/src/components/InteractiveQuiz.jsx:97-105 | the full score is reached exactly when every question is answered correctly |
| QuizSession.UnsetAnswerNeverScores | frontend/src/components/InteractiveQuiz.jsx:39-100 | a question whose correct answer is still `''` never counts, whatever was chosen |
| QuizSession.MissedQuestionCostsAPoint | frontend/src/components/InteractiveQuiz.jsx:39-105 | an unanswered or wrongly answered question, or one whose correct answer is still `''`, keeps the score below the maximum |
| QuizSession.ForeignAnswerIgnored | frontend/src/components/InteractiveQuiz.jsx:97-105 | an answer under an id no question has does not change the score |
| QuizSession.ScoreExample | frontend/src/components/InteractiveQuiz.jsx:97-105 | correct letters A, B, C answered A, B, D score two |
| QuizSession.RightAnswerNeverLowersScore | frontend/src/components/InteractiveQuiz.jsx:67-105 | with distinct ids, choosing a question's correct letter never lowers the score |
| QuizSession.AnsweredCorrectly | frontend/src/components/InteractiveQuiz.jsx:100 | a question counts when an answer is stored under its id and that letter equals its correct answer, so `''` never matches |
| QuizSession.ReviewOf | frontend/src/components/InteractiveQuiz.jsx:234-258 | one card: number index + 1, the prompt, the chosen letter and its option text, correctness, and the correct answer with its text shown only when wrong |
| QuizSession.OptionText | frontend/src/components/InteractiveQuiz.jsx:252 | the text of the first option with that letter, `None` exactly when there is none |
| QuizSession.Review | frontend/src/components/InteractiveQuiz.jsx:234-236 | one review card per question |
| QuizSession.ReviewAgreesWithScore | frontend/src/components/InteractiveQuiz.jsx:234-246 | the review marks exactly as many cards correct as the score counts, and cards are numbered 1, 2, 3, … |
| QuizSession.ReviewCard | frontend/src/components/InteractiveQuiz.jsx:236-258 | a card shows the correct answer exactly when the choice was not correct; on a correct card both texts are the same |
| QuizSession.Quiz.constructor | frontend/src/components/InteractiveQuiz.jsx:4-16 | on mount the questions are the parse of the quiz text and every other field is at its initial value |
| QuizSession.Quiz.Phase | frontend/src/components/InteractiveQuiz.jsx:132-199 | the error screen shows exactly when there are no questions; the question screen exactly when started and not showing results |
| QuizSession.Quiz.HandleAnswerSelect | frontend/src/components/InteractiveQuiz.jsx:67-80 | records the letter under the question id, replacing an earlier one; every other entry and field is unchanged |
| QuizSession.Quiz.CalculateScore | frontend/src/components/InteractiveQuiz.jsx:97-105 | the counting loop sets the score to the number of correctly answered questions |
| QuizSession.Quiz.HandleNext | frontend/src/components/InteractiveQuiz.jsx:82-89 | moves to the next question while there is one; otherwise scores and shows the results |
| QuizSession.Quiz.HandlePrevious | frontend/src/components/InteractiveQuiz.jsx:91-95 | moves back one question, never below the first |
| QuizSession.Quiz.ResetQuiz | frontend/src/components/InteractiveQuiz.jsx:107-114 | whatever the state, back to the start page with no answers and score zero; the questions stay |
| QuizSession.Quiz.StartQuiz | frontend/src/components/InteractiveQuiz.jsx:185 | the quiz is started |
| QuizSession.Quiz.Dispatch | frontend/src/components/InteractiveQuiz.jsx:132-396 | the new state for every button of every screen: Start starts; an option records its letter under the question's id; Previous moves back unless on the first question (`PreviousDisabled`, line 361); Next moves on, or on the last question (`OnLastQuestion`, line 381) scores and shows the results, unless the question on screen has no answer (`NextDisabled`, line 378); Retake resets; a button the screen does not show, or a disabled one, changes nothing. Every click keeps the index on a question and, once results show, the score equal to the count of correct answers |
| LanguageDropdown.SelectedLang | frontend/src/components/CustomLanguageDropdown.jsx:17-20 | the first option with the selected code, otherwise the first option, and nothing only for an empty list |
| LanguageDropdown.FindByCode | frontend/src/components/CustomLanguageDropdown.jsx:18 | the position of the first option with that code, `None` exactly when there is none |
| LanguageDropdown.SearchTerm | frontend/src/components/CustomLanguageDropdown.jsx:43 | the query lower-cased, then trimmed |
| LanguageDropdown.MatchesSearch | frontend/src/components/CustomLanguageDropdown.jsx:45-49 | the lower-cased name, native name or code contains the term |
| LanguageDropdown.FilteredLanguages | frontend/src/components/CustomLanguageDropdown.jsx:40-51 | a query blank once trimmed keeps the list; any other keeps the matching options |
| LanguageDropdown.KeepMatching | frontend/src/components/CustomLanguageDropdown.jsx:44-50 | the filter never adds options |
| LanguageDropdown.KeepMatchingMembers | frontend/src/components/CustomLanguageDropdown.jsx:43-49 | an option is kept exactly when its lower-cased name, native name or code contains the search term |
| LanguageDropdown.KeepMatchingCounts | frontend/src/components/CustomLanguageDropdown.jsx:44-50 | each matching option is kept as many times as it occurs, each other one not at all |
| LanguageDropdown.KeepMatchingInOrder | frontend/src/components/CustomLanguageDropdown.jsx:44-50 | the kept options are a subsequence of the options, in their order |
| LanguageDropdown.FilteredLanguagesSpec | frontend/src/components/CustomLanguageDropdown.jsx:40-51 | a query blank once trimmed gives the list unchanged; any query gives an ordered subsequence; a non-blank one keeps exactly the matching options, each as often as it occurs |
| LanguageDropdown.SubsequenceDropFirst | frontend/src/components/CustomLanguageDropdown.jsx:44 | a subsequence without its first element is still one |
| LanguageDropdown.SubsequenceOfTail | frontend/src/components/CustomLanguageDropdown.jsx:44 | a subsequence of the tail is a subsequence of the whole |
| LanguageDropdown.SubsequenceOfItself | frontend/src/components/CustomLanguageDropdown.jsx:41 | a list is a subsequence of itself |
| LanguageDropdown.Dropdown.constructor | frontend/src/components/CustomLanguageDropdown.jsx:4-7 | the picker starts closed with an empty query |
| LanguageDropdown.Dropdown.HandleOpen | frontend/src/components/CustomLanguageDropdown.jsx:78-81 | the picker is open |
| LanguageDropdown.Dropdown.HandleClose | frontend/src/components/CustomLanguageDropdown.jsx:83-87 | closed, with both query and debounced query cleared, so the full list is shown next time |
| LanguageDropdown.Dropdown.HandleSelect | frontend/src/components/CustomLanguageDropdown.jsx:89-92 | reports the code after all earlier reports, then closes |
| LanguageDropdown.Dropdown.SetSearchQuery | frontend/src/components/CustomLanguageDropdown.jsx:221 | the query is what was typed |
| LanguageDropdown.Dropdown.DebounceFired | frontend/src/components/CustomLanguageDropdown.jsx:28-30 | the debounced query catches up with the query |
| Filename.Substitute | backend/app.py:304 | the substitution is one character for one character |
| Filename.SanitizeFilename | backend/app.py:301-305 | the name is min(len(filename), 100) long |
| Filename.SubstitutePositions | backend/app.py:304 | allowed characters keep place and value; every other one becomes `_` |
| Filename.SanitizedContent | backend/app.py:304-305 | the name is a prefix of the untruncated substitution, positionwise the original or `_`, and made only of word characters, `-`, `_` and `.` |
| Filename.NoPathSeparators | backend/app.py:304 | no `/` or `\` survives |
| Filename.SanitizeIdempotent | backend/app.py:304-305 | sanitising a sanitised name changes nothing |
| Filename.SubstituteKeepsAllowed | backend/app.py:304 | a string of allowed characters is its own substitution |
| Translator.Chunks | backend/translator.py:32 | every chunk is non-empty and at most the chunk size |
| Translator.ChunksConcat | backend/translator.py:32 | the chunks concatenated are the text |
| Translator.ChunkSizes | backend/translator.py:29-32 | every chunk but the last is exactly 5000 long, and there are ceil(len/5000) chunks |
| Translator.LongTextSplits | backend/translator.py:30-32 | text over the chunk size gives at least two chunks |
| Translator.ShortTextOneChunk | backend/translator.py:32 | text within the chunk size is a single chunk, itself |
| Translator.Collect | backend/translator.py:35-37 | without an exception, one reply per chunk and none of them an exception |
| Translator.JoinReplies | backend/translator.py:39 | the join of the replies gives a string or an exception, never `None` |
| Translator.FirstNone | backend/translator.py:39 | the first `None` reply, and no result exactly when there is none |
| Translator.JoinSpace | backend/translator.py:39 | `' '.join` of strings: the pieces in order with one space between neighbours |
| Translator.Finish | backend/translator.py:43-51 | a non-empty string is the result; an empty one or `None` gives the no-output message; an exception gives the error prefix and its message |
| Translator.Translation | backend/translator.py:21-51 | the guard, the translator's construction, then one call or the chunk loop and join, finished as above |
| Translator.TranslateText | backend/translator.py:10-51 | the imperative chunk loop with early exit on an exception returns exactly `Translation` |
| Translator.StoppedStaysStopped | backend/translator.py:35-37 | after an exception no later chunk is sent |
| Translator.ShortTextNotTranslated | backend/translator.py:21-22 | empty or near-empty text gives the too-short message whatever the translator would do |
| Translator.SingleCall | backend/translator.py:40-41 | text up to 5000 characters depends only on the reply for the whole text |
| Translator.SingleCallOutcome | backend/translator.py:40-51 | a non-empty reply is the result, an empty one or `None` is the no-output message, an exception is reported with its message |
| Translator.ChunkedTranslation | backend/translator.py:30-45 | when every chunk gives a string, the result is the chunk translations in order joined by single spaces |
| Translator.AllRepliesCollected | backend/translator.py:35-37 | without exceptions every reply is collected, in chunk order |
| Translator.JoinSpaceNotEmpty | backend/translator.py:39 | two or more pieces joined by spaces are never empty |
| Translator.FirstFailingChunk | backend/translator.py:35-51 | the first chunk whose call raises decides the error message |
| Translator.NoneChunk | backend/translator.py:39-51 | a `None` reply makes the join fail with a message naming the first such chunk |
| Translator.SetupFailure | backend/translator.py:24-51 | failing to build the translator is reported with its message |
| Translator.LongTextAlwaysHasOutput | backend/translator.py:30-47 | for long text the no-output branch is never taken |
| Text.TrimBy | frontend/src/components/InteractiveQuiz.jsx:32 | trimming keeps one contiguous run of the string that neither starts nor ends with white space, and drops only white space |
| Text.JsTrim | frontend/src/components/InteractiveQuiz.jsx:32 | `String.prototype.trim`: trimming with the ECMAScript white-space and line-terminator set |
| Text.PyStrip | backend/translator.py:21 | `str.strip()`: trimming with the characters Python counts as white space |
| Text.TrimEmptyIff | frontend/src/components/InteractiveQuiz.jsx:27 | a line trims to empty exactly when it is all white space |
| Text.TrimKeepsUnpadded | frontend/src/components/InteractiveQuiz.jsx:32 | a string with no white space at either end trims to itself |
| Text.TrimIdempotent | frontend/src/components/InteractiveQuiz.jsx:32 | trimming twice is trimming once |
| Text.SplitLines | frontend/src/components/InteractiveQuiz.jsx:27 | splitting gives at least one piece and no piece holds a line break |
| Text.JoinSplitLines | frontend/src/components/InteractiveQuiz.jsx:27 | joining the pieces with line breaks gives the text back |
| Text.SplitJoinLines | frontend/src/components/InteractiveQuiz.jsx:27 | splitting joined break-free lines gives the lines back |
| Text.SplitNoNewline | frontend/src/components/InteractiveQuiz.jsx:27 | text without a line break splits into itself |
| Text.SplitAfterLine | frontend/src/components/InteractiveQuiz.jsx:27 | a first line followed by a break splits off first |
| Text.SkipWhile | frontend/src/components/InteractiveQuiz.jsx:34 | the scan passes only characters of the class and stops at the first other one |
| Text.MapChars | frontend/src/components/CustomLanguageDropdown.jsx:43 | per-character lower-casing keeps the length and maps each position |
| Text.Decimal | backend/quiz_generator.py:88 | a question number is written as a non-empty run of digits |

## Left out

- Strings are sequences of characters. JavaScript's UTF-16 code units, which matter for `charAt` and `substring` on characters outside the Basic Multilingual Plane, are not modelled.
- Python's Unicode `\w` is a parameter `isWord`, and `toLowerCase` is a per-character parameter `lower`. Context-dependent lower-casing, such as the Greek final sigma, is not modelled.
- Rendering, CSS classes, icons and `console.log` calls are not modelled, nor are the 500 ms click indicator and React's batching of state updates. Each handler is one sequential step, and the rendered page appears only as `Quiz.Phase` and the two disabled flags.
- The effect that re-parses when new quiz text arrives is not modelled. It replaces the questions without resetting the index, the answers or the score, so `Quiz` is built once, from the text it is mounted with.
- The score percentage, colour and message thresholds, `Math.round` and the progress bar use floating-point division and are not modelled.
- The picker's positioning (viewport geometry), focus timer, outside-click and resize listeners are not modelled. The 200 ms debounce timer appears only as `Dropdown.DebounceFired`. `onLanguageChange` is modelled as the list `reported` of the codes it received.
- QuizParser.IsQuestionHeader: a header with nothing after the colon opens a record with an empty prompt, as the code does. The parser does not check that option letters are distinct, nor that the correct answer is one of the option letters. A record with no correct-answer line keeps `''`, which never scores.
- QuizParser.ParseQuiz: a throw is modelled only where it can happen, at the extraction on a correct-answer line. The message logged by the `catch` is not modelled.
- Translator.TranslateText: the logger calls and the length in the success log line are not modelled. The remote service is a function of the text, and the translator's construction is a parameter (`setupError`). The Python `None` reply that makes `' '.join` raise is modelled; other non-string replies are not.
- The rest of the back-end application is not part of this model. This includes the web routes, FFmpeg discovery, speech recognition, pipeline orchestration and file save and cleanup, all of which are I/O or calls into external libraries. The video utilities, summariser and quiz generator (remote models) are not modelled either. The quiz generator is used only for the block format it asks for.
- `get_supported_languages` and `detect_language` are single calls into the remote service and are not modelled.
- The front-end shell (upload and fetch), the static About page and the back-end probe scripts are not modelled.
