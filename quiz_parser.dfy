/**
 * The line-oriented quiz parser of the interactive quiz component
 * (`parseQuizData`): loosely formatted generator output in, question
 * records out. Only records with exactly four options survive; a record's
 * id is the number of records finalised before it, counted before the
 * filter, so surviving ids can have gaps; and an exception anywhere in
 * the loop (a `Correct Answer:` line whose only parenthesised letter is
 * lower-case) empties the whole result.
 */
module QuizParser {
  import opened Wrappers
  import opened Text

  /** One answer choice of a question. */
  datatype AnswerOption = AnswerOption(letter: char, text: string)

  /** A question record. `correctAnswer` is the empty string until a
      correct-answer line sets it to a one-letter string. */
  datatype Question = Question(question: string, options: seq<AnswerOption>, correctAnswer: string, id: nat)

  /** The loop's state: the records finalised so far (`parsedQuestions`)
      and the record being built (`currentQ`). */
  datatype ParseState = ParseState(parsed: seq<Question>, current: Option<Question>)

  const Initial: ParseState := ParseState([], None)

  /** Ids strictly increase along the sequence. */
  predicate IdsIncreasing(qs: seq<Question>)
  {
    forall i, j :: 0 <= i < j < |qs| ==> qs[i].id < qs[j].id
  }

  /** Every finalised record's id is its position, and the open record's
      id is the number of records finalised before it. */
  predicate WellNumbered(st: ParseState)
  {
    (forall k :: 0 <= k < |st.parsed| ==> st.parsed[k].id == k)
    && (st.current.Some? ==> st.current.value.id == |st.parsed|)
  }

  // ---------------------------------------------------------------------
  // The three line patterns

  /** `/^Question\s*\d+:/i`: the word (letters in any case), optional
      white space, at least one digit, a colon. */
  predicate IsQuestionHeader(line: string)
  {
    && StartsWithIgnoreCase(line, "Question")
    && var i := SkipWhile(IsJsSpace, line, 8);
       var j := SkipWhile(IsAsciiDigit, line, i);
       i < j < |line| && line[j] == ':'
  }

  // The prompt: the line with `/^Question\s*\d+:\s*/i` removed, that is
  // everything after the first colon and the white space that follows it.
  function HeaderPrompt(line: string): (prompt: string)
    requires IsQuestionHeader(line)
    ensures |prompt| < |line| && prompt == line[|line| - |prompt|..]
    ensures prompt != [] ==> !IsJsSpace(prompt[0])
    ensures exists c :: 8 <= c < |line| - |prompt| && line[c] == ':'
                        && (forall k :: 0 <= k < c ==> line[k] != ':')
                        && (forall k :: c < k < |line| - |prompt| ==> IsJsSpace(line[k]))
  {
    var i := SkipWhile(IsJsSpace, line, 8);
    var j := SkipWhile(IsAsciiDigit, line, i);
    assert forall k :: 0 <= k < 8 ==> AsciiUpper(line[k]) == AsciiUpper("Question"[k]) != ':';
    assert forall k :: 0 <= k < j ==> line[k] != ':';
    line[SkipWhile(IsJsSpace, line, j + 1)..]
  }

  /** `/^\([A-D]\)/`, case-sensitive. */
  predicate IsOptionLine(line: string)
  {
    |line| >= 3 && line[0] == '(' && 'A' <= line[1] <= 'D' && line[2] == ')'
  }

  /** The option of an option line: the letter at index 1 and
      `line.substring(4).trim()` (empty when the line is shorter). */
  function OptionOf(line: string): (opt: AnswerOption)
    requires IsOptionLine(line)
    ensures opt.letter == line[1] && 'A' <= opt.letter <= 'D'
    ensures |line| <= 4 ==> opt.text == []
    ensures |line| > 4 ==> opt.text == JsTrim(line[4..])
  {
    AnswerOption(line[1], if |line| >= 4 then JsTrim(line[4..]) else [])
  }

  /** The letter of `/^Correct Answer:\s*\([A-D]\)/i` is matched without
      regard to case. */
  predicate IsAnswerLetterIgnoreCase(c: char)
  {
    'A' <= AsciiUpper(c) <= 'D'
  }

  /** `/^Correct Answer:\s*\([A-D]\)/i`. */
  predicate IsAnswerLine(line: string)
  {
    && StartsWithIgnoreCase(line, "Correct Answer:")
    && var k := SkipWhile(IsJsSpace, line, 15);
       k + 2 < |line| && line[k] == '(' && IsAnswerLetterIgnoreCase(line[k + 1]) && line[k + 2] == ')'
  }

  /** An upper-case `(A)` to `(D)` starts at position `i`. */
  predicate ParenLetterAt(line: string, i: nat)
  {
    i + 3 <= |line| && line[i] == '(' && 'A' <= line[i + 1] <= 'D' && line[i + 2] == ')'
  }

  /** Where `/\(([A-D])\)/` first matches at or after `from`, if anywhere. */
  function ParenLetterPos(line: string, from: nat): (r: Option<nat>)
    requires from <= |line|
    ensures r.Some? ==> from <= r.value && ParenLetterAt(line, r.value)
    ensures r.Some? ==> forall k :: from <= k < r.value ==> !ParenLetterAt(line, k)
    ensures r.None? ==> forall k :: from <= k <= |line| ==> !ParenLetterAt(line, k)
    decreases |line| - from
  {
    if from + 3 > |line| then None
    else if ParenLetterAt(line, from) then Some(from)
    else ParenLetterPos(line, from + 1)
  }

  /** What a trimmed line is, the three patterns tried in the source's
      order. A correct-answer line carries the letter of the
      case-sensitive extraction, `None` when that match is `null`. */
  datatype LineKind =
    | Header(prompt: string)
    | OptionEntry(option: AnswerOption)
    | CorrectAnswer(letter: Option<char>)
    | Other

  function Classify(line: string): (k: LineKind)
    ensures k.Header? <==> IsQuestionHeader(line)
    ensures k.OptionEntry? <==> !IsQuestionHeader(line) && IsOptionLine(line)
    ensures k.CorrectAnswer? <==> !IsQuestionHeader(line) && !IsOptionLine(line) && IsAnswerLine(line)
    ensures k.CorrectAnswer? && k.letter.Some? ==> 'A' <= k.letter.value <= 'D'
  {
    if IsQuestionHeader(line) then Header(HeaderPrompt(line))
    else if IsOptionLine(line) then OptionEntry(OptionOf(line))
    else if IsAnswerLine(line) then
      CorrectAnswer(match ParenLetterPos(line, 0)
                    case None => None
                    case Some(i) => Some(line[i + 1]))
    else Other
  }

  /** The kind of every line, each trimmed first (`line = line.trim()`). */
  function LineKinds(lines: seq<string>): (kinds: seq<LineKind>)
    ensures |kinds| == |lines|
  {
    if lines == [] then [] else [Classify(JsTrim(lines[0]))] + LineKinds(lines[1..])
  }

  // ---------------------------------------------------------------------
  // One pass over the lines

  /** The body of the loop for one line of the given kind. `Failure` is
      the `TypeError` raised when a correct-answer line has no upper-case
      parenthesised letter for the case-sensitive extraction. */
  function Step(st: ParseState, kind: LineKind): (r: Result<ParseState>)
    ensures r.Success? ==> st.parsed <= r.value.parsed
    ensures r.Success? ==> |r.value.parsed| <= |st.parsed| + 1
    ensures r.Success? && st.current.Some? ==> r.value.current.Some?
    ensures r.Success? && WellNumbered(st) ==> WellNumbered(r.value)
    ensures r.Failure? <==> st.current.Some? && kind == CorrectAnswer(None)
  {
    match kind
    case Header(prompt) =>
      var parsed := if st.current.Some? then st.parsed + [st.current.value] else st.parsed;
      Success(ParseState(parsed, Some(Question(prompt, [], [], |parsed|))))
    case OptionEntry(option) =>
      if st.current.None? then Success(st)
      else Success(st.(current := Some(st.current.value.(options := st.current.value.options + [option]))))
    case CorrectAnswer(letter) =>
      if st.current.None? then Success(st)
      else if letter.None? then Failure
      else Success(st.(current := Some(st.current.value.(correctAnswer := [letter.value]))))
    case Other => Success(st)
  }

  /** The loop over lines of the given kinds from state `st`; `Failure`
      as soon as one line throws. */
  function RunFrom(st: ParseState, kinds: seq<LineKind>): (r: Result<ParseState>)
    ensures r.Success? ==> st.parsed <= r.value.parsed
    ensures r.Success? && WellNumbered(st) ==> WellNumbered(r.value)
    ensures r.Success? && st.current.Some? ==> r.value.current.Some?
    decreases |kinds|
  {
    if kinds == [] then Success(st)
    else
      match Step(st, kinds[0])
      case Failure => Failure
      case Success(s) => RunFrom(s, kinds[1..])
  }

  /** The loop over `lines` from the empty state. */
  function Run(lines: seq<string>): (r: Result<ParseState>)
    ensures r.Success? ==> WellNumbered(r.value)
  {
    RunFrom(Initial, LineKinds(lines))
  }

  /** The records after the loop, the open one appended. */
  function Close(st: ParseState): (rs: seq<Question>)
    ensures WellNumbered(st) ==> forall k :: 0 <= k < |rs| ==> rs[k].id == k
  {
    if st.current.Some? then st.parsed + [st.current.value] else st.parsed
  }

  /** `rawQuiz.split('\n').filter(line => line.trim())`. */
  function NonBlankLines(lines: seq<string>): (r: seq<string>)
    ensures |r| <= |lines|
  {
    if lines == [] then []
    else if JsTrim(lines[0]) != [] then [lines[0]] + NonBlankLines(lines[1..])
    else NonBlankLines(lines[1..])
  }

  /** The filter keeps exactly the lines that are not blank once trimmed. */
  lemma {:induction false} NonBlankMembers(lines: seq<string>)
    ensures forall l :: l in NonBlankLines(lines) <==> l in lines && JsTrim(l) != []
  {
    if lines != [] {
      NonBlankMembers(lines[1..]);
      assert forall l :: l in lines <==> l == lines[0] || l in lines[1..];
    }
  }

  /** All records, in order, before the filter; `Failure` when the loop threw. */
  function Records(rawQuiz: string): (r: Result<seq<Question>>)
    ensures r.Success? ==> forall k :: 0 <= k < |r.value| ==> r.value[k].id == k
  {
    match Run(NonBlankLines(SplitLines(rawQuiz)))
    case Failure => Failure
    case Success(st) => Success(Close(st))
  }

  /** `filter(q => q.options.length === 4)`. */
  function KeepFourOptions(rs: seq<Question>): (r: seq<Question>)
    ensures forall q :: q in r <==> q in rs && |q.options| == 4
    ensures IdsIncreasing(rs) ==> IdsIncreasing(r)
  {
    if rs == [] then []
    else if |rs[0].options| == 4 then [rs[0]] + KeepFourOptions(rs[1..])
    else KeepFourOptions(rs[1..])
  }

  /** What `parseQuizData` stores in `questions`: the four-option records,
      in order, with the ids they were given before the filter, or nothing
      at all when the loop threw. */
  function ParseQuiz(rawQuiz: string): (r: seq<Question>)
    ensures forall q :: q in r ==> |q.options| == 4
    ensures Records(rawQuiz).Failure? ==> r == []
    ensures Records(rawQuiz).Success? ==>
              forall q :: q in r <==> q in Records(rawQuiz).value && |q.options| == 4
    ensures IdsIncreasing(r)
  {
    match Records(rawQuiz)
    case Failure => []
    case Success(rs) => KeepFourOptions(rs)
  }

  // ---------------------------------------------------------------------
  // The imperative parser

  /** `parseQuizData`: the loop mutates the open record and pushes
      finished ones; the `catch` yields the empty list. */
  method ParseQuizData(rawQuiz: string) returns (questions: seq<Question>)
    ensures questions == ParseQuiz(rawQuiz)
  {
    var lines := NonBlankLines(SplitLines(rawQuiz));
    var parsedQuestions: seq<Question> := [];
    var currentQ: Option<Question> := None;
    var n := 0;
    while n < |lines|
      invariant 0 <= n <= |lines|
      invariant Run(lines) == RunFrom(ParseState(parsedQuestions, currentQ), LineKinds(lines[n..]))
    {
      assert lines[n..][1..] == lines[n + 1..];
      var threw;
      parsedQuestions, currentQ, threw := ParseLine(parsedQuestions, currentQ, JsTrim(lines[n]));
      if threw {
        return [];
      }
      n := n + 1;
    }
    if currentQ.Some? {
      parsedQuestions := parsedQuestions + [currentQ.value];
    }
    questions := KeepFourOptions(parsedQuestions);
  }

  /** The body of the loop for one trimmed line: the first pattern that
      matches decides; option and correct-answer lines change nothing
      while no record is open. `threw` is the `TypeError` of
      `line.match(/\(([A-D])\)/)[1]` when that match is `null`. */
  method ParseLine(parsedQuestions: seq<Question>, currentQ: Option<Question>, line: string)
    returns (parsed: seq<Question>, current: Option<Question>, threw: bool)
    ensures threw <==> Step(ParseState(parsedQuestions, currentQ), Classify(line)).Failure?
    ensures !threw ==> Step(ParseState(parsedQuestions, currentQ), Classify(line)) == Success(ParseState(parsed, current))
  {
    parsed, current, threw := parsedQuestions, currentQ, false;
    if IsQuestionHeader(line) {
      if current.Some? {
        parsed := parsed + [current.value];
      }
      current := Some(Question(HeaderPrompt(line), [], [], |parsed|));
    } else if IsOptionLine(line) {
      if current.Some? {
        current := Some(current.value.(options := current.value.options + [OptionOf(line)]));
      }
    } else if IsAnswerLine(line) {
      if current.Some? {
        var at := ParenLetterPos(line, 0);
        if at.None? {
          threw := true;
        } else {
          current := Some(current.value.(correctAnswer := [line[at.value + 1]]));
        }
      }
    }
  }

  // ---------------------------------------------------------------------
  // Properties of the parse

  /** Running over two pieces of input is running over the first, then
      over the second from where the first stopped; in particular a
      throw in the first piece is never undone by the second. */
  lemma {:induction false} RunFromAppend(st: ParseState, a: seq<LineKind>, b: seq<LineKind>)
    ensures RunFrom(st, a + b) == match RunFrom(st, a)
                                  case Failure => Failure
                                  case Success(s) => RunFrom(s, b)
    decreases |a|
  {
    if a == [] {
      assert a + b == b;
    } else {
      assert (a + b)[0] == a[0] && (a + b)[1..] == a[1..] + b;
      match Step(st, a[0])
      case Failure =>
      case Success(s) => RunFromAppend(s, a[1..], b);
    }
  }

  /** The kinds of a concatenation are the concatenated kinds. */
  lemma {:induction false} LineKindsAppend(a: seq<string>, b: seq<string>)
    ensures LineKinds(a + b) == LineKinds(a) + LineKinds(b)
  {
    if a == [] {
      assert a + b == b;
    } else {
      assert (a + b)[0] == a[0] && (a + b)[1..] == a[1..] + b;
      LineKindsAppend(a[1..], b);
    }
  }

  /** The kind at each position is that line's classification. */
  lemma {:induction false} LineKindAt(lines: seq<string>, i: nat)
    requires i < |lines|
    ensures LineKinds(lines)[i] == Classify(JsTrim(lines[i]))
  {
    if i > 0 {
      LineKindAt(lines[1..], i - 1);
    }
  }

  /** Kinds known line by line are the kinds of the whole sequence. */
  lemma KindsFromEach(lines: seq<string>, kinds: seq<LineKind>)
    requires |lines| == |kinds|
    requires forall i :: 0 <= i < |lines| ==> Classify(JsTrim(lines[i])) == kinds[i]
    ensures LineKinds(lines) == kinds
  {
    forall i | 0 <= i < |lines|
      ensures LineKinds(lines)[i] == kinds[i]
    {
      LineKindAt(lines, i);
    }
  }

  /** Without a question header every line is an orphan or stray: the
      loop ends where it started, with no record at all. */
  lemma {:induction false} NoHeaderNoRecord(kinds: seq<LineKind>)
    requires forall k :: 0 <= k < |kinds| ==> !kinds[k].Header?
    ensures RunFrom(Initial, kinds) == Success(Initial)
  {
    if kinds != [] {
      assert Step(Initial, kinds[0]) == Success(Initial);
      NoHeaderNoRecord(kinds[1..]);
    }
  }

  /** Text in which no line is a question header parses to nothing,
      whatever option or correct-answer lines it holds. */
  lemma NoHeaderNoQuestions(rawQuiz: string)
    requires forall l :: l in SplitLines(rawQuiz) ==> !IsQuestionHeader(JsTrim(l))
    ensures ParseQuiz(rawQuiz) == []
  {
    var lines := NonBlankLines(SplitLines(rawQuiz));
    NonBlankMembers(SplitLines(rawQuiz));
    forall k | 0 <= k < |lines|
      ensures !LineKinds(lines)[k].Header?
    {
      assert lines[k] in lines;
      LineKindAt(lines, k);
    }
    NoHeaderNoRecord(LineKinds(lines));
  }

  /** After a question header the loop always has an open record. */
  lemma {:induction false} OpenAfterHeader(st: ParseState, kinds: seq<LineKind>, h: nat)
    requires h < |kinds| && kinds[h].Header?
    requires RunFrom(st, kinds).Success?
    ensures RunFrom(st, kinds).value.current.Some?
    decreases |kinds|
  {
    var s := Step(st, kinds[0]).value;
    if h > 0 {
      OpenAfterHeader(s, kinds[1..], h - 1);
    }
  }

  /** A correct-answer line without an upper-case `(A)` to `(D)` after a
      question header throws inside the loop, and the whole parse yields
      nothing, however many good records came before or after. */
  lemma ThrowingAnswerLineEmptiesQuiz(rawQuiz: string, lines: seq<string>, h: nat, k: nat)
    requires lines == NonBlankLines(SplitLines(rawQuiz))
    requires h < k < |lines|
    requires IsQuestionHeader(JsTrim(lines[h]))
    requires IsAnswerLine(JsTrim(lines[k])) && ParenLetterPos(JsTrim(lines[k]), 0).None?
    ensures ParseQuiz(rawQuiz) == []
  {
    AnswerLineThrows(JsTrim(lines[k]));
    LineKindAt(lines, k);
    LineKindAt(lines, h);
    ThrowAfterHeader(LineKinds(lines), h, k);
  }

  /** Once a header has opened a record, a throwing correct-answer line
      makes the whole loop throw. */
  lemma ThrowAfterHeader(kinds: seq<LineKind>, h: nat, k: nat)
    requires h < k < |kinds|
    requires kinds[h].Header? && kinds[k] == CorrectAnswer(None)
    ensures RunFrom(Initial, kinds).Failure?
  {
    assert kinds == kinds[..k] + kinds[k..];
    RunFromAppend(Initial, kinds[..k], kinds[k..]);
    if RunFrom(Initial, kinds[..k]).Success? {
      OpenAfterHeader(Initial, kinds[..k], h);
    }
  }

  /** The options named by option lines, in order. */
  function OptionsIn(kinds: seq<LineKind>): (os: seq<AnswerOption>)
    ensures |os| <= |kinds|
  {
    if kinds == [] then []
    else if kinds[0].OptionEntry? then [kinds[0].option] + OptionsIn(kinds[1..])
    else OptionsIn(kinds[1..])
  }

  /** Until the next header, the open record keeps its prompt and id, gains
      the options in the order they appear, duplicates included, keeps its
      correct answer unless a correct-answer line comes, and nothing is
      finalised. */
  lemma {:induction false} WithinRecord(st: ParseState, kinds: seq<LineKind>)
    requires st.current.Some?
    requires forall k :: 0 <= k < |kinds| ==> !kinds[k].Header?
    requires RunFrom(st, kinds).Success?
    ensures var r := RunFrom(st, kinds).value;
            && r.parsed == st.parsed
            && r.current.Some?
            && r.current.value.question == st.current.value.question
            && r.current.value.id == st.current.value.id
            && r.current.value.options == st.current.value.options + OptionsIn(kinds)
            && ((forall k :: 0 <= k < |kinds| ==> !kinds[k].CorrectAnswer?) ==>
                  r.current.value.correctAnswer == st.current.value.correctAnswer)
    decreases |kinds|
  {
    if kinds == [] {
      assert st.current.value.options + [] == st.current.value.options;
    } else {
      var s := Step(st, kinds[0]).value;
      WithinRecord(s, kinds[1..]);
      if kinds[0].OptionEntry? {
        assert st.current.value.options + ([kinds[0].option] + OptionsIn(kinds[1..]))
               == (st.current.value.options + [kinds[0].option]) + OptionsIn(kinds[1..]);
      }
    }
  }

  /** The last correct-answer line of a record decides its letter: it
      overwrites whatever an earlier one set, and the option and other
      lines after it leave it alone. */
  lemma LaterAnswerOverwrites(st: ParseState, kinds: seq<LineKind>, c: char, rest: seq<LineKind>)
    requires st.current.Some?
    requires forall k :: 0 <= k < |kinds| ==> !kinds[k].Header?
    requires forall k :: 0 <= k < |rest| ==> !rest[k].Header? && !rest[k].CorrectAnswer?
    requires RunFrom(st, kinds + [CorrectAnswer(Some(c))] + rest).Success?
    ensures RunFrom(st, kinds + [CorrectAnswer(Some(c))] + rest).value.current.value.correctAnswer == [c]
  {
    var upTo := kinds + [CorrectAnswer(Some(c))];
    RunFromAppend(st, upTo, rest);
    RunFromAppend(st, kinds, [CorrectAnswer(Some(c))]);
    WithinRecord(st, kinds);
    var s := RunFrom(st, upTo).value;
    assert s.current.value.correctAnswer == [c];
    WithinRecord(s, rest);
  }

  /** A header line finalises the open record, if any, and opens a fresh
      one with its prompt, no options, no correct answer, and the number
      of finalised records as its id. */
  lemma HeaderOpensRecord(st: ParseState, prompt: string)
    ensures Step(st, Header(prompt)) == Success(ParseState(Close(st), Some(Question(prompt, [], [], |Close(st)|))))
  {
  }

  /** A record with no correct-answer line reaches the end of its lines
      with the correct answer still `''`: its options are those of its
      option lines, and the records before it are finalised. */
  lemma RecordWithoutAnswerLine(st: ParseState, prompt: string, rest: seq<LineKind>)
    requires forall k :: 0 <= k < |rest| ==> !rest[k].Header? && !rest[k].CorrectAnswer?
    requires RunFrom(st, [Header(prompt)] + rest).Success?
    ensures RunFrom(st, [Header(prompt)] + rest).value
            == ParseState(Close(st), Some(Question(prompt, OptionsIn(rest), [], |Close(st)|)))
  {
    var kinds := [Header(prompt)] + rest;
    assert kinds[0] == Header(prompt) && kinds[1..] == rest;
    var s := Step(st, Header(prompt)).value;
    HeaderOpensRecord(st, prompt);
    WithinRecord(s, rest);
    assert [] + OptionsIn(rest) == OptionsIn(rest);
  }

  /** The three patterns are tried in order, and a correct-answer line
      matches neither of the first two. */
  lemma AnswerLineIsNotHeaderOrOption(line: string)
    requires IsAnswerLine(line)
    ensures !IsQuestionHeader(line) && !IsOptionLine(line)
  {
    assert AsciiUpper(line[0]) == 'C';
  }

  /** A correct-answer line whose extraction finds no upper-case letter
      is classified as one that throws. */
  lemma AnswerLineThrows(line: string)
    requires IsAnswerLine(line) && ParenLetterPos(line, 0).None?
    ensures Classify(line) == CorrectAnswer(None)
  {
    AnswerLineIsNotHeaderOrOption(line);
  }

  /** `Correct Answer: (b)`: the case-insensitive test accepts the line,
      the case-sensitive extraction finds no letter. */
  lemma LowerCaseAnswerLineThrows(c: char)
    requires 'a' <= c <= 'd'
    ensures IsAnswerLine("Correct Answer: (" + [c] + ")")
    ensures ParenLetterPos("Correct Answer: (" + [c] + ")", 0).None?
  {
    var line := "Correct Answer: (" + [c] + ")";
    SkipWhileStopsAt(IsJsSpace, line, 15, 16);
    assert forall k :: 0 <= k <= |line| ==> !ParenLetterAt(line, k) by {
      forall k | 0 <= k <= |line| ensures !ParenLetterAt(line, k) {
        if k == 16 {
          assert line[17] == c;
        }
      }
    }
  }

  /** `SkipWhile` stops at the first character outside the class. */
  lemma SkipWhileStopsAt(inClass: char -> bool, s: string, i: nat, j: nat)
    requires i <= j <= |s|
    requires forall k :: i <= k < j ==> inClass(s[k])
    requires j < |s| ==> !inClass(s[j])
    ensures SkipWhile(inClass, s, i) == j
  {
  }

  /** The leftmost match of `/\(([A-D])\)/` is at `i`. */
  lemma ParenLetterPosIs(line: string, i: nat)
    requires ParenLetterAt(line, i)
    requires forall k :: 0 <= k < i ==> !ParenLetterAt(line, k)
    ensures ParenLetterPos(line, 0) == Some(i)
  {
  }
}
