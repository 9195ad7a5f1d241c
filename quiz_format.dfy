/**
 * The block format the quiz generator is asked to produce, written as a
 * formatter, and the round trip through the parser: well-formed blocks,
 * blank lines between them, come back as the questions they describe,
 * numbered from zero.
 */
module QuizFormat {
  import opened Wrappers
  import opened Text
  import opened QuizParser

  /** A question as the generator is asked to write it. */
  datatype Draft = Draft(question: string, options: seq<AnswerOption>, correct: char)

  /** Text that survives a line's trim unchanged: non-empty, on one line,
      neither starting nor ending with white space. */
  predicate IsPlainText(s: string)
  {
    s != [] && '\n' !in s && !IsJsSpace(s[0]) && !IsJsSpace(s[|s| - 1])
  }

  predicate IsWellFormed(d: Draft)
  {
    && IsPlainText(d.question)
    && |d.options| == 4
    && (forall i :: 0 <= i < 4 ==> 'A' <= d.options[i].letter <= 'D' && IsPlainText(d.options[i].text))
    && 'A' <= d.correct <= 'D'
  }

  function HeaderLine(number: nat, prompt: string): string
  {
    "Question " + Decimal(number) + ": " + prompt
  }

  function OptionLine(o: AnswerOption): string
  {
    "(" + [o.letter] + ") " + o.text
  }

  function AnswerLine(letter: char): string
  {
    "Correct Answer: (" + [letter] + ")"
  }

  function OptionLines(options: seq<AnswerOption>): seq<string>
  {
    seq(|options|, i requires 0 <= i < |options| => OptionLine(options[i]))
  }

  /** One block: header, the options, correct answer, then a blank line. */
  function BlockLines(number: nat, d: Draft): seq<string>
  {
    [HeaderLine(number, d.question)] + OptionLines(d.options) + [AnswerLine(d.correct), ""]
  }

  /** The lines of a whole quiz, blocks numbered from 1. */
  function QuizLines(ds: seq<Draft>): seq<string>
  {
    if ds == [] then [] else QuizLines(ds[..|ds| - 1]) + BlockLines(|ds|, ds[|ds| - 1])
  }

  /** The quiz text. */
  function FormatQuiz(ds: seq<Draft>): string
  {
    var lines := QuizLines(ds);
    if lines == [] then [] else JoinLines(lines)
  }

  /** The record the parser builds for a draft. */
  function ToQuestion(d: Draft, id: nat): Question
  {
    Question(d.question, d.options, [d.correct], id)
  }

  function Expected(ds: seq<Draft>): seq<Question>
  {
    seq(|ds|, i requires 0 <= i < |ds| => ToQuestion(ds[i], i))
  }

  /** Formatting then parsing gives back every question, options and
      correct letter intact, with ids 0, 1, 2, ... */
  lemma FormatThenParse(ds: seq<Draft>)
    requires forall i :: 0 <= i < |ds| ==> IsWellFormed(ds[i])
    ensures ParseQuiz(FormatQuiz(ds)) == Expected(ds)
  {
    var lines := QuizLines(ds);
    QuizLinesFacts(ds);
    if lines == [] {
      assert ds == [];
      assert SplitLines([]) == [[]];
      assert NonBlankLines([[]]) == [];
    } else {
      SplitJoinLines(lines);
    }
    assert NonBlankLines(SplitLines(FormatQuiz(ds))) == NonBlankLines(lines);
    RunQuizLines(ds);
    CloseStateAfter(ds);
    KeepAllFourOptions(Expected(ds));
  }

  // ---------------------------------------------------------------------
  // The state of the loop after each block

  function StateAfter(ds: seq<Draft>): ParseState
  {
    if ds == [] then Initial
    else ParseState(Expected(ds[..|ds| - 1]), Some(ToQuestion(ds[|ds| - 1], |ds| - 1)))
  }

  lemma CloseStateAfter(ds: seq<Draft>)
    ensures Close(StateAfter(ds)) == Expected(ds)
  {
    if ds != [] {
      assert Expected(ds[..|ds| - 1]) + [ToQuestion(ds[|ds| - 1], |ds| - 1)] == Expected(ds);
    }
  }

  lemma {:induction false} RunQuizLines(ds: seq<Draft>)
    requires forall i :: 0 <= i < |ds| ==> IsWellFormed(ds[i])
    ensures RunFrom(Initial, LineKinds(NonBlankLines(QuizLines(ds)))) == Success(StateAfter(ds))
  {
    if ds != [] {
      var init := ds[..|ds| - 1];
      var last := ds[|ds| - 1];
      var a, b := NonBlankLines(QuizLines(init)), NonBlankLines(BlockLines(|ds|, last));
      RunQuizLines(init);
      NonBlankAppend(QuizLines(init), BlockLines(|ds|, last));
      LineKindsAppend(a, b);
      RunFromAppend(Initial, LineKinds(a), LineKinds(b));
      RunBlock(StateAfter(init), |ds|, last);
      CloseStateAfter(init);
      assert |Close(StateAfter(init))| == |ds| - 1;
      assert ds[..|ds| - 1] == init;
    }
  }

  /** One block moves the loop from `st` to a state where `st`'s open
      record is finalised and the block's record is open. */
  lemma RunBlock(st: ParseState, number: nat, d: Draft)
    requires IsWellFormed(d)
    ensures RunFrom(st, LineKinds(NonBlankLines(BlockLines(number, d))))
            == Success(ParseState(Close(st), Some(ToQuestion(d, |Close(st)|))))
  {
    var six := BlockNonBlank(number, d);
    BlockKinds(number, d, six);
    RunSixKinds(st, d.question, d.options, d.correct);
  }

  /** How the six kept lines of a block are classified. */
  lemma BlockKinds(number: nat, d: Draft, six: seq<string>)
    requires IsWellFormed(d)
    requires six == [HeaderLine(number, d.question), OptionLine(d.options[0]), OptionLine(d.options[1]),
                     OptionLine(d.options[2]), OptionLine(d.options[3]), AnswerLine(d.correct)]
    ensures LineKinds(six) == [Header(d.question), OptionEntry(d.options[0]), OptionEntry(d.options[1]),
                               OptionEntry(d.options[2]), OptionEntry(d.options[3]), CorrectAnswer(Some(d.correct))]
  {
    var o := d.options;
    var kinds := [Header(d.question), OptionEntry(o[0]), OptionEntry(o[1]), OptionEntry(o[2]), OptionEntry(o[3]),
                  CorrectAnswer(Some(d.correct))];
    forall i | 0 <= i < 6
      ensures Classify(JsTrim(six[i])) == kinds[i]
    {
      if i == 0 {
        HeaderFacts(number, d.question);
      } else if i == 1 {
        OptionFacts(o[0]);
      } else if i == 2 {
        OptionFacts(o[1]);
      } else if i == 3 {
        OptionFacts(o[2]);
      } else if i == 4 {
        OptionFacts(o[3]);
      } else {
        AnswerFacts(d.correct);
      }
    }
    KindsFromEach(six, kinds);
  }

  /** A header, four option lines and a correct-answer line, in that order. */
  lemma RunSixKinds(st: ParseState, prompt: string, o: seq<AnswerOption>, c: char)
    requires |o| == 4
    ensures RunFrom(st, [Header(prompt), OptionEntry(o[0]), OptionEntry(o[1]), OptionEntry(o[2]),
                         OptionEntry(o[3]), CorrectAnswer(Some(c))])
            == Success(ParseState(Close(st), Some(Question(prompt, o, [c], |Close(st)|))))
  {
    var a := CorrectAnswer(Some(c));
    var q := Question(prompt, [], [], |Close(st)|);
    var s0 := ParseState(Close(st), Some(q));
    var s1 := s0.(current := Some(q.(options := [] + [o[0]])));
    var s2 := s0.(current := Some(q.(options := [] + [o[0]] + [o[1]])));
    var s3 := s0.(current := Some(q.(options := [] + [o[0]] + [o[1]] + [o[2]])));
    var s4 := s0.(current := Some(q.(options := [] + [o[0]] + [o[1]] + [o[2]] + [o[3]])));
    var s5 := s4.(current := Some(q.(options := [] + [o[0]] + [o[1]] + [o[2]] + [o[3]], correctAnswer := [c])));
    var k5 := [a];
    var k4 := [OptionEntry(o[3])] + k5;
    var k3 := [OptionEntry(o[2])] + k4;
    var k2 := [OptionEntry(o[1])] + k3;
    var k1 := [OptionEntry(o[0])] + k2;
    RunFromCons(s4, a, []);
    assert [a] + [] == k5;
    assert RunFrom(s4, k5) == Success(s5);
    RunFromCons(s3, OptionEntry(o[3]), k5);
    assert RunFrom(s3, k4) == Success(s5);
    RunFromCons(s2, OptionEntry(o[2]), k4);
    assert RunFrom(s2, k3) == Success(s5);
    RunFromCons(s1, OptionEntry(o[1]), k3);
    assert RunFrom(s1, k2) == Success(s5);
    RunFromCons(s0, OptionEntry(o[0]), k2);
    assert RunFrom(s0, k1) == Success(s5);
    RunFromCons(st, Header(prompt), k1);
    assert [Header(prompt), OptionEntry(o[0]), OptionEntry(o[1]), OptionEntry(o[2]), OptionEntry(o[3]), a]
           == [Header(prompt)] + k1;
    assert [] + [o[0]] + [o[1]] + [o[2]] + [o[3]] == o;
  }

  lemma RunFromCons(st: ParseState, kind: LineKind, rest: seq<LineKind>)
    ensures RunFrom(st, [kind] + rest) == match Step(st, kind)
                                         case Failure => Failure
                                         case Success(s) => RunFrom(s, rest)
  {
    assert ([kind] + rest)[1..] == rest;
  }

  /** The blank separator is dropped, the other six lines are kept. */
  lemma BlockNonBlank(number: nat, d: Draft) returns (six: seq<string>)
    requires IsWellFormed(d)
    ensures six == [HeaderLine(number, d.question), OptionLine(d.options[0]), OptionLine(d.options[1]),
                    OptionLine(d.options[2]), OptionLine(d.options[3]), AnswerLine(d.correct)]
    ensures NonBlankLines(BlockLines(number, d)) == six
  {
    var o := d.options;
    six := [HeaderLine(number, d.question), OptionLine(o[0]), OptionLine(o[1]), OptionLine(o[2]), OptionLine(o[3]),
            AnswerLine(d.correct)];
    assert OptionLines(o) == [OptionLine(o[0]), OptionLine(o[1]), OptionLine(o[2]), OptionLine(o[3])];
    assert BlockLines(number, d) == six + [""];
    NonBlankAppend(six, [""]);
    assert NonBlankLines([""]) == [];
    forall k | 0 <= k < 6 ensures JsTrim(six[k]) != [] {
      LineStartIsVisible(number, d, k);
      TrimEmptyIff(IsJsSpace, six[k]);
    }
    NonBlankKeepsAll(six);
  }

  // ---------------------------------------------------------------------
  // How each kind of line is read

  lemma HeaderFacts(number: nat, prompt: string)
    requires IsPlainText(prompt)
    ensures Classify(JsTrim(HeaderLine(number, prompt))) == Header(prompt)
  {
    HeaderMatches(number, prompt);
    HeaderUnpadded(number, prompt);
  }

  lemma HeaderMatches(number: nat, prompt: string)
    requires IsPlainText(prompt)
    ensures IsQuestionHeader(HeaderLine(number, prompt))
    ensures HeaderPrompt(HeaderLine(number, prompt)) == prompt
  {
    var line := HeaderLine(number, prompt);
    var n := |Decimal(number)|;
    HeaderLayout(number, prompt);
    SkipWhileStopsAt(IsJsSpace, line, 8, 9);
    SkipWhileStopsAt(IsAsciiDigit, line, 9, 9 + n);
    SkipWhileStopsAt(IsJsSpace, line, 10 + n, 11 + n);
  }

  /** Where each part of a header line sits. */
  lemma HeaderLayout(number: nat, prompt: string)
    requires IsPlainText(prompt)
    ensures var line, n := HeaderLine(number, prompt), |Decimal(number)|;
            && |line| == 11 + n + |prompt|
            && line[..8] == "Question" && line[8] == ' '
            && (forall k :: 9 <= k < 9 + n ==> IsAsciiDigit(line[k]))
            && line[9 + n] == ':' && line[10 + n] == ' ' && line[11 + n..] == prompt
  {
    var digits := Decimal(number);
    var line := HeaderLine(number, prompt);
    var n := |digits|;
    assert line == "Question " + digits + ": " + prompt;
    assert forall k :: 9 <= k < 9 + n ==> line[k] == digits[k - 9];
  }

  lemma HeaderUnpadded(number: nat, prompt: string)
    requires IsPlainText(prompt)
    ensures JsTrim(HeaderLine(number, prompt)) == HeaderLine(number, prompt)
    ensures '\n' !in HeaderLine(number, prompt)
  {
    var line := HeaderLine(number, prompt);
    var n := |line| - |prompt|;
    assert line[n..] == prompt;
    assert line[|line| - 1] == prompt[|prompt| - 1];
    TrimKeepsUnpadded(IsJsSpace, line);
    forall k | 0 <= k < |line| ensures line[k] != '\n' {
      if k >= n {
        assert line[k] == prompt[k - n];
      }
    }
  }

  lemma OptionFacts(o: AnswerOption)
    requires 'A' <= o.letter <= 'D' && IsPlainText(o.text)
    ensures Classify(JsTrim(OptionLine(o))) == OptionEntry(o)
  {
    OptionMatches(o);
    OptionUnpadded(o);
  }

  lemma OptionMatches(o: AnswerOption)
    requires 'A' <= o.letter <= 'D' && IsPlainText(o.text)
    ensures !IsQuestionHeader(OptionLine(o)) && IsOptionLine(OptionLine(o))
    ensures OptionOf(OptionLine(o)) == o
  {
    var line := OptionLine(o);
    assert line[4..] == o.text;
    assert AsciiUpper(line[0]) != AsciiUpper("Question"[0]);
    TrimKeepsUnpadded(IsJsSpace, o.text);
  }

  lemma OptionUnpadded(o: AnswerOption)
    requires 'A' <= o.letter <= 'D' && IsPlainText(o.text)
    ensures JsTrim(OptionLine(o)) == OptionLine(o)
    ensures '\n' !in OptionLine(o)
  {
    var line := OptionLine(o);
    assert line[4..] == o.text;
    assert line[|line| - 1] == o.text[|o.text| - 1];
    TrimKeepsUnpadded(IsJsSpace, line);
    forall k | 0 <= k < |line| ensures line[k] != '\n' {
      if k >= 4 {
        assert line[k] == o.text[k - 4];
      }
    }
  }

  lemma AnswerFacts(c: char)
    requires 'A' <= c <= 'D'
    ensures Classify(JsTrim(AnswerLine(c))) == CorrectAnswer(Some(c))
  {
    AnswerMatches(c);
    AnswerFound(c);
    AnswerUnpadded(c);
  }

  lemma AnswerMatches(c: char)
    requires 'A' <= c <= 'D'
    ensures IsAnswerLine(AnswerLine(c))
    ensures !IsQuestionHeader(AnswerLine(c)) && !IsOptionLine(AnswerLine(c))
  {
    var line := AnswerLine(c);
    assert line[..15] == "Correct Answer:";
    SkipWhileStopsAt(IsJsSpace, line, 15, 16);
    AnswerLineIsNotHeaderOrOption(line);
  }

  lemma AnswerFound(c: char)
    requires 'A' <= c <= 'D'
    ensures ParenLetterPos(AnswerLine(c), 0) == Some(16) && AnswerLine(c)[17] == c
  {
    var line := AnswerLine(c);
    assert line[..16] == "Correct Answer: ";
    assert forall k :: 0 <= k < 16 ==> line[k] != '(';
    ParenLetterPosIs(line, 16);
  }

  lemma AnswerUnpadded(c: char)
    requires 'A' <= c <= 'D'
    ensures JsTrim(AnswerLine(c)) == AnswerLine(c)
    ensures '\n' !in AnswerLine(c)
  {
    var line := AnswerLine(c);
    assert line[0] == 'C' && line[|line| - 1] == ')';
    TrimKeepsUnpadded(IsJsSpace, line);
    assert line == "Correct Answer: (" + [c] + ")";
  }

  // ---------------------------------------------------------------------
  // Lists of lines

  lemma {:induction false} QuizLinesFacts(ds: seq<Draft>)
    requires forall i :: 0 <= i < |ds| ==> IsWellFormed(ds[i])
    ensures forall k :: 0 <= k < |QuizLines(ds)| ==> '\n' !in QuizLines(ds)[k]
    ensures QuizLines(ds) == [] <==> ds == []
  {
    if ds != [] {
      var init := QuizLines(ds[..|ds| - 1]);
      var block := BlockLines(|ds|, ds[|ds| - 1]);
      QuizLinesFacts(ds[..|ds| - 1]);
      BlockHasNoNewline(|ds|, ds[|ds| - 1]);
      forall k | 0 <= k < |init + block| ensures '\n' !in (init + block)[k] {
        if k >= |init| {
          assert (init + block)[k] == block[k - |init|];
        }
      }
    }
  }

  lemma BlockHasNoNewline(number: nat, d: Draft)
    requires IsWellFormed(d)
    ensures forall k :: 0 <= k < |BlockLines(number, d)| ==> '\n' !in BlockLines(number, d)[k]
  {
    var o := d.options;
    assert OptionLines(o) == [OptionLine(o[0]), OptionLine(o[1]), OptionLine(o[2]), OptionLine(o[3])];
    HeaderUnpadded(number, d.question);
    OptionUnpadded(o[0]);
    OptionUnpadded(o[1]);
    OptionUnpadded(o[2]);
    OptionUnpadded(o[3]);
    AnswerUnpadded(d.correct);
  }

  /** Each of the six lines of a block starts with a visible character. */
  lemma LineStartIsVisible(number: nat, d: Draft, k: nat)
    requires IsWellFormed(d) && k < 6
    ensures var six := [HeaderLine(number, d.question), OptionLine(d.options[0]), OptionLine(d.options[1]),
                        OptionLine(d.options[2]), OptionLine(d.options[3]), AnswerLine(d.correct)];
            six[k] != [] && !IsJsSpace(six[k][0])
  {
  }

  lemma {:induction false} NonBlankAppend(a: seq<string>, b: seq<string>)
    ensures NonBlankLines(a + b) == NonBlankLines(a) + NonBlankLines(b)
  {
    if a != [] {
      assert (a + b)[0] == a[0] && (a + b)[1..] == a[1..] + b;
      NonBlankAppend(a[1..], b);
      var rest := NonBlankLines(a[1..]);
      if JsTrim(a[0]) != [] {
        assert [a[0]] + (rest + NonBlankLines(b)) == ([a[0]] + rest) + NonBlankLines(b);
      }
    } else {
      assert a + b == b;
    }
  }

  lemma {:induction false} NonBlankKeepsAll(lines: seq<string>)
    requires forall k :: 0 <= k < |lines| ==> JsTrim(lines[k]) != []
    ensures NonBlankLines(lines) == lines
  {
    if lines != [] {
      NonBlankKeepsAll(lines[1..]);
    }
  }

  lemma {:induction false} KeepAllFourOptions(qs: seq<Question>)
    requires forall i :: 0 <= i < |qs| ==> |qs[i].options| == 4
    ensures KeepFourOptions(qs) == qs
  {
    if qs != [] {
      KeepAllFourOptions(qs[1..]);
    }
  }
}
