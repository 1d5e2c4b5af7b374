/** The title normalisation and per-query bookkeeping of scripts/run_vodafone_discovery_test.py.
    For every test query the script records the top title, a Y/N flag saying whether the
    expected FAQ is among the top three titles, and the top titles with their confidences. */
module VodafoneDiscoveryTest {
  import opened Wrappers
  import opened ElasticsearchConnector

  // ---------------------------------------------------------------------------------------
  // replace_after_pipe: re.sub(r'\|.*$', '', text) with Python's `re` semantics. `.` does
  // not match a newline, and `$` matches at the end of the text or just before a newline
  // that ends the text.

  /** The pattern `\|.*$` matches starting at index `p`: a '|' there, and no newline after it
      except possibly the one that ends the text. */
  predicate PipeMatchAt(text: string, p: int)
  {
    0 <= p < |text| && text[p] == '|' && forall k :: p < k < |text| - 1 ==> text[k] != '\n'
  }

  /** Where every match ends: before a final newline, else at the end of the text. */
  function PipeMatchEnd(text: string): nat
  {
    if 0 < |text| && text[|text| - 1] == '\n' then |text| - 1 else |text|
  }

  /** The leftmost match at or after `from`, or |text| when there is none. */
  function FirstPipeMatch(text: string, from: nat): (p: nat)
    requires from <= |text|
    ensures from <= p <= |text|
    ensures p < |text| ==> PipeMatchAt(text, p)
    ensures forall k :: from <= k < p ==> !PipeMatchAt(text, k)
    decreases |text| - from
  {
    if from == |text| then |text|
    else if PipeMatchAt(text, from) then from
    else FirstPipeMatch(text, from + 1)
  }

  /** re.sub deletes the leftmost match; the search resumes at the match's end, where at most
      a final newline is left, so there is never a second match. */
  function ReplaceAfterPipe(text: string): (r: string)
    ensures |r| <= |text|
    ensures '|' !in text ==> r == text
    ensures '\n' !in text ==> r <= text && '|' !in r
    ensures '\n' !in text && '|' in text ==> |r| < |text| && text[|r|] == '|'
  {
    var p := FirstPipeMatch(text, 0);
    if p == |text| then
      assert '\n' !in text ==> '|' !in text by {
        if '\n' !in text && '|' in text {
          var k :| 0 <= k < |text| && text[k] == '|';
          assert PipeMatchAt(text, k);
        }
      }
      text
    else
      var r := text[..p] + text[PipeMatchEnd(text)..];
      assert '\n' !in text ==> r == text[..p] && '|' !in r by {
        if '\n' !in text {
          assert PipeMatchEnd(text) == |text|;
          assert r == text[..p];
          forall k | 0 <= k < p
            ensures text[k] != '|'
          {
            assert !PipeMatchAt(text, k);
          }
        }
      }
      r
  }

  /** Without newlines a second application changes nothing. */
  lemma ReplaceAfterPipeIdempotent(text: string)
    requires '\n' !in text
    ensures ReplaceAfterPipe(ReplaceAfterPipe(text)) == ReplaceAfterPipe(text)
  {
  }

  /** With a newline it does: the first pass keeps a '|' that a newline separated from the
      end, and the second pass, with that newline now final, removes it. */
  lemma ReplaceAfterPipeNotIdempotentAcrossNewline()
    ensures ReplaceAfterPipe("a|\n|b") == "a|\n"
    ensures ReplaceAfterPipe("a|\n") == "a\n"
  {
    var t := "a|\n|b";
    assert !PipeMatchAt(t, 0);
    assert !PipeMatchAt(t, 1) by { assert t[2] == '\n'; }
    assert !PipeMatchAt(t, 2);
    assert PipeMatchAt(t, 3);
    assert FirstPipeMatch(t, 0) == 3;
    var u := "a|\n";
    assert !PipeMatchAt(u, 0);
    assert PipeMatchAt(u, 1);
    assert FirstPipeMatch(u, 0) == 1;
    assert PipeMatchEnd(u) == 2;
  }

  // ---------------------------------------------------------------------------------------
  // Character deletion and case folding.

  /** re.sub of a one-character pattern by '': every `c` is deleted, the rest kept in order. */
  function DeleteChar(text: string, c: char): (r: string)
    ensures c !in r
    ensures c !in text ==> r == text
    ensures forall x :: x != c ==> multiset(r)[x] == multiset(text)[x]
  {
    if text == [] then []
    else
      var rest := DeleteChar(text[1..], c);
      assert text == [text[0]] + text[1..];
      if text[0] == c then rest else [text[0]] + rest
  }

  /** Deletion works piece by piece, so the order of the kept characters is the input's. */
  lemma {:induction false} DeleteCharConcat(a: string, b: string, c: char)
    ensures DeleteChar(a + b, c) == DeleteChar(a, c) + DeleteChar(b, c)
  {
    if a != [] {
      assert (a + b)[1..] == a[1..] + b;
      DeleteCharConcat(a[1..], b, c);
    } else {
      assert a + b == b;
    }
  }

  /** replace_special_patterns: the tab deletion. */
  function ReplaceSpecialPatterns(text: string): (r: string)
    ensures '\t' !in r
    ensures '\t' !in text ==> r == text
    ensures forall x :: x != '\t' ==> multiset(r)[x] == multiset(text)[x]
  {
    DeleteChar(text, '\t')
  }

  predicate IsAsciiUpper(c: char)
  {
    'A' <= c <= 'Z'
  }

  function LowerChar(c: char): char
  {
    if IsAsciiUpper(c) then (c as int + 32) as char else c
  }

  /** str.lower() on ASCII letters. */
  function Lower(text: string): (r: string)
    ensures |r| == |text|
    ensures forall i :: 0 <= i < |r| ==> !IsAsciiUpper(r[i])
    ensures forall i :: 0 <= i < |text| && !IsAsciiUpper(text[i]) ==> r[i] == text[i]
    ensures forall i :: 0 <= i < |text| && IsAsciiUpper(text[i]) ==> r[i] as int == text[i] as int + 32
  {
    seq(|text|, i requires 0 <= i < |text| => LowerChar(text[i]))
  }

  /** custom_preprocess: the pipe suffix cut, every space deleted, then lower-cased. */
  function CustomPreprocess(text: string): (r: string)
    ensures ' ' !in r
    ensures forall i :: 0 <= i < |r| ==> !IsAsciiUpper(r[i])
    ensures '\n' !in text ==> '|' !in r && '\n' !in r
  {
    var cut := ReplaceAfterPipe(text);
    var spaceless := DeleteChar(cut, ' ');
    var r := Lower(spaceless);
    assert forall i :: 0 <= i < |r| ==> r[i] == spaceless[i] || 'a' <= r[i] <= 'z';
    assert '\n' !in text ==> '|' !in r && '\n' !in r by {
      if '\n' !in text {
        assert '|' !in cut;
        assert '\n' !in cut by {
          assert cut <= text;
          assert forall i :: 0 <= i < |cut| ==> cut[i] == text[i];
        }
        assert multiset(spaceless)['|'] == 0 && multiset(spaceless)['\n'] == 0;
        assert '|' !in spaceless && '\n' !in spaceless;
      }
    }
    r
  }

  /** Without newlines a preprocessed text is a fixed point. */
  lemma CustomPreprocessIdempotent(text: string)
    requires '\n' !in text
    ensures CustomPreprocess(CustomPreprocess(text)) == CustomPreprocess(text)
  {
    var r := CustomPreprocess(text);
    assert ReplaceAfterPipe(r) == r;
    assert DeleteChar(r, ' ') == r;
    assert Lower(r) == r;
  }

  /** The titles are cut at the pipe before they are preprocessed, which cuts them again;
      without newlines the first cut makes no difference. */
  lemma CustomPreprocessAfterPipeCut(text: string)
    requires '\n' !in text
    ensures CustomPreprocess(ReplaceAfterPipe(text)) == CustomPreprocess(text)
  {
    ReplaceAfterPipeIdempotent(text);
  }

  /** Lower-casing leaves a text without upper-case letters alone. */
  lemma LowerIdentity(text: string)
    requires forall i :: 0 <= i < |text| ==> !IsAsciiUpper(text[i])
    ensures Lower(text) == text
  {
  }

  /** A '|' followed by a newline that is not the last character does not start a match. */
  lemma CutKeepsPipeBeforeInnerNewline()
    ensures ReplaceAfterPipe("a|b\n ") == "a|b\n "
  {
    var t := "a|b\n ";
    assert !PipeMatchAt(t, 1) by { assert t[3] == '\n'; }
    assert FirstPipeMatch(t, 0) == 5;
  }

  /** Once the newline is final, the same '|' does start a match. */
  lemma CutRemovesPipeBeforeFinalNewline()
    ensures ReplaceAfterPipe("a|b\n") == "a\n"
  {
    var u := "a|b\n";
    assert PipeMatchAt(u, 1);
    assert FirstPipeMatch(u, 0) == 1;
  }

  /** With a newline the preprocessing is not a fixed point: deleting a trailing space makes
      a newline final ... */
  lemma CustomPreprocessKeepsPipeBeforeInnerNewline()
    ensures CustomPreprocess("a|b\n ") == "a|b\n"
  {
    CutKeepsPipeBeforeInnerNewline();
    DeleteCharConcat("a|b\n", " ", ' ');
    LowerIdentity("a|b\n");
  }

  /** ... and the second pass then cuts at the '|' before it. */
  lemma CustomPreprocessCutsPipeBeforeFinalNewline()
    ensures CustomPreprocess("a|b\n") == "a\n"
  {
    CutRemovesPipeBeforeFinalNewline();
    LowerIdentity("a\n");
  }

  // ---------------------------------------------------------------------------------------
  // The top-3 decision.

  /** Python's `s[:n]`. */
  function Take<T>(s: seq<T>, n: nat): (r: seq<T>)
    ensures |r| == if |s| < n then |s| else n
    ensures r <= s
  {
    if |s| <= n then s else s[..n]
  }

  /** The titles with their pipe suffixes cut. */
  function CutTitles(titles: seq<string>): (r: seq<string>)
    ensures |r| == |titles|
    ensures forall i :: 0 <= i < |titles| ==> r[i] == ReplaceAfterPipe(titles[i])
  {
    seq(|titles|, i requires 0 <= i < |titles| => ReplaceAfterPipe(titles[i]))
  }

  /** A title, cut at the pipe, preprocesses to the same text as the expected FAQ. */
  predicate TitleMatches(title: string, correctFaq: string)
  {
    CustomPreprocess(ReplaceAfterPipe(title)) == CustomPreprocess(correctFaq)
  }

  /** Every text preprocessed. */
  function PreprocessAll(texts: seq<string>): (r: seq<string>)
    ensures |r| == |texts|
    ensures forall i :: 0 <= i < |texts| ==> r[i] == CustomPreprocess(texts[i])
  {
    seq(|texts|, i requires 0 <= i < |texts| => CustomPreprocess(texts[i]))
  }

  /** The flag written at :78-81 for the titles returned: "Y" or "N". */
  function Top3Flag(titles: seq<string>, correctFaq: string): (flag: string)
    ensures flag == "Y" || flag == "N"
  {
    if CustomPreprocess(correctFaq) in PreprocessAll(CutTitles(Take(titles, 3))) then "Y" else "N"
  }

  /** The flag is "Y" exactly when one of the first three titles, cut at the pipe and
      preprocessed, equals the preprocessed expected FAQ. */
  lemma Top3FlagMeaning(titles: seq<string>, correctFaq: string)
    ensures Top3Flag(titles, correctFaq) == "Y" <==>
            exists i :: 0 <= i < |titles| && i < 3 && TitleMatches(titles[i], correctFaq)
  {
    var top3 := CutTitles(Take(titles, 3));
    var preprocessed := PreprocessAll(top3);
    var target := CustomPreprocess(correctFaq);
    if target in preprocessed {
      var i :| 0 <= i < |preprocessed| && preprocessed[i] == target;
      assert TitleMatches(titles[i], correctFaq);
    }
    if exists i :: 0 <= i < |titles| && i < 3 && TitleMatches(titles[i], correctFaq) {
      var i :| 0 <= i < |titles| && i < 3 && TitleMatches(titles[i], correctFaq);
      assert preprocessed[i] == target;
    }
  }

  /** For newline-free titles, the double cut is invisible: the flag compares the
      preprocessed titles themselves. */
  lemma Top3FlagNewlineFree(titles: seq<string>, correctFaq: string)
    requires forall i :: 0 <= i < |titles| ==> '\n' !in titles[i]
    ensures Top3Flag(titles, correctFaq) == "Y" <==>
            exists i :: 0 <= i < |titles| && i < 3 && CustomPreprocess(titles[i]) == CustomPreprocess(correctFaq)
  {
    Top3FlagMeaning(titles, correctFaq);
    forall i | 0 <= i < |titles|
      ensures TitleMatches(titles[i], correctFaq) <==> CustomPreprocess(titles[i]) == CustomPreprocess(correctFaq)
    {
      CustomPreprocessAfterPipeCut(titles[i]);
    }
  }

  /** Titles ranked below the third do not affect the flag. */
  lemma Top3FlagIgnoresLowerRanks(titles: seq<string>, more: seq<string>, correctFaq: string)
    requires |titles| >= 3
    ensures Top3Flag(titles + more, correctFaq) == Top3Flag(titles, correctFaq)
  {
    assert forall i :: 0 <= i < 3 ==> (titles + more)[i] == titles[i];
  }

  // ---------------------------------------------------------------------------------------
  // Confidence scores by title.

  /** The dict built at :85-90: each of the titles mapped to the score at its index, a later
      equal title overwriting an earlier one. */
  function TitleConfidence(titles: seq<string>, scores: seq<Value>): (m: map<string, Value>)
    requires |titles| <= |scores|
    ensures forall t :: t in m <==> t in titles
    ensures titles != [] ==> m[titles[|titles| - 1]] == scores[|titles| - 1]
  {
    if titles == [] then map[]
    else
      var n := |titles| - 1;
      var front := TitleConfidence(titles[..n], scores);
      assert titles == titles[..n] + [titles[n]];
      front[titles[n] := scores[n]]
  }

  /** A title that does not occur again later maps to the score at its own index. */
  lemma {:induction false} TitleConfidenceUnique(titles: seq<string>, scores: seq<Value>, i: nat)
    requires |titles| <= |scores|
    requires i < |titles| && forall j :: i < j < |titles| ==> titles[j] != titles[i]
    ensures TitleConfidence(titles, scores)[titles[i]] == scores[i]
  {
    var n := |titles| - 1;
    if i < n {
      assert titles[..n][i] == titles[i];
      assert forall j :: i < j < n ==> titles[..n][j] == titles[j];
      TitleConfidenceUnique(titles[..n], scores, i);
    }
  }

  /** The dict-building loop; a score list shorter than the title list raises IndexError. */
  method ConfidenceByTitle(titles: seq<string>, scores: seq<Value>) returns (r: Result<map<string, Value>, string>)
    ensures |titles| <= |scores| ==> r == Success(TitleConfidence(titles, scores))
    ensures |scores| < |titles| ==> r == Failure(IndexErrorText)
  {
    var byTitle: map<string, Value> := map[];
    var i := 0;
    while i < |titles|
      invariant 0 <= i <= |titles|
      invariant i <= |scores|
      invariant byTitle == TitleConfidence(titles[..i], scores)
    {
      if i >= |scores| {
        return Failure(IndexErrorText);
      }
      assert titles[..i + 1][..i] == titles[..i];
      byTitle := byTitle[titles[i] := scores[i]];
      i := i + 1;
    }
    assert titles[..i] == titles;
    return Success(byTitle);
  }

  // ---------------------------------------------------------------------------------------
  // What one query appends to the output lists.

  /** The text of the IndexError raised by indexing past the end of a list. */
  const IndexErrorText := "list index out of range"

  /** The cell written for an exception: "ERROR: " and the exception's text. */
  function ErrorMessage(exceptionText: string): string
  {
    "ERROR: " + exceptionText
  }

  /** A cell of the 'Top 3 returned FAQ with Confidence Scores' column. */
  datatype ConfidenceCell = Scores(byTitle: map<string, Value>) | Message(text: string)

  /** What one query appends to the three lists the loop fills. */
  datatype QueryCells = QueryCells(actualFaqs: seq<string>, correctFaqInTop3: seq<string>, withConfidence: seq<ConfidenceCell>)

  /** The confidence step at :84-90 for the cut top titles: the scores of the top three
      results by title, or the text of the exception it raises. `confidences` is the
      outcome of get_result_confidence, its failure given as the exception's text. */
  function ConfidenceStep(top3: seq<string>, confidences: Result<seq<Value>, string>): (r: Result<map<string, Value>, string>)
    ensures r.Success? <==> confidences.Success? && |top3| <= |Take(confidences.value, 3)|
    ensures r.Success? ==> r.value == TitleConfidence(top3, Take(confidences.value, 3))
    ensures confidences.Failure? ==> r == Failure(confidences.error)
  {
    match confidences
    case Failure(e) => Failure(e)
    case Success(scores) =>
      var top := Take(scores, 3);
      if |top3| <= |top| then Success(TitleConfidence(top3, top)) else Failure(IndexErrorText)
  }

  /** The cells the loop body at :66-98 appends for one query, as written: the top title and
      the flag are appended before the confidence step, so an exception there appends its
      message to all three lists after them. */
  function RecordedCells(titles: seq<string>, correctFaq: string, confidences: Result<seq<Value>, string>): (cells: QueryCells)
    ensures titles == [] ==> cells == QueryCells([ErrorMessage(IndexErrorText)], [ErrorMessage(IndexErrorText)],
                                                 [Message(ErrorMessage(IndexErrorText))])
    ensures 1 <= |cells.actualFaqs| <= 2 && |cells.actualFaqs| == |cells.correctFaqInTop3|
    ensures |cells.withConfidence| == 1
    ensures titles != [] ==> cells.actualFaqs[0] == ReplaceAfterPipe(titles[0])
                             && cells.correctFaqInTop3[0] == Top3Flag(titles, correctFaq)
    ensures titles != [] ==>
      (|cells.actualFaqs| == 1 <==> ConfidenceStep(CutTitles(Take(titles, 3)), confidences).Success?)
    ensures titles != [] && ConfidenceStep(CutTitles(Take(titles, 3)), confidences).Success? ==>
      cells.withConfidence[0] == Scores(ConfidenceStep(CutTitles(Take(titles, 3)), confidences).value)
    ensures titles != [] && ConfidenceStep(CutTitles(Take(titles, 3)), confidences).Failure? ==>
      var message := ErrorMessage(ConfidenceStep(CutTitles(Take(titles, 3)), confidences).error);
      cells.actualFaqs[1] == message && cells.correctFaqInTop3[1] == message
      && cells.withConfidence[0] == Message(message)
  {
    var top3 := CutTitles(Take(titles, 3));
    if |top3| == 0 then
      var message := ErrorMessage(IndexErrorText);
      QueryCells([message], [message], [Message(message)])
    else
      var flag := Top3Flag(titles, correctFaq);
      match ConfidenceStep(top3, confidences)
      case Success(byTitle) => QueryCells([top3[0]], [flag], [Scores(byTitle)])
      case Failure(e) =>
        var message := ErrorMessage(e);
        QueryCells([top3[0], message], [flag, message], [Message(message)])
  }

  /** The cells recorded for one query, by the outcome of the confidence step on the cut top
      titles: the IndexError cells when there is no title, otherwise the top title and the flag,
      followed on a failing step by the error text. */
  lemma RecordedCellsByStep(titles: seq<string>, correctFaq: string, confidences: Result<seq<Value>, string>,
                            top3: seq<string>, step: Result<map<string, Value>, string>)
    requires top3 == CutTitles(Take(titles, 3)) && step == ConfidenceStep(top3, confidences)
    ensures top3 == [] ==>
              var message := ErrorMessage(IndexErrorText);
              RecordedCells(titles, correctFaq, confidences) == QueryCells([message], [message], [Message(message)])
    ensures top3 != [] && step.Success? ==>
              RecordedCells(titles, correctFaq, confidences)
              == QueryCells([top3[0]], [Top3Flag(titles, correctFaq)], [Scores(step.value)])
    ensures top3 != [] && step.Failure? ==>
              var message := ErrorMessage(step.error);
              RecordedCells(titles, correctFaq, confidences)
              == QueryCells([top3[0], message], [Top3Flag(titles, correctFaq), message], [Message(message)])
  {
  }

  /** The corrected loop body: the row is completed before anything is appended, so every
      query contributes exactly one cell to each list. */
  function AlignedCells(titles: seq<string>, correctFaq: string, confidences: Result<seq<Value>, string>): (cells: QueryCells)
    ensures |cells.actualFaqs| == 1 && |cells.correctFaqInTop3| == 1 && |cells.withConfidence| == 1
    ensures titles == [] ==> cells == RecordedCells(titles, correctFaq, confidences)
  {
    var top3 := CutTitles(Take(titles, 3));
    if |top3| == 0 then
      var message := ErrorMessage(IndexErrorText);
      QueryCells([message], [message], [Message(message)])
    else
      match ConfidenceStep(top3, confidences)
      case Success(byTitle) => QueryCells([top3[0]], [Top3Flag(titles, correctFaq)], [Scores(byTitle)])
      case Failure(e) =>
        var message := ErrorMessage(e);
        QueryCells([message], [message], [Message(message)])
  }

  /** Where the confidence step succeeds, the corrected body records what the original does. */
  lemma AlignedCellsAgree(titles: seq<string>, correctFaq: string, confidences: Result<seq<Value>, string>)
    requires titles != [] ==> ConfidenceStep(CutTitles(Take(titles, 3)), confidences).Success?
    ensures AlignedCells(titles, correctFaq, confidences) == RecordedCells(titles, correctFaq, confidences)
  {
  }

  /** As written, a failing confidence step leaves two cells in the first two lists and one in
      the third. The six output columns then differ in length, so building the output table
      from them raises a ValueError and the run ends before anything is saved. */
  lemma RecordedCellsMisaligned(titles: seq<string>, correctFaq: string, exceptionText: string)
    requires titles != []
    ensures var cells := RecordedCells(titles, correctFaq, Failure(exceptionText));
            |cells.actualFaqs| == 2 && |cells.correctFaqInTop3| == 2 && |cells.withConfidence| == 1
            && cells.actualFaqs[1] == ErrorMessage(exceptionText)
  {
  }

  // ---------------------------------------------------------------------------------------
  // The length check after the loop.

  /** The test at :102 as Python evaluates it: a chain of `!=` compares neighbours only, so it
      holds only when every two adjacent lengths differ. */
  predicate LengthCheckAsWritten(userInputs: nat, correctFaqs: nat, actualFaqs: nat,
                                 inTop3: nat, withConfidence: nat, urls: nat)
  {
    userInputs != correctFaqs && correctFaqs != actualFaqs && actualFaqs != inTop3
    && inTop3 != withConfidence && withConfidence != urls
  }

  /** The intended test: some two of the six lengths differ. */
  predicate LengthsDiffer(userInputs: nat, correctFaqs: nat, actualFaqs: nat,
                          inTop3: nat, withConfidence: nat, urls: nat)
  {
    !(userInputs == correctFaqs == actualFaqs == inTop3 == withConfidence == urls)
  }

  /** The input and expected-FAQ lists are two columns of one table, so their lengths agree
      and the check as written never fires, not even for the misaligned row above. */
  lemma LengthCheckNeverFires(titles: seq<string>, correctFaq: string, exceptionText: string)
    requires titles != []
    ensures var cells := RecordedCells(titles, correctFaq, Failure(exceptionText));
            !LengthCheckAsWritten(1, 1, |cells.actualFaqs|, |cells.correctFaqInTop3|, |cells.withConfidence|, 1)
            && LengthsDiffer(1, 1, |cells.actualFaqs|, |cells.correctFaqInTop3|, |cells.withConfidence|, 1)
  {
    RecordedCellsMisaligned(titles, correctFaq, exceptionText);
  }

  /** The intended test fires exactly when a recorded list's length is not the number of
      queries. */
  lemma LengthsDifferDetects(queries: nat, actualFaqs: nat, inTop3: nat, withConfidence: nat)
    ensures LengthsDiffer(queries, queries, actualFaqs, inTop3, withConfidence, queries)
            <==> actualFaqs != queries || inTop3 != queries || withConfidence != queries
  {
  }

  // ---------------------------------------------------------------------------------------
  // The loop's state.

  /** The three lists the test loop fills, one query at a time. */
  /** Appending two cells one after the other appends the pair. */
  lemma AppendTwice<T>(s: seq<T>, a: T, b: T)
    ensures s + [a] + [b] == s + [a, b]
  {
  }

  class DiscoveryTestRun {
    var actualFaqs: seq<string>
    var correctFaqInTop3: seq<string>
    var topTitlesWithConfidence: seq<ConfidenceCell>

    /** The three lists have one entry per recorded query. */
    predicate Aligned()
      reads this
    {
      |actualFaqs| == |correctFaqInTop3| == |topTitlesWithConfidence|
    }

    constructor ()
      ensures actualFaqs == [] && correctFaqInTop3 == [] && topTitlesWithConfidence == []
      ensures Aligned()
    {
      actualFaqs := [];
      correctFaqInTop3 := [];
      topTitlesWithConfidence := [];
    }

    /** The loop body as written: `titles` is the text of get_title()'s list. */
    method RecordQuery(titles: seq<string>, correctFaq: string, confidences: Result<seq<Value>, string>)
      modifies this
      ensures var cells := RecordedCells(titles, correctFaq, confidences);
              actualFaqs == old(actualFaqs) + cells.actualFaqs
              && correctFaqInTop3 == old(correctFaqInTop3) + cells.correctFaqInTop3
              && topTitlesWithConfidence == old(topTitlesWithConfidence) + cells.withConfidence
    {
      var top3 := CutTitles(Take(titles, 3));
      if |top3| == 0 {
        RecordedCellsByStep(titles, correctFaq, confidences, top3, ConfidenceStep(top3, confidences));
        var message := ErrorMessage(IndexErrorText);
        actualFaqs := actualFaqs + [message];
        correctFaqInTop3 := correctFaqInTop3 + [message];
        topTitlesWithConfidence := topTitlesWithConfidence + [Message(message)];
        return;
      }
      var flag := Top3Flag(titles, correctFaq);
      actualFaqs := actualFaqs + [top3[0]];
      correctFaqInTop3 := correctFaqInTop3 + [flag];
      var step: Result<map<string, Value>, string>;
      if confidences.Failure? {
        step := Failure(confidences.error);
      } else {
        step := ConfidenceByTitle(top3, Take(confidences.value, 3));
      }
      assert step == ConfidenceStep(top3, confidences);
      RecordedCellsByStep(titles, correctFaq, confidences, top3, step);
      if step.Success? {
        topTitlesWithConfidence := topTitlesWithConfidence + [Scores(step.value)];
      } else {
        var message := ErrorMessage(step.error);
        AppendTwice(old(actualFaqs), top3[0], message);
        AppendTwice(old(correctFaqInTop3), flag, message);
        actualFaqs := actualFaqs + [message];
        correctFaqInTop3 := correctFaqInTop3 + [message];
        topTitlesWithConfidence := topTitlesWithConfidence + [Message(message)];
      }
    }

    /** The corrected loop body: one cell per list per query, so the lists stay aligned. */
    method RecordQueryAligned(titles: seq<string>, correctFaq: string, confidences: Result<seq<Value>, string>)
      modifies this
      ensures var cells := AlignedCells(titles, correctFaq, confidences);
              actualFaqs == old(actualFaqs) + cells.actualFaqs
              && correctFaqInTop3 == old(correctFaqInTop3) + cells.correctFaqInTop3
              && topTitlesWithConfidence == old(topTitlesWithConfidence) + cells.withConfidence
      ensures old(Aligned()) ==> Aligned()
    {
      var cells := AlignedCells(titles, correctFaq, confidences);
      actualFaqs := actualFaqs + cells.actualFaqs;
      correctFaqInTop3 := correctFaqInTop3 + cells.correctFaqInTop3;
      topTitlesWithConfidence := topTitlesWithConfidence + cells.withConfidence;
    }
  }
}
