/**
 * The quiz of a stage: the questions are asked in turn; each correct
 * answer scores a point and awards the next puzzle piece in a shuffled
 * order, and the quiz counts as done only once all nine pieces are
 * collected. A retry starts the stage over with a fresh shuffle.
 *
 * The shuffle of the piece indices is a parameter (any permutation of
 * 0..8); the calls the quiz makes to its parent are kept in a log.
 */
module Quiz {
  import opened Base
  import opened Stages
  import opened QuizApi

  /** The piece announced after a correct answer: its picture and its 1-based number. */
  datatype PieceAward = PieceAward(image: string, number: nat)

  /** The calls the quiz makes to its parent. */
  datatype Call = QuizComplete | Closed

  /** The indices 0, 1, ..., n-1 in order, as `[...Array(n).keys()]` lists them. */
  function Indices(n: nat): (r: seq<nat>)
    ensures |r| == n
    decreases n
  {
    if n == 0 then [] else Indices(n - 1) + [n - 1]
  }

  lemma {:induction false} IndicesShape(n: nat)
    ensures forall i :: 0 <= i < n ==> Indices(n)[i] == i
    ensures forall x: nat :: multiset(Indices(n))[x] == if x < n then 1 else 0
    decreases n
  {
    if n > 0 {
      IndicesShape(n - 1);
    }
  }

  /** An order of the nine pieces: nine valid piece indices, none twice. */
  predicate PieceOrder(p: seq<nat>)
  {
    |p| == PieceCount && (forall i :: 0 <= i < |p| ==> p[i] < PieceCount) && Distinct(p)
  }

  /** A shuffle of the nine piece indices: the same indices, each once, in some order. */
  predicate IsShuffle(p: seq<nat>)
  {
    |p| == PieceCount && multiset(p) == multiset(Indices(|p|))
  }

  /** A shuffle holds nine indices, each a valid piece, none twice. */
  lemma ShuffleShape(p: seq<nat>)
    requires IsShuffle(p)
    ensures |p| == PieceCount
    ensures forall i :: 0 <= i < |p| ==> p[i] < PieceCount
    ensures Distinct(p)
  {
    IndicesShape(|p|);
    forall i | 0 <= i < |p|
      ensures p[i] < PieceCount
    {
      assert p[i] in multiset(p);
    }
    forall i, j | 0 <= i < j < |p|
      ensures p[i] != p[j]
    {
      if p[i] == p[j] {
        DoubleCount(p, i, j);
      }
    }
  }

  /** A value at two positions is counted twice. */
  lemma DoubleCount(p: seq<nat>, i: nat, j: nat)
    requires i < j < |p| && p[i] == p[j]
    ensures multiset(p)[p[i]] >= 2
  {
    var x := p[i];
    assert p == p[..i] + [x] + p[i + 1..j] + [x] + p[j + 1..];
    assert multiset(p) == multiset(p[..i]) + multiset{x} + multiset(p[i + 1..j]) + multiset{x} + multiset(p[j + 1..]);
  }

  /** The questions of a stage: its list in the quiz data, or none. */
  function StageQuestions(quizData: map<string, seq<Question>>, s: string): seq<Question>
  {
    if s in quizData then quizData[s] else []
  }

  /** The pieces awarded so far, in order: the first `collected` entries of the shuffle. */
  function AwardedPrefix(available: seq<nat>, collected: nat): (r: seq<nat>)
    ensures |r| <= |available| && |r| <= collected
    ensures r == available[..|r|]
  {
    if collected <= |available| then available[..collected] else available
  }

  /** One more correct answer takes one more entry of the shuffle, while any are left. */
  lemma AwardedStep(available: seq<nat>, collected: nat)
    ensures AwardedPrefix(available, collected + 1) ==
      if collected < |available| then AwardedPrefix(available, collected) + [available[collected]]
      else AwardedPrefix(available, collected)
  {
    if collected < |available| {
      assert available[..collected + 1] == available[..collected] + [available[collected]];
    }
  }

  class QuizModal {
    /** The stage the quiz was last opened for. */
    var stage: string
    var config: Option<PuzzleConfig>
    var questions: seq<Question>
    var index: nat
    var selected: string
    var showResult: bool
    var isCorrect: bool
    var score: nat
    var collected: nat
    /** The shuffled piece indices, awarded front to back. */
    var available: seq<nat>
    var currentPiece: Option<PieceAward>
    var showPieceCollected: bool
    var showNotification: bool
    /** The piece count the last "not enough pieces" warning reported. */
    var warning: Option<nat>
    var calls: seq<Call>
    /** The piece indices awarded since the stage was last (re)started. */
    ghost var awarded: seq<nat>

    /**
     * With a configuration, the piece order is a shuffle and the pieces
     * awarded so far are its first entries, one per correct answer while
     * pieces remain; no point is scored without a correct answer.
     */
    ghost predicate Valid()
      reads this
    {
      (config.Some? ==> |config.value.pieces| == PieceCount) &&
      (config.Some? ==> PieceOrder(available) && awarded == AwardedPrefix(available, collected)) &&
      (config.None? ==> awarded == []) &&
      score <= collected
    }

    /** The modal shows a question, so its buttons can be pressed. */
    predicate Rendered()
      reads this
    {
      index < |questions|
    }

    constructor ()
      ensures Valid() && stage == "" && config.None? && questions == [] && available == []
      ensures index == 0 && selected == "" && !showResult && score == 0 && collected == 0
      ensures calls == [] && awarded == [] && currentPiece.None? && !showNotification
    {
      stage := "";
      config := None;
      questions := [];
      index := 0;
      selected := "";
      showResult := false;
      isCorrect := false;
      score := 0;
      collected := 0;
      available := [];
      currentPiece := None;
      showPieceCollected := false;
      showNotification := false;
      warning := None;
      calls := [];
      awarded := [];
    }

    /**
     * The effect run when the modal opens for `s` (it runs only for a
     * non-empty stage): the stage's questions are loaded, the first one is
     * shown, score and pieces start at zero, and with a configuration the
     * piece order is a fresh shuffle.
     */
    method Open(s: string, quizData: map<string, seq<Question>>, shuffled: seq<nat>)
      requires Valid()
      requires Config(s).Some? ==> IsShuffle(shuffled)
      modifies this`stage, this`config, this`questions, this`index, this`selected, this`showResult
      modifies this`score, this`collected, this`showNotification, this`available, this`awarded
      ensures Valid()
      ensures s == "" ==>
        stage == old(stage) && config == old(config) && questions == old(questions) &&
        index == old(index) && selected == old(selected) && showResult == old(showResult) &&
        score == old(score) && collected == old(collected) && showNotification == old(showNotification) &&
        available == old(available) && awarded == old(awarded)
      ensures s != "" && s in quizData ==> questions == quizData[s]
      ensures s != "" && s !in quizData ==> questions == []
      ensures s != "" ==>
        stage == s && config == Config(s) &&
        index == 0 && selected == "" && !showResult && score == 0 && collected == 0 && !showNotification &&
        available == (if Config(s).Some? then shuffled else old(available))
    {
      if s != "" {
        stage := s;
        Restart(Config(s), StageQuestions(quizData, s), shuffled);
      }
    }

    /** Loads a stage's configuration and questions and starts it from the first question. */
    method Restart(c: Option<PuzzleConfig>, qs: seq<Question>, shuffled: seq<nat>)
      requires c.Some? ==> |c.value.pieces| == PieceCount && IsShuffle(shuffled)
      modifies this`config, this`questions, this`index, this`selected, this`showResult, this`score
      modifies this`collected, this`showNotification, this`available, this`awarded
      ensures Valid()
      ensures config == c && questions == qs
      ensures index == 0 && selected == "" && !showResult && score == 0 && collected == 0 && !showNotification
      ensures available == (if c.Some? then shuffled else old(available)) && awarded == []
    {
      config := c;
      questions := qs;
      index := 0;
      selected := "";
      showResult := false;
      score := 0;
      collected := 0;
      showNotification := false;
      if c.Some? {
        ShuffleShape(shuffled);
        available := shuffled;
      }
      awarded := [];
    }

    /** Choosing an answer; ignored once the result is shown. */
    method SelectAnswer(answer: string)
      requires Valid()
      modifies this`selected
      ensures Valid()
      ensures selected == if old(showResult) then old(selected) else answer
    {
      if !showResult {
        selected := answer;
      }
    }

    /**
     * Submitting the chosen answer: nothing without a choice; otherwise the
     * result is shown, and a correct answer scores a point and collects a
     * piece, announcing the next piece of the shuffle while one remains.
     */
    method SubmitAnswer()
      requires Valid() && Rendered()
      modifies this`isCorrect, this`showResult, this`score, this`collected
      modifies this`currentPiece, this`showPieceCollected, this`awarded
      ensures Valid()
      ensures old(selected) == "" ==>
        showResult == old(showResult) && isCorrect == old(isCorrect) && score == old(score) &&
        collected == old(collected) && currentPiece == old(currentPiece) &&
        showPieceCollected == old(showPieceCollected) && awarded == old(awarded)
      ensures old(selected) != "" ==>
        var correct := old(selected) == old(questions)[old(index)].answer;
        showResult && isCorrect == correct &&
        score == old(score) + (if correct then 1 else 0) &&
        collected == old(collected) + (if correct then 1 else 0)
      ensures (old(selected) != "" && old(selected) == old(questions)[old(index)].answer &&
               config.Some? && old(collected) < |available|) ==>
        var piece := available[old(collected)];
        piece < PieceCount && awarded == old(awarded) + [piece] && showPieceCollected &&
        currentPiece == Some(PieceAward(StageImage(config.value, config.value.pieces[piece]), old(collected) + 1))
      ensures !(old(selected) != "" && old(selected) == old(questions)[old(index)].answer &&
                config.Some? && old(collected) < |available|) ==>
        currentPiece == old(currentPiece) && showPieceCollected == old(showPieceCollected) && awarded == old(awarded)
    {
      if selected == "" {
        return;
      }
      var correct := selected == questions[index].answer;
      isCorrect := correct;
      showResult := true;
      if correct {
        score := score + 1;
        if config.Some? && |available| > collected {
          var piece := available[collected];
          currentPiece := Some(PieceAward(StageImage(config.value, config.value.pieces[piece]), collected + 1));
          showPieceCollected := true;
          awarded := awarded + [piece];
        }
        AwardedStep(available, collected);
        collected := collected + 1;
      }
    }

    /**
     * "Next": before the last question it moves on and clears the choice and
     * the result; at the last question the quiz completes (and closes) only
     * with all nine pieces collected, and otherwise warns with the count.
     */
    method NextQuestion()
      requires Valid() && Rendered()
      modifies this`index, this`selected, this`showResult, this`calls, this`warning, this`showNotification
      ensures Valid()
      ensures old(index) < |questions| - 1 ==>
        index == old(index) + 1 && selected == "" && !showResult &&
        calls == old(calls) && showNotification == old(showNotification) && warning == old(warning)
      ensures old(index) >= |questions| - 1 ==>
        index == old(index) && selected == old(selected) && showResult == old(showResult)
      ensures old(index) >= |questions| - 1 && collected == PieceCount ==>
        calls == old(calls) + [QuizComplete, Closed] &&
        showNotification == old(showNotification) && warning == old(warning)
      ensures old(index) >= |questions| - 1 && collected != PieceCount ==>
        calls == old(calls) && showNotification && warning == Some(collected)
    {
      if index < |questions| - 1 {
        index := index + 1;
        selected := "";
        showResult := false;
      } else if collected == PieceCount {
        calls := calls + [QuizComplete, Closed];
      } else {
        warning := Some(collected);
        showNotification := true;
      }
    }

    /** Closing: back to the first question with no score, but the collected count is kept. */
    method Close()
      requires Valid()
      modifies this`index, this`selected, this`showResult, this`score, this`showNotification, this`calls
      ensures Valid()
      ensures index == 0 && selected == "" && !showResult && score == 0 && !showNotification
      ensures calls == old(calls) + [Closed]
    {
      index := 0;
      selected := "";
      showResult := false;
      score := 0;
      showNotification := false;
      calls := calls + [Closed];
    }

    /** Dismissing the warning. */
    method ConfirmNotification()
      requires Valid()
      modifies this`showNotification
      ensures Valid() && !showNotification
    {
      showNotification := false;
    }

    /** Dismissing the piece announcement. */
    method ClosePieceCollected()
      requires Valid()
      modifies this`showPieceCollected
      ensures Valid() && !showPieceCollected
    {
      showPieceCollected := false;
    }

    /**
     * Retrying after the warning: the stage starts over from the first
     * question with no score and no pieces, and with a configuration the
     * piece order is a fresh shuffle.
     */
    method RetryQuiz(shuffled: seq<nat>)
      requires Valid()
      requires config.Some? ==> IsShuffle(shuffled)
      modifies this`config, this`questions, this`index, this`selected, this`showResult, this`score
      modifies this`collected, this`showNotification, this`available, this`awarded
      ensures Valid()
      ensures !showNotification && index == 0 && selected == "" && !showResult && score == 0 && collected == 0
      ensures available == (if config.Some? then shuffled else old(available))
      ensures awarded == []
      ensures config == old(config) && questions == old(questions)
    {
      Restart(config, questions, shuffled);
    }
  }

  /**
   * Nine distinct piece indices are a shuffle: each index below nine
   * occurs, once.
   */
  lemma PieceOrderIsShuffle(p: seq<nat>)
    requires PieceOrder(p)
    ensures IsShuffle(p)
  {
    DistinctRange(p, |p|);
  }

  /** `n` distinct values below `n` are the indices below `n`, each once. */
  lemma DistinctRange(p: seq<nat>, n: nat)
    requires |p| == n && Distinct(p)
    requires forall i :: 0 <= i < |p| ==> p[i] < n
    ensures multiset(p) == multiset(Indices(n))
  {
    IndicesShape(n);
    var ix := Indices(n);
    assert Distinct(ix);
    DistinctRangeElements(p, n);
    SameElementsSameMultiset(p, ix);
  }

  /** `n` distinct values below `n` take every value below `n`. */
  lemma DistinctRangeElements(p: seq<nat>, n: nat)
    requires |p| == n && Distinct(p)
    requires forall i :: 0 <= i < |p| ==> p[i] < n
    ensures Elements(p) == Elements(Indices(n))
  {
    IndicesShape(n);
    var used := Elements(p);
    var all := Elements(Indices(n));
    assert Distinct(Indices(n));
    DistinctCard(p);
    DistinctCard(Indices(n));
    assert used <= all by {
      forall x | x in used ensures x in all {
        assert Indices(n)[x] == x;
      }
    }
    if y :| y in all && y !in used {
      SubsetCard(used, all - {y});
      assert false;
    }
  }

  /**
   * No piece is announced twice, and once all nine are collected every
   * piece of the stage has been announced exactly once.
   */
  lemma AwardedPieces(q: QuizModal)
    requires q.Valid() && q.config.Some?
    ensures Distinct(q.awarded)
    ensures forall i :: 0 <= i < |q.awarded| ==> q.awarded[i] < PieceCount
    ensures q.collected >= PieceCount ==> IsShuffle(q.awarded)
  {
    var a := q.awarded;
    assert forall i :: 0 <= i < |a| ==> a[i] == q.available[i];
    if q.collected >= PieceCount {
      assert a == q.available;
      PieceOrderIsShuffle(a);
    }
  }
}
