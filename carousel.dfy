/**
 * The two picture carousels: the collection, which shows the pictures of
 * the stages completed so far, and the final gallery, which shows all
 * five. Both keep one `current` index that "previous" and "next" step
 * with wrap-around and that a click on a slide sets directly.
 */
module Carousel {
  import opened Base

  /** A stage picture with its stage number and period; its title and caption text are not kept. */
  datatype Slide = Slide(src: string, stageNumber: int, year: string)

  /** The pictures of the five stages, in stage order. */
  const AllStages: seq<Slide> := [
    Slide("/stage1/giaidoan1.jpg", 1, "1945 – 1954"),
    Slide("/stage2/giaidoan2.jpg", 2, "1954 – 1975"),
    Slide("/stage3/giaidoan3.png", 3, "1975 – 1986"),
    Slide("/stage4/giaidoan4.png", 4, "1986 – 2010"),
    Slide("/stage5/giaidoan5.png", 5, "2010 – nay")
  ]

  /** The final gallery's slides: the five stage pictures. */
  const FinalSlides: seq<string> := [
    "/stage1/giaidoan1.jpg", "/stage2/giaidoan2.jpg", "/stage3/giaidoan3.png",
    "/stage4/giaidoan4.png", "/stage5/giaidoan5.png"
  ]

  // ---------------------------------------------------------------------
  // The collection's slides

  /** The slides whose position is among the completed checkpoints, in their order. */
  function CompletedSlides(all: seq<Slide>, completed: seq<int>): seq<Slide>
  {
    if all == [] then []
    else CompletedSlides(all[..|all| - 1], completed) + (if |all| - 1 in completed then [all[|all| - 1]] else [])
  }

  /** The positions below `n` that are among the completed checkpoints, ascending. */
  function KeptPositions(n: nat, completed: seq<int>): seq<nat>
  {
    if n == 0 then [] else KeptPositions(n - 1, completed) + (if n - 1 in completed then [n - 1] else [])
  }

  /** The kept positions are exactly the completed ones below `n`, each once and ascending. */
  lemma {:induction false} KeptPositionsExact(n: nat, completed: seq<int>)
    ensures forall k :: 0 <= k < |KeptPositions(n, completed)| ==> KeptPositions(n, completed)[k] < n
    ensures forall k, l :: 0 <= k < l < |KeptPositions(n, completed)| ==>
      KeptPositions(n, completed)[k] < KeptPositions(n, completed)[l]
    ensures forall i: nat :: i in KeptPositions(n, completed) <==> i < n && i in completed
    decreases n
  {
    if n > 0 {
      KeptPositionsExact(n - 1, completed);
    }
  }

  /**
   * The filter keeps, in order, exactly the slides at the kept positions:
   * the k-th slide shown is the slide at the k-th completed position.
   */
  lemma {:induction false} CompletedSlidesExact(all: seq<Slide>, completed: seq<int>)
    ensures |CompletedSlides(all, completed)| == |KeptPositions(|all|, completed)|
    ensures forall k :: 0 <= k < |CompletedSlides(all, completed)| ==>
      KeptPositions(|all|, completed)[k] < |all| &&
      CompletedSlides(all, completed)[k] == all[KeptPositions(|all|, completed)[k]]
    decreases |all|
  {
    KeptPositionsExact(|all|, completed);
    if all != [] {
      var init := all[..|all| - 1];
      CompletedSlidesExact(init, completed);
      assert |init| == |all| - 1;
      forall k | 0 <= k < |CompletedSlides(init, completed)|
        ensures init[KeptPositions(|init|, completed)[k]] == all[KeptPositions(|init|, completed)[k]]
      {
        KeptPositionsExact(|init|, completed);
      }
    }
  }

  /** The collection renders only while open and with at least one slide. */
  function CollectionRenders(isOpen: bool, slides: seq<Slide>): bool
  {
    isOpen && |slides| > 0
  }

  /** The previous and next controls appear only with more than one slide. */
  function ShowControls(slides: seq<Slide>): bool
  {
    |slides| > 1
  }

  /** The collection has something to show exactly when some stage is completed. */
  lemma CollectionNonEmpty(isOpen: bool, completed: seq<int>)
    ensures CollectionRenders(isOpen, CompletedSlides(AllStages, completed)) <==>
      isOpen && exists i :: 0 <= i < 5 && i in completed
  {
    CompletedSlidesExact(AllStages, completed);
    var kept := KeptPositions(|AllStages|, completed);
    KeptPositionsExact(|AllStages|, completed);
    if |kept| > 0 {
      assert kept[0] in kept;
    }
    if exists i :: 0 <= i < 5 && i in completed {
      var i :| 0 <= i < 5 && i in completed;
      assert i in kept;
    }
  }

  /** The collection shows its "previous"/"next" controls exactly when two stages are completed. */
  lemma CollectionControls(completed: seq<int>)
    ensures ShowControls(CompletedSlides(AllStages, completed)) <==>
      exists i, j :: 0 <= i < j < 5 && i in completed && j in completed
  {
    CompletedSlidesExact(AllStages, completed);
    var kept := KeptPositions(|AllStages|, completed);
    KeptPositionsExact(|AllStages|, completed);
    if |kept| > 1 {
      assert kept[0] in completed && kept[1] in completed;
      assert kept[0] in kept && kept[1] in kept;
    }
    if exists i, j :: 0 <= i < j < 5 && i in completed && j in completed {
      var i, j :| 0 <= i < j < 5 && i in completed && j in completed;
      assert i in kept && j in kept;
      assert |kept| > 1;
    }
  }

  // ---------------------------------------------------------------------
  // Index arithmetic

  /** "Previous": one back, from the first slide to the last. */
  function PrevIndex(current: int, len: nat): int
  {
    var previous := current - 1;
    if previous < 0 then len - 1 else previous
  }

  /** "Next": one on, from the last slide to the first. */
  function NextIndex(current: int, len: nat): int
  {
    var next := current + 1;
    if next == len then 0 else next
  }

  /** Both steps keep the index among the slides. */
  lemma StepsStayInRange(current: int, len: nat)
    requires 0 <= current < len
    ensures 0 <= PrevIndex(current, len) < len
    ensures 0 <= NextIndex(current, len) < len
  {
  }

  /** Among the slides, the steps are counting modulo the number of slides. */
  lemma StepsAreModular(current: int, len: nat)
    requires 0 <= current < len
    ensures NextIndex(current, len) == (current + 1) % len
    ensures PrevIndex(current, len) == (current - 1 + len) % len
  {
  }

  /** "Next" then "previous", and "previous" then "next", come back to the same slide. */
  lemma StepsUndo(current: int, len: nat)
    requires 0 <= current < len
    ensures PrevIndex(NextIndex(current, len), len) == current
    ensures NextIndex(PrevIndex(current, len), len) == current
  {
  }

  /** `len` steps of "next" go once round: slide k is reached after k steps from the first. */
  function NextTimes(current: int, len: nat, k: nat): int
  {
    if k == 0 then current else NextIndex(NextTimes(current, len, k - 1), len)
  }

  lemma {:induction false} NextVisitsAll(len: nat, k: nat)
    requires k < len
    ensures NextTimes(0, len, k) == k
  {
    if k > 0 {
      NextVisitsAll(len, k - 1);
    }
  }

  /** A navigation event of a carousel. */
  datatype Nav = Previous | Next | SlideClick(index: int)

  /** The index after one event. */
  function Step(current: int, len: nat, op: Nav): int
  {
    match op
    case Previous => PrevIndex(current, len)
    case Next => NextIndex(current, len)
    case SlideClick(i) => if current != i then i else current
  }

  /** The index after a series of events, starting from the first slide. */
  function Replay(len: nat, ops: seq<Nav>): int
  {
    if ops == [] then 0 else Step(Replay(len, ops[..|ops| - 1]), len, ops[|ops| - 1])
  }

  /** Every slide click names one of the slides, as the rendered list offers. */
  predicate ClicksOnSlides(len: nat, ops: seq<Nav>)
  {
    forall k :: 0 <= k < |ops| ==> ops[k].SlideClick? ==> 0 <= ops[k].index < len
  }

  /** From the first slide, any series of events keeps the index among the slides. */
  lemma {:induction false} ReplayInRange(len: nat, ops: seq<Nav>)
    requires len > 0 && ClicksOnSlides(len, ops)
    ensures 0 <= Replay(len, ops) < len
    decreases |ops|
  {
    if ops != [] {
      var init := ops[..|ops| - 1];
      assert ClicksOnSlides(len, init) by {
        forall k | 0 <= k < |init| ensures init[k] == ops[k] {}
      }
      ReplayInRange(len, init);
    }
  }

  // ---------------------------------------------------------------------
  // The carousel state

  class CarouselState {
    var current: int

    constructor ()
      ensures current == 0
    {
      current := 0;
    }

    method PreviousClick(len: nat)
      modifies this
      ensures current == PrevIndex(old(current), len)
    {
      var previous := current - 1;
      current := if previous < 0 then len - 1 else previous;
    }

    method NextClick(len: nat)
      modifies this
      ensures current == NextIndex(old(current), len)
    {
      var next := current + 1;
      current := if next == len then 0 else next;
    }

    /** A click on slide `index` makes it current; on the current slide it changes nothing. */
    method SlideClickAt(index: int)
      modifies this
      ensures current == index
      ensures old(current) == index ==> current == old(current)
    {
      if current != index {
        current := index;
      }
    }
  }

  /**
   * A fresh carousel driven through a series of events ends on the slide
   * the replay names, which is one of its slides.
   */
  method Browse(len: nat, ops: seq<Nav>) returns (shown: int)
    requires len > 0 && ClicksOnSlides(len, ops)
    ensures shown == Replay(len, ops)
    ensures 0 <= shown < len
  {
    var c := new CarouselState();
    var i := 0;
    while i < |ops|
      invariant 0 <= i <= |ops|
      invariant c.current == Replay(len, ops[..i])
    {
      assert ops[..i + 1][..i] == ops[..i];
      match ops[i] {
        case Previous => c.PreviousClick(len);
        case Next => c.NextClick(len);
        case SlideClick(k) => c.SlideClickAt(k);
      }
      i := i + 1;
    }
    assert ops[..i] == ops;
    ReplayInRange(len, ops);
    shown := c.current;
  }

  // ---------------------------------------------------------------------
  // Indicators

  /** The collection's indicator line: a stage number and that stage's period. */
  datatype Indicator = Indicator(stage: int, year: string)

  /** The collection's indicator as written: the position among the shown slides, plus one. */
  function CollectionIndicatorAsWritten(slides: seq<Slide>, current: int): Indicator
    requires 0 <= current < |slides|
  {
    Indicator(current + 1, slides[current].year)
  }

  /**
   * With stages 1 and 3 completed, the second slide is the picture of
   * stage 3, yet the indicator as written calls it stage 2, next to stage
   * 3's period.
   */
  lemma CollectionIndicatorMislabels()
    ensures var s := CompletedSlides(AllStages, [0, 2]);
      |s| == 2 && s[1].stageNumber == 3 &&
      CollectionIndicatorAsWritten(s, 1) == Indicator(2, "1975 – 1986")
  {
    var c := [0, 2];
    assert CompletedSlides(AllStages[..1], c) == [AllStages[0]] by {
      assert AllStages[..1][..0] == [];
    }
    assert CompletedSlides(AllStages[..2], c) == [AllStages[0]] by {
      assert AllStages[..2][..1] == AllStages[..1];
    }
    assert CompletedSlides(AllStages[..3], c) == [AllStages[0], AllStages[2]] by {
      assert AllStages[..3][..2] == AllStages[..2];
    }
    assert CompletedSlides(AllStages[..4], c) == [AllStages[0], AllStages[2]] by {
      assert AllStages[..4][..3] == AllStages[..3];
    }
    assert CompletedSlides(AllStages, c) == [AllStages[0], AllStages[2]] by {
      assert AllStages[..4] == AllStages[..|AllStages| - 1];
    }
  }

  /** The collection's indicator naming the stage whose picture is shown. */
  function CollectionIndicator(slides: seq<Slide>, current: int): Indicator
    requires 0 <= current < |slides|
  {
    Indicator(slides[current].stageNumber, slides[current].year)
  }

  /** The stage named is the one whose picture is shown, it is completed, and the period is its own. */
  lemma CollectionIndicatorNamesStage(completed: seq<int>, current: int)
    requires 0 <= current < |CompletedSlides(AllStages, completed)|
    ensures current < |KeptPositions(|AllStages|, completed)|
    ensures var ind := CollectionIndicator(CompletedSlides(AllStages, completed), current);
      1 <= ind.stage <= 5 && ind.stage - 1 in completed &&
      ind.stage - 1 == KeptPositions(|AllStages|, completed)[current] &&
      ind.year == AllStages[ind.stage - 1].year
  {
    CompletedSlidesExact(AllStages, completed);
    KeptPositionsExact(|AllStages|, completed);
    var i := KeptPositions(|AllStages|, completed)[current];
    assert i in KeptPositions(|AllStages|, completed);
    assert forall j :: 0 <= j < |AllStages| ==> AllStages[j].stageNumber == j + 1;
  }

  /** The final gallery's indicator, "Giai đoạn <current+1> / <count>". */
  function FinalIndicator(current: int): string
  {
    "Giai đoạn " + IntString(current + 1) + " / " + IntString(|FinalSlides|)
  }

  /** The final gallery's indicator names the slide shown: different slides, different text. */
  lemma FinalIndicatorNamesSlide(a: int, b: int)
    requires FinalIndicator(a) == FinalIndicator(b)
    ensures a == b
  {
    BetweenFixedText("Giai đoạn ", IntString(a + 1), IntString(b + 1), " / ", IntString(|FinalSlides|));
    IntStringInjective(a + 1, b + 1);
  }

  /** Two texts between the same fixed prefix and suffix are equal when the whole texts are. */
  lemma BetweenFixedText(p: string, x: string, y: string, m: string, n: string)
    requires p + x + m + n == p + y + m + n
    ensures x == y
  {
    var sx, sy := p + x + m + n, p + y + m + n;
    assert x == sx[|p|..|sx| - |m + n|];
    assert y == sy[|p|..|sy| - |m + n|];
  }
}
