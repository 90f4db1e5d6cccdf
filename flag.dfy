/**
 * The flag that walks between checkpoints: a fixed table of waypoint
 * segments keyed "c-(c+1)", and a timer-driven animator that steps
 * through one segment, reports every position, and signals completion
 * after a short hold at the end.
 *
 * The interval timer and the hold timeout are explicit events (`Tick`,
 * `FireHold`); the callbacks the animator makes are recorded in `log`.
 */
module FlagPath {
  import opened Base

  const TileSize: int := 64

  /** A point on a path: its grid cell and the pixel centre the flag is drawn at. */
  datatype Waypoint = Waypoint(row: int, col: int, x: int, y: int)

  datatype Checkpoint = Checkpoint(id: int, row: int, col: int, x: int, y: int)

  /** The five checkpoints, start to finish. */
  const Checkpoints: seq<Checkpoint> := [
    Checkpoint(131, 8, 6, 416, 544),
    Checkpoint(132, 8, 12, 864, 544),
    Checkpoint(133, 4, 17, 1120, 288),
    Checkpoint(134, 10, 17, 1120, 672),
    Checkpoint(135, 10, 23, 1504, 672)
  ]

  const Segment01: seq<Waypoint> := [
    Waypoint(8, 6, 416, 544), Waypoint(7, 6, 416, 480), Waypoint(6, 6, 416, 416),
    Waypoint(5, 6, 416, 352), Waypoint(5, 7, 480, 352), Waypoint(5, 8, 544, 352),
    Waypoint(5, 9, 608, 352), Waypoint(5, 10, 672, 352), Waypoint(5, 11, 736, 352),
    Waypoint(8, 11, 736, 544), Waypoint(8, 12, 800, 544), Waypoint(8, 13, 864, 544)
  ]

  const Segment12: seq<Waypoint> := [
    Waypoint(8, 13, 864, 544), Waypoint(8, 14, 928, 544), Waypoint(8, 15, 992, 544),
    Waypoint(8, 16, 1056, 544), Waypoint(8, 17, 1120, 544), Waypoint(7, 17, 1120, 480),
    Waypoint(6, 17, 1120, 416), Waypoint(5, 17, 1120, 352), Waypoint(4, 17, 1120, 288)
  ]

  const Segment23: seq<Waypoint> := [
    Waypoint(4, 17, 1120, 288), Waypoint(5, 17, 1120, 352), Waypoint(6, 17, 1120, 416),
    Waypoint(7, 17, 1120, 480), Waypoint(8, 17, 1120, 544), Waypoint(9, 17, 1120, 608),
    Waypoint(10, 17, 1120, 672)
  ]

  const Segment34: seq<Waypoint> := [
    Waypoint(10, 17, 1120, 672), Waypoint(10, 18, 1184, 672), Waypoint(10, 19, 1248, 672),
    Waypoint(10, 20, 1312, 672), Waypoint(10, 21, 1376, 672), Waypoint(10, 22, 1440, 672),
    Waypoint(10, 23, 1504, 672)
  ]

  /** The segment table, keyed by the text "from-to". */
  const PathSegments: map<string, seq<Waypoint>> :=
    map["0-1" := Segment01, "1-2" := Segment12, "2-3" := Segment23, "3-4" := Segment34]

  /** The `k`-th segment of the table, from checkpoint `k` to checkpoint `k + 1`. */
  function SegmentAt(k: nat): (s: seq<Waypoint>)
    requires k < 4
    ensures |s| >= 7
    ensures forall i :: 0 <= i < |s| ==>
      s[i].x == s[i].col * TileSize + TileSize / 2 && s[i].y == s[i].row * TileSize + TileSize / 2
  {
    [Segment01, Segment12, Segment23, Segment34][k]
  }

  /** The key under which the segment leaving checkpoint `c` is looked up. */
  function SegmentKey(c: int): string
  {
    IntString(c) + "-" + IntString(c + 1)
  }

  /** The segment leaving checkpoint `c`, when the table has one. */
  function FindSegment(c: int): Option<seq<Waypoint>>
  {
    var key := SegmentKey(c);
    if key in PathSegments then Some(PathSegments[key]) else None
  }

  /** In a digit string followed by a dash, the dash is the first non-digit. */
  lemma DashAfterDigits(p: string, r: string)
    requires forall i :: 0 <= i < |p| ==> IsDigit(p[i])
    ensures (p + "-" + r)[|p|] == '-'
    ensures forall i :: 0 <= i < |p| ==> IsDigit((p + "-" + r)[i])
  {
  }

  /** Two digit strings each followed by a dash cannot be told apart unless they are equal. */
  lemma DigitsBeforeDash(p: string, q: string, r1: string, r2: string)
    requires forall i :: 0 <= i < |p| ==> IsDigit(p[i])
    requires forall i :: 0 <= i < |q| ==> IsDigit(q[i])
    requires p + "-" + r1 == q + "-" + r2
    ensures p == q
  {
    var s := p + "-" + r1;
    DashAfterDigits(p, r1);
    DashAfterDigits(q, r2);
    assert !IsDigit('-');
    assert |p| == |q|;
    assert p == s[..|p|] && q == s[..|q|];
  }

  /** The sign of a checkpoint shows in the first character of its key. */
  lemma KeySign(a: int)
    ensures SegmentKey(a)[0] == '-' <==> a < 0
  {
    var sa := IntString(a);
    assert SegmentKey(a)[0] == sa[0];
  }

  lemma NonNegativeKeyInjective(a: nat, b: nat)
    requires SegmentKey(a) == SegmentKey(b)
    ensures a == b
  {
    var ra, rb := IntString(a + 1), IntString(b + 1);
    var da, db := Decimal(a), Decimal(b);
    assert SegmentKey(a) == da + "-" + ra;
    assert SegmentKey(b) == db + "-" + rb;
    DigitsBeforeDash(da, db, ra, rb);
    DecimalInjective(a, b);
  }

  /**
   * The key of a checkpoint is the key of no other integer, so each
   * checkpoint looks up its own segment; a negative number's key starts
   * with its minus sign, which no checkpoint's key does.
   */
  lemma SegmentKeyInjective(a: nat, b: int)
    requires SegmentKey(a) == SegmentKey(b)
    ensures a == b
  {
    KeySign(a);
    KeySign(b);
    NonNegativeKeyInjective(a, b);
  }

  /** A segment is found exactly for checkpoints 0 to 3, and it is the table's entry for that checkpoint. */
  lemma SegmentFound(c: int)
    ensures FindSegment(c).Some? <==> 0 <= c < 4
    ensures 0 <= c < 4 ==> FindSegment(c) == Some(SegmentAt(c))
  {
    assert SegmentKey(0) == "0-1" && SegmentKey(1) == "1-2";
    assert SegmentKey(2) == "2-3" && SegmentKey(3) == "3-4";
    if SegmentKey(c) in PathSegments {
      if SegmentKey(c) == "0-1" {
        SegmentKeyInjective(0, c);
      } else if SegmentKey(c) == "1-2" {
        SegmentKeyInjective(1, c);
      } else if SegmentKey(c) == "2-3" {
        SegmentKeyInjective(2, c);
      } else {
        SegmentKeyInjective(3, c);
      }
    }
  }

  /**
   * Each segment starts on its checkpoint's pixel centre and ends on the
   * next checkpoint's, so consecutive segments join up.
   */
  lemma SegmentsChain(k: nat)
    requires k < 4
    ensures SegmentAt(k)[0].x == Checkpoints[k].x && SegmentAt(k)[0].y == Checkpoints[k].y
    ensures var s := SegmentAt(k);
      s[|s| - 1].x == Checkpoints[k + 1].x && s[|s| - 1].y == Checkpoints[k + 1].y
    ensures k < 3 ==> SegmentAt(k)[|SegmentAt(k)| - 1] == SegmentAt(k + 1)[0]
  {
  }

  const LeaderFlag: string := "/mtdtgpmnvn.png"
  const NationalFlag: string := "/quockyvietnam.jpg"

  /** The image the walking flag shows while leaving checkpoint `c`. */
  function FlagImage(c: int): string
  {
    if c == 0 then LeaderFlag
    else if c == 1 then LeaderFlag
    else NationalFlag
  }

  /** What the animator reports to its parent. */
  datatype Callback = PositionUpdate(position: int) | AnimationComplete

  /** The position reports `from`, `from + 1`, ..., `from + count - 1`. */
  function Reports(from: int, count: nat): (r: seq<Callback>)
    ensures |r| == count
    ensures forall i :: 0 <= i < count ==> r[i] == PositionUpdate(from + i)
  {
    if count == 0 then [] else Reports(from, count - 1) + [PositionUpdate(from + count - 1)]
  }

  /**
   * The render guard: the flag is drawn at waypoint `position - 1` only
   * while it is visible and the 1-based position lies on the segment.
   */
  function DrawnAt(seg: seq<Waypoint>, position: int, visible: bool): Option<Waypoint>
  {
    if visible && 1 <= position <= |seg| then Some(seg[position - 1]) else None
  }

  /**
   * The last tick leaves the position one past the segment with the flag
   * still visible, so during the hold that follows nothing is drawn.
   */
  lemma FinalHoldDrawsNothing(c: int)
    requires FindSegment(c).Some?
    ensures var seg := FindSegment(c).value;
      DrawnAt(seg, |seg| + 1, true) == None
  {
  }

  /**
   * The render guard as the hold means it: a position past the end shows
   * the flag at the segment's last waypoint.
   */
  function DrawnHeld(seg: seq<Waypoint>, position: int, visible: bool): Option<Waypoint>
  {
    if seg != [] && position > |seg| then (if visible then Some(seg[|seg| - 1]) else None)
    else DrawnAt(seg, position, visible)
  }

  /** With the hold drawn as intended, the flag rests at the next checkpoint for the whole hold. */
  lemma FinalHoldDrawsCheckpoint(c: int)
    requires 0 <= c < 4
    ensures FindSegment(c) == Some(SegmentAt(c))
    ensures var seg := SegmentAt(c);
      DrawnHeld(seg, |seg| + 1, true) == Some(seg[|seg| - 1]) &&
      seg[|seg| - 1].x == Checkpoints[c + 1].x && seg[|seg| - 1].y == Checkpoints[c + 1].y
  {
    SegmentFound(c);
    SegmentsChain(c);
  }

  class Flag {
    /** The checkpoint the effect last ran for. */
    var checkpoint: int
    /** The position shown (1-based); while a run is on it is also the timer's counter. */
    var position: int
    var visible: bool
    /** Whether the interval timer is set. */
    var timerActive: bool
    /** The length of the segment the timer walks. */
    var steps: nat
    /** Hold timeouts scheduled and not yet fired; nothing cancels them. */
    var holds: nat
    /** The callbacks made so far. */
    var log: seq<Callback>

    ghost predicate Valid()
      reads this
    {
      timerActive ==>
        FindSegment(checkpoint).Some? && steps == |FindSegment(checkpoint).value| &&
        1 <= position <= steps
    }

    constructor (c: int)
      ensures Valid()
      ensures checkpoint == c && position == 0 && !visible && !timerActive && holds == 0 && log == []
    {
      checkpoint := c;
      position := 0;
      visible := false;
      timerActive := false;
      steps := 0;
      holds := 0;
      log := [];
    }

    /** The waypoint the flag is drawn at, if it is drawn at all. */
    function Shown(): Option<Waypoint>
      reads this
    {
      match FindSegment(checkpoint)
      case Some(seg) => DrawnAt(seg, position, visible)
      case None => None
    }

    /**
     * The effect with `isAnimating` set: any running timer is cleared; a
     * missing segment leaves everything else as it was; otherwise the flag
     * shows at position 1 and the timer starts.
     */
    method Start(c: int)
      requires Valid()
      modifies this`timerActive, this`checkpoint, this`visible, this`position, this`steps
      ensures Valid()
      ensures checkpoint == c
      ensures FindSegment(c).None? ==>
        !timerActive && position == old(position) && visible == old(visible)
      ensures FindSegment(c).Some? ==>
        timerActive && visible && position == 1 && steps == |FindSegment(c).value| &&
        Shown() == Some(FindSegment(c).value[0])
    {
      timerActive := false;
      checkpoint := c;
      match FindSegment(c)
      case None =>
      case Some(seg) =>
        SegmentFound(c);
        visible := true;
        position := 1;
        steps := |seg|;
        timerActive := true;
    }

    /** The effect with `isAnimating` cleared: timer cleared, position back to 0, flag hidden. */
    method Stop(c: int)
      requires Valid()
      modifies this`timerActive, this`checkpoint, this`position, this`visible
      ensures Valid()
      ensures checkpoint == c && !timerActive && position == 0 && !visible
    {
      timerActive := false;
      checkpoint := c;
      position := 0;
      visible := false;
    }

    /** The effect's cleanup, run on unmount: only the timer is cleared. */
    method Unmount()
      requires Valid()
      modifies this`timerActive
      ensures Valid() && !timerActive
    {
      timerActive := false;
    }

    /**
     * One interval tick: the position goes up by one and is reported; once
     * it passes the segment's length the timer is cleared and a hold is
     * scheduled.
     */
    method Tick()
      requires Valid() && timerActive
      modifies this`position, this`log, this`timerActive, this`holds
      ensures Valid()
      ensures position == old(position) + 1
      ensures log == old(log) + [PositionUpdate(position)]
      ensures timerActive <==> position <= steps
      ensures holds == old(holds) + (if position > steps then 1 else 0)
      ensures timerActive && visible ==> Shown() == Some(FindSegment(checkpoint).value[position - 1])
      ensures !timerActive ==> Shown() == None
    {
      position := position + 1;
      log := log + [PositionUpdate(position)];
      if position > steps {
        timerActive := false;
        holds := holds + 1;
      }
    }

    /** A hold timeout fires: the flag is hidden and completion is reported. */
    method FireHold()
      requires Valid() && holds > 0
      modifies this`holds, this`visible, this`log
      ensures Valid()
      ensures holds == old(holds) - 1 && !visible
      ensures log == old(log) + [AnimationComplete]
    {
      holds := holds - 1;
      visible := false;
      log := log + [AnimationComplete];
    }

    /**
     * A whole run from checkpoint `c`, ticking until the timer stops and then
     * letting the hold fire: a segment of length L reports positions 2 to
     * L + 1 in order and then completes once. Without a segment nothing is
     * reported.
     */
    method Animate(c: int)
      requires Valid() && holds == 0
      modifies this
      ensures Valid() && !timerActive && holds == 0
      ensures FindSegment(c).None? ==> log == old(log)
      ensures FindSegment(c).Some? ==>
        log == old(log) + Reports(2, |FindSegment(c).value|) + [AnimationComplete] && !visible
    {
      Start(c);
      if !timerActive {
        return;
      }
      var seg := FindSegment(c).value;
      while timerActive
        invariant Valid() && checkpoint == c && steps == |seg| && visible
        invariant 1 <= position <= steps + 1
        invariant timerActive <==> position <= steps
        invariant holds == if timerActive then 0 else 1
        invariant log == old(log) + Reports(2, position - 1)
        decreases steps + 1 - position
      {
        Tick();
      }
      FireHold();
    }
  }
}
