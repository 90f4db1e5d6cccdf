/**
 * The puzzle board of a stage: nine cells and a pool of loose pieces.
 * A piece is picked from the pool and put into an empty cell; a placed
 * piece can be clicked back into the pool. When all nine cells are
 * filled the board is judged: right only if every cell holds the piece
 * the stage's solved order puts there.
 *
 * The random shuffle is a parameter (any permutation of the stage's
 * pieces), and the half-second delay before the verdict is shown is
 * collapsed to an immediate update.
 */
module Puzzle {
  import opened Base
  import opened Stages

  /** A picked piece and the pool position it was picked at. */
  datatype Selection = Selection(piece: string, index: nat)

  /** The notification the board raises after a full board is judged. */
  datatype Notice = NoNotice | SuccessNotice(fullImage: string, stage: string) | ErrorNotice

  /** The cells of an empty board. */
  function EmptyBoard(): seq<Option<string>>
  {
    [None, None, None, None, None, None, None, None, None]
  }

  /** A board whose every cell holds the piece the solved order puts there. */
  function Solved(target: seq<string>): seq<Option<string>>
  {
    seq(|target|, i requires 0 <= i < |target| => Some(target[i]))
  }

  /** The pieces a cell holds: one or none. */
  function Held<T>(cell: Option<T>): multiset<T>
  {
    if cell.Some? then multiset{cell.value} else multiset{}
  }

  /** The pieces placed on a board. */
  function Placed<T>(board: seq<Option<T>>): multiset<T>
  {
    if board == [] then multiset{} else Placed(board[..|board| - 1]) + Held(board[|board| - 1])
  }

  predicate Full<T>(board: seq<Option<T>>)
  {
    forall i :: 0 <= i < |board| ==> board[i].Some?
  }

  /**
   * The completion check on a board: nothing while a cell is empty,
   * otherwise right exactly when each cell holds the piece at the same
   * index of the solved order.
   */
  function Verdict(board: seq<Option<string>>, target: seq<string>): Option<bool>
    requires |board| == |target|
  {
    if Full(board) then Some(forall i :: 0 <= i < |board| ==> board[i].value == target[i]) else None
  }

  /** The pool with the entry at `i` taken out, as `filter((_, j) => j !== i)` leaves it. */
  function RemoveAt<T>(s: seq<T>, i: nat): (r: seq<T>)
    requires i < |s|
    ensures |r| == |s| - 1
    ensures forall j :: 0 <= j < i ==> r[j] == s[j]
    ensures forall j :: i <= j < |r| ==> r[j] == s[j + 1]
    ensures multiset(r) + multiset{s[i]} == multiset(s)
  {
    assert s == s[..i] + [s[i]] + s[i + 1..];
    s[..i] + s[i + 1..]
  }

  /** The pieces of two boards laid end to end are the pieces of each. */
  lemma {:induction false} PlacedAppend<T>(a: seq<Option<T>>, b: seq<Option<T>>)
    ensures Placed(a + b) == Placed(a) + Placed(b)
    decreases |b|
  {
    if b == [] {
      assert a + b == a;
    } else {
      var init, last := b[..|b| - 1], b[|b| - 1];
      assert (a + b)[..|a + b| - 1] == a + init;
      assert (a + b)[|a + b| - 1] == last;
      PlacedAppend(a, init);
    }
  }

  /** Replacing one cell swaps what that cell held for what it holds now. */
  lemma PlacedUpdate<T>(board: seq<Option<T>>, i: nat, v: Option<T>)
    requires i < |board|
    ensures Placed(board[i := v]) + Held(board[i]) == Placed(board) + Held(v)
  {
    var pre, post := board[..i], board[i + 1..];
    assert board == pre + [board[i]] + post;
    assert board[i := v] == pre + [v] + post;
    PlacedAppend(pre + [board[i]], post);
    PlacedAppend(pre + [v], post);
    assert [board[i]][..0] == [] && [v][..0] == [];
    PlacedAppend(pre, [board[i]]);
    PlacedAppend(pre, [v]);
  }

  /**
   * Moving pool entry `i` into the empty cell `pos` keeps what the pool and
   * the board hold together.
   */
  lemma MoveToBoard<T>(pool: seq<T>, board: seq<Option<T>>, i: nat, pos: nat)
    requires i < |pool| && pos < |board| && board[pos].None?
    ensures multiset(RemoveAt(pool, i)) + Placed(board[pos := Some(pool[i])]) == multiset(pool) + Placed(board)
  {
    PlacedUpdate(board, pos, Some(pool[i]));
    assert Held(board[pos]) == multiset{} && Held(Some(pool[i])) == multiset{pool[i]};
    Exchange(multiset(RemoveAt(pool, i)), multiset(pool), Placed(board[pos := Some(pool[i])]), Placed(board), pool[i]);
  }

  /**
   * Moving the piece of cell `pos` to the end of the pool keeps what the
   * pool and the board hold together.
   */
  lemma MoveToPool<T>(pool: seq<T>, board: seq<Option<T>>, pos: nat)
    requires pos < |board| && board[pos].Some?
    ensures multiset(pool + [board[pos].value]) + Placed(board[pos := None]) == multiset(pool) + Placed(board)
  {
    var x := board[pos].value;
    PlacedUpdate(board, pos, None);
    assert Held(board[pos]) == multiset{x} && Held<T>(None) == multiset{};
    assert multiset(pool + [x]) == multiset(pool) + multiset{x};
    Exchange(multiset(pool), multiset(pool + [x]), Placed(board), Placed(board[pos := None]), x);
  }

  /** Handing one piece from one side to the other keeps the total. */
  lemma Exchange<T>(p2: multiset<T>, p: multiset<T>, b2: multiset<T>, b: multiset<T>, x: T)
    requires p2 + multiset{x} == p && b2 + multiset{} == b + multiset{x}
    ensures p2 + b2 == p + b
  {
    assert b2 == b + multiset{x};
    forall y
      ensures (p2 + b2)[y] == (p + b)[y]
    {
    }
  }

  /** A full board holds exactly one piece per cell. */
  lemma {:induction false} PlacedSize<T>(board: seq<Option<T>>)
    requires Full(board)
    ensures |Placed(board)| == |board|
    decreases |board|
  {
    if board != [] {
      PlacedSize(board[..|board| - 1]);
    }
  }

  /** An empty board holds nothing. */
  lemma {:induction false} PlacedEmpty<T>(board: seq<Option<T>>)
    requires forall i :: 0 <= i < |board| ==> board[i].None?
    ensures Placed(board) == multiset{}
    decreases |board|
  {
    if board != [] {
      PlacedEmpty(board[..|board| - 1]);
    }
  }

  /**
   * The solved board is full and holds exactly the stage's pieces, so it is
   * the one full board the pool and board invariant can reach with every
   * piece in its own cell.
   */
  lemma {:induction false} SolvedHoldsTarget(target: seq<string>)
    ensures Full(Solved(target)) && Placed(Solved(target)) == multiset(target)
    decreases |target|
  {
    if target != [] {
      var n := |target| - 1;
      SolvedHoldsTarget(target[..n]);
      assert Solved(target)[..n] == Solved(target[..n]);
      assert target == target[..n] + [target[n]];
    }
  }

  /** The board is judged right exactly when it is the solved board. */
  lemma VerdictRightIff(board: seq<Option<string>>, target: seq<string>)
    requires |board| == |target|
    ensures Verdict(board, target) == Some(true) <==> board == Solved(target)
    ensures Verdict(board, target).Some? <==> Full(board)
  {
    if board == Solved(target) {
      assert forall i :: 0 <= i < |board| ==> board[i].value == target[i];
    }
  }

  /**
   * When the pool and the board together hold the stage's pieces, a full
   * board leaves the pool empty.
   */
  lemma FullBoardEmptiesPool(pool: seq<string>, board: seq<Option<string>>, target: seq<string>)
    requires |board| == |target|
    requires Full(board)
    requires multiset(pool) + Placed(board) == multiset(target)
    ensures pool == []
  {
    PlacedSize(board);
    assert |multiset(pool)| + |Placed(board)| == |multiset(target)|;
  }

  class PuzzleModal {
    /** The stage the modal was last opened for. */
    var stage: string
    /** The configuration looked up for `stage` when the modal opened. */
    var config: Option<PuzzleConfig>
    /** The loose pieces, in display order. */
    var pieces: seq<string>
    var board: seq<Option<string>>
    var selected: Option<Selection>
    var showNotification: bool
    var notice: Notice
    /** How many times `onPuzzleComplete(true)` was called. */
    var completions: nat

    /**
     * The pool and the board together hold exactly the stage's pieces, and a
     * selection names the pool entry it was picked from.
     */
    ghost predicate Valid()
      reads this
    {
      |board| == PieceCount &&
      (config.Some? ==> |config.value.pieces| == PieceCount) &&
      (config.Some? ==> multiset(pieces) + Placed(board) == multiset(config.value.pieces)) &&
      (selected.Some? ==> selected.value.index < |pieces| && pieces[selected.value.index] == selected.value.piece)
    }

    constructor ()
      ensures Valid()
      ensures stage == "" && config.None? && pieces == [] && board == EmptyBoard() && selected.None?
      ensures !showNotification && notice == NoNotice && completions == 0
    {
      stage := "";
      config := None;
      pieces := [];
      board := EmptyBoard();
      selected := None;
      showNotification := false;
      notice := NoNotice;
      completions := 0;
    }

    /** Deals a fresh game: all cells empty, nothing selected, the pool a shuffle of the stage's pieces. */
    method Deal(shuffled: seq<string>)
      requires config.Some? && |config.value.pieces| == PieceCount
      requires multiset(shuffled) == multiset(config.value.pieces)
      modifies this
      ensures Valid()
      ensures pieces == shuffled && board == EmptyBoard() && selected.None?
      ensures stage == old(stage) && config == old(config) && showNotification == old(showNotification)
      ensures notice == old(notice) && completions == old(completions)
    {
      pieces := shuffled;
      board := EmptyBoard();
      selected := None;
      PlacedEmpty(board);
    }

    /**
     * The effect run when the modal opens for `s`: with a configuration the
     * game is dealt afresh and the notification hidden; an unknown stage
     * changes nothing else.
     */
    method Open(s: string, shuffled: seq<string>)
      requires Valid()
      requires Config(s).Some? ==> multiset(shuffled) == multiset(Config(s).value.pieces)
      modifies this
      ensures Valid() && stage == s && config == Config(s)
      ensures config.Some? ==>
        pieces == shuffled && board == EmptyBoard() && selected.None? && !showNotification
      ensures config.None? ==>
        pieces == old(pieces) && board == old(board) && selected == old(selected) &&
        showNotification == old(showNotification)
      ensures notice == old(notice) && completions == old(completions)
    {
      stage := s;
      config := Config(s);
      if config.Some? {
        Deal(shuffled);
        showNotification := false;
      }
    }

    /** Picking the pool entry at `index` takes effect only when nothing is picked yet. */
    method SelectPiece(index: nat)
      requires Valid() && config.Some? && index < |pieces|
      modifies this
      ensures Valid()
      ensures old(selected).None? ==> selected == Some(Selection(old(pieces)[index], index))
      ensures old(selected).Some? ==> selected == old(selected)
      ensures pieces == old(pieces) && board == old(board) && stage == old(stage) && config == old(config)
      ensures showNotification == old(showNotification) && notice == old(notice) && completions == old(completions)
    {
      if selected.None? {
        selected := Some(Selection(pieces[index], index));
      }
    }

    /**
     * A click on cell `position`: with a piece picked and the cell empty, the
     * piece goes into the cell, exactly its pool entry is removed, the pick is
     * cleared and the board is judged; otherwise nothing happens.
     */
    method PlaceSelected(position: nat)
      requires Valid() && config.Some? && position < PieceCount
      modifies this`board, this`pieces, this`selected, this`showNotification, this`notice
      ensures Valid()
      ensures old(selected).Some? && old(board)[position].None? ==>
        board == old(board)[position := Some(old(selected).value.piece)] &&
        pieces == RemoveAt(old(pieces), old(selected).value.index) &&
        selected.None?
      ensures old(selected).Some? && old(board)[position].None? && Full(board) ==>
        var c := config.value;
        showNotification &&
        notice == (if board == Solved(c.pieces) then SuccessNotice(StageImage(c, c.fullImage), stage) else ErrorNotice)
      ensures !(old(selected).Some? && old(board)[position].None? && Full(board)) ==>
        showNotification == old(showNotification) && notice == old(notice)
      ensures !(old(selected).Some? && old(board)[position].None?) ==>
        board == old(board) && pieces == old(pieces) && selected == old(selected)
    {
      if selected.Some? && board[position].None? {
        var sel := selected.value;
        var newBoard := board[position := Some(sel.piece)];
        var newPieces := RemoveAt(pieces, sel.index);
        MoveToBoard(pieces, board, sel.index, position);
        board := newBoard;
        pieces := newPieces;
        selected := None;
        CheckPuzzleComplete(newBoard);
      }
    }

    /**
     * Judges a board: nothing happens until every cell is filled; then a
     * success notice when each cell holds its own piece, an error notice
     * otherwise.
     */
    method CheckPuzzleComplete(b: seq<Option<string>>)
      requires Valid() && |b| == PieceCount
      modifies this`showNotification, this`notice
      ensures Valid()
      ensures config.None? || !Full(b) ==>
        showNotification == old(showNotification) && notice == old(notice)
      ensures config.Some? && Full(b) ==>
        var c := config.value;
        showNotification &&
        (b == Solved(c.pieces) ==> notice == SuccessNotice(StageImage(c, c.fullImage), stage)) &&
        (b != Solved(c.pieces) ==> notice == ErrorNotice)
    {
      match config
      case None =>
      case Some(c) =>
        VerdictRightIff(b, c.pieces);
        match Verdict(b, c.pieces)
        case None =>
        case Some(right) =>
          notice := if right then SuccessNotice(StageImage(c, c.fullImage), stage) else ErrorNotice;
          showNotification := true;
    }

    /** A click on a placed piece empties its cell and appends the piece to the end of the pool. */
    method ReturnPiece(position: nat)
      requires Valid() && config.Some? && position < PieceCount
      modifies this`board, this`pieces
      ensures Valid()
      ensures old(board)[position].Some? ==>
        board == old(board)[position := None] && pieces == old(pieces) + [old(board)[position].value]
      ensures old(board)[position].None? ==> board == old(board) && pieces == old(pieces)
    {
      if board[position].Some? {
        var piece := board[position].value;
        var newPieces := pieces + [piece];
        var newBoard := board[position := None];
        MoveToPool(pieces, board, position);
        assert selected.Some? ==> newPieces[selected.value.index] == pieces[selected.value.index];
        board := newBoard;
        pieces := newPieces;
      }
    }

    /** The reset button: the game is dealt afresh. */
    method Reset(shuffled: seq<string>)
      requires Valid() && config.Some?
      requires multiset(shuffled) == multiset(config.value.pieces)
      modifies this
      ensures Valid()
      ensures pieces == shuffled && board == EmptyBoard() && selected.None?
      ensures stage == old(stage) && config == old(config) && showNotification == old(showNotification)
      ensures notice == old(notice) && completions == old(completions)
    {
      Deal(shuffled);
    }

    /**
     * Confirming the notification: after a success the parent is told the
     * puzzle is done; after anything else the game is dealt afresh. Either
     * way the notification closes.
     */
    method ConfirmNotification(shuffled: seq<string>)
      requires Valid() && config.Some?
      requires multiset(shuffled) == multiset(config.value.pieces)
      modifies this
      ensures Valid() && !showNotification && stage == old(stage) && config == old(config) && notice == old(notice)
      ensures old(notice).SuccessNotice? ==>
        completions == old(completions) + 1 &&
        pieces == old(pieces) && board == old(board) && selected == old(selected)
      ensures !old(notice).SuccessNotice? ==>
        completions == old(completions) &&
        pieces == shuffled && board == EmptyBoard() && selected.None?
    {
      if notice.SuccessNotice? {
        completions := completions + 1;
      } else {
        Deal(shuffled);
      }
      showNotification := false;
    }

    /** The "next stage" button of the success notification: the parent is told the puzzle is done. */
    method NextStage()
      requires Valid()
      modifies this
      ensures Valid() && !showNotification && completions == old(completions) + 1
      ensures pieces == old(pieces) && board == old(board) && selected == old(selected)
      ensures stage == old(stage) && config == old(config) && notice == old(notice)
    {
      completions := completions + 1;
      showNotification := false;
    }
  }

  /**
   * Whatever was picked and placed, a board the modal judges as full has
   * used up the whole pool, and it is judged right exactly when it is the
   * solved board.
   */
  lemma FullBoardJudged(p: PuzzleModal)
    requires p.Valid() && p.config.Some? && Full(p.board)
    ensures p.pieces == []
    ensures Verdict(p.board, p.config.value.pieces) == Some(true) <==>
      p.board == Solved(p.config.value.pieces)
  {
    var c := p.config.value;
    FullBoardEmptiesPool(p.pieces, p.board, c.pieces);
    VerdictRightIff(p.board, c.pieces);
  }
}
