/**
 * The per-stage puzzle configuration: for each of the five stages, the
 * folder its images live in, the full picture, its aspect ratio and the
 * nine pieces in solved order (left to right, top to bottom). The puzzle
 * board and the quiz both read this table.
 */
module Stages {
  import opened Base

  datatype PuzzleConfig = PuzzleConfig(folder: string, fullImage: string, aspectRatio: string, pieces: seq<string>)

  /** The stage names the table knows. */
  const StageNames: seq<string> := ["Stage 1", "Stage 2", "Stage 3", "Stage 4", "Stage 5"]

  /** No two stages share a name. */
  lemma StageNamesDistinct()
    ensures Distinct(StageNames)
  {
    forall i, j | 0 <= i < j < |StageNames|
      ensures StageNames[i] != StageNames[j]
    {
      assert StageNames[i][6] != StageNames[j][6];
    }
  }

  /** Every stage is cut into this many pieces. */
  const PieceCount: nat := 9

  /** Looks a stage up; stage names outside the table have no configuration. */
  function Config(stage: string): (c: Option<PuzzleConfig>)
    ensures c.Some? <==> stage in StageNames
    ensures c.Some? ==> |c.value.pieces| == PieceCount
  {
    if stage == "Stage 1" then
      Some(PuzzleConfig("stage1", "giaidoan1.jpg", "904/1024", [
        "puzzle_piece_1_1.jpg", "puzzle_piece_1_2.jpg", "puzzle_piece_1_3.jpg",
        "puzzle_piece_2_1.jpg", "puzzle_piece_2_2.jpg", "puzzle_piece_2_3.jpg",
        "puzzle_piece_3_1.jpg", "puzzle_piece_3_2.jpg", "puzzle_piece_3_3.jpg"]))
    else if stage == "Stage 2" then
      Some(PuzzleConfig("stage2", "giaidoan2.jpg", "1024/683", [
        "giaidoan2_piece_1.jpg", "giaidoan2_piece_2.jpg", "giaidoan2_piece_3.jpg",
        "giaidoan2_piece_4.jpg", "giaidoan2_piece_5.jpg", "giaidoan2_piece_6.jpg",
        "giaidoan2_piece_7.jpg", "giaidoan2_piece_8.jpg", "giaidoan2_piece_9.jpg"]))
    else if stage == "Stage 3" then
      Some(PuzzleConfig("stage3", "giaidoan3.png", "1483/844", [
        "giaidoan3_piece_1.png", "giaidoan3_piece_2.png", "giaidoan3_piece_3.png",
        "giaidoan3_piece_4.png", "giaidoan3_piece_5.png", "giaidoan3_piece_6.png",
        "giaidoan3_piece_7.png", "giaidoan3_piece_8.png", "giaidoan3_piece_9.png"]))
    else if stage == "Stage 4" then
      Some(PuzzleConfig("stage4", "giaidoan4.png", "1432/700", [
        "giaidoan4_part_1_1.png", "giaidoan4_part_1_2.png", "giaidoan4_part_1_3.png",
        "giaidoan4_part_2_1.png", "giaidoan4_part_2_2.png", "giaidoan4_part_2_3.png",
        "giaidoan4_part_3_1.png", "giaidoan4_part_3_2.png", "giaidoan4_part_3_3.png"]))
    else if stage == "Stage 5" then
      Some(PuzzleConfig("stage5", "giaidoan5.png", "1027/1025", [
        "giaidoan5_square_part_1_1.png", "giaidoan5_square_part_1_2.png", "giaidoan5_square_part_1_3.png",
        "giaidoan5_square_part_2_1.png", "giaidoan5_square_part_2_2.png", "giaidoan5_square_part_2_3.png",
        "giaidoan5_square_part_3_1.png", "giaidoan5_square_part_3_2.png", "giaidoan5_square_part_3_3.png"]))
    else
      None
  }

  /** The address of an image in a stage's folder. */
  function StageImage(c: PuzzleConfig, file: string): string
  {
    "/" + c.folder + "/" + file
  }
}
