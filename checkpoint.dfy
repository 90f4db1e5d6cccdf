/**
 * A checkpoint marker on the map: a transparent square whose click starts
 * the checkpoint's quiz only while it is unlocked and not yet completed.
 * Its cursor and tooltip are what shows on screen; the tooltip, and the
 * style and icon helpers the component defines without rendering, follow
 * one precedence: completed, then unlocked, then locked.
 */
module CheckpointButton {
  import opened Base

  /** The three states a marker shows, highest precedence first. */
  datatype Status = Completed | Unlocked | Locked

  /** The request a click makes: start the quiz of checkpoint `id`, shown at position `index`. */
  datatype StartQuiz = StartQuiz(id: int, index: int)

  /** The state shown: completed wins over unlocked, and anything else is locked. */
  function StatusOf(isUnlocked: bool, isCompleted: bool): Status
  {
    if isCompleted then Completed else if isUnlocked then Unlocked else Locked
  }

  /** A click starts the quiz only for an unlocked marker that is not completed. */
  function Click(id: int, index: int, isUnlocked: bool, isCompleted: bool): (r: Option<StartQuiz>)
    ensures r.Some? <==> StatusOf(isUnlocked, isCompleted) == Unlocked
    ensures r.Some? ==> r.value == StartQuiz(id, index)
  {
    if isUnlocked && !isCompleted then Some(StartQuiz(id, index)) else None
  }

  const CompletedStyle: string := "bg-green-500/20 border-green-600/30 shadow-green-200 cursor-default"
  const UnlockedStyle: string := "bg-blue-500/20 border-blue-600/30 shadow-blue-200 cursor-pointer hover:bg-blue-500/30 hover:scale-110"
  const LockedStyle: string := "bg-gray-400/20 border-gray-500/30 shadow-gray-200 cursor-not-allowed"

  /**
   * The classes of the component's style helper, chosen by the same tests in
   * the same order as the tooltip. The helper is defined but its result is
   * never applied: the marker on screen is a transparent square.
   */
  function Style(isUnlocked: bool, isCompleted: bool): string
  {
    if isCompleted then CompletedStyle
    else if isUnlocked then UnlockedStyle
    else LockedStyle
  }

  /** The component's icon helper; like the style helper, it is defined but never rendered. */
  function Icon(isUnlocked: bool, isCompleted: bool): string
  {
    if isCompleted then "✅"
    else if isUnlocked then "📚"
    else "🔒"
  }

  /** The marker's tooltip, which is rendered. */
  function Title(isUnlocked: bool, isCompleted: bool): string
  {
    if isCompleted then "Đã hoàn thành"
    else if isUnlocked then "Nhấn để bắt đầu quiz"
    else "Chưa mở khóa"
  }

  /** The mouse cursor over the marker. */
  function Cursor(isUnlocked: bool, isCompleted: bool): string
  {
    if isUnlocked && !isCompleted then "pointer" else "default"
  }

  /** The style, icon and tooltip of each state, as a table on the state alone. */
  function Look(s: Status): (string, string, string)
  {
    match s
    case Completed => (CompletedStyle, "✅", "Đã hoàn thành")
    case Unlocked => (UnlockedStyle, "📚", "Nhấn để bắt đầu quiz")
    case Locked => (LockedStyle, "🔒", "Chưa mở khóa")
  }

  /** The style and icon helpers and the tooltip depend on the two flags only through the state. */
  lemma LookFollowsStatus(isUnlocked: bool, isCompleted: bool)
    ensures (Style(isUnlocked, isCompleted), Icon(isUnlocked, isCompleted), Title(isUnlocked, isCompleted)) ==
      Look(StatusOf(isUnlocked, isCompleted))
  {
  }

  /** No two states share a style, an icon or a tooltip. */
  lemma LooksDiffer(a: Status, b: Status)
    requires a != b
    ensures Look(a).0 != Look(b).0 && Look(a).1 != Look(b).1 && Look(a).2 != Look(b).2
  {
  }

  /** The pointer cursor shows exactly on the markers a click would start. */
  lemma CursorMatchesClick(id: int, index: int, isUnlocked: bool, isCompleted: bool)
    ensures Cursor(isUnlocked, isCompleted) == "pointer" <==> Click(id, index, isUnlocked, isCompleted).Some?
  {
  }

  /** The national flag drawn under the first marker. */
  const MarkerFlag: string := "/quockyvietnam.jpg"

  /** Only the first marker has the flag beneath it. */
  function MarkerFlagImage(index: int): Option<string>
  {
    if index == 0 then Some(MarkerFlag) else None
  }
}
