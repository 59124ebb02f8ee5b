/** `updateStatusBar`: the status-bar item as a picture of the server flag. */
module StatusBar {

  /** The `text` and `color` of the status-bar item. */
  datatype Display = Display(text: string, color: string)

  const RunningText := "$(circle-filled) vscxr"
  const StoppedText := "$(circle-slash) vscxr"

  /** A green filled circle while the server runs, a red slashed circle
      otherwise. */
  function Indicator(running: bool): (d: Display)
    ensures d.text == RunningText <==> running
    ensures d.color == "green" <==> running
    ensures d.text == StoppedText <==> !running
    ensures d.color == "red" <==> !running
  {
    if running then Display(RunningText, "green") else Display(StoppedText, "red")
  }

  /** The item tells the two states apart: equal displays mean equal
      flags. */
  lemma IndicatorReflectsFlag(a: bool, b: bool)
    ensures Indicator(a) == Indicator(b) <==> a == b
  {
  }
}
