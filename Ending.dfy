/**
 * The decision taken when the player presses the button: whether the
 * chaser stopped on the target cell, and which wipe that calls for.
 */
module Ending {
  import opened Pixels

  /** The arguments the ending passes to the wipe, and whether the round was won. */
  datatype Outcome = Outcome(boundary: int, color: Color, sound: string, won: bool)

  /** Default arguments of the wipe: the full strip, in green, with the winning sound. */
  const DefaultMaxPixel: int := NumPixels - 1
  const DefaultColor: Color := Green
  const DefaultSound: string := "correct.wav"
  const LoseSound: string := "wrong.wav"

  /**
   * The round is won exactly when the chaser stopped on the last cell: the
   * wipe then runs with its defaults.  Otherwise it runs red, to the cell
   * the chaser stopped on, with the losing sound.
   */
  function Decide(current: int): (o: Outcome)
    ensures o.won <==> current == Last
    ensures o.won ==> o.boundary == Last && o.color == Green && o.sound == "correct.wav"
    ensures !o.won ==> o.boundary == current && o.color == Red && o.sound == "wrong.wav"
    ensures o.boundary == current
  {
    if current == Last then
      Outcome(DefaultMaxPixel, DefaultColor, DefaultSound, true)
    else
      Outcome(current, Red, LoseSound, false)
  }

  /** A won round's reveal ends with the whole strip green. */
  lemma WinFillsStrip(n: nat)
    ensures |WipeFrames(Last, Green, n)| == Last + 1 + 2 * n
    ensures var o := Decide(Last);
      LitUpTo(WipeFrames(o.boundary, o.color, n)[Last], NumPixels - 1, Green)
  {
    RevealEndsFull(Last, Green, n);
  }

  /** A lost round's wipe never lights the target cell, in any frame. */
  lemma LossNeverLightsTarget(current: nat, n: nat)
    requires current < Last
    ensures var o := Decide(current);
      forall i :: 0 <= i < |WipeFrames(o.boundary, o.color, n)| ==>
        |WipeFrames(o.boundary, o.color, n)[i]| == NumPixels &&
        WipeFrames(o.boundary, o.color, n)[i][Last] == Off
  {
    WipeStaysBelow(current, Red, n);
  }
}
