/**
 * The program's global state and its main loop: the pixel buffer, the
 * chaser position and direction, one tick of the loop, the ending and the
 * wipe animation.  The button is an input: one boolean per tick of the main
 * loop, and a finite sequence of samples, one per blink of the wipe.
 */
module GameLoop {
  import opened Pixels
  import opened Motion
  import opened Ending

  /**
   * Index of the first sample at which the button is seen pressed: the blink
   * iteration at which the wipe stops.
   */
  function FirstPress(presses: seq<bool>): (i: nat)
    requires true in presses
    ensures i < |presses| && presses[i]
    ensures forall j :: 0 <= j < i ==> !presses[j]
  {
    if presses[0] then 0 else 1 + FirstPress(presses[1..])
  }

  class Game {
    /** The strip's buffer; edits are invisible until `Show`. */
    const pixels: array<Color>
    var currentPixel: int
    var direction: int
    /** Every frame pushed to the strip so far, oldest first. */
    ghost var shown: seq<seq<Color>>
    /** Every sound file played so far, oldest first. */
    ghost var played: seq<string>

    function State(): Chase
      reads this
    {
      Chase(currentPixel, direction)
    }

    /** Between ticks: the chaser is in bounds and no cell but its own is lit. */
    ghost predicate Valid()
      reads this, pixels
    {
      pixels.Length == NumPixels && Bounded(State()) && OnlyLit(pixels[..], currentPixel)
    }

    /** Power-on: a dark strip, nothing shown yet, chaser at cell 0 moving up. */
    constructor ()
      ensures Valid() && fresh(pixels)
      ensures State() == Start && pixels[..] == Dark()
      ensures shown == [] && played == []
    {
      pixels := new Color[NumPixels](_ => Off);
      currentPixel := 0;
      direction := 1;
      shown := [];
      played := [];
    }

    /** `pixels.show()`: the strip now displays the buffer. */
    method Show()
      modifies this`shown
      ensures shown == old(shown) + [pixels[..]]
    {
      shown := shown + [pixels[..]];
    }

    /** `pixels.fill((0, 0, 0, 0))`. */
    method Clear()
      requires pixels.Length == NumPixels
      modifies pixels
      ensures pixels[..] == Dark()
    {
      forall j | 0 <= j < pixels.Length {
        pixels[j] := Off;
      }
    }

    /** One tick of the main loop with the button up: move the chaser and show it. */
    method Step()
      requires Valid()
      modifies this, pixels
      ensures Valid()
      ensures State() == StepState(old(State()))
      ensures pixels[..] == MoveChaser(old(pixels[..]), old(currentPixel), currentPixel)
      ensures shown == old(shown) + [pixels[..]] && played == old(played)
    {
      pixels[currentPixel] := Off;
      currentPixel := currentPixel + direction;
      if currentPixel == NumPixels - 1 || currentPixel == 0 {
        direction := direction * -1;
      }
      pixels[currentPixel] := White;
      Show();
    }

    /** `n` ticks of the main loop during which the button stays up. */
    method Run(n: nat)
      requires Valid()
      modifies this, pixels
      ensures Valid()
      ensures State() == StepN(old(State()), n)
      ensures n > 0 ==> pixels[currentPixel] == White
      ensures n == 0 ==> pixels[..] == old(pixels[..])
      ensures |shown| == |old(shown)| + n && played == old(played)
    {
      var i := 0;
      while i < n
        invariant 0 <= i <= n
        invariant Valid()
        invariant StepN(old(State()), n) == StepN(State(), n - i)
        invariant i > 0 ==> pixels[currentPixel] == White
        invariant i == 0 ==> pixels[..] == old(pixels[..])
        invariant |shown| == |old(shown)| + i && played == old(played)
      {
        Step();
        i := i + 1;
      }
    }

    /**
     * The win/lose animation: reveal cells `0..maxPixel` one by one, then
     * blink between "only `maxPixel`" and "all of `0..maxPixel`" until the
     * button is seen pressed after a blink; then clear the buffer and reset
     * the chaser to the start.  Returns the number of blink iterations.
     */
    method Wipe(maxPixel: int, color: Color, sound: string, presses: seq<bool>) returns (blinks: nat)
      requires pixels.Length == NumPixels
      requires 0 <= maxPixel < NumPixels
      requires true in presses
      modifies this, pixels
      ensures Valid()
      ensures blinks == FirstPress(presses) + 1
      ensures State() == Start && pixels[..] == Dark()
      ensures shown == old(shown) + WipeFrames(maxPixel, color, blinks)
      ensures played == old(played) + [sound]
    {
      Clear();
      pixels[maxPixel] := color;
      Show();
      played := played + [sound];
      for i := 0 to maxPixel
        invariant pixels[..] == Lit(maxPixel, color, i)
        invariant shown == old(shown) + RevealFrames(maxPixel, color, i)
        invariant played == old(played) + [sound]
      {
        pixels[i] := color;
        Show();
      }
      blinks := 0;
      while true
        invariant blinks <= FirstPress(presses)
        invariant shown == old(shown) + WipeFrames(maxPixel, color, blinks)
        invariant played == old(played) + [sound]
        decreases FirstPress(presses) - blinks
      {
        Clear();
        pixels[maxPixel] := color;
        Show();
        for i := 0 to maxPixel
          invariant pixels[..] == Lit(maxPixel, color, i)
          modifies pixels
        {
          pixels[i] := color;
        }
        Show();
        var pressed := presses[blinks];
        blinks := blinks + 1;
        if pressed {
          Clear();
          currentPixel := 0;
          direction := 1;
          return;
        }
      }
    }

    /**
     * `ending_routine`: decide the outcome from where the chaser stopped and
     * run the matching wipe.
     */
    method EndingRoutine(presses: seq<bool>) returns (o: Outcome, blinks: nat)
      requires Valid()
      requires true in presses
      modifies this, pixels
      ensures Valid()
      ensures o == Decide(old(currentPixel))
      ensures blinks == FirstPress(presses) + 1
      ensures State() == Start && pixels[..] == Dark()
      ensures shown == old(shown) + WipeFrames(o.boundary, o.color, blinks)
      ensures played == old(played) + [o.sound]
    {
      o := Decide(currentPixel);
      blinks := Wipe(o.boundary, o.color, o.sound, presses);
    }

    /**
     * One iteration of the main loop: on a press, the ending (whose wipe
     * reads `presses`); otherwise one chaser step.
     */
    method Tick(pressed: bool, presses: seq<bool>)
      requires Valid()
      requires pressed ==> true in presses
      modifies this, pixels
      ensures Valid()
      ensures !pressed ==> (
        State() == StepState(old(State())) &&
        pixels[..] == MoveChaser(old(pixels[..]), old(currentPixel), currentPixel) &&
        shown == old(shown) + [pixels[..]] && played == old(played))
      ensures pressed ==> (
        var o := Decide(old(currentPixel));
        State() == Start && pixels[..] == Dark() &&
        shown == old(shown) + WipeFrames(o.boundary, o.color, FirstPress(presses) + 1) &&
        played == old(played) + [o.sound])
    {
      if pressed {
        var _, _ := EndingRoutine(presses);
      } else {
        Step();
      }
    }
  }
}
