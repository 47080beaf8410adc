# LED chaser game — a verified model

The game drives a 17-cell RGBW LED strip. While the button is up, one white
"chaser" cell bounces along the strip, one cell per tick. It turns around on
the first and the last cell. When the player presses the button, the game
checks whether the chaser stopped on the last cell, the target. A hit plays
`correct.wav` and runs a green wipe over the whole strip. A miss plays
`wrong.wav` and runs a red wipe up to the cell where the chaser stopped. The
wipe fills its cells in one by one. Then it blinks between "only the boundary
cell" and "every cell up to the boundary" until the button is pressed again.
Finally it clears the buffer and puts the chaser back on cell 0, moving up.

The model has four modules:

- `Pixels`: colours, the buffer as a sequence of colours, and the frames a wipe shows.
- `Motion`: the chaser's `(position, direction)` pair as a value, the one-tick
  step, and what many ticks in a row do. This includes the 32-tick period.
- `Ending`: the pure win/lose decision.
- `GameLoop`: the program's global state as a class `Game`. It has the buffer
  (`pixels`, an array of 17 colours changed in place), `currentPixel` and
  `direction`. Its methods are the step, the wipe, the ending and one
  main-loop iteration.

`pixels.show()` is modelled as appending the buffer to a ghost log `shown`
of the frames on the strip. `cp.play_file` is modelled as appending the file
name to a ghost log `played`. The button is an input. A main-loop iteration
takes one boolean. The wipe takes a finite sequence of samples, one read
after each blink iteration. Each `Game` method is proved against the pure
functions of `Motion`, `Pixels` and `Ending`, and the lemmas there state
what those functions promise.

The playable range is cells `0..16`, so the chaser needs 16 ticks from the
start to reach the target. The second blink frame lights every cell up to
and including the boundary. The buffer cleared after the final press is not
shown: the strip keeps the last blink frame until the next `show()`, which is
the next chaser step or, if the button is seen pressed again at once, the
first frame of another wipe.

## Model

| member | source | states |
|---|---|---|
| `Motion.StepState` | code.py:71-74 | the position moves by the direction; the direction is negated exactly when the new position is cell 0 or the last cell, and is otherwise kept; a bounded state (in range, direction ±1, heading inward at an end) stays bounded |
| `Motion.NoDoubleFlip` | code.py:72-74 | a tick that flips the direction is never directly followed by another flip |
| `Motion.StepNBounded` | code.py:71-74 | from a bounded state, any number of ticks keeps the chaser on the strip with direction ±1 |
| `Motion.StepNAdd` | code.py:64-78 | `a + b` ticks are `a` ticks followed by `b` ticks |
| `Motion.RisingRun` | code.py:71-74 | from `(0, +1)`, after `k <= 16` ticks the chaser is on cell `k`, moving up, and turns down exactly at `k = 16` |
| `Motion.FallingRun` | code.py:71-74 | from `(16, -1)`, after `k <= 16` ticks the chaser is on cell `16 - k`, moving down, and turns up exactly at `k = 16` |
| `Motion.HalfPeriod` | code.py:71-74 | from `(0, +1)`, 16 ticks reach `(16, -1)` |
| `Motion.Period` | code.py:71-74 | from `(0, +1)`, 32 ticks return to `(0, +1)` |
| `Motion.Reachable` | code.py:71-74 | every bounded state is reached from `(0, +1)` in fewer than 32 ticks |
| `Motion.PeriodFromAnywhere` | code.py:71-74 | from any bounded state, 32 ticks return to that same state |
| `Pixels.MoveChaser` | code.py:71-75 | the new chaser cell is white, the old one is off, the rest are unchanged; if only the old cell could be lit before, only the new one can be lit after |
| `Pixels.RevealFramesAt` | code.py:29-36 | the `i`-th frame of the reveal has the boundary lit plus cells `0..i-1`, and the reveal shows one frame per filled cell plus one |
| `Pixels.BlinkFramesAt` | code.py:37-46 | blink iteration `i` shows two frames: first the boundary cell alone, then all cells up to the boundary |
| `Pixels.RevealEndsFull` | code.py:29-36 | after the reveal, cells `0..max_pixel` all hold the wipe colour and every cell above `max_pixel` is off |
| `Pixels.BlinkIteration` | code.py:37-46 | in the full wipe, each blink iteration's first frame lights only `max_pixel`, and its second lights all of `0..max_pixel` and nothing above |
| `Pixels.WipeStaysBelow` | code.py:27-46 | no frame of a wipe lights a cell above `max_pixel` |
| `Ending.Decide` | code.py:56-60 | the round is won iff the chaser is on the last cell; a win wipes to the last cell in green with `correct.wav`, a loss wipes to the chaser's cell in red with `wrong.wav`; either way the wipe's boundary is the chaser's cell |
| `Ending.WinFillsStrip` | code.py:27-36 | a won round's reveal ends with all 17 cells green |
| `Ending.LossNeverLightsTarget` | code.py:56-60 | a lost round's wipe never lights the target cell in any frame |
| `GameLoop.FirstPress` | code.py:47 | the index of the first sample that sees the button pressed; no earlier sample does |
| `GameLoop.Game.constructor` | code.py:10-24 | power-on: a dark 17-cell buffer, nothing shown yet, chaser at `(0, +1)` |
| `GameLoop.Game.Show` | code.py:76 | `pixels.show()`: the frame log grows by exactly the current buffer |
| `GameLoop.Game.Clear` | code.py:48 | `pixels.fill((0, 0, 0, 0))`: every cell of the buffer is off afterwards |
| `GameLoop.Game.Step` | code.py:70-78 | the chaser state advances by `Motion.StepState`; the buffer changes by `Pixels.MoveChaser`; one frame is shown; the invariant "in bounds, only the chaser cell lit" is kept |
| `GameLoop.Game.Run` | code.py:64-78 | `n` unpressed main-loop iterations advance the chaser state by `n` ticks and keep the invariant; after at least one tick the chaser cell is white, and after none the buffer is unchanged |
| `GameLoop.Game.Wipe` | code.py:27-53 | the frames shown are exactly the reveal frames and then two frames per blink iteration, stopping at the first sample that sees a press; the sound is played once; at the end the buffer is dark and the chaser is at `(0, +1)` |
| `GameLoop.Game.EndingRoutine` | code.py:56-60 | runs the wipe chosen by `Ending.Decide` for the chaser's cell, and ends with the chaser back at `(0, +1)` on a dark buffer |
| `GameLoop.Game.Tick` | code.py:64-78 | one main-loop iteration: a press runs the ending, otherwise the chaser takes one step |

## Left out

- Strip driver setup, brightness `0.3`, GRBW channel order and `bpp` (code.py:7-18) are hardware configuration. `show()` only records the frame.
- `time.sleep`, `SPEED` and `blink_delay` are timing only; nothing in the model depends on time.
- Audio playback is a foreign call. The model records only which file name is played.
- Raw reads of the pin and of `cp.button_b`, and the busy-wait release loops (code.py:20-22, 51-52, 65-68), are hardware polling. The model takes a boolean per main-loop iteration and one sample per blink iteration instead.
- The outer `while True` is modelled as one iteration (`Tick`) or as `n` unpressed iterations (`Run`). Infinite runs are not modelled.
- The unused `running` global (code.py:23, 28) is not modelled.
- GameLoop.Game.Wipe: requires a press somewhere in the samples, because the program's blink loop returns only after a press; a wipe that never ends is not modelled.
- GameLoop.Game.Wipe: requires `0 <= maxPixel < 17`, which every caller meets. Python's negative indexing of the strip is not modelled.
- GameLoop.Game.Run: states how many frames are shown, but not each frame's contents; `Step` gives those one tick at a time.
