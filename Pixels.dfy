/**
 * The 17-cell RGBW strip of the game and the frames that the win/lose
 * animation pushes to it.  A frame is the whole buffer as it stands when
 * `show()` is called.
 */
module Pixels {
  /** One 8-bit colour channel. */
  newtype byte = x: int | 0 <= x < 256

  /** One cell of the strip: red, green, blue and white channels. */
  datatype Color = Color(r: byte, g: byte, b: byte, w: byte)

  /** Number of cells on the strip. */
  const NumPixels: int := 17
  /** Index of the last cell, the target the player must stop the chaser on. */
  const Last: int := NumPixels - 1

  const Off: Color := Color(0, 0, 0, 0)
  /** Colour of the moving chaser cell. */
  const White: Color := Color(0, 0, 0, 255)
  /** Colour of the winning animation (the default colour of the wipe). */
  const Green: Color := Color(0, 255, 0, 0)
  /** Colour of the losing animation. */
  const Red: Color := Color(255, 0, 0, 0)

  /** The buffer after `fill((0, 0, 0, 0))`. */
  function Dark(): seq<Color>
  {
    seq(NumPixels, _ => Off)
  }

  /** Every cell of `f` other than `p` is off. */
  predicate OnlyLit(f: seq<Color>, p: int)
  {
    forall j :: 0 <= j < |f| && j != p ==> f[j] == Off
  }

  /** Cells `0..m` hold `c`; all cells above `m` are off. */
  predicate LitUpTo(f: seq<Color>, m: int, c: Color)
  {
    |f| == NumPixels &&
    (forall j :: 0 <= j <= m && j < NumPixels ==> f[j] == c) &&
    (forall j :: m < j < NumPixels && 0 <= j ==> f[j] == Off)
  }

  /**
   * The chaser moves from cell `from` to cell `to`: the old cell is turned
   * off, then the new one is lit white.
   */
  function MoveChaser(f: seq<Color>, from: int, to: int): (g: seq<Color>)
    requires 0 <= from < |f| && 0 <= to < |f|
    ensures |g| == |f| && g[to] == White
    ensures forall j :: 0 <= j < |f| && j != from && j != to ==> g[j] == f[j]
    ensures from != to ==> g[from] == Off
    ensures OnlyLit(f, from) ==> OnlyLit(g, to)
  {
    f[from := Off][to := White]
  }

  /** The buffer during a wipe to cell `m` once cells `0..k-1` have been filled. */
  function Lit(m: int, c: Color, k: int): seq<Color>
  {
    seq(NumPixels, j => if j < k || j == m then c else Off)
  }

  /**
   * Frames shown by the reveal phase of a wipe to cell `m` after `k` cells
   * below `m` have been filled: first `m` alone, then one more cell per frame.
   */
  function RevealFrames(m: int, c: Color, k: nat): seq<seq<Color>>
  {
    if k == 0 then [Lit(m, c, 0)] else RevealFrames(m, c, k - 1) + [Lit(m, c, k)]
  }

  /** Frames shown by `n` iterations of the blink loop of a wipe to cell `m`. */
  function BlinkFrames(m: int, c: Color, n: nat): seq<seq<Color>>
  {
    if n == 0 then [] else BlinkFrames(m, c, n - 1) + [Lit(m, c, 0), Lit(m, c, m)]
  }

  /** Every frame a wipe to cell `m` shows when the press comes in blink iteration `n`. */
  function WipeFrames(m: nat, c: Color, n: nat): seq<seq<Color>>
  {
    RevealFrames(m, c, m) + BlinkFrames(m, c, n)
  }

  lemma {:induction false} RevealFramesAt(m: int, c: Color, k: nat, i: nat)
    requires i <= k
    ensures |RevealFrames(m, c, k)| == k + 1
    ensures RevealFrames(m, c, k)[i] == Lit(m, c, i)
  {
    if k > 0 {
      if i < k {
        RevealFramesAt(m, c, k - 1, i);
      } else {
        RevealFramesAt(m, c, k - 1, 0);
      }
    }
  }

  lemma {:induction false} BlinkFramesAt(m: int, c: Color, n: nat, i: nat)
    requires i < n
    ensures |BlinkFrames(m, c, n)| == 2 * n
    ensures BlinkFrames(m, c, n)[2 * i] == Lit(m, c, 0)
    ensures BlinkFrames(m, c, n)[2 * i + 1] == Lit(m, c, m)
  {
    if i < n - 1 {
      BlinkFramesAt(m, c, n - 1, i);
    } else if n > 1 {
      BlinkFramesAt(m, c, n - 1, 0);
    }
  }

  /** The reveal phase ends with cells `0..m` in colour `c` and every cell above `m` off. */
  lemma RevealEndsFull(m: nat, c: Color, n: nat)
    requires m < NumPixels
    ensures |WipeFrames(m, c, n)| == m + 1 + 2 * n
    ensures LitUpTo(WipeFrames(m, c, n)[m], m, c)
  {
    RevealFramesAt(m, c, m, m);
    if n > 0 {
      BlinkFramesAt(m, c, n, 0);
    }
  }

  /**
   * Blink iteration `i` first shows only cell `m` lit, then cells `0..m`
   * all lit; nothing above `m` is lit in either frame.
   */
  lemma BlinkIteration(m: nat, c: Color, n: nat, i: nat)
    requires m < NumPixels && i < n
    ensures |WipeFrames(m, c, n)| == m + 1 + 2 * n
    ensures var f := WipeFrames(m, c, n)[m + 1 + 2 * i];
      |f| == NumPixels && f[m] == c && OnlyLit(f, m)
    ensures LitUpTo(WipeFrames(m, c, n)[m + 2 + 2 * i], m, c)
  {
    RevealFramesAt(m, c, m, 0);
    BlinkFramesAt(m, c, n, i);
  }

  /** No frame a wipe to cell `m` shows lights a cell above `m`. */
  lemma WipeStaysBelow(m: nat, c: Color, n: nat)
    ensures forall i :: 0 <= i < |WipeFrames(m, c, n)| ==>
      |WipeFrames(m, c, n)[i]| == NumPixels &&
      forall j :: m < j < NumPixels ==> WipeFrames(m, c, n)[i][j] == Off
  {
    forall i | 0 <= i < |WipeFrames(m, c, n)|
      ensures |WipeFrames(m, c, n)[i]| == NumPixels
      ensures forall j :: m < j < NumPixels ==> WipeFrames(m, c, n)[i][j] == Off
    {
      RevealFramesAt(m, c, m, 0);
      if i <= m {
        RevealFramesAt(m, c, m, i);
      } else {
        if n > 0 { BlinkFramesAt(m, c, n, 0); }
        var b := i - (m + 1);
        BlinkFramesAt(m, c, n, b / 2);
      }
    }
  }
}
