/** The 15 x 7 WS2812 matrix: the column-wise index mapping and the clipped
    glyph blit into the frame buffer `leds`. */
module LedMatrix {
  const MATRIX_WIDTH: nat := 15
  const MATRIX_HEIGHT: nat := 7
  const NUM_LEDS: nat := MATRIX_WIDTH * MATRIX_HEIGHT

  /** The colours the sketch writes into the frame buffer. */
  datatype Color = Black | Red | Green | Blue

  /** One 5-column glyph; bit y of a column byte lights row y. */
  type Glyph = g: seq<bv8> | |g| == 5 witness [0, 0, 0, 0, 0]

  /** The font table: one glyph for each printable ASCII character, from
      ' ' (32) to '~' (126). */
  type Font = f: seq<Glyph> | |f| == 95 witness seq(95, _ => BLANK)

  const BLANK: Glyph := [0, 0, 0, 0, 0]

  predicate Printable(c: char)
  {
    32 <= c as int <= 126
  }

  /** `col & (1 << y)`: whether row `y` of a glyph column is lit. */
  predicate RowLit(col: bv8, y: nat)
    requires y < 8
  {
    col & (1 << y) != 0
  }

  /** Column-wise, top-to-bottom wiring: LED `XY(x, y)` is column x, row y.
      On the grid the mapping is a bijection onto [0, NUM_LEDS) whose inverse
      is division and remainder by the height. */
  function XY(x: int, y: int): (i: int)
    ensures 0 <= x < MATRIX_WIDTH && 0 <= y < MATRIX_HEIGHT ==> 0 <= i < NUM_LEDS
    ensures 0 <= y < MATRIX_HEIGHT ==> i / MATRIX_HEIGHT == x && i % MATRIX_HEIGHT == y
  {
    x * MATRIX_HEIGHT + y
  }

  /** Pixel view of `drawChar(c, xOffset, ...)`: LED `i` is painted exactly
      when `c` is printable and LED i's column, taken relative to the
      offset, is one of the glyph's five columns with i's row lit. */
  predicate Lit(c: char, xOffset: int, font: Font, i: int)
  {
    Printable(c) && 0 <= i < NUM_LEDS &&
    0 <= i / MATRIX_HEIGHT - xOffset < 5 &&
    RowLit(font[c as int - 32][i / MATRIX_HEIGHT - xOffset], i % MATRIX_HEIGHT)
  }

  /** Pixel view of `showText`: LED `i` is painted by some character of the
      text, character k being drawn at `k * 6 - offset`. */
  predicate Painted(text: string, offset: int, font: Font, i: int)
  {
    exists k :: 0 <= k < |text| && Lit(text[k], k * 6 - offset, font, i)
  }

  /** A character outside 32..126 paints nothing. */
  lemma UnprintableDrawsNothing(c: char, xOffset: int, font: Font, i: int)
    requires !Printable(c)
    ensures !Lit(c, xOffset, font, i)
  {
  }

  /** The global frame buffer `leds[NUM_LEDS]`. */
  class Matrix {
    const leds: array<Color>

    ghost predicate Valid()
      reads this
    {
      leds.Length == NUM_LEDS
    }

    constructor ()
      ensures Valid() && fresh(leds)
      ensures forall i :: 0 <= i < NUM_LEDS ==> leds[i] == Black
    {
      leds := new Color[NUM_LEDS](_ => Black);
    }

    /** `drawChar`: sets the LEDs lit by glyph `c` at column `xOffset` to
        `color`, clipping columns outside the matrix; every other LED keeps
        its colour. */
    method DrawChar(c: char, xOffset: int, color: Color, font: Font)
      requires Valid()
      modifies leds
      ensures forall i :: 0 <= i < NUM_LEDS ==>
        leds[i] == if Lit(c, xOffset, font, i) then color else old(leds[i])
    {
      if c as int < 32 || c as int > 126 {
        return;
      }
      var bitmap := font[c as int - 32];
      for x := 0 to 5
        invariant forall i :: 0 <= i < NUM_LEDS ==>
          leds[i] == if Lit(c, xOffset, font, i) && i / MATRIX_HEIGHT - xOffset < x then color else old(leds[i])
      {
        var col := bitmap[x];
        for y := 0 to 7
          invariant forall i :: 0 <= i < NUM_LEDS ==>
            leds[i] == if Lit(c, xOffset, font, i) &&
                          (i / MATRIX_HEIGHT - xOffset < x ||
                           (i / MATRIX_HEIGHT - xOffset == x && i % MATRIX_HEIGHT < y))
                       then color else old(leds[i])
        {
          if RowLit(col, y) {
            var xPos := xOffset + x;
            if xPos >= 0 && xPos < MATRIX_WIDTH {
              leds[XY(xPos, y)] := color;
            }
          }
        }
      }
    }

    /** `showText` without the final `FastLED.show()`: clear the frame to
        black, then draw character k of `text` at `k * 6 - offset`. */
    method ShowText(text: string, offset: int, color: Color, font: Font)
      requires Valid()
      modifies leds
      ensures forall i :: 0 <= i < NUM_LEDS ==>
        leds[i] == if Painted(text, offset, font, i) then color else Black
    {
      for i := 0 to NUM_LEDS
        invariant forall j :: 0 <= j < i ==> leds[j] == Black
      {
        leds[i] := Black;
      }
      for k := 0 to |text|
        invariant forall i :: 0 <= i < NUM_LEDS ==>
          leds[i] == if Painted(text[..k], offset, font, i) then color else Black
      {
        DrawChar(text[k], k * 6 - offset, color, font);
        forall i | 0 <= i < NUM_LEDS
          ensures Painted(text[..k + 1], offset, font, i) <==>
                  Painted(text[..k], offset, font, i) || Lit(text[k], k * 6 - offset, font, i)
        {
          assert text[..k + 1][k] == text[k];
          if Painted(text[..k + 1], offset, font, i) {
            var j :| 0 <= j < k + 1 && Lit(text[..k + 1][j], j * 6 - offset, font, i);
            if j < k {
              assert text[..k][j] == text[..k + 1][j];
            }
          }
          if Painted(text[..k], offset, font, i) {
            var j :| 0 <= j < k && Lit(text[..k][j], j * 6 - offset, font, i);
            assert text[..k + 1][j] == text[..k][j];
          }
        }
      }
      assert text[..|text|] == text;
    }
  }
}
