/** DXYN: XOR-drawing an 8-pixel-wide sprite onto the 64x32 framebuffer.

    `DrawRows`/`DrawBits` follow the interpreter's two nested loops (rows,
    then the bits of a row from the most significant one), so the class
    method that runs those loops is proved against them directly. `Overlay`
    and `Collides` say cell by cell what one draw does; `DrawMatchesOverlay`
    connects the two views, and the remaining lemmas derive the properties of
    XOR drawing from the cell-by-cell view. */
module Sprite {
  import opened Machine

  /** The framebuffer together with the collision flag being accumulated. */
  datatype Canvas = Canvas(cells: seq<bv8>, hit: bool)

  /** Bit `i` of `n`, counting from the least significant bit. (Naming `n`
      in the decreases clause, after `i`, keeps the verifier from unrolling
      calls whose `i` is a literal; the same holds for DrawBits below.) */
  predicate Bit(n: nat, i: nat)
    decreases i, n
  {
    if i == 0 then n % 2 == 1 else Bit(n / 2, i - 1)
  }

  /** Bit `xl` of a sprite row, counting from the most significant bit:
      the interpreter's test `row & (0x80 >> xl)`. */
  predicate SpriteBit(row: byte, xl: nat)
    requires xl < 8
  {
    Bit(row, 7 - xl)
  }

  /** The framebuffer cell under pixel (xl, yl) of a sprite drawn at (vx, vy).
      Nothing wraps: a column past 63 runs on into the next line. */
  function PixelIndex(vx: nat, vy: nat, xl: nat, yl: nat): nat {
    vx + xl + (vy + yl) * ScreenWidth
  }

  /** Every set bit of a row drawn from cell `base` lands inside the framebuffer. */
  predicate RowFits(row: byte, base: nat) {
    forall xl | 0 <= xl < 8 && SpriteBit(row, xl) :: base + xl < ScreenCells
  }

  /** Every set bit of the sprite lands inside the framebuffer (the source
      indexes gfx without a bound check). */
  predicate Fits(sprite: seq<byte>, vx: nat, vy: nat) {
    forall yl | 0 <= yl < |sprite| :: RowFits(sprite[yl], PixelIndex(vx, vy, 0, yl))
  }

  /** XOR one cell with 1; a cell that was 1 is a collision. */
  function Flip(c: Canvas, k: nat): (r: Canvas)
    requires k < |c.cells|
    ensures |r.cells| == |c.cells|
  {
    Canvas(c.cells[k := c.cells[k] ^ 1], c.hit || c.cells[k] == 1)
  }

  /** The inner loop: bits 0 .. bits-1 of one sprite row drawn from cell `base`. */
  function DrawBits(c: Canvas, row: byte, base: nat, bits: nat): (r: Canvas)
    requires |c.cells| == ScreenCells && bits <= 8 && RowFits(row, base)
    ensures |r.cells| == ScreenCells
    decreases bits, base
  {
    if bits == 0 then c
    else
      var prev := DrawBits(c, row, base, bits - 1);
      if SpriteBit(row, bits - 1) then Flip(prev, base + bits - 1) else prev
  }

  /** The outer loop: rows 0 .. rows-1 of the sprite drawn at (vx, vy),
      starting from framebuffer `g` with the flag cleared. */
  function DrawRows(g: seq<bv8>, sprite: seq<byte>, vx: nat, vy: nat, rows: nat): (r: Canvas)
    requires |g| == ScreenCells && rows <= |sprite| && Fits(sprite, vx, vy)
    ensures |r.cells| == ScreenCells
    decreases rows
  {
    if rows == 0 then Canvas(g, false)
    else DrawBits(DrawRows(g, sprite, vx, vy, rows - 1), sprite[rows - 1], PixelIndex(vx, vy, 0, rows - 1), 8)
  }

  /** Cell k lies under a set bit of the first `rows` rows of the sprite.
      The row and column inside the sprite are recovered from k by division. */
  predicate Covers(sprite: seq<byte>, vx: nat, vy: nat, rows: nat, k: nat)
    requires rows <= |sprite|
  {
    var d := k - PixelIndex(vx, vy, 0, 0);
    0 <= d && d % ScreenWidth < 8 && d / ScreenWidth < rows && SpriteBit(sprite[d / ScreenWidth], d % ScreenWidth)
  }

  /** The framebuffer after a draw, cell by cell: covered cells inverted,
      all others as they were. */
  function Overlay(g: seq<bv8>, sprite: seq<byte>, vx: nat, vy: nat): (r: seq<bv8>)
    ensures |r| == |g|
  {
    seq(|g|, k requires 0 <= k < |g| => if Covers(sprite, vx, vy, |sprite|, k) then g[k] ^ 1 else g[k])
  }

  /** Some covered cell was set before the draw. */
  ghost predicate Collides(g: seq<bv8>, sprite: seq<byte>, vx: nat, vy: nat, rows: nat)
    requires rows <= |sprite|
  {
    exists k | 0 <= k < |g| :: Covers(sprite, vx, vy, rows, k) && g[k] == 1
  }

  /** A framebuffer whose cells are all 0 or 1. */
  ghost predicate Binary(g: seq<bv8>) {
    forall k | 0 <= k < |g| :: g[k] <= 1
  }

  lemma Quotient64(d: int, r: nat)
    requires r * ScreenWidth <= d < r * ScreenWidth + ScreenWidth
    ensures d / ScreenWidth == r && d % ScreenWidth == d - r * ScreenWidth
  {
  }

  /** Row `r` adds to the covered cells exactly the cells under its set bits,
      none of which an earlier row covers. */
  lemma CoversStep(sprite: seq<byte>, vx: nat, vy: nat, r: nat, k: nat)
    requires r < |sprite|
    ensures var base := PixelIndex(vx, vy, 0, r);
      && (Covers(sprite, vx, vy, r + 1, k) <==>
            Covers(sprite, vx, vy, r, k) || (base <= k < base + 8 && SpriteBit(sprite[r], k - base)))
      && (base <= k < base + 8 ==> !Covers(sprite, vx, vy, r, k))
  {
    var base := PixelIndex(vx, vy, 0, r);
    var d := k - PixelIndex(vx, vy, 0, 0);
    assert base - PixelIndex(vx, vy, 0, 0) == r * ScreenWidth;
    if r * ScreenWidth <= d < r * ScreenWidth + ScreenWidth {
      Quotient64(d, r);
    } else if d >= 0 {
      assert d / ScreenWidth != r;
    }
  }

  /** The inner loop changes exactly the cells under the row's first `bits` set bits. */
  lemma {:induction false} DrawBitsAt(c: Canvas, row: byte, base: nat, bits: nat, k: nat)
    requires |c.cells| == ScreenCells && bits <= 8 && RowFits(row, base) && k < ScreenCells
    ensures DrawBits(c, row, base, bits).cells[k] ==
      if base <= k < base + bits && SpriteBit(row, k - base) then c.cells[k] ^ 1 else c.cells[k]
    decreases bits
  {
    if bits > 0 {
      DrawBitsAt(c, row, base, bits - 1, k);
    }
  }

  /** The inner loop reports a collision exactly when the flag was already
      set or one of the cells under its set bits was 1 beforehand. */
  lemma {:induction false} DrawBitsHit(c: Canvas, row: byte, base: nat, bits: nat)
    requires |c.cells| == ScreenCells && bits <= 8 && RowFits(row, base)
    ensures DrawBits(c, row, base, bits).hit <==>
      c.hit || exists xl | 0 <= xl < bits :: SpriteBit(row, xl) && c.cells[base + xl] == 1
    decreases bits
  {
    if bits > 0 {
      DrawBitsHit(c, row, base, bits - 1);
      var xl := bits - 1;
      if SpriteBit(row, xl) {
        DrawBitsAt(c, row, base, xl, base + xl);
      }
    }
  }

  /** After `rows` rows each cell is inverted exactly when those rows cover it. */
  lemma {:induction false} DrawRowsAt(g: seq<bv8>, sprite: seq<byte>, vx: nat, vy: nat, rows: nat, k: nat)
    requires |g| == ScreenCells && rows <= |sprite| && Fits(sprite, vx, vy) && k < ScreenCells
    ensures DrawRows(g, sprite, vx, vy, rows).cells[k] ==
      if Covers(sprite, vx, vy, rows, k) then g[k] ^ 1 else g[k]
    decreases rows
  {
    if rows > 0 {
      var r := rows - 1;
      DrawRowsAt(g, sprite, vx, vy, r, k);
      DrawBitsAt(DrawRows(g, sprite, vx, vy, r), sprite[r], PixelIndex(vx, vy, 0, r), 8, k);
      CoversStep(sprite, vx, vy, r, k);
    }
  }

  /** After `rows` rows the flag is set exactly when a covered cell was 1 to begin with. */
  lemma {:induction false} DrawRowsHit(g: seq<bv8>, sprite: seq<byte>, vx: nat, vy: nat, rows: nat)
    requires |g| == ScreenCells && rows <= |sprite| && Fits(sprite, vx, vy)
    ensures DrawRows(g, sprite, vx, vy, rows).hit <==> Collides(g, sprite, vx, vy, rows)
    decreases rows
  {
    if rows > 0 {
      var r := rows - 1;
      var c := DrawRows(g, sprite, vx, vy, r);
      var base := PixelIndex(vx, vy, 0, r);
      DrawRowsHit(g, sprite, vx, vy, r);
      DrawBitsHit(c, sprite[r], base, 8);
      CollidesStep(g, sprite, vx, vy, r);
      forall xl | 0 <= xl < 8 && SpriteBit(sprite[r], xl)
        ensures c.cells[base + xl] == g[base + xl]
      {
        RowUntouched(g, sprite, vx, vy, r, xl);
      }
    }
  }

  /** Row r adds to the collisions exactly its set bits over cells that are 1. */
  lemma CollidesStep(g: seq<bv8>, sprite: seq<byte>, vx: nat, vy: nat, r: nat)
    requires |g| == ScreenCells && r < |sprite| && Fits(sprite, vx, vy)
    ensures var base := PixelIndex(vx, vy, 0, r);
      Collides(g, sprite, vx, vy, r + 1) <==>
        Collides(g, sprite, vx, vy, r) || exists xl | 0 <= xl < 8 :: SpriteBit(sprite[r], xl) && g[base + xl] == 1
  {
    var base := PixelIndex(vx, vy, 0, r);
    if Collides(g, sprite, vx, vy, r + 1) {
      CollidesShrinks(g, sprite, vx, vy, r);
    }
    if Collides(g, sprite, vx, vy, r) {
      CollidesGrows(g, sprite, vx, vy, r);
    }
    if exists xl | 0 <= xl < 8 :: SpriteBit(sprite[r], xl) && g[base + xl] == 1 {
      var xl :| 0 <= xl < 8 && SpriteBit(sprite[r], xl) && g[base + xl] == 1;
      RowCollides(g, sprite, vx, vy, r, xl);
    }
  }

  /** A collision of the first r + 1 rows is one of the first r rows or one of row r. */
  lemma CollidesShrinks(g: seq<bv8>, sprite: seq<byte>, vx: nat, vy: nat, r: nat)
    requires |g| == ScreenCells && r < |sprite| && Fits(sprite, vx, vy)
    requires Collides(g, sprite, vx, vy, r + 1)
    ensures var base := PixelIndex(vx, vy, 0, r);
      Collides(g, sprite, vx, vy, r) || exists xl | 0 <= xl < 8 :: SpriteBit(sprite[r], xl) && g[base + xl] == 1
  {
    var k :| 0 <= k < |g| && Covers(sprite, vx, vy, r + 1, k) && g[k] == 1;
    CoversStep(sprite, vx, vy, r, k);
    if !Covers(sprite, vx, vy, r, k) {
      var xl := k - PixelIndex(vx, vy, 0, r);
      assert SpriteBit(sprite[r], xl);
    }
  }

  /** A collision of the first r rows is one of the first r + 1 rows. */
  lemma CollidesGrows(g: seq<bv8>, sprite: seq<byte>, vx: nat, vy: nat, r: nat)
    requires r < |sprite| && Collides(g, sprite, vx, vy, r)
    ensures Collides(g, sprite, vx, vy, r + 1)
  {
    var k :| 0 <= k < |g| && Covers(sprite, vx, vy, r, k) && g[k] == 1;
    CoversStep(sprite, vx, vy, r, k);
    assert Covers(sprite, vx, vy, r + 1, k);
  }

  /** A set bit of row r over a cell that is 1 is a collision of the first r + 1 rows. */
  lemma RowCollides(g: seq<bv8>, sprite: seq<byte>, vx: nat, vy: nat, r: nat, xl: nat)
    requires |g| == ScreenCells && r < |sprite| && Fits(sprite, vx, vy)
    requires xl < 8 && SpriteBit(sprite[r], xl) && g[PixelIndex(vx, vy, 0, r) + xl] == 1
    ensures Collides(g, sprite, vx, vy, r + 1)
  {
    var k := PixelIndex(vx, vy, 0, r) + xl;
    CoversStep(sprite, vx, vy, r, k);
    assert Covers(sprite, vx, vy, r + 1, k);
  }

  /** The cells under row r are still as they were before the first r rows. */
  lemma RowUntouched(g: seq<bv8>, sprite: seq<byte>, vx: nat, vy: nat, r: nat, xl: nat)
    requires |g| == ScreenCells && r < |sprite| && Fits(sprite, vx, vy)
    requires xl < 8 && SpriteBit(sprite[r], xl)
    ensures var k := PixelIndex(vx, vy, 0, r) + xl;
      DrawRows(g, sprite, vx, vy, r).cells[k] == g[k]
  {
    var k := PixelIndex(vx, vy, 0, r) + xl;
    CoversStep(sprite, vx, vy, r, k);
    DrawRowsAt(g, sprite, vx, vy, r, k);
  }

  /** The loops compute the cell-by-cell description of a draw. */
  lemma DrawMatchesOverlay(g: seq<bv8>, sprite: seq<byte>, vx: nat, vy: nat)
    requires |g| == ScreenCells && Fits(sprite, vx, vy)
    ensures DrawRows(g, sprite, vx, vy, |sprite|).cells == Overlay(g, sprite, vx, vy)
    ensures DrawRows(g, sprite, vx, vy, |sprite|).hit <==> Collides(g, sprite, vx, vy, |sprite|)
  {
    var r := DrawRows(g, sprite, vx, vy, |sprite|);
    forall k | 0 <= k < ScreenCells
      ensures r.cells[k] == Overlay(g, sprite, vx, vy)[k]
    {
      DrawRowsAt(g, sprite, vx, vy, |sprite|, k);
    }
    DrawRowsHit(g, sprite, vx, vy, |sprite|);
  }

  /** Drawing the same sprite at the same place twice restores the framebuffer. */
  lemma DrawTwiceRestores(g: seq<bv8>, sprite: seq<byte>, vx: nat, vy: nat)
    requires |g| == ScreenCells && Fits(sprite, vx, vy)
    ensures var once := DrawRows(g, sprite, vx, vy, |sprite|).cells;
      DrawRows(once, sprite, vx, vy, |sprite|).cells == g
  {
    var once := DrawRows(g, sprite, vx, vy, |sprite|).cells;
    DrawMatchesOverlay(g, sprite, vx, vy);
    DrawMatchesOverlay(once, sprite, vx, vy);
    forall k | 0 <= k < ScreenCells
      ensures Overlay(once, sprite, vx, vy)[k] == g[k]
    {
    }
  }

  /** The second of two identical draws reports a collision exactly when the
      first one turned on some cell (a covered cell that was 0). */
  lemma RedrawCollides(g: seq<bv8>, sprite: seq<byte>, vx: nat, vy: nat)
    requires |g| == ScreenCells && Fits(sprite, vx, vy)
    ensures var once := DrawRows(g, sprite, vx, vy, |sprite|).cells;
      DrawRows(once, sprite, vx, vy, |sprite|).hit <==>
        exists k | 0 <= k < ScreenCells :: Covers(sprite, vx, vy, |sprite|, k) && g[k] == 0
  {
    var once := DrawRows(g, sprite, vx, vy, |sprite|).cells;
    DrawMatchesOverlay(g, sprite, vx, vy);
    DrawMatchesOverlay(once, sprite, vx, vy);
    if exists k | 0 <= k < ScreenCells :: Covers(sprite, vx, vy, |sprite|, k) && g[k] == 0 {
      var k :| 0 <= k < ScreenCells && Covers(sprite, vx, vy, |sprite|, k) && g[k] == 0;
      assert once[k] == 1;
    }
    if Collides(once, sprite, vx, vy, |sprite|) {
      var k :| 0 <= k < |once| && Covers(sprite, vx, vy, |sprite|, k) && once[k] == 1;
      assert g[k] == 0;
    }
  }

  /** On a cleared framebuffer a draw leaves exactly the sprite's set bits
      on, and reports no collision. */
  lemma DrawOnBlank(sprite: seq<byte>, vx: nat, vy: nat)
    requires Fits(sprite, vx, vy)
    ensures var r := DrawRows(BlankScreen(), sprite, vx, vy, |sprite|);
      && !r.hit
      && forall k | 0 <= k < ScreenCells :: r.cells[k] == if Covers(sprite, vx, vy, |sprite|, k) then 1 else 0
  {
    DrawMatchesOverlay(BlankScreen(), sprite, vx, vy);
  }

  /** A draw keeps every cell 0 or 1. */
  lemma DrawKeepsBinary(g: seq<bv8>, sprite: seq<byte>, vx: nat, vy: nat)
    requires |g| == ScreenCells && Fits(sprite, vx, vy) && Binary(g)
    ensures Binary(DrawRows(g, sprite, vx, vy, |sprite|).cells)
  {
    DrawMatchesOverlay(g, sprite, vx, vy);
    var o := Overlay(g, sprite, vx, vy);
    forall k | 0 <= k < |o|
      ensures o[k] <= 1
    {
      assert g[k] == 0 || g[k] == 1;
    }
  }
}
