/** The error-term line of `gfx_line` (gfx/gfx.c), against the ideal line it approximates. */
module GfxLine {
  import opened Division

  datatype Point = Point(x: int, y: int)

  function Abs(v: int): (r: int)
    ensures r >= 0
  {
    if v < 0 then -v else v
  }

  /** k pixels from a, in the direction of b. */
  function Toward(a: int, b: int, k: int): int {
    if a < b then a + k else a - k
  }

  /** The reference: after k pixels on the longer axis, the other axis has moved by k * minor / major
      rounded to the nearest pixel, halves rounded down when the longer axis is even in length. */
  function Rounded(k: nat, minor: nat, major: nat): nat
    requires major > 0
  {
    (k * minor + major - 1 - major / 2) / major
  }

  function LineAt(from: Point, to: Point, k: nat): Point {
    var dx, dy := Abs(to.x - from.x), Abs(to.y - from.y);
    if dx > dy then
      Point(Toward(from.x, to.x, k), Toward(from.y, to.y, Rounded(k, dy, dx)))
    else if dy > 0 then
      Point(Toward(from.x, to.x, Rounded(k, dx, dy)), Toward(from.y, to.y, k))
    else
      from
  }

  function Steps(from: Point, to: Point): nat {
    var dx, dy := Abs(to.x - from.x), Abs(to.y - from.y);
    if dx > dy then dx else dy
  }

  // ---------------------------------------------------------- the error term

  /** What the error term measures: how far k steps and m side steps are from the ideal line, offset
      so that the allowed range has the length of the longer axis. */
  function Offset(k: int, m: int, minor: nat, major: nat): int {
    major / 2 - k * minor + m * major
  }

  lemma OffsetMoves(k: int, m: int, minor: nat, major: nat)
    ensures Offset(k + 1, m, minor, major) == Offset(k, m, minor, major) - minor
    ensures Offset(k, m + 1, minor, major) == Offset(k, m, minor, major) + major
  {
  }

  lemma OffsetStart(minor: nat, major: nat)
    ensures Offset(0, 0, minor, major) == major / 2
  {
  }

  /** While the offset is in range, the side steps taken are the rounded ones. */
  lemma OffsetInRange(k: nat, m: int, minor: nat, major: nat)
    requires major > 0 && 0 <= Offset(k, m, minor, major) < major
    ensures m == Rounded(k, minor, major)
  {
    var n := k * minor + major - 1 - major / 2;
    assert m * major <= n < m * major + major;
    DivModIs(n, m, n - m * major, major);
  }

  lemma RoundedInRange(k: nat, minor: nat, major: nat)
    requires major > 0
    ensures 0 <= Offset(k, Rounded(k, minor, major), minor, major) < major
  {
    var n := k * minor + major - 1 - major / 2;
    var q := n / major;
    assert n == q * major + n % major;
  }

  // --------------------------------------------------------------- the method

  /** The pixels written, in order. */
  method Line(from: Point, to: Point) returns (pixels: seq<Point>)
    ensures |pixels| == Steps(from, to) + 1
    ensures forall k :: 0 <= k < |pixels| ==> pixels[k] == LineAt(from, to, k)
  {
    hide LineAt, At, Steps;
    var x0, y0, x1, y1 := from.x, from.y, to.x, to.y;
    var dx, sx := Abs(x1 - x0), if x0 < x1 then 1 else -1;
    var dy, sy := Abs(y1 - y0), if y0 < y1 then 1 else -1;
    var err := if dx > dy then dx / 2 else -(dy / 2);  // C truncates toward zero
    pixels := [];
    ghost var k := 0;
    Start(from, to, err);
    while true
      invariant |pixels| == k <= Steps(from, to)
      invariant forall j :: 0 <= j < k ==> pixels[j] == LineAt(from, to, j)
      invariant At(from, to, k, Point(x0, y0), err)
      decreases Steps(from, to) - k
    {
      Here(from, to, k, Point(x0, y0), err);
      pixels := pixels + [Point(x0, y0)];
      if x0 == x1 && y0 == y1 {
        break;
      }
      Next(from, to, k, Point(x0, y0), err, sx, sy);
      var e2 := err;
      if e2 > -dx {
        err := err - dy;
        x0 := x0 + sx;
      }
      if e2 < dy {
        err := err + dx;
        y0 := y0 + sy;
      }
      k := k + 1;
    }
  }

  /** The loop invariant: the error term is the offset of the current pixel, within range. When y is
      the longer axis the code keeps it negated. */
  ghost predicate At(from: Point, to: Point, k: nat, p: Point, err: int) {
    var dx, dy := Abs(to.x - from.x), Abs(to.y - from.y);
    if dx > dy then
      exists m: nat :: p == Point(Toward(from.x, to.x, k), Toward(from.y, to.y, m))
                       && err == Offset(k, m, dy, dx) && 0 <= err < dx
    else if dy > 0 then
      exists m: nat :: p == Point(Toward(from.x, to.x, m), Toward(from.y, to.y, k))
                       && err == -Offset(k, m, dx, dy) && -dy < err <= 0
    else
      k == 0 && p == from && err == 0
  }

  lemma Start(from: Point, to: Point, err: int)
    requires var dx, dy := Abs(to.x - from.x), Abs(to.y - from.y);
             err == if dx > dy then dx / 2 else -(dy / 2)
    ensures At(from, to, 0, from, err)
  {
    var dx, dy := Abs(to.x - from.x), Abs(to.y - from.y);
    hide Offset;
    OffsetStart(dy, dx);
    OffsetStart(dx, dy);
  }

  /** The current pixel is the reference one, and it is the last exactly when the count says so. */
  lemma Here(from: Point, to: Point, k: nat, p: Point, err: int)
    requires At(from, to, k, p, err) && k <= Steps(from, to)
    ensures p == LineAt(from, to, k)
    ensures p == to <==> k == Steps(from, to)
  {
    hide Offset, Rounded;
    var dx, dy := Abs(to.x - from.x), Abs(to.y - from.y);
    if dx > dy {
      var m: nat :| p == Point(Toward(from.x, to.x, k), Toward(from.y, to.y, m))
                    && err == Offset(k, m, dy, dx) && 0 <= err < dx;
      OffsetInRange(k, m, dy, dx);
      RoundedAtEnd(dy, dx);
    } else if dy > 0 {
      var m: nat :| p == Point(Toward(from.x, to.x, m), Toward(from.y, to.y, k))
                    && err == -Offset(k, m, dx, dy) && -dy < err <= 0;
      OffsetInRange(k, m, dx, dy);
      RoundedAtEnd(dx, dy);
    }
  }

  lemma RoundedAtEnd(minor: nat, major: nat)
    requires major > 0
    ensures Rounded(major, minor, major) == minor
  {
    assert Offset(major, minor, minor, major) == major / 2;
    OffsetInRange(major, minor, minor, major);
  }

  lemma Next(from: Point, to: Point, k: nat, p: Point, err: int, sx: int, sy: int)
    requires At(from, to, k, p, err) && k < Steps(from, to)
    requires sx == (if from.x < to.x then 1 else -1) && sy == (if from.y < to.y then 1 else -1)
    ensures var dx, dy := Abs(to.x - from.x), Abs(to.y - from.y);
            At(from, to, k + 1,
               Point(if err > -dx then p.x + sx else p.x, if err < dy then p.y + sy else p.y),
               (if err > -dx then err - dy else err) + (if err < dy then dx else 0))
  {
    hide Offset, Rounded;
    var dx, dy := Abs(to.x - from.x), Abs(to.y - from.y);
    if dx > dy {
      var m: nat :| p == Point(Toward(from.x, to.x, k), Toward(from.y, to.y, m))
                    && err == Offset(k, m, dy, dx) && 0 <= err < dx;
      OffsetMoves(k, m, dy, dx);
      OffsetMoves(k + 1, m, dy, dx);
      var m' := if err < dy then m + 1 else m;
      assert Offset(k + 1, m', dy, dx) == if err < dy then err - dy + dx else err - dy;
    } else {
      var m: nat :| p == Point(Toward(from.x, to.x, m), Toward(from.y, to.y, k))
                    && err == -Offset(k, m, dx, dy) && -dy < err <= 0;
      OffsetMoves(k, m, dx, dy);
      OffsetMoves(k + 1, m, dx, dy);
      var m' := if err > -dx then m + 1 else m;
      assert -Offset(k + 1, m', dx, dy) == if err > -dx then err - dy + dx else err + dx;
    }
  }

  // ------------------------------------------------- what the pixels are worth

  /** The line starts and ends where it was asked to. */
  lemma LineEnds(from: Point, to: Point)
    ensures LineAt(from, to, 0) == from && LineAt(from, to, Steps(from, to)) == to
  {
    hide Offset, Rounded;
    var dx, dy := Abs(to.x - from.x), Abs(to.y - from.y);
    if dx > dy {
      RoundedAtEnd(dy, dx);
      OffsetStart(dy, dx);
      OffsetInRange(0, 0, dy, dx);
    } else if dy > 0 {
      RoundedAtEnd(dx, dy);
      OffsetStart(dx, dy);
      OffsetInRange(0, 0, dx, dy);
    }
  }

  /** Every pixel is within half a pixel of the ideal line, measured on the shorter axis. */
  lemma HalfPixel(k: nat, minor: nat, major: nat)
    requires major > 0
    ensures 2 * Abs(Rounded(k, minor, major) * major - k * minor) <= major
  {
    RoundedInRange(k, minor, major);
  }

  /** Each step moves one pixel on the longer axis and at most one on the other, in the direction of
      the end, so the line has no gap and never turns back. */
  lemma OneStep(from: Point, to: Point, k: nat)
    requires k < Steps(from, to)
    ensures var dx, dy := Abs(to.x - from.x), Abs(to.y - from.y);
            var p, q := LineAt(from, to, k), LineAt(from, to, k + 1);
            if dx > dy then
              q.x == Toward(p.x, p.x + to.x - from.x, 1) && q.y in {p.y, Toward(p.y, p.y + to.y - from.y, 1)}
            else
              q.y == Toward(p.y, p.y + to.y - from.y, 1) && q.x in {p.x, Toward(p.x, p.x + to.x - from.x, 1)}
  {
    hide Offset, Rounded;
    var dx, dy := Abs(to.x - from.x), Abs(to.y - from.y);
    if dx > dy {
      RoundedGrows(k, dy, dx);
    } else {
      RoundedGrows(k, dx, dy);
    }
  }

  lemma RoundedGrows(k: nat, minor: nat, major: nat)
    requires major > 0 && minor <= major
    ensures Rounded(k + 1, minor, major) in {Rounded(k, minor, major), Rounded(k, minor, major) + 1}
  {
    hide Offset, Rounded;
    RoundedInRange(k, minor, major);
    var m := Rounded(k, minor, major);
    OffsetMoves(k, m, minor, major);
    OffsetMoves(k + 1, m, minor, major);
    if Offset(k + 1, m, minor, major) >= 0 {
      OffsetInRange(k + 1, m, minor, major);
    } else {
      OffsetInRange(k + 1, m + 1, minor, major);
    }
  }

  ghost predicate Between(a: int, v: int, b: int) {
    a <= v <= b || b <= v <= a
  }

  /** Every pixel lies in the rectangle spanned by the two ends: with both on the screen, nothing is
      written outside it. */
  lemma InsideBox(from: Point, to: Point, k: nat)
    requires k <= Steps(from, to)
    ensures Between(from.x, LineAt(from, to, k).x, to.x) && Between(from.y, LineAt(from, to, k).y, to.y)
  {
    hide Offset, Rounded;
    var dx, dy := Abs(to.x - from.x), Abs(to.y - from.y);
    if dx > dy {
      RoundedAtMost(k, dy, dx);
    } else if dy > 0 {
      RoundedAtMost(k, dx, dy);
    }
  }

  lemma {:induction false} RoundedAtMost(k: nat, minor: nat, major: nat)
    requires 0 < major && k <= major && minor <= major
    ensures Rounded(k, minor, major) <= minor
    decreases major - k
  {
    hide Rounded;
    if k == major {
      RoundedAtEnd(minor, major);
    } else {
      RoundedAtMost(k + 1, minor, major);
      RoundedGrows(k, minor, major);
    }
  }
}
