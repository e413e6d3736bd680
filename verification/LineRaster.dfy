/**
 The integer line loop of the chart renderer. The loop only adds, doubles and compares; its
 specification is the rounding of the ideal line, so that every point it visits is the nearest one.
 */
module LineRaster {
  newtype byte = x: int | 0 <= x < 256

  datatype Point = Point(x: int, y: int)

  function Abs(x: int): nat {
    if x < 0 then -x else x
  }

  /** The segment from `start` to `stop`. */
  datatype Segment = Segment(start: Point, stop: Point) {
    function Wide(): nat { Abs(stop.x - start.x) }
    function Tall(): nat { Abs(stop.y - start.y) }
    function StepX(): int { if start.x < stop.x then 1 else -1 }
    function StepY(): int { if start.y < stop.y then 1 else -1 }
    function Length(): nat { if Wide() >= Tall() then Wide() else Tall() }

    /** The k-th point: one step on the major axis each time, rounding half up on the minor axis. */
    function At(k: nat): Point
      requires k <= Length()
    {
      Point(start.x + StepX() * Across(k), start.y + StepY() * Down(k))
    }

    function Across(k: nat): int
      requires k <= Length()
    {
      if Wide() >= Tall() then k else Rounded(Wide(), Tall(), k)
    }

    function Down(k: nat): int
      requires k <= Length()
    {
      if Wide() < Tall() then k else if Wide() == 0 then 0 else Rounded(Tall(), Wide(), k)
    }
  }

  /** `minor * k / major`, to the nearest integer and upwards from a half. */
  function Rounded(minor: nat, major: nat, k: nat): int
    requires major > 0
  {
    (2 * minor * k + major) / (2 * major)
  }

  /** The rounding is the only integer in its half-open unit interval. */
  lemma RoundedIs(minor: nat, major: nat, k: nat, r: int)
    requires major > 0
    requires 0 - major < 2 * (major * r - minor * k) <= major
    ensures r == Rounded(minor, major, k)
  {
    var n, d := 2 * minor * k + major, 2 * major;
    assert n == d * (n / d) + n % d;
    assert n - 2 * major < d * r <= n by {
      assert d * r == 2 * (major * r);
      assert 2 * minor * k == 2 * (minor * k);
    }
    UnitInterval(d, r, n / d, n);
  }

  lemma UnitInterval(d: int, r: int, q: int, n: int)
    requires d > 0 && n - d < d * r <= n && n - d < d * q <= n
    ensures r == q
  {
    if r < q {
      ScaleOrder(d, r + 1, q);
    } else if q < r {
      ScaleOrder(d, q + 1, r);
    }
  }

  lemma ScaleOrder(d: int, r: int, q: int)
    requires d >= 0 && r <= q
    ensures d * r <= d * q
  {
    assert d * q - d * r == d * (q - r);
  }

  lemma RoundedNear(minor: nat, major: nat, k: nat)
    requires major > 0
    ensures 0 - major < 2 * (major * Rounded(minor, major, k) - minor * k) <= major
  {
    var n, d := 2 * minor * k + major, 2 * major;
    assert n == d * (n / d) + n % d;
    assert d * (n / d) == 2 * (major * (n / d));
    assert 2 * minor * k == 2 * (minor * k);
  }

  // ---------------------------------------------------------------------------
  // What the points of a segment are
  // ---------------------------------------------------------------------------

  /** A step of the loop moves both coordinates by at most one and the major one by exactly one. */
  lemma RoundedStep(minor: nat, major: nat, k: nat)
    requires major >= minor && major > 0
    ensures 0 <= Rounded(minor, major, k + 1) - Rounded(minor, major, k) <= 1
  {
    RoundedNear(minor, major, k);
    RoundedNear(minor, major, k + 1);
    var r, s := Rounded(minor, major, k), Rounded(minor, major, k + 1);
    assert minor * (k + 1) == minor * k + minor;
    assert major * (s - r) == major * s - major * r;
    assert -2 * major < 2 * (major * (s - r)) - 2 * minor < 2 * major;
    if s - r < 0 {
      ScaleOrder(major, s - r, -1);
    } else if s - r > 1 {
      ScaleOrder(major, 2, s - r);
    }
  }

  lemma RoundedEnds(minor: nat, major: nat)
    requires major > 0
    ensures Rounded(minor, major, 0) == 0
    ensures Rounded(minor, major, major) == minor
  {
    assert major * minor == minor * major;
    RoundedIs(minor, major, 0, 0);
    RoundedIs(minor, major, major, minor);
  }

  predicate EightAdjacent(p: Point, q: Point) {
    p != q && Abs(p.x - q.x) <= 1 && Abs(p.y - q.y) <= 1
  }

  /** The segment is a connected path of max(|dx|, |dy|) + 1 distinct points, end to end. */
  lemma SegmentIsConnected(s: Segment)
    ensures s.At(0) == s.start && s.At(s.Length()) == s.stop
    ensures forall k: nat :: k < s.Length() ==> EightAdjacent(s.At(k), s.At(k + 1))
    ensures forall j: nat, k: nat :: j < k <= s.Length() ==> s.At(j) != s.At(k)
  {
    EndsMeet(s);
    forall k: nat | k < s.Length() ensures EightAdjacent(s.At(k), s.At(k + 1)) {
      NextIsAdjacent(s, k);
    }
    forall j: nat, k: nat | j < k <= s.Length() ensures s.At(j) != s.At(k) {
      if s.Wide() >= s.Tall() {
        assert s.At(j).x - s.At(k).x == s.StepX() * (j - k);
      } else {
        assert s.At(j).y - s.At(k).y == s.StepY() * (j - k);
      }
    }
  }

  lemma EndsMeet(s: Segment)
    ensures s.At(0) == s.start && s.At(s.Length()) == s.stop
  {
    if s.Wide() >= s.Tall() {
      if s.Wide() > 0 {
        RoundedEnds(s.Tall(), s.Wide());
      }
    } else {
      RoundedEnds(s.Wide(), s.Tall());
    }
  }

  lemma NextIsAdjacent(s: Segment, k: nat)
    requires k < s.Length()
    ensures EightAdjacent(s.At(k), s.At(k + 1))
  {
    if s.Wide() >= s.Tall() {
      RoundedStep(s.Tall(), s.Wide(), k);
    } else {
      RoundedStep(s.Wide(), s.Tall(), k);
    }
  }

  /**
   Every point is within half a pixel of the ideal line on the minor axis, and no other pixel of
   its row or column is nearer. `offset` is the scaled distance from the ideal line.
   */
  lemma NearestPixel(minor: nat, major: nat, k: nat, other: int)
    requires major > 0
    ensures var offset := major * Rounded(minor, major, k) - minor * k;
            && 2 * Abs(offset) <= major
            && Abs(offset) <= Abs(major * other - minor * k)
  {
    RoundedNear(minor, major, k);
    var r := Rounded(minor, major, k);
    assert major * (other - r) == major * other - major * r;
    if other < r {
      ScaleOrder(major, other - r, -1);
    } else if other > r {
      ScaleOrder(major, 1, other - r);
    }
  }

  /** The same for a segment: its points round the ideal line, whichever axis is the longer. */
  lemma SegmentHugsIdealLine(s: Segment, k: nat)
    requires k <= s.Length()
    ensures 2 * Abs(s.Wide() * s.Down(k) - s.Tall() * s.Across(k)) <= s.Length()
  {
    if s.Wide() >= s.Tall() {
      if s.Wide() > 0 {
        NearestPixel(s.Tall(), s.Wide(), k, 0);
      }
    } else {
      NearestPixel(s.Wide(), s.Tall(), k, 0);
      var off := s.Tall() * s.Across(k) - s.Wide() * k;
      assert s.Wide() * s.Down(k) - s.Tall() * s.Across(k) == -off;
    }
  }

  // ---------------------------------------------------------------------------
  // Pixels
  // ---------------------------------------------------------------------------

  datatype Picture = Picture(width: nat, height: nat) {
    predicate Shows(p: Point) { 0 <= p.x < width && 0 <= p.y < height }
    function Offset(p: Point): int { (p.y * width + p.x) * 3 }
    function Size(): nat { width * height * 3 }

    /** Byte `i` is one of the three bytes of the point `p`. */
    predicate Covers(p: Point, i: int) { Shows(p) && Offset(p) <= i < Offset(p) + 3 }
  }

  lemma OffsetInRange(view: Picture, p: Point)
    requires view.Shows(p)
    ensures 0 <= view.Offset(p) && view.Offset(p) + 3 <= view.Size()
    ensures view.Offset(p) % 3 == 0
  {
    ScaleOrder(view.width, p.y + 1, view.height);
    ScaleOrder(view.width, 0, p.y);
    assert view.width * (p.y + 1) == p.y * view.width + view.width;
    assert view.width * view.height * 3 == (view.width * view.height) * 3;
  }

  /** No byte belongs to two points, so painting one point leaves every other as it was. */
  lemma PixelsDisjoint(view: Picture, p: Point, q: Point, i: int)
    requires view.Covers(p, i) && view.Covers(q, i)
    ensures p == q
  {
    assert p.y * view.width + p.x == q.y * view.width + q.x;
    assert view.width * (p.y - q.y) == p.y * view.width - q.y * view.width;
    if p.y < q.y {
      ScaleOrder(view.width, p.y - q.y, -1);
    } else if p.y > q.y {
      ScaleOrder(view.width, 1, p.y - q.y);
    }
  }

  /** `now` is `was` with the bytes of `p` replaced by the color. */
  ghost predicate Painted(was: seq<byte>, now: seq<byte>, view: Picture, p: Point, color: seq<byte>)
    requires |color| == 3
  {
    && |now| == |was|
    && forall i :: 0 <= i < |was| ==> now[i] == if view.Covers(p, i) then color[i % 3] else was[i]
  }

  /** `_pixel`: points outside the picture are dropped. */
  method Pixel(pixels: array<byte>, view: Picture, p: Point, color: seq<byte>)
    requires pixels.Length == view.Size() && |color| == 3
    modifies pixels
    ensures Painted(old(pixels[..]), pixels[..], view, p, color)
  {
    if !view.Shows(p) {
      return;
    }
    OffsetInRange(view, p);
    var offset := view.Offset(p);
    Triple(pixels, offset, color);
    TriplePaints(old(pixels[..]), pixels[..], view, p, color);
  }

  method Triple(pixels: array<byte>, offset: nat, color: seq<byte>)
    requires offset + 3 <= pixels.Length && |color| == 3
    modifies pixels
    ensures pixels[..] == old(pixels[..offset]) + color + old(pixels[offset + 3..])
  {
    pixels[offset] := color[0];
    pixels[offset + 1] := color[1];
    pixels[offset + 2] := color[2];
  }

  lemma TriplePaints(was: seq<byte>, now: seq<byte>, view: Picture, p: Point, color: seq<byte>)
    requires view.Shows(p) && |was| == view.Size() && |color| == 3
    requires 0 <= view.Offset(p) && view.Offset(p) + 3 <= |was|
    requires now == was[..view.Offset(p)] + color + was[view.Offset(p) + 3..]
    ensures Painted(was, now, view, p, color)
  {
    OffsetInRange(view, p);
    SpliceAt(was, now, view.Offset(p), color);
  }

  lemma SpliceAt(was: seq<byte>, now: seq<byte>, offset: nat, color: seq<byte>)
    requires offset + 3 <= |was| && |color| == 3 && offset % 3 == 0
    requires now == was[..offset] + color + was[offset + 3..]
    ensures |now| == |was|
    ensures forall i :: 0 <= i < |was| ==>
              now[i] == if offset <= i < offset + 3 then color[i % 3] else was[i]
  {
  }

  // ---------------------------------------------------------------------------
  // The loop
  // ---------------------------------------------------------------------------

  /** Byte `i` belongs to one of the first `n` points of the segment. */
  ghost predicate Drawn(s: Segment, n: nat, view: Picture, i: int)
    requires n <= s.Length() + 1
  {
    exists k: nat :: k < n && view.Covers(s.At(k), i)
  }

  /** `now` is `was` with exactly the bytes of the first `n` points replaced by the color. */
  ghost predicate DrawnUpTo(was: seq<byte>, now: seq<byte>, s: Segment, n: nat, view: Picture,
                            color: seq<byte>)
    requires n <= s.Length() + 1 && |color| == 3
  {
    && |now| == |was|
    && forall i :: 0 <= i < |was| ==> now[i] == if Drawn(s, n, view, i) then color[i % 3] else was[i]
  }

  lemma DrawOneMore(was: seq<byte>, mid: seq<byte>, now: seq<byte>, s: Segment, k: nat,
                    view: Picture, color: seq<byte>)
    requires k <= s.Length() && |color| == 3
    requires DrawnUpTo(was, mid, s, k, view, color) && Painted(mid, now, view, s.At(k), color)
    ensures DrawnUpTo(was, now, s, k + 1, view, color)
  {
    forall i | 0 <= i < |was|
      ensures now[i] == if Drawn(s, k + 1, view, i) then color[i % 3] else was[i]
    {
      DrawnNext(s, k, view, i);
    }
  }

  lemma DrawnNext(s: Segment, k: nat, view: Picture, i: int)
    requires k <= s.Length()
    ensures Drawn(s, k + 1, view, i) <==> Drawn(s, k, view, i) || view.Covers(s.At(k), i)
  {
    if Drawn(s, k, view, i) {
      var j: nat :| j < k && view.Covers(s.At(j), i);
      assert j < k + 1 && view.Covers(s.At(j), i);
    }
  }

  /** The error term, from the steps taken along each axis. */
  function ErrorTerm(s: Segment, across: int, down: int): int {
    s.Wide() * (down + 1) - s.Tall() * (across + 1)
  }

  /** The loop stands at the k-th point with the error term that belongs to it. */
  ghost predicate LoopAt(s: Segment, k: nat, x0: int, y0: int, error: int) {
    && k <= s.Length()
    && Point(x0, y0) == s.At(k)
    && error == ErrorTerm(s, s.Across(k), s.Down(k))
  }

  /**
   `_line` paints exactly the in-range bytes of the segment's points and leaves all others. The
   variant says that it takes exactly Length() steps.
   */
  method Line(pixels: array<byte>, view: Picture, s: Segment, color: seq<byte>)
    requires pixels.Length == view.Size() && |color| == 3
    modifies pixels
    ensures DrawnUpTo(old(pixels[..]), pixels[..], s, s.Length() + 1, view, color)
  {
    var dx, sx := Abs(s.stop.x - s.start.x), if s.start.x < s.stop.x then 1 else -1;
    var dy, sy := 0 - Abs(s.stop.y - s.start.y), if s.start.y < s.stop.y then 1 else -1;
    var x0, y0 := s.start.x, s.start.y;
    var error := dx + dy;
    ghost var k: nat := 0;
    LoopStart(s);
    while true
      invariant LoopAt(s, k, x0, y0, error)
      invariant DrawnUpTo(old(pixels[..]), pixels[..], s, k, view, color)
      decreases s.Length() - k
    {
      ghost var before := pixels[..];
      Pixel(pixels, view, Point(x0, y0), color);
      DrawOneMore(old(pixels[..]), before, pixels[..], s, k, view, color);
      NotDoneEarly(s, k);
      if x0 == s.stop.x && y0 == s.stop.y {
        return;
      }
      LoopAdvances(s, k, x0, y0, error, dx, dy, sx, sy);
      var doubled := 2 * error;
      if doubled >= dy {
        error := error + dy;
        x0 := x0 + sx;
      }
      if doubled <= dx {
        error := error + dx;
        y0 := y0 + sy;
      }
      k := k + 1;
    }
  }

  lemma LoopStart(s: Segment)
    ensures LoopAt(s, 0, s.start.x, s.start.y, s.Wide() - s.Tall())
  {
    EndsMeet(s);
    assert s.At(0) == s.start;
    assert s.Across(0) == 0 && s.Down(0) == 0;
  }

  lemma LoopAdvances(s: Segment, k: nat, x: int, y: int, error: int, dx: int, dy: int, sx: int, sy: int)
    requires LoopAt(s, k, x, y, error) && k < s.Length()
    requires dx == s.Wide() && dy == 0 - s.Tall() && sx == s.StepX() && sy == s.StepY()
    ensures var across, down := 2 * error >= dy, 2 * error <= dx;
            LoopAt(s, k + 1, x + (if across then sx else 0), y + (if down then sy else 0),
                   error + (if across then dy else 0) + (if down then dx else 0))
  {
    LoopStep(s, k, error);
    ScaleNext(sx, s.Across(k));
    ScaleNext(sy, s.Down(k));
    ErrorAlong(s.Wide(), s.Tall(), s.Down(k), s.Across(k));
    ErrorAlong(s.Wide(), s.Tall(), s.Down(k + 1), s.Across(k + 1));
    ScaleNext(s.Wide(), s.Down(k));
    ScaleNext(s.Tall(), s.Across(k));
  }

  lemma ScaleNext(scale: int, steps: int)
    ensures scale * (steps + 1) == scale * steps + scale
  {
  }

  lemma NotDoneEarly(s: Segment, k: nat)
    requires k <= s.Length()
    ensures s.At(k) == s.stop <==> k == s.Length()
  {
    SegmentIsConnected(s);
  }

  /** The two tests of the loop body choose exactly the next rounded point. */
  lemma LoopStep(s: Segment, k: nat, error: int)
    requires k < s.Length()
    requires error == ErrorTerm(s, s.Across(k), s.Down(k))
    ensures s.Across(k + 1) == s.Across(k) + (if 2 * error >= 0 - s.Tall() then 1 else 0)
    ensures s.Down(k + 1) == s.Down(k) + (if 2 * error <= s.Wide() then 1 else 0)
  {
    if s.Wide() >= s.Tall() {
      MajorStep(s.Tall(), s.Wide(), k);
      ErrorAlong(s.Wide(), s.Tall(), s.Down(k), k);
    } else {
      MajorStep(s.Wide(), s.Tall(), k);
      ErrorAlong(s.Wide(), s.Tall(), k, s.Across(k));
    }
  }

  lemma ErrorAlong(wide: nat, tall: nat, down: int, across: int)
    ensures wide * (down + 1) - tall * (across + 1) == (wide * down - tall * across) + wide - tall
  {
  }

  /** The minor axis moves exactly when staying would leave the half-open unit interval. */
  lemma MajorStep(minor: nat, major: nat, k: nat)
    requires major > 0 && minor <= major
    ensures var r := Rounded(minor, major, k);
            var gap := major * r - minor * k;
            && 0 - major < 2 * gap <= major
            && Rounded(minor, major, k + 1) == r + (if 2 * gap <= 2 * minor - major then 1 else 0)
  {
    RoundedNear(minor, major, k);
    var r := Rounded(minor, major, k);
    var gap := major * r - minor * k;
    assert minor * (k + 1) == minor * k + minor;
    assert major * (r + 1) == major * r + major;
    if 2 * gap <= 2 * minor - major {
      RoundedIs(minor, major, k + 1, r + 1);
    } else {
      RoundedIs(minor, major, k + 1, r);
    }
  }
}
