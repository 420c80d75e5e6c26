/** Screen geometry of the rainbow: every history slot becomes one point of
    its band's polyline. */
module Geometry {
  import opened Params

  datatype Point = Point(x: real, y: real)

  /** `px_per_frame`: horizontal pixels per history slot. The source divides
      (width - kCatWidth + kRainbowOverlap) by H in floating point and
      converts to int, which truncates toward zero. */
  function PxPerFrame(cfg: Config, width: int): (px: int)
    requires cfg.Valid()
    ensures var n := width - cfg.catWidth + cfg.rainbowOverlap;
            && (n >= 0 ==> 0 <= px && px * cfg.historySize <= n < px * cfg.historySize + cfg.historySize)
            && (n < 0 ==> px <= 0 && px * cfg.historySize - cfg.historySize < n <= px * cfg.historySize)
  {
    var n := width - cfg.catWidth + cfg.rainbowOverlap;
    TruncDivBounds(n, cfg.historySize);
    TruncDiv(n, cfg.historySize)
  }

  /** Top edge of the cat, which is centred vertically in the widget. */
  function TopOfCat(cfg: Config, height: int): (top: real)
    ensures (height as real) - (top + cfg.catHeight as real) == top
  {
    (height as real) / 2.0 - (cfg.catHeight as real) / 2.0
  }

  /** Vertical zero line of band `b`: the cat's height is divided into
      `bands + 1` equal strips and band `b` sits at `b + 0.5` strips, so
      every band's zero line lies strictly inside the cat's vertical extent. */
  function Baseline(cfg: Config, height: int, b: int): (y: real)
    requires cfg.Valid()
    ensures 0 <= b < cfg.bands ==> TopOfCat(cfg, height) < y < TopOfCat(cfg, height) + cfg.catHeight as real
  {
    var c, n := cfg.catHeight as real, (cfg.bands + 1) as real;
    var f := b as real + 0.5;
    var k := c / n;
    assert k * n == c && 0.0 < k;
    assert 0 <= b < cfg.bands ==> 0.0 < k * f && 0.0 < k * (n - f) == k * n - k * f;
    k * f + TopOfCat(cfg, height)
  }

  /** Higher bands lie strictly lower on the screen (larger y). */
  lemma BaselineIncreasing(cfg: Config, height: int, b1: int, b2: int)
    requires cfg.Valid() && b1 < b2
    ensures Baseline(cfg, height, b1) < Baseline(cfg, height, b2)
  {
    var strip := (cfg.catHeight as real) / ((cfg.bands + 1) as real);
    assert strip > 0.0;
    assert strip * (b2 as real + 0.5) - strip * (b1 as real + 0.5) == strip * ((b2 - b1) as real);
  }

  /** Point for slot `x` of band `b`: `px_per_frame * x` across, and the
      band's baseline plus the magnitude scaled by kPixelScale down. When
      the rainbow has room left of the cat, every point lies in it; a silent
      slot sits exactly on the band's baseline. */
  function PointAt(cfg: Config, h: seq<real>, width: int, height: int, b: nat, x: int): (p: Point)
    requires cfg.Valid() && |h| == cfg.Slots() && b < cfg.bands && 0 <= x < cfg.historySize
    ensures var room := width - cfg.catWidth + cfg.rainbowOverlap;
            room > 0 ==> 0.0 <= p.x < room as real
    ensures p.y == Baseline(cfg, height, b) <==> h[Slot(cfg, b, x)] == 0.0
  {
    var px := PxPerFrame(cfg, width);
    SlotWithinRoom(cfg, width, x);
    var v := h[Slot(cfg, b, x)];
    assert v * PixelScale == 0.0 <==> v == 0.0 by {
      assert PixelScale == 0.02;
    }
    Point((px * x) as real, Baseline(cfg, height, b) + v * PixelScale)
  }

  /** Slot `x`'s column `px_per_frame * x` lies left of the room's right end. */
  lemma SlotWithinRoom(cfg: Config, width: int, x: int)
    requires cfg.Valid() && 0 <= x < cfg.historySize
    ensures var room := width - cfg.catWidth + cfg.rainbowOverlap;
            room > 0 ==> 0 <= PxPerFrame(cfg, width) * x < room
  {
    var px := PxPerFrame(cfg, width);
    if width - cfg.catWidth + cfg.rainbowOverlap > 0 {
      MulMonotone(0, x, px);
      MulMonotone(x, cfg.historySize - 1, px);
      assert (cfg.historySize - 1) * px == px * cfg.historySize - px;
    }
  }

  /** The `H` points of band `b`, in slot order. */
  function BandPoints(cfg: Config, h: seq<real>, width: int, height: int, b: nat): (ps: seq<Point>)
    requires cfg.Valid() && |h| == cfg.Slots() && b < cfg.bands
    ensures |ps| == cfg.historySize
    ensures forall x :: 0 <= x < cfg.historySize ==> ps[x] == PointAt(cfg, h, width, height, b, x)
  {
    seq(cfg.historySize, x requires 0 <= x < cfg.historySize => PointAt(cfg, h, width, height, b, x))
  }

  /** The polyline of bands 0..n-1, one band's points after the other. */
  function PolylineUpTo(cfg: Config, h: seq<real>, width: int, height: int, n: nat): (pl: seq<Point>)
    requires cfg.Valid() && |h| == cfg.Slots() && n <= cfg.bands
    ensures |pl| == RowStart(cfg, n)
    ensures forall b, x :: 0 <= b < n && 0 <= x < cfg.historySize ==>
              Slot(cfg, b, x) < |pl| && pl[Slot(cfg, b, x)] == PointAt(cfg, h, width, height, b, x)
  {
    if n == 0 then []
    else
      var prefix := PolylineUpTo(cfg, h, width, height, n - 1);
      var pl := prefix + BandPoints(cfg, h, width, height, n - 1);
      forall b, x | 0 <= b < n - 1 && 0 <= x < cfg.historySize
        ensures Slot(cfg, b, x) < |prefix|
      {
        SlotOrder(cfg, b, x, n - 1, 0);
      }
      pl
  }

  /** The flat polyline array: the point for history slot `i` at index `i`. */
  function Polyline(cfg: Config, h: seq<real>, width: int, height: int): (pl: seq<Point>)
    requires cfg.Valid() && |h| == cfg.Slots()
    ensures |pl| == |h|
    ensures forall b, x :: 0 <= b < cfg.bands && 0 <= x < cfg.historySize ==>
              pl[Slot(cfg, b, x)] == PointAt(cfg, h, width, height, b, x)
  {
    PolylineUpTo(cfg, h, width, height, cfg.bands)
  }

  /** The polyline at the source's index `b * H + x`: x-coordinate
      `px_per_frame * x`, y-coordinate the band's baseline plus the history
      value at the same index times kPixelScale. */
  lemma PolylinePoint(cfg: Config, h: seq<real>, width: int, height: int, b: nat, x: int)
    requires cfg.Valid() && |h| == cfg.Slots() && b < cfg.bands && 0 <= x < cfg.historySize
    ensures 0 <= b * cfg.historySize + x < |h|
    ensures Polyline(cfg, h, width, height)[b * cfg.historySize + x].x == (PxPerFrame(cfg, width) * x) as real
    ensures Polyline(cfg, h, width, height)[b * cfg.historySize + x].y
              == Baseline(cfg, height, b) + h[b * cfg.historySize + x] * PixelScale
  {
    RowStartIsProduct(cfg, b);
    SlotInBand(cfg, b, x);
    assert b * cfg.historySize + x == Slot(cfg, b, x);
  }

  /** Within a band, consecutive points are `px_per_frame` apart across, and
      every band uses the same x-coordinates. */
  lemma PolylineSpacing(cfg: Config, h: seq<real>, width: int, height: int, b1: nat, b2: nat, x: int)
    requires cfg.Valid() && |h| == cfg.Slots() && b1 < cfg.bands && b2 < cfg.bands && 0 <= x < cfg.historySize - 1
    ensures var pl := Polyline(cfg, h, width, height);
            && pl[Slot(cfg, b1, x + 1)].x - pl[Slot(cfg, b1, x)].x == PxPerFrame(cfg, width) as real
            && pl[Slot(cfg, b1, x)].x == pl[Slot(cfg, b2, x)].x
  {
    var px := PxPerFrame(cfg, width);
    assert px * (x + 1) == px * x + px;
  }

  /** The inner loop for one band: appends the band's `H` points, so that
      the polyline built so far grows by one whole band. */
  method AppendBandPoints(cfg: Config, h: seq<real>, width: int, height: int, band: nat, pl: seq<Point>)
    returns (pl': seq<Point>)
    requires cfg.Valid() && |h| == cfg.Slots() && band < cfg.bands
    requires pl == PolylineUpTo(cfg, h, width, height, band)
    ensures pl' == PolylineUpTo(cfg, h, width, height, band + 1)
  {
    ghost var row := BandPoints(cfg, h, width, height, band);
    pl' := pl;
    var x := 0;
    while x < cfg.historySize
      invariant 0 <= x <= cfg.historySize
      invariant pl' == pl + row[..x]
    {
      assert row[..x + 1] == row[..x] + [row[x]];
      pl' := pl' + [PointAt(cfg, h, width, height, band, x)];
      x := x + 1;
    }
    assert row[..cfg.historySize] == row;
  }

  /** The nested loops that fill `polyline` through the `dest` and `source`
      pointers, which advance together over the flat arrays. */
  method BuildPolyline(cfg: Config, h: seq<real>, width: int, height: int) returns (pl: seq<Point>)
    requires cfg.Valid() && |h| == cfg.Slots()
    ensures pl == Polyline(cfg, h, width, height)
  {
    pl := [];
    var band := 0;
    while band < cfg.bands
      invariant 0 <= band <= cfg.bands
      invariant pl == PolylineUpTo(cfg, h, width, height, band)
    {
      pl := AppendBandPoints(cfg, h, width, height, band, pl);
      band := band + 1;
    }
  }
}
