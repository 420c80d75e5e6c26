/** The render cache: an off-screen pixmap holding the rainbow drawn so far.
    Which drawing commands reach it, and in which order, is modelled; the
    pixels they produce are not. */
module Render {
  import opened Params
  import opened Geometry
  import opened History

  /** `buffer_`: a null pixmap (invalid) or a valid one of the size it was
      created with. */
  datatype Buffer = Null | Pixmap(width: int, height: int)

  /** `QPixmap(size())`: a pixmap of a widget of this size. A pixmap with no
      area (a zero or negative width or height) is a null pixmap. */
  function NewPixmap(width: int, height: int): (buffer: Buffer)
    ensures buffer.Pixmap? <==> width > 0 && height > 0
    ensures buffer.Pixmap? ==> buffer.width == width && buffer.height == height
  {
    if width > 0 && height > 0 then Pixmap(width, height) else Null
  }

  /** A command issued through the buffer's painter. */
  datatype Op =
      /** Fill the whole buffer with the background colour. */
    | FillBackground
      /** Copy the buffer onto itself at the origin, taking the columns
          [srcX, srcX + srcWidth) at full height. */
    | ScrollLeft(srcX: int, srcWidth: int)
      /** Fill a rectangle with the background brush. */
    | FillRect(x: int, y: int, w: int, h: int)
      /** Draw a polyline with band `band`'s pen through `points`, which are
          polyline entries `first`, `first + 1`, ... */
    | DrawPolyline(band: int, first: int, points: seq<Point>)


  /** Division by a positive number does not reverse order. */
  lemma DivMonotone(m: int, n: int, d: int)
    requires 0 <= m <= n && d > 0
    ensures 0 <= m / d <= n / d
  {
    var q1, q2 := m / d, n / d;
    assert m == q1 * d + m % d;
    assert n == q2 * d + n % d;
    if q1 > q2 {
      MulMonotone(q2 + 1, q1, d);
    }
    if q1 < 0 {
      MulMonotone(q1 + 1, 0, d);
    }
  }

  /** A number below `k * d` has a quotient by `d` below `k`. */
  lemma DivBelow(m: int, d: int, k: int)
    requires d > 0 && m < k * d
    ensures m / d < k
  {
    var q := m / d;
    assert m == q * d + m % d;
    if q >= k {
      MulMonotone(k, q, d);
    }
  }

  /** Band hues lie in [0, 255) and do not decrease with the band index. */
  lemma HueOrdered(cfg: Config, b1: int, b2: int)
    requires cfg.Valid() && 0 <= b1 <= b2 < cfg.bands
    ensures 0 <= Hue(cfg, b1) <= Hue(cfg, b2) < 255
  {
    MulMonotone(0, b1, 255);
    MulMonotone(b1, b2, 255);
    DivMonotone(b1 * 255, b2 * 255, cfg.bands);
    MulMonotone(b2 + 1, cfg.bands, 255);
    DivBelow(b2 * 255, cfg.bands, 255);
  }

  /** Hue of band `b`'s pen: `b * 255 / bands`, spread over 0..255 (not over
      the whole 0..359 hue circle that `QColor::fromHsv` accepts). */
  function Hue(cfg: Config, b: int): (hue: int)
    requires cfg.Valid()
    ensures 0 <= b < cfg.bands ==> 0 <= hue < 255
  {
    assert 0 <= b < cfg.bands ==> 0 <= b * 255 / cfg.bands < 255 by {
      if 0 <= b < cfg.bands {
        MulMonotone(b + 1, cfg.bands, 255);
        DivMonotone(0, b * 255, cfg.bands);
        DivBelow(b * 255, cfg.bands, 255);
      }
    }
    b * 255 / cfg.bands
  }

  /** The pen of band `b`: its hue, and a line width that splits the cat's
      height among the bands. */
  datatype Pen = Pen(hue: int, width: int)

  /** The `colors_` array the constructor fills. */
  function Pens(cfg: Config): (pens: seq<Pen>)
    requires cfg.Valid()
    ensures |pens| == cfg.bands
    ensures forall b :: 0 <= b < cfg.bands ==> 0 <= pens[b].hue < 255
    ensures forall b1, b2 :: 0 <= b1 <= b2 < cfg.bands ==> pens[b1].hue <= pens[b2].hue
    ensures forall b :: 0 <= b < cfg.bands ==> pens[b].width * cfg.bands <= cfg.catHeight
  {
    var w := cfg.catHeight / cfg.bands;
    assert w * cfg.bands <= cfg.catHeight by {
      assert cfg.catHeight == w * cfg.bands + cfg.catHeight % cfg.bands;
    }
    var pens := seq(cfg.bands, b requires 0 <= b < cfg.bands => Pen(Hue(cfg, b), w));
    forall b1, b2 | 0 <= b1 <= b2 < cfg.bands
      ensures 0 <= pens[b1].hue <= pens[b2].hue < 255
    {
      HueOrdered(cfg, b1, b2);
    }
    pens
  }

  /** Total number of polyline points the commands draw. */
  function PointsDrawn(ops: seq<Op>): nat {
    if |ops| == 0 then 0
    else (if ops[0].DrawPolyline? then |ops[0].points| else 0) + PointsDrawn(ops[1..])
  }

  /** If the commands from `lo` on are all polylines of `c` points, they draw
      `c` points each. */
  lemma {:induction false} PointsDrawnUniform(ops: seq<Op>, lo: nat, c: nat)
    requires lo <= |ops|
    requires forall k :: lo <= k < |ops| ==> ops[k].DrawPolyline? && |ops[k].points| == c
    ensures PointsDrawn(ops[lo..]) == (|ops| - lo) * c
    decreases |ops| - lo
  {
    if lo < |ops| {
      PointsDrawnUniform(ops, lo + 1, c);
      assert ops[lo..][1..] == ops[lo + 1..];
    }
  }

  /** The commands of a full rebuild: fill the buffer, then every band's
      whole polyline, from the last band down to band 0. */
  ghost predicate IsFullRebuild(cfg: Config, pl: seq<Point>, ops: seq<Op>)
    requires cfg.Valid() && |pl| == cfg.Slots()
  {
    && |ops| == cfg.bands + 1
    && ops[0] == FillBackground
    && forall k :: 1 <= k < |ops| ==>
         ops[k] == DrawPolyline(cfg.bands - k, Slot(cfg, cfg.bands - k, 0), Band(cfg, pl, cfg.bands - k))
  }

  /** The commands of an incremental update of a buffer `bufferWidth` wide:
      scroll left by `px_per_frame`, clear the exposed gap on the right, then
      draw the last two points of every band, from the last band down. */
  ghost predicate IsIncremental(cfg: Config, pl: seq<Point>, px: int, bufferWidth: int, height: int, ops: seq<Op>)
    requires cfg.Valid() && |pl| == cfg.Slots()
  {
    && |ops| == cfg.bands + 2
    && ops[0] == ScrollLeft(px, bufferWidth - px)
    && ops[1] == FillRect(bufferWidth - px, 0, px, height)
    && forall k :: 2 <= k < |ops| ==>
         ops[k] == DrawPolyline(cfg.bands + 1 - k, Slot(cfg, cfg.bands + 1 - k, cfg.historySize - 2),
                                Band(cfg, pl, cfg.bands + 1 - k)[cfg.historySize - 2..])
  }

  /** A full rebuild draws every one of the `bands * H` points. */
  lemma FullRebuildDrawsAllPoints(cfg: Config, pl: seq<Point>, ops: seq<Op>)
    requires cfg.Valid() && |pl| == cfg.Slots() && IsFullRebuild(cfg, pl, ops)
    ensures PointsDrawn(ops) == cfg.bands * cfg.historySize
  {
    PointsDrawnUniform(ops, 1, cfg.historySize);
    assert ops[1..] == ops[0..][1..];
    assert ops[0..] == ops;
  }

  /** An incremental update draws two points per band, however long the
      history is. */
  lemma IncrementalDrawsTwoPointsPerBand(cfg: Config, pl: seq<Point>, px: int, bufferWidth: int, height: int, ops: seq<Op>)
    requires cfg.Valid() && |pl| == cfg.Slots() && IsIncremental(cfg, pl, px, bufferWidth, height, ops)
    ensures PointsDrawn(ops) == 2 * cfg.bands
  {
    PointsDrawnUniform(ops, 2, 2);
    assert ops[0..] == ops;
    assert ops[1..] == ops[0..][1..];
    assert ops[2..] == ops[1..][1..];
  }

  /** The null-buffer branch: a new buffer of the widget's size, filled, then
      `drawPolyline(&polyline[band*H], H)` for band = kRainbowBands-1 down to 0.
      A widget without area gets a null pixmap again; the commands are still
      issued, on a painter that draws nothing. */
  method FullRebuild(cfg: Config, pl: seq<Point>, width: int, height: int) returns (buffer: Buffer, ops: seq<Op>)
    requires cfg.Valid() && |pl| == cfg.Slots()
    ensures buffer == NewPixmap(width, height)
    ensures IsFullRebuild(cfg, pl, ops)
  {
    buffer := NewPixmap(width, height);
    ops := [FillBackground];
    var band := cfg.bands - 1;
    while band >= 0
      invariant -1 <= band < cfg.bands
      invariant |ops| == cfg.bands - band
      invariant ops[0] == FillBackground
      invariant forall k :: 1 <= k < |ops| ==>
                  ops[k] == DrawPolyline(cfg.bands - k, Slot(cfg, cfg.bands - k, 0), Band(cfg, pl, cfg.bands - k))
    {
      ops := ops + [DrawPolyline(band, Slot(cfg, band, 0), Band(cfg, pl, band))];
      band := band - 1;
    }
  }

  /** The valid-buffer branch: scroll the buffer left by `px_per_frame`, fill
      the exposed strip, and `drawPolyline(&polyline[(band+1)*H - 2], 2)` for
      band = kRainbowBands-1 down to 0. The buffer stays valid. */
  method IncrementalUpdate(cfg: Config, buffer: Buffer, pl: seq<Point>, width: int, height: int) returns (ops: seq<Op>)
    requires cfg.Valid() && |pl| == cfg.Slots() && buffer.Pixmap?
    ensures IsIncremental(cfg, pl, PxPerFrame(cfg, width), buffer.width, height, ops)
  {
    var px := PxPerFrame(cfg, width);
    ops := [ScrollLeft(px, buffer.width - px), FillRect(buffer.width - px, 0, px, height)];
    var band := cfg.bands - 1;
    while band >= 0
      invariant -1 <= band < cfg.bands
      invariant |ops| == cfg.bands + 1 - band
      invariant ops[0] == ScrollLeft(px, buffer.width - px)
      invariant ops[1] == FillRect(buffer.width - px, 0, px, height)
      invariant forall k :: 2 <= k < |ops| ==>
                  ops[k] == DrawPolyline(cfg.bands + 1 - k, Slot(cfg, cfg.bands + 1 - k, cfg.historySize - 2),
                                         Band(cfg, pl, cfg.bands + 1 - k)[cfg.historySize - 2..])
    {
      var first := Slot(cfg, band, cfg.historySize - 2);
      ops := ops + [DrawPolyline(band, first, Band(cfg, pl, band)[cfg.historySize - 2..])];
      band := band - 1;
    }
  }

  /** The last two points of band `b` are the polyline entries at
      `(b+1)*H - 2` and `(b+1)*H - 1`. */
  lemma LastTwoPoints(cfg: Config, pl: seq<Point>, b: nat)
    requires cfg.Valid() && |pl| == cfg.Slots() && b < cfg.bands
    ensures 0 <= (b + 1) * cfg.historySize - 2 && (b + 1) * cfg.historySize - 1 < |pl|
    ensures Band(cfg, pl, b)[cfg.historySize - 2..] == [pl[(b + 1) * cfg.historySize - 2], pl[(b + 1) * cfg.historySize - 1]]
  {
    RowStartIsProduct(cfg, b);
    SlotInBand(cfg, b, cfg.historySize - 1);
  }

  /** The two halves of an incremental update fit together after a new
      frame: scrolling left by `px_per_frame` moves the old polyline's point
      for slot `x + 1` exactly onto the new polyline's point for slot `x`.
      So the segment drawn from the new last two points continues the
      scrolled picture of the old ones. */
  lemma ScrolledPointsMeetNew(cfg: Config, scale: seq<real>, h: seq<real>, s: seq<real>,
                              width: int, height: int, b: nat, x: int)
    requires cfg.Valid() && |scale| == cfg.bands && |h| == cfg.Slots()
    requires b < cfg.bands && 0 <= x < cfg.historySize - 1
    ensures var before := Polyline(cfg, h, width, height)[Slot(cfg, b, x + 1)];
            var after := Polyline(cfg, Advance(cfg, scale, h, s), width, height)[Slot(cfg, b, x)];
            && after.y == before.y
            && after.x == before.x - PxPerFrame(cfg, width) as real
  {
    var h' := Advance(cfg, scale, h, s);
    assert h'[Slot(cfg, b, x)] == h[Slot(cfg, b, x + 1)];
    PointShiftsLeft(cfg, h, h', width, height, b, x);
  }

  /** A slot holding its right neighbour's old magnitude is drawn one
      `px_per_frame` step to the left of where that neighbour was drawn. */
  lemma PointShiftsLeft(cfg: Config, h: seq<real>, h': seq<real>, width: int, height: int, b: nat, x: int)
    requires cfg.Valid() && |h| == cfg.Slots() && |h'| == cfg.Slots()
    requires b < cfg.bands && 0 <= x < cfg.historySize - 1
    requires h'[Slot(cfg, b, x)] == h[Slot(cfg, b, x + 1)]
    ensures Polyline(cfg, h', width, height)[Slot(cfg, b, x)].y == Polyline(cfg, h, width, height)[Slot(cfg, b, x + 1)].y
    ensures Polyline(cfg, h', width, height)[Slot(cfg, b, x)].x
              == Polyline(cfg, h, width, height)[Slot(cfg, b, x + 1)].x - PxPerFrame(cfg, width) as real
  {
    var px := PxPerFrame(cfg, width);
    assert px * (x + 1) == px * x + px;
  }

  /** The cache step of a paint: rebuild when the buffer is null, otherwise
      update incrementally. The choice depends on the buffer alone. A valid
      buffer stays valid; a null one becomes valid exactly when the widget
      has an area. */
  method CacheStep(cfg: Config, buffer: Buffer, pl: seq<Point>, width: int, height: int)
    returns (buffer': Buffer, ops: seq<Op>)
    requires cfg.Valid() && |pl| == cfg.Slots()
    ensures buffer.Null? ==> (buffer'.Pixmap? <==> width > 0 && height > 0)
    ensures buffer.Null? && buffer'.Pixmap? ==> buffer' == Pixmap(width, height)
    ensures buffer.Null? ==> IsFullRebuild(cfg, pl, ops)
    ensures buffer.Pixmap? ==> buffer' == buffer && IsIncremental(cfg, pl, PxPerFrame(cfg, width), buffer.width, height, ops)
  {
    if buffer.Null? {
      buffer', ops := FullRebuild(cfg, pl, width, height);
    } else {
      buffer' := buffer;
      ops := IncrementalUpdate(cfg, buffer, pl, width, height);
    }
  }
}
