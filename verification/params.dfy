/** The compile-time constants of the nyan cat analyzer, and the index
    arithmetic of its flat band-by-slot layout (used both by the spectral
    history and by the polyline built from it). */
module Params {

  /** The header constants kRainbowBands, kHistorySize, kCatWidth,
      kCatHeight, kRainbowOverlap and kCatFrameCount, taken as parameters. */
  datatype Config = Config(
    bands: int,
    historySize: int,
    catWidth: int,
    catHeight: int,
    rainbowOverlap: int,
    catFrameCount: int)
  {
    /** Positive sizes. The incremental repaint draws the last two slots of
        every band, so a band needs at least two slots of history. */
    predicate Valid() {
      && bands > 0
      && historySize >= 2
      && catWidth > 0
      && catHeight > 0
      && catFrameCount > 0
    }

    /** Length of the flat history array and of the flat polyline. */
    function Slots(): int
      requires Valid()
    {
      RowStart(this, bands)
    }
  }

  /** kPixelScale: converts a history magnitude into a vertical pixel offset. */
  const PixelScale: real := 0.02

  /** Flat index of band `b`'s first slot, `b * H`, written as repeated
      addition so that the verifier reasons about rows without nonlinear
      arithmetic (`RowStartIsProduct` relates the two). */
  function RowStart(cfg: Config, b: nat): nat
    requires cfg.Valid()
  {
    if b == 0 then 0 else RowStart(cfg, b - 1) + cfg.historySize
  }

  /** Flat index of slot `x` of band `b`: band `b` owns [b*H, (b+1)*H). */
  function Slot(cfg: Config, b: nat, x: int): (i: int)
    requires cfg.Valid()
    ensures b < cfg.bands && 0 <= x < cfg.historySize ==> 0 <= i < cfg.Slots()
  {
    // Both branches give the same index; the first also proves the range.
    if b < cfg.bands then
      RowStartMonotone(cfg, b + 1, cfg.bands);
      MulMonotone(0, cfg.bands - b - 1, cfg.historySize);
      RowStart(cfg, b) + x
    else
      RowStart(cfg, b) + x
  }

  /** Flat index of band `b`'s newest (rightmost) slot. */
  function LastSlot(cfg: Config, b: nat): int
    requires cfg.Valid()
  {
    Slot(cfg, b, cfg.historySize - 1)
  }

  /** The `H` consecutive entries that belong to band `b`. */
  function Band<T>(cfg: Config, xs: seq<T>, b: int): (r: seq<T>)
    requires cfg.Valid() && |xs| == cfg.Slots() && 0 <= b < cfg.bands
    ensures |r| == cfg.historySize
    ensures forall x :: 0 <= x < cfg.historySize ==> r[x] == xs[Slot(cfg, b, x)]
  {
    seq(cfg.historySize, x requires 0 <= x < cfg.historySize =>
      SlotInBand(cfg, b, x); xs[Slot(cfg, b, x)])
  }

  lemma MulMonotone(a: int, b: int, c: int)
    requires a <= b && c >= 0
    ensures a * c <= b * c
  {
    assert b * c - a * c == (b - a) * c;
  }

  /** Quotient and remainder are the only such pair. */
  lemma DivModUnique(n: int, d: int, q: int, r: int)
    requires d > 0 && n == q * d + r && 0 <= r < d
    ensures n / d == q && n % d == r
  {
    var q', r' := n / d, n % d;
    assert n == q' * d + r';
    if q' < q {
      MulMonotone(q' + 1, q, d);
    } else if q < q' {
      MulMonotone(q + 1, q', d);
    }
  }

  /** `RowStart(b)` is `b * H`. */
  lemma {:induction false} RowStartIsProduct(cfg: Config, b: nat)
    requires cfg.Valid()
    ensures RowStart(cfg, b) == b * cfg.historySize
  {
    if b > 0 {
      RowStartIsProduct(cfg, b - 1);
    }
  }

  /** Rows are laid out one after the other: a later row starts at least a
      whole row after an earlier one. */
  lemma {:induction false} RowStartMonotone(cfg: Config, b1: nat, b2: nat)
    requires cfg.Valid() && b1 <= b2
    ensures RowStart(cfg, b1) + (b2 - b1) * cfg.historySize == RowStart(cfg, b2)
  {
    if b1 < b2 {
      RowStartMonotone(cfg, b1, b2 - 1);
    }
  }

  /** Slot `x` of band `b` lies in band `b`'s range, and that range lies in
      the flat array. */
  lemma SlotInBand(cfg: Config, b: nat, x: int)
    requires cfg.Valid() && b < cfg.bands && 0 <= x < cfg.historySize
    ensures Slot(cfg, b, 0) <= Slot(cfg, b, x) < Slot(cfg, b + 1, 0) <= cfg.Slots()
  {
    RowStartMonotone(cfg, b + 1, cfg.bands);
    MulMonotone(0, cfg.bands - b - 1, cfg.historySize);
  }

  /** Every slot of an earlier band precedes every slot of a later band. */
  lemma SlotOrder(cfg: Config, b1: nat, x1: int, b2: nat, x2: int)
    requires cfg.Valid() && b1 < b2 && x1 < cfg.historySize && 0 <= x2
    ensures Slot(cfg, b1, x1) < Slot(cfg, b2, x2)
  {
    RowStartMonotone(cfg, b1 + 1, b2);
    MulMonotone(0, b2 - b1 - 1, cfg.historySize);
  }

  /** Appending a row after the first `n` rows leaves their slots alone. */
  lemma EarlierRowsKept<T>(cfg: Config, prefix: seq<T>, row: seq<T>, n: nat)
    requires cfg.Valid() && |prefix| == RowStart(cfg, n)
    ensures forall b, x :: 0 <= b < n && 0 <= x < cfg.historySize ==>
              Slot(cfg, b, x) < |prefix| && (prefix + row)[Slot(cfg, b, x)] == prefix[Slot(cfg, b, x)]
  {
    forall b, x | 0 <= b < n && 0 <= x < cfg.historySize
      ensures Slot(cfg, b, x) < |prefix|
    {
      SlotOrder(cfg, b, x, n, 0);
    }
  }

  /** Slot numbers are a bijection between (band, slot) pairs and flat indices. */
  lemma SlotUnique(cfg: Config, b1: nat, x1: int, b2: nat, x2: int)
    requires cfg.Valid()
    requires 0 <= x1 < cfg.historySize && 0 <= x2 < cfg.historySize
    requires Slot(cfg, b1, x1) == Slot(cfg, b2, x2)
    ensures b1 == b2 && x1 == x2
  {
    if b1 < b2 {
      SlotOrder(cfg, b1, x1, b2, x2);
    } else if b2 < b1 {
      SlotOrder(cfg, b2, x2, b1, x1);
    }
  }

  /** Band and slot of a flat index are its quotient and remainder by H. */
  lemma SlotOfIndex(cfg: Config, i: int)
    requires cfg.Valid() && 0 <= i < cfg.Slots()
    ensures 0 <= i / cfg.historySize < cfg.bands
    ensures 0 <= i % cfg.historySize < cfg.historySize
    ensures Slot(cfg, i / cfg.historySize, i % cfg.historySize) == i
  {
    var q, r := i / cfg.historySize, i % cfg.historySize;
    assert i == q * cfg.historySize + r;
    RowStartIsProduct(cfg, cfg.bands);
    if q >= cfg.bands {
      MulMonotone(cfg.bands, q, cfg.historySize);
    }
    if q < 0 {
      MulMonotone(q + 1, 0, cfg.historySize);
    }
    RowStartIsProduct(cfg, q);
  }

  /** Quotient and remainder of a slot number recover its band and slot. */
  lemma SlotDivMod(cfg: Config, b: nat, x: int)
    requires cfg.Valid() && b < cfg.bands && 0 <= x < cfg.historySize
    ensures Slot(cfg, b, x) / cfg.historySize == b
    ensures Slot(cfg, b, x) % cfg.historySize == x
  {
    SlotInBand(cfg, b, x);
    var i := Slot(cfg, b, x);
    SlotOfIndex(cfg, i);
    SlotUnique(cfg, i / cfg.historySize, i % cfg.historySize, b, x);
  }

  /** Two flat arrays that agree on every (band, slot) pair are equal. */
  lemma SlotExtensionality<T>(cfg: Config, xs: seq<T>, ys: seq<T>)
    requires cfg.Valid() && |xs| == cfg.Slots() && |ys| == cfg.Slots()
    requires forall b, x :: 0 <= b < cfg.bands && 0 <= x < cfg.historySize ==>
               xs[Slot(cfg, b, x)] == ys[Slot(cfg, b, x)]
    ensures xs == ys
  {
    forall i | 0 <= i < |xs|
      ensures xs[i] == ys[i]
    {
      SlotOfIndex(cfg, i);
      var b, x := i / cfg.historySize, i % cfg.historySize;
      assert xs[Slot(cfg, b, x)] == ys[Slot(cfg, b, x)];
    }
  }

  /** Integer quotient rounded toward zero, as C++ integer division and the
      float-to-int conversion do (Dafny's `/` rounds down instead). */
  function TruncDiv(n: int, d: int): int
    requires d > 0
  {
    if n >= 0 then n / d else -((-n) / d)
  }

  /** The truncated quotient is the multiple of `d` nearest to `n` on the side
      of zero, and has the sign of `n`. */
  lemma TruncDivBounds(n: int, d: int)
    requires d > 0
    ensures n >= 0 ==> 0 <= TruncDiv(n, d) && TruncDiv(n, d) * d <= n < TruncDiv(n, d) * d + d
    ensures n < 0 ==> TruncDiv(n, d) <= 0 && TruncDiv(n, d) * d - d < n <= TruncDiv(n, d) * d
  {
    if n < 0 {
      var m, r := (-n) / d, (-n) % d;
      assert -n == m * d + r && 0 <= r < d;
      assert TruncDiv(n, d) * d == -(m * d);
    } else {
      var m, r := n / d, n % d;
      assert n == m * d + r && 0 <= r < d;
      if m < 0 {
        MulMonotone(m, -1, d);
      }
    }
  }

  /** Remainder of `TruncDiv`, as C++ `%` computes it (its sign follows `n`). */
  function TruncMod(n: int, d: int): int
    requires d > 0
  {
    n - TruncDiv(n, d) * d
  }
}
