/** The spectral history: `bands` rows of `H` magnitudes stored in one flat
    array, row `b` at [b*H, (b+1)*H). A new audio frame shifts every row left
    by one slot and appends that band's scaled sum of spectrum samples. */
module History {
  import opened Params

  /** `n` zero magnitudes: the history as the constructor clears it. */
  function Zeros(n: nat): (r: seq<real>)
    ensures |r| == n
    ensures forall i :: 0 <= i < n ==> r[i] == 0.0
  {
    seq(n, i => 0.0)
  }

  /** Sum of s[lo..hi], added up from left to right like the accumulator. */
  function Sum(s: seq<real>, lo: int, hi: int): real
    requires 0 <= lo <= hi <= |s|
    decreases hi - lo
  {
    if lo == hi then 0.0 else Sum(s, lo, hi - 1) + s[hi - 1]
  }

  /** Only the lower half of the transform is used. */
  function ScopeSize(n: nat): nat {
    n / 2
  }

  /** Size of each band's group of samples; the remainder is dropped. */
  function SamplesPerBand(cfg: Config, n: nat): nat
    requires cfg.Valid()
  {
    ScopeSize(n) / cfg.bands
  }

  /** Number of leading samples a frame of length `n` contributes at all. */
  function SamplesUsed(cfg: Config, n: nat): (used: nat)
    requires cfg.Valid()
    ensures used <= ScopeSize(n)
    ensures ScopeSize(n) - used < cfg.bands
  {
    var spb := SamplesPerBand(cfg, n);
    assert ScopeSize(n) == spb * cfg.bands + ScopeSize(n) % cfg.bands;
    spb * cfg.bands
  }

  /** Band `b`'s group [b*spb, (b+1)*spb) lies within the used samples. */
  lemma GroupInRange(cfg: Config, n: nat, b: int)
    requires cfg.Valid() && 0 <= b < cfg.bands
    ensures 0 <= b * SamplesPerBand(cfg, n)
    ensures (b + 1) * SamplesPerBand(cfg, n) <= SamplesUsed(cfg, n)
  {
    var spb := SamplesPerBand(cfg, n);
    MulMonotone(0, b, spb);
    MulMonotone(b + 1, cfg.bands, spb);
  }

  /** The value a frame appends to band `b`: its group's sum times the
      band's scale. An empty group contributes 0. */
  function BandValue(cfg: Config, scale: seq<real>, s: seq<real>, b: int): (v: real)
    requires cfg.Valid() && |scale| == cfg.bands && 0 <= b < cfg.bands
    ensures SamplesPerBand(cfg, |s|) == 0 ==> v == 0.0
  {
    var spb := SamplesPerBand(cfg, |s|);
    GroupInRange(cfg, |s|, b);
    assert spb == 0 ==> b * spb == (b + 1) * spb;
    Sum(s, b * spb, (b + 1) * spb) * scale[b]
  }

  /** Band `b`'s value depends on its own group of samples only: two frames
      of the same length that agree on [b*spb, (b+1)*spb) give it the same
      value, whatever the other bands' samples are. */
  lemma BandValueReadsOwnGroup(cfg: Config, scale: seq<real>, s1: seq<real>, s2: seq<real>, b: int)
    requires cfg.Valid() && |scale| == cfg.bands && 0 <= b < cfg.bands && |s1| == |s2|
    requires var spb := SamplesPerBand(cfg, |s1|);
             forall i :: b * spb <= i < (b + 1) * spb ==> 0 <= i < |s1| && s1[i] == s2[i]
    ensures BandValue(cfg, scale, s1, b) == BandValue(cfg, scale, s2, b)
  {
    var spb := SamplesPerBand(cfg, |s1|);
    GroupInRange(cfg, |s1|, b);
    SumCongruent(s1, s2, b * spb, (b + 1) * spb);
  }

  /** The new value of slot `x` of band `b`: its right neighbour's old value,
      or the band's new value for the last slot. */
  function NewSlot(cfg: Config, scale: seq<real>, h: seq<real>, s: seq<real>, b: int, x: int): real
    requires cfg.Valid() && |scale| == cfg.bands && |h| == cfg.Slots()
    requires 0 <= b < cfg.bands && 0 <= x < cfg.historySize
  {
    if x < cfg.historySize - 1 then h[Slot(cfg, b, x + 1)] else BandValue(cfg, scale, s, b)
  }

  /** Bands 0..n-1 of the new history, row after row: each row is the old
      row without its oldest slot, followed by the band's new value. */
  function AdvanceUpTo(cfg: Config, scale: seq<real>, h: seq<real>, s: seq<real>, n: nat): (r: seq<real>)
    requires cfg.Valid() && |scale| == cfg.bands && |h| == cfg.Slots() && n <= cfg.bands
    ensures |r| == RowStart(cfg, n)
  {
    if n == 0 then []
    else AdvanceUpTo(cfg, scale, h, s, n - 1) + (Band(cfg, h, n - 1)[1..] + [BandValue(cfg, scale, s, n - 1)])
  }

  /** The rows built so far hold, in every slot, the value `NewSlot` prescribes. */
  lemma {:induction false} AdvanceUpToAt(cfg: Config, scale: seq<real>, h: seq<real>, s: seq<real>, n: nat)
    requires cfg.Valid() && |scale| == cfg.bands && |h| == cfg.Slots() && n <= cfg.bands
    ensures forall b, x :: 0 <= b < n && 0 <= x < cfg.historySize ==>
              Slot(cfg, b, x) < RowStart(cfg, n) && AdvanceUpTo(cfg, scale, h, s, n)[Slot(cfg, b, x)] == NewSlot(cfg, scale, h, s, b, x)
  {
    if n > 0 {
      AdvanceUpToAt(cfg, scale, h, s, n - 1);
      var prefix := AdvanceUpTo(cfg, scale, h, s, n - 1);
      var r := AdvanceUpTo(cfg, scale, h, s, n);
      EarlierRowsKept(cfg, prefix, Band(cfg, h, n - 1)[1..] + [BandValue(cfg, scale, s, n - 1)], n - 1);
      NewRowAt(cfg, scale, h, s, n - 1, prefix, r);
    }
  }

  /** The row appended for band `b` holds `NewSlot`'s values. */
  lemma NewRowAt(cfg: Config, scale: seq<real>, h: seq<real>, s: seq<real>, b: nat, prefix: seq<real>, r: seq<real>)
    requires cfg.Valid() && |scale| == cfg.bands && |h| == cfg.Slots() && b < cfg.bands
    requires |prefix| == RowStart(cfg, b)
    requires r == prefix + (Band(cfg, h, b)[1..] + [BandValue(cfg, scale, s, b)])
    ensures forall x :: 0 <= x < cfg.historySize ==>
              Slot(cfg, b, x) < |r| && r[Slot(cfg, b, x)] == NewSlot(cfg, scale, h, s, b, x)
  {
    forall x | 0 <= x < cfg.historySize
      ensures Slot(cfg, b, x) < |r| && r[Slot(cfg, b, x)] == NewSlot(cfg, scale, h, s, b, x)
    {
      assert Slot(cfg, b, x) == |prefix| + x;
    }
  }

  /** Reference definition of one new frame: slot `x` of band `b` takes the
      old value of slot `x + 1`, and the last slot takes `BandValue(b)`. */
  function Advance(cfg: Config, scale: seq<real>, h: seq<real>, s: seq<real>): (r: seq<real>)
    requires cfg.Valid() && |scale| == cfg.bands && |h| == cfg.Slots()
    ensures |r| == |h|
    ensures forall b, x :: 0 <= b < cfg.bands && 0 <= x < cfg.historySize - 1 ==>
              r[Slot(cfg, b, x)] == h[Slot(cfg, b, x + 1)]
    ensures forall b :: 0 <= b < cfg.bands ==> r[LastSlot(cfg, b)] == BandValue(cfg, scale, s, b)
  {
    var r := AdvanceUpTo(cfg, scale, h, s, cfg.bands);
    AdvanceUpToAt(cfg, scale, h, s, cfg.bands);
    forall b | 0 <= b < cfg.bands
      ensures r[LastSlot(cfg, b)] == BandValue(cfg, scale, s, b)
    {
      assert r[Slot(cfg, b, cfg.historySize - 1)] == NewSlot(cfg, scale, h, s, b, cfg.historySize - 1);
    }
    r
  }

  /** `Advance` slot by slot, in (band, slot) coordinates. */
  lemma AdvanceAt(cfg: Config, scale: seq<real>, h: seq<real>, s: seq<real>, b: int, x: int)
    requires cfg.Valid() && |scale| == cfg.bands && |h| == cfg.Slots()
    requires 0 <= b < cfg.bands && 0 <= x < cfg.historySize
    ensures x < cfg.historySize - 1 ==> Advance(cfg, scale, h, s)[Slot(cfg, b, x)] == h[Slot(cfg, b, x + 1)]
    ensures x == cfg.historySize - 1 ==> Advance(cfg, scale, h, s)[Slot(cfg, b, x)] == BandValue(cfg, scale, s, b)
  {
    if x == cfg.historySize - 1 {
      assert Slot(cfg, b, x) == LastSlot(cfg, b);
    }
  }

  /** Each band's new row is its old row without the oldest slot, followed by
      the band's new value. Since every row is described, no band's update
      disturbs another band's slots. */
  lemma AdvanceRow(cfg: Config, scale: seq<real>, h: seq<real>, s: seq<real>, b: int)
    requires cfg.Valid() && |scale| == cfg.bands && |h| == cfg.Slots() && 0 <= b < cfg.bands
    ensures Band(cfg, Advance(cfg, scale, h, s), b) == Band(cfg, h, b)[1..] + [BandValue(cfg, scale, s, b)]
  {
    var r := Advance(cfg, scale, h, s);
    var lhs := Band(cfg, r, b);
    var rhs := Band(cfg, h, b)[1..] + [BandValue(cfg, scale, s, b)];
    forall x | 0 <= x < cfg.historySize
      ensures lhs[x] == rhs[x]
    {
      assert lhs[x] == r[Slot(cfg, b, x)];
      if x < cfg.historySize - 1 {
        assert rhs[x] == h[Slot(cfg, b, x + 1)];
      } else {
        assert Slot(cfg, b, x) == LastSlot(cfg, b);
      }
    }
    assert |lhs| == |rhs|;
  }

  /** A flat array with the slot values `Advance` prescribes is `Advance`'s result. */
  lemma AdvanceCharacterized(cfg: Config, scale: seq<real>, h: seq<real>, s: seq<real>, h': seq<real>)
    requires cfg.Valid() && |scale| == cfg.bands && |h| == cfg.Slots() && |h'| == |h|
    requires forall b, x :: 0 <= b < cfg.bands && 0 <= x < cfg.historySize - 1 ==>
               h'[Slot(cfg, b, x)] == h[Slot(cfg, b, x + 1)]
    requires forall b :: 0 <= b < cfg.bands ==>
               h'[LastSlot(cfg, b)] == BandValue(cfg, scale, s, b)
    ensures h' == Advance(cfg, scale, h, s)
  {
    var r := Advance(cfg, scale, h, s);
    forall b, x | 0 <= b < cfg.bands && 0 <= x < cfg.historySize
      ensures h'[Slot(cfg, b, x)] == r[Slot(cfg, b, x)]
    {
      AdvanceAt(cfg, scale, h, s, b, x);
    }
    SlotExtensionality(cfg, h', r);
  }

  /** One `memmove` of band `band`'s row: slots 0..H-2 take the values of
      slots 1..H-1; every other entry, the row's last slot included, stays. */
  method ShiftRow(cfg: Config, a: array<real>, band: int)
    requires cfg.Valid() && a.Length == cfg.Slots() && 0 <= band < cfg.bands
    modifies a
    ensures forall x :: 0 <= x < cfg.historySize - 1 ==> a[Slot(cfg, band, x)] == old(a[Slot(cfg, band, x + 1)])
    ensures forall i :: 0 <= i < a.Length && !(Slot(cfg, band, 0) <= i < LastSlot(cfg, band)) ==> a[i] == old(a[i])
  {
    SlotInBand(cfg, band, cfg.historySize - 1);
    var x := 0;
    while x < cfg.historySize - 1
      invariant 0 <= x <= cfg.historySize - 1
      invariant forall y :: 0 <= y < x ==> a[Slot(cfg, band, y)] == old(a[Slot(cfg, band, y + 1)])
      invariant forall i :: 0 <= i < a.Length && !(Slot(cfg, band, 0) <= i < Slot(cfg, band, x)) ==> a[i] == old(a[i])
    {
      a[Slot(cfg, band, x)] := a[Slot(cfg, band, x + 1)];
      x := x + 1;
    }
  }

  /** What the `memmove` pass leaves in slot `x` of band `b`: the old value
      of its right neighbour, or for the last slot its own old value. */
  function ShiftedSlot(cfg: Config, h: seq<real>, b: nat, x: int): real
    requires cfg.Valid() && |h| == cfg.Slots() && b < cfg.bands && 0 <= x < cfg.historySize
  {
    if x < cfg.historySize - 1 then h[Slot(cfg, b, x + 1)] else h[Slot(cfg, b, x)]
  }

  /** The rows before `band` are shifted and the rest is untouched. */
  ghost predicate ShiftedUpTo(cfg: Config, h: seq<real>, a: seq<real>, band: nat)
    requires cfg.Valid() && |h| == cfg.Slots() && |a| == |h| && band <= cfg.bands
  {
    && (forall b, x :: 0 <= b < band && 0 <= x < cfg.historySize ==> a[Slot(cfg, b, x)] == ShiftedSlot(cfg, h, b, x))
    && (forall i :: Slot(cfg, band, 0) <= i < |h| ==> a[i] == h[i])
  }

  /** One row's `memmove` extends the shifted prefix by that row. */
  lemma ShiftedUpToStep(cfg: Config, h: seq<real>, before: seq<real>, after: seq<real>, band: nat)
    requires cfg.Valid() && |h| == cfg.Slots() && |before| == |h| && |after| == |h| && band < cfg.bands
    requires ShiftedUpTo(cfg, h, before, band)
    requires forall x :: 0 <= x < cfg.historySize - 1 ==> after[Slot(cfg, band, x)] == before[Slot(cfg, band, x + 1)]
    requires forall i :: 0 <= i < |after| && !(Slot(cfg, band, 0) <= i < LastSlot(cfg, band)) ==> after[i] == before[i]
    ensures ShiftedUpTo(cfg, h, after, band + 1)
  {
    forall b, x | 0 <= b <= band && 0 <= x < cfg.historySize
      ensures after[Slot(cfg, b, x)] == ShiftedSlot(cfg, h, b, x)
    {
      if b < band {
        SlotOrder(cfg, b, x, band, 0);
        assert after[Slot(cfg, b, x)] == before[Slot(cfg, b, x)];
      } else if x < cfg.historySize - 1 {
        assert before[Slot(cfg, band, x + 1)] == h[Slot(cfg, band, x + 1)];
      } else {
        assert after[LastSlot(cfg, band)] == before[LastSlot(cfg, band)];
      }
    }
    assert Slot(cfg, band + 1, 0) == LastSlot(cfg, band) + 1;
  }

  /** The `memmove` pass: every row moves one slot to the left; the last
      slot of each row keeps its old value until it is overwritten. */
  method ShiftRows(cfg: Config, h: seq<real>) returns (h': seq<real>)
    requires cfg.Valid() && |h| == cfg.Slots()
    ensures |h'| == |h|
    ensures forall b, x :: 0 <= b < cfg.bands && 0 <= x < cfg.historySize - 1 ==>
              h'[Slot(cfg, b, x)] == h[Slot(cfg, b, x + 1)]
    ensures forall b :: 0 <= b < cfg.bands ==> h'[LastSlot(cfg, b)] == h[LastSlot(cfg, b)]
  {
    var a := new real[|h|](i requires 0 <= i < |h| => h[i]);
    var band := 0;
    while band < cfg.bands
      invariant 0 <= band <= cfg.bands
      invariant ShiftedUpTo(cfg, h, a[..], band)
    {
      ghost var before := a[..];
      ShiftRow(cfg, a, band);
      ShiftedUpToStep(cfg, h, before, a[..], band);
      band := band + 1;
    }
    h' := a[..];
    ShiftedAll(cfg, h, h');
  }

  /** Once every row is shifted, each slot holds its right neighbour's old
      value and each last slot its own old value. */
  lemma ShiftedAll(cfg: Config, h: seq<real>, a: seq<real>)
    requires cfg.Valid() && |h| == cfg.Slots() && |a| == |h|
    requires ShiftedUpTo(cfg, h, a, cfg.bands)
    ensures forall b, x :: 0 <= b < cfg.bands && 0 <= x < cfg.historySize - 1 ==>
              a[Slot(cfg, b, x)] == h[Slot(cfg, b, x + 1)]
    ensures forall b :: 0 <= b < cfg.bands ==> a[LastSlot(cfg, b)] == h[LastSlot(cfg, b)]
  {
    forall b, x | 0 <= b < cfg.bands && 0 <= x < cfg.historySize - 1
      ensures a[Slot(cfg, b, x)] == h[Slot(cfg, b, x + 1)]
    {
      assert a[Slot(cfg, b, x)] == ShiftedSlot(cfg, h, b, x);
    }
    forall b | 0 <= b < cfg.bands
      ensures a[LastSlot(cfg, b)] == h[LastSlot(cfg, b)]
    {
      assert a[Slot(cfg, b, cfg.historySize - 1)] == ShiftedSlot(cfg, h, b, cfg.historySize - 1);
    }
  }

  /** Adds up `count` samples from index `start` on, as the inner loop of the
      accumulation does with its running `sample` index. */
  method AccumulateGroup(s: seq<real>, start: nat, count: nat) returns (accumulator: real, next: nat)
    requires start + count <= |s|
    ensures accumulator == Sum(s, start, start + count)
    ensures next == start + count
  {
    accumulator := 0.0;
    next := start;
    var i := 0;
    while i < count
      invariant 0 <= i <= count
      invariant next == start + i
      invariant accumulator == Sum(s, start, next)
    {
      accumulator := accumulator + s[next];
      next := next + 1;
      i := i + 1;
    }
  }

  /** The new-frame branch of `analyze` as the source performs it: the
      `memmove` pass, then one accumulation pass over the samples whose
      running index carries over from band to band. */
  method AdvanceHistory(cfg: Config, scale: seq<real>, h: seq<real>, s: seq<real>) returns (h': seq<real>)
    requires cfg.Valid() && |scale| == cfg.bands && |h| == cfg.Slots()
    ensures h' == Advance(cfg, scale, h, s)
  {
    var shifted := ShiftRows(cfg, h);
    var a := new real[|h|](i requires 0 <= i < |h| => shifted[i]);
    var spb := SamplesPerBand(cfg, |s|);
    var sample := 0;
    var band := 0;
    while band < cfg.bands
      invariant 0 <= band <= cfg.bands
      invariant sample == band * spb
      invariant forall b, x :: 0 <= b < cfg.bands && 0 <= x < cfg.historySize - 1 ==>
                  a[Slot(cfg, b, x)] == h[Slot(cfg, b, x + 1)]
      invariant forall b :: 0 <= b < band ==> a[LastSlot(cfg, b)] == BandValue(cfg, scale, s, b)
    {
      GroupInRange(cfg, |s|, band);
      var accumulator;
      accumulator, sample := AccumulateGroup(s, sample, spb);
      forall b, x | 0 <= b < cfg.bands && 0 <= x < cfg.historySize && (b != band || x != cfg.historySize - 1)
        ensures Slot(cfg, b, x) != LastSlot(cfg, band)
      {
        if Slot(cfg, b, x) == LastSlot(cfg, band) {
          SlotUnique(cfg, b, x, band, cfg.historySize - 1);
        }
      }
      a[LastSlot(cfg, band)] := accumulator * scale[band];
      band := band + 1;
    }
    h' := a[..];
    AdvanceCharacterized(cfg, scale, h, s, h');
  }

  /** Sums over two sequences that agree on [lo, hi) are equal. */
  lemma {:induction false} SumCongruent(s1: seq<real>, s2: seq<real>, lo: int, hi: int)
    requires 0 <= lo <= hi <= |s1| && hi <= |s2|
    requires forall i :: lo <= i < hi ==> s1[i] == s2[i]
    ensures Sum(s1, lo, hi) == Sum(s2, lo, hi)
  {
    if lo < hi {
      SumCongruent(s1, s2, lo, hi - 1);
    }
  }

  /** A frame is read only in its first `SamplesUsed` samples: the upper half
      and the remainder that does not fill a whole group never influence the
      history. */
  lemma AdvanceReadsOnlyGroups(cfg: Config, scale: seq<real>, h: seq<real>, s1: seq<real>, s2: seq<real>)
    requires cfg.Valid() && |scale| == cfg.bands && |h| == cfg.Slots() && |s1| == |s2|
    requires forall i :: 0 <= i < SamplesUsed(cfg, |s1|) ==> s1[i] == s2[i]
    ensures Advance(cfg, scale, h, s1) == Advance(cfg, scale, h, s2)
  {
    var spb := SamplesPerBand(cfg, |s1|);
    forall b | 0 <= b < cfg.bands
      ensures BandValue(cfg, scale, s1, b) == BandValue(cfg, scale, s2, b)
    {
      GroupInRange(cfg, |s1|, b);
      BandValueReadsOwnGroup(cfg, scale, s1, s2, b);
    }
    var r1 := Advance(cfg, scale, h, s1);
    forall b, x | 0 <= b < cfg.bands && 0 <= x < cfg.historySize
      ensures x < cfg.historySize - 1 ==> r1[Slot(cfg, b, x)] == h[Slot(cfg, b, x + 1)]
      ensures x == cfg.historySize - 1 ==> r1[Slot(cfg, b, x)] == BandValue(cfg, scale, s2, b)
    {
      AdvanceAt(cfg, scale, h, s1, b, x);
    }
    AdvanceCharacterized(cfg, scale, h, s2, r1);
  }

  /** With fewer lower-half samples than bands every group is empty, so every
      band appends zero, whatever the samples are. */
  lemma DegenerateFrameAppendsZero(cfg: Config, scale: seq<real>, h: seq<real>, s: seq<real>, b: int)
    requires cfg.Valid() && |scale| == cfg.bands && |h| == cfg.Slots() && 0 <= b < cfg.bands
    requires ScopeSize(|s|) < cfg.bands
    ensures SamplesPerBand(cfg, |s|) == 0
    ensures Advance(cfg, scale, h, s)[LastSlot(cfg, b)] == 0.0
  {
    DivModUnique(ScopeSize(|s|), cfg.bands, 0, ScopeSize(|s|));
    assert b * 0 == 0 && (b + 1) * 0 == 0;
    AdvanceAt(cfg, scale, h, s, b, cfg.historySize - 1);
  }

  /** The history after feeding `frames`, one `Advance` each, to the
      zero-initialised history. */
  function Replay(cfg: Config, scale: seq<real>, frames: seq<seq<real>>): (h: seq<real>)
    requires cfg.Valid() && |scale| == cfg.bands
    ensures |h| == cfg.Slots()
  {
    if |frames| == 0 then Zeros(cfg.Slots())
    else Advance(cfg, scale, Replay(cfg, scale, frames[..|frames| - 1]), frames[|frames| - 1])
  }

  /** The values band `b` received, in arrival order. */
  function Arrivals(cfg: Config, scale: seq<real>, frames: seq<seq<real>>, b: int): (vs: seq<real>)
    requires cfg.Valid() && |scale| == cfg.bands && 0 <= b < cfg.bands
    ensures |vs| == |frames|
  {
    seq(|frames|, j requires 0 <= j < |frames| => BandValue(cfg, scale, frames[j], b))
  }

  /** The last `min(|vs|, n)` values of `vs` in order, right-aligned in `n`
      slots, with zeros to their left. */
  function Window(vs: seq<real>, n: nat): (w: seq<real>)
    ensures |w| == n
  {
    seq(n, x requires 0 <= x < n => if x >= n - |vs| then vs[|vs| - n + x] else 0.0)
  }

  /** Appending a value to the arrivals slides the window by one slot. */
  lemma WindowPush(vs: seq<real>, v: real, n: nat)
    requires n > 0
    ensures Window(vs + [v], n) == Window(vs, n)[1..] + [v]
  {
    var lhs, rhs := Window(vs + [v], n), Window(vs, n)[1..] + [v];
    forall x | 0 <= x < n
      ensures lhs[x] == rhs[x]
    {
      if x < n - 1 {
        assert rhs[x] == Window(vs, n)[x + 1];
      }
    }
  }

  /** One more frame slides every band's window by one slot. */
  lemma SlidingWindowStep(cfg: Config, scale: seq<real>, prefix: seq<seq<real>>, last: seq<real>, b: int)
    requires cfg.Valid() && |scale| == cfg.bands && 0 <= b < cfg.bands
    requires Band(cfg, Replay(cfg, scale, prefix), b) == Window(Arrivals(cfg, scale, prefix, b), cfg.historySize)
    ensures Band(cfg, Replay(cfg, scale, prefix + [last]), b)
              == Window(Arrivals(cfg, scale, prefix + [last], b), cfg.historySize)
  {
    var frames := prefix + [last];
    assert frames[..|frames| - 1] == prefix;
    var h := Replay(cfg, scale, prefix);
    assert Replay(cfg, scale, frames) == Advance(cfg, scale, h, last);
    AdvanceRow(cfg, scale, h, last, b);
    var v := BandValue(cfg, scale, last, b);
    assert Arrivals(cfg, scale, frames, b) == Arrivals(cfg, scale, prefix, b) + [v];
    WindowPush(Arrivals(cfg, scale, prefix, b), v, cfg.historySize);
  }

  /** Starting from the cleared history, after `k` frames every band's row
      holds its last `min(k, H)` values in arrival order, right-aligned, with
      zeros to the left. */
  lemma {:induction false} SlidingWindow(cfg: Config, scale: seq<real>, frames: seq<seq<real>>, b: int)
    requires cfg.Valid() && |scale| == cfg.bands && 0 <= b < cfg.bands
    ensures Band(cfg, Replay(cfg, scale, frames), b) == Window(Arrivals(cfg, scale, frames, b), cfg.historySize)
  {
    if |frames| == 0 {
      assert Band(cfg, Zeros(cfg.Slots()), b) == Window([], cfg.historySize);
    } else {
      var prefix := frames[..|frames| - 1];
      SlidingWindow(cfg, scale, prefix, b);
      SlidingWindowStep(cfg, scale, prefix, frames[|frames| - 1], b);
      assert prefix + [frames[|frames| - 1]] == frames;
    }
  }

  /** Two bands of four slots, unit scales, and four frames whose lower halves
      are [1, 0], [2, 0], [3, 0], [4, 0]: band 0 ends up holding 1, 2, 3, 4
      and band 1 stays all zero. */
  lemma FourFramesScenario()
    ensures var cfg := Config(2, 4, 1, 1, 0, 1);
            var frames := [[1.0, 0.0, 9.0, 9.0], [2.0, 0.0, 9.0, 9.0], [3.0, 0.0, 9.0, 9.0], [4.0, 0.0, 9.0, 9.0]];
            && Band(cfg, Replay(cfg, [1.0, 1.0], frames), 0) == [1.0, 2.0, 3.0, 4.0]
            && Band(cfg, Replay(cfg, [1.0, 1.0], frames), 1) == [0.0, 0.0, 0.0, 0.0]
  {
    var cfg := Config(2, 4, 1, 1, 0, 1);
    var scale := [1.0, 1.0];
    var frames := [[1.0, 0.0, 9.0, 9.0], [2.0, 0.0, 9.0, 9.0], [3.0, 0.0, 9.0, 9.0], [4.0, 0.0, 9.0, 9.0]];
    SlidingWindow(cfg, scale, frames, 0);
    SlidingWindow(cfg, scale, frames, 1);
    assert SamplesPerBand(cfg, 4) == 1;
    assert Arrivals(cfg, scale, frames, 0) == [1.0, 2.0, 3.0, 4.0];
    assert Arrivals(cfg, scale, frames, 1) == [0.0, 0.0, 0.0, 0.0];
  }
}
