/** The cat sprite: its animation frame counter and where it is drawn. */
module Sprite {
  import opened Params

  /** The counter step of `timerEvent` for the sprite's own timer:
      `frame_ = (frame_ + 1) % kCatFrameCount`, with C++'s remainder. */
  function Tick(cfg: Config, frame: int): (next: int)
    requires cfg.Valid()
    ensures 0 <= frame ==> 0 <= next < cfg.catFrameCount
    ensures 0 <= frame < cfg.catFrameCount - 1 ==> next == frame + 1
    ensures frame == cfg.catFrameCount - 1 ==> next == 0
  {
    TruncDivBounds(frame + 1, cfg.catFrameCount);
    TruncMod(frame + 1, cfg.catFrameCount)
  }

  /** The frame shown after `n` ticks of the sprite timer from frame 0. */
  function FrameAfter(cfg: Config, n: nat): int
    requires cfg.Valid()
  {
    if n == 0 then 0 else Tick(cfg, FrameAfter(cfg, n - 1))
  }

  /** Counting up by one modulo `c` steps the remainder the way `Tick` does. */
  lemma TickIsSuccessorModulo(cfg: Config, n: nat)
    requires cfg.Valid() && n > 0
    ensures Tick(cfg, (n - 1) % cfg.catFrameCount) == n % cfg.catFrameCount
  {
    var c := cfg.catFrameCount;
    var q, p := (n - 1) / c, (n - 1) % c;
    assert n - 1 == q * c + p;
    if p < c - 1 {
      DivModUnique(n, c, q, p + 1);
    } else {
      assert (q + 1) * c == q * c + c;
      DivModUnique(n, c, q + 1, 0);
    }
  }

  /** The counter is a free-running clock modulo the frame count. */
  lemma {:induction false} FrameAfterIsModulo(cfg: Config, n: nat)
    requires cfg.Valid()
    ensures FrameAfter(cfg, n) == n % cfg.catFrameCount
  {
    if n > 0 {
      FrameAfterIsModulo(cfg, n - 1);
      TickIsSuccessorModulo(cfg, n);
    }
  }

  datatype Rect = Rect(x: int, y: int, w: int, h: int)

  /** `cat_dest`: the sprite's rectangle, flush with the widget's right edge
      and centred vertically, `(height - kCatHeight) / 2` rounding toward zero. */
  function CatDest(cfg: Config, width: int, height: int): (r: Rect)
    requires cfg.Valid()
    ensures r.w == cfg.catWidth && r.h == cfg.catHeight
    ensures r.x + r.w == width
    ensures height >= cfg.catHeight ==> 0 <= (height - (r.y + r.h)) - r.y <= 1
    ensures height < cfg.catHeight ==> -1 <= (height - (r.y + r.h)) - r.y <= 0
  {
    TruncDivBounds(height - cfg.catHeight, 2);
    Rect(width - cfg.catWidth, TruncDiv(height - cfg.catHeight, 2), cfg.catWidth, cfg.catHeight)
  }
}
