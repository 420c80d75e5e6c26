/** The analyzer widget as a state record: the spectral history, the render
    cache, the sprite frame and the widget size, with the events that change
    them (construction, resize, timer, paint). */
module NyanCatAnalyzer {
  import opened Params
  import opened History
  import opened Geometry
  import opened Render
  import opened Sprite

  datatype State = State(history: seq<real>, buffer: Buffer, frame: int, width: int, height: int)

  /** What holds between events: the history has its fixed size, the sprite
      frame is a valid frame index, and a valid buffer has the widget's size,
      which therefore has an area (every resize nulls the buffer). */
  predicate Inv(cfg: Config, a: State)
    requires cfg.Valid()
  {
    && |a.history| == cfg.Slots()
    && 0 <= a.frame < cfg.catFrameCount
    && (a.buffer.Pixmap? ==> a.buffer == Pixmap(a.width, a.height) && a.width > 0 && a.height > 0)
  }

  /** The constructor: cleared history, frame 0, and a null buffer (a
      default-constructed pixmap), for a widget of the given size. */
  function Create(cfg: Config, width: int, height: int): (a: State)
    requires cfg.Valid()
    ensures Inv(cfg, a)
    ensures a.buffer.Null? && a.frame == 0
    ensures forall i :: 0 <= i < |a.history| ==> a.history[i] == 0.0
  {
    State(Zeros(cfg.Slots()), Null, 0, width, height)
  }

  /** `resizeEvent`: the widget takes its new size and the buffer is nulled,
      so the next paint rebuilds it; nothing else changes. */
  function Resize(cfg: Config, a: State, width: int, height: int): (a': State)
    requires cfg.Valid() && Inv(cfg, a)
    ensures Inv(cfg, a')
    ensures a'.buffer.Null?
    ensures a'.width == width && a'.height == height
    ensures a'.history == a.history && a'.frame == a.frame
  {
    a.(buffer := Null, width := width, height := height)
  }

  /** Which timer fired: the sprite's own, or one the base class handles. */
  datatype Timer = CatTimer | OtherTimer

  /** `timerEvent`: the sprite timer advances the frame by one, wrapping to 0
      after the last; any other timer leaves this state alone. */
  function TimerEvent(cfg: Config, a: State, t: Timer): (a': State)
    requires cfg.Valid() && Inv(cfg, a)
    ensures Inv(cfg, a')
    ensures t == CatTimer && a.frame < cfg.catFrameCount - 1 ==> a'.frame == a.frame + 1
    ensures t == CatTimer && a.frame == cfg.catFrameCount - 1 ==> a'.frame == 0
    ensures t == OtherTimer ==> a'.frame == a.frame
    ensures a'.history == a.history && a'.buffer == a.buffer && a'.width == a.width && a'.height == a.height
  {
    if t == CatTimer then a.(frame := Tick(cfg, a.frame)) else a
  }

  /** A command issued on the widget's own painter. */
  datatype PaintOp =
      /** Draw the buffer at the origin. */
    | DrawBuffer(buffer: Buffer)
      /** Draw sprite frame `frame` into `dest`. */
    | DrawCat(dest: Rect, frame: int)

  /** `analyze`: fold a new frame into the history if there is one, build
      the polyline, bring the buffer up to date, and draw buffer and cat.
      A null buffer is rebuilt in full; a valid buffer is scrolled and
      appended to on every paint, whether or not a new frame arrived. A
      widget without area keeps a null buffer, so each of its paints
      rebuilds in full. */
  method Analyze(cfg: Config, scale: seq<real>, a: State, s: seq<real>, newFrame: bool)
    returns (a': State, cacheOps: seq<Op>, paintOps: seq<PaintOp>)
    requires cfg.Valid() && |scale| == cfg.bands && Inv(cfg, a)
    ensures Inv(cfg, a')
    ensures newFrame ==> a'.history == Advance(cfg, scale, a.history, s)
    ensures !newFrame ==> a'.history == a.history
    ensures a'.buffer.Pixmap? <==> a.width > 0 && a.height > 0
    ensures a.buffer.Pixmap? ==> a'.buffer == a.buffer
    ensures a'.frame == a.frame && a'.width == a.width && a'.height == a.height
    ensures a.buffer.Null? ==>
              IsFullRebuild(cfg, Polyline(cfg, a'.history, a.width, a.height), cacheOps)
    ensures a.buffer.Pixmap? ==>
              IsIncremental(cfg, Polyline(cfg, a'.history, a.width, a.height),
                            PxPerFrame(cfg, a.width), a.width, a.height, cacheOps)
    ensures paintOps == [DrawBuffer(a'.buffer), DrawCat(CatDest(cfg, a.width, a.height), a.frame)]
  {
    var history := a.history;
    if newFrame {
      history := AdvanceHistory(cfg, scale, history, s);
    }
    var pl := BuildPolyline(cfg, history, a.width, a.height);
    var buffer;
    buffer, cacheOps := CacheStep(cfg, a.buffer, pl, a.width, a.height);
    a' := a.(history := history, buffer := buffer);
    paintOps := [DrawBuffer(buffer), DrawCat(CatDest(cfg, a.width, a.height), a.frame)];
  }
}
