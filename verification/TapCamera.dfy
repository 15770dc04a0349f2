/**
 The trackball camera: gestures and the orientation they build up.  The library functions are
 parameters; translation is left aside.
 */
module TapCamera {
  import opened VecMath

  const BALL_RADIUS := 0.75
  const MOMENTUM_FACTOR_DECREASE := 0.85
  const MOMENTUM_FACTOR := 0.8
  const MOMENTUM_FACTOR_THRESHOLD := 0.001

  /** sqrtf, sinf, cosf and atan2f. */
  datatype Libm = Libm(sqrt: real -> real, sin: real -> real, cos: real -> real, atan2: (real, real) -> real)

  ghost predicate Exact(m: Libm) {
    && (forall x :: x >= 0.0 ==> m.sqrt(x) * m.sqrt(x) == x)
    && (forall x :: m.sin(x) * m.sin(x) + m.cos(x) * m.cos(x) == 1.0)
  }

  // ----- the state

  /** The orientation, the one the gesture started from, and the turn of a pinch. */
  datatype Ball = Ball(now: Quaternion, down: Quaternion, rot: Quaternion)

  /** What the fingers do. */
  datatype Gesture = Gesture(dragging: bool, pinching: bool, momentum: bool,
                             ballNow: Vec2, ballDown: Vec2, dragDelta: Vec2, lastInput: Vec2, steps: real)

  datatype Angles = Angles(total: real, start: real, now: real)

  datatype Camera = Camera(ball: Ball, g: Gesture, angles: Angles, flip: Vec2)

  const INITIAL := Camera(Ball(IDENTITY, IDENTITY, IDENTITY),
                          Gesture(false, false, false, ZERO, ZERO, ZERO, ZERO, 0.0), Angles(0.0, 0.0, 0.0), ZERO)

  // ----- the calls

  function InitParameters(c: Camera): Camera {
    c.(ball := Ball(IDENTITY, c.ball.down, IDENTITY),
       g := c.g.(dragDelta := ZERO, momentum := false),
       angles := c.angles.(total := 0.0))
  }

  function EndDrag(c: Camera): Camera {
    c.(ball := Ball(c.ball.now, c.ball.now, IDENTITY),
       g := c.g.(dragging := false, momentum := true, steps := 1.0))
  }

  function EndPinch(c: Camera): Camera {
    EndDrag(c.(g := c.g.(pinching := false), angles := c.angles.(total := c.angles.total + c.angles.now, now := 0.0)))
  }

  /** A gesture under way is ended before the next begins. */
  function EndGesture(c: Camera): Camera {
    var c' := if c.g.dragging then EndDrag(c) else c;
    if c'.g.pinching then EndPinch(c') else c'
  }

  function BeginDrag(c: Camera, v: Vec2): Camera {
    var c' := EndGesture(c);
    var at := Times2(v, c'.flip);
    c'.(g := c'.g.(dragging := true, momentum := false, ballNow := at, ballDown := at, lastInput := at,
                   dragDelta := ZERO))
  }

  function Drag(c: Camera, v: Vec2): Camera {
    if !c.g.dragging then c
    else
      var at := Times2(v, c.flip);
      c.(g := c.g.(ballNow := at, lastInput := at,
                   dragDelta := Plus2(Scale2(c.g.dragDelta, MOMENTUM_FACTOR), Minus2(at, c.g.lastInput))))
  }

  function BeginPinch(m: Libm, c: Camera, v1: Vec2, v2: Vec2): Camera {
    var c' := BeginDrag(EndGesture(c), ZERO);
    var d := Minus2(v1, v2);
    c'.(g := c'.g.(pinching := true, momentum := false), angles := c'.angles.(start := m.atan2(d.y, d.x), now := 0.0))
  }

  function Pinch(m: Libm, c: Camera, v1: Vec2, v2: Vec2): Camera {
    if !c.g.pinching then c
    else
      var d := Minus2(v1, v2);
      var turn := m.atan2(d.y, d.x) - c.angles.start;
      c.(angles := c.angles.(now := turn),
         ball := c.ball.(rot := Quaternion(0.0, 0.0, m.sin(-turn * 0.5), m.cos(-turn * 0.5))))
  }

  /** The point of the unit sphere under a point of the screen. */
  function PointOnSphere(m: Libm, point: Vec2): Vec3
    requires Exact(m)
  {
    var v := Vec2(point.x / BALL_RADIUS, point.y / BALL_RADIUS);
    var mag := Dot2(v, v);
    if mag > 1.0 then
      assert m.sqrt(mag) * m.sqrt(mag) == mag;
      var scale := 1.0 / m.sqrt(mag);
      Vec3(v.x * scale, v.y * scale, 0.0)
    else Vec3(v.x, v.y, m.sqrt(1.0 - mag))
  }

  function BallUpdate(m: Libm, c: Camera): Camera
    requires Exact(m)
  {
    if !c.g.dragging then c
    else
      var drag := Between(PointOnSphere(m, c.g.ballDown), PointOnSphere(m, c.g.ballNow));
      c.(ball := c.ball.(now := Times(c.ball.rot, Times(drag, c.ball.down))))
  }

  function Update(m: Libm, c: Camera): Camera
    requires Exact(m)
  {
    if c.g.momentum then
      var v := c.g.dragDelta;
      var c' := EndDrag(BallUpdate(m, Drag(BeginDrag(c, ZERO), Times2(v, c.flip))));
      var steps := c.g.steps * MOMENTUM_FACTOR_DECREASE;
      c'.(g := c'.g.(dragDelta := Scale2(v, MOMENTUM_FACTOR_DECREASE), steps := steps,
                     momentum := steps >= MOMENTUM_FACTOR_THRESHOLD))
    else BallUpdate(m, c.(g := c.g.(dragDelta := Scale2(c.g.dragDelta, MOMENTUM_FACTOR))))
  }

  function Reset(m: Libm, c: Camera): Camera
    requires Exact(m)
  {
    Update(m, InitParameters(c))
  }

  datatype Call =
    | CallBeginDrag(v: Vec2)
    | CallDrag(v: Vec2)
    | CallEndDrag
    | CallBeginPinch(v1: Vec2, v2: Vec2)
    | CallPinch(v1: Vec2, v2: Vec2)
    | CallEndPinch
    | CallUpdate
    | CallReset
    | CallSetFlip(x: real, y: real)

  function Apply(m: Libm, c: Camera, call: Call): Camera
    requires Exact(m)
  {
    match call
    case CallBeginDrag(v) => BeginDrag(c, v)
    case CallDrag(v) => Drag(c, v)
    case CallEndDrag => EndDrag(c)
    case CallBeginPinch(v1, v2) => BeginPinch(m, c, v1, v2)
    case CallPinch(v1, v2) => Pinch(m, c, v1, v2)
    case CallEndPinch => EndPinch(c)
    case CallUpdate => Update(m, c)
    case CallReset => Reset(m, c)
    case CallSetFlip(x, y) => c.(flip := Vec2(x, y))
  }

  function Run(m: Libm, calls: seq<Call>): Camera
    requires Exact(m)
  {
    if calls == [] then INITIAL else Apply(m, Run(m, calls[..|calls| - 1]), calls[|calls| - 1])
  }

  // ----- unit length

  predicate UnitBall(b: Ball) {
    Unit(b.now) && Unit(b.down) && Unit(b.rot)
  }

  lemma ScaledToOne(x: real, y: real, r: real)
    requires r * r == x * x + y * y && r != 0.0
    ensures Dot(Vec3(x * (1.0 / r), y * (1.0 / r), 0.0), Vec3(x * (1.0 / r), y * (1.0 / r), 0.0)) == 1.0
  {
    var s := 1.0 / r;
    assert s * r == 1.0;
    assert (x * s) * (x * s) + (y * s) * (y * s) == (s * s) * (x * x + y * y);
    assert (s * s) * (r * r) == (s * r) * (s * r);
  }

  lemma OnSphere(m: Libm, point: Vec2)
    requires Exact(m)
    ensures var p := PointOnSphere(m, point); Dot(p, p) == 1.0
  {
    var v := Vec2(point.x / BALL_RADIUS, point.y / BALL_RADIUS);
    var mag := Dot2(v, v);
    if mag > 1.0 {
      assert m.sqrt(mag) * m.sqrt(mag) == mag;
      ScaledToOne(v.x, v.y, m.sqrt(mag));
    } else {
      assert m.sqrt(1.0 - mag) * m.sqrt(1.0 - mag) == 1.0 - mag;
    }
  }

  lemma UpdateUnit(m: Libm, c: Camera)
    requires Exact(m) && UnitBall(c.ball)
    ensures UnitBall(BallUpdate(m, c).ball)
  {
    if c.g.dragging {
      var from, to := PointOnSphere(m, c.g.ballDown), PointOnSphere(m, c.g.ballNow);
      OnSphere(m, c.g.ballDown);
      OnSphere(m, c.g.ballNow);
      UnitBetween(from, to);
      UnitTimes(Between(from, to), c.ball.down);
      UnitTimes(c.ball.rot, Times(Between(from, to), c.ball.down));
    }
  }

  lemma ApplyUnit(m: Libm, c: Camera, call: Call)
    requires Exact(m) && UnitBall(c.ball)
    ensures UnitBall(Apply(m, c, call).ball)
  {
    match call
    case CallPinch(v1, v2) =>
      if c.g.pinching {
        var turn := Pinch(m, c, v1, v2).angles.now;
        assert m.sin(-turn * 0.5) * m.sin(-turn * 0.5) + m.cos(-turn * 0.5) * m.cos(-turn * 0.5) == 1.0;
      }
    case CallUpdate => UpdateCallUnit(m, c);
    case CallReset => UpdateCallUnit(m, InitParameters(c));
    case _ =>
  }

  lemma UpdateCallUnit(m: Libm, c: Camera)
    requires Exact(m) && UnitBall(c.ball)
    ensures UnitBall(Update(m, c).ball)
  {
    if c.g.momentum {
      MomentumUnit(m, c);
    } else {
      UpdateUnit(m, c.(g := c.g.(dragDelta := Scale2(c.g.dragDelta, MOMENTUM_FACTOR))));
    }
  }

  lemma MomentumUnit(m: Libm, c: Camera)
    requires Exact(m) && UnitBall(c.ball) && c.g.momentum
    ensures UnitBall(Update(m, c).ball)
  {
    var c' := Drag(BeginDrag(c, ZERO), Times2(c.g.dragDelta, c.flip));
    BeginDragUnit(c);
    UpdateUnit(m, c');
    EndDragUnit(BallUpdate(m, c'));
    assert Update(m, c).ball == EndDrag(BallUpdate(m, c')).ball;
  }

  lemma BeginDragUnit(c: Camera)
    requires UnitBall(c.ball)
    ensures UnitBall(BeginDrag(c, ZERO).ball)
  {
  }

  lemma EndDragUnit(c: Camera)
    requires UnitBall(c.ball)
    ensures UnitBall(EndDrag(c).ball)
  {
  }

  lemma {:induction false} RunUnit(m: Libm, calls: seq<Call>)
    requires Exact(m)
    ensures UnitBall(Run(m, calls).ball)
    decreases |calls|
  {
    if calls != [] {
      RunUnit(m, calls[..|calls| - 1]);
      ApplyUnit(m, Run(m, calls[..|calls| - 1]), calls[|calls| - 1]);
    }
  }

  /** After any calls the matrix shown is a rotation. */
  lemma RunRotates(m: Libm, calls: seq<Call>)
    requires Exact(m)
    ensures Rotation(BlockOf(Matrix(Run(m, calls).ball.now)))
  {
    RunUnit(m, calls);
    MatrixRotates(Run(m, calls).ball.now);
  }

  // ----- where a drag starts

  /** Only a pinch under way turns the ball about the line of sight. */
  predicate Idle(c: Camera) {
    c.g.pinching || c.ball.rot == IDENTITY
  }

  lemma {:induction false} RunIdle(m: Libm, calls: seq<Call>)
    requires Exact(m)
    ensures Idle(Run(m, calls))
    decreases |calls|
  {
    if calls != [] {
      RunIdle(m, calls[..|calls| - 1]);
    }
  }

  /** Between gestures the next one would start from the orientation shown. */
  predicate Settled(c: Camera) {
    c.g.dragging || c.ball.down == c.ball.now
  }

  lemma {:induction false} RunSettled(m: Libm, calls: seq<Call>)
    requires Exact(m) && CallReset !in calls
    ensures Settled(Run(m, calls))
    decreases |calls|
  {
    if calls != [] {
      RunSettled(m, calls[..|calls| - 1]);
    }
  }

  /** The orientation a new drag starts from: that of the gesture it ends, or else the last one ended. */
  lemma DragStarts(m: Libm, c: Camera, v: Vec2)
    requires Exact(m) && Idle(c)
    ensures Update(m, BeginDrag(c, v)).ball.now == if c.g.dragging || c.g.pinching then c.ball.now else c.ball.down
  {
    var c' := BeginDrag(c, v);
    var p := PointOnSphere(m, c'.g.ballDown);
    OnSphere(m, c'.g.ballDown);
    BetweenSame(p);
    TimesIdentity(c'.ball.down);
  }

  lemma RunTwo(m: Libm, calls: seq<Call>, a: Call, b: Call)
    requires Exact(m)
    ensures Run(m, calls + [a, b]) == Apply(m, Apply(m, Run(m, calls), a), b)
  {
    var all := calls + [a, b];
    assert all[..|all| - 1] == calls + [a] && (calls + [a])[..|calls|] == calls;
  }

  /** Reset forgets the orientation only until the next drag, which goes back to the old one. */
  lemma ResetIsUndone(m: Libm, calls: seq<Call>, v: Vec2)
    requires Exact(m) && !Run(m, calls).g.dragging && !Run(m, calls).g.pinching
    ensures Run(m, calls + [CallReset]).ball.now == IDENTITY
    ensures Run(m, calls + [CallReset] + [CallBeginDrag(v), CallUpdate]).ball.now == Run(m, calls).ball.down
  {
    assert (calls + [CallReset])[..|calls|] == calls;
    RunIdle(m, calls + [CallReset]);
    DragStarts(m, Run(m, calls + [CallReset]), v);
    RunTwo(m, calls + [CallReset], CallBeginDrag(v), CallUpdate);
  }

  lemma RunSnoc(m: Libm, calls: seq<Call>, a: Call)
    requires Exact(m)
    ensures Run(m, calls + [a]) == Apply(m, Run(m, calls), a)
  {
    assert (calls + [a])[..|calls|] == calls;
  }

  /** A quarter of the ball away from the identity. */
  lemma AwayUpdate(m: Libm, c: Camera)
    requires Exact(m) && c.g.dragging && c.ball == Ball(IDENTITY, IDENTITY, IDENTITY)
    requires c.g.ballDown == ZERO && c.g.ballNow == Vec2(0.75, 0.0)
    ensures BallUpdate(m, c).ball.now.w == 0.0
  {
    var from, to := PointOnSphere(m, c.g.ballDown), PointOnSphere(m, c.g.ballNow);
    assert from.x == 0.0 && from.y == 0.0 && to.x == 1.0 && to.y == 0.0;
    assert m.sqrt(0.0) * m.sqrt(0.0) == 0.0;
    assert to.z == 0.0;
    assert Between(from, to).w == 0.0;
  }

  lemma DragPlaces(c: Camera, v: Vec2, w: Vec2)
    requires !c.g.dragging && !c.g.pinching
    ensures var s := Drag(BeginDrag(c, v), w);
      && s.g.dragging && !s.g.momentum && !s.g.pinching && s.ball == c.ball
      && s.g.ballDown == Times2(v, c.flip) && s.g.ballNow == Times2(w, c.flip)
  {
  }

  /** Pressed in the middle, dragged to the edge. */
  predicate AtTheEdge(c: Camera) {
    && c.g.dragging && !c.g.momentum && !c.g.pinching && c.ball == Ball(IDENTITY, IDENTITY, IDENTITY)
    && c.g.ballDown == ZERO && c.g.ballNow == Vec2(0.75, 0.0)
  }

  lemma AwayEnds(m: Libm, c: Camera)
    requires Exact(m) && AtTheEdge(c)
    ensures var c' := EndDrag(Update(m, c)); !c'.g.dragging && !c'.g.pinching && c'.ball.down.w == 0.0
  {
    AwayUpdate(m, c.(g := c.g.(dragDelta := Scale2(c.g.dragDelta, MOMENTUM_FACTOR))));
  }

  lemma AwayFinishes(m: Libm, calls: seq<Call>)
    requires Exact(m) && AtTheEdge(Run(m, calls))
    ensures var c := Run(m, calls + [CallUpdate, CallEndDrag]);
      !c.g.dragging && !c.g.pinching && c.ball.down.w == 0.0
  {
    AwayEnds(m, Run(m, calls));
    RunTwo(m, calls, CallUpdate, CallEndDrag);
  }

  lemma AwayStarts(m: Libm, flip: Call, begin: Call, drag: Call)
    requires Exact(m)
    requires flip == CallSetFlip(1.0, 1.0) && begin == CallBeginDrag(ZERO) && drag == CallDrag(Vec2(0.75, 0.0))
    ensures AtTheEdge(Run(m, [flip, begin, drag]))
  {
    assert [] + [flip] == [flip] && [flip] + [begin, drag] == [flip, begin, drag];
    RunSnoc(m, [], flip);
    RunTwo(m, [flip], begin, drag);
    DragPlaces(Run(m, [flip]), ZERO, drag.v);
  }

  /** A run that ends in another orientation, so that Reset is undone to something. */
  lemma TurnedAway(m: Libm, flip: Call, begin: Call, drag: Call)
    requires Exact(m)
    requires flip == CallSetFlip(1.0, 1.0) && begin == CallBeginDrag(ZERO) && drag == CallDrag(Vec2(0.75, 0.0))
    ensures var c := Run(m, [flip, begin, drag] + [CallUpdate, CallEndDrag]);
      !c.g.dragging && !c.g.pinching && c.ball.down != IDENTITY
  {
    AwayStarts(m, flip, begin, drag);
    AwayFinishes(m, [flip, begin, drag]);
  }
}
