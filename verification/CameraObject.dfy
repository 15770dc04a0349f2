/**
 The camera object: fields updated by the gestures, and the rotation matrix handed to the renderer.
 The fields are grouped as the model groups them.
 */
module CameraObject {
  import opened VecMath
  import T = TapCamera

  class TapCamera {
    const m: T.Libm
    var ball: T.Ball
    var g: T.Gesture
    var angles: T.Angles
    var flip: Vec2
    var matRotation: seq<real>

    ghost function State(): T.Camera
      reads this
    {
      T.Camera(ball, g, angles, flip)
    }

    /** The matrix is that of the orientation, which has unit length. */
    ghost predicate Valid()
      reads this
    {
      T.Exact(m) && T.UnitBall(ball) && matRotation == Matrix(ball.now)
    }

    constructor (m: T.Libm)
      requires T.Exact(m)
      ensures Valid() && this.m == m && State() == T.INITIAL
    {
      this.m := m;
      ball, angles, flip := T.Ball(IDENTITY, IDENTITY, IDENTITY), T.Angles(0.0, 0.0, 0.0), ZERO;
      g := T.Gesture(false, false, false, ZERO, ZERO, ZERO, ZERO, 0.0);
      matRotation := [];
      new;
      InitParameters();
    }

    /** Quaternion::ToMatrix, into the matrix of the camera. */
    method ToMatrix(q: Quaternion)
      modifies `matRotation
      ensures matRotation == Matrix(q)
    {
      matRotation := Matrix(q);
    }

    method InitParameters()
      modifies this
      ensures State() == T.InitParameters(old(State())) && matRotation == Matrix(ball.now)
    {
      ball := ball.(rot := IDENTITY, now := IDENTITY);
      angles := angles.(total := 0.0);
      g := g.(dragDelta := ZERO, momentum := false);
      ToMatrix(ball.now);
    }

    method BallUpdate()
      requires Valid()
      modifies `ball, `matRotation
      ensures Valid() && State() == T.BallUpdate(m, old(State()))
    {
      T.UpdateUnit(m, State());
      if g.dragging {
        var from, to := T.PointOnSphere(m, g.ballDown), T.PointOnSphere(m, g.ballNow);
        var v := Cross(from, to);
        var drag := Quaternion(v.x, v.y, v.z, Dot(from, to));
        drag := Times(drag, ball.down);
        ball := ball.(now := Times(ball.rot, drag));
      }
      ToMatrix(ball.now);
    }

    method EndDrag()
      requires Valid()
      modifies `ball, `g
      ensures Valid() && State() == T.EndDrag(old(State()))
    {
      ball := ball.(down := ball.now, rot := IDENTITY);
      g := g.(dragging := false, momentum := true, steps := 1.0);
    }

    method EndPinch()
      requires Valid()
      modifies `ball, `g, `angles
      ensures Valid() && State() == T.EndPinch(old(State()))
    {
      g := g.(pinching := false, momentum := true, steps := 1.0);
      angles := angles.(total := angles.total + angles.now, now := 0.0);
      EndDrag();
    }

    /** What a new gesture does first. */
    method EndGesture()
      requires Valid()
      modifies `ball, `g, `angles
      ensures Valid() && State() == T.EndGesture(old(State()))
    {
      if g.dragging {
        EndDrag();
      }
      if g.pinching {
        EndPinch();
      }
    }

    method BeginDrag(v: Vec2)
      requires Valid()
      modifies `ball, `g, `angles
      ensures Valid() && State() == T.BeginDrag(old(State()), v)
    {
      EndGesture();
      var at := Times2(v, flip);
      g := g.(ballNow := at);
      g := g.(ballDown := g.ballNow);
      g := g.(dragging := true, momentum := false, lastInput := at, dragDelta := ZERO);
    }

    method Drag(v: Vec2)
      requires Valid()
      modifies `g
      ensures Valid() && State() == T.Drag(old(State()), v)
    {
      if !g.dragging {
        return;
      }
      var at := Times2(v, flip);
      g := g.(ballNow := at);
      g := g.(dragDelta := Plus2(Scale2(g.dragDelta, T.MOMENTUM_FACTOR), Minus2(at, g.lastInput)));
      g := g.(lastInput := at);
    }

    method BeginPinch(v1: Vec2, v2: Vec2)
      requires Valid()
      modifies `ball, `g, `angles
      ensures Valid() && State() == T.BeginPinch(m, old(State()), v1, v2)
    {
      EndGesture();
      BeginDrag(ZERO);
      var d := Minus2(v1, v2);
      angles := angles.(start := m.atan2(d.y, d.x), now := 0.0);
      g := g.(pinching := true, momentum := false);
    }

    method Pinch(v1: Vec2, v2: Vec2)
      requires Valid()
      modifies `ball, `angles
      ensures Valid() && State() == T.Pinch(m, old(State()), v1, v2)
    {
      T.ApplyUnit(m, State(), T.CallPinch(v1, v2));
      if !g.pinching {
        return;
      }
      var d := Minus2(v1, v2);
      angles := angles.(now := m.atan2(d.y, d.x) - angles.start);
      ball := ball.(rot := Quaternion(0.0, 0.0, m.sin(-angles.now * 0.5), m.cos(-angles.now * 0.5)));
    }

    method Update()
      requires Valid()
      modifies this
      ensures Valid() && State() == T.Update(m, old(State()))
    {
      if g.momentum {
        var steps, v := g.steps, g.dragDelta;
        BeginDrag(ZERO);
        Drag(Times2(v, flip));
        BallUpdate();
        EndDrag();
        g := g.(dragDelta := Scale2(v, T.MOMENTUM_FACTOR_DECREASE), steps := steps * T.MOMENTUM_FACTOR_DECREASE);
        if g.steps < T.MOMENTUM_FACTOR_THRESHOLD {
          g := g.(momentum := false);
        }
      } else {
        g := g.(dragDelta := Scale2(g.dragDelta, T.MOMENTUM_FACTOR));
        BallUpdate();
      }
    }

    method Reset()
      requires Valid()
      modifies this
      ensures Valid() && State() == T.Reset(m, old(State()))
    {
      InitParameters();
      Update();
    }

    method SetFlip(x: real, y: real)
      requires Valid()
      modifies `flip
      ensures Valid() && State() == T.Apply(m, old(State()), T.CallSetFlip(x, y))
    {
      flip := Vec2(x, y);
    }

    /** What the renderer reads is a rotation. */
    method GetRotationMatrix() returns (mat: seq<real>)
      requires Valid()
      ensures mat == Matrix(ball.now) && Rotation(BlockOf(mat))
    {
      MatrixRotates(ball.now);
      mat := matRotation;
    }
  }
}
