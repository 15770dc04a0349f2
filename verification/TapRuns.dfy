/** What drags show over whole runs of the camera: where they start, and where they take a point. */
module TapRuns {
  import opened VecMath
  import opened VecTurns
  import opened TapCamera

  // ----- where a drag starts

  predicate BeginsOrEnds(call: Call) {
    call.CallBeginDrag? || call.CallEndDrag? || call.CallBeginPinch? || call.CallEndPinch?
  }

  /** How many calls come before the first Reset since a gesture was last begun or ended. */
  function Kept(calls: seq<Call>): (k: nat)
    ensures k <= |calls|
    ensures k < |calls| ==> calls[k] == CallReset && forall i :: k <= i < |calls| ==> !BeginsOrEnds(calls[i])
    ensures k == |calls| ==>
      forall i :: 0 <= i < |calls| && calls[i] == CallReset ==> exists j :: i < j < |calls| && BeginsOrEnds(calls[j])
  {
    if calls == [] then 0
    else
      var before, last := calls[..|calls| - 1], calls[|calls| - 1];
      if BeginsOrEnds(last) then |calls|
      else if last == CallReset || Kept(before) < |before| then Kept(before)
      else |calls|
  }

  /** Before that Reset a drag would start from what is shown, and after it from what was. */
  predicate StartsFrom(c: Camera, kept: Camera, reset: bool) {
    && !(c.g.dragging && c.g.momentum)
    && (if reset then
          !c.g.momentum && (c.g.dragging || (c.ball.now == IDENTITY && c.ball.down == kept.ball.now))
        else Settled(c))
  }

  lemma SettledStep(m: Libm, c: Camera, call: Call)
    requires Exact(m) && StartsFrom(c, c, false)
    ensures call != CallReset ==> var c' := Apply(m, c, call); StartsFrom(c', c', false)
    ensures call == CallReset ==> StartsFrom(Apply(m, c, call), c, true)
  {
  }

  lemma ResetStep(m: Libm, c: Camera, kept: Camera, call: Call)
    requires Exact(m) && StartsFrom(c, kept, true)
    ensures !BeginsOrEnds(call) ==> StartsFrom(Apply(m, c, call), kept, true)
    ensures BeginsOrEnds(call) ==> var c' := Apply(m, c, call); StartsFrom(c', c', false)
  {
  }

  lemma {:induction false} RunStarts(m: Libm, calls: seq<Call>)
    requires Exact(m)
    ensures var k := Kept(calls); StartsFrom(Run(m, calls), Run(m, calls[..k]), k < |calls|)
    decreases |calls|
  {
    assert calls[..|calls|] == calls;
    if calls != [] {
      var before, last := calls[..|calls| - 1], calls[|calls| - 1];
      RunStarts(m, before);
      assert before[..|before|] == before;
      assert before[..Kept(before)] == calls[..Kept(before)];
      if Kept(before) == |before| {
        SettledStep(m, Run(m, before), last);
      } else {
        ResetStep(m, Run(m, before), Run(m, before[..Kept(before)]), last);
      }
    }
  }

  /**
   A gesture is under way, or Reset has not been called since the last one ended, or what was shown
   before that Reset was the identity.
   */
  predicate GoesOn(m: Libm, calls: seq<Call>)
    requires Exact(m)
  {
    var c, k := Run(m, calls), Kept(calls);
    c.g.dragging || c.g.pinching || k == |calls| || Run(m, calls[..k]).ball.now == IDENTITY
  }

  /** A drag goes on from the orientation shown exactly then. */
  lemma DragGoesOn(m: Libm, calls: seq<Call>, v: Vec2)
    requires Exact(m)
    ensures Run(m, calls + [CallBeginDrag(v), CallUpdate]).ball.now == Run(m, calls).ball.now <==> GoesOn(m, calls)
  {
    RunIdle(m, calls);
    DragStarts(m, Run(m, calls), v);
    RunTwo(m, calls, CallBeginDrag(v), CallUpdate);
    RunStarts(m, calls);
  }

  // ----- what a drag shows

  /** A finger is down: where, and from which orientation the drag turns the ball. */
  predicate Pressed(c: Camera, start: Quaternion, at: Vec2, flip: Vec2) {
    && c.g.dragging && !c.g.pinching && !c.g.momentum
    && c.ball.down == start && c.ball.rot == IDENTITY && c.g.ballDown == at && c.flip == flip
  }

  predicate Moves(calls: seq<Call>) {
    forall i :: 0 <= i < |calls| ==> calls[i].CallDrag? || calls[i].CallPinch? || calls[i].CallUpdate?
  }

  lemma {:induction false} MovesKeep(m: Libm, calls: seq<Call>, moves: seq<Call>, start: Quaternion, at: Vec2,
                                     flip: Vec2)
    requires Exact(m) && Moves(moves) && Pressed(Run(m, calls), start, at, flip)
    ensures Pressed(Run(m, calls + moves), start, at, flip)
    decreases |moves|
  {
    if moves == [] {
      assert calls + moves == calls;
    } else {
      var before, last := moves[..|moves| - 1], moves[|moves| - 1];
      MovesKeep(m, calls, before, start, at, flip);
      assert calls + moves == (calls + before) + [last];
      RunSnoc(m, calls + before, last);
    }
  }

  lemma MoveShows(m: Libm, c: Camera, start: Quaternion, at: Vec2, flip: Vec2, q: Vec2)
    requires Exact(m) && Pressed(c, start, at, flip)
    ensures Update(m, Drag(c, q)).ball.now
         == Times(Between(PointOnSphere(m, at), PointOnSphere(m, Times2(q, flip))), start)
  {
    TimesIdentity(Times(Between(PointOnSphere(m, at), PointOnSphere(m, Times2(q, flip))), start));
  }

  lemma DragTurnsOn(m: Libm, at: Vec2, to: Vec2, start: Quaternion, v: Vec3)
    requires Exact(m) && Unit(start) && Turn(Rot(start), v) == PointOnSphere(m, at)
    ensures var a, b := PointOnSphere(m, at), PointOnSphere(m, to);
      Turn(Rot(Times(Between(a, b), start)), v) == Mirror(a, b)
  {
    OnSphere(m, at);
    OnSphere(m, to);
    var a, b := PointOnSphere(m, at), PointOnSphere(m, to);
    UnitBetween(a, b);
    TimesTurns(Between(a, b), start, v);
    DragTurns(a, b);
  }

  /**
   A point of the scene shown under the finger when it goes down is shown, however the finger moves
   on, at the mirror image of where it went down in where it is now.
   */
  lemma DragShows(m: Libm, calls: seq<Call>, p: Vec2, moves: seq<Call>, q: Vec2, v: Vec3)
    requires Exact(m) && Moves(moves) && GoesOn(m, calls)
    requires Turn(Rot(Run(m, calls).ball.now), v) == PointOnSphere(m, Times2(p, Run(m, calls).flip))
    ensures var flip := Run(m, calls).flip;
      Turn(Rot(Run(m, calls + [CallBeginDrag(p)] + moves + [CallDrag(q), CallUpdate]).ball.now), v)
      == Mirror(PointOnSphere(m, Times2(p, flip)), PointOnSphere(m, Times2(q, flip)))
  {
    var c, begun := Run(m, calls), calls + [CallBeginDrag(p)];
    var at := Times2(p, c.flip);
    RunIdle(m, calls);
    DragStarts(m, c, p);
    DragGoesOn(m, calls, p);
    RunTwo(m, calls, CallBeginDrag(p), CallUpdate);
    RunSnoc(m, calls, CallBeginDrag(p));
    MovesKeep(m, begun, moves, c.ball.now, at, c.flip);
    RunTwo(m, begun + moves, CallDrag(q), CallUpdate);
    MoveShows(m, Run(m, begun + moves), c.ball.now, at, c.flip, q);
    RunUnit(m, calls);
    DragTurnsOn(m, at, Times2(q, c.flip), c.ball.now, v);
  }
}
