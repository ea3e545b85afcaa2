/** Particle boundary conditions: the axis-ordered decision of which face
    handler, if any, a particle that left the domain is handed to. */
module ParticleBoundaries {
  import opened Wrappers

  /** The six faces: west/east on x, south/north on y, bottom/up on z. */
  datatype Face = West | East | South | North | Bottom | Up

  /** One handler invocation: the face, the handler bound there and the
      `limit_pos` argument it receives (twice the wall coordinate). */
  datatype Call<H> = Call(face: Face, handler: H, limitPos: real)

  /** What `apply` does: the handler it invokes, if any, and its return value. */
  datatype Applied<H> = Applied(call: Option<Call<H>>, status: int)

  /** PartBoundCond: six optional handlers (null function pointers are `None`)
      and six wall coordinates. `H` stands for the handler functions, whose
      bodies are not part of this model. */
  datatype PartBoundCond<H> = PartBoundCond(
    bcWest: Option<H>, bcEast: Option<H>,
    bcSouth: Option<H>, bcNorth: Option<H>,
    bcBottom: Option<H>, bcUp: Option<H>,
    xMin: real, xMax: real,
    yMin: real, yMax: real,
    zMin: real, zMax: real)
  {
    /** The number of axes whose coordinate `apply` may read: y only when
        the south handler is set, z only when the bottom handler is set too. */
    function ReadAxes(): (n: nat)
      ensures 1 <= n <= 3
      ensures n >= 2 <==> bcSouth.Some?
      ensures n == 3 <==> bcSouth.Some? && bcBottom.Some?
    {
      if bcSouth.None? then 1 else if bcBottom.None? then 2 else 3
    }

    /** apply(part): the nested test of the source, axis 0 first. */
    function Apply(pos: seq<real>): (r: Applied<H>)
      requires |pos| >= ReadAxes()
      ensures r.status == 0 || r.status == 1
      ensures r.status == 0 ==> r.call.None?
      ensures r.call.Some? ==> r.status == 1
      ensures r.status == 0 ==> !InBounds(pos)
    {
      if pos[0] < xMin then
        Fire(bcWest, West, xMin)
      else if pos[0] >= xMax then
        Fire(bcEast, East, xMax)
      else if bcSouth.Some? then
        if pos[1] < yMin then
          Fire(bcSouth, South, yMin)
        else if pos[1] >= yMax then
          Fire(bcNorth, North, yMax)
        else if bcBottom.Some? then
          if pos[2] < zMin then
            Fire(bcBottom, Bottom, zMin)
          else if pos[2] >= zMax then
            Fire(bcUp, Up, zMax)
          else
            Applied(None, 1)
        else
          Applied(None, 1)
      else
        Applied(None, 1)
    }

    /** The particle is inside the walls of every axis `apply` tests. */
    predicate InBounds(pos: seq<real>)
      requires |pos| >= ReadAxes()
    {
      forall k :: 0 <= k < ReadAxes() ==> Lower(k) <= pos[k] < Upper(k)
    }

    function Lower(axis: nat): real
    {
      if axis == 0 then xMin else if axis == 1 then yMin else zMin
    }

    function Upper(axis: nat): real
    {
      if axis == 0 then xMax else if axis == 1 then yMax else zMax
    }

    function LowerHandler(axis: nat): Option<H>
    {
      if axis == 0 then bcWest else if axis == 1 then bcSouth else bcBottom
    }

    function UpperHandler(axis: nat): Option<H>
    {
      if axis == 0 then bcEast else if axis == 1 then bcNorth else bcUp
    }

    /** Reference definition: scan the configured axes in order and let the
        first wall the particle is beyond decide, as one loop over axes. */
    function FirstViolation(pos: seq<real>, axis: nat): Applied<H>
      requires axis <= ReadAxes() <= |pos|
      decreases ReadAxes() - axis
    {
      if axis == ReadAxes() then
        Applied(None, 1)
      else if pos[axis] < Lower(axis) then
        Fire(LowerHandler(axis), LowerFace(axis), Lower(axis))
      else if pos[axis] >= Upper(axis) then
        Fire(UpperHandler(axis), UpperFace(axis), Upper(axis))
      else
        FirstViolation(pos, axis + 1)
    }
  }

  /** A face's handler is called with twice the wall coordinate and `apply`
      returns 1; a null handler returns 0 and calls nothing. */
  function Fire<H>(bc: Option<H>, face: Face, wall: real): Applied<H>
  {
    match bc
    case None => Applied(None, 0)
    case Some(h) => Applied(Some(Call(face, h, 2.0 * wall)), 1)
  }

  function LowerFace(axis: nat): Face
  {
    if axis == 0 then West else if axis == 1 then South else Bottom
  }

  function UpperFace(axis: nat): Face
  {
    if axis == 0 then East else if axis == 1 then North else Up
  }

  /** The nested if-chain is the first-violated-axis-wins scan over the
      configured axes. */
  lemma {:induction false} ApplyIsFirstViolation<H>(bc: PartBoundCond<H>, pos: seq<real>)
    requires |pos| >= bc.ReadAxes()
    ensures bc.Apply(pos) == bc.FirstViolation(pos, 0)
  {
    if bc.Lower(0) <= pos[0] < bc.Upper(0) && bc.ReadAxes() >= 2 {
      if bc.Lower(1) <= pos[1] < bc.Upper(1) {
        if bc.ReadAxes() == 3 {
          assert bc.Lower(2) <= pos[2] < bc.Upper(2) ==> bc.FirstViolation(pos, 3) == Applied(None, 1);
        } else {
          assert bc.FirstViolation(pos, 2) == Applied(None, 1);
        }
        assert bc.FirstViolation(pos, 1) == bc.FirstViolation(pos, 2);
      }
      assert bc.FirstViolation(pos, 0) == bc.FirstViolation(pos, 1);
    }
  }

  /** Below the west wall: 0 with no west handler, else the west handler with
      2*x_min and 1. */
  lemma ApplyBelowXMin<H>(bc: PartBoundCond<H>, pos: seq<real>)
    requires |pos| >= bc.ReadAxes() && pos[0] < bc.xMin
    ensures bc.bcWest.None? ==> bc.Apply(pos) == Applied(None, 0)
    ensures bc.bcWest.Some? ==>
      bc.Apply(pos) == Applied(Some(Call(West, bc.bcWest.value, 2.0 * bc.xMin)), 1)
  {
  }

  /** Inside the west wall but at or beyond the east wall: the east handler
      with 2*x_max, or 0 when it is null. */
  lemma ApplyAtOrAboveXMax<H>(bc: PartBoundCond<H>, pos: seq<real>)
    requires |pos| >= bc.ReadAxes() && bc.xMin <= pos[0] && pos[0] >= bc.xMax
    ensures bc.bcEast.None? ==> bc.Apply(pos) == Applied(None, 0)
    ensures bc.bcEast.Some? ==>
      bc.Apply(pos) == Applied(Some(Call(East, bc.bcEast.value, 2.0 * bc.xMax)), 1)
  {
  }

  /** A violation of axis 0 decides alone: no y or z handler is called, and
      the outcome does not depend on the y and z coordinates or their walls
      and handlers. */
  lemma XViolationShortCircuits<H>(bc: PartBoundCond<H>, other: PartBoundCond<H>,
                                   pos: seq<real>, pos': seq<real>)
    requires |pos| >= bc.ReadAxes() && |pos'| >= other.ReadAxes()
    requires pos[0] < bc.xMin || pos[0] >= bc.xMax
    requires pos'[0] == pos[0]
    requires other.bcWest == bc.bcWest && other.bcEast == bc.bcEast
    requires other.xMin == bc.xMin && other.xMax == bc.xMax
    ensures bc.Apply(pos).call.Some? ==> bc.Apply(pos).call.value.face in {West, East}
    ensures other.Apply(pos') == bc.Apply(pos)
  {
  }

  /** With x inside and no south handler, `apply` returns 1 and calls
      nothing, whatever the north handler and the y coordinate are. */
  lemma NoSouthHandlerKeeps<H>(bc: PartBoundCond<H>, pos: seq<real>)
    requires |pos| >= bc.ReadAxes()
    requires bc.xMin <= pos[0] < bc.xMax && bc.bcSouth.None?
    ensures bc.Apply(pos).call.None? && bc.Apply(pos).status == 1
  {
  }

  /** The null test of the south handler inside the y branch never succeeds:
      a particle below y_min is always handed to the south handler, never
      answered 0. Above y_max a null north handler does give 0. */
  lemma YViolations<H>(bc: PartBoundCond<H>, pos: seq<real>)
    requires |pos| >= bc.ReadAxes()
    requires bc.xMin <= pos[0] < bc.xMax && bc.bcSouth.Some?
    ensures pos[1] < bc.yMin ==>
      bc.Apply(pos) == Applied(Some(Call(South, bc.bcSouth.value, 2.0 * bc.yMin)), 1)
    ensures bc.yMin <= pos[1] && pos[1] >= bc.yMax && bc.bcNorth.None? ==>
      bc.Apply(pos) == Applied(None, 0)
    ensures bc.yMin <= pos[1] && pos[1] >= bc.yMax && bc.bcNorth.Some? ==>
      bc.Apply(pos) == Applied(Some(Call(North, bc.bcNorth.value, 2.0 * bc.yMax)), 1)
  {
  }

  /** Axis 2 is reached only with x and y inside and a bottom handler set:
      below z_min the bottom handler gets 2*z_min; at or above z_max the up
      handler gets 2*z_max, or the answer is 0 when it is null. Otherwise no
      z handler is ever called. */
  lemma ZViolations<H>(bc: PartBoundCond<H>, pos: seq<real>)
    requires |pos| >= bc.ReadAxes()
    ensures (bc.Apply(pos).call.Some? && bc.Apply(pos).call.value.face in {Bottom, Up}) ==>
      bc.xMin <= pos[0] < bc.xMax && bc.bcSouth.Some? && bc.yMin <= pos[1] < bc.yMax
      && bc.bcBottom.Some?
    ensures bc.ReadAxes() == 3 && bc.xMin <= pos[0] < bc.xMax && bc.yMin <= pos[1] < bc.yMax ==>
      (pos[2] < bc.zMin ==>
         bc.Apply(pos) == Applied(Some(Call(Bottom, bc.bcBottom.value, 2.0 * bc.zMin)), 1))
      && (bc.zMin <= pos[2] && pos[2] >= bc.zMax && bc.bcUp.None? ==>
         bc.Apply(pos) == Applied(None, 0))
      && (bc.zMin <= pos[2] && pos[2] >= bc.zMax && bc.bcUp.Some? ==>
         bc.Apply(pos) == Applied(Some(Call(Up, bc.bcUp.value, 2.0 * bc.zMax)), 1))
  {
  }

  /** A particle inside every tested wall gets 1 and no handler; a 0 answer
      means the particle crossed a face whose handler is null. */
  lemma {:induction false} ApplyStatusMeaning<H>(bc: PartBoundCond<H>, pos: seq<real>)
    requires |pos| >= bc.ReadAxes()
    ensures bc.InBounds(pos) ==> bc.Apply(pos) == Applied(None, 1)
    ensures bc.Apply(pos).status == 0 <==>
      exists k :: 0 <= k < bc.ReadAxes() && NullFaceCrossed(bc, pos, k)
  {
    ApplyIsFirstViolation(bc, pos);
    ScanStatus(bc, pos, 0);
  }

  /** Axis `k` is the first tested axis the particle is outside of, and the
      handler of the face it crossed is null. */
  predicate NullFaceCrossed<H>(bc: PartBoundCond<H>, pos: seq<real>, k: nat)
    requires k < bc.ReadAxes() <= |pos|
  {
    && (forall a :: 0 <= a < k ==> bc.Lower(a) <= pos[a] < bc.Upper(a))
    && ((pos[k] < bc.Lower(k) && bc.LowerHandler(k).None?)
        || (bc.Lower(k) <= pos[k] && pos[k] >= bc.Upper(k) && bc.UpperHandler(k).None?))
  }

  lemma {:induction false} ScanStatus<H>(bc: PartBoundCond<H>, pos: seq<real>, axis: nat)
    requires axis <= bc.ReadAxes() <= |pos|
    requires forall a :: 0 <= a < axis ==> bc.Lower(a) <= pos[a] < bc.Upper(a)
    ensures (forall a :: axis <= a < bc.ReadAxes() ==> bc.Lower(a) <= pos[a] < bc.Upper(a))
            ==> bc.FirstViolation(pos, axis) == Applied(None, 1)
    ensures bc.FirstViolation(pos, axis).status == 0 <==>
      exists k :: axis <= k < bc.ReadAxes() && NullFaceCrossed(bc, pos, k)
    decreases bc.ReadAxes() - axis
  {
    if axis < bc.ReadAxes() {
      if bc.Lower(axis) <= pos[axis] < bc.Upper(axis) {
        ScanStatus(bc, pos, axis + 1);
        if bc.FirstViolation(pos, axis).status == 0 {
          var k :| axis + 1 <= k < bc.ReadAxes() && NullFaceCrossed(bc, pos, k);
          assert NullFaceCrossed(bc, pos, k);
        }
        if exists k :: axis <= k < bc.ReadAxes() && NullFaceCrossed(bc, pos, k) {
          var k :| axis <= k < bc.ReadAxes() && NullFaceCrossed(bc, pos, k);
          assert k != axis;
        }
      } else {
        assert bc.FirstViolation(pos, axis).status == 0 ==> NullFaceCrossed(bc, pos, axis);
        if exists k :: axis <= k < bc.ReadAxes() && NullFaceCrossed(bc, pos, k) {
          var k :| axis <= k < bc.ReadAxes() && NullFaceCrossed(bc, pos, k);
          assert k == axis;
        }
      }
    }
  }
}
