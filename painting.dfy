/**
 * The placement decision of ObjectPainterWindow.PaintObjects and the
 * weighted prefab pick of ChooseRandomPrefab, as functions of the tool state
 * and of what the engine reports for one scene-view event: the brush
 * raycast, the surface found under the sampled point, the cull angle, the
 * random draws and the editor clock.
 *
 * Bare line numbers in this module refer to Editor/ObjectPainterWindow.cs.
 */
module Painting {
  import opened Values
  import opened PrefabSettings

  // ---------------------------------------------------------------------
  // Inputs and state.

  /** The event kinds PaintObjects tells apart; every other kind behaves alike. */
  datatype EventType = MouseDown | MouseUp | Repaint | OtherEvent

  /** UnityEngine.Event: its type, mouse button and whether modifiers == EventModifiers.None. */
  datatype Event = Event(kind: EventType, button: int, noModifiers: bool)

  /** The brush raycast (brushHit): the collider under the cursor, if any, and the hit point. */
  datatype BrushHit = BrushHit(collider: Nullable<ColliderId>, point: Vec3)

  /** A successful surface raycast (hitToSurface). */
  datatype SurfaceHit = SurfaceHit(collider: ColliderId, point: Vec3, normal: Vec3)

  /** The window fields PaintObjects updates. */
  datatype ToolState = ToolState(
    mouseIsDown: bool,
    lastCollider: Nullable<ColliderId>,
    placeTimeStamp: real,
    lastHitPoint: Vec3)

  /** The settings of the selected brush that the placement reads. */
  datatype Brush = Brush(
    colliderStrict: bool,
    cullEnabled: bool,
    cullAngle: real,
    cullInvert: bool,
    brushRate: real,
    prefabs: seq<BrushPrefabSettings>)

  /** The transform axes the placement assigns. */
  datatype Axis = TransformUp | TransformRight | TransformForward

  /** One assignment `newObj.transform.<axis> = direction`. */
  datatype AxisAssignment = Assign(axis: Axis, direction: Vec3)

  /**
   * Why an event placed nothing. NullPrefab stands for the early return at
   * line 382, whose Debug.LogWarning is console output and not modelled.
   */
  datatype SkipReason =
    | RepaintEvent | NoPrefabs | NotPainting | Waiting | NoSurface | OtherCollider | Culled | NullPrefab

  /** What the new object gets: its prefab, parent, position and axis assignments, in order. */
  datatype Placement = Placement(
    prefab: AssetId,
    parent: Nullable<TransformId>,
    position: Vec3,
    axes: seq<AxisAssignment>)

  datatype Outcome = Skipped(reason: SkipReason) | Placed(placement: Placement)

  datatype Step = Step(state: ToolState, outcome: Outcome)

  // ---------------------------------------------------------------------
  // The mouse state machine.

  /** A left-button press with no modifiers while no stroke is under way. */
  predicate StartsStroke(s: ToolState, ev: Event)
  {
    !s.mouseIsDown && ev.kind == MouseDown && ev.noModifiers && ev.button == 0
  }

  /** Lines 320-329: a stroke starts on a plain left press and ends on any release. */
  function MouseStep(s: ToolState, ev: Event, brushCollider: Nullable<ColliderId>): (r: ToolState)
    ensures r.placeTimeStamp == s.placeTimeStamp && r.lastHitPoint == s.lastHitPoint
    ensures StartsStroke(s, ev) ==> r.mouseIsDown && r.lastCollider == brushCollider
    ensures ev.kind == MouseUp && s.mouseIsDown ==> !r.mouseIsDown && r.lastCollider == Null
    ensures !StartsStroke(s, ev) && !(ev.kind == MouseUp && s.mouseIsDown) ==> r == s
  {
    var pressed := if StartsStroke(s, ev) then s.(lastCollider := brushCollider, mouseIsDown := true) else s;
    if pressed.mouseIsDown && ev.kind == MouseUp then pressed.(lastCollider := Null, mouseIsDown := false) else pressed
  }

  // ---------------------------------------------------------------------
  // The rate gate and the filters.

  /** Line 438: the next moment a placement is allowed, `now + (60 / rate) / 60`. */
  function NextTimeStamp(now: real, rate: real): (r: real)
    requires rate != 0.0
    ensures r == now + 1.0 / rate
    ensures rate > 0.0 ==> r > now
  {
    now + (60.0 / rate) / 60.0
  }

  /** Line 360: with colliderStrict, a surface on a collider other than the stroke's first one is rejected. */
  predicate ColliderStrictRejects(colliderStrict: bool, surfaceCollider: ColliderId, lastCollider: Nullable<ColliderId>)
  {
    colliderStrict && lastCollider != NonNull(surfaceCollider)
  }

  /**
   * Lines 364-376: with culling on, an angle above cullAngle is rejected, or,
   * inverted, an angle below it.
   */
  predicate CullRejects(cullEnabled: bool, cullInvert: bool, angle: real, cullAngle: real)
  {
    cullEnabled && ((!cullInvert && angle > cullAngle) || (cullInvert && angle < cullAngle))
  }

  /** A stroke that began off every collider (lastCollider null) is rejected on every surface under colliderStrict. */
  lemma StrictRejectsWithoutCollider(surfaceCollider: ColliderId)
    ensures ColliderStrictRejects(true, surfaceCollider, Null)
    ensures !ColliderStrictRejects(false, surfaceCollider, Null)
  {
  }

  /**
   * The cull filter keeps exactly the angles on the allowed side of cullAngle,
   * and the boundary angle itself in both modes.
   */
  lemma CullKeeps(cullEnabled: bool, cullInvert: bool, angle: real, cullAngle: real)
    ensures !CullRejects(cullEnabled, cullInvert, angle, cullAngle) <==>
            !cullEnabled || (if cullInvert then angle >= cullAngle else angle <= cullAngle)
    ensures !CullRejects(cullEnabled, cullInvert, cullAngle, cullAngle)
  {
  }

  // ---------------------------------------------------------------------
  // The weighted pick.

  /** The pick so far: the candidate's index in the prefab list and its score. */
  datatype Pick = Pick(index: nat, weight: real)

  /** The score before the loop: the first draw times the weight of prefabs[0]. */
  function FirstScore(prefabs: seq<BrushPrefabSettings>, draw: nat -> real): real
    requires |prefabs| > 0
  {
    draw(0) * prefabs[0].weight
  }

  /** The score at loop step i: the (i+1)-th draw times the weight of prefabs[i]. */
  function Score(prefabs: seq<BrushPrefabSettings>, draw: nat -> real, i: nat): real
    requires i < |prefabs|
  {
    draw(i + 1) * prefabs[i].weight
  }

  /** The pick after `steps` steps of the loop at lines 276-284. */
  function PickAfter(prefabs: seq<BrushPrefabSettings>, draw: nat -> real, steps: nat): (r: Pick)
    requires 0 < |prefabs| && steps <= |prefabs|
    ensures r.index < |prefabs|
  {
    if steps == 0 then Pick(0, FirstScore(prefabs, draw))
    else
      var p := PickAfter(prefabs, draw, steps - 1);
      var w := Score(prefabs, draw, steps - 1);
      if w > p.weight then Pick(steps - 1, w) else p
  }

  /** ChooseRandomPrefab's pick over the whole list: the earliest best-scoring candidate. */
  function WeightedPick(prefabs: seq<BrushPrefabSettings>, draw: nat -> real): (r: Pick)
    requires |prefabs| > 0
    ensures r.index < |prefabs|
    ensures IsWeightedPick(prefabs, draw, |prefabs|, r)
  {
    PickAfterIsWeightedPick(prefabs, draw, |prefabs|);
    PickAfter(prefabs, draw, |prefabs|)
  }

  /**
   * An independent description of the pick over the candidates considered in
   * the first `steps` loop steps: its score is the largest, it is one of the
   * candidates, and it is the earliest candidate with that score (prefabs[0]
   * is a candidate twice, before the loop and at step 0).
   */
  predicate IsWeightedPick(prefabs: seq<BrushPrefabSettings>, draw: nat -> real, steps: nat, p: Pick)
    requires 0 < |prefabs| && steps <= |prefabs|
  {
    && p.index < |prefabs|
    && FirstScore(prefabs, draw) <= p.weight
    && (forall i :: 0 <= i < steps ==> Score(prefabs, draw, i) <= p.weight)
    && ((p.index == 0 && p.weight == FirstScore(prefabs, draw)) || (p.index < steps && p.weight == Score(prefabs, draw, p.index)))
    && (p.index > 0 ==>
          FirstScore(prefabs, draw) < p.weight && forall i :: 0 <= i < p.index ==> Score(prefabs, draw, i) < p.weight)
  }

  /** The loop computes the earliest best-scoring candidate. */
  lemma {:induction false} PickAfterIsWeightedPick(prefabs: seq<BrushPrefabSettings>, draw: nat -> real, steps: nat)
    requires 0 < |prefabs| && steps <= |prefabs|
    ensures IsWeightedPick(prefabs, draw, steps, PickAfter(prefabs, draw, steps))
  {
    if steps > 0 {
      PickAfterIsWeightedPick(prefabs, draw, steps - 1);
    }
  }

  /** The description fixes the pick: any two picks that meet it agree. */
  lemma WeightedPickUnique(prefabs: seq<BrushPrefabSettings>, draw: nat -> real, steps: nat, p: Pick, q: Pick)
    requires 0 < |prefabs| && steps <= |prefabs|
    requires IsWeightedPick(prefabs, draw, steps, p) && IsWeightedPick(prefabs, draw, steps, q)
    ensures p == q
  {
    assert p.weight == q.weight;
  }

  /** When every weight is zero every score ties, so prefabs[0] is returned. */
  lemma AllZeroWeightsPickFirst(prefabs: seq<BrushPrefabSettings>, draw: nat -> real)
    requires |prefabs| > 0
    requires forall i :: 0 <= i < |prefabs| ==> prefabs[i].weight == 0.0
    ensures WeightedPick(prefabs, draw).index == 0
  {
    PickAfterIsWeightedPick(prefabs, draw, |prefabs|);
  }

  // ---------------------------------------------------------------------
  // The alignment table.

  /** The axis set to the surface normal (up to sign) in each mode; None sets none. */
  function NormalAxis(mode: AlignMode): Axis
    requires mode != None
  {
    match mode
    case Up | Down => TransformUp
    case Left | Right => TransformRight
    case Forward | Backward => TransformForward
  }

  /** The modes that set their axis to the negated normal. */
  predicate Negated(mode: AlignMode)
  {
    mode == Down || mode == Left || mode == Backward
  }

  /** The axis aligned with the stroke direction: `up` for Forward/Backward, `forward` otherwise. */
  function PathAxis(mode: AlignMode): (a: Axis)
    ensures mode != None ==> a != NormalAxis(mode)
  {
    if mode == Forward || mode == Backward then TransformUp else TransformForward
  }

  /** Lines 400-430: the axis assignments for the picked prefab, in the order they are made. */
  function AlignAxes(mode: AlignMode, normal: Vec3, alignToPath: bool, pathDir: Vec3): (r: seq<AxisAssignment>)
    ensures |r| == (if mode == None then 0 else 1) + (if alignToPath then 1 else 0)
    ensures mode != None ==> r[0] == Assign(NormalAxis(mode), if Negated(mode) then Neg(normal) else normal)
    ensures alignToPath ==> r[|r| - 1] == Assign(PathAxis(mode), pathDir)
  {
    var path := if alignToPath then [Assign(PathAxis(mode), pathDir)] else [];
    match mode
    case Up => [Assign(TransformUp, normal)] + path
    case Down => [Assign(TransformUp, Neg(normal))] + path
    case Left => [Assign(TransformRight, Neg(normal))] + path
    case Right => [Assign(TransformRight, normal)] + path
    case Forward => [Assign(TransformForward, normal)] + path
    case Backward => [Assign(TransformForward, Neg(normal))] + path
    case None => path
  }

  /** Opposite modes set the same axis to opposite directions. */
  lemma OppositeModes(normal: Vec3)
    ensures AlignAxes(Down, normal, false, normal)[0].direction == Neg(AlignAxes(Up, normal, false, normal)[0].direction)
    ensures AlignAxes(Left, normal, false, normal)[0].direction == Neg(AlignAxes(Right, normal, false, normal)[0].direction)
    ensures AlignAxes(Backward, normal, false, normal)[0].direction == Neg(AlignAxes(Forward, normal, false, normal)[0].direction)
  {
  }

  // ---------------------------------------------------------------------
  // One call of PaintObjects.

  /**
   * Lines 330-438, once the mouse state `m` is up to date. `surface` is the
   * first of the four surface rays that hits (Null when none does), `angle`
   * is Vector3.Angle(cullRef, surface normal), `draw` the successive
   * Random.Range(0, 1) draws of the pick. The clock,
   * EditorApplication.timeSinceStartup, is read twice: `now` for the gate
   * (line 333) and `stampNow` for the new time stamp (line 438).
   */
  function PlaceStep(m: ToolState, brush: Brush, parent: Nullable<TransformId>, hit: BrushHit,
                     surface: Nullable<SurfaceHit>, angle: real, draw: nat -> real, now: real, stampNow: real): (r: Step)
    requires brush.brushRate > 0.0 && |brush.prefabs| > 0
    ensures r.state.mouseIsDown == m.mouseIsDown && r.state.lastCollider == m.lastCollider
    // Nothing is placed while the time stamp has not passed.
    ensures m.placeTimeStamp >= now ==> !r.outcome.Placed?
    // Only a placement changes the state.
    ensures !r.outcome.Placed? ==> r.state == m
    ensures r.outcome.Placed? ==>
              && m.mouseIsDown && hit.collider.NonNull? && surface.NonNull? && m.placeTimeStamp < now
              && r.state.placeTimeStamp == stampNow + 1.0 / brush.brushRate
              && r.state.lastHitPoint == hit.point
              && (brush.colliderStrict ==> m.lastCollider == NonNull(surface.value.collider))
              && !CullRejects(brush.cullEnabled, brush.cullInvert, angle, brush.cullAngle)
              && r.outcome.placement.position == surface.value.point
              && r.outcome.placement.parent == parent
              && var pick := brush.prefabs[WeightedPick(brush.prefabs, draw).index];
                 && NonNull(r.outcome.placement.prefab) == pick.paintObject
                 && r.outcome.placement.axes ==
                    AlignAxes(pick.alignMode, surface.value.normal, pick.alignToPath, Sub(hit.point, m.lastHitPoint))
    // Every gate and filter passed and a prefab picked: an object is placed.
    ensures && m.mouseIsDown && hit.collider.NonNull? && m.placeTimeStamp < now && surface.NonNull?
            && !ColliderStrictRejects(brush.colliderStrict, surface.value.collider, m.lastCollider)
            && !CullRejects(brush.cullEnabled, brush.cullInvert, angle, brush.cullAngle)
            && brush.prefabs[WeightedPick(brush.prefabs, draw).index].paintObject.NonNull?
            ==> r.outcome.Placed?
    // The early returns before the mouse checks belong to PaintStep alone.
    ensures r.outcome != Skipped(RepaintEvent) && r.outcome != Skipped(NoPrefabs)
    // The gates, in order, and each filter rejects only what it says.
    ensures r.outcome == Skipped(NotPainting) <==> !m.mouseIsDown || hit.collider == Null
    ensures r.outcome == Skipped(Waiting) <==> m.mouseIsDown && hit.collider.NonNull? && m.placeTimeStamp >= now
    ensures m.mouseIsDown && hit.collider.NonNull? && m.placeTimeStamp < now ==>
              (r.outcome == Skipped(NoSurface) <==> surface == Null)
    ensures r.outcome == Skipped(OtherCollider) ==> brush.colliderStrict && surface.NonNull? && m.lastCollider != NonNull(surface.value.collider)
    ensures r.outcome == Skipped(Culled) ==> CullRejects(brush.cullEnabled, brush.cullInvert, angle, brush.cullAngle)
    ensures r.outcome == Skipped(NullPrefab) ==> brush.prefabs[WeightedPick(brush.prefabs, draw).index].paintObject == Null
  {
    if !m.mouseIsDown || hit.collider == Null then Step(m, Skipped(NotPainting))
    else if m.placeTimeStamp >= now then Step(m, Skipped(Waiting))
    else if surface == Null then Step(m, Skipped(NoSurface))
    else if ColliderStrictRejects(brush.colliderStrict, surface.value.collider, m.lastCollider) then Step(m, Skipped(OtherCollider))
    else if CullRejects(brush.cullEnabled, brush.cullInvert, angle, brush.cullAngle) then Step(m, Skipped(Culled))
    else
      var pick := brush.prefabs[WeightedPick(brush.prefabs, draw).index];
      if pick.paintObject == Null then Step(m, Skipped(NullPrefab))
      else
        var axes := AlignAxes(pick.alignMode, surface.value.normal, pick.alignToPath, Sub(hit.point, m.lastHitPoint));
        Step(m.(lastHitPoint := hit.point, placeTimeStamp := NextTimeStamp(stampNow, brush.brushRate)),
             Placed(Placement(pick.paintObject.value, parent, surface.value.point, axes)))
  }

  /** Lines 318-438: one call of PaintObjects. */
  function PaintStep(s: ToolState, brush: Brush, parent: Nullable<TransformId>, ev: Event, hit: BrushHit,
                     surface: Nullable<SurfaceHit>, angle: real, draw: nat -> real, now: real, stampNow: real): (r: Step)
    requires brush.brushRate > 0.0
    // Repaint events and brushes without prefabs return before anything changes.
    ensures ev.kind == Repaint || |brush.prefabs| == 0 ==> r.state == s && !r.outcome.Placed?
    // Otherwise the stroke fields follow the mouse state machine.
    ensures ev.kind != Repaint && |brush.prefabs| > 0 ==>
              r.state.mouseIsDown == MouseStep(s, ev, hit.collider).mouseIsDown &&
              r.state.lastCollider == MouseStep(s, ev, hit.collider).lastCollider
    // Nothing is placed while the time stamp has not passed.
    ensures s.placeTimeStamp >= now ==> !r.outcome.Placed?
    // Only a placement moves the time stamp and the last hit point.
    ensures !r.outcome.Placed? ==> r.state.placeTimeStamp == s.placeTimeStamp && r.state.lastHitPoint == s.lastHitPoint
    ensures r.outcome.Placed? ==>
              && r.state.mouseIsDown && s.placeTimeStamp < now
              && r.state.placeTimeStamp == stampNow + 1.0 / brush.brushRate
              && r.state.lastHitPoint == hit.point
  {
    if ev.kind == Repaint then Step(s, Skipped(RepaintEvent))
    else if |brush.prefabs| == 0 then Step(s, Skipped(NoPrefabs))
    else PlaceStep(MouseStep(s, ev, hit.collider), brush, parent, hit, surface, angle, draw, now, stampNow)
  }

  // ---------------------------------------------------------------------
  // Many calls: a sequence of scene-view events with one brush.

  /** What the engine reports for one event, with the two clock readings. */
  datatype Frame = Frame(ev: Event, hit: BrushHit, surface: Nullable<SurfaceHit>, angle: real, draw: nat -> real,
                         now: real, stampNow: real)

  /** The tool state after the frames, and the stamp-time clock reading of every frame that placed an object. */
  datatype Run = Run(state: ToolState, placedAt: seq<real>)

  function RunFrames(s: ToolState, brush: Brush, parent: Nullable<TransformId>, frames: seq<Frame>): Run
    requires brush.brushRate > 0.0
  {
    if |frames| == 0 then Run(s, [])
    else
      var n := |frames| - 1;
      var before := RunFrames(s, brush, parent, frames[..n]);
      var f := frames[n];
      var step := PaintStep(before.state, brush, parent, f.ev, f.hit, f.surface, f.angle, f.draw, f.now, f.stampNow);
      Run(step.state, before.placedAt + if step.outcome.Placed? then [f.stampNow] else [])
  }

  /**
   * The rate limit over a run, for a clock that does not run backwards
   * within one event: after the first placement the time stamp is the last
   * placement time plus 1/rate, and two successive placements are more than
   * 1/rate apart.
   */
  lemma {:induction false} RunRespectsRate(s: ToolState, brush: Brush, parent: Nullable<TransformId>, frames: seq<Frame>)
    requires brush.brushRate > 0.0
    requires forall i :: 0 <= i < |frames| ==> frames[i].now <= frames[i].stampNow
    ensures var r := RunFrames(s, brush, parent, frames);
            && (|r.placedAt| == 0 ==> r.state.placeTimeStamp == s.placeTimeStamp)
            && (|r.placedAt| > 0 ==> s.placeTimeStamp < r.placedAt[0])
            && (|r.placedAt| > 0 ==> r.state.placeTimeStamp == r.placedAt[|r.placedAt| - 1] + 1.0 / brush.brushRate)
            && forall i :: 0 <= i < |r.placedAt| - 1 ==> r.placedAt[i] + 1.0 / brush.brushRate < r.placedAt[i + 1]
  {
    if |frames| > 0 {
      var n := |frames| - 1;
      var gap := 1.0 / brush.brushRate;
      var before := RunFrames(s, brush, parent, frames[..n]);
      RunRespectsRate(s, brush, parent, frames[..n]);
      var f := frames[n];
      var step := PaintStep(before.state, brush, parent, f.ev, f.hit, f.surface, f.angle, f.draw, f.now, f.stampNow);
      var times := RunFrames(s, brush, parent, frames).placedAt;
      if step.outcome.Placed? {
        assert times == before.placedAt + [f.stampNow];
        assert |before.placedAt| > 0 ==> before.placedAt[|before.placedAt| - 1] + gap < f.stampNow;
        forall i | 0 <= i < |times| - 1
          ensures times[i] + gap < times[i + 1]
        {
          if i + 1 < |before.placedAt| {
            assert times[i] == before.placedAt[i] && times[i + 1] == before.placedAt[i + 1];
          }
        }
      } else {
        assert times == before.placedAt;
      }
    }
  }

  /**
   * With colliderStrict, a stroke that began with no collider under the
   * cursor places nothing until the button is released.
   */
  lemma {:induction false} StrictStrokeOffGeometryPlacesNothing(s: ToolState, brush: Brush, parent: Nullable<TransformId>, frames: seq<Frame>)
    requires brush.brushRate > 0.0 && brush.colliderStrict
    requires s.mouseIsDown && s.lastCollider == Null
    requires forall i :: 0 <= i < |frames| ==> frames[i].ev.kind != MouseUp
    ensures RunFrames(s, brush, parent, frames).placedAt == []
    ensures RunFrames(s, brush, parent, frames).state.mouseIsDown
    ensures RunFrames(s, brush, parent, frames).state.lastCollider == Null
  {
    if |frames| > 0 {
      var n := |frames| - 1;
      StrictStrokeOffGeometryPlacesNothing(s, brush, parent, frames[..n]);
    }
  }
}
