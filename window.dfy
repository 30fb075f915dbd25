/**
 * The editor window (ObjectPainterWindow): the saved brush collection and
 * the selected brush, the getters that keep both usable, the brush list's
 * add and remove buttons, and the painting fields PaintObjects updates.
 *
 * Bare line numbers in this module refer to Editor/ObjectPainterWindow.cs.
 */
module Window {
  import opened Values
  import opened PrefabSettings
  import opened Painting
  import Mathf
  import Lists
  import Presets

  /** The brush collection asset (SavedBrushes, a ScriptableObject). */
  class SavedBrushes {
    var brushes: seq<Presets.BrushPreset>

    constructor ()
      ensures brushes == []
    {
      brushes := [];
    }
  }

  /**
   * The index normalisation of lines 54-57 and 203-206: an index outside
   * 0..count-1 is reset to 0.
   */
  function NormalizedIndex(index: int, count: nat): (r: int)
    ensures count > 0 ==> 0 <= r < count
    ensures 0 <= index < count ==> r == index
    ensures !(0 <= index < count) ==> r == 0
  {
    if index >= count || index < 0 then 0 else index
  }

  /** Normalising twice changes nothing more. */
  lemma NormalizedIndexIdempotent(index: int, count: nat)
    ensures NormalizedIndex(NormalizedIndex(index, count), count) == NormalizedIndex(index, count)
  {
  }

  /**
   * The selection after the remove button (line 42): one up but never below 0.
   * It stays inside the shortened list unless the list became empty.
   */
  function IndexAfterRemove(index: int): (r: int)
    ensures r >= 0
    ensures index > 0 ==> r == index - 1
    ensures index <= 0 ==> r == 0
  {
    Mathf.Max(0, index - 1)
  }

  /** After removing the selected brush the selection is in range again exactly when a brush is left. */
  lemma IndexAfterRemoveInRange(index: int, count: nat)
    requires 0 <= index < count
    ensures 0 <= IndexAfterRemove(index) < count - 1 <==> count > 1
  {
  }

  class ObjectPainterWindow {
    /** m_savedBrushes: null until the getter first loads the collection. */
    var savedBrushes: SavedBrushes?
    /** The selected index of the brush ReorderableList; -1 until the list is first normalised. */
    var brushIndex: int
    var parent: Nullable<TransformId>
    var mouseIsDown: bool
    var lastCollider: Nullable<ColliderId>
    var placeTimeStamp: real
    var lastHitPoint: Vec3

    /** The field initialisers (lines 64-73). */
    constructor ()
      ensures savedBrushes == null && brushIndex == -1 && parent == Null
      ensures Tool() == ToolState(false, Null, 0.0, Zero3)
    {
      savedBrushes := null;
      brushIndex := -1;
      parent := Null;
      mouseIsDown := false;
      lastCollider := Null;
      placeTimeStamp := 0.0;
      lastHitPoint := Zero3;
    }

    /** The painting fields as one value. */
    function Tool(): (t: ToolState)
      reads this
      ensures t.mouseIsDown == mouseIsDown && t.lastCollider == lastCollider
      ensures t.placeTimeStamp == placeTimeStamp && t.lastHitPoint == lastHitPoint
    {
      ToolState(mouseIsDown, lastCollider, placeTimeStamp, lastHitPoint)
    }

    /** The collection is loaded and the selected index names one of its brushes. */
    ghost predicate BrushesReady()
      reads this, savedBrushes
    {
      savedBrushes != null && 0 <= brushIndex < |savedBrushes.brushes|
    }

    /**
     * The SavedBrushes getter (lines 75-92). `loaded` is what
     * ObjectPainterResources.LoadSavedBrushes gives when the collection is
     * not loaded yet. An empty collection receives one new brush.
     */
    method GetSavedBrushes(loaded: SavedBrushes) returns (sb: SavedBrushes)
      modifies this`savedBrushes, savedBrushes, loaded
      ensures savedBrushes == sb
      ensures sb == if old(savedBrushes) != null then old(savedBrushes) else loaded
      ensures |old(sb.brushes)| > 0 ==> sb.brushes == old(sb.brushes)
      ensures |old(sb.brushes)| == 0 ==> |sb.brushes| == 1 && fresh(sb.brushes[0]) && sb.brushes[0].IsNew()
      ensures |sb.brushes| > 0
      ensures loaded != sb ==> loaded.brushes == old(loaded.brushes)
    {
      if savedBrushes == null {
        savedBrushes := loaded;
      }
      sb := savedBrushes;
      if |sb.brushes| == 0 {
        var brush := new Presets.BrushPreset();
        sb.brushes := sb.brushes + [brush];
      }
    }

    /**
     * The BrushList getter (lines 15-61): it loads the collection through
     * the SavedBrushes getter and resets an out-of-range selection to 0.
     */
    method GetBrushList(loaded: SavedBrushes)
      modifies this`savedBrushes, this`brushIndex, savedBrushes, loaded
      ensures savedBrushes == if old(savedBrushes) != null then old(savedBrushes) else loaded
      ensures var sb := savedBrushes; |old(sb.brushes)| > 0 ==> sb.brushes == old(sb.brushes)
      ensures var sb := savedBrushes; |old(sb.brushes)| == 0 ==> |sb.brushes| == 1 && fresh(sb.brushes[0]) && sb.brushes[0].IsNew()
      ensures brushIndex == NormalizedIndex(old(brushIndex), |savedBrushes.brushes|)
      ensures BrushesReady()
    {
      var sb := GetSavedBrushes(loaded);
      if brushIndex >= |sb.brushes| || brushIndex < 0 {
        brushIndex := 0;
      }
    }

    /**
     * Lines 198-209 of the inspector: the collection is made non-empty, the
     * selection normalised, and the selected brush is the one shown.
     */
    method SelectedBrush(loaded: SavedBrushes) returns (brush: Presets.BrushPreset)
      modifies this`savedBrushes, this`brushIndex, savedBrushes, loaded
      ensures BrushesReady() && brush == savedBrushes.brushes[brushIndex]
      ensures savedBrushes == if old(savedBrushes) != null then old(savedBrushes) else loaded
      ensures var sb := savedBrushes; |old(sb.brushes)| > 0 ==> sb.brushes == old(sb.brushes)
      ensures var sb := savedBrushes; |old(sb.brushes)| == 0 ==> |sb.brushes| == 1 && fresh(sb.brushes[0]) && sb.brushes[0].IsNew()
      ensures brushIndex == NormalizedIndex(old(brushIndex), |savedBrushes.brushes|)
    {
      GetBrushList(loaded);
      brush := savedBrushes.brushes[brushIndex];
    }

    /**
     * The add button of the brush list (lines 29-30): a new brush is appended
     * and selected. The header runs inside the list's layout, after the
     * getter has loaded the collection and made it non-empty.
     */
    method AddBrush() returns (added: Presets.BrushPreset)
      requires savedBrushes != null && |savedBrushes.brushes| > 0
      modifies savedBrushes, this`brushIndex
      ensures savedBrushes.brushes == old(savedBrushes.brushes) + [added]
      ensures fresh(added) && added.IsNew()
      ensures brushIndex == |savedBrushes.brushes| - 1
      ensures BrushesReady()
    {
      added := new Presets.BrushPreset();
      savedBrushes.brushes := savedBrushes.brushes + [added];
      brushIndex := |savedBrushes.brushes| - 1;
    }

    /**
     * The remove button of the brush list (lines 38-44): only with a brush
     * selected, that brush is removed and the selection moves one up, but
     * not below 0.
     */
    method RemoveBrush() returns (removed: bool)
      requires savedBrushes != null && |savedBrushes.brushes| > 0
      modifies savedBrushes, this`brushIndex
      ensures removed <==> 0 <= old(brushIndex) < |old(savedBrushes.brushes)|
      ensures removed ==>
                savedBrushes.brushes == Lists.RemovedAt(old(savedBrushes.brushes), old(brushIndex)) &&
                brushIndex == IndexAfterRemove(old(brushIndex))
      ensures !removed ==> savedBrushes.brushes == old(savedBrushes.brushes) && brushIndex == old(brushIndex)
    {
      removed := brushIndex >= 0 && brushIndex <= |savedBrushes.brushes| - 1;
      if removed {
        savedBrushes.brushes := Lists.RemovedAt(savedBrushes.brushes, brushIndex);
        brushIndex := Mathf.Max(0, brushIndex - 1);
      }
    }

    /**
     * ChooseRandomPrefab (lines 271-287): `draw(0)` is the draw before the
     * loop and `draw(i + 1)` the draw at step i. The result is the earliest
     * entry with the best draw-times-weight score.
     */
    method ChooseRandomPrefab(draw: nat -> real) returns (currentPick: BrushPrefabSettings)
      requires BrushesReady() && |savedBrushes.brushes[brushIndex].prefabs| > 0
      ensures var prefabs := savedBrushes.brushes[brushIndex].prefabs;
              var p := WeightedPick(prefabs, draw);
              IsWeightedPick(prefabs, draw, |prefabs|, p) && currentPick == prefabs[p.index]
    {
      var prefabs := savedBrushes.brushes[brushIndex].prefabs;
      currentPick := prefabs[0];
      var currentWeight := draw(0) * currentPick.weight;
      ghost var k := 0;
      var i := 0;
      while i < |prefabs|
        invariant 0 <= i <= |prefabs|
        invariant PickAfter(prefabs, draw, i) == Pick(k, currentWeight)
        invariant currentPick == prefabs[k]
      {
        var weight := draw(i + 1) * prefabs[i].weight;
        if weight > currentWeight {
          currentWeight := weight;
          currentPick := prefabs[i];
          k := i;
        }
        i := i + 1;
      }
      PickAfterIsWeightedPick(prefabs, draw, |prefabs|);
    }

    /** The mouse checks of PaintObjects (lines 320-329). */
    method UpdateMouse(current: Event, brushCollider: Nullable<ColliderId>)
      modifies this`mouseIsDown, this`lastCollider
      ensures Tool() == MouseStep(old(Tool()), current, brushCollider)
    {
      if !mouseIsDown && current.kind == MouseDown && current.noModifiers && current.button == 0 {
        lastCollider := brushCollider;
        mouseIsDown := true;
      }
      if mouseIsDown && current.kind == MouseUp {
        lastCollider := Null;
        mouseIsDown := false;
      }
    }

    /**
     * The rest of PaintObjects (lines 330-438): the gates and filters, the
     * pick, and the placement with its new time stamp.
     */
    method PlaceObject(hit: BrushHit, surface: Nullable<SurfaceHit>, angle: real, draw: nat -> real, now: real, stampNow: real)
      returns (outcome: Outcome)
      requires BrushesReady()
      requires savedBrushes.brushes[brushIndex].brushRate > 0.0 && |savedBrushes.brushes[brushIndex].prefabs| > 0
      modifies this`placeTimeStamp, this`lastHitPoint
      ensures Step(Tool(), outcome) ==
              PlaceStep(old(Tool()), savedBrushes.brushes[brushIndex].PaintSettings(), parent, hit, surface, angle, draw, now, stampNow)
    {
      var brush := savedBrushes.brushes[brushIndex];
      if !mouseIsDown || hit.collider == Null {
        return Skipped(NotPainting);
      }
      if placeTimeStamp >= now {
        return Skipped(Waiting);
      }
      if surface == Null {
        return Skipped(NoSurface);
      }
      var hitToSurface := surface.value;
      if brush.colliderStrict && NonNull(hitToSurface.collider) != lastCollider {
        return Skipped(OtherCollider);
      }
      if brush.cullEnabled {
        if !brush.cullInvert && angle > brush.cullAngle {
          return Skipped(Culled);
        }
        if brush.cullInvert && angle < brush.cullAngle {
          return Skipped(Culled);
        }
      }
      var pick := ChooseRandomPrefab(draw);
      if pick.paintObject == Null {
        return Skipped(NullPrefab);
      }
      var axes := AlignAxes(pick.alignMode, hitToSurface.normal, pick.alignToPath, Sub(hit.point, lastHitPoint));
      outcome := Placed(Placement(pick.paintObject.value, parent, hitToSurface.point, axes));
      lastHitPoint := hit.point;
      var rate := brush.brushRate;
      placeTimeStamp := stampNow + (60.0 / rate) / 60.0;
    }

    /**
     * PaintObjects (lines 315-439) for one event. The brush raycast, the
     * first surface ray that hits, the cull angle, the pick's draws and the
     * two clock readings are inputs; the result says whether and how an object is placed.
     * The scene view draws the brush just before, through both getters, so
     * the collection is ready; the rate field keeps the rate at least 1.
     */
    method PaintObjects(current: Event, hit: BrushHit, surface: Nullable<SurfaceHit>, angle: real, draw: nat -> real,
                        now: real, stampNow: real)
      returns (outcome: Outcome)
      requires BrushesReady() && savedBrushes.brushes[brushIndex].brushRate > 0.0
      modifies this`mouseIsDown, this`lastCollider, this`placeTimeStamp, this`lastHitPoint
      ensures Step(Tool(), outcome) ==
              PaintStep(old(Tool()), savedBrushes.brushes[brushIndex].PaintSettings(), parent, current, hit, surface, angle, draw,
                        now, stampNow)
    {
      if current.kind == Repaint {
        return Skipped(RepaintEvent);
      }
      if |savedBrushes.brushes[brushIndex].prefabs| == 0 {
        return Skipped(NoPrefabs);
      }
      UpdateMouse(current, hit.collider);
      outcome := PlaceObject(hit, surface, angle, draw, now, stampNow);
    }
  }
}
