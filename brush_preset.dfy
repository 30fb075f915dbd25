/**
 * A brush preset (BrushPreset): its settings, its prefab list with the
 * list's selected index, and the edits its inspector applies to them.
 *
 * Bare line numbers in this module refer to Editor/BrushPreset.cs.
 */
module Presets {
  import opened Values
  import opened PrefabSettings
  import Mathf
  import Lists
  import LayerMasks
  import Painting

  /** The prefab list with every entry's isExpanded set to `expanded` and nothing else changed. */
  function AllExpanded(prefabs: seq<BrushPrefabSettings>, expanded: bool): (r: seq<BrushPrefabSettings>)
    ensures |r| == |prefabs|
    ensures forall i :: 0 <= i < |r| ==> r[i].isExpanded == expanded
    ensures forall i :: 0 <= i < |r| ==> r[i].(isExpanded := prefabs[i].isExpanded) == prefabs[i]
  {
    seq(|prefabs|, i requires 0 <= i < |prefabs| => prefabs[i].(isExpanded := expanded))
  }

  /** Expanding or collapsing all only ever depends on the last button pressed. */
  lemma LastExpandWins(prefabs: seq<BrushPrefabSettings>, first: bool, second: bool)
    ensures AllExpanded(AllExpanded(prefabs, first), second) == AllExpanded(prefabs, second)
  {
  }

  /** Collapsing all undoes expanding all on a list that was fully collapsed. */
  lemma CollapseUndoesExpand(prefabs: seq<BrushPrefabSettings>)
    requires forall i :: 0 <= i < |prefabs| ==> !prefabs[i].isExpanded
    ensures AllExpanded(AllExpanded(prefabs, true), false) == prefabs
  {
    var r := AllExpanded(AllExpanded(prefabs, true), false);
    assert forall i :: 0 <= i < |prefabs| ==> r[i] == prefabs[i];
  }

  class BrushPreset {
    var brushName: string
    var colliderStrict: bool
    var layerMask: LayerMasks.Word
    var brushRadius: real
    var brushRate: real
    var cullEnabled: bool
    var cullAngle: real
    var cullInvert: bool
    var cullRef: Vec3
    var prefabs: seq<BrushPrefabSettings>
    /** The selected index of the prefab ReorderableList; -1 selects nothing. */
    var prefabsIndex: int

    /**
     * The ranges the inspector keeps the fields in, and a prefab selection
     * that is either nothing or an entry.
     */
    ghost predicate Valid()
      reads this
    {
      && brushRadius >= 0.0
      && 1.0 <= brushRate <= 10000.0
      && 0.0 <= cullAngle <= 90.0
      && -1 <= prefabsIndex < |prefabs|
    }

    /** The field initialisers (lines 12-22); the list starts with nothing selected. */
    ghost predicate IsNew()
      reads this
    {
      && brushName == "New brush"
      && colliderStrict
      && layerMask == LayerMasks.AllLayers
      && brushRadius == 5.0
      && brushRate == 10.0
      && !cullEnabled
      && cullAngle == 60.0
      && !cullInvert
      && cullRef == Up3
      && prefabs == []
      && prefabsIndex == -1
    }

    constructor ()
      ensures IsNew() && Valid()
    {
      brushName := "New brush";
      colliderStrict := true;
      layerMask := LayerMasks.AllLayers;
      brushRadius := 5.0;
      brushRate := 10.0;
      cullEnabled := false;
      cullAngle := 60.0;
      cullInvert := false;
      cullRef := Up3;
      prefabs := [];
      prefabsIndex := -1;
    }

    /** What the placement logic reads from this brush. */
    function PaintSettings(): (b: Painting.Brush)
      reads this
      ensures b.prefabs == prefabs && b.brushRate == brushRate && b.colliderStrict == colliderStrict
      ensures b.cullEnabled == cullEnabled && b.cullAngle == cullAngle && b.cullInvert == cullInvert
    {
      Painting.Brush(colliderStrict, cullEnabled, cullAngle, cullInvert, brushRate, prefabs)
    }

    /**
     * The "General" group (lines 49-52): the name is taken as typed, the
     * radius as its absolute value and the rate clamped to 1..10000.
     */
    method ApplyGeneralEdits(nameField: string, radiusField: real, rateField: real)
      modifies this`brushName, this`brushRadius, this`brushRate
      ensures brushName == nameField
      ensures brushRadius == Mathf.Abs(radiusField) && brushRadius >= 0.0
      ensures brushRate == Mathf.Clamp(rateField, 1.0, 10000.0) && 1.0 <= brushRate <= 10000.0
      ensures old(Valid()) ==> Valid()
    {
      brushName := nameField;
      brushRadius := Mathf.Abs(radiusField);
      brushRate := Mathf.Clamp(rateField, 1.0, 10000.0);
    }

    /**
     * The "Colliders" group (lines 61-62): the layer mask goes through the
     * layer-mask field and colliderStrict is taken from its toggle.
     */
    method ApplyColliderEdits(layers: seq<string>, nameToLayer: string -> int, maskPopup: LayerMasks.Word -> LayerMasks.Word,
                              strictToggle: bool)
      modifies this`layerMask, this`colliderStrict
      ensures var numbers := LayerMasks.LayerNumbers(layers, nameToLayer);
              layerMask == LayerMasks.Expanded(numbers, maskPopup(LayerMasks.Compressed(numbers, old(layerMask))))
      ensures colliderStrict == strictToggle
      ensures old(Valid()) ==> Valid()
    {
      layerMask := LayerMasks.LayerMaskField(layers, nameToLayer, maskPopup, layerMask);
      colliderStrict := strictToggle;
    }

    /**
     * The "Culling" group (lines 71-78): the toggle is always read; the angle
     * slider (clamped to 0..90), the invert toggle and the reference vector
     * only while culling is on.
     */
    method ApplyCullEdits(enabledToggle: bool, angleSlider: real, invertToggle: bool, refField: Vec3)
      modifies this`cullEnabled, this`cullAngle, this`cullInvert, this`cullRef
      ensures cullEnabled == enabledToggle
      ensures enabledToggle ==> cullAngle == Mathf.Clamp(angleSlider, 0.0, 90.0) && cullInvert == invertToggle && cullRef == refField
      ensures !enabledToggle ==> cullAngle == old(cullAngle) && cullInvert == old(cullInvert) && cullRef == old(cullRef)
      ensures enabledToggle ==> 0.0 <= cullAngle <= 90.0
      ensures old(Valid()) ==> Valid()
    {
      cullEnabled := enabledToggle;
      if cullEnabled {
        cullAngle := Mathf.Clamp(angleSlider, 0.0, 90.0);
        cullInvert := invertToggle;
        cullRef := refField;
      }
    }

    /** The loops at lines 99-103 (expanded = true) and 107-113 (expanded = false). */
    method SetAllExpanded(expanded: bool)
      modifies this`prefabs
      ensures prefabs == AllExpanded(old(prefabs), expanded)
      ensures old(Valid()) ==> Valid()
    {
      for i := 0 to |prefabs|
        invariant |prefabs| == |old(prefabs)|
        invariant forall j :: 0 <= j < i ==> prefabs[j] == old(prefabs)[j].(isExpanded := expanded)
        invariant forall j :: i <= j < |prefabs| ==> prefabs[j] == old(prefabs)[j]
      {
        prefabs := prefabs[i := prefabs[i].(isExpanded := expanded)];
      }
    }

    /** The expand-all button (lines 99-103). */
    method ExpandAll()
      modifies this`prefabs
      ensures prefabs == AllExpanded(old(prefabs), true)
      ensures old(Valid()) ==> Valid()
    {
      SetAllExpanded(true);
    }

    /** The collapse-all button (lines 107-113). */
    method CollapseAll()
      modifies this`prefabs
      ensures prefabs == AllExpanded(old(prefabs), false)
      ensures old(Valid()) ==> Valid()
    {
      SetAllExpanded(false);
    }

    /** The add button (lines 119-120): a default entry is appended and selected. */
    method AddPrefab()
      modifies this`prefabs, this`prefabsIndex
      ensures prefabs == old(prefabs) + [DefaultPrefab]
      ensures prefabsIndex == |prefabs| - 1
      ensures old(Valid()) ==> Valid()
    {
      prefabs := prefabs + [DefaultPrefab];
      prefabsIndex := |prefabs| - 1;
    }

    /**
     * The remove button (lines 131-136): only with an entry selected, that
     * entry is removed and the selection moves one up, to -1 when it was the
     * first.
     */
    method RemovePrefab() returns (removed: bool)
      modifies this`prefabs, this`prefabsIndex
      ensures removed <==> 0 <= old(prefabsIndex) < |old(prefabs)|
      ensures removed ==> prefabs == Lists.RemovedAt(old(prefabs), old(prefabsIndex)) && prefabsIndex == old(prefabsIndex) - 1
      ensures !removed ==> prefabs == old(prefabs) && prefabsIndex == old(prefabsIndex)
      ensures old(Valid()) ==> Valid()
    {
      removed := prefabsIndex >= 0 && prefabsIndex <= |prefabs| - 1;
      if removed {
        prefabs := Lists.RemovedAt(prefabs, prefabsIndex);
        prefabsIndex := prefabsIndex - 1;
      }
    }
  }
}
