/**
 * One entry of a brush's prefab list (BrushPrefabSettings). Unity serializes
 * it inline in the brush, so it is a value here.
 */
module PrefabSettings {
  import opened Values

  /** Which axis of the placed object is aligned with the surface normal. */
  datatype AlignMode = Up | Down | Left | Right | Forward | Backward | None

  datatype BrushPrefabSettings = BrushPrefabSettings(
    paintObject: Nullable<AssetId>,
    alignToPath: bool,
    objectRandomScale: Vec2,
    objectRandomRotation: Vec2,
    alignMode: AlignMode,
    weight: real,
    isExpanded: bool)

  /** The field initialisers of a new entry: no prefab, scale range (1, 1), rotation range (0, 0), weight 1. */
  const DefaultPrefab: BrushPrefabSettings :=
    BrushPrefabSettings(Null, false, Vec2(1.0, 1.0), Vec2(0.0, 0.0), Up, 1.0, false)
}
