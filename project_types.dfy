/**
 * The record shapes of a project and of a brush (src/mocks/types.ts).
 * An optional property is an `Option`; `None` stands for a property that
 * is absent (undefined).
 */
module ProjectTypes {
  import opened Wrappers

  datatype Status = Draft | Saved

  datatype CanvasSize = CanvasSize(width: real, height: real)

  datatype BrushType = Standard | Spray | Marker | CustomBrush | ImageBrush
  datatype BrushRotate = NoRotation | Natural | RandomRotation
  datatype PressureType = StandardPressure | CustomPressure
  datatype Curve = CurvePoints(a: real, b: real) | CurveFormula(formula: string)
  datatype Pressure = Pressure(ptype: PressureType, minMax: (real, real), curve: Curve)

  /**
   * A brush definition.  `discarded` is the optional `status: 'discarded'`
   * marker; the type-specific properties other than `vibration` and `tip`
   * are not modelled.
   */
  datatype Brush = Brush(
    name: string,
    btype: BrushType,
    weight: real,
    opacity: real,
    spacing: real,
    blend: bool,
    rotate: BrushRotate,
    discarded: bool,
    vibration: Option<real>,
    tip: Option<string>,
    pressure: Pressure)

  datatype Project = Project(
    id: string,
    title: string,
    code: Option<string>,
    canvasImage: Option<string>,
    canvasSize: CanvasSize,
    createdAt: string,
    lastModified: string,
    status: Status,
    hasUnsavedChanges: Option<bool>,
    filePath: Option<string>,
    brushes: Option<seq<Brush>>)

  /** JavaScript truthiness of an optional string: present and not empty. */
  predicate Truthy(s: Option<string>)
  {
    s.Some? && s.value != ""
  }
}
