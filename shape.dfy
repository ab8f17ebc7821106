/** `Shape` (src/shape.py): a drawable with a shape kind and an optional fill
    colour; an unknown kind name read back falls back to CIRCLE. */
module Shapes {
  import opened Common
  import opened MapObjects
  import opened Drawables

  /** `ShapeType.<kind>.name` */
  function ShapeTypeName(t: ShapeType): string {
    match t
    case Circle => "CIRCLE"
    case Square => "SQUARE"
    case Triangle => "TRIANGLE"
    case Hexagon => "HEXAGON"
  }

  /** `ShapeType[name]` inside the try/except: a member name selects that
      member; any other hashable value raises KeyError, which is caught and
      replaced by CIRCLE; a list or dict is unhashable and raises TypeError,
      which is not caught. */
  function ShapeTypeFromValue(v: Value): (r: Result<ShapeType>)
    ensures r.Err? <==> v.VList? || v.VDict?
    ensures r.Err? ==> r.error == TypeError("shape_type")
  {
    match v
    case VStr(name) =>
      if name == "SQUARE" then Ok(Square)
      else if name == "TRIANGLE" then Ok(Triangle)
      else if name == "HEXAGON" then Ok(Hexagon)
      else Ok(Circle)
    case VList(_) => Err(TypeError("shape_type"))
    case VDict(_) => Err(TypeError("shape_type"))
    case _ => Ok(Circle)
  }

  /** Each kind's name selects that kind again, and a string that names no
      kind falls back to CIRCLE. */
  lemma ShapeTypeNames(t: ShapeType, name: string)
    ensures ShapeTypeFromValue(VStr(ShapeTypeName(t))) == Ok(t)
    ensures (forall u: ShapeType :: name != ShapeTypeName(u)) ==> ShapeTypeFromValue(VStr(name)) == Ok(Circle)
  {
    if forall u: ShapeType :: name != ShapeTypeName(u) {
      assert name != ShapeTypeName(Square) && name != ShapeTypeName(Triangle) && name != ShapeTypeName(Hexagon);
    }
  }

  const ShapeKeys: set<string> := {"shape_type", "fill_color"}

  /** `Shape.to_dict()`: the drawable dict plus the kind's name and the fill
      colour, with object_type 'Shape'. */
  function ToDict(o: MapObject): (d: Dict)
    requires o.Shape?
    ensures d.Keys == BaseKeys + StrokeKeys + ShapeKeys
    ensures d["object_type"] == VStr("Shape")
    ensures d["shape_type"] == VStr(ShapeTypeName(o.shapeType))
  {
    ShapeKeysAreNew();
    DrawableToDict(o.base, o.stroke, ClassName(o))
      ["shape_type" := VStr(ShapeTypeName(o.shapeType))]
      ["fill_color" := OptStr(o.fillColor)]
  }

  /** `Shape.from_dict(data)`: the drawable fields, then the kind (default
      'CIRCLE'), then the fill colour (default None). */
  function FromDict(data: Dict): (r: Result<MapObject>)
    ensures r.Ok? ==> r.value.Shape?
  {
    var (b, s) :- DrawableFromDict(data);
    var shapeType :- ShapeTypeFromValue(Get(data, "shape_type", VStr("CIRCLE")));
    var fillColor :- GetOptStr(data, "fill_color");
    Ok(Shape(b, s, shapeType, fillColor))
  }

  lemma ShapeKeysAreNew()
    ensures "shape_type" !in BaseKeys + StrokeKeys && "fill_color" !in BaseKeys + StrokeKeys
  {
  }

  /** A saved shape loads back unchanged: position, stroke, opacity, kind and
      fill colour. */
  lemma RoundTrip(o: MapObject)
    requires o.Shape?
    ensures FromDict(ToDict(o)) == Ok(o)
  {
    RoundTripDrawable(o);
    RoundTripShapeFields(o);
    FromDictOf(ToDict(o), o.base, o.stroke, o.shapeType, o.fillColor);
  }

  /** The drawable part of a saved shape loads back unchanged. */
  lemma RoundTripDrawable(o: MapObject)
    requires o.Shape?
    ensures DrawableFromDict(ToDict(o)) == Ok((o.base, o.stroke))
  {
    var dd := DrawableToDict(o.base, o.stroke, "Shape");
    var d1 := dd["shape_type" := VStr(ShapeTypeName(o.shapeType))];
    assert ToDict(o) == d1["fill_color" := OptStr(o.fillColor)];
    ShapeKeysAreNew();
    DrawableIgnoresKey(dd, "shape_type", VStr(ShapeTypeName(o.shapeType)));
    DrawableIgnoresKey(d1, "fill_color", OptStr(o.fillColor));
    DrawableRoundTrip(o.base, o.stroke, "Shape");
  }

  /** The kind and the fill colour of a saved shape load back unchanged. */
  lemma RoundTripShapeFields(o: MapObject)
    requires o.Shape?
    ensures Get(ToDict(o), "shape_type", VStr("CIRCLE")) == VStr(ShapeTypeName(o.shapeType))
    ensures GetOptStr(ToDict(o), "fill_color") == Ok(o.fillColor)
  {
    var d := ToDict(o);
    assert d["fill_color"] == OptStr(o.fillColor);
    match o.fillColor {
      case None =>
      case Some(_) =>
    }
  }

  /** A dict whose drawable part, kind name and fill colour load as given
      loads as that shape. */
  lemma FromDictOf(d: Dict, b: Base, s: Stroke, t: ShapeType, fillColor: Option<string>)
    requires DrawableFromDict(d) == Ok((b, s))
    requires Get(d, "shape_type", VStr("CIRCLE")) == VStr(ShapeTypeName(t))
    requires GetOptStr(d, "fill_color") == Ok(fillColor)
    ensures FromDict(d) == Ok(Shape(b, s, t, fillColor))
  {
    ShapeTypeNames(t, "");
  }

  /** Whenever the drawable part loads, a missing kind gives CIRCLE and a
      missing fill colour gives None, and a kind given as any string never
      makes the load fail. */
  lemma FromDictDefaults(data: Dict)
    requires DrawableFromDict(data).Ok?
    ensures "shape_type" !in data && "fill_color" !in data ==>
      FromDict(data) == Ok(Shape(DrawableFromDict(data).value.0, DrawableFromDict(data).value.1, Circle, None))
    ensures ("shape_type" !in data || data["shape_type"].VStr?) && GetOptStr(data, "fill_color").Ok? ==>
      FromDict(data).Ok?
  {
  }
}
