/** The map-object hierarchy (src/map_object.py and its subclasses) as one
    closed datatype with a constructor per class, and the `to_dict` /
    `from_dict` of the base class `MapObject`. The subclasses' own
    serialisation lives in the modules named after them. */
module MapObjects {
  import opened Common

  /** The fields every map object has (`MapObject`'s dataclass fields). */
  datatype Base = Base(
    id: string,
    x: int,
    y: int,
    layer: int,
    displayChar: string,
    size: int,
    assetPath: Option<string>,
    blocksLight: bool,
    lightRadius: Option<int>)

  /** The fields `Drawable` adds. Opacity is a float that is only stored and
      copied, so it is carried as whatever value was given. */
  datatype Stroke = Stroke(color: string, width: int, opacity: Value)

  datatype ShapeType = Circle | Square | Triangle | Hexagon

  /** One constructor per class of the hierarchy. */
  datatype MapObject =
    | Plain(base: Base)
    | Drawable(base: Base, stroke: Stroke)
    | Shape(base: Base, stroke: Stroke, shapeType: ShapeType, fillColor: Option<string>)
    | Path(base: Base, stroke: Stroke, points: seq<(int, int)>)
    | Group(base: Base, objectIds: seq<string>)
    | Token(base: Base, entityId: string)

  /** `self.__class__.__name__` */
  function ClassName(o: MapObject): string {
    match o
    case Plain(_) => "MapObject"
    case Drawable(_, _) => "Drawable"
    case Shape(_, _, _, _) => "Shape"
    case Path(_, _, _) => "Path"
    case Group(_, _) => "Group"
    case Token(_, _) => "Token"
  }

  /** `MapObject(x, y, layer)` with every other field at its default; the
      `id` default is a fresh uuid, so it is a parameter here. */
  function NewBase(id: string, x: int, y: int, layer: int): Base {
    Base(id, x, y, layer, "?", 1, None, false, None)
  }

  const BaseKeys: set<string> := {
    "id", "object_type", "x", "y", "layer", "display_char", "size",
    "asset_path", "blocks_light", "light_radius"
  }

  /** `MapObject.to_dict()`, for an object of class `className`: exactly the
      base keys, with object_type naming the class. */
  function BaseToDict(b: Base, className: string): (d: Dict)
    ensures d.Keys == BaseKeys
    ensures d["object_type"] == VStr(className)
  {
    map[
      "id" := VStr(b.id),
      "object_type" := VStr(className),
      "x" := VInt(b.x),
      "y" := VInt(b.y),
      "layer" := VInt(b.layer),
      "display_char" := VStr(b.displayChar),
      "size" := VInt(b.size),
      "asset_path" := OptStr(b.assetPath),
      "blocks_light" := VBool(b.blocksLight),
      "light_radius" := OptInt(b.lightRadius)
    ]
  }

  /** `MapObject.from_dict(data)`: x and y are read first, then the optional
      keys, then id; a missing x raises KeyError('x') before anything else,
      and a loaded object has the position and id the dict holds. */
  function BaseFromDict(data: Dict): (r: Result<Base>)
    ensures "x" !in data ==> r == Err(KeyError("x"))
    ensures r.Ok? ==> && "x" in data && data["x"] == VInt(r.value.x)
                      && "y" in data && data["y"] == VInt(r.value.y)
                      && "id" in data && data["id"] == VStr(r.value.id)
  {
    BaseFromReads(
      RequireInt(data, "x"), RequireInt(data, "y"), GetInt(data, "layer", 0),
      GetStr(data, "display_char", "?"), GetInt(data, "size", 1),
      GetOptStr(data, "asset_path"), GetBool(data, "blocks_light", false),
      GetOptInt(data, "light_radius"), RequireStr(data, "id"))
  }

  /** The field reads of `from_dict`, in order: the first failing one is the
      error raised. */
  function BaseFromReads(
    x: Result<int>, y: Result<int>, layer: Result<int>, displayChar: Result<string>,
    size: Result<int>, assetPath: Result<Option<string>>, blocksLight: Result<bool>,
    lightRadius: Result<Option<int>>, id: Result<string>): (r: Result<Base>)
    ensures r.Ok? <==> x.Ok? && y.Ok? && layer.Ok? && displayChar.Ok? && size.Ok?
                       && assetPath.Ok? && blocksLight.Ok? && lightRadius.Ok? && id.Ok?
    ensures r.Ok? ==> r.value == Base(id.value, x.value, y.value, layer.value, displayChar.value,
                                      size.value, assetPath.value, blocksLight.value, lightRadius.value)
  {
    var x :- x;
    var y :- y;
    var layer :- layer;
    var displayChar :- displayChar;
    var size :- size;
    var assetPath :- assetPath;
    var blocksLight :- blocksLight;
    var lightRadius :- lightRadius;
    var id :- id;
    Ok(Base(id, x, y, layer, displayChar, size, assetPath, blocksLight, lightRadius))
  }

  /** `to_dict` of a plain `MapObject` */
  function ToDict(o: MapObject): (d: Dict)
    requires o.Plain?
    ensures d.Keys == BaseKeys && d["object_type"] == VStr("MapObject")
  {
    BaseToDict(o.base, ClassName(o))
  }

  /** `from_dict` on the class `MapObject` itself */
  function FromDict(data: Dict): (r: Result<MapObject>)
    ensures r.Ok? ==> r.value.Plain?
  {
    var b :- BaseFromDict(data);
    Ok(Plain(b))
  }

  /** `BaseFromDict` looks at the base keys only, so keys a subclass adds
      never change how the base fields load. */
  lemma BaseFieldsDecide(d1: Dict, d2: Dict)
    requires forall k | k in BaseKeys :: Agree(d1, d2, k)
    ensures BaseFromDict(d1) == BaseFromDict(d2)
  {
    assert RequireInt(d1, "x") == RequireInt(d2, "x") by { assert Agree(d1, d2, "x"); }
    assert RequireInt(d1, "y") == RequireInt(d2, "y") by { assert Agree(d1, d2, "y"); }
    assert GetInt(d1, "layer", 0) == GetInt(d2, "layer", 0) by { assert Agree(d1, d2, "layer"); }
    assert GetStr(d1, "display_char", "?") == GetStr(d2, "display_char", "?") by { assert Agree(d1, d2, "display_char"); }
    assert GetInt(d1, "size", 1) == GetInt(d2, "size", 1) by { assert Agree(d1, d2, "size"); }
    assert GetOptStr(d1, "asset_path") == GetOptStr(d2, "asset_path") by { assert Agree(d1, d2, "asset_path"); }
    assert GetBool(d1, "blocks_light", false) == GetBool(d2, "blocks_light", false) by { assert Agree(d1, d2, "blocks_light"); }
    assert GetOptInt(d1, "light_radius") == GetOptInt(d2, "light_radius") by { assert Agree(d1, d2, "light_radius"); }
    assert RequireStr(d1, "id") == RequireStr(d2, "id") by { assert Agree(d1, d2, "id"); }
  }

  /** In particular, setting a key outside the base keys leaves the load
      unchanged. */
  lemma BaseIgnoresKey(d: Dict, k: string, v: Value)
    requires k !in BaseKeys
    ensures BaseFromDict(d[k := v]) == BaseFromDict(d)
  {
    BaseFieldsDecide(d, d[k := v]);
  }

  /** Loading what `to_dict` wrote gives back every field, id included,
      whatever class name was written. */
  lemma BaseRoundTrip(b: Base, className: string)
    ensures BaseFromDict(BaseToDict(b, className)) == Ok(b)
  {
    var d := BaseToDict(b, className);
    match b.assetPath {
      case None =>
      case Some(_) =>
    }
    match b.lightRadius {
      case None =>
      case Some(_) =>
    }
  }

  lemma RoundTrip(o: MapObject)
    requires o.Plain?
    ensures FromDict(ToDict(o)) == Ok(o)
  {
    BaseRoundTrip(o.base, ClassName(o));
  }

  /** Missing x, y or id makes `from_dict` fail; a missing x is reported
      first, as KeyError('x'). */
  lemma BaseFromDictRequiredKeys(data: Dict)
    ensures "x" !in data ==> BaseFromDict(data) == Err(KeyError("x"))
    ensures "x" !in data || "y" !in data || "id" !in data ==> BaseFromDict(data).Err?
  {
  }

  /** `from_dict` succeeds exactly when x, y and id are present and every
      key present has the type its field holds. */
  lemma BaseFromDictSucceeds(data: Dict)
    ensures BaseFromDict(data).Ok? <==>
      && "x" in data && data["x"].VInt?
      && "y" in data && data["y"].VInt?
      && "id" in data && data["id"].VStr?
      && ("layer" in data ==> data["layer"].VInt?)
      && ("display_char" in data ==> data["display_char"].VStr?)
      && ("size" in data ==> data["size"].VInt?)
      && ("asset_path" in data ==> data["asset_path"].VNone? || data["asset_path"].VStr?)
      && ("blocks_light" in data ==> data["blocks_light"].VBool?)
      && ("light_radius" in data ==> data["light_radius"].VNone? || data["light_radius"].VInt?)
  {
  }

  /** After a successful load, saving again reproduces x, y and id and every
      optional key that was present, and writes the default for every
      optional key that was absent. */
  lemma BaseFromDictFillsDefaults(data: Dict, className: string)
    requires BaseFromDict(data).Ok?
    ensures var d := BaseToDict(BaseFromDict(data).value, className);
      && d["x"] == data["x"] && d["y"] == data["y"] && d["id"] == data["id"]
      && d["layer"] == Get(data, "layer", VInt(0))
      && d["display_char"] == Get(data, "display_char", VStr("?"))
      && d["size"] == Get(data, "size", VInt(1))
      && d["asset_path"] == Get(data, "asset_path", VNone)
      && d["blocks_light"] == Get(data, "blocks_light", VBool(false))
      && d["light_radius"] == Get(data, "light_radius", VNone)
  {
  }

  /** Loading a dict that holds only the required keys and the layer gives
      exactly the object the constructor builds with its defaults. */
  lemma MinimalDictGivesConstructorDefaults(id: string, x: int, y: int, layer: int)
    ensures BaseFromDict(map["x" := VInt(x), "y" := VInt(y), "layer" := VInt(layer), "id" := VStr(id)])
            == Ok(NewBase(id, x, y, layer))
  {
  }
}
