/** `Drawable` (src/drawable.py): a map object with a stroke colour, a
    stroke width and an opacity, serialised on top of the base dict. */
module Drawables {
  import opened Common
  import opened MapObjects

  /** The stroke of a freshly constructed drawable. */
  const DefaultStroke: Stroke := Stroke("#000000", 2, VFloat(1.0))

  const StrokeKeys: set<string> := {"stroke_color", "stroke_width", "opacity"}

  /** `Drawable.to_dict()` for an object of class `className`: the base dict
      plus the three stroke keys, the base entries left as they were. */
  function DrawableToDict(b: Base, s: Stroke, className: string): (d: Dict)
    ensures d.Keys == BaseKeys + StrokeKeys
    ensures d["object_type"] == VStr(className)
  {
    StrokeKeysNotBase();
    BaseToDict(b, className)["stroke_color" := VStr(s.color)]
                            ["stroke_width" := VInt(s.width)]
                            ["opacity" := s.opacity]
  }

  /** The stroke half of `Drawable.from_dict(data)`, read after the base: it
      fails only on a stroke colour that is not a string or a width that is
      not an int, and keeps any opacity as given. */
  function StrokeFromDict(data: Dict): (r: Result<Stroke>)
    ensures r.Ok? <==> ("stroke_color" in data ==> data["stroke_color"].VStr?)
                       && ("stroke_width" in data ==> data["stroke_width"].VInt?)
    ensures r.Ok? ==> r.value.opacity == Get(data, "opacity", VFloat(1.0))
  {
    var color :- GetStr(data, "stroke_color", "#000000");
    var width :- GetInt(data, "stroke_width", 2);
    Ok(Stroke(color, width, Get(data, "opacity", VFloat(1.0))))
  }

  /** `Drawable.from_dict(data)`: the base fields first, then the stroke;
      it loads exactly when both halves do, and a base error is reported
      first. */
  function DrawableFromDict(data: Dict): (r: Result<(Base, Stroke)>)
    ensures r.Ok? <==> BaseFromDict(data).Ok? && StrokeFromDict(data).Ok?
    ensures r.Ok? ==> r.value == (BaseFromDict(data).value, StrokeFromDict(data).value)
    ensures BaseFromDict(data).Err? ==> r == Err(BaseFromDict(data).error)
  {
    var b :- BaseFromDict(data);
    var s :- StrokeFromDict(data);
    Ok((b, s))
  }

  /** No stroke key is a base key, so the stroke entries never overwrite a
      base entry. */
  lemma StrokeKeysNotBase()
    ensures "stroke_color" !in BaseKeys && "stroke_width" !in BaseKeys && "opacity" !in BaseKeys
  {
  }

  /** The stroke entries never overwrite a base entry. */
  lemma DrawableKeepsBase(b: Base, s: Stroke, className: string)
    ensures forall k | k in BaseKeys :: DrawableToDict(b, s, className)[k] == BaseToDict(b, className)[k]
  {
    StrokeKeysNotBase();
  }

  /** `to_dict` of a `Drawable` */
  function ToDict(o: MapObject): (d: Dict)
    requires o.Drawable?
    ensures d.Keys == BaseKeys + StrokeKeys && d["object_type"] == VStr("Drawable")
  {
    DrawableToDict(o.base, o.stroke, ClassName(o))
  }

  /** `from_dict` on the class `Drawable` */
  function FromDict(data: Dict): (r: Result<MapObject>)
    ensures r.Ok? ==> r.value.Drawable?
  {
    var (b, s) :- DrawableFromDict(data);
    Ok(Drawable(b, s))
  }

  /** Saving and loading a drawable gives back its base and stroke fields. */
  lemma DrawableRoundTrip(b: Base, s: Stroke, className: string)
    ensures DrawableFromDict(DrawableToDict(b, s, className)) == Ok((b, s))
  {
    var d0 := BaseToDict(b, className);
    var d1 := d0["stroke_color" := VStr(s.color)];
    var d2 := d1["stroke_width" := VInt(s.width)];
    var d3 := d2["opacity" := s.opacity];
    assert d3 == DrawableToDict(b, s, className);
    StrokeKeysNotBase();
    BaseIgnoresKey(d0, "stroke_color", VStr(s.color));
    BaseIgnoresKey(d1, "stroke_width", VInt(s.width));
    BaseIgnoresKey(d2, "opacity", s.opacity);
    BaseRoundTrip(b, className);
    assert StrokeFromDict(d3) == Ok(s);
  }

  /** `DrawableFromDict` looks at the base and stroke keys only. */
  lemma DrawableFieldsDecide(d1: Dict, d2: Dict)
    requires forall k | k in BaseKeys + StrokeKeys :: Agree(d1, d2, k)
    ensures DrawableFromDict(d1) == DrawableFromDict(d2)
  {
    BaseFieldsDecide(d1, d2);
    assert Agree(d1, d2, "stroke_color") && Agree(d1, d2, "stroke_width") && Agree(d1, d2, "opacity");
  }

  /** In particular, setting a key outside them leaves the load unchanged. */
  lemma DrawableIgnoresKey(d: Dict, k: string, v: Value)
    requires k !in BaseKeys + StrokeKeys
    ensures DrawableFromDict(d[k := v]) == DrawableFromDict(d)
  {
    DrawableFieldsDecide(d, d[k := v]);
  }

  lemma RoundTrip(o: MapObject)
    requires o.Drawable?
    ensures FromDict(ToDict(o)) == Ok(o)
  {
    DrawableRoundTrip(o.base, o.stroke, ClassName(o));
  }

  /** Absent stroke keys take the defaults, present ones are kept. */
  lemma StrokeFromDictDefaults(data: Dict)
    requires StrokeFromDict(data).Ok?
    ensures var s := StrokeFromDict(data).value;
      && s.color == (if "stroke_color" in data then data["stroke_color"].s else DefaultStroke.color)
      && s.width == (if "stroke_width" in data then data["stroke_width"].i else DefaultStroke.width)
      && s.opacity == (if "opacity" in data then data["opacity"] else DefaultStroke.opacity)
  {
  }

  /** A dict with only the required base keys and the layer loads as a
      freshly constructed drawable. */
  lemma MinimalDictGivesConstructorDefaults(id: string, x: int, y: int, layer: int)
    ensures FromDict(map["x" := VInt(x), "y" := VInt(y), "layer" := VInt(layer), "id" := VStr(id)])
            == Ok(Drawable(NewBase(id, x, y, layer), DefaultStroke))
  {
    MapObjects.MinimalDictGivesConstructorDefaults(id, x, y, layer);
  }
}
