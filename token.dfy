/** `Token` (src/token.py): a map object tied to a game entity. A token must
    name an entity, its `from_dict` defaults the layer to 4, and it never
    reads the light fields, so loading resets them. */
module Tokens {
  import opened Common
  import opened MapObjects

  /** `Token(entity_id=..., x, y, layer)`: `__post_init__` raises ValueError
      when no entity id is given. */
  function NewToken(id: string, x: int, y: int, layer: int, entityId: Option<string>): (r: Result<MapObject>)
    ensures r.Ok? <==> entityId.Some?
    ensures r.Err? ==> r.error == ValueError
    ensures r.Ok? ==> r.value.Token? && r.value.entityId == entityId.value && r.value.base == NewBase(id, x, y, layer)
  {
    if entityId.None? then Err(ValueError) else Ok(Token(NewBase(id, x, y, layer), entityId.value))
  }

  /** `data['entity_id']`, which may hold None */
  function RequireOptStr(data: Dict, key: string): (r: Result<Option<string>>)
    ensures r.Ok? <==> key in data && (data[key].VNone? || data[key].VStr?)
    ensures key !in data ==> r == Err(KeyError(key))
    ensures key in data && r.Err? ==> r == Err(TypeError(key))
    ensures r.Ok? ==> key in data && data[key] == OptStr(r.value)
  {
    if key !in data then Err(KeyError(key))
    else match data[key]
      case VNone => Ok(None)
      case VStr(s) => Ok(Some(s))
      case _ => Err(TypeError(key))
  }

  /** `Token.to_dict()`: the base dict plus entity_id, object_type 'Token'. */
  function ToDict(o: MapObject): (d: Dict)
    requires o.Token?
    ensures d.Keys == BaseKeys + {"entity_id"}
    ensures d["object_type"] == VStr("Token") && d["entity_id"] == VStr(o.entityId)
  {
    BaseToDict(o.base, ClassName(o))["entity_id" := VStr(o.entityId)]
  }

  /** `Token.from_dict(data)`: x, y, the optional keys (layer defaulting to
      4), entity_id, the construction with its entity check, and finally id.
      blocks_light and light_radius are not read. */
  function FromDict(data: Dict): (r: Result<MapObject>)
    ensures r.Ok? ==> r.value.Token? && !r.value.base.blocksLight && r.value.base.lightRadius.None?
    ensures r.Ok? ==> && "entity_id" in data && data["entity_id"] == VStr(r.value.entityId)
                      && "id" in data && data["id"] == VStr(r.value.base.id)
  {
    var x :- RequireInt(data, "x");
    var y :- RequireInt(data, "y");
    var layer :- GetInt(data, "layer", 4);
    var displayChar :- GetStr(data, "display_char", "?");
    var size :- GetInt(data, "size", 1);
    var assetPath :- GetOptStr(data, "asset_path");
    var entityId :- RequireOptStr(data, "entity_id");
    var token :- NewToken("", x, y, layer, entityId);
    var id :- RequireStr(data, "id");
    Ok(Token(Base(id, x, y, layer, displayChar, size, assetPath, false, None), token.entityId))
  }

  /** A saved token loads back with id, entity, position, layer, glyph, size
      and asset, but with blocks_light False and light_radius None; so the
      round trip is exact iff those two were already at their defaults. */
  lemma RoundTripResetsLight(o: MapObject)
    requires o.Token?
    ensures FromDict(ToDict(o)) == Ok(Token(o.base.(blocksLight := false, lightRadius := None), o.entityId))
    ensures FromDict(ToDict(o)) == Ok(o) <==> !o.base.blocksLight && o.base.lightRadius.None?
  {
    var b := o.base;
    var d := ToDict(o);
    assert RequireInt(d, "x") == Ok(b.x) && RequireInt(d, "y") == Ok(b.y);
    assert GetInt(d, "layer", 4) == Ok(b.layer) && GetInt(d, "size", 1) == Ok(b.size);
    assert GetStr(d, "display_char", "?") == Ok(b.displayChar);
    assert GetOptStr(d, "asset_path") == Ok(b.assetPath) by {
      match b.assetPath {
        case None =>
        case Some(_) =>
      }
    }
    assert RequireOptStr(d, "entity_id") == Ok(Some(o.entityId));
    assert RequireStr(d, "id") == Ok(b.id);
  }

  /** Loading needs x, y, entity_id and id; a None entity_id raises
      ValueError even before id is read; an absent layer becomes 4. */
  lemma FromDictRequirements(data: Dict)
    ensures "x" !in data || "y" !in data || "entity_id" !in data || "id" !in data ==> FromDict(data).Err?
    ensures "entity_id" in data && data["entity_id"] == VNone ==> FromDict(data).Err?
    ensures ("x" in data && data["x"].VInt?) && ("y" in data && data["y"].VInt?)
            && GetInt(data, "layer", 4).Ok? && GetStr(data, "display_char", "?").Ok?
            && GetInt(data, "size", 1).Ok? && GetOptStr(data, "asset_path").Ok?
            && "entity_id" in data && data["entity_id"] == VNone
            ==> FromDict(data) == Err(ValueError)
    ensures FromDict(data).Ok? && "layer" !in data ==> FromDict(data).value.base.layer == 4
    ensures FromDict(data).Ok? ==> !FromDict(data).value.base.blocksLight && FromDict(data).value.base.lightRadius.None?
  {
  }
}
