/** `Group` (src/group.py): a map object that lists the ids of other map
    objects. The ids are plain strings; nothing checks that they name
    existing objects. */
module Groups {
  import opened Common
  import opened MapObjects

  function IdsValue(ids: seq<string>): seq<Value> {
    seq(|ids|, i requires 0 <= i < |ids| => VStr(ids[i]))
  }

  /** A stored list of ids: every item must be a string. */
  function IdsFromValues(items: seq<Value>): (r: Result<seq<string>>)
    ensures r.Ok? <==> forall i | 0 <= i < |items| :: items[i].VStr?
    ensures r.Ok? ==> |r.value| == |items| && forall i | 0 <= i < |items| :: items[i] == VStr(r.value[i])
    ensures r.Err? ==> r.error == TypeError("object_ids")
  {
    if items == [] then Ok([])
    else if !items[0].VStr? then Err(TypeError("object_ids"))
    else
      var rest :- IdsFromValues(items[1..]);
      var ids := [items[0].s] + rest;
      assert forall i | 1 <= i < |items| :: items[i] == items[1..][i - 1] && ids[i] == rest[i - 1];
      Ok(ids)
  }

  lemma {:induction false} IdsRoundTrip(ids: seq<string>)
    ensures IdsFromValues(IdsValue(ids)) == Ok(ids)
  {
    if ids != [] {
      var v := IdsValue(ids);
      IdsRoundTrip(ids[1..]);
      assert v[1..] == IdsValue(ids[1..]);
      assert v[0] == VStr(ids[0]);
      assert [ids[0]] + ids[1..] == ids;
    }
  }

  /** `Group.to_dict()`: the base dict plus the id list, with object_type
      'Group'. */
  function ToDict(o: MapObject): (d: Dict)
    requires o.Group?
    ensures d.Keys == BaseKeys + {"object_ids"}
    ensures d["object_type"] == VStr("Group")
    ensures d["object_ids"] == VList(IdsValue(o.objectIds))
  {
    BaseToDict(o.base, ClassName(o))["object_ids" := VList(IdsValue(o.objectIds))]
  }

  /** `Group.from_dict(data)`: the base fields, then the ids (default empty). */
  function FromDict(data: Dict): (r: Result<MapObject>)
    ensures r.Ok? ==> r.value.Group?
    ensures r.Ok? && "object_ids" !in data ==> r.value.objectIds == []
  {
    var b :- BaseFromDict(data);
    match Get(data, "object_ids", VList([]))
    case VList(items) =>
      var ids :- IdsFromValues(items);
      Ok(Group(b, ids))
    case _ => Err(TypeError("object_ids"))
  }

  /** A saved group loads back with exactly the same ids in the same order. */
  lemma RoundTrip(o: MapObject)
    requires o.Group?
    ensures FromDict(ToDict(o)) == Ok(o)
  {
    var bd := BaseToDict(o.base, "Group");
    var d := bd["object_ids" := VList(IdsValue(o.objectIds))];
    assert ToDict(o) == d;
    assert "object_ids" !in BaseKeys;
    BaseIgnoresKey(bd, "object_ids", VList(IdsValue(o.objectIds)));
    BaseRoundTrip(o.base, "Group");
    IdsRoundTrip(o.objectIds);
  }
}
