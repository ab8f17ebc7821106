/** `Path` (src/path.py): a drawable holding a freehand list of points. The
    position x, y and the points are independent fields. */
module Paths {
  import opened Common
  import opened MapObjects
  import opened Drawables

  /** How one point is written: a two-element list, as JSON stores a tuple. */
  function PointValue(p: (int, int)): Value {
    VList([VInt(p.0), VInt(p.1)])
  }

  function PointsValue(points: seq<(int, int)>): seq<Value> {
    seq(|points|, i requires 0 <= i < |points| => PointValue(points[i]))
  }

  /** `[tuple(p) for p in ...]`: each item must be a pair of ints. */
  function PointsFromValues(items: seq<Value>): (r: Result<seq<(int, int)>>)
    ensures r.Ok? ==> |r.value| == |items|
    ensures r.Ok? ==> forall i | 0 <= i < |items| :: items[i] == PointValue(r.value[i])
    ensures r.Err? ==> r.error == TypeError("points")
  {
    if items == [] then Ok([])
    else
      match items[0]
      case VList(pair) =>
        if |pair| == 2 && pair[0].VInt? && pair[1].VInt? then
          var rest :- PointsFromValues(items[1..]);
          var points := [(pair[0].i, pair[1].i)] + rest;
          assert pair == [pair[0], pair[1]];
          assert forall i | 1 <= i < |items| :: items[i] == items[1..][i - 1] && points[i] == rest[i - 1];
          Ok(points)
        else Err(TypeError("points"))
      case _ => Err(TypeError("points"))
  }

  /** Points are read back in the order they were written. */
  lemma {:induction false} PointsRoundTrip(points: seq<(int, int)>)
    ensures PointsFromValues(PointsValue(points)) == Ok(points)
  {
    if points != [] {
      var v := PointsValue(points);
      PointsRoundTrip(points[1..]);
      assert v[1..] == PointsValue(points[1..]);
      assert v[0] == VList([VInt(points[0].0), VInt(points[0].1)]);
      assert [(points[0].0, points[0].1)] + points[1..] == points;
    }
  }

  /** `Path.to_dict()`: the drawable dict plus the points in order, with
      object_type 'Path'. */
  function ToDict(o: MapObject): (d: Dict)
    requires o.Path?
    ensures d.Keys == BaseKeys + StrokeKeys + {"points"}
    ensures d["object_type"] == VStr("Path")
    ensures d["points"] == VList(PointsValue(o.points))
  {
    DrawableToDict(o.base, o.stroke, ClassName(o))["points" := VList(PointsValue(o.points))]
  }

  /** `Path.from_dict(data)`: the drawable fields, then the points (default
      empty). */
  function FromDict(data: Dict): (r: Result<MapObject>)
    ensures r.Ok? ==> r.value.Path?
    ensures r.Ok? && "points" !in data ==> r.value.points == []
  {
    var (b, s) :- DrawableFromDict(data);
    match Get(data, "points", VList([]))
    case VList(items) =>
      var points :- PointsFromValues(items);
      Ok(Path(b, s, points))
    case _ => Err(TypeError("points"))
  }

  /** A saved path loads back with the same points, stroke and position. */
  lemma RoundTrip(o: MapObject)
    requires o.Path?
    ensures FromDict(ToDict(o)) == Ok(o)
  {
    var dd := DrawableToDict(o.base, o.stroke, "Path");
    var d := dd["points" := VList(PointsValue(o.points))];
    assert ToDict(o) == d;
    assert DrawableFromDict(d) == Ok((o.base, o.stroke)) by {
      assert "points" !in BaseKeys + StrokeKeys;
      DrawableIgnoresKey(dd, "points", VList(PointsValue(o.points)));
      DrawableRoundTrip(o.base, o.stroke, "Path");
    }
    assert Get(d, "points", VList([])) == VList(PointsValue(o.points));
    FromDictOf(d, o.base, o.stroke, o.points);
  }

  /** A dict whose drawable part and points load as given loads as that
      path. */
  lemma FromDictOf(d: Dict, b: Base, s: Stroke, points: seq<(int, int)>)
    requires DrawableFromDict(d) == Ok((b, s))
    requires Get(d, "points", VList([])) == VList(PointsValue(points))
    ensures FromDict(d) == Ok(Path(b, s, points))
  {
    PointsRoundTrip(points);
  }
}
