/** The registry of module-defined actions (src/action_manager.py). The
    action's fields are stored exactly as given, so they are carried as
    values; only the id is used, as the registry key. */
module Actions {
  import opened Common

  datatype Action = Action(id: Value, labelText: Value, formula: Value, onSuccess: Value, check: Value)

  /** Python can only use hashable values as dict keys: lists and dicts are
      refused with TypeError. */
  predicate Hashable(v: Value) {
    !v.VList? && !v.VDict?
  }

  /** The key under which a Python dict files a hashable value. Python's
      dict compares keys with `==`, under which `True == 1` and `1.0 == 1`:
      booleans and floats with an integral value share the slot of the
      equal int, and every other value keeps its own. */
  function PyKey(v: Value): (k: Value)
    ensures Hashable(v) ==> Hashable(k)
    ensures v.VStr? || v.VNone? ==> k == v
  {
    match v
    case VBool(b) => VInt(if b then 1 else 0)
    case VFloat(f) => if f == f.Floor as real then VInt(f.Floor) else v
    case _ => v
  }

  /** Two ids share a registry slot exactly when Python's `==` equates
      them: a bool or an integral float meets the equal int, strings only
      meet themselves, and a key is its own key. */
  lemma PyKeyEquates(v: Value)
    ensures PyKey(PyKey(v)) == PyKey(v)
    ensures PyKey(VBool(true)) == PyKey(VInt(1)) == PyKey(VFloat(1.0))
    ensures PyKey(VBool(false)) == PyKey(VInt(0)) == PyKey(VFloat(0.0))
    ensures PyKey(VFloat(0.5)) != PyKey(VInt(0)) && PyKey(VFloat(0.5)) != PyKey(VInt(1))
    ensures forall s, t :: PyKey(VStr(s)) == PyKey(VStr(t)) <==> s == t
    ensures forall i, j :: PyKey(VInt(i)) == PyKey(VInt(j)) <==> i == j
  {
    assert (0.5).Floor == 0;
    if v.VFloat? && v.f == v.f.Floor as real {
      assert PyKey(v) == VInt(v.f.Floor);
    }
  }

  /** The record `register_action` builds: label, formula and on_success
      default to the empty string and check to None; on_success is read from
      the camelCase key 'onSuccess' only. */
  function ActionFromData(data: Dict): (r: Result<Action>)
    ensures "id" !in data <==> r == Err(ValueError)
    ensures "id" in data && !Hashable(data["id"]) <==> r == Err(TypeError("id"))
    ensures r.Ok? ==> && r.value.id == data["id"]
                      && r.value.labelText == Get(data, "label", VStr(""))
                      && r.value.formula == Get(data, "formula", VStr(""))
                      && r.value.onSuccess == Get(data, "onSuccess", VStr(""))
                      && r.value.check == Get(data, "check", VNone)
  {
    if "id" !in data then Err(ValueError)
    else if !Hashable(data["id"]) then Err(TypeError("id"))
    else Ok(Action(
      data["id"],
      Get(data, "label", VStr("")),
      Get(data, "formula", VStr("")),
      Get(data, "onSuccess", VStr("")),
      Get(data, "check", VNone)))
  }

  /** Only the id is required: a dict with just an id gives every default. */
  lemma OnlyIdGivesDefaults(id: string)
    ensures ActionFromData(map["id" := VStr(id)]) == Ok(Action(VStr(id), VStr(""), VStr(""), VStr(""), VNone))
  {
  }

  /** The snake_case key 'on_success' is ignored: adding it never changes
      the action read. */
  lemma SnakeCaseOnSuccessIgnored(data: Dict, v: Value)
    ensures ActionFromData(data["on_success" := v]) == ActionFromData(data)
  {
    var d := data["on_success" := v];
    assert forall k | k != "on_success" :: (k in d <==> k in data) && (k in data ==> d[k] == data[k]);
  }

  class ActionManager {
    /** The registered actions, filed by the Python key of their ids. */
    var actions: map<Value, Action>

    /** Every action is stored under the key of its own id. */
    ghost predicate Valid()
      reads this
    {
      forall k | k in actions :: PyKey(actions[k].id) == k && Hashable(k)
    }

    constructor ()
      ensures Valid() && actions == map[]
    {
      actions := map[];
    }

    /** `register_action(action_data)`: an action without an id raises
        ValueError and stores nothing; otherwise the action is stored under
        its id, replacing any earlier one whose id Python's `==` equates
        with it, and returned. */
    method RegisterAction(data: Dict) returns (r: Result<Action>)
      requires Valid()
      modifies this
      ensures Valid()
      ensures r == ActionFromData(data)
      ensures r.Err? ==> actions == old(actions)
      ensures r.Ok? ==> actions == old(actions)[PyKey(r.value.id) := r.value]
    {
      r := ActionFromData(data);
      if r.Ok? {
        actions := actions[PyKey(r.value.id) := r.value];
      }
    }

    /** `get_action(action_id)`: the action whose id Python's `==` equates
        with `action_id`, None for an unknown id, and TypeError for an
        unhashable one, which a dict refuses. */
    function GetAction(actionId: Value): (r: Result<Option<Action>>)
      reads this
      requires Valid()
      ensures r.Err? <==> !Hashable(actionId)
      ensures r.Ok? ==> (r.value.Some? <==> PyKey(actionId) in actions)
      ensures r.Ok? && r.value.Some? ==> r.value.value == actions[PyKey(actionId)]
                                         && PyKey(r.value.value.id) == PyKey(actionId)
    {
      if !Hashable(actionId) then Err(TypeError("action_id"))
      else if PyKey(actionId) in actions then Ok(Some(actions[PyKey(actionId)]))
      else Ok(None)
    }
  }

  /** A string id is its own key: looking it up finds exactly the action
      stored under it. */
  lemma StringIdLookup(am: ActionManager, id: string)
    requires am.Valid()
    ensures am.GetAction(VStr(id)) == if VStr(id) in am.actions then Ok(Some(am.actions[VStr(id)])) else Ok(None)
  {
  }

  /** Registering an action under 1 and then one under True keeps a single
      entry: the second replaces the first, and a lookup by 1, True or 1.0
      finds it. */
  method EqualIdsShareAnEntry() returns (byInt: Result<Option<Action>>, byFloat: Result<Option<Action>>, count: nat)
    ensures byInt == byFloat == Ok(Some(Action(VBool(true), VStr("b"), VStr(""), VStr(""), VNone)))
    ensures count == 1
  {
    var am := new ActionManager();
    var first := am.RegisterAction(map["id" := VInt(1), "label" := VStr("a")]);
    var second := am.RegisterAction(map["id" := VBool(true), "label" := VStr("b")]);
    byInt := am.GetAction(VInt(1));
    byFloat := am.GetAction(VFloat(1.0));
    count := |am.actions|;
  }
}
