/** Entities and their manager (src/entity.py): typed records with a free-form
    attribute dictionary, kept by id in insertion order, with the D&D ability
    modifier and variable resolution used by dice formulas. */
module Entities {
  import opened Common

  /** An entity; `id` is a fresh uuid in the source, so it is given here. */
  datatype Entity = Entity(id: string, entityType: string, attributes: ODict<Value>)

  const EntityKeys: seq<string> := ["id", "entity_type", "attributes"]

  /** `Entity.to_dict()` */
  function EntityToDict(e: Entity): (d: ODict<Value>)
    ensures d.keys == EntityKeys && d.Valid()
    ensures d.entries["id"] == VStr(e.id) && d.entries["attributes"] == VDict(e.attributes)
  {
    ODict(EntityKeys, map[
      "id" := VStr(e.id),
      "entity_type" := VStr(e.entityType),
      "attributes" := VDict(e.attributes)])
  }

  /** `data.get('attributes')`: absent or None gives an empty dict. */
  function AttributesFromValue(v: Value): (r: Result<ODict<Value>>)
    ensures r.Ok? ==> r.value.Valid()
  {
    match v
    case VNone => Ok(EmptyDict())
    case VDict(d) => if d.Valid() then Ok(d) else Err(TypeError("attributes"))
    case _ => Err(TypeError("attributes"))
  }

  /** `Entity.from_dict(data)`: entity_type is required and read first, then
      the attributes, then the required id. */
  function EntityFromDict(data: Dict): (r: Result<Entity>)
    ensures r.Ok? ==> r.value.attributes.Valid()
    ensures "entity_type" !in data ==> r == Err(KeyError("entity_type"))
    ensures r.Ok? ==> "id" in data && data["id"] == VStr(r.value.id)
    ensures r.Ok? && "attributes" !in data ==> r.value.attributes == EmptyDict()
    ensures r.Err? ==> r.error.KeyError? || r.error.TypeError?
  {
    var entityType :- RequireStr(data, "entity_type");
    var attributes :- AttributesFromValue(Get(data, "attributes", VNone));
    var id :- RequireStr(data, "id");
    Ok(Entity(id, entityType, attributes))
  }

  /** An entity reads back as itself, attributes and their order included. */
  lemma EntityRoundTrip(e: Entity)
    requires e.attributes.Valid()
    ensures EntityFromDict(EntityToDict(e).entries) == Ok(e)
  {
  }

  /** `get_ability_modifier(score)`: `(score - 10) // 2`; Dafny's `/` by 2
      floors like Python's `//`. */
  function AbilityModifier(score: int): (m: int)
    ensures 2 * m <= score - 10 < 2 * m + 2
  {
    (score - 10) / 2
  }

  /** The documented examples: 14 gives +2, 16 gives +3, 9 gives -1, and the
      modifier never decreases as the score grows. */
  lemma AbilityModifierExamples(a: int, b: int)
    ensures AbilityModifier(14) == 2 && AbilityModifier(16) == 3 && AbilityModifier(9) == -1
    ensures AbilityModifier(10) == 0 && AbilityModifier(11) == 0
    ensures a <= b ==> AbilityModifier(a) <= AbilityModifier(b)
  {
  }

  /** The long ability names `resolve_variable` maps to their keys. */
  function AbilityKey(name: string): string {
    if name == "strength" then "str"
    else if name == "dexterity" then "dex"
    else if name == "constitution" then "con"
    else if name == "intelligence" then "int"
    else if name == "wisdom" then "wis"
    else if name == "charisma" then "cha"
    else name
  }

  /** The six long names map to their three-letter keys; any other name is
      used as the key unchanged. */
  lemma AbilityKeyMap(name: string)
    ensures AbilityKey("strength") == "str" && AbilityKey("dexterity") == "dex"
    ensures AbilityKey("constitution") == "con" && AbilityKey("intelligence") == "int"
    ensures AbilityKey("wisdom") == "wis" && AbilityKey("charisma") == "cha"
    ensures name !in {"strength", "dexterity", "constitution", "intelligence", "wisdom", "charisma"} ==>
              AbilityKey(name) == name
  {
  }

  predicate EndsWithMod(name: string) {
    |name| >= 4 && name[|name| - 4..] == "_mod"
  }

  /** `resolve_variable(variable_name, entity)`. No entity gives 0; an
      attribute of that exact name gives its value; a name ending in "_mod"
      gives the modifier of the score stored under the mapped key (a score
      that is not an integer raises TypeError); anything else gives 0. */
  function ResolveVariable(variableName: string, entity: Option<Entity>): (r: Result<Value>)
    ensures entity.None? ==> r == Ok(VInt(0))
    ensures entity.Some? && variableName in entity.value.attributes.entries ==>
              r == Ok(entity.value.attributes.entries[variableName])
    ensures entity.Some? && variableName !in entity.value.attributes.entries && !EndsWithMod(variableName) ==>
              r == Ok(VInt(0))
    ensures entity.Some? && variableName !in entity.value.attributes.entries && EndsWithMod(variableName) ==>
              var attributes := entity.value.attributes.entries;
              var k := AbilityKey(variableName[..|variableName| - 4]);
              && (k !in attributes ==> r == Ok(VInt(0)))
              && (k in attributes && attributes[k].VInt? ==> r == Ok(VInt(AbilityModifier(attributes[k].i))))
              && (k in attributes && !attributes[k].VInt? ==> r == Err(TypeError(k)))
    ensures r.Err? ==> r.error.TypeError?
  {
    if entity.None? then Ok(VInt(0))
    else
      var attributes := entity.value.attributes.entries;
      if variableName in attributes then Ok(attributes[variableName])
      else if EndsWithMod(variableName) then
        var attrKey := AbilityKey(variableName[..|variableName| - 4]);
        if attrKey in attributes then
          match attributes[attrKey]
          case VInt(score) => Ok(VInt(AbilityModifier(score)))
          case _ => Err(TypeError(attrKey))
        else Ok(VInt(0))
      else Ok(VInt(0))
  }

  /** With strength 14 stored as "str", "strength_mod" resolves to +2, and a
      missing ability resolves to 0. */
  lemma ResolveModifierExample(e: Entity)
    requires e.attributes.entries == map["str" := VInt(14), "proficiency" := VInt(3)]
    ensures ResolveVariable("strength_mod", Some(e)) == Ok(VInt(2))
    ensures ResolveVariable("proficiency", Some(e)) == Ok(VInt(3))
    ensures ResolveVariable("wisdom_mod", Some(e)) == Ok(VInt(0))
  {
    assert "strength_mod"[..8] == "strength";
    assert "wisdom_mod"[..6] == "wisdom";
  }

  /** The entities `list_entities(entity_type)` keeps when filtering. */
  function OfType(es: seq<Entity>, entityType: string): (r: seq<Entity>)
    ensures forall e :: e in r <==> e in es && e.entityType == entityType
    ensures |r| <= |es|
  {
    if es == [] then []
    else (if es[0].entityType == entityType then [es[0]] else []) + OfType(es[1..], entityType)
  }

  /** Serialised form of a list of entities. */
  function EntitiesValue(es: seq<Entity>): seq<Value> {
    seq(|es|, i requires 0 <= i < |es| => VDict(EntityToDict(es[i])))
  }

  /** The `load_from_dict` loop as a function: each item in turn is read and
      stored under its id; the first item that fails stops the loop, leaving
      the entities read so far. */
  function LoadEntities(items: seq<Value>, acc: ODict<Entity>): (r: (ODict<Entity>, Outcome))
    ensures acc.Valid() ==> r.0.Valid()
    ensures acc.entries.Keys <= r.0.entries.Keys
    ensures r.1.Fail? ==> r.1.error.KeyError? || r.1.error.TypeError?
    decreases |items|
  {
    if items == [] then (acc, Pass)
    else
      var read := match items[0]
        case VDict(d) => EntityFromDict(d.entries)
        case _ => Err(TypeError("entities"));
      match read
      case Err(e) => (acc, Fail(e))
      case Ok(entity) => LoadEntities(items[1..], acc.Put(entity.id, entity))
  }

  /** A well-formed entity table: stored under their own ids, with
      well-formed attribute dictionaries. */
  predicate WellFormed(d: ODict<Entity>) {
    && d.Valid()
    && (forall k | k in d.entries :: d.entries[k].id == k && d.entries[k].attributes.Valid())
  }

  /** Loading into a well-formed table keeps it well formed: every entity
      read is stored under its own id, with a well-formed attribute dict. */
  lemma {:induction false} LoadKeepsWellFormed(items: seq<Value>, acc: ODict<Entity>)
    requires WellFormed(acc)
    ensures WellFormed(LoadEntities(items, acc).0)
    decreases |items|
  {
    if items != [] {
      var read := match items[0]
        case VDict(d) => EntityFromDict(d.entries)
        case _ => Err(TypeError("entities"));
      if read.Ok? {
        var next := acc.Put(read.value.id, read.value);
        assert WellFormed(next);
        LoadKeepsWellFormed(items[1..], next);
      }
    }
  }

  /** The first `i` entries of a table, in order. */
  function Prefix(d: ODict<Entity>, i: nat): ODict<Entity>
    requires i <= |d.keys|
  {
    ODict(d.keys[..i], map k | k in d.keys[..i] && k in d.entries :: d.entries[k])
  }

  /** Reading one saved entity stores it under its id and moves on. */
  lemma LoadStep(items: seq<Value>, acc: ODict<Entity>, e: Entity)
    requires e.attributes.Valid()
    requires items != [] && items[0] == VDict(EntityToDict(e))
    ensures LoadEntities(items, acc) == LoadEntities(items[1..], acc.Put(e.id, e))
  {
    EntityRoundTrip(e);
  }

  /** Adding the next key of a well-formed table to its prefix gives the
      next prefix. */
  lemma PrefixStep(d: ODict<Entity>, i: nat)
    requires d.Valid() && i < |d.keys|
    ensures Prefix(d, i).Put(d.keys[i], d.entries[d.keys[i]]) == Prefix(d, i + 1)
  {
    var k := d.keys[i];
    assert k !in d.keys[..i] by {
      forall j | 0 <= j < i ensures d.keys[..i][j] != k {
        assert d.keys[j] != d.keys[i];
      }
    }
    assert d.keys[..i] + [k] == d.keys[..i + 1];
  }

  lemma PrefixEnds(d: ODict<Entity>)
    requires d.Valid()
    ensures Prefix(d, 0) == EmptyDict() && Prefix(d, |d.keys|) == d
  {
    assert d.keys[..|d.keys|] == d.keys;
  }

  lemma {:induction false} LoadSuffix(d: ODict<Entity>, i: nat)
    requires WellFormed(d) && i <= |d.keys|
    ensures LoadEntities(EntitiesValue(d.Values())[i..], Prefix(d, i)) == (d, Pass)
    decreases |d.keys| - i
  {
    var items := EntitiesValue(d.Values());
    if i == |d.keys| {
      assert items[i..] == [];
      PrefixEnds(d);
    } else {
      var k := d.keys[i];
      var e := d.entries[k];
      LoadStep(items[i..], Prefix(d, i), e);
      assert items[i..][1..] == items[i + 1..];
      PrefixStep(d, i);
      LoadSuffix(d, i + 1);
    }
  }

  /** Loading what `to_dict` wrote into an emptied manager restores the same
      ids, types, attributes and order. */
  lemma LoadRoundTrip(d: ODict<Entity>)
    requires WellFormed(d)
    ensures LoadEntities(EntitiesValue(d.Values()), EmptyDict()) == (d, Pass)
  {
    LoadSuffix(d, 0);
    assert EntitiesValue(d.Values())[0..] == EntitiesValue(d.Values());
    PrefixEnds(d);
  }

  /** The test of `find_entity_by_name`: a 'name' attribute equal to the
      string (a missing attribute reads as None, which never equals it). */
  predicate HasName(e: Entity, name: string) {
    Get(e.attributes.entries, "name", VNone) == VStr(name)
  }

  /** The first entity of `es` carrying the name. */
  function FirstNamed(es: seq<Entity>, name: string): (r: Option<Entity>)
    ensures r.None? <==> forall i | 0 <= i < |es| :: !HasName(es[i], name)
    ensures r.Some? ==> exists i | 0 <= i < |es| ::
      es[i] == r.value && HasName(es[i], name) && forall j | 0 <= j < i :: !HasName(es[j], name)
  {
    if es == [] then None
    else if HasName(es[0], name) then
      Some(es[0])
    else
      var r := FirstNamed(es[1..], name);
      assert forall i | 0 <= i < |es| - 1 :: es[1..][i] == es[i + 1];
      if r.Some? then
        var k :| 0 <= k < |es| - 1 && es[1..][k] == r.value && HasName(es[1..][k], name)
                 && forall j | 0 <= j < k :: !HasName(es[1..][j], name);
        assert es[k + 1] == r.value && forall j | 0 <= j < k + 1 :: !HasName(es[j], name);
        r
      else r
  }

  class EntityManager {
    var entities: ODict<Entity>

    ghost predicate Valid()
      reads this
    {
      WellFormed(entities)
    }

    constructor ()
      ensures Valid() && entities == EmptyDict()
    {
      entities := EmptyDict();
    }

    /** `create_entity(entity_type, attributes)`: a new entity (attributes
        default empty) stored under its fresh id. */
    method CreateEntity(id: string, entityType: string, attributes: Option<ODict<Value>>) returns (e: Entity)
      requires Valid()
      requires attributes.Some? ==> attributes.value.Valid()
      modifies this
      ensures Valid()
      ensures e == Entity(id, entityType, if attributes.Some? then attributes.value else EmptyDict())
      ensures entities == old(entities).Put(id, e)
    {
      e := Entity(id, entityType, if attributes.Some? then attributes.value else EmptyDict());
      entities := entities.Put(id, e);
    }

    /** `get_entity(entity_id)`: None for an unknown id. */
    function GetEntity(entityId: string): (e: Option<Entity>)
      reads this
      ensures e.Some? <==> entityId in entities.entries
      ensures e.Some? ==> e.value == entities.entries[entityId]
    {
      entities.Get(entityId)
    }

    /** `update_attribute(entity_id, name, value)`: False and no change for
        an unknown entity; otherwise the attribute is set and True returned. */
    method UpdateAttribute(entityId: string, name: string, value: Value) returns (updated: bool)
      requires Valid()
      modifies this
      ensures Valid()
      ensures updated <==> entityId in old(entities.entries)
      ensures !updated ==> entities == old(entities)
      ensures updated ==> entities == old(entities).Put(entityId,
                old(entities.entries[entityId]).(attributes := old(entities.entries[entityId]).attributes.Put(name, value)))
    {
      var e := GetEntity(entityId);
      if e.None? {
        return false;
      }
      var changed := e.value.(attributes := e.value.attributes.Put(name, value));
      entities := entities.Put(entityId, changed);
      return true;
    }

    /** `get_attribute(entity_id, name)`: None when the entity or the
        attribute is missing. */
    function GetAttribute(entityId: string, name: string): (v: Value)
      reads this
      ensures entityId !in entities.entries ==> v == VNone
      ensures entityId in entities.entries && name !in entities.entries[entityId].attributes.entries ==> v == VNone
      ensures entityId in entities.entries && name in entities.entries[entityId].attributes.entries ==>
                v == entities.entries[entityId].attributes.entries[name]
    {
      match GetEntity(entityId)
      case None => VNone
      case Some(e) => Get(e.attributes.entries, name, VNone)
    }

    /** `list_entities(entity_type)`: all entities in insertion order, or
        only those of the given type when the type is a non-empty string. */
    function ListEntities(entityType: Option<string>): (es: seq<Entity>)
      reads this
      requires Valid()
      ensures entityType.None? || entityType == Some("") ==> es == entities.Values()
      ensures entityType.Some? && entityType.value != "" ==>
                es == OfType(entities.Values(), entityType.value)
                && forall e :: e in es <==> e in entities.Values() && e.entityType == entityType.value
    {
      if entityType.Some? && entityType.value != "" then OfType(entities.Values(), entityType.value)
      else entities.Values()
    }

    /** `to_dict()`: the entities' dicts, in insertion order. */
    function ToDict(): (d: Dict)
      reads this
      requires Valid()
      ensures d.Keys == {"entities"} && d["entities"] == VList(EntitiesValue(entities.Values()))
    {
      map["entities" := VList(EntitiesValue(entities.Values()))]
    }

    /** `clear_entities()` */
    method ClearEntities()
      modifies this
      ensures Valid() && entities == EmptyDict()
    {
      entities := EmptyDict();
    }

    /** `load_from_dict(data)`: clears, then reads the 'entities' list
        (default empty) item by item. An item that fails stops the load with
        the items before it kept. */
    method LoadFromDict(data: Dict) returns (o: Outcome)
      modifies this
      ensures Valid()
      ensures match Get(data, "entities", VList([]))
        case VList(items) => (entities, o) == LoadEntities(items, EmptyDict())
        case _ => entities == EmptyDict() && o == Fail(TypeError("entities"))
    {
      ClearEntities();
      var list := Get(data, "entities", VList([]));
      if !list.VList? {
        return Fail(TypeError("entities"));
      }
      var items := list.items;
      var i := 0;
      while i < |items|
        invariant 0 <= i <= |items|
        invariant LoadEntities(items[i..], entities) == LoadEntities(items, EmptyDict())
        invariant WellFormed(entities)
      {
        assert items[i..][1..] == items[i + 1..];
        var read := match items[i]
          case VDict(d) => EntityFromDict(d.entries)
          case _ => Err(TypeError("entities"));
        if read.Err? {
          return Fail(read.error);
        }
        entities := entities.Put(read.value.id, read.value);
        i := i + 1;
      }
      assert items[i..] == [];
      return Pass;
    }

    /** `find_entity_by_name(name)`: the first entity, in insertion order,
        whose 'name' attribute equals the given string; None if there is
        none. */
    method FindEntityByName(name: string) returns (found: Option<Entity>)
      requires Valid()
      ensures found == FirstNamed(entities.Values(), name)
    {
      var all := entities.Values();
      var i := 0;
      while i < |all|
        invariant 0 <= i <= |all|
        invariant FirstNamed(all[i..], name) == FirstNamed(all, name)
      {
        assert all[i..][1..] == all[i + 1..];
        if Get(all[i].attributes.entries, "name", VNone) == VStr(name) {
          return Some(all[i]);
        }
        i := i + 1;
      }
      return None;
    }
  }
}
