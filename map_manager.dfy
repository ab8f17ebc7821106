/** `MapManager` (src/map_manager.py): maps registered under unique names. */
module MapManagers {
  import opened Common
  import opened Maps

  class MapManager {
    var maps: map<string, Map>

    constructor ()
      ensures maps == map[]
    {
      maps := map[];
    }

    /** `create_map(name, width, height)`: a taken name raises ValueError and
        leaves every map as it was; a fresh name stores a new blank map under
        it and touches no other entry. */
    method CreateMap(name: string, width: int, height: int) returns (r: Result<Map>)
      modifies this
      ensures name in old(maps) ==> r == Err(ValueError) && maps == old(maps)
      ensures name !in old(maps) ==> r == Ok(NewMap(name, width, height, [])) && maps == old(maps)[name := r.value]
    {
      if name in maps {
        return Err(ValueError);
      }
      var newMap := NewMap(name, width, height, []);
      maps := maps[name := newMap];
      return Ok(newMap);
    }

    /** `get_map(name)`: None for an unknown name. */
    function GetMap(name: string): (m: Option<Map>)
      reads this
      ensures m.Some? <==> name in maps
      ensures m.Some? ==> m.value == maps[name]
    {
      if name in maps then Some(maps[name]) else None
    }
  }
}
