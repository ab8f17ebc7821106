# VTT core in Dafny

A model of the engine of a small virtual tabletop: a Python application in
which a game master and players share maps, tokens, drawings and game
entities, roll dice and track initiative. The model covers these parts:

- **Hexes.** Cube coordinates and the even-r offset conversion.
- **Field of view.** The shadowcasting field-of-view calculation.
- **Map objects.** The hierarchy (base object, drawable, shape, path,
  group and token) and its dict serialisation.
- **Maps.** Maps and the map manager.
- **Users and sessions.** Users with at most one game master, and the
  websocket session bookkeeping.
- **Game mechanics.** The initiative tracker, entities and their ability
  modifiers, the action registry and the dice roller.
- **Command line.** The command-line dispatcher.

The modules follow the source files, one module per file:

| module | file |
|---|---|
| `Hex` | `hex.dfy` |
| `Fov` | `fov.dfy` |
| `MapObjects` | `map_object.dfy` |
| `Drawables` | `drawable.dfy` |
| `Shapes` | `shape.dfy` |
| `Paths` | `path.dfy` |
| `Groups` | `group.dfy` |
| `Tokens` | `token.dfy` |
| `Maps` | `map.dfy` |
| `MapManagers` | `map_manager.dfy` |
| `Users` | `user.dfy` |
| `Sessions` | `server.dfy` |
| `Initiative` | `initiative.dfy` |
| `Entities` | `entity.dfy` |
| `Actions` | `action_manager.dfy` |
| `Dice` | `dice.dfy` |
| `Commands` | `command_handler.dfy` |

`Common` holds what they all use:

- `Option`, `Result` and the Python exceptions as `Error` values.
- A JSON-like `Value` type, which is what the dicts written by `to_dict`
  hold.
- `ODict`, an insertion-ordered dictionary.
- ASCII character helpers.

Each file keeps its source's form:

- **Stateful parts are classes.** The user, map, entity, action, initiative
  and session managers and the shadow line are classes whose methods change
  their fields. The methods are proved against functions that specify them.
- **Pure parts are functions.** The serialisation, the hex arithmetic, the
  dice grammar and the sort are functions with lemmas about them.

The model follows the code where the code and its comments disagree:

- **`src/hex.py`.** The comments call the offset layout odd-r, but the
  formulas at lines 59 and 69 are the even-r ones. `Hex.FromCube` and
  `Hex.ToCube` use the even-r formulas, and the round trip is proved for them.
- **`src/fov.py`.** `ShadowLine.add` has two defects, and both are modelled as
  they are written:
  - It raises IndexError on an empty list.
  - It raises AttributeError when a new shadow overlaps both neighbours.

  Every octant scan starts from an empty shadow line. So the shadowcasting
  never shadows anything: `calculate_fov` raises IndexError as soon as a
  light-blocking cell is within the radius and on the map. Otherwise it
  returns every in-bounds cell within Chebyshev distance `radius`.
  `Fov.CalculateFov` proves exactly this.

## Model

| member | source | states |
|---|---|---|
| `Hex.MakeHex` | src/hex.py:15-17 | construction succeeds exactly when q + r + s == 0, keeps the three coordinates, and otherwise raises ValueError |
| `Hex.Add` | src/hex.py:19-20 | the componentwise sum of two hexes always passes the zero-sum check |
| `Hex.Sub` | src/hex.py:22-23 | the componentwise difference always passes the zero-sum check |
| `Hex.Scale` | src/hex.py:25-26 | scaling by an integer always passes the zero-sum check |
| `Hex.AddSubInverse` | src/hex.py:19-23 | subtraction undoes addition in both orders, and addition is commutative |
| `Hex.ScaleDistributes` | src/hex.py:19-26 | scaling distributes over addition |
| `Hex.Neighbor` | src/hex.py:29-36 | directions -6..5 succeed (negative ones count from the end, as Python indexing does) and add that direction vector; any other direction raises IndexError |
| `Hex.Distance` | src/hex.py:38-41 | the distance is never negative |
| `Hex.ZeroSumMagnitudes` | src/hex.py:38-41 | for a zero-sum triple the sum of magnitudes is even and is twice the largest magnitude, so the `// 2` is exact |
| `Hex.DistanceIsMax` | src/hex.py:38-41 | the distance is the largest componentwise difference |
| `Hex.DistanceProperties` | src/hex.py:38-41 | the distance is the largest componentwise difference, is symmetric, and is zero exactly for equal hexes |
| `Hex.NeighborAtDistanceOne` | src/hex.py:34-41 | every neighbour lies at distance 1 |
| `Hex.FromCube` | src/hex.py:50-61 | converting a hex gives an offset coordinate in the same row that converts back to the hex |
| `Hex.ToCube` | src/hex.py:63-72 | converting an offset coordinate gives a valid hex in the same row |
| `Hex.OffsetRoundTrip` | src/hex.py:50-72 | the offset and cube conversions are inverse to each other in both directions |
| `Fov.AddSpec` | src/fov.py:22-57 | an empty list raises IndexError, the only other failure is AttributeError, and a success adds at most one shadow |
| `Fov.FirstAtLeast` | src/fov.py:24-30 | gives the first shadow whose start is at least the new start, or the length when there is none |
| `Fov.AddToEmptyFails` | src/fov.py:24-32 | adding to an empty shadow line raises IndexError |
| `Fov.AddNonEmpty` | src/fov.py:22-57 | on a non-empty line, `add` fails only when the shadow overlaps both neighbours (AttributeError), and otherwise merges or inserts at the search index |
| `Fov.AddSound` | src/fov.py:22-57 | after a successful `add`, every shadowed position was already shadowed or lies in the new shadow |
| `Fov.AddKeepsSorted` | src/fov.py:22-57 | a successful `add` keeps the shadows sorted by start |
| `Fov.ShadowLine.constructor` | src/fov.py:12-13 | a new shadow line holds no shadows |
| `Fov.ShadowLine.IsInShadow` | src/fov.py:15-20 | answers whether a single stored shadow covers the projection |
| `Fov.ShadowLine.Add` | src/fov.py:22-57 | on success the list becomes the specified new list; on failure the error is raised and the list is unchanged |
| `Fov.ShadowLine.IsFullShadow` | src/fov.py:59-61 | true exactly when the line holds the single shadow [0, 1] |
| `Fov.ProjectTile` | src/fov.py:64-68 | a cell of an octant row projects to a non-empty slice of [0, 1] |
| `Fov.ProjectTileBounds` | src/fov.py:64-68 | an octant tile projects to a non-empty slope interval inside [0, 1] |
| `Fov.TransformOctant` | src/fov.py:116-126 | octants 0..7 succeed, and any other octant raises ValueError |
| `Fov.TransformOnRing` | src/fov.py:116-126 | every cell of octant row `row` lies at Chebyshev distance `row` from the origin |
| `Fov.OctantOf` | src/fov.py:116-126 | every offset at distance d >= 1 is column 0..d of row d of some octant |
| `Fov.OctantsCoverRing` | src/fov.py:116-126 | the eight octants' row d is exactly the ring at Chebyshev distance d |
| `Fov.RowCellsMember` | src/fov.py:96-102 | characterises the in-bounds cells of one octant row |
| `Fov.OctantCellsMember` | src/fov.py:95-102 | characterises the in-bounds cells of rows 1..radius of one octant |
| `Fov.AllOctantCellsMember` | src/fov.py:84-85 | characterises the cells that the first n octants reach |
| `Fov.RingMember` | src/fov.py:71-87 | characterises the in-bounds ring cells at distance 1..radius |
| `Fov.OctantCellOnRing` | src/fov.py:96-97 | the cell at octant-local (row, col) is `row` steps from the origin |
| `Fov.ScannedInRing` | src/fov.py:84-102 | every scanned cell lies on the ring |
| `Fov.RingScanned` | src/fov.py:84-102 | every ring cell is scanned by some octant |
| `Fov.AllOctantsAreRing` | src/fov.py:84-102 | the eight scans visit exactly the in-bounds cells within the radius |
| `Fov.RowCellsGrow` | src/fov.py:95 | more columns never give fewer cells |
| `Fov.OctantCellsGrow` | src/fov.py:94 | more rows never give fewer cells |
| `Fov.NextColumn` | src/fov.py:95-101 | the next column adds its cell exactly when that cell is in bounds |
| `Fov.ScanRow` | src/fov.py:95-113 | a row scanned on an empty shadow line marks all its in-bounds cells visible when none is a wall, and raises IndexError at the first wall otherwise |
| `Fov.RefreshOctant` | src/fov.py:90-113 | an octant scan succeeds exactly when none of its in-bounds cells is a wall, and then adds all of them to the visible set |
| `Fov.CalculateFov` | src/fov.py:71-87 | the result is the origin plus every in-bounds cell within the radius, exactly when no such cell blocks light, and IndexError otherwise; a radius of 0 or less gives only the origin |
| `Fov.NextOctant` | src/fov.py:84-85 | adding one more octant's cells accumulates the union, and walls stay absent from both parts |
| `Fov.BlockedOctantBlocksRing` | src/fov.py:84-85 | a wall in one octant's scan is a wall on the ring |
| `Fov.EmptyRing` | src/fov.py:94 | a radius of 0 or less scans no cells |
| `Fov.AllOctantsSubsume` | src/fov.py:84-85 | each octant's cells are among the cells of all eight |
| `MapObjects.BaseFromReads` | src/map_object.py:33-47 | loading succeeds exactly when every field read succeeds, and then fills every field from its read |
| `MapObjects.BaseToDict` | src/map_object.py:18-31 | the dict holds exactly the ten base keys, and object_type names the class |
| `MapObjects.BaseFromDict` | src/map_object.py:33-47 | a missing x is reported first as KeyError, and a successful load takes x, y and id from the dict |
| `MapObjects.ToDict` | src/map_object.py:18-31 | a plain object writes exactly the base keys, with object_type 'MapObject' |
| `MapObjects.FromDict` | src/map_object.py:33-47 | a successful load gives a plain map object |
| `MapObjects.BaseFieldsDecide` | src/map_object.py:33-47 | only the base keys decide how the base fields load |
| `MapObjects.BaseIgnoresKey` | src/map_object.py:33-47 | setting a key outside the base keys leaves the load unchanged |
| `MapObjects.BaseRoundTrip` | src/map_object.py:18-47 | loading what `to_dict` wrote gives back every field, whatever class name was written |
| `MapObjects.RoundTrip` | src/map_object.py:18-47 | a plain map object survives a save and load unchanged |
| `MapObjects.BaseFromDictRequiredKeys` | src/map_object.py:37-46 | a missing x, y or id makes loading fail, and a missing x is reported first |
| `MapObjects.BaseFromDictSucceeds` | src/map_object.py:33-47 | loading succeeds exactly when x, y and id are present and every present key has its field's type |
| `MapObjects.BaseFromDictFillsDefaults` | src/map_object.py:39-44 | absent optional keys load as the constructor defaults, and present ones are kept |
| `MapObjects.MinimalDictGivesConstructorDefaults` | src/map_object.py:8-16 | a dict with only id, x, y and layer loads as the freshly constructed object |
| `Drawables.DrawableToDict` | src/drawable.py:12-20 | the dict holds the base keys plus the three stroke keys, with object_type the class name |
| `Drawables.DrawableKeepsBase` | src/drawable.py:12-20 | the stroke keys change no base entry |
| `Drawables.StrokeFromDict` | src/drawable.py:22-30 | the stroke loads exactly when a present colour is a string and a present width an int, and the opacity is taken as given (1.0 when absent) |
| `Drawables.DrawableFromDict` | src/drawable.py:22-30 | loads exactly when the base and the stroke both load, gives both, and reports a base error first |
| `Drawables.ToDict` | src/drawable.py:12-20 | a drawable writes the base and stroke keys, with object_type 'Drawable' |
| `Drawables.FromDict` | src/drawable.py:22-30 | a successful load gives a drawable |
| `Drawables.DrawableRoundTrip` | src/drawable.py:12-30 | the base and stroke fields survive a save and load |
| `Drawables.DrawableFieldsDecide` | src/drawable.py:22-30 | only the base and stroke keys decide the load |
| `Drawables.DrawableIgnoresKey` | src/drawable.py:22-30 | setting any other key leaves the load unchanged |
| `Drawables.RoundTrip` | src/drawable.py:12-30 | a drawable survives a save and load unchanged |
| `Drawables.StrokeFromDictDefaults` | src/drawable.py:22-30 | absent stroke keys take the defaults #000000, 2 and 1.0, and present ones are kept |
| `Drawables.MinimalDictGivesConstructorDefaults` | src/drawable.py:8-10 | a minimal dict loads as a freshly constructed drawable |
| `Shapes.ShapeTypeFromValue` | src/shape.py:34-39 | an unknown kind falls back to CIRCLE; only an unhashable value (list or dict) makes the lookup fail |
| `Shapes.ShapeTypeNames` | src/shape.py:6-10 | every kind's name selects that kind, and any other string selects CIRCLE |
| `Shapes.ToDict` | src/shape.py:18-27 | the dict holds the drawable keys plus shape_type and fill_color, with object_type 'Shape' and the kind's name |
| `Shapes.FromDict` | src/shape.py:29-42 | a successful load gives a shape |
| `Shapes.RoundTrip` | src/shape.py:18-42 | a shape survives a save and load unchanged: position, stroke, kind and fill colour |
| `Shapes.RoundTripDrawable` | src/shape.py:18-42 | the drawable part of a saved shape loads back unchanged |
| `Shapes.RoundTripShapeFields` | src/shape.py:18-42 | the kind and the fill colour of a saved shape read back unchanged |
| `Shapes.FromDictOf` | src/shape.py:29-42 | a dict whose parts load as given loads as that shape |
| `Shapes.FromDictDefaults` | src/shape.py:29-42 | a missing kind gives CIRCLE and a missing fill gives None, and a kind given as any string never makes loading fail |
| `Paths.PointsFromValues` | src/path.py:20-26 | a successful read keeps the points' number and order, and a malformed point is a TypeError |
| `Paths.PointsRoundTrip` | src/path.py:10-26 | points are read back in the order they were written |
| `Paths.ToDict` | src/path.py:10-18 | the dict holds the drawable keys plus the points, in order, with object_type 'Path' |
| `Paths.FromDict` | src/path.py:20-26 | a successful load gives a path, with no points when the key is absent |
| `Paths.RoundTrip` | src/path.py:10-26 | a path survives a save and load unchanged |
| `Paths.FromDictOf` | src/path.py:20-26 | a dict whose drawable part and points load as given loads as that path |
| `Groups.IdsFromValues` | src/group.py:20-26 | the ids load exactly when every item is a string, keeping their number and order |
| `Groups.IdsRoundTrip` | src/group.py:10-26 | ids are read back in the order they were written |
| `Groups.ToDict` | src/group.py:10-18 | the dict holds the base keys plus the ids, in order, with object_type 'Group' |
| `Groups.FromDict` | src/group.py:20-26 | a successful load gives a group, with no ids when the key is absent |
| `Groups.RoundTrip` | src/group.py:10-26 | a group survives a save and load with the same ids in the same order |
| `Tokens.NewToken` | src/token.py:9-12 | a token is built exactly when it names an entity, and otherwise raises ValueError |
| `Tokens.RequireOptStr` | src/token.py:37 | entity_id is required (KeyError when absent); None and any string load as given, and any other value is a TypeError |
| `Tokens.ToDict` | src/token.py:14-18 | the dict holds the base keys plus entity_id, with object_type 'Token' and the entity's id |
| `Tokens.FromDict` | src/token.py:20-51 | a loaded token takes its entity id and id from the dict, and its light fields are reset |
| `Tokens.RoundTripResetsLight` | src/token.py:14-51 | a saved token loads back with every field except the light fields, which are reset, so the round trip is exact exactly when they were already at their defaults |
| `Tokens.FromDictRequirements` | src/token.py:20-51 | x, y, entity_id and id are required; a None entity raises ValueError; the layer defaults to 4; the light fields are never read |
| `Maps.NewMap` | src/map.py:5-15 | the given grid is kept, and an empty grid becomes a height x width grid of '.' |
| `Maps.BlankGridSize` | src/map.py:12-15 | a non-positive height gives no rows, and a non-positive width gives empty rows |
| `MapManagers.MapManager.constructor` | src/map_manager.py:5-6 | a new manager holds no maps |
| `MapManagers.MapManager.CreateMap` | src/map_manager.py:8-16 | a taken name raises ValueError and changes nothing; otherwise a blank map is registered under the name |
| `MapManagers.MapManager.GetMap` | src/map_manager.py:18-20 | gives the map registered under the name, or None |
| `Users.NewUser` | src/user.py:11-14 | a new user is a player |
| `Users.UserManager.constructor` | src/user.py:21-23 | a new manager holds no users and no game master |
| `Users.UserManager.AddUser` | src/user.py:25-37 | a second GM and a duplicate id raise ValueError; otherwise the user is stored, and a GM becomes the game master, even when the id turns out to be a duplicate |
| `Users.UserManager.RemoveUser` | src/user.py:39-46 | removes the user and returns it, and clears the game master when it was the GM |
| `Users.UserManager.GetUser` | src/user.py:48-50 | gives the user stored under the id, or None |
| `Users.UserManager.FindUserByName` | src/user.py:52-57 | gives the first user, in insertion order, whose name matches case-insensitively, or None when none does |
| `Users.UserManager.GetGm` | src/user.py:59-61 | gives the GM-role user when there is one, and None only when there is none |
| `Users.UserManager.ListUsers` | src/user.py:63-65 | lists every user once, in insertion order |
| `Users.AtMostOneGm` | src/user.py:25-46 | however users are added and removed, at most one stored user has the GM role |
| `Sessions.SessionManager.constructor` | src/server.py:10-12 | a new session has no connections and no game master |
| `Sessions.SessionManager.Connect` | src/server.py:14-18 | registers the client, which becomes game master when none is set |
| `Sessions.SessionManager.Disconnect` | src/server.py:20-25 | forgets the client, clears the game master when it was the GM, and changes nothing for an unknown client |
| `Sessions.SessionManager.IsGm` | src/server.py:27-28 | true exactly for the game master's client |
| `Sessions.SessionManager.PersonalRecipient` | src/server.py:30-33 | a personal message goes to the client's socket, and to no socket for an unknown client |
| `Sessions.SessionManager.Broadcast` | src/server.py:35-38 | a broadcast goes to every connected client except the excluded one, in connection order |
| `Sessions.SessionManager.Join` | src/server.py:50-57 | the client is connected and becomes game master when none is set; the user "Player-<client>" is then added as `add_user` does: GM exactly when the client is the game master, ValueError for a second GM or a taken id, and otherwise stored |
| `Initiative.InsertPermutes` | src/initiative.py:33-37 | inserting adds exactly one entry |
| `Initiative.InsertLowerBound` | src/initiative.py:33-37 | inserting keeps a lower bound that holds for the entry and the list |
| `Initiative.InsertSorted` | src/initiative.py:33-37 | inserting into a sorted list keeps it sorted |
| `Initiative.WithScoreAppend` | src/initiative.py:33-37 | filtering by score distributes over concatenation |
| `Initiative.NoneWithScoreAfter` | src/initiative.py:33-37 | a sorted list that starts after an entry holds no entry with that entry's score |
| `Initiative.InsertKeepsTies` | src/initiative.py:33-37 | an inserted entry goes after every entry with the same score |
| `Initiative.InsertFrontKeepsTies` | src/initiative.py:33-37 | an entry inserted at the front had no equal-score entries before it |
| `Initiative.StableSortCorrect` | src/initiative.py:33-37 | the sort is a permutation, is ordered by score, and keeps entries with equal scores in their original order |
| `Initiative.StableSort` | src/initiative.py:33-37 | the sort keeps the number of entries |
| `Initiative.StableSortPermutes` | src/initiative.py:33-37 | the sort is a permutation |
| `Initiative.StableSortSorted` | src/initiative.py:33-37 | the sort is ordered by score |
| `Initiative.StableSortStable` | src/initiative.py:33-37 | the sort keeps entries with equal scores in their original order |
| `Initiative.Scored` | src/initiative.py:26-30 | every scored entry is a combatant together with its score |
| `Initiative.ScoredMembers` | src/initiative.py:26-30 | the scored entries are exactly the combatants that have a score, each once |
| `Initiative.TurnOrderOf` | src/initiative.py:20-39 | only combatants that have a score appear in the turn order |
| `Initiative.SortedScored` | src/initiative.py:26-37 | sorting keeps every entry tied to its combatant's score |
| `Initiative.TurnOrderCorrect` | src/initiative.py:20-39 | the turn order lists every combatant with a score exactly once and none without one, ordered by score, with ties in insertion order |
| `Initiative.IdCount` | src/initiative.py:20-39 | an id occurs in the turn order once exactly when its combatant has a score |
| `Initiative.IdsCount` | src/initiative.py:20-39 | an id occurs as often as the one entry that carries it |
| `Initiative.InitiativeTracker.constructor` | src/initiative.py:4-5 | a new tracker has no combatants |
| `Initiative.InitiativeTracker.AddCombatant` | src/initiative.py:7-12 | a new combatant is appended with its score, and an existing one is left unchanged |
| `Initiative.InitiativeTracker.SetInitiative` | src/initiative.py:14-18 | an unknown id raises ValueError and changes nothing; otherwise only that combatant's score changes |
| `Initiative.InitiativeTracker.GetTurnOrder` | src/initiative.py:20-39 | gives the turn order that `TurnOrderCorrect` characterises |
| `Initiative.InitiativeTracker.Clear` | src/initiative.py:41-43 | removes every combatant |
| `Initiative.InitiativeTracker.ToDict` | src/initiative.py:50-54 | writes the combatant table under 'combatants' |
| `Initiative.InitiativeTracker.LoadFromDict` | src/initiative.py:56-60 | replaces the combatants by the loaded table, or leaves none when the table is malformed |
| `Initiative.ScoresToValue` | src/initiative.py:50-54 | the serialised table has the same keys in the same order |
| `Initiative.LoadScores` | src/initiative.py:56-60 | a loaded table is well formed, a missing table loads as no combatants, and a table that is neither a dict nor a list raises AttributeError, as `.copy()` does |
| `Initiative.RoundTrip` | src/initiative.py:50-60 | loading what `to_dict` wrote restores the same combatants, scores and order |
| `Initiative.TiesKeepInsertionOrder` | tests/test_initiative.py:38-48 | equal scores keep insertion order: player1 20, player2 5, npc1 20 gives player1, npc1, player2 |
| `Entities.EntityToDict` | src/entity.py:13-19 | the dict holds the id, the type and the attributes |
| `Entities.AttributesFromValue` | src/entity.py:21-26 | absent or None attributes load as an empty dict |
| `Entities.EntityFromDict` | src/entity.py:21-26 | entity_type is required, and missing attributes give an empty dict |
| `Entities.EntityRoundTrip` | src/entity.py:13-26 | an entity reads back as itself, with its attributes in order |
| `Entities.AbilityModifier` | src/entity.py:64-66 | the modifier is (score - 10) divided by 2, rounded down |
| `Entities.AbilityModifierExamples` | src/entity.py:64-66 | 14 gives +2, 16 gives +3, 9 gives -1 and 10 and 11 give 0, and the modifier never decreases as the score grows |
| `Entities.ResolveVariable` | src/entity.py:68-91 | no entity gives 0, a stored attribute gives its value, a `_mod` name that is not an attribute gives the modifier of its ability score (found under the short name for the six abilities) or 0 when there is no such score, and anything else gives 0 |
| `Entities.AbilityKeyMap` | src/entity.py:81-85 | the six ability names map to str, dex, con, int, wis and cha, and any other name maps to itself |
| `Entities.ResolveModifierExample` | tests/test_engine.py:31-35 | with str 14 and proficiency 3, strength_mod resolves to +2, proficiency to 3, and wisdom_mod to 0 |
| `Entities.OfType` | src/entity.py:58-62 | the filter keeps exactly the entities of the given type |
| `Entities.LoadEntities` | src/entity.py:99-104 | loading keeps the table a valid ordered dict and every entity already in it, and fails only with KeyError or TypeError |
| `Entities.LoadKeepsWellFormed` | src/entity.py:99-104 | loading into a well-formed table keeps every entity stored under its own id with a well-formed attribute dict |
| `Entities.LoadStep` | src/entity.py:99-104 | reading one saved entity stores it under its id |
| `Entities.PrefixStep` | src/entity.py:93-104 | adding the next entry of a table to its prefix gives the longer prefix |
| `Entities.PrefixEnds` | src/entity.py:93-104 | the empty prefix is empty, and the full prefix is the table |
| `Entities.LoadSuffix` | src/entity.py:99-104 | loading the rest of the saved list after a prefix completes the table |
| `Entities.LoadRoundTrip` | src/entity.py:93-104 | loading what `to_dict` wrote restores the same entities in the same order |
| `Entities.FirstNamed` | src/entity.py:110-115 | gives the first entity carrying the name, or None when none does |
| `Entities.EntityManager.constructor` | src/entity.py:30-31 | a new manager holds no entities |
| `Entities.EntityManager.CreateEntity` | src/entity.py:33-37 | stores a new entity with the given attributes, or an empty dict |
| `Entities.EntityManager.GetEntity` | src/entity.py:39-41 | gives the entity stored under the id, or None |
| `Entities.EntityManager.UpdateAttribute` | src/entity.py:43-49 | sets the attribute of a known entity and reports success; an unknown id changes nothing |
| `Entities.EntityManager.GetAttribute` | src/entity.py:51-56 | gives the attribute's value, or None when the entity or the attribute is missing |
| `Entities.EntityManager.ListEntities` | src/entity.py:58-62 | gives all entities in insertion order, or those of the given type |
| `Entities.EntityManager.ToDict` | src/entity.py:93-97 | writes every entity, in insertion order, under 'entities' |
| `Entities.EntityManager.ClearEntities` | src/entity.py:106-108 | removes every entity |
| `Entities.EntityManager.LoadFromDict` | src/entity.py:99-104 | clears, then stores each saved entity under its id, leaving the manager valid whether the load succeeds or stops early |
| `Entities.EntityManager.FindEntityByName` | src/entity.py:110-115 | gives the first entity, in insertion order, whose name attribute matches |
| `Actions.ActionFromData` | src/action_manager.py:18-35 | a missing id raises ValueError and an unhashable id raises TypeError; otherwise the fields are taken as given, with their defaults |
| `Actions.OnlyIdGivesDefaults` | src/action_manager.py:29-35 | only the id is required |
| `Actions.SnakeCaseOnSuccessIgnored` | src/action_manager.py:33 | the key 'on_success' is never read; only 'onSuccess' is |
| `Actions.ActionManager.constructor` | src/action_manager.py:15-16 | a new registry holds no actions |
| `Actions.PyKey` | src/action_manager.py:37-40 | a hashable id files under a hashable key, and strings and None under themselves |
| `Actions.PyKeyEquates` | src/action_manager.py:37-45 | True, 1 and 1.0 share a slot, as do False, 0 and 0.0; 0.5 shares none; distinct strings and distinct ints stay apart |
| `Actions.ActionManager.RegisterAction` | src/action_manager.py:18-41 | registers the action under its id and replaces any earlier one whose id Python's `==` equates with it; a failing registration changes nothing |
| `Actions.ActionManager.GetAction` | src/action_manager.py:43-45 | gives the action whose id Python's `==` equates with the given one, None when there is none, and TypeError for an unhashable id |
| `Actions.EqualIdsShareAnEntry` | src/action_manager.py:37-45 | registering under 1 and then under True leaves one entry, the second action, found by 1 and by 1.0 |
| `Dice.MatchSpacedDigits` | src/dice.py:12 | a match splits the text into spaces and a numeral |
| `Dice.MatchSigned` | src/dice.py:12 | a match is a well-formed signed modifier that spells the text |
| `Dice.MatchSides` | src/dice.py:12 | a match is the sides and an optional modifier that spell the text |
| `Dice.Match` | src/dice.py:12 | every match is well formed and spells exactly the matched text |
| `Dice.MatchSpacedDigitsText` | src/dice.py:12 | spaces followed by a numeral are matched |
| `Dice.MatchSignedText` | src/dice.py:12 | every well-formed signed modifier is matched |
| `Dice.MatchSidesText` | src/dice.py:12 | every well-formed sides part is matched |
| `Dice.MatchRender` | src/dice.py:12 | every expression the grammar describes is matched, with its parts |
| `Dice.Evaluate` | src/dice.py:23-29 | the count and sides are the numerals' values, and the modifier carries its sign (0 when absent) |
| `Dice.Parse` | src/dice.py:19-21 | an expression parses exactly when its stripped text matches |
| `Dice.RollResult.ToDict` | src/dice.py:34-38 | the dict holds the total, the rolls in order and the modifier |
| `Dice.Roll` | src/dice.py:14-38 | a rejected expression, or dice with no sides, raises ValueError; otherwise the rolls are the draws and the total is their sum plus the modifier |
| `Dice.SumBounds` | src/dice.py:31-32 | the sum of n draws in [1, sides] lies between n and n x sides |
| `Dice.TotalBounds` | src/dice.py:31-32 | the total lies between count + modifier and count x sides + modifier |
| `Dice.RejectsLeadingNonDigit` | src/dice.py:12 | text not starting with a digit is rejected |
| `Dice.RejectsTrailingNonDigit` | src/dice.py:12 | text not ending with a digit is rejected |
| `Dice.ParseRender` | src/dice.py:19-29 | every grammatical expression, with whitespace around it, parses to its value |
| `Dice.ParseRenderExact` | src/dice.py:19-29 | every grammatical expression parses to its value |
| `Dice.RenderSigned` | src/dice.py:12 | the text of an expression with a modifier reads left to right |
| `Dice.NegativeModifierParses` | tests/test_dice.py:37-53 | a '-' modifier, with or without spaces, is parsed as negative |
| `Dice.SpacedModifierParses` | tests/test_dice.py:37-53 | spaces around the sign are accepted and ignored |
| `Commands.HandlerFor` | src/cli/command_handler.py:18-22 | exactly the nine `do_` commands have a handler |
| `Commands.ParseIntLiteral` | src/cli/command_handler.py:84 | `int()` succeeds exactly on an optionally signed, underscore-grouped decimal literal surrounded by spaces, tabs, newlines, vertical tabs, form feeds or carriage returns, and reads a plain numeral as its value (ASCII only) |
| `Commands.IntSpaceNarrower` | src/cli/command_handler.py:84 | the whitespace `int()` skips is a strict subset of what `str.strip()` removes: "\x1c5" is not a number, while "\t5" reads as 5 |
| `Commands.ParseUnsigned` | src/cli/command_handler.py:82-86 | a numeral reads as its value |
| `Commands.IntToString` | src/cli/command_handler.py:82-86 | `str(n)` is non-empty, ends with a digit, and starts with a digit or '-' |
| `Commands.ParseDigits` | src/cli/command_handler.py:82-86 | `int()` reads a numeral as its value |
| `Commands.ParseNegativeDigits` | src/cli/command_handler.py:82-86 | `int()` reads '-' and a numeral as the negated value |
| `Commands.ParseSignedNegative` | src/cli/command_handler.py:82-86 | a signed numeral with '-' reads as the negated value |
| `Commands.ParseIntToString` | src/cli/command_handler.py:82-86 | every integer written out is read back |
| `Commands.LeadingNonNumeralIsText` | src/cli/command_handler.py:82-88 | a value starting with anything but whitespace, a sign or a digit stays a string |
| `Commands.SplitAtEquals` | src/cli/command_handler.py:81 | splitting at the first '=' gives a key without '=' and the rest |
| `Commands.AttributeValue` | src/cli/command_handler.py:82-88 | a value is an int exactly when `int()` accepts it, and then the int `int()` reads; otherwise it is the string itself |
| `Commands.AddAttribute` | src/cli/command_handler.py:80-88 | an argument without '=' changes nothing; a `key=value` argument sets the lowercased key to the parsed value, appending a new key last and keeping an existing key's place, and keeps the table well formed |
| `Commands.Attributes` | src/cli/command_handler.py:76-88 | the attributes are well formed and start with 'name' |
| `Commands.AttributesLastWins` | src/cli/command_handler.py:76-88 | the keys are 'name' and the lowercased assigned keys, and each takes the value of its last assignment |
| `Commands.AddAssignment` | src/cli/command_handler.py:79-88 | a `key=value` argument sets exactly the lowercased key |
| `Commands.IntAssignment` | src/cli/command_handler.py:79-88 | a written-out integer value is stored as that integer |
| `Commands.CreateTwoInts` | tests/test_command_handler.py:27-34 | two integer assignments after the name give the name and the two integers |
| `Commands.SplitUnique` | src/cli/command_handler.py:81 | the split at the first '=' is determined by the text |
| `Commands.DoCreate` | src/cli/command_handler.py:70-92 | nothing happens unless the arguments are 'char' and a name; otherwise one character is created with the parsed attributes |
| `Commands.DoAdd` | src/cli/command_handler.py:94-111 | one argument adds the first entity with that name to the initiative, and nothing happens otherwise |
| `Commands.DoInit` | src/cli/command_handler.py:113-118 | always rolls for initiative |
| `Commands.DoAttack` | src/cli/command_handler.py:120-146 | '<target> with <actor>' runs sword_attack when both entities are known, and nothing happens otherwise |
| `Commands.DoAction` | src/cli/command_handler.py:148-172 | runs the action when the action and both entities are known, and nothing happens otherwise |
| `Commands.DoSave` | src/cli/command_handler.py:174-183 | one argument saves the game to that path, and nothing happens otherwise |
| `Commands.DoLoad` | src/cli/command_handler.py:185-194 | one argument loads the game from that path, and nothing happens otherwise |
| `Commands.HandleCommand` | src/cli/command_handler.py:9-24 | 'exit' stops the loop, an unknown command does nothing, and every other command makes exactly the engine calls its handler makes |

## Left out

- Out of scope:
  - the network transport, the GUI, the module loader and file persistence;
  - every message printed to the console, including `do_help`'s text and
    `do_status`'s display. `do_status` also crashes on an unknown entity,
    and that is not modelled either.
- Fresh uuids and random numbers are parameters:
  - every `id` default is given by the caller;
  - the dice draws are given as a sequence, and `DrawsFit` says what the
    random source may deliver.
- Floats are not modelled:
  - slopes in the field of view are exact reals;
  - opacity is carried as an opaque value and only copied.
- The CLI is modelled only up to the engine:
  - the argument splitting done by `shlex` happens before `handle_command`
    and is not modelled;
  - the engine methods the handlers call are recorded as `EngineCall`
    values, not performed.
- `from_dict` checks types that Python does not:
  - Python stores whatever value a dict holds;
  - the model reports TypeError when a map-object field, a group id, a path
    point (which must be a pair of ints), an initiative score, an entity
    attribute table, an entity's type or id, or a token's entity id has the
    wrong type;
  - the model also reports TypeError when the saved 'entities' value is not
    a list, where Python iterates any iterable;
  - the model reports TypeError when the saved combatant table is a list,
    or a dict that is not a table of optional int scores. Python copies
    either kind and stores it.
- Initiative.LoadScores: a combatant table that is a list, or a dict
  holding scores that are not None or ints, gives TypeError. At
  src/initiative.py:59-60 Python copies and stores such a table. Only a
  table with no `copy` method raises AttributeError, and the model raises
  that too.
- Tokens.RequireOptStr: a present entity_id that is neither None nor a
  string gives TypeError, where src/token.py:37 stores any value.
- Entities.EntityFromDict: an entity_type or id that is not a string gives
  TypeError, where src/entity.py:24-25 stores any value.
- Entities.EntityManager.LoadFromDict: a saved 'entities' value that is not
  a list gives TypeError. Python iterates any iterable at src/entity.py:102,
  so an empty dict or an empty string loads no entities there.
- Initiative.InitiativeTracker.LoadFromDict: the table is read as a value.
  In Python `to_dict` returns the tracker's own dict (src/initiative.py:50-54),
  and `load_from_dict` clears that dict before reading (lines 56-60), so
  `t.load_from_dict(t.to_dict())` leaves `t` empty. `Initiative.RoundTrip`
  therefore holds only for a table that is not shared with the tracker, as
  after a save through JSON.
- Commands.ParseIntLiteral: the literal is characterised over ASCII only.
  Python's `int()` also skips Unicode spaces and reads Unicode digits.
- Commands.AttributeValue: only ASCII digits and whitespace are read.
  Python's `int()` also accepts Unicode digits and spaces, and such a value
  stays a string in the model.
- Characters are ASCII only: `\d`, `\s`, `str.lower()` and `int()` accept
  Unicode digits, spaces and letters, and the model does not.
- Tuples are written as two-element lists, as JSON stores them.
- Entities.EntityManager.CreateEntity: the attribute dict is copied. In
  Python the entity keeps the caller's dict, and the aliasing is not
  modelled.
- Entities.ResolveVariable: a `_mod` name whose ability score is not an int
  gives TypeError. Python would raise or compute on other numeric types.
- Operations that are only referenced are not modelled:
  - `add_object_to_map`, `move_object`, `list_maps` and `get_active_map`;
  - `Map.to_dict`, `Map.from_dict` and the map's object list;
  - `parse_and_handle`;
  - the shape, draw and group commands;
  - `@` substitution in dice formulas.
- Paths.RoundTrip: the round trip covers position and points together. The
  fact that points do not move with x and y is implied, not stated as a
  lemma of its own.
- Fov.ScanRow: the `is_full_shadow` update after an `add` can never run,
  because every `add` on the empty line raises first. The model keeps it
  unreachable.
- Sessions.SessionManager.Broadcast: only the choice of recipients is
  modelled, not the sending. The same holds for
  Sessions.SessionManager.PersonalRecipient.
