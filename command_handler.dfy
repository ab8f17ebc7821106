/** The command-line dispatcher (src/cli/command_handler.py). Each handler
    checks the shape of its arguments, looks entities and actions up, and
    then calls the engine; those engine calls are returned, in order, as
    `EngineCall` values instead of being performed. Printing is left out. */
module Commands {
  import opened Common
  import opened Entities
  import opened Actions

  /** A call a handler makes on the engine or one of its managers. */
  datatype EngineCall =
    | CreateEntity(entityType: string, attributes: ODict<Value>)
    | AddCombatant(entityId: string)
    | RollForInitiative
    | ExecuteAction(actionId: string, actor: Entity, target: Entity)
    | SaveGame(path: string)
    | LoadGame(path: string)

  /** The `do_*` methods `handle_command` can find. */
  datatype Handler = Help | Status | Create | Add | Init | Attack | RunAction | Save | Load

  /** `getattr(self, "do_" + command, None)` */
  function HandlerFor(command: string): (h: Option<Handler>)
    ensures h.Some? <==> command in {"help", "status", "create", "add", "init", "attack", "action", "save", "load"}
  {
    if command == "help" then Some(Help)
    else if command == "status" then Some(Status)
    else if command == "create" then Some(Create)
    else if command == "add" then Some(Add)
    else if command == "init" then Some(Init)
    else if command == "attack" then Some(Attack)
    else if command == "action" then Some(RunAction)
    else if command == "save" then Some(Save)
    else if command == "load" then Some(Load)
    else None
  }

  // ---- `int(value)` as used by do_create ----

  /** Decimal digits, possibly grouped by single underscores between
      digits, as `int()` accepts them. */
  predicate IsDigitGroups(s: string) {
    && |s| > 0 && IsDigit(s[0]) && IsDigit(s[|s| - 1])
    && (forall i | 0 <= i < |s| :: IsDigit(s[i]) || s[i] == '_')
    && (forall i, j | 0 <= i < |s| && 0 <= j < |s| && j == i + 1 :: !(s[i] == '_' && s[j] == '_'))
  }

  function WithoutUnderscores(s: string): (r: string)
    requires forall i | 0 <= i < |s| :: IsDigit(s[i]) || s[i] == '_'
    ensures AllDigits(r) && |r| <= |s|
    ensures AllDigits(s) ==> r == s
  {
    if s == [] then []
    else (if s[0] == '_' then [] else [s[0]]) + WithoutUnderscores(s[1..])
  }

  /** The whitespace `int()` skips around a literal: space, \t, \n, \v, \f
      and \r. Unlike `str.strip()`, it keeps the separators 0x1C-0x1F. */
  predicate IsIntSpace(c: char) {
    c == ' ' || c == '\t' || c == '\n' || c == '\r' || c == '\U{000B}' || c == '\U{000C}'
  }

  /** The text `int()` reads: `IsIntSpace` characters removed at both ends. */
  function IntStrip(s: string): (t: string)
    ensures |t| <= |s|
  {
    IntStripRight(IntStripLeft(s))
  }

  function IntStripLeft(s: string): (t: string)
    ensures |t| <= |s|
    ensures t == [] || !IsIntSpace(t[0])
  {
    if s == [] then s
    else if IsIntSpace(s[0]) then IntStripLeft(s[1..])
    else s
  }

  function IntStripRight(s: string): (t: string)
    ensures |t| <= |s|
    ensures t == [] || !IsIntSpace(t[|t| - 1])
  {
    if s == [] then s
    else if IsIntSpace(s[|s| - 1]) then IntStripRight(s[..|s| - 1])
    else s
  }

  /** Python's `int(text)` on a string: surrounding whitespace, an optional
      sign and decimal digits (ASCII only); None where Python raises
      ValueError. */
  function ParseInt(text: string): (r: Option<int>)
  {
    ParseSigned(IntStrip(text))
  }

  /** `int()` succeeds exactly on a stripped literal, and reads a plain
      numeral as its value. */
  lemma ParseIntLiteral(text: string)
    ensures ParseInt(text).Some? <==> IsIntLiteral(IntStrip(text))
    ensures IsNumeral(IntStrip(text)) ==> ParseInt(text) == Some(DigitsValue(IntStrip(text)))
  {
  }

  /** The whitespace `int()` skips is whitespace to `str.strip()` too, but
      not the other way round: a digit after an information separator is
      not a number, and a tab before it is. */
  lemma IntSpaceNarrower(c: char)
    ensures IsIntSpace(c) ==> IsSpace(c)
    ensures IsSpace('\U{001C}') && !IsIntSpace('\U{001C}')
    ensures ParseInt("\U{001C}5") == None
    ensures ParseInt("\t5") == Some(5)
  {
    var t := "\t5";
    assert IntStripLeft(t) == "5" by {
      assert t[1..] == "5";
    }
    assert ParseUnsigned("5") == Some(DigitsValue("5"));
  }

  /** The literals `int()` accepts once stripped: digit groups, with or
      without a leading sign. */
  predicate IsIntLiteral(t: string) {
    IsDigitGroups(t) || (|t| > 1 && (t[0] == '-' || t[0] == '+') && IsDigitGroups(t[1..]))
  }

  /** An optional sign followed by digit groups. */
  function ParseSigned(t: string): (r: Option<int>)
  {
    if |t| > 0 && t[0] == '-' then
      match ParseUnsigned(t[1..])
      case None => None
      case Some(n) => Some(-(n as int))
    else if |t| > 0 && t[0] == '+' then ParseUnsigned(t[1..])
    else ParseUnsigned(t)
  }

  function ParseUnsigned(body: string): (r: Option<nat>)
    ensures IsNumeral(body) ==> r == Some(DigitsValue(body))
  {
    if !IsDigitGroups(body) then None
    else Some(DigitsValue(WithoutUnderscores(body)))
  }

  /** `str(n)` */
  function IntToString(n: int): (s: string)
    ensures |s| > 0 && IsDigit(s[|s| - 1]) && (IsDigit(s[0]) || s[0] == '-')
  {
    if n < 0 then "-" + NatToString(-n) else NatToString(n)
  }

  lemma ParseDigits(s: string)
    requires IsNumeral(s)
    ensures ParseInt(s) == Some(DigitsValue(s))
  {
    IntStripUnchanged(s);
  }

  /** A string with no `int()` whitespace at either end is read as it is. */
  lemma IntStripUnchanged(t: string)
    requires |t| > 0 && !IsIntSpace(t[0]) && !IsIntSpace(t[|t| - 1])
    ensures IntStrip(t) == t
  {
  }

  lemma ParseNegativeDigits(s: string)
    requires IsNumeral(s)
    ensures ParseInt("-" + s) == Some(-(DigitsValue(s) as int))
  {
    var t := "-" + s;
    assert t[0] == '-' && t[|t| - 1] == s[|s| - 1];
    IntStripUnchanged(t);
    ParseSignedNegative(s);
  }

  lemma ParseSignedNegative(s: string)
    requires IsNumeral(s)
    ensures ParseSigned("-" + s) == Some(-(DigitsValue(s) as int))
  {
    var t := "-" + s;
    assert t[1..] == s;
    assert ParseUnsigned(s) == Some(DigitsValue(s));
  }

  /** `int(str(n)) == n`: every integer written out is read back. */
  lemma ParseIntToString(n: int)
    ensures ParseInt(IntToString(n)) == Some(n)
  {
    if n < 0 {
      var s := NatToString(-n);
      assert IntToString(n) == "-" + s;
      assert ParseInt("-" + s) == Some(-(DigitsValue(s) as int)) by {
        ParseNegativeDigits(s);
      }
      assert DigitsValue(s) == -n by {
        NatToStringValue(-n);
      }
    } else {
      var s := NatToString(n);
      assert IntToString(n) == s;
      assert ParseInt(s) == Some(DigitsValue(s)) by {
        ParseDigits(s);
      }
      assert DigitsValue(s) == n by {
        NatToStringValue(n);
      }
    }
  }

  lemma {:induction false} IntStripRightKeepsFirst(s: string)
    requires |s| > 0 && !IsIntSpace(s[0])
    ensures |IntStripRight(s)| > 0 && IntStripRight(s)[0] == s[0]
    decreases |s|
  {
    if IsIntSpace(s[|s| - 1]) {
      IntStripRightKeepsFirst(s[..|s| - 1]);
    }
  }

  /** A value starting with anything but whitespace, a sign or a digit is
      not a number, so do_create keeps it as a string. */
  lemma LeadingNonNumeralIsText(v: string)
    requires |v| > 0 && !IsIntSpace(v[0]) && !IsDigit(v[0]) && v[0] != '+' && v[0] != '-'
    ensures ParseInt(v) == None
  {
    IntStripRightKeepsFirst(v);
  }

  // ---- do_create's attribute parsing ----

  /** `arg.split('=', 1)` for an argument holding '=': the text before the
      first '=' and everything after it. */
  function SplitAtEquals(arg: string): (r: (string, string))
    requires '=' in arg
    ensures '=' !in r.0 && arg == r.0 + "=" + r.1
  {
    if arg[0] == '=' then ("", arg[1..])
    else
      assert '=' in arg[1..] by {
        var i :| 0 <= i < |arg| && arg[i] == '=';
        assert arg[1..][i - 1] == '=';
      }
      var (key, value) := SplitAtEquals(arg[1..]);
      ([arg[0]] + key, value)
  }

  /** An attribute value: an int if `int()` accepts it, else the string. */
  function AttributeValue(value: string): (v: Value)
    ensures v.VInt? || v == VStr(value)
    ensures v.VInt? <==> ParseInt(value).Some?
    ensures ParseInt(value).Some? ==> v == VInt(ParseInt(value).value)
  {
    match ParseInt(value)
    case Some(n) => VInt(n)
    case None => VStr(value)
  }

  /** One step of the loop: a `key=value` argument sets the lowercased key;
      any other argument is skipped. */
  function AddAttribute(attributes: ODict<Value>, arg: string): (r: ODict<Value>)
    ensures '=' !in arg ==> r == attributes
    ensures '=' in arg ==> var (key, value) := SplitAtEquals(arg);
      && r.entries == attributes.entries[Lower(key) := AttributeValue(value)]
      && r.keys == (if Lower(key) in attributes.entries then attributes.keys else attributes.keys + [Lower(key)])
    ensures attributes.Valid() ==> r.Valid()
  {
    if '=' in arg then
      var (key, value) := SplitAtEquals(arg);
      attributes.Put(Lower(key), AttributeValue(value))
    else attributes
  }

  /** The attributes `do_create` builds from the name and the arguments
      after it, taken left to right. */
  function Attributes(name: string, assignments: seq<string>): (d: ODict<Value>)
    ensures d.Valid() && |d.keys| > 0 && d.keys[0] == "name"
  {
    if assignments == [] then ODict(["name"], map["name" := VStr(name)])
    else AddAttribute(Attributes(name, assignments[..|assignments| - 1]), assignments[|assignments| - 1])
  }

  /** The value the last argument assigning `key` gives it, read from the
      right; None when no argument assigns it. */
  function LastAssigned(assignments: seq<string>, key: string): Option<Value> {
    if assignments == [] then None
    else
      var arg := assignments[|assignments| - 1];
      if '=' in arg && Lower(SplitAtEquals(arg).0) == key then Some(AttributeValue(SplitAtEquals(arg).1))
      else LastAssigned(assignments[..|assignments| - 1], key)
  }

  /** The keys present are "name" and the lowercased keys assigned; each
      holds the value of its last assignment, and "name" holds the given
      name unless an argument overwrites it. Arguments without '=' have no
      effect. */
  lemma {:induction false} AttributesLastWins(name: string, assignments: seq<string>, key: string)
    ensures var d := Attributes(name, assignments);
      && (key in d.entries <==> key == "name" || LastAssigned(assignments, key).Some?)
      && (LastAssigned(assignments, key).Some? ==> d.entries[key] == LastAssigned(assignments, key).value)
      && (LastAssigned(assignments, key).None? && key == "name" ==> d.entries[key] == VStr(name))
    decreases |assignments|
  {
    if assignments != [] {
      AttributesLastWins(name, assignments[..|assignments| - 1], key);
    }
  }

  /** A `key=value` argument whose key holds no '=' sets exactly that
      lowercased key. */
  lemma AddAssignment(d: ODict<Value>, key: string, value: string)
    requires '=' !in key
    ensures AddAttribute(d, key + "=" + value) == d.Put(Lower(key), AttributeValue(value))
  {
    var arg := key + "=" + value;
    assert arg[|key|] == '=';
    var r := SplitAtEquals(arg);
    SplitUnique(key, value, r.0, r.1);
  }

  /** A `key=value` argument whose value is an integer written out stores
      that integer under the lowercased key. */
  lemma IntAssignment(d: ODict<Value>, key: string, n: int)
    requires '=' !in key
    ensures AddAttribute(d, key + "=" + IntToString(n)) == d.Put(Lower(key), VInt(n))
  {
    AddAssignment(d, key, IntToString(n));
    ParseIntToString(n);
  }

  /** Two integer assignments after the name, as in `create char Player2
      hp=30 str=16`: the name comes first, then each lowercased key in
      order with its integer. */
  lemma CreateTwoInts(name: string, k1: string, n1: int, k2: string, n2: int)
    requires '=' !in k1 && '=' !in k2
    ensures Attributes(name, [k1 + "=" + IntToString(n1), k2 + "=" + IntToString(n2)])
            == ODict(["name"], map["name" := VStr(name)]).Put(Lower(k1), VInt(n1)).Put(Lower(k2), VInt(n2))
  {
    var args := [k1 + "=" + IntToString(n1), k2 + "=" + IntToString(n2)];
    var d0 := Attributes(name, []);
    var d1 := Attributes(name, args[..1]);
    assert args[..1][..0] == [];
    IntAssignment(d0, k1, n1);
    IntAssignment(d1, k2, n2);
  }

  /** Splitting at the first '=' is determined by the text. */
  lemma SplitUnique(k1: string, v1: string, k2: string, v2: string)
    requires '=' !in k1 && '=' !in k2 && k1 + "=" + v1 == k2 + "=" + v2
    ensures k1 == k2 && v1 == v2
  {
    var s := k1 + "=" + v1;
    assert forall i | 0 <= i < |k1| :: s[i] == k1[i] && s[i] != '=';
    assert forall i | 0 <= i < |k2| :: s[i] == k2[i] && s[i] != '=';
    assert s[|k1|] == '=' && s[|k2|] == '=';
    assert |k1| == |k2|;
    assert k1 == s[..|k1|] && k2 == s[..|k2|];
    assert v1 == s[|k1| + 1..] && v2 == s[|k2| + 1..];
  }

  // ---- the handlers ----

  /** `do_create(args)`: nothing unless there are at least two arguments
      and the first is "char" in any case; then one `create_entity` call
      with type "character" and the parsed attributes. */
  method DoCreate(args: seq<string>) returns (calls: seq<EngineCall>)
    ensures |args| < 2 || Lower(args[0]) != "char" ==> calls == []
    ensures |args| >= 2 && Lower(args[0]) == "char" ==>
              calls == [CreateEntity("character", Attributes(args[1], args[2..]))]
  {
    if |args| < 2 || Lower(args[0]) != "char" {
      return [];
    }
    var name := args[1];
    var attributes := ODict(["name"], map["name" := VStr(name)]);
    var rest := args[2..];
    for i := 0 to |rest|
      invariant attributes == Attributes(name, rest[..i])
    {
      assert rest[..i + 1][..i] == rest[..i];
      var arg := rest[i];
      if '=' in arg {
        var (key, value) := SplitAtEquals(arg);
        var parsed := ParseInt(value);
        if parsed.Some? {
          attributes := attributes.Put(Lower(key), VInt(parsed.value));
        } else {
          attributes := attributes.Put(Lower(key), VStr(value));
        }
      }
    }
    assert rest[..|rest|] == rest;
    return [CreateEntity("character", attributes)];
  }

  /** `do_add(args)`: exactly one argument, the name; the first entity
      carrying it is added to the initiative tracker, and an unknown name
      adds nothing. */
  method DoAdd(args: seq<string>, em: EntityManager) returns (calls: seq<EngineCall>)
    requires em.Valid()
    ensures |args| != 1 ==> calls == []
    ensures |args| == 1 ==>
      match FirstNamed(em.entities.Values(), args[0])
      case None => calls == []
      case Some(e) => calls == [AddCombatant(e.id)]
  {
    if |args| != 1 {
      return [];
    }
    var entity := em.FindEntityByName(args[0]);
    if entity.None? {
      return [];
    }
    return [AddCombatant(entity.value.id)];
  }

  /** `do_init(args)`: rolls initiative (the status display after it only
      prints). */
  method DoInit(args: seq<string>) returns (calls: seq<EngineCall>)
    ensures calls == [RollForInitiative]
  {
    return [RollForInitiative];
  }

  /** `do_attack(args)`: "<target> with <actor>", 'with' in any case; runs
      "sword_attack" from the actor on the target, and nothing if either is
      unknown. */
  method DoAttack(args: seq<string>, em: EntityManager) returns (calls: seq<EngineCall>)
    requires em.Valid()
    ensures |args| != 3 || Lower(args[1]) != "with" ==> calls == []
    ensures |args| == 3 && Lower(args[1]) == "with" ==>
      var actor := FirstNamed(em.entities.Values(), args[2]);
      var target := FirstNamed(em.entities.Values(), args[0]);
      calls == if actor.Some? && target.Some? then [ExecuteAction("sword_attack", actor.value, target.value)] else []
  {
    if |args| != 3 || Lower(args[1]) != "with" {
      return [];
    }
    var targetName := args[0];
    var actorName := args[2];
    var actor := em.FindEntityByName(actorName);
    var target := em.FindEntityByName(targetName);
    if actor.None? || target.None? {
      return [];
    }
    return [ExecuteAction("sword_attack", actor.value, target.value)];
  }

  /** `do_action(args)`: "<action id> <actor> <target>"; runs the action
      when both entities and the action are known, and nothing otherwise. */
  method DoAction(args: seq<string>, em: EntityManager, am: ActionManager) returns (calls: seq<EngineCall>)
    requires em.Valid() && am.Valid()
    ensures |args| != 3 ==> calls == []
    ensures |args| == 3 ==>
      var actor := FirstNamed(em.entities.Values(), args[1]);
      var target := FirstNamed(em.entities.Values(), args[2]);
      calls == if actor.Some? && target.Some? && VStr(args[0]) in am.actions
               then [ExecuteAction(args[0], actor.value, target.value)] else []
  {
    if |args| != 3 {
      return [];
    }
    var actionId, actorName, targetName := args[0], args[1], args[2];
    var actor := em.FindEntityByName(actorName);
    var target := em.FindEntityByName(targetName);
    if actor.None? || target.None? {
      return [];
    }
    StringIdLookup(am, actionId);
    if am.GetAction(VStr(actionId)) == Ok(None) {
      return [];
    }
    return [ExecuteAction(actionId, actor.value, target.value)];
  }

  /** `do_save(args)` and `do_load(args)`: exactly one argument, the path. */
  method DoSave(args: seq<string>) returns (calls: seq<EngineCall>)
    ensures calls == if |args| == 1 then [SaveGame(args[0])] else []
  {
    if |args| != 1 {
      return [];
    }
    return [SaveGame(args[0])];
  }

  method DoLoad(args: seq<string>) returns (calls: seq<EngineCall>)
    ensures calls == if |args| == 1 then [LoadGame(args[0])] else []
  {
    if |args| != 1 {
      return [];
    }
    return [LoadGame(args[0])];
  }

  /** `handle_command(command, args)`: "exit" returns True and runs no
      handler; any other command returns False, running its handler when
      one exists and nothing otherwise. */
  method HandleCommand(command: string, args: seq<string>, em: EntityManager, am: ActionManager)
    returns (exit: bool, handler: Option<Handler>, calls: seq<EngineCall>)
    requires em.Valid() && am.Valid()
    ensures exit <==> command == "exit"
    ensures handler == if exit then None else HandlerFor(command)
    ensures handler.None? ==> calls == []
    ensures handler == Some(Help) || handler == Some(Status) ==> calls == []
    ensures handler == Some(Init) ==> calls == [RollForInitiative]
    ensures handler == Some(Create) ==>
      calls == if |args| >= 2 && Lower(args[0]) == "char"
               then [CreateEntity("character", Attributes(args[1], args[2..]))] else []
    ensures handler == Some(Add) ==>
      calls == if |args| == 1 && FirstNamed(em.entities.Values(), args[0]).Some?
               then [AddCombatant(FirstNamed(em.entities.Values(), args[0]).value.id)] else []
    ensures handler == Some(Attack) ==>
      calls == if |args| == 3 && Lower(args[1]) == "with"
                  && FirstNamed(em.entities.Values(), args[2]).Some? && FirstNamed(em.entities.Values(), args[0]).Some?
               then [ExecuteAction("sword_attack", FirstNamed(em.entities.Values(), args[2]).value,
                                   FirstNamed(em.entities.Values(), args[0]).value)]
               else []
    ensures handler == Some(RunAction) ==>
      calls == if |args| == 3 && VStr(args[0]) in am.actions
                  && FirstNamed(em.entities.Values(), args[1]).Some? && FirstNamed(em.entities.Values(), args[2]).Some?
               then [ExecuteAction(args[0], FirstNamed(em.entities.Values(), args[1]).value,
                                   FirstNamed(em.entities.Values(), args[2]).value)]
               else []
    ensures handler == Some(Save) ==> calls == if |args| == 1 then [SaveGame(args[0])] else []
    ensures handler == Some(Load) ==> calls == if |args| == 1 then [LoadGame(args[0])] else []
  {
    if command == "exit" {
      return true, None, [];
    }
    handler := HandlerFor(command);
    calls := [];
    match handler {
      case None =>
      case Some(Help) =>
      case Some(Status) =>
      case Some(Create) => calls := DoCreate(args);
      case Some(Add) => calls := DoAdd(args, em);
      case Some(Init) => calls := DoInit(args);
      case Some(Attack) => calls := DoAttack(args, em);
      case Some(RunAction) => calls := DoAction(args, em, am);
      case Some(Save) => calls := DoSave(args);
      case Some(Load) => calls := DoLoad(args);
    }
    exit := false;
  }
}
