/** `InitiativeTracker` (src/initiative.py): combatant ids mapped to an
    optional initiative score, in insertion order, and the turn order derived
    from them by a stable sort. */
module Initiative {
  import opened Common

  /** A combatant that has a score: (entity id, score). */
  type Entry = (string, int)

  /** `a` goes strictly before `b` in the sort order. */
  predicate Before(a: Entry, b: Entry, descending: bool) {
    if descending then a.1 > b.1 else a.1 < b.1
  }

  predicate SortedBy(s: seq<Entry>, descending: bool) {
    forall i, j | 0 <= i < j < |s| :: !Before(s[j], s[i], descending)
  }

  /** Places `x` after every element that does not go strictly after it,
      which keeps equal scores in arrival order. */
  function Insert(x: Entry, s: seq<Entry>, descending: bool): (r: seq<Entry>)
    ensures |r| == |s| + 1
  {
    if s == [] then [x]
    else if Before(x, s[0], descending) then [x] + s
    else [s[0]] + Insert(x, s[1..], descending)
  }

  /** Python's `sorted(..., key=score, reverse=descending)`, which is stable in
      both directions. It rearranges the entries without adding or losing
      any. */
  function StableSort(s: seq<Entry>, descending: bool): (r: seq<Entry>)
    ensures |r| == |s|
  {
    if s == [] then []
    else Insert(s[|s| - 1], StableSort(s[..|s| - 1], descending), descending)
  }

  /** The entries with score `v`, in order. */
  function WithScore(s: seq<Entry>, v: int): seq<Entry> {
    if s == [] then []
    else (if s[0].1 == v then [s[0]] else []) + WithScore(s[1..], v)
  }

  function Ids(s: seq<Entry>): seq<string> {
    seq(|s|, i requires 0 <= i < |s| => s[i].0)
  }

  lemma {:induction false} InsertPermutes(x: Entry, s: seq<Entry>, descending: bool)
    ensures multiset(Insert(x, s, descending)) == multiset(s) + multiset{x}
  {
    if s != [] && !Before(x, s[0], descending) {
      InsertPermutes(x, s[1..], descending);
      assert s == [s[0]] + s[1..];
    }
  }

  /** The tail of a sorted sequence is sorted, and nothing in it goes
      strictly before the head. */
  lemma SortedTail(s: seq<Entry>, descending: bool)
    requires SortedBy(s, descending) && s != []
    ensures SortedBy(s[1..], descending)
    ensures forall k | 0 <= k < |s| - 1 :: !Before(s[1..][k], s[0], descending)
  {
    var tail := s[1..];
    forall i, j | 0 <= i < j < |tail| ensures !Before(tail[j], tail[i], descending) {
      assert tail[i] == s[i + 1] && tail[j] == s[j + 1];
    }
    forall k | 0 <= k < |tail| ensures !Before(tail[k], s[0], descending) {
      assert tail[k] == s[k + 1];
    }
  }

  /** If neither `x` nor anything in `s` goes strictly before `y`, nothing in
      `Insert(x, s)` does. */
  lemma {:induction false} InsertLowerBound(x: Entry, s: seq<Entry>, y: Entry, descending: bool)
    requires !Before(x, y, descending)
    requires forall k | 0 <= k < |s| :: !Before(s[k], y, descending)
    ensures forall k | 0 <= k < |Insert(x, s, descending)| :: !Before(Insert(x, s, descending)[k], y, descending)
  {
    if s == [] {
    } else if Before(x, s[0], descending) {
      forall k | 0 <= k < |[x] + s| ensures !Before(([x] + s)[k], y, descending) {
        if k > 0 { assert ([x] + s)[k] == s[k - 1]; }
      }
    } else {
      var tail := s[1..];
      assert forall k | 0 <= k < |tail| :: tail[k] == s[k + 1];
      InsertLowerBound(x, tail, y, descending);
      var r := Insert(x, tail, descending);
      forall k | 0 <= k < |[s[0]] + r| ensures !Before(([s[0]] + r)[k], y, descending) {
        if k > 0 { assert ([s[0]] + r)[k] == r[k - 1]; }
      }
    }
  }

  lemma {:induction false} InsertSorted(x: Entry, s: seq<Entry>, descending: bool)
    requires SortedBy(s, descending)
    ensures SortedBy(Insert(x, s, descending), descending)
  {
    if s == [] {
    } else if Before(x, s[0], descending) {
      forall i, j | 0 <= i < j < |[x] + s| ensures !Before(([x] + s)[j], ([x] + s)[i], descending) {
        assert ([x] + s)[j] == s[j - 1];
        if i > 0 { assert ([x] + s)[i] == s[i - 1]; } else { assert !Before(s[j - 1], s[0], descending); }
      }
    } else {
      var tail := s[1..];
      SortedTail(s, descending);
      InsertSorted(x, tail, descending);
      InsertLowerBound(x, tail, s[0], descending);
      var r := Insert(x, tail, descending);
      forall i, j | 0 <= i < j < |[s[0]] + r|
        ensures !Before(([s[0]] + r)[j], ([s[0]] + r)[i], descending)
      {
        if i > 0 { assert ([s[0]] + r)[i] == r[i - 1]; }
        assert ([s[0]] + r)[j] == r[j - 1];
      }
    }
  }

  lemma {:induction false} WithScoreAppend(a: seq<Entry>, b: seq<Entry>, v: int)
    ensures WithScore(a + b, v) == WithScore(a, v) + WithScore(b, v)
  {
    if a == [] {
      assert a + b == b;
    } else {
      var c := a + b;
      var head := if a[0].1 == v then [a[0]] else [];
      assert c[0] == a[0] && c[1..] == a[1..] + b;
      WithScoreAppend(a[1..], b, v);
      calc {
        WithScore(c, v);
        head + WithScore(a[1..] + b, v);
        head + (WithScore(a[1..], v) + WithScore(b, v));
        (head + WithScore(a[1..], v)) + WithScore(b, v);
      }
    }
  }

  /** In a sorted sequence whose head goes strictly after `x`, nothing has
      `x`'s score. */
  lemma {:induction false} NoneWithScoreAfter(x: Entry, s: seq<Entry>, descending: bool)
    requires SortedBy(s, descending) && s != [] && Before(x, s[0], descending)
    ensures WithScore(s, x.1) == []
  {
    if |s| == 1 {
      assert s[1..] == [];
    } else {
      var tail := s[1..];
      SortedTail(s, descending);
      assert Before(x, tail[0], descending);
      NoneWithScoreAfter(x, tail, descending);
    }
  }

  /** Inserting into a sorted sequence puts `x` after every entry of equal
      score already there. */
  lemma {:induction false} InsertKeepsTies(x: Entry, s: seq<Entry>, descending: bool, v: int)
    requires SortedBy(s, descending)
    ensures WithScore(Insert(x, s, descending), v) == WithScore(s, v) + (if x.1 == v then [x] else [])
  {
    var own := if x.1 == v then [x] else [];
    if s == [] {
    } else if Before(x, s[0], descending) {
      InsertFrontKeepsTies(x, s, descending, v);
    } else {
      var tail := s[1..];
      var head := if s[0].1 == v then [s[0]] else [];
      assert SortedBy(tail, descending) by { SortedTail(s, descending); }
      var r := Insert(x, tail, descending);
      assert Insert(x, s, descending) == [s[0]] + r;
      assert WithScore(r, v) == WithScore(tail, v) + own by {
        InsertKeepsTies(x, tail, descending, v);
      }
      assert WithScore([s[0]] + r, v) == head + WithScore(r, v) by { WithScoreCons(s[0], r, v); }
      assert WithScore(s, v) == head + WithScore(tail, v) by {
        WithScoreCons(s[0], tail, v);
        assert [s[0]] + tail == s;
      }
      assert head + (WithScore(tail, v) + own) == (head + WithScore(tail, v)) + own;
    }
  }

  /** When `x` goes in front, no entry of its score was there before it. */
  lemma InsertFrontKeepsTies(x: Entry, s: seq<Entry>, descending: bool, v: int)
    requires SortedBy(s, descending) && s != [] && Before(x, s[0], descending)
    ensures WithScore([x] + s, v) == WithScore(s, v) + (if x.1 == v then [x] else [])
  {
    WithScoreCons(x, s, v);
    if x.1 == v { NoneWithScoreAfter(x, s, descending); }
  }

  lemma WithScoreCons(e: Entry, t: seq<Entry>, v: int)
    ensures WithScore([e] + t, v) == (if e.1 == v then [e] else []) + WithScore(t, v)
  {
    assert ([e] + t)[1..] == t;
  }

  /** The sort is a permutation, is ordered by score, and keeps the entries of
      each score in their original order. */
  lemma StableSortCorrect(s: seq<Entry>, descending: bool, v: int)
    ensures multiset(StableSort(s, descending)) == multiset(s)
    ensures SortedBy(StableSort(s, descending), descending)
    ensures WithScore(StableSort(s, descending), v) == WithScore(s, v)
  {
    StableSortPermutes(s, descending);
    StableSortSorted(s, descending);
    StableSortStable(s, descending, v);
  }

  lemma {:induction false} StableSortPermutes(s: seq<Entry>, descending: bool)
    ensures multiset(StableSort(s, descending)) == multiset(s)
  {
    if s != [] {
      var init, last := s[..|s| - 1], s[|s| - 1];
      StableSortPermutes(init, descending);
      InsertPermutes(last, StableSort(init, descending), descending);
      assert s == init + [last];
    }
  }

  lemma {:induction false} StableSortSorted(s: seq<Entry>, descending: bool)
    ensures SortedBy(StableSort(s, descending), descending)
  {
    if s != [] {
      StableSortSorted(s[..|s| - 1], descending);
      InsertSorted(s[|s| - 1], StableSort(s[..|s| - 1], descending), descending);
    }
  }

  lemma {:induction false} StableSortStable(s: seq<Entry>, descending: bool, v: int)
    ensures WithScore(StableSort(s, descending), v) == WithScore(s, v)
  {
    if s != [] {
      var init, last := s[..|s| - 1], s[|s| - 1];
      var sorted := StableSort(init, descending);
      assert StableSort(s, descending) == Insert(last, sorted, descending) by {
        StableSortStep(s, descending);
      }
      var tie := if last.1 == v then [last] else [];
      assert WithScore(Insert(last, sorted, descending), v) == WithScore(sorted, v) + tie by {
        StableSortSorted(init, descending);
        InsertKeepsTies(last, sorted, descending, v);
      }
      assert WithScore(sorted, v) == WithScore(init, v) by {
        StableSortStable(init, descending, v);
      }
      assert WithScore(s, v) == WithScore(init, v) + tie by {
        assert s == init + [last];
        WithScoreAppend(init, [last], v);
        assert WithScore([last], v) == tie + WithScore([last][1..], v);
      }
    }
  }

  /** The sort inserts the last entry into the sorted rest. */
  lemma StableSortStep(s: seq<Entry>, descending: bool)
    requires s != []
    ensures StableSort(s, descending) == Insert(s[|s| - 1], StableSort(s[..|s| - 1], descending), descending)
  {
  }

  /** The scored combatants, in insertion order (the dict comprehension that
      drops None scores). */
  function Scored(keys: seq<string>, entries: map<string, Option<int>>): (r: seq<Entry>)
    requires forall k | k in keys :: k in entries
    ensures forall i | 0 <= i < |r| :: r[i].0 in keys && entries[r[i].0] == Some(r[i].1)
  {
    if keys == [] then []
    else
      var rest := Scored(keys[1..], entries);
      match entries[keys[0]]
      case None => rest
      case Some(score) => [(keys[0], score)] + rest
  }

  lemma {:induction false} ScoredMembers(keys: seq<string>, entries: map<string, Option<int>>, e: Entry)
    requires forall k | k in keys :: k in entries
    requires Distinct(keys)
    ensures multiset(Scored(keys, entries))[e] == if e.0 in keys && entries[e.0] == Some(e.1) then 1 else 0
  {
    if keys != [] {
      var tail := keys[1..];
      assert Distinct(tail) by {
        forall i, j | 0 <= i < j < |tail| ensures tail[i] != tail[j] {
          assert tail[i] == keys[i + 1] && tail[j] == keys[j + 1];
        }
      }
      assert keys[0] !in tail by {
        forall j | 0 <= j < |tail| ensures tail[j] != keys[0] {
          assert tail[j] == keys[j + 1];
        }
      }
      ScoredMembers(tail, entries, e);
      assert e.0 in keys <==> e.0 == keys[0] || e.0 in tail;
    }
  }

  /** `get_turn_order(descending)` on a combatant table: only combatants
      that have a score appear. */
  function TurnOrderOf(d: ODict<Option<int>>, descending: bool): (order: seq<string>)
    requires d.Valid()
    ensures forall i | 0 <= i < |order| :: order[i] in d.entries && d.entries[order[i]].Some?
  {
    var sorted := StableSort(Scored(d.keys, d.entries), descending);
    SortedScored(d, descending);
    var order := Ids(sorted);
    assert forall i | 0 <= i < |order| :: order[i] in d.entries && d.entries[order[i]].Some? by {
      forall i | 0 <= i < |order| ensures order[i] in d.entries && d.entries[order[i]].Some? {
        assert order[i] == sorted[i].0 && sorted[i] in sorted;
      }
    }
    order
  }

  /** Sorting keeps every scored entry tied to its combatant's score. */
  lemma SortedScored(d: ODict<Option<int>>, descending: bool)
    requires d.Valid()
    ensures forall e | e in StableSort(Scored(d.keys, d.entries), descending) :: e.0 in d.entries && d.entries[e.0] == Some(e.1)
  {
    var scored := Scored(d.keys, d.entries);
    var sorted := StableSort(scored, descending);
    StableSortPermutes(scored, descending);
    forall e | e in sorted ensures e.0 in d.entries && d.entries[e.0] == Some(e.1) {
      assert e in multiset(sorted);
      assert e in scored;
    }
  }

  /** The turn order lists each combatant with a score exactly once (a score
      of 0 included) and no other id; scores never increase along a
      descending order nor decrease along an ascending one; and combatants
      with equal scores keep their insertion order. */
  lemma TurnOrderCorrect(d: ODict<Option<int>>, descending: bool, v: int)
    requires d.Valid()
    ensures var order := TurnOrderOf(d, descending);
      && (forall id :: multiset(order)[id] == if id in d.entries && d.entries[id].Some? then 1 else 0)
      && (forall i | 0 <= i < |order| :: order[i] in d.entries && d.entries[order[i]].Some?)
      && (forall i, j | 0 <= i < j < |order| ::
            if descending then d.entries[order[i]].value >= d.entries[order[j]].value
            else d.entries[order[i]].value <= d.entries[order[j]].value)
    ensures WithScore(StableSort(Scored(d.keys, d.entries), descending), v) == WithScore(Scored(d.keys, d.entries), v)
  {
    var scored := Scored(d.keys, d.entries);
    var sorted := StableSort(scored, descending);
    StableSortCorrect(scored, descending, v);
    var order := Ids(sorted);
    forall e: Entry ensures multiset(sorted)[e] == if e.0 in d.entries && d.entries[e.0] == Some(e.1) then 1 else 0 {
      ScoredMembers(d.keys, d.entries, e);
    }
    SortedScored(d, descending);
    forall id ensures multiset(order)[id] == if id in d.entries && d.entries[id].Some? then 1 else 0 {
      IdCount(sorted, id, d.entries);
    }
  }

  /** An id occurs in `Ids(s)` as often as the entries carrying it occur in
      `s`; with the counts above that is once per scored combatant. */
  lemma IdCount(s: seq<Entry>, id: string, entries: map<string, Option<int>>)
    requires forall e: Entry :: multiset(s)[e] == if e.0 in entries && entries[e.0] == Some(e.1) then 1 else 0
    ensures multiset(Ids(s))[id] == if id in entries && entries[id].Some? then 1 else 0
  {
    var w := if id in entries && entries[id].Some? then entries[id].value else 0;
    forall i | 0 <= i < |s| && s[i].0 == id ensures s[i] == (id, w) {
      assert s[i] in multiset(s);
    }
    IdsCount(s, id, w);
  }

  /** When every entry carrying `id` is the same entry, `id` occurs in the
      ids as often as that entry occurs. */
  lemma {:induction false} IdsCount(s: seq<Entry>, id: string, w: int)
    requires forall i | 0 <= i < |s| && s[i].0 == id :: s[i] == (id, w)
    ensures multiset(Ids(s))[id] == multiset(s)[(id, w)]
  {
    if s != [] {
      var tail := s[1..];
      assert forall i | 0 <= i < |tail| :: tail[i] == s[i + 1];
      IdsCount(tail, id, w);
      assert Ids(s) == [s[0].0] + Ids(tail);
      assert s == [s[0]] + tail;
    }
  }

  class InitiativeTracker {
    var combatants: ODict<Option<int>>

    constructor ()
      ensures combatants == EmptyDict()
    {
      combatants := EmptyDict();
    }

    /** `add_combatant(entity_id, initiative)`: a combatant already present
        is left alone, score included; a new one goes last. */
    method AddCombatant(entityId: string, initiative: Option<int>)
      modifies this
      ensures entityId in old(combatants.entries) ==> combatants == old(combatants)
      ensures entityId !in old(combatants.entries) ==> combatants == old(combatants).Put(entityId, initiative)
    {
      if entityId in combatants.entries {
        return;
      }
      combatants := combatants.Put(entityId, initiative);
    }

    /** `set_initiative(entity_id, score)`: an unknown id raises ValueError
        and changes nothing; a known one keeps its place. */
    method SetInitiative(entityId: string, score: Option<int>) returns (o: Outcome)
      modifies this
      ensures entityId !in old(combatants.entries) ==> o == Fail(ValueError) && combatants == old(combatants)
      ensures entityId in old(combatants.entries) ==>
                o == Pass && combatants == old(combatants).Put(entityId, score) && combatants.keys == old(combatants.keys)
    {
      if entityId !in combatants.entries {
        return Fail(ValueError);
      }
      combatants := combatants.Put(entityId, score);
      return Pass;
    }

    /** `get_turn_order(descending)` */
    function GetTurnOrder(descending: bool): (order: seq<string>)
      reads this
      requires combatants.Valid()
      ensures order == TurnOrderOf(combatants, descending)
    {
      TurnOrderOf(combatants, descending)
    }

    /** `clear()` */
    method Clear()
      modifies this
      ensures combatants == EmptyDict()
    {
      combatants := EmptyDict();
    }

    /** `to_dict()`: the combatant table under the key 'combatants'. */
    function ToDict(): (d: Dict)
      reads this
      ensures d.Keys == {"combatants"}
      ensures d["combatants"] == VDict(ScoresToValue(combatants))
    {
      map["combatants" := VDict(ScoresToValue(combatants))]
    }

    /** `load_from_dict(data)`: clears, then takes the table under
        'combatants' (default empty) in its order. */
    method LoadFromDict(data: Dict) returns (o: Outcome)
      modifies this
      ensures LoadScores(data).Ok? ==> o == Pass && combatants == LoadScores(data).value
      ensures LoadScores(data).Err? ==> o == Fail(LoadScores(data).error) && combatants == EmptyDict()
    {
      Clear();
      var loaded := LoadScores(data);
      if loaded.Err? {
        return Fail(loaded.error);
      }
      combatants := loaded.value;
      return Pass;
    }
  }

  /** How the score table is serialised: same keys, same order. */
  function ScoresToValue(d: ODict<Option<int>>): (v: ODict<Value>)
    ensures v.keys == d.keys && v.entries.Keys == d.entries.Keys
  {
    ODict(d.keys, map k | k in d.entries :: OptInt(d.entries[k]))
  }

  predicate IsScore(v: Value) {
    v.VNone? || v.VInt?
  }

  function ScoreOf(v: Value): Option<int> {
    if v.VInt? then Some(v.i) else None
  }

  /** `data.get('combatants', {}).copy()`, which must be a well-formed table
      of optional scores. A missing table loads as no combatants; a value
      with no `copy` method (anything but a dict or a list) raises
      AttributeError. */
  function LoadScores(data: Dict): (r: Result<ODict<Option<int>>>)
    ensures r.Ok? ==> r.value.Valid()
    ensures "combatants" !in data ==> r == Ok(EmptyDict())
    ensures "combatants" in data && !data["combatants"].VDict? && !data["combatants"].VList? ==>
      r == Err(AttributeError)
  {
    match Get(data, "combatants", VDict(EmptyDict()))
    case VDict(d) =>
      if d.Valid() && forall k | k in d.entries :: IsScore(d.entries[k]) then
        Ok(ODict(d.keys, map k | k in d.entries :: ScoreOf(d.entries[k])))
      else Err(TypeError("combatants"))
    case VList(_) => Err(TypeError("combatants"))
    case _ => Err(AttributeError)
  }

  /** Loading what `to_dict` wrote restores the same combatants with the same
      scores in the same order. */
  lemma RoundTrip(d: ODict<Option<int>>)
    requires d.Valid()
    ensures LoadScores(map["combatants" := VDict(ScoresToValue(d))]) == Ok(d)
  {
    var v := ScoresToValue(d);
    assert forall k | k in v.entries :: IsScore(v.entries[k]) && ScoreOf(v.entries[k]) == d.entries[k];
    assert (map k | k in v.entries :: ScoreOf(v.entries[k])) == d.entries;
  }

  /** The tie example: equal scores keep insertion order. */
  lemma TiesKeepInsertionOrder()
    ensures TurnOrderOf(ODict(["player1", "player2", "npc1"],
                              map["player1" := Some(20), "player2" := Some(5), "npc1" := Some(20)]), true)
            == ["player1", "npc1", "player2"]
  {
    var d := ODict(["player1", "player2", "npc1"],
                   map["player1" := Some(20), "player2" := Some(5), "npc1" := Some(20)]);
    assert Scored(d.keys, d.entries) == [("player1", 20), ("player2", 5), ("npc1", 20)];
    assert StableSort([("player1", 20)], true) == [("player1", 20)];
    assert StableSort([("player1", 20), ("player2", 5)], true) == [("player1", 20), ("player2", 5)];
    assert [("player1", 20), ("player2", 5), ("npc1", 20)][..2] == [("player1", 20), ("player2", 5)];
  }
}
