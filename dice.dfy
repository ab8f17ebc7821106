/** The dice roller (src/dice.py): expressions of the form `NdS`, optionally
    followed by a sign and a modifier, with whitespace allowed around the
    sign. The regular expression is modelled as a scanner together with the
    grammar it accepts; the random draws are an input. */
module Dice {
  import opened Common

  /** The optional `\s*([+-])\s*(\d+)` part, as written in the text. */
  datatype SignedPart = SignedPart(before: string, sign: char, after: string, digits: string)

  /** The text matched by each part of the pattern. */
  datatype Tokens = Tokens(count: string, sides: string, modifier: Option<SignedPart>)

  predicate SignedWellFormed(m: SignedPart) {
    AllSpaces(m.before) && (m.sign == '+' || m.sign == '-') && AllSpaces(m.after) && IsNumeral(m.digits)
  }

  /** The shapes the pattern accepts. */
  predicate WellFormed(t: Tokens) {
    && IsNumeral(t.count)
    && IsNumeral(t.sides)
    && (t.modifier.Some? ==> SignedWellFormed(t.modifier.value))
  }

  function SignedText(m: SignedPart): string {
    m.before + [m.sign] + m.after + m.digits
  }

  /** What follows the 'd': the sides and the optional signed part. */
  function SidesText(sides: string, modifier: Option<SignedPart>): string {
    sides + match modifier
      case None => ""
      case Some(m) => SignedText(m)
  }

  /** The text a token sequence spells: the grammar's own description of the
      accepted strings. */
  function Render(t: Tokens): string {
    t.count + "d" + SidesText(t.sides, t.modifier)
  }

  /** Length of the longest prefix of digits (greedy `\d+`). */
  function LeadingDigits(s: string): (n: nat)
    ensures n <= |s| && AllDigits(s[..n]) && (n == |s| || !IsDigit(s[n]))
  {
    if s == [] || !IsDigit(s[0]) then 0
    else
      var n := 1 + LeadingDigits(s[1..]);
      assert s[..n] == [s[0]] + s[1..][..n - 1];
      n
  }

  /** Length of the longest prefix of whitespace (greedy `\s*`). */
  function LeadingSpaces(s: string): (n: nat)
    ensures n <= |s| && AllSpaces(s[..n]) && (n == |s| || !IsSpace(s[n]))
  {
    if s == [] || !IsSpace(s[0]) then 0
    else
      var n := 1 + LeadingSpaces(s[1..]);
      assert s[..n] == [s[0]] + s[1..][..n - 1];
      n
  }

  /** `\s*(\d+)$`: the spaces after the sign and the modifier's digits. */
  function MatchSpacedDigits(after: string): (r: Option<(string, string)>)
    ensures r.Some? ==> AllSpaces(r.value.0) && IsNumeral(r.value.1) && r.value.0 + r.value.1 == after
  {
    var q := LeadingSpaces(after);
    var digits := after[q..];
    if !IsNumeral(digits) then None
    else
      assert after == after[..q] + digits;
      Some((after[..q], digits))
  }

  /** `\s*([+-])\s*(\d+)$` on what follows the sides. */
  function MatchSigned(tail: string): (r: Option<SignedPart>)
    ensures r.Some? ==> SignedWellFormed(r.value) && SignedText(r.value) == tail
  {
    var p := LeadingSpaces(tail);
    if p == |tail| || !(tail[p] == '+' || tail[p] == '-') then None
    else
      match MatchSpacedDigits(tail[p + 1..])
      case None => None
      case Some((after, digits)) =>
        SplitAround(tail, p, after, digits);
        Some(SignedPart(tail[..p], tail[p], after, digits))
  }

  /** A string is what comes before position `p`, the character at `p`, and
      any split of the rest. */
  lemma SplitAround(s: string, p: nat, a: string, b: string)
    requires p < |s| && a + b == s[p + 1..]
    ensures s[..p] + [s[p]] + a + b == s
  {
    assert s[..p] + [s[p]] + a + b == s[..p] + [s[p]] + (a + b);
    assert s == s[..p] + [s[p]] + s[p + 1..];
  }

  /** `(\d+)(?:...)?$` on what follows the 'd'. */
  function MatchSides(rest: string): (r: Option<(string, Option<SignedPart>)>)
    ensures r.Some? ==> && IsNumeral(r.value.0)
                        && (r.value.1.Some? ==> SignedWellFormed(r.value.1.value))
                        && SidesText(r.value.0, r.value.1) == rest
  {
    var m := LeadingDigits(rest);
    if m == 0 then None
    else
      var tail := rest[m..];
      assert rest == rest[..m] + tail;
      if tail == [] then Some((rest[..m], None))
      else
        match MatchSigned(tail)
        case None => None
        case Some(signed) => Some((rest[..m], Some(signed)))
  }

  /** `pattern.match(s)` with the trailing `$`: the whole string must be
      consumed. Every greedy part is followed by a character it cannot
      match, so no backtracking is needed. */
  function Match(s: string): (r: Option<Tokens>)
    ensures r.Some? ==> WellFormed(r.value) && Render(r.value) == s
  {
    var n := LeadingDigits(s);
    if n == 0 || n == |s| || s[n] != 'd' then None
    else
      assert s == s[..n] + "d" + s[n + 1..];
      match MatchSides(s[n + 1..])
      case None => None
      case Some((sides, modifier)) => Some(Tokens(s[..n], sides, modifier))
  }

  lemma {:induction false} LeadingDigitsOf(a: string, b: string)
    requires AllDigits(a) && (b == [] || !IsDigit(b[0]))
    ensures LeadingDigits(a + b) == |a|
    decreases |a|
  {
    if a == [] {
      assert a + b == b;
    } else {
      assert (a + b)[1..] == a[1..] + b;
      LeadingDigitsOf(a[1..], b);
    }
  }

  lemma {:induction false} LeadingSpacesOf(a: string, b: string)
    requires AllSpaces(a) && (b == [] || !IsSpace(b[0]))
    ensures LeadingSpaces(a + b) == |a|
    decreases |a|
  {
    if a == [] {
      assert a + b == b;
    } else {
      assert (a + b)[1..] == a[1..] + b;
      LeadingSpacesOf(a[1..], b);
    }
  }

  lemma MatchSpacedDigitsText(after: string, digits: string)
    requires AllSpaces(after) && IsNumeral(digits)
    ensures MatchSpacedDigits(after + digits) == Some((after, digits))
  {
    LeadingSpacesOf(after, digits);
    assert (after + digits)[..|after|] == after;
    assert (after + digits)[|after|..] == digits;
  }

  /** Where `MatchSigned` splits a signed part's text: the spaces before
      the sign, the sign, and the rest. */
  lemma SignedTextParts(before: string, sign: char, rest: string)
    requires AllSpaces(before) && (sign == '+' || sign == '-')
    ensures var tail := before + [sign] + rest;
      && LeadingSpaces(tail) == |before| && tail[..|before|] == before
      && tail[|before|] == sign && tail[|before| + 1..] == rest
  {
    var tail := before + [sign] + rest;
    assert tail == before + ([sign] + rest);
    LeadingSpacesOf(before, [sign] + rest);
  }

  lemma MatchSignedText(m: SignedPart)
    requires SignedWellFormed(m)
    ensures MatchSigned(SignedText(m)) == Some(m)
  {
    var rest := m.after + m.digits;
    assert SignedText(m) == m.before + [m.sign] + rest;
    SignedTextParts(m.before, m.sign, rest);
    MatchSpacedDigitsText(m.after, m.digits);
  }

  lemma MatchSidesText(sides: string, modifier: Option<SignedPart>)
    requires IsNumeral(sides) && (modifier.Some? ==> SignedWellFormed(modifier.value))
    ensures MatchSides(SidesText(sides, modifier)) == Some((sides, modifier))
  {
    var rest := SidesText(sides, modifier);
    match modifier {
      case None =>
        assert rest == sides + "";
        LeadingDigitsOf(sides, "");
        assert rest[..|sides|] == sides;
        assert rest[|sides|..] == [];
      case Some(m) =>
        var tail := SignedText(m);
        assert rest == sides + tail;
        assert !IsDigit(tail[0]) by {
          if m.before == [] {
            assert tail[0] == m.sign;
          } else {
            assert tail[0] == m.before[0];
          }
        }
        LeadingDigitsOf(sides, tail);
        assert rest[..|sides|] == sides;
        assert rest[|sides|..] == tail;
        MatchSignedText(m);
    }
  }

  /** Completeness: every string the grammar describes is matched, with the
      parts it was built from. With `Match`'s own postcondition, a string is
      accepted exactly when it is `Render(t)` for some well-formed `t`. */
  lemma MatchRender(t: Tokens)
    requires WellFormed(t)
    ensures Match(Render(t)) == Some(t)
  {
    var s := Render(t);
    var rest := SidesText(t.sides, t.modifier);
    assert s == t.count + ("d" + rest);
    LeadingDigitsOf(t.count, "d" + rest);
    assert s[..|t.count|] == t.count;
    assert s[|t.count| + 1..] == rest;
    MatchSidesText(t.sides, t.modifier);
  }

  /** The parsed expression: number of dice, number of sides, signed
      modifier (`int()` of the digit groups; '-' negates). */
  datatype DiceExpr = DiceExpr(count: nat, sides: nat, modifier: int)

  function Evaluate(t: Tokens): (e: DiceExpr)
    requires WellFormed(t)
    ensures t.modifier.None? ==> e.modifier == 0
    ensures t.modifier.Some? && t.modifier.value.sign == '+' ==> e.modifier == DigitsValue(t.modifier.value.digits)
    ensures t.modifier.Some? && t.modifier.value.sign == '-' ==> e.modifier == -(DigitsValue(t.modifier.value.digits) as int)
    ensures e.count == DigitsValue(t.count) && e.sides == DigitsValue(t.sides)
  {
    var modifier := match t.modifier
      case None => 0
      case Some(m) => if m.sign == '-' then -(DigitsValue(m.digits) as int) else DigitsValue(m.digits);
    DiceExpr(DigitsValue(t.count), DigitsValue(t.sides), modifier)
  }

  /** The expression behind a roll, after `strip()`; None when the pattern
      does not match. */
  function Parse(expression: string): (r: Option<DiceExpr>)
    ensures r.Some? <==> Match(Strip(expression)).Some?
  {
    match Match(Strip(expression))
    case None => None
    case Some(t) => Some(Evaluate(t))
  }

  /** The dict `roll` returns. */
  datatype RollResult = RollResult(total: int, rolls: seq<int>, modifier: int) {
    function ToDict(): (d: Dict)
      ensures d.Keys == {"total", "rolls", "modifier"}
      ensures d["total"] == VInt(total) && d["modifier"] == VInt(modifier)
      ensures d["rolls"].VList? && |d["rolls"].items| == |rolls|
      ensures forall i | 0 <= i < |rolls| :: d["rolls"].items[i] == VInt(rolls[i])
    {
      map[
        "total" := VInt(total),
        "rolls" := VList(seq(|rolls|, i requires 0 <= i < |rolls| => VInt(rolls[i]))),
        "modifier" := VInt(modifier)]
    }
  }

  function Sum(s: seq<int>): int {
    if s == [] then 0 else s[0] + Sum(s[1..])
  }

  /** Each draw in [1, sides]. */
  predicate InRange(draws: seq<int>, sides: int) {
    forall i | 0 <= i < |draws| :: 1 <= draws[i] <= sides
  }

  /** What the random source delivers for a valid expression: one draw per
      die, each in [1, sides]. When sides is 0 and dice are rolled the source
      refuses (`randint(1, 0)` raises), so nothing is asked of the draws. */
  predicate DrawsFit(expression: string, draws: seq<int>) {
    match Parse(expression)
    case None => true
    case Some(e) => (e.count > 0 && e.sides == 0) || (|draws| == e.count && InRange(draws, e.sides))
  }

  /** `roll(expression)` with the dice draws given. An expression the
      pattern rejects raises ValueError, as does rolling dice with no sides;
      otherwise the result holds the draws, the signed modifier and their
      total. */
  function Roll(expression: string, draws: seq<int>): (r: Result<RollResult>)
    requires DrawsFit(expression, draws)
    ensures Parse(expression).None? ==> r == Err(ValueError)
    ensures r.Err? ==> r.error == ValueError
    ensures Parse(expression).Some? ==>
      var e := Parse(expression).value;
      && (r.Err? <==> e.count > 0 && e.sides == 0)
      && (r.Ok? ==> && r.value.rolls == draws && |r.value.rolls| == e.count
                    && InRange(r.value.rolls, e.sides)
                    && r.value.modifier == e.modifier
                    && r.value.total == Sum(draws) + e.modifier)
  {
    match Parse(expression)
    case None => Err(ValueError)
    case Some(e) =>
      if e.count > 0 && e.sides == 0 then Err(ValueError)
      else Ok(RollResult(Sum(draws) + e.modifier, draws, e.modifier))
  }

  /** The total lies between rolling all ones and rolling all maximums, each
      plus the modifier. */
  lemma {:induction false} SumBounds(draws: seq<int>, sides: int)
    requires InRange(draws, sides)
    ensures |draws| <= Sum(draws) <= |draws| * sides
  {
    if draws != [] {
      assert InRange(draws[1..], sides) by {
        forall i | 0 <= i < |draws| - 1 ensures 1 <= draws[1..][i] <= sides {
          assert draws[1..][i] == draws[i + 1];
        }
      }
      SumBounds(draws[1..], sides);
    }
  }

  lemma TotalBounds(expression: string, draws: seq<int>)
    requires DrawsFit(expression, draws) && Roll(expression, draws).Ok?
    ensures var e := Parse(expression).value;
            var total := Roll(expression, draws).value.total;
            e.count + e.modifier <= total <= e.count * e.sides + e.modifier
  {
    SumBounds(draws, Parse(expression).value.sides);
  }

  /** Text that does not start with a digit is rejected ("d20", "abc"). */
  lemma RejectsLeadingNonDigit(s: string)
    requires s == [] || !IsDigit(s[0])
    ensures Match(s) == None
  {
    assert LeadingDigits(s) == 0;
  }

  /** Text that does not end with a digit is rejected ("1d", "1d20+ 5a"):
      every accepted string ends with the sides or the modifier's digits. */
  lemma RejectsTrailingNonDigit(s: string)
    requires |s| > 0 && !IsDigit(s[|s| - 1])
    ensures Match(s) == None
  {
  }

  /** Every string the grammar describes, with any whitespace around it,
      parses to the value of its parts. */
  lemma ParseRender(lead: string, t: Tokens, trail: string)
    requires WellFormed(t) && AllSpaces(lead) && AllSpaces(trail)
    ensures Parse(lead + Render(t) + trail) == Some(Evaluate(t))
  {
    var s := Render(t);
    assert s[0] == t.count[0];
    var last := if t.modifier.None? then t.sides else t.modifier.value.digits;
    assert s[|s| - 1] == last[|last| - 1];
    StripSurrounded(lead, s, trail);
    MatchRender(t);
  }

  lemma ParseRenderExact(t: Tokens)
    requires WellFormed(t)
    ensures Parse(Render(t)) == Some(Evaluate(t))
  {
    var s := Render(t);
    assert "" + s + "" == s;
    ParseRender("", t, "");
  }

  /** The text of an expression with a signed modifier, read left to right. */
  lemma RenderSigned(count: string, sides: string, m: SignedPart)
    ensures Render(Tokens(count, sides, Some(m)))
            == count + "d" + sides + m.before + [m.sign] + m.after + m.digits
  {
    var x := count + "d" + sides;
    assert Render(Tokens(count, sides, Some(m))) == count + "d" + (sides + SignedText(m));
    assert count + "d" + (sides + SignedText(m)) == x + SignedText(m);
    assert x + (m.before + [m.sign] + m.after + m.digits) == x + m.before + [m.sign] + m.after + m.digits;
  }

  /** A negative modifier, as in "3d8-2" or "3d8 - 2": the modifier is the
      negated number. */
  lemma {:induction false} NegativeModifierParses(count: string, sides: string, before: string, after: string, digits: string)
    requires IsNumeral(count) && IsNumeral(sides) && IsNumeral(digits)
    requires AllSpaces(before) && AllSpaces(after)
    ensures var r := Parse(count + "d" + sides + before + "-" + after + digits);
      && r.Some? && r.value.count == DigitsValue(count) && r.value.sides == DigitsValue(sides)
      && r.value.modifier == -(DigitsValue(digits) as int)
  {
    var t := Tokens(count, sides, Some(SignedPart(before, '-', after, digits)));
    RenderSigned(count, sides, t.modifier.value);
    assert "-" == ['-'];
    assert Render(t) == count + "d" + sides + before + "-" + after + digits;
    ParseRenderExact(t);
  }

  /** Whitespace around the sign, as in "1d10 + 3", is accepted and ignored. */
  lemma {:induction false} SpacedModifierParses(count: string, sides: string, before: string, after: string, digits: string)
    requires IsNumeral(count) && IsNumeral(sides) && IsNumeral(digits)
    requires AllSpaces(before) && AllSpaces(after)
    ensures var r := Parse(count + "d" + sides + before + "+" + after + digits);
      && r.Some? && r.value.count == DigitsValue(count) && r.value.sides == DigitsValue(sides)
      && r.value.modifier == DigitsValue(digits)
  {
    var t := Tokens(count, sides, Some(SignedPart(before, '+', after, digits)));
    RenderSigned(count, sides, t.modifier.value);
    assert "+" == ['+'];
    ParseRenderExact(t);
  }
}
