/** `parser/timesheet.py`: structural repair, header validation, header
    extraction and footer / page-furniture stripping over the rows of one
    timesheet document. */
module Timesheet {
  import opened Wrappers
  import opened Text
  import opened Pattern
  import opened Rows

  // ---- issues ------------------------------------------------------------

  /** The repair rules, in the order they are tried. */
  datatype Repair =
    | DocNo               // drop the optional 'Doc.No.' label and its value
    | PostStatus          // 'Post Status:' and 'Not posted' floated up
    | Function            // 'Function:' and '[1] Full Time' floated up
    | PercentBillability  // 'Percent Billability:' floated down
    | Validation          // 'Validation:' and 'Passed' floated up
    | PostStatusField     // 'Posted' / 'Not posted' floated up
    | ColumnHeader        // 'ID', 'Time Code', 'Project', 'TimeType' floated down

  /** One entry of the issue log; `log_issue` appends one of these. */
  datatype Issue =
    | Repaired(rule: Repair)
    | HeaderMismatch(index: nat, allowed: Allowed, actual: string)
    | NotMultipleOf8(row: Row)
    | NoFooter
    | NoPageBreaks

  // ---- PATTERNS ------------------------------------------------------------

  /** `PATTERNS`: the page header and footer lines removed around every
      page break, tried in this order. */
  const Patterns: seq<Regex> := [
    TimestampLine, TimezoneLine, PageLine, PageCountLine, TimesheetLine,
    DateRangeLine, IdHeading, TimeCodeHeading, ProjectHeading, TimeTypeHeading]

  const TimestampLine: Regex :=
    [Date + [Literal(" "), Once(Chars(['0', '1', '2'])), Digit, Literal(":"), Once(Span('0', '5')), Digit]]
  /** `.*` at the end of the source pattern accepts anything, so it is left off. */
  const TimezoneLine: Regex := [[Literal("(GMT-0"), Once(Chars(['4', '5', '6'])), Literal(":00) ")]]
  const PageLine: Regex := [[Literal("Page "), NonZeroDigit, OptionalDigit]]
  const PageCountLine: Regex := [[Literal("of "), NonZeroDigit, OptionalDigit]]
  const TimesheetLine: Regex := [[Literal("Timesheet")]]
  const DateRangeLine: Regex := [Date + [Literal(" - ")] + Date]
  const IdHeading: Regex := [[Literal("ID")]]
  const TimeCodeHeading: Regex := [[Literal("Time Code")]]
  const ProjectHeading: Regex := [[Literal("Project")]]
  const TimeTypeHeading: Regex := [[Literal("TimeType")]]

  /** Some entry of `PATTERNS` matches the text. */
  predicate IsPageFurniture(text: string) {
    || Match(TimestampLine, text) || Match(TimezoneLine, text)
    || Match(PageLine, text) || Match(PageCountLine, text)
    || Match(TimesheetLine, text) || Match(DateRangeLine, text)
    || Match(IdHeading, text) || Match(TimeCodeHeading, text)
    || Match(ProjectHeading, text) || Match(TimeTypeHeading, text)
  }

  /** A text that some entry of the table matches is page furniture. */
  lemma PatternIsFurniture(j: nat, text: string)
    requires j < |Patterns| && Match(Patterns[j], text)
    ensures IsPageFurniture(text)
  {
    if j == 0 { assert Patterns[0] == TimestampLine; }
    else if j == 1 { assert Patterns[1] == TimezoneLine; }
    else if j == 2 { assert Patterns[2] == PageLine; }
    else if j == 3 { assert Patterns[3] == PageCountLine; }
    else if j == 4 { assert Patterns[4] == TimesheetLine; }
    else if j == 5 { assert Patterns[5] == DateRangeLine; }
    else if j == 6 { assert Patterns[6] == IdHeading; }
    else if j == 7 { assert Patterns[7] == TimeCodeHeading; }
    else if j == 8 { assert Patterns[8] == ProjectHeading; }
    else { assert Patterns[9] == TimeTypeHeading; }
  }

  /** Every text that begins with "Timesheet" is page furniture. */
  lemma TimesheetIsFurniture(text: string)
    requires "Timesheet" <= text
    ensures IsPageFurniture(text)
  {
    LiteralMatches("Timesheet", text);
  }

  // ---- is_multiple_8 -------------------------------------------------------

  /** A decimal literal as Python's `float` reads it: sign, whole digits and
      fraction digits, at least one digit in all. */
  datatype Decimal = Decimal(negative: bool, whole: string, fraction: string)

  /** The unsigned part: `digits[.digits]` or `.digits`, split at the point. */
  function ParseUnsigned(body: string): (r: Option<(string, string)>)
    ensures r.Some? ==> AllDigits(r.value.0) && AllDigits(r.value.1)
    ensures r.Some? ==> |r.value.0| + |r.value.1| >= 1
  {
    var parts := if '.' in body then SplitOnce(body, '.') else (body, "");
    if AllDigits(parts.0) && AllDigits(parts.1) && |parts.0| + |parts.1| >= 1 then
      Some(parts)
    else
      None
  }

  /** The decimal forms `float()` accepts after stripping whitespace:
      `[+-]digits[.digits]` and `[+-].digits`. */
  function ParseDecimal(s: string): (r: Option<Decimal>)
    ensures r.Some? ==> AllDigits(r.value.whole) && AllDigits(r.value.fraction)
    ensures r.Some? ==> |r.value.whole| + |r.value.fraction| >= 1
  {
    var t := Strip(s);
    var signed := |t| > 0 && (t[0] == '-' || t[0] == '+');
    match ParseUnsigned(if signed then t[1..] else t)
    case None => None
    case Some(parts) => Some(Decimal(signed && t[0] == '-', parts.0, parts.1))
  }

  /** `int(...)` of the decimal: truncation toward zero. */
  function Truncate(d: Decimal): int
    requires AllDigits(d.whole)
  {
    if d.negative then -(ValueOf(d.whole) as int) else ValueOf(d.whole)
  }

  /** `is_multiple_8`: the text parses as a number whose truncation toward
      zero is divisible by 8; text that does not parse gives false. */
  predicate IsMultiple8(s: string) {
    match ParseDecimal(s)
    case None => false
    case Some(d) => Truncate(d) % 8 == 0
  }

  /** A run of digits has no surrounding whitespace and no sign. */
  lemma DigitsStripped(w: string)
    requires |w| > 0 && AllDigits(w)
    ensures Strip(w) == w && w[0] != '-' && w[0] != '+'
  {
    assert IsDigit(w[0]) && IsDigit(w[|w| - 1]);
    StripUnchanged(w);
  }

  /** A run of digits has no point, so it is all whole part. */
  lemma DigitsUnsigned(w: string)
    requires |w| > 0 && AllDigits(w)
    ensures ParseUnsigned(w) == Some((w, ""))
  {
    assert '.' !in w by {
      assert forall k :: 0 <= k < |w| ==> IsDigit(w[k]);
    }
    assert AllDigits("");
  }

  /** An unsigned run of digits reads back as itself, with no fraction. */
  lemma ParsePlain(w: string)
    requires |w| > 0 && AllDigits(w)
    ensures ParseDecimal(w) == Some(Decimal(false, w, ""))
  {
    DigitsStripped(w);
    DigitsUnsigned(w);
    var t := Strip(w);
    var signed := |t| > 0 && (t[0] == '-' || t[0] == '+');
    assert !signed;
    assert ParseUnsigned(t) == Some((w, ""));
  }

  /** The decimal rendering of a whole number is a multiple of 8 exactly
      when the number is. */
  lemma IsMultiple8Whole(n: nat)
    ensures IsMultiple8(NatToString(n)) <==> n % 8 == 0
  {
    ValueOfNatToString(n);
    ParsePlain(NatToString(n));
  }

  lemma UnsignedPointed(w: string, fraction: string)
    requires AllDigits(w) && AllDigits(fraction) && |w| > 0
    ensures ParseUnsigned(w + "." + fraction) == Some((w, fraction))
  {
    assert '.' !in w by {
      assert forall k :: 0 <= k < |w| ==> IsDigit(w[k]);
    }
    SplitOnceAt(w, '.', fraction);
    assert w + "." + fraction == w + ['.'] + fraction;
  }

  /** An unsigned decimal with whole and fraction digits reads back as itself. */
  lemma ParsePointed(w: string, fraction: string)
    requires |w| > 0 && AllDigits(w) && AllDigits(fraction)
    ensures ParseDecimal(w + "." + fraction) == Some(Decimal(false, w, fraction))
  {
    var s := w + "." + fraction;
    assert s[0] == w[0] && IsDigit(w[0]);
    assert s[|s| - 1] == if |fraction| > 0 then fraction[|fraction| - 1] else '.';
    StripUnchanged(s);
    assert Strip(s) == s;
    assert !(s[0] == '-' || s[0] == '+');
    UnsignedPointed(w, fraction);
    assert ParseUnsigned(s) == Some((w, fraction));
  }

  /** A fractional part never changes the verdict: `float` truncates. */
  lemma IsMultiple8Fraction(n: nat, fraction: string)
    requires AllDigits(fraction)
    ensures IsMultiple8(NatToString(n) + "." + fraction) <==> n % 8 == 0
  {
    ParsePointed(NatToString(n), fraction);
    ValueOfNatToString(n);
  }

  predicate NoDigit(s: string) {
    forall i :: 0 <= i < |s| ==> !IsDigit(s[i])
  }

  lemma NoDigitSlice(s: string, lo: nat, hi: nat)
    requires NoDigit(s) && lo <= hi <= |s|
    ensures NoDigit(s[lo..hi])
  {
    forall i | 0 <= i < hi - lo ensures !IsDigit(s[lo..hi][i]) {
      assert s[lo..hi][i] == s[lo + i];
    }
  }

  lemma UnsignedNeedsDigits(body: string)
    requires NoDigit(body)
    ensures ParseUnsigned(body).None?
  {
    if '.' in body {
      var parts := SplitOnce(body, '.');
      assert parts.0 == body[..|parts.0|];
      assert parts.1 == body[|parts.0| + 1..];
      if |parts.0| > 0 {
        assert parts.0[0] == body[0];
      } else if |parts.1| > 0 {
        assert parts.1[0] == body[1];
      }
    } else {
      assert |body| > 0 ==> !IsDigit(body[0]);
    }
  }

  /** Text with no digit in it never parses, so it is never a multiple of 8. */
  lemma IsMultiple8NeedsDigits(s: string)
    requires NoDigit(s)
    ensures !IsMultiple8(s)
  {
    var t := Strip(s);
    var lo, hi :| 0 <= lo <= hi <= |s| && t == s[lo..hi];
    NoDigitSlice(s, lo, hi);
    var signed := |t| > 0 && (t[0] == '-' || t[0] == '+');
    NoDigitSlice(t, if signed then 1 else 0, |t|);
    UnsignedNeedsDigits(if signed then t[1..] else t);
  }

  // ---- beat_data_with_a_stick ---------------------------------------------

  /** One rewrite step of a repair. */
  datatype Edit = Move(from: nat, to: nat) | Remove(at: nat)

  /** A detection (rows that must hold exact texts) and the rewrite to apply. */
  datatype Case = Case(when: seq<(nat, string)>, edits: seq<Edit>)

  /** A repair rule: its name in the issue log and its `if` / `elif` cases. */
  datatype Rule = Rule(name: Repair, cases: seq<Case>)

  // The catalogue, with the index compensation written as in the source.

  const DocNoRule := Rule(DocNo, [
    Case([(14, "Doc.No."), (17, "1")], [Remove(14), Remove(17 - 1)]),
    Case([(16, "Doc.No."), (19, "1")], [Remove(16), Remove(19 - 1)])])
  const PostStatusRule := Rule(PostStatus, [
    Case([(6, "Post Status:"), (7, "Not posted")], [Move(6, 17 + 1), Move(7 - 1, 20)])])
  const FunctionRule := Rule(Function, [
    Case([(4, "Function:"), (5, "[1] Full Time")], [Move(4, 10 + 1), Move(5 - 1, 13)]),
    Case([(8, "Function:"), (11, "[1] Full Time")], [Move(8, 10), Move(11, 13)])])
  const PercentBillabilityRule := Rule(PercentBillability, [
    Case([(28, "Percent Billability:")], [Move(28, 25)])])
  const ValidationRule := Rule(Validation, [
    Case([(16, "Validation:"), (19, "Passed")], [Move(16, 17), Move(19, 20)])])
  const PostStatusFieldRule := Rule(PostStatusField, [
    Case([(17, "Posted")], [Move(17, 19)]),
    Case([(17, "Not posted")], [Move(17, 19)])])
  const ColumnHeaderRule := Rule(ColumnHeader, [
    Case([(41, "ID"), (42, "Time Code"), (43, "Project"), (44, "TimeType")],
         [Move(41, 30), Move(42, 31), Move(43, 32), Move(44, 33)]),
    Case([(43, "ID"), (44, "Time Code"), (45, "Project"), (46, "TimeType")],
         [Move(43, 30), Move(44, 31), Move(45, 32), Move(46, 33)])])

  /** The rules in the order `beat_data_with_a_stick` tries them. */
  const Catalogue: seq<Rule> := [
    DocNoRule, PostStatusRule, FunctionRule, PercentBillabilityRule,
    ValidationRule, PostStatusFieldRule, ColumnHeaderRule]

  /** Every listed row exists and holds its text. */
  predicate AllHold(data: seq<Row>, when: seq<(nat, string)>) {
    forall k :: 0 <= k < |when| ==> when[k].0 < |data| && data[when[k].0].text == when[k].1
  }

  /** Python's `data[i][0] == s and data[j][0] == t and ...`: stops at the
      first text that differs, raises on a missing row reached before that. */
  function Holds(data: seq<Row>, when: seq<(nat, string)>): (r: Result<bool>)
    ensures r.Ok? && r.value <==> AllHold(data, when)
    ensures (forall k :: 0 <= k < |when| ==> when[k].0 < |data|) ==> r.Ok?
  {
    if |when| == 0 then Ok(true)
    else
      var h :- TextIs(data, when[0].0, when[0].1);
      if h then
        var r := Holds(data, when[1..]);
        assert AllHold(data, when[1..]) && AllHold(data, when[..1]) ==> AllHold(data, when) by {
          assert when == when[..1] + when[1..];
        }
        r
      else Ok(false)
  }

  predicate OnlyMoves(edits: seq<Edit>) {
    forall k :: 0 <= k < |edits| ==> edits[k].Move?
  }

  function Removals(edits: seq<Edit>): nat {
    if |edits| == 0 then 0 else (if edits[0].Remove? then 1 else 0) + Removals(edits[1..])
  }

  /** One rewrite step: `move_item` or `remove_item`. */
  function ApplyEdit(data: seq<Row>, edit: Edit): (r: Result<seq<Row>>)
    ensures r.Ok? ==> |r.value| == |data| - (if edit.Remove? then 1 else 0)
    ensures edit.Move? ==> r.Ok? && multiset(r.value) == multiset(data)
  {
    match edit
    case Move(from, to) =>
      MoveItemPermutes(data, from, to);
      Ok(MoveItem(data, from, to))
    case Remove(at) => RemoveItem(data, at)
  }

  /** Applies the rewrite steps in order, each to the previous one's result. */
  function ApplyEdits(data: seq<Row>, edits: seq<Edit>): (r: Result<seq<Row>>)
    ensures r.Ok? ==> |r.value| == |data| - Removals(edits)
    ensures OnlyMoves(edits) ==> r.Ok? && multiset(r.value) == multiset(data)
    decreases |edits|
  {
    if |edits| == 0 then Ok(data)
    else
      var d :- ApplyEdit(data, edits[0]);
      assert OnlyMoves(edits) ==> OnlyMoves(edits[1..]);
      ApplyEdits(d, edits[1..])
  }

  /** The first case whose detection holds fires; none firing is a no-op. */
  function TryCases(data: seq<Row>, cases: seq<Case>): (r: Result<(seq<Row>, bool)>)
    ensures r.Ok? && !r.value.1 ==>
      r.value.0 == data && forall k :: 0 <= k < |cases| ==> !AllHold(data, cases[k].when)
    ensures r.Ok? && r.value.1 ==>
      exists k :: 0 <= k < |cases| && AllHold(data, cases[k].when)
        && (forall m :: 0 <= m < k ==> !AllHold(data, cases[m].when))
        && ApplyEdits(data, cases[k].edits) == Ok(r.value.0)
  {
    if |cases| == 0 then Ok((data, false))
    else
      var h :- Holds(data, cases[0].when);
      if h then
        var d :- ApplyEdits(data, cases[0].edits);
        Ok((d, true))
      else
        var r := TryCases(data, cases[1..]);
        assert r.Ok? && r.value.1 ==> exists k :: 0 <= k < |cases| && AllHold(data, cases[k].when)
          && (forall m :: 0 <= m < k ==> !AllHold(data, cases[m].when))
          && ApplyEdits(data, cases[k].edits) == Ok(r.value.0) by {
          if r.Ok? && r.value.1 {
            var k :| 0 <= k < |cases| - 1 && AllHold(data, cases[1..][k].when)
              && (forall m :: 0 <= m < k ==> !AllHold(data, cases[1..][m].when))
              && ApplyEdits(data, cases[1..][k].edits) == Ok(r.value.0);
            assert forall m :: 0 <= m < k + 1 ==> !AllHold(data, cases[m].when) by {
              forall m | 0 <= m < k + 1 ensures !AllHold(data, cases[m].when) {
                if m > 0 { assert cases[m] == cases[1..][m - 1]; }
              }
            }
          }
        }
        r
  }

  /** Every `DocNo` case removes two rows; every other case only moves rows. */
  predicate Shaped(rule: Rule) {
    forall k :: 0 <= k < |rule.cases| ==>
      if rule.name == DocNo then Removals(rule.cases[k].edits) == 2 else OnlyMoves(rule.cases[k].edits)
  }

  /** One rule: the rows after it and whether it fired. A rule that fires
      applies its first case whose detection holds. */
  function ApplyRule(rule: Rule, data: seq<Row>): (r: Result<(seq<Row>, bool)>)
    ensures r.Ok? && !r.value.1 ==> r.value.0 == data
    ensures r.Ok? && Shaped(rule) && rule.name != DocNo ==>
      |r.value.0| == |data| && multiset(r.value.0) == multiset(data)
    ensures r.Ok? && Shaped(rule) && rule.name == DocNo && r.value.1 ==> |r.value.0| == |data| - 2
  {
    var r := TryCases(data, rule.cases);
    if r.Ok? && r.value.1 then
      var k :| 0 <= k < |rule.cases| && AllHold(data, rule.cases[k].when)
        && (forall m :: 0 <= m < k ==> !AllHold(data, rule.cases[m].when))
        && ApplyEdits(data, rule.cases[k].edits) == Ok(r.value.0);
      r
    else
      r
  }

  /** The catalogue keeps to the shape the source's comments describe. */
  lemma CatalogueShaped()
    ensures forall k :: 0 <= k < |Catalogue| ==> Shaped(Catalogue[k])
  {
    assert DocNoRule.cases[0].edits[1..][1..] == [];
    assert DocNoRule.cases[1].edits[1..][1..] == [];
    assert Shaped(DocNoRule);
  }

  function CountDocNo(issues: seq<Issue>): nat {
    if |issues| == 0 then 0 else (if issues[0] == Repaired(DocNo) then 1 else 0) + CountDocNo(issues[1..])
  }

  /** Tries `rules` in order; each one that fires logs one issue. */
  function RunRepairs(data: seq<Row>, rules: seq<Rule>): (r: Result<(seq<Row>, seq<Issue>)>)
    ensures r.Ok? ==> |r.value.1| <= |rules|
    decreases |rules|
  {
    if |rules| == 0 then Ok((data, []))
    else
      var step :- ApplyRule(rules[0], data);
      var rest :- RunRepairs(step.0, rules[1..]);
      var logged: seq<Issue> := if step.1 then [Repaired(rules[0].name)] else [];
      Ok((rest.0, logged + rest.1))
  }

  /** The names of a list of rules. */
  function Names(rules: seq<Rule>): set<Repair> {
    set j | 0 <= j < |rules| :: rules[j].name
  }

  /** Each logged issue names a rule that was tried. */
  lemma {:induction false} RunRepairsLogsRules(data: seq<Row>, rules: seq<Rule>)
    requires RunRepairs(data, rules).Ok?
    ensures forall issue <- RunRepairs(data, rules).value.1 ::
      issue.Repaired? && issue.rule in Names(rules)
    decreases |rules|
  {
    if |rules| > 0 {
      var step := ApplyRule(rules[0], data).value;
      RunRepairsLogsRules(step.0, rules[1..]);
      var rest := RunRepairs(step.0, rules[1..]).value.1;
      var logged: seq<Issue> := if step.1 then [Repaired(rules[0].name)] else [];
      assert RunRepairs(data, rules).value.1 == logged + rest;
      assert rules[0].name in Names(rules);
      assert Names(rules[1..]) <= Names(rules) by {
        forall j | 0 <= j < |rules| - 1 ensures rules[1..][j].name in Names(rules) {
          assert rules[1..][j] == rules[j + 1];
        }
      }
    }
  }

  /** Nothing is logged exactly when no rule fires on the rows as given,
      and nothing logged means nothing changed. */
  lemma {:induction false} RunRepairsSilent(data: seq<Row>, rules: seq<Rule>)
    requires RunRepairs(data, rules).Ok?
    ensures RunRepairs(data, rules).value.1 == [] <==>
      forall k :: 0 <= k < |rules| ==> ApplyRule(rules[k], data) == Ok((data, false))
    ensures RunRepairs(data, rules).value.1 == [] ==> RunRepairs(data, rules).value.0 == data
    decreases |rules|
  {
    if |rules| > 0 {
      var step := ApplyRule(rules[0], data).value;
      RunRepairsSilent(step.0, rules[1..]);
      var rest := RunRepairs(step.0, rules[1..]).value;
      if !step.1 {
        assert step.0 == data;
        assert [] + rest.1 == rest.1;
        assert RunRepairs(data, rules).value == rest;
        forall k | 0 <= k < |rules| - 1 ensures rules[1..][k] == rules[k + 1] {}
      } else {
        assert RunRepairs(data, rules).value.1 == [Repaired(rules[0].name)] + rest.1;
        assert ApplyRule(rules[0], data) != Ok((data, false));
      }
    }
  }

  /** No two rules share a name, as in the catalogue. */
  predicate DistinctNames(rules: seq<Rule>) {
    forall i, j :: 0 <= i < j < |rules| ==> rules[i].name != rules[j].name
  }

  lemma DistinctNamesTail(rules: seq<Rule>)
    requires |rules| > 0 && DistinctNames(rules)
    ensures DistinctNames(rules[1..]) && rules[0].name !in Names(rules[1..])
  {
    forall i, j | 0 <= i < j < |rules| - 1 ensures rules[1..][i].name != rules[1..][j].name {
      assert rules[1..][i] == rules[i + 1] && rules[1..][j] == rules[j + 1];
    }
    forall j | 0 <= j < |rules| - 1 ensures rules[1..][j].name != rules[0].name {
      assert rules[1..][j] == rules[j + 1];
    }
  }

  /** No element of `s` occurs twice. */
  predicate NoRepeats<T(==)>(s: seq<T>) {
    forall i, j :: 0 <= i < j < |s| ==> s[i] != s[j]
  }

  lemma NoRepeatsCons<T>(x: T, s: seq<T>)
    requires NoRepeats(s) && x !in s
    ensures NoRepeats([x] + s)
  {
    var t := [x] + s;
    forall i, j | 0 <= i < j < |t| ensures t[i] != t[j] {
      assert t[j] == s[j - 1];
      if i > 0 { assert t[i] == s[i - 1]; }
    }
  }

  /** Rule `k` logs its issue exactly when it fires on the rows the rules
      before it hand on. */
  lemma {:induction false} RunRepairsFired(data: seq<Row>, rules: seq<Rule>, k: nat)
    requires RunRepairs(data, rules).Ok? && DistinctNames(rules) && k < |rules|
    ensures RunRepairs(data, rules[..k]).Ok?
    ensures ApplyRule(rules[k], RunRepairs(data, rules[..k]).value.0).Ok?
    ensures Repaired(rules[k].name) in RunRepairs(data, rules).value.1 <==>
      ApplyRule(rules[k], RunRepairs(data, rules[..k]).value.0).value.1
    decreases k
  {
    var step := ApplyRule(rules[0], data).value;
    var rest := RunRepairs(step.0, rules[1..]).value;
    var logged: seq<Issue> := if step.1 then [Repaired(rules[0].name)] else [];
    assert RunRepairs(data, rules).value.1 == logged + rest.1;
    DistinctNamesTail(rules);
    RunRepairsLogsRules(step.0, rules[1..]);
    if k == 0 {
      assert rules[..0] == [];
      assert Repaired(rules[0].name) !in rest.1;
    } else {
      var pre := rules[..k];
      assert pre[0] == rules[0] && pre[1..] == rules[1..][..k - 1];
      RunRepairsFired(step.0, rules[1..], k - 1);
      assert rules[1..][k - 1] == rules[k];
      assert rules[0].name != rules[k].name;
    }
  }

  /** With distinct names, no issue is logged twice. */
  lemma {:induction false} RunRepairsOnce(data: seq<Row>, rules: seq<Rule>)
    requires RunRepairs(data, rules).Ok? && DistinctNames(rules)
    ensures NoRepeats(RunRepairs(data, rules).value.1)
    decreases |rules|
  {
    if |rules| > 0 {
      var step := ApplyRule(rules[0], data).value;
      var rest := RunRepairs(step.0, rules[1..]).value;
      DistinctNamesTail(rules);
      RunRepairsOnce(step.0, rules[1..]);
      if step.1 {
        RunRepairsLogsRules(step.0, rules[1..]);
        assert Repaired(rules[0].name) !in rest.1;
        NoRepeatsCons(Repaired(rules[0].name), rest.1);
        assert RunRepairs(data, rules).value.1 == [Repaired(rules[0].name)] + rest.1;
      } else {
        assert RunRepairs(data, rules).value.1 == [] + rest.1 == rest.1;
      }
    }
  }

  /** Only `DocNo` changes the number of rows, by two each time it fires;
      without it the rows are only re-ordered. */
  lemma {:induction false} RunRepairsRows(data: seq<Row>, rules: seq<Rule>)
    requires RunRepairs(data, rules).Ok?
    requires forall k :: 0 <= k < |rules| ==> Shaped(rules[k])
    ensures var (out, issues) := RunRepairs(data, rules).value;
      && |out| + 2 * CountDocNo(issues) == |data|
      && (CountDocNo(issues) == 0 ==> multiset(out) == multiset(data))
    decreases |rules|
  {
    if |rules| > 0 {
      assert Shaped(rules[0]);
      var step := ApplyRule(rules[0], data).value;
      var rest := RunRepairs(step.0, rules[1..]).value;
      forall k | 0 <= k < |rules| - 1 ensures Shaped(rules[1..][k]) {
        assert rules[1..][k] == rules[k + 1];
      }
      RunRepairsRows(step.0, rules[1..]);
      var logged: seq<Issue> := if step.1 then [Repaired(rules[0].name)] else [];
      var issues := logged + rest.1;
      assert RunRepairs(data, rules).value == (rest.0, issues);
      assert CountDocNo(issues) == (if step.1 && rules[0].name == DocNo then 1 else 0) + CountDocNo(rest.1) by {
        if step.1 {
          assert issues[0] == Repaired(rules[0].name);
          assert issues[1..] == rest.1;
        } else {
          assert issues == rest.1;
        }
      }
    }
  }

  /** `Timesheet.beat_data_with_a_stick`: the rows after every repair rule,
      and one issue per rule that fired, in rule order. */
  function BeatTimesheet(data: seq<Row>): (r: Result<(seq<Row>, seq<Issue>)>)
    ensures r.Ok? ==> |r.value.1| <= |Catalogue| && |r.value.0| <= |data|
    ensures r.Ok? && r.value.1 == [] ==> r.value.0 == data
    ensures r.Ok? && Repaired(DocNo) !in r.value.1 ==>
      |r.value.0| == |data| && multiset(r.value.0) == multiset(data)
    ensures |data| <= 14 ==> r == Err(IndexError)
  {
    var r := RunRepairs(data, Catalogue);
    if r.Ok? then
      RunRepairsSilent(data, Catalogue);
      CatalogueShaped();
      RunRepairsRows(data, Catalogue);
      if Repaired(DocNo) !in r.value.1 then
        CountDocNoZero(r.value.1);
        r
      else
        r
    else
      r
  }

  lemma {:induction false} CountDocNoZero(issues: seq<Issue>)
    requires Repaired(DocNo) !in issues
    ensures CountDocNo(issues) == 0
  {
    if |issues| > 0 {
      assert issues[0] != Repaired(DocNo);
      assert Repaired(DocNo) !in issues[1..];
      CountDocNoZero(issues[1..]);
    }
  }

  /** Every repair of the catalogue has a name of its own. */
  lemma CatalogueDistinct()
    ensures DistinctNames(Catalogue)
  {
    var names := [DocNo, PostStatus, Function, PercentBillability, Validation, PostStatusField, ColumnHeader];
    assert forall k :: 0 <= k < |Catalogue| ==> Catalogue[k].name == names[k];
  }

  /** The log of `beat_data_with_a_stick`: empty exactly when no repair
      applies to the rows as given; a repair's issue appears exactly when it
      fires on the rows the repairs before it hand on; and none appears
      twice. */
  lemma BeatTimesheetLogs(data: seq<Row>)
    requires BeatTimesheet(data).Ok?
    ensures BeatTimesheet(data).value.1 == [] <==>
      forall k :: 0 <= k < |Catalogue| ==> ApplyRule(Catalogue[k], data) == Ok((data, false))
    ensures forall k :: 0 <= k < |Catalogue| ==>
      && RunRepairs(data, Catalogue[..k]).Ok?
      && ApplyRule(Catalogue[k], RunRepairs(data, Catalogue[..k]).value.0).Ok?
      && (Repaired(Catalogue[k].name) in BeatTimesheet(data).value.1 <==>
            ApplyRule(Catalogue[k], RunRepairs(data, Catalogue[..k]).value.0).value.1)
    ensures NoRepeats(BeatTimesheet(data).value.1)
  {
    assert BeatTimesheet(data) == RunRepairs(data, Catalogue);
    CatalogueDistinct();
    RunRepairsSilent(data, Catalogue);
    RunRepairsOnce(data, Catalogue);
    forall k | 0 <= k < |Catalogue|
      ensures && RunRepairs(data, Catalogue[..k]).Ok?
        && ApplyRule(Catalogue[k], RunRepairs(data, Catalogue[..k]).value.0).Ok?
        && (Repaired(Catalogue[k].name) in BeatTimesheet(data).value.1 <==>
              ApplyRule(Catalogue[k], RunRepairs(data, Catalogue[..k]).value.0).value.1)
    {
      RunRepairsFired(data, Catalogue, k);
    }
  }

  /** A rule whose first case holds applies that case's edits. */
  lemma FirstCaseFires(data: seq<Row>, cases: seq<Case>)
    requires |cases| > 0 && AllHold(data, cases[0].when)
    requires ApplyEdits(data, cases[0].edits).Ok?
    ensures TryCases(data, cases) == Ok((ApplyEdits(data, cases[0].edits).value, true))
  {
  }

  /** A rule whose first case can be checked but fails, and whose second
      case holds, applies the second case's edits. */
  lemma SecondCaseFires(data: seq<Row>, cases: seq<Case>)
    requires |cases| > 1
    requires forall k :: 0 <= k < |cases[0].when| ==> cases[0].when[k].0 < |data|
    requires !AllHold(data, cases[0].when) && AllHold(data, cases[1].when)
    requires ApplyEdits(data, cases[1].edits).Ok?
    ensures TryCases(data, cases) == Ok((ApplyEdits(data, cases[1].edits).value, true))
  {
    assert cases[1..][0] == cases[1];
    FirstCaseFires(data, cases[1..]);
  }

  lemma TwoMoves(data: seq<Row>, a: Edit, b: Edit)
    requires a.Move? && b.Move?
    ensures ApplyEdits(data, [a, b]) == Ok(MoveItem(MoveItem(data, a.from, a.to), b.from, b.to))
  {
    var d1 := MoveItem(data, a.from, a.to);
    var d2 := MoveItem(d1, b.from, b.to);
    assert [a, b][1..] == [b];
    assert [b][1..] == [];
    assert ApplyEdits(d2, []) == Ok(d2);
    assert ApplyEdits(d1, [b]) == Ok(d2);
  }

  lemma ApplyRuleTries(rule: Rule, data: seq<Row>)
    ensures ApplyRule(rule, data) == TryCases(data, rule.cases)
  {
  }

  /** Case `k` (the first or the second) of a rule fires and makes two moves. */
  lemma FiresTwoMoves(data: seq<Row>, rule: Rule, k: nat, a: Edit, b: Edit)
    requires k <= 1 && k < |rule.cases| && rule.cases[k].edits == [a, b] && a.Move? && b.Move?
    requires AllHold(data, rule.cases[k].when)
    requires k == 1 ==> forall i :: 0 <= i < |rule.cases[0].when| ==> rule.cases[0].when[i].0 < |data|
    requires k == 1 ==> !AllHold(data, rule.cases[0].when)
    ensures ApplyRule(rule, data) == Ok((MoveItem(MoveItem(data, a.from, a.to), b.from, b.to), true))
  {
    ApplyRuleTries(rule, data);
    TwoMoves(data, a, b);
    if k == 0 {
      FirstCaseFires(data, rule.cases);
    } else {
      SecondCaseFires(data, rule.cases);
    }
  }

  lemma TwoRemoves(data: seq<Row>, i: nat, j: nat)
    requires i < |data| && j < |data| - 1
    ensures ApplyEdits(data, [Remove(i), Remove(j)]) == Ok(Without(Without(data, i), j))
  {
    var d1 := Without(data, i);
    var d2 := Without(d1, j);
    assert [Remove(i), Remove(j)][1..] == [Remove(j)];
    assert [Remove(j)][1..] == [];
    assert ApplyEdits(d2, []) == Ok(d2);
    assert ApplyEdits(d1, [Remove(j)]) == Ok(d2);
  }

  /** Case `k` (the first or the second) of a rule fires and removes two rows. */
  lemma FiresTwoRemoves(data: seq<Row>, rule: Rule, k: nat, i: nat, j: nat)
    requires k <= 1 && k < |rule.cases| && rule.cases[k].edits == [Remove(i), Remove(j)]
    requires i < |data| && j < |data| - 1
    requires AllHold(data, rule.cases[k].when)
    requires k == 1 ==> forall m :: 0 <= m < |rule.cases[0].when| ==> rule.cases[0].when[m].0 < |data|
    requires k == 1 ==> !AllHold(data, rule.cases[0].when)
    ensures ApplyRule(rule, data) == Ok((Without(Without(data, i), j), true))
  {
    ApplyRuleTries(rule, data);
    TwoRemoves(data, i, j);
    if k == 0 {
      FirstCaseFires(data, rule.cases);
    } else {
      SecondCaseFires(data, rule.cases);
    }
  }

  /** Both 'Doc.No.' cases remove the label and the "1" at the detected
      positions and nothing else: the compensated second index is right. */
  lemma DocNoRemovesDetectedRows(data: seq<Row>)
    requires |data| > 17 && data[14].text == "Doc.No." && data[17].text == "1"
    ensures ApplyRule(DocNoRule, data) == Ok((data[..14] + data[15..17] + data[18..], true))
  {
    assert DocNoRule.cases[0] == Case([(14, "Doc.No."), (17, "1")], [Remove(14), Remove(16)]);
    FiresTwoRemoves(data, DocNoRule, 0, 14, 16);
    WithoutSkipping(data, 14);
  }

  lemma DocNoRemovesDetectedRowsLater(data: seq<Row>)
    requires |data| > 19 && data[16].text == "Doc.No." && data[19].text == "1"
    requires data[14].text != "Doc.No."
    ensures ApplyRule(DocNoRule, data) == Ok((data[..16] + data[17..19] + data[20..], true))
  {
    var cases := DocNoRule.cases;
    assert cases[0].when == [(14, "Doc.No."), (17, "1")];
    assert !AllHold(data, cases[0].when) by { assert cases[0].when[0] == (14, "Doc.No."); }
    assert cases[1] == Case([(16, "Doc.No."), (19, "1")], [Remove(16), Remove(18)]);
    FiresTwoRemoves(data, DocNoRule, 1, 16, 18);
    WithoutSkipping(data, 16);
  }

  /** The 'Post Status:' repair puts the label at 17 and the value at 20. */
  lemma PostStatusLands(data: seq<Row>)
    requires |data| > 20 && data[6].text == "Post Status:" && data[7].text == "Not posted"
    ensures ApplyRule(PostStatusRule, data).Ok? && |ApplyRule(PostStatusRule, data).value.0| == |data|
    ensures ApplyRule(PostStatusRule, data).value.0[17] == data[6]
    ensures ApplyRule(PostStatusRule, data).value.0[20] == data[7]
  {
    var cases := PostStatusRule.cases;
    assert cases[0] == Case([(6, "Post Status:"), (7, "Not posted")], [Move(6, 18), Move(6, 20)]);
    FiresTwoMoves(data, PostStatusRule, 0, Move(6, 18), Move(6, 20));
    var d1 := MoveItem(data, 6, 18);
    MoveForwardAt(data, 6, 18, 18);
    MoveForwardAt(data, 6, 18, 6);
    MoveForwardAt(d1, 6, 20, 17);
    MoveForwardAt(d1, 6, 20, 20);
  }

  /** Either 'Function:' repair puts the label at 10 and the value at 13,
      where the header check looks for them. */
  lemma FunctionLands(data: seq<Row>)
    requires |data| > 13 && data[4].text == "Function:" && data[5].text == "[1] Full Time"
    ensures ApplyRule(FunctionRule, data).Ok? && |ApplyRule(FunctionRule, data).value.0| == |data|
    ensures ApplyRule(FunctionRule, data).value.0[10] == data[4]
    ensures ApplyRule(FunctionRule, data).value.0[13] == data[5]
  {
    var cases := FunctionRule.cases;
    assert cases[0] == Case([(4, "Function:"), (5, "[1] Full Time")], [Move(4, 11), Move(4, 13)]);
    FiresTwoMoves(data, FunctionRule, 0, Move(4, 11), Move(4, 13));
    var d1 := MoveItem(data, 4, 11);
    MoveForwardAt(data, 4, 11, 11);
    MoveForwardAt(data, 4, 11, 4);
    MoveForwardAt(d1, 4, 13, 10);
    MoveForwardAt(d1, 4, 13, 13);
  }

  lemma FunctionLandsLater(data: seq<Row>)
    requires |data| > 13 && data[8].text == "Function:" && data[11].text == "[1] Full Time"
    requires !(data[4].text == "Function:" && data[5].text == "[1] Full Time")
    ensures ApplyRule(FunctionRule, data).Ok? && |ApplyRule(FunctionRule, data).value.0| == |data|
    ensures ApplyRule(FunctionRule, data).value.0[10] == data[8]
    ensures ApplyRule(FunctionRule, data).value.0[13] == data[11]
  {
    var cases := FunctionRule.cases;
    assert cases[0].when == [(4, "Function:"), (5, "[1] Full Time")];
    assert !AllHold(data, cases[0].when) by {
      assert cases[0].when[0] == (4, "Function:") && cases[0].when[1] == (5, "[1] Full Time");
    }
    assert cases[1] == Case([(8, "Function:"), (11, "[1] Full Time")], [Move(8, 10), Move(11, 13)]);
    FiresTwoMoves(data, FunctionRule, 1, Move(8, 10), Move(11, 13));
    var d1 := MoveItem(data, 8, 10);
    MoveForwardAt(data, 8, 10, 10);
    MoveForwardAt(data, 8, 10, 11);
    MoveForwardAt(d1, 11, 13, 10);
    MoveForwardAt(d1, 11, 13, 13);
  }

  /** The 'Validation:' repair puts the label at 17 and the value at 20. */
  lemma ValidationLands(data: seq<Row>)
    requires |data| > 20 && data[16].text == "Validation:" && data[19].text == "Passed"
    ensures ApplyRule(ValidationRule, data).Ok? && |ApplyRule(ValidationRule, data).value.0| == |data|
    ensures ApplyRule(ValidationRule, data).value.0[17] == data[16]
    ensures ApplyRule(ValidationRule, data).value.0[20] == data[19]
  {
    var cases := ValidationRule.cases;
    assert cases[0] == Case([(16, "Validation:"), (19, "Passed")], [Move(16, 17), Move(19, 20)]);
    FiresTwoMoves(data, ValidationRule, 0, Move(16, 17), Move(19, 20));
    var d1 := MoveItem(data, 16, 17);
    MoveForwardAt(data, 16, 17, 17);
    MoveForwardAt(data, 16, 17, 19);
    MoveForwardAt(d1, 19, 20, 17);
    MoveForwardAt(d1, 19, 20, 20);
  }

  /** Four moves, each to the position after the previous destination,
      collect the four moved items in order. */
  /** After `n` of the four moves, the first `n` items sit at `to` onwards
      and the others are still where they were. */
  ghost predicate Gathered<T>(d: seq<T>, data: seq<T>, from: nat, to: nat, n: nat)
    requires to < from && from + 3 < |data| && n <= 4
  {
    && |d| == |data|
    && (forall p :: to <= p < to + n ==> d[p] == data[p - to + from])
    && (forall p :: from + n <= p < from + 4 ==> d[p] == data[p])
  }

  lemma GatherStep<T>(d: seq<T>, data: seq<T>, from: nat, to: nat, n: nat)
    requires to < from && from + 3 < |data| && n < 4
    requires Gathered(d, data, from, to, n)
    ensures Gathered(MoveItem(d, from + n, to + n), data, from, to, n + 1)
  {
    var e := MoveItem(d, from + n, to + n);
    forall p | to <= p < to + n + 1 ensures e[p] == data[p - to + from] {
      MoveBackwardAt(d, from + n, to + n, p);
    }
    forall p | from + n + 1 <= p < from + 4 ensures e[p] == data[p] {
      MoveBackwardAt(d, from + n, to + n, p);
    }
  }

  lemma GatherFirst<T>(data: seq<T>, from: nat, to: nat)
    requires to < from && from + 3 < |data|
    ensures Gathered(MoveItem(data, from, to), data, from, to, 1)
  {
    var d := MoveItem(data, from, to);
    forall p | from + 1 <= p < from + 4 ensures d[p] == data[p] {
      MoveBackwardAt(data, from, to, p);
    }
    MoveBackwardAt(data, from, to, to);
  }

  lemma GatherTwo<T>(data: seq<T>, from: nat, to: nat)
    requires to < from && from + 3 < |data|
    ensures Gathered(MoveItem(MoveItem(data, from, to), from + 1, to + 1), data, from, to, 2)
  {
    GatherFirst(data, from, to);
    GatherStep(MoveItem(data, from, to), data, from, to, 1);
  }

  lemma GatherThree<T>(data: seq<T>, from: nat, to: nat)
    requires to < from && from + 3 < |data|
    ensures Gathered(MoveItem(MoveItem(MoveItem(data, from, to), from + 1, to + 1), from + 2, to + 2), data, from, to, 3)
  {
    GatherTwo(data, from, to);
    GatherStep(MoveItem(MoveItem(data, from, to), from + 1, to + 1), data, from, to, 2);
  }


  lemma GatherFour<T>(data: seq<T>, from: nat, to: nat)
    requires to < from && from + 3 < |data|
    ensures var d := MoveItem(MoveItem(MoveItem(MoveItem(data, from, to), from + 1, to + 1), from + 2, to + 2), from + 3, to + 3);
      d[to] == data[from] && d[to + 1] == data[from + 1] && d[to + 2] == data[from + 2] && d[to + 3] == data[from + 3]
  {
    var d3 := MoveItem(MoveItem(MoveItem(data, from, to), from + 1, to + 1), from + 2, to + 2);
    GatherThree(data, from, to);
    GatherStep(d3, data, from, to, 3);
  }




  lemma FourMoves(data: seq<Row>, a: Edit, b: Edit, c: Edit, d: Edit)
    requires a.Move? && b.Move? && c.Move? && d.Move?
    ensures ApplyEdits(data, [a, b, c, d]) ==
      Ok(MoveItem(MoveItem(MoveItem(MoveItem(data, a.from, a.to), b.from, b.to), c.from, c.to), d.from, d.to))
  {
    var edits := [a, b, c, d];
    var d1 := MoveItem(data, a.from, a.to);
    var d2 := MoveItem(d1, b.from, b.to);
    TwoMoves(d2, c, d);
    assert edits[1..] == [b, c, d];
    assert edits[1..][1..] == [c, d];
    assert ApplyEdits(d1, [b, c, d]) == ApplyEdits(d2, [c, d]);
  }

  /** The first column-header case detects the four headings at 41 to 44
      and moves them, in order, to 30 to 33. */
  lemma ColumnHeaderFirstCase(data: seq<Row>)
    requires |data| > 44
    requires data[41].text == "ID" && data[42].text == "Time Code"
    requires data[43].text == "Project" && data[44].text == "TimeType"
    ensures AllHold(data, ColumnHeaderRule.cases[0].when)
    ensures ColumnHeaderRule.cases[0].edits == [Move(41, 30), Move(42, 31), Move(43, 32), Move(44, 33)]
  {
    var when := ColumnHeaderRule.cases[0].when;
    assert when == [(41, "ID"), (42, "Time Code"), (43, "Project"), (44, "TimeType")];
    forall k | 0 <= k < |when| ensures when[k].0 < |data| && data[when[k].0].text == when[k].1 {
      if k == 0 { assert when[0] == (41, "ID"); }
      else if k == 1 { assert when[1] == (42, "Time Code"); }
      else if k == 2 { assert when[2] == (43, "Project"); }
      else { assert when[3] == (44, "TimeType"); }
    }
  }

  /** The column-header repair puts 'ID', 'Time Code', 'Project' and
      'TimeType' at 30 to 33, in that order. */
  lemma ColumnHeaderLands(data: seq<Row>)
    requires |data| > 44
    requires data[41].text == "ID" && data[42].text == "Time Code"
    requires data[43].text == "Project" && data[44].text == "TimeType"
    ensures ApplyRule(ColumnHeaderRule, data).Ok? && |ApplyRule(ColumnHeaderRule, data).value.0| == |data|
    ensures var r := ApplyRule(ColumnHeaderRule, data).value.0;
      r[30] == data[41] && r[31] == data[42] && r[32] == data[43] && r[33] == data[44]
  {
    ColumnHeaderFirstCase(data);
    FourMoves(data, Move(41, 30), Move(42, 31), Move(43, 32), Move(44, 33));
    FirstCaseFires(data, ColumnHeaderRule.cases);
    GatherFour(data, 41, 30);
  }

  /** The second column-header case detects the four headings at 43 to 46
      and moves them, in order, to 30 to 33. */
  lemma ColumnHeaderSecondCase(data: seq<Row>)
    requires |data| > 46
    requires data[43].text == "ID" && data[44].text == "Time Code"
    requires data[45].text == "Project" && data[46].text == "TimeType"
    ensures forall k :: 0 <= k < |ColumnHeaderRule.cases[0].when| ==> ColumnHeaderRule.cases[0].when[k].0 < |data|
    ensures !AllHold(data, ColumnHeaderRule.cases[0].when)
    ensures AllHold(data, ColumnHeaderRule.cases[1].when)
    ensures ColumnHeaderRule.cases[1].edits == [Move(43, 30), Move(44, 31), Move(45, 32), Move(46, 33)]
  {
    var first := ColumnHeaderRule.cases[0].when;
    assert first == [(41, "ID"), (42, "Time Code"), (43, "Project"), (44, "TimeType")];
    assert first[2] == (43, "Project");
    var when := ColumnHeaderRule.cases[1].when;
    assert when == [(43, "ID"), (44, "Time Code"), (45, "Project"), (46, "TimeType")];
    forall k | 0 <= k < |when| ensures when[k].0 < |data| && data[when[k].0].text == when[k].1 {
      if k == 0 { assert when[0] == (43, "ID"); }
      else if k == 1 { assert when[1] == (44, "Time Code"); }
      else if k == 2 { assert when[2] == (45, "Project"); }
      else { assert when[3] == (46, "TimeType"); }
    }
  }

  /** When the headings sit two rows lower, at 43 to 46, the second case
      puts them at 30 to 33 as well. */
  lemma ColumnHeaderLandsLater(data: seq<Row>)
    requires |data| > 46
    requires data[43].text == "ID" && data[44].text == "Time Code"
    requires data[45].text == "Project" && data[46].text == "TimeType"
    ensures ApplyRule(ColumnHeaderRule, data).Ok? && |ApplyRule(ColumnHeaderRule, data).value.0| == |data|
    ensures var r := ApplyRule(ColumnHeaderRule, data).value.0;
      r[30] == data[43] && r[31] == data[44] && r[32] == data[45] && r[33] == data[46]
  {
    ColumnHeaderSecondCase(data);
    FourMoves(data, Move(43, 30), Move(44, 31), Move(45, 32), Move(46, 33));
    SecondCaseFires(data, ColumnHeaderRule.cases);
    GatherFour(data, 43, 30);
  }

  // ---- assert_header -------------------------------------------------------

  /** The fixed header positions checked before item 27, with what each may hold. */
  const HeaderTemplate: seq<(nat, Allowed)> := [
    (0, Exactly("Timesheet")),
    (2, Exactly("Location:")),
    (3, Exactly("[E01] Fors Marsh Group")),
    (4, Exactly("Department:")),
    (5, OneOf(["[3200] Advanced Analytics", "[3230] Data Management"])),
    (6, Exactly("Employee Type:")),
    (7, Exactly("[1] Annual Salary")),
    (8, Exactly("Location (Default")),
    (9, Exactly("[LOCAL] Location")),
    (10, Exactly("Function:")),
    (11, Exactly("Exempt:")),
    (12, Exactly("Status:")),
    (13, Exactly("[1] Full Time")),
    (14, Exactly("Yes")),
    (15, OneOf(["Approved", "Closed", "On Hold [Draft]"])),
    (16, Exactly("Post Status:")),
    (17, Exactly("Validation:")),
    (18, Exactly("Date/Time:")),
    (19, OneOf(["Posted", "Not posted"])),
    (20, OneOf(["Passed", "Warnings"])),
    (22, Exactly("Total Timesheet:")),
    (23, Exactly("Standard Hours:")),
    (24, Exactly("Total Billable:")),
    (25, Exactly("Percent Billability:"))
  ]

  /** The column-heading positions checked after item 27. */
  const ColumnTemplate: seq<(nat, Allowed)> := [
    (30, Exactly("ID")),
    (31, Exactly("Time Code")),
    (32, Exactly("Project")),
    (33, Exactly("TimeType"))
  ]

  /** Every checked row exists and holds a text allowed there. */
  predicate Conforms(data: seq<Row>, checks: seq<(nat, Allowed)>) {
    forall k :: 0 <= k < |checks| ==> checks[k].0 < |data| && Admits(checks[k].1, data[checks[k].0].text)
  }

  /** `assert_header_item` / `assert_header_item_any` for each check in turn:
      one mismatch issue per check that fails, in order, and `IndexError`
      when a checked row is missing. */
  function CheckItems(data: seq<Row>, checks: seq<(nat, Allowed)>): (r: Result<seq<Issue>>)
    ensures r.Ok? <==> forall k :: 0 <= k < |checks| ==> checks[k].0 < |data|
    ensures r.Err? ==> r.error == IndexError
    ensures r.Ok? ==> |r.value| <= |checks|
    ensures r.Ok? ==> (r.value == [] <==> Conforms(data, checks))
    ensures r.Ok? ==> forall j :: 0 <= j < |r.value| ==> r.value[j].HeaderMismatch?
  {
    if |checks| == 0 then Ok([])
    else
      var (i, allowed) := checks[0];
      var t :- TextAt(data, i);
      var here := if Admits(allowed, t) then [] else [HeaderMismatch(i, allowed, t)];
      var rest := CheckItems(data, checks[1..]);
      if rest.Err? then
        assert exists k :: 0 <= k < |checks| && checks[k].0 >= |data| by {
          var k :| 0 <= k < |checks[1..]| && checks[1..][k].0 >= |data|;
          assert checks[k + 1] == checks[1..][k];
        }
        rest
      else
        assert forall k :: 1 <= k < |checks| ==> checks[k] == checks[1..][k - 1];
        Ok(here + rest.value)
  }

  /** The issues name exactly the failing checks: each one is the mismatch
      of some check whose text is not allowed, and every such check has its
      issue. */
  lemma {:induction false} CheckItemsReports(data: seq<Row>, checks: seq<(nat, Allowed)>)
    requires CheckItems(data, checks).Ok?
    ensures var issues := CheckItems(data, checks).value;
      && (forall iss :: iss in issues ==>
            exists k :: 0 <= k < |checks| && checks[k].0 < |data|
              && iss == HeaderMismatch(checks[k].0, checks[k].1, data[checks[k].0].text)
              && !Admits(checks[k].1, data[checks[k].0].text))
      && (forall k :: 0 <= k < |checks| && checks[k].0 < |data| && !Admits(checks[k].1, data[checks[k].0].text) ==>
            HeaderMismatch(checks[k].0, checks[k].1, data[checks[k].0].text) in issues)
  {
    if |checks| > 0 {
      var (i, allowed) := checks[0];
      var t := data[i].text;
      var here := if Admits(allowed, t) then [] else [HeaderMismatch(i, allowed, t)];
      var rest := CheckItems(data, checks[1..]).value;
      CheckItemsReports(data, checks[1..]);
      var issues := CheckItems(data, checks).value;
      assert issues == here + rest;
      forall iss | iss in issues
        ensures exists k ::
          && 0 <= k < |checks| && checks[k].0 < |data|
          && iss == HeaderMismatch(checks[k].0, checks[k].1, data[checks[k].0].text)
          && !Admits(checks[k].1, data[checks[k].0].text)
      {
        if iss !in here {
          var k :| 0 <= k < |checks| - 1 && checks[1..][k].0 < |data|
            && iss == HeaderMismatch(checks[1..][k].0, checks[1..][k].1, data[checks[1..][k].0].text)
            && !Admits(checks[1..][k].1, data[checks[1..][k].0].text);
          assert checks[1..][k] == checks[k + 1];
        }
      }
      forall k | 0 <= k < |checks| && checks[k].0 < |data| && !Admits(checks[k].1, data[checks[k].0].text)
        ensures HeaderMismatch(checks[k].0, checks[k].1, data[checks[k].0].text) in issues
      {
        if k > 0 {
          assert checks[k] == checks[1..][k - 1];
        }
      }
    }
  }

  /** Both templates hold and item 27 is a multiple of 8. */
  predicate HeaderConforms(data: seq<Row>) {
    ConformsWith(data, HeaderTemplate, ColumnTemplate)
  }

  predicate ConformsWith(data: seq<Row>, header: seq<(nat, Allowed)>, columns: seq<(nat, Allowed)>) {
    && Conforms(data, header)
    && 27 < |data| && IsMultiple8(data[27].text)
    && Conforms(data, columns)
  }

  /** Where the templates look: rows 0 to 25, then rows 30 to 33. */
  lemma TemplateRows()
    ensures forall k :: 0 <= k < |HeaderTemplate| ==> HeaderTemplate[k].0 <= 25
    ensures |ColumnTemplate| == 4
    ensures forall k :: 0 <= k < 4 ==> ColumnTemplate[k].0 == 30 + k
  {
  }

  /** `assert_header`: never changes the rows; logs one issue per template
      position whose text is not allowed there, plus one if item 27 is not a
      multiple of 8. */
  function AssertHeader(data: seq<Row>): (r: Result<seq<Issue>>)
    ensures r.Ok? ==> |r.value| <= |HeaderTemplate| + 1 + |ColumnTemplate|
  {
    CheckHeader(data, HeaderTemplate, ColumnTemplate)
  }

  /** The body of `assert_header` for a given pair of templates. */
  function CheckHeader(data: seq<Row>, header: seq<(nat, Allowed)>, columns: seq<(nat, Allowed)>): (r: Result<seq<Issue>>)
    ensures r.Ok? ==> |r.value| <= |header| + 1 + |columns|
  {
    var before :- CheckItems(data, header);
    var t :- TextAt(data, 27);
    var eight := if IsMultiple8(t) then [] else [NotMultipleOf8(data[27])];
    var after :- CheckItems(data, columns);
    Ok(before + eight + after)
  }

  /** No issue is logged exactly when the rows conform; the multiple-of-8
      issue is logged exactly when item 27 is not a multiple of 8. */
  lemma CheckHeaderClean(data: seq<Row>, header: seq<(nat, Allowed)>, columns: seq<(nat, Allowed)>)
    requires CheckHeader(data, header, columns).Ok?
    ensures CheckHeader(data, header, columns).value == [] <==> ConformsWith(data, header, columns)
  {
  }

  lemma CheckHeaderEight(data: seq<Row>, header: seq<(nat, Allowed)>, columns: seq<(nat, Allowed)>)
    requires CheckHeader(data, header, columns).Ok?
    ensures NotMultipleOf8(data[27]) in CheckHeader(data, header, columns).value <==> !IsMultiple8(data[27].text)
  {
    var before := CheckItems(data, header).value;
    var after := CheckItems(data, columns).value;
    var eight := if IsMultiple8(data[27].text) then [] else [NotMultipleOf8(data[27])];
    var issues := CheckHeader(data, header, columns).value;
    assert issues == before + eight + after;
    OnlyMismatches(before, data[27]);
    OnlyMismatches(after, data[27]);
  }

  lemma OnlyMismatches(issues: seq<Issue>, row: Row)
    requires forall j :: 0 <= j < |issues| ==> issues[j].HeaderMismatch?
    ensures NotMultipleOf8(row) !in issues
  {
  }

  /** The checks raise `IndexError` exactly when a row they look at is missing. */
  lemma CheckHeaderRaises(data: seq<Row>, header: seq<(nat, Allowed)>, columns: seq<(nat, Allowed)>)
    ensures CheckHeader(data, header, columns).Ok? <==>
      && (forall k :: 0 <= k < |header| ==> header[k].0 < |data|)
      && 27 < |data|
      && (forall k :: 0 <= k < |columns| ==> columns[k].0 < |data|)
    ensures CheckHeader(data, header, columns).Err? ==> CheckHeader(data, header, columns).error == IndexError
  {
  }

  /** `assert_header` raises `IndexError` exactly for fewer than 34 rows. */
  lemma AssertHeaderRaises(data: seq<Row>)
    ensures AssertHeader(data).Ok? <==> |data| >= 34
    ensures AssertHeader(data).Err? ==> AssertHeader(data).error == IndexError
  {
    TemplateRows();
    CheckHeaderRaises(data, HeaderTemplate, ColumnTemplate);
    assert ColumnTemplate[3].0 == 33;
  }

  /** No issue is logged exactly when the header conforms; the multiple-of-8
      issue is logged exactly when item 27 is not a multiple of 8. */
  lemma AssertHeaderClean(data: seq<Row>)
    requires |data| >= 34
    ensures AssertHeader(data).Ok?
    ensures AssertHeader(data).value == [] <==> HeaderConforms(data)
    ensures NotMultipleOf8(data[27]) in AssertHeader(data).value <==> !IsMultiple8(data[27].text)
  {
    AssertHeaderRaises(data);
    CheckHeaderClean(data, HeaderTemplate, ColumnTemplate);
    CheckHeaderEight(data, HeaderTemplate, ColumnTemplate);
  }

  // ---- parse_header --------------------------------------------------------

  datatype Header = Header(
    dates: string,
    employLocation: string,
    employLocationDefault: string,
    employDept: string,
    employType: string,
    employExempt: string,
    status: string,
    statusPosting: string,
    statusValidation: string,
    statusTimestamp: string,
    hours: string,
    hoursMinimum: string,
    hoursBillable: string,
    percentBillable: string)

  /** `parse_header`: reads each header field from its fixed row and deletes
      the first 34 rows. Raises `IndexError` for fewer than 30 rows. */
  function ParseHeader(data: seq<Row>): (r: Result<(Header, seq<Row>)>)
    ensures r.Ok? <==> |data| >= 30
    ensures r.Ok? ==> var rest := r.value.1;
      && |rest| == (if |data| >= 34 then |data| - 34 else 0)
      && data[|data| - |rest|..] == rest
    ensures r.Ok? ==> var h := r.value.0;
      && h.dates == data[1].text && h.employLocation == data[3].text
      && h.employDept == data[5].text && h.employType == data[7].text
      && h.employLocationDefault == data[9].text && h.employExempt == data[14].text
      && h.status == data[15].text && h.statusPosting == data[19].text
      && h.statusValidation == data[20].text && h.statusTimestamp == data[21].text
      && h.hours == data[26].text && h.hoursMinimum == data[27].text
      && h.hoursBillable == data[28].text && h.percentBillable == data[29].text
  {
    if |data| < 30 then Err(IndexError)
    else
      var h := Header(
        data[1].text, data[3].text, data[9].text, data[5].text, data[7].text,
        data[14].text, data[15].text, data[19].text, data[20].text, data[21].text,
        data[26].text, data[27].text, data[28].text, data[29].text);
      Ok((h, Slice(data, 34, |data|)))
  }

  /** The header depends only on the first 30 rows. */
  lemma ParseHeaderLocal(data: seq<Row>, more: seq<Row>)
    requires |data| >= 30
    ensures ParseHeader(data + more).Ok?
    ensures ParseHeader(data + more).value.0 == ParseHeader(data).value.0
  {
    var d := data + more;
    assert forall i :: 0 <= i < 30 ==> d[i] == data[i];
  }

  // ---- parse_footer --------------------------------------------------------

  /** The search loop of `parse_footer`: from the last row down to row 1
      (row 0 is never examined), the first row holding the footer marker. */
  method FindFooter(data: seq<Row>) returns (target: Option<nat>)
    ensures target.Some? ==> 1 <= target.value < |data| && data[target.value].text == FooterMarker
    ensures target.Some? ==> forall m :: target.value < m < |data| ==> data[m].text != FooterMarker
    ensures target.None? ==> forall m :: 1 <= m < |data| ==> data[m].text != FooterMarker
  {
    var n := |data| - 1;
    while n > 0
      invariant -1 <= n < |data|
      invariant forall m :: n < m < |data| ==> data[m].text != FooterMarker
    {
      if data[n].text == FooterMarker {
        return Some(n);
      }
      n := n - 1;
    }
    return None;
  }

  /** `parse_footer`: cuts the rows at the last footer marker at index 1 or
      later; without one, logs an issue and keeps every row. */
  method ParseFooter(data: seq<Row>) returns (rows: seq<Row>, issues: seq<Issue>)
    ensures issues == [] || issues == [NoFooter]
    ensures issues == [] ==>
      && 1 <= |rows| < |data| && rows == data[..|rows|]
      && data[|rows|].text == FooterMarker
      && forall m :: |rows| < m < |data| ==> data[m].text != FooterMarker
    ensures issues == [NoFooter] ==>
      && rows == data
      && forall m :: 1 <= m < |data| ==> data[m].text != FooterMarker
  {
    var target := FindFooter(data);
    if target.None? {
      return data, [NoFooter];
    }
    return data[..target.value], [];
  }

  // ---- parse_pages ---------------------------------------------------------

  /** `b` is `a` with some page-furniture rows deleted, the rest kept in order. */
  ghost predicate Erases(a: seq<Row>, b: seq<Row>)
    decreases |a|
  {
    if |a| == 0 then |b| == 0
    else
      || (|b| > 0 && a[0] == b[0] && Erases(a[1..], b[1..]))
      || (IsPageFurniture(a[0].text) && Erases(a[1..], b))
  }

  lemma {:induction false} ErasesNothing(a: seq<Row>)
    ensures Erases(a, a)
    decreases |a|
  {
    if |a| > 0 {
      ErasesNothing(a[1..]);
    }
  }

  /** Deleting a later item leaves the head in place. */
  lemma WithoutBehindHead(b: seq<Row>, k: nat)
    requires 0 < k < |b|
    ensures |Without(b, k)| > 0 && Without(b, k)[0] == b[0]
    ensures Without(b, k)[1..] == Without(b[1..], k - 1)
  {
  }

  /** Deleting one more page-furniture row keeps the relation. */
  lemma {:induction false} ErasesOneMore(a: seq<Row>, b: seq<Row>, k: nat)
    requires Erases(a, b) && k < |b| && IsPageFurniture(b[k].text)
    ensures Erases(a, Without(b, k))
    decreases |a|
  {
    var b' := Without(b, k);
    if |b| > 0 && a[0] == b[0] && Erases(a[1..], b[1..]) {
      if k == 0 {
        assert b' == b[1..];
        assert IsPageFurniture(a[0].text);
      } else {
        ErasesOneMore(a[1..], b[1..], k - 1);
        WithoutBehindHead(b, k);
      }
    } else {
      ErasesOneMore(a[1..], b, k);
    }
  }

  /** Python's `data[i]` for a possibly negative `i`. */
  function PyIndex(length: nat, i: int): (k: Option<nat>)
    ensures k.Some? ==> k.value < length
    ensures k.Some? ==> k.value as int == (if i < 0 then length + i else i)
    ensures k.None? <==> !(-(length as int) <= i < length)
  {
    if 0 <= i < length then Some(i)
    else if -(length as int) <= i < 0 then Some(length + i)
    else None
  }

  /** Positions from `i` on of the rows whose text is exactly "Timesheet",
      ascending. */
  function PageBreaksFrom(data: seq<Row>, i: nat): (r: seq<nat>)
    requires i <= |data|
    ensures forall k :: 0 <= k < |r| ==> i <= r[k] < |data| && data[r[k]].text == "Timesheet"
    ensures |r| == 0 <==> forall j :: i <= j < |data| ==> data[j].text != "Timesheet"
    decreases |data| - i
  {
    if i == |data| then []
    else (if data[i].text == "Timesheet" then [i] else []) + PageBreaksFrom(data, i + 1)
  }

  function PageBreaks(data: seq<Row>): seq<nat> {
    PageBreaksFrom(data, 0)
  }

  /** `parse_pages`: for every "Timesheet" row, last first, scans the seven
      positions before it (negative positions count from the end, as in
      Python) and deletes the row there for as long as some `PATTERNS`
      entry matches it. Only page-furniture rows are removed and the order
      of the others is kept; with no "Timesheet" row an issue is logged. */
  method ParsePages(data: seq<Row>) returns (r: Result<(seq<Row>, seq<Issue>)>)
    ensures r.Ok? ==> Erases(data, r.value.0) && |r.value.0| <= |data|
    ensures r.Ok? ==> (r.value.1 == [NoPageBreaks] <==> forall i :: 0 <= i < |data| ==> data[i].text != "Timesheet")
    ensures r.Ok? ==> (r.value.1 == [] <==> exists i :: 0 <= i < |data| && data[i].text == "Timesheet")
    ensures (forall i :: 0 <= i < |data| ==> data[i].text != "Timesheet") ==> r == Ok((data, [NoPageBreaks]))
  {
    var breaks := PageBreaks(data);
    var issues: seq<Issue> := if |breaks| == 0 then [NoPageBreaks] else [];
    var rows := data;
    ErasesNothing(data);
    var b := |breaks|;
    while b > 0
      invariant 0 <= b <= |breaks|
      invariant Erases(data, rows)
      invariant |breaks| == 0 ==> rows == data
    {
      b := b - 1;
      var pageBreak := breaks[b];
      var i: int := pageBreak - 7;
      while i < pageBreak
        invariant Erases(data, rows)
        decreases pageBreak - i
      {
        var j := 0;
        while j < |Patterns|
          invariant 0 <= j <= |Patterns|
          invariant Erases(data, rows)
          decreases |rows|, |Patterns| - j
        {
          var k := PyIndex(|rows|, i);
          if k.None? {
            return Err(IndexError);
          }
          if Match(Patterns[j], rows[k.value].text) {
            PatternIsFurniture(j, rows[k.value].text);
            ErasesOneMore(data, rows, k.value);
            rows := Without(rows, k.value);
            j := 0;
          } else {
            j := j + 1;
          }
        }
        i := i + 1;
      }
    }
    ErasesShrinks(data, rows);
    return Ok((rows, issues));
  }

  // ---- Timesheet -----------------------------------------------------------

  datatype Sheet = Sheet(header: Header, rows: seq<Row>, issues: seq<Issue>)

  /** The first half of the constructor: beat the rows into shape, check
      the header block and read it. The result holds the header, the rows
      after it and the issues logged so far. */
  function ReadHeader(data: seq<Row>): (r: Result<(Header, seq<Row>, seq<Issue>)>)
    ensures |data| <= 14 ==> r == Err(IndexError)
  {
    var beat := BeatTimesheet(data);
    if beat.Err? then Err(beat.error)
    else
      var checked := AssertHeader(beat.value.0);
      AssertHeaderRaises(beat.value.0);
      if checked.Err? then Err(checked.error)
      else
        var parsed := ParseHeader(beat.value.0);
        Ok((parsed.value.0, parsed.value.1, beat.value.1 + checked.value))
  }

  /** What the first half produces: the header read from the repaired rows,
      the rows after the 34-row header block, and the repair log first. */
  lemma ReadHeaderReads(data: seq<Row>)
    ensures ReadHeader(data).Ok? ==> BeatTimesheet(data).Ok?
    ensures ReadHeader(data).Ok? ==>
      var r := ReadHeader(data).value;
      var repaired := BeatTimesheet(data).value;
      && |repaired.0| >= 34
      && ParseHeader(repaired.0) == Ok((r.0, r.1))
      && repaired.1 <= r.2
  {
    var beat := BeatTimesheet(data);
    if beat.Ok? {
      AssertHeaderRaises(beat.value.0);
    }
  }

  /** `Timesheet.__init__`: repair, validate the header, read it, strip the
      footer and the page furniture. The issue log collects the repairs,
      then the header findings, then the footer and page-break findings. */
  method NewTimesheet(data: seq<Row>) returns (r: Result<Sheet>)
    ensures |data| <= 14 ==> r == Err(IndexError)
    ensures r.Ok? ==> ReadHeader(data).Ok?
    ensures r.Ok? ==> var pre := ReadHeader(data).value;
      && r.value.header == pre.0
      && pre.2 <= r.value.issues
      && |r.value.rows| <= |pre.1|
  {
    var pre := ReadHeader(data);
    if pre.Err? {
      return Err(pre.error);
    }
    var body := StripBody(pre.value.1);
    if body.Err? {
      return Err(body.error);
    }
    return Ok(Sheet(pre.value.0, body.value.0, pre.value.2 + body.value.1));
  }

  /** Where `parse_footer` cuts: at the last footer marker at index 1 or
      later, or after the last row when there is none. */
  predicate FooterCut(body: seq<Row>, n: int) {
    && 0 <= n <= |body|
    && (n < |body| ==> 1 <= n && body[n].text == FooterMarker)
    && (forall m :: n < m < |body| ==> body[m].text != FooterMarker)
    && (n == |body| ==> forall m :: 1 <= m < |body| ==> body[m].text != FooterMarker)
  }

  /** The second half of the constructor: cut the footer off the rows after
      the header, then erase the page furniture from what is left. The first
      issue says whether a footer was missing. */
  method StripBody(body: seq<Row>) returns (r: Result<(seq<Row>, seq<Issue>)>)
    ensures r.Ok? ==> |r.value.0| <= |body|
    ensures r.Ok? ==> exists n ::
      && FooterCut(body, n)
      && Erases(body[..n], r.value.0)
      && (n == |body| <==> |r.value.1| > 0 && r.value.1[0] == NoFooter)
  {
    var footerRows, footerIssues := ParseFooter(body);
    var pages := ParsePages(footerRows);
    if pages.Err? {
      return Err(pages.error);
    }
    var n := |footerRows|;
    assert footerRows == body[..n];
    assert FooterCut(body, n);
    return Ok((pages.value.0, footerIssues + pages.value.1));
  }

  lemma {:induction false} ErasesShrinks(a: seq<Row>, b: seq<Row>)
    requires Erases(a, b)
    ensures |b| <= |a|
    decreases |a|
  {
    if |a| > 0 {
      if |b| > 0 && a[0] == b[0] && Erases(a[1..], b[1..]) {
        ErasesShrinks(a[1..], b[1..]);
      } else {
        ErasesShrinks(a[1..], b);
      }
    }
  }
}
