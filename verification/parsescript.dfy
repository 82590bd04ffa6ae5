/** The helpers of `parse.py` that work on the HTML parser's records:
    `has_style_left`, `update_count`, and the `div`/`span` scanner of
    `parse_timesheet`, whose printed lines are returned as a sequence. */
module ParseScript {
  import opened Wrappers
  import opened Text
  import opened Html

  // ---- has_style_left ------------------------------------------------------

  /** `has_style_left`: true exactly when there is a `style` dictionary with
      a `left` key. A `style` that is not a dictionary has no `keys`, which
      raises an `AttributeError`. */
  function HasStyleLeft(attrs: map<string, AttrValue>): (r: Result<bool>)
    ensures r.Err? <==> "style" in attrs && attrs["style"].Plain?
    ensures r.Err? ==> r.error == AttributeError
    ensures r == Ok(true) <==> "style" in attrs && attrs["style"].Css? && "left" in attrs["style"].style
  {
    if "style" !in attrs then Ok(false)
    else
      match attrs["style"]
      case Plain(_) => Err(AttributeError)
      case Css(style) => Ok("left" in style)
  }

  /** Whatever the HTML parser records as `style` is a dictionary, so the
      test never raises on its records. */
  lemma HasStyleLeftParsed(pairs: seq<(string, Option<string>)>)
    requires ParseAttrsDoubles(pairs).Ok?
    ensures HasStyleLeft(ParseAttrsDoubles(pairs).value).Ok?
  {
    ParseAttrsDoublesKeeps(pairs);
    var m := ParseAttrsDoubles(pairs).value;
    if "style" in m {
      var i := LastIndex(pairs, "style");
      assert Convert(pairs[i]).Ok?;
    }
  }

  // ---- update_count --------------------------------------------------------

  /** `update_count`: one more for `key`, starting from one. */
  function UpdateCount<K>(counters: map<K, int>, key: K): (r: map<K, int>)
    ensures r.Keys == counters.Keys + {key}
    ensures key in counters ==> r[key] == counters[key] + 1
    ensures key !in counters ==> r[key] == 1
    ensures forall k :: k in counters && k != key ==> r[k] == counters[k]
  {
    if key in counters then counters[key := counters[key] + 1] else counters[key := 1]
  }

  /** Counting a sequence of keys from the empty dictionary. */
  function Tally<K>(keys: seq<K>): map<K, int>
    decreases |keys|
  {
    if |keys| == 0 then map[] else UpdateCount(Tally(keys[..|keys| - 1]), keys[|keys| - 1])
  }

  /** The counters count: every key seen is present with its number of
      occurrences, and nothing else is present. */
  lemma {:induction false} TallyCounts<K>(keys: seq<K>)
    ensures Tally(keys).Keys == set k | k in keys
    ensures forall k :: k in keys ==> Tally(keys)[k] == multiset(keys)[k]
    decreases |keys|
  {
    if |keys| > 0 {
      var n := |keys| - 1;
      TallyCounts(keys[..n]);
      assert keys == keys[..n] + [keys[n]];
      assert multiset(keys) == multiset(keys[..n]) + multiset{keys[n]};
      forall k | k in keys ensures Tally(keys)[k] == multiset(keys)[k] {
        if k != keys[n] {
          assert k in keys[..n];
        } else if k !in keys[..n] {
          assert multiset(keys[..n])[k] == 0;
        }
      }
    }
  }

  // ---- parse_timesheet -----------------------------------------------------

  /** The loop variables of `parse_timesheet`. */
  datatype State = State(inDiv: bool, inSpan: bool, left: string)

  const Initial := State(false, false, "")

  /** `f"{left:10} {line}"`. */
  function Format(left: string, line: string): string {
    PadRight(left, 10) + " " + line
  }

  predicate IsSpanStart(rec: Record) {
    rec.StartRecord? && rec.tag == "span"
  }

  /** The left offset a record opens with: a `div` start whose style has
      `left`. */
  function Opener(rec: Record): (r: Result<Option<string>>)
    ensures r.Ok? && r.value.Some? ==> rec.StartRecord? && rec.tag == "div"
    ensures !(rec.StartRecord? && rec.tag == "div") ==> r == Ok(None)
  {
    if rec.StartRecord? && rec.tag == "div" then
      var has :- HasStyleLeft(rec.attrs);
      if has then Ok(Some(rec.attrs["style"].style["left"])) else Ok(None)
    else Ok(None)
  }

  /** What the record after the `span` prints: the first of its lines for a
      `DATA` record (an `IndexError` when it has none), nothing otherwise. */
  function Emit(left: string, rec: Record): (r: Result<seq<string>>)
    ensures r.Ok? ==> |r.value| <= 1
    ensures r.Err? <==> rec.DataRecord? && rec.lines == []
  {
    if rec.DataRecord? then
      if |rec.lines| == 0 then Err(IndexError) else Ok([Format(left, rec.lines[0])])
    else Ok([])
  }

  /** One pass of the loop body. */
  function Step(s: State, rec: Record): (r: Result<(State, seq<string>)>)
    ensures r.Ok? && s.inSpan ==> !r.value.0.inSpan && !r.value.0.inDiv
    ensures r.Ok? && !s.inSpan && s.inDiv && !IsSpanStart(rec) ==> !r.value.0.inDiv && !r.value.0.inSpan
    ensures r.Ok? && |r.value.1| > 0 ==> s.inSpan && rec.DataRecord?
  {
    if s.inSpan then
      var out :- Emit(s.left, rec);
      Ok((s.(inSpan := false, inDiv := false), out))
    else if s.inDiv then
      if IsSpanStart(rec) then Ok((s.(inSpan := true), []))
      else Ok((s.(inDiv := false), []))
    else
      var open :- Opener(rec);
      match open
      case Some(left) => Ok((s.(inDiv := true, left := left), []))
      case None => Ok((s, []))
  }

  /** The loop over the records, with everything printed so far. */
  function Run(s: State, data: seq<Record>): Result<(State, seq<string>)>
    decreases |data|
  {
    if |data| == 0 then Ok((s, []))
    else
      var (s1, out1) :- Step(s, data[0]);
      var (s2, out2) :- Run(s1, data[1..]);
      Ok((s2, out1 + out2))
  }

  /** What `parse_timesheet` returns and what it prints. */
  datatype Parsed = Parsed(returned: seq<string>, printed: seq<string>)

  /** `parse_timesheet`. */
  function ParseTimesheet(data: seq<Record>): (r: Result<Parsed>)
    ensures r.Ok? ==> r.value.returned == []
  {
    var (_, printed) :- Run(Initial, data);
    Ok(Parsed([], printed))
  }

  /** The same scan read as a grammar over the records: a `div` with a left
      offset, then a `span`, then a record that prints if it is `DATA`;
      the record after an opening `div` is consumed even when it is not a
      `span`, and so is the record after the `span`. */
  function Scan(data: seq<Record>): Result<seq<string>>
    decreases |data|
  {
    if |data| == 0 then Ok([])
    else
      var open :- Opener(data[0]);
      match open
      case None => Scan(data[1..])
      case Some(left) =>
        if |data| == 1 then Ok([])
        else if !IsSpanStart(data[1]) then Scan(data[2..])
        else if |data| == 2 then Ok([])
        else
          var out :- Emit(left, data[2]);
          var rest :- Scan(data[3..]);
          Ok(out + rest)
  }

  function Printed(r: Result<(State, seq<string>)>): Result<seq<string>> {
    match r
    case Ok((_, out)) => Ok(out)
    case Err(e) => Err(e)
  }

  /** `out` printed in front of whatever `r` prints. */
  function Prepend(out: seq<string>, r: Result<seq<string>>): Result<seq<string>> {
    match r
    case Ok(rest) => Ok(out + rest)
    case Err(e) => Err(e)
  }

  /** The loop takes one step and carries on from the state it reaches. */
  lemma RunCons(s: State, data: seq<Record>)
    requires |data| > 0
    ensures Printed(Run(s, data)) ==
      match Step(s, data[0])
      case Err(e) => Err(e)
      case Ok((t, out)) => Prepend(out, Printed(Run(t, data[1..])))
  {
  }

  lemma PrependNothing(r: Result<seq<string>>)
    ensures Prepend([], r) == r
  {
    if r.Ok? {
      assert [] + r.value == r.value;
    }
  }

  /** From a state outside any `div`, the loop prints what the grammar
      prints and fails where it fails; the remembered offset does not
      matter. */
  lemma {:induction false} RunScan(left: string, data: seq<Record>)
    ensures Printed(Run(State(false, false, left), data)) == Scan(data)
    decreases |data|
  {
    var s := State(false, false, left);
    if |data| > 0 {
      RunCons(s, data);
      var open := Opener(data[0]);
      if open.Ok? {
        if open.value.None? {
          assert Step(s, data[0]) == Ok((s, []));
          RunScan(left, data[1..]);
          PrependNothing(Scan(data[1..]));
        } else {
          var l := open.value.value;
          var d := State(true, false, l);
          assert Step(s, data[0]) == Ok((d, []));
          if |data| == 1 {
            assert Printed(Run(d, data[1..])) == Ok([]);
            PrependNothing(Ok([]));
          } else {
            RunCons(d, data[1..]);
            assert data[1..][1..] == data[2..];
            if !IsSpanStart(data[1]) {
              var e := State(false, false, l);
              assert Step(d, data[1]) == Ok((e, []));
              RunScan(l, data[2..]);
              PrependNothing(Scan(data[2..]));
              PrependNothing(Printed(Run(d, data[1..])));
            } else {
              var sp := State(true, true, l);
              assert Step(d, data[1]) == Ok((sp, []));
              if |data| == 2 {
                assert Printed(Run(sp, data[2..])) == Ok([]);
                PrependNothing(Ok([]));
              } else {
                RunCons(sp, data[2..]);
                assert data[2..][1..] == data[3..];
                var e := State(false, false, l);
                match Emit(l, data[2])
                case Err(err) =>
                  assert Step(sp, data[2]) == Err(err);
                case Ok(out) =>
                  assert Step(sp, data[2]) == Ok((e, out));
                  RunScan(l, data[3..]);
              }
              PrependNothing(Printed(Run(sp, data[2..])));
              PrependNothing(Printed(Run(d, data[1..])));
            }
          }
        }
      }
    }
  }

  /** `parse_timesheet` prints what the grammar prints. */
  lemma ParseTimesheetScans(data: seq<Record>)
    ensures ParseTimesheet(data).Ok? <==> Scan(data).Ok?
    ensures ParseTimesheet(data).Ok? ==> ParseTimesheet(data).value.printed == Scan(data).value
  {
    RunScan("", data);
  }

  /** Position `i` opens the pattern that prints: a `div` with a left offset,
      a `span` start, a `DATA` record with at least one line. */
  predicate Prints(data: seq<Record>, i: int, line: string) {
    && 0 <= i && i + 2 < |data|
    && Opener(data[i]).Ok? && Opener(data[i]).value.Some?
    && IsSpanStart(data[i + 1])
    && data[i + 2].DataRecord? && |data[i + 2].lines| > 0
    && line == Format(Opener(data[i]).value.value, data[i + 2].lines[0])
  }

  /** `line` is printed by some pattern of `data`. */
  ghost predicate Traced(data: seq<Record>, line: string) {
    exists i :: Prints(data, i, line)
  }

  /** A pattern found after the first `k` records is a pattern of the whole. */
  lemma PrintsShift(data: seq<Record>, k: nat, lines: seq<string>)
    requires k <= |data|
    requires forall j :: 0 <= j < |lines| ==> Traced(data[k..], lines[j])
    ensures forall j :: 0 <= j < |lines| ==> Traced(data, lines[j])
  {
    forall j | 0 <= j < |lines| ensures Traced(data, lines[j]) {
      var i :| Prints(data[k..], i, lines[j]);
      assert data[k..][i] == data[i + k] && data[k..][i + 1] == data[i + k + 1] && data[k..][i + 2] == data[i + k + 2];
      assert Prints(data, i + k, lines[j]);
    }
  }

  lemma TracedConcat(data: seq<Record>, first: seq<string>, rest: seq<string>)
    requires forall j :: 0 <= j < |first| ==> Traced(data, first[j])
    requires forall j :: 0 <= j < |rest| ==> Traced(data, rest[j])
    ensures forall j :: 0 <= j < |first + rest| ==> Traced(data, (first + rest)[j])
  {
    forall j | 0 <= j < |first + rest| ensures Traced(data, (first + rest)[j]) {
      if j >= |first| {
        assert (first + rest)[j] == rest[j - |first|];
      }
    }
  }

  /** Every printed line comes from such a pattern: the offset of its `div`
      and the first line of its `DATA`. */
  lemma {:induction false} ScanSound(data: seq<Record>)
    requires Scan(data).Ok?
    ensures forall j :: 0 <= j < |Scan(data).value| ==> Traced(data, Scan(data).value[j])
    decreases |data|
  {
    if |data| > 0 {
      var open := Opener(data[0]).value;
      var out := Scan(data).value;
      if open.None? {
        assert Scan(data) == Scan(data[1..]);
        ScanSound(data[1..]);
        PrintsShift(data, 1, out);
      } else if |data| <= 2 && (|data| == 1 || IsSpanStart(data[1])) {
        assert out == [];
      } else if !IsSpanStart(data[1]) {
        assert Scan(data) == Scan(data[2..]);
        ScanSound(data[2..]);
        PrintsShift(data, 2, out);
      } else {
        var first := Emit(open.value, data[2]).value;
        var rest := Scan(data[3..]).value;
        ScanSound(data[3..]);
        PrintsShift(data, 3, rest);
        assert forall j :: 0 <= j < |first| ==> Prints(data, 0, first[j]);
        TracedConcat(data, first, rest);
        assert out == first + rest;
      }
    }
  }
}
