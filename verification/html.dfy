/** `parser/html.py`: the inline-CSS attribute parser and the recording
    subclass of `HTMLParser`, which turns each tokenizer callback into one
    record. The tokenizer itself is outside the model: its callbacks are
    the input. */
module Html {
  import opened Wrappers
  import opened Text

  // ---- parse_attrs_string --------------------------------------------------

  /** A piece of the `;`-split text that holds nothing but whitespace. */
  predicate Blank(piece: string) {
    |Strip(piece)| == 0
  }

  /** One piece of `key:value;key:value`: skipped when blank, a `ValueError`
      from the two-name unpacking unless it holds exactly one `:`, otherwise
      the stripped key and value. */
  function ParsePiece(piece: string): (r: Result<Option<(string, string)>>)
    ensures r == Ok(None) <==> Blank(piece)
    ensures r.Err? <==> !Blank(piece) && Count(piece, ':') != 1
    ensures r.Err? ==> r.error == ValueError
  {
    if Blank(piece) then Ok(None)
    else if Count(piece, ':') != 1 then Err(ValueError)
    else
      var (a, b) := SplitOnce(piece, ':');
      Ok(Some((Strip(a), Strip(b))))
  }

  /** A piece that assigns is `key:value` with no other `:`, and assigns
      the stripped halves. */
  lemma ParsePieceSplits(piece: string)
    requires !Blank(piece) && Count(piece, ':') == 1
    ensures exists a, b ::
      && ':' !in a && ':' !in b
      && piece == a + [':'] + b
      && ParsePiece(piece).value.value == (Strip(a), Strip(b))
  {
    var (a, b) := SplitOnce(piece, ':');
    assert ParsePiece(piece) == Ok(Some((Strip(a), Strip(b))));
    CountAppend(a + [':'], b, ':');
    CountAppend(a, [':'], ':');
  }

  /** A parser of single pieces: skip (`None`), assign, or fail. */
  type PieceParser = string -> Result<Option<(string, string)>>

  /** The dictionary built from the pieces in order, each later assignment
      to a key replacing the earlier one; the first failing piece ends it. */
  function Collect(pieces: seq<string>, parse: PieceParser): Result<map<string, string>>
    decreases |pieces|
  {
    if |pieces| == 0 then Ok(map[])
    else
      var m :- Collect(pieces[..|pieces| - 1], parse);
      var p :- parse(pieces[|pieces| - 1]);
      match p
      case None => Ok(m)
      case Some((k, v)) => Ok(m[k := v])
  }

  /** `parse_attrs_string`. */
  function ParseAttrsString(attrs: string): Result<map<string, string>> {
    Collect(Split(attrs, ';'), ParsePiece)
  }

  /** Piece `i` assigns key `k`. */
  predicate SetsKey(pieces: seq<string>, parse: PieceParser, i: int, k: string) {
    && 0 <= i < |pieces|
    && parse(pieces[i]).Ok? && parse(pieces[i]).value.Some?
    && parse(pieces[i]).value.value.0 == k
  }

  /** `v` is what the last piece assigning `k` gives it. */
  ghost predicate LastSets(pieces: seq<string>, parse: PieceParser, k: string, v: string) {
    exists i ::
      && SetsKey(pieces, parse, i, k)
      && parse(pieces[i]).value.value.1 == v
      && forall j :: i < j < |pieces| ==> !SetsKey(pieces, parse, j, k)
  }

  /** The parse fails exactly when some piece fails, and with that piece's
      error. */
  lemma {:induction false} CollectFails(pieces: seq<string>, parse: PieceParser)
    ensures Collect(pieces, parse).Err? <==> exists i :: 0 <= i < |pieces| && parse(pieces[i]).Err?
    ensures Collect(pieces, parse).Err? ==> exists i :: 0 <= i < |pieces| && parse(pieces[i]) == Err(Collect(pieces, parse).error)
    decreases |pieces|
  {
    if |pieces| > 0 {
      var n := |pieces| - 1;
      var init := pieces[..n];
      CollectFails(init, parse);
      if Collect(init, parse).Err? {
        var i :| 0 <= i < n && parse(init[i]) == Err(Collect(init, parse).error);
        assert pieces[i] == init[i];
      } else {
        assert Collect(pieces, parse).Err? <==> parse(pieces[n]).Err?;
        if parse(pieces[n]).Ok? {
          forall i | 0 <= i < |pieces| ensures parse(pieces[i]).Ok? {
            if i < n {
              assert pieces[i] == init[i];
              assert !parse(init[i]).Err?;
            } else {
              assert i == n;
            }
          }
        }
      }
    }
  }

  /** One more piece: the dictionary so far, updated by what it assigns. */
  lemma CollectStep(pieces: seq<string>, parse: PieceParser)
    requires |pieces| > 0 && Collect(pieces, parse).Ok?
    ensures Collect(pieces[..|pieces| - 1], parse).Ok?
    ensures var n := |pieces| - 1;
      var m0 := Collect(pieces[..n], parse).value;
      var m := Collect(pieces, parse).value;
      && (forall k :: k in m <==> k in m0 || SetsKey(pieces, parse, n, k))
      && (forall k :: SetsKey(pieces, parse, n, k) ==> m[k] == parse(pieces[n]).value.value.1)
      && (forall k :: k in m0 && !SetsKey(pieces, parse, n, k) ==> m[k] == m0[k])
  {
    var n := |pieces| - 1;
    var p := parse(pieces[n]);
    assert p.Ok?;
    var m0 := Collect(pieces[..n], parse).value;
    if p.value.None? {
      assert Collect(pieces, parse).value == m0;
    } else {
      assert Collect(pieces, parse).value == m0[p.value.value.0 := p.value.value.1];
    }
  }

  /** A key piece `i < n` of the prefix assigns, piece `i` of the whole assigns. */
  lemma SetsKeyPrefix(pieces: seq<string>, parse: PieceParser, n: nat, i: int, k: string)
    requires n <= |pieces|
    ensures 0 <= i < n ==> (SetsKey(pieces[..n], parse, i, k) <==> SetsKey(pieces, parse, i, k))
  {
    if 0 <= i < n {
      assert pieces[..n][i] == pieces[i];
    }
  }

  lemma CollectKeysStep(pieces: seq<string>, init: seq<string>, parse: PieceParser, m0: map<string, string>, m: map<string, string>)
    requires |pieces| > 0 && init == pieces[..|pieces| - 1]
    requires forall k :: k in m0 <==> exists i :: SetsKey(init, parse, i, k)
    requires forall k :: k in m <==> k in m0 || SetsKey(pieces, parse, |pieces| - 1, k)
    ensures forall k :: k in m <==> exists i :: SetsKey(pieces, parse, i, k)
  {
    var n := |pieces| - 1;
    forall k ensures k in m <==> exists i :: SetsKey(pieces, parse, i, k) {
      if k in m {
        if !SetsKey(pieces, parse, n, k) {
          var i :| SetsKey(init, parse, i, k);
          SetsKeyPrefix(pieces, parse, n, i, k);
        }
      } else {
        forall i | 0 <= i < |pieces| ensures !SetsKey(pieces, parse, i, k) {
          SetsKeyPrefix(pieces, parse, n, i, k);
        }
      }
    }
  }

  lemma LastSetsStep(pieces: seq<string>, parse: PieceParser, k: string, v: string)
    requires |pieces| > 0
    requires !SetsKey(pieces, parse, |pieces| - 1, k)
    requires LastSets(pieces[..|pieces| - 1], parse, k, v)
    ensures LastSets(pieces, parse, k, v)
  {
    var n := |pieces| - 1;
    var init := pieces[..n];
    var i :| && SetsKey(init, parse, i, k)
             && parse(init[i]).value.value.1 == v
             && forall j :: i < j < |init| ==> !SetsKey(init, parse, j, k);
    SetsKeyPrefix(pieces, parse, n, i, k);
    assert init[i] == pieces[i];
    forall j | i < j < |pieces| ensures !SetsKey(pieces, parse, j, k) {
      SetsKeyPrefix(pieces, parse, n, j, k);
    }
  }

  /** The keys are exactly those some piece assigns, and each holds the
      value of the last piece that assigns it. */
  lemma {:induction false} CollectLastWins(pieces: seq<string>, parse: PieceParser)
    requires Collect(pieces, parse).Ok?
    ensures var m := Collect(pieces, parse).value;
      && (forall k :: k in m <==> exists i :: SetsKey(pieces, parse, i, k))
      && (forall k :: k in m ==> LastSets(pieces, parse, k, m[k]))
    decreases |pieces|
  {
    if |pieces| > 0 {
      var n := |pieces| - 1;
      var init := pieces[..n];
      CollectStep(pieces, parse);
      CollectLastWins(init, parse);
      var m0 := Collect(init, parse).value;
      var m := Collect(pieces, parse).value;
      CollectKeysStep(pieces, init, parse, m0, m);
      forall k | k in m ensures LastSets(pieces, parse, k, m[k]) {
        if SetsKey(pieces, parse, n, k) {
          assert parse(pieces[n]).value.value.1 == m[k];
        } else {
          LastSetsStep(pieces, parse, k, m[k]);
        }
      }
    }
  }

  /** `parse_attrs_string` fails, with a `ValueError`, exactly when some
      non-blank piece does not hold exactly one `:`. */
  lemma ParseAttrsStringFails(attrs: string)
    ensures var pieces := Split(attrs, ';');
      && (ParseAttrsString(attrs).Err? <==>
            exists i :: 0 <= i < |pieces| && !Blank(pieces[i]) && Count(pieces[i], ':') != 1)
      && (ParseAttrsString(attrs).Err? ==> ParseAttrsString(attrs).error == ValueError)
  {
    CollectFails(Split(attrs, ';'), ParsePiece);
  }

  /** An empty attribute text, or one of blank pieces only, is the empty
      dictionary. */
  lemma ParseAttrsStringBlank(attrs: string)
    requires forall i :: 0 <= i < |Split(attrs, ';')| ==> Blank(Split(attrs, ';')[i])
    ensures ParseAttrsString(attrs) == Ok(map[])
  {
    var pieces := Split(attrs, ';');
    CollectFails(pieces, ParsePiece);
    CollectLastWins(pieces, ParsePiece);
    var m := ParseAttrsString(attrs).value;
    assert forall k :: k !in m;
  }

  lemma EmptyStyle()
    ensures ParseAttrsString("") == Ok(map[])
  {
    assert Split("", ';') == [""];
    ParseAttrsStringBlank("");
  }

  // ---- the inverse: writing a style text -----------------------------------

  /** A key or value that survives the round trip: no separators, and no
      surrounding whitespace for `strip` to remove. */
  predicate Clean(x: string) {
    ';' !in x && ':' !in x && Strip(x) == x
  }

  function Pieces(pairs: seq<(string, string)>): (r: seq<string>)
    ensures |r| == |pairs|
    ensures forall i :: 0 <= i < |pairs| ==> r[i] == pairs[i].0 + [':'] + pairs[i].1
  {
    if |pairs| == 0 then [] else Pieces(pairs[..|pairs| - 1]) + [pairs[|pairs| - 1].0 + [':'] + pairs[|pairs| - 1].1]
  }

  /** `key1:value1;key2:value2;`, as inline CSS writes it. */
  function Encode(pairs: seq<(string, string)>): string {
    Join(Pieces(pairs) + [""], ';')
  }

  /** The dictionary the pairs describe, later pairs overriding earlier ones. */
  function ToMap(pairs: seq<(string, string)>): map<string, string>
    decreases |pairs|
  {
    if |pairs| == 0 then map[]
    else ToMap(pairs[..|pairs| - 1])[pairs[|pairs| - 1].0 := pairs[|pairs| - 1].1]
  }

  lemma PieceRoundTrip(k: string, v: string)
    requires Clean(k) && Clean(v)
    ensures ParsePiece(k + [':'] + v) == Ok(Some((k, v)))
  {
    var piece := k + [':'] + v;
    assert piece[|k|] == ':';
    StripKeeps(piece, |k|);
    CountAppend(k + [':'], v, ':');
    CountAppend(k, [':'], ':');
    SplitOnceAt(k, ':', v);
  }

  lemma {:induction false} CollectPieces(pairs: seq<(string, string)>)
    requires forall i :: 0 <= i < |pairs| ==> Clean(pairs[i].0) && Clean(pairs[i].1)
    ensures Collect(Pieces(pairs), ParsePiece) == Ok(ToMap(pairs))
    decreases |pairs|
  {
    if |pairs| > 0 {
      var n := |pairs| - 1;
      CollectPieces(pairs[..n]);
      assert Pieces(pairs)[..n] == Pieces(pairs[..n]);
      PieceRoundTrip(pairs[n].0, pairs[n].1);
    }
  }

  /** A trailing piece that assigns nothing leaves the dictionary alone. */
  lemma CollectSkip(pieces: seq<string>, parse: PieceParser, last: string)
    requires parse(last) == Ok(None)
    ensures Collect(pieces + [last], parse) == Collect(pieces, parse)
  {
    assert (pieces + [last])[..|pieces|] == pieces;
  }

  lemma NoSeparator(k: string, v: string)
    requires ';' !in k && ';' !in v
    ensures ';' !in k + [':'] + v
  {
  }

  /** The written text splits back into its pieces and an empty tail. */
  lemma EncodeSplits(pairs: seq<(string, string)>)
    requires forall i :: 0 <= i < |pairs| ==> ';' !in pairs[i].0 && ';' !in pairs[i].1
    ensures Split(Encode(pairs), ';') == Pieces(pairs) + [""]
  {
    PiecesSeparatorFree(pairs);
    SplitJoin(Pieces(pairs) + [""], ';');
  }

  lemma PiecesSeparatorFree(pairs: seq<(string, string)>)
    requires forall i :: 0 <= i < |pairs| ==> ';' !in pairs[i].0 && ';' !in pairs[i].1
    ensures forall i :: 0 <= i < |pairs| + 1 ==> ';' !in (Pieces(pairs) + [""])[i]
  {
    var pieces := Pieces(pairs) + [""];
    forall i | 0 <= i < |pieces| ensures ';' !in pieces[i] {
      if i < |pairs| {
        NoSeparator(pairs[i].0, pairs[i].1);
      }
    }
  }

  /** Parsing the written text of clean pairs gives the dictionary they
      describe. */
  lemma ParseEncode(pairs: seq<(string, string)>)
    requires forall i :: 0 <= i < |pairs| ==> Clean(pairs[i].0) && Clean(pairs[i].1)
    ensures ParseAttrsString(Encode(pairs)) == Ok(ToMap(pairs))
  {
    assert forall i :: 0 <= i < |pairs| ==> ';' !in pairs[i].0 && ';' !in pairs[i].1;
    EncodeSplits(pairs);
    assert Blank("");
    CollectSkip(Pieces(pairs), ParsePiece, "");
    CollectPieces(pairs);
  }

  // ---- parse_attrs_doubles -------------------------------------------------

  /** An attribute value after `parse_attrs_doubles`: the tokenizer's value
      (`None` for a bare attribute), or the parsed `style` dictionary. */
  datatype AttrValue = Plain(value: Option<string>) | Css(style: map<string, string>)

  /** What one `(key, value)` pair turns into. Only `style` is parsed, and
      a bare `style` fails in `None.split` with an `AttributeError`. */
  function Convert(pair: (string, Option<string>)): (r: Result<AttrValue>)
    ensures pair.0 != "style" ==> r == Ok(Plain(pair.1))
    ensures pair.0 == "style" && pair.1.None? ==> r == Err(AttributeError)
    ensures pair.0 == "style" && pair.1.Some? ==>
      (r.Ok? <==> ParseAttrsString(pair.1.value).Ok?)
      && (r.Ok? ==> r.value == Css(ParseAttrsString(pair.1.value).value))
  {
    if pair.0 == "style" then
      match pair.1
      case None => Err(AttributeError)
      case Some(s) =>
        var css :- ParseAttrsString(s);
        Ok(Css(css))
    else Ok(Plain(pair.1))
  }

  /** `parse_attrs_doubles`. */
  function ParseAttrsDoubles(attrs: seq<(string, Option<string>)>): Result<map<string, AttrValue>>
    decreases |attrs|
  {
    if |attrs| == 0 then Ok(map[])
    else
      var m :- ParseAttrsDoubles(attrs[..|attrs| - 1]);
      var v :- Convert(attrs[|attrs| - 1]);
      Ok(m[attrs[|attrs| - 1].0 := v])
  }

  /** The position of the last pair with key `k`. */
  function LastIndex(attrs: seq<(string, Option<string>)>, k: string): (r: nat)
    requires exists i :: 0 <= i < |attrs| && attrs[i].0 == k
    ensures r < |attrs| && attrs[r].0 == k
    ensures forall j :: r < j < |attrs| ==> attrs[j].0 != k
    decreases |attrs|
  {
    var n := |attrs| - 1;
    if attrs[n].0 == k then n
    else
      var i :| 0 <= i < |attrs| && attrs[i].0 == k;
      assert attrs[..n][i] == attrs[i];
      LastIndex(attrs[..n], k)
  }

  /** Every key is kept; each holds the converted value of its last pair;
      the conversion fails exactly when some pair fails to convert. */
  lemma {:induction false} ParseAttrsDoublesKeeps(attrs: seq<(string, Option<string>)>)
    ensures ParseAttrsDoubles(attrs).Ok? <==> forall i :: 0 <= i < |attrs| ==> Convert(attrs[i]).Ok?
    ensures ParseAttrsDoubles(attrs).Ok? ==> var m := ParseAttrsDoubles(attrs).value;
      && (forall k :: k in m <==> exists i :: 0 <= i < |attrs| && attrs[i].0 == k)
      && (forall k :: k in m ==> m[k] == Convert(attrs[LastIndex(attrs, k)]).value)
    decreases |attrs|
  {
    if |attrs| > 0 {
      var n := |attrs| - 1;
      var init := attrs[..n];
      ParseAttrsDoublesKeeps(init);
      assert forall i :: 0 <= i < n ==> init[i] == attrs[i];
      if ParseAttrsDoubles(attrs).Ok? {
        var m := ParseAttrsDoubles(attrs).value;
        forall k | k in m ensures m[k] == Convert(attrs[LastIndex(attrs, k)]).value {
          if attrs[n].0 != k {
            assert LastIndex(attrs, k) == LastIndex(init, k);
          }
        }
      }
    }
  }

  // ---- TimesheetHTMLParser -------------------------------------------------

  /** One entry of `_data`: `["START", tag, attrs]`, `["END", tag]` or
      `["DATA", "", lines]`. */
  datatype Record =
    | StartRecord(tag: string, attrs: map<string, AttrValue>)
    | EndRecord(tag: string)
    | DataRecord(lines: seq<string>)

  /** A callback of the `HTMLParser` tokenizer. */
  datatype Callback =
    | StartTag(tag: string, pairs: seq<(string, Option<string>)>)
    | EndTag(tag: string)
    | Data(text: string)

  /** The parser subclass's own state: the records so far. */
  datatype Recorder = Recorder(data: seq<Record>)

  function HandleStartTag(p: Recorder, tag: string, pairs: seq<(string, Option<string>)>): (r: Result<Recorder>)
    ensures r.Ok? <==> ParseAttrsDoubles(pairs).Ok?
    ensures r.Ok? ==> r.value.data == p.data + [StartRecord(tag, ParseAttrsDoubles(pairs).value)]
  {
    var attrs :- ParseAttrsDoubles(pairs);
    Ok(Recorder(p.data + [StartRecord(tag, attrs)]))
  }

  function HandleEndTag(p: Recorder, tag: string): (r: Recorder)
    ensures |r.data| == |p.data| + 1 && r.data[..|p.data|] == p.data
  {
    Recorder(p.data + [EndRecord(tag)])
  }

  function HandleData(p: Recorder, text: string): (r: Recorder)
    ensures |r.data| == |p.data| + 1 && r.data[..|p.data|] == p.data
    ensures r.data[|p.data|].DataRecord? && (r.data[|p.data|].lines == [] <==> text == "")
  {
    Recorder(p.data + [DataRecord(SplitLines(text))])
  }

  function Dump(p: Recorder): seq<Record> {
    p.data
  }

  /** The record a callback leaves, on its own. */
  function RecordOf(c: Callback): Result<Record> {
    match c
    case StartTag(tag, pairs) =>
      var attrs :- ParseAttrsDoubles(pairs);
      Ok(StartRecord(tag, attrs))
    case EndTag(tag) => Ok(EndRecord(tag))
    case Data(text) => Ok(DataRecord(SplitLines(text)))
  }

  function Handle(p: Recorder, c: Callback): Result<Recorder> {
    match c
    case StartTag(tag, pairs) => HandleStartTag(p, tag, pairs)
    case EndTag(tag) => Ok(HandleEndTag(p, tag))
    case Data(text) => Ok(HandleData(p, text))
  }

  /** The callbacks in order, stopping at the first exception. */
  function Feed(p: Recorder, callbacks: seq<Callback>): Result<Recorder>
    decreases |callbacks|
  {
    if |callbacks| == 0 then Ok(p)
    else
      var p1 :- Feed(p, callbacks[..|callbacks| - 1]);
      Handle(p1, callbacks[|callbacks| - 1])
  }

  /** `parse`: a fresh recorder fed every callback, then dumped. */
  function Parse(callbacks: seq<Callback>): Result<seq<Record>> {
    var p :- Feed(Recorder([]), callbacks);
    Ok(Dump(p))
  }

  /** Feeding appends exactly one record per callback, in callback order,
      and fails exactly when some callback's attributes fail to parse. */
  lemma {:induction false} FeedRecords(p: Recorder, callbacks: seq<Callback>)
    ensures Feed(p, callbacks).Ok? <==> forall i :: 0 <= i < |callbacks| ==> RecordOf(callbacks[i]).Ok?
    ensures Feed(p, callbacks).Ok? ==> var d := Feed(p, callbacks).value.data;
      && |d| == |p.data| + |callbacks|
      && d[..|p.data|] == p.data
      && forall i :: 0 <= i < |callbacks| ==> d[|p.data| + i] == RecordOf(callbacks[i]).value
    decreases |callbacks|
  {
    if |callbacks| > 0 {
      var n := |callbacks| - 1;
      var init := callbacks[..n];
      FeedRecords(p, init);
      assert forall i :: 0 <= i < n ==> init[i] == callbacks[i];
      if Feed(p, callbacks).Ok? {
        var d0 := Feed(p, init).value.data;
        var d := Feed(p, callbacks).value.data;
        assert d == d0 + [RecordOf(callbacks[n]).value];
      }
    }
  }

  /** The dump of a whole parse is the callbacks' records, in order. */
  lemma ParseRecords(callbacks: seq<Callback>)
    ensures Parse(callbacks).Ok? <==> forall i :: 0 <= i < |callbacks| ==> RecordOf(callbacks[i]).Ok?
    ensures Parse(callbacks).Ok? ==>
      && |Parse(callbacks).value| == |callbacks|
      && forall i :: 0 <= i < |callbacks| ==> Parse(callbacks).value[i] == RecordOf(callbacks[i]).value
  {
    FeedRecords(Recorder([]), callbacks);
  }
}
