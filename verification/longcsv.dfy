/** `exporter/long_csv.py`: one `[key, date, hours]` row per dated item of
    every entry, in timesheet, entry and date order. Writing the rows to a
    CSV file is outside the model. */
module LongCsv {
  import opened Wrappers
  import opened Text
  import opened Entries

  /** `handle_date`: `strftime("%m/%d/%Y")`. */
  function HandleDate(d: Date): (r: string)
    ensures |r| == 10 && r[2] == '/' && r[5] == '/'
  {
    Digits(d.month, 2) + "/" + Digits(d.day, 2) + "/" + Digits(d.year, 4)
  }

  /** Reads `MM/DD/YYYY` back. */
  function ParseDate(s: string): Option<Date> {
    if |s| == 10 && s[2] == '/' && s[5] == '/'
       && AllDigits(s[..2]) && AllDigits(s[3..5]) && AllDigits(s[6..])
    then Some(Date(ValueOf(s[6..]), ValueOf(s[..2]), ValueOf(s[3..5])))
    else None
  }

  /** A string of two, two and four digits joined by slashes reads back
      field by field. */
  lemma ParseDateFields(a: string, b: string, c: string)
    requires |a| == 2 && |b| == 2 && |c| == 4
    requires AllDigits(a) && AllDigits(b) && AllDigits(c)
    ensures ParseDate(a + "/" + b + "/" + c) == Some(Date(ValueOf(c), ValueOf(a), ValueOf(b)))
  {
    var s := a + "/" + b + "/" + c;
    assert |s| == 10 && s[2] == '/' && s[5] == '/' by {
    }
    assert s[..2] == a by {
      assert forall i :: 0 <= i < 2 ==> s[i] == a[i];
    }
    assert s[3..5] == b by {
      assert forall i :: 0 <= i < 2 ==> s[3 + i] == b[i];
    }
    assert s[6..] == c by {
      assert forall i :: 0 <= i < 4 ==> s[6 + i] == c[i];
    }
  }

  lemma SmallDigits(n: nat, w: nat)
    requires n < Pow10(w)
    ensures ValueOf(Digits(n, w)) == n
  {
    ValueOfDigits(n, w);
  }

  /** Every date `datetime` can hold is written in full and reads back. */
  lemma ParseHandleDate(d: Date)
    requires ValidDate(d)
    ensures ParseDate(HandleDate(d)) == Some(d)
  {
    var a, b, c := Digits(d.month, 2), Digits(d.day, 2), Digits(d.year, 4);
    ParseDateFields(a, b, c);
    assert Pow10(2) == 100 && Pow10(4) == 10000;
    SmallDigits(d.month, 2);
    SmallDigits(d.day, 2);
    SmallDigits(d.year, 4);
  }

  datatype LongRow = LongRow(key: string, date: string, hours: real)

  /** The rows of one entry, one per dated item. */
  function EntryRows(e: Entry): (r: seq<LongRow>)
    ensures |r| == |e.data|
    ensures forall i :: 0 <= i < |r| ==> r[i] == LongRow(Key(e), HandleDate(e.data[i].0), e.data[i].1)
  {
    seq(|e.data|, i requires 0 <= i < |e.data| => LongRow(Key(e), HandleDate(e.data[i].0), e.data[i].1))
  }

  /** The rows of several entries, in entry order. */
  function Flatten<T>(es: seq<Entry>, rows: Entry -> seq<T>): seq<T>
    decreases |es|
  {
    if |es| == 0 then [] else Flatten(es[..|es| - 1], rows) + rows(es[|es| - 1])
  }

  function EncodeEntries(es: seq<Entry>): seq<LongRow> {
    Flatten(es, EntryRows)
  }

  /** `encode_list`. */
  function EncodeList(ts: seq<Timesheet>): seq<LongRow> {
    EncodeEntries(AllEntries(ts))
  }

  /** The number of dated items, counted from the front. */
  function ItemCount(es: seq<Entry>): nat
    decreases |es|
  {
    if |es| == 0 then 0 else |es[0].data| + ItemCount(es[1..])
  }

  lemma {:induction false} ItemCountAppend(a: seq<Entry>, b: seq<Entry>)
    ensures ItemCount(a + b) == ItemCount(a) + ItemCount(b)
    decreases |a|
  {
    if |a| == 0 {
      assert a + b == b;
    } else {
      assert (a + b)[1..] == a[1..] + b;
      ItemCountAppend(a[1..], b);
    }
  }

  lemma {:induction false} FlattenAppend<T>(a: seq<Entry>, b: seq<Entry>, rows: Entry -> seq<T>)
    ensures Flatten(a + b, rows) == Flatten(a, rows) + Flatten(b, rows)
    decreases |b|
  {
    if |b| == 0 {
      assert a + b == a;
    } else {
      var n := |b| - 1;
      assert (a + b)[..|a| + n] == a + b[..n];
      FlattenAppend(a, b[..n], rows);
    }
  }

  lemma {:induction false} FlattenCount<T>(es: seq<Entry>, rows: Entry -> seq<T>)
    requires forall e :: |rows(e)| == |e.data|
    ensures |Flatten(es, rows)| == ItemCount(es)
    decreases |es|
  {
    if |es| > 0 {
      var n := |es| - 1;
      FlattenCount(es[..n], rows);
      ItemCountAppend(es[..n], [es[n]]);
      assert es[..n] + [es[n]] == es;
    }
  }

  lemma {:induction false} FlattenAt<T>(es: seq<Entry>, rows: Entry -> seq<T>, j: nat, i: nat)
    requires forall e :: |rows(e)| == |e.data|
    requires j < |es| && i < |es[j].data|
    ensures ItemCount(es[..j]) + i < |Flatten(es, rows)|
    ensures Flatten(es, rows)[ItemCount(es[..j]) + i] == rows(es[j])[i]
    decreases |es|
  {
    var n := |es| - 1;
    var init := es[..n];
    assert Flatten(es, rows) == Flatten(init, rows) + rows(es[n]);
    FlattenCount(init, rows);
    if j == n {
      assert es[..j] == init;
    } else {
      assert init[..j] == es[..j] && init[j] == es[j];
      FlattenAt(init, rows, j, i);
    }
  }

  /** Exactly one row per (entry, date) pair. */
  lemma EncodeEntriesCount(es: seq<Entry>)
    ensures |EncodeEntries(es)| == ItemCount(es)
  {
    FlattenCount(es, EntryRows);
  }

  /** Item `i` of entry `j` is the row after every item of the entries
      before `j` and the items before `i`: the key of the entry, the date
      written out, the hours unchanged. */
  lemma EncodeEntriesAt(es: seq<Entry>, j: nat, i: nat)
    requires j < |es| && i < |es[j].data|
    ensures ItemCount(es[..j]) + i < |EncodeEntries(es)|
    ensures EncodeEntries(es)[ItemCount(es[..j]) + i] == LongRow(Key(es[j]), HandleDate(es[j].data[i].0), es[j].data[i].1)
  {
    FlattenAt(es, EntryRows, j, i);
  }

  /** The rows of later timesheets follow those of earlier ones. */
  lemma EncodeListAppend(a: seq<Timesheet>, b: seq<Timesheet>)
    ensures EncodeList(a + b) == EncodeList(a) + EncodeList(b)
  {
    AllEntriesAppend(a, b);
    FlattenAppend(AllEntries(a), AllEntries(b), EntryRows);
  }

  /** `encode_list` writes one row per dated item of every entry. */
  lemma EncodeListCount(ts: seq<Timesheet>)
    ensures |EncodeList(ts)| == ItemCount(AllEntries(ts))
  {
    EncodeEntriesCount(AllEntries(ts));
  }
}
