/** `analysis/totals.py`: hours summed per key, and the hours spent on one
    project. The source prints both results; here they are returned. */
module Totals {
  import opened Wrappers
  import opened Entries

  /** The row `totals` keeps for a key: the label it is shown under and the
      hours gathered so far. */
  datatype Total = Total(name: string, hours: real)

  /** `projects[key]["hours"] += hours` for each value in order. */
  function AddHours(h: real, items: seq<(Date, real)>): real
    decreases |items|
  {
    if |items| == 0 then h else AddHours(h, items[..|items| - 1]) + items[|items| - 1].1
  }

  /** One pass of the inner loop: a key seen for the first time is named
      after the entry's label and starts from zero hours. */
  function AddEntry(p: map<string, Total>, e: Entry): map<string, Total> {
    var k := Key(e);
    var t := if k in p then p[k] else Total(e.labelText, 0.0);
    p[k := t.(hours := AddHours(t.hours, e.data))]
  }

  function TotalsOf(es: seq<Entry>): map<string, Total>
    decreases |es|
  {
    if |es| == 0 then map[] else AddEntry(TotalsOf(es[..|es| - 1]), es[|es| - 1])
  }

  /** `totals`, without the printing. */
  function TotalsFor(ts: seq<Timesheet>): map<string, Total> {
    TotalsOf(AllEntries(ts))
  }

  /** The label of the first entry with key `k`. */
  function FirstLabel(es: seq<Entry>, k: string): Option<string>
    decreases |es|
  {
    if |es| == 0 then None
    else if Key(es[0]) == k then Some(es[0].labelText)
    else FirstLabel(es[1..], k)
  }

  /** The hours of every entry with key `k`, summed from the front. */
  function KeyHours(es: seq<Entry>, k: string): real
    decreases |es|
  {
    if |es| == 0 then 0.0
    else (if Key(es[0]) == k then EntryHours(es[0]) else 0.0) + KeyHours(es[1..], k)
  }

  lemma {:induction false} AddHoursSum(h: real, items: seq<(Date, real)>)
    ensures AddHours(h, items) == h + SumHours(items)
    decreases |items|
  {
    if |items| > 0 {
      AddHoursSum(h, items[..|items| - 1]);
    }
  }

  lemma {:induction false} FirstLabelSnoc(es: seq<Entry>, e: Entry, k: string)
    ensures FirstLabel(es + [e], k) ==
      if FirstLabel(es, k).Some? then FirstLabel(es, k)
      else if Key(e) == k then Some(e.labelText)
      else None
    decreases |es|
  {
    if |es| == 0 {
      assert (es + [e])[1..] == [];
    } else {
      assert (es + [e])[1..] == es[1..] + [e];
      FirstLabelSnoc(es[1..], e, k);
    }
  }

  lemma {:induction false} KeyHoursSnoc(es: seq<Entry>, e: Entry, k: string)
    ensures KeyHours(es + [e], k) == KeyHours(es, k) + (if Key(e) == k then EntryHours(e) else 0.0)
    decreases |es|
  {
    if |es| == 0 {
      assert (es + [e])[1..] == [];
    } else {
      assert (es + [e])[1..] == es[1..] + [e];
      KeyHoursSnoc(es[1..], e, k);
    }
  }

  /** `p` agrees with the reference definitions about key `k` for entries `es`. */
  predicate Agrees(es: seq<Entry>, p: map<string, Total>, k: string) {
    if k in p then FirstLabel(es, k) == Some(p[k].name) && p[k].hours == KeyHours(es, k)
    else FirstLabel(es, k) == None && KeyHours(es, k) == 0.0
  }

  lemma AddEntryAgrees(es: seq<Entry>, p: map<string, Total>, e: Entry, k: string)
    requires Agrees(es, p, k)
    ensures Agrees(es + [e], AddEntry(p, e), k)
  {
    FirstLabelSnoc(es, e, k);
    KeyHoursSnoc(es, e, k);
    var t := if Key(e) in p then p[Key(e)] else Total(e.labelText, 0.0);
    AddHoursSum(t.hours, e.data);
  }

  lemma {:induction false} TotalsOfAgrees(es: seq<Entry>)
    ensures TotalsOf(es).Keys == KeysOf(es)
    ensures forall k :: Agrees(es, TotalsOf(es), k)
    decreases |es|
  {
    if |es| > 0 {
      var n := |es| - 1;
      var init, e := es[..n], es[n];
      TotalsOfAgrees(init);
      assert TotalsOf(es) == AddEntry(TotalsOf(init), e);
      assert es == init + [e];
      KeysOfSnoc(init, e);
      forall k ensures Agrees(es, TotalsOf(es), k) {
        AddEntryAgrees(init, TotalsOf(init), e, k);
      }
    }
  }

  /** What `totals` gathers: a row for every key of any entry, named after
      the label of the first entry with that key (later entries never rename
      it), holding the hours of every entry with that key. */
  lemma TotalsMeaning(ts: seq<Timesheet>)
    ensures TotalsFor(ts).Keys == KeysOf(AllEntries(ts))
    ensures forall k :: k in TotalsFor(ts) ==>
      && FirstLabel(AllEntries(ts), k) == Some(TotalsFor(ts)[k].name)
      && TotalsFor(ts)[k].hours == KeyHours(AllEntries(ts), k)
  {
    TotalsOfAgrees(AllEntries(ts));
    forall k | k in TotalsFor(ts)
      ensures FirstLabel(AllEntries(ts), k) == Some(TotalsFor(ts)[k].name)
      ensures TotalsFor(ts)[k].hours == KeyHours(AllEntries(ts), k)
    {
      assert Agrees(AllEntries(ts), TotalsFor(ts), k);
    }
  }

  /** The project `total_ocps2020` counts. */
  const Ocps2020: string := "20032.001.20.005"

  /** What one timesheet contributes: the hours of its first entry on the
      project, or nothing. */
  function SheetOcps(t: Timesheet): real
    decreases |t|
  {
    if |t| == 0 then 0.0
    else if t[0].project == Ocps2020 then EntryHours(t[0])
    else SheetOcps(t[1..])
  }

  function SumOcps(ts: seq<Timesheet>): real
    decreases |ts|
  {
    if |ts| == 0 then 0.0 else SumOcps(ts[..|ts| - 1]) + SheetOcps(ts[|ts| - 1])
  }

  /** `total_ocps2020`, without the printing: per timesheet, the hours of the
      first entry on the project, summed. */
  method TotalOcps2020(ts: seq<Timesheet>) returns (total: real)
    ensures total == SumOcps(ts)
  {
    total := 0.0;
    var i := 0;
    while i < |ts|
      invariant 0 <= i <= |ts|
      invariant total == SumOcps(ts[..i])
    {
      var t := ts[i];
      var j := 0;
      while j < |t|
        invariant 0 <= j <= |t|
        invariant SheetOcps(t[j..]) == SheetOcps(t)
        invariant total == SumOcps(ts[..i])
      {
        if t[j].project == Ocps2020 {
          var items := t[j].data;
          var k := 0;
          var before := total;
          while k < |items|
            invariant 0 <= k <= |items|
            invariant total == before + SumHours(items[..k])
          {
            total := total + items[k].1;
            k := k + 1;
            assert items[..k][..k - 1] == items[..k - 1];
          }
          assert items[..k] == items;
          break;
        }
        assert t[j..][1..] == t[j + 1..];
        j := j + 1;
      }
      assert ts[..i + 1][..i] == ts[..i];
      i := i + 1;
    }
    assert ts[..i] == ts;
  }

  /** A timesheet with no entry on the project contributes nothing. */
  lemma {:induction false} SheetOcpsAbsent(t: Timesheet)
    requires forall j :: 0 <= j < |t| ==> t[j].project != Ocps2020
    ensures SheetOcps(t) == 0.0
    decreases |t|
  {
    if |t| > 0 {
      assert forall j :: 0 <= j < |t[1..]| ==> t[1..][j] == t[j + 1];
      SheetOcpsAbsent(t[1..]);
    }
  }

  /** Only the first entry on the project counts: a later one on the same
      project never changes the total. */
  lemma {:induction false} SheetOcpsFirst(t: Timesheet, j: nat)
    requires j < |t| && t[j].project == Ocps2020
    requires forall i :: 0 <= i < j ==> t[i].project != Ocps2020
    ensures SheetOcps(t) == EntryHours(t[j])
    decreases j
  {
    if j > 0 {
      assert forall i :: 0 <= i < j - 1 ==> t[1..][i] == t[i + 1];
      SheetOcpsFirst(t[1..], j - 1);
    }
  }

  /** With no entry on the project anywhere, the total is zero. */
  lemma {:induction false} SumOcpsAbsent(ts: seq<Timesheet>)
    requires forall i, j :: 0 <= i < |ts| && 0 <= j < |ts[i]| ==> ts[i][j].project != Ocps2020
    ensures SumOcps(ts) == 0.0
    decreases |ts|
  {
    if |ts| > 0 {
      var n := |ts| - 1;
      assert forall i :: 0 <= i < n ==> ts[..n][i] == ts[i];
      SumOcpsAbsent(ts[..n]);
      SheetOcpsAbsent(ts[n]);
    }
  }
}
