/** The shape in which the exporters and the totals read time entries: a
    project, a time code, a label, and hours by date in the insertion order
    of the entry's dictionary. Timesheets are lists of such entries, and
    every consumer walks them timesheet by timesheet, entry by entry. */
module Entries {

  /** A `datetime` date. */
  datatype Date = Date(year: nat, month: nat, day: nat)

  predicate IsLeap(year: nat) {
    year % 4 == 0 && (year % 100 != 0 || year % 400 == 0)
  }

  function DaysIn(month: nat, year: nat): nat {
    if month == 2 then (if IsLeap(year) then 29 else 28)
    else if month == 4 || month == 6 || month == 9 || month == 11 then 30
    else 31
  }

  /** The dates `datetime` can hold. */
  predicate ValidDate(d: Date) {
    1 <= d.year <= 9999 && 1 <= d.month <= 12 && 1 <= d.day <= DaysIn(d.month, d.year)
  }

  /** Hours are decimals in the source; here they are exact reals. The
      source keeps an entry's hours in a dictionary keyed by date; `data`
      lists its items in insertion order. */
  datatype Entry = Entry(project: string, timeCode: string, labelText: string, data: seq<(Date, real)>)

  type Timesheet = seq<Entry>

  /** The time codes filed under their own name rather than the project's. */
  const LeaveCodes: seq<string> := ["HOL", "OTU", "VAC", "OPL"]

  /** The key an entry's hours are filed under: holidays, vacations, unpaid
      and other paid leave under their time code, everything else under the
      project. */
  function Key(e: Entry): (k: string)
    ensures k == e.timeCode || k == e.project
    ensures k == e.timeCode <==> e.timeCode in {"HOL", "OTU", "VAC", "OPL"} || e.timeCode == e.project
  {
    if e.timeCode in LeaveCodes then e.timeCode else e.project
  }

  /** The keys of some entries. */
  function KeysOf(es: seq<Entry>): set<string> {
    set e | e in es :: Key(e)
  }

  lemma KeysOfSnoc(es: seq<Entry>, e: Entry)
    ensures KeysOf(es + [e]) == KeysOf(es) + {Key(e)}
  {
    var l, r := KeysOf(es + [e]), KeysOf(es) + {Key(e)};
    forall k | k in l ensures k in r {
      var x :| x in es + [e] && Key(x) == k;
    }
    forall k | k in r ensures k in l {
      if k != Key(e) {
        var x :| x in es && Key(x) == k;
        assert x in es + [e];
      } else {
        assert e in es + [e];
      }
    }
  }

  /** Every entry of every timesheet, in the order the nested loops visit them. */
  function AllEntries(ts: seq<Timesheet>): seq<Entry>
    decreases |ts|
  {
    if |ts| == 0 then [] else AllEntries(ts[..|ts| - 1]) + ts[|ts| - 1]
  }

  lemma {:induction false} AllEntriesAppend(a: seq<Timesheet>, b: seq<Timesheet>)
    ensures AllEntries(a + b) == AllEntries(a) + AllEntries(b)
    decreases |b|
  {
    if |b| == 0 {
      assert a + b == a;
    } else {
      var n := |b| - 1;
      assert (a + b)[..|a| + n] == a + b[..n];
      AllEntriesAppend(a, b[..n]);
    }
  }

  /** The sum of the hours of some dated items. */
  function SumHours(items: seq<(Date, real)>): real
    decreases |items|
  {
    if |items| == 0 then 0.0 else SumHours(items[..|items| - 1]) + items[|items| - 1].1
  }

  function EntryHours(e: Entry): real {
    SumHours(e.data)
  }
}
