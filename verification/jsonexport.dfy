/** `exporter/json.py`: the hours of every entry gathered into a nested
    dictionary, key first and date second. Serialising the dictionary as
    JSON text is outside the model. */
module JsonExport {
  import opened Entries

  type Dates = map<Date, real>
  type Projects = map<string, Dates>

  /** `projects[key][date] = hours` for each item in order. */
  function Store(m: Dates, items: seq<(Date, real)>): Dates
    decreases |items|
  {
    if |items| == 0 then m
    else
      var last := items[|items| - 1];
      Store(m, items[..|items| - 1])[last.0 := last.1]
  }

  /** One pass of the inner loop: the key gets a dictionary of its own the
      first time it is seen, even when the entry has no hours. */
  function AddEntry(p: Projects, e: Entry): Projects {
    var k := Key(e);
    var inner := if k in p then p[k] else map[];
    p[k := Store(inner, e.data)]
  }

  function EncodeEntries(es: seq<Entry>): Projects
    decreases |es|
  {
    if |es| == 0 then map[] else AddEntry(EncodeEntries(es[..|es| - 1]), es[|es| - 1])
  }

  /** `encode_dict`. */
  function EncodeDict(ts: seq<Timesheet>): Projects {
    EncodeEntries(AllEntries(ts))
  }

  /** Every dated item filed under `k`, in iteration order. */
  function KeyItems(es: seq<Entry>, k: string): seq<(Date, real)>
    decreases |es|
  {
    if |es| == 0 then []
    else
      var e := es[|es| - 1];
      KeyItems(es[..|es| - 1], k) + (if Key(e) == k then e.data else [])
  }

  /** The dates of some dated items. */
  function DatesOf(items: seq<(Date, real)>): set<Date> {
    set i | 0 <= i < |items| :: items[i].0
  }

  /** Item `i` is the last one with date `d`. */
  predicate LastAt(items: seq<(Date, real)>, i: int, d: Date) {
    0 <= i < |items| && items[i].0 == d && forall j :: i < j < |items| ==> items[j].0 != d
  }

  /** `v` is the hours of the last item with date `d`. */
  ghost predicate LastValue(items: seq<(Date, real)>, d: Date, v: real) {
    exists i :: LastAt(items, i, d) && items[i].1 == v
  }

  lemma DatesOfSnoc(items: seq<(Date, real)>, x: (Date, real))
    ensures DatesOf(items + [x]) == DatesOf(items) + {x.0}
  {
    var all := items + [x];
    forall d | d in DatesOf(all) ensures d in DatesOf(items) + {x.0} {
      var i :| 0 <= i < |all| && all[i].0 == d;
      if i < |items| {
        assert all[i] == items[i];
      }
    }
    forall d | d in DatesOf(items) ensures d in DatesOf(all) {
      var i :| 0 <= i < |items| && items[i].0 == d;
      assert all[i] == items[i];
    }
    assert all[|items|] == x;
  }

  lemma LastValueSnoc(items: seq<(Date, real)>, x: (Date, real), d: Date, v: real)
    requires d != x.0 && LastValue(items, d, v)
    ensures LastValue(items + [x], d, v)
  {
    var i :| LastAt(items, i, d) && items[i].1 == v;
    var all := items + [x];
    assert all[i] == items[i];
    assert LastAt(all, i, d);
  }

  lemma {:induction false} StoreAppend(m: Dates, a: seq<(Date, real)>, b: seq<(Date, real)>)
    ensures Store(m, a + b) == Store(Store(m, a), b)
    decreases |b|
  {
    if |b| == 0 {
      assert a + b == a;
    } else {
      var n := |b| - 1;
      assert (a + b)[..|a| + n] == a + b[..n];
      StoreAppend(m, a, b[..n]);
    }
  }

  /** Storing items keeps what was there, adds their dates, and a date
      stored twice keeps the hours of its last item. */
  lemma {:induction false} StoreLast(m: Dates, items: seq<(Date, real)>)
    ensures Store(m, items).Keys == m.Keys + DatesOf(items)
    ensures forall d :: d in DatesOf(items) ==> LastValue(items, d, Store(m, items)[d])
    ensures forall d :: d in m && d !in DatesOf(items) ==> Store(m, items)[d] == m[d]
    decreases |items|
  {
    if |items| > 0 {
      var n := |items| - 1;
      var init, last := items[..n], items[n];
      StoreLast(m, init);
      var prev := Store(m, init);
      var r := Store(m, items);
      assert r == prev[last.0 := last.1];
      DatesOfSnoc(init, last);
      assert items == init + [last];
      forall d | d in DatesOf(items) ensures LastValue(items, d, r[d]) {
        if d == last.0 {
          assert LastAt(items, n, d) && items[n].1 == r[d];
        } else {
          LastValueSnoc(init, last, d, prev[d]);
        }
      }
    }
  }

  /** `p` files under `k` what storing the items of `es` filed under `k` gives. */
  predicate Agrees(es: seq<Entry>, p: Projects, k: string) {
    if k in p then p[k] == Store(map[], KeyItems(es, k)) else KeyItems(es, k) == []
  }

  lemma AddEntryAgrees(es: seq<Entry>, p: Projects, e: Entry, k: string)
    requires Agrees(es, p, k)
    ensures Agrees(es + [e], AddEntry(p, e), k)
  {
    var items := KeyItems(es, k);
    assert (es + [e])[..|es|] == es;
    assert KeyItems(es + [e], k) == items + (if Key(e) == k then e.data else []);
    if k == Key(e) {
      StoreAppend(map[], items, e.data);
      if k !in p {
        assert items + e.data == e.data;
      }
    } else {
      assert items + [] == items;
    }
  }

  /** The keys are exactly the keys of the entries; each holds what storing
      the items filed under it, in order, gives; and a key no entry has
      files no items. */
  lemma {:induction false} EncodeByKey(es: seq<Entry>)
    ensures EncodeEntries(es).Keys == KeysOf(es)
    ensures forall k :: Agrees(es, EncodeEntries(es), k)
    decreases |es|
  {
    if |es| > 0 {
      var n := |es| - 1;
      var init, e := es[..n], es[n];
      EncodeByKey(init);
      assert EncodeEntries(es) == AddEntry(EncodeEntries(init), e);
      assert es == init + [e];
      KeysOfSnoc(init, e);
      forall k ensures Agrees(es, EncodeEntries(es), k) {
        AddEntryAgrees(init, EncodeEntries(init), e, k);
      }
    }
  }

  /** What `encode_dict` builds: one dictionary per key of any entry, even
      one without hours; under it every date of the items filed under the
      key; and for each date the hours of the last such item, so a later
      entry overwrites an earlier one. */
  lemma EncodeDictMeaning(ts: seq<Timesheet>)
    ensures EncodeDict(ts).Keys == KeysOf(AllEntries(ts))
    ensures forall k :: k in EncodeDict(ts) ==> EncodeDict(ts)[k].Keys == DatesOf(KeyItems(AllEntries(ts), k))
    ensures forall k, d :: k in EncodeDict(ts) && d in EncodeDict(ts)[k] ==>
      LastValue(KeyItems(AllEntries(ts), k), d, EncodeDict(ts)[k][d])
  {
    var es := AllEntries(ts);
    EncodeByKey(es);
    forall k | k in EncodeDict(ts)
      ensures EncodeDict(ts)[k].Keys == DatesOf(KeyItems(es, k))
      ensures forall d :: d in EncodeDict(ts)[k] ==> LastValue(KeyItems(es, k), d, EncodeDict(ts)[k][d])
    {
      assert Agrees(es, EncodeDict(ts), k);
      StoreLast(map[], KeyItems(es, k));
    }
  }
}
