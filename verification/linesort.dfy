/** The page-level ordering of `TimeSheetHandler.sort_lines`: text boxes
    sorted top to bottom, then left to right, by Python's stable `sorted`. */
module LineSort {

  /** A recorded text box: the first two bbox fields as numbers, and the
      texts appended to it when the box ends. */
  datatype Line = Line(x: real, y: real, texts: seq<string>)

  /** The key `(-float(y), float(x))` of `a` is at most that of `b`, tuples
      being compared lexicographically. */
  predicate KeyLe(a: Line, b: Line) {
    -a.y < -b.y || (-a.y == -b.y && a.x <= b.x)
  }

  predicate SameKey(a: Line, b: Line) {
    a.y == b.y && a.x == b.x
  }

  predicate Sorted(s: seq<Line>) {
    forall i, j :: 0 <= i < j < |s| ==> KeyLe(s[i], s[j])
  }

  /** `e` placed before the first element whose key is not below its own. */
  function Insert(e: Line, s: seq<Line>): (r: seq<Line>)
    ensures |r| == |s| + 1
    ensures multiset(r) == multiset(s) + multiset{e}
  {
    if |s| == 0 || KeyLe(e, s[0]) then [e] + s
    else
      assert s == [s[0]] + s[1..];
      [s[0]] + Insert(e, s[1..])
  }

  /** `sorted(lines, key=lambda x: (-float(x[1]), float(x[0])))`, as an
      insertion sort that keeps equal keys in their original order. */
  function SortLines(s: seq<Line>): (r: seq<Line>)
    ensures |r| == |s|
    ensures multiset(r) == multiset(s)
  {
    if |s| == 0 then []
    else
      assert s == [s[0]] + s[1..];
      Insert(s[0], SortLines(s[1..]))
  }

  lemma SortedTail(s: seq<Line>)
    requires |s| > 0 && Sorted(s)
    ensures Sorted(s[1..])
    ensures forall i :: 0 <= i < |s| - 1 ==> KeyLe(s[0], s[1..][i])
  {
    forall i, j | 0 <= i < j < |s| - 1 ensures KeyLe(s[1..][i], s[1..][j]) {
      assert s[1..][i] == s[i + 1] && s[1..][j] == s[j + 1];
    }
    forall i | 0 <= i < |s| - 1 ensures KeyLe(s[0], s[1..][i]) {
      assert s[1..][i] == s[i + 1];
    }
  }

  /** A key at or below that of `e` and of every element of `s` stays below
      every element of the insertion. */
  lemma {:induction false} InsertLowerBound(b: Line, e: Line, s: seq<Line>)
    requires KeyLe(b, e) && forall i :: 0 <= i < |s| ==> KeyLe(b, s[i])
    ensures forall k :: 0 <= k < |Insert(e, s)| ==> KeyLe(b, Insert(e, s)[k])
    decreases |s|
  {
    if |s| > 0 && !KeyLe(e, s[0]) {
      assert forall i :: 0 <= i < |s| - 1 ==> s[1..][i] == s[i + 1];
      InsertLowerBound(b, e, s[1..]);
      var r := Insert(e, s);
      assert r == [s[0]] + Insert(e, s[1..]);
      forall k | 0 <= k < |r| ensures KeyLe(b, r[k]) {
        if k > 0 {
          assert r[k] == Insert(e, s[1..])[k - 1];
        }
      }
    }
  }

  lemma {:induction false} InsertSorted(e: Line, s: seq<Line>)
    requires Sorted(s)
    ensures Sorted(Insert(e, s))
    decreases |s|
  {
    if |s| > 0 && !KeyLe(e, s[0]) {
      var tail := Insert(e, s[1..]);
      SortedTail(s);
      InsertSorted(e, s[1..]);
      assert KeyLe(s[0], e);
      InsertLowerBound(s[0], e, s[1..]);
      var r := [s[0]] + tail;
      assert Insert(e, s) == r;
      forall i, j | 0 <= i < j < |r| ensures KeyLe(r[i], r[j]) {
        if i > 0 {
          assert r[i] == tail[i - 1] && r[j] == tail[j - 1];
        } else {
          assert r[j] == tail[j - 1];
        }
      }
    }
  }

  /** The result is ordered by the key. */
  lemma {:induction false} SortLinesSorted(s: seq<Line>)
    ensures Sorted(SortLines(s))
    decreases |s|
  {
    if |s| > 0 {
      SortLinesSorted(s[1..]);
      InsertSorted(s[0], SortLines(s[1..]));
    }
  }

  /** The elements of `s` with the key of `k`, in their order in `s`. */
  function WithKey(s: seq<Line>, k: Line): (r: seq<Line>)
    ensures |r| <= |s|
  {
    if |s| == 0 then []
    else (if SameKey(s[0], k) then [s[0]] else []) + WithKey(s[1..], k)
  }

  /** Inserting only passes elements of strictly smaller key, so `e` lands
      in front of every element that shares its key. */
  lemma {:induction false} InsertWithKey(e: Line, s: seq<Line>, k: Line)
    ensures WithKey(Insert(e, s), k) ==
      (if SameKey(e, k) then [e] + WithKey(s, k) else WithKey(s, k))
    decreases |s|
  {
    if |s| == 0 || KeyLe(e, s[0]) {
      assert Insert(e, s) == [e] + s;
      assert ([e] + s)[1..] == s;
    } else {
      InsertWithKey(e, s[1..], k);
      var r := [s[0]] + Insert(e, s[1..]);
      assert r[1..] == Insert(e, s[1..]);
      assert SameKey(e, k) ==> !SameKey(s[0], k);
    }
  }

  /** Stability: for every key, the elements with that key come out in the
      order they went in. */
  lemma {:induction false} SortLinesStable(s: seq<Line>, k: Line)
    ensures WithKey(SortLines(s), k) == WithKey(s, k)
    decreases |s|
  {
    if |s| > 0 {
      SortLinesStable(s[1..], k);
      InsertWithKey(s[0], SortLines(s[1..]), k);
    }
  }
}
