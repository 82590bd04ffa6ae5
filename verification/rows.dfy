/** Semi-structured rows and the list primitives of `parser/timesheet.py`.

    A row is what the document's text boxes become once laid out: its
    first cell is the box's text, the remaining cells are positions or
    other values carried along. */
module Rows {
  import opened Wrappers

  datatype Cell = Int(n: int) | Text(s: string)

  /** `row[0]` is `text`; `row[1:]` is `cells`. */
  datatype Row = Row(text: string, cells: seq<Cell>)

  /** The heading of the summary that follows the time entries; the XML
      handler stops recording at it and the timesheet is cut before it. */
  const FooterMarker := "Hours Distribution by Time Code"

  /** What a validated field may hold: one literal, or any of a tuple of them. */
  datatype Allowed = Exactly(literal: string) | OneOf(options: seq<string>)

  /** `value == should_be`, or `value in should_be` for a tuple. */
  predicate Admits(a: Allowed, value: string) {
    match a
    case Exactly(s) => value == s
    case OneOf(options) => value in options
  }

  /** `data[i][0]`, raising `IndexError` past the end. */
  function TextAt(data: seq<Row>, i: nat): (r: Result<string>)
    ensures r.Ok? <==> i < |data|
    ensures r.Ok? ==> r.value == data[i].text
  {
    if i < |data| then Ok(data[i].text) else Err(IndexError)
  }

  /** `data[i][0] == s`, raising `IndexError` past the end. */
  function TextIs(data: seq<Row>, i: nat, s: string): (r: Result<bool>)
    ensures r.Ok? <==> i < |data|
    ensures r.Ok? ==> (r.value <==> data[i].text == s)
  {
    var t :- TextAt(data, i);
    Ok(t == s)
  }

  function Min(a: nat, b: nat): nat {
    if a <= b then a else b
  }

  /** Python's `s[lo:hi]` for non-negative bounds: both are clamped to the
      length, and a reversed range is empty. */
  function Slice<T>(s: seq<T>, lo: nat, hi: nat): (r: seq<T>)
    ensures lo <= hi <= |s| ==> r == s[lo..hi]
  {
    var l := Min(lo, |s|);
    var h := Min(hi, |s|);
    if l <= h then s[l..h] else []
  }

  /** `move_item` as written: four slices of the list glued back together,
      with Python's slice clamping for positions past the end. */
  function SliceMove<T>(data: seq<T>, index: nat, destination: nat): (r: seq<T>)
    ensures |r| == |data|
  {
    if index < destination then
      Slice(data, 0, index) + Slice(data, index + 1, destination + 1)
      + Slice(data, index, index + 1) + Slice(data, destination + 1, |data|)
    else if index > destination then
      Slice(data, 0, destination) + Slice(data, index, index + 1)
      + Slice(data, destination, index) + Slice(data, index + 1, |data|)
    else
      data
  }

  /** Deletes position `k`: the list with that one item taken out. */
  function Without<T>(s: seq<T>, k: nat): (r: seq<T>)
    requires k < |s|
    ensures |r| == |s| - 1
    ensures multiset(r) + multiset{s[k]} == multiset(s)
  {
    assert s == s[..k] + [s[k]] + s[k + 1..];
    s[..k] + s[k + 1..]
  }

  /** Removing row `i`, then the row that was at `i + 3`. */
  lemma WithoutSkipping<T>(data: seq<T>, i: nat)
    requires i + 3 < |data|
    ensures Without(Without(data, i), i + 2) == data[..i] + data[i + 1..i + 3] + data[i + 4..]
  {
    var d1 := Without(data, i);
    assert d1 == data[..i] + data[i + 1..];
    assert d1[..i + 2] == data[..i] + data[i + 1..i + 3];
    assert d1[i + 3..] == data[i + 4..];
  }

  lemma MoveForward<T>(data: seq<T>, index: nat, destination: nat)
    requires index < destination < |data|
    ensures SliceMove(data, index, destination)
      == data[..index] + data[index + 1..destination + 1] + [data[index]] + data[destination + 1..]
  {
    assert Slice(data, 0, index) == data[..index];
    assert Slice(data, index + 1, destination + 1) == data[index + 1..destination + 1];
    assert Slice(data, index, index + 1) == [data[index]];
    assert Slice(data, destination + 1, |data|) == data[destination + 1..];
  }

  lemma MoveBackward<T>(data: seq<T>, index: nat, destination: nat)
    requires destination < index < |data|
    ensures SliceMove(data, index, destination)
      == data[..destination] + [data[index]] + data[destination..index] + data[index + 1..]
  {
    assert Slice(data, 0, destination) == data[..destination];
    assert Slice(data, index, index + 1) == [data[index]];
    assert Slice(data, destination, index) == data[destination..index];
    assert Slice(data, index + 1, |data|) == data[index + 1..];
  }

  /** The shape of a forward move, taken apart position by position. */
  lemma ForwardShape<T>(data: seq<T>, index: nat, destination: nat, r: seq<T>, p: nat)
    requires index < destination < |data| && p < |data|
    requires r == data[..index] + data[index + 1..destination + 1] + [data[index]] + data[destination + 1..]
    ensures |r| == |data|
    ensures r[p] == if p < index || destination < p then data[p]
      else if p == destination then data[index]
      else data[p + 1]
  {
    var a, b, c := data[..index], data[index + 1..destination + 1], data[destination + 1..];
    assert |a| == index && |b| == destination - index;
    if p < index {
      assert r[p] == a[p];
    } else if p < destination {
      assert r[p] == b[p - index];
    } else if destination < p {
      assert r[p] == c[p - destination - 1];
    }
  }

  /** The shape of a backward move, taken apart position by position. */
  lemma BackwardShape<T>(data: seq<T>, index: nat, destination: nat, r: seq<T>, p: nat)
    requires destination < index < |data| && p < |data|
    requires r == data[..destination] + [data[index]] + data[destination..index] + data[index + 1..]
    ensures |r| == |data|
    ensures r[p] == if p < destination || index < p then data[p]
      else if p == destination then data[index]
      else data[p - 1]
  {
    var a, b, c := data[..destination], data[destination..index], data[index + 1..];
    assert |a| == destination && |b| == index - destination;
    if p < destination {
      assert r[p] == a[p];
    } else if p == destination {
      assert r[p] == data[index];
    } else if p <= index {
      assert r[p] == b[p - destination - 1];
    } else {
      assert r[p] == c[p - index - 1];
    }
  }

  /** Taking the moved item back out of a forward move's result. */
  lemma ForwardWithout<T>(data: seq<T>, index: nat, destination: nat, r: seq<T>)
    requires index < destination < |data|
    requires r == data[..index] + data[index + 1..destination + 1] + [data[index]] + data[destination + 1..]
    ensures r[destination] == data[index]
    ensures Without(r, destination) == Without(data, index)
  {
    var a, b, c := data[..index], data[index + 1..destination + 1], data[destination + 1..];
    assert |a| == index && |b| == destination - index;
    assert r[destination] == data[index];
    assert r[..destination] == a + b;
    assert r[destination + 1..] == c;
    assert data[index + 1..] == b + c;
  }

  /** Taking the moved item back out of a backward move's result. */
  lemma BackwardWithout<T>(data: seq<T>, index: nat, destination: nat, r: seq<T>)
    requires destination < index < |data|
    requires r == data[..destination] + [data[index]] + data[destination..index] + data[index + 1..]
    ensures r[destination] == data[index]
    ensures Without(r, destination) == Without(data, index)
  {
    var a, b, c := data[..destination], data[destination..index], data[index + 1..];
    assert |a| == destination;
    assert r[destination] == data[index];
    assert r[..destination] == a;
    assert r[destination + 1..] == b + c;
    assert Without(r, destination) == a + (b + c);
    assert data[..index] == a + b;
    assert Without(data, index) == (a + b) + c;
  }

  lemma SliceForwardPlaces<T>(data: seq<T>, index: nat, destination: nat)
    requires index < destination < |data|
    ensures SliceMove(data, index, destination)[destination] == data[index]
    ensures Without(SliceMove(data, index, destination), destination) == Without(data, index)
  {
    MoveForward(data, index, destination);
    ForwardWithout(data, index, destination, SliceMove(data, index, destination));
  }

  lemma SliceBackwardPlaces<T>(data: seq<T>, index: nat, destination: nat)
    requires destination < index < |data|
    ensures SliceMove(data, index, destination)[destination] == data[index]
    ensures Without(SliceMove(data, index, destination), destination) == Without(data, index)
  {
    MoveBackward(data, index, destination);
    BackwardWithout(data, index, destination, SliceMove(data, index, destination));
  }

  /** The slices put the moved item at `destination` and keep the others
      in their relative order. */
  lemma SlicePlaces<T>(data: seq<T>, index: nat, destination: nat)
    requires index < |data| && destination < |data|
    ensures |SliceMove(data, index, destination)| == |data|
    ensures SliceMove(data, index, destination)[destination] == data[index]
    ensures Without(SliceMove(data, index, destination), destination) == Without(data, index)
    ensures index == destination ==> SliceMove(data, index, destination) == data
  {
    if index < destination {
      SliceForwardPlaces(data, index, destination);
    } else if index > destination {
      SliceBackwardPlaces(data, index, destination);
    }
  }

  /** A forward move through the slices, position by position. */
  lemma SliceForwardAt<T>(data: seq<T>, index: nat, destination: nat, p: nat)
    requires index < destination < |data| && p < |data|
    ensures SliceMove(data, index, destination)[p] ==
      if p < index || destination < p then data[p]
      else if p == destination then data[index]
      else data[p + 1]
  {
    MoveForward(data, index, destination);
    ForwardShape(data, index, destination, SliceMove(data, index, destination), p);
  }

  /** A backward move through the slices, position by position. */
  lemma SliceBackwardAt<T>(data: seq<T>, index: nat, destination: nat, p: nat)
    requires destination < index < |data| && p < |data|
    ensures SliceMove(data, index, destination)[p] ==
      if p < destination || index < p then data[p]
      else if p == destination then data[index]
      else data[p - 1]
  {
    MoveBackward(data, index, destination);
    BackwardShape(data, index, destination, SliceMove(data, index, destination), p);
  }

  /** The slices leave the list alone when the item does not exist. */
  lemma SliceMissing<T>(data: seq<T>, index: nat, destination: nat)
    requires index >= |data|
    ensures SliceMove(data, index, destination) == data
  {
    var n := |data|;
    assert Slice(data, index, index + 1) == [];
    if index < destination {
      assert Slice(data, index + 1, destination + 1) == [];
      assert Slice(data, destination + 1, n) == [];
      assert Slice(data, 0, index) == data;
    } else if index > destination {
      assert Slice(data, index + 1, n) == [];
      assert Slice(data, 0, destination) + Slice(data, destination, index) == data by {
        if destination < n {
          assert Slice(data, 0, destination) == data[..destination];
          assert Slice(data, destination, index) == data[destination..];
          assert data == data[..destination] + data[destination..];
        } else {
          assert Slice(data, 0, destination) == data;
          assert Slice(data, destination, index) == [];
        }
      }
    }
  }

  /** For the slices, a destination past the end means the last position. */
  lemma SliceClamps<T>(data: seq<T>, index: nat, destination: nat)
    requires index < |data| <= destination
    ensures SliceMove(data, index, destination) == SliceMove(data, index, |data| - 1)
  {
    var n := |data|;
    assert Slice(data, 0, index) == data[..index];
    assert Slice(data, index + 1, destination + 1) == data[index + 1..];
    assert Slice(data, index, index + 1) == [data[index]];
    assert Slice(data, destination + 1, n) == [];
    if index < n - 1 {
      assert Slice(data, index + 1, n) == data[index + 1..];
      assert Slice(data, n, n) == [];
    } else {
      assert data[index + 1..] == [];
      assert data == data[..index] + [data[index]];
    }
  }

  /** What moving an in-range item means, position by position: the item
      lands on `destination`, the items it passes over shift by one toward
      the place it left, and every other item stays put. */
  function Moved<T>(data: seq<T>, index: nat, destination: nat): (r: seq<T>)
    requires index < |data| && destination < |data|
    ensures |r| == |data|
  {
    seq(|data|, p requires 0 <= p < |data| =>
      if p == destination then data[index]
      else if index < destination && index <= p < destination then data[p + 1]
      else if destination < index && destination < p <= index then data[p - 1]
      else data[p])
  }

  /** `move_item`: the item at `index` moves to `destination`, a destination
      past the end meaning the last position; a missing item moves nothing.
      `MoveItemSlices` shows this is what the source's slices compute. */
  function MoveItem<T>(data: seq<T>, index: nat, destination: nat): (r: seq<T>)
    ensures |r| == |data|
  {
    if index < |data| then Moved(data, index, Min(destination, |data| - 1)) else data
  }

  lemma MovedForwardAt<T>(data: seq<T>, index: nat, destination: nat, p: nat)
    requires index < destination < |data| && p < |data|
    ensures Moved(data, index, destination)[p] ==
      if p < index || destination < p then data[p]
      else if p == destination then data[index]
      else data[p + 1]
  {
  }

  lemma MovedBackwardAt<T>(data: seq<T>, index: nat, destination: nat, p: nat)
    requires destination < index < |data| && p < |data|
    ensures Moved(data, index, destination)[p] ==
      if p < destination || index < p then data[p]
      else if p == destination then data[index]
      else data[p - 1]
  {
  }

  lemma SliceForwardIsMoved<T>(data: seq<T>, index: nat, destination: nat)
    requires index < destination < |data|
    ensures SliceMove(data, index, destination) == Moved(data, index, destination)
  {
    var r, m := SliceMove(data, index, destination), Moved(data, index, destination);
    forall p | 0 <= p < |data| ensures r[p] == m[p] {
      SliceForwardAt(data, index, destination, p);
      MovedForwardAt(data, index, destination, p);
    }
  }

  lemma SliceBackwardIsMoved<T>(data: seq<T>, index: nat, destination: nat)
    requires destination < index < |data|
    ensures SliceMove(data, index, destination) == Moved(data, index, destination)
  {
    var r, m := SliceMove(data, index, destination), Moved(data, index, destination);
    forall p | 0 <= p < |data| ensures r[p] == m[p] {
      SliceBackwardAt(data, index, destination, p);
      MovedBackwardAt(data, index, destination, p);
    }
  }

  lemma SliceMoveIsMoved<T>(data: seq<T>, index: nat, destination: nat)
    requires index < |data| && destination < |data|
    ensures SliceMove(data, index, destination) == Moved(data, index, destination)
  {
    if index < destination {
      SliceForwardIsMoved(data, index, destination);
    } else if destination < index {
      SliceBackwardIsMoved(data, index, destination);
    } else {
      SlicePlaces(data, index, destination);
      var m := Moved(data, index, destination);
      assert forall p :: 0 <= p < |data| ==> m[p] == data[p];
    }
  }

  /** The position-wise reading and the source's four slices agree on every
      input, clamped and missing positions included. */
  lemma MoveItemSlices<T>(data: seq<T>, index: nat, destination: nat)
    ensures MoveItem(data, index, destination) == SliceMove(data, index, destination)
  {
    if index >= |data| {
      SliceMissing(data, index, destination);
    } else {
      var d := Min(destination, |data| - 1);
      if destination >= |data| {
        SliceClamps(data, index, destination);
      }
      SliceMoveIsMoved(data, index, d);
    }
  }


  /** Where a forward `move_item` takes each position's content from: the
      items after `index` up to `destination` shift down by one. */
  lemma MoveForwardAt<T>(data: seq<T>, index: nat, destination: nat, p: nat)
    requires index < destination < |data| && p < |data|
    ensures MoveItem(data, index, destination)[p] ==
      if p < index || destination < p then data[p]
      else if p == destination then data[index]
      else data[p + 1]
  {
  }

  /** Where a backward `move_item` takes each position's content from: the
      items from `destination` up to `index` shift up by one. */
  lemma MoveBackwardAt<T>(data: seq<T>, index: nat, destination: nat, p: nat)
    requires destination < index < |data| && p < |data|
    ensures MoveItem(data, index, destination)[p] ==
      if p < destination || index < p then data[p]
      else if p == destination then data[index]
      else data[p - 1]
  {
  }

  /** Within the list, `move_item` puts the moved item at `destination` and
      leaves every other item in its relative order: taking the moved item
      out of the result and out of the input leaves the same list. Moving an
      item to where it already is changes nothing. */
  lemma MoveItemPlaces<T>(data: seq<T>, index: nat, destination: nat)
    requires index < |data| && destination < |data|
    ensures MoveItem(data, index, destination)[destination] == data[index]
    ensures Without(MoveItem(data, index, destination), destination) == Without(data, index)
    ensures index == destination ==> MoveItem(data, index, destination) == data
  {
    MoveItemSlices(data, index, destination);
    SlicePlaces(data, index, destination);
  }

  /** `move_item` only permutes: the same items, as many times each. */
  lemma MoveItemPermutes<T>(data: seq<T>, index: nat, destination: nat)
    ensures multiset(MoveItem(data, index, destination)) == multiset(data)
  {
    if index < |data| {
      var d := Min(destination, |data| - 1);
      var r := MoveItem(data, index, d);
      assert MoveItem(data, index, destination) == r;
      MoveItemPlaces(data, index, d);
      assert multiset(Without(r, d)) + multiset{r[d]} == multiset(r);
    }
  }

  /** `remove_item`: `del data[index]`, raising `IndexError` past the end. */
  function RemoveItem<T>(data: seq<T>, index: nat): (r: Result<seq<T>>)
    ensures r.Ok? <==> index < |data|
    ensures r.Ok? ==> |r.value| == |data| - 1
    ensures r.Ok? ==> r.value[..index] == data[..index]
    ensures r.Ok? ==> forall i :: index <= i < |r.value| ==> r.value[i] == data[i + 1]
  {
    if index < |data| then Ok(data[..index] + data[index + 1..]) else Err(IndexError)
  }
}
