/**
 * The visualizer's arrangement store: the ordered sticker list (z-order is
 * the list index, the last sticker is drawn on top) next to a position map
 * keyed by sticker id, the list operations the visualizer exposes (add,
 * remove, move up, move down, position change), the rendered z-index and the
 * total lid coverage.
 */
module Arrangement {
  import opened Wrappers
  import opened Geometry
  import Lid

  /** A sticker as the visualizer holds it: id, image URL and physical size in inches. */
  datatype Sticker = Sticker(id: string, productImage: string, size: Size)

  /** The visualizer's two pieces of state: the sticker list and the id-keyed position map. */
  datatype Store = Store(stickers: seq<Sticker>, positions: map<string, Position>)

  /** No two stickers of the list share an id. */
  predicate UniqueIds(s: seq<Sticker>) {
    forall i, j :: 0 <= i < j < |s| ==> s[i].id != s[j].id
  }

  predicate HasId(s: seq<Sticker>, id: string) {
    exists i :: 0 <= i < |s| && s[i].id == id
  }

  /** JavaScript's `findIndex`: the first index holding `id`, or -1 when there is none. */
  function FindIndex(s: seq<Sticker>, id: string): (r: int)
    ensures -1 <= r < |s|
    ensures r == -1 <==> !HasId(s, id)
    ensures 0 <= r ==> s[r].id == id && forall j :: 0 <= j < r ==> s[j].id != id
  {
    if |s| == 0 then -1
    else if s[0].id == id then 0
    else
      var k := FindIndex(s[1..], id);
      assert HasId(s[1..], id) ==> HasId(s, id) by {
        if HasId(s[1..], id) {
          var i :| 0 <= i < |s[1..]| && s[1..][i].id == id;
          assert s[i + 1].id == id;
        }
      }
      assert HasId(s, id) ==> HasId(s[1..], id) by {
        if HasId(s, id) {
          var i :| 0 <= i < |s| && s[i].id == id;
          assert i != 0 && s[1..][i - 1].id == id;
        }
      }
      if k == -1 then -1 else k + 1
  }

  lemma FindIndexUnique(s: seq<Sticker>, i: int)
    requires UniqueIds(s) && 0 <= i < |s|
    ensures FindIndex(s, s[i].id) == i
  {
  }

  // ---------------------------------------------------------------------------
  // Add and remove

  /** Appends a sticker on top of the z-order; the position map is untouched. */
  function Add(st: Store, sticker: Sticker): (r: Store)
    ensures |r.stickers| == |st.stickers| + 1
    ensures r.stickers[..|st.stickers|] == st.stickers
    ensures r.stickers[|st.stickers|] == sticker
    ensures r.positions == st.positions
  {
    Store(st.stickers + [sticker], st.positions)
  }

  /** Keeps the stickers whose id differs from `id`, in their original order. */
  function Without(s: seq<Sticker>, id: string): (r: seq<Sticker>)
    ensures |r| <= |s|
    ensures forall x :: x in r <==> x in s && x.id != id
    ensures !HasId(r, id)
  {
    if |s| == 0 then []
    else if s[0].id == id then Without(s[1..], id)
    else
      var t := Without(s[1..], id);
      assert forall x :: x in s <==> x == s[0] || x in s[1..];
      [s[0]] + t
  }

  /** Removes every sticker carrying `id` and forgets its position. */
  function Remove(st: Store, id: string): (r: Store)
    ensures forall x :: x in r.stickers <==> x in st.stickers && x.id != id
    ensures r.positions.Keys == st.positions.Keys - {id}
    ensures forall k :: k in r.positions ==> r.positions[k] == st.positions[k]
  {
    Store(Without(st.stickers, id), st.positions - {id})
  }

  /** Removal keeps relative order: it distributes over concatenation. */
  lemma {:induction false} WithoutAppend(a: seq<Sticker>, b: seq<Sticker>, id: string)
    ensures Without(a + b, id) == Without(a, id) + Without(b, id)
    decreases |a|
  {
    if |a| == 0 {
      assert a + b == b;
    } else {
      assert (a + b)[0] == a[0];
      assert (a + b)[1..] == a[1..] + b;
      WithoutAppend(a[1..], b, id);
    }
  }

  /** Removing an id that is not on the list leaves the list as it is. */
  lemma {:induction false} WithoutAbsent(s: seq<Sticker>, id: string)
    requires !HasId(s, id)
    ensures Without(s, id) == s
    decreases |s|
  {
    if |s| > 0 {
      assert s[0].id != id;
      NoIdInSlice(s, id, 1, |s|);
      WithoutAbsent(s[1..], id);
      assert s == [s[0]] + s[1..];
    }
  }

  /** A slice of a list without `id` is without `id`. */
  lemma NoIdInSlice(s: seq<Sticker>, id: string, lo: int, hi: int)
    requires 0 <= lo <= hi <= |s|
    requires forall k :: lo <= k < hi ==> s[k].id != id
    ensures !HasId(s[lo..hi], id)
  {
    forall k | 0 <= k < hi - lo
      ensures s[lo..hi][k].id != id
    {
      assert s[lo..hi][k] == s[lo + k];
    }
  }

  lemma WithoutSingle(x: Sticker)
    ensures Without([x], x.id) == []
  {
    assert [x][1..] == [];
  }

  /** With unique ids, removing a present sticker drops exactly that one element. */
  lemma WithoutPresent(s: seq<Sticker>, i: int)
    requires UniqueIds(s) && 0 <= i < |s|
    ensures Without(s, s[i].id) == s[..i] + s[i + 1..]
    ensures |Without(s, s[i].id)| == |s| - 1
  {
    var id := s[i].id;
    var pre, post := s[..i], s[i + 1..];
    assert s == pre + ([s[i]] + post);
    WithoutAppend(pre, [s[i]] + post, id);
    WithoutAppend([s[i]], post, id);
    WithoutSingle(s[i]);
    NoIdInSlice(s, id, 0, i);
    NoIdInSlice(s, id, i + 1, |s|);
    WithoutAbsent(pre, id);
    WithoutAbsent(post, id);
  }

  /** Adding a sticker with a fresh id and then removing that id restores the store. */
  lemma RemoveUndoesAdd(st: Store, sticker: Sticker)
    requires !HasId(st.stickers, sticker.id) && sticker.id !in st.positions
    ensures Remove(Add(st, sticker), sticker.id) == st
  {
    WithoutAppend(st.stickers, [sticker], sticker.id);
    WithoutAbsent(st.stickers, sticker.id);
    assert [sticker][1..] == [];
    assert Without([sticker], sticker.id) == [];
    assert st.positions - {sticker.id} == st.positions;
  }

  /** Adding a sticker with a fresh id keeps ids unique. */
  lemma AddKeepsUniqueIds(st: Store, sticker: Sticker)
    requires UniqueIds(st.stickers) && !HasId(st.stickers, sticker.id)
    ensures UniqueIds(Add(st, sticker).stickers)
  {
    var s := Add(st, sticker).stickers;
    forall i, j | 0 <= i < j < |s|
      ensures s[i].id != s[j].id
    {
      if j == |st.stickers| {
        assert s[i] == st.stickers[i];
      } else {
        assert s[i] == st.stickers[i] && s[j] == st.stickers[j];
      }
    }
  }

  /** Removal keeps ids unique. */
  lemma {:induction false} WithoutKeepsUniqueIds(s: seq<Sticker>, id: string)
    requires UniqueIds(s)
    ensures UniqueIds(Without(s, id))
    decreases |s|
  {
    if |s| > 0 {
      assert UniqueIds(s[1..]) by {
        forall i, j | 0 <= i < j < |s[1..]|
          ensures s[1..][i].id != s[1..][j].id
        {
          assert s[1..][i] == s[i + 1] && s[1..][j] == s[j + 1];
        }
      }
      WithoutKeepsUniqueIds(s[1..], id);
      if s[0].id != id {
        var t := Without(s[1..], id);
        var r := [s[0]] + t;
        forall i, j | 0 <= i < j < |r|
          ensures r[i].id != r[j].id
        {
          if i == 0 {
            assert r[j] in t;
            assert r[j] in s[1..];
            var k :| 0 <= k < |s[1..]| && s[1..][k] == r[j];
            assert s[k + 1] == r[j];
          } else {
            assert r[i] == t[i - 1] && r[j] == t[j - 1];
          }
        }
      }
    }
  }

  // ---------------------------------------------------------------------------
  // Reordering

  /** Exchanges the elements at indices `i` and `j`. */
  function Swap(s: seq<Sticker>, i: int, j: int): (r: seq<Sticker>)
    requires 0 <= i < |s| && 0 <= j < |s|
    ensures |r| == |s|
    ensures r[i] == s[j] && r[j] == s[i]
    ensures forall k :: 0 <= k < |s| && k != i && k != j ==> r[k] == s[k]
    ensures multiset(r) == multiset(s)
  {
    var r := s[i := s[j]][j := s[i]];
    assert multiset(r) == multiset(s) by {
      if i != j {
        calc {
          multiset(r);
          multiset(s[i := s[j]]) - multiset{s[i := s[j]][j]} + multiset{s[i]};
          multiset(s) - multiset{s[i]} + multiset{s[j]} - multiset{s[j]} + multiset{s[i]};
          multiset(s);
        }
      }
    }
    r
  }

  /**
   * Move-up (towards the top of the z-order): exchanges the sticker with its
   * successor; a no-op when it is already last. The id must be on the list.
   */
  function MoveUp(st: Store, id: string): (r: Store)
    requires HasId(st.stickers, id)
    ensures r.positions == st.positions
    ensures |r.stickers| == |st.stickers| && multiset(r.stickers) == multiset(st.stickers)
    ensures FindIndex(st.stickers, id) == |st.stickers| - 1 ==> r == st
    ensures var i := FindIndex(st.stickers, id);
            i < |st.stickers| - 1 ==>
              r.stickers[i] == st.stickers[i + 1] && r.stickers[i + 1] == st.stickers[i]
              && forall k :: 0 <= k < |st.stickers| && k != i && k != i + 1 ==> r.stickers[k] == st.stickers[k]
  {
    var i := FindIndex(st.stickers, id);
    if i == |st.stickers| - 1 then st
    else Store(Swap(st.stickers, i, i + 1), st.positions)
  }

  /**
   * Move-down (towards the bottom of the z-order): exchanges the sticker with
   * its predecessor; a no-op when it is already first. The id must be on the list.
   */
  function MoveDown(st: Store, id: string): (r: Store)
    requires HasId(st.stickers, id)
    ensures r.positions == st.positions
    ensures |r.stickers| == |st.stickers| && multiset(r.stickers) == multiset(st.stickers)
    ensures FindIndex(st.stickers, id) == 0 ==> r == st
    ensures var i := FindIndex(st.stickers, id);
            0 < i ==>
              r.stickers[i] == st.stickers[i - 1] && r.stickers[i - 1] == st.stickers[i]
              && forall k :: 0 <= k < |st.stickers| && k != i && k != i - 1 ==> r.stickers[k] == st.stickers[k]
  {
    var i := FindIndex(st.stickers, id);
    if i == 0 then st
    else Store(Swap(st.stickers, i, i - 1), st.positions)
  }

  /** Reordering never changes which ids are present, so uniqueness is kept. */
  lemma SwapKeepsUniqueIds(s: seq<Sticker>, i: int, j: int)
    requires UniqueIds(s) && 0 <= i < |s| && 0 <= j < |s|
    ensures UniqueIds(Swap(s, i, j))
  {
    var r := Swap(s, i, j);
    forall a, b | 0 <= a < b < |r|
      ensures r[a].id != r[b].id
    {
      var a' := if a == i then j else if a == j then i else a;
      var b' := if b == i then j else if b == j then i else b;
      assert r[a] == s[a'] && r[b] == s[b'] && a' != b';
    }
  }

  /**
   * Move-up followed by move-down on the same id restores the list, whenever
   * the sticker was not already on top (ids unique).
   */
  lemma MoveDownUndoesMoveUp(st: Store, id: string)
    requires UniqueIds(st.stickers) && HasId(st.stickers, id)
    requires FindIndex(st.stickers, id) < |st.stickers| - 1
    ensures HasId(MoveUp(st, id).stickers, id)
    ensures MoveDown(MoveUp(st, id), id) == st
  {
    var i := FindIndex(st.stickers, id);
    var up := MoveUp(st, id);
    assert up.stickers[i + 1].id == id;
    SwapKeepsUniqueIds(st.stickers, i, i + 1);
    FindIndexUnique(up.stickers, i + 1);
    var down := MoveDown(up, id);
    assert down.stickers == st.stickers;
  }

  /**
   * Move-down followed by move-up on the same id restores the list, whenever
   * the sticker was not already at the bottom (ids unique).
   */
  lemma MoveUpUndoesMoveDown(st: Store, id: string)
    requires UniqueIds(st.stickers) && HasId(st.stickers, id)
    requires 0 < FindIndex(st.stickers, id)
    ensures HasId(MoveDown(st, id).stickers, id)
    ensures MoveUp(MoveDown(st, id), id) == st
  {
    var i := FindIndex(st.stickers, id);
    var down := MoveDown(st, id);
    assert down.stickers[i - 1].id == id;
    SwapKeepsUniqueIds(st.stickers, i, i - 1);
    FindIndexUnique(down.stickers, i - 1);
    var up := MoveUp(down, id);
    assert up.stickers == st.stickers;
  }

  /** Three stickers A, B, C added in that order: move-up(A) gives B, A, C. */
  lemma MoveUpExample(a: Sticker, b: Sticker, c: Sticker)
    requires a.id != b.id && b.id != c.id && a.id != c.id
    ensures HasId([a, b, c], a.id)
    ensures MoveUp(Store([a, b, c], map[]), a.id).stickers == [b, a, c]
  {
    var s := [a, b, c];
    assert s[0] == a;
    assert FindIndex(s, a.id) == 0;
    var r := MoveUp(Store(s, map[]), a.id).stickers;
    assert r[0] == b && r[1] == a && r[2] == c;
  }

  /** On B, A, C: move-down(C) gives B, C, A. */
  lemma MoveDownExample(a: Sticker, b: Sticker, c: Sticker)
    requires a.id != b.id && b.id != c.id && a.id != c.id
    ensures HasId([b, a, c], c.id)
    ensures MoveDown(Store([b, a, c], map[]), c.id).stickers == [b, c, a]
  {
    var s := [b, a, c];
    assert s[2] == c;
    assert s[1..] == [a, c] && s[1..][1..] == [c];
    assert FindIndex(s, c.id) == 2;
    var r := MoveDown(Store(s, map[]), c.id).stickers;
    assert r[0] == b && r[1] == c && r[2] == a;
  }

  /** On B, C, A: removing B leaves C, A with no gap. */
  lemma RemoveExample(a: Sticker, b: Sticker, c: Sticker)
    requires a.id != b.id && b.id != c.id && a.id != c.id
    ensures Remove(Store([b, c, a], map[]), b.id).stickers == [c, a]
  {
    var s := [b, c, a];
    assert s[0] == b && s[1..] == [c, a];
    WithoutAbsent([c, a], b.id);
  }

  // ---------------------------------------------------------------------------
  // Positions

  /** Records (x, y) for `id`; the sticker list and every other entry are untouched. */
  function SetPosition(st: Store, id: string, x: real, y: real): (r: Store)
    ensures r.stickers == st.stickers
    ensures r.positions.Keys == st.positions.Keys + {id}
    ensures r.positions[id] == Position(x, y)
    ensures forall k :: k in st.positions && k != id ==> r.positions[k] == st.positions[k]
  {
    Store(st.stickers, st.positions[id := Position(x, y)])
  }

  /** The last position change for an id wins. */
  lemma SetPositionLastWins(st: Store, id: string, x: real, y: real, x': real, y': real)
    ensures SetPosition(SetPosition(st, id, x, y), id, x', y') == SetPosition(st, id, x', y')
  {
  }

  /** Position changes for different ids commute. */
  lemma SetPositionCommutes(st: Store, id: string, x: real, y: real, id': string, x': real, y': real)
    requires id != id'
    ensures SetPosition(SetPosition(st, id, x, y), id', x', y')
         == SetPosition(SetPosition(st, id', x', y'), id, x, y)
  {
  }

  /**
   * A drag on a mounted sticker, reported to the visualizer, lands in the
   * position map: the map entry equals the sticker's local position.
   */
  lemma DragCommitsToStore(st: Store, drag: DragState, x: real, y: real)
    ensures var (local, report) := HandleDrag(drag, x, y, true);
            var r := SetPosition(st, report.value.id, report.value.x, report.value.y);
            && r.positions[drag.id] == local.position.value
            && r.stickers == st.stickers
  {
  }

  // ---------------------------------------------------------------------------
  // Rendering

  /** What the visualizer hands each draggable sticker. */
  datatype Rendered = Rendered(sticker: Sticker, zIndex: int, initialPosition: Option<Position>)

  function Lookup(positions: map<string, Position>, id: string): Option<Position> {
    if id in positions then Some(positions[id]) else None
  }

  /**
   * The draggable stickers, drawn only once both container dimensions are
   * positive, in list order, each with z-index 10 + its list index and the
   * position recorded for its id.
   */
  function Render(st: Store, containerWidth: real, containerHeight: real): (r: seq<Rendered>)
    ensures !(0.0 < containerWidth && 0.0 < containerHeight) ==> r == []
    ensures 0.0 < containerWidth && 0.0 < containerHeight ==> |r| == |st.stickers|
    ensures forall i :: 0 <= i < |r| ==> r[i].sticker == st.stickers[i]
    ensures forall i :: 0 <= i < |r| ==> r[i].initialPosition == Lookup(st.positions, st.stickers[i].id)
    ensures forall i :: 0 <= i < |r| ==> r[i].zIndex == 10 + i
    ensures forall i, j :: 0 <= i < |r| && 0 <= j < |r| ==> (r[i].zIndex < r[j].zIndex <==> i < j)
  {
    if 0.0 < containerWidth && 0.0 < containerHeight then
      seq(|st.stickers|, i requires 0 <= i < |st.stickers| =>
        Rendered(st.stickers[i], 10 + i, Lookup(st.positions, st.stickers[i].id)))
    else []
  }

  // ---------------------------------------------------------------------------
  // Coverage

  function Area(s: Sticker): real {
    s.size.width * s.size.height
  }

  /** Sum of the sticker areas in square inches, accumulated left to right like `reduce`. */
  function TotalArea(s: seq<Sticker>): real
    decreases |s|
  {
    if |s| == 0 then 0.0 else TotalArea(s[..|s| - 1]) + Area(s[|s| - 1])
  }

  /** Percentage of the lid area covered by the stickers (overlaps counted twice). */
  function Coverage(s: seq<Sticker>): real {
    TotalArea(s) / (Lid.Width * Lid.Height) * 100.0
  }

  lemma {:induction false} TotalAreaAppend(a: seq<Sticker>, b: seq<Sticker>)
    ensures TotalArea(a + b) == TotalArea(a) + TotalArea(b)
    decreases |b|
  {
    if |b| > 0 {
      assert (a + b)[..|a + b| - 1] == a + b[..|b| - 1];
      TotalAreaAppend(a, b[..|b| - 1]);
    } else {
      assert a + b == a;
    }
  }

  lemma {:induction false} TotalAreaNonNegative(s: seq<Sticker>)
    requires forall i :: 0 <= i < |s| ==> 0.0 <= Area(s[i])
    ensures 0.0 <= TotalArea(s)
    decreases |s|
  {
    if |s| > 0 {
      TotalAreaNonNegative(s[..|s| - 1]);
    }
  }

  /** Adding a sticker raises the coverage by exactly that sticker's share of the lid. */
  lemma CoverageAfterAdd(st: Store, sticker: Sticker)
    ensures Coverage(Add(st, sticker).stickers)
         == Coverage(st.stickers) + Area(sticker) / (Lid.Width * Lid.Height) * 100.0
  {
    assert Add(st, sticker).stickers[..|st.stickers|] == st.stickers;
  }

  /** Exchanging two neighbours does not change the total area. */
  lemma TotalAreaSwapNeighbours(s: seq<Sticker>, i: int)
    requires 0 <= i && i + 1 < |s|
    ensures TotalArea(Swap(s, i, i + 1)) == TotalArea(s)
  {
    var r := Swap(s, i, i + 1);
    assert s == s[..i] + [s[i], s[i + 1]] + s[i + 2..];
    assert r == s[..i] + [s[i + 1], s[i]] + s[i + 2..];
    TotalAreaAppend(s[..i] + [s[i], s[i + 1]], s[i + 2..]);
    TotalAreaAppend(s[..i] + [s[i + 1], s[i]], s[i + 2..]);
    TotalAreaAppend(s[..i], [s[i], s[i + 1]]);
    TotalAreaAppend(s[..i], [s[i + 1], s[i]]);
    assert [s[i], s[i + 1]][..1] == [s[i]];
    assert [s[i + 1], s[i]][..1] == [s[i + 1]];
    assert [s[i]][..0] == [] && [s[i + 1]][..0] == [];
  }

  /** Moving a sticker up leaves the coverage unchanged. */
  lemma CoverageAfterMoveUp(st: Store, id: string)
    requires HasId(st.stickers, id)
    ensures Coverage(MoveUp(st, id).stickers) == Coverage(st.stickers)
  {
    var i := FindIndex(st.stickers, id);
    if i < |st.stickers| - 1 {
      assert MoveUp(st, id).stickers == Swap(st.stickers, i, i + 1);
      TotalAreaSwapNeighbours(st.stickers, i);
    }
  }

  /** Moving a sticker down leaves the coverage unchanged. */
  lemma CoverageAfterMoveDown(st: Store, id: string)
    requires HasId(st.stickers, id)
    ensures Coverage(MoveDown(st, id).stickers) == Coverage(st.stickers)
  {
    var i := FindIndex(st.stickers, id);
    if 0 < i {
      assert MoveDown(st, id).stickers == Swap(st.stickers, i, i - 1);
      SwapSymmetric(st.stickers, i, i - 1);
      TotalAreaSwapNeighbours(st.stickers, i - 1);
    }
  }

  lemma SwapSymmetric(s: seq<Sticker>, i: int, j: int)
    requires 0 <= i < |s| && 0 <= j < |s|
    ensures Swap(s, i, j) == Swap(s, j, i)
  {
  }

  /** Removing stickers of non-negative area never raises the total area. */
  lemma {:induction false} TotalAreaWithout(s: seq<Sticker>, id: string)
    requires forall i :: 0 <= i < |s| ==> 0.0 <= Area(s[i])
    ensures TotalArea(Without(s, id)) <= TotalArea(s)
    decreases |s|
  {
    if |s| > 0 {
      assert s == [s[0]] + s[1..];
      TotalAreaAppend([s[0]], s[1..]);
      assert [s[0]][..0] == [];
      TotalAreaWithout(s[1..], id);
      if s[0].id != id {
        TotalAreaAppend([s[0]], Without(s[1..], id));
      } else {
        TotalAreaNonNegative(s[1..]);
      }
    }
  }
}
