/**
 * The sticker management panel: a list of rows over the sticker list shown
 * top layer first, each with an id label, a layer label and the buttons that
 * are offered for it. The panel is hidden unless there are two or more stickers.
 */
module Management {
  import opened Wrappers
  import opened Text
  import opened Arrangement

  /** The layer label of a row. */
  datatype Layer = Top | Bottom | Number(n: int)

  /** One row of the panel, for the sticker it manages. */
  datatype Row = Row(
    sticker: Sticker,
    altNumber: int,
    idLabel: string,
    layer: Layer,
    showUp: bool,
    showDown: bool,
    showRemove: bool)

  /**
   * JavaScript's `id.slice(0, 8)`: the first eight characters, or all of a
   * shorter id. Characters here are scalar values where `slice` counts UTF-16
   * code units; the two agree on ASCII ids such as generated UUIDs.
   */
  function IdLabel(id: string): (r: string)
    ensures |r| == if |id| < 8 then |id| else 8
    ensures IsPrefix(r, id)
  {
    if |id| < 8 then id else id[..8]
  }

  /** The layer label at display index `i` of `n` rows. */
  function LayerLabel(n: int, i: int): (r: Layer)
    requires 0 <= i < n
    ensures r == Top <==> i == 0
    ensures r == Bottom <==> 0 < i && i == n - 1
    ensures r.Number? ==> r.n == n - i && 1 < r.n < n
  {
    if i == 0 then Top else if i == n - 1 then Bottom else Number(n - i)
  }

  /** The row drawn at display index `i`: the sticker `i` places below the top of the list. */
  function RowAt(s: seq<Sticker>, i: int): Row
    requires 0 <= i < |s|
  {
    var n := |s|;
    var sticker := s[n - 1 - i];
    Row(sticker, n - i, IdLabel(sticker.id), LayerLabel(n, i), n > 1 && i > 0, n > 1 && i < n - 1, n > 1)
  }

  /**
   * The panel: nothing for at most one sticker, otherwise one row per sticker
   * over the reversed list, so the top layer comes first.
   */
  function Panel(s: seq<Sticker>): (r: Option<seq<Row>>)
    ensures r.None? <==> |s| <= 1
    ensures r.Some? ==> |r.value| == |s|
    ensures r.Some? ==> forall i :: 0 <= i < |s| ==> r.value[i].sticker == s[|s| - 1 - i]
    ensures r.Some? ==> forall i :: 0 <= i < |s| ==> r.value[i].layer == LayerLabel(|s|, i)
    ensures r.Some? ==> forall i :: 0 <= i < |s| ==> r.value[i].idLabel == IdLabel(r.value[i].sticker.id)
    ensures r.Some? ==> forall i :: 0 <= i < |s| ==> r.value[i].altNumber == |s| - i
    ensures r.Some? ==> forall i :: 0 <= i < |s| ==> r.value[i].showRemove
    ensures r.Some? ==> forall i :: 0 <= i < |s| ==> (r.value[i].showUp <==> 0 < i)
    ensures r.Some? ==> forall i :: 0 <= i < |s| ==> (r.value[i].showDown <==> i < |s| - 1)
  {
    if |s| <= 1 then None
    else Some(seq(|s|, i requires 0 <= i < |s| => RowAt(s, i)))
  }

  /** The reversed listing visits every sticker exactly once: row `i` and store index `n-1-i` name each other. */
  lemma RowsAreReversedList(s: seq<Sticker>, k: int)
    requires 1 < |s| && 0 <= k < |s|
    ensures Panel(s).value[|s| - 1 - k].sticker == s[k]
    ensures Panel(s).value[|s| - 1 - k].altNumber == k + 1
  {
  }

  /**
   * Row numbers follow the z-order: the number on a row is one more than the
   * sticker's list index, so a row nearer the top of the panel names a sticker
   * drawn with a larger z-index.
   */
  lemma RowNumbersFollowZOrder(st: Store, cw: real, ch: real, i: int, j: int)
    requires 1 < |st.stickers| && 0.0 < cw && 0.0 < ch
    requires 0 <= i < j < |st.stickers|
    ensures var rows, drawn, n := Panel(st.stickers).value, Render(st, cw, ch), |st.stickers|;
            && drawn[n - 1 - i].sticker == rows[i].sticker
            && drawn[n - 1 - j].zIndex < drawn[n - 1 - i].zIndex
            && (rows[i].layer.Number? ==> rows[i].layer.n == n - i)
  {
  }

  /**
   * With unique ids, the up button is offered on a row exactly when moving
   * that row's sticker up changes the list.
   */
  lemma UpShownIffMoveUpChanges(st: Store, i: int)
    requires UniqueIds(st.stickers) && 1 < |st.stickers| && 0 <= i < |st.stickers|
    ensures var row := Panel(st.stickers).value[i];
            HasId(st.stickers, row.sticker.id)
            && (row.showUp <==> MoveUp(st, row.sticker.id) != st)
  {
    var s, n := st.stickers, |st.stickers|;
    var k := n - 1 - i;
    var id := s[k].id;
    assert HasId(s, id);
    FindIndexUnique(s, k);
    if 0 < i {
      assert k < n - 1 && s[k] != s[k + 1];
      assert MoveUp(st, id).stickers[k] == s[k + 1];
    }
  }

  /**
   * With unique ids, the down button is offered on a row exactly when moving
   * that row's sticker down changes the list.
   */
  lemma DownShownIffMoveDownChanges(st: Store, i: int)
    requires UniqueIds(st.stickers) && 1 < |st.stickers| && 0 <= i < |st.stickers|
    ensures var row := Panel(st.stickers).value[i];
            HasId(st.stickers, row.sticker.id)
            && (row.showDown <==> MoveDown(st, row.sticker.id) != st)
  {
    var s, n := st.stickers, |st.stickers|;
    var k := n - 1 - i;
    var id := s[k].id;
    assert HasId(s, id);
    FindIndexUnique(s, k);
    if i < n - 1 {
      assert 0 < k && s[k] != s[k - 1];
      assert MoveDown(st, id).stickers[k] == s[k - 1];
    }
  }

  /** Pressing up on row `i` (not the top row) moves that sticker to row `i - 1`. */
  lemma MoveUpRaisesRow(st: Store, i: int)
    requires UniqueIds(st.stickers) && 1 < |st.stickers| && 0 < i < |st.stickers|
    ensures var id := Panel(st.stickers).value[i].sticker.id;
            HasId(st.stickers, id)
            && Panel(MoveUp(st, id).stickers).value[i - 1].sticker.id == id
  {
    var s, n := st.stickers, |st.stickers|;
    var k := n - 1 - i;
    assert HasId(s, s[k].id);
    FindIndexUnique(s, k);
  }

  /** Pressing down on row `i` (not the bottom row) moves that sticker to row `i + 1`. */
  lemma MoveDownLowersRow(st: Store, i: int)
    requires UniqueIds(st.stickers) && 1 < |st.stickers| && 0 <= i < |st.stickers| - 1
    ensures var id := Panel(st.stickers).value[i].sticker.id;
            HasId(st.stickers, id)
            && Panel(MoveDown(st, id).stickers).value[i + 1].sticker.id == id
  {
    var s, n := st.stickers, |st.stickers|;
    var k := n - 1 - i;
    assert HasId(s, s[k].id);
    FindIndexUnique(s, k);
  }

  /** Three stickers a, b, c (c on top) are listed c, b, a with labels Top, 2, Bottom. */
  lemma PanelExample(a: Sticker, b: Sticker, c: Sticker)
    ensures var rows := Panel([a, b, c]).value;
            && rows[0].sticker == c && rows[0].layer == Top && !rows[0].showUp && rows[0].showDown
            && rows[1].sticker == b && rows[1].layer == Number(2) && rows[1].showUp && rows[1].showDown
            && rows[2].sticker == a && rows[2].layer == Bottom && rows[2].showUp && !rows[2].showDown
  {
  }
}
