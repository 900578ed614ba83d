/**
 * The visualizer's session codec: saving flattens the sticker list and the
 * position map into wire records (one per sticker, in list order, position
 * defaulting to the origin); loading rebuilds the list in record order and an
 * id-keyed position map in which a later record for the same id wins.
 */
module SessionCodec {
  import opened Wrappers
  import opened Geometry
  import opened Arrangement

  /** One saved sticker as it travels to and from the session store. */
  datatype SavedSticker = SavedSticker(stickerId: string, url: string, size: Size, position: Position)

  /** The save request body: the session id and the saved stickers. */
  datatype SaveSessionRequest = SaveSessionRequest(sessionId: string, stickers: seq<SavedSticker>)

  /** The position a sticker without a recorded position is saved with. */
  const Origin: Position := Position(0.0, 0.0)

  /** The position recorded for `id`, or the origin. */
  function PositionOrOrigin(positions: map<string, Position>, id: string): Position {
    if id in positions then positions[id] else Origin
  }

  /** The saved records for a store: one per sticker, in list order. */
  function Encode(st: Store): (r: seq<SavedSticker>)
    ensures |r| == |st.stickers|
    ensures forall i :: 0 <= i < |r| ==>
              && r[i].stickerId == st.stickers[i].id
              && r[i].url == st.stickers[i].productImage
              && r[i].size == st.stickers[i].size
    ensures forall i :: 0 <= i < |r| && st.stickers[i].id in st.positions ==>
              r[i].position == st.positions[st.stickers[i].id]
    ensures forall i :: 0 <= i < |r| && st.stickers[i].id !in st.positions ==>
              r[i].position == Origin
  {
    seq(|st.stickers|, i requires 0 <= i < |st.stickers| =>
      var s := st.stickers[i];
      SavedSticker(s.id, s.productImage, s.size, PositionOrOrigin(st.positions, s.id)))
  }

  /** The body the save button sends. */
  function SaveRequest(sessionId: string, st: Store): (r: SaveSessionRequest)
    ensures r.sessionId == sessionId
    ensures r.stickers == Encode(st)
  {
    SaveSessionRequest(sessionId, Encode(st))
  }

  /** The save button is enabled only when there is something to save. */
  predicate SaveEnabled(st: Store) {
    |st.stickers| != 0
  }

  // ---------------------------------------------------------------------------
  // Load

  function DecodeSticker(w: SavedSticker): Sticker {
    Sticker(w.stickerId, w.url, w.size)
  }

  /** The ids the records carry. */
  function RecordIds(records: seq<SavedSticker>): set<string> {
    set i | 0 <= i < |records| :: records[i].stickerId
  }

  /** No later record carries the same id as record `i`. */
  predicate IsLastWithId(records: seq<SavedSticker>, i: int)
    requires 0 <= i < |records|
  {
    forall j :: i < j < |records| ==> records[j].stickerId != records[i].stickerId
  }

  /**
   * The position map the load loop builds: one entry per record id, holding
   * the position of the last record with that id.
   */
  function DecodePositions(records: seq<SavedSticker>): (m: map<string, Position>)
    ensures m.Keys == RecordIds(records)
    ensures forall i :: 0 <= i < |records| && IsLastWithId(records, i) ==>
              m[records[i].stickerId] == records[i].position
    ensures forall k :: k in m ==>
              exists i :: 0 <= i < |records| && records[i].stickerId == k && m[k] == records[i].position
    decreases |records|
  {
    if |records| == 0 then map[]
    else
      var init, last := records[..|records| - 1], records[|records| - 1];
      assert records == init + [last];
      var prev := DecodePositions(init);
      RecordIdsSnoc(records);
      DecodeStep(init, last, prev);
      prev[last.stickerId := last.position]
  }

  /** One more iteration of the load loop keeps the map's two promises. */
  lemma DecodeStep(init: seq<SavedSticker>, last: SavedSticker, prev: map<string, Position>)
    requires prev.Keys == RecordIds(init)
    requires forall i :: 0 <= i < |init| && IsLastWithId(init, i) ==>
               prev[init[i].stickerId] == init[i].position
    requires forall k :: k in prev ==>
               exists i :: 0 <= i < |init| && init[i].stickerId == k && prev[k] == init[i].position
    ensures var records, m := init + [last], prev[last.stickerId := last.position];
            forall i :: 0 <= i < |records| && IsLastWithId(records, i) ==>
              m[records[i].stickerId] == records[i].position
    ensures var records, m := init + [last], prev[last.stickerId := last.position];
            forall k :: k in m ==>
              exists i :: 0 <= i < |records| && records[i].stickerId == k && m[k] == records[i].position
  {
    var records, m := init + [last], prev[last.stickerId := last.position];
    forall i | 0 <= i < |records| && IsLastWithId(records, i)
      ensures m[records[i].stickerId] == records[i].position
    {
      if i < |init| {
        assert records[|init|] == last;
        assert records[i] == init[i];
        assert last.stickerId != init[i].stickerId;
        LastWithIdPrefix(init, last, i);
        assert prev[init[i].stickerId] == init[i].position;
      }
    }
    forall k | k in m
      ensures exists i :: 0 <= i < |records| && records[i].stickerId == k && m[k] == records[i].position
    {
      if k == last.stickerId {
        assert records[|init|] == last;
      } else {
        var i :| 0 <= i < |init| && init[i].stickerId == k && prev[k] == init[i].position;
        assert records[i] == init[i];
      }
    }
  }

  lemma LastWithIdPrefix(init: seq<SavedSticker>, last: SavedSticker, i: int)
    requires 0 <= i < |init| && IsLastWithId(init + [last], i)
    ensures IsLastWithId(init, i)
  {
    var records := init + [last];
    forall j | i < j < |init|
      ensures init[j].stickerId != init[i].stickerId
    {
      assert records[j] == init[j] && records[i] == init[i];
    }
  }

  lemma RecordIdsSnoc(records: seq<SavedSticker>)
    requires |records| > 0
    ensures RecordIds(records) == RecordIds(records[..|records| - 1]) + {records[|records| - 1].stickerId}
  {
    var n := |records| - 1;
    forall k | k in RecordIds(records)
      ensures k in RecordIds(records[..n]) + {records[n].stickerId}
    {
      var i :| 0 <= i < |records| && records[i].stickerId == k;
      if i < n { assert records[..n][i] == records[i]; }
    }
    forall k | k in RecordIds(records[..n])
      ensures k in RecordIds(records)
    {
      var i :| 0 <= i < n && records[..n][i].stickerId == k;
      assert records[i] == records[..n][i];
    }
  }

  /** The stickers and positions a loaded session produces. */
  function Decode(records: seq<SavedSticker>): (st: Store)
    ensures |st.stickers| == |records|
    ensures forall i :: 0 <= i < |records| ==> st.stickers[i] == DecodeSticker(records[i])
    ensures st.positions.Keys == RecordIds(records)
  {
    Store(seq(|records|, i requires 0 <= i < |records| => DecodeSticker(records[i])), DecodePositions(records))
  }

  /**
   * Loading: on success the store is replaced by the decoded session; on a
   * failure the store is kept and the thrown message becomes the error.
   */
  function Load(current: Store, fetched: Result<seq<SavedSticker>, Thrown>): (r: (Store, Option<string>))
    ensures fetched.Ok? ==> r.0 == Decode(fetched.value) && r.1 == None
    ensures fetched.Err? ==> r.0 == current && r.1 == Some(fetched.error.MessageOr("Unknown error occurred"))
  {
    match fetched
    case Ok(records) => (Decode(records), None)
    case Err(e) => (current, Some(e.MessageOr("Unknown error occurred")))
  }

  // ---------------------------------------------------------------------------
  // Round trips

  /** The ids on the sticker list. */
  function StickerIds(s: seq<Sticker>): set<string> {
    set i | 0 <= i < |s| :: s[i].id
  }

  /** The position map restricted to the listed ids, with the origin filled in for missing entries. */
  function Totalised(st: Store): (m: map<string, Position>)
    ensures m.Keys == StickerIds(st.stickers)
  {
    map k | k in StickerIds(st.stickers) :: PositionOrOrigin(st.positions, k)
  }

  /**
   * Save then load returns the same list and the position map totalised with
   * the origin over the listed ids. Ids need not be unique: every record for
   * one id carries that id's single map entry.
   */
  lemma DecodeEncode(st: Store)
    ensures Decode(Encode(st)) == Store(st.stickers, Totalised(st))
  {
    var records := Encode(st);
    var d := Decode(records);
    assert d.stickers == st.stickers;
    assert RecordIds(records) == StickerIds(st.stickers) by {
      forall k | k in StickerIds(st.stickers)
        ensures k in RecordIds(records)
      {
        var i :| 0 <= i < |st.stickers| && st.stickers[i].id == k;
        assert records[i].stickerId == k;
      }
    }
    forall k | k in d.positions
      ensures d.positions[k] == PositionOrOrigin(st.positions, k)
    {
      var i :| 0 <= i < |records| && records[i].stickerId == k && d.positions[k] == records[i].position;
    }
  }

  /**
   * A session saved with the save button and loaded back under any current
   * state shows the saved list, every listed sticker at its recorded position
   * or the origin, and no error.
   */
  lemma SaveThenLoadSession(sessionId: string, st: Store, current: Store)
    ensures Load(current, Ok(SaveRequest(sessionId, st).stickers)) == (Store(st.stickers, Totalised(st)), None)
  {
    DecodeEncode(st);
  }

  /** With unique ids, load then save reproduces the records exactly. */
  lemma EncodeDecode(records: seq<SavedSticker>)
    requires forall i, j :: 0 <= i < j < |records| ==> records[i].stickerId != records[j].stickerId
    ensures Encode(Decode(records)) == records
  {
    var d := Decode(records);
    var e := Encode(d);
    forall i | 0 <= i < |records|
      ensures e[i] == records[i]
    {
      assert IsLastWithId(records, i);
      assert d.stickers[i].id == records[i].stickerId;
    }
  }

  /** Two records for one id: load keeps the later position, so save cannot reproduce both. */
  lemma DuplicateIdsLoseAPosition(w: SavedSticker, p: Position)
    requires p != w.position
    ensures Encode(Decode([w, w.(position := p)])) != [w, w.(position := p)]
  {
    var records := [w, w.(position := p)];
    assert IsLastWithId(records, 1);
    assert Encode(Decode(records))[0].position == p;
  }
}
