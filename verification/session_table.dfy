/**
 * The `sessions` table behind the save and load endpoints, as a sequence of
 * rows in insertion order. Saving replaces every row of one session inside a
 * transaction; loading selects the rows of one session. Each database step
 * may fail, which is given as a parameter.
 */
module SessionTable {
  import opened Wrappers
  import opened Models

  /** One row: the session it belongs to and the saved sticker's fields. */
  datatype Row = Row(sessionId: string, stickerId: string, url: string, width: real, height: real, x: real, y: real)

  /** The error each step of a save reports, if it fails. */
  datatype SaveFaults = SaveFaults(begin: Option<string>, delete: Option<string>, insert: Option<string>, commit: Option<string>)

  /** The error each step of a load reports, if it fails. */
  datatype LoadFaults = LoadFaults(query: Option<string>, scan: Option<string>, iteration: Option<string>)

  /** The table after a save, and the save's error. */
  datatype Saved = Saved(table: seq<Row>, err: Option<string>)

  const NoSaveFaults: SaveFaults := SaveFaults(None, None, None, None)
  const NoLoadFaults: LoadFaults := LoadFaults(None, None, None)

  function RowOf(sessionId: string, s: SavedStickerData): Row {
    Row(sessionId, s.stickerId, s.url, s.size.width, s.size.height, s.position.x, s.position.y)
  }

  function StickerOf(r: Row): SavedStickerData {
    SavedStickerData(r.stickerId, r.url, Size(r.width, r.height), Position(r.x, r.y))
  }

  /** The rows one save inserts, in the order of the request's stickers. */
  function RowsOf(req: SaveSessionRequest): (r: seq<Row>)
    ensures |r| == |req.stickers|
    ensures forall i :: 0 <= i < |r| ==> r[i] == RowOf(req.sessionId, req.stickers[i])
  {
    seq(|req.stickers|, i requires 0 <= i < |req.stickers| => RowOf(req.sessionId, req.stickers[i]))
  }

  function StickersOf(rows: seq<Row>): (r: seq<SavedStickerData>)
    ensures |r| == |rows|
    ensures forall i :: 0 <= i < |r| ==> r[i] == StickerOf(rows[i])
  {
    seq(|rows|, i requires 0 <= i < |rows| => StickerOf(rows[i]))
  }

  /** The rows of session `id`, in table order. */
  function Matching(table: seq<Row>, id: string): (r: seq<Row>)
    ensures forall i :: 0 <= i < |r| ==> r[i].sessionId == id
    ensures multiset(r) <= multiset(table)
    decreases |table|
  {
    if table == [] then []
    else
      assert table == [table[0]] + table[1..];
      (if table[0].sessionId == id then [table[0]] else []) + Matching(table[1..], id)
  }

  /** The rows of every other session, in table order. */
  function Others(table: seq<Row>, id: string): (r: seq<Row>)
    ensures forall i :: 0 <= i < |r| ==> r[i].sessionId != id
    ensures multiset(r) <= multiset(table)
    decreases |table|
  {
    if table == [] then []
    else
      assert table == [table[0]] + table[1..];
      (if table[0].sessionId != id then [table[0]] else []) + Others(table[1..], id)
  }

  lemma {:induction false} MatchingAppend(a: seq<Row>, b: seq<Row>, id: string)
    ensures Matching(a + b, id) == Matching(a, id) + Matching(b, id)
    decreases |a|
  {
    if a == [] {
      assert a + b == b;
    } else {
      var head := if a[0].sessionId == id then [a[0]] else [];
      assert (a + b)[0] == a[0] && (a + b)[1..] == a[1..] + b;
      assert Matching(a + b, id) == head + Matching(a[1..] + b, id);
      assert Matching(a, id) == head + Matching(a[1..], id);
      MatchingAppend(a[1..], b, id);
    }
  }

  lemma {:induction false} OthersAppend(a: seq<Row>, b: seq<Row>, id: string)
    ensures Others(a + b, id) == Others(a, id) + Others(b, id)
    decreases |a|
  {
    if a == [] {
      assert a + b == b;
    } else {
      var head := if a[0].sessionId != id then [a[0]] else [];
      assert (a + b)[0] == a[0] && (a + b)[1..] == a[1..] + b;
      OthersAppend(a[1..], b, id);
      calc {
        Others(a + b, id);
        head + Others(a[1..] + b, id);
        head + (Others(a[1..], id) + Others(b, id));
        (head + Others(a[1..], id)) + Others(b, id);
        Others(a, id) + Others(b, id);
      }
    }
  }

  /** Rows all of session `id` are kept whole by Matching and dropped by Others. */
  lemma {:induction false} AllOfSession(rows: seq<Row>, id: string)
    requires forall i :: 0 <= i < |rows| ==> rows[i].sessionId == id
    ensures Matching(rows, id) == rows && Others(rows, id) == []
    decreases |rows|
  {
    if rows != [] {
      AllOfSession(rows[1..], id);
    }
  }

  /** Rows of no row of session `id` are dropped by Matching and kept whole by Others. */
  lemma {:induction false} NoneOfSession(rows: seq<Row>, id: string)
    requires forall i :: 0 <= i < |rows| ==> rows[i].sessionId != id
    ensures Matching(rows, id) == [] && Others(rows, id) == rows
    decreases |rows|
  {
    if rows != [] {
      NoneOfSession(rows[1..], id);
    }
  }

  /** For a different session, Others(…, id) keeps exactly its rows. */
  lemma {:induction false} OthersKeepsOtherSession(table: seq<Row>, id: string, other: string)
    requires other != id
    ensures Matching(Others(table, id), other) == Matching(table, other)
    decreases |table|
  {
    if table != [] {
      var rest := Others(table[1..], id);
      OthersKeepsOtherSession(table[1..], id, other);
      if table[0].sessionId != id {
        assert Others(table, id) == [table[0]] + rest;
        assert ([table[0]] + rest)[1..] == rest;
      } else {
        assert Others(table, id) == rest;
      }
    }
  }

  /**
   * SaveSession: begin, delete the session's rows, insert one row per sticker
   * (only when there are stickers), commit. A failing step rolls everything back.
   */
  function SaveSession(table: seq<Row>, req: SaveSessionRequest, faults: SaveFaults): (r: Saved)
    ensures r.err.Some? ==> r.table == table
    ensures r.err.None? <==>
              faults.begin.None? && faults.delete.None? && faults.commit.None?
              && (req.stickers != [] ==> faults.insert.None?)
    ensures r.err.None? ==> Matching(r.table, req.sessionId) == RowsOf(req)
    ensures r.err.None? ==> Others(r.table, req.sessionId) == Others(table, req.sessionId)
  {
    if faults.begin.Some? then Saved(table, Some("failed to begin transaction: " + faults.begin.value))
    else if faults.delete.Some? then Saved(table, Some("failed to delete existing stickers: " + faults.delete.value))
    else if req.stickers != [] && faults.insert.Some? then Saved(table, Some("failed to insert stickers: " + faults.insert.value))
    else if faults.commit.Some? then Saved(table, Some("failed to commit transaction: " + faults.commit.value))
    else
      var kept, added := Others(table, req.sessionId), RowsOf(req);
      MatchingAppend(kept, added, req.sessionId);
      OthersAppend(kept, added, req.sessionId);
      NoneOfSession(kept, req.sessionId);
      AllOfSession(added, req.sessionId);
      Saved(kept + added, None)
  }

  /** GetSession: the stickers of the session's rows, nil when there are none. */
  function GetSession(table: seq<Row>, id: string, faults: LoadFaults): (r: Result<Option<seq<SavedStickerData>>, string>)
    ensures r.Ok? <==> faults.query.None? && faults.iteration.None? && (Matching(table, id) != [] ==> faults.scan.None?)
    ensures r.Ok? ==> (r.value.None? <==> Matching(table, id) == [])
    ensures r.Ok? && r.value.Some? ==> multiset(r.value.value) == multiset(StickersOf(Matching(table, id)))
  {
    var rows := Matching(table, id);
    if faults.query.Some? then Err("failed to query session: " + faults.query.value)
    else if rows != [] && faults.scan.Some? then Err("failed to scan row: " + faults.scan.value)
    else if faults.iteration.Some? then Err("error iterating rows: " + faults.iteration.value)
    else if rows == [] then Ok(None)
    else Ok(Some(StickersOf(rows)))
  }

  /** A value an INTEGER column holds without change: a whole number within 32 bits. */
  predicate StoredExactly(v: real) {
    v == v.Floor as real && -0x8000_0000 <= v.Floor < 0x8000_0000
  }

  predicate StickerStoredExactly(s: SavedStickerData) {
    StoredExactly(s.size.width) && StoredExactly(s.size.height) && StoredExactly(s.position.x) && StoredExactly(s.position.y)
  }

  /** Loading a session right after saving it gives back the saved stickers (as a multiset: the query has no ORDER BY). */
  lemma SaveThenLoad(table: seq<Row>, req: SaveSessionRequest)
    requires forall i :: 0 <= i < |req.stickers| ==> StickerStoredExactly(req.stickers[i])
    ensures var loaded := GetSession(SaveSession(table, req, NoSaveFaults).table, req.sessionId, NoLoadFaults);
            && loaded.Ok?
            && (loaded.value.None? <==> req.stickers == [])
            && (loaded.value.Some? ==> multiset(loaded.value.value) == multiset(req.stickers))
  {
    var t := SaveSession(table, req, NoSaveFaults).table;
    assert Matching(t, req.sessionId) == RowsOf(req);
    assert StickersOf(RowsOf(req)) == req.stickers;
  }

  /** Saving a session touches no other session's rows. */
  lemma OtherSessionsUntouched(table: seq<Row>, req: SaveSessionRequest, faults: SaveFaults, other: string)
    requires other != req.sessionId
    ensures Matching(SaveSession(table, req, faults).table, other) == Matching(table, other)
    ensures GetSession(SaveSession(table, req, faults).table, other, NoLoadFaults) == GetSession(table, other, NoLoadFaults)
  {
    var r := SaveSession(table, req, faults);
    if r.err.None? {
      var kept, added := Others(table, req.sessionId), RowsOf(req);
      assert r.table == kept + added;
      MatchingAppend(kept, added, other);
      OthersKeepsOtherSession(table, req.sessionId, other);
      NoneOfSession(added, other);
      assert Matching(r.table, other) == Matching(kept, other) + [];
    }
  }

  /** Saving an empty sticker list leaves the session with no rows, so loading it gives nil. */
  lemma SaveEmptyClears(table: seq<Row>, id: string)
    ensures Matching(SaveSession(table, SaveSessionRequest(id, []), NoSaveFaults).table, id) == []
    ensures GetSession(SaveSession(table, SaveSessionRequest(id, []), NoSaveFaults).table, id, NoLoadFaults) == Ok(None)
  {
  }

  /** Saving the same request twice leaves the table as saving it once. */
  lemma SaveIdempotent(table: seq<Row>, req: SaveSessionRequest)
    ensures var once := SaveSession(table, req, NoSaveFaults).table;
            SaveSession(once, req, NoSaveFaults).table == once
  {
    var id := req.sessionId;
    var kept, added := Others(table, id), RowsOf(req);
    var once := kept + added;
    assert SaveSession(table, req, NoSaveFaults).table == once;
    OthersAppend(kept, added, id);
    NoneOfSession(kept, id);
    AllOfSession(added, id);
    assert Others(once, id) == kept + [];
  }
}
