/** The scan of the modified-advisories feed that stops at the first row at or before the cutoff. */
module FeedScan {
  import opened Wrappers
  import opened Text

  datatype Row = Row(time: int, dir: string, id: string)

  function ParseLines(lines: seq<string>, parse: string -> Option<Row>): seq<Row> {
    if lines == [] then []
    else (match parse(lines[0]) case Some(r) => [r] case None => []) + ParseLines(lines[1..], parse)
  }

  predicate Stale(r: Row, cutoff: Option<int>) {
    cutoff.Some? && r.time <= cutoff.value
  }

  predicate Malicious(r: Row) {
    StartsWith(r.id, "MAL-")
  }

  /** The simple form: filter the whole feed. */
  function Recent(rows: seq<Row>, cutoff: Option<int>): seq<Row> {
    if rows == [] then []
    else (if Malicious(rows[0]) && !Stale(rows[0], cutoff) then [rows[0]] else []) + Recent(rows[1..], cutoff)
  }

  /** What the scan that breaks at the first stale row collects, with room for `room` rows. */
  function Scanned(rows: seq<Row>, cutoff: Option<int>, room: nat): seq<Row> {
    if rows == [] || Stale(rows[0], cutoff) then []
    else if !Malicious(rows[0]) then Scanned(rows[1..], cutoff, room)
    else [rows[0]] + if room <= 1 then [] else Scanned(rows[1..], cutoff, room - 1)
  }

  /** A limit below one still lets one row in. */
  function Room(limit: int): nat {
    if limit > 1 then limit else 1
  }

  function First(rows: seq<Row>, n: nat): seq<Row> {
    if |rows| <= n then rows else rows[..n]
  }

  /** No malicious row newer than the cutoff stands behind a stale row; a newest-first feed is such. */
  ghost predicate FreshFirst(rows: seq<Row>, cutoff: Option<int>) {
    forall i, j :: 0 <= i < j < |rows| && Stale(rows[i], cutoff) && Malicious(rows[j]) ==> Stale(rows[j], cutoff)
  }

  ghost predicate NewestFirst(rows: seq<Row>) {
    forall i, j :: 0 <= i < j < |rows| ==> rows[i].time >= rows[j].time
  }

  lemma {:induction false} RecentNone(rows: seq<Row>, cutoff: Option<int>)
    ensures Recent(rows, cutoff) == [] <==> forall r :: r in rows && Malicious(r) ==> Stale(r, cutoff)
  {
    if rows != [] {
      RecentNone(rows[1..], cutoff);
      assert rows == [rows[0]] + rows[1..];
    }
  }

  /** A row is recent exactly when it is of the feed, its id is a malicious one, and it is newer. */
  predicate IsNew(r: Row, cutoff: Option<int>) {
    |r.id| >= 4 && r.id[..4] == "MAL-" && (cutoff.None? || r.time > cutoff.value)
  }

  lemma {:induction false} RecentIff(rows: seq<Row>, cutoff: Option<int>)
    ensures forall r :: multiset(Recent(rows, cutoff))[r] == if IsNew(r, cutoff) then multiset(rows)[r] else 0
  {
    if rows != [] {
      RecentIff(rows[1..], cutoff);
      assert rows == [rows[0]] + rows[1..];
      assert Malicious(rows[0]) <==> |rows[0].id| >= 4 && rows[0].id[..4] == "MAL-";
    }
  }

  lemma FreshFirstTail(rows: seq<Row>, cutoff: Option<int>)
    requires rows != [] && !Stale(rows[0], cutoff)
    ensures FreshFirst(rows, cutoff) <==> FreshFirst(rows[1..], cutoff)
  {
    if FreshFirst(rows[1..], cutoff) {
      forall i, j | 0 <= i < j < |rows| && Stale(rows[i], cutoff) && Malicious(rows[j])
        ensures Stale(rows[j], cutoff)
      {
        assert rows[1..][i - 1] == rows[i] && rows[1..][j - 1] == rows[j];
      }
    }
  }

  lemma NothingBehindStale(rows: seq<Row>, cutoff: Option<int>)
    requires FreshFirst(rows, cutoff) && rows != [] && Stale(rows[0], cutoff)
    ensures Recent(rows, cutoff) == []
  {
    RecentNone(rows, cutoff);
    forall r | r in rows && Malicious(r)
      ensures Stale(r, cutoff)
    {
      var k :| 0 <= k < |rows| && rows[k] == r;
    }
  }

  lemma FirstOfMore(r: Row, rest: seq<Row>, n: nat)
    requires n > 0
    ensures First([r] + rest, n) == [r] + if n == 1 then [] else First(rest, n - 1)
  {
  }

  lemma {:induction false} ScanIsFilter(rows: seq<Row>, cutoff: Option<int>, room: nat)
    requires FreshFirst(rows, cutoff) && room > 0
    ensures Scanned(rows, cutoff, room) == First(Recent(rows, cutoff), room)
  {
    if rows != [] {
      var r, rest := rows[0], rows[1..];
      if Stale(r, cutoff) {
        NothingBehindStale(rows, cutoff);
      } else {
        FreshFirstTail(rows, cutoff);
        if !Malicious(r) {
          ScanIsFilter(rest, cutoff, room);
          assert Recent(rows, cutoff) == Recent(rest, cutoff);
        } else {
          assert Recent(rows, cutoff) == [r] + Recent(rest, cutoff);
          FirstOfMore(r, Recent(rest, cutoff), room);
          if room > 1 {
            ScanIsFilter(rest, cutoff, room - 1);
          }
        }
      }
    }
  }

  lemma {:induction false} ScanMissesFresh(rows: seq<Row>, cutoff: Option<int>, room: nat)
    requires !FreshFirst(rows, cutoff) && room > |Recent(rows, cutoff)|
    ensures |Scanned(rows, cutoff, room)| < |Recent(rows, cutoff)|
  {
    if Stale(rows[0], cutoff) {
      RecentNone(rows, cutoff);
      var i, j :| 0 <= i < j < |rows| && Stale(rows[i], cutoff) && Malicious(rows[j]) && !Stale(rows[j], cutoff);
      assert rows[j] in rows;
    } else {
      FreshFirstTail(rows, cutoff);
      ScanMissesFresh(rows[1..], cutoff, if Malicious(rows[0]) then room - 1 else room);
    }
  }

  /** The early break agrees with filtering everything and then taking the limit, for every limit,
      exactly when no fresh row hides behind a stale one. */
  lemma EarlyBreakExact(rows: seq<Row>, cutoff: Option<int>)
    ensures (forall room: nat :: room > 0 ==> Scanned(rows, cutoff, room) == First(Recent(rows, cutoff), room))
            <==> FreshFirst(rows, cutoff)
  {
    if FreshFirst(rows, cutoff) {
      forall room: nat | room > 0
        ensures Scanned(rows, cutoff, room) == First(Recent(rows, cutoff), room)
      {
        ScanIsFilter(rows, cutoff, room);
      }
    } else {
      var room := |Recent(rows, cutoff)| + 1;
      ScanMissesFresh(rows, cutoff, room);
      assert First(Recent(rows, cutoff), room) == Recent(rows, cutoff);
    }
  }

  /** On a newest-first feed nothing newer than the cutoff is missed exactly when the limit holds
      all of it; otherwise the oldest of them are. */
  lemma NothingMissedIffRoom(rows: seq<Row>, cutoff: Option<int>, room: nat)
    requires NewestFirst(rows) && room > 0
    ensures Scanned(rows, cutoff, room) == Recent(rows, cutoff) <==> |Recent(rows, cutoff)| <= room
  {
    ScanIsFilter(rows, cutoff, room);
  }

  /** The scan, line by line. */
  function ScanLines(lines: seq<string>, parse: string -> Option<Row>, cutoff: Option<int>, room: nat): seq<Row> {
    if lines == [] then []
    else match parse(lines[0])
      case None => ScanLines(lines[1..], parse, cutoff, room)
      case Some(r) =>
        if Stale(r, cutoff) then []
        else if !Malicious(r) then ScanLines(lines[1..], parse, cutoff, room)
        else [r] + if room <= 1 then [] else ScanLines(lines[1..], parse, cutoff, room - 1)
  }

  lemma ScannedOfMore(r: Row, rest: seq<Row>, cutoff: Option<int>, room: nat)
    ensures Scanned([r] + rest, cutoff, room) ==
            if Stale(r, cutoff) then []
            else if !Malicious(r) then Scanned(rest, cutoff, room)
            else [r] + if room <= 1 then [] else Scanned(rest, cutoff, room - 1)
  {
    assert ([r] + rest)[1..] == rest;
  }

  lemma {:induction false} ScanLinesIsScan(
      lines: seq<string>, parse: string -> Option<Row>, cutoff: Option<int>, room: nat)
    ensures ScanLines(lines, parse, cutoff, room) == Scanned(ParseLines(lines, parse), cutoff, room)
  {
    if lines != [] {
      var row, rest := parse(lines[0]), ParseLines(lines[1..], parse);
      ScanLinesIsScan(lines[1..], parse, cutoff, room);
      if row.Some? {
        assert ParseLines(lines, parse) == [row.value] + rest;
        ScannedOfMore(row.value, rest, cutoff, room);
        if room > 1 {
          ScanLinesIsScan(lines[1..], parse, cutoff, room - 1);
        }
      } else {
        assert ParseLines(lines, parse) == rest;
      }
    }
  }

  lemma OneMoreLine(lines: seq<string>, i: nat, parse: string -> Option<Row>, cutoff: Option<int>, room: nat)
    requires i < |lines|
    ensures var row, rest := parse(lines[i]), lines[i + 1..];
      ScanLines(lines[i..], parse, cutoff, room) ==
        if row.None? then ScanLines(rest, parse, cutoff, room)
        else if Stale(row.value, cutoff) then []
        else if !Malicious(row.value) then ScanLines(rest, parse, cutoff, room)
        else [row.value] + if room <= 1 then [] else ScanLines(rest, parse, cutoff, room - 1)
  {
    assert lines[i..][0] == lines[i] && lines[i..][1..] == lines[i + 1..];
  }

  lemma NewestIsFreshFirst(rows: seq<Row>, cutoff: Option<int>)
    requires NewestFirst(rows)
    ensures FreshFirst(rows, cutoff)
  {
  }

  /** The loop itself, line by line. */
  method ScanFeed(lines: seq<string>, cutoff: Option<int>, limit: int, parse: string -> Option<Row>)
    returns (rows: seq<Row>)
    ensures rows == ScanLines(lines, parse, cutoff, Room(limit))
  {
    rows := [];
    ghost var room := Room(limit);
    var i := 0;
    assert lines[0..] == lines;
    while i < |lines|
      invariant 0 <= i <= |lines| && |rows| < room
      invariant rows + ScanLines(lines[i..], parse, cutoff, room - |rows|) == ScanLines(lines, parse, cutoff, room)
    {
      var row := parse(lines[i]);
      OneMoreLine(lines, i, parse, cutoff, room - |rows|);
      i := i + 1;
      if row.None? {
        continue;
      }
      if Stale(row.value, cutoff) {
        break;
      }
      if Malicious(row.value) {
        rows := rows + [row.value];
        if |rows| >= limit {
          break;
        }
      }
    }
  }

  lemma {:induction false} ScannedAreNew(rows: seq<Row>, cutoff: Option<int>, room: nat)
    requires room > 0
    ensures |Scanned(rows, cutoff, room)| <= room
    ensures forall r :: r in Scanned(rows, cutoff, room) ==> r in rows && IsNew(r, cutoff)
  {
    if rows != [] && !Stale(rows[0], cutoff) {
      assert rows == [rows[0]] + rows[1..];
      assert Malicious(rows[0]) <==> |rows[0].id| >= 4 && rows[0].id[..4] == "MAL-";
      if !Malicious(rows[0]) {
        ScannedAreNew(rows[1..], cutoff, room);
      } else if room > 1 {
        ScannedAreNew(rows[1..], cutoff, room - 1);
      }
    }
  }

  /** The first loop of `fetch_recent_malicious`. */
  method RecentRows(lines: seq<string>, cutoff: Option<int>, limit: int, parse: string -> Option<Row>)
    returns (rows: seq<Row>)
    ensures rows == Scanned(ParseLines(lines, parse), cutoff, Room(limit))
    ensures NewestFirst(ParseLines(lines, parse)) ==>
              rows == First(Recent(ParseLines(lines, parse), cutoff), Room(limit))
    ensures forall r :: r in rows ==> r in ParseLines(lines, parse) && IsNew(r, cutoff)
    ensures |rows| <= if limit > 1 then limit else 1
    ensures NewestFirst(ParseLines(lines, parse)) && |rows| < limit ==>
              forall r :: multiset(rows)[r] == if IsNew(r, cutoff) then multiset(ParseLines(lines, parse))[r] else 0
  {
    rows := ScanFeed(lines, cutoff, limit, parse);
    ScannedAreNew(ParseLines(lines, parse), cutoff, Room(limit));
    RecentIff(ParseLines(lines, parse), cutoff);
    ScanLinesIsScan(lines, parse, cutoff, Room(limit));
    if NewestFirst(ParseLines(lines, parse)) {
      NewestIsFreshFirst(ParseLines(lines, parse), cutoff);
      ScanIsFilter(ParseLines(lines, parse), cutoff, Room(limit));
    }
  }
}
