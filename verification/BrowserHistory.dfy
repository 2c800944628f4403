/**
 The browser monitor's watermark cursors: each poll reports at most the 100 latest
 visits above the watermark, newest first, and raises the watermark to the newest.
 */
module BrowserHistory {
  const LIMIT := 100

  datatype Visit = Visit(url: string, time: int)

  function Above(table: seq<Visit>, watermark: int): seq<Visit> {
    if table == [] then []
    else (if table[0].time > watermark then [table[0]] else []) + Above(table[1..], watermark)
  }

  /** `SELECT ... WHERE time > watermark ORDER BY time DESC LIMIT 100`; ties may come in any order. */
  ghost predicate Answers(table: seq<Visit>, watermark: int, rows: seq<Visit>) {
    && |rows| == (if |Above(table, watermark)| < LIMIT then |Above(table, watermark)| else LIMIT)
    && multiset(rows) <= multiset(Above(table, watermark))
    && (forall i, j :: 0 <= i < j < |rows| ==> rows[i].time >= rows[j].time)
    && (forall v, i :: v in multiset(Above(table, watermark)) - multiset(rows) && 0 <= i < |rows| ==>
          v.time <= rows[i].time)
  }

  function Raised(watermark: int, rows: seq<Visit>): int {
    if rows == [] then watermark
    else
      var w := Raised(watermark, rows[..|rows| - 1]);
      if rows[|rows| - 1].time > w then rows[|rows| - 1].time else w
  }

  /** The cursor of one browser. */
  class HistoryCursor {
    var lastTimestamp: int

    constructor (now: int)
      ensures lastTimestamp == now
    {
      lastTimestamp := now;
    }

    /** `rows` is what the query returned for the present watermark. */
    method ReadHistory(rows: seq<Visit>) returns (events: seq<Visit>)
      modifies this
      ensures events == rows
      ensures lastTimestamp >= old(lastTimestamp) && forall v :: v in rows ==> v.time <= lastTimestamp
      ensures lastTimestamp == old(lastTimestamp) || exists v :: v in rows && v.time == lastTimestamp
      ensures lastTimestamp == Raised(old(lastTimestamp), rows)
    {
      events := [];
      for i := 0 to |rows|
        invariant events == rows[..i]
        invariant lastTimestamp == Raised(old(lastTimestamp), rows[..i])
      {
        assert rows[..i + 1][..i] == rows[..i];
        events := events + [rows[i]];
        if rows[i].time > lastTimestamp {
          lastTimestamp := rows[i].time;
        }
      }
      assert rows[..|rows|] == rows;
      RaisedIsMaximum(old(lastTimestamp), rows);
    }
  }

  // ---- runs of polls ------------------------------------------------------

  /** The history table a poll met and the rows it reported. */
  datatype Poll = Poll(table: seq<Visit>, rows: seq<Visit>)

  function Watermark(start: int, polls: seq<Poll>): int {
    if polls == [] then start
    else Raised(Watermark(start, polls[..|polls| - 1]), polls[|polls| - 1].rows)
  }

  ghost predicate IsRun(start: int, polls: seq<Poll>) {
    forall i :: 0 <= i < |polls| ==> Answers(polls[i].table, Watermark(start, polls[..i]), polls[i].rows)
  }

  lemma {:induction false} InAbove(table: seq<Visit>, watermark: int, v: Visit)
    ensures v in Above(table, watermark) <==> v in table && v.time > watermark
    ensures multiset(Above(table, watermark))[v] == if v.time > watermark then multiset(table)[v] else 0
  {
    if table != [] {
      assert table == [table[0]] + table[1..];
      InAbove(table[1..], watermark, v);
    }
  }

  lemma {:induction false} RaisedIsMaximum(watermark: int, rows: seq<Visit>)
    ensures Raised(watermark, rows) >= watermark
    ensures forall v :: v in rows ==> v.time <= Raised(watermark, rows)
    ensures Raised(watermark, rows) == watermark || exists v :: v in rows && v.time == Raised(watermark, rows)
  {
    if rows != [] {
      RaisedIsMaximum(watermark, rows[..|rows| - 1]);
    }
  }

  lemma RowsAreAbove(table: seq<Visit>, watermark: int, rows: seq<Visit>, v: Visit)
    requires Answers(table, watermark, rows) && v in rows
    ensures v in table && v.time > watermark
  {
    assert v in multiset(rows);
    assert v in multiset(Above(table, watermark));
    InAbove(table, watermark, v);
  }

  /** The watermark before poll j is at least as high as everything reported before. */
  lemma {:induction false} WatermarkCoversReports(start: int, polls: seq<Poll>, i: nat, v: Visit)
    requires i < |polls| && v in polls[i].rows
    ensures v.time <= Watermark(start, polls)
  {
    var k := |polls| - 1;
    RaisedIsMaximum(Watermark(start, polls[..k]), polls[k].rows);
    if i < k {
      WatermarkCoversReports(start, polls[..k], i, v);
    }
  }

  /** Every visit reported later is newer than every visit reported before. */
  lemma LaterReportsAreNewer(start: int, polls: seq<Poll>, i: nat, j: nat, v: Visit, w: Visit)
    requires IsRun(start, polls) && i < j < |polls| && v in polls[i].rows && w in polls[j].rows
    ensures v.time < w.time
  {
    WatermarkCoversReports(start, polls[..j], i, v);
    RowsAreAbove(polls[j].table, Watermark(start, polls[..j]), polls[j].rows, w);
  }

  /** A visit the limit cut off lies at or below the new watermark. */
  lemma CutOffIsCovered(table: seq<Visit>, watermark: int, rows: seq<Visit>, v: Visit)
    requires Answers(table, watermark, rows) && v in Above(table, watermark)
    ensures v.time <= Raised(watermark, rows)
  {
    RaisedIsMaximum(watermark, rows);
    if v !in rows {
      assert multiset(rows)[v] == 0 && v in multiset(Above(table, watermark)) - multiset(rows);
      assert rows != [];
      assert rows[0] in rows;
    }
  }

  lemma {:induction false} WatermarkRises(start: int, polls: seq<Poll>, k: nat)
    requires k <= |polls|
    ensures Watermark(start, polls[..k]) <= Watermark(start, polls)
  {
    if k < |polls| {
      var n := |polls| - 1;
      WatermarkRises(start, polls[..n], k);
      assert polls[..n][..k] == polls[..k];
      RaisedIsMaximum(Watermark(start, polls[..n]), polls[n].rows);
    } else {
      assert polls[..k] == polls;
    }
  }

  lemma SeenIsCovered(start: int, polls: seq<Poll>, i: nat, v: Visit)
    requires IsRun(start, polls) && i < |polls|
    requires v in polls[i].table && v.time > Watermark(start, polls[..i])
    ensures v.time <= Watermark(start, polls[..i + 1])
  {
    InAbove(polls[i].table, Watermark(start, polls[..i]), v);
    CutOffIsCovered(polls[i].table, Watermark(start, polls[..i]), polls[i].rows, v);
    assert polls[..i + 1][..i] == polls[..i];
  }

  /** A visit above the watermark is reported by the first poll that meets it or by none at all. */
  lemma ReportedAtOnceOrNever(start: int, polls: seq<Poll>, i: nat, j: nat, v: Visit)
    requires IsRun(start, polls) && i < j < |polls|
    requires v in polls[i].table && v.time > Watermark(start, polls[..i])
    ensures v !in polls[j].rows
  {
    SeenIsCovered(start, polls, i, v);
    assert polls[..j][..i + 1] == polls[..i + 1];
    WatermarkRises(start, polls[..j], i + 1);
    if v in polls[j].rows {
      RowsAreAbove(polls[j].table, Watermark(start, polls[..j]), polls[j].rows, v);
    }
  }

  /** No poll meets more than 100 visits above its watermark, and what appears between polls lies above it. */
  ghost predicate Unhurried(start: int, polls: seq<Poll>) {
    && (forall i :: 0 <= i < |polls| ==> |Above(polls[i].table, Watermark(start, polls[..i]))| <= LIMIT)
    && (forall i, j, v :: 0 <= i < j < |polls| && j == i + 1 && v in polls[j].table && v !in polls[i].table ==>
          v.time > Watermark(start, polls[..j]))
  }

  lemma AllAboveReported(table: seq<Visit>, watermark: int, rows: seq<Visit>, v: Visit)
    requires Answers(table, watermark, rows) && |Above(table, watermark)| <= LIMIT
    requires v in table && v.time > watermark
    ensures v in rows
  {
    var above := multiset(Above(table, watermark));
    InAbove(table, watermark, v);
    var missing := above - multiset(rows);
    assert above == multiset(rows) + missing;
    assert |missing| == 0;
    assert missing == multiset{};
    assert v in above;
  }

  lemma ReportedByOnePoll(start: int, polls: seq<Poll>, i: nat, j: nat, v: Visit)
    requires IsRun(start, polls) && i < |polls| && j < |polls|
    requires v in polls[i].rows && v in polls[j].rows
    ensures i == j
  {
    if i < j {
      LaterReportsAreNewer(start, polls, i, j, v, v);
    } else if j < i {
      LaterReportsAreNewer(start, polls, j, i, v, v);
    }
  }

  lemma FirstMeetingReports(start: int, polls: seq<Poll>, i: nat, v: Visit)
    requires IsRun(start, polls) && Unhurried(start, polls)
    requires i < |polls| && v in polls[i].table && v.time > start
    requires i > 0 ==> v !in polls[i - 1].table
    ensures v in polls[i].rows
  {
    if i == 0 {
      assert polls[..i] == [];
    }
    AllAboveReported(polls[i].table, Watermark(start, polls[..i]), polls[i].rows, v);
  }

  lemma {:induction false} FirstMeeting(polls: seq<Poll>, i: nat, v: Visit) returns (first: nat)
    requires i < |polls| && v in polls[i].table
    ensures first <= i && v in polls[first].table
    ensures first > 0 ==> v !in polls[first - 1].table
    decreases i
  {
    first := i;
    if i > 0 && v in polls[i - 1].table {
      first := FirstMeeting(polls, i - 1, v);
    }
  }

  /** Each visit newer than the start that any poll meets is reported by exactly one poll, and by then. */
  lemma ReportedExactlyOnce(start: int, polls: seq<Poll>, i: nat, v: Visit) returns (at: nat)
    requires IsRun(start, polls) && Unhurried(start, polls)
    requires i < |polls| && v in polls[i].table && v.time > start
    ensures at <= i && forall j :: 0 <= j < |polls| ==> (v in polls[j].rows <==> j == at)
  {
    at := FirstMeeting(polls, i, v);
    FirstMeetingReports(start, polls, at, v);
    forall j | 0 <= j < |polls| && v in polls[j].rows
      ensures j == at
    {
      ReportedByOnePoll(start, polls, j, at, v);
    }
  }
}
