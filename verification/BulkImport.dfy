/** The row loop of a bulk import: one savepoint a row, duplicates inside the
    batch, and an abort that takes earlier rows with it. What a row's parsing,
    its address check and the database answer is given with the row. */
module BulkImport {
  import opened Prelude

  const MAX_ROWS := 500
  const MAX_URL := 2048
  const MAX_NAME := 200

  type Url = string
  type Id = nat

  // What the database would do with the row's insert.
  datatype Verdict = Accepts(site: Id, baseline: Id) | UrlTaken | Deadlock | Rejects

  // blocked is the address check's refusal, derived the name made from the URL.
  datatype Row = Row(no: int, url: Url, name: Option<string>, isHttp: bool, blocked: Option<string>, derived: string,
                     verdict: Verdict)

  datatype Status = Created | Skipped | Error

  datatype Detail =
    | NotHttp | InvalidCharacters | AlreadyExists | DuplicateOfEarlier | Blocked(reason: string) | Unsaved
    | Lost | CaptureNotQueued

  datatype RowResult = RowResult(row: int, url: string, name: Option<string>, status: Status, detail: Option<Detail>,
                                 site: Option<Id>)

  function Cut(s: string, n: nat): (c: string)
    ensures c <= s && |c| == Min(|s|, n)
  {
    if |s| > n then s[..n] else s
  }

  predicate IsControl(ch: char) { ch < ' ' || ch as int == 0x7f }

  predicate Storable(url: Url) { forall k :: 0 <= k < |url| ==> !IsControl(url[k]) }

  function SiteName(row: Row): string {
    Cut(if row.name.Some? && row.name.value != "" then row.name.value else row.derived, MAX_NAME)
  }

  function Refused(row: Row, status: Status, detail: Option<Detail>): RowResult {
    RowResult(row.no, Cut(row.url, MAX_URL), row.name, status, detail, None)
  }

  // ----- what each row comes to, as long as nothing aborts -----

  /** The row passes every check and its insert is tried. */
  predicate Tried(existing: set<Url>, seen: set<Url>, row: Row) {
    row.isHttp && Storable(row.url) && row.url !in existing && row.url !in seen && row.blocked.None?
  }

  function Report(existing: set<Url>, seen: set<Url>, row: Row): RowResult {
    if !row.isHttp then Refused(row, Error, Some(NotHttp))
    else if !Storable(row.url) then Refused(row, Error, Some(InvalidCharacters))
    else if row.url in existing then Refused(row, Skipped, Some(AlreadyExists))
    else if row.url in seen then Refused(row, Skipped, Some(DuplicateOfEarlier))
    else if row.blocked.Some? then Refused(row, Error, Some(Blocked(row.blocked.value)))
    else
      match row.verdict
      case Accepts(site, _) => RowResult(row.no, Cut(row.url, MAX_URL), Some(SiteName(row)), Created, None, Some(site))
      case UrlTaken => Refused(row, Skipped, Some(AlreadyExists))
      case Rejects => Refused(row, Error, Some(Unsaved))
      case Deadlock => Refused(row, Error, None)
  }

  function Seen(rows: seq<Row>, results: seq<RowResult>): set<Url>
    requires |results| <= |rows|
  {
    set k | 0 <= k < |results| && results[k].status == Created :: rows[k].url
  }

  function Reports(existing: set<Url>, rows: seq<Row>): (results: seq<RowResult>)
    ensures |results| == |rows|
  {
    if rows == [] then []
    else
      var before := Reports(existing, rows[..|rows| - 1]);
      before + [Report(existing, Seen(rows, before), rows[|rows| - 1])]
  }

  /** The first row whose insert dies in a deadlock, or the number of rows. */
  function AbortsAt(existing: set<Url>, rows: seq<Row>): (d: nat)
    ensures d <= |rows|
  {
    if rows == [] then 0
    else
      var n := |rows| - 1;
      var d := AbortsAt(existing, rows[..n]);
      if d < n then d
      else if Tried(existing, Seen(rows, Reports(existing, rows[..n])), rows[n]) && rows[n].verdict == Deadlock then n
      else |rows|
  }

  // ----- the whole import -----

  function Voided(r: RowResult): RowResult {
    if r.status == Created then r.(status := Error, site := None, name := None, detail := Some(Lost)) else r
  }

  function Final(existing: set<Url>, rows: seq<Row>): (results: seq<RowResult>)
    ensures |results| == |rows|
  {
    var d := AbortsAt(existing, rows);
    var reports := Reports(existing, rows);
    seq(|rows|, k requires 0 <= k < |rows| =>
      if d == |rows| || k == d then reports[k]
      else if k < d then Voided(reports[k])
      else Refused(rows[k], Error, Some(Lost)))
  }

  /** The baselines of the created rows, in order. */
  function Captures(rows: seq<Row>, results: seq<RowResult>): seq<Id>
    requires |results| <= |rows|
  {
    if results == [] then []
    else
      var n := |results| - 1;
      Captures(rows, results[..n])
      + if results[n].status == Created && rows[n].verdict.Accepts? then [rows[n].verdict.baseline] else []
  }

  function Count(results: seq<RowResult>, status: Status): nat {
    if results == [] then 0
    else Count(results[..|results| - 1], status) + if results[|results| - 1].status == status then 1 else 0
  }

  // ----- what the report says -----

  lemma {:induction false} ReportsPrefix(existing: set<Url>, rows: seq<Row>, n: nat)
    requires n <= |rows|
    ensures Reports(existing, rows)[..n] == Reports(existing, rows[..n])
  {
    if n == |rows| {
      assert rows[..n] == rows;
    } else {
      ReportsPrefix(existing, rows[..|rows| - 1], n);
      assert rows[..|rows| - 1][..n] == rows[..n];
    }
  }

  /** Row k is judged by the rows before it alone. */
  lemma {:induction false} ReportAt(existing: set<Url>, rows: seq<Row>, k: nat)
    requires k < |rows|
    ensures Reports(existing, rows)[k] == Report(existing, Seen(rows, Reports(existing, rows)[..k]), rows[k])
  {
    ReportsPrefix(existing, rows, k + 1);
    assert rows[..k + 1][..k] == rows[..k] && rows[..k + 1][k] == rows[k];
    ReportsPrefix(existing, rows, k);
    var before := Reports(existing, rows[..k]);
    assert forall j :: 0 <= j < k ==> rows[..k + 1][j] == rows[j];
    assert Seen(rows[..k + 1], before) == Seen(rows, before);
    assert Reports(existing, rows)[k] == Reports(existing, rows)[..k + 1][k];
  }

  lemma {:induction false} CreatedRow(existing: set<Url>, rows: seq<Row>, k: nat)
    requires k < |rows| && Reports(existing, rows)[k].status == Created
    ensures rows[k].url !in existing && rows[k].url !in Seen(rows, Reports(existing, rows)[..k])
    ensures rows[k].verdict.Accepts? && Reports(existing, rows)[k].site == Some(rows[k].verdict.site)
  {
    ReportAt(existing, rows, k);
  }

  /** One result for every row, in order; and the three counts add up. */
  lemma {:induction false} OneResultEach(existing: set<Url>, rows: seq<Row>)
    ensures forall k :: 0 <= k < |rows| ==>
            Final(existing, rows)[k].row == rows[k].no && IsCut(Final(existing, rows)[k].url, rows[k].url, 2048)
    ensures Count(Final(existing, rows), Created) + Count(Final(existing, rows), Skipped)
            + Count(Final(existing, rows), Error) == |rows|
  {
    forall k | 0 <= k < |rows|
      ensures Final(existing, rows)[k].row == rows[k].no && IsCut(Final(existing, rows)[k].url, rows[k].url, 2048)
    {
      ReportAt(existing, rows, k);
      hide Reports, AbortsAt, Seen, Storable, SiteName, Cut;
    }
    hide *;
    CountsAdd(Final(existing, rows));
  }

  /** The first n characters of the text, or all of it. */
  predicate IsCut(cut: string, whole: string, n: nat) { cut <= whole && |cut| == Min(|whole|, n) }

  lemma {:induction false} CountsAdd(results: seq<RowResult>)
    ensures Count(results, Created) + Count(results, Skipped) + Count(results, Error) == |results|
  {
    if results != [] {
      CountsAdd(results[..|results| - 1]);
    }
  }

  /** Created URLs are new, pairwise distinct, and carry the site the database made. */
  lemma CreatedOnce(existing: set<Url>, rows: seq<Row>)
    ensures forall k :: 0 <= k < |rows| && Final(existing, rows)[k].status == Created ==> rows[k].url !in existing
    ensures forall k :: 0 <= k < |rows| && Final(existing, rows)[k].status == Created ==>
              rows[k].verdict.Accepts? && Final(existing, rows)[k].site == Some(rows[k].verdict.site)
    ensures var final := Final(existing, rows);
            forall j, k :: 0 <= j < k < |rows| && final[j].status == Created && final[k].status == Created ==>
              rows[j].url != rows[k].url
  {
    hide Reports, AbortsAt;
    var reports := Reports(existing, rows);
    forall k | 0 <= k < |rows| && Final(existing, rows)[k].status == Created
      ensures Final(existing, rows)[k] == reports[k] && rows[k].url !in existing
              && rows[k].url !in Seen(rows, reports[..k])
      ensures rows[k].verdict.Accepts? && Final(existing, rows)[k].site == Some(rows[k].verdict.site)
    {
      AbortIsError(existing, rows);
      CreatedRow(existing, rows, k);
    }
    forall j, k | 0 <= j < k < |rows| && Final(existing, rows)[j].status == Created
        && Final(existing, rows)[k].status == Created
      ensures rows[j].url != rows[k].url
    {
      assert reports[..k][j].status == Created;
      assert rows[j].url in Seen(rows, reports[..k]);
    }
  }

  lemma {:induction false} AbortIsError(existing: set<Url>, rows: seq<Row>)
    ensures AbortsAt(existing, rows) < |rows| ==> Reports(existing, rows)[AbortsAt(existing, rows)].status == Error
  {
    if rows != [] {
      AbortIsError(existing, rows[..|rows| - 1]);
    }
  }

  /** After an abort nothing is reported created, and nothing is to be captured. */
  lemma {:induction false} NothingAfterAbort(existing: set<Url>, rows: seq<Row>)
    requires AbortsAt(existing, rows) < |rows|
    ensures forall k :: 0 <= k < |rows| ==> Final(existing, rows)[k].status != Created
    ensures Captures(rows, Final(existing, rows)) == []
  {
    AbortIsError(existing, rows);
    NoCaptures(rows, Final(existing, rows));
  }

  lemma {:induction false} NoCaptures(rows: seq<Row>, results: seq<RowResult>)
    requires |results| <= |rows| && forall k :: 0 <= k < |results| ==> results[k].status != Created
    ensures Captures(rows, results) == []
  {
    if results != [] {
      NoCaptures(rows, results[..|results| - 1]);
    }
  }

  /** The captures to start are those of the created rows: as many, in order. */
  lemma {:induction false} CapturesMatch(existing: set<Url>, rows: seq<Row>, results: seq<RowResult>)
    requires |results| <= |rows| && forall k :: 0 <= k < |results| && results[k].status == Created ==>
             rows[k].verdict.Accepts?
    ensures |Captures(rows, results)| == Count(results, Created)
    ensures forall k :: 0 <= k < |results| && results[k].status == Created ==>
              Count(results[..k], Created) < |Captures(rows, results)|
              && Captures(rows, results)[Count(results[..k], Created)] == rows[k].verdict.baseline
  {
    if results != [] {
      var n := |results| - 1;
      CapturesMatch(existing, rows, results[..n]);
      forall k | 0 <= k < n ensures results[..n][..k] == results[..k] && results[..n][k] == results[k] {}
    }
  }

  predicate CreatedBefore(rows: seq<Row>, results: seq<RowResult>, url: Url, k: nat)
    requires k <= |results| <= |rows|
  {
    exists j :: 0 <= j < k && results[j].status == Created && rows[j].url == url
  }

  lemma SeenIs(rows: seq<Row>, results: seq<RowResult>, url: Url, k: nat)
    requires k <= |results| <= |rows|
    ensures url in Seen(rows, results[..k]) <==> CreatedBefore(rows, results, url, k)
  {
    if j :| 0 <= j < k && results[j].status == Created && rows[j].url == url {
      assert results[..k][j] == results[j];
    }
  }

  /** A row is called a duplicate exactly when an earlier row of its URL had been
      created; after an abort that earlier row may itself be reported lost. */
  lemma {:induction false} DuplicateMeansCreatedBefore(existing: set<Url>, rows: seq<Row>, k: nat)
    requires k < |rows| && (AbortsAt(existing, rows) == |rows| || k <= AbortsAt(existing, rows))
    requires rows[k].isHttp && Storable(rows[k].url) && rows[k].url !in existing
    ensures Final(existing, rows)[k].detail == Some(DuplicateOfEarlier) <==>
            CreatedBefore(rows, Reports(existing, rows), rows[k].url, k)
  {
    hide Reports, AbortsAt, Seen, CreatedBefore, Storable;
    ReportAt(existing, rows, k);
    SeenIs(rows, Reports(existing, rows), rows[k].url, k);
  }

  /** In the report the caller gets, a duplicate's earlier row is there as created
      exactly if the import was not aborted. */
  lemma {:induction false} DuplicateInReport(existing: set<Url>, rows: seq<Row>, k: nat)
    requires k < |rows| && Final(existing, rows)[k].detail == Some(DuplicateOfEarlier)
    ensures CreatedBefore(rows, Final(existing, rows), rows[k].url, k) <==> AbortsAt(existing, rows) == |rows|
  {
    hide Reports, AbortsAt, Seen, Storable;
    ReportAt(existing, rows, k);
    if AbortsAt(existing, rows) < |rows| {
      NothingAfterAbort(existing, rows);
    } else {
      DuplicateMeansCreatedBefore(existing, rows, k);
      assert Final(existing, rows) == Reports(existing, rows);
    }
  }

  /** An error without a detail is the row that aborted the import, and no other. */
  lemma {:induction false} NoDetailMeansAbort(existing: set<Url>, rows: seq<Row>, k: nat)
    requires k < |rows|
    ensures Final(existing, rows)[k].status == Error && Final(existing, rows)[k].detail == None <==>
            k == AbortsAt(existing, rows)
  {
    ReportAt(existing, rows, k);
    if k <= AbortsAt(existing, rows) {
      AbortIs(existing, rows, k);
    }
    hide Reports, AbortsAt, Seen, Storable;
  }

  /** The abort is the first insert that is tried and deadlocks. */
  lemma {:induction false} AbortIs(existing: set<Url>, rows: seq<Row>, k: nat)
    requires k < |rows| && k <= AbortsAt(existing, rows)
    ensures k == AbortsAt(existing, rows) <==>
            Tried(existing, Seen(rows, Reports(existing, rows)[..k]), rows[k]) && rows[k].verdict == Deadlock
  {
    hide Tried, Storable;
    var n := |rows| - 1;
    ReportsPrefix(existing, rows, n);
    if k < n {
      AbortIs(existing, rows[..n], k);
      assert Reports(existing, rows)[..n][..k] == Reports(existing, rows)[..k];
      assert Seen(rows[..n], Reports(existing, rows)[..k]) == Seen(rows, Reports(existing, rows)[..k]) by {
        assert forall j :: 0 <= j < k ==> rows[..n][j] == rows[j];
      }
    }
  }

  /** So an aborted import can leave a URL out that no row of the report created. */
  lemma {:induction false} SkippedForALostRow(a: Row, b: Row)
    requires Tried({}, {}, a) && a.verdict.Accepts? && Tried({}, {a.url}, b) && b.verdict == Deadlock
    ensures AbortsAt({}, [a, a, b]) == 2
    ensures Final({}, [a, a, b])[0].status == Error && Final({}, [a, a, b])[0].detail == Some(Lost)
    ensures Final({}, [a, a, b])[1].status == Skipped && Final({}, [a, a, b])[1].detail == Some(DuplicateOfEarlier)
    ensures Final({}, [a, a, b])[2].status == Error && Final({}, [a, a, b])[2].detail == None
  {
    hide Cut, SiteName, IsControl;
    var rows := [a, a, b];
    assert rows[..2] == [a, a] && rows[..2][..1] == [a] && rows[..2][..1][..0] == [];
    var one := Reports({}, [a]);
    assert one == [Report({}, {}, a)];
    assert one[0].status == Created;
    assert Seen([a, a], one) == {a.url};
    var two := Reports({}, [a, a]);
    assert two == [Report({}, {}, a), Report({}, {a.url}, a)];
    assert two[1].status == Skipped && Seen(rows, two) == {a.url};
    assert AbortsAt({}, [a]) == 1 && AbortsAt({}, [a, a]) == 2;
  }

  // ----- the endpoint -----

  datatype ImportResult = ImportResult(totalRows: nat, created: nat, skipped: nat, errors: nat, results: seq<RowResult>)

  datatype Stored = Stored(url: Url, site: Id, baseline: Id)

  /** What a run of rows leaves in the open transaction. */
  function Inserted(rows: seq<Row>, results: seq<RowResult>): seq<Stored>
    requires |results| <= |rows|
  {
    if results == [] then []
    else
      var n := |results| - 1;
      Inserted(rows, results[..n])
      + if results[n].status == Created && rows[n].verdict.Accepts?
        then [Stored(rows[n].url, rows[n].verdict.site, rows[n].verdict.baseline)] else []
  }

  /** The committed sites are the created rows' own: new and distinct URLs, and
      the baselines that are queued for capture, position for position. */
  lemma {:induction false} StoredIsReported(existing: set<Url>, rows: seq<Row>, n: nat)
    requires n <= |rows|
    ensures var stored, captures := Inserted(rows, Final(existing, rows)[..n]),
            Captures(rows, Final(existing, rows)[..n]);
            && |stored| == |captures| == Count(Final(existing, rows)[..n], Created)
            && (forall i :: 0 <= i < |stored| ==> stored[i].baseline == captures[i] && stored[i].url !in existing
                                                  && FromCreated(existing, rows, n, stored[i]))
            && (forall i, j :: 0 <= i < j < |stored| ==> stored[i].url != stored[j].url)
  {
    if n > 0 {
      StoredIsReported(existing, rows, n - 1);
      CreatedOnce(existing, rows);
      hide Final, Inserted, Captures, Count;
      OneMoreRow(existing, rows, n - 1);
    }
  }

  predicate FromCreated(existing: set<Url>, rows: seq<Row>, n: nat, x: Stored)
    requires n <= |rows|
  {
    exists k :: 0 <= k < n && Final(existing, rows)[k].status == Created && rows[k].url == x.url
        && rows[k].verdict == Accepts(x.site, x.baseline)
  }

  lemma {:induction false} OneMoreRow(existing: set<Url>, rows: seq<Row>, n: nat)
    requires n < |rows|
    ensures var before, after := Final(existing, rows)[..n], Final(existing, rows)[..n + 1];
            var adds := Final(existing, rows)[n].status == Created && rows[n].verdict.Accepts?;
            && Captures(rows, after) == Captures(rows, before) + (if adds then [rows[n].verdict.baseline] else [])
            && Inserted(rows, after) == Inserted(rows, before)
                 + (if adds then [Stored(rows[n].url, rows[n].verdict.site, rows[n].verdict.baseline)] else [])
            && Count(after, Created)
               == Count(before, Created) + if Final(existing, rows)[n].status == Created then 1 else 0
  {
    hide Final;
    assert Final(existing, rows)[..n + 1][..n] == Final(existing, rows)[..n];
  }

  lemma {:induction false} AbortStays(existing: set<Url>, rows: seq<Row>, n: nat)
    requires n <= |rows| && AbortsAt(existing, rows[..n]) < n
    ensures AbortsAt(existing, rows) == AbortsAt(existing, rows[..n])
  {
    if n == |rows| {
      assert rows[..n] == rows;
    } else {
      assert rows[..|rows| - 1][..n] == rows[..n];
      AbortStays(existing, rows[..|rows| - 1], n);
    }
  }

  lemma {:induction false} NextReport(existing: set<Url>, rows: seq<Row>, k: nat)
    requires k < |rows|
    ensures Reports(existing, rows[..k + 1])
         == Reports(existing, rows[..k]) + [Report(existing, Seen(rows, Reports(existing, rows[..k])), rows[k])]
    ensures AbortsAt(existing, rows[..k]) == k ==>
              AbortsAt(existing, rows[..k + 1])
              == if Tried(existing, Seen(rows, Reports(existing, rows[..k])), rows[k]) && rows[k].verdict == Deadlock
                 then k else k + 1
  {
    assert rows[..k + 1][..k] == rows[..k];
    var before := Reports(existing, rows[..k]);
    assert forall j :: 0 <= j < k ==> rows[..k + 1][j] == rows[j];
    assert Seen(rows[..k + 1], before) == Seen(rows, before);
  }

  lemma SeenMore(rows: seq<Row>, results: seq<RowResult>, r: RowResult)
    requires |results| < |rows|
    ensures Seen(rows, results + [r]) == Seen(rows, results) + if r.status == Created then {rows[|results|].url} else {}
  {
    hide Seen, CreatedBefore;
    var more, n := results + [r], |results|;
    assert more[..n + 1] == more && results[..n] == results;
    forall url
      ensures url in Seen(rows, more) <==> url in Seen(rows, results) || (r.status == Created && url == rows[n].url)
    {
      SeenIs(rows, more, url, n + 1);
      SeenIs(rows, results, url, n);
      CreatedBeforeMore(rows, results, r, url);
    }
  }

  lemma CreatedBeforeMore(rows: seq<Row>, results: seq<RowResult>, r: RowResult, url: Url)
    requires |results| < |rows|
    ensures CreatedBefore(rows, results + [r], url, |results| + 1)
       <==> CreatedBefore(rows, results, url, |results|) || (r.status == Created && url == rows[|results|].url)
  {
    var more, n := results + [r], |results|;
    assert more[n] == r && forall j :: 0 <= j < n ==> more[j] == results[j];
    if j :| 0 <= j < n && results[j].status == Created && rows[j].url == url {
      assert more[j].status == Created;
    }
    if r.status == Created && url == rows[n].url {
      assert more[n].status == Created;
    }
  }

  lemma {:induction false} ListsMore(rows: seq<Row>, results: seq<RowResult>, r: RowResult)
    requires |results| < |rows|
    ensures Captures(rows, results + [r])
         == Captures(rows, results) + if r.status == Created && rows[|results|].verdict.Accepts?
                                      then [rows[|results|].verdict.baseline] else []
    ensures Inserted(rows, results + [r])
         == Inserted(rows, results) + if r.status == Created && rows[|results|].verdict.Accepts?
                                      then [Stored(rows[|results|].url, rows[|results|].verdict.site,
                                                   rows[|results|].verdict.baseline)] else []
  {
    assert (results + [r])[..|results|] == results;
  }

  /** One row: the checks, then the insert on its own savepoint. */
  method ImportRow(existing: set<Url>, seen: set<Url>, row: Row) returns (result: RowResult, aborted: bool)
    ensures result == Report(existing, seen, row)
    ensures aborted <==> Tried(existing, seen, row) && row.verdict == Deadlock
  {
    result, aborted := Refused(row, Error, None), false;
    if !row.isHttp {
      result := result.(detail := Some(NotHttp));
    } else if !Storable(row.url) {
      result := result.(detail := Some(InvalidCharacters));
    } else if row.url in existing {
      result := result.(status := Skipped, detail := Some(AlreadyExists));
    } else if row.url in seen {
      result := result.(status := Skipped, detail := Some(DuplicateOfEarlier));
    } else if row.blocked.Some? {
      result := result.(detail := Some(Blocked(row.blocked.value)));
    } else {
      match row.verdict
      case Accepts(site, _) => result := result.(status := Created, site := Some(site), name := Some(SiteName(row)));
      case UrlTaken => result := result.(status := Skipped, detail := Some(AlreadyExists));
      case Rejects => result := result.(detail := Some(Unsaved));
      case Deadlock => aborted := true;
    }
  }

  /** Takes back every row reported created so far. */
  method VoidCreated(before: seq<RowResult>) returns (results: seq<RowResult>)
    ensures |results| == |before| && forall k :: 0 <= k < |before| ==> results[k] == Voided(before[k])
  {
    results := before;
    for k := 0 to |results|
      invariant |results| == |before|
      invariant forall j :: 0 <= j < k ==> results[j] == Voided(before[j])
      invariant forall j :: k <= j < |before| ==> results[j] == before[j]
    {
      if results[k].status == Created {
        results := results[k := results[k].(status := Error, site := None, name := None, detail := Some(Lost))];
      }
    }
  }

  // Between two rows, nothing having aborted.
  predicate Going(existing: set<Url>, rows: seq<Row>, seen: set<Url>, results: seq<RowResult>, captures: seq<Id>,
                  stored: seq<Stored>) {
    && |results| <= |rows| && results == Reports(existing, rows[..|results|])
    && AbortsAt(existing, rows[..|results|]) == |results|
    && seen == Seen(rows, results) && captures == Captures(rows, results) && stored == Inserted(rows, results)
  }

  // Right after the row that aborted.
  predicate Stopped(existing: set<Url>, rows: seq<Row>, results: seq<RowResult>) {
    && 0 < |results| <= |rows| && AbortsAt(existing, rows) == |results| - 1
    && results == Final(existing, rows)[..|results|]
  }

  lemma GoesOn(existing: set<Url>, rows: seq<Row>, seen: set<Url>, results: seq<RowResult>, captures: seq<Id>,
               stored: seq<Stored>)
    requires |results| < |rows| && Going(existing, rows, seen, results, captures, stored)
    ensures var row := rows[|results|];
            var result := Report(existing, seen, row);
            !(Tried(existing, seen, row) && row.verdict == Deadlock) ==>
              if result.status == Created
              then row.verdict.Accepts?
                  && Going(existing, rows, seen + {row.url}, results + [result], captures + [row.verdict.baseline],
                                                 stored + [Stored(row.url, row.verdict.site, row.verdict.baseline)])
              else Going(existing, rows, seen, results + [result], captures, stored)
  {
    hide Seen, Captures, Inserted, Reports, AbortsAt, Tried;
    var row := rows[|results|];
    NextReport(existing, rows, |results|);
    SeenMore(rows, results, Report(existing, seen, row));
    ListsMore(rows, results, Report(existing, seen, row));
  }

  lemma Stops(existing: set<Url>, rows: seq<Row>, seen: set<Url>, results: seq<RowResult>, captures: seq<Id>,
              stored: seq<Stored>, voided: seq<RowResult>)
    requires |results| < |rows| && Going(existing, rows, seen, results, captures, stored)
    requires Tried(existing, seen, rows[|results|]) && rows[|results|].verdict == Deadlock
    requires |voided| == |results| && forall k :: 0 <= k < |voided| ==> voided[k] == Voided(results[k])
    ensures Stopped(existing, rows, voided + [Report(existing, seen, rows[|results|])])
  {
    hide Seen, Captures, Inserted, Reports, AbortsAt, Tried, Report, Voided;
    var k := |results|;
    NextReport(existing, rows, k);
    AbortStays(existing, rows, k + 1);
    ReportsPrefix(existing, rows, k + 1);
    assert forall j :: 0 <= j <= k ==> Reports(existing, rows)[j] == (results + [Report(existing, seen, rows[k])])[j];
  }

  /** The loop over the rows, left early by an abort. */
  method RunRows(existing: set<Url>, rows: seq<Row>)
    returns (results: seq<RowResult>, captures: seq<Id>, stored: seq<Stored>, deadlocked: bool)
    ensures deadlocked ==> Stopped(existing, rows, results) && captures == [] && stored == []
    ensures !deadlocked ==> |results| == |rows| && exists seen :: Going(existing, rows, seen, results, captures, stored)
  {
    results, captures, stored, deadlocked := [], [], [], false;
    var seen: set<Url> := {};
    assert Going(existing, rows, seen, [], [], []);
    hide *;
    while |results| < |rows|
      invariant Going(existing, rows, seen, results, captures, stored) && |results| <= |rows|
      decreases |rows| - |results|
    {
      var row := rows[|results|];
      var result, aborted := ImportRow(existing, seen, row);
      GoesOn(existing, rows, seen, results, captures, stored);
      if aborted {
        var voided := VoidCreated(results);
        Stops(existing, rows, seen, results, captures, stored, voided);
        return voided + [result], [], [], true;
      }
      if result.status == Created {
        captures := captures + [row.verdict.baseline];
        stored := stored + [Stored(row.url, row.verdict.site, row.verdict.baseline)];
        seen := seen + {row.url};
      }
      results := results + [result];
    }
  }

  /** All rows in one transaction. stored is what the transaction then commits. */
  method ImportRows(existing: set<Url>, rows: seq<Row>)
    returns (results: seq<RowResult>, captures: seq<Id>, stored: seq<Stored>)
    ensures results == Final(existing, rows)
    ensures captures == Captures(rows, results) && stored == Inserted(rows, results)
  {
    hide Reports, AbortsAt, Captures, Inserted, Seen;
    var deadlocked;
    results, captures, stored, deadlocked := RunRows(existing, rows);
    if deadlocked {
      ghost var done := |results|;
      for k := |results| to |rows|
        invariant |results| == k && results == Final(existing, rows)[..k] && done <= k
      {
        results := results + [Refused(rows[k], Error, Some(Lost))];
      }
      NothingAfterAbort(existing, rows);
      NothingInserted(rows, results);
    } else {
      assert rows[..|results|] == rows;
      assert results == Final(existing, rows);
    }
  }

  /** Queues the captures; one failure puts a remark on every created row. */
  method RemarkCreated(before: seq<RowResult>, captures: seq<Id>, unqueued: set<Id>) returns (results: seq<RowResult>)
    ensures |results| == |before|
    ensures forall k :: 0 <= k < |before| ==> results[k] == Remarked(before[k], AnyUnqueued(captures, unqueued))
  {
    results := before;
    var failed := 0;
    for k := 0 to |captures|
      invariant failed > 0 <==> AnyUnqueued(captures[..k], unqueued)
    {
      if captures[k] in unqueued {
        failed := failed + 1;
      }
      MoreUnqueued(captures, k, unqueued);
    }
    assert captures[..|captures|] == captures;
    if failed > 0 {
      for k := 0 to |results|
        invariant |results| == |before|
        invariant forall j :: 0 <= j < k ==> results[j] == Remarked(before[j], true)
        invariant forall j :: k <= j < |before| ==> results[j] == before[j]
      {
        if results[k].status == Created {
          results := results[k := results[k].(detail := Some(CaptureNotQueued))];
        }
      }
    }
  }

  lemma MoreUnqueued(captures: seq<Id>, k: nat, unqueued: set<Id>)
    requires k < |captures|
    ensures AnyUnqueued(captures[..k + 1], unqueued) <==>
            AnyUnqueued(captures[..k], unqueued) || captures[k] in unqueued
  {
    if j :| 0 <= j < k && captures[..k][j] in unqueued {
      assert captures[..k + 1][j] in unqueued;
    }
    if captures[k] in unqueued {
      assert captures[..k + 1][k] in unqueued;
    }
    if AnyUnqueued(captures[..k + 1], unqueued) && captures[k] !in unqueued {
      var j :| 0 <= j < k + 1 && captures[..k + 1][j] in unqueued;
      assert captures[..k][j] in unqueued;
    }
  }

  /** What the endpoint answers: at least one row, the first MAX_ROWS of them, and
      a remark on every created row if any capture could not be queued. */
  method Import(existing: set<Url>, parsed: seq<Row>, unqueued: set<Id>)
    returns (answer: Option<ImportResult>, stored: seq<Stored>)
    ensures answer.None? <==> parsed == []
    ensures answer.None? ==> stored == []
    ensures answer.Some? ==>
            Answers(existing, Take(parsed), unqueued, answer.value)
                && stored == Inserted(Take(parsed), Final(existing, Take(parsed)))
  {
    if parsed == [] {
      return None, [];
    }
    var rows := if |parsed| > MAX_ROWS then parsed[..MAX_ROWS] else parsed;
    var results, captures;
    results, captures, stored := ImportRows(existing, rows);
    var created := CountStatus(results, Created);
    var skipped := CountStatus(results, Skipped);
    var errors := CountStatus(results, Error);
    results := RemarkCreated(results, captures, unqueued);
    answer := Some(ImportResult(|results|, created, skipped, errors, results));
  }

  function Take(parsed: seq<Row>): (rows: seq<Row>)
    ensures rows <= parsed && |rows| == Min(|parsed|, 500)
  {
    if |parsed| > MAX_ROWS then parsed[..MAX_ROWS] else parsed
  }

  function Remarked(r: RowResult, failed: bool): RowResult {
    if failed && r.status == Created then r.(detail := Some(CaptureNotQueued)) else r
  }

  predicate AnyUnqueued(captures: seq<Id>, unqueued: set<Id>) {
    exists j :: 0 <= j < |captures| && captures[j] in unqueued
  }

  predicate Answers(existing: set<Url>, rows: seq<Row>, unqueued: set<Id>, answer: ImportResult) {
    var final := Final(existing, rows);
    && answer.totalRows == |rows| == |answer.results|
    && answer.created == Count(final, Created) && answer.skipped == Count(final, Skipped)
    && answer.errors == Count(final, Error)
    && (forall k :: 0 <= k < |rows| ==>
          answer.results[k] == Remarked(final[k], AnyUnqueued(Captures(rows, final), unqueued)))
  }

  method CountStatus(results: seq<RowResult>, status: Status) returns (n: nat)
    ensures n == Count(results, status)
  {
    n := 0;
    for k := 0 to |results|
      invariant n == Count(results[..k], status)
    {
      if results[k].status == status {
        n := n + 1;
      }
      assert results[..k + 1][..k] == results[..k];
    }
    assert results[..|results|] == results;
  }

  lemma {:induction false} NothingInserted(rows: seq<Row>, results: seq<RowResult>)
    requires |results| <= |rows| && forall k :: 0 <= k < |results| ==> results[k].status != Created
    ensures Inserted(rows, results) == []
  {
    if results != [] {
      NothingInserted(rows, results[..|results| - 1]);
    }
  }
}
