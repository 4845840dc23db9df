/** What the report of a bulk import says of each row, told by the rows alone. */
module ImportReport {
  import opened Prelude
  import opened BulkImport

  /** A control character, NUL to US or DEL, somewhere in the text. */
  predicate Invalid(url: Url) {
    exists i :: 0 <= i < |url| && (url[i] as int < 32 || url[i] as int == 127)
  }

  /** The URL is well formed and not among the sites that were there before. */
  predicate IsNew(existing: set<Url>, row: Row) { row.isHttp && !Invalid(row.url) && row.url !in existing }

  /** Seen alone, the row would create its site. */
  predicate Savable(existing: set<Url>, row: Row) {
    IsNew(existing, row) && row.blocked == None && row.verdict.Accepts?
  }

  /** An earlier row of the same URL would. */
  predicate Earlier(existing: set<Url>, rows: seq<Row>, k: nat)
    requires k < |rows|
  {
    exists j :: 0 <= j < k && Savable(existing, rows[j]) && rows[j].url == rows[k].url
  }

  /** The row passes every check, so that its insert is tried. */
  predicate Inserts(existing: set<Url>, rows: seq<Row>, k: nat)
    requires k < |rows|
  {
    IsNew(existing, rows[k]) && !Earlier(existing, rows, k) && rows[k].blocked == None
  }

  lemma InvalidIs(url: Url)
    ensures Invalid(url) <==> !Storable(url)
  {
    assert forall k :: 0 <= k < |url| ==> (IsControl(url[k]) <==> url[k] as int < 32 || url[k] as int == 127);
  }

  /** The first row of a URL that would create its site does so. */
  lemma {:induction false} CreatedIs(existing: set<Url>, rows: seq<Row>, k: nat)
    requires k < |rows|
    ensures Reports(existing, rows)[k].status == Created <==>
            Savable(existing, rows[k]) && !Earlier(existing, rows, k)
    ensures rows[k].url in Seen(rows, Reports(existing, rows)[..k]) <==> Earlier(existing, rows, k)
    decreases k
  {
    var reports := Reports(existing, rows);
    SeenIs(rows, reports, rows[k].url, k);
    if j :| 0 <= j < k && reports[j].status == Created && rows[j].url == rows[k].url {
      CreatedIs(existing, rows, j);
    }
    if j :| 0 <= j < k && Savable(existing, rows[j]) && rows[j].url == rows[k].url {
      var first := FirstSavable(existing, rows, j);
      CreatedIs(existing, rows, first);
      assert CreatedBefore(rows, reports, rows[k].url, k);
    }
    InvalidIs(rows[k].url);
    ReportAt(existing, rows, k);
    hide Reports, Seen, Storable, Invalid, CreatedBefore, Earlier;
  }

  lemma {:induction false} FirstSavable(existing: set<Url>, rows: seq<Row>, j: nat) returns (i: nat)
    requires j < |rows| && Savable(existing, rows[j])
    ensures i <= j && rows[i].url == rows[j].url && Savable(existing, rows[i]) && !Earlier(existing, rows, i)
    decreases j
  {
    i := j;
    if h :| 0 <= h < j && Savable(existing, rows[h]) && rows[h].url == rows[j].url {
      i := FirstSavable(existing, rows, h);
    }
  }

  /** The import aborts at the first row whose insert is tried and deadlocks. */
  lemma {:induction false} AbortExactly(existing: set<Url>, rows: seq<Row>, k: nat)
    requires k < |rows| && k <= AbortsAt(existing, rows)
    ensures k == AbortsAt(existing, rows) <==> Inserts(existing, rows, k) && rows[k].verdict == Deadlock
  {
    AbortIs(existing, rows, k);
    CreatedIs(existing, rows, k);
    InvalidIs(rows[k].url);
    hide Reports, AbortsAt, Seen, Storable, Invalid, Earlier;
  }

  /** What row k is told if nothing has aborted before it. */
  lemma {:induction false} ReportExactly(existing: set<Url>, rows: seq<Row>, k: nat)
    requires k < |rows|
    ensures var r, row, earlier := Reports(existing, rows)[k], rows[k], Earlier(existing, rows, k);
            var tried := Inserts(existing, rows, k);
            && (r.detail == Some(NotHttp) <==> !row.isHttp)
            && (r.detail == Some(InvalidCharacters) <==> row.isHttp && Invalid(row.url))
            && (r.detail == Some(AlreadyExists) <==>
                  || (row.isHttp && !Invalid(row.url) && row.url in existing)
                  || (tried && row.verdict == UrlTaken))
            && (r.detail == Some(DuplicateOfEarlier) <==> IsNew(existing, row) && earlier)
            && (forall why :: r.detail == Some(Blocked(why)) <==>
                  IsNew(existing, row) && !earlier && row.blocked == Some(why))
            && (r.detail == Some(Unsaved) <==> tried && row.verdict == Rejects)
            && (r.detail == None <==> tried && (row.verdict == Deadlock || row.verdict.Accepts?))
            && (r.status == Created <==> tried && row.verdict.Accepts?)
            && (r.status == Skipped <==> r.detail in {Some(AlreadyExists), Some(DuplicateOfEarlier)})
            && r.site == (if r.status == Created then Some(row.verdict.site) else None)
            && (r.status != Created ==> r.name == row.name)
            && r.detail !in {Some(Lost), Some(CaptureNotQueued)}
  {
    CreatedIs(existing, rows, k);
    InvalidIs(rows[k].url);
    ReportAt(existing, rows, k);
    hide Reports, AbortsAt, Seen, Storable, Invalid, Earlier;
  }

  /** The final report of row k, with and without an abort: every status and every
      detail exactly in its case, and nothing created but by a row that passes the
      address check. */
  lemma {:induction false} FinalExactly(existing: set<Url>, rows: seq<Row>, k: nat)
    requires k < |rows|
    ensures var r, row, d := Final(existing, rows)[k], rows[k], AbortsAt(existing, rows);
            var tried, earlier := Inserts(existing, rows, k), Earlier(existing, rows, k);
            && (r.status == Created <==> d == |rows| && tried && row.verdict.Accepts?)
            && (r.status == Skipped <==> r.detail in {Some(AlreadyExists), Some(DuplicateOfEarlier)})
            && (r.detail == Some(NotHttp) <==> k <= d && !row.isHttp)
            && (r.detail == Some(InvalidCharacters) <==> k <= d && row.isHttp && Invalid(row.url))
            && (r.detail == Some(AlreadyExists) <==>
                  k <= d && (|| (row.isHttp && !Invalid(row.url) && row.url in existing)
                             || (tried && row.verdict == UrlTaken)))
            && (r.detail == Some(DuplicateOfEarlier) <==> k <= d && IsNew(existing, row) && earlier)
            && (forall why :: r.detail == Some(Blocked(why)) <==>
                  k <= d && IsNew(existing, row) && !earlier && row.blocked == Some(why))
            && (r.detail == Some(Unsaved) <==> k <= d && tried && row.verdict == Rejects)
            && (r.detail == Some(Lost) <==> k > d || (k < d < |rows| && tried && row.verdict.Accepts?))
            && r.detail != Some(CaptureNotQueued)
            && r.site == (if r.status == Created then Some(row.verdict.site) else None)
            && (r.status != Created ==>
                  r.name == if k < d < |rows| && tried && row.verdict.Accepts? then None else row.name)
  {
    ReportExactly(existing, rows, k);
    if k <= AbortsAt(existing, rows) {
      AbortExactly(existing, rows, k);
    }
    hide Reports, AbortsAt, Invalid, Earlier, IsNew, Inserts;
  }

  /** The name a created site gets: the given one, or else the one made from the
      URL, and no more than 200 characters of it. */
  lemma {:induction false} CreatedName(existing: set<Url>, rows: seq<Row>, k: nat)
    requires k < |rows| && Final(existing, rows)[k].status == Created
    ensures Final(existing, rows)[k].name.Some?
    ensures var name := Final(existing, rows)[k].name.value;
            var whole := match rows[k].name case None => rows[k].derived
                                            case Some(given) => if given == "" then rows[k].derived else given;
            IsCut(name, whole, 200)
  {
    FinalExactly(existing, rows, k);
    ReportAt(existing, rows, k);
    hide Reports, AbortsAt, Seen, Storable, Inserts;
  }

  // ----- the answer to the caller -----

  lemma {:induction false} CapturesFrom(rows: seq<Row>, results: seq<RowResult>, id: Id)
    requires |results| <= |rows|
    ensures id in Captures(rows, results) <==>
            exists k :: 0 <= k < |results| && results[k].status == Created && rows[k].verdict.Accepts?
                && rows[k].verdict.baseline == id
  {
    if results != [] {
      var n := |results| - 1;
      CapturesFrom(rows, results[..n], id);
      if k :| 0 <= k < n && results[k].status == Created && rows[k].verdict.Accepts? && rows[k].verdict.baseline == id {
        assert results[..n][k] == results[k];
      }
    }
  }

  /** One capture that was not queued puts the remark on every created row and on
      no other; apart from it the answer is the report, row by row. */
  lemma {:induction false} RemarkExactly(existing: set<Url>, rows: seq<Row>, unqueued: set<Id>, answer: ImportResult,
                                         k: nat)
    requires Answers(existing, rows, unqueued, answer) && k < |rows|
    ensures var r, f := answer.results[k], Final(existing, rows)[k];
            && r == f.(detail := r.detail) && r.row == rows[k].no
            && (r.detail == Some(CaptureNotQueued) <==>
                  && f.status == Created
                  && exists j :: 0 <= j < |rows| && Final(existing, rows)[j].status == Created
                       && rows[j].verdict.Accepts? && rows[j].verdict.baseline in unqueued)
            && (r.detail != Some(CaptureNotQueued) ==> r == f)
  {
    FinalExactly(existing, rows, k);
    OneResultEach(existing, rows);
    hide Final, Captures, Count, AbortsAt, Inserts, Earlier, IsNew, Invalid;
    var captures := Captures(rows, Final(existing, rows));
    if i :| 0 <= i < |captures| && captures[i] in unqueued {
      CapturesFrom(rows, Final(existing, rows), captures[i]);
    }
    if j :| 0 <= j < |rows| && Final(existing, rows)[j].status == Created && rows[j].verdict.Accepts?
            && rows[j].verdict.baseline in unqueued
    {
      CapturesFrom(rows, Final(existing, rows), rows[j].verdict.baseline);
      var i :| 0 <= i < |captures| && captures[i] == rows[j].verdict.baseline;
    }
  }
}
