/** The `env_dashboard` table, as an abstract sequence of rows, and the two
    statements the writer issues against it. */
module DashboardTable {

  /** The value the database's `current_timestamp` yields when a statement runs. */
  type Timestamp = nat

  /** One row of `env_dashboard`, columns in declaration order:
      envComp, jobUrl, buildNum, buildStatus, envName, compName, created_at, buildJobUrl. */
  datatype Row = Row(
    envComp: string,
    jobUrl: string,
    buildNum: string,
    buildStatus: string,
    envName: string,
    compName: string,
    createdAt: Timestamp,
    buildJobUrl: string)

  /** The database as the writer sees it: the table is either absent or holds rows
      in insertion order. */
  datatype Db = NoTable | Table(rows: seq<Row>)

  /** The rows a reader of the dashboard sees; an absent table reads as empty. */
  function Rows(db: Db): seq<Row> {
    match db
    case NoTable => []
    case Table(rows) => rows
  }

  /** `CREATE TABLE IF NOT EXISTS env_dashboard (...)`. */
  function CreateTableIfNotExists(db: Db): (r: Db)
    ensures r.Table?
    ensures Rows(r) == Rows(db)
    ensures db.Table? ==> r == db
  {
    match db
    case NoTable => Table([])
    case Table(_) => db
  }

  /** Creating the table a second time does nothing. */
  lemma CreateTableIdempotent(db: Db)
    ensures CreateTableIfNotExists(CreateTableIfNotExists(db)) == CreateTableIfNotExists(db)
  {
  }

  /** The WHERE clause of the POST statement: `envComp = key AND joburl = url`. */
  function Matches(row: Row, key: string, url: string): (r: bool)
    ensures r ==> row.envComp == key && row.jobUrl == url
    ensures row.envComp != key || row.jobUrl != url ==> !r
  {
    row.envComp == key && row.jobUrl == url
  }

  /** The SET clause of the POST statement: `buildStatus = status, created_at = ts`. */
  function SetStatus(row: Row, status: string, ts: Timestamp): (r: Row)
    ensures r.buildStatus == status && r.createdAt == ts
    ensures SameExceptStatus(row, r)
    ensures Matches(r, row.envComp, row.jobUrl)
  {
    row.(buildStatus := status, createdAt := ts)
  }

  /** Two rows that differ at most in buildStatus and created_at. */
  predicate SameExceptStatus(a: Row, b: Row) {
    a.(buildStatus := b.buildStatus, createdAt := b.createdAt) == b
  }

  /** `UPDATE env_dashboard SET buildStatus = status, created_at = ts
      WHERE envComp = key AND joburl = url`: every matching row gets the new
      status and timestamp, every other row and every other column stays as it was,
      and the row count and order are kept. */
  function UpdateWhere(rows: seq<Row>, key: string, url: string, status: string, ts: Timestamp): (r: seq<Row>)
    ensures |r| == |rows|
    ensures forall i :: 0 <= i < |rows| && Matches(rows[i], key, url) ==>
              r[i].buildStatus == status && r[i].createdAt == ts
    ensures forall i :: 0 <= i < |rows| && !Matches(rows[i], key, url) ==> r[i] == rows[i]
    ensures forall i :: 0 <= i < |rows| ==> SameExceptStatus(rows[i], r[i])
    decreases |rows|
  {
    if |rows| == 0 then []
    else
      var head := if Matches(rows[0], key, url) then SetStatus(rows[0], status, ts) else rows[0];
      [head] + UpdateWhere(rows[1..], key, url, status, ts)
  }

  /** The number of rows the POST statement's WHERE clause selects. */
  function CountMatching(rows: seq<Row>, key: string, url: string): nat
    decreases |rows|
  {
    if |rows| == 0 then 0
    else (if Matches(rows[0], key, url) then 1 else 0) + CountMatching(rows[1..], key, url)
  }

  /** No row is selected by the WHERE clause. */
  predicate NoneMatch(rows: seq<Row>, key: string, url: string) {
    forall i :: 0 <= i < |rows| ==> !Matches(rows[i], key, url)
  }

  /** The count is zero exactly when no row matches. */
  lemma {:induction false} CountZeroIffNoneMatch(rows: seq<Row>, key: string, url: string)
    ensures CountMatching(rows, key, url) == 0 <==> NoneMatch(rows, key, url)
    decreases |rows|
  {
    if |rows| > 0 {
      CountZeroIffNoneMatch(rows[1..], key, url);
      if NoneMatch(rows[1..], key, url) && !Matches(rows[0], key, url) {
        forall i | 0 <= i < |rows|
          ensures !Matches(rows[i], key, url)
        {
          if i > 0 { assert rows[i] == rows[1..][i - 1]; }
        }
      }
      if NoneMatch(rows, key, url) {
        assert !Matches(rows[0], key, url);
        forall i | 0 <= i < |rows[1..]|
          ensures !Matches(rows[1..][i], key, url)
        {
          assert rows[1..][i] == rows[i + 1];
        }
      }
    }
  }

  /** Counting distributes over concatenation. */
  lemma {:induction false} CountMatchingAppend(a: seq<Row>, b: seq<Row>, key: string, url: string)
    ensures CountMatching(a + b, key, url) == CountMatching(a, key, url) + CountMatching(b, key, url)
    decreases |a|
  {
    if |a| > 0 {
      assert (a + b)[1..] == a[1..] + b;
      CountMatchingAppend(a[1..], b, key, url);
    } else {
      assert a + b == b;
    }
  }

  /** The UPDATE changes none of the columns it matches on, so the same rows
      match afterwards. */
  lemma {:induction false} UpdateKeepsMatchCount(rows: seq<Row>, key: string, url: string, status: string, ts: Timestamp)
    ensures CountMatching(UpdateWhere(rows, key, url, status, ts), key, url) == CountMatching(rows, key, url)
    decreases |rows|
  {
    if |rows| > 0 {
      var r := UpdateWhere(rows, key, url, status, ts);
      assert r[1..] == UpdateWhere(rows[1..], key, url, status, ts);
      assert Matches(r[0], key, url) <==> Matches(rows[0], key, url);
      UpdateKeepsMatchCount(rows[1..], key, url, status, ts);
    }
  }

  /** An UPDATE that selects no row leaves the table exactly as it was. */
  lemma UpdateWithoutMatchIsIdentity(rows: seq<Row>, key: string, url: string, status: string, ts: Timestamp)
    requires CountMatching(rows, key, url) == 0
    ensures UpdateWhere(rows, key, url, status, ts) == rows
  {
    CountZeroIffNoneMatch(rows, key, url);
  }

  /** Updating a table that had one row appended treats the old rows and the new
      row separately. */
  lemma UpdateAppend(rows: seq<Row>, row: Row, key: string, url: string, status: string, ts: Timestamp)
    ensures UpdateWhere(rows + [row], key, url, status, ts)
         == UpdateWhere(rows, key, url, status, ts)
          + [if Matches(row, key, url) then SetStatus(row, status, ts) else row]
  {
    var lhs := UpdateWhere(rows + [row], key, url, status, ts);
    var rhs := UpdateWhere(rows, key, url, status, ts)
             + [if Matches(row, key, url) then SetStatus(row, status, ts) else row];
    assert |lhs| == |rhs|;
    forall i | 0 <= i < |lhs|
      ensures lhs[i] == rhs[i]
    {
      if i < |rows| {
        assert (rows + [row])[i] == rows[i];
      } else {
        assert (rows + [row])[i] == row;
      }
    }
  }
}
