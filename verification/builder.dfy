/** The deployment-record writer of the DashboardBuilder build wrapper: the
    pre-build and post-build hooks with their blank-value gate, and writeToDB,
    which derives the row and inserts it (PRE) or updates the status (POST).

    Variable expansion, the build's result and URL, the database's clock and
    whether each JDBC call throws are inputs here. */
module DashboardBuilder {
  import opened Wrappers
  import opened Text
  import opened DashboardTable

  /** The `runTime` argument of writeToDB: which hook is writing. */
  datatype Phase = Pre | Post

  /** What writeToDB reads from the running build: `getResult()` rendered with
      toString (None while the build has no result) and `getUrl()`. */
  datatype Build = Build(result: Option<string>, url: string)

  /** The wrapper's four configured fields after variable expansion. */
  datatype Expanded = Expanded(buildNumber: string, envName: string, compName: string, buildJob: string)

  /** Which JDBC call throws an SQLException during one writeToDB call. */
  datatype Faults = Faults(
    createStatementFails: bool,
    createTableFails: bool,
    queryFails: bool,
    closeFails: bool)

  const NoFaults := Faults(false, false, false, false)

  /** How writeToDB ended; Message() is the comment it returns. */
  datatype WriteResult =
    | Updated
    | EmptyIdentity
    | StatementFailed
    | CreateTableFailed
    | QueryFailed(query: string)
    | CloseFailed
  {
    function Message(): (r: string)
      // every other comment differs in length from the success comment
      ensures |r| == 20 <==> this == Updated
      ensures Updated? ==> r == "Updated Dashboard DB"
      ensures QueryFailed? ==> |r| == 28 + |query| && r[27..|r| - 1] == query
      ensures QueryFailed? ==> r[..27] == "Error running insert query " && r[|r| - 1] == '.'
    {
      match this
      case Updated => "Updated Dashboard DB"
      case EmptyIdentity => "WARN: Either Environment name or Component name is empty."
      case StatementFailed => "WARN: Could not execute statement."
      case CreateTableFailed => "WARN: Could not create table env_dashboard."
      case QueryFailed(q) =>
        var head := "Error running insert query ";
        assert |head| == 27;
        var r := head + q + ".";
        assert r[27..|r| - 1] == q;
        r
      case CloseFailed => "Error closing connection."
    }

    /** The INSERT or UPDATE reached the database. */
    predicate WriteApplied() {
      Updated? || CloseFailed?
    }
  }

  /** The database after one writeToDB call, and how the call ended. */
  datatype Write = Write(db: Db, result: WriteResult)

  /** The database after one hook, and the line it logs, if any. */
  datatype Hook = Hook(db: Db, log: Option<string>)

  /** The status written to the row: the build's result when it has one; otherwise
      RUNNING before the build steps and SUCCESS after them. */
  function BuildStatus(result: Option<string>, phase: Phase): (r: string)
    ensures result.Some? ==> r == result.value
    ensures result.None? && phase == Pre ==> r == "RUNNING"
    ensures result.None? && phase == Post ==> r == "SUCCESS"
  {
    match result
    case Some(r) => r
    case None => if phase == Pre then "RUNNING" else "SUCCESS"
  }

  /** The optional `buildJobUrl` column: empty when no build job is configured
      (the test is isEmpty, not blank), otherwise `job/<buildJob>/<buildNum>`. */
  function BuildJobUrl(buildJob: string, buildNum: string): (r: string)
    ensures r == "" <==> |buildJob| == 0
    ensures |buildJob| > 0 ==>
      && |r| == 5 + |buildJob| + |buildNum|
      && r[..4] == "job/"
      && r[4..4 + |buildJob|] == buildJob
      && r[4 + |buildJob|] == '/'
      && r[5 + |buildJob|..] == buildNum
  {
    if |buildJob| == 0 then "" else "job/" + buildJob + "/" + buildNum
  }

  /** The configured build job, read back from a non-empty `buildJobUrl`
      given the build number that went into it. */
  function BuildJobOf(buildJobUrl: string, buildNum: string): (r: Option<string>)
    ensures r.Some? ==> BuildJobUrl(r.value, buildNum) == buildJobUrl
  {
    var tail := "/" + buildNum;
    if |buildJobUrl| >= 4 + |tail| && buildJobUrl[..4] == "job/" && buildJobUrl[|buildJobUrl| - |tail|..] == tail
       && |buildJobUrl| > 4 + |tail|
    then
      var job := buildJobUrl[4..|buildJobUrl| - |tail|];
      assert buildJobUrl == "job/" + job + tail;
      Some(job)
    else None
  }

  /** buildJobUrl is empty exactly when no build job is configured, and otherwise
      determines the build job. */
  lemma {:induction false} BuildJobUrlRoundTrip(buildJob: string, buildNum: string)
    ensures BuildJobUrl(buildJob, buildNum) == "" <==> buildJob == ""
    ensures buildJob != "" ==> BuildJobOf(BuildJobUrl(buildJob, buildNum), buildNum) == Some(buildJob)
  {
    if buildJob != "" {
      var u := BuildJobUrl(buildJob, buildNum);
      var tail := "/" + buildNum;
      assert u == "job/" + buildJob + tail;
      assert u[..4] == "job/";
      assert u[|u| - |tail|..] == tail;
      assert u[4..|u| - |tail|] == buildJob;
    }
  }

  /** A whitespace-only build job still produces a URL. */
  lemma BlankBuildJobStillHasUrl(buildJob: string, buildNum: string)
    requires |buildJob| > 0 && Blank(buildJob)
    ensures BuildJobUrl(buildJob, buildNum) != ""
    ensures BuildJobOf(BuildJobUrl(buildJob, buildNum), buildNum) == Some(buildJob)
  {
    BuildJobUrlRoundTrip(buildJob, buildNum);
  }

  /** The INSERT text, concatenated exactly as the wrapper builds it: every value is
      spliced in verbatim between single quotes, with no escaping, so the text is
      the values plus 84 fixed characters, and the key is the first literal. */
  function InsertQuery(key: string, url: string, buildNum: string, status: string,
                       envName: string, compName: string, buildJobUrl: string): (r: string)
    ensures |r| == 84 + |key| + |url| + |buildNum| + |status| + |envName| + |compName| + |buildJobUrl|
    ensures r[..35] == "INSERT INTO env_dashboard VALUES( '"
    ensures r[34] == '\'' && r[35..35 + |key|] == key && r[35 + |key|] == '\''
  {
    var head := "INSERT INTO env_dashboard VALUES( '";
    assert |head| == 35 && head[34] == '\'';
    var r := head + key + "', '" + url + "', '" + buildNum + "', '" + status
      + "', '" + envName + "', '" + compName + "' , + current_timestamp, '" + buildJobUrl + "');";
    assert r[35..35 + |key|] == key;
    r
  }

  /** The UPDATE text, concatenated exactly as the wrapper builds it: the values are
      spliced in verbatim, with no escaping, so the text is the values plus 108
      fixed characters, and the status is the first literal. */
  function UpdateQuery(status: string, key: string, url: string): (r: string)
    ensures |r| == 108 + |status| + |key| + |url|
    ensures r[..40] == "UPDATE env_dashboard SET buildStatus = '"
    ensures r[39] == '\'' && r[40..40 + |status|] == status && r[40 + |status|] == '\''
  {
    var head := "UPDATE env_dashboard SET buildStatus = '";
    assert |head| == 40 && head[39] == '\'';
    var r := head + status + "'" + ", created_at = current_timestamp WHERE envComp = '"
      + key + "' AND joburl = '" + url + "'";
    assert r[40..40 + |status|] == status;
    assert r[40 + |status|] == '\'';
    r
  }

  /** The row the PRE insert adds. */
  function NewRow(build: Build, envName: string, compName: string, buildNum: string,
                  buildJob: string, ts: Timestamp): Row
  {
    Row(KeyOf(envName, compName), build.url, buildNum, BuildStatus(build.result, Pre),
        envName, compName, ts, BuildJobUrl(buildJob, buildNum))
  }

  /** The statement writeToDB runs for a phase. */
  function Query(phase: Phase, build: Build, envName: string, compName: string,
                 buildNum: string, buildJob: string): (r: string)
    ensures phase == Pre ==>
      r == InsertQuery(envName + "=" + compName, build.url, buildNum, BuildStatus(build.result, Pre),
                       envName, compName, BuildJobUrl(buildJob, buildNum))
    ensures phase == Post ==>
      r == UpdateQuery(BuildStatus(build.result, Post), envName + "=" + compName, build.url)
  {
    var key := KeyOf(envName, compName);
    var status := BuildStatus(build.result, phase);
    match phase
    case Pre => InsertQuery(key, build.url, buildNum, status, envName, compName, BuildJobUrl(buildJob, buildNum))
    case Post => UpdateQuery(status, key, build.url)
  }

  /** The effect of that statement on the rows of the (now existing) table. */
  function Apply(rows: seq<Row>, phase: Phase, build: Build, envName: string, compName: string,
                 buildNum: string, buildJob: string, ts: Timestamp): seq<Row>
  {
    match phase
    case Pre => rows + [NewRow(build, envName, compName, buildNum, buildJob, ts)]
    case Post => UpdateWhere(rows, KeyOf(envName, compName), build.url, BuildStatus(build.result, Post), ts)
  }

  /** writeToDB. Checks, in order: blank environment or component, statement
      creation, table creation, the INSERT/UPDATE, closing; each failure returns its
      own comment and skips every later step. */
  function WriteToDb(db: Db, build: Build, envName: string, compName: string, buildNum: string,
                     phase: Phase, buildJob: string, ts: Timestamp, faults: Faults): (w: Write)
    // the identity check comes first, whatever the build number and the connection do
    ensures Blank(envName) || Blank(compName) ==> w == Write(db, EmptyIdentity)
    // then each failure point in turn
    ensures !Blank(envName) && !Blank(compName) ==>
      (faults.createStatementFails ==> w == Write(db, StatementFailed))
      && (!faults.createStatementFails && faults.createTableFails ==> w == Write(db, CreateTableFailed))
      && (!faults.createStatementFails && !faults.createTableFails && faults.queryFails ==>
            w.result == QueryFailed(Query(phase, build, envName, compName, buildNum, buildJob)))
      && (!faults.createStatementFails && !faults.createTableFails && !faults.queryFails ==>
            w.result == (if faults.closeFails then CloseFailed else Updated))
    // the comment is "Updated Dashboard DB" exactly when nothing went wrong
    ensures w.result == Updated <==> !Blank(envName) && !Blank(compName) && faults == NoFaults
    // a failed query changes no row, though the table has been created by then
    ensures w.result.QueryFailed? ==> w.db.Table? && Rows(w.db) == Rows(db)
    // once past the table step the table exists, whatever happens afterwards
    ensures !Blank(envName) && !Blank(compName) && !faults.createStatementFails && !faults.createTableFails ==>
      w.db.Table?
    // the rows change only when the statement was executed
    ensures !w.result.WriteApplied() ==> Rows(w.db) == Rows(db)
    // PRE appends exactly one row and keeps the existing ones
    ensures w.result.WriteApplied() && phase == Pre ==>
      Rows(w.db) == Rows(db) + [Row(envName + "=" + compName, build.url, buildNum,
                                    BuildStatus(build.result, Pre), envName, compName, ts,
                                    BuildJobUrl(buildJob, buildNum))]
    // POST keeps the row count and touches only the matching rows' status and timestamp
    ensures w.result.WriteApplied() && phase == Post ==>
      var before, after := Rows(db), Rows(w.db);
      && |after| == |before|
      && (forall i :: 0 <= i < |before| ==> SameExceptStatus(before[i], after[i]))
      && (forall i :: 0 <= i < |before| && Matches(before[i], envName + "=" + compName, build.url) ==>
            after[i].buildStatus == BuildStatus(build.result, Post) && after[i].createdAt == ts)
      && (forall i :: 0 <= i < |before| && !Matches(before[i], envName + "=" + compName, build.url) ==>
            after[i] == before[i])
  {
    if Blank(envName) || Blank(compName) then Write(db, EmptyIdentity)
    else if faults.createStatementFails then Write(db, StatementFailed)
    else if faults.createTableFails then Write(db, CreateTableFailed)
    else
      var created := CreateTableIfNotExists(db);
      if faults.queryFails then
        Write(created, QueryFailed(Query(phase, build, envName, compName, buildNum, buildJob)))
      else
        var written := Table(Apply(Rows(created), phase, build, envName, compName, buildNum, buildJob, ts));
        Write(written, if faults.closeFails then CloseFailed else Updated)
  }

  /** The gate both hooks apply before calling writeToDB: build number,
      environment and component must all be non-blank. */
  function Required(x: Expanded): (r: bool)
    ensures r <==> !Blank(x.buildNumber) && !Blank(x.envName) && !Blank(x.compName)
    ensures r ==> |x.buildNumber| > 0 && |x.envName| > 0 && |x.compName| > 0
  {
    !(Blank(x.buildNumber) || Blank(x.envName) || Blank(x.compName))
  }

  const NotUpdatedLine := "Environment dashboard not updated: one or more required values were blank"

  /** setUp, the pre-build hook: a PRE write when the gate passes, and a log line
      either way. */
  function SetUp(db: Db, build: Build, x: Expanded, ts: Timestamp, faults: Faults): (h: Hook)
    ensures h.log.Some?
    ensures !Required(x) ==> h == Hook(db, Some(NotUpdatedLine))
    ensures Required(x) ==>
      var w := WriteToDb(db, build, x.envName, x.compName, x.buildNumber, Pre, x.buildJob, ts, faults);
      h == Hook(w.db, Some("Pre-Build Update: " + w.result.Message()))
  {
    if Required(x) then
      var w := WriteToDb(db, build, x.envName, x.compName, x.buildNumber, Pre, x.buildJob, ts, faults);
      Hook(w.db, Some("Pre-Build Update: " + w.result.Message()))
    else
      Hook(db, Some(NotUpdatedLine))
  }

  /** TearDownImpl.tearDown, the post-build hook: a POST write when the gate passes;
      nothing at all, not even a log line, otherwise. */
  function TearDown(db: Db, build: Build, x: Expanded, ts: Timestamp, faults: Faults): (h: Hook)
    ensures !Required(x) ==> h == Hook(db, None)
    ensures Required(x) ==>
      var w := WriteToDb(db, build, x.envName, x.compName, x.buildNumber, Post, x.buildJob, ts, faults);
      h == Hook(w.db, Some("Post-Build Update: " + w.result.Message()))
  {
    if Required(x) then
      var w := WriteToDb(db, build, x.envName, x.compName, x.buildNumber, Post, x.buildJob, ts, faults);
      Hook(w.db, Some("Post-Build Update: " + w.result.Message()))
    else
      Hook(db, None)
  }

  /** writeToDB's own blank check is redundant behind the hooks' gate: a write
      the gate lets through never ends in the empty-identity warning. */
  lemma GateMakesIdentityCheckUnreachable(db: Db, build: Build, x: Expanded, phase: Phase, ts: Timestamp, faults: Faults)
    requires Required(x)
    ensures WriteToDb(db, build, x.envName, x.compName, x.buildNumber, phase, x.buildJob, ts, faults).result != EmptyIdentity
  {
  }

  /** The status a successful write stores: the build's result when there is one;
      otherwise RUNNING in the row PRE adds and SUCCESS in the rows POST updates. */
  lemma WrittenStatus(db: Db, build: Build, envName: string, compName: string, buildNum: string,
                      phase: Phase, buildJob: string, ts: Timestamp, faults: Faults)
    requires WriteToDb(db, build, envName, compName, buildNum, phase, buildJob, ts, faults).result.WriteApplied()
    ensures
      var before := Rows(db);
      var after := Rows(WriteToDb(db, build, envName, compName, buildNum, phase, buildJob, ts, faults).db);
      && (phase == Pre ==>
            after[|before|].buildStatus == (if build.result.None? then "RUNNING" else build.result.value))
      && (phase == Post ==>
            forall i :: 0 <= i < |before| && Matches(before[i], KeyOf(envName, compName), build.url) ==>
              after[i].buildStatus == (if build.result.None? then "SUCCESS" else build.result.value))
  {
  }

  /** The query-failure comment always says "insert", so a failed POST reports
      its UPDATE statement as an insert query. */
  lemma FailedPostReportsInsert(db: Db, build: Build, envName: string, compName: string, buildNum: string,
                                buildJob: string, ts: Timestamp, faults: Faults)
    requires !Blank(envName) && !Blank(compName)
    requires !faults.createStatementFails && !faults.createTableFails && faults.queryFails
    ensures
      var w := WriteToDb(db, build, envName, compName, buildNum, Post, buildJob, ts, faults);
      w.result.Message()
        == "Error running insert query " + UpdateQuery(BuildStatus(build.result, Post), envName + "=" + compName, build.url) + "."
  {
  }

  /** A failed PRE is reported with its INSERT statement. */
  lemma FailedPreReportsInsert(db: Db, build: Build, envName: string, compName: string, buildNum: string,
                               buildJob: string, ts: Timestamp, faults: Faults)
    requires !Blank(envName) && !Blank(compName)
    requires !faults.createStatementFails && !faults.createTableFails && faults.queryFails
    ensures
      var w := WriteToDb(db, build, envName, compName, buildNum, Pre, buildJob, ts, faults);
      w.result.Message()
        == "Error running insert query "
           + InsertQuery(envName + "=" + compName, build.url, buildNum, BuildStatus(build.result, Pre),
                         envName, compName, BuildJobUrl(buildJob, buildNum))
           + "."
  {
  }
}
