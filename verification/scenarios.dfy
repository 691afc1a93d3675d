/** Properties of the writer over several hook calls: a build's PRE write
    followed by its POST write, a repeated PRE, and a POST with nothing to update. */
module Scenarios {
  import opened Wrappers
  import opened Text
  import opened DashboardTable
  import opened DashboardBuilder

  /** A PRE write with no failure behind a passing gate: one row appended, success logged. */
  lemma PreWrites(db: Db, build: Build, x: Expanded, ts: Timestamp)
    requires Required(x)
    ensures SetUp(db, build, x, ts, NoFaults)
         == Hook(Table(Rows(db) + [NewRow(build, x.envName, x.compName, x.buildNumber, x.buildJob, ts)]),
                 Some("Pre-Build Update: " + Updated.Message()))
  {
  }

  /** A POST write with no failure behind a passing gate: the matching rows updated, success logged. */
  lemma PostWrites(db: Db, build: Build, x: Expanded, ts: Timestamp)
    requires Required(x)
    ensures TearDown(db, build, x, ts, NoFaults)
         == Hook(Table(UpdateWhere(Rows(db), KeyOf(x.envName, x.compName), build.url, BuildStatus(build.result, Post), ts)),
                 Some("Post-Build Update: " + Updated.Message()))
  {
  }

  /** A build's PRE write followed by its POST write, neither failing, on a table
      holding no row of that build: the old rows stay as they were and one row is
      added, carrying the PRE columns with the status and timestamp of the POST. */
  lemma PreThenPost(db: Db, atStart: Build, atEnd: Build, x: Expanded, ts1: Timestamp, ts2: Timestamp)
    requires Required(x)
    requires atStart.url == atEnd.url
    requires CountMatching(Rows(db), KeyOf(x.envName, x.compName), atStart.url) == 0
    ensures
      var pre := SetUp(db, atStart, x, ts1, NoFaults);
      var post := TearDown(pre.db, atEnd, x, ts2, NoFaults);
      && post.db == Table(Rows(db) + [Row(x.envName + "=" + x.compName, atStart.url, x.buildNumber,
                                          BuildStatus(atEnd.result, Post), x.envName, x.compName, ts2,
                                          BuildJobUrl(x.buildJob, x.buildNumber))])
      && pre.log == Some("Pre-Build Update: " + Updated.Message())
      && post.log == Some("Post-Build Update: " + Updated.Message())
      && CountMatching(Rows(post.db), KeyOf(x.envName, x.compName), atStart.url) == 1
  {
    var key := KeyOf(x.envName, x.compName);
    var row := NewRow(atStart, x.envName, x.compName, x.buildNumber, x.buildJob, ts1);
    var pre := SetUp(db, atStart, x, ts1, NoFaults);
    PreWrites(db, atStart, x, ts1);
    PostWrites(pre.db, atEnd, x, ts2);
    var status := BuildStatus(atEnd.result, Post);
    UpdateAppend(Rows(db), row, key, atStart.url, status, ts2);
    UpdateWithoutMatchIsIdentity(Rows(db), key, atStart.url, status, ts2);
    var final := Rows(db) + [SetStatus(row, status, ts2)];
    CountMatchingAppend(Rows(db), [SetStatus(row, status, ts2)], key, atStart.url);
    assert CountMatching([SetStatus(row, status, ts2)], key, atStart.url) == 1;
  }

  /** PRE does not look for an existing row: running it twice adds two rows that
      differ only in their timestamp, and two more rows match the build. */
  lemma PreTwiceDuplicates(db: Db, build: Build, x: Expanded, ts1: Timestamp, ts2: Timestamp)
    requires Required(x)
    ensures
      var once := SetUp(db, build, x, ts1, NoFaults).db;
      var twice := SetUp(once, build, x, ts2, NoFaults).db;
      var n := |Rows(db)|;
      && |Rows(twice)| == n + 2
      && Rows(twice)[..n] == Rows(db)
      && Rows(twice)[n] == Rows(twice)[n + 1].(createdAt := ts1)
      && (ts1 == ts2 ==> Rows(twice)[n] == Rows(twice)[n + 1])
      && CountMatching(Rows(twice), KeyOf(x.envName, x.compName), build.url)
         == CountMatching(Rows(db), KeyOf(x.envName, x.compName), build.url) + 2
  {
    var key := KeyOf(x.envName, x.compName);
    var r1 := NewRow(build, x.envName, x.compName, x.buildNumber, x.buildJob, ts1);
    var r2 := NewRow(build, x.envName, x.compName, x.buildNumber, x.buildJob, ts2);
    var once := SetUp(db, build, x, ts1, NoFaults).db;
    PreWrites(db, build, x, ts1);
    var twice := SetUp(once, build, x, ts2, NoFaults).db;
    PreWrites(once, build, x, ts2);
    CountMatchingAppend(Rows(db), [r1], key, build.url);
    CountMatchingAppend(Rows(once), [r2], key, build.url);
    assert [r1][1..] == [] && [r2][1..] == [];
  }

  /** A POST with no row to update is not an error: the rows are unchanged and the
      hook still reports the dashboard as updated. */
  lemma PostWithoutMatchStillSucceeds(db: Db, build: Build, x: Expanded, ts: Timestamp)
    requires Required(x)
    requires CountMatching(Rows(db), KeyOf(x.envName, x.compName), build.url) == 0
    ensures
      var post := TearDown(db, build, x, ts, NoFaults);
      && Rows(post.db) == Rows(db)
      && post.log == Some("Post-Build Update: " + Updated.Message())
  {
    PostWrites(db, build, x, ts);
    UpdateWithoutMatchIsIdentity(Rows(db), KeyOf(x.envName, x.compName), build.url,
                                 BuildStatus(build.result, Post), ts);
  }

  /** The POST write never changes which rows belong to the build, so a second
      POST updates the same rows as the first: the row count is kept, each position
      matches afterwards exactly when it matched before, and so does the number of
      matching rows. */
  lemma PostKeepsMatchingRows(db: Db, build: Build, x: Expanded, ts: Timestamp, faults: Faults)
    ensures
      var post := TearDown(db, build, x, ts, faults);
      var key := KeyOf(x.envName, x.compName);
      && |Rows(post.db)| == |Rows(db)|
      && (forall i :: 0 <= i < |Rows(db)| ==>
            (Matches(Rows(post.db)[i], key, build.url) <==> Matches(Rows(db)[i], key, build.url)))
      && CountMatching(Rows(post.db), key, build.url) == CountMatching(Rows(db), key, build.url)
  {
    UpdateKeepsMatchCount(Rows(db), KeyOf(x.envName, x.compName), build.url,
                          BuildStatus(build.result, Post), ts);
  }

  /** The example's values pass the hooks' gate. */
  lemma StagingIsRequired()
    ensures Required(Expanded("17", "staging", "api", ""))
  {
    var x := Expanded("17", "staging", "api", "");
    assert !IsRegexSpace(x.buildNumber[0]) && !IsRegexSpace(x.envName[0]) && !IsRegexSpace(x.compName[0]);
  }

  /** A proof step for StagingExample: the solver does not equate the concatenated
      literals with the single literal on its own. */
  lemma StagingKey()
    ensures "staging" + "=" + "api" == "staging=api"
  {
  }

  /** A build of component "api" numbered "17" deployed to "staging", with no
      build job, on a fresh database: after both hooks the table holds one row
      keyed "staging=api" whose status is SUCCESS. */
  lemma StagingExample(url: string, ts1: Timestamp, ts2: Timestamp)
    ensures
      var x := Expanded("17", "staging", "api", "");
      var pre := SetUp(NoTable, Build(None, url), x, ts1, NoFaults);
      var post := TearDown(pre.db, Build(None, url), x, ts2, NoFaults);
      post.db == Table([Row("staging=api", url, "17", "SUCCESS", "staging", "api", ts2, "")])
  {
    var x := Expanded("17", "staging", "api", "");
    var row := Row("staging=api", url, "17", "SUCCESS", "staging", "api", ts2, "");
    StagingIsRequired();
    assert CountMatching(Rows(NoTable), KeyOf(x.envName, x.compName), url) == 0;
    PreThenPost(NoTable, Build(None, url), Build(None, url), x, ts1, ts2);
    var pre := SetUp(NoTable, Build(None, url), x, ts1, NoFaults);
    var post := TearDown(pre.db, Build(None, url), x, ts2, NoFaults);
    assert post.db == Table([] + [Row(x.envName + "=" + x.compName, url, x.buildNumber, BuildStatus(None, Post),
                                      x.envName, x.compName, ts2, BuildJobUrl(x.buildJob, x.buildNumber))]);
    StagingKey();
    assert [] + [row] == [row];
  }
}
