# Environment dashboard writer, modelled in Dafny

A model of the deployment-record writer of the Jenkins environment-dashboard
plugin (`DashboardBuilder`). A build wrapper records, before and after a job's
build steps, which build of which component is deployed to which environment,
in one database table `env_dashboard`.

- The pre-build hook (`setUp`) and the post-build hook (`TearDownImpl.tearDown`)
  write only when the expanded build number, environment name and component name
  are all non-blank (`^\s*$` does not match).
- `writeToDB` re-checks environment and component, then opens a statement, issues
  `CREATE TABLE IF NOT EXISTS`, derives the key `env=comp`, the status and the
  optional `buildJobUrl`, and runs an INSERT (PRE) or an UPDATE (POST). Each
  failing step returns its own comment and skips the later steps.
- The configuration form refuses only empty values.

The table is a `seq<Row>` inside `Db = NoTable | Table(rows)`, so that table
creation is visible. Everything the plugin reads from Jenkins or JDBC is an input:
the expanded field values (`Expanded`), the build's result and URL (`Build`), the
database clock (`Timestamp`), and whether each JDBC call throws (`Faults`).

Files: `wrappers.dfy` (Option), `text.dfy` (blank test, composite key),
`table.dfy` (rows, CREATE/UPDATE), `builder.dfy` (writeToDB and the hooks),
`descriptor.dfy` (form checks), `scenarios.dfy` (properties over several calls).

Points of the behaviour that are easy to misread:
- The POST status is not passed in. It is derived from the build's result: the result when there is one, otherwise SUCCESS.
- The UPDATE changes every row matching `(envComp, jobUrl)`, not only the most recent one.
- The initial value "UNKNOWN" is always overwritten, so it never reaches the table.
- `DBConnection.getConnection()` is outside the try blocks, so a failure to connect is not turned into a warning.

## Model

| member | source | states |
|---|---|---|
| Text.Blank | src/main/java/org/jenkinsci/plugins/environmentdashboard/DashboardBuilder.java:94 | the `^\s*$` test used at lines 66, 81 and 94: the empty string is blank (its partner `BlankConcat` gives the structure of `\s*`) |
| Text.BlankConcat | src/main/java/org/jenkinsci/plugins/environmentdashboard/DashboardBuilder.java:94 | `\s*` matches a concatenation exactly when it matches both parts |
| Text.MatchesBlankPattern | src/main/java/org/jenkinsci/plugins/environmentdashboard/DashboardBuilder.java:66 | `matches("^\\s*$")` holds exactly when every character is one of Java's `\s` characters; the empty string is blank |
| Text.KeyOf | src/main/java/org/jenkinsci/plugins/environmentdashboard/DashboardBuilder.java:115 | the key is the environment name, then one `=`, then the component name, with nothing added or dropped |
| Text.SplitKey | src/main/java/org/jenkinsci/plugins/environmentdashboard/DashboardBuilder.java:115 | splitting an `envComp` key at its first `=` yields a pair whose key is the input; it fails only when the key has no `=` |
| Text.SplitKeyOfKey | src/main/java/org/jenkinsci/plugins/environmentdashboard/DashboardBuilder.java:115 | `env + '=' + comp` reads back as (env, comp) when env contains no `=` |
| Text.KeyInjective | src/main/java/org/jenkinsci/plugins/environmentdashboard/DashboardBuilder.java:115 | two identities whose environment names hold no `=` share a key only if they are equal |
| Text.KeyCollides | src/main/java/org/jenkinsci/plugins/environmentdashboard/DashboardBuilder.java:115 | ("a=b","c") and ("a","b=c") get the same key, so the `envComp` column alone cannot tell rows of the two identities apart |
| DashboardTable.CreateTableIfNotExists | src/main/java/org/jenkinsci/plugins/environmentdashboard/DashboardBuilder.java:110 | afterwards the table exists and its rows are those it had before |
| DashboardTable.CreateTableIdempotent | src/main/java/org/jenkinsci/plugins/environmentdashboard/DashboardBuilder.java:110 | creating the table twice is the same as creating it once |
| DashboardTable.Matches | src/main/java/org/jenkinsci/plugins/environmentdashboard/DashboardBuilder.java:139 | the WHERE clause selects a row exactly when its envComp equals the key and its jobUrl equals the build URL |
| DashboardTable.SetStatus | src/main/java/org/jenkinsci/plugins/environmentdashboard/DashboardBuilder.java:139 | the SET clause gives the row the new status and timestamp and keeps every other column, so the row still matches the same key and URL |
| DashboardTable.UpdateWhere | src/main/java/org/jenkinsci/plugins/environmentdashboard/DashboardBuilder.java:139 | the UPDATE keeps row count and order, gives every row matching (envComp, jobUrl) the new status and timestamp, and changes no other column and no other row |
| DashboardTable.UpdateKeepsMatchCount | src/main/java/org/jenkinsci/plugins/environmentdashboard/DashboardBuilder.java:139 | the UPDATE selects the same number of rows afterwards as before |
| DashboardTable.UpdateWithoutMatchIsIdentity | src/main/java/org/jenkinsci/plugins/environmentdashboard/DashboardBuilder.java:139 | an UPDATE whose WHERE clause selects no row leaves the table unchanged |
| DashboardTable.CountZeroIffNoneMatch | src/main/java/org/jenkinsci/plugins/environmentdashboard/DashboardBuilder.java:139 | the number of selected rows is zero exactly when no row matches the WHERE clause |
| DashboardBuilder.BuildStatus | src/main/java/org/jenkinsci/plugins/environmentdashboard/DashboardBuilder.java:116-123 | the build's result when there is one; otherwise RUNNING at PRE and SUCCESS at POST |
| DashboardBuilder.BuildJobUrl | src/main/java/org/jenkinsci/plugins/environmentdashboard/DashboardBuilder.java:126-132 | empty exactly when the build job is empty; otherwise `job/`, the build job, `/` and the build number, in that order |
| DashboardBuilder.BuildJobOf | src/main/java/org/jenkinsci/plugins/environmentdashboard/DashboardBuilder.java:126-132 | whatever build job is read back from a `buildJobUrl` rebuilds that same URL |
| DashboardBuilder.BuildJobUrlRoundTrip | src/main/java/org/jenkinsci/plugins/environmentdashboard/DashboardBuilder.java:126-132 | `buildJobUrl` is empty exactly when the build job is empty; otherwise the build job can be read back from it |
| DashboardBuilder.BlankBuildJobStillHasUrl | src/main/java/org/jenkinsci/plugins/environmentdashboard/DashboardBuilder.java:128-131 | the test is `isEmpty`: for any whitespace-only build job and any build number the URL is non-empty and the build job reads back from it |
| DashboardBuilder.InsertQuery | src/main/java/org/jenkinsci/plugins/environmentdashboard/DashboardBuilder.java:136 | the INSERT starts with the fixed head `INSERT INTO env_dashboard VALUES( '` followed by the key and a closing quote; its length is the values' lengths plus 84, so no character is added for escaping |
| DashboardBuilder.UpdateQuery | src/main/java/org/jenkinsci/plugins/environmentdashboard/DashboardBuilder.java:139 | the UPDATE starts with the fixed head `UPDATE env_dashboard SET buildStatus = '` followed by the status and a closing quote; its length is the values' lengths plus 108, so no character is added for escaping |
| DashboardBuilder.WriteResult.Message | src/main/java/org/jenkinsci/plugins/environmentdashboard/DashboardBuilder.java:95-155 | success returns "Updated Dashboard DB", the only 20-character comment. A query failure returns "Error running insert query ", then the failed query, then `.` |
| DashboardBuilder.Query | src/main/java/org/jenkinsci/plugins/environmentdashboard/DashboardBuilder.java:134-141 | PRE runs the INSERT of the new row's values, POST runs the UPDATE of the build's rows |
| DashboardBuilder.FailedPostReportsInsert | src/main/java/org/jenkinsci/plugins/environmentdashboard/DashboardBuilder.java:143-146 | a failed POST is reported as "Error running insert query " followed by its UPDATE statement and "." |
| DashboardBuilder.FailedPreReportsInsert | src/main/java/org/jenkinsci/plugins/environmentdashboard/DashboardBuilder.java:143-146 | a failed PRE is reported as "Error running insert query " followed by its INSERT statement and "." |
| DashboardBuilder.WriteToDb | src/main/java/org/jenkinsci/plugins/environmentdashboard/DashboardBuilder.java:92-156 | blank env or comp gives the empty-name warning with no change, whatever the build number. Otherwise the failures are checked in order: statement, table, query, close. A failed statement or table creation changes nothing. A failed query leaves the rows as they were. Once past the table step the table exists, whatever fails later. PRE appends exactly the row (env=comp, url, num, status, env, comp, ts, buildJobUrl). POST keeps the row count and updates only the matching rows' status and timestamp. A failed close comes after the write is applied. "Updated Dashboard DB" is returned exactly when nothing failed |
| DashboardBuilder.WrittenStatus | src/main/java/org/jenkinsci/plugins/environmentdashboard/DashboardBuilder.java:116-123 | the stored status is the build's result when present; otherwise RUNNING for the PRE row and SUCCESS for the rows POST updates |
| DashboardBuilder.Required | src/main/java/org/jenkinsci/plugins/environmentdashboard/DashboardBuilder.java:66 | the gate holds exactly when the build number, environment and component are all non-blank; values that pass it are non-empty |
| DashboardBuilder.SetUp | src/main/java/org/jenkinsci/plugins/environmentdashboard/DashboardBuilder.java:59-71 | if the build number, env or comp is blank, the table is unchanged and the "not updated" line is logged; otherwise the PRE write happens and its comment is logged |
| DashboardBuilder.TearDown | src/main/java/org/jenkinsci/plugins/environmentdashboard/DashboardBuilder.java:75-86 | if the build number, env or comp is blank, the table is unchanged and nothing is logged; otherwise the POST write happens and its comment is logged |
| DashboardBuilder.GateMakesIdentityCheckUnreachable | src/main/java/org/jenkinsci/plugins/environmentdashboard/DashboardBuilder.java:94-97 | behind the hooks' gate, writeToDB's own blank-name warning never occurs |
| Descriptor.DoCheckNameOfEnv | src/main/java/org/jenkinsci/plugins/environmentdashboard/DashboardBuilder.java:180-185 | error exactly for the empty value, with the environment-name message |
| Descriptor.DoCheckComponentName | src/main/java/org/jenkinsci/plugins/environmentdashboard/DashboardBuilder.java:187-192 | error exactly for the empty value, with the component-name message |
| Descriptor.DoCheckBuildNumber | src/main/java/org/jenkinsci/plugins/environmentdashboard/DashboardBuilder.java:194-199 | error exactly for the empty value, with the build-variable message |
| Descriptor.GateImpliesForm | src/main/java/org/jenkinsci/plugins/environmentdashboard/DashboardBuilder.java:180-199 | values that pass the hooks' non-blank gate also pass all three form checks |
| Descriptor.WhitespacePassesFormNotGate | src/main/java/org/jenkinsci/plugins/environmentdashboard/DashboardBuilder.java:180-199 | any non-empty value made only of `\s` characters passes all three form checks, yet the hooks refuse any configuration that uses it as build number, environment or component |
| Scenarios.PreThenPost | src/main/java/org/jenkinsci/plugins/environmentdashboard/DashboardBuilder.java:135-140 | PRE then POST of one build with no failures, on a table with no row of that build, keeps the old rows and adds one row. The row has the PRE columns and the POST status and timestamp, and it is the only row that matches |
| Scenarios.PreTwiceDuplicates | src/main/java/org/jenkinsci/plugins/environmentdashboard/DashboardBuilder.java:135-136 | two PRE writes add two rows that differ only in timestamp (identical for equal timestamps); the match count grows by two |
| Scenarios.PostWithoutMatchStillSucceeds | src/main/java/org/jenkinsci/plugins/environmentdashboard/DashboardBuilder.java:137-155 | a POST that matches no row leaves the rows unchanged and still logs "Updated Dashboard DB" |
| Scenarios.PostKeepsMatchingRows | src/main/java/org/jenkinsci/plugins/environmentdashboard/DashboardBuilder.java:139 | whether or not it fails, a POST keeps the row count, each row matches the build afterwards exactly when it did before, and so the number of matching rows is unchanged |
| Scenarios.StagingExample | src/main/java/org/jenkinsci/plugins/environmentdashboard/DashboardBuilder.java:115-140 | staging/api build 17 with no build job, on a fresh database: after both hooks the table has one row `staging=api` with status SUCCESS and an empty buildJobUrl |

## Left out

- Variable expansion (`build.getEnvironment(listener).expand`): the hooks receive the expanded values.
- The Jenkins lifecycle: `BuildWrapper`, `Environment`, `super.tearDown`, and the listener logger. A hook's log line is returned as a value.
- The constructor and the four getters, which only store and return the configured fields.
- `DBConnection.getConnection()`: a connection that cannot be obtained raises an exception the method does not catch. This is outside the model.
- Leaked statements and connections on the failure paths, which are never closed. There is no resource model.
- `stat.close()` and `conn.close()` share one fault flag, because both lead to the same comment.
- Single quotes inside values. The SQL is built by concatenation, so a value holding a quote can do one of two things. It can make the statement fail, which the `queryFails` flag covers. Or it can make the database store or match different text: `it''s` is stored as `it's`. The model does not represent that second case. Its row contents and WHERE matching are correct only for values without a single quote. Column widths (VARCHAR(255)) are not enforced either.
- Null strings. Dafny strings cannot be null, so the model assumes every configured and expanded value is non-null. In the source a null build number, environment or component throws a NullPointerException at the first `matches` call that reaches it (lines 66 and 81), before any database call. The `||` there stops at the first blank value, so a null after a blank one is never dereferenced. writeToDB's own check (line 94) is reached only with values already tested, so it never sees a null. A null build job (the setting is optional) passes the gate. If statement and table creation succeed, it then throws at `buildJob.isEmpty()` (line 128), after CREATE TABLE has already run. Only SQLException is caught, so both exceptions escape `setUp` or `tearDown`.
- Transactions. The model assumes the connection is in auto-commit mode, which is JDBC's default. Two claims depend on this. A failed close comes after the write has taken effect. "Updated Dashboard DB" means the row is stored. `DBConnection`, which would set the mode, is not part of this model.
- `current_timestamp`: an opaque `Timestamp` input. The PRE and POST timestamps are independent.
- A `runTime` other than PRE or POST, which the hooks never pass. `Phase` has only these two values.
- Whether string comparison in the WHERE clause is case-sensitive depends on the database. The model uses exact equality.
- `DescriptorImpl` constructor, `load`, `save`, `configure`, `getDisplayName` and `isApplicable`: settings persistence and UI, with no decision logic.
