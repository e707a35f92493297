# dbevent, modelled in Dafny

The OpenMRS `dbevent` module streams row changes out of an OpenMRS MySQL database through an
embedded Debezium engine. Each change becomes a `DbEvent` and goes to an event consumer. This
project models the parts of the module that compute something:

- **Configuration** (`SourceConfig`). `DbEventSourceConfig` and `DbEventSource` assemble the
  Debezium properties in three layers:
  - fixed defaults;
  - the OpenMRS runtime properties;
  - what the JDBC driver reads from the connection URL.

  Both also build the include and exclude table lists.
- **Schema graph** (`Schema`, `Graphs`, `Metadata`, `JoinSearch`, `JoinPaths`). `DatabaseTable`,
  `DatabaseJoin`, `DatabaseJoinPath` and `DatabaseMetadata` provide two searches over foreign keys:
  - the transitive set of tables that reference a table;
  - the join path from one table to another.
- **Events** (`Rows`, `Retry`, `EventLog`). Three pieces:
  - `ObjectMap`'s typed getters, and the `DbEvent` constructor;
  - the retry-until-success loop of `DebeziumConsumer`;
  - the per-source statistics of `DbEventLog`.
- **Patient tracking** (`PatientStatuses`, `PatientQueries`, `PatientEvents`). This covers:
  - `PatientStatus`;
  - the SQL that `PatientEventConsumer` generates: the per-table patient-id queries and the
    initial snapshot statements;
  - the consumer itself, which ties each event to a patient, keeps a key cache and moves a
    watermark that only goes forward.

The model follows the source's form:
- Objects whose fields their methods update are classes with `modifies` clauses: `DatabaseTable`,
  `DatabaseMetadata`, `DatabaseJoinPath`, `PatientStatus`, `DbEventLog`, the two configuration
  classes and `PatientEventConsumer`.
- Loops are `while` loops with invariants. Each is proved equal to a specification function whose
  properties are proved as lemmas.
- Expression-only code becomes functions.
- Nullable references are `Option`. Calls that may throw return `Result`, with the Java exception
  named.

What the code does, in the places where a reader might expect otherwise:
- `getJoins` (`DatabaseMetadata.java:47-84`) returns one list. It is all the direct joins when
  there are any, otherwise the first strictly shortest candidate; it does not return every
  shortest path, and nullability only filters which columns are followed.
- `getJoins` tests a different column's nullability in each loop. The direct loop tests the
  referenced column (line 56). The indirect loop tests the local column (line 66).
- `handlePatientEvent` overwrites `last_updated` with the event's timestamp
  (`PatientEventConsumer.java:118-120`); it does not take the later of the stored and new times.
  `PatientEvents.UpsertIsLater` proves the two agree while the watermark invariant holds.
- `performInitialSnapshot` issues no update for a table without date columns
  (`PatientEventConsumer.java:183-189`).
- `DatabaseColumn.java` declares only the three name fields. The rest of the code also reads
  nullability, the primary-key flag and the reference lists. `Schema.Column` carries all of them.
- `DatabaseJoin` has `foreignKey` and `primaryKey`, which `PatientEventConsumer` reads as
  `getFromColumn`/`getToColumn`. The model uses the first pair throughout.

## Model

Source paths are relative to the repository root.

| member | source | states |
|---|---|---|
| Schema.JoinNullableIgnoresPrimaryKey | api/src/main/java/org/openmrs/module/dbevent/DatabaseJoin.java:21-23 | a join is nullable exactly when its foreign-key column is, whatever column it points to |
| Schema.JoinStringParts | api/src/main/java/org/openmrs/module/dbevent/DatabaseJoin.java:25-28 | a join's rendering is the foreign-key column's rendering, then " -> ", then the primary-key column's, with nothing else in between or around |
| Schema.TableInfo.Columns | api/src/main/java/org/openmrs/module/dbevent/DatabaseTable.java:20 | the columns come in insertion order, one per name |
| Schema.TableInfo.Put | api/src/main/java/org/openmrs/module/dbevent/DatabaseTable.java:27-29 | put keyed by the column's name: the map gains or replaces that entry; a new name goes last in the order, an existing one keeps its place; the table stays well formed |
| Schema.Table.constructor | api/src/main/java/org/openmrs/module/dbevent/DatabaseTable.java:22-25 | a new table has its two names and no columns |
| Schema.Table.AddColumn | api/src/main/java/org/openmrs/module/dbevent/DatabaseTable.java:27-29 | the table's value is the old one with the column put in |
| Schema.Table.GetColumn | api/src/main/java/org/openmrs/module/dbevent/DatabaseTable.java:31-33 | null exactly for an absent name, otherwise that column |
| Schema.Table.GetPrimaryKeyColumn | api/src/main/java/org/openmrs/module/dbevent/DatabaseTable.java:35-42 | the first column, in insertion order, with the primary-key flag; null exactly when there is none |
| Schema.ColumnJoins | api/src/main/java/org/openmrs/module/dbevent/DatabaseTable.java:47-49 | one join per reference of the column, in reference order |
| Schema.Table.GetForeignKeyReferences | api/src/main/java/org/openmrs/module/dbevent/DatabaseTable.java:44-52 | the nested loops produce the joins of the columns, in order |
| Schema.ForeignKeyJoinsExactly | api/src/main/java/org/openmrs/module/dbevent/DatabaseTable.java:44-52 | a join is in that list exactly when it pairs a column with one of its references; the list has one entry per reference |
| Schema.Table.GetTablesReferencedBy | api/src/main/java/org/openmrs/module/dbevent/DatabaseTable.java:54-62 | the nested loops produce the set of referencing tables |
| Schema.ReferencingOfColumnExactly | api/src/main/java/org/openmrs/module/dbevent/DatabaseTable.java:57-59 | a table is collected for a column exactly when one of its referencedBy entries is in that table |
| Schema.ReferencingTablesExactly | api/src/main/java/org/openmrs/module/dbevent/DatabaseTable.java:54-62 | a table is in getTablesReferencedBy exactly when some column is referenced from it |
| Schema.Table.ToString | api/src/main/java/org/openmrs/module/dbevent/DatabaseTable.java:64-67 | a table renders as its name |
| Graphs.ReferenceClosureUnique | api/src/main/java/org/openmrs/module/dbevent/DatabaseMetadata.java:28-38 | the result of getAllTablesReferencedBy is unique, so the HashSet's iteration order cannot change it |
| Graphs.SearchStart | api/src/main/java/org/openmrs/module/dbevent/DatabaseMetadata.java:29-31 | the direct referencing tables minus the exclusions start the search in a valid state |
| Graphs.SearchStep | api/src/main/java/org/openmrs/module/dbevent/DatabaseMetadata.java:32-36 | adding a nested search excluding everything found so far keeps the search state valid |
| Graphs.SearchDone | api/src/main/java/org/openmrs/module/dbevent/DatabaseMetadata.java:37 | once every table has been expanded, the result is the least closed set holding the direct ones and avoiding the exclusions |
| Graphs.ClosureContainsPaths | api/src/main/java/org/openmrs/module/dbevent/DatabaseMetadata.java:28-38 | every table at the end of a chain of references that avoids the exclusions is in the result |
| Graphs.ClosureOnlyPaths | api/src/main/java/org/openmrs/module/dbevent/DatabaseMetadata.java:28-38 | every table in the result is at the end of such a chain |
| Graphs.ClosureIsReachable | api/src/main/java/org/openmrs/module/dbevent/DatabaseMetadata.java:28-38 | the result is exactly the set of tables reachable by such chains |
| Metadata.DatabaseMetadata.constructor | api/src/main/java/org/openmrs/module/dbevent/DatabaseMetadata.java:21-22 | new metadata has its database name and no tables |
| Metadata.DatabaseMetadata.AddTable | api/src/main/java/org/openmrs/module/dbevent/DatabaseMetadata.java:24-26 | the table is stored under its name, replacing any table of that name; nothing else changes |
| Metadata.DatabaseMetadata.GetTable | api/src/main/java/org/openmrs/module/dbevent/DatabaseMetadata.java:102-104 | null exactly for an unknown name, otherwise that table |
| Metadata.DatabaseMetadata.GetColumn | api/src/main/java/org/openmrs/module/dbevent/DatabaseMetadata.java:106-109 | null exactly when the table or the column is missing, otherwise that column |
| Metadata.DatabaseMetadata.GetAllTablesReferencedBy | api/src/main/java/org/openmrs/module/dbevent/DatabaseMetadata.java:28-38 | a NullPointerException exactly for an unknown table; otherwise the reference closure, all of it tables of the database |
| Metadata.TablesReferencedBy | api/src/main/java/org/openmrs/module/dbevent/DatabaseMetadata.java:28-38 | the recursive search computes that closure, or fails on an unknown table |
| Metadata.ExpandNested | api/src/main/java/org/openmrs/module/dbevent/DatabaseMetadata.java:31-36 | the loop over the tables found directly ends in a state with nothing left to expand |
| Metadata.DatabaseMetadata.GetPatientTableNames | api/src/main/java/org/openmrs/module/dbevent/DatabaseMetadata.java:40-45 | a table is in the result exactly when it is reachable from patient, or from person without passing users or provider; a NullPointerException when either table is missing |
| Metadata.PatientTableNames | api/src/main/java/org/openmrs/module/dbevent/DatabaseMetadata.java:40-45 | the same, over the graph value |
| Metadata.DatabaseMetadata.GetJoins | api/src/main/java/org/openmrs/module/dbevent/DatabaseMetadata.java:47-84 | a NullPointerException exactly when the from-table is neither excluded nor known; otherwise the join path Graphs.Joins, whose properties are the JoinSearch lemmas |
| Metadata.SearchJoins | api/src/main/java/org/openmrs/module/dbevent/DatabaseMetadata.java:47-84 | the recursive search computes Graphs.Joins, with the same failure condition |
| Metadata.DirectSearch | api/src/main/java/org/openmrs/module/dbevent/DatabaseMetadata.java:53-63 | the first double loop collects the direct joins, in column and reference order |
| Metadata.DirectSearchColumn | api/src/main/java/org/openmrs/module/dbevent/DatabaseMetadata.java:54-61 | the inner loop collects one column's direct joins, in reference order |
| Metadata.IndirectSearch | api/src/main/java/org/openmrs/module/dbevent/DatabaseMetadata.java:64-81 | the second double loop keeps the first of the shortest candidate paths |
| Metadata.ColumnSearch | api/src/main/java/org/openmrs/module/dbevent/DatabaseMetadata.java:67-78 | the loop over one column's references extends the running choice with that column's candidates |
| JoinSearch.FirstShortestIsFirstOfShortest | api/src/main/java/org/openmrs/module/dbevent/DatabaseMetadata.java:73-75 | keeping a candidate only when it is strictly shorter chooses the earliest of the shortest candidates, and nothing only when there are none |
| JoinSearch.DirectOfColumnExactly | api/src/main/java/org/openmrs/module/dbevent/DatabaseMetadata.java:54-61 | a join is among one column's direct joins exactly when its reference passes the direct test |
| JoinSearch.DirectJoinsExactly | api/src/main/java/org/openmrs/module/dbevent/DatabaseMetadata.java:53-63 | the direct joins are exactly the (column, reference) pairs passing the test |
| JoinSearch.ColumnCandidatesExactly | api/src/main/java/org/openmrs/module/dbevent/DatabaseMetadata.java:67-78 | one followed column's candidates are exactly its non-empty paths through a reference that is not excluded |
| JoinSearch.CandidatesExactly | api/src/main/java/org/openmrs/module/dbevent/DatabaseMetadata.java:65-80 | the candidates are exactly those paths, over the eligible columns |
| JoinSearch.DirectJoinsAreDirect | api/src/main/java/org/openmrs/module/dbevent/DatabaseMetadata.java:53-63 | every direct join starts at a column of the from-table and ends at a non-excluded column of the to-table, nullable only when allowed |
| JoinSearch.ChosenCandidate | api/src/main/java/org/openmrs/module/dbevent/DatabaseMetadata.java:64-81 | without direct joins, a non-empty result is a step through a followed reference to a table not excluded, followed by that table's own result |
| JoinSearch.JoinsAreChains | api/src/main/java/org/openmrs/module/dbevent/DatabaseMetadata.java:47-84 | every non-empty result has the shape of a chain of direct joins or steps |
| JoinSearch.ChainProperties | api/src/main/java/org/openmrs/module/dbevent/DatabaseMetadata.java:47-84 | a chain starts at the from-table, ends at the to-table, follows real foreign keys and never enters an excluded table |
| JoinSearch.JoinsDirect | api/src/main/java/org/openmrs/module/dbevent/DatabaseMetadata.java:53-64 | when a direct match exists, the result holds every direct join and nothing else |
| JoinSearch.NoDirectMeansNoDirectJoins | api/src/main/java/org/openmrs/module/dbevent/DatabaseMetadata.java:53-64 | with no direct match the direct loop finds nothing |
| JoinSearch.JoinsShortest | api/src/main/java/org/openmrs/module/dbevent/DatabaseMetadata.java:64-81 | without a direct match, the result is non-empty and no longer than the path through any followed reference that leads to the target |
| JoinSearch.JoinsEmptyExactly | api/src/main/java/org/openmrs/module/dbevent/DatabaseMetadata.java:47-84 | the result is empty exactly when there is no direct match and no followed reference leads on |
| JoinSearch.JoinsFromExcluded | api/src/main/java/org/openmrs/module/dbevent/DatabaseMetadata.java:50 | an excluded from-table yields no joins |
| JoinPaths.JoinPath.constructor | api/src/main/java/org/openmrs/module/dbevent/DatabaseJoinPath.java:12 | a new path is empty |
| JoinPaths.JoinPath.Add | api/src/main/java/org/openmrs/module/dbevent/DatabaseJoinPath.java:12 | add appends the join at the end |
| JoinPaths.JoinPath.Clone | api/src/main/java/org/openmrs/module/dbevent/DatabaseJoinPath.java:17-23 | the clone is a new object holding the same joins in the same order |
| JoinPaths.CloneIsIndependent | api/src/main/java/org/openmrs/module/dbevent/DatabaseJoinPath.java:17-23 | the clone answers isNullable like the original; adding to it leaves the original unchanged |
| JoinPaths.JoinPath.IsNullable | api/src/main/java/org/openmrs/module/dbevent/DatabaseJoinPath.java:28-35 | true exactly when some join of the path is nullable |
| JoinPaths.AnyNullableSnoc | api/src/main/java/org/openmrs/module/dbevent/DatabaseJoinPath.java:28-35 | the empty path is not nullable; appending a join makes a path nullable exactly when either part is |
| Text.JoinWithSnoc | api/src/main/java/org/openmrs/module/dbevent/DatabaseJoinPath.java:37-40 | joining a non-empty list with one more entry appends the separator and that entry |
| JoinPaths.JoinsStringShape | api/src/main/java/org/openmrs/module/dbevent/DatabaseJoinPath.java:37-40 | the list rendering of every path is bracketed and "[]" when empty; appending a join puts it before the closing bracket, after ", " unless the path was empty |
| Rows.IntValue | api/src/main/java/org/openmrs/module/dbevent/ObjectMap.java:40 | intValue gives a 32-bit int congruent to the long modulo 2^32 |
| Rows.ObjectMap.GetInteger | api/src/main/java/org/openmrs/module/dbevent/ObjectMap.java:26-29 | null exactly for an absent or null value; the Integer for an Integer; a ClassCastException for anything else |
| Rows.ObjectMap.GetString | api/src/main/java/org/openmrs/module/dbevent/ObjectMap.java:31-34 | null exactly for an absent or null value, otherwise the value's toString |
| Rows.ObjectMap.GetBoolean | api/src/main/java/org/openmrs/module/dbevent/ObjectMap.java:36-42 | null for null; a Boolean as is; a number is true exactly when its intValue is 1; a string is parsed, true only for "true" in any case |
| Rows.ObjectMap.GetBooleanOr | api/src/main/java/org/openmrs/module/dbevent/ObjectMap.java:44-47 | the default exactly for a null value, getBoolean's answer otherwise |
| Rows.DefaultMattersOnlyForNull | api/src/main/java/org/openmrs/module/dbevent/ObjectMap.java:44-47 | the two defaults give different answers exactly when the value is null |
| Rows.IntegerStringRoundTrip | api/src/main/java/org/openmrs/module/dbevent/ObjectMap.java:26-34 | an Integer read through getString parses back to the same number |
| Rows.BooleanStringRoundTrip | api/src/main/java/org/openmrs/module/dbevent/ObjectMap.java:36-42 | storing a Boolean's string form in its place leaves getBoolean's answer unchanged |
| Rows.LongTruncatedToInt | api/src/main/java/org/openmrs/module/dbevent/ObjectMap.java:40 | every Long reads as the Integer its low 32 bits make (intValue truncates), so it reads true exactly when it is 1 modulo 2^32 |
| Rows.NewEvent | api/src/main/java/org/openmrs/module/dbevent/DbEvent.java:26-43 | the event exists exactly when the record has a value and its operation code parses; its fields come from the record, with table and server name read from the source image; any failure is a RuntimeException |
| Rows.DbEvent.Values | api/src/main/java/org/openmrs/module/dbevent/DbEvent.java:45-47 | the before image for a delete, the after image otherwise |
| Rows.DbEvent.Uuid | api/src/main/java/org/openmrs/module/dbevent/DbEvent.java:49-51 | null exactly when the effective image has no uuid, otherwise its rendering |
| Rows.UuidOfDelete | api/src/main/java/org/openmrs/module/dbevent/DbEvent.java:45-51 | a delete reports the uuid of the row as it was before |
| Rows.EventStringStartsWithOperation | api/src/main/java/org/openmrs/module/dbevent/DbEvent.java:53-56 | an event renders as its operation's name, a space, then the rest |
| Text.DecimalRoundTrip | api/src/main/java/org/openmrs/module/dbevent/DbEventSourceConfig.java:47 | Integer.toString's decimal form parses back to the number |
| Text.DecimalStringInjective | api/src/main/java/org/openmrs/module/dbevent/DbEventSourceConfig.java:47 | different ids get different server ids and file names |
| Text.LowerCase | api/src/main/java/org/openmrs/module/dbevent/DbEventSourceConfig.java:63 | toLowerCase maps every character, and keeps the length |
| Text.SplitJoinRoundTrip | api/src/main/java/org/openmrs/module/dbevent/DbEventSourceConfig.java:94-96 | a list joined by a separator none of its entries contains splits back into the same entries |
| Text.ReplaceAllConcat | api/src/main/java/org/openmrs/module/dbevent/patient/PatientEventConsumer.java:263-266 | replacing a character distributes over concatenation |
| Text.ReplaceAllAbsent | api/src/main/java/org/openmrs/module/dbevent/patient/PatientEventConsumer.java:263-266 | replacing a character that does not occur changes nothing |
| PatientStatuses.LaterIsMax | api/src/main/java/org/openmrs/module/dbevent/patient/PatientStatus.java:21-27 | the new last-updated value is the larger of the two non-null values, and null only when both are |
| PatientStatuses.LaterIdempotent | api/src/main/java/org/openmrs/module/dbevent/patient/PatientStatus.java:21-27 | applying a timestamp twice is the same as applying it once |
| PatientStatuses.LaterCommutes | api/src/main/java/org/openmrs/module/dbevent/patient/PatientStatus.java:21-27 | the result does not depend on the order in which two timestamps arrive |
| PatientStatuses.PatientStatus.constructor | api/src/main/java/org/openmrs/module/dbevent/patient/PatientStatus.java:12-14 | a new status has no patient, no last-updated time, and is not deleted |
| PatientStatuses.PatientStatus.UpdateLastUpdatedIfLater | api/src/main/java/org/openmrs/module/dbevent/patient/PatientStatus.java:21-27 | last-updated becomes the later value and never moves back; the other fields are unchanged |
| PatientQueries.PathJoinsIndex | api/src/main/java/org/openmrs/module/dbevent/patient/PatientEventConsumer.java:214-216 | the k-th inner join joins the k-th join's target table on foreign key = primary key |
| PatientQueries.AsWrittenOneJoinHasNoFrom | api/src/main/java/org/openmrs/module/dbevent/patient/PatientEventConsumer.java:204-218 | as written, a one-join path yields `select T.c where T.c = ?`, which has no FROM clause and is not scoped |
| PatientQueries.AsWrittenPersonJoinUnbound | api/src/main/java/org/openmrs/module/dbevent/patient/PatientEventConsumer.java:227-242 | as written, the person fallback joins on `person.person_id` although no table of the path is person, so it is not scoped |
| PatientQueries.QueryScoped | api/src/main/java/org/openmrs/module/dbevent/patient/PatientEventConsumer.java:201-219 | the corrected query of any linked path refers only to tables in scope: a FROM table, each join's left side already bound, select and where bound |
| PatientQueries.QueryKeepsScopedAsWritten | api/src/main/java/org/openmrs/module/dbevent/patient/PatientEventConsumer.java:204-242 | wherever the query as written is already scoped, the corrected query is that same query |
| PatientQueries.QueryChangesExactlyUnscoped | api/src/main/java/org/openmrs/module/dbevent/patient/PatientEventConsumer.java:204-242 | for a linked path, the corrected query differs from the one as written exactly when the one as written is not scoped |
| PatientQueries.TwoPersonColumnsUnchanged | api/src/main/java/org/openmrs/module/dbevent/patient/PatientEventConsumer.java:227-241 | two direct joins out of one table, the first into person (relationship's person_a and person_b): the query as written is scoped, the corrected query is the same, and it joins patient on `person.person_id` |
| PatientQueries.ChainLinked | api/src/main/java/org/openmrs/module/dbevent/DatabaseMetadata.java:70-75 | every join path getJoins returns is linked and starts at its from-table |
| PatientQueries.QueryStringNamesValueColumn | api/src/main/java/org/openmrs/module/dbevent/patient/PatientEventConsumer.java:263-266 | PatientIdQuery's rendering replaces the final `?` with `:valueColumn` when no name contains a `?` |
| PatientQueries.BuildSql | api/src/main/java/org/openmrs/module/dbevent/patient/PatientEventConsumer.java:201-218 | the builder loop produces the corrected query's text; it tracks whether person is in scope to pick the patient join's column |
| PatientQueries.TableQuery | api/src/main/java/org/openmrs/module/dbevent/patient/PatientEventConsumer.java:198-245 | one table's query: along the path to patient, else along the path to person plus the patient join, else none; a NullPointerException for a table that is unknown and not excluded |
| PatientQueries.QueriesOfExactly | api/src/main/java/org/openmrs/module/dbevent/patient/PatientEventConsumer.java:194-248 | exactly the monitored tables with a path to patient or person get a query, and it is that table's query |
| PatientQueries.QueriesScoped | api/src/main/java/org/openmrs/module/dbevent/patient/PatientEventConsumer.java:194-248 | each stored query comes from a linked path starting at its table, filters on that table's column, and is scoped |
| PatientQueries.PatientIdQueries | api/src/main/java/org/openmrs/module/dbevent/patient/PatientEventConsumer.java:194-248 | the loop builds exactly those queries; a NullPointerException exactly when a monitored table is unknown and not excluded |
| PatientQueries.LinkPriority | api/src/main/java/org/openmrs/module/dbevent/patient/PatientEventConsumer.java:150-172 | a patient_id column wins over every other link, person_id wins when there is no patient_id, and relationship links through its person columns exactly when it has neither |
| PatientQueries.SnapshotJoinsTwice | api/src/main/java/org/openmrs/module/dbevent/patient/PatientEventConsumer.java:150-157 | no table gets more than two joins, and only relationship without patient_id or person_id gets two |
| PatientQueries.SnapshotJoinsNone | api/src/main/java/org/openmrs/module/dbevent/patient/PatientEventConsumer.java:150-172 | a table gets no join exactly when it is not relationship and has none of the linking columns |
| PatientQueries.DateColumnsCount | api/src/main/java/org/openmrs/module/dbevent/patient/PatientEventConsumer.java:173-182 | one date expression per date column present; none exactly when none is present |
| PatientQueries.TableUpdatesExactly | api/src/main/java/org/openmrs/module/dbevent/patient/PatientEventConsumer.java:183-189 | a table yields updates exactly when it has a join and a date column, one per join |
| PatientQueries.SnapshotUpdatesExactly | api/src/main/java/org/openmrs/module/dbevent/patient/PatientEventConsumer.java:145-191 | a statement is among the updates exactly when some visited table contributes it |
| PatientQueries.SnapshotStatementsExactly | api/src/main/java/org/openmrs/module/dbevent/patient/PatientEventConsumer.java:139-192 | the insert comes first, then exactly the updates of the included tables other than patient |
| PatientQueries.InitialSnapshotStatements | api/src/main/java/org/openmrs/module/dbevent/patient/PatientEventConsumer.java:139-192 | the snapshot loop issues those statements, in table order |
| PatientQueries.SnapshotTable | api/src/main/java/org/openmrs/module/dbevent/patient/PatientEventConsumer.java:146-189 | one table's loop issues one update per join, or none when it lacks joins or date columns |
| PatientEvents.SkippedEventChangesNothing | api/src/main/java/org/openmrs/module/dbevent/patient/PatientEventConsumer.java:78-83 | an event older than the watermark changes nothing and raises nothing |
| PatientEvents.HandledOutcome | api/src/main/java/org/openmrs/module/dbevent/patient/PatientEventConsumer.java:114-132 | the patient's row gets the event's time and nothing else changes. The deleted flag is kept for other tables, set by a delete, and takes `voided` otherwise. A NullPointerException, with the watermark kept, exactly when the table is null or, for a non-delete patient event, `voided` is null. Otherwise the watermark becomes the event's time |
| PatientEvents.HandledIdempotent | api/src/main/java/org/openmrs/module/dbevent/patient/PatientEventConsumer.java:114-132 | handling the same patient event twice ends as handling it once |
| PatientEvents.WatermarkNeverDecreases | api/src/main/java/org/openmrs/module/dbevent/patient/PatientEventConsumer.java:77-132 | the watermark never moves back, and it moves only to the time of an event that was not skipped |
| PatientEvents.CacheOnlyGrows | api/src/main/java/org/openmrs/module/dbevent/patient/PatientEventConsumer.java:84-103 | cached ids stay; the only new entry is the row's key, holding the id a query found for an event without its own patient_id; the status store is untouched |
| PatientEvents.ResolvedWithoutQuery | api/src/main/java/org/openmrs/module/dbevent/patient/PatientEventConsumer.java:84-93 | an event with its own patient_id or a cached row runs no query |
| PatientEvents.UnresolvedEventIsDropped | api/src/main/java/org/openmrs/module/dbevent/patient/PatientEventConsumer.java:84-106 | an event whose patient cannot be found changes nothing and raises nothing |
| PatientEvents.NonIntegerPatientIdFails | api/src/main/java/org/openmrs/module/dbevent/patient/PatientEventConsumer.java:84 | a patient_id that is not an Integer is a ClassCastException that changes nothing |
| PatientEvents.OnlyThePatientsRowChanges | api/src/main/java/org/openmrs/module/dbevent/patient/PatientEventConsumer.java:104-132 | only the resolved patient's row changes, and it takes the event's time |
| PatientEvents.InvariantKept | api/src/main/java/org/openmrs/module/dbevent/patient/PatientEventConsumer.java:114-132 | an event that completes keeps every tracked row at or below the watermark |
| PatientEvents.UpsertIsLater | api/src/main/java/org/openmrs/module/dbevent/patient/PatientEventConsumer.java:118-120 | under that invariant, the overwriting upsert gives the same value as updateLastUpdatedIfLater |
| PatientEvents.AcceptIdempotent | api/src/main/java/org/openmrs/module/dbevent/patient/PatientEventConsumer.java:77-107 | accepting the same event twice ends as accepting it once |
| PatientEvents.MaxLastUpdated | api/src/main/java/org/openmrs/module/dbevent/patient/PatientEventConsumer.java:250-255 | null exactly for an empty table; otherwise a row's last_updated that no row exceeds |
| PatientEvents.PatientEventConsumer.constructor | api/src/main/java/org/openmrs/module/dbevent/patient/PatientEventConsumer.java:46-49 | the consumer holds its queries and the stored data, and has no watermark yet |
| PatientEvents.NewConsumer | api/src/main/java/org/openmrs/module/dbevent/patient/PatientEventConsumer.java:46-49 | construction fails exactly when getPatientIdQueries does; otherwise the consumer holds exactly those queries |
| PatientEvents.PatientEventConsumer.Startup | api/src/main/java/org/openmrs/module/dbevent/patient/PatientEventConsumer.java:52-68 | with the marker stored, nothing is issued or changed. Without it, the snapshot statements are issued, the table becomes the snapshot's, and the marker is stored. Either way the watermark is the table's maximum and the invariant holds |
| PatientEvents.RestartSkipsSnapshot | api/src/main/java/org/openmrs/module/dbevent/patient/PatientEventConsumer.java:56-62 | a second startup issues no snapshot and keeps the first marker |
| PatientEvents.PatientEventConsumer.HandlePatientEvent | api/src/main/java/org/openmrs/module/dbevent/patient/PatientEventConsumer.java:114-132 | the in-place steps end in the state and exception that Handled gives |
| PatientEvents.PatientEventConsumer.Accept | api/src/main/java/org/openmrs/module/dbevent/patient/PatientEventConsumer.java:77-107 | the in-place steps end in the state and exception that Accepted gives |
| Retry.Accept | api/src/main/java/org/openmrs/module/dbevent/DebeziumConsumer.java:33-48 | returns exactly when the event can be built and some attempt does not throw. It stops at the first such attempt, after all earlier ones threw. Every attempt delivers the same event, and none is delivered when the event cannot be built |
| Retry.SleepFailuresIgnored | api/src/main/java/org/openmrs/module/dbevent/DebeziumConsumer.java:40-46 | runs that differ only in failures during the wait end alike |
| EventLog.DbEventLog.constructor | api/src/main/java/org/openmrs/module/dbevent/DbEventLog.java:24-25 | the log starts with no statuses and no counts |
| EventLog.DbEventLog.Log | api/src/main/java/org/openmrs/module/dbevent/DbEventLog.java:27-40 | the new state is Logged(old state, event), and the returned status is the event's |
| EventLog.LogCountsOne | api/src/main/java/org/openmrs/module/dbevent/DbEventLog.java:34 | the event's own counter goes up by one, wrapping like an int, and no other counter changes |
| EventLog.LogSetsLatest | api/src/main/java/org/openmrs/module/dbevent/DbEventLog.java:37-39 | the event's source now reports it, and every other source reports what it did before |
| EventLog.ReplayCounts | api/src/main/java/org/openmrs/module/dbevent/DbEventLog.java:27-40 | from an empty log, each counter is the number of events of that source and table, wrapped like an int |
| EventLog.ReplayLatest | api/src/main/java/org/openmrs/module/dbevent/DbEventLog.java:27-40 | from an empty log, each source reports its last event, and only sources that had events report |
| EventLog.DbEventLog.GetLatestEventStatus | api/src/main/java/org/openmrs/module/dbevent/DbEventLog.java:42-44 | null exactly for a source never logged, otherwise its status |
| EventLog.DbEventLog.GetTableCounts | api/src/main/java/org/openmrs/module/dbevent/DbEventLog.java:54-56 | an unseen source gets an empty map, which is stored; the source's counters are returned |
| SourceConfig.DefaultsNamed | api/src/main/java/org/openmrs/module/dbevent/DbEventSourceConfig.java:35-52 | both names are the source name; the server id is the source id in decimal and parses back to it; the two files are named from that id in the data directory |
| SourceConfig.SnapshotModeDefault | api/src/main/java/org/openmrs/module/dbevent/DbEventSourceConfig.java:40-53 | only DbEventSourceConfig sets snapshot.mode, to when_needed, and it adds no other key |
| SourceConfig.DriverNameCaseInsensitive | api/src/main/java/org/openmrs/module/dbevent/DbEventSourceConfig.java:63 | a driver property's name matters only up to letter case |
| SourceConfig.DriverPropertyEffect | api/src/main/java/org/openmrs/module/dbevent/DbEventSourceConfig.java:63-78 | an unmapped name is ignored; a mapped one fails exactly on a null value; only the driver keys change; dbname sets the database name and include list (and, for DbEventSource, `dbname.*` as the table list) |
| SourceConfig.DriverFailsExactly | api/src/main/java/org/openmrs/module/dbevent/DbEventSourceConfig.java:60-83 | the driver properties fail exactly when some mapped property has a null value |
| SourceConfig.DriverChangesOnlyItsKeys | api/src/main/java/org/openmrs/module/dbevent/DbEventSourceConfig.java:62-79 | the driver properties change no key but their own |
| SourceConfig.ConnectedFailsExactly | api/src/main/java/org/openmrs/module/dbevent/DbEventSourceConfig.java:56-83 | a NullPointerException exactly when a credential is missing; otherwise an IllegalArgumentException naming the URL exactly when there is no driver or a mapped value is null |
| SourceConfig.ConnectedKeepsOtherKeys | api/src/main/java/org/openmrs/module/dbevent/DbEventSourceConfig.java:56-83 | the credentials come from the runtime properties, and every other key the defaults set (names, ids, the offsets and history files) is kept |
| SourceConfig.PrefixedOnce | api/src/main/java/org/openmrs/module/dbevent/DbEventSourceConfig.java:95 | each entry ends up starting with the prefix, gaining it only when it lacks it, so prefixing twice is prefixing once |
| SourceConfig.BlankDatabaseKeepsEntries | api/src/main/java/org/openmrs/module/dbevent/DbEventSourceConfig.java:92-96 | with a blank or missing database name the entries are kept as given |
| SourceConfig.TableListSlots | api/src/main/java/org/openmrs/module/dbevent/DbEventSourceConfig.java:94-96 | when no name contains a comma, the list splits back into the prefixed entries, one per table |
| SourceConfig.TablesConfiguredIdempotent | api/src/main/java/org/openmrs/module/dbevent/DbEventSourceConfig.java:90-98 | configuring the same tables twice is configuring them once |
| SourceConfig.DbEventSourceConfig.constructor | api/src/main/java/org/openmrs/module/dbevent/DbEventSourceConfig.java:30-53 | the defaults, with a retry interval of 60 seconds |
| SourceConfig.DbEventSourceConfig.GetProperty | api/src/main/java/org/openmrs/module/dbevent/DbEventSourceConfig.java:120-122 | null exactly for an absent key, otherwise its value |
| SourceConfig.DbEventSourceConfig.SetProperty | api/src/main/java/org/openmrs/module/dbevent/DbEventSourceConfig.java:129-131 | a null value is a NullPointerException that changes nothing; otherwise the key is set and reads back |
| SourceConfig.DbEventSourceConfig.Connect | api/src/main/java/org/openmrs/module/dbevent/DbEventSourceConfig.java:55-83 | the credentials then the driver loop give the Connected result; the retry interval is unchanged |
| SourceConfig.DbEventSourceConfig.ConfigureTablesToInclude | api/src/main/java/org/openmrs/module/dbevent/DbEventSourceConfig.java:90-99 | nothing for a null or empty list, otherwise table.include.list becomes the prefixed list |
| SourceConfig.DbEventSourceConfig.ConfigureTablesToExclude | api/src/main/java/org/openmrs/module/dbevent/DbEventSourceConfig.java:105-114 | the same for table.exclude.list |
| SourceConfig.NewDbEventSourceConfig | api/src/main/java/org/openmrs/module/dbevent/DbEventSourceConfig.java:30-84 | construction fails exactly when connecting over the defaults does, with that exception; otherwise the configuration is its result |
| SourceConfig.DbEventSource.constructor | api/src/main/java/org/openmrs/module/dbevent/DbEventSource.java:53-76 | the defaults, with files under `dbevent` in the application data directory, and a retry interval of 60 seconds |
| SourceConfig.DbEventSource.GetProperty | api/src/main/java/org/openmrs/module/dbevent/DbEventSource.java:129-131 | null exactly for an absent key, otherwise its value |
| SourceConfig.DbEventSource.SetProperty | api/src/main/java/org/openmrs/module/dbevent/DbEventSource.java:138-140 | a null value is a NullPointerException that changes nothing; otherwise the key is set and reads back |
| SourceConfig.DbEventSource.Connect | api/src/main/java/org/openmrs/module/dbevent/DbEventSource.java:78-107 | as for the configuration, with dbname also setting table.include.list to `dbname.*` |
| SourceConfig.DbEventSource.ConfigureTablesToInclude | api/src/main/java/org/openmrs/module/dbevent/DbEventSource.java:114-123 | nothing for a null or empty list, otherwise table.include.list becomes the prefixed list |
| SourceConfig.NewDbEventSource | api/src/main/java/org/openmrs/module/dbevent/DbEventSource.java:53-108 | construction fails exactly when connecting over the defaults does, with that exception; otherwise the configuration is its result |

## Left out

- Debezium, Kafka Connect, RocksDB, JDBC and the file system are not modelled. Their results are
  parameters or maps instead:
  - the patient-id SQL lookup is a function `lookup`;
  - the driver's reading of the URL is a function `drivers`;
  - the effect of the snapshot statements on the tracking table is the parameter `snapshotted`;
  - the key cache, the status store and the `dbevent_patient` table are maps.
- SQL is produced as text and never executed. The model does not check what the statements do.
  In the source any SQL failure, such as the one a query without a FROM clause would raise, becomes
  a RuntimeException out of `Database.executeQuery`/`executeUpdate` (`Database.java:109-110`,
  `125-126`) and so out of `accept`, which `DebeziumConsumer` then retries without end. The model's
  `lookup` returns `Option<int>` and its upsert never fails, so that path is not modelled.
- `DbEventSource.start`, `stop`, `reset`, the executor and the engine are not modelled. They
  are lifecycle and threads. `PatientEventConsumer.shutdown` is not modelled either, since it
  only closes files.
- `getOffsetsFile` and `getDatabaseHistoryFile` are not modelled, because they build `File`
  objects. `ConnectedKeepsOtherKeys` and `DefaultsNamed` state the paths they read.
- `Retry.Accept`: the source retries by unbounded self-recursion. The model runs over a given
  finite sequence of attempt outcomes, and it leaves out the sleep duration and the logging.
- `ObjectMap(Struct)` and the Struct accessors of the `DbEvent` constructor are not modelled. A
  record is given as a value that is either present or absent. `Operation.parse` is a parameter.
  The timestamp `ts_ms` is assumed present.
- `DbEvent.timestamp` is an unbounded integer. The conversion of `last_updated` between
  timestamps and epoch milliseconds, with its time zone and precision, is not modelled.
- Iteration order is taken as given: the order of `LinkedHashMap`s is a `seq`. The results of
  `HashSet` and `TreeSet` are sets; `ReferenceClosureUnique` proves the order does not matter.
- `getMonitoredTables`, `isIncluded` and the metadata loader are not part of this model. They are
  parameters: the sequence of monitored table names, the predicate `included`, the graph value.
- The graph searches require a well-formed schema, in which every foreign-key edge names an
  existing column. On a dangling edge the source would throw; the model does not cover that case.
- Letter case is ASCII only: `toLowerCase`, `equalsIgnoreCase` and `isWhitespace` are given on the
  ASCII range.
- Varargs and lists of tables are sequences with no null entries. A null `sourceName`, or a null
  driver property name, is not modelled.
- `DbEventStatus` is not part of this model: a status is the event it was made from.
- `DbEventLog.getLatestEventStatuses` and `getTableCounts()` are shown by `Contents()`. The
  aliasing of the count map handed out by `getTableCounts(source)` is not modelled; the model
  returns it by value.
- `PatientEventConsumer.accept` before `startup` is not modelled. Its NullPointerException on the
  missing RocksDB handle is left out; the model's constructor starts from given stored maps.
- `PatientEvent`, `DatabaseQuery`, `Database`, `EventContext`, `ContextWrapper` and the logging
  consumers are not part of this model.
- Lombok's generated `equals`, `hashCode` and `toString` are not modelled, except for the
  `toString` renderings modelled above.
- `DbEventSource`'s `eventConsumer` field and its `setEventConsumer` setter (`DbEventSource.java:40`)
  are not modelled. They only wire the consumer for `start`, which is left out.
- Float, Double and BigDecimal column values are not modelled. With `decimal.handling.mode=double`
  (`DbEventSourceConfig.java:51`) DECIMAL columns arrive as Double. `getInteger` casts, so on such a
  value it raises a ClassCastException (as `Rows.ObjectMap.GetInteger` models for a Long);
  `getBoolean` reads it through `intValue`, which truncates toward zero.
- `PatientQueries.BuildSql`: the builder produces the corrected query, and so do the members built
  on it: `PatientQueries.TableQuery`, `PatientQueries.PatientIdQueries`, `PatientQueries.QueriesOf`,
  `PatientQueries.MakeQuery`, `PatientEvents.NewConsumer` and the consumer's `queries`. The text
  exactly as written is `QueryAsWritten`, described under Findings.
- `PatientEvents.Upserted` gives a newly inserted tracking row `deleted == false`. The insert names
  only `patient_id` and `last_updated`, so this assumes the column defaults to false; the
  `dbevent_patient` table definition is not part of this model.

## Findings

| source | as written | input that shows it | evidently intended | confidence | as-written member | corrected member |
|---|---|---|---|---|---|---|
| api/src/main/java/org/openmrs/module/dbevent/patient/PatientEventConsumer.java:204-242 | the FROM clause is appended only inside the loop over all joins but the last (at i == 0), and the person fallback joins patient on `person.person_id` | a monitored table with a one-join path such as `encounter.patient_id -> patient.patient_id` gives `select encounter.patient_id where encounter.patient_id = ?`, with no FROM; a one-join path to person such as `x.person_id -> person.person_id` also refers to `person`, which is never joined; either query fails when run, and the RuntimeException out of `accept` makes `DebeziumConsumer` retry the event without end | always select FROM the first table of the path; join patient on `person.person_id` when the path has person in scope, otherwise on the column that holds the person id; the correction changes a linked path's query exactly when the one as written is not scoped | not executed | PatientQueries.AsWrittenOneJoinHasNoFrom | PatientQueries.QueryScoped |
