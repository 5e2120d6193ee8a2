# Account persistence and the audit gate, verified

A Dafny model of three parts of the sub2api backend, with proofs about each.

1. **Loading accounts** (`Relational`, `EagerSpec`, `QueryGraph`, `EdgeAssign`, `EagerLoad`,
   `EagerRun`, `QueryRun`, `EdgeAccess`). Query builders are heap objects that form a tree of
   edge queries; a run sends one query per edge for all nodes at once, indexes the nodes by
   ID or foreign key, and hangs the answers on the nodes' `Edges`. The methods of
   `EagerLoad` and `EagerRun` are the loaders with their maps and loops. They are proved
   against `EagerSpec.Run`, a function of the store and the builders' contents, which also
   says what a run leaves in the builders (`After`) and when it fails (`RunError`).
   `EagerSpec.Naive` is an independent reference: one lookup per node per edge, from the
   stored rows. `EagerLaws`, `EagerCorollaries`, `EagerWindows` and `EagerDepth` relate the
   two; `EagerRerun` and `EagerVisible` say what a second run of a builder does. `AnswerLaws`
   says what one answer is, `EagerCells` and `LoadedCells` what the loaded entities show of
   the stored rows.
2. **Writing accounts** (`AccountRow`, `CreateBuilder`, `CreateLaws`, `BulkCreate`, `BulkLaws`,
   `AccountUpdate`, `RowHistory`, `UpdateLaws`). Defaults, checks, insert and update
   specifications, the chain of mutators and hooks behind a bulk save, conflict options, and
   what they mean for stored rows over whole runs. `CreateLaws` and `UpdateLaws` state the
   outcome column by column, with the columns described by their types.
3. **The audit-exception gate** (`ExceptionsParser`, `AuditGate`, `AuditLaws`, `AuditReading`).
   The line parser, the vulnerability iterator with the inputs that make it raise, the index
   and scan loops, and the exit status; `AuditReading` says what a pass means for the text of
   the list and the report.

The database is a value: tables of rows, a stable sort, DISTINCT, offset and limit. The
store does not change during a run. Predicates and order options are arbitrary functions of
a row. Clocks, the SQL driver's answer, the schema validators, the date parser,
`str.lower`, and `str` of a non-string are parameters.

Some results describe behaviour a reader may not expect:

- `Limit(0)` means no limit to `All` and no rows to `IDs` (`QueryRun.IDsMatchAll`).
- A limit or offset on an edge query applies to the whole batch, not to each node; batching
  agrees with per-node queries on every store exactly when no edge query of the plan has
  one, at any depth (`EagerDepth.WindowsExact`).
- With `Unique(false)` on a traversal only the last copy of a repeated account gets its
  to-many edges (`EagerCorollaries.RepeatsExact`, `EagerCorollaries.RepeatsWitness`).
- Loading leaves its key conditions on the edge queries, and loading groups leaves its join.
  With a second join every row has the account column twice, and the first row panics. So a
  second run on an unchanged store panics iff the first answer holds a group somewhere, and
  gives the same answer otherwise (`EagerRerun.RerunExact`, `EagerVisible.RerunIsVisible`,
  `EagerVisible.PanicWitness`).
- On a changed store a reused builder that does not panic gives new accounts no children
  (`EagerRerun.ReuseAfterChange`, `EagerRerun.ReuseAfterChangePanics`, `EagerRerun.ReuseWitness`).
- `AccountUpsertOne.UpdateNewValues` is documented as the same as `ResolveWithNewValues`; the
  code keeps `created_at`, the bare option does not (`RowHistory.NotTheDocumentedEquivalence`).
  The model follows the code.
- `ClearProxy` after `SetProxyID` keeps the proxy that was set
  (`AccountUpdate.LastKeyCallWins`), and `ClearGroups` never takes back an `AddGroupIDs`
  (`AccountUpdate.LastMentionWins`).
- A bulk save can fail with its rows inserted and some mutations marked done, exactly when
  a hook fails after the call it wraps succeeded (`BulkLaws.HowFarDone`,
  `BulkLaws.FailedAfterInsert`).
- A critical vulnerability whose exception is for a high one is let through when a high one
  with the same key comes first (`AuditLaws.WhatDedupSkips`, `AuditLaws.DedupWitness`).
- An entry of `vulnerabilities` whose `via` names no advisory is not checked at all,
  whatever its severity (`AuditLaws.SilentEntryExact`), and a truthy title that is not a
  string makes the script raise (`AuditGate.Vulns`).

## Model

| member | source | states |
|---|---|---|
| `Relational.WhereSort` | backend/ent/account_query.go:881-900 | filtering and stable sorting commute, so a batch split by key keeps each part's order |
| `Relational.SortIsSorted` | backend/ent/account_query.go:894-900 | the answer is ordered by the order options, compared one after the other |
| `Relational.RowsAreSorted` | backend/ent/account_query.go:888-900 | so is every answer, DISTINCT and windows included |
| `Relational.AndFiltersRows` | backend/ent/account_query.go:861-900 | one more predicate on a query without a window filters its answer, DISTINCT or not |
| `Relational.RowsAreKeyed` | backend/ent/account_query.go:858-865 | no primary key comes back twice unless a traversal asked for repeats |
| `AnswerLaws.EveryRowPasses` | backend/ent/account_query.go:881-887 | every row of an answer is stored and passes each predicate itself: a custom test, or a key among those asked for |
| `AnswerLaws.AnswerExactly` | backend/ent/account_query.go:881-887 | without a window and a traversal an answer holds exactly the stored rows that pass |
| `AnswerLaws.WalkIsKept` | backend/ent/account_query.go:861-865 | a traversal that stays within its table loses no row and keeps its order |
| `AnswerLaws.AnswerAscends` | backend/ent/account_query.go:894-900 | rows that agree on the first order options do not descend on the next one; with one option its values never decrease along an answer |
| `AnswerLaws.TiesKeepOrder` | backend/ent/account_query.go:894-900 | rows that tie on every option stay in stored order |
| `AnswerLaws.WindowOf` | backend/ent/account_query.go:888-893 | the offset drops that many rows, a limit other than zero keeps that many of the rest |
| `AnswerLaws.DistinctDefault` | backend/ent/account_query.go:861-865 | a traversal is distinct unless told otherwise, a table query only when told so |
| `QueryGraph.QueryContext.AppendFieldOnce` | backend/ent/account_query.go:763-763 | a field is added to a selection once |
| `QueryGraph.AccountQuery.Where` | backend/ent/account_query.go:44-47 | a predicate changes this builder's selection and no edge query below it |
| `QueryGraph.AccountQuery.Limit` | backend/ent/account_query.go:50-53 | the limit is set and nothing else changes, here and below |
| `QueryGraph.AccountQuery.Offset` | backend/ent/account_query.go:56-59 | the same for the offset |
| `QueryGraph.AccountQuery.Unique` | backend/ent/account_query.go:63-66 | the same for DISTINCT |
| `QueryGraph.AccountQuery.Order` | backend/ent/account_query.go:69-72 | order options are added behind those that are there |
| `QueryGraph.AccountQuery.NeedField` | backend/ent/account_query.go:762-764 | a loader's key column joins a non-empty selection only |
| `EdgeAssign.IndexByKey` | backend/ent/account_query.go:689-700 | the ID list is duplicate-free and is the non-null keys in first-seen order; each key maps to exactly the nodes that carry it, in order |
| `EdgeAssign.AssignToOne` | backend/ent/account_query.go:708-717 | the loop stops exactly at an answer nobody asked for, and otherwise every node has received the answers its own key names |
| `EdgeAssign.IndexByID` | backend/ent/account_query.go:753-761 | every ID maps to the last node that carries it |
| `EdgeAssign.AssignToMany` | backend/ent/account_query.go:772-782 | each neighbor goes to the node its foreign key names; the loop fails exactly on an unknown one |
| `EagerLoad.ScanLinks` | backend/ent/account_query.go:650-672 | the assign and scan callbacks: one object per distinct group in first-seen order, with the set of nodes joined to it |
| `EagerLoad.LoadGroups` | backend/ent/account_query.go:627-687 | the groups of each node are those of the specification, each group is one object shared by its accounts, the join stays on the query, the unexpected-node branch is unreachable, and the failures are an invalid field of the group query and, when an earlier join is still there and the query has a row, the panic of the scan |
| `EagerLoad.LoadProxy` | backend/ent/account_query.go:688-719 | each node gets the proxy a lookup of its key finds, or none, and nodes with one key share one object; the only failure is an invalid field of the proxy query; the query keeps the key condition |
| `EagerLoad.LoadMember` | backend/ent/accountgroup_query.go:408-436 | the same for the group of a junction entity |
| `EagerRun.LoadParent` | backend/ent/account_query.go:720-751 | each node gets its parent's loaded graph, nodes with one key share one object, and the only failure is the edge query's own |
| `EagerRun.LoadOwner` | backend/ent/accountgroup_query.go:379-407 | the same for the account of a junction entity, sharing included |
| `EagerRun.LoadChildren` | backend/ent/account_query.go:752-784 | each node gets the loaded graphs of its children in answer order; the unknown-key branch is unreachable |
| `EagerRun.LoadAccountGroups` | backend/ent/account_query.go:815-844 | the same for the junction entities of a node |
| `EagerRun.SqlAll` | backend/ent/account_query.go:550-625 | for every builder tree the object graph, the first failure of the root or any edge query, and the builders afterwards are those of `Run`, `RunError` and `After` |
| `EagerRun.SqlAllJunction` | backend/ent/accountgroup_query.go:334-377 | the same for the junction query |
| `EagerCells.RunCells` | backend/ent/account_query.go:550-625 | for any store and plan, windows or not, each loaded node shows of its stored row exactly the selected columns, cells of every type included, and so does everything on its edges at every depth: groups, proxies, parents, children and junction entities |
| `EagerCells.RunJunctionCells` | backend/ent/accountgroup_query.go:334-377 | the same for junction queries |
| `LoadedCells.AllShown` | backend/ent/account_query.go:559-571 | the same for the objects a run of `SqlAll` returns, and spelled out for the entities themselves: the i-th one shows each selected cell of the i-th row of the answer and no other |
| `LoadedCells.AllJunctionShown` | backend/ent/accountgroup_query.go:334-377 | the same for the objects of `SqlAllJunction` |
| `EagerLaws.AccountColumnsCarry` | backend/ent/account_query.go:866-880 | a selection of columns starts with the ID and holds every foreign key an active loader reads |
| `EagerLaws.SplitOne` | backend/ent/account_query.go:704-717 | the first row of a key in one batched answer is the first row of a query for that key alone |
| `EagerLaws.SplitMany` | backend/ent/account_query.go:765-782 | the rows of a key in one batched answer are the answer of a query for that key alone |
| `EagerLaws.GroupsAgree` | backend/ent/account_query.go:627-687 | the groups read off the shared join are those of a join for one account, in the same order |
| `EagerLaws.AttachIsNaive` | backend/ent/account_query.go:550-625 | one level of loading over any node list: the last node of an ID gets what a lookup gives, earlier copies get the same to-one edges and no to-many ones |
| `EagerLaws.RunIsNaive` | backend/ent/account_query.go:550-625 | for plans of any depth without windows on edge queries the loaded graph is that of per-node lookups |
| `EagerLaws.RunJunctionIsNaive` | backend/ent/accountgroup_query.go:334-377 | the same for junction queries |
| `EagerCorollaries.RepeatsExact` | backend/ent/account_query.go:63-66 | with repeated accounts loading agrees with lookups iff every earlier copy has nothing on its to-many edges |
| `EagerCorollaries.RepeatsWitness` | backend/ent/account_query.go:119-138 | an account with two children, which `QueryParent` of all accounts with `Unique(false)` reaches twice, is loaded differently from lookups |
| `EagerCorollaries.ColumnsDoNotMatter` | backend/ent/account_query.go:762-880 | any field list loads the same IDs and edges as all columns do |
| `EagerCorollaries.ValidFieldsNeverFail` | backend/ent/account_query.go:535-539 | a first run over valid fields throughout the plan succeeds on every store |
| `EagerCorollaries.ChildrenInOrder` | backend/ent/account_query.go:765-782 | the children of a node are the neighbors at ascending positions of the one answer, exactly those with its ID as their key, and their rows are sorted by the order options of the children query |
| `EagerCorollaries.GroupsExact` | backend/ent/account_query.go:652-685 | whatever rows the join yields and in whatever order, a group is loaded for an account once, iff some row links the two |
| `EagerCorollaries.NaiveGroupsExact` | backend/ent/account_query.go:627-687 | that is iff the junction table pairs them and the group passes the edge predicates |
| `EagerCorollaries.TwoRoutesAgree` | backend/ent/accountgroup_query.go:408-436 | whatever the three queries select, a group of the groups edge whose pair and row pass the walk's predicates is reached through the junction entity, and the other way round |
| `EagerCorollaries.UnfilteredRoutesAgree` | backend/ent/accountgroup_query.go:408-436 | the two reach the same groups when both select groups alike and the junction query selects nothing |
| `EagerCorollaries.ParentChildrenConverse` | backend/ent/account_query.go:720-784 | for any predicates: y is among x's children and x passes the parent query iff y's parent is x and y passes the children query |
| `EagerCorollaries.UnfilteredConverse` | backend/ent/account_query.go:720-784 | without predicates y is among x's children iff y's parent is x |
| `EagerDepth.WindowsExact` | backend/ent/account_query.go:627-844 | a plan of edge queries that select nothing, any edges to any depth, is loaded as per-node lookups load it on every store iff none of its queries has a limit or an offset |
| `EagerDepth.JunctionWindowsExact` | backend/ent/accountgroup_query.go:379-436 | the same for junction queries |
| `EagerRerun.RerunExact` | backend/ent/account_query.go:638-668 | for any plan, a second run on the same store panics iff some group query of the plan would have a row to scan when joined once more, and otherwise gives the same graph |
| `EagerRerun.JunctionRerun` | backend/ent/accountgroup_query.go:334-377 | the same for the junction query |
| `EagerRerun.CountOnce` | backend/ent/account_query.go:638-646 | the number of joined rows, with one join, is that of the rows the first load reads |
| `EagerVisible.QuietIsVisible` | backend/ent/account_query.go:638-668 | with edge queries not run before and no offset on a group query, that condition holds iff the graph of the first run has no group on any groups edge, at any depth |
| `EagerVisible.RerunIsVisible` | backend/ent/account_query.go:638-668 | so a second run panics iff the first answer holds a group, and otherwise gives that answer again |
| `EagerVisible.PanicWitness` | backend/ent/account_query.go:638-668 | one account in one group: the first load succeeds and the second panics |
| `EagerRerun.ReuseAfterChange` | backend/ent/account_query.go:765-767 | on a changed store, whatever else the plan loads, a second run that does not fail gives accounts of the first answer the rows of their present children and new accounts none |
| `EagerRerun.ReuseAfterChangePanics` | backend/ent/account_query.go:638-668 | it panics if the groups edge is loaded and the group query, joined to the accounts of both answers, has a row |
| `EagerRerun.ReuseAfterChangeFlat` | backend/ent/account_query.go:765-767 | the same for whole graphs when nothing is loaded below the children |
| `EagerRerun.ReuseWitness` | backend/ent/account_query.go:765-767 | a builder run before account 2 and its child 3 were there does not load the child, a fresh one does |
| `QueryRun.All` | backend/ent/account_query.go:307-314 | `All` returns the graph of per-node lookups, and its i-th entity shows exactly the selected columns of the i-th row of the answer, as does all that is loaded below it |
| `QueryRun.First` | backend/ent/account_query.go:208-217 | the first row of the whole answer with the edges of its graph, per-node lookups included, or not found, whatever limit was set before |
| `QueryRun.Only` | backend/ent/account_query.go:254-267 | zero, one or many is decided for the whole offset-adjusted answer from two rows; the one found comes with the edges of its graph |
| `QueryRun.LimitIsPrefix` | backend/ent/account_query.go:888-893 | a limit takes a prefix of the unlimited answer |
| `QueryRun.SelectID` | backend/ent/account_query.go:326-330 | the builder keeps the ID selection and the distinct default of a traversal |
| `QueryRun.IDs` | backend/ent/account_query.go:326-335 | the IDs of the selected rows; a field selected before makes it fail |
| `QueryRun.IDsMatchAll` | backend/ent/account_query.go:904-937 | `IDs` is the ID projection of `All` iff neither a zero limit nor an offset without limit over more rows than the smaller of two different caps gets in the way; the cap the driver puts beside an offset is a parameter |
| `QueryRun.CappedExact` | backend/ent/account_query.go:888-893 | such a cap changes the answer of `All` iff an offset without limit leaves more rows than it |
| `QueryRun.FirstID` | backend/ent/account_query.go:230-240 | the first ID of a limit-1 query |
| `QueryRun.Exist` | backend/ent/account_query.go:365-375 | true iff the whole answer is non-empty, whatever limit was set |
| `QueryRun.Clone` | backend/ent/account_query.go:388-408 | an equal plan at every depth, built of new objects only, with the original unchanged |
| `QueryRun.CloneJunction` | backend/ent/accountgroup_query.go:220-236 | the same for the junction query |
| `QueryRun.Independent` | backend/ent/account_query.go:388-408 | whatever is changed in a copy or in its original, at any depth, the other one stands for the same query |
| `QueryRun.ChangeCopy` | backend/ent/account_query.go:388-408 | for instance a predicate added to the parent query of the copy |
| `QueryRun.RunCopy` | backend/ent/account_query.go:388-408 | running the copy gives the original's answer and does not disturb the original |
| `QueryRun.RunTwice` | backend/ent/account_query.go:307-314 | running one builder twice: the second run panics or gives the first answer again, and the first answer stays as it was |
| `EdgeAccess.ManyAccessors` | backend/ent/account.go:109-165 | a to-many accessor fails iff its edge was not asked for, and otherwise returns what a lookup would |
| `EdgeAccess.ProxyAccessor` | backend/ent/account.go:118-127 | not found iff asked for and no selected proxy has the row's key; not loaded iff not asked for |
| `EdgeAccess.ParentAccessor` | backend/ent/account.go:129-138 | the same for the parent |
| `AccountRow.ValidColumns` | backend/ent/account/account.go:173-181 | the valid columns are exactly those of the column list |
| `AccountRow.ScanValues` | backend/ent/account.go:168-189 | one holder per column, of the column's kind |
| `AccountRow.AccountEntity.AssignValues` | backend/ent/account.go:193-417 | too few values assign nothing; the first holder of a wrong type stops it with all earlier columns assigned; unknown columns are kept for `Value` |
| `AccountRow.HoldersAlwaysFit` | backend/ent/account.go:168-417 | for any column list the holders of `scanValues` pass every type assertion of `assignValues` |
| `AccountRow.AssignedFields` | backend/ent/account.go:193-417 | the entity shows exactly the cells of the columns that were read |
| `AccountRow.Read` | backend/ent/account.go:168-417 | scanning and assigning any account columns of a typed row never fails and shows those cells |
| `CreateBuilder.Defaults` | backend/ent/account_create.go:527-585 | what the caller set stays; every other default column gets what its default yields, all of them without an error, and with one those before the column it names |
| `CreateBuilder.DefaultsFill` | backend/ent/account_create.go:527-585 | what the caller set stays and what was not set gets its default's value; without an error every default column is set, with one the named column is not |
| `CreateBuilder.CheckExact` | backend/ent/account_create.go:588-662 | a check passes iff no rule is broken |
| `CreateBuilder.DroppedDefaultResurfaces` | backend/ent/account_create.go:527-662 | after a failed `defaults` the check fails, unless the column is set in between |
| `CreateBuilder.CheckedHasCreatedAt` | backend/ent/account_create.go:588-591 | a checked mutation has `created_at` |
| `CreateBuilder.CreateSpecFrom` | backend/ent/account_create.go:682-891 | the specification and the entity built beside it |
| `CreateBuilder.StoredIsNode` | backend/ent/account_create.go:682-855 | the row the specification stores is the entity with its ID |
| `CreateBuilder.RoundTrip` | backend/ent/account_create.go:682-855 | read back, each selected column shows what the created entity shows |
| `CreateBuilder.CreateAndReadBack` | backend/ent/account_create.go:664-680 | the created entity and the one read with all columns are equal field by field |
| `CreateBuilder.KeysOfEntity` | backend/ent/account.go:193-417 | the keys the loaders follow are the entity's ID, `ProxyID` and `ParentAccountID` |
| `CreateBuilder.NodeIsMade` | backend/ent/account_create.go:682-855 | the entity built beside the specification holds every settable column of the draft, the two keys and the ID, each with its own value, and nothing else |
| `CreateLaws.ColumnPositions` | backend/ent/account/account.go:132-165 | where each column stands in the table |
| `CreateLaws.CheckNamed` | backend/ent/account_create.go:588-662 | a check passes iff each required column is set and each validated one, where set, is valid, with the columns described by their struct fields |
| `CreateLaws.CheckReportsFirst` | backend/ent/account_create.go:588-662 | and otherwise reports the first offending column in table order |
| `CreateLaws.DefaultedExactly` | backend/ent/account_create.go:527-585 | every required column but the name, the platform and the type has a default, and nothing else |
| `CreateLaws.DefaultsByColumn` | backend/ent/account_create.go:527-585 | each default column holds what the caller set or what its default yields, up to the column an error names |
| `CreateLaws.DefaultsFailExactly` | backend/ent/account_create.go:527-552 | `defaults` fails iff a required time or JSON column is neither set nor has its default installed |
| `CreateLaws.DefaultsSatisfyCheck` | backend/ent/account_create.go:527-662 | after `defaults` a mutation with name, platform and type fails the check only for an invalid value |
| `CreateLaws.StoredColumn` | backend/ent/account_create.go:682-891 | the stored row of a create, column by column |
| `CreateLaws.DefaultIsStored` | backend/ent/account_create.go:527-585 | a column left out is stored with what its default yields |
| `CreateLaws.NewEdges` | backend/ent/account_create.go:804-874 | a new account's groups, proxy, parent and children are those of its draft, each over its own kind of relation |
| `CreateLaws.FieldsOfEntity` | backend/ent/account.go:193-417 | the struct fields of an entity and the row the loaders see agree on every column |
| `CreateLaws.ZeroExact` | backend/ent/account.go:18-91 | what an unassigned struct field holds: nil for a pointer, else the zero of its type |
| `BulkCreate.AccountCreate.Defaults` | backend/ent/account_create.go:527-585 | `defaults` changes the builder's own mutation only |
| `BulkCreate.BatchCreate` | backend/ent/account_create.go:2119-2128 | the insert gets every specification in order, none missing; the k-th ID of the reply is written to the k-th specification, none past the reply, and a refusal comes back as a constraint error or as the driver's |
| `BulkCreate.Mutate` | backend/ent/account_create.go:2106-2142 | what a builder's mutator, entered at any hook, returns, logs and leaves behind |
| `BulkCreate.AccountCreateBulk.AllDefaults` | backend/ent/account_create.go:2102-2105 | every builder's defaults run before the chain starts, errors dropped |
| `BulkCreate.AccountCreateBulk.Save` | backend/ent/account_create.go:2095-2152 | for any number of builders: trace, error and which mutations are done; on success the k-th entity has the k-th ID of the database's reply, or none, and every other field of the k-th builder's final draft |
| `BulkLaws.LeastFailingBuilder` | backend/ent/account_create.go:2111-2119 | the chain stops iff some builder has a fault, and with the fault of the least one |
| `BulkLaws.FaultExact` | backend/ent/account_create.go:2106-2114 | a builder has no fault iff no hook refuses and the draft its hooks left passes check |
| `BulkLaws.EntersInOrder` | backend/ent/account_create.go:2102-2142 | hooks are entered builder by builder, outermost first, each in a context only its own builder's hooks made |
| `BulkLaws.EntersExactly` | backend/ent/account_create.go:2102-2142 | a hook is entered iff no earlier builder has a fault and no hook around it refused |
| `BulkLaws.ContextKeys` | backend/ent/account_create.go:2102-2142 | a hook sees the context keys of the hooks around it, in order, and no others |
| `BulkLaws.LastSetterWins` | backend/ent/account_create.go:2106-2117 | of the hooks that set a column the innermost decides what is checked and inserted |
| `BulkLaws.UnsetColumnStays` | backend/ent/account_create.go:2106-2117 | a column no hook sets stays, and hooks leave the edges alone |
| `BulkLaws.TraceOfSave` | backend/ent/account_create.go:2102-2148 | the trace mirrors itself, and holds an insert iff no builder has a fault, one, in the middle, with all specifications in order; the reply is the driver's answer to that insert |
| `BulkLaws.InsertsAreChecked` | backend/ent/account_create.go:2104-2128 | a save sends its insert iff no hook refuses and every draft, as its hooks left it, passes check; the insert carries those drafts, as the inserts of `RowHistory` do |
| `BulkLaws.AllOrNothing` | backend/ent/account_create.go:2117-2137 | with hooks that pass results on, all mutations are done or none; success iff no fault and the database accepts |
| `BulkLaws.HowFarDone` | backend/ent/account_create.go:2129-2138 | in general a mutation is done iff the insert succeeded and no later builder's hook failed after it |
| `BulkLaws.FailedAfterInsert` | backend/ent/account_create.go:2129-2138 | a save with its rows inserted fails iff some hook fails late, and then the last builder is done nevertheless |
| `BulkLaws.RefusedIsReported` | backend/ent/account_create.go:2124-2132 | a refused insert is reported as a constraint error or as the driver's error |
| `BulkLaws.InnermostLateFailure` | backend/ent/account_create.go:2129-2142 | of several hooks that fail after the insert the innermost one of the last builder is reported |
| `BulkLaws.DroppedDefaultStopsSave` | backend/ent/account_create.go:2104-2113 | a dropped `defaults` error stops the save before the insert, provided no hook sets the column |
| `BulkLaws.UpsertExec` | backend/ent/account_create.go:2839-2852 | the bulk error, the least builder with its own conflict options, missing options, then the save, with its marks on the mutations; nothing is marked when a guard stops it, and an empty list succeeds |
| `AccountUpdate.AccountMutation.AddGroupIDs` | backend/ent/mutation.go:3881-3888 | the IDs join the added set |
| `AccountUpdate.AccountMutation.RemoveGroupIDs` | backend/ent/mutation.go:3901-3909 | the IDs leave the added set and join the removed one |
| `AccountUpdate.AccountMutation.ClearProxy` | backend/ent/mutation.go:3935-3938 | flags only; a set proxy stays |
| `AccountUpdate.AccountMutation.CallGroups` | backend/ent/mutation.go:3881-3909 | any sequence of calls on the edge |
| `AccountUpdate.AccountMutation.CallProxy` | backend/ent/mutation.go:3935-3953 | any sequence of calls on the proxy key leaves the folded change on the object |
| `AccountUpdate.ManyEdge` | backend/ent/account_update.go:949-1005 | the clear and add entries of a to-many edge, for any order of the map's keys |
| `AccountUpdate.Save` | backend/ent/account_update.go:716-757 | a default that is not installed stops the update before its check; otherwise `updated_at` is set and the rest is `sqlSave` |
| `AccountUpdate.UpdateSave` | backend/ent/account_update.go:793-1005 | a failed validator, or a specification of the mutation's changes |
| `AccountUpdate.UpdateOneSave` | backend/ent/account_update.go:1946-1984 | the errors of `UpdateOne` in their order, the first invalid selected column among them; otherwise a specification of the same changes, and the selected columns behind the ID |
| `AccountUpdate.EdgeAlgebra` | backend/ent/account_update.go:949-1005 | groups and children become (none if cleared, else old minus removed) plus added |
| `AccountUpdate.LastMentionWins` | backend/ent/mutation.go:3881-3909 | over any calls the last one naming a group decides; an unnamed group stays iff nothing was cleared |
| `AccountUpdate.LastKeyCallWins` | backend/ent/mutation.go:3935-3953 | the proxy is what the last call says iff the calls do not end in `SetProxyID` followed only by `ClearProxy` |
| `AccountUpdate.ClearProxyKeepsSetProxy` | backend/ent/mutation.go:3935-3953 | the failing case: `SetProxyID` then `ClearProxy` stores the proxy, `SetProxyID` then `ClearProxyID` does not |
| `RowHistory.ColumnsAfterUpdate` | backend/ent/account_update.go:793-1055 | every column of an updated row in one equation; columns `sqlSave` does not look at are never written (which those are: `UpdateLaws.UpdatableExactly`) |
| `UpdateLaws.UpdatableExactly` | backend/ent/account_update.go:798-948 | an update can set every column but the ID, the creation time and the two keys, add to the numeric ones and clear those that are not required, and nothing else |
| `UpdateLaws.SetReachesRow` | backend/ent/account_update.go:798-948 | a value that is set is found in the row, whatever else the update does |
| `UpdateLaws.AddReachesRow` | backend/ent/account_update.go:798-948 | an addition to a numeric column is found in the row, NULL counting as zero |
| `UpdateLaws.ClearReachesRow` | backend/ent/account_update.go:798-948 | a cleared column that may be NULL is NULL afterwards |
| `UpdateLaws.OtherColumnsStay` | backend/ent/account_update.go:798-948 | every other column stays, whatever the mutation holds |
| `UpdateLaws.UpdateCheckNamed` | backend/ent/account_update.go:759-791 | the check of an update passes iff each validated column it sets is valid |
| `UpdateLaws.SetterOnConflict` | backend/ent/account_create.go:943-1027 | what each kind of typed setter leaves in its column on a conflict: the value, the proposed one, the sum, or NULL |
| `UpdateLaws.OthersOnConflict` | backend/ent/account_create.go:2257-2262 | its other columns are what the options before it make of them |
| `UpdateLaws.NewValuesOnConflict` | backend/ent/account_create.go:2225-2235 | `UpdateNewValues` takes the proposed value of every inserted column, except `created_at` if a builder has set it |
| `UpdateLaws.IgnoreOnConflict` | backend/ent/account_create.go:2243-2246 | `Ignore` keeps the stored value of every inserted column |
| `UpdateLaws.NothingOnConflict` | backend/ent/account_create.go:2250-2253 | `DoNothing` among the options leaves the row as it is |
| `UpdateLaws.InsertColumnsExactly` | backend/ent/account_create.go:682-891 | an insert names exactly the columns some row of it gives a value |
| `UpdateLaws.InsertStores` | backend/ent/account_create.go:2119-2128 | a checked insert without collisions adds one row per draft and changes no other |
| `UpdateLaws.InsertFails` | backend/ent/account_create.go:2111-2128 | a failed check, or a collision without options, stores nothing |
| `UpdateLaws.InsertMerges` | backend/ent/account_create.go:2119-2128 | a collision with options changes the row collided with and no other, and adds none |
| `UpdateLaws.AlterExact` | backend/ent/account_update.go:793-1055 | an update changes the rows it matches only, and each of them gets what it sets |
| `UpdateLaws.DeleteExact` | backend/ent/account_delete.go:43-57 | a delete removes the rows it matches and no others |
| `RowHistory.UpdateStampsUpdatedAt` | backend/ent/account_update.go:747-756 | an update whose defaults ran writes `updated_at` to every row it touches |
| `RowHistory.UpdateKeepsCreatedAt` | backend/ent/account_update.go:793-948 | no update writes `created_at`, even if the mutation has it set |
| `RowHistory.ConflictCreatedAt` | backend/ent/account_create.go:1442-1450 | on a conflict `created_at` is kept unless a bare `ResolveWithNewValues` has the last word, and is replaced otherwise |
| `RowHistory.BuilderCallsKeep` | backend/ent/account_create.go:2225-2262 | the builder methods in any sequence keep it |
| `RowHistory.OneCallKeeps` | backend/ent/account_create.go:2225-2262 | exactly `UpdateNewValues` and `Ignore` repair options that do not |
| `RowHistory.NotTheDocumentedEquivalence` | backend/ent/account_create.go:1432-1450 | `UpdateNewValues` and `ResolveWithNewValues` differ on `created_at` |
| `RowHistory.CreatedAtNeverChanges` | backend/ent/account_create.go:2225-2235 | over any run of creates, upserts, updates and deletes a row that is not deleted keeps its `created_at` |
| `RowHistory.CreatedAtIsOriginal` | backend/ent/account_create.go:527-534 | and every stored `created_at` is the one the row was inserted with |
| `ExceptionsParser.StripExact` | tools/check_pnpm_audit_exceptions.py:15-15 | stripping cuts white space off both ends and nothing else |
| `ExceptionsParser.SpacesAre` | tools/check_pnpm_audit_exceptions.py:15-15 | the 29 characters that count as white space |
| `ExceptionsParser.SplitStripped` | tools/check_pnpm_audit_exceptions.py:12-20 | a stripped line splits into what stands around its first colon, each part stripped on its own |
| `ExceptionsParser.ParseExceptions` | tools/check_pnpm_audit_exceptions.py:23-48 | the loop over the lines computes the parse |
| `ExceptionsParser.StartsHasBody` | tools/check_pnpm_audit_exceptions.py:33-38 | a line that starts a record always has text after the dash |
| `ExceptionsParser.StepRaises` | tools/check_pnpm_audit_exceptions.py:12-14 | the parser raises exactly at a record start without a colon |
| `ExceptionsParser.OneRecordPerStart` | tools/check_pnpm_audit_exceptions.py:33-48 | there is one record for each line that starts one |
| `ExceptionsParser.ParseConcat` | tools/check_pnpm_audit_exceptions.py:23-48 | parsing a concatenation whose second part starts a record concatenates the parses |
| `ExceptionsParser.LaterPairLine` | tools/check_pnpm_audit_exceptions.py:29-45 | a pair on its own line is read as that pair iff its key does not look like a comment, a record or a header |
| `ExceptionsParser.ParseRenders` | tools/check_pnpm_audit_exceptions.py:12-48 | any list of records parses back from its lines, however they are indented and whichever of the three styles each value is written in: bare, single-quoted or double-quoted |
| `ExceptionsParser.NoiseIsInvisible` | tools/check_pnpm_audit_exceptions.py:29-32 | lines that are skipped may stand anywhere without changing the records |
| `ExceptionsParser.NoiseLines` | tools/check_pnpm_audit_exceptions.py:29-32 | blank lines, comments and the two headers are skipped, indented or not |
| `AuditGate.IterVulns` | tools/check_pnpm_audit_exceptions.py:64-111 | the tuples the iterator yields, in order, and when it raises |
| `AuditGate.ViaLists` | tools/check_pnpm_audit_exceptions.py:84-110 | the identifiers collected from a via list, and whether its titles can be joined |
| `AuditGate.BuildIndex` | tools/check_pnpm_audit_exceptions.py:153-185 | the index loop computes the index and its errors |
| `AuditGate.ScanVulns` | tools/check_pnpm_audit_exceptions.py:188-219 | the scan loop with its `seen` set computes errors, missing and expired |
| `AuditGate.RunGate` | tools/check_pnpm_audit_exceptions.py:142-243 | the whole of `main` past its argument parsing |
| `AuditLaws.IndexExact` | tools/check_pnpm_audit_exceptions.py:153-185 | no error iff every record is in order and no two share a key; then the index is exactly their entries |
| `AuditLaws.ScanExact` | tools/check_pnpm_audit_exceptions.py:188-219 | nothing wrong iff every relevant tuple has an ID and the first of each key is allowed by its entry |
| `AuditLaws.VerdictExact` | tools/check_pnpm_audit_exceptions.py:142-243 | exit status 0, and raising, characterised exactly |
| `AuditLaws.PassedMeansExcepted` | tools/check_pnpm_audit_exceptions.py:193-219 | after a pass every named high or critical tuple, repeats included, has an unexpired exception |
| `AuditLaws.WhatDedupSkips` | tools/check_pnpm_audit_exceptions.py:191-215 | skipping seen keys lets through exactly the repeats whose severity their exception does not allow |
| `AuditLaws.DedupWitness` | tools/check_pnpm_audit_exceptions.py:142-243 | a list with its headers and one exception for a high finding, and a report that names its advisory as high and then as critical: the script exits with 0 |
| `AuditLaws.DedupHarmless` | tools/check_pnpm_audit_exceptions.py:191-215 | it changes nothing when each key has one severity |
| `AuditLaws.OrderDoesNotMatter` | tools/check_pnpm_audit_exceptions.py:156-185 | permuting the exception records never changes the exit status |
| `AuditLaws.SilentEntryExact` | tools/check_pnpm_audit_exceptions.py:80-111 | an entry yields nothing iff its titles join and no via element names an advisory |
| `AuditLaws.SilentEntryIsInvisible` | tools/check_pnpm_audit_exceptions.py:80-111 | such an entry might as well not be in the report |
| `AuditReading.TruthyExact` | tools/check_pnpm_audit_exceptions.py:51-61 | which JSON values are falsy |
| `AuditReading.GetMissing` | tools/check_pnpm_audit_exceptions.py:53-59 | a key an object does not have reads as null |
| `AuditReading.AdvisoryIdentifier` | tools/check_pnpm_audit_exceptions.py:51-61 | the identifier of an advisory is the first truthy one of its seven candidates in order; picking it raises iff the first two are falsy and the CVEs cannot be indexed |
| `AuditReading.ViaFields` | tools/check_pnpm_audit_exceptions.py:88-102 | the same for the identifier and the title of a via element |
| `AuditReading.AdvisoryIsListed` | tools/check_pnpm_audit_exceptions.py:66-78 | every advisory of the report is a finding with its name, severity and identifier |
| `AuditReading.EntryIsListed` | tools/check_pnpm_audit_exceptions.py:80-111 | so is every truthy identifier of a via list or string, under the name and severity of its entry |
| `AuditReading.SameKey` | tools/check_pnpm_audit_exceptions.py:119-132 | an exception and a finding share a key iff their packages agree up to white space and their advisories up to white space and case |
| `AuditReading.SpellingDoesNotMatter` | tools/check_pnpm_audit_exceptions.py:119-132 | so blanks around the text and the case of an advisory do not matter, for any `lower` |
| `AuditReading.OddValues` | tools/check_pnpm_audit_exceptions.py:114-132 | how null, falsy and non-string values are read, and which raise |
| `AuditReading.RequiredNamed` | tools/check_pnpm_audit_exceptions.py:157-162 | the five fields a record needs |
| `AuditReading.PassedInText` | tools/check_pnpm_audit_exceptions.py:142-243 | after a pass every finding whose severity reads high or critical has a complete record for its package and advisory whose date is not before today, and of its severity unless it repeats an earlier key |
| `AuditReading.OthersAreIgnored` | tools/check_pnpm_audit_exceptions.py:191-195 | findings of other severities, or without a name, never keep a list that is in order from passing |
| `AuditReading.MissingIsNotPassed` | tools/check_pnpm_audit_exceptions.py:193-239 | a finding without such a record makes the gate fail |

## Left out

- The `usage_logs` edge: the same template as `account_groups` in every file.
- GroupQuery and ProxyQuery: leaves without edge queries of their own; of their files only the check of selected columns is modelled.
- SQL text, dialects, transactions, locking, modifiers, `GroupBy`, `Count`, `OnlyID`, `Select(...).Scan`, and the drivers behind `sqlgraph`.
- Interceptors, `Traverser`, privacy rules and the soft-delete hook: arbitrary code around a query.
- Negative limits and offsets, and the width of Go integers other than MaxInt32 in `sqlQuery`.
- Nil versus empty slices, and named edges.
- A traversal's `path` is a function of the store; edge queries have none, since the With methods start from a fresh query. `Clone` shares it, as the source does, and does not copy modifiers.
- `EagerDepth.WindowsExact`: speaks of edge queries without predicates, since a predicate no row passes makes a window harmless.
- A cap that the driver puts beside an offset without limit is a parameter of `QueryRun.IDsMatchAll` only; elsewhere an answer behind an offset is taken to be shorter.
- The scan panic of a second `loadGroups` rests on `sqlgraph` handing over the columns in the order they were selected, and on the group holders of `backend/ent/group.go:275-290`; the state a panic or an error leaves behind is not described.
- DISTINCT merges equal stored rows. A junction query with `Unique(true)` and selected fields has no key among its columns, so SQL would also merge rows that agree on those; the model does not.
- A scan into a slice of integers is taken to accept one column; conversions of `database/sql` between column types are not modelled.
- The defaults of the junction rows that a create with groups inserts; `CreateLaws.NewEdges` gives the groups.
- The column lists of groups and proxies are taken over as they are; nothing else is said about which columns those tables have.
- JSON encoding is the identity on non-empty text. Floating-point columns are reals and only stored, except that an update may add to one.
- `BulkCreate.AccountCreateBulk.Save`: the builders are taken to hold different mutations; passing one builder twice to CreateBulk is not modelled.
- Hooks that skip the next mutator, call it twice, swallow its error or swap the mutation.
- AccountCreate.Save and `withHooks`, which is the chain of one builder with the `defaults` error returned at once.
- The conflict clause is read as: a later assignment of a column replaces an earlier one, and `DO NOTHING` wins. Options without any action store nothing. Which row an insert collides with is an input.
- An update is read as clear, then set, then add. A column both set and added in one update, as by `SetPriority` then `AddPriority`, makes two assignments that databases reject; the model lets the addition win.
- Children added or cleared on an account change other rows; `AccountUpdate.EdgeAlgebra` gives the resulting set, not those rows.
- Explicit `created_at` setters inside a custom `Update` closure: the typed setters have none, and `RowHistory.TypedOptions` excludes it.
- Reading files and arguments, the JSON parser and the wording of messages in the audit script; an object's keys are taken to be distinct, and titles are only followed as far as they make the script raise.
- `str.strip` follows the white-space characters of `str.isspace`; `str.lower` is any function.
