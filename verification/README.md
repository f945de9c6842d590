# Verification of the advertising-market backend

A Dafny model of the parts of the backend in which state, ordering and edge cases interact, with proofs of what they are
for. To check it, run `dafny verify dfyconfig.toml`. Three parts are modelled.

**Query builders, eager loading and pagination.** The generated builders for Customer, CustomerChannel, Channel,
CustomerBrief, Brief and Deal are one template; `Queries.Query` is one class with a `kind` and a map of eager-loading
children, each builder with its own context object. `Store` is the database: tables of rows with predicates, ORDER BY,
OFFSET and LIMIT, and the compiled query (`querySpec`). `EagerLoad.Run` follows `sqlAll` and its loaders on values,
`Nodes` holds the in-place hash joins over shared nodes, and `NestedJoin.Nested` is the naive meaning, in which every row
looks its neighbours up by itself, with the limits and offsets of the children. `SharedWindow` proves exactly when the two
meanings agree and `ChildLimits` gives that condition in closed form. `Answers` says what a query answers on the rows of
its table, test by test, key by key and column by column, and `Links` what the fourteen edges mean, column by column, and
in which order they are loaded. `EdgeLaws`, `Projections`, `Rerun`, `Lookups` and `Pagination` hold the other laws.

**Bulk create.** `BotStateCreateBulk.Save` builds one closure per builder, wraps each in that builder's hooks, and lets
closure i call mutator i+1; only the last one calls the database. `BulkCreate` does this on the heap, with the node and
spec slots that the closures share; `BulkChain` is the same chain on values, and `BulkLaws` proves what it guarantees.

**Deal data.** `Calendar`, `Text` and `DealWindow` model the preferred publication window and its validation against the
clock; `PublicationTime` the RFC 3339 date-times that are accepted and their bound; `JsonNumbers` and `DealPayload` the
conversion of deal targets to JSON documents and back, with the float64 that every integer passes through. `ChannelScan`
models the two tables by which a Channel row is read from the database.

## What is assumed of the surroundings

- The store is a table per entity with unique ids; ORDER BY keeps the table's order for ties. A filter is a predicate on a
  row. A missing or NULL key column reads as the zero id.
- sqlgraph: a limit of 0 is no limit, an offset without limit is sent with LIMIT 2147483647, a negative limit or offset
  is refused by the database, the LIMIT and OFFSET of a COUNT apply to its one result row, and scanning into a list of ids
  needs exactly one selected column. What the database counts over selected columns is a parameter of the store.
- `BatchCreate` is one step: the database's reply, a function of the specs, either rejects the batch or gives an id (or
  none, for an ignored conflict) per spec. The builders of a bulk save have mutations of their own, as `Create` makes them.
- A hook refuses, answers by itself, or edits the mutation and calls its successor once on that mutation, another one or
  one of another type, and makes any outcome of that call into any other. Hooks that call twice are not covered.
- The clock is a parameter, in nanoseconds; the program sets local time to UTC. `time.Parse`, `strconv.Atoi`,
  `strings.TrimSpace`, `strings.Split` and the number handling of `encoding/json` are modelled from what they do, not
  called. The JSON model is the document, not its text. Numbers inside free-form documents are already float64.
- `int` is 64 bits; the pagination offset wraps.

## Where the code and its words differ, and where a law fails

- The comment on the window's time format says `HH.MM`; the code reads `HH:MM`. The model follows the code.
- Publication times follow the layout `2006-01-02T15:04:05Z07:00` of `time.Parse`, which is not section 5.6 of RFC 3339
  exactly: it takes a one-digit hour, a comma before the fraction, and offsets up to 24:60, and no lower-case letters or
  leap seconds.
- "A successful save inserted its rows" fails for hooks that answer by themselves or turn errors into success.
  `SaveIsAllOrNothing` has the general answer: a run turns round at one point, and its outcome, as the hooks on the way
  back change it, decides the result and every done flag. `SuccessMeansRows`: without hooks that swallow errors, a
  successful save inserted rows if and only if no hook answers by itself. `RejectionIsAbsorbed`: a rejected batch ends in
  success if and only if the hooks absorb that error. `SkippingHookSavesNothing` and `SwallowingHookMarksDone` are the
  failing families.
- "Everything inserted was checked" fails, because the check reads the builder's own mutation before the received one is
  stored in the builder. `BatchHoldsEverySpec`: it holds if and only if every mutation that the hooks swap in satisfies
  the check; `SwappedMutationIsUnchecked` is an input for which it does not.
- "Eager loading gives every entity the neighbours that its own queries return" fails for children with a limit or
  offset, because the child is run once for all parents and they share its window. `RunIsNestedExactly`: it holds if and
  only if, at every edge and any depth, the child's query is accepted and each parent's own window is its share of the
  shared one. `FairEdgeExactly` is that condition for every limit and offset: the offset skips all that is asked for, or
  there is no offset and the limit is not smaller than what is asked for, or all of it up to the window's end has one join
  key and no other key has rows beyond the offset. `LimitIsFairExactly`: with a limit alone, there are no more rows than
  that, or all share one join key. `AmpleIsComplete` says when every neighbour comes back, `NeighboursAreWindowRows` what
  each parent gets in any case. `SecondLinkIsLost` is a failing input: two customers with one link each and limit 1.
- "The pages are the slices of the result" fails in the same way, since the rows of a page share the children's windows:
  `PageIsSlice` and `PagesTile` hold if and only if they do so fairly on those pages. The rows of the pages always tile
  (`PagesTileRows`).
- A page number whose offset does not fit in 64 bits can return entities (`WrappedPageIsFirst`). `PageIsSlice` covers
  every page number, and `LaterPagesAreEmpty` says that a page is empty if and only if its wrapped offset is past the
  end; a negative one fails.
- `ReusedBuilderFails`, `ExistOnlyOnce`: a builder that served a later page cannot count again, and `Exist` fails the
  second time on one builder.
- `SafeBoundIsExact`, `UnsafeIdIsLost`: message ids survive the document up to 2^53 and not beyond; between 2^53 and 2^54
  exactly the even ones do.
- "Each field ends as its last value that is not NULL" fails for a JSON column that occurs twice, whose documents are
  merged. `RepeatedColumnEndsAsLast`: it holds if and only if the last document supersedes what the earlier texts hold,
  key by key or place by place; `EarlierStatsSurvive` is a row for which it does not.

## Model

| member | source | states |
|---|---|---|
| Queries.QueryContext.Clone | internal/database/ent/channel_query.go:299 | the copied context is a new object with equal fields, limit, offset and unique flag |
| Queries.QueryContext.AppendFieldOnce | internal/database/ent/customer_query.go:608-610 | the column is among the fields afterwards, once, after the fields that were there |
| Queries.Query.Clone | internal/database/ent/channel_query.go:293-309 | the clone of a whole builder tree stands for the same query and shares no mutable object with it |
| Queries.Query.CloneChild | internal/database/ent/channel_query.go:303-304 | one eager-loading child is cloned into the copy without touching the original |
| Queries.Query.CloneAndBuild | internal/database/ent/channel_query.go:291-309 | any later calls on a clone, nested With calls included, leave the original's compiled query unchanged and make of the clone what they would have made of the original |
| Queries.Query.BuildAfterClone | internal/database/ent/channel_query.go:291-309 | any later calls on the original leave an earlier clone unchanged |
| Queries.Query.Where | internal/database/ent/channel_query.go:37-40 | predicates are added at the end and nothing else changes |
| Queries.Query.Order | internal/database/ent/channel_query.go:62-65 | order terms are added at the end and nothing else changes |
| Queries.Query.Limit | internal/database/ent/channel_query.go:43-46 | only the limit changes, in place |
| Queries.Query.Offset | internal/database/ent/channel_query.go:49-52 | only the offset changes, in place |
| Queries.Query.Unique | internal/database/ent/channel_query.go:56-59 | only the unique flag changes, in place |
| Queries.Query.With | internal/database/ent/channel_query.go:313-331 | the edge gets a new child configured by the given calls, replacing an earlier one; the builder stays a tree of separate objects |
| Queries.Query.Apply | internal/database/ent/customer_query.go:40-68 | every builder call has its meaning on query trees and keeps the builder valid |
| Queries.Query.ApplyAll | internal/database/ent/customer_query.go:362-402 | a sequence of builder calls has the composed meaning |
| Queries.CallsCompose | internal/database/ent/customer_query.go:40-68 | calls act in order: a second list of calls works on what the first has made |
| Queries.LastCallWins | internal/database/ent/customer_query.go:46-62 | of several calls for the limit, the offset, the unique flag or one edge the last decides, and a With starts from an empty child |
| Queries.ConditionsAddUp | internal/database/ent/customer_query.go:40-68 | conditions and order terms add up in call order and no other call touches them |
| Queries.Query.All | internal/database/ent/channel_query.go:212-219 | an invalid selected field is refused before the database is asked; a successful run returns, value by value, the rows of its table on which every test is true and whose keys every IN predicate lists, in the order of the terms and then of the table, cut by offset and limit; the builder itself stays as it was and its children become what the pure run says |
| Queries.Query.SqlAll | internal/database/ent/customer_query.go:478-536 | the in-place run returns exactly the entities of the pure run, leaves the builder itself as it was and its children as the pure run says |
| Queries.Query.LoadAll | internal/database/ent/customer_query.go:504-534 | the requested edges are loaded in schema order, stopping at the first error |
| Queries.Query.LoadMany | internal/database/ent/customer_query.go:598-627 | the one-to-many loader on shared nodes equals the pure join, errors included |
| Queries.Query.LoadOne | internal/database/ent/customerchannel_query.go:448-476 | the many-to-one loader on shared nodes equals the pure join, errors included |
| Queries.Query.QueryNeighbours | internal/database/ent/customer_query.go:608-617 | the child builder is changed for good by the foreign key and the IN predicate, then run once for all nodes |
| Queries.Query.AllTwice | internal/database/ent/customer_query.go:259-266 | running a builder again returns the same entities although the first run changed its children |
| Queries.Query.First | internal/database/ent/channel_query.go:113-122 | the first entity of the run with limit 1, read from the first admitted row after the offset, or not-found; the limit stays changed |
| Queries.Query.Only | internal/database/ent/channel_query.go:159-172 | the entity of the one admitted row after the offset, not-found when there is none and not-singular when there are several, by the number of admitted rows; the limit stays changed |
| Queries.Query.IDs | internal/database/ent/channel_query.go:231-240 | the ids that the admitted rows have in the table, in order, cut by offset and limit; the selection of the id stays in the builder |
| Queries.Query.FirstID | internal/database/ent/channel_query.go:135-145 | the first id or not-found, and the builder it leaves behind |
| Queries.Query.OnlyID | internal/database/ent/channel_query.go:186-200 | the only id, not-found or not-singular, and the builder it leaves behind |
| Queries.Query.Exist | internal/database/ent/channel_query.go:270-280 | found, not found or the error of FirstID |
| Queries.Query.Count | internal/database/ent/channel_query.go:252-258 | without selected columns, the number of rows of the table on which every predicate holds, whatever the limit, refused for a negative range and whenever an offset is set; an invalid selected field is refused; the builder stays as it was |
| Lookups.OnlyDecidesSingularity | internal/database/ent/channel_query.go:159-172 | fetching two rows decides: Only answers row, not-found or not-singular exactly as the whole result after the offset has one, no or several rows, whatever limit was set |
| Lookups.OnlyIsAll | internal/database/ent/channel_query.go:159-172 | the entity Only returns is the single entity of the unlimited run |
| Lookups.FirstDecidesEmptiness | internal/database/ent/channel_query.go:113-122 | First finds something exactly when the whole result is non-empty, and it has the columns of the first row |
| Lookups.FirstIsMeant | internal/database/ent/channel_query.go:113-122 | First returns the first row with the neighbours that its own queries return if and only if the children share their windows fairly below this one row |
| Lookups.FirstIsHead | internal/database/ent/channel_query.go:113-122 | when the children's windows cut nothing off, First returns the head of the unlimited run, neighbours included |
| Lookups.ExistDecidesEmptiness | internal/database/ent/channel_query.go:270-280 | Exist answers exactly when the offset is not negative and no field was selected, and answers whether the whole result is non-empty |
| Lookups.ExistOnlyOnce | internal/database/ent/channel_query.go:135-145 | FirstID leaves its selection behind, so asking the same builder again fails |
| Lookups.CountIgnoresLimit | internal/database/ent/channel_query.go:512-519 | without selected columns the count is the number of matching rows whatever the limit; an offset always makes it fail |
| Answers.RunAnswers | internal/database/ent/customer_query.go:478-536 | the entities of a successful run are read, column by column, from the rows of its table on which every test is true and whose keys every IN predicate lists, each once, in the order of the terms and then of the table, cut by offset and limit |
| Answers.BeforeIsLexicographic | internal/database/ent/channel_query.go:552-557 | a row sorts before another by the first term in which they differ, smaller first when ascending and larger first when descending, and not at all when none differs |
| Answers.RunIsInOrder | internal/database/ent/channel_query.go:552-557 | along the rows that a run returns the values of an ascending first term never fall and those of a descending one never rise |
| Answers.EveryRowOnce | internal/database/ent/channel_query.go:539-545 | without limit and offset every row that the predicates admit is returned, and once |
| Answers.RunRefuses | internal/database/ent/channel_query.go:392-396 | an invalid column is refused before the database is asked, a negative limit or offset by it, and otherwise a query without children succeeds |
| Answers.AcceptedIsMigrated | internal/database/ent/migrate/schema.go:35-186 | a builder accepts exactly the columns that the migration gives its table |
| Answers.CountAnswers | internal/database/ent/channel_query.go:512-519 | the count is the number of rows of the table on which every predicate holds |
| Answers.FirstAnswers | internal/database/ent/channel_query.go:113-122 | First returns the first admitted row after the offset, or not-found exactly when there is none |
| Answers.OnlyAnswers | internal/database/ent/channel_query.go:159-172 | Only answers row, not-found or not-singular exactly as one, no or several admitted rows come after the offset |
| Answers.ExistAnswers | internal/database/ent/channel_query.go:270-280 | Exist says whether an admitted row comes after the offset |
| Answers.IdsAnswer | internal/database/ent/channel_query.go:231-240 | the ids are those that the admitted rows have in the table, in order, cut by offset and limit |
| Store.AddKeys | internal/database/ent/customerchannel_query.go:533-538 | the columns asked for are the given ones and the foreign keys of requested many-to-one edges, and no others |
| Store.InvalidFieldIn | internal/database/ent/channel_query.go:392-396 | a selected field is refused exactly when some selected field is not a column |
| Store.InvalidFieldIsFirst | internal/database/ent/channel_query.go:392-396 | the field that is refused is the first that is not a column |
| Store.FilterMatching | internal/database/ent/channel_query.go:539-557 | filtering an ordered result is the query with one more predicate, so ORDER BY and IN commute |
| NestedJoin.RunIsNested | internal/database/ent/customer_query.go:478-536 | when every row's own window is its share of the shared one, at every edge and depth: eager loading with batched queries and hash joins gives every row exactly the neighbours that its own queries, limits and offsets included, return, and never fails |
| SharedWindow.RunIsNestedExactly | internal/database/ent/customer_query.go:478-536 | eager loading gives every row what its own queries return if and only if, at every edge and depth, the child's query is accepted and each row's own window is the rows with its key in the window that all rows share |
| ChildLimits.FairEdgeExactly | internal/database/ent/customer_query.go:608-627 | for every limit and offset of a child, each row gets what its own query returns if and only if the offset skips all that is asked for, or there is no offset and the limit is not smaller than that, or all of it up to the window's end has one join key and no other key has rows beyond the offset |
| ChildLimits.LimitIsFairExactly | internal/database/ent/customer_query.go:608-627 | with a limit and no offset: if and only if the selected fields are valid and no more rows are asked for than the limit, or all of them share one join key |
| ChildLimits.WindowSharedExactly | internal/database/ent/customer_query.go:538-567 | for any distinct rows, cutting one window out of all of them cuts it out of the rows of every key exactly in those three cases |
| ChildLimits.OneSenderIsFair | internal/database/ent/customer_query.go:608-627 | rows that all send one key, a single row among them, get exactly what their own query returns, whatever the limit and offset |
| ChildLimits.SecondLinkIsLost | internal/database/ent/customer_query.go:598-627 | two customers with one channel link each, loaded with limit 1, do not both get the link that their own query returns |
| ChildLimits.WindowHoldsBatch | internal/database/ent/customer_query.go:611-614 | a child's window holds all that is asked for exactly when that is nothing, or there is no offset and the limit is not smaller |
| ChildLimits.AmpleIsComplete | internal/database/ent/customer_query.go:611-627 | that is so if and only if every row gets all its neighbours, as if the child had neither limit nor offset |
| ChildLimits.AmpleIsFair | internal/database/ent/customer_query.go:611-627 | then, at any depth, the rows share the windows fairly |
| ChildLimits.AmpleForFewer | internal/database/ent/customer_query.go:611-614 | windows that hold all that some rows ask for hold all that fewer rows ask for, at any depth |
| ChildLimits.AmpleLosesNothing | internal/database/ent/customer_query.go:478-536 | limits and offsets that cut nothing off make no difference: the run is that of the tree without them, and the naive one |
| ChildLimits.PlainlyIsAmple | internal/database/ent/customer_query.go:478-536 | a tree whose children set neither limit nor offset and select valid fields is such a tree, on every store |
| SharedWindow.NeighboursAreWindowRows | internal/database/ent/customer_query.go:614-625 | whatever the child limits, a node gets the ids of the rows with its key in the one window all nodes share, in order |
| SharedWindow.UnexpectedKeyIsUnreachable | internal/database/ent/customer_query.go:618-623 | no run of a tree, whatever its children limit and select, ends with the unexpected-foreign-key error |
| SharedWindow.FetchedHasNoStray | internal/database/ent/customer_query.go:614-623 | the neighbours that a load returns all have keys of the nodes it was made for |
| NestedJoin.AttachIsLookup | internal/database/ent/customer_query.go:598-627 | where the rows share the child's window fairly, one hash join adds exactly one edge's own lookups to all nodes and changes nothing else |
| NestedJoin.NeighboursAreLookup | internal/database/ent/customerchannel_query.go:448-476 | there, what the join gives a node is what its row's own query returns, limit and offset included, in the same order |
| SharedWindow.JoinIsLookedUp | internal/database/ent/customer_query.go:618-625 | conversely, where the result along an edge is the naive one, each row looks up exactly the fetched neighbours with its key |
| NestedJoin.SpecKeepsKeys | internal/database/ent/customerchannel_query.go:525-538 | whatever fields are selected, the id and every foreign key a requested edge joins by are asked for |
| NestedJoin.PrimedKeepsKey | internal/database/ent/customer_query.go:608-610 | the foreign key added to a child's selected fields reaches its compiled query |
| EdgeLaws.RunComposes | internal/database/ent/customer_query.go:478-536 | for any requested edges, a successful run gives each of them exactly its join, every other edge nothing, and loaded types exactly the requested ones |
| EdgeLaws.EdgesCompose | internal/database/ent/customer_query.go:504-534 | loading edges one after the other gives each node, along each edge, what loading that edge alone gives |
| EdgeLaws.RunKeepsRows | internal/database/ent/customer_query.go:488-503 | a run returns one entity per fetched row, in order, with its selected columns |
| EdgeLaws.NeighboursAreConserved | internal/database/ent/customer_query.go:618-625 | every fetched neighbour lands in exactly one node's list; none is lost or repeated |
| EdgeLaws.ChildLimitIsShared | internal/database/ent/customer_query.go:611-617 | a limit on the inner query bounds the neighbours of all nodes together |
| Projections.ProjectionKeepsJoin | internal/database/ent/customerchannel_query.go:525-538 | for every valid field selection on the inner query the load succeeds if it did before, and gives every node neighbours with the same ids in the same order |
| Projections.ProjectedRunSucceeds | internal/database/ent/customerchannel_query.go:525-538 | a run that succeeds with one valid selection succeeds with every valid selection |
| EdgeLaws.FetchedKeepKeys | internal/database/ent/customerchannel_query.go:525-538 | whatever is selected, a fetched neighbour carries the id and join key of its row |
| Links.NeighbourIsLinked | internal/database/ent/customer_query.go:598-627 | whatever the children limit, a neighbour is read from a row of the other table that the child admits and whose key column names the entity's own row: the advertiser's deals by advertiser_customer_id, the manager's by channel_manager_id, and so for all fourteen edges |
| Links.LinkedIsLoaded | internal/database/ent/customer_query.go:598-627 | when the child's window cuts nothing off, every admitted row of the other table that names the entity's row is among its neighbours |
| Links.AllForIsLinked | internal/database/ent/customer_query.go:611-614 | all that a query for one row finds are the admitted rows of the other table that are linked to it |
| Links.FirstFailureDecides | internal/database/ent/customer_query.go:504-534 | a run whose own query succeeds fails only by a child, and with the error of the first requested edge that fails in the order of loading, which is written out for all fourteen edges |
| Nodes.IndexById | internal/database/ent/customer_query.go:599-607 | the ids in node order, the map from id to the last node with it, and the edge reset to the empty list |
| Nodes.AppendNeighbours | internal/database/ent/customer_query.go:618-625 | neighbours are dealt one by one to the node their key names, stopping at the first key no node has |
| Nodes.JoinMany | internal/database/ent/customer_query.go:598-627 | the in-place one-to-many join equals the pure join |
| Nodes.SharesAreNeighbours | internal/database/ent/customer_query.go:618-625 | after any number of appends a node holds exactly the neighbours with its key so far, in order |
| Nodes.GroupByKey | internal/database/ent/customerchannel_query.go:449-457 | the foreign keys without duplicates, and the nodes grouped by key |
| Lists.DedupInFirstOrder | internal/database/ent/customerchannel_query.go:449-457 | removing duplicates keeps the first occurrence of every key, in the order of their positions |
| Nodes.GroupsPartition | internal/database/ent/customerchannel_query.go:449-457 | a group lists, in order and once each, exactly the nodes with its key |
| Nodes.AssignNeighbours | internal/database/ent/customerchannel_query.go:466-474 | every node of a group points to the last fetched neighbour with its key, stopping at an unexpected id |
| Nodes.JoinOne | internal/database/ent/customerchannel_query.go:448-476 | the in-place many-to-one join equals the pure join |
| Rerun.RunAgain | internal/database/ent/customer_query.go:611-617 | a second run, with the predicates the first one added to the children, returns the same entities |
| Rerun.PrimedTwice | internal/database/ent/customer_query.go:608-613 | adding the foreign key and the IN predicate twice fetches the same rows |
| Pagination.ValidateAndNormalize | internal/common/pagination.go:39-59 | refused exactly for take above 100, else for an order other than ASC, DESC or none; the defaults are page 1, take 20 and DESC, and given values stay |
| Pagination.Paginate | internal/common/pagination.go:61-94 | the page and the whole new state of the builder: count before, offset and limit moved in place, children as the run leaves them; `PageAnswers` says which rows the page holds |
| Pagination.PageAnswers | internal/common/pagination.go:61-94 | a successful page holds the rows from position (page-1)*take of the whole answer on, take of them or as many as there are, with 1 and 20 for a number or size that is not positive, and counts all admitted rows |
| Pagination.PagesAnswer | internal/common/pagination.go:61-94 | pages that all succeed hold, one after the other, the first n*take rows of the whole answer |
| Pagination.PagesAreInOrder | internal/common/pagination.go:61-94 | along the concatenated pages the values of an ascending first term never fall and those of a descending one never rise |
| Pagination.NormalizationIsIdempotent | internal/common/pagination.go:39-59 | normalising normalised options changes nothing |
| Pagination.SameSizesRejected | internal/common/pagination.go:46-48 | normalisation and Paginate reject the same take values |
| Pagination.NormalizationKeepsPage | internal/common/pagination.go:66-76 | Paginate on normalised options gives the page it gives on the raw ones |
| Pagination.OffsetDoesNotWrap | internal/common/pagination.go:83 | the offset is exact up to page MaxInt64/100 + 1 |
| Pagination.WrapIsExact | internal/common/pagination.go:83 | 64-bit wrap-around changes a value exactly when it is out of range |
| Pagination.WrappedPageIsFirst | internal/common/pagination.go:83 | an input whose offset wraps to 0 and returns the first page |
| Pagination.ReusedBuilderFails | internal/common/pagination.go:78-85 | a builder that already has a positive offset cannot be paginated; without selected columns because its count finds no row |
| Pagination.WindowIsSliceOfRows | internal/common/pagination.go:78-93 | whatever the builder selects and its children limit, a successful page holds the entities of its slice of the rows, and without selected fields it counts the whole result |
| Pagination.WholeIsMeant | internal/common/pagination.go:87-90 | the builder run without limit and offset gives what the whole result means if and only if its children share their windows fairly |
| Pagination.WindowIsSlice | internal/common/pagination.go:78-93 | a page's data are that slice of what the whole result means, each entity with the neighbours its own queries return, if and only if the children share their windows fairly among the rows of the page |
| Pagination.PageIsSlice | internal/common/pagination.go:61-94 | every page number and take, wrapped offsets included, gives too many items, a refused negative offset or the slice of what the whole result means with the whole count; the last exactly when the children share their windows fairly on the page |
| Pagination.PagesTile | internal/common/pagination.go:61-94 | the first n pages are the first n*take entities of what the whole result means, and with enough pages all of it, if and only if the children share their windows fairly on each page |
| Pagination.AmplePagesAreFair | internal/common/pagination.go:61-94 | children whose windows hold all that the whole result asks them for do so fairly on every page, and on the whole |
| Pagination.PagesTileRows | internal/common/pagination.go:61-94 | whatever the builder selects and its children limit, pages that all succeed hold, one after the other, the entities of the first n*take rows |
| Pagination.LaterPagesAreEmpty | internal/common/pagination.go:61-94 | whatever the children do, a page is empty, with the whole count, exactly when its 64-bit offset is past the end, wrapped pages included |
| Pagination.EntityOnPages | internal/common/pagination.go:61-94 | whatever the builder selects and its children limit, the entity of row k is on exactly the pages whose 64-bit offset is at most take - 1 before it, wrapped pages included |
| Pagination.EntityOnOnePage | internal/common/pagination.go:61-94 | of the pages that the offset can reach, the entity of row k is on page k/take + 1 and on no other |
| BulkCreate.WithDefaults | internal/database/ent/botstate_create.go:106-115 | an unset state becomes 0 and an unset update time the clock, nothing else changes, and afterwards only a missing user or deal id can fail the check |
| BulkChain.Check | internal/database/ent/botstate_create.go:118-132 | the check passes exactly when user id, deal id, state and update time are set |
| BulkCreate.BotStateCreate.Defaults | internal/database/ent/botstate_create.go:106-115 | the mutation gets its defaults in place and is otherwise unchanged |
| BulkCreate.BotStateCreate.CreateSpec | internal/database/ent/botstate_create.go:152-179 | a new node and a new spec with the mutation's fields and the builder's conflict options |
| BulkCreate.BotStateCreateBulk.SetDefaults | internal/database/ent/botstate_create.go:491 | every builder's mutation gets its defaults, also one that is named twice |
| BulkCreate.BotStateCreateBulk.Save | internal/database/ent/botstate_create.go:481-538 | the heap run equals the value chain: error, nodes with ids, batches sent, event order, and every mutation's fields and done flag; the node of a done builder j has the id at position j of the database's reply, or 0 when it gave none there |
| BulkCreate.SaveScope.Mutate | internal/database/ent/botstate_create.go:526-529 | one call of a mutator hooked with hooks that call at most once equals the value chain from that hook on |
| BulkCreate.SaveScope.MutateInnermost | internal/database/ent/botstate_create.go:492-525 | closure i on the shared slots equals the value closure |
| BulkCreate.SaveScope.BatchCreate | internal/database/ent/botstate_create.go:506-515 | one batch with the shared specs, refused, or spec j gets the id at position j of the reply |
| BulkCreate.SaveScope.Finish | internal/database/ent/botstate_create.go:518-524 | the mutation's id pointer is the slot's node, the node gets the spec's id, and the mutation is done |
| BulkLaws.SaveIsBatchProgram | internal/database/ent/botstate_create.go:481-538 | with well-behaved hooks the recursive chain has the outcome of the plain program: edit, check and build every builder in order, run one batch, mark everything |
| BulkLaws.ChainIsBatchProgram | internal/database/ent/botstate_create.go:492-536 | the same from any hook of any builder on |
| BulkLaws.TraceIsBalanced | internal/database/ent/botstate_create.go:526-536 | for all hooks that call their successor at most once, hooks are entered in order and left in reverse, with at most one batch, at the centre |
| BulkLaws.RemainingIsInOrder | internal/database/ent/botstate_create.go:526-528 | the hooks come in (builder, hook) order and none is missing |
| BulkLaws.DatabaseIsAtCentre | internal/database/ent/botstate_create.go:526-536 | a save that called the database, successful or not, entered and left every hook around that call |
| BulkLaws.SaveIsAllOrNothing | internal/database/ent/botstate_create.go:492-525 | rows are inserted exactly when the run turns at the database with success; the result is what the hooks make of that outcome; a builder is done, with its id, exactly when its closure was passed and the outcome reaches it as success |
| BulkLaws.IdsReachTheirBuilders | internal/database/ent/botstate_create.go:518-524 | whatever the hooks do, every builder that ends done has the id that the database gave to its own row of the batch, or 0 when it gave none |
| BulkLaws.SuccessMeansRows | internal/database/ent/botstate_create.go:492-525 | when no hook turns errors into success, a successful save inserted its rows if and only if no hook answers by itself |
| BulkLaws.RejectionIsAbsorbed | internal/database/ent/botstate_create.go:510-518 | a batch that the database rejects ends in success, without rows, if and only if the hooks absorb that error |
| BulkLaws.SwallowingHookMarksDone | internal/database/ent/botstate_create.go:503-524 | a first hook that turns every error into success leaves the builder before it done without a row |
| BulkLaws.HonestSaveIsAllOrNothing | internal/database/ent/botstate_create.go:492-525 | with hooks that neither answer by themselves nor swallow errors: success exactly when rows were inserted and no hook fails afterwards, and an error leaves nothing done exactly when nothing was inserted or no hook can fail afterwards |
| BulkLaws.BatchHoldsEverySpec | internal/database/ent/botstate_create.go:499-509 | whenever the database is called, the batch holds at position j the spec of builder j's final fields, and all of them satisfy the check if and only if every mutation the hooks swap in does |
| BulkLaws.SwappedMutationReachesDatabase | internal/database/ent/botstate_create.go:499-509 | a mutation that builder j's hooks swap in is sent as it is |
| BulkLaws.SwappedMutationIsUnchecked | internal/database/ent/botstate_create.go:499-503 | an input for which an empty mutation is inserted |
| BulkLaws.SkippingHookSavesNothing | internal/database/ent/botstate_create.go:526-528 | a hook anywhere that does not call its successor keeps every save from the database, and the save succeeds with the builders before it done when the run gets there and the hooks let success through |
| Calendar.NextDayIsOneLater | internal/common/deal_target.go:123 | the next date is exactly one day later, across month ends, leap days and year ends |
| Calendar.DayNumberIsOrder | internal/common/deal_target.go:132 | day numbers order dates as year, month and day do |
| Calendar.YearLength | internal/common/deal_target.go:123 | a year has 366 days exactly when it is leap, by months and by day numbers |
| Calendar.DateOf | internal/common/deal_target.go:123 | every day number has a real date with that number |
| Calendar.DateOfInverse | internal/common/deal_target.go:123 | the date of a date's day number is that date |
| Calendar.RealDates | internal/common/deal_target.go:127 | the real dates, written out: months of 31 and 30 days, and February by the divisibility of the year |
| Calendar.LeapYears | internal/common/deal_target.go:127 | leap years are those divisible by 400, or by 4 and not by 100 |
| Calendar.DayZero | internal/common/deal_target.go:123-124 | days count from the first day of year 1, and the first day of 1970 is day 719162 |
| DealWindow.ParseDateInvertsPrint | internal/common/deal_target.go:109-111 | the date layout accepts exactly the printed forms of real dates of years 0 to 9999 and gives them back |
| DealWindow.DateIsByItsCharacters | internal/common/deal_target.go:109-111 | a date has ten characters: two digits of the day, a dot, two of the month, a dot and four of the year, which together are a real date |
| DealWindow.TomorrowIsNextMidnight | internal/common/deal_target.go:123-124 | tomorrow's start is the first midnight after now |
| DealWindow.NotBeforeTomorrow | internal/common/deal_target.go:132-134 | not before tomorrow, later than today's date, and not yet begun are the same |
| DealWindow.ParseTimeAccepts | internal/common/deal_target.go:150-170 | the accepted strings are exactly those that write a time of day up to 24:00, each giving its minute |
| DealWindow.ParseTimeInRange | internal/common/deal_target.go:163-168 | accepted minutes lie within 0 to 1440 |
| Text.AtoiReads | internal/common/deal_target.go:155-162 | an optional sign and digits are read as their decimal value when it fits in 64 bits, and refused otherwise |
| Text.AtoiReadsOnly | internal/common/deal_target.go:155-162 | nothing but an optional sign and digits is read |
| Text.ValueIsDecimal | internal/common/deal_target.go:155-162 | digit strings are read in base ten, the digits being the characters 48 to 57 |
| Text.SpaceCodes | internal/common/deal_target.go:155-162 | the white space that is trimmed, by code point |
| DealWindow.ParseTimeInvertsPrint | internal/common/deal_target.go:150-170 | every minute, printed with any leading zeros and any white space around each part, is read back |
| DealWindow.AcceptedIsCoherent | internal/common/deal_target.go:115-191 | a window is accepted exactly when its dates and times are coherent and it starts after today; the empty window is one |
| DealWindow.AcceptedUntilStart | internal/common/deal_target.go:115-191 | a coherent window is acceptable exactly until the midnight that begins its start date |
| DealWindow.AcceptanceIsDownwardClosed | internal/common/deal_target.go:123-145 | what is accepted at one time is accepted at every earlier time |
| DealWindow.RejectionIsTrue | internal/common/deal_target.go:126-188 | every rejection names a defect that the window really has |
| DealWindow.TimeFailureIsTrue | internal/common/deal_target.go:150-170 | a format error means that nothing is written there, a range error that something out of range is |
| PublicationTime.ParseInvertsPrint | internal/common/deal_target.go:197-200 | the layout accepts exactly the printed forms of valid date-times and gives them back |
| PublicationTime.OutcomeIsByInstant | internal/common/deal_target.go:193-206 | required, invalid, too soon or accepted, each exactly by what the string stands for |
| PublicationTime.VerdictIgnoresZone | internal/common/deal_target.go:201-204 | spellings of one instant get one verdict, and an accepted instant is accepted by every earlier clock |
| PublicationTime.WrittenInstantIsJudged | internal/common/deal_target.go:193-206 | an instant written in any zone is judged by the instant alone and accepted as that very instant |
| PublicationTime.NanosIsScaled | internal/common/deal_target.go:197 | a fraction is scaled to nanoseconds and digits beyond the ninth are cut off |
| PublicationTime.EastIsAhead | internal/common/deal_target.go:197 | a zone h:m east of UTC shows the clock h:m ahead of UTC for one instant, a zone west of it h:m behind |
| PublicationTime.StampAtIsInstant | internal/common/deal_target.go:197-201 | the wall-clock reading of an instant in any zone stands for that instant |
| PublicationTime.InstantInNanoseconds | internal/common/deal_target.go:197-201 | the instant of a date-time in nanoseconds, the offset of a zone east of UTC subtracted and of one west of it added |
| PublicationTime.StampIsWritten | internal/common/deal_target.go:197 | a date-time is written as year-month-day, T, hour:minute:second, its fraction, and Z or the offset with + to the east and - to the west |
| JsonNumbers.DoubleIsNearest | internal/common/deal_target.go:56 | an integer is stored as a float64 to which none is nearer |
| JsonNumbers.DoubleIsScaled | internal/common/deal_target.go:56 | the float64 integers are the mantissas of at most 2^53 times a power of two |
| JsonNumbers.ShortestIsFewest | internal/common/deal_target.go:66-71 | the decimal that is read back rounds to the float64, ends in as many zeros as any that does, and of those is nearest |
| JsonNumbers.MultipleIsZeros | internal/common/deal_target.go:66-71 | what ends in so many zeros, digit by digit |
| JsonNumbers.SurvivalIsBeingShortest | internal/common/deal_target.go:22 | an id of any size survives exactly when it is itself that decimal |
| JsonNumbers.TieIsEven | internal/common/deal_target.go:56 | midway between two float64 the one with the even mantissa is stored |
| JsonNumbers.ReadBackIsStable | internal/common/deal_target.go:66-71 | what was read back once is stored as the same float64 and read back unchanged for ever |
| JsonNumbers.SafeIntegersSurvive | internal/common/deal_target.go:22 | every integer up to 2^53 survives |
| JsonNumbers.NextIntegersSurviveIfEven | internal/common/deal_target.go:22 | between 2^53 and 2^54 exactly the even integers survive |
| JsonNumbers.SafeBoundIsExact | internal/common/deal_target.go:22 | 2^53 is the largest bound up to which every integer survives |
| DealPayload.TargetComesBack | internal/common/deal_target.go:47-75 | a deal target comes back from its document, with empty lists and maps made nil and nothing else changed, exactly when every message id survives; a non-nil empty window stays non-nil |
| DealPayload.SafeTargetComesBack | internal/common/deal_target.go:47-75 | in particular whenever no id is beyond 2^53 |
| DealPayload.UnsafeIdIsLost | internal/common/deal_target.go:47-75 | a target with id 2^53 + 1 does not come back |
| DealPayload.SecondTripIsIdentity | internal/common/deal_target.go:47-75 | whatever the first trip gives is written as the same document and read back unchanged, lossy ids included |
| DealPayload.DataComesBack | internal/common/deal_target.go:78-107 | the same round trip for message data |
| DealPayload.NilTargetComesBackZero | internal/common/deal_target.go:47-65 | a nil target gives a nil map, and a nil map the zero target |
| DealPayload.TargetIsReread | internal/common/deal_target.go:47-75 | the exact result of the trip for every target, including when it fails |
| DealPayload.TargetIsWritten | internal/common/deal_target.go:20-60 | the document of a target key by key: which keys it has, each with the field of its name, empty ones left out, in the target, its messages, their pictures and its window |
| DealPayload.DataIsWritten | internal/common/deal_target.go:78-92 | the same for message data on its own |
| DealPayload.TargetReadExactly | internal/common/deal_target.go:62-75 | any document is read as a target exactly when every field is what its key says, zero when the key is missing or null, and refused for a value of another type or a number that does not fit |
| DealPayload.FieldsReadExactly | internal/common/deal_target.go:94-107 | the same for message data |
| ChannelScan.ScanValues | internal/database/ent/channel.go:108-131 | a new list with the right kind of holder for every column |
| ChannelScan.Channel.AssignOne | internal/database/ent/channel.go:139-305 | the field named by a column takes its value, or the type or JSON error is reported, and no other field changes |
| ChannelScan.Channel.AssignTime | internal/database/ent/channel.go:147-158 | the same for the creation and update times, each in the field of its name |
| ChannelScan.Channel.AssignDate | internal/database/ent/channel.go:267-278 | the same for the restriction and first-post dates, each in the field of its name |
| ChannelScan.Channel.AssignInt | internal/database/ent/channel.go:159-164 | the same for the Telegram id, the status and the number of posts, each in the field of its name |
| ChannelScan.Channel.AssignAudience | internal/database/ent/channel.go:231-254 | the same for subscribers and views, each in the field of its name |
| ChannelScan.Channel.AssignScalar | internal/database/ent/channel.go:141-146 | the same for the id, the flag and the rate |
| ChannelScan.Channel.AssignTelegram | internal/database/ent/channel.go:165-188 | the same for the name, description and picture |
| ChannelScan.Channel.AssignString | internal/database/ent/channel.go:189-194 | the same for the other strings |
| ChannelScan.Channel.AssignJson | internal/database/ent/channel.go:215-230 | the same for stats and prices: every key of the document holds its value, for prices its number or 0 for null, any other key what it held, and a JSON null leaves no map |
| ChannelScan.Channel.AssignTags | internal/database/ent/channel.go:201-208 | the same for the tags: as long as the list, a string at its place, and for null what stood there |
| ChannelScan.Channel.AssignValues | internal/database/ent/channel.go:135-308 | the error of the first value that does not fit, and every other field as the values before it leave it; each price and each value of the stats is the one last written under its key, each tag the one last written at its place |
| ChannelScan.FilledNeverMismatch | internal/database/ent/channel.go:108-308 | for every column list the holders made fit: only JSON decoding can fail, exactly when some text cannot be decoded, at the first such column |
| ChannelScan.LastPresentWins | internal/database/ent/channel.go:139-305 | a field that is not JSON ends as the last value that is not NULL, the number, text, time, flag or id that its holder holds |
| ChannelScan.LastTextDecides | internal/database/ent/channel.go:201-230 | a JSON field ends as its last document decoded into what the field held at that point |
| ChannelScan.RepeatedColumnEndsAsLast | internal/database/ent/channel.go:201-230 | through a whole column list, a JSON field ends as its last document alone if and only if that document supersedes what the earlier texts hold |
| ChannelScan.EarlierStatsSurvive | internal/database/ent/channel.go:215-222 | a row that names stats twice ends as both objects |
| ChannelScan.NoneCounts | internal/database/ent/channel.go:139-305 | a field, JSON or not, for which only NULLs come keeps what it had |
| ChannelScan.PricesAreHeld | internal/database/ent/channel.go:223-230 | over a whole column list, every key of the prices holds the number last written there, 0 for null, any other key what it held, and nothing after a JSON null |
| ChannelScan.StatsAreHeld | internal/database/ent/channel.go:215-222 | the same for the values of the stats |
| ChannelScan.TagsAreHeld | internal/database/ent/channel.go:201-208 | the same for the tags, place by place |
| ChannelScan.NilIsHeld | internal/database/ent/channel.go:201-230 | a JSON field ends without a value exactly when its last text is null, or there was neither a text nor a value before |
| ChannelScan.NullIdIsAssigned | internal/database/ent/channel.go:141-146 | a NULL id is read as the zero id and, as the last id of any column list, assigned |
| ChannelScan.JsonColumnOnce | internal/database/ent/channel.go:201-230 | a JSON column that occurs once ends as its document says, tag by tag and key by key and nothing else, or empty when NULL |
| ChannelScan.OverwritingIsExact | internal/database/ent/channel.go:201-230 | one document decoded over another stands alone exactly when it overwrites it |

## Left out

- BulkCreate.BotStateCreateBulk.Save: a list that names one builder twice, or two builders that share a mutation, which `Create` never makes.
- Queries.Query.LoadMany: neighbours are values, so that two nodes may share one neighbour object is not captured.
- BulkCreate.SaveScope.Mutate: hooks that call their successor more than once.
- ChannelScan.Channel.AssignValues: what a failed decoding leaves in its own field, and elements left over in the spare capacity of an earlier tags list.
- DealPayload.TargetComesBack: strings that are not valid UTF-8, documents whose keys differ from the field names only in case, and negative zero.
- BotStateCreate.Save, the single create; setters, update, delete and upsert builders.
- Traversal queries from one entity to another, interceptors, GroupBy aggregation and the effect of DISTINCT (ids are unique).
- The builders of entities without edges: BotState, IndexerState, Transaction.
- The loaders' early return for an empty id list, which sqlAll cannot reach.
- Sharing of backing arrays between slices of a builder and of its clone: sequences are values.
- Error texts, the panicking X variants, String methods, SQL text, drivers and contexts.
- Deal statuses, escrow, balances, the indexer and the bot handlers.
