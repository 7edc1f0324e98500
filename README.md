# Client directory over PostgreSQL: a Dafny model

The repository is a small client directory kept in two PostgreSQL tables.
`clients` holds an id, a first name, a last name and a unique email.
`phones` holds an id, the owning client's id and a number. Deleting a client
cascades to its phone rows. The module main.py offers one Python function per
operation (create the tables, add a client, add a phone, change a client,
delete a phone, delete a client, find clients, delete a client's phones).
Each function sends one statement, or a few, through psycopg2. The
functions that change the tables commit after each statement; `find_client`
only reads.

This project models that core in Dafny:

- `Optional` holds the `None`-defaulted keyword arguments and Python
  truthiness. `None` and the empty string or list count as "not supplied".
- `Sequences` holds an order-preserving filter: a `DELETE ... WHERE` on a
  table held as a sequence of rows. It also holds key uniqueness: a primary
  key or a `UNIQUE` column.
- `SqlText` covers how psycopg2 counts `%s` placeholders in a query text, and
  Python's `str.join`.
- `Schema` holds the rows and columns `create_db` declares. This includes the
  `VARCHAR` limits and the row selections the `DELETE` statements keep.
- `QueryBuilders` covers the two statements assembled at run time: the
  partial `UPDATE` of `change_client` and the search `SELECT` of
  `find_client`. Each builder is an imperative method with the source's
  `if` chain. It is proved against a declarative definition: the truthy
  arguments, filtered from the test order. That definition's properties
  are proved as lemmas: which fragments appear, in which order, with which
  parameters, and that placeholders and parameters agree.
- `ClientSearch` is what the search statement returns, read off its
  `LEFT JOIN`, `WHERE`, `GROUP BY c.id` and `array_agg`. `ILIKE` is a
  parameter.
- `ClientStore` is the pair of tables as a class `Store`. Its fields are the
  `clients` and `phones` sequences and the next value of each `SERIAL`
  sequence. There is one method per function of main.py. Its invariant
  `Valid` is the set of declared constraints: primary keys, `UNIQUE(email)`,
  `VARCHAR` limits and the foreign key. Every method keeps it.

Errors are values (`DbError`): `UniqueViolation`, `ForeignKeyViolation`,
`ValueTooLong` and `SyntaxError`. `SyntaxError` is the database's answer to
the `WHERE  GROUP BY c.id` that `find_client` sends when no argument is
truthy. Each statement commits on its own. So a loop of `add_phone` calls
that fails at some number keeps the numbers stored before it.
`AcceptedPrefix` is that prefix.

Two choices of the model:

- The columns are the `VARCHAR(n)` that main.py:8-10 and main.py:17
  declare: `VARCHAR(100)`, `VARCHAR(100)`, `VARCHAR(255)` and `VARCHAR(20)`.
  A value longer than its column raises `ValueTooLong`, unless everything
  past the limit is spaces. Such a value is stored cut to the limit, as
  PostgreSQL does for `character varying(n)` (`Schema.Accepts`,
  `Schema.Truncate`).
- A search with no truthy argument sends `WHERE  GROUP BY c.id`, and the
  model returns `SyntaxError`.

## Model

| member | source | states |
|---|---|---|
| SqlText.PlaceholderCountAppend | main.py:67 | placeholders of a concatenation add up when the left part does not end inside a `%` escape |
| SqlText.JoinPlaceholders | main.py:67 | `sep.join(parts)` with a placeholder-free separator has one placeholder per part |
| SqlText.LiteralThenPlaceholder | main.py:55 | a literal without `%` followed by `%s` takes exactly one parameter |
| SqlText.FramedPlaceholders | main.py:118 | a literal head, a body and a tail take the parameters of body and tail |
| Schema.Set | main.py:67 | `SET column=value` changes that column only and keeps the id |
| Schema.Lookup | main.py:7 | a row is found by id exactly when some row has that id |
| Schema.LookupUnique | main.py:7 | under the primary key, the row found by id is the row with that id |
| Schema.PhonesAppend | main.py:44-45 | inserting a phone row extends its owner's numbers by that number and leaves other clients' rows alone |
| Schema.NumberRemoved | main.py:82-83 | after `DELETE ... WHERE client_id AND number`, the client has no row with that number |
| Schema.NumbersMember | main.py:95 | a number is among a row list's numbers exactly when some row carries it |
| Schema.Truncate | main.py:8-10 | the value a `VARCHAR(n)` column stores is a prefix of the given value and at most `n` long |
| Schema.TruncateDropsOnlySpaces | main.py:17 | for a value the column accepts, only spaces are cut off, and the value is stored unchanged exactly when it fits |
| QueryBuilders.SetColumnsCases | main.py:54-64 | the columns set are first_name, last_name, email, each present exactly when its argument is truthy, in that order |
| QueryBuilders.AssignmentsCases | main.py:54-64 | the `SET` list is the concatenation of one optional item per argument, in test order |
| QueryBuilders.AssignmentsMembers | main.py:54-64 | a column is set, to a value, exactly when its argument is truthy and equals that value |
| QueryBuilders.AssignmentsOrdered | main.py:54-64 | the `SET` items come strictly in the order first_name, last_name, email |
| QueryBuilders.AssignmentsEmpty | main.py:66 | the `SET` list is empty exactly when no scalar argument is truthy |
| QueryBuilders.SetFragmentPlaceholder | main.py:55 | each `column=%s` fragment takes one parameter |
| QueryBuilders.UpdatePlaceholders | main.py:67-69 | the `UPDATE` text has as many placeholders as the statement has parameters |
| QueryBuilders.BuildClientUpdate | main.py:49-70 | no statement when no argument is truthy; otherwise `UPDATE clients SET` + the fragments of the truthy arguments + ` WHERE id=%s`, with their values and then the client id as last parameter, and placeholders equal to parameters |
| QueryBuilders.ActiveCriteriaCases | main.py:102-116 | the criteria searched on are first_name, last_name, email, phone, each exactly when its argument is truthy |
| QueryBuilders.TermsCases | main.py:102-116 | the conditions are the concatenation of one optional condition per argument, in test order |
| QueryBuilders.TermsMembers | main.py:102-116 | a field is searched for a value exactly when its argument is truthy and equals that value |
| QueryBuilders.TermsOrdered | main.py:102-116 | the conditions come strictly in the order first_name, last_name, email, phone |
| QueryBuilders.TermsEmpty | main.py:118 | there is no condition exactly when no argument is truthy |
| QueryBuilders.ConditionPlaceholder | main.py:103 | each `... ILIKE %s` condition takes one parameter |
| QueryBuilders.SearchPlaceholders | main.py:118-120 | the search text has one placeholder per pattern; the `%` of the patterns are parameters, not text |
| QueryBuilders.SearchSteps | main.py:102-118 | the four `if`s build the declarative conditions; no pattern exactly when no argument is truthy, and then the text is the fixed prefix directly followed by ` GROUP BY c.id` |
| QueryBuilders.BuildClientSearch | main.py:93-118 | the statement is the prefix, the truthy arguments' conditions joined by ` AND `, and ` GROUP BY c.id`, with the `%value%` patterns in the same order; placeholders equal parameters; without truthy arguments the `WHERE` is empty |
| ClientSearch.SearchResults | main.py:118-129 | each result comes from a client whose joined rows pass the `WHERE`, and each such client yields a result |
| ClientSearch.SearchSound | main.py:95-118 | every result is an existing client that passes the name and email conditions, with its own column values |
| ClientSearch.RowPassesWhere | main.py:102-118 | a joined row passes the name, email and number conditions exactly when each of its searched values is `ILIKE` the pattern of its term |
| ClientSearch.SearchByPhone | main.py:114-116 | with a phone argument, every listed number is one of the client's own numbers and matches the pattern, and the list is not empty |
| ClientSearch.SearchComplete | main.py:95-98 | without a phone argument, every client that passes the other conditions is found with all its numbers, or `[NULL]` when it has none |
| ClientSearch.DeletedClientNotFound | main.py:87-90 | after a client is deleted, no search returns its id |
| ClientSearch.DeletedNumberNotListed | main.py:80-84 | after a number is deleted from a client, no search lists it for that client |
| ClientStore.PatchedRow | main.py:49-69 | the updated row takes each truthy argument, as its column stores it, and keeps the old value of every column whose argument is falsy |
| ClientStore.ApplyAppend | main.py:67 | applying two `SET` lists one after the other is applying their concatenation |
| ClientStore.ApplyAllFits | main.py:8-10 | every value an `UPDATE` stores is cut to its column's length, so the row stays within its `VARCHAR` limits |
| ClientStore.UpdateRowsEffect | main.py:66-69 | the `UPDATE` changes only the row with the client id, as `PatchedRow` says, and keeps the set of ids |
| ClientStore.UpdateRowsIds | main.py:67 | the `UPDATE` keeps the ids and the primary key |
| ClientStore.UpdateRowsValid | main.py:6-11 | an `UPDATE` that raises no error keeps the primary key, `UNIQUE(email)` and the limits |
| ClientStore.AcceptedPrefix | main.py:36-37 | the numbers stored before the first one the column refuses: a prefix, all accepted, followed by one that is refused |
| ClientStore.AcceptedPrefixAt | main.py:76-77 | a loop that stopped at position `i` got through exactly the accepted prefix; it is the whole list exactly when all numbers are accepted |
| ClientStore.Store.CreateDb | main.py:3-24 | the tables start empty and satisfy every constraint |
| ClientStore.Store.AddPhone | main.py:42-46 | a refused number or a missing client fails and stores nothing; otherwise one row with the next id and the number as the column stores it is appended |
| ClientStore.Store.AddPhones | main.py:36-37 | the client's numbers grow by the accepted prefix in order, other clients' rows are unchanged, and the loop completes exactly when every number is accepted; for a missing client nothing is stored and the first number's insert error is returned |
| ClientStore.Store.InsertClient | main.py:29-33 | a refused value or a taken email fails and stores nothing; otherwise the stored row is appended under a fresh id, which is returned and owns no phone, and the id counter advances |
| ClientStore.Store.AddClient | main.py:27-39 | the client under a fresh id, then its numbers in order up to the first refused one, none for a falsy `phones`; returns the id exactly when all are accepted; a failed client insert changes nothing |
| ClientStore.Store.DeletePhones | main.py:132-135 | every phone row of the client is removed and every other row is kept in order |
| ClientStore.Store.UpdateClient | main.py:66-70 | the rows are unchanged on error, otherwise updated as `UpdateRows` says; the ids never change |
| ClientStore.Store.ReplacePhones | main.py:72-77 | the client's numbers become the accepted prefix of the new list; other clients' rows are unchanged; for a missing client nothing is stored and the first number's insert error is returned |
| ClientStore.Store.ChangeClient | main.py:49-77 | a failed `UPDATE` changes nothing; otherwise the rows are updated, the phones are replaced only for a truthy `phones` (a falsy one leaves every phone row as it was), other clients' phones are unchanged, and no client id is consumed |
| ClientStore.Store.DeletePhone | main.py:80-84 | exactly the client's rows with that number are removed, the rest kept in order |
| ClientStore.Store.DeleteClient | main.py:87-90 | the client's row is removed and, by `ON DELETE CASCADE`, every phone row of that client |
| ClientStore.Store.FindClient | main.py:93-129 | the syntax error exactly when no argument is truthy, otherwise the search results |
| ClientStore.PhoneLoopStep | main.py:36-37 | one successful `add_phone` of the loop appends its stored number to the client's list and touches no other client's rows |
| ClientStore.NoPhonesOfNewClient | main.py:16-21 | under the foreign key, a client id not in the table owns no phone row |
| ClientStore.CascadeEffect | main.py:18-21 | deleting a client removes its id and all its phone rows and keeps every other client's phone rows as they were |
| ClientStore.DeletePhoneEffect | main.py:82-83 | deleting a number keeps the client's other rows in order, removes that number, and keeps other clients' rows |

## Left out

- The connection, cursors and commits of psycopg2 are left out. Each statement applies to the in-memory tables at once, and a failed statement changes nothing.
- After an error, psycopg2 keeps the connection's transaction aborted until a rollback. The model treats every call on its own.
- The demonstration block at main.py:138-170 is I/O (a password prompt and prints) and is not modelled.
- `ILIKE` pattern matching and case folding belong to the database. They are the parameter `ilike`, and every property holds for any such comparison. `%` and `_` inside a search value are not escaped by the source, and the pattern is built the same way in the model.
- Result order is left out: the search has no `ORDER BY`. The model lists clients and `array_agg` numbers in table order, and the lemmas use membership, not positions.
- On a failed insert, PostgreSQL's `SERIAL` sequences still consume a value. The model advances its counters only on success. Every id handed out is still fresh.
- SQL `NULL` for the scalar arguments of `add_client` is left out. Names and emails are strings. Several `NULL` emails would pass `UNIQUE`, which the model does not represent.
- `INTEGER` overflow of ids, and arguments of the wrong Python type, are left out. Ids are unbounded integers.
- A `phones` argument that is a string rather than a list would be iterated character by character. Only lists are modelled.
- `create_db` on a database that already has the tables (`IF NOT EXISTS`) is left out. The constructor starts from empty tables.
- Length errors are modelled as raised whenever the statement carries a value its column refuses. For the `UPDATE`, the model raises this error even when no row has the id, taking the parameters to be coerced to the column type before any row is matched. `UNIQUE` and foreign-key errors arise only for a row actually written.
- The dictionaries `find_client` builds from the result rows (main.py:123-129) are the `Found` datatype.
