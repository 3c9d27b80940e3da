# Saltcorn view and field metadata, modelled in Dafny

This project models the view and field metadata layer of the Saltcorn
no-code application builder:

- the `View` record, a stored row of the `views` table bound to a view template;
- how a view asks its template for its *state fields* ("introspection");
- the finders that filter views by a caller's predicate and skip views whose introspection throws;
- the argument cleaning done by `run`, `runPost` and `get_state_form`;
- the configuration-workflow hook that saves a view's configuration;
- the writes to the `views` table, each of which refreshes the global state;
- the `instanceOfField` structural test and the closed `InputType` union of the field abstraction.

Files:

- `js_values.dfy` (module `JsValues`): the JavaScript values that the layer inspects (`undefined`, `null`, booleans, numbers, strings, plain objects as property maps), plus truthiness, property reads, `Result` for calls that may throw, and `Option`.
- `abstract_field.dfy` (module `AbstractField`): `InputType` and `instanceOfField`.
- `view.dfy` (module `Views`): the view record and the view operations that do not touch the database.
- `view_store.dfy` (module `ViewStore`): the `views` table and the global state as a class `Store`, with the finders and the writes.

Design:

- A view is never changed after it is constructed, so it is a datatype. The constructor is the function `NewView`.
- The contractis class contract (name and template are strings, the id is a positive integer) becomes the precondition `RowContract`. The store keeps every row satisfying it, and treats `id` as the table's key: no two rows share an id (`Store.Valid`).
- A view template is a datatype. It records whether it has `get_state_fields` and what that computes (a field list, or a throw). It also records `display_state_form` and whether `run`, `runPost` and `configuration_workflow` exist.
- A view whose template is not in the registry holds `None`. Each operation that dereferences the missing template fails with a `TypeError`, as the source does.
- The loops of the source are methods proved against specification functions:
  - `removeEmptyStrings` against `WithoutEmpty`;
  - the find loops against `SelectViews`;
  - the in-place field normalisation of `get_state_form` against `NormaliseField`.
- The database is an in-memory sequence of row objects. A `where` object matches a row when every key of `where` holds the same value in the row.
- `State.refresh()` is a ghost counter `refreshes`. Every write says whether it bumps it.
- The `id` returned by `db.insert` is the store's serial counter `nextId`. The inserted row is `{ id: nextId, ...v }`, so an `id` inside `v` takes precedence. This matches the spread order of the object the source builds its returned view from.

## Model

| member | source | states |
|---|---|---|
| `Views.RemoveEmptyStrings` | packages/saltcorn-data/models/view.js:6-12 | the result has exactly the keys whose value is neither `""` nor `null`, each with its value unchanged (and equals `WithoutEmpty`) |
| `Views.WithoutEmptyKeepsOtherFalsy` | packages/saltcorn-data/models/view.js:9 | other falsy values (`undefined`, `false`, `0`) are kept, unchanged |
| `Views.WithoutEmptyShrinksAndIsIdempotent` | packages/saltcorn-data/models/view.js:7-11 | no key is ever added, and cleaning a cleaned object changes nothing |
| `Views.NewView` | packages/saltcorn-data/models/view.js:15-30 | a truthy `o.table_id` wins, else a truthy `o.table.id`, else `table_id` is unset; a set `table_id` is always truthy; `table` is kept only when truthy; name, id, template, configuration and the three flags are copied; the template object is the registry's entry for the template name |
| `Views.StateFields` | packages/saltcorn-data/models/view.js:42-50 | `[]` when the template has no `get_state_fields`; otherwise the template's answer for the view's table id, name and configuration; a `TypeError` when the view has no template |
| `Views.SelectViews` | packages/saltcorn-data/models/view.js:58-71 | at most as many views as fetched, each one whose introspection succeeded and whose predicate returned true |
| `Views.SelectViewsPositions` | packages/saltcorn-data/models/view.js:58-71 | the result is the order-preserving subsequence of exactly the selected positions |
| `Views.SelectViewsMembers` | packages/saltcorn-data/models/view.js:79-91 | a view is in the result iff it was fetched and is selected; views whose introspection or predicate throws are absent, never an error |
| `Views.CollectWhere` | packages/saltcorn-data/models/view.js:58-72 | the push loop with its try/catch computes `SelectViews` of the fetched views |
| `Views.LinkableIff` | packages/saltcorn-data/models/view.js:96-100 | a view passes the link predicate iff its state fields contain one named `"id"`; a template without `get_state_fields` never passes |
| `Views.NormaliseField` | packages/saltcorn-data/models/view.js:142-145 | `required` becomes false; a field whose type is named `"Bool"` gets fieldview `"tristate"`, any other keeps its fieldview; no other key changes |
| `Views.NormaliseFieldIdempotent` | packages/saltcorn-data/models/view.js:142-145 | normalising twice is normalising once |
| `Views.GetStateForm` | packages/saltcorn-data/models/view.js:138-157 | `null` when the template lacks `display_state_form`; an introspection throw propagates; otherwise a GET state form to `/view/<name>` labelled "Apply", whose fields are the normalised state fields (all with `required = false`) and whose values are the cleaned query |
| `Views.Run` | packages/saltcorn-data/models/view.js:118-126 | the template's `run` receives the view's table id, name, configuration, the cleaned query and the extra arguments; a missing template or `run` is a `TypeError` |
| `Views.RunPost` | packages/saltcorn-data/models/view.js:128-137 | as `Run`, with the body cleaned like the query |
| `Views.ConfigFlowAction` | packages/saltcorn-data/models/view.js:159-161 | the workflow's action is exactly `/viewedit/config/` followed by the view name; a missing template, or a template without `configuration_workflow`, is a `TypeError` |
| `Views.WithoutTableId` | packages/saltcorn-data/models/view.js:164 | the saved configuration has every key of the workflow result except `table_id`, with the same values |
| `ViewStore.MatchingRows` | packages/saltcorn-data/models/view.js:37 | the selected rows are exactly the stored rows that match `where`, at most as many as stored |
| `ViewStore.MatchingRowsAll` | packages/saltcorn-data/models/view.js:77 | the empty filter `{}` fetches every row in table order |
| `ViewStore.OtherRows` | packages/saltcorn-data/models/view.js:115 | deletion keeps exactly the rows that do not match; kept plus matched is the whole table |
| `ViewStore.DeleteWhereLeavesNoMatch` | packages/saltcorn-data/models/view.js:115 | after deleting by `where` no row matches `where` |
| `ViewStore.UpdateRowsIdempotent` | packages/saltcorn-data/models/view.js:111 | applying the same update twice equals applying it once |
| `ViewStore.UpdateRowsTouchesOnlyItsId` | packages/saltcorn-data/models/view.js:111 | rows with another id are unchanged; the row with the id carries every value of the update, keeps every other column with its value, and gains no key outside the update |
| `ViewStore.AppendKeepsUniqueIds` | packages/saltcorn-data/models/view.js:103 | inserting a row whose id is not yet stored keeps the ids unique |
| `ViewStore.OtherRowsKeepsUniqueIds` | packages/saltcorn-data/models/view.js:115 | deleting rows keeps the ids unique |
| `ViewStore.UpdateRowsKeepsUniqueIds` | packages/saltcorn-data/models/view.js:111 | an update that does not move its row onto another row's id keeps the ids unique |
| `ViewStore.UpdateRowsKeepsContract` | packages/saltcorn-data/models/view.js:174-179 | an update that keeps name and template strings and the id positive keeps every row a valid view |
| `ViewStore.Store.Find` | packages/saltcorn-data/models/view.js:36-40 | one view per matching row, in table order: the i-th view is built from the i-th matching row; never more than the table holds |
| `ViewStore.Store.FindOne` | packages/saltcorn-data/models/view.js:32-35 | a view built from a matching row when one exists; a throw when none does |
| `ViewStore.Store.TableViewsHaveTableId` | packages/saltcorn-data/models/view.js:54-56 | every view fetched with `{ table_id }` has that table id |
| `ViewStore.Store.FindAllViewsWhere` | packages/saltcorn-data/models/view.js:75-94 | `SelectViews` over the views of every stored row, in table order |
| `ViewStore.Store.FindTableViewsWhere` | packages/saltcorn-data/models/view.js:52-73 | `SelectViews` over the table's views; every returned view has that table id |
| `ViewStore.Store.FindPossibleLinksToTable` | packages/saltcorn-data/models/view.js:96-100 | `SelectViews` with the link predicate; every returned view belongs to the table and has a state field named `"id"` |
| `ViewStore.Store.Create` | packages/saltcorn-data/models/view.js:102-106 | the insert fails (a throw, store and refresh count unchanged) iff the row's id is already stored; otherwise one row `{ id, ...v }` is appended, the returned view is built from it, so an `id` in `v` overrides the serial one, `Find({})` grows by exactly that view and the state is refreshed once; the serial advances iff `v` has no id |
| `ViewStore.Store.Update` | packages/saltcorn-data/models/view.js:110-113 | the write fails (a throw, store and refresh count unchanged) iff it would move the row onto an id another row holds; otherwise the rows become `UpdateRows` of the old rows and the state is refreshed once |
| `ViewStore.Store.DeleteWhere` | packages/saltcorn-data/models/view.js:114-117 | the rows become exactly the non-matching old rows; the state is refreshed once |
| `ViewStore.Store.Delete` | packages/saltcorn-data/models/view.js:107-109 | the rows with the view's id are removed and the state is not refreshed |
| `ViewStore.Store.ConfigFlowOnDone` | packages/saltcorn-data/models/view.js:162-169 | the previous `onDone` result (or the context itself), without `table_id`, is saved as the view's configuration; the result is a redirect to `/viewedit/list`; the templates and the insert serial are unchanged and the state is refreshed once |
| `AbstractField.InstanceOfField` | packages/saltcorn-types/model-abstracts/abstract_field.ts:64-66 | holds iff the value is an object with both keys `name` and `input_type`; `null` or `undefined` is never a field; a truthy primitive makes `in` throw a `TypeError` |
| `AbstractField.InstanceOfFieldIgnoresValues` | packages/saltcorn-types/model-abstracts/abstract_field.ts:65 | the values under `name` and `input_type` do not affect the result |
| `AbstractField.InstanceOfFieldIgnoresExtraKeys` | packages/saltcorn-types/model-abstracts/abstract_field.ts:65 | extra keys never change the result |
| `AbstractField.Literal` | packages/saltcorn-types/model-abstracts/abstract_field.ts:68-79 | every input kind is one of the eleven literals |
| `AbstractField.ParseInputType` | packages/saltcorn-types/model-abstracts/abstract_field.ts:68-79 | a string is an input type iff it is one of the eleven literals, and then its literal is that string |
| `AbstractField.ParseLiteral` | packages/saltcorn-types/model-abstracts/abstract_field.ts:68-79 | reading back a kind's literal gives that kind |
| `AbstractField.InputTypeIsClosed` | packages/saltcorn-types/model-abstracts/abstract_field.ts:68-79 | there are exactly eleven literals, the datatype lists every kind, and distinct kinds have distinct literals |

## Left out

- The database (`db.select`, `db.selectOne`, `db.insert`, `db.update`, `db.deleteWhere`, `db.query`) is replaced by exact matching over an in-memory sequence. SQL ordering, typing and the `selectopts` argument of `find` are not modelled. `db.selectOne` with no match is modelled as a throw.
- ViewStore.Store.Create: a row is stored as the inserted object. The table's other columns are not modelled, so a column the insert leaves out reads back as absent (`undefined`), not as SQL `NULL`; the view `Find` builds from the row therefore equals the one `create` returns. Database failures other than a duplicate id are not modelled.
- `State.refresh()` is a ghost counter. What the refresh reloads is not modelled, and the template registry stays fixed.
- The template plugins' `run`, `runPost` and `configuration_workflow` are not modelled. Only the arguments they receive and the workflow's `action` and `onDone` are. `Form` and `fill_fkey_options` are also left out: the state form is the record of the options passed to `Form`.
- Promises and `async` are not modelled: the code is treated as sequential.
- The contractis checks become types and preconditions:
  - `find_table_views_where` and `find_possible_links_to_table` take a positive table id;
  - stored rows satisfy `RowContract`;
  - predicates receive the `{ viewrow, viewtemplate, state_fields }` record and return a boolean or throw.
- ViewStore.Store.Update: requires `UpdateKeepsContract`. The source does not check this when it writes. A row that breaks the class contract would make every later read of it fail, so the model keeps such rows out of the table.
- The class contract's shape check on `viewtemplateObj` is not a precondition. A missing template is kept and fails where it is dereferenced.
- JavaScript values:
  - Property enumeration order is not kept: objects are maps, so `removeEmptyStrings` visits keys in an unspecified order. The resulting object is the same whatever the order.
  - Numbers are integers (no floats, no `NaN`).
  - Arrays, functions and prototype-chain properties of values are not modelled. A primitive has none of the properties the layer reads.
- Aliasing is not modelled. `get_state_form` mutates the field objects it receives from the template. The model normalises a local copy, so a template that keeps and reuses those objects would also see the mutation in the source but not in the model.
- `InstanceOfField` returns `Ok(false)` for every falsy value. The source returns that falsy value itself, which callers use only as a boolean.
- `Views.ConfigFlowAction`: the object returned by `configuration_workflow()` is assumed to accept the `action` assignment; a template whose workflow returns `null` or `undefined` (which would make that assignment throw) is not modelled.
- The Playwright landing-page test and the `setup` command of the CLI are browser automation and installer plumbing, with no logic of this layer; they are not part of this model.
