/**
 * The `views` table and the global state, held in memory: the finders that
 * read rows and wrap them as views, and the writes that change the rows and
 * then refresh the state.
 */
module ViewStore {
  import opened JsValues
  import opened Views

  /** A `where` object as the database reads it: every key of `where` holds that value in the row. */
  predicate Matches(row: Object, where: Object) {
    forall k :: k in where ==> Get(row, k) == where[k]
  }

  /** The rows `db.select(where)` returns, in table order. */
  function MatchingRows(rows: seq<Object>, where: Object): (r: seq<Object>)
    ensures |r| <= |rows|
    ensures forall row :: row in r <==> row in rows && Matches(row, where)
    decreases |rows|
  {
    if |rows| == 0 then []
    else
      var init := MatchingRows(rows[..|rows| - 1], where);
      var last := rows[|rows| - 1];
      assert rows == rows[..|rows| - 1] + [last];
      if Matches(last, where) then init + [last] else init
  }

  /** The empty filter `{}` selects every row, in table order. */
  lemma {:induction false} MatchingRowsAll(rows: seq<Object>)
    ensures MatchingRows(rows, map[]) == rows
    decreases |rows|
  {
    if |rows| > 0 {
      MatchingRowsAll(rows[..|rows| - 1]);
      assert rows == rows[..|rows| - 1] + [rows[|rows| - 1]];
    }
  }

  /** The rows that `db.deleteWhere(where)` leaves, in table order. */
  function OtherRows(rows: seq<Object>, where: Object): (r: seq<Object>)
    ensures |r| + |MatchingRows(rows, where)| == |rows|
    ensures forall row :: row in r <==> row in rows && !Matches(row, where)
    decreases |rows|
  {
    if |rows| == 0 then []
    else
      var init := OtherRows(rows[..|rows| - 1], where);
      var last := rows[|rows| - 1];
      assert rows == rows[..|rows| - 1] + [last];
      if Matches(last, where) then init else init + [last]
  }

  /** The rows after `db.update(v, id)`: the values of `v` are written over the row with that id. */
  function UpdateRows(rows: seq<Object>, v: Object, id: PosInt): (r: seq<Object>) {
    seq(|rows|, i requires 0 <= i < |rows| => if Get(rows[i], "id") == Num(id) then rows[i] + v else rows[i])
  }

  /** Writing the same values to the same id twice is writing them once. */
  lemma UpdateRowsIdempotent(rows: seq<Object>, v: Object, id: PosInt)
    ensures UpdateRows(UpdateRows(rows, v, id), v, id) == UpdateRows(rows, v, id)
  {
    var once := UpdateRows(rows, v, id);
    forall i | 0 <= i < |rows|
      ensures UpdateRows(once, v, id)[i] == once[i]
    {
      if Get(rows[i], "id") == Num(id) {
        assert once[i] == rows[i] + v;
        assert once[i] + v == rows[i] + v;
      }
    }
  }

  /** An update touches only the rows whose id it names; the others keep their place and contents. */
  lemma UpdateRowsTouchesOnlyItsId(rows: seq<Object>, v: Object, id: PosInt, i: int)
    requires 0 <= i < |rows|
    ensures |UpdateRows(rows, v, id)| == |rows|
    ensures Get(rows[i], "id") != Num(id) ==> UpdateRows(rows, v, id)[i] == rows[i]
    ensures Get(rows[i], "id") == Num(id) ==>
              forall k :: k in v ==> Get(UpdateRows(rows, v, id)[i], k) == v[k]
    ensures Get(rows[i], "id") == Num(id) ==>
              && UpdateRows(rows, v, id)[i].Keys == rows[i].Keys + v.Keys
              && forall k :: k in rows[i] && k !in v ==> UpdateRows(rows, v, id)[i][k] == rows[i][k]
  {
  }

  /** An update that keeps the view contract leaves every row satisfying it. */
  lemma UpdateRowsKeepsContract(rows: seq<Object>, v: Object, id: PosInt)
    requires forall row :: row in rows ==> RowContract(row)
    requires UpdateKeepsContract(v)
    ensures forall row :: row in UpdateRows(rows, v, id) ==> RowContract(row)
  {
    var updated := UpdateRows(rows, v, id);
    forall i | 0 <= i < |updated|
      ensures RowContract(updated[i])
    {
      assert rows[i] in rows;
    }
  }

  /** An update that keeps the view contract: name and template stay strings, the id a positive integer. */
  predicate UpdateKeepsContract(v: Object) {
    && ("name" in v ==> v["name"].Str?)
    && ("viewtemplate" in v ==> v["viewtemplate"].Str?)
    && ("id" in v ==> v["id"].Num? && v["id"].n > 0)
  }

  /** A row a view can be created from: the insert supplies the id when `v` has none. */
  predicate CreatableRow(v: Object) {
    Get(v, "name").Str? && Get(v, "viewtemplate").Str? && UpdateKeepsContract(v)
  }

  /** `views.map(v => new View(v))`. */
  function ToViews(rows: seq<Object>, templates: Registry): (vs: seq<View>)
    requires forall row :: row in rows ==> RowContract(row)
    ensures |vs| == |rows|
    ensures forall i :: 0 <= i < |rows| ==> vs[i] == NewView(rows[i], templates)
  {
    seq(|rows|, i requires 0 <= i < |rows| => NewView(rows[i], templates))
  }

  /** `id` is the key of the `views` table: no two rows carry the same id. */
  predicate UniqueIds(rows: seq<Object>) {
    forall i, j :: 0 <= i < j < |rows| ==> Get(rows[i], "id") != Get(rows[j], "id")
  }

  /** Some stored row already has the id `id`. */
  predicate IdTaken(rows: seq<Object>, id: Value) {
    exists i :: 0 <= i < |rows| && Get(rows[i], "id") == id
  }

  /**
   * An update of the row `id` that would give it an id another row
   * already holds: the database refuses it.
   */
  predicate UpdateClashes(rows: seq<Object>, v: Object, id: PosInt) {
    "id" in v && v["id"] != Num(id) && IdTaken(rows, Num(id)) && IdTaken(rows, v["id"])
  }

  /** Appending a row whose id is not taken keeps the ids unique. */
  lemma AppendKeepsUniqueIds(rows: seq<Object>, row: Object)
    requires UniqueIds(rows) && !IdTaken(rows, Get(row, "id"))
    ensures UniqueIds(rows + [row])
  {

  }

  /** A prefix of a table with unique ids has unique ids, none equal to a later row's. */
  lemma PrefixUniqueIds(rows: seq<Object>, n: nat)
    requires UniqueIds(rows) && n < |rows|
    ensures UniqueIds(rows[..n])
    ensures !IdTaken(rows[..n], Get(rows[n], "id"))
  {

  }

  /** Rows drawn from a table inherit the ids it does not hold. */
  lemma SubsetNotTaken(kept: seq<Object>, rows: seq<Object>, id: Value)
    requires forall r :: r in kept ==> r in rows
    requires !IdTaken(rows, id)
    ensures !IdTaken(kept, id)
  {
    forall k | 0 <= k < |kept|
      ensures Get(kept[k], "id") != id
    {
      assert kept[k] in rows;
    }
  }

  /** Deleting rows keeps the ids unique. */
  lemma {:induction false} OtherRowsKeepsUniqueIds(rows: seq<Object>, where: Object)
    requires UniqueIds(rows)
    ensures UniqueIds(OtherRows(rows, where))
    decreases |rows|
  {
    if |rows| > 0 {
      var n := |rows| - 1;
      var init := rows[..n];
      var kept := OtherRows(init, where);
      assert OtherRows(rows, where) == if Matches(rows[n], where) then kept else kept + [rows[n]];
      PrefixUniqueIds(rows, n);
      OtherRowsKeepsUniqueIds(init, where);
      if !Matches(rows[n], where) {
        SubsetNotTaken(kept, init, Get(rows[n], "id"));
        AppendKeepsUniqueIds(kept, rows[n]);
      }
    }
  }

  /** An update that does not clash keeps the ids unique. */
  lemma UpdateRowsKeepsUniqueIds(rows: seq<Object>, v: Object, id: PosInt)
    requires UniqueIds(rows) && !UpdateClashes(rows, v, id)
    ensures UniqueIds(UpdateRows(rows, v, id))
  {

  }

  /** A row appended to the table is the last view `Find({})` returns. */
  lemma AppendedRowIsFound(rows: seq<Object>, row: Object, templates: Registry)
    requires forall r :: r in rows + [row] ==> RowContract(r)
    ensures ToViews(MatchingRows(rows + [row], map[]), templates)
            == ToViews(MatchingRows(rows, map[]), templates) + [NewView(row, templates)]
  {
    MatchingRowsAll(rows);
    MatchingRowsAll(rows + [row]);

  }

  /** `{ table_id }`, the filter `find_table_views_where` reads with. */
  function TableWhere(tableId: PosInt): (w: Object) {
    map["table_id" := Num(tableId)]
  }

  /** The `views` table, the template registry and the count of state refreshes. */
  class Store {
    var rows: seq<Object>
    var templates: Registry
    var nextId: PosInt
    ghost var refreshes: nat

    /** Every stored row satisfies the view contract, and `id` is the table's key. */
    ghost predicate Valid()
      reads this
    {
      && (forall row :: row in rows ==> RowContract(row))
      && UniqueIds(rows)
    }

    constructor (templates: Registry)
      ensures Valid()
      ensures rows == [] && this.templates == templates && refreshes == 0
    {
      rows := [];
      this.templates := templates;
      nextId := 1;
      refreshes := 0;
    }

    /** `View.find(where)`: every matching row, wrapped as a view, in table order. */
    function Find(where: Object): (vs: seq<View>)
      reads this
      requires Valid()
      ensures |vs| == |MatchingRows(rows, where)| <= |rows|
      ensures forall i :: 0 <= i < |vs| ==>
                Matches(MatchingRows(rows, where)[i], where) && vs[i] == NewView(MatchingRows(rows, where)[i], templates)
    {
      ToViews(MatchingRows(rows, where), templates)
    }

    /** `View.findOne(where)`: the first matching row as a view; no match throws. */
    function FindOne(where: Object): (r: Result<View>)
      reads this
      requires Valid()
      ensures r.Ok? <==> exists row :: row in rows && Matches(row, where)
      ensures r.Err? ==> r.error == Thrown
      ensures r.Ok? ==> exists row :: row in rows && Matches(row, where) && r.value == NewView(row, templates)
    {
      var found := MatchingRows(rows, where);
      if |found| == 0 then Err(Thrown)
      else
        assert found[0] in found;
        Ok(NewView(found[0], templates))
    }

    /** Every view `Find({ table_id })` returns has that table id. */
    lemma TableViewsHaveTableId(tableId: PosInt)
      requires Valid()
      ensures forall i :: 0 <= i < |Find(TableWhere(tableId))| ==> Find(TableWhere(tableId))[i].tableId == Some(Num(tableId))
    {
    }

    /**
     * `View.find_all_views_where(pred)`: the views, in table order, whose
     * introspection succeeds and satisfies `pred`.
     */
    method FindAllViewsWhere(pred: Pred) returns (r: seq<View>)
      requires Valid()
      ensures r == SelectViews(Find(map[]), pred)
      ensures r == SelectViews(ToViews(rows, templates), pred)
      ensures |r| <= |rows|
    {
      var views := Find(map[]);
      r := CollectWhere(views, pred);
      MatchingRowsAll(rows);
    }

    /**
     * `View.find_table_views_where(table_id, pred)`: as `find_all_views_where`,
     * over the views of one table only.
     */
    method FindTableViewsWhere(tableId: PosInt, pred: Pred) returns (r: seq<View>)
      requires Valid()
      ensures r == SelectViews(Find(TableWhere(tableId)), pred)
      ensures forall i :: 0 <= i < |r| ==> r[i].tableId == Some(Num(tableId))
    {
      var views := Find(TableWhere(tableId));
      r := CollectWhere(views, pred);
      TableViewsHaveTableId(tableId);
      var idx := SelectViewsPositions(views, pred);
    }

    /**
     * `View.find_possible_links_to_table(table_id)`: the views of the table
     * whose state fields include one named `id`.
     */
    method FindPossibleLinksToTable(tableId: PosInt) returns (r: seq<View>)
      requires Valid()
      ensures r == SelectViews(Find(TableWhere(tableId)), LinksPred)
      ensures forall i :: 0 <= i < |r| ==>
                && r[i].tableId == Some(Num(tableId))
                && StateFields(r[i]).Ok? && HasIdField(StateFields(r[i]).value)
    {
      r := FindTableViewsWhere(tableId, LinksPred);
      forall i | 0 <= i < |r|
        ensures StateFields(r[i]).Ok? && HasIdField(StateFields(r[i]).value)
      {
        LinkableIff(r[i]);
      }
    }

    /**
     * `View.create(v)`: inserts the row, refreshes the state and returns the
     * view built from the inserted object. The insert takes a fresh id from
     * the table's serial unless `v` brings its own, which takes precedence;
     * an id that is already stored makes the insert throw before the state
     * is refreshed.
     */
    method Create(v: Object) returns (r: Result<View>)
      requires Valid() && CreatableRow(v)
      modifies this
      ensures Valid()
      ensures templates == old(templates)
      ensures nextId == if "id" in v then old(nextId) else old(nextId) + 1
      ensures var row := map["id" := Num(old(nextId))] + v;
              r.Err? <==> IdTaken(old(rows), row["id"])
      ensures r.Err? ==> r.error == Thrown && rows == old(rows) && refreshes == old(refreshes)
      ensures r.Ok? ==>
                var row := map["id" := Num(old(nextId))] + v;
                && rows == old(rows) + [row]
                && r.value == NewView(row, templates)
                && r.value.id == (if "id" in v then v["id"].n else old(nextId))
                && refreshes == old(refreshes) + 1
                && Find(map[]) == old(Find(map[])) + [r.value]
    {
      var row := map["id" := Num(nextId)] + v;
      if "id" !in v {
        nextId := nextId + 1;
      }
      if IdTaken(rows, row["id"]) {
        return Err(Thrown);
      }
      AppendKeepsUniqueIds(rows, row);
      AppendedRowIsFound(rows, row, templates);
      rows := rows + [row];
      refreshes := refreshes + 1;
      r := Ok(NewView(row, templates));
    }

    /**
     * `View.update(v, id)`: writes `v` over the row with that id, then
     * refreshes the state; moving the row onto an id another row holds
     * makes the write throw before the refresh.
     */
    method Update(v: Object, id: PosInt) returns (r: Result<()>)
      requires Valid() && UpdateKeepsContract(v)
      modifies this
      ensures Valid()
      ensures templates == old(templates) && nextId == old(nextId)
      ensures r.Err? <==> UpdateClashes(old(rows), v, id)
      ensures r.Err? ==> r.error == Thrown && rows == old(rows) && refreshes == old(refreshes)
      ensures r.Ok? ==> rows == UpdateRows(old(rows), v, id) && refreshes == old(refreshes) + 1
    {
      if UpdateClashes(rows, v, id) {
        return Err(Thrown);
      }
      UpdateRowsKeepsContract(rows, v, id);
      UpdateRowsKeepsUniqueIds(rows, v, id);
      rows := UpdateRows(rows, v, id);
      refreshes := refreshes + 1;
      r := Ok(());
    }

    /** The static `View.delete(where)`: removes the matching rows, then refreshes the state. */
    method DeleteWhere(where: Object)
      requires Valid()
      modifies this
      ensures Valid()
      ensures rows == OtherRows(old(rows), where)
      ensures templates == old(templates) && nextId == old(nextId)
      ensures refreshes == old(refreshes) + 1
    {
      OtherRowsKeepsUniqueIds(rows, where);
      rows := OtherRows(rows, where);
      refreshes := refreshes + 1;
    }

    /** The instance `view.delete()`: removes the rows with the view's id and does NOT refresh. */
    method Delete(view: View)
      requires Valid()
      modifies this
      ensures Valid()
      ensures rows == OtherRows(old(rows), map["id" := Num(view.id)])
      ensures templates == old(templates) && nextId == old(nextId)
      ensures refreshes == old(refreshes)
    {
      OtherRowsKeepsUniqueIds(rows, map["id" := Num(view.id)]);
      rows := OtherRows(rows, map["id" := Num(view.id)]);
    }

    /**
     * The `onDone` that `get_config_flow` installs: the configuration the
     * workflow produces, without `table_id`, is saved on the view's row,
     * and the user is redirected to the list of views.
     */
    method ConfigFlowOnDone(view: View, oldOnDone: Option<Object -> Object>, ctx: Object) returns (result: Object)
      requires Valid()
      modifies this
      ensures Valid()
      ensures rows == UpdateRows(old(rows), map["configuration" := Obj(WithoutTableId(PreviousOnDone(oldOnDone, ctx)))], view.id)
      ensures result == map["redirect" := Str("/viewedit/list")]
      ensures templates == old(templates) && nextId == old(nextId) && refreshes == old(refreshes) + 1
    {
      var configuration := WithoutTableId(PreviousOnDone(oldOnDone, ctx));
      var _ := Update(map["configuration" := Obj(configuration)], view.id);
      result := map["redirect" := Str("/viewedit/list")];
    }
  }

  /** Deleting by `where` keeps exactly the non-matching rows, so none of them matches afterwards. */
  lemma DeleteWhereLeavesNoMatch(rows: seq<Object>, where: Object)
    ensures MatchingRows(OtherRows(rows, where), where) == []
  {
  }
}
