/**
 * The view record of the data package: how a stored view row becomes a
 * view, how a view asks its template for its state fields, how views are
 * filtered by a caller's predicate, and the arguments a view hands to its
 * template when it runs, builds its state form or saves its configuration.
 */
module Views {
  import opened JsValues

  // ---------------------------------------------------------------------
  // removeEmptyStrings
  // ---------------------------------------------------------------------

  /** A value `removeEmptyStrings` keeps: anything strictly unequal to `""` and to `null`. */
  predicate Kept(v: Value) {
    v != Str("") && v != Null
  }

  /** The object `removeEmptyStrings` builds from `obj`. */
  function WithoutEmpty(obj: Object): (o: Object) {
    map k | k in obj && Kept(obj[k]) :: obj[k]
  }

  /**
   * `removeEmptyStrings(obj)`: fills a fresh object with every entry of
   * `obj` whose value is neither `""` nor `null`.
   */
  method RemoveEmptyStrings(obj: Object) returns (o: Object)
    ensures o.Keys == set k | k in obj && Kept(obj[k])
    ensures forall k :: k in o ==> o[k] == obj[k]
    ensures o == WithoutEmpty(obj)
  {
    o := map[];
    var pending := obj.Keys;
    while pending != {}
      invariant pending <= obj.Keys
      invariant forall k :: k in o <==> k in obj && k !in pending && Kept(obj[k])
      invariant forall k :: k in o ==> o[k] == obj[k]
      decreases pending
    {
      var k :| k in pending;
      if Kept(obj[k]) {
        o := o[k := obj[k]];
      }
      pending := pending - {k};
    }
  }

  /** Only `""` and `null` are dropped: the other falsy values survive, unchanged. */
  lemma WithoutEmptyKeepsOtherFalsy(obj: Object, k: string)
    requires k in obj && !obj[k].Truthy() && obj[k] != Str("") && obj[k] != Null
    ensures k in WithoutEmpty(obj) && WithoutEmpty(obj)[k] == obj[k]
    ensures obj[k] == Undefined || obj[k] == Bool(false) || obj[k] == Num(0)
  {
  }

  /** Filtering never adds a key, and filtering twice is filtering once. */
  lemma WithoutEmptyShrinksAndIsIdempotent(obj: Object)
    ensures WithoutEmpty(obj).Keys <= obj.Keys
    ensures WithoutEmpty(WithoutEmpty(obj)) == WithoutEmpty(obj)
  {
  }

  // ---------------------------------------------------------------------
  // View templates and the view record
  // ---------------------------------------------------------------------

  /** A state field: a plain field-like object. */
  type Field = Object

  /** A template's `get_state_fields(table_id, name, configuration)`, which may throw. */
  type StateFieldsFn = (Value, string, Value) -> Result<seq<Field>>

  /** Whether a template defines `get_state_fields`, and what it computes. */
  datatype Introspection = NoStateFields | StateFieldsBy(call: StateFieldsFn)

  /** A view template as registered in the global state. */
  datatype Template = Template(
    name: string,
    getStateFields: Introspection,
    displayStateForm: bool,
    hasRun: bool,
    hasRunPost: bool,
    hasConfigurationWorkflow: bool)

  /** The registry `State.viewtemplates`, keyed by template name. */
  type Registry = map<string, Template>

  /**
   * A view. `tableId` and `table` are `None` when the constructor leaves
   * them unset; `viewtemplateObj` is `None` when the registry has no
   * template of that name (the source then holds `undefined`).
   */
  datatype View = View(
    name: string,
    id: PosInt,
    viewtemplate: string,
    tableId: Option<Value>,
    table: Option<Value>,
    configuration: Value,
    isPublic: Value,
    onRootPage: Value,
    onMenu: Value,
    viewtemplateObj: Option<Template>)
  {
    /** `this.table_id` as a template receives it: `undefined` when unset. */
    function TableIdValue(): (t: Value) {
      if tableId.Some? then tableId.value else Undefined
    }
  }

  /** What the class contract demands of a view: a string name and template, a positive id. */
  predicate RowContract(o: Object) {
    && Get(o, "name").Str?
    && Get(o, "viewtemplate").Str?
    && Get(o, "id").Num? && Get(o, "id").n > 0
  }

  /** `o.table` carries a truthy `id`. */
  predicate HasTableWithId(o: Object) {
    Get(o, "table").Truthy() && Prop(o["table"], "id").Truthy()
  }

  /**
   * `new View(o)`. A truthy `o.table_id` wins; otherwise a truthy
   * `o.table.id` is taken; otherwise `table_id` stays unset.
   */
  function NewView(o: Object, templates: Registry): (v: View)
    requires RowContract(o)
    ensures Get(o, "table_id").Truthy() ==> v.tableId == Some(o["table_id"])
    ensures !Get(o, "table_id").Truthy() && HasTableWithId(o) ==>
              v.tableId == Some(Prop(o["table"], "id"))
    ensures v.tableId.None? <==> !Get(o, "table_id").Truthy() && !HasTableWithId(o)
    ensures v.tableId.Some? ==> v.tableId.value.Truthy()
    ensures v.table == if Get(o, "table").Truthy() then Some(o["table"]) else None
    ensures Str(v.name) == o["name"] && Num(v.id) == o["id"] && Str(v.viewtemplate) == o["viewtemplate"]
    ensures v.configuration == Get(o, "configuration")
    ensures v.isPublic == Get(o, "is_public") && v.onRootPage == Get(o, "on_root_page") && v.onMenu == Get(o, "on_menu")
    ensures v.viewtemplateObj == if o["viewtemplate"].s in templates then Some(templates[o["viewtemplate"].s]) else None
  {
    var tableId := if Get(o, "table_id").Truthy() then Some(o["table_id"]) else None;
    var table := if Get(o, "table").Truthy() then Some(o["table"]) else None;
    var tableId' :=
      if table.Some? && Prop(table.value, "id").Truthy() && !Get(o, "table_id").Truthy()
      then Some(Prop(table.value, "id"))
      else tableId;
    var name := o["viewtemplate"].s;
    View(o["name"].s, o["id"].n, name, tableId', table,
         Get(o, "configuration"), Get(o, "is_public"), Get(o, "on_root_page"), Get(o, "on_menu"),
         if name in templates then Some(templates[name]) else None)
  }

  /**
   * `view.get_state_fields()`: the template's answer for this view's table,
   * name and configuration, or `[]` when the template has no
   * `get_state_fields`. A view without a template throws a `TypeError`.
   */
  function StateFields(v: View): (r: Result<seq<Field>>)
    ensures v.viewtemplateObj.None? ==> r == Err(TypeError)
    ensures v.viewtemplateObj.Some? && v.viewtemplateObj.value.getStateFields.NoStateFields? ==> r == Ok([])
    ensures v.viewtemplateObj.Some? && v.viewtemplateObj.value.getStateFields.StateFieldsBy? ==>
              r == v.viewtemplateObj.value.getStateFields.call(v.TableIdValue(), v.name, v.configuration)
  {
    match v.viewtemplateObj
    case None => Err(TypeError)
    case Some(t) =>
      match t.getStateFields
      case NoStateFields => Ok([])
      case StateFieldsBy(call) => call(v.TableIdValue(), v.name, v.configuration)
  }

  // ---------------------------------------------------------------------
  // find_table_views_where / find_all_views_where
  // ---------------------------------------------------------------------

  /** The object a caller's predicate receives: `{ viewrow, viewtemplate, state_fields }`. */
  datatype PredArgs = PredArgs(viewrow: View, viewtemplate: Option<Template>, stateFields: seq<Field>)

  /** A caller's predicate; it may throw. */
  type Pred = PredArgs -> Result<bool>

  /**
   * A view survives the filter when introspection succeeds and the
   * predicate then returns true; a throw from either means "skip".
   */
  predicate Selected(v: View, pred: Pred) {
    var sfs := StateFields(v);
    sfs.Ok? && pred(PredArgs(v, v.viewtemplateObj, sfs.value)) == Ok(true)
  }

  /** The views of `views` that are `Selected`, in their original order. */
  function SelectViews(views: seq<View>, pred: Pred): (r: seq<View>)
    ensures |r| <= |views|
    ensures forall i :: 0 <= i < |r| ==> Selected(r[i], pred)
    decreases |views|
  {
    if |views| == 0 then []
    else
      var init := SelectViews(views[..|views| - 1], pred);
      var last := views[|views| - 1];
      if Selected(last, pred) then init + [last] else init
  }

  /**
   * The result of `SelectViews` is exactly the order-preserving
   * subsequence of the selected views: `idx` lists the positions it was
   * taken from, strictly increasing, and holds every selected position.
   */
  lemma {:induction false} SelectViewsPositions(views: seq<View>, pred: Pred) returns (idx: seq<nat>)
    ensures |idx| == |SelectViews(views, pred)|
    ensures forall i :: 0 <= i < |idx| ==> idx[i] < |views| && SelectViews(views, pred)[i] == views[idx[i]]
    ensures forall i, j :: 0 <= i < j < |idx| ==> idx[i] < idx[j]
    ensures forall j :: 0 <= j < |views| ==> (j in idx <==> Selected(views[j], pred))
    decreases |views|
  {
    if |views| == 0 {
      idx := [];
    } else {
      var n := |views| - 1;
      var init := views[..n];
      var prev := SelectViewsPositions(init, pred);
      assert forall j :: 0 <= j < n ==> init[j] == views[j];
      if Selected(views[n], pred) {
        idx := prev + [n];
        assert SelectViews(views, pred) == SelectViews(init, pred) + [views[n]];
      } else {
        idx := prev;
        assert SelectViews(views, pred) == SelectViews(init, pred);
      }
    }
  }

  /** Membership form of the same fact: a view is in the result iff it is a selected input view. */
  lemma {:induction false} SelectViewsMembers(views: seq<View>, pred: Pred, v: View)
    ensures v in SelectViews(views, pred) <==> v in views && Selected(v, pred)
    decreases |views|
  {
    if |views| > 0 {
      var n := |views| - 1;
      SelectViewsMembers(views[..n], pred, v);
      assert views == views[..n] + [views[n]];
    }
  }

  /**
   * The loop shared by `find_table_views_where` and `find_all_views_where`:
   * push each view that introspects and satisfies `pred`, swallowing throws.
   */
  method CollectWhere(views: seq<View>, pred: Pred) returns (r: seq<View>)
    ensures r == SelectViews(views, pred)
  {
    r := [];
    var i := 0;
    while i < |views|
      invariant 0 <= i <= |views|
      invariant r == SelectViews(views[..i], pred)
    {
      assert views[..i + 1][..i] == views[..i];
      var sfs := StateFields(views[i]);
      if sfs.Ok? {
        var keep := pred(PredArgs(views[i], views[i].viewtemplateObj, sfs.value));
        if keep == Ok(true) {
          r := r + [views[i]];
        }
      }
      i := i + 1;
    }
    assert views[..i] == views;
  }

  // ---------------------------------------------------------------------
  // find_possible_links_to_table
  // ---------------------------------------------------------------------

  /** `state_fields.some(sf => sf.name === "id")`. */
  predicate HasIdField(stateFields: seq<Field>) {
    exists i :: 0 <= i < |stateFields| && Get(stateFields[i], "name") == Str("id")
  }

  /** The predicate `find_possible_links_to_table` passes; it never throws. */
  function LinksPred(args: PredArgs): (r: Result<bool>) {
    Ok(HasIdField(args.stateFields))
  }

  /**
   * A view can be linked to iff its state fields include one named `id`;
   * in particular a template without `get_state_fields` never qualifies.
   */
  lemma LinkableIff(v: View)
    ensures Selected(v, LinksPred) <==> StateFields(v).Ok? && HasIdField(StateFields(v).value)
    ensures v.viewtemplateObj.Some? && v.viewtemplateObj.value.getStateFields.NoStateFields? ==>
              !Selected(v, LinksPred)
  {
  }

  // ---------------------------------------------------------------------
  // get_state_form
  // ---------------------------------------------------------------------

  /** `f.type && f.type.name === "Bool"`. */
  predicate IsBoolField(f: Field) {
    var t := Get(f, "type");
    t.Truthy() && Prop(t, "name") == Str("Bool")
  }

  /**
   * What `get_state_form` does to one field in place: `required` becomes
   * false, and a Bool field is shown with the `tristate` fieldview.
   */
  function NormaliseField(f: Field): (g: Field)
    ensures Get(g, "required") == Bool(false)
    ensures Get(g, "fieldview") == if IsBoolField(f) then Str("tristate") else Get(f, "fieldview")
    ensures forall k :: k in f && k != "required" && k != "fieldview" ==> k in g && g[k] == f[k]
    ensures g.Keys == f.Keys + {"required"} + (if IsBoolField(f) then {"fieldview"} else {})
  {
    var g := f["required" := Bool(false)];
    if IsBoolField(g) then g["fieldview" := Str("tristate")] else g
  }

  /** Normalising an already normalised field changes nothing. */
  lemma NormaliseFieldIdempotent(f: Field)
    ensures NormaliseField(NormaliseField(f)) == NormaliseField(f)
  {
  }

  /** The `Form` that `get_state_form` builds. */
  datatype StateForm = StateForm(
    methodGET: bool,
    action: string,
    fields: seq<Field>,
    submitLabel: string,
    isStateForm: bool,
    values: Object)

  /**
   * `view.get_state_form(query)`: `null` when the template does not display
   * a state form; otherwise a GET form to `/view/<name>` over the
   * normalised state fields, filled with the non-empty query values.
   */
  method GetStateForm(v: View, query: Object) returns (r: Result<Option<StateForm>>)
    ensures v.viewtemplateObj.None? ==> r == Err(TypeError)
    ensures v.viewtemplateObj.Some? && !v.viewtemplateObj.value.displayStateForm ==> r == Ok(None)
    ensures v.viewtemplateObj.Some? && v.viewtemplateObj.value.displayStateForm && StateFields(v).Err? ==>
              r == Err(StateFields(v).error)
    ensures v.viewtemplateObj.Some? && v.viewtemplateObj.value.displayStateForm && StateFields(v).Ok? ==>
              r.Ok? && r.value.Some?
    ensures r.Ok? && r.value.Some? ==>
              var form := r.value.value;
              var sfs := StateFields(v).value;
              && StateFields(v).Ok?
              && form.methodGET && form.isStateForm && form.submitLabel == "Apply"
              && form.action == "/view/" + v.name
              && form.values == WithoutEmpty(query)
              && |form.fields| == |sfs|
              && (forall i :: 0 <= i < |sfs| ==> form.fields[i] == NormaliseField(sfs[i]))
              && (forall i :: 0 <= i < |sfs| ==> Get(form.fields[i], "required") == Bool(false))
  {
    if v.viewtemplateObj.None? {
      return Err(TypeError);
    }
    if !v.viewtemplateObj.value.displayStateForm {
      return Ok(None);
    }
    var sfs := StateFields(v);
    if sfs.Err? {
      return Err(sfs.error);
    }
    var fields := sfs.value;
    var i := 0;
    while i < |fields|
      invariant 0 <= i <= |fields| == |sfs.value|
      invariant forall j :: 0 <= j < i ==> fields[j] == NormaliseField(sfs.value[j])
      invariant forall j :: i <= j < |fields| ==> fields[j] == sfs.value[j]
    {
      fields := fields[i := NormaliseField(fields[i])];
      i := i + 1;
    }
    var values := RemoveEmptyStrings(query);
    r := Ok(Some(StateForm(true, "/view/" + v.name, fields, "Apply", true, values)));
  }

  // ---------------------------------------------------------------------
  // run / runPost
  // ---------------------------------------------------------------------

  /** The arguments `run` passes to the template's `run`. */
  datatype RunCall = RunCall(tableId: Value, name: string, configuration: Value, query: Object, extraArgs: Value)

  /** The arguments `runPost` passes to the template's `runPost`. */
  datatype RunPostCall =
    RunPostCall(tableId: Value, name: string, configuration: Value, query: Object, body: Object, extraArgs: Value)

  /**
   * `view.run(query, extraArgs)`: the template is called with the view's
   * table id, name and configuration and the query without empty values.
   */
  method Run(v: View, query: Object, extraArgs: Value) returns (r: Result<RunCall>)
    ensures r.Ok? <==> v.viewtemplateObj.Some? && v.viewtemplateObj.value.hasRun
    ensures r.Err? ==> r.error == TypeError
    ensures r.Ok? ==> r.value.tableId == v.TableIdValue() && r.value.name == v.name
                      && r.value.configuration == v.configuration && r.value.extraArgs == extraArgs
    ensures r.Ok? ==> r.value.query == WithoutEmpty(query)
  {
    if v.viewtemplateObj.None? {
      return Err(TypeError);
    }
    var q := RemoveEmptyStrings(query);
    if !v.viewtemplateObj.value.hasRun {
      return Err(TypeError);
    }
    r := Ok(RunCall(v.TableIdValue(), v.name, v.configuration, q, extraArgs));
  }

  /**
   * `view.runPost(query, body, extraArgs)`: as `run`, with the request body
   * cleaned the same way as the query.
   */
  method RunPost(v: View, query: Object, body: Object, extraArgs: Value) returns (r: Result<RunPostCall>)
    ensures r.Ok? <==> v.viewtemplateObj.Some? && v.viewtemplateObj.value.hasRunPost
    ensures r.Err? ==> r.error == TypeError
    ensures r.Ok? ==> r.value.tableId == v.TableIdValue() && r.value.name == v.name
                      && r.value.configuration == v.configuration && r.value.extraArgs == extraArgs
    ensures r.Ok? ==> r.value.query == WithoutEmpty(query) && r.value.body == WithoutEmpty(body)
  {
    if v.viewtemplateObj.None? {
      return Err(TypeError);
    }
    var q := RemoveEmptyStrings(query);
    var b := RemoveEmptyStrings(body);
    if !v.viewtemplateObj.value.hasRunPost {
      return Err(TypeError);
    }
    r := Ok(RunPostCall(v.TableIdValue(), v.name, v.configuration, q, b, extraArgs));
  }

  // ---------------------------------------------------------------------
  // get_config_flow
  // ---------------------------------------------------------------------

  /**
   * The action `get_config_flow` gives the template's workflow. A view
   * without a template, or a template without `configuration_workflow`,
   * throws a `TypeError`.
   */
  function ConfigFlowAction(v: View): (r: Result<string>)
    ensures r.Ok? <==> v.viewtemplateObj.Some? && v.viewtemplateObj.value.hasConfigurationWorkflow
    ensures r.Err? ==> r.error == TypeError
    ensures r.Ok? ==> r.value == "/viewedit/config/" + v.name
    ensures r.Ok? ==> |r.value| == 17 + |v.name| && r.value[17..] == v.name
  {
    if v.viewtemplateObj.None? || !v.viewtemplateObj.value.hasConfigurationWorkflow then Err(TypeError)
    else Ok("/viewedit/config/" + v.name)
  }

  /** The configuration `onDone` saves: the workflow's result without `table_id`. */
  function WithoutTableId(c: Object): (r: Object)
    ensures r.Keys == c.Keys - {"table_id"}
    ensures forall k :: k in r ==> r[k] == c[k]
  {
    c - {"table_id"}
  }

  /** The previous `onDone` of the workflow, or the identity when it has none. */
  function PreviousOnDone(oldOnDone: Option<Object -> Object>, ctx: Object): (c: Object) {
    if oldOnDone.Some? then oldOnDone.value(ctx) else ctx
  }
}
