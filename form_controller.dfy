/**
 * The order form component: its state (values, per-field error messages, the
 * two server banners and whether submission is enabled), how an input event
 * changes that state, and what a submission does with the server's answer.
 */
module FormController {
  import opened FormSchema
  import opened Confirmation

  datatype Option<T> = None | Some(value: T) {
    function GetOr(default: T): T {
      match this
      case Some(v) => v
      case None => default
    }
  }

  /** A topping the form offers: its id is what the checkbox submits. */
  datatype ToppingOption = ToppingOption(id: string, text: string)

  const Toppings: seq<ToppingOption> := [
    ToppingOption("1", "Pepperoni"),
    ToppingOption("2", "Green Peppers"),
    ToppingOption("3", "Pineapple"),
    ToppingOption("4", "Mushrooms"),
    ToppingOption("5", "Ham")
  ]

  predicate InCatalog(id: string) {
    exists k :: 0 <= k < |Toppings| && Toppings[k].id == id
  }

  /** The catalog offers the ids "1" to "5", each once. */
  lemma CatalogIds()
    ensures forall i, j :: 0 <= i < j < |Toppings| ==> Toppings[i].id != Toppings[j].id
    ensures forall id :: InCatalog(id) <==> id in {"1", "2", "3", "4", "5"}
  {
    assert Toppings[0].id == "1" && Toppings[1].id == "2" && Toppings[2].id == "3";
    assert Toppings[3].id == "4" && Toppings[4].id == "5";
  }

  /**
   * What a change event carries: a checkbox reports its name, its value and
   * whether it is now checked; the text input and the size select report the
   * field they edit (their name is that field's key) and the new value.
   */
  datatype ChangeEvent =
    | Checkbox(name: string, value: string, checked: bool)
    | Input(field: Field, value: string)

  /**
   * The schema field a change event re-validates: the one its name is the key
   * of. A checkbox named after a field re-validates that field too; one named
   * "toppings" or anything else re-validates no field.
   */
  function ValidatedField(evt: ChangeEvent): (r: Option<Field>)
    ensures evt.Input? ==> r == Some(evt.field)
    ensures evt.Checkbox? ==> (r.Some? <==> evt.name == FieldName(FullName) || evt.name == FieldName(Size))
    ensures evt.Checkbox? && r.Some? ==> FieldName(r.value) == evt.name
  {
    match evt
    case Input(field, _) => Some(field)
    case Checkbox(name, _, _) =>
      if name == FieldName(FullName) then Some(FullName)
      else if name == FieldName(Size) then Some(Size)
      else None
  }

  /** The error message shown under each field; "" shows none. */
  datatype FieldErrors = FieldErrors(fullName: string, size: string)

  function InitialErrors(): (e: FieldErrors)
    ensures ErrorOf(e, FullName) == "" && ErrorOf(e, Size) == ""
  {
    FieldErrors("", "")
  }

  function ErrorOf(e: FieldErrors, f: Field): string {
    match f
    case FullName => e.fullName
    case Size => e.size
  }

  /** How the order post ended: accepted, refused with the body's message (if any), or no response at all. */
  datatype PostOutcome = Accepted | Rejected(message: Option<string>) | NoResponse

  /** The list with every occurrence of `id` filtered out, the others kept in order. */
  function Without(ids: seq<string>, id: string): (r: seq<string>)
    ensures id !in r
    ensures multiset(r) == multiset(ids)[id := 0]
  {
    if ids == [] then []
    else
      assert ids == [ids[0]] + ids[1..];
      (if ids[0] == id then [] else [ids[0]]) + Without(ids[1..], id)
  }

  /** Filtering distributes over concatenation, so the kept ids stay in their order. */
  lemma {:induction false} WithoutConcat(a: seq<string>, b: seq<string>, id: string)
    ensures Without(a + b, id) == Without(a, id) + Without(b, id)
  {
    if a == [] {
      assert a + b == b;
    } else {
      assert (a + b)[0] == a[0];
      assert (a + b)[1..] == a[1..] + b;
      WithoutConcat(a[1..], b, id);
    }
  }

  /** Filtering out an id that is not there changes nothing. */
  lemma {:induction false} WithoutAbsent(ids: seq<string>, id: string)
    requires id !in ids
    ensures Without(ids, id) == ids
  {
    if ids != [] {
      assert ids[0] != id && id !in ids[1..];
      WithoutAbsent(ids[1..], id);
      assert Without(ids, id) == [ids[0]] + ids[1..];
    }
  }

  /** Filtering keeps a list of distinct ids distinct. */
  lemma {:induction false} WithoutKeepsDistinct(ids: seq<string>, id: string)
    requires Distinct(ids)
    ensures Distinct(Without(ids, id))
  {
    if ids != [] {
      WithoutKeepsDistinct(ids[1..], id);
      var rest := Without(ids[1..], id);
      assert ids[0] !in multiset(ids[1..]) by {
        assert forall j :: 1 <= j < |ids| ==> ids[j] != ids[0];
      }
      assert ids[0] !in rest by {
        assert multiset(rest)[ids[0]] <= multiset(ids[1..])[ids[0]];
      }
    }
  }

  predicate Distinct(ids: seq<string>) {
    forall i, j :: 0 <= i < j < |ids| ==> ids[i] != ids[j]
  }

  /** The values after one change event: only the field the event names changes. */
  function Changed(v: FormValues, evt: ChangeEvent): (r: FormValues)
    ensures evt.Input? ==> r.toppings == v.toppings
    ensures evt.Input? && evt.field == FullName ==> r.fullName == evt.value && r.size == v.size
    ensures evt.Input? && evt.field == Size ==> r.size == evt.value && r.fullName == v.fullName
    ensures evt.Checkbox? ==> r.fullName == v.fullName && r.size == v.size
    ensures evt.Checkbox? && evt.name != "toppings" ==> r == v
    ensures evt.Checkbox? && evt.name == "toppings" && evt.checked ==>
      |r.toppings| == |v.toppings| + 1 && r.toppings[..|v.toppings|] == v.toppings
      && r.toppings[|v.toppings|] == evt.value
    ensures evt.Checkbox? && evt.name == "toppings" && !evt.checked ==>
      evt.value !in r.toppings && multiset(r.toppings) == multiset(v.toppings)[evt.value := 0]
  {
    match evt
    case Checkbox(name, id, checked) =>
      if name != "toppings" then v
      else if checked then v.(toppings := v.toppings + [id])
      else v.(toppings := Without(v.toppings, id))
    case Input(field, value) =>
      if field == FullName then v.(fullName := value) else v.(size := value)
  }

  function Check(id: string): ChangeEvent { Checkbox("toppings", id, true) }
  function Uncheck(id: string): ChangeEvent { Checkbox("toppings", id, false) }

  /** Checking a topping that is not selected and then unchecking it restores the values. */
  lemma CheckThenUncheckRestores(v: FormValues, id: string)
    requires id !in v.toppings
    ensures Changed(Changed(v, Check(id)), Uncheck(id)) == v
  {
    WithoutConcat(v.toppings, [id], id);
    WithoutAbsent(v.toppings, id);
    assert Without([id], id) == [];
  }

  /** Unchecking twice is unchecking once. */
  lemma UncheckIdempotent(v: FormValues, id: string)
    ensures Changed(Changed(v, Uncheck(id)), Uncheck(id)) == Changed(v, Uncheck(id))
  {
    WithoutAbsent(Without(v.toppings, id), id);
  }

  /** The topping list holds catalog ids, each at most once. */
  predicate ToppingsWellFormed(ids: seq<string>) {
    Distinct(ids) && forall i :: 0 <= i < |ids| ==> InCatalog(ids[i])
  }

  /**
   * The events the rendered form can produce: checkboxes are the catalog's,
   * named "toppings", and a click flips the checked state the form shows,
   * which is whether the id is in the list.
   */
  predicate RenderedEvent(v: FormValues, evt: ChangeEvent) {
    evt.Checkbox? ==>
      evt.name == "toppings" && InCatalog(evt.value) && evt.checked == (evt.value !in v.toppings)
  }

  /**
   * The list update itself allows duplicates; events from the rendered
   * checkboxes never create one and never add an id outside the catalog.
   */
  lemma RenderedChangesKeepToppingsWellFormed(v: FormValues, evt: ChangeEvent)
    requires ToppingsWellFormed(v.toppings)
    requires RenderedEvent(v, evt)
    ensures ToppingsWellFormed(Changed(v, evt).toppings)
  {
    var r := Changed(v, evt);
    if evt.Checkbox? && !evt.checked {
      WithoutKeepsDistinct(v.toppings, evt.value);
      forall i | 0 <= i < |r.toppings| ensures InCatalog(r.toppings[i]) {
        assert r.toppings[i] in multiset(r.toppings);
        assert r.toppings[i] in v.toppings;
      }
    } else if evt.Checkbox? {
      assert r.toppings == v.toppings + [evt.value];
      forall i, j | 0 <= i < j < |r.toppings| ensures r.toppings[i] != r.toppings[j] {
        if j == |v.toppings| { assert r.toppings[i] in v.toppings; }
      }
    }
  }

  /** The order form component's state. */
  class Form {
    var formEnabled: bool
    var values: FormValues
    var errors: FieldErrors
    var serverSuccess: string
    var serverFailure: string

    /** The submit button is enabled exactly when the current values validate. */
    ghost predicate Valid()
      reads this
    {
      formEnabled == IsValid(values)
    }

    constructor ()
      ensures Valid()
      ensures values == InitialValues() && errors == InitialErrors()
      ensures serverSuccess == "" && serverFailure == "" && !formEnabled
    {
      formEnabled := false;
      values := InitialValues();
      errors := InitialErrors();
      serverSuccess := "";
      serverFailure := "";
    }

    /**
     * A change event: updates the values, re-validates the field the event's
     * name selects and recomputes whether submission is enabled.
     */
    method OnChange(evt: ChangeEvent)
      requires Valid()
      modifies this
      ensures Valid()
      ensures values == Changed(old(values), evt)
      ensures ValidatedField(evt).None? ==> errors == old(errors)
      ensures ValidatedField(evt).Some? ==>
        var f := ValidatedField(evt).value;
        var other := if f == FullName then Size else FullName;
        var shown, broken := ErrorOf(errors, f), Violations(f, evt.value);
        && (shown == "" <==> broken == {})
        && (shown != "" ==> shown in broken)
        && ErrorOf(errors, other) == ErrorOf(old(errors), other)
      ensures serverSuccess == old(serverSuccess) && serverFailure == old(serverFailure)
    {
      values := Changed(values, evt);
      var field := ValidatedField(evt);
      if field.Some? {
        var broken := Violations(field.value, evt.value);
        var shown := "";
        if broken != {} {
          shown :| shown in broken;
        }
        errors := if field.value == FullName then errors.(fullName := shown) else errors.(size := shown);
      }
      formEnabled := IsValid(values);
    }

    /**
     * A submission: the confirmation is built from the values as they are
     * before the post; the outcome of the post decides the rest.
     */
    method OnSubmit(outcome: PostOutcome)
      requires Valid()
      modifies this
      ensures Valid()
      ensures errors == old(errors)
      ensures outcome.Accepted? ==>
        && serverSuccess == BuildConfirmationStr(old(values))
        && serverSuccess != ""
        && serverFailure == ""
        && values == InitialValues()
        && !formEnabled
      ensures outcome.Rejected? ==>
        && serverFailure == outcome.message.GetOr("")
        && serverSuccess == ""
        && values == old(values)
      ensures outcome.NoResponse? ==>
        && serverSuccess == old(serverSuccess)
        && serverFailure == old(serverFailure)
        && values == old(values)
    {
      var message := BuildConfirmationStr(values);
      match outcome
      case Accepted =>
        serverSuccess := message;
        serverFailure := "";
        values := InitialValues();
        formEnabled := IsValid(values);
      case Rejected(body) =>
        serverFailure := body.GetOr("");
        serverSuccess := "";
      case NoResponse =>
    }
  }

  /** A customer's session: choose a size, type a name, tick a topping, submit. */
  method OrderSession() returns (form: Form)
    ensures form.serverSuccess == BuildConfirmationStr(FormValues("Ann", "M", ["1"]))
    ensures form.values == InitialValues() && !form.formEnabled
  {
    form := new Form();
    form.OnChange(Input(Size, "M"));
    form.OnChange(Input(FullName, "Ann"));
    form.OnChange(Check("1"));
    form.OnSubmit(Accepted);
  }
}
