/**
 * The product form (components/ProductModal.tsx): raw text fields, their
 * per-field validation, the normalised payload handed to `onSave`, the
 * error-clearing edit handler, and the two effects that prefill or reset the
 * form when its props change.
 */
module ProductModal {
  import opened Wrappers
  import opened Api
  import opened Text

  datatype Field = Name | UnitPrice | Quantity

  /** The text of the three inputs (`formData`). */
  datatype FormData = FormData(name: string, unitPrice: string, quantity: string) {

    function Get(f: Field): string
    {
      match f
      case Name => name
      case UnitPrice => unitPrice
      case Quantity => quantity
    }

    function Set(f: Field, v: string): FormData
    {
      match f
      case Name => this.(name := v)
      case UnitPrice => this.(unitPrice := v)
      case Quantity => this.(quantity := v)
    }
  }

  /**
   * `errors`: a record whose keys are field names. A key may be present with
   * an empty message; `None` is an absent key.
   */
  datatype Errors = Errors(name: Option<string>, unitPrice: Option<string>, quantity: Option<string>) {

    function Get(f: Field): Option<string>
    {
      match f
      case Name => name
      case UnitPrice => unitPrice
      case Quantity => quantity
    }

    function Set(f: Field, v: string): Errors
    {
      match f
      case Name => this.(name := Some(v))
      case UnitPrice => this.(unitPrice := Some(v))
      case Quantity => this.(quantity := Some(v))
    }

    /** `Object.keys(errors).length === 0`. */
    predicate IsEmpty()
    {
      name.None? && unitPrice.None? && quantity.None?
    }
  }

  const NoErrors: Errors := Errors(None, None, None)

  /** The component's state. */
  datatype Form = Form(data: FormData, errors: Errors, isSubmitting: bool)

  /** The component's props that its effects depend on. */
  datatype Props = Props(isOpen: bool, product: Option<Product>)

  const Blank: FormData := FormData("", "", "")

  const NameRequired: string := "Product name is required"
  const InvalidPrice: string := "Please enter a valid price"
  const InvalidQuantity: string := "Please enter a valid quantity"

  /**
   * JavaScript's `parseFloat`, `parseInt` and `Number.prototype.toString`,
   * supplied by the caller; a parse that yields `NaN` is `None`.
   */
  datatype NumberCodec = NumberCodec(
    parseFloat: string -> Option<real>,
    parseInt: string -> Option<int>,
    realToString: real -> string,
    intToString: int -> string)

  /**
   * The price and quantity texts the codec writes are not empty and parse
   * back to the same numbers. JavaScript gives this for finite doubles and
   * safe integers; it fails, for one, on quantity 1e21, whose text "1e+21"
   * `parseInt` reads as 1.
   */
  predicate ParsesBack(c: NumberCodec, unitPrice: real, quantity: int)
  {
    && c.realToString(unitPrice) != "" && c.parseFloat(c.realToString(unitPrice)) == Some(unitPrice)
    && c.intToString(quantity) != "" && c.parseInt(c.intToString(quantity)) == Some(quantity)
  }

  /** The message `errors[f]` is truthy, so the field is drawn in red with its message. */
  predicate ShowsError(form: Form, f: Field)
  {
    form.errors.Get(f).Some? && form.errors.Get(f).value != ""
  }

  predicate NameAccepted(d: FormData)
  {
    Trim(d.name) != ""
  }

  predicate PriceAccepted(d: FormData, c: NumberCodec)
  {
    d.unitPrice != "" && c.parseFloat(d.unitPrice).Some? && c.parseFloat(d.unitPrice).value > 0.0
  }

  predicate QuantityAccepted(d: FormData, c: NumberCodec)
  {
    d.quantity != "" && c.parseInt(d.quantity).Some? && c.parseInt(d.quantity).value >= 0
  }

  /** The message `validateForm` records for a field it rejects. */
  function Message(f: Field): string
  {
    match f
    case Name => NameRequired
    case UnitPrice => InvalidPrice
    case Quantity => InvalidQuantity
  }

  /** The error for one field's verdict: its message when rejected, no key when accepted. */
  function Check(accepted: bool, f: Field): (e: Option<string>)
    ensures e.None? <==> accepted
    ensures e.Some? ==> e.value == Message(f) && e.value != ""
  {
    if accepted then None else Some(Message(f))
  }

  /** The error record `validateForm` builds from scratch. */
  function Validate(d: FormData, c: NumberCodec): (e: Errors)
    ensures e.name.Some? <==> IsBlank(d.name)
    ensures e.unitPrice.Some? <==> d.unitPrice == "" || c.parseFloat(d.unitPrice).None? || c.parseFloat(d.unitPrice).value <= 0.0
    ensures e.quantity.Some? <==> d.quantity == "" || c.parseInt(d.quantity).None? || c.parseInt(d.quantity).value < 0
    ensures forall f :: e.Get(f).Some? ==> e.Get(f).value == Message(f)
    ensures forall f :: e.Get(f).Some? ==> e.Get(f).value != ""
  {
    Errors(Check(NameAccepted(d), Name), Check(PriceAccepted(d, c), UnitPrice), Check(QuantityAccepted(d, c), Quantity))
  }

  datatype Validation = Validation(form: Form, valid: bool)

  /** `validateForm`: replaces the whole error map and reports whether it came out empty. */
  function ValidateForm(form: Form, c: NumberCodec): (r: Validation)
    ensures r.valid <==> NameAccepted(form.data) && PriceAccepted(form.data, c) && QuantityAccepted(form.data, c)
    ensures r.valid <==> r.form.errors.IsEmpty()
    ensures forall f :: ShowsError(r.form, f) <==> Validate(form.data, c).Get(f).Some?
    ensures r.form.errors == Validate(form.data, c)
    ensures r.form.data == form.data && r.form.isSubmitting == form.isSubmitting
  {
    var e := Validate(form.data, c);
    Validation(form.(errors := e), e.IsEmpty())
  }

  /** The first half of `handleSubmit`, up to the awaited `onSave`. */
  datatype SubmitStart =
    | Blocked(form: Form)
    | Saving(form: Form, payload: ProductInput)

  /**
   * `handleSubmit` before `onSave` settles: on a failed validation it stops
   * with the new errors; otherwise it raises `isSubmitting` and sends the
   * trimmed name and the parsed numbers.
   */
  function BeginSubmit(form: Form, c: NumberCodec): (r: SubmitStart)
    ensures r.Saving? <==> ValidateForm(form, c).valid
    ensures r.form.data == form.data && r.form.errors == Validate(form.data, c)
    ensures r.Blocked? ==> r.form.isSubmitting == form.isSubmitting
    ensures r.Saving? ==> r.form.isSubmitting
    ensures r.Saving? ==>
      && r.payload.name == Trim(form.data.name)
      && c.parseFloat(form.data.unitPrice) == Some(r.payload.unitPrice)
      && c.parseInt(form.data.quantity) == Some(r.payload.quantity)
    ensures r.Saving? ==>
      r.payload.name != "" && IsTrimmed(r.payload.name) && r.payload.unitPrice > 0.0 && r.payload.quantity >= 0
  {
    var v := ValidateForm(form, c);
    if !v.valid then Blocked(v.form)
    else
      Saving(v.form.(isSubmitting := true),
             ProductInput(Trim(form.data.name),
                          c.parseFloat(form.data.unitPrice).value,
                          c.parseInt(form.data.quantity).value))
  }

  /**
   * The `finally` of `handleSubmit`: whether `onSave` resolved or threw,
   * `isSubmitting` drops and nothing else changes.
   */
  function FinishSubmit(form: Form, saveThrew: bool): (r: Form)
    ensures !r.isSubmitting
    ensures r.data == form.data && r.errors == form.errors
  {
    form.(isSubmitting := false)
  }

  /**
   * `handleInputChange`: the field takes the new text; its error is blanked
   * only when one was showing, and every other field and error is kept.
   */
  function EditField(form: Form, f: Field, v: string): (r: Form)
    ensures r.data.Get(f) == v
    ensures forall g :: g != f ==> r.data.Get(g) == form.data.Get(g)
    ensures !ShowsError(r, f)
    ensures !ShowsError(form, f) ==> r.errors == form.errors
    ensures ShowsError(form, f) ==> r.errors.Get(f) == Some("")
    ensures forall g :: g != f ==> r.errors.Get(g) == form.errors.Get(g)
    ensures r.isSubmitting == form.isSubmitting
  {
    var d := form.data.Set(f, v);
    if ShowsError(form, f) then Form(d, form.errors.Set(f, ""), form.isSubmitting)
    else form.(data := d)
  }

  /** Editing one field never changes whether another field passes validation. */
  lemma EditKeepsOtherVerdicts(form: Form, f: Field, v: string, c: NumberCodec)
    ensures forall g :: g != f ==>
      Validate(EditField(form, f, v).data, c).Get(g) == Validate(form.data, c).Get(g)
  {
  }

  /**
   * A whole submit: `isSubmitting` is up exactly while `onSave` runs, and
   * afterwards the form is the same whether the save resolved or threw.
   */
  lemma SubmitCycle(form: Form, c: NumberCodec, saveThrew: bool)
    requires BeginSubmit(form, c).Saving?
    ensures BeginSubmit(form, c).form.isSubmitting
    ensures FinishSubmit(BeginSubmit(form, c).form, saveThrew) == Form(form.data, NoErrors, false)
  {
  }

  /** The inputs' text for an existing product. */
  function FromProduct(p: Product, c: NumberCodec): FormData
  {
    FormData(p.name, c.realToString(p.unitPrice), c.intToString(p.quantity))
  }

  /** The first effect: fill the fields from the product, or empty them; errors are left alone. */
  function PrefillEffect(form: Form, product: Option<Product>, c: NumberCodec): (r: Form)
    ensures product.Some? ==> r.data == FromProduct(product.value, c)
    ensures product.Some? && ParsesBack(c, product.value.unitPrice, product.value.quantity) ==>
      c.parseFloat(r.data.unitPrice) == Some(product.value.unitPrice) && c.parseInt(r.data.quantity) == Some(product.value.quantity)
    ensures product.None? ==> r.data == Blank
    ensures r.errors == form.errors && r.isSubmitting == form.isSubmitting
  {
    match product
    case Some(p) => form.(data := FromProduct(p, c))
    case None => form.(data := Blank)
  }

  /** The second effect: an open form with no product gets empty fields and no errors. */
  function ResetEffect(form: Form, props: Props): (r: Form)
    ensures props.isOpen && props.product.None? ==> r.data == Blank && r.errors == NoErrors
    ensures !(props.isOpen && props.product.None?) ==> r.data == form.data && r.errors == form.errors
    ensures r.isSubmitting == form.isSubmitting
  {
    if props.isOpen && props.product.None? then form.(data := Blank, errors := NoErrors)
    else form
  }

  /**
   * The effects React runs after the props change from `before` to `after`,
   * in declaration order, each only when one of its dependencies changed.
   */
  function AfterPropsChange(form: Form, before: Props, after: Props, c: NumberCodec): (r: Form)
    ensures before.product != after.product && after.product.Some? ==> r.data == FromProduct(after.product.value, c)
    ensures before.product != after.product && after.product.None? ==> r.data == Blank
    ensures before != after && after.isOpen && after.product.None? ==> r.errors == NoErrors && r.data == Blank
    ensures !(before != after && after.isOpen && after.product.None?) ==> r.errors == form.errors
    ensures before.product == after.product && !(before != after && after.isOpen && after.product.None?) ==> r.data == form.data
    ensures r.isSubmitting == form.isSubmitting
  {
    var f1 := if before.product != after.product then PrefillEffect(form, after.product, c) else form;
    if before != after then ResetEffect(f1, after) else f1
  }

  /** Opening the form for a new product empties every field and every error. */
  lemma OpenForAddResets(form: Form, c: NumberCodec)
    ensures AfterPropsChange(form, Props(false, None), Props(true, None), c) == Form(Blank, NoErrors, form.isSubmitting)
  {
  }

  /**
   * Opening the form for an existing product prefills it; the errors of any
   * earlier session are kept, since only the no-product branch resets them.
   */
  lemma OpenForEditPrefills(form: Form, p: Product, c: NumberCodec)
    ensures AfterPropsChange(form, Props(false, None), Props(true, Some(p)), c) == Form(FromProduct(p, c), form.errors, form.isSubmitting)
  {
  }

  /**
   * Submitting a prefilled form unchanged: it is accepted exactly when the
   * name is not blank and the number texts pass validation, and it sends back
   * exactly the product's fields exactly when its name is already trimmed and
   * both numbers parse back from their text.
   */
  lemma PrefillThenSubmit(form: Form, p: Product, c: NumberCodec)
    ensures var d := FromProduct(p, c);
      BeginSubmit(PrefillEffect(form, Some(p), c), c).Saving? <==>
        !IsBlank(p.name) && PriceAccepted(d, c) && QuantityAccepted(d, c)
    ensures var r := BeginSubmit(PrefillEffect(form, Some(p), c), c);
      r.Saving? ==>
        (r.payload == Fields(p) <==>
          Trim(p.name) == p.name
          && c.parseFloat(c.realToString(p.unitPrice)) == Some(p.unitPrice)
          && c.parseInt(c.intToString(p.quantity)) == Some(p.quantity))
  {
  }

  /**
   * A product with a trimmed, non-empty name, a positive price and a
   * quantity that is not negative, whose numbers parse back from their text,
   * re-submits exactly its own fields.
   */
  lemma PrefillThenSubmitRoundTrips(form: Form, p: Product, c: NumberCodec)
    requires ParsesBack(c, p.unitPrice, p.quantity)
    requires p.name != "" && IsTrimmed(p.name) && p.unitPrice > 0.0 && p.quantity >= 0
    ensures BeginSubmit(PrefillEffect(form, Some(p), c), c) == Saving(Form(FromProduct(p, c), NoErrors, true), Fields(p))
  {
  }

  /**
   * A product whose fields came from a successful submit re-opens for editing
   * and, submitted unchanged, sends the very same payload, as long as the
   * payload's numbers parse back from their text.
   */
  lemma SavedProductResubmitsUnchanged(form: Form, c: NumberCodec, id: int, other: Form)
    requires BeginSubmit(form, c).Saving?
    requires ParsesBack(c, BeginSubmit(form, c).payload.unitPrice, BeginSubmit(form, c).payload.quantity)
    ensures var input := BeginSubmit(form, c).payload;
      BeginSubmit(PrefillEffect(other, Some(Product(id, input.name, input.unitPrice, input.quantity)), c), c).payload == input
  {
  }
}
