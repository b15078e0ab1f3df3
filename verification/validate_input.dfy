/** Validation of the three beam inputs (length, second moment of area,
    Young's modulus), conversion to SI units, and the decision whether the
    beam is shown. A form input is the text of an input box, read as the
    number it coerces to (`Input` below). */
module ValidateInput {
  import opened Common

  // ---------------------------------------------------------------------
  // Unit conversion; `None` is the not-a-number an unknown unit gives

  function ConvertBeamLengthToSI(length: real, unit: string): (r: Option<real>)
    ensures r.Some? <==> unit in {"m", "cm", "mm"}
    ensures unit == "m" ==> r == Some(length)
    ensures unit == "cm" ==> r == Some(length / 100.0)
    ensures unit == "mm" ==> r == Some(length / 1000.0)
  {
    match unit
    case "m" => Some(length)
    case "cm" => Some(length / 100.0)
    case "mm" => Some(length / 1000.0)
    case _ => None
  }

  function ConvertInertiaToSI(inertia: real, unit: string): (r: Option<real>)
    ensures r.Some? <==> unit in {"m^4", "cm^4", "mm^4"}
    ensures unit == "m^4" ==> r == Some(inertia)
    ensures unit == "cm^4" ==> r == Some(inertia / 100000000.0)
    ensures unit == "mm^4" ==> r == Some(inertia / 1000000000000.0)
  {
    match unit
    case "m^4" => Some(inertia)
    case "cm^4" => Some(inertia / (100.0 * 100.0 * 100.0 * 100.0))
    case "mm^4" => Some(inertia / (1000.0 * 1000.0 * 1000.0 * 1000.0))
    case _ => None
  }

  function ConvertModulusToSI(modulus: real, unit: string): (r: Option<real>)
    ensures r.Some? <==> unit in {"GPa", "MPa", "kPa"}
    ensures unit == "GPa" ==> r == Some(modulus * 1000000000.0)
    ensures unit == "MPa" ==> r == Some(modulus * 1000000.0)
    ensures unit == "kPa" ==> r == Some(modulus * 1000.0)
  {
    match unit
    case "GPa" => Some(modulus * 1000000000.0)
    case "MPa" => Some(modulus * 1000000.0)
    case "kPa" => Some(modulus * 1000.0)
    case _ => None
  }

  /** A positive quantity in any known unit is positive in SI units. */
  lemma ConversionKeepsSign(v: real, unit: string)
    requires v > 0.0
    ensures ConvertBeamLengthToSI(v, unit).Some? ==> ConvertBeamLengthToSI(v, unit).value > 0.0
    ensures ConvertInertiaToSI(v, unit).Some? ==> ConvertInertiaToSI(v, unit).value > 0.0
    ensures ConvertModulusToSI(v, unit).Some? ==> ConvertModulusToSI(v, unit).value > 0.0
  {
  }

  /** The units agree with each other: the same physical quantity written
      in different known units has the same SI value. */
  lemma ConversionsAgree(v: real)
    ensures ConvertBeamLengthToSI(100.0 * v, "cm") == ConvertBeamLengthToSI(v, "m")
    ensures ConvertBeamLengthToSI(1000.0 * v, "mm") == ConvertBeamLengthToSI(v, "m")
    ensures ConvertInertiaToSI(100000000.0 * v, "cm^4") == ConvertInertiaToSI(v, "m^4")
    ensures ConvertInertiaToSI(1000000000000.0 * v, "mm^4") == ConvertInertiaToSI(v, "m^4")
    ensures ConvertModulusToSI(1000.0 * v, "MPa") == ConvertModulusToSI(v, "GPa")
    ensures ConvertModulusToSI(1000.0 * v, "kPa") == ConvertModulusToSI(v, "MPa")
  {
  }

  // ---------------------------------------------------------------------
  // Validation

  /** The text of an input box as the validators see it: the empty string,
      text that coerces to the number `n`, or non-empty text that coerces to
      not-a-number (every comparison with which is false). */
  datatype Input = Empty | Number(n: real) | NotANumber

  /** What is remembered of one input: the last accepted value and unit,
      and whether the latest input was valid. */
  datatype Field = Field(value: Option<Input>, unit: Option<string>, validated: bool)

  /** The three inputs of the form. */
  datatype Form = Form(length: Field, inertia: Field, modulus: Field)

  /** Nothing accepted yet and no input valid. */
  function InitialForm(): Form {
    Form(Field(None, None, false), Field(None, None, false), Field(None, None, false))
  }

  /** An input the validators accept: anything but the empty text and a
      number that is not positive. */
  predicate Accepted(input: Input) {
    match input
    case Empty => false
    case Number(v) => v > 0.0
    case NotANumber => true
  }

  /** A field that claims validity holds an accepted value and a unit. */
  predicate Consistent(f: Field) {
    f.validated ==> f.value.Some? && Accepted(f.value.value) && f.unit.Some?
  }

  predicate FormConsistent(form: Form) {
    Consistent(form.length) && Consistent(form.inertia) && Consistent(form.modulus)
  }

  /** A validated field and the message shown next to its input. */
  datatype Checked = Checked(field: Field, message: string)

  /** The shared rule of the three validators, for the quantity named
      `quantity`: an empty input and a non-positive input are rejected with
      their messages and leave the remembered value and unit alone; any
      other input, not-a-number text included, is accepted with an empty
      message. */
  function Validate(f: Field, input: Input, unit: string, quantity: string): (r: Checked)
    ensures r.field.validated <==> r.message == ""
    ensures r.field.validated <==> input.NotANumber? || (input.Number? && input.n > 0.0)
    ensures input.Empty? ==> r.message == quantity + " cannot be empty"
    ensures input.Number? && input.n <= 0.0 ==> r.message == quantity + " must be positive"
    ensures !r.field.validated ==> r.field.value == f.value && r.field.unit == f.unit
    ensures r.field.validated ==> r.field.value == Some(input) && r.field.unit == Some(unit)
    ensures Consistent(r.field)
  {
    match input
    case Empty => Checked(f.(validated := false), quantity + " cannot be empty")
    case Number(v) =>
      if v <= 0.0 then Checked(f.(validated := false), quantity + " must be positive")
      else Checked(Field(Some(input), Some(unit), true), "")
    case NotANumber => Checked(Field(Some(input), Some(unit), true), "")
  }

  /** The result of validating one input of the form. */
  datatype FormChecked = FormChecked(form: Form, message: string)

  function ValidateBeamLength(form: Form, input: Input, unit: string): (r: FormChecked)
    ensures r.form.inertia == form.inertia && r.form.modulus == form.modulus
    ensures r.form.length.validated <==> Accepted(input)
    ensures input.Empty? ==> r.message == "Beam length cannot be empty"
    ensures input.Number? && input.n <= 0.0 ==> r.message == "Beam length must be positive"
    ensures r.form.length.validated ==> r.message == "" && r.form.length.value == Some(input) && r.form.length.unit == Some(unit)
    ensures !r.form.length.validated ==> r.form.length.value == form.length.value && r.form.length.unit == form.length.unit
  {
    var c := Validate(form.length, input, unit, "Beam length");
    FormChecked(form.(length := c.field), c.message)
  }

  function ValidateInertia(form: Form, input: Input, unit: string): (r: FormChecked)
    ensures r.form.length == form.length && r.form.modulus == form.modulus
    ensures r.form.inertia.validated <==> Accepted(input)
    ensures input.Empty? ==> r.message == "Moment of inertia cannot be empty"
    ensures input.Number? && input.n <= 0.0 ==> r.message == "Moment of inertia must be positive"
    ensures r.form.inertia.validated ==> r.message == "" && r.form.inertia.value == Some(input) && r.form.inertia.unit == Some(unit)
    ensures !r.form.inertia.validated ==> r.form.inertia.value == form.inertia.value && r.form.inertia.unit == form.inertia.unit
  {
    var c := Validate(form.inertia, input, unit, "Moment of inertia");
    FormChecked(form.(inertia := c.field), c.message)
  }

  function ValidateModulus(form: Form, input: Input, unit: string): (r: FormChecked)
    ensures r.form.length == form.length && r.form.inertia == form.inertia
    ensures r.form.modulus.validated <==> Accepted(input)
    ensures input.Empty? ==> r.message == "Young's Modulus cannot be empty"
    ensures input.Number? && input.n <= 0.0 ==> r.message == "Young's Modulus must be positive"
    ensures r.form.modulus.validated ==> r.message == "" && r.form.modulus.value == Some(input) && r.form.modulus.unit == Some(unit)
    ensures !r.form.modulus.validated ==> r.form.modulus.value == form.modulus.value && r.form.modulus.unit == form.modulus.unit
  {
    var c := Validate(form.modulus, input, unit, "Young's Modulus");
    FormChecked(form.(modulus := c.field), c.message)
  }

  /** The initial form is consistent and every validator keeps it so,
      whatever the input. */
  lemma ValidatorsPreserveConsistency(form: Form, input: Input, unit: string)
    ensures FormConsistent(InitialForm())
    ensures FormConsistent(form) ==> FormConsistent(ValidateBeamLength(form, input, unit).form)
    ensures FormConsistent(form) ==> FormConsistent(ValidateInertia(form, input, unit).form)
    ensures FormConsistent(form) ==> FormConsistent(ValidateModulus(form, input, unit).form)
  {
  }

  // ---------------------------------------------------------------------
  // Showing the beam

  /** The message sent to the beam view: whether to show the beam, and the
      three quantities in SI units (`None` for not-a-number). */
  datatype Visualisation = Visualisation(show: bool, length: Option<real>, inertia: Option<real>, modulus: Option<real>)

  /** The remembered number of a field, if it holds one. */
  function NumberOf(f: Field): Option<real> {
    if f.value.Some? && f.value.value.Number? then Some(f.value.value.n) else None
  }

  /** Converts a remembered value with its unit; a missing value or unit,
      and not-a-number text, give not-a-number. */
  function FieldToSI(f: Field, convert: (real, string) -> Option<real>): Option<real> {
    if NumberOf(f).Some? && f.unit.Some? then convert(NumberOf(f).value, f.unit.value) else None
  }

  /** The beam is shown only when all three inputs are valid, with the
      remembered values converted to SI; otherwise every quantity is sent
      as not-a-number. */
  function TriggerVisualisation(form: Form): (r: Visualisation)
    ensures r.show <==> form.length.validated && form.inertia.validated && form.modulus.validated
    ensures !r.show ==> r.length.None? && r.inertia.None? && r.modulus.None?
    ensures r.show && NumberOf(form.length).Some? && form.length.unit.Some? ==>
              r.length == ConvertBeamLengthToSI(NumberOf(form.length).value, form.length.unit.value)
    ensures r.show && NumberOf(form.inertia).Some? && form.inertia.unit.Some? ==>
              r.inertia == ConvertInertiaToSI(NumberOf(form.inertia).value, form.inertia.unit.value)
    ensures r.show && NumberOf(form.modulus).Some? && form.modulus.unit.Some? ==>
              r.modulus == ConvertModulusToSI(NumberOf(form.modulus).value, form.modulus.unit.value)
    ensures NumberOf(form.length).None? ==> r.length.None?
    ensures NumberOf(form.inertia).None? ==> r.inertia.None?
    ensures NumberOf(form.modulus).None? ==> r.modulus.None?
  {
    if form.length.validated && form.inertia.validated && form.modulus.validated then
      Visualisation(true, FieldToSI(form.length, ConvertBeamLengthToSI),
                    FieldToSI(form.inertia, ConvertInertiaToSI),
                    FieldToSI(form.modulus, ConvertModulusToSI))
    else
      Visualisation(false, None, None, None)
  }

  /** On a consistent form whose three inputs are valid the beam is shown,
      and each quantity is a number exactly when its input was a number in
      a known unit; every number shown is positive. */
  lemma ShownQuantitiesArePositive(form: Form)
    requires FormConsistent(form)
    requires form.length.validated && form.inertia.validated && form.modulus.validated
    ensures TriggerVisualisation(form).show
    ensures TriggerVisualisation(form).length.Some? <==>
              form.length.value.value.Number? && form.length.unit.value in {"m", "cm", "mm"}
    ensures TriggerVisualisation(form).inertia.Some? <==>
              form.inertia.value.value.Number? && form.inertia.unit.value in {"m^4", "cm^4", "mm^4"}
    ensures TriggerVisualisation(form).modulus.Some? <==>
              form.modulus.value.value.Number? && form.modulus.unit.value in {"GPa", "MPa", "kPa"}
    ensures TriggerVisualisation(form).length.Some? ==> TriggerVisualisation(form).length.value > 0.0
    ensures TriggerVisualisation(form).inertia.Some? ==> TriggerVisualisation(form).inertia.value > 0.0
    ensures TriggerVisualisation(form).modulus.Some? ==> TriggerVisualisation(form).modulus.value > 0.0
  {
    if NumberOf(form.length).Some? {
      ConversionKeepsSign(NumberOf(form.length).value, form.length.unit.value);
    }
    if NumberOf(form.inertia).Some? {
      ConversionKeepsSign(NumberOf(form.inertia).value, form.inertia.unit.value);
    }
    if NumberOf(form.modulus).Some? {
      ConversionKeepsSign(NumberOf(form.modulus).value, form.modulus.unit.value);
    }
  }

  /** Non-numeric text passes validation: it is accepted with no message,
      remembered with its unit, and later sent as not-a-number. */
  lemma TextIsAccepted(form: Form, unit: string)
    ensures ValidateBeamLength(form, NotANumber, unit).message == ""
    ensures ValidateBeamLength(form, NotANumber, unit).form.length == Field(Some(NotANumber), Some(unit), true)
    ensures TriggerVisualisation(ValidateBeamLength(form, NotANumber, unit).form).length.None?
  {
  }
}
