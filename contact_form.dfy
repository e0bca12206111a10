/**
 * The contact section's form state: field values, the error map, the
 * submitting flag and the touched flag, with the four events that change
 * them and the selectors the markup reads.
 */
module ContactForm {
  import opened Text
  import opened Validation

  /** The border an input shows. */
  datatype Border = ErrorBorder | SuccessBorder | NeutralBorder

  /** The class name each border contributes to an input; only the neutral
      border adds none. */
  function BorderClass(b: Border): (cls: string)
    ensures cls == [] <==> b == NeutralBorder
  {
    match b
    case ErrorBorder => "border-red-500"
    case SuccessBorder => "border-green-500"
    case NeutralBorder => ""
  }

  /** The submit button's label while a submission is in progress. */
  const SENDING_LABEL: string := "Wysyłanie..."

  /** The map frame's source: the configured embed URL when it is non-empty
      (a truthy string), otherwise the fallback built from the maps embed
      address `prefix` and the address passed through the URI-component
      encoder `encode`. Either way the frame gets a non-empty source. */
  function MapEmbedSrc(mapEmbedUrl: string, prefix: string, address: string,
                       encode: string -> string): (src: string)
    requires prefix != []
    ensures mapEmbedUrl != [] ==> src == mapEmbedUrl
    ensures mapEmbedUrl == [] ==> src == prefix + encode(address)
    ensures src != []
  {
    if mapEmbedUrl != [] then mapEmbedUrl else prefix + encode(address)
  }

  /** The text inputs that carry a border class: name, e-mail and message
      (the phone and subject inputs have none). */
  type BorderedField = f: Field | f == Name || f == Email || f == Message witness Name

  class ContactSection {
    var formData: FormData
    var formErrors: map<Field, string>
    var isSubmitting: bool
    var formTouched: bool

    /** Every error shown is one of the validator's messages, on a field that
        the validator would flag for the current record, and no error is shown
        while a submission is in progress. */
    ghost predicate Valid()
      reads this
    {
      && formErrors.Keys <= Errors(formData).Keys
      && (forall f :: f in formErrors ==> formErrors[f] != [])
      && (forall f :: f in formErrors ==> formErrors[f] in MESSAGES)
      && (isSubmitting ==> formErrors == map[])
    }

    /** The state on mount: the initial record, no errors, idle, untouched. */
    constructor ()
      ensures Valid()
      ensures formData == INITIAL && formErrors == map[]
      ensures !isSubmitting && !formTouched
    {
      formData := INITIAL;
      formErrors := map[];
      isSubmitting := false;
      formTouched := false;
    }

    /** `formErrors[f]` is truthy: present and not "". */
    predicate HasError(f: Field)
      reads this
      ensures Valid() ==> (HasError(f) <==> f in formErrors)
    {
      f in formErrors && formErrors[f] != []
    }

    /** The border of a text input: red while the field has an error, green
        once the form is touched and the raw value is non-empty, else none.
        In a valid state a red border means the field fails validation right
        now; a green one does not mean it passes. */
    function FieldBorder(f: BorderedField): (b: Border)
      reads this
      ensures b == SuccessBorder ==> formTouched && formData.Get(f) != []
      ensures Valid() ==> (b == ErrorBorder <==> f in formErrors)
      ensures Valid() && b == ErrorBorder ==> ErrorOf(formData, f).Some?
      ensures Valid() && f !in formErrors && formTouched && formData.Get(f) != [] ==> b == SuccessBorder
    {
      if HasError(f) then ErrorBorder
      else if formTouched && formData.Get(f) != [] then SuccessBorder
      else NeutralBorder
    }

    /** The submit button is disabled while a submission is in progress. */
    function SubmitDisabled(): (disabled: bool)
      reads this
      ensures disabled <==> isSubmitting
    {
      isSubmitting
    }

    /** The submit button's label; `submitButton` is the configured text. */
    function SubmitLabel(submitButton: string): (caption: string)
      reads this
      ensures isSubmitting ==> caption == SENDING_LABEL
      ensures !isSubmitting ==> caption == submitButton
    {
      if isSubmitting then SENDING_LABEL else submitButton
    }

    /** The validator: builds the error map check by check. */
    method Validate() returns (errors: map<Field, string>)
      ensures errors == Errors(formData)
      ensures errors == map[] <==> Passes(formData)
    {
      var d := formData;
      // the checks are pure, so they may be evaluated before the map is built
      var nameBlank := IsBlank(d.name);
      var emailBlank := IsBlank(d.email);
      var emailOk := EmailPattern(d.email);
      var messageBlank := IsBlank(d.message);
      errors := map[];
      if nameBlank {
        errors := errors[Name := NAME_REQUIRED];
      }
      if emailBlank {
        errors := errors[Email := EMAIL_REQUIRED];
      } else if !emailOk {
        errors := errors[Email := EMAIL_INVALID];
      }
      if messageBlank {
        errors := errors[Message := MESSAGE_REQUIRED];
      }
      if !d.gdprConsent {
        errors := errors[GdprConsent := CONSENT_REQUIRED];
      }
      ChecksDetermineErrors(d, errors);
      ErrorsEmptyIff(d);
    }

    /** A text input's change event: the field takes the new value, the form
        becomes touched, and that field's error, and only that one, is
        cleared. */
    method HandleChange(f: TextField, value: string)
      requires Valid()
      modifies this
      ensures Valid()
      ensures formData == old(formData).With(f, value)
      ensures formErrors == old(formErrors) - {f}
      ensures formTouched
      ensures isSubmitting == old(isSubmitting)
      ensures f == Name || f == Email || f == Message ==>
        FieldBorder(f) == if value == [] then NeutralBorder else SuccessBorder
    {
      var hadError := HasError(f);
      EditKeepsOtherErrors(formData, f, value, formErrors);
      formData := formData.With(f, value);
      formTouched := true;
      if hadError {
        formErrors := formErrors - {f};
      } else {
        RemoveAbsent(formErrors, f);
      }
    }

    /** The consent checkbox's change event: the same, for `gdprConsent`. */
    method HandleCheckboxChange(checked: bool)
      requires Valid()
      modifies this
      ensures Valid()
      ensures formData == old(formData).(gdprConsent := checked)
      ensures formErrors == old(formErrors) - {GdprConsent}
      ensures formTouched
      ensures isSubmitting == old(isSubmitting)
    {
      var hadError := HasError(GdprConsent);
      ConsentEditKeepsOtherErrors(formData, checked, formErrors);
      formData := formData.(gdprConsent := checked);
      formTouched := true;
      if hadError {
        formErrors := formErrors - {GdprConsent};
      } else {
        RemoveAbsent(formErrors, GdprConsent);
      }
    }

    /** The form's submit event. A failing record replaces the error map by
        the validator's; a passing one only starts the submission (its error
        map is already empty). Nothing else changes. The event needs an idle
        form: the only submit control is disabled while submitting. */
    method HandleSubmit()
      requires Valid()
      requires !isSubmitting
      modifies this
      ensures Valid()
      ensures formData == old(formData) && formTouched == old(formTouched)
      ensures Passes(formData) ==> isSubmitting && formErrors == old(formErrors) == map[]
      ensures !Passes(formData) ==> formErrors == Errors(formData) && isSubmitting == old(isSubmitting)
      ensures Passes(formData) ==> SubmitDisabled() && forall t :: SubmitLabel(t) == SENDING_LABEL
      ensures forall g: BorderedField :: ErrorOf(formData, g).Some? ==> FieldBorder(g) == ErrorBorder
    {
      var errors := Validate();
      if |errors| == 0 {
        isSubmitting := true;
      } else {
        ErrorValuesKnown(formData);
        formErrors := errors;
      }
      ErrorsEmptyIff(formData);
    }

    /** The deferred completion of a submission: the record and the touched
        flag go back to their initial values and the submission ends. The
        error map is left as it is. */
    method CompleteSubmission()
      requires Valid()
      modifies this
      ensures Valid()
      ensures formData == INITIAL
      ensures !formTouched && !isSubmitting
      ensures formErrors == old(formErrors)
      ensures old(isSubmitting) ==> formErrors == map[]
      ensures !SubmitDisabled()
      ensures forall g: BorderedField :: FieldBorder(g) != SuccessBorder
    {
      ErrorKeysChecked(formData);
      InitialErrors();
      formData := INITIAL;
      formTouched := false;
      isSubmitting := false;
    }
  }

  /** Submitting the untouched form flags the four required fields and does
      not start a submission. */
  method SubmitBlankForm() returns (errors: map<Field, string>, submitting: bool)
    ensures errors == map[
      Name := NAME_REQUIRED, Email := EMAIL_REQUIRED,
      Message := MESSAGE_REQUIRED, GdprConsent := CONSENT_REQUIRED]
    ensures !submitting
  {
    var form := new ContactSection();
    InitialErrors();
    form.HandleSubmit();
    errors, submitting := form.formErrors, form.isSubmitting;
  }

  /** After a blank submission, typing a name clears the name's error and
      leaves the other three. */
  method EditAfterBlankSubmit() returns (errors: map<Field, string>)
    ensures errors == map[
      Email := EMAIL_REQUIRED, Message := MESSAGE_REQUIRED, GdprConsent := CONSENT_REQUIRED]
  {
    var form := new ContactSection();
    InitialErrors();
    form.HandleSubmit();
    form.HandleChange(Name, "Anna");
    errors := form.formErrors;
    DropNameError();
  }

  /** The four "required" errors without the name's are the other three. */
  lemma DropNameError()
    ensures map[Name := NAME_REQUIRED, Email := EMAIL_REQUIRED,
                Message := MESSAGE_REQUIRED, GdprConsent := CONSENT_REQUIRED] - {Name}
         == map[Email := EMAIL_REQUIRED, Message := MESSAGE_REQUIRED, GdprConsent := CONSENT_REQUIRED]
  {
  }

  /** Filling in the form and submitting it starts a submission; its
      completion leaves the initial record, no errors, and an idle,
      untouched form. */
  method SubmitSampleForm() returns (startedSending: bool, data: FormData,
                                     errors: map<Field, string>, touched: bool, sending: bool)
    ensures startedSending
    ensures data == INITIAL && errors == map[] && !touched && !sending
  {
    var form := new ContactSection();
    form.HandleChange(Name, "Anna");
    form.HandleChange(Email, "a@b.co");
    form.HandleChange(Message, "Hello");
    form.HandleCheckboxChange(true);
    assert form.formData == FormData("Anna", "a@b.co", "", "", "Hello", true);
    SampleRecordPasses();
    ErrorsEmptyIff(form.formData);
    form.HandleSubmit();
    startedSending := form.isSubmitting;
    form.CompleteSubmission();
    data, errors, touched, sending := form.formData, form.formErrors, form.formTouched, form.isSubmitting;
  }
}
