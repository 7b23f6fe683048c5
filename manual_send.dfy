/**
 * The manual-send form: its fields, the error map, the validator with the
 * unanchored email pattern, single-field updates, and the request bodies sent for
 * a preview or a send, whose period has its first character upper-cased.
 */
module ManualSend {
  import opened Wrappers
  import opened JsText

  datatype Field = TenantName | Address | Amount | Email | Period

  datatype Form = Form(tenantName: string, address: string, amount: string, email: string, period: string) {
    /** `formData[name]`. */
    function Get(field: Field): string {
      match field
      case TenantName => tenantName
      case Address => address
      case Amount => amount
      case Email => email
      case Period => period
    }

    /** `{...prev, [name]: value}`. */
    function With(field: Field, value: string): (f: Form)
      ensures f.Get(field) == value
      ensures forall g: Field :: g != field ==> f.Get(g) == Get(g)
    {
      match field
      case TenantName => this.(tenantName := value)
      case Address => this.(address := value)
      case Amount => this.(amount := value)
      case Email => this.(email := value)
      case Period => this.(period := value)
    }
  }

  const TenantNameRequired := "Le nom du locataire est requis"
  const AddressRequired := "L'adresse est requise"
  const AmountRequired := "Le montant est requis"
  const EmailRequired := "L'email est requis"
  const EmailInvalid := "Format d'email invalide"

  // ---------------------------------------------------------------- the email pattern

  /** `/\S+@\S+\.\S+/.test(s)`: somewhere in `s`, a non-space character, `@`, a run of at
      least one non-space character, `.`, and a non-space character.  The pattern is not
      anchored, so the characters around the match may be anything. */
  predicate EmailMatch(s: string) {
    exists p, q :: 1 <= p && p + 2 <= q < |s| - 1 && EmailMatchAt(s, p, q)
  }

  /** The match with its `@` at `p` and its `.` at `q`. */
  predicate EmailMatchAt(s: string, p: int, q: int)
    requires 1 <= p && p + 2 <= q < |s| - 1
  {
    && !IsSpace(s[p - 1]) && s[p] == '@' && s[q] == '.' && !IsSpace(s[q + 1])
    && forall k :: p < k < q ==> !IsSpace(s[k])
  }

  /** Text around a matching address does not stop it from matching. */
  lemma EmailMatchExtends(s: string, before: string, after: string)
    requires EmailMatch(s)
    ensures EmailMatch(before + s + after)
  {
    var p, q :| 1 <= p && p + 2 <= q < |s| - 1 && EmailMatchAt(s, p, q);
    var t := before + s + after;
    var n := |before|;
    assert forall k :: 0 <= k < |s| ==> t[n + k] == s[k];
    assert EmailMatchAt(t, n + p, n + q);
  }

  /** A match needs an `@` followed later by a `.`, with at least one character between. */
  lemma EmailMatchNeedsAtThenDot(s: string)
    requires EmailMatch(s)
    ensures exists p, q :: 0 < p < q - 1 && q < |s| - 1 && s[p] == '@' && s[q] == '.'
  {
    var p, q :| 1 <= p && p + 2 <= q < |s| - 1 && EmailMatchAt(s, p, q);
    assert s[p] == '@' && s[q] == '.';
  }

  /** "a@b.c" matches, and so does " x a@b.c " (the pattern is unanchored); "a@b", "@b.c"
      and "a@.c" do not. */
  lemma EmailExamples()
    ensures EmailMatch("a@b.c")
    ensures EmailMatch(" x a@b.c ")
    ensures !EmailMatch("a@b") && !EmailMatch("@b.c") && !EmailMatch("a@.c")
  {
    assert EmailMatchAt("a@b.c", 1, 3);
    EmailMatchExtends("a@b.c", " x ", " ");
    assert " x " + "a@b.c" + " " == " x a@b.c ";
  }

  // ---------------------------------------------------------------- the validator

  /** `!s.trim()`, stated as: every character is white space (the two agree by
      `JsText.TrimBlankIff`). */
  predicate Blank(s: string) {
    AllSpace(s)
  }

  /** The error `validateForm` records for one field, if any; the period is never checked. */
  function ErrorFor(f: Form, field: Field): Option<string> {
    match field
    case TenantName => if Blank(f.tenantName) then Some(TenantNameRequired) else None
    case Address => if Blank(f.address) then Some(AddressRequired) else None
    case Amount => if Blank(f.amount) then Some(AmountRequired) else None
    case Email =>
      if Blank(f.email) then Some(EmailRequired)
      else if !EmailMatch(f.email) then Some(EmailInvalid)
      else None
    case Period => None
  }

  /** `newErrors` after the check of `field`. */
  function AddError(m: map<Field, Option<string>>, f: Form, field: Field): map<Field, Option<string>> {
    if ErrorFor(f, field).Some? then m[field := ErrorFor(f, field)] else m
  }

  /** The new error map: the four checks in their order, from the empty map. */
  function ErrorsFor(f: Form): map<Field, Option<string>> {
    AddError(AddError(AddError(AddError(map[], f, TenantName), f, Address), f, Amount), f, Email)
  }

  /** The error map holds exactly one entry per field that has an error, that error. */
  lemma ErrorsForEntries(f: Form)
    ensures forall field: Field :: field in ErrorsFor(f) <==> ErrorFor(f, field).Some?
    ensures forall field :: field in ErrorsFor(f) ==> ErrorsFor(f)[field] == ErrorFor(f, field)
  {
  }

  /** The form is valid exactly when the four fields are not blank and the email matches
      the pattern; the period plays no part. */
  lemma ValidIff(f: Form)
    ensures ErrorsFor(f) == map[] <==>
            && !AllSpace(f.tenantName) && !AllSpace(f.address) && !AllSpace(f.amount)
            && !AllSpace(f.email) && EmailMatch(f.email)
    ensures forall v :: ErrorsFor(f.With(Period, v)) == ErrorsFor(f)
  {
    ErrorsForEntries(f);
    if ErrorsFor(f) == map[] {
      assert TenantName !in ErrorsFor(f) && Address !in ErrorsFor(f);
      assert Amount !in ErrorsFor(f) && Email !in ErrorsFor(f);
    } else {
      var field :| field in ErrorsFor(f);
    }
    forall v
      ensures ErrorsFor(f.With(Period, v)) == ErrorsFor(f)
    {
      PeriodUnchecked(f, v);
    }
  }

  /** Changing the period changes no error. */
  lemma PeriodUnchecked(f: Form, v: string)
    ensures ErrorsFor(f.With(Period, v)) == ErrorsFor(f)
  {
    var g := f.With(Period, v);
    assert g.tenantName == f.tenantName && g.address == f.address;
    assert g.amount == f.amount && g.email == f.email;
  }

  /** A blank email gets "required", never "invalid"; a non-blank one that does not match
      gets "invalid". */
  lemma EmailErrorKinds(f: Form)
    ensures AllSpace(f.email) ==> ErrorsFor(f)[Email] == Some(EmailRequired)
    ensures !AllSpace(f.email) && !EmailMatch(f.email) ==> ErrorsFor(f)[Email] == Some(EmailInvalid)
  {
    ErrorsForEntries(f);
  }

  /** `handleInputChange`'s error update: a set error of that field is cleared to null,
      every other entry stays. */
  function ClearError(errors: map<Field, Option<string>>, field: Field): (e: map<Field, Option<string>>)
    ensures e.Keys == errors.Keys
    ensures field in e ==> e[field] == None
    ensures forall g :: g in e && g != field ==> e[g] == errors[g]
  {
    if field in errors && errors[field].Some? then errors[field := None] else errors
  }

  /** The body sent for a preview or a send: the form with its period capitalised. */
  function RequestBody(f: Form): (b: Form)
    ensures b.tenantName == f.tenantName && b.address == f.address
    ensures b.amount == f.amount && b.email == f.email
  {
    f.(period := Capitalize(f.period))
  }

  /** The sent period differs from the form's at most in its first character, which is
      upper-cased; capitalising again changes nothing. */
  lemma RequestPeriod(f: Form)
    ensures var p := RequestBody(f).period;
            && (f.period == [] ==> p == [])
            && (f.period != [] ==> p == UpperChar(f.period[0]) + f.period[1..])
            && RequestBody(RequestBody(f)) == RequestBody(f)
  {
    CapitalizeIdempotent(f.period);
  }

  /** The form component's state. */
  class ManualSendForm {
    var form: Form
    var errors: map<Field, Option<string>>

    /** Empty presets and the current month label as period. */
    constructor (period: string)
      ensures form == Form("", "", "", "", period) && errors == map[]
    {
      form := Form("", "", "", "", period);
      errors := map[];
    }

    /** `handleInputChange`: sets one field and clears that field's error if it is set. */
    method HandleInputChange(field: Field, value: string)
      modifies this
      ensures form == old(form).With(field, value)
      ensures errors == ClearError(old(errors), field)
    {
      form := form.With(field, value);
      if field in errors && errors[field].Some? {
        errors := errors[field := None];
      }
    }

    /** `validateForm`: builds the new error map field by field and replaces the old one. */
    method ValidateForm() returns (ok: bool)
      modifies this
      ensures form == old(form)
      ensures errors == ErrorsFor(form)
      ensures ok <==> errors == map[]
    {
      var f := form;
      var newErrors: map<Field, Option<string>> := map[];
      if Blank(f.tenantName) {
        newErrors := newErrors[TenantName := Some(TenantNameRequired)];
      }
      ghost var m1 := newErrors;
      if Blank(f.address) {
        newErrors := newErrors[Address := Some(AddressRequired)];
      }
      ghost var m2 := newErrors;
      if Blank(f.amount) {
        newErrors := newErrors[Amount := Some(AmountRequired)];
      }
      ghost var m3 := newErrors;
      if Blank(f.email) {
        newErrors := newErrors[Email := Some(EmailRequired)];
      } else if !EmailMatch(f.email) {
        newErrors := newErrors[Email := Some(EmailInvalid)];
      }
      assert newErrors == AddError(m3, f, Email);
      assert m3 == AddError(m2, f, Amount);
      assert m2 == AddError(m1, f, Address);
      assert m1 == AddError(map[], f, TenantName);
      errors := newErrors;
      ok := |newErrors| == 0;
    }

    /** `handlePreview`: the preview request body, or none when the form is invalid. */
    method HandlePreview() returns (body: Option<Form>)
      modifies this
      ensures form == old(form) && errors == ErrorsFor(form)
      ensures body.Some? <==> ErrorsFor(form) == map[]
      ensures body.Some? ==> body.value == RequestBody(form)
    {
      var ok := ValidateForm();
      if !ok {
        return None;
      }
      body := Some(RequestBody(form));
    }

    /** `handleSend`: validates, asks for confirmation, and gives the send request body. */
    method HandleSend(confirmed: bool) returns (body: Option<Form>)
      modifies this
      ensures form == old(form) && errors == ErrorsFor(form)
      ensures body.Some? <==> ErrorsFor(form) == map[] && confirmed
      ensures body.Some? ==> body.value == RequestBody(form)
    {
      var ok := ValidateForm();
      if !ok || !confirmed {
        return None;
      }
      body := Some(RequestBody(form));
    }
  }
}
