/**
 * The older receipt form: a free-form field map, the five required fields, the
 * current period label, and the automation toggle that posts the negated flag.
 */
module ReceiptForm {
  import opened Wrappers
  import opened JsText
  import Renderer

  /** The fields `validateForm` requires, in its order. */
  const Required: seq<string> := ["tenantName", "amount", "email", "address", "period"]

  const InitialAddress := "10 Rue de la Pierre, 37100 Tours"
  const MissingMessage := "Veuillez remplir tous les champs obligatoires."
  const DisabledMessage := "Envoi automatique d\U{00E9}sactiv\U{00E9} pour ce mois."
  const EnabledMessage := "Envoi automatique r\U{00E9}activ\U{00E9}."
  const UpdateErrorMessage := "Erreur lors de la mise \U{00E0} jour."

  /** `getCurrentPeriod`: the month name (as the locale writes it) with its first character
      upper-cased, a space, and the year. */
  function CurrentPeriod(month: string, year: nat): string {
    Capitalize(month) + " " + NatToString(year)
  }

  /** Capitalising a word without a space gives a non-empty word without a space. */
  lemma CapitalizeNoSpace(month: string)
    requires month != [] && ' ' !in month
    ensures Capitalize(month) != [] && ' ' !in Capitalize(month)
  {
    assert ' ' !in UpperChar(month[0]);
    assert Capitalize(month) == UpperChar(month[0]) + month[1..];
  }

  /** The label splits on its one space into the capitalised month and the year. */
  lemma {:induction false} CurrentPeriodSplits(month: string, year: nat)
    requires month != [] && ' ' !in month
    ensures var m := Capitalize(month);
            && m != [] && ' ' !in m && ' ' !in NatToString(year)
            && Split(CurrentPeriod(month, year), ' ') == [m, NatToString(year)]
  {
    var y := NatToString(year);
    var m := Capitalize(month);
    CapitalizeNoSpace(month);
    assert ' ' !in y by {
      assert AllDigits(y);
    }
    SplitCons(y, [], ' ');
    SplitCons(m, y, ' ');
  }

  /** The renderer reads the label as that month, when the capitalised name is in its
      table, and as that year. */
  lemma CurrentPeriodRead(month: string, year: nat, i: nat)
    requires month != [] && ' ' !in month
    requires i < 12 && Capitalize(month) == Renderer.MonthNames[i]
    ensures Renderer.PeriodOf(CurrentPeriod(month, year)).monthNum == Renderer.TwoDigits(i + 1)
    ensures Renderer.PeriodOf(CurrentPeriod(month, year)).year == NatToString(year)
  {
    CurrentPeriodSplits(month, year);
    Renderer.PeriodOfTwoTokens(Capitalize(month), NatToString(year));
    Renderer.MonthNumberTable("");
  }

  /** `!formData[field]?.trim()`: absent, or blank after trimming. */
  predicate IsMissing(form: map<string, string>, field: string) {
    field !in form || Trim(form[field]) == []
  }

  /** `required.filter(...)`: the missing fields, in the order they are listed. */
  function MissingFields(form: map<string, string>, fields: seq<string>): (r: seq<string>)
    ensures |r| <= |fields|
    ensures forall x :: x in r <==> x in fields && IsMissing(form, x)
  {
    if fields == [] then []
    else (if IsMissing(form, fields[0]) then [fields[0]] else []) + MissingFields(form, fields[1..])
  }

  /** The form passes exactly when each of the five fields is present and not all white
      space; any other key plays no part. */
  lemma ValidIff(form: map<string, string>)
    ensures MissingFields(form, Required) == [] <==>
            forall f :: f in Required ==> f in form && !AllSpace(form[f])
  {
    forall f | f in Required
      ensures IsMissing(form, f) <==> f !in form || AllSpace(form[f])
    {
      if f in form {
        TrimBlankIff(form[f]);
      }
    }
    if MissingFields(form, Required) != [] {
      assert MissingFields(form, Required)[0] in MissingFields(form, Required);
    }
  }

  datatype Message = Message(isError: bool, text: string)

  /** The form component's state. */
  class ReceiptFormState {
    var formData: map<string, string>
    var message: Option<Message>
    var skipAutomation: bool

    /** The initial fields, with the current period from the clock's month and year. */
    constructor (month: string, year: nat)
      ensures formData == map["tenantName" := "", "address" := InitialAddress, "email" := "",
                              "amount" := "", "period" := CurrentPeriod(month, year)]
      ensures message == None && !skipAutomation
    {
      formData := map["tenantName" := "", "address" := InitialAddress, "email" := "",
                      "amount" := "", "period" := CurrentPeriod(month, year)];
      message := None;
      skipAutomation := false;
    }

    /** The stored flag loaded on mount: adopted when the request succeeds. */
    method LoadAutomationStatus(fetched: Option<bool>)
      modifies this
      ensures skipAutomation == if fetched.Some? then fetched.value else old(skipAutomation)
      ensures formData == old(formData) && message == old(message)
    {
      if fetched.Some? {
        skipAutomation := fetched.value;
      }
    }

    /** `handleChange`: sets the named field, whatever its name; the others stay. */
    method HandleChange(name: string, value: string)
      modifies this
      ensures formData == old(formData)[name := value]
      ensures message == old(message) && skipAutomation == old(skipAutomation)
    {
      formData := formData[name := value];
    }

    /** `validateForm`: false with an error message exactly when some required field is
      missing; true, with the message left alone, otherwise. */
    method ValidateForm() returns (ok: bool)
      modifies this
      ensures ok <==> MissingFields(formData, Required) == []
      ensures !ok ==> message == Some(Message(true, MissingMessage))
      ensures ok ==> message == old(message)
      ensures formData == old(formData) && skipAutomation == old(skipAutomation)
    {
      var missing := MissingFields(formData, Required);
      if |missing| > 0 {
        message := Some(Message(true, MissingMessage));
        return false;
      }
      ok := true;
    }

    /** `handlePreview` and `handleSend`: the request body, the fields as they are, once the
      form passes; none otherwise. */
    method HandleSend() returns (body: Option<map<string, string>>)
      modifies this
      ensures body.Some? <==> MissingFields(formData, Required) == []
      ensures body.Some? ==> body.value == formData
      ensures body.None? ==> message == Some(Message(true, MissingMessage))
      ensures formData == old(formData) && skipAutomation == old(skipAutomation)
    {
      var ok := ValidateForm();
      if !ok {
        return None;
      }
      body := Some(formData);
    }

    /** `toggleAutomation`: posts the negated flag, and adopts it unless the request throws;
      `posted` is the value sent. */
    method ToggleAutomation(requestThrows: bool) returns (posted: bool)
      modifies this
      ensures posted == !old(skipAutomation)
      ensures skipAutomation == if requestThrows then old(skipAutomation) else posted
      ensures message == Some(if requestThrows then Message(true, UpdateErrorMessage)
                               else Message(false, if posted then DisabledMessage else EnabledMessage))
      ensures formData == old(formData)
    {
      posted := !skipAutomation;
      if requestThrows {
        message := Some(Message(true, UpdateErrorMessage));
      } else {
        skipAutomation := posted;
        message := Some(Message(false, if posted then DisabledMessage else EnabledMessage));
      }
    }
  }
}
