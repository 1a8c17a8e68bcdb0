/** The JSON bodies the two forms post: each is a projection of the form's
    `FormData` pairs. A `null` in the JSON (a name with no value) is None. */
module Payload {
  import opened Text
  import opened FormData

  const ContactSubject: string := "New Contact Form Submission"
  const IntakeSubject: string := "New Intake Form Submission"
  const PlainFormat: string := "plain"

  /** The contact form's body. */
  datatype ContactPayload = ContactPayload(
    name: Option<string>,
    email: Option<string>,
    phone: Option<string>,
    topic: Option<string>,
    message: Option<string>,
    consent: bool,
    subject: string,
    format: string)

  /** The intake form's body, field by field as the service receives it. */
  datatype IntakePayload = IntakePayload(
    fullName: Option<string>,
    dateOfBirth: Option<string>,
    phone: Option<string>,
    email: Option<string>,
    contactMethod: string,
    address: Option<string>,
    occupation: Option<string>,
    relationshipStatus: Option<string>,
    children: Option<string>,
    referredBy: Option<string>,
    emergencyContactName: Option<string>,
    emergencyContactPhone: Option<string>,
    emergencyContactRelationship: Option<string>,
    concerns: string,
    concernOther: Option<string>,
    presentingDescription: Option<string>,
    therapyGoals: Option<string>,
    currentMedications: bool,
    medicationsList: Option<string>,
    previousTherapy: bool,
    previousTherapyNotes: Option<string>,
    consentGiven: bool,
    signature: Option<string>,
    signatureDate: Option<string>,
    subject: string,
    format: string)

  /** `formData.get(name) === value`. */
  predicate Is(ps: seq<Pair>, name: string, value: string) {
    Get(ps, name) == Some(value)
  }

  /** `formData.get(name) || null`: an empty string counts as missing. */
  function NonEmpty(v: Option<string>): Option<string> {
    if v == Some("") then None else v
  }

  /** `submitContactToFormspree`'s body. */
  function ContactBody(ps: seq<Pair>): ContactPayload {
    ContactPayload(
      Get(ps, "name"), Get(ps, "email"), Get(ps, "phone"), Get(ps, "topic"), Get(ps, "message"),
      Is(ps, "cConsent", "on"),
      ContactSubject, PlainFormat)
  }

  /** `submitIntakeToFormspree`'s body. */
  function IntakeBody(ps: seq<Pair>): IntakePayload {
    IntakePayload(
      Get(ps, "fullName"),
      NonEmpty(Get(ps, "dob")),
      Get(ps, "phone"),
      Get(ps, "email"),
      Join(GetAll(ps, "contactMethod"), ", "),
      Get(ps, "address"),
      Get(ps, "occupation"),
      Get(ps, "relationshipStatus"),
      Get(ps, "children"),
      Get(ps, "referredBy"),
      Get(ps, "emgName"),
      Get(ps, "emgPhone"),
      Get(ps, "emgRelation"),
      Join(GetAll(ps, "concerns"), ", "),
      Get(ps, "concernOtherText"),
      Get(ps, "presentingDesc"),
      Get(ps, "goals"),
      Is(ps, "medsNow", "Yes"),
      Get(ps, "medications"),
      Is(ps, "therapyBefore", "Yes"),
      Get(ps, "prevHelpful"),
      Is(ps, "consent", "on"),
      Get(ps, "signature"),
      Get(ps, "sigDate"),
      IntakeSubject, PlainFormat)
  }

  // ---------------------------------------------------------------------
  // The body in terms of the page's controls

  /** With distinct names, `get(name)` is the first value the control of
      that name submits, and null when it submits none or there is no such
      control. */
  lemma GetOfControls(cs: seq<Control>, i: nat)
    requires DistinctNames(cs) && i < |cs|
    ensures Submitted(cs[i]) == [] ==> Get(Entries(cs), cs[i].name).None?
    ensures Submitted(cs[i]) != [] ==> Get(Entries(cs), cs[i].name) == Some(Submitted(cs[i])[0])
  {
    GetAllEntries(cs, cs[i].name);
  }

  /** A text field is sent as typed: `get` gives its value, and so do the
      body members read from it, for example the intake form's full name,
      description of concerns and signature and the contact form's message. */
  lemma FieldSentAsTyped(cs: seq<Control>, i: nat)
    requires DistinctNames(cs) && i < |cs| && cs[i].Field?
    ensures Get(Entries(cs), cs[i].name) == Some(cs[i].value)
    ensures cs[i].name == "fullName" ==> IntakeBody(Entries(cs)).fullName == Some(cs[i].value)
    ensures cs[i].name == "presentingDesc" ==> IntakeBody(Entries(cs)).presentingDescription == Some(cs[i].value)
    ensures cs[i].name == "signature" ==> IntakeBody(Entries(cs)).signature == Some(cs[i].value)
    ensures cs[i].name == "message" ==> ContactBody(Entries(cs)).message == Some(cs[i].value)
  {
    GetOfControls(cs, i);
  }

  /** A consent box is sent as true exactly when it is checked and carries
      the browser's default value "on"; a box with any other value is always
      sent as false. */
  lemma ConsentSentIffChecked(cs: seq<Control>, i: nat)
    requires DistinctNames(cs) && i < |cs| && cs[i].Checkbox? && cs[i].name == "consent"
    ensures IntakeBody(Entries(cs)).consentGiven <==> cs[i].checked && cs[i].value == "on"
  {
    GetOfControls(cs, i);
  }

  /** Without a control of that name the consent is sent as false. */
  lemma NoConsentControl(cs: seq<Control>)
    requires DistinctNames(cs)
    requires forall i :: 0 <= i < |cs| ==> cs[i].name != "cConsent"
    ensures !ContactBody(Entries(cs)).consent
  {
    GetAllEntries(cs, "cConsent");
  }

  /** At most one input of a radio group is checked. */
  predicate IsRadio(inputs: seq<Choice>) {
    forall a, b :: 0 <= a < b < |inputs| ==> !(inputs[a].checked && inputs[b].checked)
  }

  lemma {:induction false} RadioCheckedValues(inputs: seq<Choice>)
    requires IsRadio(inputs)
    ensures |CheckedValues(inputs)| <= 1
    ensures forall k :: 0 <= k < |inputs| && inputs[k].checked ==> CheckedValues(inputs) == [inputs[k].value]
  {
    if inputs != [] {
      var rest := inputs[1..];
      assert IsRadio(rest) by {
        forall a, b | 0 <= a < b < |rest| ensures !(rest[a].checked && rest[b].checked) {
          assert rest[a] == inputs[a + 1] && rest[b] == inputs[b + 1];
        }
      }
      RadioCheckedValues(rest);
      if inputs[0].checked {
        assert forall k :: 0 <= k < |rest| ==> !rest[k].checked by {
          forall k | 0 <= k < |rest| ensures !rest[k].checked {
            assert rest[k] == inputs[k + 1];
          }
        }
        NoneChecked(rest);
      }
      forall k | 1 <= k < |inputs| && inputs[k].checked
        ensures CheckedValues(inputs) == [inputs[k].value]
      {
        assert rest[k - 1] == inputs[k];
      }
    }
  }

  /** A Yes/No radio group is sent as true exactly when its "Yes" button
      is checked. */
  lemma YesNoSentIffYesChecked(cs: seq<Control>, i: nat, yes: nat)
    requires DistinctNames(cs) && i < |cs| && cs[i].Group? && cs[i].name == "medsNow"
    requires IsRadio(cs[i].inputs)
    requires yes < |cs[i].inputs| && cs[i].inputs[yes].value == "Yes"
    requires forall k :: 0 <= k < |cs[i].inputs| && k != yes ==> cs[i].inputs[k].value != "Yes"
    ensures IntakeBody(Entries(cs)).currentMedications <==> cs[i].inputs[yes].checked
  {
    var inputs := cs[i].inputs;
    GetOfControls(cs, i);
    RadioCheckedValues(inputs);
    NoneChecked(inputs);
  }

  /** The date of birth is sent as null both when the field is missing and
      when it is empty. */
  lemma DobNullWhenEmpty(ps: seq<Pair>)
    ensures IntakeBody(ps).dateOfBirth.None? <==> GetAll(ps, "dob") == [] || GetAll(ps, "dob")[0] == ""
    ensures IntakeBody(ps).dateOfBirth.Some? ==> IntakeBody(ps).dateOfBirth.value == GetAll(ps, "dob")[0]
  {
  }

  /** A checkbox group is sent as its checked values joined by ", ": empty
      exactly when nothing is checked, and (values being non-empty and free
      of commas) split back at ", " it names exactly the checked boxes. */
  lemma {:induction false} ConcernsListRoundTrip(cs: seq<Control>, i: nat)
    requires DistinctNames(cs) && i < |cs| && cs[i].Group? && cs[i].name == "concerns"
    requires forall k :: 0 <= k < |cs[i].inputs| ==> cs[i].inputs[k].value != "" && ',' !in cs[i].inputs[k].value
    requires forall a, b :: 0 <= a < b < |cs[i].inputs| ==> cs[i].inputs[a].value != cs[i].inputs[b].value
    ensures var sent := IntakeBody(Entries(cs)).concerns;
      && (sent == "" <==> forall k :: 0 <= k < |cs[i].inputs| ==> !cs[i].inputs[k].checked)
      && (sent != "" ==> forall k :: 0 <= k < |cs[i].inputs| ==>
            (cs[i].inputs[k].value in SplitList(sent) <==> cs[i].inputs[k].checked))
  {
    var inputs := cs[i].inputs;
    var vals := CheckedValues(inputs);
    GetAllEntries(cs, "concerns");
    NoneChecked(inputs);
    CheckedValuesPlain(inputs);
    if vals != [] {
      JoinNonEmpty(vals);
      SplitJoin(vals);
      forall k | 0 <= k < |inputs| ensures inputs[k].value in vals <==> inputs[k].checked {
        CheckedValuesHas(inputs, k);
      }
    }
  }

  /** Checked values inherit what holds of every input's value: here,
      being non-empty and free of commas. */
  lemma {:induction false} CheckedValuesPlain(inputs: seq<Choice>)
    requires forall k :: 0 <= k < |inputs| ==> inputs[k].value != "" && ',' !in inputs[k].value
    ensures forall j :: 0 <= j < |CheckedValues(inputs)| ==>
      CheckedValues(inputs)[j] != "" && ',' !in CheckedValues(inputs)[j]
  {
    if inputs != [] {
      var rest := inputs[1..];
      assert forall k :: 0 <= k < |rest| ==> rest[k] == inputs[k + 1];
      CheckedValuesPlain(rest);
    }
  }

  /** Joining a non-empty list whose first item is non-empty gives a non-empty string. */
  lemma JoinNonEmpty(items: seq<string>)
    requires items != [] && items[0] != ""
    ensures Join(items, ", ") != ""
  {
    if |items| > 1 {
      assert |Join(items, ", ")| >= |items[0]|;
    }
  }
}
