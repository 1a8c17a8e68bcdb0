/** The field rule tables of the contact form and of the four steps of the
    intake form, the validators that apply them, and the cross-field check
    on the preferred contact methods.

    A rule table lists rows of checks, each row under a field id; a row
    whose checks do not all pass records the message of its first failing
    check under its field id, rows applied in order, so that a later row
    for the same field overwrites an earlier one (the page's error element
    keeps the last text written to it). The validators apply the same checks
    as a run of `if`s that record a message and clear an `isValid` flag;
    each is proved to produce exactly the messages its table gives. */
module Forms {
  import opened Text
  import opened Phone
  import opened Email

  /** The contact form's fields as read from the page. */
  datatype ContactForm = ContactForm(
    name: string,
    email: string,
    phone: string,
    topic: string,     // the selected option, "" when none is selected
    message: string,
    consent: bool)

  /** The intake form's fields. Checkbox groups hold the checked values in
      page order; a radio group read through `:checked` is None when no
      button is checked; a radio group read through `.value` is "" then;
      dates are day numbers, None when the date input is empty. */
  datatype IntakeForm = IntakeForm(
    // Step 1: About You
    fullName: string,
    dob: Option<int>,
    email: string,
    phone: string,
    contactMethod: seq<string>,
    address: string,
    // Step 2: Background
    occupation: string,
    relationshipStatus: string,
    children: string,
    referredBy: string,
    emgName: string,
    emgPhone: string,
    emgRelation: string,
    // Step 3: Concerns & Goals
    concerns: seq<string>,
    concernOther: bool,
    concernOtherText: string,
    presentingDesc: string,
    goals: string,
    medsNow: Option<string>,
    medications: string,
    therapyBefore: Option<string>,
    prevHelpful: string,
    // Step 4: Consent
    consent: bool,
    signature: string,
    sigDate: Option<int>,
    // hidden anti-spam field
    website: string)

  /** The host clock, as day numbers: today, and the same day thirteen years
      earlier. */
  datatype Clock = Clock(today: int, thirteenYearsAgo: int)

  /** Error messages keyed by field id. */
  type Errors = map<string, Message>

  /** The messages the forms show: under a field, or on the status line. */
  datatype Message =
    // Contact form
    | NameRequired
    | NameTooShort
    | NameTooLong
    | EmailRequired
    | EmailInvalid
    | EmailTooLong
    | PhoneRequired
    | PhoneInvalid
    | PhoneTooLong
    | TopicMissing
    | MessageRequired
    | MessageTooShort
    | MessageTooLong
    | ContactConsentMissing
    // Intake step 1
    | FullNameRequired
    | FullNameTooShort
    | DobRequired
    | DobInFuture
    | DobUnderThirteen
    | ContactMethodMissing
    // Intake step 2
    | OccupationRequired
    | OccupationTooShort
    | RelationshipMissing
    | ChildrenTooLong
    | ReferredByTooLong
    | EmgNameRequired
    | EmgNameTooShort
    | EmgPhoneRequired
    | EmgPhoneInvalid
    | EmgRelationRequired
    | EmgRelationTooShort
    // Intake step 3
    | ConcernsMissing
    | PresentingDescRequired
    | PresentingDescTooShort
    | GoalsRequired
    | GoalsTooShort
    | MedsNowMissing
    | TherapyBeforeMissing
    | ConcernOtherMissing
    // Intake step 4
    | ConsentMissing
    | SignatureRequired
    | SignatureTooShort
    | SigDateRequired
    | SigDateInFuture
    // Status line
    | NoContactMethod
    | PhoneNotProvided
    | EmailNotProvided
    | NoUsableContact
    | FixErrors

  /** Each message word for word. */
  function Wording(m: Message): string {
    match m
    case NameRequired => "Full name is required"
    case NameTooShort => "Name must be at least 2 characters"
    case NameTooLong => "Name must be less than 100 characters"
    case EmailRequired => "Email is required"
    case EmailInvalid => "Please enter a valid email address"
    case EmailTooLong => "Email must be less than 255 characters"
    case PhoneRequired => "Phone number is required"
    case PhoneInvalid => "Please enter a valid phone number (10-15 digits)"
    case PhoneTooLong => "Phone number is too long"
    case TopicMissing => "Please select a topic"
    case MessageRequired => "Message is required"
    case MessageTooShort => "Message must be at least 10 characters"
    case MessageTooLong => "Message must be less than 2000 characters"
    case ContactConsentMissing => "You must consent to be contacted"
    case FullNameRequired => "Full Name is required"
    case FullNameTooShort => "Full Name must be at least 2 characters"
    case DobRequired => "Date of Birth is required"
    case DobInFuture => "Date of Birth cannot be in the future"
    case DobUnderThirteen => "You must be at least 13 years old"
    case ContactMethodMissing => "Please select at least one preferred contact method"
    case OccupationRequired => "Occupation or student status is required"
    case OccupationTooShort => "Please provide a valid occupation or student status"
    case RelationshipMissing => "Please select your relationship status"
    case ChildrenTooLong => "Please provide a brief description about children"
    case ReferredByTooLong => "Referral source description is too long"
    case EmgNameRequired => "Emergency contact name is required"
    case EmgNameTooShort => "Please provide a valid emergency contact name"
    case EmgPhoneRequired => "Emergency contact phone is required"
    case EmgPhoneInvalid => "Please enter a valid emergency contact phone number"
    case EmgRelationRequired => "Emergency contact relationship is required"
    case EmgRelationTooShort => "Please provide a valid relationship description"
    case ConcernsMissing => "Please select at least one concern"
    case PresentingDescRequired => "Please describe what brings you to counselling"
    case PresentingDescTooShort => "Please provide more details (at least 10 characters)"
    case GoalsRequired => "Please describe what you would like to achieve through therapy"
    case GoalsTooShort => "Please provide more details about your goals (at least 10 characters)"
    case MedsNowMissing => "Please indicate if you are currently taking any medications"
    case TherapyBeforeMissing => "Please indicate if you have attended counselling before"
    case ConcernOtherMissing => "Please specify your other concern"
    case ConsentMissing => "You must agree to the confidentiality statement"
    case SignatureRequired => "Signature is required"
    case SignatureTooShort => "Please enter your full name"
    case SigDateRequired => "Date is required"
    case SigDateInFuture => "Date cannot be in the future"
    case NoContactMethod => "Please select at least one preferred contact method."
    case PhoneNotProvided => "Please provide your phone number since you selected phone as a contact method."
    case EmailNotProvided => "Please provide your email since you selected email as a contact method."
    case NoUsableContact => "Please provide the contact details for your selected contact methods."
    case FixErrors => "Please fix the errors in the form before submitting."
  }

  /** One check of a rule table: whether it fails, and its message. */
  datatype Check = Check(fails: bool, message: Message)

  /** One row of a rule table: a field id and its checks, in order. */
  datatype Row = Row(field: string, checks: seq<Check>)

  /** The message of the first failing check, if any. */
  function FirstFailure(rules: seq<Check>): Option<Message> {
    if rules == [] then None
    else if rules[0].fails then Some(rules[0].message)
    else FirstFailure(rules[1..])
  }

  /** A row passes exactly when none of its checks fails, and otherwise
      shows the message of the first failing check: the one before which
      every check passes. */
  lemma {:induction false} FirstFailureMeaning(rules: seq<Check>)
    ensures FirstFailure(rules).None? <==> forall k :: 0 <= k < |rules| ==> !rules[k].fails
    ensures FirstFailure(rules).Some? ==>
      exists k :: 0 <= k < |rules| && rules[k].fails && FirstFailure(rules).value == rules[k].message &&
        forall j :: 0 <= j < k ==> !rules[j].fails
  {
    if rules != [] && !rules[0].fails {
      FirstFailureMeaning(rules[1..]);
      assert forall k :: 1 <= k < |rules| ==> rules[k] == rules[1..][k - 1];
      if FirstFailure(rules).Some? {
        var k :| 0 <= k < |rules[1..]| && rules[1..][k].fails && FirstFailure(rules).value == rules[1..][k].message &&
          forall j :: 0 <= j < k ==> !rules[1..][j].fails;
        assert rules[k + 1] == rules[1..][k];
        assert forall j :: 0 <= j < k + 1 ==> !rules[j].fails by {
          forall j | 0 <= j < k + 1 ensures !rules[j].fails {
            if j > 0 {
              assert rules[j] == rules[1..][j - 1];
            }
          }
        }
      }
    }
  }

  /** Applies one row to the messages recorded so far. */
  function Record(m: Errors, row: Row): Errors {
    match FirstFailure(row.checks)
    case None => m
    case Some(msg) => m[row.field := msg]
  }

  /** The messages a rule table produces, rows applied in order. */
  function TableErrors(table: seq<Row>): Errors {
    if table == [] then map[]
    else Record(TableErrors(table[..|table| - 1]), table[|table| - 1])
  }

  /** Applying a row never removes a message and leaves every other field's
      message as it was; it adds (or replaces) the row's message exactly
      when a check of the row fails. */
  lemma RecordEmptyIff(m: Errors, row: Row)
    ensures Record(m, row).Keys == if FirstFailure(row.checks).Some? then m.Keys + {row.field} else m.Keys
    ensures forall f :: f in m && f != row.field ==> Record(m, row)[f] == m[f]
    ensures FirstFailure(row.checks).Some? ==> Record(m, row)[row.field] == FirstFailure(row.checks).value
    ensures Record(m, row) == map[] <==> m == map[] && FirstFailure(row.checks).None?
  {
    if FirstFailure(row.checks).Some? {
      assert row.field in Record(m, row);
    }
  }

  /** No check of any row fails. */
  predicate Passes(table: seq<Row>) {
    forall i, k :: 0 <= i < |table| && 0 <= k < |table[i].checks| ==> !table[i].checks[k].fails
  }

  /** A table produces no message exactly when no check of any row fails. */
  lemma {:induction false} TableErrorsEmptyIff(table: seq<Row>)
    ensures TableErrors(table) == map[] <==> Passes(table)
  {
    if table != [] {
      var init := table[..|table| - 1];
      var last := table[|table| - 1];
      TableErrorsEmptyIff(init);
      RecordEmptyIff(TableErrors(init), last);
      FirstFailureMeaning(last.checks);
      assert forall i :: 0 <= i < |init| ==> init[i] == table[i];
    }
  }

  /** The first failing check among one, two or three. */
  lemma FirstFailureOne(a: Check)
    ensures FirstFailure([a]) == if a.fails then Some(a.message) else None
  {
    assert [a][1..] == [];
  }

  lemma FirstFailureTwo(a: Check, b: Check)
    ensures FirstFailure([a, b]) ==
      if a.fails then Some(a.message) else if b.fails then Some(b.message) else None
  {
    assert [a, b][1..] == [b];
    FirstFailureOne(b);
  }

  lemma FirstFailureThree(a: Check, b: Check, c: Check)
    ensures FirstFailure([a, b, c]) ==
      if a.fails then Some(a.message) else if b.fails then Some(b.message)
      else if c.fails then Some(c.message) else None
  {
    assert [a, b, c][1..] == [b, c];
    FirstFailureTwo(b, c);
  }

  /** Rows of one, two and three checks, applied. */
  lemma RecordOne(m: Errors, row: Row)
    requires |row.checks| == 1
    ensures Record(m, row) ==
      if row.checks[0].fails then m[row.field := row.checks[0].message] else m
    ensures Record(m, row) == map[] <==> m == map[] && !row.checks[0].fails
  {
    var cs := row.checks;
    assert cs == [cs[0]];
    FirstFailureOne(cs[0]);
    RecordEmptyIff(m, row);
  }

  lemma RecordTwo(m: Errors, row: Row)
    requires |row.checks| == 2
    ensures Record(m, row) ==
      if row.checks[0].fails then m[row.field := row.checks[0].message]
      else if row.checks[1].fails then m[row.field := row.checks[1].message]
      else m
    ensures Record(m, row) == map[] <==>
      m == map[] && !row.checks[0].fails && !row.checks[1].fails
  {
    var cs := row.checks;
    assert cs == [cs[0], cs[1]];
    FirstFailureTwo(cs[0], cs[1]);
    RecordEmptyIff(m, row);
  }

  lemma RecordThree(m: Errors, row: Row)
    requires |row.checks| == 3
    ensures Record(m, row) ==
      if row.checks[0].fails then m[row.field := row.checks[0].message]
      else if row.checks[1].fails then m[row.field := row.checks[1].message]
      else if row.checks[2].fails then m[row.field := row.checks[2].message]
      else m
    ensures Record(m, row) == map[] <==>
      m == map[] && !row.checks[0].fails && !row.checks[1].fails && !row.checks[2].fails
  {
    var cs := row.checks;
    assert cs == [cs[0], cs[1], cs[2]];
    FirstFailureThree(cs[0], cs[1], cs[2]);
    RecordEmptyIff(m, row);
  }

  /** A row of three checks passes exactly when none of the three fails. */
  lemma PassesThree(row: Row)
    requires |row.checks| == 3
    ensures FirstFailure(row.checks).None? <==>
      !row.checks[0].fails && !row.checks[1].fails && !row.checks[2].fails
  {
    var cs := row.checks;
    assert cs == [cs[0], cs[1], cs[2]];
    FirstFailureThree(cs[0], cs[1], cs[2]);
  }

  /** The table with one more row. */
  lemma TableErrorsSnoc(table: seq<Row>, row: Row)
    ensures TableErrors(table + [row]) == Record(TableErrors(table), row)
  {
    assert (table + [row])[..|table|] == table;
  }

  /** Tables of three, four, six and seven rows, unfolded. */
  lemma TableOfThree(r0: Row, r1: Row, r2: Row)
    ensures TableErrors([r0, r1, r2]) == Record(Record(Record(map[], r0), r1), r2)
  {
    TableErrorsSnoc([], r0);
    TableErrorsSnoc([r0], r1);
    TableErrorsSnoc([r0, r1], r2);
    assert [] + [r0] == [r0];
    assert [r0] + [r1] == [r0, r1];
    assert [r0, r1] + [r2] == [r0, r1, r2];
  }

  lemma TableOfFour(r0: Row, r1: Row, r2: Row, r3: Row)
    ensures TableErrors([r0, r1, r2, r3]) == Record(Record(Record(Record(map[], r0), r1), r2), r3)
  {
    TableOfThree(r0, r1, r2);
    TableErrorsSnoc([r0, r1, r2], r3);
    assert [r0, r1, r2] + [r3] == [r0, r1, r2, r3];
  }

  lemma TableOfSix(r0: Row, r1: Row, r2: Row, r3: Row, r4: Row, r5: Row)
    ensures TableErrors([r0, r1, r2, r3, r4, r5]) ==
      Record(Record(TableErrors([r0, r1, r2, r3]), r4), r5)
  {
    TableErrorsSnoc([r0, r1, r2, r3], r4);
    TableErrorsSnoc([r0, r1, r2, r3, r4], r5);
    assert [r0, r1, r2, r3] + [r4] == [r0, r1, r2, r3, r4];
    assert [r0, r1, r2, r3, r4] + [r5] == [r0, r1, r2, r3, r4, r5];
  }

  lemma TableOfSeven(r0: Row, r1: Row, r2: Row, r3: Row, r4: Row, r5: Row, r6: Row)
    ensures TableErrors([r0, r1, r2, r3, r4, r5, r6]) ==
      Record(TableErrors([r0, r1, r2, r3, r4, r5]), r6)
  {
    TableErrorsSnoc([r0, r1, r2, r3, r4, r5], r6);
    assert [r0, r1, r2, r3, r4, r5] + [r6] == [r0, r1, r2, r3, r4, r5, r6];
  }

  // Row shapes used by both forms, over already trimmed values.

  /** A single check. */
  function OneCheck(field: string, fails: bool, message: Message): Row {
    Row(field, [Check(fails, message)])
  }

  /** A required value of a least length, counted as JavaScript's `length`
      counts (UTF-16 code units). */
  function MinLength(field: string, value: string, min: nat, required: Message, short: Message): Row {
    Row(field, [Check(value == "", required), Check(JsLength(value) < min, short)])
  }

  /** A required value that must satisfy a format rule. */
  function Formatted(field: string, value: string, ok: bool, required: Message, invalid: Message): Row {
    Row(field, [Check(value == "", required), Check(!ok, invalid)])
  }

  // The validators write each field's row the same way: the row's checks
  // are tried in order, and the first that fails writes its message under
  // the field id and clears the `isValid` flag. Rows have one, two or three
  // checks.

  method ApplyOne(row: Row, isValid: bool, errors: Errors) returns (valid: bool, shown: Errors)
    requires |row.checks| == 1
    requires isValid <==> errors == map[]
    ensures shown == Record(errors, row)
    ensures valid <==> shown == map[]
  {
    valid, shown := isValid, errors;
    if row.checks[0].fails {
      shown := shown[row.field := row.checks[0].message];
      valid := false;
    }
    RecordOne(errors, row);
  }

  method ApplyTwo(row: Row, isValid: bool, errors: Errors) returns (valid: bool, shown: Errors)
    requires |row.checks| == 2
    requires isValid <==> errors == map[]
    ensures shown == Record(errors, row)
    ensures valid <==> shown == map[]
  {
    valid, shown := isValid, errors;
    if row.checks[0].fails {
      shown := shown[row.field := row.checks[0].message];
      valid := false;
    } else if row.checks[1].fails {
      shown := shown[row.field := row.checks[1].message];
      valid := false;
    }
    RecordTwo(errors, row);
  }

  method ApplyThree(row: Row, isValid: bool, errors: Errors) returns (valid: bool, shown: Errors)
    requires |row.checks| == 3
    requires isValid <==> errors == map[]
    ensures shown == Record(errors, row)
    ensures valid <==> shown == map[]
  {
    valid, shown := isValid, errors;
    if row.checks[0].fails {
      shown := shown[row.field := row.checks[0].message];
      valid := false;
    } else if row.checks[1].fails {
      shown := shown[row.field := row.checks[1].message];
      valid := false;
    } else if row.checks[2].fails {
      shown := shown[row.field := row.checks[2].message];
      valid := false;
    }
    RecordThree(errors, row);
  }

  // ---------------------------------------------------------------------
  // Contact form

  function NameRow(c: ContactForm): Row {
    var name := Trim(c.name);
    Row("cName", [ Check(name == "", NameRequired),
                   Check(JsLength(name) < 2, NameTooShort),
                   Check(JsLength(name) > 100, NameTooLong) ])
  }

  function ContactEmailRow(c: ContactForm): Row {
    var email := Trim(c.email);
    Row("cEmail", [ Check(email == "", EmailRequired),
                    Check(!IsValidEmail(email), EmailInvalid),
                    Check(JsLength(email) > 255, EmailTooLong) ])
  }

  function ContactPhoneRow(c: ContactForm): Row {
    var phone := Trim(c.phone);
    Row("cPhone", [ Check(phone == "", PhoneRequired),
                    Check(!IsValidPhone(phone), PhoneInvalid),
                    Check(JsLength(phone) > 20, PhoneTooLong) ])
  }

  function TopicRow(c: ContactForm): Row {
    OneCheck("cTopic", c.topic == "", TopicMissing)
  }

  function MessageRow(c: ContactForm): Row {
    var message := Trim(c.message);
    Row("cMessage", [ Check(message == "", MessageRequired),
                      Check(JsLength(message) < 10, MessageTooShort),
                      Check(JsLength(message) > 2000, MessageTooLong) ])
  }

  function ContactConsentRow(c: ContactForm): Row {
    OneCheck("cConsent", !c.consent, ContactConsentMissing)
  }

  /** The contact form's rule table, in the order the fields are checked. */
  function ContactTable(c: ContactForm): seq<Row> {
    [NameRow(c), ContactEmailRow(c), ContactPhoneRow(c), TopicRow(c), MessageRow(c), ContactConsentRow(c)]
  }

  /** The messages the contact form shows. */
  function ContactErrors(c: ContactForm): Errors {
    TableErrors(ContactTable(c))
  }

  /** The contact table applied row by row. */
  lemma ContactErrorsRows(c: ContactForm)
    ensures ContactErrors(c) ==
      Record(Record(Record(Record(Record(Record(map[],
        NameRow(c)), ContactEmailRow(c)), ContactPhoneRow(c)), TopicRow(c)), MessageRow(c)), ContactConsentRow(c))
  {
    TableOfSix(NameRow(c), ContactEmailRow(c), ContactPhoneRow(c), TopicRow(c), MessageRow(c), ContactConsentRow(c));
    TableOfFour(NameRow(c), ContactEmailRow(c), ContactPhoneRow(c), TopicRow(c));
  }

  /** `validateContactForm`: clears the old messages, then checks each field
      in turn; each check records a message and clears `isValid` when the
      field fails its rules. */
  method ValidateContactForm(c: ContactForm) returns (isValid: bool, errors: Errors)
    ensures errors == ContactErrors(c)
    ensures isValid <==> errors == map[]
  {
    isValid := true;
    errors := map[];
    isValid, errors := ApplyThree(NameRow(c), isValid, errors);
    isValid, errors := ApplyThree(ContactEmailRow(c), isValid, errors);
    isValid, errors := ApplyThree(ContactPhoneRow(c), isValid, errors);
    isValid, errors := ApplyOne(TopicRow(c), isValid, errors);
    isValid, errors := ApplyThree(MessageRow(c), isValid, errors);
    isValid, errors := ApplyOne(ContactConsentRow(c), isValid, errors);
    ContactErrorsRows(c);
  }

  /** The contact form passes exactly when every field satisfies its rules:
      a name of 2 to 100 characters, a well-formed email of at most 255
      characters, a valid phone number of at most 20 characters, a topic, a
      message of 10 to 2000 characters, and consent. */
  lemma ContactValidIff(c: ContactForm)
    ensures ContactErrors(c) == map[] <==>
      && 2 <= JsLength(Trim(c.name)) <= 100
      && IsValidEmail(Trim(c.email)) && JsLength(Trim(c.email)) <= 255
      && IsValidPhone(Trim(c.phone)) && JsLength(Trim(c.phone)) <= 20
      && c.topic != ""
      && 10 <= JsLength(Trim(c.message)) <= 2000
      && c.consent
  {
    ContactPassesAllChecks(c);
    PassesThree(NameRow(c));
    PassesThree(ContactEmailRow(c));
    PassesThree(ContactPhoneRow(c));
    PassesThree(MessageRow(c));
  }

  /** The contact form shows no message exactly when no check of any of its
      rows fails. */
  lemma ContactPassesAllChecks(c: ContactForm)
    ensures ContactErrors(c) == map[] <==>
      && FirstFailure(NameRow(c).checks).None?
      && FirstFailure(ContactEmailRow(c).checks).None?
      && FirstFailure(ContactPhoneRow(c).checks).None?
      && !TopicRow(c).checks[0].fails
      && FirstFailure(MessageRow(c).checks).None?
      && !ContactConsentRow(c).checks[0].fails
  {
    ContactErrorsRows(c);
    var m1 := Record(map[], NameRow(c));
    var m2 := Record(m1, ContactEmailRow(c));
    var m3 := Record(m2, ContactPhoneRow(c));
    var m4 := Record(m3, TopicRow(c));
    var m5 := Record(m4, MessageRow(c));
    RecordEmptyIff(map[], NameRow(c));
    RecordEmptyIff(m1, ContactEmailRow(c));
    RecordEmptyIff(m2, ContactPhoneRow(c));
    RecordOne(m3, TopicRow(c));
    RecordEmptyIff(m4, MessageRow(c));
    RecordOne(m5, ContactConsentRow(c));
  }

  /** Lengths are JavaScript's: a name made of one emoji (a character
      outside the Basic Multilingual Plane) has length 2, so it is long
      enough. */
  lemma EmojiNameIsLongEnough(c: ContactForm)
    requires c.name == "\U{1F600}"
    ensures !NameRow(c).checks[1].fails
  {
    assert Trim(c.name) == c.name by {
      TrimNoOp(c.name);
    }
  }

  // ---------------------------------------------------------------------
  // Intake form, step by step

  // Step 1: About You

  function FullNameRow(x: IntakeForm): Row {
    MinLength("fullName", Trim(x.fullName), 2,
      FullNameRequired, FullNameTooShort)
  }

  function DobRequiredRow(x: IntakeForm): Row {
    OneCheck("dob", x.dob.None?, DobRequired)
  }

  function DobFutureRow(x: IntakeForm, clock: Clock): Row {
    OneCheck("dob", x.dob.Some? && x.dob.value > clock.today, DobInFuture)
  }

  function DobAgeRow(x: IntakeForm, clock: Clock): Row {
    OneCheck("dob", x.dob.Some? && x.dob.value > clock.thirteenYearsAgo, DobUnderThirteen)
  }

  function IntakeEmailRow(x: IntakeForm): Row {
    Formatted("email", Trim(x.email), IsValidEmail(Trim(x.email)),
      EmailRequired, EmailInvalid)
  }

  function IntakePhoneRow(x: IntakeForm): Row {
    Formatted("phone", Trim(x.phone), IsValidPhone(Trim(x.phone)),
      PhoneRequired, PhoneInvalid)
  }

  function ContactMethodRow(x: IntakeForm): Row {
    OneCheck("contactMethod", |x.contactMethod| == 0, ContactMethodMissing)
  }

  // Step 2: Background

  function OccupationRow(x: IntakeForm): Row {
    MinLength("occupation", Trim(x.occupation), 2,
      OccupationRequired, OccupationTooShort)
  }

  function RelationshipRow(x: IntakeForm): Row {
    OneCheck("relationshipStatus", x.relationshipStatus == "", RelationshipMissing)
  }

  function ChildrenRow(x: IntakeForm): Row {
    OneCheck("children", JsLength(Trim(x.children)) > 50, ChildrenTooLong)
  }

  function ReferredByRow(x: IntakeForm): Row {
    OneCheck("referredBy", JsLength(Trim(x.referredBy)) > 100, ReferredByTooLong)
  }

  function EmgNameRow(x: IntakeForm): Row {
    MinLength("emgName", Trim(x.emgName), 2,
      EmgNameRequired, EmgNameTooShort)
  }

  function EmgPhoneRow(x: IntakeForm): Row {
    Formatted("emgPhone", Trim(x.emgPhone), IsValidPhone(Trim(x.emgPhone)),
      EmgPhoneRequired, EmgPhoneInvalid)
  }

  function EmgRelationRow(x: IntakeForm): Row {
    MinLength("emgRelation", Trim(x.emgRelation), 2,
      EmgRelationRequired, EmgRelationTooShort)
  }

  // Step 3: Concerns & Goals

  function ConcernsRow(x: IntakeForm): Row {
    OneCheck("concerns", |x.concerns| == 0, ConcernsMissing)
  }

  function PresentingDescRow(x: IntakeForm): Row {
    MinLength("presentingDesc", Trim(x.presentingDesc), 10,
      PresentingDescRequired,
      PresentingDescTooShort)
  }

  function GoalsRow(x: IntakeForm): Row {
    MinLength("goals", Trim(x.goals), 10,
      GoalsRequired,
      GoalsTooShort)
  }

  function MedsNowRow(x: IntakeForm): Row {
    OneCheck("medsNow", x.medsNow.None?, MedsNowMissing)
  }

  function TherapyBeforeRow(x: IntakeForm): Row {
    OneCheck("therapyBefore", x.therapyBefore.None?, TherapyBeforeMissing)
  }

  /** The text of the "Other" concern is needed only when that box is checked. */
  function ConcernOtherRow(x: IntakeForm): Row {
    OneCheck("concernOtherText", x.concernOther && Trim(x.concernOtherText) == "", ConcernOtherMissing)
  }

  // Step 4: Consent

  function ConsentRow(x: IntakeForm): Row {
    OneCheck("consent", !x.consent, ConsentMissing)
  }

  function SignatureRow(x: IntakeForm): Row {
    MinLength("signature", Trim(x.signature), 2, SignatureRequired, SignatureTooShort)
  }

  function SigDateRow(x: IntakeForm, clock: Clock): Row {
    Row("sigDate", [ Check(x.sigDate.None?, SigDateRequired),
                     Check(x.sigDate.Some? && x.sigDate.value > clock.today, SigDateInFuture) ])
  }

  /** Step 1's table. The date of birth has three rows, as the page writes
      its message up to three times and keeps the last. */
  function AboutYouTable(x: IntakeForm, clock: Clock): seq<Row> {
    [FullNameRow(x), DobRequiredRow(x), DobFutureRow(x, clock), DobAgeRow(x, clock),
     IntakeEmailRow(x), IntakePhoneRow(x), ContactMethodRow(x)]
  }

  function BackgroundTable(x: IntakeForm): seq<Row> {
    [OccupationRow(x), RelationshipRow(x), ChildrenRow(x), ReferredByRow(x),
     EmgNameRow(x), EmgPhoneRow(x), EmgRelationRow(x)]
  }

  function ConcernsTable(x: IntakeForm): seq<Row> {
    [ConcernsRow(x), PresentingDescRow(x), GoalsRow(x), MedsNowRow(x), TherapyBeforeRow(x), ConcernOtherRow(x)]
  }

  function ConsentTable(x: IntakeForm, clock: Clock): seq<Row> {
    [ConsentRow(x), SignatureRow(x), SigDateRow(x, clock)]
  }

  /** The rule table of each step of the intake wizard; a step number outside
      1..4 has no rules. */
  function StepTable(step: int, x: IntakeForm, clock: Clock): seq<Row> {
    if step == 1 then AboutYouTable(x, clock)
    else if step == 2 then BackgroundTable(x)
    else if step == 3 then ConcernsTable(x)
    else if step == 4 then ConsentTable(x, clock)
    else []
  }

  /** The messages `validateStep` leaves on screen for a step. */
  function StepErrors(step: int, x: IntakeForm, clock: Clock): Errors {
    TableErrors(StepTable(step, x, clock))
  }

  /** A step passes when no check of its table fails. */
  predicate StepValid(step: int, x: IntakeForm, clock: Clock) {
    Passes(StepTable(step, x, clock))
  }

  /** A step passes exactly when it shows no message. */
  lemma StepValidIff(step: int, x: IntakeForm, clock: Clock)
    ensures StepValid(step, x, clock) <==> StepErrors(step, x, clock) == map[]
  {
    TableErrorsEmptyIff(StepTable(step, x, clock));
  }

  lemma AboutYouRows(x: IntakeForm, clock: Clock)
    ensures TableErrors(AboutYouTable(x, clock)) ==
      Record(Record(Record(Record(Record(Record(Record(map[],
        FullNameRow(x)), DobRequiredRow(x)), DobFutureRow(x, clock)), DobAgeRow(x, clock)),
        IntakeEmailRow(x)), IntakePhoneRow(x)), ContactMethodRow(x))
  {
    TableOfSeven(FullNameRow(x), DobRequiredRow(x), DobFutureRow(x, clock), DobAgeRow(x, clock),
      IntakeEmailRow(x), IntakePhoneRow(x), ContactMethodRow(x));
    TableOfSix(FullNameRow(x), DobRequiredRow(x), DobFutureRow(x, clock), DobAgeRow(x, clock),
      IntakeEmailRow(x), IntakePhoneRow(x));
    TableOfFour(FullNameRow(x), DobRequiredRow(x), DobFutureRow(x, clock), DobAgeRow(x, clock));
  }

  lemma BackgroundRows(x: IntakeForm)
    ensures TableErrors(BackgroundTable(x)) ==
      Record(Record(Record(Record(Record(Record(Record(map[],
        OccupationRow(x)), RelationshipRow(x)), ChildrenRow(x)), ReferredByRow(x)),
        EmgNameRow(x)), EmgPhoneRow(x)), EmgRelationRow(x))
  {
    TableOfSeven(OccupationRow(x), RelationshipRow(x), ChildrenRow(x), ReferredByRow(x),
      EmgNameRow(x), EmgPhoneRow(x), EmgRelationRow(x));
    TableOfSix(OccupationRow(x), RelationshipRow(x), ChildrenRow(x), ReferredByRow(x),
      EmgNameRow(x), EmgPhoneRow(x));
    TableOfFour(OccupationRow(x), RelationshipRow(x), ChildrenRow(x), ReferredByRow(x));
  }

  lemma ConcernsRows(x: IntakeForm)
    ensures TableErrors(ConcernsTable(x)) ==
      Record(Record(Record(Record(Record(Record(map[],
        ConcernsRow(x)), PresentingDescRow(x)), GoalsRow(x)), MedsNowRow(x)),
        TherapyBeforeRow(x)), ConcernOtherRow(x))
  {
    TableOfSix(ConcernsRow(x), PresentingDescRow(x), GoalsRow(x), MedsNowRow(x),
      TherapyBeforeRow(x), ConcernOtherRow(x));
    TableOfFour(ConcernsRow(x), PresentingDescRow(x), GoalsRow(x), MedsNowRow(x));
  }

  lemma ConsentRows(x: IntakeForm, clock: Clock)
    ensures TableErrors(ConsentTable(x, clock)) ==
      Record(Record(Record(map[], ConsentRow(x)), SignatureRow(x)), SigDateRow(x, clock))
  {
    TableOfThree(ConsentRow(x), SignatureRow(x), SigDateRow(x, clock));
  }

  /** Step 1 passes exactly when the full name has at least 2 characters,
      the date of birth is given, not in the future and at least thirteen
      years back, the email is well formed, the phone number is valid, and
      a contact method is checked. */
  lemma AboutYouValidIff(x: IntakeForm, clock: Clock)
    ensures StepValid(1, x, clock) <==>
      && JsLength(Trim(x.fullName)) >= 2
      && x.dob.Some? && x.dob.value <= clock.today && x.dob.value <= clock.thirteenYearsAgo
      && IsValidEmail(Trim(x.email))
      && IsValidPhone(Trim(x.phone))
      && |x.contactMethod| > 0
  {
    StepValidIff(1, x, clock);
    AboutYouRows(x, clock);
    var m1 := Record(map[], FullNameRow(x));
    var m2 := Record(m1, DobRequiredRow(x));
    var m3 := Record(m2, DobFutureRow(x, clock));
    var m4 := Record(m3, DobAgeRow(x, clock));
    var m5 := Record(m4, IntakeEmailRow(x));
    var m6 := Record(m5, IntakePhoneRow(x));
    RecordTwo(map[], FullNameRow(x));
    RecordOne(m1, DobRequiredRow(x));
    RecordOne(m2, DobFutureRow(x, clock));
    RecordOne(m3, DobAgeRow(x, clock));
    RecordTwo(m4, IntakeEmailRow(x));
    RecordTwo(m5, IntakePhoneRow(x));
    RecordOne(m6, ContactMethodRow(x));
  }

  /** Step 2 passes exactly when the occupation has at least 2 characters, a
      relationship status is selected, the children and referral notes are
      at most 50 and 100 characters, and the emergency contact has a name
      and a relationship of at least 2 characters and a valid phone number. */
  lemma BackgroundValidIff(x: IntakeForm, clock: Clock)
    ensures StepValid(2, x, clock) <==>
      && JsLength(Trim(x.occupation)) >= 2
      && x.relationshipStatus != ""
      && JsLength(Trim(x.children)) <= 50
      && JsLength(Trim(x.referredBy)) <= 100
      && JsLength(Trim(x.emgName)) >= 2
      && IsValidPhone(Trim(x.emgPhone))
      && JsLength(Trim(x.emgRelation)) >= 2
  {
    StepValidIff(2, x, clock);
    BackgroundRows(x);
    var m1 := Record(map[], OccupationRow(x));
    var m2 := Record(m1, RelationshipRow(x));
    var m3 := Record(m2, ChildrenRow(x));
    var m4 := Record(m3, ReferredByRow(x));
    var m5 := Record(m4, EmgNameRow(x));
    var m6 := Record(m5, EmgPhoneRow(x));
    RecordTwo(map[], OccupationRow(x));
    RecordOne(m1, RelationshipRow(x));
    RecordOne(m2, ChildrenRow(x));
    RecordOne(m3, ReferredByRow(x));
    RecordTwo(m4, EmgNameRow(x));
    RecordTwo(m5, EmgPhoneRow(x));
    RecordTwo(m6, EmgRelationRow(x));
  }

  /** Step 3 passes exactly when a concern is checked, the description and
      the goals have at least 10 characters, both yes/no questions are
      answered, and a checked "Other" concern comes with a non-blank text. */
  lemma ConcernsValidIff(x: IntakeForm, clock: Clock)
    ensures StepValid(3, x, clock) <==>
      && |x.concerns| > 0
      && JsLength(Trim(x.presentingDesc)) >= 10
      && JsLength(Trim(x.goals)) >= 10
      && x.medsNow.Some?
      && x.therapyBefore.Some?
      && (x.concernOther ==> Trim(x.concernOtherText) != "")
  {
    StepValidIff(3, x, clock);
    ConcernsRows(x);
    var m1 := Record(map[], ConcernsRow(x));
    var m2 := Record(m1, PresentingDescRow(x));
    var m3 := Record(m2, GoalsRow(x));
    var m4 := Record(m3, MedsNowRow(x));
    var m5 := Record(m4, TherapyBeforeRow(x));
    RecordOne(map[], ConcernsRow(x));
    RecordTwo(m1, PresentingDescRow(x));
    RecordTwo(m2, GoalsRow(x));
    RecordOne(m3, MedsNowRow(x));
    RecordOne(m4, TherapyBeforeRow(x));
    RecordOne(m5, ConcernOtherRow(x));
  }

  /** The change handler of the "Other" concern box: the box takes its new
      state, and unchecking it empties the "Other" text; every other field
      stays as it was. Showing, hiding and focusing the text box are
      rendering, and the draft it saves afterwards is `saveDraft`'s. The box
      is taken to be a control of its own, outside the `concerns` group. */
  function ToggleOtherConcern(x: IntakeForm, checked: bool): (r: IntakeForm)
    ensures r.concernOther == checked
    ensures r.concernOtherText == if checked then x.concernOtherText else ""
    ensures r.(concernOther := x.concernOther, concernOtherText := x.concernOtherText) == x
  {
    x.(concernOther := checked, concernOtherText := if checked then x.concernOtherText else "")
  }

  /** After the "Other" box is unchecked its text check passes and step 3
      passes whenever it passed before; after it is checked, the text check
      fails exactly when the text kept is blank. */
  lemma ToggleOtherConcernDecidesItsCheck(x: IntakeForm, clock: Clock)
    ensures !ConcernOtherRow(ToggleOtherConcern(x, false)).checks[0].fails
    ensures ConcernOtherRow(ToggleOtherConcern(x, true)).checks[0].fails <==> Trim(x.concernOtherText) == ""
    ensures StepValid(3, x, clock) ==> StepValid(3, ToggleOtherConcern(x, false), clock)
  {
    ConcernsValidIff(x, clock);
    ConcernsValidIff(ToggleOtherConcern(x, false), clock);
  }

  /** Step 4 passes exactly when consent is given, the signature has at
      least 2 characters, and the signature date is given and not in the
      future. */
  lemma ConsentValidIff(x: IntakeForm, clock: Clock)
    ensures StepValid(4, x, clock) <==>
      && x.consent
      && JsLength(Trim(x.signature)) >= 2
      && x.sigDate.Some? && x.sigDate.value <= clock.today
  {
    StepValidIff(4, x, clock);
    ConsentRows(x, clock);
    var m1 := Record(map[], ConsentRow(x));
    var m2 := Record(m1, SignatureRow(x));
    RecordOne(map[], ConsentRow(x));
    RecordTwo(m1, SignatureRow(x));
    RecordTwo(m2, SigDateRow(x, clock));
  }

  /** A step number outside 1..4 has no rules, so it always passes. */
  lemma OtherStepsPass(step: int, x: IntakeForm, clock: Clock)
    requires step < 1 || step > 4
    ensures StepValid(step, x, clock) && StepErrors(step, x, clock) == map[]
  {
  }

  // ---------------------------------------------------------------------
  // Cross-field rule on the preferred contact methods

  /** `validateContact`: the status message it shows, or None when it passes.
      A checked method needs its detail, and one of the checked methods must
      be Phone or Email with its detail filled in. */
  function ContactPrefsError(x: IntakeForm): (r: Option<Message>)
    ensures r.None? <==>
      && |x.contactMethod| > 0
      && ("Phone" in x.contactMethod ==> Trim(x.phone) != "")
      && ("Email" in x.contactMethod ==> Trim(x.email) != "")
      && ("Phone" in x.contactMethod || "Email" in x.contactMethod)
  {
    var methods := x.contactMethod;
    var phoneSelected := "Phone" in methods;
    var phoneProvided := Trim(x.phone) != "";
    var emailSelected := "Email" in methods;
    var emailProvided := Trim(x.email) != "";
    if |methods| == 0 then Some(NoContactMethod)
    else if phoneSelected && !phoneProvided then Some(PhoneNotProvided)
    else if emailSelected && !emailProvided then Some(EmailNotProvided)
    else if !((phoneSelected && phoneProvided) || (emailSelected && emailProvided)) then Some(NoUsableContact)
    else None
  }

  /** The cross-field rule fails whenever Phone is checked and the phone
      field is blank, even if every per-field rule of every step passes. */
  lemma PhoneCheckedNeedsPhone(x: IntakeForm)
    requires "Phone" in x.contactMethod && forall k :: 0 <= k < |x.phone| ==> IsSpace(x.phone[k])
    ensures ContactPrefsError(x) == Some(PhoneNotProvided)
  {
  }

  /** Once step 1 passes, the phone and email are filled in, so the rule
      can only fail because neither Phone nor Email is among the checked
      methods. */
  lemma ContactRuleAfterStepOne(x: IntakeForm, clock: Clock)
    requires StepValid(1, x, clock)
    ensures ContactPrefsError(x).Some? <==> "Phone" !in x.contactMethod && "Email" !in x.contactMethod
    ensures ContactPrefsError(x).Some? ==> ContactPrefsError(x).value == NoUsableContact
  {
    AboutYouValidIff(x, clock);
    PhoneNeedsDigitOrPlus("");
  }

  // ---------------------------------------------------------------------
  // The phone fields' blur check against the submit-time checks

  /** On leaving a phone field, the blur check shows its message exactly
      when the submit-time check of that field would stop at "not a valid
      phone number": on step 1's phone and on the contact form's phone. A
      blank field passes the blur check but fails the submit-time check as
      missing. */
  lemma BlurAgreesWithSubmitChecks(x: IntakeForm, c: ContactForm)
    ensures PhoneBlurError(x.phone).Some? <==> FirstFailure(IntakePhoneRow(x).checks) == Some(PhoneInvalid)
    ensures Trim(x.phone) == "" ==>
      PhoneBlurError(x.phone).None? && FirstFailure(IntakePhoneRow(x).checks) == Some(PhoneRequired)
    ensures PhoneBlurError(c.phone).Some? <==> FirstFailure(ContactPhoneRow(c).checks) == Some(PhoneInvalid)
  {
    FirstFailureTwo(IntakePhoneRow(x).checks[0], IntakePhoneRow(x).checks[1]);
    FirstFailureThree(ContactPhoneRow(c).checks[0], ContactPhoneRow(c).checks[1], ContactPhoneRow(c).checks[2]);
  }

  /** `validateStep`: clears the old messages, then applies the checks of
      the given step; a step number outside 1..4 checks nothing. */
  method ValidateStep(step: int, x: IntakeForm, clock: Clock) returns (isValid: bool, errors: Errors)
    ensures errors == StepErrors(step, x, clock)
    ensures isValid <==> StepValid(step, x, clock)
  {
    if step == 1 {
      isValid, errors := ValidateAboutYou(x, clock);
    } else if step == 2 {
      isValid, errors := ValidateBackground(x);
    } else if step == 3 {
      isValid, errors := ValidateConcerns(x);
    } else if step == 4 {
      isValid, errors := ValidateConsent(x, clock);
    } else {
      isValid := true;
      errors := map[];
    }
  }

  /** Step 1 of `validateStep`. */
  method ValidateAboutYou(x: IntakeForm, clock: Clock) returns (isValid: bool, errors: Errors)
    ensures errors == TableErrors(AboutYouTable(x, clock))
    ensures isValid <==> Passes(AboutYouTable(x, clock))
    ensures isValid <==> errors == map[]
  {
    isValid := true;
    errors := map[];
    isValid, errors := ApplyTwo(FullNameRow(x), isValid, errors);
    isValid, errors := CheckDob(x, clock, isValid, errors);
    isValid, errors := ApplyTwo(IntakeEmailRow(x), isValid, errors);
    isValid, errors := ApplyTwo(IntakePhoneRow(x), isValid, errors);
    isValid, errors := ApplyOne(ContactMethodRow(x), isValid, errors);
    AboutYouRows(x, clock);
    TableErrorsEmptyIff(AboutYouTable(x, clock));
  }

  /** Step 2 of `validateStep`. */
  method ValidateBackground(x: IntakeForm) returns (isValid: bool, errors: Errors)
    ensures errors == TableErrors(BackgroundTable(x))
    ensures isValid <==> Passes(BackgroundTable(x))
    ensures isValid <==> errors == map[]
  {
    isValid := true;
    errors := map[];
    isValid, errors := ApplyTwo(OccupationRow(x), isValid, errors);
    isValid, errors := ApplyOne(RelationshipRow(x), isValid, errors);
    isValid, errors := ApplyOne(ChildrenRow(x), isValid, errors);
    isValid, errors := ApplyOne(ReferredByRow(x), isValid, errors);
    isValid, errors := ApplyTwo(EmgNameRow(x), isValid, errors);
    isValid, errors := ApplyTwo(EmgPhoneRow(x), isValid, errors);
    isValid, errors := ApplyTwo(EmgRelationRow(x), isValid, errors);
    BackgroundRows(x);
    TableErrorsEmptyIff(BackgroundTable(x));
  }

  /** Step 3 of `validateStep`. */
  method ValidateConcerns(x: IntakeForm) returns (isValid: bool, errors: Errors)
    ensures errors == TableErrors(ConcernsTable(x))
    ensures isValid <==> Passes(ConcernsTable(x))
    ensures isValid <==> errors == map[]
  {
    isValid := true;
    errors := map[];
    isValid, errors := ApplyOne(ConcernsRow(x), isValid, errors);
    isValid, errors := ApplyTwo(PresentingDescRow(x), isValid, errors);
    isValid, errors := ApplyTwo(GoalsRow(x), isValid, errors);
    isValid, errors := ApplyOne(MedsNowRow(x), isValid, errors);
    isValid, errors := ApplyOne(TherapyBeforeRow(x), isValid, errors);
    isValid, errors := ApplyOne(ConcernOtherRow(x), isValid, errors);
    ConcernsRows(x);
    TableErrorsEmptyIff(ConcernsTable(x));
  }

  /** Step 4 of `validateStep`. */
  method ValidateConsent(x: IntakeForm, clock: Clock) returns (isValid: bool, errors: Errors)
    ensures errors == TableErrors(ConsentTable(x, clock))
    ensures isValid <==> Passes(ConsentTable(x, clock))
    ensures isValid <==> errors == map[]
  {
    isValid := true;
    errors := map[];
    isValid, errors := ApplyOne(ConsentRow(x), isValid, errors);
    isValid, errors := ApplyTwo(SignatureRow(x), isValid, errors);
    isValid, errors := ApplyTwo(SigDateRow(x, clock), isValid, errors);
    ConsentRows(x, clock);
    TableErrorsEmptyIff(ConsentTable(x, clock));
  }

  /** The date-of-birth check: a missing date is refused; otherwise the future
      check and then the age check each write their message, the later one
      replacing the earlier. */
  method CheckDob(x: IntakeForm, clock: Clock, isValid: bool, errors: Errors) returns (valid: bool, shown: Errors)
    requires isValid <==> errors == map[]
    ensures shown == Record(Record(Record(errors, DobRequiredRow(x)), DobFutureRow(x, clock)), DobAgeRow(x, clock))
    ensures valid <==> shown == map[]
  {
    valid, shown := isValid, errors;
    if x.dob.None? {
      shown := shown["dob" := DobRequired];
      valid := false;
    } else {
      var selected := x.dob.value;
      if selected > clock.today {
        shown := shown["dob" := DobInFuture];
        valid := false;
      }
      if selected > clock.thirteenYearsAgo {
        shown := shown["dob" := DobUnderThirteen];
        valid := false;
      }
    }
    var m1 := Record(errors, DobRequiredRow(x));
    var m2 := Record(m1, DobFutureRow(x, clock));
    RecordOne(errors, DobRequiredRow(x));
    RecordOne(m1, DobFutureRow(x, clock));
    RecordOne(m2, DobAgeRow(x, clock));
  }
}
