/**
  Validation of the add-employee form and of the add-company / add-vendor
  form. Validation returns the set of errors shown beside the fields; the
  form is accepted when that set is empty.
*/
module Forms {
  import opened Wrappers

  /** The number of characters an Aadhar number must have. */
  const AadharLength: nat := 12

  /** Whitespace as Python's `str.isspace` defines it. */
  predicate IsSpace(c: char) {
    || '\t' <= c <= '\r'
    || '\U{1C}' <= c <= ' '
    || c == '\U{85}' || c == '\U{A0}' || c == '\U{1680}'
    || '\U{2000}' <= c <= '\U{200A}'
    || c == '\U{2028}' || c == '\U{2029}' || c == '\U{202F}' || c == '\U{205F}' || c == '\U{3000}'
  }

  /** The value without its leading whitespace, as Python's `str.lstrip`. */
  function StripLeading(s: string): (r: string)
    ensures |r| <= |s|
    ensures r == [] || !IsSpace(r[0])
    ensures r == s[|s| - |r|..]
  {
    if |s| > 0 && IsSpace(s[0]) then StripLeading(s[1..]) else s
  }

  /** The value without its trailing whitespace, as Python's `str.rstrip`. */
  function StripTrailing(s: string): (r: string)
    ensures |r| <= |s|
    ensures r == [] || !IsSpace(r[|r| - 1])
    ensures r == s[..|r|]
  {
    if |s| > 0 && IsSpace(s[|s| - 1]) then StripTrailing(s[..|s| - 1]) else s
  }

  /** The value without surrounding whitespace, as Python's `str.strip`. */
  function Strip(s: string): string {
    StripTrailing(StripLeading(s))
  }

  /** Left-stripping leaves nothing exactly when every character is whitespace. */
  lemma {:induction false} StripLeadingEmptyIff(s: string)
    ensures StripLeading(s) == [] <==> forall i :: 0 <= i < |s| ==> IsSpace(s[i])
    decreases |s|
  {
    if |s| > 0 && IsSpace(s[0]) {
      StripLeadingEmptyIff(s[1..]);
      assert forall i :: 1 <= i < |s| ==> s[i] == s[1..][i - 1];
    }
  }

  /** Right-stripping never removes a leading non-whitespace character. */
  lemma {:induction false} StripTrailingKeepsFirst(s: string)
    requires |s| > 0 && !IsSpace(s[0])
    ensures StripTrailing(s) != []
    decreases |s|
  {
    if IsSpace(s[|s| - 1]) {
      StripTrailingKeepsFirst(s[..|s| - 1]);
    }
  }

  /** The required-data check: some character of the value is not whitespace. */
  predicate Present(s: string) {
    exists i :: 0 <= i < |s| && !IsSpace(s[i])
  }

  /** A value is present exactly when stripping its surrounding whitespace leaves something. */
  lemma PresentIffStripped(s: string)
    ensures Present(s) <==> Strip(s) != []
  {
    StripLeadingEmptyIff(s);
    var t := StripLeading(s);
    if t != [] {
      StripTrailingKeepsFirst(t);
    }
  }

  datatype FormError =
    | AadharMissing
    | AadharWrongLength
    | AadharRegistered
    | NameMissing
    | MobileMissing
    | PermanentAddressMissing
    | PresentAddressMissing
    | TypeOfJobMissing
    | AddressMissing
    | CompanyNotAValidChoice
    | VendorNotAValidChoice

  /**
    The submitted add-employee form. `company` and `vendor` are the rows picked
    in the two drop-downs, `None` for the blank choice.
  */
  datatype EmployeeForm = EmployeeForm(
    aadhar: string,
    name: string,
    mobile: string,
    permanentAddress: string,
    presentAddress: string,
    previousJob: string,
    duration: string,
    previousSalary: string,
    typeOfJob: string,
    company: Option<nat>,
    vendor: Option<nat>)

  /** The submitted add-company or add-vendor form. */
  datatype EntityForm = EntityForm(name: string, address: string)

  /** The error of a required field, if its value is blank. */
  function Required(value: string, err: FormError): set<FormError> {
    if Present(value) then {} else {err}
  }

  /**
    The Aadhar field's validator chain: a blank value stops the chain; otherwise
    the length check and the uniqueness check both run and both may report.
  */
  function AadharErrors(aadhar: string, registered: set<string>): set<FormError> {
    if !Present(aadhar) then {AadharMissing}
    else
      (if |aadhar| == AadharLength then {} else {AadharWrongLength})
      + (if aadhar in registered then {AadharRegistered} else {})
  }

  /** A drop-down choice is valid when it names an existing row, or is blank and blank is allowed. */
  function ChoiceErrors(choice: Option<nat>, rows: set<nat>, allowBlank: bool, err: FormError): set<FormError> {
    match choice
    case None => if allowBlank then {} else {err}
    case Some(id) => if id in rows then {} else {err}
  }

  /** Everything the add-employee form demands of a submission, stated as one condition. */
  predicate AcceptableEmployee(f: EmployeeForm, registered: set<string>, companies: set<nat>, vendors: set<nat>) {
    && Present(f.aadhar) && |f.aadhar| == AadharLength && f.aadhar !in registered
    && Present(f.name) && Present(f.mobile)
    && Present(f.permanentAddress) && Present(f.presentAddress)
    && Present(f.typeOfJob)
    && f.company.Some? && f.company.value in companies
    && (f.vendor.Some? ==> f.vendor.value in vendors)
  }

  /**
    Validates a submitted add-employee form against the Aadhar numbers already
    registered and the company and vendor rows on offer.
  */
  function ValidateEmployeeForm(f: EmployeeForm, registered: set<string>, companies: set<nat>, vendors: set<nat>): (errs: set<FormError>)
    ensures errs == {} <==> AcceptableEmployee(f, registered, companies, vendors)
  {
    AadharErrors(f.aadhar, registered)
    + Required(f.name, NameMissing)
    + Required(f.mobile, MobileMissing)
    + Required(f.permanentAddress, PermanentAddressMissing)
    + Required(f.presentAddress, PresentAddressMissing)
    + Required(f.typeOfJob, TypeOfJobMissing)
    + ChoiceErrors(f.company, companies, false, CompanyNotAValidChoice)
    + ChoiceErrors(f.vendor, vendors, true, VendorNotAValidChoice)
  }

  /** Validates a submitted add-company or add-vendor form: both fields are required. */
  function ValidateEntityForm(f: EntityForm): (errs: set<FormError>)
    ensures errs == {} <==> Present(f.name) && Present(f.address)
    ensures errs <= {NameMissing, AddressMissing}
  {
    Required(f.name, NameMissing) + Required(f.address, AddressMissing)
  }

  // ---------------------------------------------------------------------------
  // The Aadhar number.

  /** A non-blank Aadhar number of any length but twelve is rejected with a length error. */
  lemma AadharLengthEnforced(f: EmployeeForm, registered: set<string>, companies: set<nat>, vendors: set<nat>)
    requires |f.aadhar| != AadharLength
    ensures ValidateEmployeeForm(f, registered, companies, vendors) != {}
    ensures Present(f.aadhar) ==> AadharWrongLength in ValidateEmployeeForm(f, registered, companies, vendors)
  {
  }

  /** An Aadhar number already on file is rejected, with a duplicate error unless it is blank. */
  lemma RegisteredAadharRejected(f: EmployeeForm, registered: set<string>, companies: set<nat>, vendors: set<nat>)
    requires f.aadhar in registered
    ensures ValidateEmployeeForm(f, registered, companies, vendors) != {}
    ensures Present(f.aadhar) ==> AadharRegistered in ValidateEmployeeForm(f, registered, companies, vendors)
  {
  }

  /** A wrong-length Aadhar number that is also on file draws both errors: the length error does not stop the chain. */
  lemma LengthAndDuplicateBothReported(f: EmployeeForm, registered: set<string>, companies: set<nat>, vendors: set<nat>)
    requires Present(f.aadhar) && |f.aadhar| != AadharLength && f.aadhar in registered
    ensures {AadharWrongLength, AadharRegistered} <= ValidateEmployeeForm(f, registered, companies, vendors)
    ensures AadharMissing !in ValidateEmployeeForm(f, registered, companies, vendors)
  {
  }

  /** A blank Aadhar value draws only the missing-data error: the chain stops there. */
  lemma BlankAadharStopsChain(f: EmployeeForm, registered: set<string>, companies: set<nat>, vendors: set<nat>)
    requires !Present(f.aadhar)
    ensures var errs := ValidateEmployeeForm(f, registered, companies, vendors);
      AadharMissing in errs && AadharWrongLength !in errs && AadharRegistered !in errs
  {
  }

  /**
    A fresh, non-blank, twelve-character Aadhar value draws no Aadhar error,
    whatever its characters are: only the length is checked, not the digits.
  */
  lemma FreshAadharPasses(f: EmployeeForm, registered: set<string>, companies: set<nat>, vendors: set<nat>)
    requires Present(f.aadhar) && |f.aadhar| == AadharLength && f.aadhar !in registered
    ensures var errs := ValidateEmployeeForm(f, registered, companies, vendors);
      AadharMissing !in errs && AadharWrongLength !in errs && AadharRegistered !in errs
  {
  }

  // ---------------------------------------------------------------------------
  // The other fields.

  /** Each required text field, left blank, is reported. */
  lemma RequiredFieldsEnforced(f: EmployeeForm, registered: set<string>, companies: set<nat>, vendors: set<nat>)
    ensures var errs := ValidateEmployeeForm(f, registered, companies, vendors);
      && (NameMissing in errs <==> !Present(f.name))
      && (MobileMissing in errs <==> !Present(f.mobile))
      && (PermanentAddressMissing in errs <==> !Present(f.permanentAddress))
      && (PresentAddressMissing in errs <==> !Present(f.presentAddress))
      && (TypeOfJobMissing in errs <==> !Present(f.typeOfJob))
  {
  }

  /** The previous job, its duration and the previous salary are free text nobody checks. */
  lemma OptionalFieldsUnchecked(f: EmployeeForm, job: string, duration: string, salary: string,
                                registered: set<string>, companies: set<nat>, vendors: set<nat>)
    ensures ValidateEmployeeForm(f.(previousJob := job, duration := duration, previousSalary := salary), registered, companies, vendors)
         == ValidateEmployeeForm(f, registered, companies, vendors)
  {
  }

  /** A company must be picked from the existing rows; the vendor may be left blank, meaning a direct hire. */
  lemma CompanyRequiredVendorOptional(f: EmployeeForm, registered: set<string>, companies: set<nat>, vendors: set<nat>)
    ensures var errs := ValidateEmployeeForm(f, registered, companies, vendors);
      && (CompanyNotAValidChoice in errs <==> f.company.None? || f.company.value !in companies)
      && (VendorNotAValidChoice in errs <==> f.vendor.Some? && f.vendor.value !in vendors)
  {
  }
}
