/**
 * The user-variant adoption form: the validation schema's rules, and the
 * submission that appends one pending record to the stored applications.
 */
module AdoptionForm {
  import opened Wrappers
  import opened Types
  import opened KeyValue

  const ApplicationsKey := "applications"
  const NotAnApplicationList := "stored applications are not a list"
  const InvalidForm := "the form does not satisfy the schema"

  /**
   * The schema: every text answer is required, the email must pass the
   * schema library's email rule (a parameter here), and the terms must be
   * agreed to. The two yes/no answers are always present.
   */
  predicate SchemaValid(form: ApplicantForm, isEmail: string -> bool) {
    && form.fullName != "" && form.address != "" && form.phone != "" && form.email != ""
    && form.birthdate != "" && form.occupation != "" && form.householdMembers != ""
    && form.homeType != "" && form.hoursAlone != "" && form.petExperience != "" && form.whyAdopt != ""
    && isEmail(form.email)
    && form.agreement
  }

  /** The schema's keys. */
  datatype Field = FullName | Address | Phone | Email | Birthdate | Occupation | HouseholdMembers
                 | HomeType | HoursAlone | PetExperience | WhyAdopt | Agreement

  const AllFields := {FullName, Address, Phone, Email, Birthdate, Occupation, HouseholdMembers,
                      HomeType, HoursAlone, PetExperience, WhyAdopt, Agreement}

  /** The rule of one key fails. */
  predicate Fails(form: ApplicantForm, isEmail: string -> bool, field: Field) {
    match field
    case FullName => form.fullName == ""
    case Address => form.address == ""
    case Phone => form.phone == ""
    case Email => form.email == "" || !isEmail(form.email)
    case Birthdate => form.birthdate == ""
    case Occupation => form.occupation == ""
    case HouseholdMembers => form.householdMembers == ""
    case HomeType => form.homeType == ""
    case HoursAlone => form.hoursAlone == ""
    case PetExperience => form.petExperience == ""
    case WhyAdopt => form.whyAdopt == ""
    case Agreement => !form.agreement
  }

  /** The message a failing key reports; an empty email reports only that it is required. */
  function Message(form: ApplicantForm, field: Field): string {
    match field
    case FullName => "Full name is required"
    case Address => "Address is required"
    case Phone => "Phone number is required"
    case Email => if form.email == "" then "Email is required" else "Invalid email"
    case Birthdate => "Birthdate is required"
    case Occupation => "Occupation is required"
    case HouseholdMembers => "Please describe household members"
    case HomeType => "Please specify your home type"
    case HoursAlone => "Please specify hours pet would be alone"
    case PetExperience => "Please describe your pet experience"
    case WhyAdopt => "Please explain why you want to adopt"
    case Agreement => "You must agree to the terms"
  }

  /** The schema's error object: one message per failing key, and none exactly when the form is valid. */
  function Violations(form: ApplicantForm, isEmail: string -> bool): (r: map<Field, string>)
    ensures forall field :: field in r <==> Fails(form, isEmail, field)
    ensures forall field :: field in r ==> r[field] == Message(form, field)
    ensures r == map[] <==> SchemaValid(form, isEmail)
  {
    var r := map field | field in AllFields && Fails(form, isEmail, field) :: Message(form, field);
    AllFieldsComplete();
    NoViolationIffValid(r, form, isEmail);
    r
  }

  lemma AllFieldsComplete()
    ensures forall field :: field in AllFields
  {
    forall field ensures field in AllFields {
      match field
      case FullName =>
      case Address =>
      case Phone =>
      case Email =>
      case Birthdate =>
      case Occupation =>
      case HouseholdMembers =>
      case HomeType =>
      case HoursAlone =>
      case PetExperience =>
      case WhyAdopt =>
      case Agreement =>
    }
  }

  lemma NoViolationIffValid(r: map<Field, string>, form: ApplicantForm, isEmail: string -> bool)
    requires forall field :: field in r <==> Fails(form, isEmail, field)
    ensures r == map[] <==> SchemaValid(form, isEmail)
  {
    if r == map[] {
      assert !Fails(form, isEmail, FullName) && !Fails(form, isEmail, Address) && !Fails(form, isEmail, Phone);
      assert !Fails(form, isEmail, Email) && !Fails(form, isEmail, Birthdate) && !Fails(form, isEmail, Occupation);
      assert !Fails(form, isEmail, HouseholdMembers) && !Fails(form, isEmail, HomeType);
      assert !Fails(form, isEmail, HoursAlone) && !Fails(form, isEmail, PetExperience);
      assert !Fails(form, isEmail, WhyAdopt) && !Fails(form, isEmail, Agreement);
    } else {
      var field :| field in r;
      assert Fails(form, isEmail, field);
    }
  }

  /** The record `onSubmit` pushes, as written: the answers, the pet, pending, created now, and no id. */
  function RecordAsWritten(form: ApplicantForm, pet: Pet, now: Time): (a: Application)
    ensures a.id.None? && a.status == AppPending && a.petId == pet.id && a.petName == pet.name
  {
    Application(None, pet.id, pet.name, form, AppPending, None, Some(now), None, None)
  }

  /** The record with the id the review screen needs to tell it apart. */
  function Record(form: ApplicantForm, pet: Pet, newId: string, now: Time): (a: Application)
    ensures a == RecordAsWritten(form, pet, now).(id := Some(newId))
    ensures a.status == AppPending && a.petId == pet.id && a.petName == pet.name && a.form == form
  {
    Application(Some(newId), pet.id, pet.name, form, AppPending, None, Some(now), None, None)
  }

  /** The stored list as `onSubmit` reads it: absent is []. */
  function DecodeApplications(b: Option<Blob>): (r: Result<seq<Application>>)
    ensures b.None? ==> r == Success([])
    ensures r.Success? && b.Some? ==> b.value == AppList(r.value)
  {
    match b
    case None => Success([])
    case Some(AppList(a)) => Success(a)
    case Some(_) => Failure(NotAnApplicationList)
  }

  /**
   * `handleSubmit(onSubmit)`: a form the schema rejects is not submitted;
   * otherwise the stored list gains exactly one record at its end. Any
   * storage failure is reported and nothing is written.
   */
  method Submit(storage: KeyValue.Store, form: ApplicantForm, isEmail: string -> bool, pet: Pet,
                newId: string, now: Time, readFails: bool, writeFails: bool) returns (r: Outcome)
    modifies storage
    ensures !SchemaValid(form, isEmail) ==> r == Fail(InvalidForm) && storage.items == old(storage.items)
    ensures var stored := DecodeApplications(Lookup(old(storage.items), ApplicationsKey));
      SchemaValid(form, isEmail) ==>
        if readFails || stored.Failure? then r.Fail? && storage.items == old(storage.items)
        else
          && (r.Pass? <==> !writeFails)
          && storage.items == Written(old(storage.items), ApplicationsKey,
               AppList(stored.value + [Record(form, pet, newId, now)]), writeFails)
  {
    if !SchemaValid(form, isEmail) {
      return Fail(InvalidForm);
    }
    var data := storage.GetItem(ApplicationsKey, readFails);
    if data.Failure? {
      return Fail(data.error);
    }
    var stored := DecodeApplications(data.value);
    if stored.Failure? {
      return Fail(stored.error);
    }
    var updatedApplications := stored.value;
    updatedApplications := updatedApplications + [Record(form, pet, newId, now)];
    r := storage.SetItem(ApplicationsKey, AppList(updatedApplications), writeFails);
  }
}
