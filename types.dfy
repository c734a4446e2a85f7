/**
 * The records the store keeps: pets and adoption applications, with the
 * status enumerations of the shared type definitions.
 */
module Types {
  import opened Wrappers

  /** Milliseconds since the epoch; every `new Date()` / `Date.now()` of the app is a parameter. */
  type Time = int

  /** `Pet.status`. */
  datatype PetStatus = Available | Adopted | Pending | Removed

  /** `Application.status`. */
  datatype AppStatus = AppPending | Approved | Rejected

  /** The `'approved' | 'rejected'` argument of a status change. */
  datatype Decision = Approve | Reject

  /** The status a decision sets: never back to pending. */
  function DecisionStatus(d: Decision): (s: AppStatus)
    ensures s != AppPending
    ensures s == Approved <==> d == Approve
  {
    match d
    case Approve => Approved
    case Reject => Rejected
  }

  /**
   * A pet. `species`, `size` and `temperament` exist only in the admin-form
   * variant; a pet built by the other variant carries "", None and [].
   */
  datatype Pet = Pet(
    id: string,
    name: string,
    species: string,
    breed: string,
    age: string,
    gender: string,
    size: Option<string>,
    temperament: seq<string>,
    description: string,
    imageUrl: string,
    status: PetStatus,
    createdAt: Option<Time>,
    updatedAt: Option<Time>)

  /** The applicant's answers on the adoption form. */
  datatype ApplicantForm = ApplicantForm(
    fullName: string,
    address: string,
    phone: string,
    email: string,
    birthdate: string,
    occupation: string,
    hasAdoptedBefore: bool,
    householdMembers: string,
    homeType: string,
    hoursAlone: string,
    hasOtherPets: bool,
    petExperience: string,
    whyAdopt: string,
    agreement: bool)

  /**
   * An adoption application. `id` is None for the records the adoption form
   * screen stores, which never assigns one. The variants use different names
   * for the two dates, so all four are kept.
   */
  datatype Application = Application(
    id: Option<string>,
    petId: string,
    petName: string,
    form: ApplicantForm,
    status: AppStatus,
    applicationDate: Option<Time>,
    createdAt: Option<Time>,
    reviewedDate: Option<Time>,
    reviewedAt: Option<Time>)

  /**
   * `Partial<Pet>`: None for a key absent from the update. For a pet field of
   * type Option, Some(None) is a key present with the value `undefined`.
   */
  datatype PetUpdate = PetUpdate(
    id: Option<string>,
    name: Option<string>,
    species: Option<string>,
    breed: Option<string>,
    age: Option<string>,
    gender: Option<string>,
    size: Option<Option<string>>,
    temperament: Option<seq<string>>,
    description: Option<string>,
    imageUrl: Option<string>,
    status: Option<PetStatus>,
    createdAt: Option<Option<Time>>,
    updatedAt: Option<Option<Time>>)

  function Or<T>(o: Option<T>, default: T): T {
    if o.Some? then o.value else default
  }

  /** `{ ...pet, ...updates }`: every key present in the update overrides the pet's field. */
  function Merge(p: Pet, u: PetUpdate): (r: Pet)
    ensures u.id.None? ==> r.id == p.id
    ensures u.status.None? ==> r.status == p.status
    ensures u.status.Some? ==> r.status == u.status.value
  {
    Pet(Or(u.id, p.id), Or(u.name, p.name), Or(u.species, p.species), Or(u.breed, p.breed),
        Or(u.age, p.age), Or(u.gender, p.gender), Or(u.size, p.size),
        Or(u.temperament, p.temperament), Or(u.description, p.description),
        Or(u.imageUrl, p.imageUrl), Or(u.status, p.status), Or(u.createdAt, p.createdAt),
        Or(u.updatedAt, p.updatedAt))
  }

  /** The update with no keys. */
  const NoUpdate := PetUpdate(None, None, None, None, None, None, None, None, None, None, None, None, None)

  /** Merging an update whose keys are all absent leaves the pet as it was. */
  lemma MergeNothing(p: Pet)
    ensures Merge(p, NoUpdate) == p
  {
  }

  /** Applying the same update twice is the same as applying it once. */
  lemma MergeIdempotent(p: Pet, u: PetUpdate)
    ensures Merge(Merge(p, u), u) == Merge(p, u)
  {
  }

  /** Ids of a pet list, in order. */
  function PetIds(pets: seq<Pet>): (r: seq<string>)
    ensures |r| == |pets| && forall i :: 0 <= i < |pets| ==> r[i] == pets[i].id
  {
    seq(|pets|, i requires 0 <= i < |pets| => pets[i].id)
  }

  /** No two pets share an id. */
  ghost predicate UniqueIds(pets: seq<Pet>) {
    forall i, j :: 0 <= i < j < |pets| ==> pets[i].id != pets[j].id
  }
}
