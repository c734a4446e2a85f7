/**
 * The admin-variant add / edit pet modal: required-field validation,
 * routing to add or update, and the temperament toggles.
 */
module AddPetModal {
  import opened Wrappers
  import opened Types
  import opened Seqs
  import AdoptionStore

  /** The modal's form state. `imageUrl` is None until an image is picked. */
  datatype PetFormData = PetFormData(
    id: Option<string>,
    name: string,
    species: string,
    breed: string,
    age: string,
    gender: string,
    size: Option<string>,
    temperament: seq<string>,
    description: string,
    imageUrl: Option<string>)

  /** The keys of the form, which are the keys an error can be filed under. */
  datatype FormField = IdField | NameField | SpeciesField | BreedField | AgeField | GenderField
                     | SizeField | TemperamentField | DescriptionField | ImageField

  /** A field the validation reports: an empty required text, or no image (null or ""). */
  predicate Missing(f: PetFormData, field: FormField) {
    match field
    case NameField => f.name == ""
    case SpeciesField => f.species == ""
    case AgeField => f.age == ""
    case GenderField => f.gender == ""
    case ImageField => f.imageUrl.None? || f.imageUrl.value == ""
    case _ => false
  }

  /** The five checks of `validateForm`, all at once. */
  predicate FormValid(f: PetFormData) {
    f.name != "" && f.species != "" && f.age != "" && f.gender != ""
    && f.imageUrl.Some? && f.imageUrl.value != ""
  }

  /** The message filed for a missing field. */
  function Message(field: FormField): string {
    match field
    case NameField => "Pet name is required"
    case SpeciesField => "Species is required"
    case AgeField => "Age is required"
    case GenderField => "Gender is required"
    case ImageField => "Image is required"
    case _ => ""
  }

  /** Valid exactly when no field is missing. */
  lemma ValidIffNothingMissing(f: PetFormData)
    ensures FormValid(f) <==> forall field :: !Missing(f, field)
  {
    if !FormValid(f) {
      if f.name == "" { assert Missing(f, NameField); }
      else if f.species == "" { assert Missing(f, SpeciesField); }
      else if f.age == "" { assert Missing(f, AgeField); }
      else if f.gender == "" { assert Missing(f, GenderField); }
      else { assert Missing(f, ImageField); }
    }
  }

  /** One `if (!formData.x) newErrors.x = '...'` step. */
  function Checked(errors: map<FormField, string>, f: PetFormData, field: FormField): (r: map<FormField, string>)
    ensures forall g :: g != field ==> (g in r <==> g in errors) && (g in errors ==> r[g] == errors[g])
    ensures field in r <==> field in errors || Missing(f, field)
    ensures Missing(f, field) ==> r[field] == Message(field)
  {
    if Missing(f, field) then errors[field := Message(field)] else errors
  }

  /**
   * The successive assignments of `validateForm`: one entry per missing field,
   * with its message, and the form passes exactly when there is none.
   */
  method CollectErrors(f: PetFormData) returns (errors: map<FormField, string>, ok: bool)
    ensures forall field :: field in errors <==> Missing(f, field)
    ensures forall field :: field in errors ==> errors[field] == Message(field)
    ensures ok <==> FormValid(f)
    ensures ok <==> errors == map[]
  {
    errors := map[];
    errors := Checked(errors, f, NameField);
    errors := Checked(errors, f, SpeciesField);
    errors := Checked(errors, f, AgeField);
    errors := Checked(errors, f, GenderField);
    errors := Checked(errors, f, ImageField);
    assert forall field :: field in errors <==> Missing(f, field);
    ok := errors == map[];
    EmptyIffValid(errors, f);
  }

  lemma EmptyIffValid(errors: map<FormField, string>, f: PetFormData)
    requires forall field :: field in errors <==> Missing(f, field)
    ensures errors == map[] <==> FormValid(f)
  {
    ValidIffNothingMissing(f);
    if errors != map[] {
      var field :| field in errors;
      assert Missing(f, field);
    }
  }

  /** The pet `handleSubmit` hands to `addPet`: the form's fields, status available, created now. */
  function PetOf(f: PetFormData, now: Time): (p: Pet)
    ensures p.status == Available && p.createdAt == Some(now)
    ensures p.name == f.name && p.species == f.species && p.temperament == f.temperament
  {
    Pet(Or(f.id, ""), f.name, f.species, f.breed, f.age, f.gender, f.size, f.temperament,
        f.description, Or(f.imageUrl, ""), Available, Some(now), None)
  }

  /** The update `handleSubmit` hands to `updatePet`: every key of the form, status available, created now. */
  function UpdateOf(f: PetFormData, now: Time): (u: PetUpdate)
    ensures u.status == Some(Available) && u.createdAt == Some(Some(now)) && u.id == f.id
  {
    PetUpdate(f.id, Some(f.name), Some(f.species), Some(f.breed), Some(f.age), Some(f.gender),
      Some(f.size), Some(f.temperament), Some(f.description), Some(Or(f.imageUrl, "")),
      Some(Available), Some(Some(now)), None)
  }

  /** `petToEdit?.id` is truthy: present and not empty. */
  predicate IsEdit(petToEdit: Option<PetFormData>) {
    petToEdit.Some? && petToEdit.value.id.Some? && petToEdit.value.id.value != ""
  }

  /** The add route: whatever the form's status or id, the stored pet is available, under the new id. */
  lemma AddRouteForcesAvailable(pets: seq<Pet>, f: PetFormData, newId: string, now: Time)
    ensures var added := AdoptionStore.AddedPets(pets, PetOf(f, now), newId, now);
      && added[|pets|].status == Available && added[|pets|].id == newId
      && added[|pets|].name == f.name && added[|pets|].temperament == f.temperament
  {
  }

  /**
   * The edit route: the form carries the edited pet's id, and every pet with
   * that id ends up available, keeping the id and taking the form's name.
   */
  lemma EditRouteForcesAvailable(pets: seq<Pet>, f: PetFormData, editId: string, now: Time)
    requires f.id == Some(editId)
    ensures var updated := AdoptionStore.UpdatedPets(pets, editId, UpdateOf(f, now), now);
      forall i :: 0 <= i < |pets| && pets[i].id == editId ==>
        updated[i].status == Available && updated[i].id == editId && updated[i].name == f.name
  {
  }

  class Modal {
    var formData: PetFormData
    var errors: map<FormField, string>
    var isLoading: bool
    var closed: bool
    const petToEdit: Option<PetFormData>
    const store: AdoptionStore.Store

    /** The form starts from the pet being edited, or empty. */
    constructor (store: AdoptionStore.Store, petToEdit: Option<PetFormData>)
      ensures this.store == store && this.petToEdit == petToEdit
      ensures formData == if petToEdit.Some? then petToEdit.value
        else PetFormData(None, "", "", "", "", "", None, [], "", None)
      ensures errors == map[] && !isLoading && !closed
    {
      this.store := store;
      this.petToEdit := petToEdit;
      formData := if petToEdit.Some? then petToEdit.value
        else PetFormData(None, "", "", "", "", "", None, [], "", None);
      errors := map[];
      isLoading := false;
      closed := false;
    }

    /** `validateForm`: files the errors and answers whether there were none. */
    method ValidateForm() returns (ok: bool)
      modifies this
      ensures formData == old(formData) && isLoading == old(isLoading) && closed == old(closed)
      ensures forall field :: field in errors <==> Missing(formData, field)
      ensures forall field :: field in errors ==> errors[field] == Message(field)
      ensures ok <==> FormValid(formData)
    {
      errors, ok := CollectErrors(formData);
    }

    /**
     * `handleSubmit`: an invalid form touches neither the store nor storage;
     * otherwise an edit with an id goes to `updatePet` and anything else to
     * `addPet`. Loading is off afterwards, and the modal closes only on success.
     */
    method HandleSubmit(newId: string, now: Time, writeFails: bool)
      modifies this, store, store.storage
      ensures formData == old(formData)
      ensures forall field :: field in errors <==> Missing(formData, field)
      ensures !FormValid(formData) ==>
        store.state == old(store.state) && store.storage.items == old(store.storage.items)
        && closed == old(closed) && isLoading == old(isLoading)
      ensures FormValid(formData) ==> !isLoading && closed == (old(closed) || !writeFails)
      ensures FormValid(formData) && IsEdit(petToEdit) ==>
        store.state.pets == if writeFails then old(store.state.pets)
          else AdoptionStore.UpdatedPets(old(store.state.pets), petToEdit.value.id.value, UpdateOf(formData, now), now)
      ensures FormValid(formData) && !IsEdit(petToEdit) ==>
        store.state.pets == if writeFails then old(store.state.pets)
          else AdoptionStore.AddedPets(old(store.state.pets), PetOf(formData, now), newId, now)
      ensures store.state.applications == old(store.state.applications)
    {
      var ok := ValidateForm();
      if !ok {
        return;
      }
      isLoading := true;
      var r: Outcome;
      if IsEdit(petToEdit) {
        r := store.UpdatePet(petToEdit.value.id.value, UpdateOf(formData, now), now, writeFails);
      } else {
        r := store.AddPet(PetOf(formData, now), newId, now, writeFails);
      }
      if r.Pass? {
        closed := true;
      }
      isLoading := false;
    }

    /** `toggleTemperament`: a present trait goes (every occurrence), an absent one is appended. */
    method ToggleTemperament(item: string)
      modifies this
      ensures formData == old(formData).(temperament := Toggle(old(formData.temperament), item))
      ensures item in formData.temperament <==> item !in old(formData.temperament)
      ensures errors == old(errors) && isLoading == old(isLoading) && closed == old(closed)
    {
      formData := formData.(temperament := Toggle(formData.temperament, item));
    }
  }
}
