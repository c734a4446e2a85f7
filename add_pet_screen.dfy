/**
 * The user-variant admin screen that adds a pet through the pet context:
 * five required text fields, an optional picked image, and a reset of the
 * form once the pet has been handed over.
 */
module AddPetScreen {
  import opened Wrappers
  import opened Types
  import opened KeyValue
  import PetContext

  const DefaultImage := "default_image_uri"

  /** The image a submission carries: the picked one, or the placeholder when none (or "") was picked. */
  function ImageOrDefault(image: Option<string>): (r: string)
    ensures r != ""
    ensures image.Some? && image.value != "" ==> r == image.value
  {
    if image.Some? && image.value != "" then image.value else DefaultImage
  }

  /** The pet `handleSubmit` builds: the five fields, the image or its placeholder, status available. */
  function NewPet(name: string, breed: string, age: string, gender: string, description: string, image: Option<string>)
    : (p: Pet)
    ensures p.status == Available && p.imageUrl == ImageOrDefault(image)
    ensures p.name == name && p.breed == breed && p.age == age && p.gender == gender && p.description == description
  {
    Pet("", name, "", breed, age, gender, None, [], description, ImageOrDefault(image), Available, None, None)
  }

  class Screen {
    var name: string
    var breed: string
    var age: string
    var gender: string
    var description: string
    var image: Option<string>
    const pets: PetContext.Context

    constructor (pets: PetContext.Context)
      ensures this.pets == pets
      ensures name == "" && breed == "" && age == "" && gender == "" && description == "" && image == None
    {
      this.pets := pets;
      name, breed, age, gender, description, image := "", "", "", "", "", None;
    }

    /**
     * `handleSubmit`: refused when a required field is empty. Otherwise the
     * pet is handed to `addPet` without waiting for it, so the form is reset
     * whether or not that write later fails.
     */
    method HandleSubmit(newId: string, writeFails: bool) returns (accepted: bool)
      modifies this, pets, pets.storage
      ensures accepted <==> !old(name == "" || breed == "" || age == "" || gender == "" || description == "")
      ensures !accepted ==>
        && name == old(name) && breed == old(breed) && age == old(age) && gender == old(gender)
        && description == old(description) && image == old(image)
        && pets.pets == old(pets.pets) && pets.storage.items == old(pets.storage.items)
      ensures accepted ==>
        && name == "" && breed == "" && age == "" && gender == "" && description == "" && image == None
        && var added := old(pets.pets) + [PetContext.WithNewId(NewPet(old(name), old(breed), old(age), old(gender), old(description), old(image)), newId)];
           && pets.pets == (if writeFails then old(pets.pets) else added)
           && pets.storage.items == Written(old(pets.storage.items), PetContext.PetsKey, PetList(added), writeFails)
      ensures pets.loading == old(pets.loading)
    {
      if name == "" || breed == "" || age == "" || gender == "" || description == "" {
        return false;
      }
      var newPet := NewPet(name, breed, age, gender, description, image);
      var _ := pets.AddPet(newPet, newId, writeFails);
      name := "";
      breed := "";
      age := "";
      gender := "";
      description := "";
      image := None;
      accepted := true;
    }
  }
}
