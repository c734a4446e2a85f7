/**
 * The user-variant pet context: a pet list kept under `@pets`. Every change
 * is written first and taken into memory only once the write succeeds; no
 * failure is caught.
 */
module PetContext {
  import opened Wrappers
  import opened Types
  import opened Seqs
  import opened KeyValue

  const PetsKey := "@pets"

  /** `{ ...pet, id }`: the pet as added, under its new id. */
  function WithNewId(pet: Pet, newId: string): (r: Pet)
    ensures r.id == newId && r.(id := pet.id) == pet
  {
    pet.(id := newId)
  }

  /** `updatePet`'s list: the pets with the id take the update, without an update time. */
  function MergedPets(pets: seq<Pet>, id: string, u: PetUpdate): (r: seq<Pet>)
    ensures |r| == |pets|
    ensures forall i :: 0 <= i < |pets| && pets[i].id == id ==> r[i] == Merge(pets[i], u)
    ensures forall i :: 0 <= i < |pets| && pets[i].id != id ==> r[i] == pets[i]
  {
    MapWhere(pets, (p: Pet) => p.id == id, (p: Pet) => Merge(p, u))
  }

  /**
   * An update that does not touch `id` keeps every pet's id, hence keeps the
   * ids unique; applying it twice is the same as once; the empty update is a no-op.
   */
  lemma MergedPetsProperties(pets: seq<Pet>, id: string, u: PetUpdate)
    ensures u.id.None? ==> PetIds(MergedPets(pets, id, u)) == PetIds(pets)
    ensures u.id.None? && UniqueIds(pets) ==> UniqueIds(MergedPets(pets, id, u))
    ensures u.id.None? ==> MergedPets(MergedPets(pets, id, u), id, u) == MergedPets(pets, id, u)
    ensures MergedPets(pets, id, NoUpdate) == pets
  {
    var r := MergedPets(pets, id, u);
    if u.id.None? {
      assert PetIds(r) == PetIds(pets);
      var r2 := MergedPets(r, id, u);
      forall i | 0 <= i < |pets| ensures r2[i] == r[i] {
        if pets[i].id == id {
          MergeIdempotent(pets[i], u);
        }
      }
    }
    forall i | 0 <= i < |pets| ensures MergedPets(pets, id, NoUpdate)[i] == pets[i] {
      MergeNothing(pets[i]);
    }
  }

  class Context {
    var pets: seq<Pet>
    var loading: bool
    const storage: KeyValue.Store

    constructor (storage: KeyValue.Store)
      ensures this.storage == storage && pets == [] && loading
    {
      this.storage := storage;
      pets := [];
      loading := true;
    }

    /**
     * The mount-time `loadPets`: an absent key gives []. A failed read (or a
     * stored value that is not a pet list) rejects before anything is set, so
     * the context stays loading.
     */
    method LoadPets(readFails: bool)
      modifies this
      ensures var b := Lookup(storage.items, PetsKey);
        if readFails || (b.Some? && !b.value.PetList?) then pets == old(pets) && loading == old(loading)
        else !loading && pets == (if b.None? then [] else b.value.pets)
    {
      var r := storage.GetItem(PetsKey, readFails);
      if r.Failure? {
        return;
      }
      match r.value
      case None =>
        pets := [];
        loading := false;
      case Some(PetList(ps)) =>
        pets := ps;
        loading := false;
      case Some(_) =>
    }

    /** `savePets`: write, then take the list; a failed write leaves memory alone. */
    method SavePets(newPets: seq<Pet>, writeFails: bool) returns (r: Outcome)
      modifies this, storage
      ensures r.Pass? <==> !writeFails
      ensures storage.items == Written(old(storage.items), PetsKey, PetList(newPets), writeFails)
      ensures pets == (if r.Pass? then newPets else old(pets))
      ensures loading == old(loading)
    {
      r := storage.SetItem(PetsKey, PetList(newPets), writeFails);
      if r.Pass? {
        pets := newPets;
      }
    }

    /** `addPet`: appends the pet under a new id. */
    method AddPet(pet: Pet, newId: string, writeFails: bool) returns (r: Outcome)
      modifies this, storage
      ensures var updated := old(pets) + [WithNewId(pet, newId)];
        && (r.Pass? <==> !writeFails)
        && storage.items == Written(old(storage.items), PetsKey, PetList(updated), writeFails)
        && pets == (if r.Pass? then updated else old(pets))
        && loading == old(loading)
    {
      r := SavePets(pets + [WithNewId(pet, newId)], writeFails);
    }

    /** `updatePet`. */
    method UpdatePet(id: string, u: PetUpdate, writeFails: bool) returns (r: Outcome)
      modifies this, storage
      ensures var updated := MergedPets(old(pets), id, u);
        && (r.Pass? <==> !writeFails)
        && storage.items == Written(old(storage.items), PetsKey, PetList(updated), writeFails)
        && pets == (if r.Pass? then updated else old(pets))
        && loading == old(loading)
    {
      r := SavePets(MergedPets(pets, id, u), writeFails);
    }

    /** `deletePet`: no pet with the id is left; every other pet keeps its place. */
    method DeletePet(id: string, writeFails: bool) returns (r: Outcome)
      modifies this, storage
      ensures var updated := Filter(old(pets), (p: Pet) => p.id != id);
        && (r.Pass? <==> !writeFails)
        && storage.items == Written(old(storage.items), PetsKey, PetList(updated), writeFails)
        && pets == (if r.Pass? then updated else old(pets))
        && (r.Pass? ==> (forall p :: p in pets ==> p.id != id) && IsSubsequence(pets, old(pets)))
        && loading == old(loading)
    {
      FilterIsSubsequence(pets, (p: Pet) => p.id != id);
      r := SavePets(Filter(pets, (p: Pet) => p.id != id), writeFails);
    }
  }
}
