/**
 * The user-variant saved-pets screen: it shows the pet records stored under
 * `savedPets` and removes one by id, in memory first and then in storage.
 */
module SavedPetScreen {
  import opened Wrappers
  import opened Types
  import opened Seqs
  import opened KeyValue
  import SavedPetHelpers

  class Screen {
    var savedPets: seq<Pet>
    const storage: KeyValue.Store

    constructor (storage: KeyValue.Store)
      ensures this.storage == storage && savedPets == []
    {
      this.storage := storage;
      savedPets := [];
    }

    /**
     * `loadSavedPets`: a stored pet list replaces the shown one; an absent
     * key, a failed read and a value that is not a pet list leave it alone.
     */
    method LoadSavedPets(readFails: bool)
      modifies this
      ensures var b := Lookup(storage.items, SavedPetHelpers.SavedKey);
        savedPets == if !readFails && b.Some? && b.value.PetList? then b.value.pets else old(savedPets)
    {
      var data := storage.GetItem(SavedPetHelpers.SavedKey, readFails);
      if data.Success? && data.value.Some? && data.value.value.PetList? {
        savedPets := data.value.value.pets;
      }
    }

    /**
     * `removePet`: the shown list loses the pet before the write is tried, so
     * a failed write (which is swallowed) leaves storage holding the old value.
     */
    method RemovePet(petId: string, writeFails: bool)
      modifies this, storage
      ensures savedPets == SavedPetHelpers.WithoutId(old(savedPets), petId)
      ensures storage.items == Written(old(storage.items), SavedPetHelpers.SavedKey, PetList(savedPets), writeFails)
      ensures !SavedPetHelpers.HasId(savedPets, petId) && IsSubsequence(savedPets, old(savedPets))
    {
      SavedPetHelpers.WithoutIdKeepsOrder(savedPets, petId);
      var updatedPets := SavedPetHelpers.WithoutId(savedPets, petId);
      savedPets := updatedPets;
      var _ := storage.SetItem(SavedPetHelpers.SavedKey, PetList(updatedPets), writeFails);
    }
  }

  /**
   * When the write fails after the pet was shown as removed, memory and
   * storage disagree as soon as the removed pet was there to begin with.
   */
  lemma FailedRemoveDiverges(items: map<string, Blob>, shown: seq<Pet>, petId: string)
    requires SavedPetHelpers.SavedKey in items && items[SavedPetHelpers.SavedKey] == PetList(shown)
    requires SavedPetHelpers.HasId(shown, petId)
    ensures var after := Written(items, SavedPetHelpers.SavedKey,
                                 PetList(SavedPetHelpers.WithoutId(shown, petId)), true);
      after[SavedPetHelpers.SavedKey] != PetList(SavedPetHelpers.WithoutId(shown, petId))
  {
    var p :| p in shown && p.id == petId;
    assert p !in SavedPetHelpers.WithoutId(shown, petId);
  }
}
