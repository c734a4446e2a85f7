/**
 * The admin-variant storage wrappers: the `get*` readers swallow every
 * failure and answer [], the `save*` writers rethrow, and `migrateData`
 * moves a list from a legacy key and swallows every failure.
 */
module StorageHelpers {
  import opened Wrappers
  import opened Types
  import opened KeyValue

  const PetsKey := "pets"
  const ApplicationsKey := "applications"
  const SavedPetsKey := "savedPets"
  const OldPetsKey := "old_pets_key"

  /** `getPets`: the stored pet list; [] when the key is absent, the read fails or the value is not a pet list. */
  method GetPets(storage: KeyValue.Store, readFails: bool) returns (pets: seq<Pet>)
    ensures !readFails && PetsKey in storage.items && storage.items[PetsKey].PetList? ==>
      pets == storage.items[PetsKey].pets
    ensures readFails || PetsKey !in storage.items || !storage.items[PetsKey].PetList? ==> pets == []
  {
    var data := storage.GetItem(PetsKey, readFails);
    pets := [];
    if data.Success? && data.value.Some? && data.value.value.PetList? {
      pets := data.value.value.pets;
    }
  }

  /** `getApplications`, with the same fallback to []. */
  method GetApplications(storage: KeyValue.Store, readFails: bool) returns (apps: seq<Application>)
    ensures !readFails && ApplicationsKey in storage.items && storage.items[ApplicationsKey].AppList? ==>
      apps == storage.items[ApplicationsKey].apps
    ensures readFails || ApplicationsKey !in storage.items || !storage.items[ApplicationsKey].AppList? ==> apps == []
  {
    var data := storage.GetItem(ApplicationsKey, readFails);
    apps := [];
    if data.Success? && data.value.Some? && data.value.value.AppList? {
      apps := data.value.value.apps;
    }
  }

  /** `getSavedPetIds`, with the same fallback to []. */
  method GetSavedPetIds(storage: KeyValue.Store, readFails: bool) returns (ids: seq<string>)
    ensures !readFails && SavedPetsKey in storage.items && storage.items[SavedPetsKey].IdList? ==>
      ids == storage.items[SavedPetsKey].ids
    ensures readFails || SavedPetsKey !in storage.items || !storage.items[SavedPetsKey].IdList? ==> ids == []
  {
    var data := storage.GetItem(SavedPetsKey, readFails);
    ids := [];
    if data.Success? && data.value.Some? && data.value.value.IdList? {
      ids := data.value.value.ids;
    }
  }

  /** `savePets`: a failed write is passed on. */
  method SavePets(storage: KeyValue.Store, pets: seq<Pet>, writeFails: bool) returns (r: Outcome)
    modifies storage
    ensures r.Pass? <==> !writeFails
    ensures storage.items == Written(old(storage.items), PetsKey, PetList(pets), writeFails)
  {
    r := storage.SetItem(PetsKey, PetList(pets), writeFails);
  }

  /** `saveApplications`. */
  method SaveApplications(storage: KeyValue.Store, apps: seq<Application>, writeFails: bool) returns (r: Outcome)
    modifies storage
    ensures r.Pass? <==> !writeFails
    ensures storage.items == Written(old(storage.items), ApplicationsKey, AppList(apps), writeFails)
  {
    r := storage.SetItem(ApplicationsKey, AppList(apps), writeFails);
  }

  /** `savePetIds`. */
  method SavePetIds(storage: KeyValue.Store, ids: seq<string>, writeFails: bool) returns (r: Outcome)
    modifies storage
    ensures r.Pass? <==> !writeFails
    ensures storage.items == Written(old(storage.items), SavedPetsKey, IdList(ids), writeFails)
  {
    r := storage.SetItem(SavedPetsKey, IdList(ids), writeFails);
  }

  /**
   * The store after `migrateData`: when the legacy key holds a value it is
   * copied under the pets key, and only after that copy succeeds is the
   * legacy key removed.
   */
  function Migrated(items: map<string, Blob>, readFails: bool, saveFails: bool, removeFails: bool)
    : (r: map<string, Blob>)
    ensures readFails || OldPetsKey !in items || saveFails ==> r == items
    ensures !readFails && OldPetsKey in items && !saveFails ==>
      && PetsKey in r && r[PetsKey] == items[OldPetsKey]
      && (OldPetsKey in r <==> removeFails)
      && (removeFails ==> r[OldPetsKey] == items[OldPetsKey])
    ensures forall k :: k != PetsKey && k != OldPetsKey ==> (k in r <==> k in items) && (k in r ==> r[k] == items[k])
  {
    if readFails || OldPetsKey !in items then items
    else Deleted(Written(items, PetsKey, items[OldPetsKey], saveFails), OldPetsKey, saveFails || removeFails)
  }

  /** A completed migration leaves nothing to migrate: running it again changes nothing. */
  lemma MigrateOnce(items: map<string, Blob>, readFails: bool, saveFails: bool, removeFails: bool)
    ensures var once := Migrated(items, false, false, false);
      Migrated(once, readFails, saveFails, removeFails) == once
  {
  }

  /** `migrateData`: never fails towards the caller. */
  method MigrateData(storage: KeyValue.Store, readFails: bool, saveFails: bool, removeFails: bool)
    modifies storage
    ensures storage.items == Migrated(old(storage.items), readFails, saveFails, removeFails)
  {
    var oldPets := storage.GetItem(OldPetsKey, readFails);
    if oldPets.Success? && oldPets.value.Some? {
      var w := storage.SetItem(PetsKey, oldPets.value.value, saveFails);
      if w.Pass? {
        var _ := storage.RemoveItem(OldPetsKey, removeFails);
      }
    }
  }
}
