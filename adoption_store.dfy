/**
 * The admin-variant application context: the store of pets, applications,
 * saved-pet ids and viewed-pet ids. Every mutation computes the new list,
 * writes it to storage, and replaces the in-memory list only once the write
 * has succeeded; a failed write sets `error` and rethrows.
 */
module AdoptionStore {
  import opened Wrappers
  import opened Types
  import opened Seqs
  import opened KeyValue

  const PetsKey := "pets"
  const ApplicationsKey := "applications"
  const SavedKey := "savedPets"
  const ViewedKey := "viewedPets"

  const LoadFailed := "Failed to load data"
  const ViewedFailed := "Failed to update viewed pets"
  const ResetFailed := "Failed to reset viewed pets"
  const AddFailed := "Failed to add pet"
  const UpdateFailed := "Failed to update pet"
  const DeleteFailed := "Failed to delete pet"
  const SubmitFailed := "Failed to submit application"
  const StatusFailed := "Failed to update application"
  const SavedFailed := "Failed to update saved pets"
  const ClearFailed := "Failed to clear data"

  /** `ApplicationState`: the four lists. */
  datatype AppState = AppState(
    pets: seq<Pet>,
    applications: seq<Application>,
    savedPetIds: seq<string>,
    viewedPetIds: seq<string>)

  // ---------------------------------------------------------------------
  // The lists each operation computes

  /** The derived `savedPets`: the pets whose id is saved, in pet-list order. */
  function SavedPets(s: AppState): (r: seq<Pet>)
    ensures forall p :: p in r <==> p in s.pets && p.id in s.savedPetIds
    ensures IsSubsequence(r, s.pets)
  {
    FilterIsSubsequence(s.pets, (p: Pet) => p.id in s.savedPetIds);
    Filter(s.pets, (p: Pet) => p.id in s.savedPetIds)
  }

  /** `markPetAsViewed`: the id is appended when absent; an id already present changes nothing. */
  function MarkViewed(viewed: seq<string>, id: string): (r: seq<string>)
    ensures id in r
    ensures viewed <= r
    ensures |r| == if id in viewed then |viewed| else |viewed| + 1
  {
    if id in viewed then viewed else viewed + [id]
  }

  /** Marking is idempotent, appends at most one element and keeps the list free of duplicates. */
  lemma MarkViewedProperties(viewed: seq<string>, id: string)
    ensures MarkViewed(MarkViewed(viewed, id), id) == MarkViewed(viewed, id)
    ensures id in viewed ==> MarkViewed(viewed, id) == viewed
    ensures id !in viewed ==> MarkViewed(viewed, id) == viewed + [id]
    ensures NoDuplicates(viewed) ==> NoDuplicates(MarkViewed(viewed, id))
  {
    var r := MarkViewed(viewed, id);
    if id !in viewed {
      assert r[..|viewed|] == viewed;
      assert r == r[..|viewed|] + [r[|viewed|]];
    }
  }

  /** `resetViewedPets`: the viewed ids that are also saved, in their viewed order. */
  function ResetViewed(viewed: seq<string>, saved: seq<string>): seq<string> {
    Filter(viewed, id => id in saved)
  }

  /**
   * After a reset the viewed list is the old one restricted to saved ids:
   * same order, same multiplicities, nothing else.
   */
  lemma ResetViewedKeepsSaved(viewed: seq<string>, saved: seq<string>)
    ensures forall id :: id in ResetViewed(viewed, saved) <==> id in viewed && id in saved
    ensures IsSubsequence(ResetViewed(viewed, saved), viewed)
    ensures forall id :: multiset(ResetViewed(viewed, saved))[id]
                         == if id in saved then multiset(viewed)[id] else 0
    ensures NoDuplicates(viewed) ==> NoDuplicates(ResetViewed(viewed, saved))
  {
    if NoDuplicates(viewed) {
      FilterNoDuplicates(viewed, id => id in saved);
    }
    FilterIsSubsequence(viewed, id => id in saved);
    forall id ensures multiset(ResetViewed(viewed, saved))[id] == if id in saved then multiset(viewed)[id] else 0 {
      FilterMultiset(viewed, id => id in saved, id);
    }
  }

  /** `pets.filter(pet => pet.id !== id)`. */
  function WithoutPet(pets: seq<Pet>, id: string): (r: seq<Pet>)
    ensures forall p :: p in r <==> p in pets && p.id != id
  {
    Filter(pets, (p: Pet) => p.id != id)
  }

  /** `deletePet`: the pet leaves the pet list, and its id leaves the saved and viewed lists. */
  function DeletePetState(s: AppState, id: string): AppState {
    s.(pets := WithoutPet(s.pets, id), savedPetIds := Remove(s.savedPetIds, id),
       viewedPetIds := Remove(s.viewedPetIds, id))
  }

  /**
   * Deleting removes the id from all three lists, keeps the relative order of
   * everything else, and leaves the applications alone.
   */
  lemma DeletePetCascade(s: AppState, id: string)
    ensures var t := DeletePetState(s, id);
      && (forall p :: p in t.pets ==> p.id != id)
      && id !in t.savedPetIds && id !in t.viewedPetIds
      && t.applications == s.applications
      && IsSubsequence(t.pets, s.pets)
      && IsSubsequence(t.savedPetIds, s.savedPetIds)
      && IsSubsequence(t.viewedPetIds, s.viewedPetIds)
  {
    FilterIsSubsequence(s.pets, (p: Pet) => p.id != id);
    RemoveKeepsOthers(s.savedPetIds, id);
    RemoveKeepsOthers(s.viewedPetIds, id);
  }

  /** Deleting keeps every other pet and every other id with its multiplicity. */
  lemma DeletePetKeepsOthers(s: AppState, id: string)
    ensures var t := DeletePetState(s, id);
      && (forall p: Pet :: p.id != id ==> multiset(t.pets)[p] == multiset(s.pets)[p])
      && (forall x :: x != id ==> multiset(t.savedPetIds)[x] == multiset(s.savedPetIds)[x])
      && (forall x :: x != id ==> multiset(t.viewedPetIds)[x] == multiset(s.viewedPetIds)[x])
  {
    forall p: Pet | p.id != id ensures multiset(WithoutPet(s.pets, id))[p] == multiset(s.pets)[p] {
      FilterMultiset(s.pets, (p: Pet) => p.id != id, p);
    }
    RemoveKeepsOthers(s.savedPetIds, id);
    RemoveKeepsOthers(s.viewedPetIds, id);
  }

  /** After a delete, the saved view is the old saved view without that pet. */
  lemma SavedPetsAfterDelete(s: AppState, id: string)
    ensures SavedPets(DeletePetState(s, id)) == WithoutPet(SavedPets(s), id)
  {
    var t := DeletePetState(s, id);
    var both := (p: Pet) => p.id != id && p.id in s.savedPetIds;
    FilterFilter(s.pets, (p: Pet) => p.id != id, (p: Pet) => p.id in t.savedPetIds, both);
    FilterFilter(s.pets, (p: Pet) => p.id in s.savedPetIds, (p: Pet) => p.id != id, both);
  }

  /** The pet `addPet` appends: the given fields, a new id, a creation time and status available. */
  function NewPet(pet: Pet, newId: string, now: Time): Pet {
    pet.(id := newId, createdAt := Some(now), status := Available)
  }

  /** `addPet`'s list. */
  function AddedPets(pets: seq<Pet>, pet: Pet, newId: string, now: Time): (r: seq<Pet>)
    ensures |r| == |pets| + 1 && r[..|pets|] == pets
    ensures r[|pets|] == pet.(id := newId, createdAt := Some(now), status := Available)
    ensures r[|pets|].status == Available && r[|pets|].id == newId && r[|pets|].createdAt == Some(now)
  {
    pets + [NewPet(pet, newId, now)]
  }

  /** Adding a pet under an id no other pet has keeps pet ids unique. */
  lemma AddedPetsUnique(pets: seq<Pet>, pet: Pet, newId: string, now: Time)
    requires UniqueIds(pets)
    requires forall p :: p in pets ==> p.id != newId
    ensures UniqueIds(AddedPets(pets, pet, newId, now))
  {
    var r := AddedPets(pets, pet, newId, now);
    forall i, j | 0 <= i < j < |r| ensures r[i].id != r[j].id {
      if j == |pets| {
        assert r[i] == pets[i];
        assert pets[i] in pets;
      } else {
        assert r[i] == pets[i] && r[j] == pets[j];
      }
    }
  }

  /** `updatePet`'s list: matching pets take the updates and a new update time; the others stay. */
  function UpdatedPets(pets: seq<Pet>, id: string, u: PetUpdate, now: Time): (r: seq<Pet>)
    ensures |r| == |pets|
    ensures forall i :: 0 <= i < |pets| && pets[i].id != id ==> r[i] == pets[i]
    ensures forall i :: 0 <= i < |pets| && pets[i].id == id ==>
      r[i] == Merge(pets[i], u).(updatedAt := Some(now))
    ensures (forall p :: p in pets ==> p.id != id) ==> r == pets
  {
    MapWhere(pets, (p: Pet) => p.id == id, p => Merge(p, u).(updatedAt := Some(now)))
  }

  /** The application `submitApplication` appends: a new id, status pending, the submission time. */
  function NewApplication(app: Application, newId: string, now: Time): Application {
    app.(id := Some(newId), status := AppPending, applicationDate := Some(now))
  }

  /** `submitApplication`'s list. */
  function SubmittedApplications(apps: seq<Application>, app: Application, newId: string, now: Time): (r: seq<Application>)
    ensures |r| == |apps| + 1 && r[..|apps|] == apps
    ensures r[|apps|] == app.(id := Some(newId), status := AppPending, applicationDate := Some(now))
  {
    apps + [NewApplication(app, newId, now)]
  }

  /** `updateApplicationStatus`'s list: the application with the id takes the status and a review time. */
  function ReviewedApplications(apps: seq<Application>, id: string, d: Decision, now: Time): (r: seq<Application>)
    ensures |r| == |apps|
    ensures forall i :: 0 <= i < |apps| && apps[i].id != Some(id) ==> r[i] == apps[i]
    ensures forall i :: 0 <= i < |apps| && apps[i].id == Some(id) ==>
      r[i] == apps[i].(status := DecisionStatus(d), reviewedDate := Some(now))
  {
    MapWhere(apps, (a: Application) => a.id == Some(id), (a: Application) => a.(status := DecisionStatus(d), reviewedDate := Some(now)))
  }

  /** Toggling a saved id twice restores which ids are saved; when it was absent, the list itself. */
  lemma ToggleSavedTwice(saved: seq<string>, id: string)
    ensures id in Toggle(saved, id) <==> id !in saved
    ensures forall x :: x in Toggle(Toggle(saved, id), id) <==> x in saved
    ensures id !in saved ==> Toggle(Toggle(saved, id), id) == saved
  {
    ToggleTwice(saved, id);
  }

  // ---------------------------------------------------------------------
  // Loading

  function DecodePets(b: Option<Blob>, seed: seq<Pet>): Result<seq<Pet>> {
    match b
    case None => Success(seed)
    case Some(PetList(ps)) => Success(ps)
    case Some(_) => Failure("unexpected value under pets")
  }

  function DecodeApplications(b: Option<Blob>): Result<seq<Application>> {
    match b
    case None => Success([])
    case Some(AppList(a)) => Success(a)
    case Some(_) => Failure("unexpected value under applications")
  }

  function DecodeIds(b: Option<Blob>): Result<seq<string>> {
    match b
    case None => Success([])
    case Some(IdList(ids)) => Success(ids)
    case Some(_) => Failure("unexpected value under an id list")
  }

  /** `loadData`'s reading of the four keys: the seed pets stand in for an absent pet list, [] for the others. */
  function LoadResult(items: map<string, Blob>, seed: seq<Pet>): Result<AppState> {
    var p := DecodePets(Lookup(items, PetsKey), seed);
    var a := DecodeApplications(Lookup(items, ApplicationsKey));
    var sv := DecodeIds(Lookup(items, SavedKey));
    var v := DecodeIds(Lookup(items, ViewedKey));
    if p.Failure? || a.Failure? || sv.Failure? || v.Failure? then Failure(LoadFailed)
    else Success(AppState(p.value, a.value, sv.value, v.value))
  }

  /** Storage holds exactly what memory holds: a reload would change nothing. */
  ghost predicate Synced(items: map<string, Blob>, s: AppState, seed: seq<Pet>) {
    LoadResult(items, seed) == Success(s)
  }

  /** A successful single-key write of the list memory then takes keeps storage and memory in step. */
  lemma WriteKeepsSynced(items: map<string, Blob>, s: AppState, seed: seq<Pet>)
    requires Synced(items, s, seed)
    ensures forall ps :: Synced(items[PetsKey := PetList(ps)], s.(pets := ps), seed)
    ensures forall a :: Synced(items[ApplicationsKey := AppList(a)], s.(applications := a), seed)
    ensures forall ids :: Synced(items[SavedKey := IdList(ids)], s.(savedPetIds := ids), seed)
    ensures forall ids :: Synced(items[ViewedKey := IdList(ids)], s.(viewedPetIds := ids), seed)
  {
  }

  /** Once every key is removed, a reload yields the seed pets and three empty lists. */
  lemma LoadAfterClear(items: map<string, Blob>, seed: seq<Pet>)
    ensures LoadResult(items - {PetsKey, ApplicationsKey, SavedKey, ViewedKey}, seed)
      == Success(AppState(seed, [], [], []))
  {
  }

  // ---------------------------------------------------------------------
  // The store

  class Store {
    var state: AppState
    var isLoading: bool
    var error: Option<string>
    const storage: KeyValue.Store
    const seedPets: seq<Pet>

    constructor (storage: KeyValue.Store, seedPets: seq<Pet>)
      ensures this.storage == storage && this.seedPets == seedPets
      ensures state == AppState([], [], [], []) && isLoading && error == None
    {
      this.storage := storage;
      this.seedPets := seedPets;
      state := AppState([], [], [], []);
      isLoading := true;
      error := None;
    }

    /** `loadData` (also `refreshData`): reads all four keys; any failure keeps the lists and sets the error. */
    method LoadData(readFails: bool)
      modifies this
      ensures !isLoading
      ensures var r := LoadResult(storage.items, seedPets);
        if readFails || r.Failure? then state == old(state) && error == Some(LoadFailed)
        else state == r.value && error == None
    {
      isLoading := true;
      error := None;
      var petsData := storage.GetItem(PetsKey, readFails);
      var appsData := storage.GetItem(ApplicationsKey, readFails);
      var savedData := storage.GetItem(SavedKey, readFails);
      var viewedData := storage.GetItem(ViewedKey, readFails);
      if petsData.Failure? || appsData.Failure? || savedData.Failure? || viewedData.Failure? {
        error := Some(LoadFailed);
      } else {
        var r := LoadResult(storage.items, seedPets);
        if r.Failure? {
          error := Some(LoadFailed);
        } else {
          state := r.value;
        }
      }
      isLoading := false;
    }

    /** One `setItem`; on failure `error` takes the operation's message. */
    method Persist(key: string, value: Blob, writeFails: bool, message: string) returns (r: Outcome)
      modifies this, storage
      ensures r.Pass? <==> !writeFails
      ensures storage.items == Written(old(storage.items), key, value, writeFails)
      ensures state == old(state) && isLoading == old(isLoading)
      ensures error == if writeFails then Some(message) else old(error)
    {
      r := storage.SetItem(key, value, writeFails);
      if r.Fail? {
        error := Some(message);
      }
    }

    /** `markPetAsViewed`: no write at all when the id is already viewed. */
    method MarkPetAsViewed(petId: string, writeFails: bool) returns (r: Outcome)
      modifies this, storage
      ensures var absent := petId !in old(state.viewedPetIds);
        var updated := MarkViewed(old(state.viewedPetIds), petId);
        && (r.Pass? <==> !absent || !writeFails)
        && storage.items == (if absent then Written(old(storage.items), ViewedKey, IdList(updated), writeFails) else old(storage.items))
        && state == (if r.Pass? then old(state).(viewedPetIds := updated) else old(state))
        && error == (if r.Pass? then old(error) else Some(ViewedFailed))
        && isLoading == old(isLoading)
    {
      r := Pass;
      if petId !in state.viewedPetIds {
        var updated := state.viewedPetIds + [petId];
        r := Persist(ViewedKey, IdList(updated), writeFails, ViewedFailed);
        if r.Pass? {
          state := state.(viewedPetIds := updated);
        }
      }
    }

    /** `resetViewedPets`. */
    method ResetViewedPets(writeFails: bool) returns (r: Outcome)
      modifies this, storage
      ensures var updated := ResetViewed(old(state.viewedPetIds), old(state.savedPetIds));
        && (r.Pass? <==> !writeFails)
        && storage.items == Written(old(storage.items), ViewedKey, IdList(updated), writeFails)
        && state == (if r.Pass? then old(state).(viewedPetIds := updated) else old(state))
        && error == (if r.Pass? then old(error) else Some(ResetFailed))
        && isLoading == old(isLoading)
    {
      var updated := ResetViewed(state.viewedPetIds, state.savedPetIds);
      r := Persist(ViewedKey, IdList(updated), writeFails, ResetFailed);
      if r.Pass? {
        state := state.(viewedPetIds := updated);
      }
    }

    /** `addPet`: a failed write leaves the pet list as it was. */
    method AddPet(pet: Pet, newId: string, now: Time, writeFails: bool) returns (r: Outcome)
      modifies this, storage
      ensures var updated := AddedPets(old(state.pets), pet, newId, now);
        && (r.Pass? <==> !writeFails)
        && storage.items == Written(old(storage.items), PetsKey, PetList(updated), writeFails)
        && state == (if r.Pass? then old(state).(pets := updated) else old(state))
        && error == (if r.Pass? then old(error) else Some(AddFailed))
        && isLoading == old(isLoading)
    {
      var updated := AddedPets(state.pets, pet, newId, now);
      r := Persist(PetsKey, PetList(updated), writeFails, AddFailed);
      if r.Pass? {
        state := state.(pets := updated);
      }
    }

    /** `updatePet`. */
    method UpdatePet(id: string, u: PetUpdate, now: Time, writeFails: bool) returns (r: Outcome)
      modifies this, storage
      ensures var updated := UpdatedPets(old(state.pets), id, u, now);
        && (r.Pass? <==> !writeFails)
        && storage.items == Written(old(storage.items), PetsKey, PetList(updated), writeFails)
        && state == (if r.Pass? then old(state).(pets := updated) else old(state))
        && error == (if r.Pass? then old(error) else Some(UpdateFailed))
        && isLoading == old(isLoading)
    {
      var updated := UpdatedPets(state.pets, id, u, now);
      r := Persist(PetsKey, PetList(updated), writeFails, UpdateFailed);
      if r.Pass? {
        state := state.(pets := updated);
      }
    }

    /**
     * `deletePet`: the three writes are all issued; each key is written unless
     * its own write fails, and memory changes only when none fails.
     */
    method DeletePet(id: string, petsFails: bool, savedFails: bool, viewedFails: bool) returns (r: Outcome)
      modifies this, storage
      ensures var t := DeletePetState(old(state), id);
        && (r.Pass? <==> !petsFails && !savedFails && !viewedFails)
        && storage.items == Written(Written(Written(old(storage.items),
             PetsKey, PetList(t.pets), petsFails),
             SavedKey, IdList(t.savedPetIds), savedFails),
             ViewedKey, IdList(t.viewedPetIds), viewedFails)
        && state == (if r.Pass? then t else old(state))
        && error == (if r.Pass? then old(error) else Some(DeleteFailed))
        && isLoading == old(isLoading)
    {
      var t := DeletePetState(state, id);
      var r1 := storage.SetItem(PetsKey, PetList(t.pets), petsFails);
      var r2 := storage.SetItem(SavedKey, IdList(t.savedPetIds), savedFails);
      var r3 := storage.SetItem(ViewedKey, IdList(t.viewedPetIds), viewedFails);
      if r1.Pass? && r2.Pass? && r3.Pass? {
        state := t;
        r := Pass;
      } else {
        error := Some(DeleteFailed);
        r := Fail(DeleteFailed);
      }
    }

    /** `submitApplication`. */
    method SubmitApplication(app: Application, newId: string, now: Time, writeFails: bool) returns (r: Outcome)
      modifies this, storage
      ensures var updated := SubmittedApplications(old(state.applications), app, newId, now);
        && (r.Pass? <==> !writeFails)
        && storage.items == Written(old(storage.items), ApplicationsKey, AppList(updated), writeFails)
        && state == (if r.Pass? then old(state).(applications := updated) else old(state))
        && error == (if r.Pass? then old(error) else Some(SubmitFailed))
        && isLoading == old(isLoading)
    {
      var updated := SubmittedApplications(state.applications, app, newId, now);
      r := Persist(ApplicationsKey, AppList(updated), writeFails, SubmitFailed);
      if r.Pass? {
        state := state.(applications := updated);
      }
    }

    /** `updateApplicationStatus`: the pets are neither read nor written; an unknown id is not an error. */
    method UpdateApplicationStatus(id: string, d: Decision, now: Time, writeFails: bool) returns (r: Outcome)
      modifies this, storage
      ensures var updated := ReviewedApplications(old(state.applications), id, d, now);
        && (r.Pass? <==> !writeFails)
        && storage.items == Written(old(storage.items), ApplicationsKey, AppList(updated), writeFails)
        && state == (if r.Pass? then old(state).(applications := updated) else old(state))
        && state.pets == old(state.pets)
        && error == (if r.Pass? then old(error) else Some(StatusFailed))
        && isLoading == old(isLoading)
    {
      var updated := ReviewedApplications(state.applications, id, d, now);
      r := Persist(ApplicationsKey, AppList(updated), writeFails, StatusFailed);
      if r.Pass? {
        state := state.(applications := updated);
      }
    }

    /** `toggleSavedPet`: write the toggled list, take it, then reload everything from storage. */
    method ToggleSavedPet(petId: string, writeFails: bool, reloadFails: bool) returns (r: Outcome)
      modifies this, storage
      ensures var updated := Toggle(old(state.savedPetIds), petId);
        && (r.Pass? <==> !writeFails)
        && storage.items == Written(old(storage.items), SavedKey, IdList(updated), writeFails)
        && (writeFails ==> state == old(state) && error == Some(SavedFailed) && isLoading == old(isLoading))
        && (!writeFails ==>
              && !isLoading
              && var loaded := LoadResult(storage.items, seedPets);
                 if reloadFails || loaded.Failure? then
                   state == old(state).(savedPetIds := updated) && error == Some(LoadFailed)
                 else state == loaded.value && error == None)
    {
      var updated := Toggle(state.savedPetIds, petId);
      r := Persist(SavedKey, IdList(updated), writeFails, SavedFailed);
      if r.Pass? {
        state := state.(savedPetIds := updated);
        LoadData(reloadFails);
      }
    }

    /**
     * `clearAllData`: the four removals are all issued; each key goes unless its
     * own removal fails, and only when none fails is the (unawaited) reload run.
     */
    method ClearAllData(petsFails: bool, appsFails: bool, savedFails: bool, viewedFails: bool, reloadFails: bool)
      returns (r: Outcome)
      modifies this, storage
      ensures r.Pass? <==> !petsFails && !appsFails && !savedFails && !viewedFails
      ensures storage.items == Deleted(Deleted(Deleted(Deleted(old(storage.items),
        PetsKey, petsFails), ApplicationsKey, appsFails), SavedKey, savedFails), ViewedKey, viewedFails)
      ensures r.Fail? ==> state == old(state) && error == Some(ClearFailed) && isLoading == old(isLoading)
      ensures r.Pass? ==>
        && !isLoading
        && (if reloadFails then state == old(state) && error == Some(LoadFailed)
            else state == AppState(seedPets, [], [], []) && error == None)
    {
      var r1 := storage.RemoveItem(PetsKey, petsFails);
      var r2 := storage.RemoveItem(ApplicationsKey, appsFails);
      var r3 := storage.RemoveItem(SavedKey, savedFails);
      var r4 := storage.RemoveItem(ViewedKey, viewedFails);
      if r1.Pass? && r2.Pass? && r3.Pass? && r4.Pass? {
        assert storage.items == old(storage.items) - {PetsKey, ApplicationsKey, SavedKey, ViewedKey};
        LoadAfterClear(old(storage.items), seedPets);
        LoadData(reloadFails);
        r := Pass;
      } else {
        error := Some(ClearFailed);
        r := Fail(ClearFailed);
      }
    }
  }

  /**
   * When storage and memory agree, the reload that follows a successful
   * toggle changes nothing more: the state is the old one with the toggled
   * list, whether the reload succeeds or fails.
   */
  lemma ToggleReloadIsHarmless(items: map<string, Blob>, s: AppState, seed: seq<Pet>, petId: string)
    requires Synced(items, s, seed)
    ensures var t := Toggle(s.savedPetIds, petId);
      LoadResult(items[SavedKey := IdList(t)], seed) == Success(s.(savedPetIds := t))
  {
    WriteKeepsSynced(items, s, seed);
  }
}
