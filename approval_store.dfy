/**
 * The user-variant application context's status update: approving an
 * application also marks its pet as adopted, with the pet list written
 * before the application list.
 */
module ApprovalStore {
  import opened Wrappers
  import opened Types
  import opened Seqs
  import opened KeyValue
  import AdoptionStore

  const NotFound := "Application not found"
  const StatusFailed := "Failed to update application"

  /** Index `i` holds the first application with the id. */
  predicate FirstWithId(apps: seq<Application>, id: string, i: int) {
    0 <= i < |apps| && apps[i].id == Some(id) && forall j :: 0 <= j < i ==> apps[j].id != Some(id)
  }

  /** `applications.find(app => app.id === id)`: the first application with the id, if any. */
  function FindApplication(apps: seq<Application>, id: string): (r: Option<Application>)
    ensures r.None? <==> forall a :: a in apps ==> a.id != Some(id)
    ensures r.Some? ==> exists i :: FirstWithId(apps, id, i) && apps[i] == r.value
  {
    if |apps| == 0 then None
    else if apps[0].id == Some(id) then
      assert FirstWithId(apps, id, 0);
      Some(apps[0])
    else
      var r := FindApplication(apps[1..], id);
      assert forall a :: a in apps[1..] ==> a in apps;
      assert forall i :: FirstWithId(apps[1..], id, i) ==> FirstWithId(apps, id, i + 1);
      r
  }

  /** The pets with the given id become adopted; every other pet is left as it was. */
  function AdoptedPets(pets: seq<Pet>, petId: string): (r: seq<Pet>)
    ensures |r| == |pets|
    ensures forall i :: 0 <= i < |pets| && pets[i].id == petId ==> r[i] == pets[i].(status := Adopted)
    ensures forall i :: 0 <= i < |pets| && pets[i].id != petId ==> r[i] == pets[i]
  {
    MapWhere(pets, (p: Pet) => p.id == petId, (p: Pet) => p.(status := Adopted))
  }

  /** Every pet of `before` with the id is adopted in `after`. */
  predicate AllAdopted(before: seq<Pet>, after: seq<Pet>, petId: string) {
    |after| == |before| && forall i :: 0 <= i < |before| && before[i].id == petId ==> after[i].status == Adopted
  }

  /** What a fully successful update produces: the new pet list and the new application list. */
  function Decided(pets: seq<Pet>, apps: seq<Application>, id: string, d: Decision, now: Time)
    : Result<(seq<Pet>, seq<Application>)>
  {
    match FindApplication(apps, id)
    case None => Failure(NotFound)
    case Some(app) =>
      var newPets := if d == Approve then AdoptedPets(pets, app.petId) else pets;
      Success((newPets, AdoptionStore.ReviewedApplications(apps, id, d, now)))
  }

  /**
   * A successful approval leaves the application approved and its pet adopted;
   * a rejection leaves every pet alone; an unknown id is an error.
   */
  lemma DecidedConsistent(pets: seq<Pet>, apps: seq<Application>, id: string, d: Decision, now: Time)
    ensures Decided(pets, apps, id, d, now).Failure? <==> forall a :: a in apps ==> a.id != Some(id)
    ensures var r := Decided(pets, apps, id, d, now);
      r.Success? ==>
        && |r.value.1| == |apps|
        && (forall i :: 0 <= i < |apps| && apps[i].id == Some(id) ==>
              r.value.1[i].status == DecisionStatus(d) && r.value.1[i].reviewedDate == Some(now))
        && (d == Reject ==> r.value.0 == pets)
        && (d == Approve ==> exists k :: FirstWithId(apps, id, k) && AllAdopted(pets, r.value.0, apps[k].petId))
  {
    var r := Decided(pets, apps, id, d, now);
    if r.Success? && d == Approve {
      var app := FindApplication(apps, id).value;
      var k :| FirstWithId(apps, id, k) && apps[k] == app;
      assert AllAdopted(pets, r.value.0, apps[k].petId);
    }
  }

  class Context {
    var pets: seq<Pet>
    var applications: seq<Application>
    var error: Option<string>
    const storage: KeyValue.Store

    constructor (storage: KeyValue.Store, pets: seq<Pet>, applications: seq<Application>)
      ensures this.storage == storage && this.pets == pets && this.applications == applications
      ensures error == None
    {
      this.storage := storage;
      this.pets := pets;
      this.applications := applications;
      error := None;
    }

    /**
     * `updateApplicationStatus`. On approval the pet list is written and taken
     * first; a failure of the later application write leaves the pet adopted
     * while the application keeps its old status.
     */
    method UpdateApplicationStatus(id: string, d: Decision, now: Time, petsFails: bool, appsFails: bool)
      returns (r: Outcome)
      modifies this, storage
      ensures var found := FindApplication(old(applications), id);
        var approving := found.Some? && d == Approve;
        var newPets := if approving then AdoptedPets(old(pets), found.value.petId) else old(pets);
        var newApps := AdoptionStore.ReviewedApplications(old(applications), id, d, now);
        var petsWritten := approving && !petsFails;
        var appsWritten := found.Some? && (approving ==> !petsFails) && !appsFails;
        && (r.Pass? <==> appsWritten)
        && (found.None? ==> r == Fail(NotFound))
        && storage.items == Written(Written(old(storage.items),
             AdoptionStore.PetsKey, PetList(newPets), !petsWritten),
             AdoptionStore.ApplicationsKey, AppList(newApps), !appsWritten)
        && pets == (if petsWritten then newPets else old(pets))
        && applications == (if appsWritten then newApps else old(applications))
        && error == (if r.Pass? then old(error) else Some(StatusFailed))
    {
      var found := FindApplication(applications, id);
      if found.None? {
        error := Some(StatusFailed);
        return Fail(NotFound);
      }
      var app := found.value;
      var newApps := AdoptionStore.ReviewedApplications(applications, id, d, now);
      if d == Approve {
        var newPets := AdoptedPets(pets, app.petId);
        var w := storage.SetItem(AdoptionStore.PetsKey, PetList(newPets), petsFails);
        if w.Fail? {
          error := Some(StatusFailed);
          return w;
        }
        pets := newPets;
      }
      r := storage.SetItem(AdoptionStore.ApplicationsKey, AppList(newApps), appsFails);
      if r.Fail? {
        error := Some(StatusFailed);
      } else {
        applications := newApps;
      }
    }
  }
}
