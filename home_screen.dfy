/**
 * The final-variant browse screen: one pet card at a time, a circular scan
 * for the next pet not yet viewed, and save / pass actions that go through
 * the store.
 */
module HomeScreen {
  import opened Wrappers
  import opened Types
  import opened Seqs
  import opened KeyValue
  import AdoptionStore
  import SavedPetHelpers

  /** `pets.findIndex(pet => !viewedPetIds.includes(pet.id))`, with 0 standing in for -1. */
  function FirstUnviewedIndex(pets: seq<Pet>, viewed: seq<string>): (r: nat)
    ensures (exists k :: 0 <= k < |pets| && pets[k].id !in viewed) ==>
      r < |pets| && pets[r].id !in viewed && forall j :: 0 <= j < r ==> pets[j].id in viewed
    ensures (forall k :: 0 <= k < |pets| ==> pets[k].id in viewed) ==> r == 0
  {
    if |pets| == 0 then 0
    else if pets[0].id !in viewed then 0
    else
      var r := FirstUnviewedIndex(pets[1..], viewed);
      assert forall k :: 1 <= k < |pets| ==> pets[k] == pets[1..][k - 1];
      if forall k :: 0 <= k < |pets| - 1 ==> pets[1..][k].id in viewed then 0 else r + 1
  }

  /** The `i`-th candidate of the scan from `current`: `(currentIndex + i) % pets.length`. */
  function Candidate(current: nat, i: int, n: nat): (k: nat)
    requires n > 0
    ensures k < n
  {
    (current + i) % n
  }

  /** `q * n + k` leaves remainder `k`: the remainder is unique. */
  lemma ModOfMultiplePlus(q: int, n: nat, k: int)
    requires 0 <= k < n
    ensures (q * n + k) % n == k
  {
    var a := q * n + k;
    var d := q - a / n;
    assert d * n == a % n - k;
  }

  /** The candidates for i = 1..n reach every index: after i = n the scan has looked at the whole list. */
  lemma CandidatesCoverAll(current: nat, n: nat, k: nat)
    requires 0 <= k < n
    ensures exists i :: 1 <= i <= n && Candidate(current, i, n) == k
  {
    var q := current / n;
    var c := current % n;
    var i := if k > c then k - c else k - c + n;
    if k > c {
      assert current + i == q * n + k;
    } else {
      assert current + i == (q + 1) * n + k;
    }
    ModOfMultiplePlus(if k > c then q else q + 1, n, k);
    assert Candidate(current, i, n) == k;
  }

  /**
   * The loop of `goToNext`: candidates i = 1..n in order, stopping at the
   * first whose pet is not in `viewed`. When none is found the index stays.
   */
  method ScanNext(pets: seq<Pet>, viewed: seq<string>, current: nat) returns (next: nat, found: bool)
    ensures found ==> next < |pets| && pets[next].id !in viewed
    ensures found ==> exists i :: (1 <= i <= |pets| && next == Candidate(current, i, |pets|)
                                   && forall j :: 1 <= j < i ==> pets[Candidate(current, j, |pets|)].id in viewed)
    ensures !found ==> next == current
    ensures found <==> exists k :: 0 <= k < |pets| && pets[k].id !in viewed
  {
    var n := |pets|;
    next := current;
    found := false;
    var i := 1;
    while i <= n
      invariant 1 <= i <= n + 1
      invariant forall j :: 1 <= j < i ==> pets[Candidate(current, j, n)].id in viewed
    {
      var candidate := (current + i) % n;
      if pets[candidate].id !in viewed {
        next := candidate;
        found := true;
        assert 1 <= i <= n && next == Candidate(current, i, n);
        return;
      }
      i := i + 1;
    }
    forall k | 0 <= k < n ensures pets[k].id in viewed {
      CandidatesCoverAll(current, n, k);
    }
  }

  /** The "seen all our pets" screen: shown when the counts agree, and never for an empty list. */
  predicate AllViewedShown(pets: seq<Pet>, viewed: seq<string>) {
    |pets| != 0 && |viewed| == |pets|
  }

  /** The set of a sequence without duplicates has the sequence's length. */
  lemma {:induction false} DistinctCard<T>(s: seq<T>)
    requires NoDuplicates(s)
    ensures |set x | x in s| == |s|
  {
    if |s| > 0 {
      var t := s[1..];
      assert NoDuplicates(t) by {
        forall i, j | 0 <= i < j < |t| ensures t[i] != t[j] {
          assert t[i] == s[i + 1] && t[j] == s[j + 1];
        }
      }
      DistinctCard(t);
      assert s[0] !in t by {
        forall j | 0 <= j < |t| ensures t[j] != s[0] {
          assert t[j] == s[j + 1];
        }
      }
      assert (set x | x in s) == (set x | x in t) + {s[0]} by {
        assert s == [s[0]] + t;
      }
    }
  }

  /** A subset as large as its superset is the superset. */
  lemma SubsetOfSameSize<T>(V: set<T>, P: set<T>)
    requires V <= P && |V| == |P|
    ensures V == P
  {
    assert P == V + (P - V);
    assert |P - V| == 0;
  }

  /** The ids of pets with unique ids, as a set, have one element per pet. */
  lemma PetIdSetCard(pets: seq<Pet>)
    requires UniqueIds(pets)
    ensures |set x | x in PetIds(pets)| == |pets|
  {
    var ids := PetIds(pets);
    assert NoDuplicates(ids);
    DistinctCard(ids);
  }

  /** Distinct ids that all name pets with unique ids: as many as pets exactly when every pet is among them. */
  lemma AllViewedMeansEveryPet(pets: seq<Pet>, viewed: seq<string>)
    requires UniqueIds(pets) && NoDuplicates(viewed)
    requires forall id :: id in viewed ==> id in PetIds(pets)
    ensures AllViewedShown(pets, viewed) <==> |pets| != 0 && forall p :: p in pets ==> p.id in viewed
  {
    var ids := PetIds(pets);
    var V := set x | x in viewed;
    var P := set x | x in ids;
    PetIdSetCard(pets);
    DistinctCard(viewed);
    assert V <= P;
    if forall p :: p in pets ==> p.id in viewed {
      forall x | x in P ensures x in V {
        var k :| 0 <= k < |ids| && ids[k] == x;
        assert pets[k] in pets;
      }
      assert V == P;
    }
    if |viewed| == |pets| {
      SubsetOfSameSize(V, P);
      forall p | p in pets ensures p.id in viewed {
        var k :| 0 <= k < |pets| && pets[k] == p;
        assert ids[k] in P;
      }
    }
  }

  /**
   * The premises of `AllViewedMeansEveryPet` as a property of the store: pet
   * ids are unique, and the viewed ids are distinct and all name a pet.
   */
  ghost predicate BrowseInvariant(s: AdoptionStore.AppState) {
    && UniqueIds(s.pets)
    && NoDuplicates(s.viewedPetIds)
    && forall id :: id in s.viewedPetIds ==> id in PetIds(s.pets)
  }

  /** Marking the id of a pet in the store as viewed keeps the invariant. */
  lemma MarkViewedKeepsInvariant(s: AdoptionStore.AppState, id: string)
    requires BrowseInvariant(s) && id in PetIds(s.pets)
    ensures BrowseInvariant(s.(viewedPetIds := AdoptionStore.MarkViewed(s.viewedPetIds, id)))
  {
    AdoptionStore.MarkViewedProperties(s.viewedPetIds, id);
  }

  /** Adding a pet under an id no pet has keeps the invariant. */
  lemma AddPetKeepsInvariant(s: AdoptionStore.AppState, pet: Pet, newId: string, now: Time)
    requires BrowseInvariant(s)
    requires forall p :: p in s.pets ==> p.id != newId
    ensures BrowseInvariant(s.(pets := AdoptionStore.AddedPets(s.pets, pet, newId, now)))
  {
    var r := AdoptionStore.AddedPets(s.pets, pet, newId, now);
    AdoptionStore.AddedPetsUnique(s.pets, pet, newId, now);
    forall id | id in s.viewedPetIds ensures id in PetIds(r) {
      var k :| 0 <= k < |s.pets| && PetIds(s.pets)[k] == id;
      assert r[k] == r[..|s.pets|][k];
      assert PetIds(r)[k] == id;
    }
  }

  /** Deleting a pet keeps the invariant: its id leaves the viewed list with it. */
  lemma DeletePetKeepsInvariant(s: AdoptionStore.AppState, id: string)
    requires BrowseInvariant(s)
    ensures BrowseInvariant(AdoptionStore.DeletePetState(s, id))
  {
    var t := AdoptionStore.DeletePetState(s, id);
    AdoptionStore.DeletePetCascade(s, id);
    SavedPetHelpers.SubsequenceUniqueIds(t.pets, s.pets);
    RemoveNoDuplicates(s.viewedPetIds, id);
    forall x | x in t.viewedPetIds ensures x in PetIds(t.pets) {
      var k :| 0 <= k < |s.pets| && PetIds(s.pets)[k] == x;
      assert s.pets[k] in t.pets;
      var j :| 0 <= j < |t.pets| && t.pets[j] == s.pets[k];
      assert PetIds(t.pets)[j] == x;
    }
  }

  /** Resetting the viewed list to its saved part keeps the invariant. */
  lemma ResetViewedKeepsInvariant(s: AdoptionStore.AppState)
    requires BrowseInvariant(s)
    ensures BrowseInvariant(s.(viewedPetIds := AdoptionStore.ResetViewed(s.viewedPetIds, s.savedPetIds)))
  {
    AdoptionStore.ResetViewedKeepsSaved(s.viewedPetIds, s.savedPetIds);
  }

  /** The browse screen's own state: the index of the card on top. */
  class Browser {
    var currentIndex: nat
    const store: AdoptionStore.Store

    constructor (store: AdoptionStore.Store)
      ensures this.store == store && currentIndex == 0
    {
      this.store := store;
      currentIndex := 0;
    }

    /** The effect run whenever the pets or the viewed ids change. */
    method SyncToFirstUnviewed()
      modifies this
      ensures currentIndex == FirstUnviewedIndex(store.state.pets, store.state.viewedPetIds)
    {
      currentIndex := FirstUnviewedIndex(store.state.pets, store.state.viewedPetIds);
    }

    /**
     * `goToNext`: marks the card on top of the captured list as viewed (the
     * write is not awaited), then scans the lists captured when the handler
     * was made.
     */
    method Advance(pets: seq<Pet>, viewed: seq<string>, markFails: bool)
      requires currentIndex < |pets|
      modifies this, store, store.storage
      ensures var id := pets[old(currentIndex)].id;
        store.state.viewedPetIds ==
          if markFails && id !in old(store.state.viewedPetIds) then old(store.state.viewedPetIds)
          else AdoptionStore.MarkViewed(old(store.state.viewedPetIds), id)
      ensures store.state == old(store.state).(viewedPetIds := store.state.viewedPetIds)
      ensures store.storage.items - {AdoptionStore.ViewedKey} == old(store.storage.items) - {AdoptionStore.ViewedKey}
      ensures (exists k :: 0 <= k < |pets| && pets[k].id !in viewed) ==>
        currentIndex < |pets| && pets[currentIndex].id !in viewed
      ensures (exists k :: 0 <= k < |pets| && pets[k].id !in viewed) ==>
        exists i :: (1 <= i <= |pets| && currentIndex == Candidate(old(currentIndex), i, |pets|)
                     && forall j :: 1 <= j < i ==> pets[Candidate(old(currentIndex), j, |pets|)].id in viewed)
      ensures (forall k :: 0 <= k < |pets| ==> pets[k].id in viewed) ==> currentIndex == old(currentIndex)
    {
      var currentPet := pets[currentIndex];
      var _ := store.MarkPetAsViewed(currentPet.id, markFails);
      var next, found := ScanNext(pets, viewed, currentIndex);
      if found {
        currentIndex := next;
      }
    }

    /** The pass button and a left swipe: advance only; nothing but the viewed list can change. */
    method PassCard(markFails: bool)
      requires currentIndex < |store.state.pets|
      modifies this, store, store.storage
      ensures var id := old(store.state.pets[currentIndex].id);
        store.state.viewedPetIds ==
          if markFails && id !in old(store.state.viewedPetIds) then old(store.state.viewedPetIds)
          else AdoptionStore.MarkViewed(old(store.state.viewedPetIds), id)
      ensures store.state == old(store.state).(viewedPetIds := store.state.viewedPetIds)
      ensures store.storage.items - {AdoptionStore.ViewedKey} == old(store.storage.items) - {AdoptionStore.ViewedKey}
      ensures var pets := old(store.state.pets);
        var viewed := old(store.state.viewedPetIds);
        if exists k :: 0 <= k < |pets| && pets[k].id !in viewed then
          exists i :: (1 <= i <= |pets| && currentIndex == Candidate(old(currentIndex), i, |pets|)
                       && forall j :: 1 <= j < i ==> pets[Candidate(old(currentIndex), j, |pets|)].id in viewed)
        else currentIndex == old(currentIndex)
    {
      Advance(store.state.pets, store.state.viewedPetIds, markFails);
    }

    /**
     * The save button, the heart on the card and a right swipe: toggle the pet
     * in the saved list, then advance over the lists captured before the
     * toggle, but only when the toggle did not throw.
     */
    method Save(writeFails: bool, reloadFails: bool, markFails: bool) returns (r: Outcome)
      requires currentIndex < |store.state.pets|
      modifies this, store, store.storage
      ensures r.Pass? <==> !writeFails
      ensures r.Fail? ==> currentIndex == old(currentIndex) && store.state == old(store.state)
      ensures r.Pass? ==>
        && AdoptionStore.SavedKey in store.storage.items
        && store.storage.items[AdoptionStore.SavedKey]
           == IdList(Toggle(old(store.state.savedPetIds), old(store.state.pets[currentIndex].id)))
    {
      var pets := store.state.pets;
      var viewed := store.state.viewedPetIds;
      r := store.ToggleSavedPet(pets[currentIndex].id, writeFails, reloadFails);
      if r.Pass? {
        Advance(pets, viewed, markFails);
        assert AdoptionStore.SavedKey in store.storage.items - {AdoptionStore.ViewedKey};
      }
    }

    /** A released swipe past the threshold: right saves, left passes. */
    method OnSwipe(right: bool, writeFails: bool, reloadFails: bool, markFails: bool) returns (r: Outcome)
      requires currentIndex < |store.state.pets|
      modifies this, store, store.storage
      ensures right ==> (r.Pass? <==> !writeFails)
      ensures !right ==> r.Pass? && store.state.savedPetIds == old(store.state.savedPetIds)
    {
      if right {
        r := Save(writeFails, reloadFails, markFails);
      } else {
        PassCard(markFails);
        r := Pass;
      }
    }
  }
}
