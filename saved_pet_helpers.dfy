/**
 * The user-variant helpers that keep whole pet records under `savedPets`:
 * read the list, add a pet unless one with its id is there, remove by id.
 * Every storage failure is rethrown.
 */
module SavedPetHelpers {
  import opened Wrappers
  import opened Types
  import opened Seqs
  import opened KeyValue

  const SavedKey := "savedPets"
  const NotAPetList := "stored saved pets are not a pet list"

  /** What `getSavedPetsFromStorage` makes of the stored value: an absent key is []. */
  function DecodeSaved(b: Option<Blob>): (r: Result<seq<Pet>>)
    ensures b.None? ==> r == Success([])
    ensures r.Success? && b.Some? ==> b.value == PetList(r.value)
  {
    match b
    case None => Success([])
    case Some(PetList(ps)) => Success(ps)
    case Some(_) => Failure(NotAPetList)
  }

  /** Some saved pet already carries this id. */
  predicate HasId(saved: seq<Pet>, id: string) {
    exists p :: p in saved && p.id == id
  }

  /** The list `savePetToStorage` keeps: the pet is appended only when its id is new. */
  function WithPet(saved: seq<Pet>, pet: Pet): (r: seq<Pet>)
    ensures HasId(r, pet.id)
    ensures HasId(saved, pet.id) ==> r == saved
    ensures !HasId(saved, pet.id) ==> r == saved + [pet]
  {
    if HasId(saved, pet.id) then saved else saved + [pet]
  }

  /** Saving keeps the ids unique, and saving the same pet again changes nothing. */
  lemma WithPetUnique(saved: seq<Pet>, pet: Pet)
    ensures UniqueIds(saved) ==> UniqueIds(WithPet(saved, pet))
    ensures WithPet(WithPet(saved, pet), pet) == WithPet(saved, pet)
  {
    if UniqueIds(saved) && !HasId(saved, pet.id) {
      var r := saved + [pet];
      forall i, j | 0 <= i < j < |r| ensures r[i].id != r[j].id {
        if j == |saved| {
          assert r[i] in saved;
        } else {
          assert r[i] == saved[i] && r[j] == saved[j];
        }
      }
    }
  }

  /** The list `removePetFromStorage` writes. */
  function WithoutId(saved: seq<Pet>, petId: string): (r: seq<Pet>)
    ensures !HasId(r, petId)
    ensures forall p: Pet :: p.id != petId ==> (p in r <==> p in saved)
  {
    Filter(saved, (p: Pet) => p.id != petId)
  }

  /** Removing keeps the others in order, and keeps the ids unique. */
  lemma WithoutIdKeepsOrder(saved: seq<Pet>, petId: string)
    ensures IsSubsequence(WithoutId(saved, petId), saved)
    ensures UniqueIds(saved) ==> UniqueIds(WithoutId(saved, petId))
  {
    FilterIsSubsequence(saved, (p: Pet) => p.id != petId);
    if UniqueIds(saved) {
      SubsequenceUniqueIds(WithoutId(saved, petId), saved);
    }
  }

  lemma {:induction false} SubsequenceUniqueIds(a: seq<Pet>, b: seq<Pet>)
    requires IsSubsequence(a, b) && UniqueIds(b)
    ensures UniqueIds(a)
    decreases |b|
  {
    if a != [] {
      assert b != [];
      var b' := b[1..];
      assert UniqueIds(b') by {
        forall i, j | 0 <= i < j < |b'| ensures b'[i].id != b'[j].id {
          assert b'[i] == b[i + 1] && b'[j] == b[j + 1];
        }
      }
      if a[0] == b[0] && IsSubsequence(a[1..], b') {
        SubsequenceUniqueIds(a[1..], b');
        SubsequenceMembers(a[1..], b');
        forall i, j | 0 <= i < j < |a| ensures a[i].id != a[j].id {
          if i == 0 {
            assert a[j] == a[1..][j - 1];
            assert a[j] in b';
            var k :| 0 <= k < |b'| && b'[k] == a[j];
            assert b[k + 1] == a[j];
          } else {
            assert a[i] == a[1..][i - 1] && a[j] == a[1..][j - 1];
          }
        }
      } else {
        SubsequenceUniqueIds(a, b');
      }
    }
  }

  lemma {:induction false} SubsequenceMembers<T>(a: seq<T>, b: seq<T>)
    requires IsSubsequence(a, b)
    ensures forall x :: x in a ==> x in b
    decreases |b|
  {
    if a != [] {
      if a[0] == b[0] && IsSubsequence(a[1..], b[1..]) {
        SubsequenceMembers(a[1..], b[1..]);
        assert a == [a[0]] + a[1..];
        assert b == [b[0]] + b[1..];
      } else {
        SubsequenceMembers(a, b[1..]);
        assert b == [b[0]] + b[1..];
      }
    }
  }

  /** `getSavedPetsFromStorage`: a failed read and a value that is not a pet list are thrown. */
  method GetSavedPets(storage: KeyValue.Store, readFails: bool) returns (r: Result<seq<Pet>>)
    ensures readFails ==> r.Failure?
    ensures !readFails ==> r == DecodeSaved(Lookup(storage.items, SavedKey))
    ensures !readFails && SavedKey !in storage.items ==> r == Success([])
  {
    var data := storage.GetItem(SavedKey, readFails);
    if data.Failure? {
      return Failure(data.error);
    }
    r := DecodeSaved(data.value);
  }

  /** `savePetToStorage`: no write at all when a pet with the id is already saved. */
  method SavePetToStorage(storage: KeyValue.Store, pet: Pet, readFails: bool, writeFails: bool) returns (r: Outcome)
    modifies storage
    ensures var loaded := DecodeSaved(Lookup(old(storage.items), SavedKey));
      if readFails || loaded.Failure? then r.Fail? && storage.items == old(storage.items)
      else if HasId(loaded.value, pet.id) then r.Pass? && storage.items == old(storage.items)
      else
        && (r.Pass? <==> !writeFails)
        && storage.items == Written(old(storage.items), SavedKey, PetList(WithPet(loaded.value, pet)), writeFails)
  {
    var loaded := GetSavedPets(storage, readFails);
    if loaded.Failure? {
      return Fail(loaded.error);
    }
    var savedPets := loaded.value;
    r := Pass;
    if !HasId(savedPets, pet.id) {
      savedPets := savedPets + [pet];
      r := storage.SetItem(SavedKey, PetList(savedPets), writeFails);
    }
  }

  /** `removePetFromStorage`: writes the list without the id, even when it held none. */
  method RemovePetFromStorage(storage: KeyValue.Store, petId: string, readFails: bool, writeFails: bool) returns (r: Outcome)
    modifies storage
    ensures var loaded := DecodeSaved(Lookup(old(storage.items), SavedKey));
      if readFails || loaded.Failure? then r.Fail? && storage.items == old(storage.items)
      else
        && (r.Pass? <==> !writeFails)
        && storage.items == Written(old(storage.items), SavedKey, PetList(WithoutId(loaded.value, petId)), writeFails)
  {
    var loaded := GetSavedPets(storage, readFails);
    if loaded.Failure? {
      return Fail(loaded.error);
    }
    r := storage.SetItem(SavedKey, PetList(WithoutId(loaded.value, petId)), writeFails);
  }
}
