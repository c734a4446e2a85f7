/**
 * The admin-variant dashboard's three counts, recomputed from the store's
 * pets and applications whenever either changes.
 */
module AdminDashboard {
  import opened Types
  import opened Seqs
  import AdoptionStore
  import ApplicationReview

  datatype Stats = Stats(totalPets: nat, availablePets: nat, pendingApps: nat)

  /** The pets with status available. */
  function AvailablePets(pets: seq<Pet>): (r: seq<Pet>)
    ensures forall p :: p in r <==> p in pets && p.status == Available
  {
    Filter(pets, (p: Pet) => p.status == Available)
  }

  /** The effect's `setStats`. */
  function ComputeStats(pets: seq<Pet>, apps: seq<Application>): (s: Stats)
    ensures s.totalPets == |pets|
    ensures s.availablePets <= s.totalPets && s.pendingApps <= |apps|
    ensures s.availablePets == |pets| <==> forall p :: p in pets ==> p.status == Available
    ensures s.pendingApps == ApplicationReview.PendingBadge(apps)
  {
    FilterAllIffSameLength(pets, (p: Pet) => p.status == Available);
    Stats(|pets|, |AvailablePets(pets)|, |ApplicationReview.WithStatus(apps, AppPending)|)
  }

  /** A filter keeps its whole input exactly when every element passes. */
  lemma {:induction false} FilterAllIffSameLength<T(!new)>(s: seq<T>, p: T -> bool)
    ensures |Filter(s, p)| == |s| <==> forall x :: x in s ==> p(x)
  {
    if s != [] {
      FilterAllIffSameLength(s[1..], p);
      assert s == [s[0]] + s[1..];
      if !p(s[0]) {
        assert |Filter(s, p)| == |Filter(s[1..], p)|;
      }
    }
  }

  /** Adding a pet raises the total and the available count by one and leaves pending alone. */
  lemma StatsAfterAddPet(pets: seq<Pet>, apps: seq<Application>, pet: Pet, newId: string, now: Time)
    ensures var before := ComputeStats(pets, apps);
      var after := ComputeStats(AdoptionStore.AddedPets(pets, pet, newId, now), apps);
      after == Stats(before.totalPets + 1, before.availablePets + 1, before.pendingApps)
  {
    var added := AdoptionStore.AddedPets(pets, pet, newId, now);
    assert added == pets + [added[|pets|]];
    FilterConcat(pets, [added[|pets|]], (p: Pet) => p.status == Available);
  }

  /** Submitting an application raises the pending count by one and leaves the pet counts alone. */
  lemma StatsAfterSubmit(pets: seq<Pet>, apps: seq<Application>, app: Application, newId: string, now: Time)
    ensures var before := ComputeStats(pets, apps);
      var after := ComputeStats(pets, AdoptionStore.SubmittedApplications(apps, app, newId, now));
      after == Stats(before.totalPets, before.availablePets, before.pendingApps + 1)
  {
    var submitted := AdoptionStore.SubmittedApplications(apps, app, newId, now);
    assert submitted == apps + [submitted[|apps|]];
    FilterConcat(apps, [submitted[|apps|]], (a: Application) => a.status == AppPending);
  }

  /** Deciding an application never raises the pending count, and leaves the pet counts alone. */
  lemma StatsAfterDecision(pets: seq<Pet>, apps: seq<Application>, id: string, d: Decision, now: Time)
    ensures var before := ComputeStats(pets, apps);
      var after := ComputeStats(pets, AdoptionStore.ReviewedApplications(apps, id, d, now));
      after.totalPets == before.totalPets && after.availablePets == before.availablePets
      && after.pendingApps <= before.pendingApps
  {
    PendingNotRaised(apps, AdoptionStore.ReviewedApplications(apps, id, d, now));
  }

  /** Pointwise, a list whose pending entries were all pending before has no more pending entries. */
  lemma {:induction false} PendingNotRaised(a: seq<Application>, b: seq<Application>)
    requires |a| == |b|
    requires forall i :: 0 <= i < |a| && b[i].status == AppPending ==> a[i].status == AppPending
    ensures |ApplicationReview.WithStatus(b, AppPending)| <= |ApplicationReview.WithStatus(a, AppPending)|
  {
    if a != [] {
      PendingNotRaised(a[1..], b[1..]);
    }
  }
}
