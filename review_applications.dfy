/**
 * The user-variant review screen: it lists the pending applications and
 * writes an approve / reject decision back to storage.
 */
module ReviewApplications {
  import opened Wrappers
  import opened Types
  import opened Seqs
  import opened KeyValue
  import AdoptionForm

  const ApplicationsKey := "applications"

  /** `allApplications.filter(app => app.status === 'pending')`. */
  function PendingOnly(apps: seq<Application>): (r: seq<Application>)
    ensures forall a :: a in r <==> a in apps && a.status == AppPending
  {
    Filter(apps, (a: Application) => a.status == AppPending)
  }

  /** The decided record: the status and a review time; nothing else changes. */
  function DecideOne(a: Application, d: Decision, now: Time): Application {
    a.(status := DecisionStatus(d), reviewedAt := Some(now))
  }

  /**
   * `handleDecision`'s map: `app.id === appId`, where the id of a displayed
   * record may be absent (None), and an absent id equals an absent id.
   */
  function Decided(apps: seq<Application>, appId: Option<string>, d: Decision, now: Time)
    : (r: seq<Application>)
    ensures |r| == |apps|
    ensures forall i :: 0 <= i < |apps| && apps[i].id == appId ==> r[i] == DecideOne(apps[i], d, now)
    ensures forall i :: 0 <= i < |apps| && apps[i].id != appId ==> r[i] == apps[i]
  {
    MapWhere(apps, (a: Application) => a.id == appId, (a: Application) => DecideOne(a, d, now))
  }

  /**
   * Two submissions from the adoption form, as written, carry no id; deciding
   * the first one decides the second as well.
   */
  lemma IdlessDecisionDecidesAll(first: ApplicantForm, second: ApplicantForm, pet: Pet, t1: Time, t2: Time,
                                 d: Decision, now: Time)
    ensures var apps := [AdoptionForm.RecordAsWritten(first, pet, t1), AdoptionForm.RecordAsWritten(second, pet, t2)];
      var r := Decided(apps, apps[0].id, d, now);
      r[0].status == DecisionStatus(d) && r[1].status == DecisionStatus(d) && r[1] != apps[1]
  {
  }

  /** Every application has an id, and no two share one. */
  ghost predicate DistinctIds(apps: seq<Application>) {
    && (forall i :: 0 <= i < |apps| ==> apps[i].id.Some?)
    && (forall i, j :: 0 <= i < j < |apps| ==> apps[i].id != apps[j].id)
  }

  /** Appending a record under a fresh id keeps the ids distinct. */
  lemma SubmitKeepsIdsDistinct(apps: seq<Application>, form: ApplicantForm, pet: Pet, newId: string, t: Time)
    requires DistinctIds(apps)
    requires forall a :: a in apps ==> a.id != Some(newId)
    ensures DistinctIds(apps + [AdoptionForm.Record(form, pet, newId, t)])
  {
    var r := apps + [AdoptionForm.Record(form, pet, newId, t)];
    forall i, j | 0 <= i < j < |r| ensures r[i].id != r[j].id {
      if j == |apps| {
        assert r[i] == apps[i] && apps[i] in apps;
      } else {
        assert r[i] == apps[i] && r[j] == apps[j];
      }
    }
  }

  /** With distinct ids a decision changes exactly the one application it names. */
  lemma DecisionHitsExactlyOne(apps: seq<Application>, k: int, d: Decision, now: Time)
    requires DistinctIds(apps) && 0 <= k < |apps|
    ensures var r := Decided(apps, apps[k].id, d, now);
      && r[k] == DecideOne(apps[k], d, now)
      && forall i :: 0 <= i < |apps| && i != k ==> r[i] == apps[i]
  {
  }

  class Screen {
    var applications: seq<Application>
    var loading: bool
    const storage: KeyValue.Store

    constructor (storage: KeyValue.Store)
      ensures this.storage == storage && applications == [] && loading
    {
      this.storage := storage;
      applications := [];
      loading := true;
    }

    /**
     * `fetchApplications`: the pending ones of the stored list ([] when
     * absent); a failed read is swallowed and leaves the list as it was.
     */
    method FetchApplications(readFails: bool)
      modifies this
      ensures !loading
      ensures var stored := AdoptionForm.DecodeApplications(Lookup(storage.items, ApplicationsKey));
        applications == if readFails || stored.Failure? then old(applications) else PendingOnly(stored.value)
    {
      var data := storage.GetItem(ApplicationsKey, readFails);
      if data.Success? {
        var stored := AdoptionForm.DecodeApplications(data.value);
        if stored.Success? {
          applications := PendingOnly(stored.value);
        }
      }
      loading := false;
    }

    /**
     * `handleDecision`: the stored list takes the decision; only after the
     * write succeeds does the decided application leave the displayed list.
     * Every failure is swallowed.
     */
    method HandleDecision(appId: Option<string>, d: Decision, now: Time, readFails: bool, writeFails: bool)
      returns (r: Outcome)
      modifies this, storage
      ensures var stored := AdoptionForm.DecodeApplications(Lookup(old(storage.items), ApplicationsKey));
        if readFails || stored.Failure? then r.Fail? && storage.items == old(storage.items)
        else
          && (r.Pass? <==> !writeFails)
          && storage.items == Written(old(storage.items), ApplicationsKey,
               AppList(Decided(stored.value, appId, d, now)), writeFails)
      ensures applications ==
        if r.Pass? then Filter(old(applications), (a: Application) => a.id != appId) else old(applications)
      ensures loading == old(loading)
    {
      var data := storage.GetItem(ApplicationsKey, readFails);
      if data.Failure? {
        return Fail(data.error);
      }
      var stored := AdoptionForm.DecodeApplications(data.value);
      if stored.Failure? {
        return Fail(stored.error);
      }
      var allApplications := stored.value;
      allApplications := Decided(allApplications, appId, d, now);
      r := storage.SetItem(ApplicationsKey, AppList(allApplications), writeFails);
      if r.Pass? {
        applications := Filter(applications, (a: Application) => a.id != appId);
      }
    }
  }

  /** The displayed list after a decision: the decided one is gone, the rest keep their order. */
  lemma DisplayedAfterDecision(shown: seq<Application>, appId: Option<string>)
    ensures var r := Filter(shown, (a: Application) => a.id != appId);
      && (forall a :: a in r <==> a in shown && a.id != appId)
      && IsSubsequence(r, shown)
  {
    FilterIsSubsequence(shown, (a: Application) => a.id != appId);
  }
}
