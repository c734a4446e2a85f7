/**
 * The admin-variant review screen: a status filter over the store's
 * applications, the pending badge, and which cards offer a decision.
 */
module ApplicationReview {
  import opened Types
  import opened Seqs

  /** `applications.filter(app => app.status === filter)`. */
  function WithStatus(apps: seq<Application>, s: AppStatus): (r: seq<Application>)
    ensures forall a :: a in r <==> a in apps && a.status == s
    ensures |r| <= |apps|
  {
    Filter(apps, (a: Application) => a.status == s)
  }

  /** The filtered list keeps the store's order, and each application as often as the store has it. */
  lemma WithStatusKeepsOrder(apps: seq<Application>, s: AppStatus)
    ensures IsSubsequence(WithStatus(apps, s), apps)
    ensures forall a :: multiset(WithStatus(apps, s))[a] == if a.status == s then multiset(apps)[a] else 0
  {
    FilterIsSubsequence(apps, (a: Application) => a.status == s);
    forall a ensures multiset(WithStatus(apps, s))[a] == if a.status == s then multiset(apps)[a] else 0 {
      FilterMultiset(apps, (a: Application) => a.status == s, a);
    }
  }

  /** The number on the pending badge. */
  function PendingBadge(apps: seq<Application>): (n: nat)
    ensures n <= |apps|
    ensures n == 0 <==> forall a :: a in apps ==> a.status != AppPending
  {
    var r := WithStatus(apps, AppPending);
    assert |r| > 0 ==> r[0] in r;
    |r|
  }

  /** One application's multiplicity is shared out among the three filters. */
  lemma PartitionAt(apps: seq<Application>, a: Application)
    ensures multiset(apps)[a] == multiset(WithStatus(apps, AppPending))[a]
      + multiset(WithStatus(apps, Approved))[a] + multiset(WithStatus(apps, Rejected))[a]
  {
    FilterMultiset(apps, (x: Application) => x.status == AppPending, a);
    FilterMultiset(apps, (x: Application) => x.status == Approved, a);
    FilterMultiset(apps, (x: Application) => x.status == Rejected, a);
  }

  /** The three filters split the applications: together they hold each one exactly as often as the store. */
  lemma FiltersPartition(apps: seq<Application>)
    ensures multiset(apps) == multiset(WithStatus(apps, AppPending)) + multiset(WithStatus(apps, Approved))
                            + multiset(WithStatus(apps, Rejected))
    ensures |apps| == PendingBadge(apps) + |WithStatus(apps, Approved)| + |WithStatus(apps, Rejected)|
  {
    var m := multiset(WithStatus(apps, AppPending)) + multiset(WithStatus(apps, Approved))
           + multiset(WithStatus(apps, Rejected));
    forall a ensures multiset(apps)[a] == m[a] {
      PartitionAt(apps, a);
    }
    assert multiset(apps) == m;
    assert |multiset(apps)| == |m|;
  }

  /** The decisions a card offers: approve and reject on a pending application, nothing otherwise. */
  function Offered(a: Application): (r: set<Decision>)
    ensures r != {} <==> a.status == AppPending
    ensures r != {} ==> r == {Approve, Reject}
    ensures forall d :: d in r ==> DecisionStatus(d) != AppPending
  {
    if a.status == AppPending then {Approve, Reject} else {}
  }
}
