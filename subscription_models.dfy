/** Plans, subscriptions and extra packages (qfieldcloud/subscription/models.py) and the
    per-account no-overlap exclusion constraint on subscriptions
    (qfieldcloud/subscription/sql_config.py). Times are integers; "now" is a parameter. */
module SubscriptionModels {
  import opened Wrappers
  import opened CoreModels

  // Messages of the exceptions and validation errors raised by this part of the code.
  const OverlapError := "conflicting key value violates exclusion constraint \"subscription_subscription_prevent_overlaps\""
  const ActiveSubscriptionExists := "There is already an active subscription for this account."
  const PlanNotFound := "Plan matching query does not exist."
  const MultiplePlans := "get() returned more than one Plan"
  const SubscriptionNotFound := "Subscription matching query does not exist."
  const UserTypeNotAllowed := "Only \"PERSON\" and \"ORGANIZATION\" user types are allowed."
  const PlanCodeUniqueError := "duplicate key value violates unique constraint on \"code\""
  const PremiumOnlyError := "Only premium accounts can have additional packages!"
  const NoSubscriptionAttribute := "'Subscription' object has no attribute 'subscription'"
  const MultiplePackages := "get() returned more than one ExtraPackage"
  const MultipleSubscriptions := "get() returned more than one Subscription"

  datatype Plan = Plan(id: nat, code: string, userType: UserType, storageMb: nat, isDefault: bool, isPremium: bool)

  /** `Subscription.Status`. */
  datatype SubscriptionStatus =
    InactiveDraft | InactiveDraftExpired | InactiveRequestedCreate | InactiveAwaitsPayment
    | ActivePaid | ActivePastDue | InactiveCancelled

  /** The fields of a subscription that `update_subscription` may set through `**kwargs`. */
  datatype SubscriptionField = PlanField(planId: nat) | StorageQuantityField(quantity: nat) | RequestedCancelAtField(at: Option<int>)

  datatype Subscription = Subscription(
    id: nat,
    planId: nat,
    account: UserId,
    storageQuantity: nat,
    status: SubscriptionStatus,
    requestedCancelAt: Option<int>,
    activeSince: Option<int>,
    activeUntil: Option<int>)

  /** `ExtraPackageType.Type`; the `type` column is unique, so a kind names its package type. */
  datatype PackageKind = Storage

  datatype ExtraPackage = ExtraPackage(id: nat, subscription: nat, kind: PackageKind, quantity: int, activeSince: int, activeUntil: Option<int>)

  // ---------------------------------------------------------------------------
  // The active filters
  // ---------------------------------------------------------------------------

  /** `active_since <= now AND (active_until IS NULL OR active_until >= now)`; a NULL
      `active_since` compares as unknown, so such a row is never active. */
  predicate ActiveAt(since: Option<int>, until: Option<int>, now: int)
  {
    since.Some? && since.value <= now && (until.None? || until.value >= now)
  }

  /** `SubscriptionQuerySet.active`. */
  predicate SubscriptionActive(s: Subscription, now: int)
  {
    ActiveAt(s.activeSince, s.activeUntil, now)
  }

  /** `ExtraPackageQuerySet.active`. */
  predicate PackageActive(p: ExtraPackage, now: int)
  {
    ActiveAt(Some(p.activeSince), p.activeUntil, now)
  }

  // ---------------------------------------------------------------------------
  // Storage arithmetic
  // ---------------------------------------------------------------------------

  /** `min_storage_package_quantity`: `ceil(max(used - included, 0) / 1000)`, the least number
      of 1000 MB packages that cover the storage used beyond the plan's own. */
  function MinStoragePackageQuantity(usedMb: int, includedMb: int): (q: nat)
    ensures q * 1000 >= usedMb - includedMb
    ensures q > 0 ==> (q - 1) * 1000 < usedMb - includedMb
    ensures q == 0 <==> usedMb <= includedMb
  {
    var over := if usedMb - includedMb > 0 then usedMb - includedMb else 0;
    (over + 999) / 1000
  }

  /** `active_storage_package`: `.first()` of the subscription's active storage packages. The
      queryset has no ordering, so `first()` orders by primary key: the package with the least id. */
  function ActiveStoragePackage(packages: seq<ExtraPackage>, sub: nat, now: int): (r: Option<ExtraPackage>)
    ensures r.Some? ==> r.value in packages && r.value.subscription == sub && r.value.kind == Storage && PackageActive(r.value, now)
    ensures r.None? <==> forall p :: p in packages ==> !(p.subscription == sub && p.kind == Storage && PackageActive(p, now))
    ensures r.Some? ==> forall p :: p in packages && p.subscription == sub && p.kind == Storage && PackageActive(p, now) ==> r.value.id <= p.id
  {
    if packages == [] then None
    else
      var p := packages[0];
      var rest := ActiveStoragePackage(packages[1..], sub, now);
      if p.subscription == sub && p.kind == Storage && PackageActive(p, now) && (rest.None? || p.id <= rest.value.id) then Some(p)
      else rest
  }

  /** `active_storage_package_mb`: 1000 MB per unit of the active storage package, 0 without one. */
  function ActiveStoragePackageMb(packages: seq<ExtraPackage>, sub: nat, now: int): (mb: int)
    ensures ActiveStoragePackage(packages, sub, now).None? ==> mb == 0
    ensures ActiveStoragePackage(packages, sub, now).Some? ==> mb == ActiveStoragePackage(packages, sub, now).value.quantity * 1000
  {
    match ActiveStoragePackage(packages, sub, now)
    case None => 0
    case Some(p) => p.quantity * 1000
  }

  /** Buying the minimum quantity covers the storage used. */
  lemma MinimumPackageCoversUsage(packages: seq<ExtraPackage>, sub: nat, now: int, usedMb: int, includedMb: int)
    requires ActiveStoragePackage(packages, sub, now).Some?
    requires ActiveStoragePackage(packages, sub, now).value.quantity >= MinStoragePackageQuantity(usedMb, includedMb)
    ensures includedMb + ActiveStoragePackageMb(packages, sub, now) >= usedMb
  {
  }

  // ---------------------------------------------------------------------------
  // Plans
  // ---------------------------------------------------------------------------

  /** `Plan.objects.filter(user_type=t).update(is_default=False)`. */
  function UnsetDefaults(plans: seq<Plan>, t: UserType): (r: seq<Plan>)
    ensures |r| == |plans|
    ensures forall i :: 0 <= i < |plans| ==> r[i] == if plans[i].userType == t then plans[i].(isDefault := false) else plans[i]
  {
    if plans == [] then []
    else [if plans[0].userType == t then plans[0].(isDefault := false) else plans[0]] + UnsetDefaults(plans[1..], t)
  }

  /** `super().save()`: update the row with the plan's primary key, or insert it. */
  function Upsert(plans: seq<Plan>, p: Plan): (r: seq<Plan>)
    ensures (exists q :: q in plans && q.id == p.id) ==> (|r| == |plans| &&
      forall i :: 0 <= i < |plans| ==> r[i] == if plans[i].id == p.id then p else plans[i])
    ensures (forall q :: q in plans ==> q.id != p.id) ==> r == plans + [p]
  {
    if exists q :: q in plans && q.id == p.id then
      seq(|plans|, i requires 0 <= i < |plans| => if plans[i].id == p.id then p else plans[i])
    else plans + [p]
  }

  /** The table after `Plan.save` succeeds. */
  function PlansAfterSave(plans: seq<Plan>, p: Plan): seq<Plan>
  {
    Upsert(if p.isDefault then UnsetDefaults(plans, p.userType) else plans, p)
  }

  /** At most one default plan per user type. */
  ghost predicate SingleDefaultPerType(plans: seq<Plan>)
  {
    forall i, j :: 0 <= i < j < |plans| && plans[i].isDefault && plans[j].isDefault ==> plans[i].userType != plans[j].userType
  }

  /** After saving a default plan it is the only default plan of its user type, the saved plan
      is in the table, and plans of other user types are unchanged. */
  lemma SaveDefaultPlanIsOnlyDefault(plans: seq<Plan>, p: Plan)
    requires p.isDefault
    ensures p in PlansAfterSave(plans, p)
    ensures forall q :: q in PlansAfterSave(plans, p) && q.userType == p.userType && q.isDefault ==> q == p
    ensures forall q :: q in plans && q.userType != p.userType && q.id != p.id ==> q in PlansAfterSave(plans, p)
  {
    var u := UnsetDefaults(plans, p.userType);
    UpsertMembers(u, p);
    forall q | q in plans && q.userType != p.userType && q.id != p.id
      ensures q in u
    {
      var i :| 0 <= i < |plans| && plans[i] == q;
      assert u[i] == q;
    }
    forall q | q in u && q.userType == p.userType
      ensures !q.isDefault
    {
      var i :| 0 <= i < |u| && u[i] == q;
    }
  }

  /** What storing `p` keeps and adds: `p` itself, and every row with another key. */
  lemma UpsertMembers(plans: seq<Plan>, p: Plan)
    ensures p in Upsert(plans, p)
    ensures forall q :: q in Upsert(plans, p) ==> q == p || q in plans
    ensures forall q :: q in plans && q.id != p.id ==> q in Upsert(plans, p)
  {
    var r := Upsert(plans, p);
    if exists q :: q in plans && q.id == p.id {
      var q :| q in plans && q.id == p.id;
      var i :| 0 <= i < |plans| && plans[i] == q;
      assert r[i] == p;
      forall x | x in r
        ensures x == p || x in plans
      {
        var k :| 0 <= k < |r| && r[k] == x;
      }
      forall x | x in plans && x.id != p.id
        ensures x in r
      {
        var k :| 0 <= k < |plans| && plans[k] == x;
        assert r[k] == x;
      }
    } else {
      assert r == plans + [p];
    }
  }

  /** Primary keys are unique. */
  ghost predicate UniquePlanIds(plans: seq<Plan>)
  {
    forall i, j :: 0 <= i < j < |plans| ==> plans[i].id != plans[j].id
  }

  /** Saving any plan keeps at most one default plan per user type. */
  lemma SavePlanKeepsSingleDefault(plans: seq<Plan>, p: Plan)
    requires SingleDefaultPerType(plans) && UniquePlanIds(plans)
    ensures SingleDefaultPerType(PlansAfterSave(plans, p))
  {
    if p.isDefault {
      UnsetDefaultsKeeps(plans, p.userType);
    }
    UpsertKeepsSingleDefault(if p.isDefault then UnsetDefaults(plans, p.userType) else plans, p);
  }

  /** Clearing the defaults of one user type keeps keys unique and leaves no default of that type. */
  lemma UnsetDefaultsKeeps(plans: seq<Plan>, t: UserType)
    requires SingleDefaultPerType(plans) && UniquePlanIds(plans)
    ensures SingleDefaultPerType(UnsetDefaults(plans, t)) && UniquePlanIds(UnsetDefaults(plans, t))
    ensures forall i :: 0 <= i < |plans| && UnsetDefaults(plans, t)[i].isDefault ==> UnsetDefaults(plans, t)[i].userType != t
  {
  }

  /** Storing a plan keeps one default per type when no default of its type is left besides it. */
  lemma UpsertKeepsSingleDefault(base: seq<Plan>, p: Plan)
    requires SingleDefaultPerType(base) && UniquePlanIds(base)
    requires p.isDefault ==> forall i :: 0 <= i < |base| && base[i].isDefault ==> base[i].userType != p.userType
    ensures SingleDefaultPerType(Upsert(base, p))
  {
    var r := Upsert(base, p);
    if exists q :: q in base && q.id == p.id {
      forall i, j | 0 <= i < j < |r| && r[i].isDefault && r[j].isDefault
        ensures r[i].userType != r[j].userType
      {
        assert base[i].id != p.id || base[j].id != p.id;
      }
    } else {
      forall i, j | 0 <= i < j < |r| && r[i].isDefault && r[j].isDefault
        ensures r[i].userType != r[j].userType
      {
        assert r[i] == base[i];
        if j < |base| {
          assert r[j] == base[j];
        }
      }
    }
  }

  // ---------------------------------------------------------------------------
  // The per-account no-overlap exclusion constraint
  // ---------------------------------------------------------------------------

  /** `tstzrange(active_since, active_until)` can be built (lower bound not above upper). */
  predicate RangeWellFormed(s: Subscription)
  {
    s.activeSince.None? || s.activeUntil.None? || s.activeSince.value <= s.activeUntil.value
  }

  /** Two half-open ranges `[since, until)` share an instant; NULL until is unbounded and an
      empty range overlaps nothing. */
  predicate RangesOverlap(a: Subscription, b: Subscription)
    requires a.activeSince.Some? && b.activeSince.Some?
  {
    (a.activeUntil.None? || a.activeSince.value < a.activeUntil.value)
    && (b.activeUntil.None? || b.activeSince.value < b.activeUntil.value)
    && (a.activeUntil.None? || b.activeSince.value < a.activeUntil.value)
    && (b.activeUntil.None? || a.activeSince.value < b.activeUntil.value)
  }

  /** The constraint accepts the pair: other accounts, a NULL `active_since`, or disjoint ranges. */
  predicate PairClear(a: Subscription, b: Subscription)
  {
    a.account != b.account || a.activeSince.None? || b.activeSince.None? || !RangesOverlap(a, b)
  }

  /** `subscription_subscription_prevent_overlaps`, over the rows with `active_since` set:
      each row's range can be built and clears every later row. */
  predicate NoOverlap(subs: seq<Subscription>)
  {
    subs == [] || (RangeWellFormed(subs[0]) && ClearOfAll(subs[0], subs[1..]) && NoOverlap(subs[1..]))
  }

  predicate ClearOfAll(a: Subscription, rest: seq<Subscription>)
  {
    forall k :: 0 <= k < |rest| ==> PairClear(a, rest[k])
  }

  /** The same constraint stated over all pairs of rows. */
  ghost predicate NoOverlapPairs(subs: seq<Subscription>)
  {
    (forall i :: 0 <= i < |subs| ==> RangeWellFormed(subs[i]))
    && forall i, j :: 0 <= i < j < |subs| ==> PairClear(subs[i], subs[j])
  }

  lemma {:induction false} NoOverlapIsPairwise(subs: seq<Subscription>)
    ensures NoOverlap(subs) <==> NoOverlapPairs(subs)
  {
    if subs != [] {
      NoOverlapIsPairwise(subs[1..]);
      var tail := subs[1..];
      assert forall i :: 1 <= i < |subs| ==> subs[i] == tail[i - 1];
      if NoOverlapPairs(subs) {
        assert ClearOfAll(subs[0], tail) by {
          forall k | 0 <= k < |tail|
            ensures PairClear(subs[0], tail[k])
          {
            assert tail[k] == subs[k + 1];
          }
        }
        assert NoOverlapPairs(tail) by {
          forall i, j | 0 <= i < j < |tail|
            ensures PairClear(tail[i], tail[j])
          {
            assert tail[i] == subs[i + 1] && tail[j] == subs[j + 1];
          }
        }
      }
      if NoOverlap(subs) {
        forall i, j | 0 <= i < j < |subs|
          ensures PairClear(subs[i], subs[j])
        {
          if i == 0 {
            assert subs[j] == tail[j - 1];
          } else {
            assert subs[i] == tail[i - 1] && subs[j] == tail[j - 1];
          }
        }
        forall i | 0 <= i < |subs|
          ensures RangeWellFormed(subs[i])
        {
          if i > 0 {
            assert subs[i] == tail[i - 1];
          }
        }
      }
    }
  }

  /** Two subscriptions of one account that the constraint accepts are never both active at an
      instant strictly inside the earlier one's range: the only shared active instant is the
      hand-over instant, where one's until equals the other's since. */
  lemma NoOverlapActiveOnlyAtHandover(subs: seq<Subscription>, i: nat, j: nat, now: int)
    requires NoOverlap(subs) && i < |subs| && j < |subs| && i != j
    requires subs[i].account == subs[j].account
    requires SubscriptionActive(subs[i], now) && SubscriptionActive(subs[j], now)
    ensures (subs[i].activeUntil == Some(now) && subs[j].activeSince == Some(now))
      || (subs[j].activeUntil == Some(now) && subs[i].activeSince == Some(now))
      || (subs[i].activeSince == subs[i].activeUntil) || (subs[j].activeSince == subs[j].activeUntil)
  {
    NoOverlapIsPairwise(subs);
    if i < j {
      assert PairClear(subs[i], subs[j]);
    } else {
      assert PairClear(subs[j], subs[i]);
    }
  }

  /** The other active subscriptions of the account are cancelled and end where the new one begins. */
  function CancelOthers(subs: seq<Subscription>, target: Subscription, since: int, now: int): (r: seq<Subscription>)
    ensures |r| == |subs|
    ensures forall i :: 0 <= i < |subs| ==>
      r[i] == (if subs[i].account == target.account && subs[i].id != target.id && SubscriptionActive(subs[i], now)
      then subs[i].(status := InactiveCancelled, activeUntil := Some(since)) else subs[i])
  {
    if subs == [] then []
    else
      var s := subs[0];
      var s' := if s.account == target.account && s.id != target.id && SubscriptionActive(s, now)
        then s.(status := InactiveCancelled, activeUntil := Some(since)) else s;
      [s'] + CancelOthers(subs[1..], target, since, now)
  }

  /** `setattr(subscription, name, value)` for one keyword argument. */
  function SetField(s: Subscription, f: SubscriptionField): (r: Subscription)
    ensures r.id == s.id && r.account == s.account && r.status == s.status
    ensures r.activeSince == s.activeSince && r.activeUntil == s.activeUntil
    ensures f.PlanField? ==> r == s.(planId := f.planId)
    ensures f.StorageQuantityField? ==> r == s.(storageQuantity := f.quantity)
    ensures f.RequestedCancelAtField? ==> r == s.(requestedCancelAt := f.at)
  {
    match f
    case PlanField(planId) => s.(planId := planId)
    case StorageQuantityField(q) => s.(storageQuantity := q)
    case RequestedCancelAtField(at) => s.(requestedCancelAt := at)
  }

  /** `setattr` for each keyword argument, in order. */
  function ApplyFields(s: Subscription, fields: seq<SubscriptionField>): (r: Subscription)
    decreases |fields|
    ensures r.id == s.id && r.account == s.account && r.status == s.status
    ensures r.activeSince == s.activeSince && r.activeUntil == s.activeUntil
    ensures forall k :: (0 <= k < |fields| && fields[k].PlanField?
      && (forall m :: k < m < |fields| ==> !fields[m].PlanField?)) ==> r.planId == fields[k].planId
    ensures forall k :: (0 <= k < |fields| && fields[k].StorageQuantityField?
      && (forall m :: k < m < |fields| ==> !fields[m].StorageQuantityField?)) ==> r.storageQuantity == fields[k].quantity
    ensures forall k :: (0 <= k < |fields| && fields[k].RequestedCancelAtField?
      && (forall m :: k < m < |fields| ==> !fields[m].RequestedCancelAtField?)) ==> r.requestedCancelAt == fields[k].at
    ensures (forall k :: 0 <= k < |fields| ==> !fields[k].PlanField?) ==> r.planId == s.planId
    ensures (forall k :: 0 <= k < |fields| ==> !fields[k].StorageQuantityField?) ==> r.storageQuantity == s.storageQuantity
    ensures (forall k :: 0 <= k < |fields| ==> !fields[k].RequestedCancelAtField?) ==> r.requestedCancelAt == s.requestedCancelAt
  {
    if fields == [] then s else ApplyFields(SetField(s, fields[0]), fields[1..])
  }

  /** A keyword argument sets its field, unless a later one sets the same field again. */
  lemma {:induction false} ApplyFieldsLastWins(s: Subscription, fields: seq<SubscriptionField>, planId: nat)
    requires PlanField(planId) in fields
    requires forall i, j :: 0 <= i < j < |fields| && fields[i].PlanField? && fields[j].PlanField? ==> fields[i] == fields[j]
    decreases |fields|
    ensures ApplyFields(s, fields).planId == planId
  {
    if fields[0] == PlanField(planId) {
      ApplyFieldsKeepsPlan(s.(planId := planId), fields[1..], planId);
    } else {
      ApplyFieldsLastWins(SetField(s, fields[0]), fields[1..], planId);
    }
  }

  lemma {:induction false} ApplyFieldsKeepsPlan(s: Subscription, fields: seq<SubscriptionField>, planId: nat)
    requires s.planId == planId
    requires forall f :: f in fields && f.PlanField? ==> f.planId == planId
    decreases |fields|
    ensures ApplyFields(s, fields).planId == planId
  {
    if fields != [] {
      ApplyFieldsKeepsPlan(SetField(s, fields[0]), fields[1..], planId);
    }
  }

  /** Replace the row with the target's primary key. */
  function PutSubscription(subs: seq<Subscription>, s: Subscription): (r: seq<Subscription>)
    ensures |r| == |subs|
    ensures forall i :: 0 <= i < |subs| ==> r[i] == if subs[i].id == s.id then s else subs[i]
  {
    if subs == [] then [] else [if subs[0].id == s.id then s else subs[0]] + PutSubscription(subs[1..], s)
  }

  /** The row with primary key `id`, first in table order. */
  function SubscriptionById(subs: seq<Subscription>, id: nat): (r: Option<Subscription>)
    ensures r.Some? ==> r.value in subs && r.value.id == id
    ensures r.None? <==> forall s :: s in subs ==> s.id != id
  {
    if subs == [] then None else if subs[0].id == id then Some(subs[0]) else SubscriptionById(subs[1..], id)
  }

  /** Rows of `account` that are active at `now`. */
  function ActiveOf(subs: seq<Subscription>, account: UserId, now: int): (r: seq<Subscription>)
    ensures forall s :: s in r <==> s in subs && s.account == account && SubscriptionActive(s, now)
  {
    if subs == [] then []
    else (if subs[0].account == account && SubscriptionActive(subs[0], now) then [subs[0]] else []) + ActiveOf(subs[1..], account, now)
  }

  /** A primary key not used in any row. */
  function NextSubscriptionId(subs: seq<Subscription>): (id: nat)
    ensures forall s :: s in subs ==> s.id < id
  {
    if subs == [] then 0
    else
      var rest := NextSubscriptionId(subs[1..]);
      if subs[0].id + 1 > rest then subs[0].id + 1 else rest
  }

  function NextPackageId(packages: seq<ExtraPackage>): (id: nat)
    ensures forall p :: p in packages ==> p.id < id
  {
    if packages == [] then 0
    else
      var rest := NextPackageId(packages[1..]);
      if packages[0].id + 1 > rest then packages[0].id + 1 else rest
  }

  /** Plans with this user type and `is_default` set. */
  function DefaultPlans(plans: seq<Plan>, t: UserType): (r: seq<Plan>)
    ensures forall p :: p in r <==> p in plans && p.userType == t && p.isDefault
  {
    if plans == [] then []
    else (if plans[0].userType == t && plans[0].isDefault then [plans[0]] else []) + DefaultPlans(plans[1..], t)
  }

  /** `order_by("-is_default").first()`: a default plan when there is one, ties in table order. */
  function FirstByDefault(plans: seq<Plan>): (r: Option<Plan>)
    ensures r.None? <==> plans == []
    ensures r.Some? ==> r.value in plans
    ensures r.Some? ==> (r.value.isDefault <==> exists p :: p in plans && p.isDefault)
  {
    if plans == [] then None
    else if plans[0].isDefault then Some(plans[0])
    else
      var rest := FirstByDefault(plans[1..]);
      if rest.Some? && rest.value.isDefault then rest else Some(plans[0])
  }

  /** A sufficient condition for `update_subscription`'s two statements to pass the constraint:
      the table was consistent, the new range is well formed, every other active subscription
      of the account began no later than the new one and does not end before it, and every other row of the account that
      is not active now stays clear of the new range. */
  ghost predicate HandOverFits(subs: seq<Subscription>, target: Subscription, since: int, until: Option<int>, now: int)
  {
    NoOverlap(subs)
    && (until.None? || since <= until.value)
    && (forall s :: s in subs && s.account == target.account && s.id != target.id && SubscriptionActive(s, now) ==>
          s.activeSince.value <= since && (s.activeUntil.None? || since <= s.activeUntil.value))
    && (forall s :: (s in subs && s.account == target.account && s.id != target.id && !SubscriptionActive(s, now)
          && s.activeSince.Some?) ==> !RangesOverlap(s, target.(activeSince := Some(since), activeUntil := until)))
  }

  /** Cutting the other active rows at the new start keeps the table consistent. */
  lemma CancelOthersKeepsNoOverlap(subs: seq<Subscription>, target: Subscription, since: int, until: Option<int>, now: int)
    requires HandOverFits(subs, target, since, until, now)
    ensures NoOverlap(CancelOthers(subs, target, since, now))
  {
    var c := CancelOthers(subs, target, since, now);
    NoOverlapIsPairwise(subs);
    forall i | 0 <= i < |c|
      ensures RangeWellFormed(c[i])
    {
      assert subs[i] in subs;
    }
    forall i, j | 0 <= i < j < |c|
      ensures PairClear(c[i], c[j])
    {
      CancelledPairClear(subs, target, since, until, now, i, j);
    }
    NoOverlapIsPairwise(c);
  }

  /** One pair of rows after the cut. */
  lemma CancelledPairClear(subs: seq<Subscription>, target: Subscription, since: int, until: Option<int>, now: int, i: nat, j: nat)
    requires HandOverFits(subs, target, since, until, now) && NoOverlapPairs(subs)
    requires i < j < |subs|
    ensures PairClear(CancelOthers(subs, target, since, now)[i], CancelOthers(subs, target, since, now)[j])
  {
    var c := CancelOthers(subs, target, since, now);
    assert subs[i] in subs && subs[j] in subs;
    assert PairClear(subs[i], subs[j]);
    if c[i].account == c[j].account && c[i].activeSince.Some? && c[j].activeSince.Some? {
      ShrunkRangesClear(subs[i], subs[j], c[i], c[j]);
    }
  }

  /** `a` ends no later than `b` (a NULL until is unbounded). */
  predicate EndsNoLater(a: Option<int>, b: Option<int>)
  {
    b.None? || (a.Some? && a.value <= b.value)
  }

  /** Ranges that only shrink at their upper end cannot start to overlap. */
  lemma ShrunkRangesClear(a: Subscription, b: Subscription, a': Subscription, b': Subscription)
    requires a.activeSince.Some? && b.activeSince.Some? && !RangesOverlap(a, b)
    requires a'.activeSince == a.activeSince && b'.activeSince == b.activeSince
    requires EndsNoLater(a'.activeUntil, a.activeUntil) && EndsNoLater(b'.activeUntil, b.activeUntil)
    ensures !RangesOverlap(a', b')
  {
  }

  /** Under `HandOverFits`, the target's new range clears every other row of the account. */
  lemma HandOverKeepsNoOverlap(subs: seq<Subscription>, target: Subscription, since: int, until: Option<int>, now: int, saved: Subscription)
    requires HandOverFits(subs, target, since, until, now)
    requires target in subs
    requires forall i, j :: 0 <= i < j < |subs| ==> subs[i].id != subs[j].id
    requires saved.id == target.id && saved.account == target.account
    requires saved.activeSince == Some(since) && saved.activeUntil == until
    ensures NoOverlap(PutSubscription(CancelOthers(subs, target, since, now), saved))
  {
    var c := CancelOthers(subs, target, since, now);
    CancelOthersKeepsNoOverlap(subs, target, since, until, now);
    NoOverlapIsPairwise(c);
    var r := PutSubscription(c, saved);
    forall i | 0 <= i < |r|
      ensures RangeWellFormed(r[i])
    {
    }
    forall i, j | 0 <= i < j < |r|
      ensures PairClear(r[i], r[j])
    {
      SavedPairClear(subs, target, since, until, now, saved, i, j);
    }
    NoOverlapIsPairwise(r);
  }

  /** One pair of rows once the saved target is in place. */
  lemma SavedPairClear(subs: seq<Subscription>, target: Subscription, since: int, until: Option<int>, now: int, saved: Subscription, i: nat, j: nat)
    requires HandOverFits(subs, target, since, until, now)
    requires i < j < |subs| && subs[i].id != subs[j].id
    requires saved.id == target.id && saved.account == target.account
    requires saved.activeSince == Some(since) && saved.activeUntil == until
    requires PairClear(CancelOthers(subs, target, since, now)[i], CancelOthers(subs, target, since, now)[j])
    ensures PairClear(PutSubscription(CancelOthers(subs, target, since, now), saved)[i],
                      PutSubscription(CancelOthers(subs, target, since, now), saved)[j])
  {
    var c := CancelOthers(subs, target, since, now);
    var r := PutSubscription(c, saved);
    assert c[i].id == subs[i].id && c[j].id == subs[j].id;
    if subs[i].id == target.id {
      assert r[i] == saved && r[j] == c[j];
      PairWithSaved(subs, target, since, until, now, saved, j);
    } else if subs[j].id == target.id {
      assert r[i] == c[i] && r[j] == saved;
      PairWithSaved(subs, target, since, until, now, saved, i);
    } else {
      assert r[i] == c[i] && r[j] == c[j];
    }
  }

  /** When the hand-over fits, both statements of `update_subscription` pass the constraint,
      whatever keyword fields are set. */
  lemma HandOverUpdateSucceeds(subs: seq<Subscription>, id: nat, status: SubscriptionStatus, since: int, until: Option<int>,
                               fields: seq<SubscriptionField>, now: int)
    requires forall i, j :: 0 <= i < j < |subs| ==> subs[i].id != subs[j].id
    requires SubscriptionById(subs, id).Some?
    requires HandOverFits(subs, SubscriptionById(subs, id).value, since, until, now)
    ensures NoOverlap(CancelOthers(subs, SubscriptionById(subs, id).value, since, now))
    ensures NoOverlap(PutSubscription(CancelOthers(subs, SubscriptionById(subs, id).value, since, now),
      ApplyFields(SubscriptionById(subs, id).value.(status := status, activeSince := Some(since), activeUntil := until), fields)))
  {
    var target := SubscriptionById(subs, id).value;
    var saved := ApplyFields(target.(status := status, activeSince := Some(since), activeUntil := until), fields);
    CancelOthersKeepsNoOverlap(subs, target, since, until, now);
    HandOverKeepsNoOverlap(subs, target, since, until, now, saved);
  }

  /** Under `HandOverFits`, each other row, after the cut, clears the saved target. */
  lemma PairWithSaved(subs: seq<Subscription>, target: Subscription, since: int, until: Option<int>, now: int, saved: Subscription, k: nat)
    requires HandOverFits(subs, target, since, until, now)
    requires saved.id == target.id && saved.account == target.account
    requires saved.activeSince == Some(since) && saved.activeUntil == until
    requires k < |subs| && subs[k].id != target.id
    ensures PairClear(CancelOthers(subs, target, since, now)[k], saved)
    ensures PairClear(saved, CancelOthers(subs, target, since, now)[k])
  {
    assert subs[k] in subs;
  }

  /** The package rows after `update_package_quantity` with `subscription=self`, when at most
      one package of the kind is active: that one ends now, and a positive quantity opens a
      new package from now on. */
  function PackagesAfterUpdate(packages: seq<ExtraPackage>, sub: nat, kind: PackageKind, quantity: int, now: int): seq<ExtraPackage>
  {
    var closed := ClosePackages(packages, sub, kind, now);
    if quantity > 0 then closed + [ExtraPackage(NextPackageId(packages), sub, kind, quantity, now, None)] else closed
  }

  /** `old_package.active_until = now` for the active package of the subscription and kind. */
  function ClosePackages(packages: seq<ExtraPackage>, sub: nat, kind: PackageKind, now: int): (r: seq<ExtraPackage>)
    ensures |r| == |packages|
    ensures forall i :: 0 <= i < |packages| ==>
      r[i] == (if packages[i].subscription == sub && packages[i].kind == kind && PackageActive(packages[i], now)
      then packages[i].(activeUntil := Some(now)) else packages[i])
  {
    if packages == [] then []
    else
      var p := packages[0];
      [if p.subscription == sub && p.kind == kind && PackageActive(p, now) then p.(activeUntil := Some(now)) else p]
        + ClosePackages(packages[1..], sub, kind, now)
  }

  /** Packages of the subscription and kind active at `now`. */
  function ActivePackagesOf(packages: seq<ExtraPackage>, sub: nat, kind: PackageKind, now: int): (r: seq<ExtraPackage>)
    ensures forall p :: p in r <==> p in packages && p.subscription == sub && p.kind == kind && PackageActive(p, now)
  {
    if packages == [] then []
    else
      var p := packages[0];
      (if p.subscription == sub && p.kind == kind && PackageActive(p, now) then [p] else []) + ActivePackagesOf(packages[1..], sub, kind, now)
  }

  /** Closing the packages at `now` ends them for good: at any later instant, the packages of that
      subscription and kind still active are exactly those that start after `now` and are active
      then. */
  lemma ClosedPackagesInactiveAfter(packages: seq<ExtraPackage>, sub: nat, kind: PackageKind, now: int, t: int)
    requires now < t
    ensures forall p :: p in ActivePackagesOf(ClosePackages(packages, sub, kind, now), sub, kind, t) <==>
      p in packages && p.subscription == sub && p.kind == kind && p.activeSince > now && PackageActive(p, t)
  {
  }

  /** No storage package of the subscription starts after `now`. */
  ghost predicate NoFutureStorage(packages: seq<ExtraPackage>, sub: nat, now: int)
  {
    forall p :: p in packages && p.subscription == sub && p.kind == Storage ==> p.activeSince <= now
  }

  /** From any later instant on, the storage the subscription carries is the new quantity
      (or none at all for quantity 0). */
  lemma StorageAfterUpdate(packages: seq<ExtraPackage>, sub: nat, quantity: int, now: int, t: int)
    requires NoFutureStorage(packages, sub, now) && now < t
    ensures ActiveStoragePackageMb(PackagesAfterUpdate(packages, sub, Storage, quantity, now), sub, t)
      == if quantity > 0 then quantity * 1000 else 0
  {
    var closed := ClosePackages(packages, sub, Storage, now);
    var after := PackagesAfterUpdate(packages, sub, Storage, quantity, now);
    ClosedPackagesInactiveAfter(packages, sub, Storage, now, t);
    forall p | p in closed && p.subscription == sub && p.kind == Storage
      ensures !PackageActive(p, t)
    {
      assert PackageActive(p, t) ==> p in ActivePackagesOf(closed, sub, Storage, t);
    }
    if quantity > 0 {
      var n := ExtraPackage(NextPackageId(packages), sub, Storage, quantity, now, None);
      assert after == closed + [n];
      ActiveStoragePackageAppend(closed, n, sub, t);
    } else {
      assert after == closed;
    }
  }

  lemma {:induction false} ActiveStoragePackageAppend(ps: seq<ExtraPackage>, n: ExtraPackage, sub: nat, t: int)
    requires forall p :: p in ps && p.subscription == sub && p.kind == Storage ==> !PackageActive(p, t)
    ensures ActiveStoragePackage(ps + [n], sub, t) ==
      if n.subscription == sub && n.kind == Storage && PackageActive(n, t) then Some(n) else None
  {
    if ps != [] {
      assert (ps + [n])[1..] == ps[1..] + [n];
      ActiveStoragePackageAppend(ps[1..], n, sub, t);
    } else {
      assert [] + [n] == [n];
    }
  }

  // ---------------------------------------------------------------------------
  // The tables and the operations that change them
  // ---------------------------------------------------------------------------

  /** The `for key, value in kwargs.items(): setattr(subscription, key, value)` loop. */
  method ApplyKeywords(s: Subscription, fields: seq<SubscriptionField>) returns (r: Subscription)
    ensures r == ApplyFields(s, fields)
  {
    r := s;
    var i := 0;
    while i < |fields|
      invariant 0 <= i <= |fields|
      invariant ApplyFields(r, fields[i..]) == ApplyFields(s, fields)
    {
      assert fields[i..][0] == fields[i] && fields[i..][1..] == fields[i + 1..];
      r := SetField(r, fields[i]);
      i := i + 1;
    }
    assert fields[i..] == [];
  }

  /** One statement under the exclusion constraint: its rows `next` are kept when they are free
      of overlaps, and the table rolls back to `subs` otherwise. */
  method Commit(subs: seq<Subscription>, next: seq<Subscription>, s: Subscription) returns (rows: seq<Subscription>, r: Result<Subscription>)
    ensures r.Success? <==> NoOverlap(next)
    ensures r.Success? ==> r.value == s && rows == next
    ensures r.Failure? ==> rows == subs
  {
    if !NoOverlap(next) {
      return subs, Failure(OverlapError);
    }
    rows, r := next, Success(s);
  }

  /** The row `create_default_plan_subscription` inserts: ACTIVE_PAID on the plan from `start`,
      with no end, under a fresh primary key. */
  function DefaultPlanSubscription(subs: seq<Subscription>, planId: nat, account: UserId, start: int): Subscription
  {
    Subscription(NextSubscriptionId(subs), planId, account, 0, ActivePaid, None, Some(start), None)
  }

  /** The rows `create_default_plan_subscription` leaves behind, computed on values. */
  method DefaultPlanRows(plans: seq<Plan>, subs: seq<Subscription>, account: UserId, accountType: UserType,
                         since: Option<int>, now: int) returns (rows: seq<Subscription>, r: Result<Subscription>)
    ensures ActiveOf(subs, account, now) != [] ==> r.Failure?
    ensures |DefaultPlans(plans, accountType)| != 1 ==> r.Failure?
    ensures ActiveOf(subs, account, now) == [] && |DefaultPlans(plans, accountType)| == 1 ==>
      var row := DefaultPlanSubscription(subs, DefaultPlans(plans, accountType)[0].id, account,
                                         if since.Some? then since.value else now);
      (r.Success? <==> NoOverlap(subs + [row])) && (r.Success? ==> r.value == row)
    ensures r.Success? ==> r.value.account == account && r.value.status == ActivePaid
    ensures r.Success? ==> r.value.activeSince == Some(if since.Some? then since.value else now) && r.value.activeUntil.None?
    ensures r.Success? ==> |DefaultPlans(plans, accountType)| == 1 && r.value.planId == DefaultPlans(plans, accountType)[0].id
    ensures r.Success? ==> (forall s :: s in subs ==> s.id != r.value.id) && rows == subs + [r.value]
    ensures r.Success? ==> NoOverlap(rows)
    ensures r.Failure? ==> rows == subs
  {
    rows := subs;
    if ActiveOf(subs, account, now) != [] {
      return rows, Failure(ActiveSubscriptionExists);
    }
    var start := if since.Some? then since.value else now;
    var defaults := DefaultPlans(plans, accountType);
    if |defaults| == 0 {
      return rows, Failure(PlanNotFound);
    }
    if |defaults| > 1 {
      return rows, Failure(MultiplePlans);
    }
    var s := DefaultPlanSubscription(subs, defaults[0].id, account, start);
    rows, r := Commit(subs, subs + [s], s);
  }

  /** The rows after `update_subscription` and the saved subscription, or the error that rolls the
      transaction back (the rows are then unchanged). */
  method UpdatedRows(subs: seq<Subscription>, id: nat, status: SubscriptionStatus, since: int, until: Option<int>,
                     fields: seq<SubscriptionField>, now: int) returns (rows: seq<Subscription>, r: Result<Subscription>)
    ensures SubscriptionById(subs, id).None? ==> r.Failure?
    ensures SubscriptionById(subs, id).Some? ==>
      var target := SubscriptionById(subs, id).value;
      var cancelled := CancelOthers(subs, target, since, now);
      var saved := ApplyFields(target.(status := status, activeSince := Some(since), activeUntil := until), fields);
      (r.Success? <==> NoOverlap(cancelled) && NoOverlap(PutSubscription(cancelled, saved)))
    ensures SubscriptionById(subs, id).Some? ==>
      var target := SubscriptionById(subs, id).value;
      var cancelled := CancelOthers(subs, target, since, now);
      var saved := ApplyFields(target.(status := status, activeSince := Some(since), activeUntil := until), fields);
      (r.Success? ==> r.value == saved && rows == PutSubscription(cancelled, saved))
    ensures r.Failure? ==> rows == subs
    ensures r.Success? ==> NoOverlap(rows)
  {
    rows := subs;
    var found := SubscriptionById(subs, id);
    if found.None? {
      return rows, Failure(SubscriptionNotFound);
    }
    var target := found.value;
    var cancelled := CancelOthers(subs, target, since, now);
    if !NoOverlap(cancelled) {
      return rows, Failure(OverlapError);
    }
    var updated := ApplyKeywords(target.(status := status, activeSince := Some(since), activeUntil := until), fields);
    rows, r := Commit(subs, PutSubscription(cancelled, updated), updated);
  }

  class Billing {
    var plans: seq<Plan>
    var subscriptions: seq<Subscription>
    var packages: seq<ExtraPackage>

    constructor(plans: seq<Plan>, subscriptions: seq<Subscription>, packages: seq<ExtraPackage>)
      ensures this.plans == plans && this.subscriptions == subscriptions && this.packages == packages
    {
      this.plans := plans;
      this.subscriptions := subscriptions;
      this.packages := packages;
    }

    /** `Plan.save`: only PERSON and ORGANIZATION plans; a default plan unsets `is_default` on
        the other plans of its user type; both happen in one transaction, which the unique
        `code` can roll back. */
    method SavePlan(p: Plan) returns (r: Result<Plan>)
      modifies this
      ensures subscriptions == old(subscriptions) && packages == old(packages)
      ensures p.userType == Team ==> r.Failure?
      ensures r.Success? <==> p.userType != Team && forall q :: q in old(plans) && q.id != p.id ==> q.code != p.code
      ensures r.Success? ==> r.value == p && plans == PlansAfterSave(old(plans), p)
      ensures r.Failure? ==> plans == old(plans)
    {
      if p.userType == Team {
        return Failure(UserTypeNotAllowed);
      }
      var saved := PlansAfterSave(plans, p);
      if exists q :: q in plans && q.id != p.id && q.code == p.code {
        return Failure(PlanCodeUniqueError);
      }
      plans := saved;
      r := Success(p);
    }

    /** `Plan.get_or_create_default`: with an empty table, create the two default plans first;
        then the first plan by `-is_default`. */
    method GetOrCreateDefaultPlan() returns (r: Option<Plan>)
      modifies this
      ensures subscriptions == old(subscriptions) && packages == old(packages)
      ensures old(plans) != [] ==> plans == old(plans)
      ensures old(plans) == [] ==> (|plans| == 2
        && plans[0] == Plan(0, "default_user", Person, 10, true, false)
        && plans[1] == Plan(1, "default_org", Organization, 10, true, false))
      ensures r.Some? && r.value in plans
      ensures r.value.isDefault <==> exists q :: q in plans && q.isDefault
    {
      if plans == [] {
        var a := SavePlan(Plan(0, "default_user", Person, 10, true, false));
        var b := SavePlan(Plan(1, "default_org", Organization, 10, true, false));
      }
      r := FirstByDefault(plans);
    }

    /** `update_package_quantity` as written: past the premium check, the lookup reads
        `self.subscription`, which a subscription does not have, so the AttributeError aborts
        the transaction on every call. */
    method UpdatePackageQuantityAsWritten(sub: Subscription, kind: PackageKind, quantity: int, now: int) returns (r: Result<Option<ExtraPackage>>)
      modifies this
      ensures r.Failure?
      ensures plans == old(plans) && subscriptions == old(subscriptions) && packages == old(packages)
    {
      var plan := PlanById(plans, sub.planId);
      if plan.None? {
        return Failure(PlanNotFound);
      }
      if !plan.value.isPremium {
        return Failure(PremiumOnlyError);
      }
      return Failure(NoSubscriptionAttribute);
    }

    /** `update_package_quantity` with the lookup on `subscription=self`: premium plans only;
        the active package of the kind ends now; a positive quantity starts a new one now and
        returns it. Two active packages make `.get` raise and roll back. */
    method UpdatePackageQuantity(sub: Subscription, kind: PackageKind, quantity: int, now: int) returns (r: Result<Option<ExtraPackage>>)
      modifies this
      ensures plans == old(plans) && subscriptions == old(subscriptions)
      ensures r.Success? <==> (PlanById(old(plans), sub.planId).Some? && PlanById(old(plans), sub.planId).value.isPremium
        && |ActivePackagesOf(old(packages), sub.id, kind, now)| <= 1)
      ensures r.Success? ==> packages == PackagesAfterUpdate(old(packages), sub.id, kind, quantity, now)
      ensures r.Success? ==> (r.value.Some? <==> quantity > 0)
      ensures r.Success? && quantity > 0 ==> (r.value.value.activeSince == now && r.value.value.activeUntil.None?
        && r.value.value.quantity == quantity && r.value.value.subscription == sub.id)
      ensures r.Failure? ==> packages == old(packages)
    {
      var plan := PlanById(plans, sub.planId);
      if plan.None? {
        return Failure(PlanNotFound);
      }
      if !plan.value.isPremium {
        return Failure(PremiumOnlyError);
      }
      if |ActivePackagesOf(packages, sub.id, kind, now)| > 1 {
        return Failure(MultiplePackages);
      }
      var next := NextPackageId(packages);
      packages := ClosePackages(packages, sub.id, kind, now);
      if quantity > 0 {
        var n := ExtraPackage(next, sub.id, kind, quantity, now, None);
        packages := packages + [n];
        return Success(Some(n));
      }
      r := Success(None);
    }

    /** `Subscription.update_subscription`: cancel the account's other active subscriptions at
        the new start, then save the target with the new status, range and keyword fields. Each
        statement must pass the exclusion constraint, or the whole transaction rolls back. */
    method UpdateSubscription(id: nat, status: SubscriptionStatus, since: int, until: Option<int>,
                              fields: seq<SubscriptionField>, now: int) returns (r: Result<Subscription>)
      modifies this
      ensures plans == old(plans) && packages == old(packages)
      ensures SubscriptionById(old(subscriptions), id).None? ==> r.Failure? && subscriptions == old(subscriptions)
      ensures SubscriptionById(old(subscriptions), id).Some? ==>
        var target := SubscriptionById(old(subscriptions), id).value;
        var cancelled := CancelOthers(old(subscriptions), target, since, now);
        var saved := ApplyFields(target.(status := status, activeSince := Some(since), activeUntil := until), fields);
        (r.Success? <==> NoOverlap(cancelled) && NoOverlap(PutSubscription(cancelled, saved)))
      ensures SubscriptionById(old(subscriptions), id).Some? ==>
        var target := SubscriptionById(old(subscriptions), id).value;
        var cancelled := CancelOthers(old(subscriptions), target, since, now);
        var saved := ApplyFields(target.(status := status, activeSince := Some(since), activeUntil := until), fields);
        (r.Success? ==> r.value == saved && subscriptions == PutSubscription(cancelled, saved))
      ensures r.Failure? ==> subscriptions == old(subscriptions)
      ensures r.Success? ==> NoOverlap(subscriptions)
    {
      var rows, saved := UpdatedRows(subscriptions, id, status, since, until, fields, now);
      if saved.Failure? {
        return Failure(saved.error);
      }
      subscriptions := rows;
      r := saved;
    }

    /** `Subscription.create_default_plan_subscription`: refused while the account has an active
        subscription; otherwise an ACTIVE_PAID subscription on the one default plan of the
        account's user type, from `since` (default: now), subject to the exclusion constraint. */
    method CreateDefaultPlanSubscription(account: UserId, accountType: UserType, since: Option<int>, now: int) returns (r: Result<Subscription>)
      modifies this
      ensures plans == old(plans) && packages == old(packages)
      ensures ActiveOf(old(subscriptions), account, now) != [] ==> r.Failure?
      ensures |DefaultPlans(old(plans), accountType)| != 1 ==> r.Failure?
      ensures ActiveOf(old(subscriptions), account, now) == [] && |DefaultPlans(old(plans), accountType)| == 1 ==>
        var row := DefaultPlanSubscription(old(subscriptions), DefaultPlans(old(plans), accountType)[0].id, account,
                                           if since.Some? then since.value else now);
        (r.Success? <==> NoOverlap(old(subscriptions) + [row])) && (r.Success? ==> r.value == row)
      ensures r.Success? ==> r.value.account == account && r.value.status == ActivePaid
      ensures r.Success? ==> r.value.activeSince == Some(if since.Some? then since.value else now) && r.value.activeUntil.None?
      ensures r.Success? ==> |DefaultPlans(old(plans), accountType)| == 1 && r.value.planId == DefaultPlans(old(plans), accountType)[0].id
      ensures r.Success? ==> (forall s :: s in old(subscriptions) ==> s.id != r.value.id) && subscriptions == old(subscriptions) + [r.value]
      ensures r.Success? ==> NoOverlap(subscriptions)
      ensures r.Failure? ==> subscriptions == old(subscriptions)
    {
      var rows;
      rows, r := DefaultPlanRows(plans, subscriptions, account, accountType, since, now);
      subscriptions := rows;
    }

    /** `Subscription.get_or_create_active_subscription`: the one active subscription of the
        account, unchanged; none creates the default-plan one; two raise. */
    method GetOrCreateActiveSubscription(account: UserId, accountType: UserType, now: int) returns (r: Result<Subscription>)
      modifies this
      ensures plans == old(plans) && packages == old(packages)
      ensures |ActiveOf(old(subscriptions), account, now)| == 1 ==>
        r == Success(ActiveOf(old(subscriptions), account, now)[0]) && subscriptions == old(subscriptions)
      ensures |ActiveOf(old(subscriptions), account, now)| > 1 ==> r.Failure? && subscriptions == old(subscriptions)
      ensures r.Success? ==> r.value.account == account
      ensures ActiveOf(old(subscriptions), account, now) == [] && |DefaultPlans(old(plans), accountType)| != 1 ==> r.Failure?
      ensures ActiveOf(old(subscriptions), account, now) == [] && |DefaultPlans(old(plans), accountType)| == 1 ==>
        var row := DefaultPlanSubscription(old(subscriptions), DefaultPlans(old(plans), accountType)[0].id, account, now);
        (r.Success? <==> NoOverlap(old(subscriptions) + [row])) && (r.Success? ==> r.value == row)
      ensures ActiveOf(old(subscriptions), account, now) == [] && r.Success? ==>
        r.value.status == ActivePaid && r.value.activeSince == Some(now) && r.value.activeUntil.None?
        && r.value.planId == DefaultPlans(old(plans), accountType)[0].id && subscriptions == old(subscriptions) + [r.value]
      ensures r.Failure? ==> subscriptions == old(subscriptions)
    {
      var active := ActiveOf(subscriptions, account, now);
      if |active| == 1 {
        assert active[0] in active;
        return Success(active[0]);
      }
      if |active| > 1 {
        return Failure(MultipleSubscriptions);
      }
      r := CreateDefaultPlanSubscription(account, accountType, None, now);
    }
  }

  function PlanById(plans: seq<Plan>, id: nat): (r: Option<Plan>)
    ensures r.Some? ==> r.value in plans && r.value.id == id
    ensures r.None? <==> forall p :: p in plans ==> p.id != id
  {
    if plans == [] then None else if plans[0].id == id then Some(plans[0]) else PlanById(plans[1..], id)
  }
}
