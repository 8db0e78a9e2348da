/** Grouping a card's memory by owner: the group objects are incremented in place and then share the managed memory. */
module OwnerGroups {
  import opened Basics
  import opened OrderedDicts
  import opened Apportionment
  import Sorting

  // ---------------------------------------------------------------------------
  // Groups
  // ---------------------------------------------------------------------------

  datatype Group = Group(
    key: string,
    name: string,
    reservedMb: int,
    actualMb: int,
    unmanagedMb: int,
    taskCount: int,
    processCount: int)

  class OwnerGroup {
    const key: string
    const name: string
    var managedReservedMb: int
    var managedActualMb: int
    var unmanagedMb: int
    var taskCount: int
    var processCount: int

    constructor (key: string, name: string)
      ensures Value() == Group(key, name, 0, 0, 0, 0, 0)
    {
      this.key, this.name := key, name;
      managedReservedMb, managedActualMb, unmanagedMb, taskCount, processCount := 0, 0, 0, 0, 0;
    }

    constructor Copy(g: OwnerGroup)
      ensures Value() == g.Value()
    {
      key, name := g.key, g.name;
      managedReservedMb, managedActualMb, unmanagedMb := g.managedReservedMb, g.managedActualMb, g.unmanagedMb;
      taskCount, processCount := g.taskCount, g.processCount;
    }

    function Value(): Group
      reads this
    {
      Group(key, name, managedReservedMb, managedActualMb, unmanagedMb, taskCount, processCount)
    }
  }

  function Values(groups: seq<OwnerGroup>): (vs: seq<Group>)
    reads groups
    ensures |vs| == |groups| && forall i :: 0 <= i < |vs| ==> vs[i] == groups[i].Value()
  {
    if groups == [] then [] else Values(Init(groups)) + [Last(groups).Value()]
  }

  predicate DistinctKeys(groups: seq<OwnerGroup>) {
    forall i, j :: 0 <= i < j < |groups| ==> groups[i].key != groups[j].key
  }

  // ---------------------------------------------------------------------------
  // Sharing the managed memory
  // ---------------------------------------------------------------------------

  /** The groups that reserved something, in order. */
  function Claims(vs: seq<Group>): seq<Claim> {
    if vs == [] then []
    else if Last(vs).reservedMb > 0 then Claims(Init(vs)) + [Claim(Last(vs).key, Last(vs).reservedMb)]
    else Claims(Init(vs))
  }

  lemma {:induction false} ClaimsAre(vs: seq<Group>)
    ensures Sound(Claims(vs))
    ensures forall c :: c in Claims(vs) <==> exists v :: v in vs && v.reservedMb > 0 && c == Claim(v.key, v.reservedMb)
    decreases |vs|
  {
    if vs != [] {
      ClaimsAre(Init(vs));
      assert vs == Init(vs) + [Last(vs)];
    }
  }

  predicate Shares(vs: seq<Group>, total: int) {
    Claims(vs) != [] && total > 0
  }

  /** The group after sharing, when `awards` says what each key is given. */
  function Given(v: Group, awards: map<string, int>): Group {
    if v.reservedMb > 0 && v.key in awards then v.(actualMb := awards[v.key]) else v
  }

  function GivenAll(vs: seq<Group>, awards: map<string, int>): (r: seq<Group>)
    ensures |r| == |vs| && forall i :: 0 <= i < |r| ==> r[i] == Given(vs[i], awards)
  {
    seq(|vs|, i requires 0 <= i < |vs| => Given(vs[i], awards))
  }

  function Distributed(vs: seq<Group>, total: int): seq<Group> {
    if !Shares(vs, total) then vs
    else
      ClaimsAre(vs);
      ReservedPositive(Claims(vs));
      GivenAll(vs, AwardsOf(Claims(vs), total))
  }

  method CollectClaims(groups: seq<OwnerGroup>) returns (claims: seq<Claim>, totalReserved: int)
    ensures claims == Claims(Values(groups)) && totalReserved == Reserved(claims)
  {
    claims, totalReserved := [], 0;
    for n := 0 to |groups|
      invariant claims == Claims(Values(groups[..n])) && totalReserved == Reserved(claims)
    {
      var g := groups[n];
      PrefixSnoc(groups, n);
      InitSnoc(groups[..n], g);
      InitSnoc(Values(groups[..n]), g.Value());
      if g.managedReservedMb > 0 {
        InitSnoc(claims, Claim(g.key, g.managedReservedMb));
        claims := claims + [Claim(g.key, g.managedReservedMb)];
        totalReserved := totalReserved + g.managedReservedMb;
      }
    }
    assert groups[..|groups|] == groups;
  }

  method EstimateShares(claims: seq<Claim>, total: int, allReserved: int) returns (es: seq<Estimate>, floors: int)
    requires allReserved > 0
    ensures es == Estimates(claims, total, allReserved) && floors == Floors(es)
  {
    es, floors := [], 0;
    for n := 0 to |claims|
      invariant es == Estimates(claims[..n], total, allReserved) && floors == Floors(es)
    {
      assert claims[..n + 1] == claims[..n] + [claims[n]];
      InitSnoc(claims[..n], claims[n]);
      var e := EstimateOf(claims[n], total, allReserved);
      InitSnoc(es, e);
      es, floors := es + [e], floors + e.floorShare;
    }
    assert claims[..|claims|] == claims;
  }

  /** The first managed group with the key. */
  method FindManaged(groups: seq<OwnerGroup>, key: string) returns (found: Option<OwnerGroup>)
    ensures found.Some? ==> found.value in groups && found.value.managedReservedMb > 0 && found.value.key == key
    ensures found.None? ==> forall g :: g in groups && g.managedReservedMb > 0 ==> g.key != key
  {
    for n := 0 to |groups|
      invariant forall g :: g in groups[..n] && g.managedReservedMb > 0 ==> g.key != key
    {
      if groups[n].managedReservedMb > 0 && groups[n].key == key {
        return Some(groups[n]);
      }
    }
    return None;
  }

  /** The units still to hand out after `n` ranks. */
  function Remaining(leftover: int, n: nat): int {
    if leftover <= 0 then leftover else if n < leftover then leftover - n else 0
  }

  /** Every group is as it was, except that the ranks so far have been given their awards. */
  ghost predicate GivenSoFar(groups: seq<OwnerGroup>, vs: seq<Group>, awards: map<string, int>)
    reads groups
  {
    |groups| == |vs| && forall i :: 0 <= i < |groups| ==> groups[i].Value() == Given(vs[i], awards)
  }

  predicate KeysApart(vs: seq<Group>, i: nat, j: nat)
    requires i < |vs| && j < |vs|
  {
    vs[i].key != vs[j].key
  }

  predicate Distinct(vs: seq<Group>) {
    forall i, j :: 0 <= i < j < |vs| ==> KeysApart(vs, i, j)
  }

  lemma {:induction false} SameKey(vs: seq<Group>, i: nat, j: nat)
    requires Distinct(vs) && i < |vs| && j < |vs| && vs[i].key == vs[j].key
    ensures i == j
  {
    assert if i < j then KeysApart(vs, i, j) else i == j || KeysApart(vs, j, i);
  }

  /** The group that owns the estimate's key reserved what the estimate says. */
  ghost predicate OwnedBy(vs: seq<Group>, e: Estimate, i: nat)
    requires i < |vs|
  {
    vs[i].key == e.key && vs[i].reservedMb > 0 ==> vs[i].reservedMb == e.reservedMb
  }

  /** Sets one rank's award on the group that owns it. */
  method Award(groups: seq<OwnerGroup>, e: Estimate, amount: int, ghost vs: seq<Group>, ghost awards: map<string, int>)
    requires DistinctKeys(groups) && GivenSoFar(groups, vs, awards)
    requires forall i :: 0 <= i < |vs| ==> OwnedBy(vs, e, i)
    modifies set g | g in groups
    ensures GivenSoFar(groups, vs, awards[e.key := Clamp(amount, 0, e.reservedMb)])
  {
    var found := FindManaged(groups, e.key);
    if found.Some? {
      var group := found.value;
      ghost var n :| 0 <= n < |groups| && groups[n] == group;
      assert group.Value() == Given(vs[n], awards) && OwnedBy(vs, e, n);
      group.managedActualMb := Clamp(amount, 0, group.managedReservedMb);
      forall i | 0 <= i < |groups|
        ensures groups[i].Value() == Given(vs[i], awards[e.key := Clamp(amount, 0, e.reservedMb)])
      {
        assert i != n ==> groups[i].key != group.key;
        assert i != n ==> groups[i].Value() == old(groups[i].Value());
      }
    } else {
      forall i | 0 <= i < |groups|
        ensures groups[i].Value() == Given(vs[i], awards[e.key := Clamp(amount, 0, e.reservedMb)])
      {
        assert groups[i] in groups;
      }
    }
  }

  lemma {:induction false} RankOwner(vs: seq<Group>, total: int, e: Estimate, i: nat)
    requires Distinct(vs) && i < |vs|
    requires Reserved(Claims(vs)) > 0 && FromClaims(e, Claims(vs), total, Reserved(Claims(vs)))
    ensures OwnedBy(vs, e, i)
  {
    ClaimsAre(vs);
    var c :| c in Claims(vs) && e == EstimateOf(c, total, Reserved(Claims(vs)));
    var v :| v in vs && v.reservedMb > 0 && c == Claim(v.key, v.reservedMb);
    var j :| 0 <= j < |vs| && vs[j] == v;
    if vs[i].key == e.key { SameKey(vs, i, j); }
  }

  lemma {:induction false} GivenIsValues(groups: seq<OwnerGroup>, vs: seq<Group>, awards: map<string, int>)
    requires GivenSoFar(groups, vs, awards)
    ensures Values(groups) == GivenAll(vs, awards)
  {
  }

  /** The loop over the ranked estimates. */
  method HandOut(groups: seq<OwnerGroup>, ranked: seq<Estimate>, leftover: int, ghost vs: seq<Group>)
    requires DistinctKeys(groups) && GivenSoFar(groups, vs, map[])
    requires forall n, i :: 0 <= n < |ranked| && 0 <= i < |vs| ==> OwnedBy(vs, ranked[n], i)
    modifies set g | g in groups
    ensures Values(groups) == GivenAll(vs, Awards(ranked, leftover))
  {
    var remainder := leftover;
    assert ranked[..0] == [];
    for n := 0 to |ranked|
      invariant remainder == Remaining(leftover, n)
      invariant GivenSoFar(groups, vs, Awards(ranked[..n], leftover))
    {
      var e := ranked[n];
      assert ranked[..n + 1] == ranked[..n] + [e];
      InitSnoc(ranked[..n], e);
      assert forall i :: 0 <= i < |vs| ==> OwnedBy(vs, e, i);
      var nextActual := e.floorShare + (if remainder > 0 then 1 else 0);
      Award(groups, e, nextActual, vs, Awards(ranked[..n], leftover));
      if remainder > 0 {
        remainder := remainder - 1;
      }
    }
    assert ranked[..|ranked|] == ranked;
    GivenIsValues(groups, vs, Awards(ranked, leftover));
  }

  lemma {:induction false} ValuesDistinct(groups: seq<OwnerGroup>)
    requires DistinctKeys(groups)
    ensures Distinct(Values(groups))
  {
  }

  lemma {:induction false} DistributedIs(vs: seq<Group>, total: int)
    requires Shares(vs, total)
    ensures Reserved(Claims(vs)) > 0
    ensures var all := Reserved(Claims(vs));
      Distributed(vs, total) == GivenAll(vs, Awards(Ranked(Claims(vs), total, all), Leftover(Claims(vs), total, all)))
  {
    ClaimsAre(vs);
    ReservedPositive(Claims(vs));
  }

  method RankShares(claims: seq<Claim>, allReserved: int, total: int) returns (ranked: seq<Estimate>, leftover: int)
    requires allReserved > 0
    ensures ranked == Ranked(claims, total, allReserved) && leftover == Leftover(claims, total, allReserved)
  {
    var es, floors := EstimateShares(claims, total, allReserved);
    ranked, leftover := Sorting.StableSort(es, Before), total - floors;
  }

  lemma {:induction false} RanksOwned(vs: seq<Group>, total: int)
    requires Distinct(vs) && Reserved(Claims(vs)) > 0
    ensures var ranked := Ranked(Claims(vs), total, Reserved(Claims(vs)));
      forall n, i :: 0 <= n < |ranked| && 0 <= i < |vs| ==> OwnedBy(vs, ranked[n], i)
  {
    var ranked := Ranked(Claims(vs), total, Reserved(Claims(vs)));
    RankedFromClaims(Claims(vs), total, Reserved(Claims(vs)));
    forall n, i | 0 <= n < |ranked| && 0 <= i < |vs|
      ensures OwnedBy(vs, ranked[n], i)
    {
      RankOwner(vs, total, ranked[n], i);
    }
  }

  /** Ranks the claims' shares and hands them out. */
  method ShareAmong(groups: seq<OwnerGroup>, claims: seq<Claim>, allReserved: int, total: int, ghost vs: seq<Group>)
    requires DistinctKeys(groups) && GivenSoFar(groups, vs, map[]) && Distinct(vs)
    requires claims == Claims(vs) && allReserved == Reserved(claims) && allReserved > 0
    modifies set g | g in groups
    ensures Values(groups) == GivenAll(vs, Awards(Ranked(claims, total, allReserved), Leftover(claims, total, allReserved)))
  {
    var ranked, leftover := RankShares(claims, allReserved, total);
    RanksOwned(vs, total);
    HandOut(groups, ranked, leftover, vs);
  }

  lemma {:induction false} NoneGivenYet(groups: seq<OwnerGroup>)
    ensures GivenSoFar(groups, Values(groups), map[])
  {
  }

  /** Every managed group gets its award in place; the others stay as they are. */
  method DistributeManagedActual(groups: seq<OwnerGroup>, total: int)
    requires DistinctKeys(groups)
    modifies set g | g in groups
    ensures Values(groups) == Distributed(old(Values(groups)), total)
  {
    ghost var vs := Values(groups);
    ClaimsAre(vs);
    var claims, totalReserved := CollectClaims(groups);
    if claims != [] { ReservedPositive(claims); }
    if claims == [] || totalReserved <= 0 || total <= 0 {
      return;
    }
    ValuesDistinct(groups);
    NoneGivenYet(groups);
    ShareAmong(groups, claims, totalReserved, total, vs);
    DistributedIs(vs, total);
  }

  // ---------------------------------------------------------------------------
  // What sharing means
  // ---------------------------------------------------------------------------

  datatype Totals = Totals(reservedMb: int, actualMb: int, unmanagedMb: int, taskCount: int, processCount: int) {
    function Plus(g: Group): Totals {
      Totals(reservedMb + g.reservedMb, actualMb + g.actualMb, unmanagedMb + g.unmanagedMb,
             taskCount + g.taskCount, processCount + g.processCount)
    }
  }

  const NOTHING := Totals(0, 0, 0, 0, 0)

  function Totalled(vs: seq<Group>): Totals {
    if vs == [] then NOTHING else Totalled(Init(vs)).Plus(Last(vs))
  }

  lemma {:induction false} FrontDistinct(vs: seq<Group>)
    requires Distinct(vs) && vs != []
    ensures Distinct(Init(vs)) && forall v :: v in Init(vs) ==> v.key != Last(vs).key
  {
    var front := Init(vs);
    forall i, j | 0 <= i < j < |front|
      ensures KeysApart(front, i, j)
    {
      assert KeysApart(vs, i, j);
    }
    forall i | 0 <= i < |front|
      ensures front[i].key != Last(vs).key
    {
      assert KeysApart(vs, i, |vs| - 1);
    }
  }

  lemma {:induction false} ClaimKeysDistinct(vs: seq<Group>)
    requires Distinct(vs)
    ensures NoDup(KeysOf(Claims(vs)))
    decreases |vs|
  {
    if vs != [] {
      var front, v := Init(vs), Last(vs);
      FrontDistinct(vs);
      ClaimKeysDistinct(front);
      ClaimsAre(front);
      if v.reservedMb > 0 {
        var c := Claim(v.key, v.reservedMb);
        forall i | 0 <= i < |Claims(front)|
          ensures KeysOf(Claims(front))[i] != c.key
        {
          assert Claims(front)[i] in Claims(front);
        }
        ConcatNoDup(KeysOf(Claims(front)), [c.key]);
        assert KeysOf(Claims(front) + [c]) == KeysOf(Claims(front)) + [c.key];
      }
    }
  }

  predicate ReadyFor(v: Group, awards: map<string, int>) {
    v.actualMb == 0 && (v.reservedMb > 0 ==> v.key in awards)
  }

  lemma {:induction false} ActualSnoc(front: seq<Group>, v: Group, awards: map<string, int>)
    requires ReadyFor(v, awards)
    ensures Totalled(GivenAll(front + [v], awards)).actualMb == Totalled(GivenAll(front, awards)).actualMb + Given(v, awards).actualMb
    ensures AwardSum(Claims(front + [v]), awards) == AwardSum(Claims(front), awards) + Given(v, awards).actualMb
  {
    InitSnoc(front, v);
    assert GivenAll(front + [v], awards) == GivenAll(front, awards) + [Given(v, awards)];
    InitSnoc(GivenAll(front, awards), Given(v, awards));
    if v.reservedMb > 0 { InitSnoc(Claims(front), Claim(v.key, v.reservedMb)); }
  }

  lemma {:induction false} ActualIsAwardSum(vs: seq<Group>, awards: map<string, int>, n: nat)
    requires n <= |vs| && forall i :: 0 <= i < |vs| ==> ReadyFor(vs[i], awards)
    ensures Totalled(GivenAll(vs[..n], awards)).actualMb == AwardSum(Claims(vs[..n]), awards)
    decreases n
  {
    if n > 0 {
      ActualIsAwardSum(vs, awards, n - 1);
      ActualSnoc(vs[..n - 1], vs[n - 1], awards);
      assert vs[..n] == vs[..n - 1] + [vs[n - 1]];
    }
  }

  lemma {:induction false} ReservedOfClaims(vs: seq<Group>)
    ensures Reserved(Claims(vs)) >= Totalled(vs).reservedMb
    ensures (forall i :: 0 <= i < |vs| ==> vs[i].reservedMb >= 0) ==> Reserved(Claims(vs)) == Totalled(vs).reservedMb
    ensures Claims(vs) == [] ==> Totalled(vs).reservedMb <= 0
    decreases |vs|
  {
    if vs != [] {
      var front, v := Init(vs), Last(vs);
      assert forall i :: 0 <= i < |front| ==> front[i] == vs[i];
      ReservedOfClaims(front);
      if v.reservedMb > 0 { InitSnoc(Claims(front), Claim(v.key, v.reservedMb)); }
    }
  }

  /** SHARING. For groups with distinct keys and nothing shared yet, and a total between 0 and what is reserved, the
      managed memory is handed out exactly; each group gets the floor of its exact share or, if that has a fraction, the
      ceiling, and at most its reservation; and nothing but the shares changes. */
  lemma {:induction false} SharingIsExact(vs: seq<Group>, total: int)
    requires Distinct(vs) && (forall i :: 0 <= i < |vs| ==> vs[i].actualMb == 0) && 0 <= total <= Totalled(vs).reservedMb
    ensures var r := Distributed(vs, total);
      && |r| == |vs| && Totalled(r).actualMb == total
      && (forall i :: 0 <= i < |r| ==> r[i].(actualMb := 0) == vs[i])
      && forall i :: 0 <= i < |r| ==>
           if vs[i].reservedMb > 0 && total > 0 then
             Reserved(Claims(vs)) > 0
             && FairAt(EstimateOf(Claim(vs[i].key, vs[i].reservedMb), total, Reserved(Claims(vs))), r[i].actualMb)
           else r[i].actualMb == 0
  {
    ReservedOfClaims(vs);
    ClaimsAre(vs);
    if total == 0 {
      NothingShared(vs);
    } else {
      var claims := Claims(vs);
      ReservedPositive(claims);
      ClaimKeysDistinct(vs);
      SharesAddUp(claims, total);
      forall i | 0 <= i < |vs| && vs[i].reservedMb > 0
        ensures vs[i].key in AwardsOf(claims, total)
        ensures FairAt(EstimateOf(Claim(vs[i].key, vs[i].reservedMb), total, Reserved(claims)), AwardsOf(claims, total)[vs[i].key])
      {
        assert vs[i] in vs;
        AwardsAreFair(claims, total, Claim(vs[i].key, vs[i].reservedMb));
      }
      assert forall i :: 0 <= i < |vs| ==> ReadyFor(vs[i], AwardsOf(claims, total));
      ActualIsAwardSum(vs, AwardsOf(claims, total), |vs|);
      assert vs[..|vs|] == vs;
    }
  }

  lemma {:induction false} NothingShared(vs: seq<Group>)
    requires forall i :: 0 <= i < |vs| ==> vs[i].actualMb == 0
    ensures Totalled(vs).actualMb == 0
    decreases |vs|
  {
    if vs != [] {
      assert forall i :: 0 <= i < |Init(vs)| ==> Init(vs)[i] == vs[i];
      NothingShared(Init(vs));
    }
  }

  // ---------------------------------------------------------------------------
  // Grouping by owner
  // ---------------------------------------------------------------------------

  datatype AllocationMb = AllocationMb(taskId: string, declaredMb: int)

  datatype ProcessMb = ProcessMb(user: string, mb: int)

  datatype CardMb = CardMb(
    totalMb: int,
    usedMb: int,
    allocations: seq<AllocationMb>,
    userProcesses: seq<ProcessMb>,
    unknownMb: seq<int>)

  /** Key and name of the group an allocation belongs to. `users` gives the trimmed user of each known task. */
  function OwnerOf(a: AllocationMb, users: map<string, string>, historical: bool): (string, string) {
    if a.taskId in users && users[a.taskId] != "" then ("user:" + users[a.taskId], users[a.taskId])
    else if historical then ("managed:historical", "托管任务（历史未归因）")
    else ("managed:unresolved", "托管任务（未归因）")
  }

  function Ensured(d: OrderedDict<Group>, key: string, name: string): OrderedDict<Group> {
    if key in d.vals then d else Put(d, key, Group(key, name, 0, 0, 0, 0, 0))
  }

  function PlusTask(g: Group, mb: int): Group {
    g.(reservedMb := g.reservedMb + mb, taskCount := g.taskCount + 1)
  }

  function PlusProcess(g: Group, mb: int): Group {
    g.(unmanagedMb := g.unmanagedMb + mb, processCount := g.processCount + 1)
  }

  function WithAllocation(d: OrderedDict<Group>, key: string, name: string, mb: int): OrderedDict<Group> {
    var e := Ensured(d, key, name);
    Put(e, key, PlusTask(e.vals[key], mb))
  }

  function WithProcess(d: OrderedDict<Group>, key: string, name: string, mb: int): OrderedDict<Group> {
    var e := Ensured(d, key, name);
    Put(e, key, PlusProcess(e.vals[key], mb))
  }

  function AllocationGroups(allocations: seq<AllocationMb>, users: map<string, string>,
        historical: bool): OrderedDict<Group> {
    if allocations == [] then Empty()
    else
      var a := Last(allocations);
      var (key, name) := OwnerOf(a, users, historical);
      WithAllocation(AllocationGroups(Init(allocations), users, historical), key, name, a.declaredMb)
  }

  function ProcessGroups(d: OrderedDict<Group>, processes: seq<ProcessMb>): OrderedDict<Group> {
    if processes == [] then d
    else WithProcess(ProcessGroups(d, Init(processes)), "user:" + Last(processes).user, Last(processes).user, Last(processes).mb)
  }

  function Grouped(card: CardMb, users: map<string, string>, historical: bool): OrderedDict<Group> {
    ProcessGroups(AllocationGroups(card.allocations, users, historical), card.userProcesses)
  }

  /** Every group stands under its own key. */
  ghost predicate Keyed(d: OrderedDict<Group>) {
    d.Valid() && forall k :: k in d.vals ==> d.vals[k].key == k
  }

  lemma {:induction false} GroupedKeyed(allocations: seq<AllocationMb>, users: map<string, string>, historical: bool)
    ensures Keyed(AllocationGroups(allocations, users, historical))
    decreases |allocations|
  {
    if allocations != [] {
      GroupedKeyed(Init(allocations), users, historical);
    }
  }

  lemma {:induction false} ProcessesKeyed(d: OrderedDict<Group>, processes: seq<ProcessMb>)
    requires Keyed(d)
    ensures Keyed(ProcessGroups(d, processes))
    decreases |processes|
  {
    if processes != [] {
      ProcessesKeyed(d, Init(processes));
    }
  }

  /** The groups of a card before any managed memory is shared, in the order their keys were met. */
  function OwnerValues(card: CardMb, users: map<string, string>, historical: bool): seq<Group> {
    GroupedKeyed(card.allocations, users, historical);
    ProcessesKeyed(AllocationGroups(card.allocations, users, historical), card.userProcesses);
    Grouped(card, users, historical).Values()
  }

  // ---------------------------------------------------------------------------
  // Grouping in place
  // ---------------------------------------------------------------------------

  function Objects(groups: OrderedDict<OwnerGroup>): set<OwnerGroup> {
    set k | k in groups.vals :: groups.vals[k]
  }

  /** The group objects hold what the values say, under the same keys in the same order. */
  ghost predicate Shows(groups: OrderedDict<OwnerGroup>, d: OrderedDict<Group>)
    reads Objects(groups)
  {
    && Keyed(d) && groups.order == d.order && groups.vals.Keys == d.vals.Keys
    && forall k :: k in d.vals ==> groups.vals[k].Value() == d.vals[k]
  }

  method EnsureOwnerGroup(groups0: OrderedDict<OwnerGroup>, key: string, name: string, ghost d: OrderedDict<Group>)
    returns (groups: OrderedDict<OwnerGroup>, group: OwnerGroup)
    requires Shows(groups0, d)
    ensures Shows(groups, Ensured(d, key, name)) && key in groups.vals && group == groups.vals[key]
    ensures forall g :: g in Objects(groups) ==> g in Objects(groups0) || fresh(g)
  {
    if key in groups0.vals {
      return groups0, groups0.vals[key];
    }
    group := new OwnerGroup(key, name);
    groups := Put(groups0, key, group);
    assert key !in d.vals && key !in d.order;
  }

  lemma {:induction false} OthersDiffer(groups: OrderedDict<OwnerGroup>, d: OrderedDict<Group>, key: string)
    requires Shows(groups, d) && key in groups.vals
    ensures forall k :: k in groups.vals && k != key ==> groups.vals[k] != groups.vals[key]
  {
    forall k | k in groups.vals && k != key
      ensures groups.vals[k].key != groups.vals[key].key
    {
      assert groups.vals[k].Value() == d.vals[k] && groups.vals[key].Value() == d.vals[key];
    }
  }

  method BookAllocation(groups0: OrderedDict<OwnerGroup>, key: string, name: string, mb: int,
        ghost d: OrderedDict<Group>)
    returns (groups: OrderedDict<OwnerGroup>)
    requires Shows(groups0, d)
    modifies Objects(groups0)
    ensures Shows(groups, WithAllocation(d, key, name, mb))
    ensures forall g :: g in Objects(groups) ==> g in Objects(groups0) || fresh(g)
  {
    var group;
    groups, group := EnsureOwnerGroup(groups0, key, name, d);
    assert group in Objects(groups);
    ghost var e := Ensured(d, key, name);
    OthersDiffer(groups, e, key);
    label before:
    group.managedReservedMb := group.managedReservedMb + mb;
    group.taskCount := group.taskCount + 1;
    forall k | k in e.vals && k != key
      ensures groups.vals[k].Value() == e.vals[k]
    {
      assert groups.vals[k] != group && old@before(groups.vals[k].Value()) == e.vals[k];
    }
  }

  method BookProcess(groups0: OrderedDict<OwnerGroup>, key: string, name: string, mb: int, ghost d: OrderedDict<Group>)
    returns (groups: OrderedDict<OwnerGroup>)
    requires Shows(groups0, d)
    modifies Objects(groups0)
    ensures Shows(groups, WithProcess(d, key, name, mb))
    ensures forall g :: g in Objects(groups) ==> g in Objects(groups0) || fresh(g)
  {
    var group;
    groups, group := EnsureOwnerGroup(groups0, key, name, d);
    assert group in Objects(groups);
    ghost var e := Ensured(d, key, name);
    OthersDiffer(groups, e, key);
    label before:
    group.unmanagedMb := group.unmanagedMb + mb;
    group.processCount := group.processCount + 1;
    forall k | k in e.vals && k != key
      ensures groups.vals[k].Value() == e.vals[k]
    {
      assert groups.vals[k] != group && old@before(groups.vals[k].Value()) == e.vals[k];
    }
  }

  /** The group objects in map order. */
  function ListOf(groups: OrderedDict<OwnerGroup>): (gs: seq<OwnerGroup>)
    requires forall k :: k in groups.order ==> k in groups.vals
    ensures |gs| == |groups.order| && forall i :: 0 <= i < |gs| ==> gs[i] == groups.vals[groups.order[i]]
  {
    seq(|groups.order|, i requires 0 <= i < |groups.order| => groups.vals[groups.order[i]])
  }

  lemma {:induction false} ListShows(groups: OrderedDict<OwnerGroup>, d: OrderedDict<Group>)
    requires Shows(groups, d)
    ensures forall k :: k in groups.order ==> k in groups.vals
    ensures Values(ListOf(groups)) == d.Values() && DistinctKeys(ListOf(groups))
    ensures forall g :: g in ListOf(groups) ==> g in Objects(groups)
  {
    var gs := ListOf(groups);
    forall i, j | 0 <= i < j < |gs|
      ensures gs[i].key != gs[j].key
    {
      assert Apart(d.order, i, j);
      assert gs[i].Value() == d.vals[d.order[i]] && gs[j].Value() == d.vals[d.order[j]];
    }
    var a, b := Values(gs), d.Values();
    assert |a| == |b| && forall i :: 0 <= i < |a| ==> a[i] == b[i];
  }

  function Sum(s: seq<int>): int {
    if s == [] then 0 else Sum(Init(s)) + Last(s)
  }

  /** The managed memory to share: what is used beyond the processes, between nothing and what is reserved. */
  function ActualManaged(card: CardMb, totals: Totals): int {
    Clamp(card.usedMb - totals.unmanagedMb - Sum(card.unknownMb), 0, totals.reservedMb)
  }

  method GroupAllocations(allocations: seq<AllocationMb>, users: map<string, string>, historical: bool)
    returns (dict: OrderedDict<OwnerGroup>)
    ensures Shows(dict, AllocationGroups(allocations, users, historical))
    ensures forall g :: g in Objects(dict) ==> fresh(g)
  {
    dict := Empty();
    GroupedKeyed(allocations[..0], users, historical);
    for n := 0 to |allocations|
      invariant Shows(dict, AllocationGroups(allocations[..n], users, historical))
      invariant forall g :: g in Objects(dict) ==> fresh(g)
    {
      var a := allocations[n];
      assert allocations[..n + 1] == allocations[..n] + [a];
      InitSnoc(allocations[..n], a);
      var (key, name) := OwnerOf(a, users, historical);
      dict := BookAllocation(dict, key, name, a.declaredMb, AllocationGroups(allocations[..n], users, historical));
    }
    assert allocations[..|allocations|] == allocations;
  }

  method GroupByOwner(card: CardMb, users: map<string, string>, historical: bool) returns (groups: seq<OwnerGroup>)
    ensures DistinctKeys(groups) && Values(groups) == OwnerValues(card, users, historical)
    ensures forall g :: g in groups ==> fresh(g)
  {
    var dict := GroupAllocations(card.allocations, users, historical);
    ghost var d := AllocationGroups(card.allocations, users, historical);
    var processes := card.userProcesses;
    for n := 0 to |processes|
      invariant Shows(dict, ProcessGroups(d, processes[..n]))
      invariant forall g :: g in Objects(dict) ==> fresh(g)
    {
      var p := processes[n];
      assert processes[..n + 1] == processes[..n] + [p];
      InitSnoc(processes[..n], p);
      dict := BookProcess(dict, "user:" + p.user, p.user, p.mb, ProcessGroups(d, processes[..n]));
    }
    assert processes[..|processes|] == processes;
    ListShows(dict, Grouped(card, users, historical));
    groups := ListOf(dict);
  }

  datatype OwnerView = OwnerView(groups: seq<OwnerGroup>, unknownMb: int, totalDisplayedMb: int, freeMb: int)

  method ShareOut(groups: seq<OwnerGroup>, card: CardMb) returns (view: OwnerView)
    requires DistinctKeys(groups)
    modifies set g | g in groups
    ensures view.groups == groups
    ensures Values(groups) == Distributed(old(Values(groups)), ActualManaged(card, Totalled(old(Values(groups)))))
    ensures view.unknownMb == Sum(card.unknownMb)
    ensures var totals := Totalled(old(Values(groups)));
      && view.totalDisplayedMb == totals.reservedMb + totals.unmanagedMb + view.unknownMb
      && view.freeMb == (if card.totalMb > view.totalDisplayedMb then card.totalMb - view.totalDisplayedMb else 0)
  {
    var unknownMb := Sum(card.unknownMb);
    var totals := Totalled(Values(groups));
    var displayed := totals.reservedMb + totals.unmanagedMb + unknownMb;
    DistributeManagedActual(groups, ActualManaged(card, totals));
    var freeMb := if 0 >= card.totalMb - displayed then 0 else card.totalMb - displayed;
    view := OwnerView(groups, unknownMb, displayed, freeMb);
  }

  /** The groups of a card, in the order they were met; the page then sorts them for display. */
  method BuildGpuOwnerGroups(card: CardMb, users: map<string, string>, historical: bool) returns (view: OwnerView)
    ensures var vs := OwnerValues(card, users, historical); var totals := Totalled(vs);
      && Values(view.groups) == Distributed(vs, ActualManaged(card, totals))
      && view.unknownMb == Sum(card.unknownMb)
      && view.totalDisplayedMb == totals.reservedMb + totals.unmanagedMb + view.unknownMb
      && view.freeMb == (if card.totalMb > view.totalDisplayedMb then card.totalMb - view.totalDisplayedMb else 0)
  {
    var groups := GroupByOwner(card, users, historical);
    view := ShareOut(groups, card);
  }

  // ---------------------------------------------------------------------------
  // Conservation
  // ---------------------------------------------------------------------------

  function Minus(a: Totals, g: Group): Totals {
    Totals(a.reservedMb - g.reservedMb, a.actualMb - g.actualMb, a.unmanagedMb - g.unmanagedMb,
           a.taskCount - g.taskCount, a.processCount - g.processCount)
  }

  lemma {:induction false} TotalledUpdate(vs: seq<Group>, i: nat, g: Group)
    requires i < |vs|
    ensures Totalled(vs[i := g]) == Minus(Totalled(vs), vs[i]).Plus(g)
    decreases |vs|
  {
    var front := Init(vs);
    if i == |front| {
      assert Init(vs[i := g]) == front;
    } else {
      TotalledUpdate(front, i, g);
      assert Init(vs[i := g]) == front[i := g];
    }
  }

  lemma {:induction false} PutTotals(d: OrderedDict<Group>, k: string, g: Group)
    requires d.Valid()
    ensures Totalled(Put(d, k, g).Values()) ==
      if k in d.vals then Minus(Totalled(d.Values()), d.vals[k]).Plus(g) else Totalled(d.Values()).Plus(g)
  {
    var r := Put(d, k, g);
    if k in d.vals {
      var i := IndexOf(d.order, k);
      forall j | 0 <= j < |d.order| && j != i
        ensures d.order[j] != k
      {
        assert if i < j then Apart(d.order, i, j) else Apart(d.order, j, i);
      }
      assert r.Values() == d.Values()[i := g];
      TotalledUpdate(d.Values(), i, g);
    } else {
      assert r.Values() == d.Values() + [g];
      InitSnoc(d.Values(), g);
    }
  }

  lemma {:induction false} EnsuredTotals(d: OrderedDict<Group>, key: string, name: string)
    requires d.Valid()
    ensures Ensured(d, key, name).Valid() && Totalled(Ensured(d, key, name).Values()) == Totalled(d.Values())
  {
    PutTotals(d, key, Group(key, name, 0, 0, 0, 0, 0));
  }

  lemma {:induction false} BumpTotals(d: OrderedDict<Group>, key: string, name: string, g: Group)
    requires d.Valid()
    ensures var e := Ensured(d, key, name);
      key in e.vals && Put(e, key, g).Valid()
      && Totalled(Put(e, key, g).Values()) == Minus(Totalled(d.Values()), e.vals[key]).Plus(g)
  {
    EnsuredTotals(d, key, name);
    PutTotals(Ensured(d, key, name), key, g);
  }

  lemma {:induction false} AllocationTotals(d: OrderedDict<Group>, key: string, name: string, mb: int)
    requires d.Valid()
    ensures WithAllocation(d, key, name, mb).Valid()
    ensures Totalled(WithAllocation(d, key, name, mb).Values()) == Totalled(d.Values()).Plus(Group("", "", mb, 0, 0, 1, 0))
  {
    var g, was := Ensured(d, key, name).vals[key], Totalled(d.Values());
    BumpTotals(d, key, name, PlusTask(g, mb));
    calc {
      Totalled(WithAllocation(d, key, name, mb).Values());
      Minus(was, g).Plus(PlusTask(g, mb));
      was.Plus(Group("", "", mb, 0, 0, 1, 0));
    }
  }

  lemma {:induction false} ProcessTotals(d: OrderedDict<Group>, key: string, name: string, mb: int)
    requires d.Valid()
    ensures WithProcess(d, key, name, mb).Valid()
    ensures Totalled(WithProcess(d, key, name, mb).Values()) == Totalled(d.Values()).Plus(Group("", "", 0, 0, mb, 0, 1))
  {
    var g, was := Ensured(d, key, name).vals[key], Totalled(d.Values());
    BumpTotals(d, key, name, PlusProcess(g, mb));
    calc {
      Totalled(WithProcess(d, key, name, mb).Values());
      Minus(was, g).Plus(PlusProcess(g, mb));
      was.Plus(Group("", "", 0, 0, mb, 0, 1));
    }
  }

  function DeclaredMb(allocations: seq<AllocationMb>): int {
    if allocations == [] then 0 else DeclaredMb(Init(allocations)) + Last(allocations).declaredMb
  }

  function ProcessesMb(processes: seq<ProcessMb>): int {
    if processes == [] then 0 else ProcessesMb(Init(processes)) + Last(processes).mb
  }

  lemma {:induction false} AllocationsConserve(allocations: seq<AllocationMb>, users: map<string, string>,
        historical: bool)
    ensures AllocationGroups(allocations, users, historical).Valid()
    ensures Totalled(AllocationGroups(allocations, users, historical).Values())
         == Totals(DeclaredMb(allocations), 0, 0, |allocations|, 0)
    decreases |allocations|
  {
    if allocations != [] {
      AllocationsConserve(Init(allocations), users, historical);
      var (key, name) := OwnerOf(Last(allocations), users, historical);
      AllocationTotals(AllocationGroups(Init(allocations), users, historical), key, name, Last(allocations).declaredMb);
    }
  }

  lemma {:induction false} ProcessesConserve(d: OrderedDict<Group>, processes: seq<ProcessMb>)
    requires d.Valid()
    ensures ProcessGroups(d, processes).Valid()
    ensures var was := Totalled(d.Values());
      Totalled(ProcessGroups(d, processes).Values()) ==
        was.(unmanagedMb := was.unmanagedMb + ProcessesMb(processes), processCount := was.processCount + |processes|)
    decreases |processes|
  {
    if processes != [] {
      var p := Last(processes);
      ProcessesConserve(d, Init(processes));
      ProcessTotals(ProcessGroups(d, Init(processes)), "user:" + p.user, p.user, p.mb);
    }
  }

  /** Nothing of the card is lost or counted twice: the groups' reservations add up to all declarations, their unmanaged
      memory to all user processes, and every task and process is counted once. */
  lemma {:induction false} GroupingConserves(card: CardMb, users: map<string, string>, historical: bool)
    ensures Totalled(OwnerValues(card, users, historical))
         == Totals(DeclaredMb(card.allocations), 0, ProcessesMb(card.userProcesses), |card.allocations|, |card.userProcesses|)
  {
    AllocationsConserve(card.allocations, users, historical);
    ProcessesConserve(AllocationGroups(card.allocations, users, historical), card.userProcesses);
  }

  ghost predicate Unshared(d: OrderedDict<Group>) {
    Keyed(d) && forall k :: k in d.vals ==> d.vals[k].actualMb == 0
  }

  lemma {:induction false} AllocationsUnshared(allocations: seq<AllocationMb>, users: map<string, string>,
        historical: bool)
    ensures Unshared(AllocationGroups(allocations, users, historical))
    decreases |allocations|
  {
    if allocations != [] {
      AllocationsUnshared(Init(allocations), users, historical);
    }
  }

  lemma {:induction false} ProcessesUnshared(d: OrderedDict<Group>, processes: seq<ProcessMb>)
    requires Unshared(d)
    ensures Unshared(ProcessGroups(d, processes))
    decreases |processes|
  {
    if processes != [] {
      ProcessesUnshared(d, Init(processes));
    }
  }

  lemma {:induction false} OwnersReady(card: CardMb, users: map<string, string>, historical: bool)
    ensures var vs := OwnerValues(card, users, historical);
      Distinct(vs) && forall i :: 0 <= i < |vs| ==> vs[i].actualMb == 0
  {
    AllocationsUnshared(card.allocations, users, historical);
    ProcessesUnshared(AllocationGroups(card.allocations, users, historical), card.userProcesses);
    var d, vs := Grouped(card, users, historical), OwnerValues(card, users, historical);
    forall i, j | 0 <= i < j < |vs|
      ensures KeysApart(vs, i, j)
    {
      assert Apart(d.order, i, j);
    }
  }

  /** CARD TOTALS. The managed memory shared out over a card's groups is exactly the memory used beyond the processes,
      bounded by nothing and by all declarations. */
  lemma {:induction false} CardIsShared(card: CardMb, users: map<string, string>, historical: bool)
    requires DeclaredMb(card.allocations) >= 0
    ensures var vs := OwnerValues(card, users, historical);
      var beyond := card.usedMb - ProcessesMb(card.userProcesses) - Sum(card.unknownMb);
      Totalled(Distributed(vs, ActualManaged(card, Totalled(vs)))).actualMb
        == if beyond < 0 then 0 else if beyond > DeclaredMb(card.allocations) then DeclaredMb(card.allocations) else beyond
  {
    var vs := OwnerValues(card, users, historical);
    OwnersReady(card, users, historical);
    ManagedTotal(card, users, historical);
    SharingIsExact(vs, ActualManaged(card, Totalled(vs)));
  }

  lemma {:induction false} ManagedTotal(card: CardMb, users: map<string, string>, historical: bool)
    requires DeclaredMb(card.allocations) >= 0
    ensures var all := Totalled(OwnerValues(card, users, historical)); var total := ActualManaged(card, all);
      && 0 <= total <= all.reservedMb
      && total == Clamp(card.usedMb - ProcessesMb(card.userProcesses) - Sum(card.unknownMb), 0, DeclaredMb(card.allocations))
  {
    GroupingConserves(card, users, historical);
  }

  // ---------------------------------------------------------------------------
  // Aggregation over cards
  // ---------------------------------------------------------------------------

  function Merged(a: Group, g: Group): Group {
    a.(reservedMb := a.reservedMb + g.reservedMb, actualMb := a.actualMb + g.actualMb,
       unmanagedMb := a.unmanagedMb + g.unmanagedMb, taskCount := a.taskCount + g.taskCount,
       processCount := a.processCount + g.processCount)
  }

  function WithGroup(d: OrderedDict<Group>, g: Group): OrderedDict<Group> {
    Put(d, g.key, if g.key in d.vals then Merged(d.vals[g.key], g) else g)
  }

  function Aggregated(d: OrderedDict<Group>, vs: seq<Group>): OrderedDict<Group> {
    if vs == [] then d else WithGroup(Aggregated(d, Init(vs)), Last(vs))
  }

  /** Aggregating adds every group's memory and counts to exactly one result, whatever the keys. */
  lemma {:induction false} AggregationConserves(d: OrderedDict<Group>, vs: seq<Group>)
    requires Keyed(d)
    ensures Keyed(Aggregated(d, vs))
    ensures Totalled(Aggregated(d, vs).Values()) == AddAll(Totalled(d.Values()), vs)
    decreases |vs|
  {
    if vs != [] {
      var g, before := Last(vs), Aggregated(d, Init(vs));
      AggregationConserves(d, Init(vs));
      PutTotals(before, g.key, if g.key in before.vals then Merged(before.vals[g.key], g) else g);
    }
  }

  function AddAll(t: Totals, vs: seq<Group>): Totals {
    if vs == [] then t else AddAll(t, Init(vs)).Plus(Last(vs))
  }

  method MergeInto(groups: OrderedDict<OwnerGroup>, g: OwnerGroup, ghost d: OrderedDict<Group>)
    requires Shows(groups, d) && g !in Objects(groups) && g.key in groups.vals
    modifies groups.vals[g.key]
    ensures Shows(groups, WithGroup(d, old(g.Value())))
  {
    var existing := groups.vals[g.key];
    OthersDiffer(groups, d, g.key);
    assert existing in Objects(groups) && existing.Value() == d.vals[g.key];
    label before:
    existing.managedReservedMb := existing.managedReservedMb + g.managedReservedMb;
    existing.managedActualMb := existing.managedActualMb + g.managedActualMb;
    existing.unmanagedMb := existing.unmanagedMb + g.unmanagedMb;
    existing.taskCount := existing.taskCount + g.taskCount;
    existing.processCount := existing.processCount + g.processCount;
    forall k | k in d.vals && k != g.key
      ensures groups.vals[k].Value() == d.vals[k]
    {
      assert groups.vals[k] != existing && old@before(groups.vals[k].Value()) == d.vals[k];
    }
  }

  method AddGroup(groups0: OrderedDict<OwnerGroup>, g: OwnerGroup, ghost d: OrderedDict<Group>)
    returns (groups: OrderedDict<OwnerGroup>)
    requires Shows(groups0, d) && g !in Objects(groups0)
    modifies Objects(groups0)
    ensures Shows(groups, WithGroup(d, old(g.Value())))
    ensures forall x :: x in Objects(groups) ==> x in Objects(groups0) || fresh(x)
  {
    if g.key in groups0.vals {
      assert groups0.vals[g.key] in Objects(groups0);
      MergeInto(groups0, g, d);
      return groups0;
    }
    var copy := new OwnerGroup.Copy(g);
    groups := Put(groups0, g.key, copy);
    assert g.key !in d.vals && g.key !in d.order;
  }

  lemma {:induction false} ValuesAre(groups: seq<OwnerGroup>, vs: seq<Group>)
    requires |groups| == |vs| && forall i :: 0 <= i < |vs| ==> groups[i].Value() == vs[i]
    ensures Values(groups) == vs
  {
  }

  /** Sums the groups of several cards by key into new objects; the cards' own groups stay as they are. */
  method AggregateOwnerGroups(items: seq<OwnerGroup>) returns (groups: seq<OwnerGroup>)
    ensures Aggregated(Empty(), Values(items)).Valid()
    ensures Values(groups) == Aggregated(Empty(), Values(items)).Values() && DistinctKeys(groups)
    ensures forall g :: g in groups ==> fresh(g)
  {
    ghost var vs := Values(items);
    var dict: OrderedDict<OwnerGroup> := Empty();
    assert vs[..0] == [];
    for n := 0 to |items|
      invariant forall i :: 0 <= i < |items| ==> items[i].Value() == vs[i]
      invariant Shows(dict, Aggregated(Empty(), vs[..n]))
      invariant forall g :: g in Objects(dict) ==> fresh(g)
    {
      assert vs[..n + 1] == vs[..n] + [vs[n]];
      InitSnoc(vs[..n], vs[n]);
      dict := AddGroup(dict, items[n], Aggregated(Empty(), vs[..n]));
    }
    assert vs[..|items|] == vs;
    ValuesAre(items, vs);
    ListShows(dict, Aggregated(Empty(), vs));
    groups := ListOf(dict);
  }
}
