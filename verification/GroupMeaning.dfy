/** What each owner's group says, in terms of the card's allocations and processes alone, and what each share is in whole
    numbers. */
module GroupMeaning {
  import opened Basics
  import opened OrderedDicts
  import opened Apportionment
  import opened OwnerGroups

  // ---------------------------------------------------------------------------
  // Whose allocation it is
  // ---------------------------------------------------------------------------

  /** The key of the group: the task's user if it has one, else one of two groups without a user. */
  function KeyOf(a: AllocationMb, users: map<string, string>, historical: bool): string {
    if a.taskId in users && users[a.taskId] != "" then "user:" + users[a.taskId]
    else if historical then "managed:historical"
    else "managed:unresolved"
  }

  /** The name that the key stands for. */
  function NameFor(key: string): string {
    if "user:" <= key then key[5..]
    else if key == "managed:historical" then "托管任务（历史未归因）"
    else "托管任务（未归因）"
  }

  function UserKey(p: ProcessMb): string {
    "user:" + p.user
  }

  lemma {:induction false} OwnerMeans(a: AllocationMb, users: map<string, string>, historical: bool)
    ensures OwnerOf(a, users, historical) == (KeyOf(a, users, historical), NameFor(KeyOf(a, users, historical)))
  {
    assert "managed:historical"[0] != 'u' && "managed:unresolved"[0] != 'u' && "user:"[0] == 'u';
  }

  // ---------------------------------------------------------------------------
  // What belongs to a key
  // ---------------------------------------------------------------------------

  /** The allocations of the key, in order. */
  function AllocationsFor(allocations: seq<AllocationMb>, users: map<string, string>, historical: bool,
        key: string): seq<AllocationMb> {
    if allocations == [] then []
    else if KeyOf(Last(allocations), users, historical) == key then
      AllocationsFor(Init(allocations), users, historical, key) + [Last(allocations)]
    else AllocationsFor(Init(allocations), users, historical, key)
  }

  function ProcessesFor(processes: seq<ProcessMb>, key: string): seq<ProcessMb> {
    if processes == [] then []
    else if UserKey(Last(processes)) == key then ProcessesFor(Init(processes), key) + [Last(processes)]
    else ProcessesFor(Init(processes), key)
  }

  /** The group of the key: what its allocations declare and its processes use, and how many of each there are. */
  function GroupFor(key: string, allocations: seq<AllocationMb>, processes: seq<ProcessMb>): Group {
    Group(key, NameFor(key), DeclaredMb(allocations), 0, ProcessesMb(processes), |allocations|, |processes|)
  }

  /** `d` has a group for exactly the keys with an allocation or a process, and it says what belongs to the key. */
  ghost predicate GroupAt(d: OrderedDict<Group>, allocations: seq<AllocationMb>, processes: seq<ProcessMb>, key: string) {
    && (key in d.vals <==> allocations != [] || processes != [])
    && (key in d.vals ==> d.vals[key] == GroupFor(key, allocations, processes))
  }

  lemma {:induction false} GroupForSnoc(key: string, allocations: seq<AllocationMb>, processes: seq<ProcessMb>,
        a: AllocationMb, p: ProcessMb)
    ensures GroupFor(key, allocations + [a], processes) == PlusTask(GroupFor(key, allocations, processes), a.declaredMb)
    ensures GroupFor(key, allocations, processes + [p]) == PlusProcess(GroupFor(key, allocations, processes), p.mb)
    ensures GroupFor(key, [], []) == Group(key, NameFor(key), 0, 0, 0, 0, 0)
  {
    InitSnoc(allocations, a);
    InitSnoc(processes, p);
  }

  function Found(d: OrderedDict<Group>, key: string): Option<Group> {
    if key in d.vals then Some(d.vals[key]) else None
  }

  /** Booking changes the group of its own key, which it creates if need be, and no other. */
  lemma {:induction false} BookedAt(d: OrderedDict<Group>, own: string, name: string, mb: int, key: string)
    ensures var was := Found(d, key).GetOr(Group(key, name, 0, 0, 0, 0, 0));
      && Found(WithAllocation(d, own, name, mb), key) == (if key == own then Some(PlusTask(was, mb)) else Found(d, key))
      && Found(WithProcess(d, own, name, mb), key) == (if key == own then Some(PlusProcess(was, mb)) else Found(d, key))
  {
  }

  lemma {:induction false} GroupAtFound(d: OrderedDict<Group>, allocations: seq<AllocationMb>, processes: seq<ProcessMb>,
        key: string)
    ensures GroupAt(d, allocations, processes, key) <==>
      Found(d, key) == if allocations == [] && processes == [] then None else Some(GroupFor(key, allocations, processes))
  {
  }

  lemma {:induction false} AllocationGroupAt(allocations: seq<AllocationMb>, users: map<string, string>, historical: bool,
        key: string)
    ensures GroupAt(AllocationGroups(allocations, users, historical), AllocationsFor(allocations, users, historical, key), [],
                    key)
    decreases |allocations|
  {
    if allocations != [] {
      var front, a := Init(allocations), Last(allocations);
      var d, own := AllocationGroups(front, users, historical), AllocationsFor(front, users, historical, key);
      AllocationGroupAt(front, users, historical, key);
      OwnerMeans(a, users, historical);
      AllocationStepAt(d, own, a, KeyOf(a, users, historical), key);
    } else {
      GroupAtFound(Empty(), [], [], key);
    }
  }

  lemma {:induction false} AllocationStepAt(d: OrderedDict<Group>, own: seq<AllocationMb>, a: AllocationMb, at: string,
        key: string)
    requires GroupAt(d, own, [], key)
    ensures GroupAt(WithAllocation(d, at, NameFor(at), a.declaredMb), if at == key then own + [a] else own, [], key)
  {
    BookedAt(d, at, NameFor(at), a.declaredMb, key);
    GroupForSnoc(key, own, [], a, ProcessMb("", 0));
    GroupAtFound(d, own, [], key);
    GroupAtFound(WithAllocation(d, at, NameFor(at), a.declaredMb), if at == key then own + [a] else own, [], key);
  }

  lemma {:induction false} ProcessStepAt(d: OrderedDict<Group>, own: seq<AllocationMb>, ps: seq<ProcessMb>, p: ProcessMb,
        key: string)
    requires GroupAt(d, own, ps, key)
    ensures GroupAt(WithProcess(d, UserKey(p), p.user, p.mb), own, if UserKey(p) == key then ps + [p] else ps, key)
  {
    assert UserKey(p)[5..] == p.user && NameFor(UserKey(p)) == p.user;
    BookedAt(d, UserKey(p), p.user, p.mb, key);
    GroupForSnoc(key, own, ps, AllocationMb("", 0), p);
    GroupAtFound(d, own, ps, key);
    GroupAtFound(WithProcess(d, UserKey(p), p.user, p.mb), own, if UserKey(p) == key then ps + [p] else ps, key);
  }

  lemma {:induction false} ProcessGroupAt(d: OrderedDict<Group>, allocations: seq<AllocationMb>, processes: seq<ProcessMb>,
        key: string)
    requires GroupAt(d, allocations, [], key)
    ensures GroupAt(ProcessGroups(d, processes), allocations, ProcessesFor(processes, key), key)
    decreases |processes|
  {
    if processes != [] {
      var front, p := Init(processes), Last(processes);
      ProcessGroupAt(d, allocations, front, key);
      ProcessStepAt(ProcessGroups(d, front), allocations, ProcessesFor(front, key), p, key);
    }
  }

  /** The groups of a card: one for each owner of an allocation or a process, which adds up exactly what is the owner's. */
  lemma {:induction false} GroupExactly(card: CardMb, users: map<string, string>, historical: bool, key: string)
    ensures GroupAt(Grouped(card, users, historical), AllocationsFor(card.allocations, users, historical, key),
                    ProcessesFor(card.userProcesses, key), key)
  {
    AllocationGroupAt(card.allocations, users, historical, key);
    ProcessGroupAt(AllocationGroups(card.allocations, users, historical),
                   AllocationsFor(card.allocations, users, historical, key), card.userProcesses, key);
  }

  // ---------------------------------------------------------------------------
  // Aggregation by key
  // ---------------------------------------------------------------------------

  function GroupsFor(vs: seq<Group>, key: string): seq<Group> {
    if vs == [] then []
    else if Last(vs).key == key then GroupsFor(Init(vs), key) + [Last(vs)]
    else GroupsFor(Init(vs), key)
  }

  /** The aggregate of a key has the name of its first group and the sums of all. */
  ghost predicate AggregateAt(d: OrderedDict<Group>, own: seq<Group>, key: string) {
    && (key in d.vals <==> own != [])
    && (key in d.vals ==> var g, t := d.vals[key], Totalled(own);
         g == Group(key, own[0].name, t.reservedMb, t.actualMb, t.unmanagedMb, t.taskCount, t.processCount))
  }

  lemma {:induction false} AggregateExactly(vs: seq<Group>, key: string)
    ensures AggregateAt(Aggregated(Empty(), vs), GroupsFor(vs, key), key)
    decreases |vs|
  {
    if vs != [] {
      var front, g := Init(vs), Last(vs);
      AggregateExactly(front, key);
      InitSnoc(GroupsFor(front, key), g);
      if g.key == key && GroupsFor(front, key) == [] { assert GroupsFor(vs, key) == [g] && Init([g]) == []; }
    }
  }

  // ---------------------------------------------------------------------------
  // Shares in whole numbers
  // ---------------------------------------------------------------------------

  /** The award is the whole part of `total * reserved / all`, or one more if that leaves a rest. */
  predicate WholeShare(award: int, reserved: int, total: int, all: int)
    requires all > 0
  {
    var share, rest := total * reserved / all, total * reserved % all;
    award == share || (award == share + 1 && rest > 0)
  }

  lemma {:induction false} EstimateMeans(c: Claim, total: int, all: int)
    requires all > 0
    ensures var e := EstimateOf(c, total, all);
      e.floorShare == total * c.reservedMb / all && e.remainder * all as real == (total * c.reservedMb % all) as real
  {
    var e := EstimateOf(c, total, all);
    var part := c.reservedMb as real / all as real;
    assert part * all as real == c.reservedMb as real;
    assert e.exactShare * all as real == (total * c.reservedMb) as real by {
      assert e.exactShare == total as real * part;
      assert total as real * part * all as real == total as real * (part * all as real);
    }
    FloorIsQuotient(e.exactShare, e.floorShare, total * c.reservedMb, all);
  }

  lemma {:induction false} MulOrder(p: int, q: int, k: int)
    requires k > 0
    ensures p < q <==> p * k < q * k
  {
    if p < q { assert (q - p) * k > 0; } else { assert (p - q) * k >= 0; }
  }

  lemma {:induction false} QuotientIs(n: int, all: int, q: int)
    requires all > 0 && q * all <= n < (q + 1) * all
    ensures n / all == q && n % all == n - q * all
  {
    var a := n / all;
    assert a * all <= n < (a + 1) * all;
    MulOrder(q, a + 1, all);
    MulOrder(a, q + 1, all);
  }

  lemma {:induction false} RealProduct(a: int, b: int)
    ensures (a * b) as real == a as real * b as real
  {
  }

  lemma {:induction false} FractionTimes(d: real, k: real) returns (p: real)
    requires k > 0.0 && 0.0 <= d < 1.0
    ensures p == d * k && 0.0 <= p < k
  {
    p := d * k;
    assert (1.0 - d) * k > 0.0;
  }

  lemma {:induction false} SumTimes(a: real, b: real, k: real)
    ensures (a + b) * k == a * k + b * k
  {
  }

  lemma {:induction false} WholeBounds(low: int, n: int, all: int)
    requires low as real <= n as real < low as real + all as real
    ensures low <= n < low + all
  {
  }

  lemma {:induction false} FloorIsQuotient(x: real, floor: int, n: int, all: int)
    requires all > 0 && x * all as real == n as real && floor as real <= x < floor as real + 1.0
    ensures floor == n / all && (x - floor as real) * all as real == (n % all) as real
  {
    var low := floor * all;
    RealProduct(floor, all);
    var d := x - floor as real;
    var p := FractionTimes(d, all as real);
    SumTimes(floor as real, d, all as real);
    assert x == floor as real + d;
    assert n as real == low as real + p;
    WholeBounds(low, n, all);
    WholeQuotient(n, all, floor, low);
  }

  lemma {:induction false} WholeQuotient(n: int, all: int, q: int, low: int)
    requires all > 0 && low == q * all && low <= n < low + all
    ensures n / all == q && n % all == n - low
  {
    assert (q + 1) * all == low + all;
    QuotientIs(n, all, q);
  }

  lemma {:induction false} Distributes(a: real, b: real, k: real)
    ensures (a - b) * k == a * k - b * k
  {
  }

  predicate RoundsFirst(rest: int, reserved: int, otherRest: int, otherReserved: int) {
    rest > otherRest || (rest == otherRest && reserved >= otherReserved)
  }

  /** Fractions are ordered like the rests they stand for. */
  lemma {:induction false} RestOrder(a: real, b: real, m: int, n: int, all: int)
    requires all > 0 && a * all as real == m as real && b * all as real == n as real
    ensures a > b <==> m > n
    ensures a == b <==> m == n
  {
    var k := all as real;
    Distributes(a, b, k);
    if a > b {
      assert (a - b) * k > 0.0;
    } else if a < b {
      Distributes(b, a, k);
      assert (b - a) * k > 0.0;
    }
  }

  lemma {:induction false} FairIsWhole(c: Claim, total: int, all: int, award: int)
    requires all > 0 && FairAt(EstimateOf(c, total, all), award)
    ensures WholeShare(award, c.reservedMb, total, all) && 0 <= award <= c.reservedMb
    ensures award > total * c.reservedMb / all <==> award > EstimateOf(c, total, all).floorShare
  {
    EstimateMeans(c, total, all);
    RestOrder(EstimateOf(c, total, all).remainder, 0.0, total * c.reservedMb % all, 0, all);
  }

  lemma {:induction false} BeforeRoundsFirst(c: Claim, d: Claim, total: int, all: int)
    requires all > 0 && Before(EstimateOf(c, total, all), EstimateOf(d, total, all))
    ensures RoundsFirst(total * c.reservedMb % all, c.reservedMb, total * d.reservedMb % all, d.reservedMb)
  {
    EstimateMeans(c, total, all);
    EstimateMeans(d, total, all);
    RestOrder(EstimateOf(c, total, all).remainder, EstimateOf(d, total, all).remainder,
              total * c.reservedMb % all, total * d.reservedMb % all, all);
  }

  /** Every claim gets the whole part of its share, or one more only if there is a rest, and at most what it reserved. */
  lemma {:induction false} AwardExactly(claims: seq<Claim>, total: int, c: Claim)
    requires Sound(claims) && NoDup(KeysOf(claims)) && c in claims && 0 < total <= Reserved(claims)
    ensures var awards := AwardsOf(claims, total);
      c.key in awards && WholeShare(awards[c.key], c.reservedMb, total, Reserved(claims)) && 0 <= awards[c.key] <= c.reservedMb
  {
    AwardsAreFair(claims, total, c);
    FairIsWhole(c, total, Reserved(claims), AwardsOf(claims, total)[c.key]);
  }

  /** Of two claims the one with the larger rest, or an equal rest and the larger reservation, is rounded up first. */
  lemma {:induction false} LargerRestFirst(claims: seq<Claim>, total: int, c: Claim, d: Claim)
    requires Sound(claims) && NoDup(KeysOf(claims)) && c in claims && d in claims && 0 < total <= Reserved(claims)
    requires c.key in AwardsOf(claims, total) && d.key in AwardsOf(claims, total)
    requires AwardsOf(claims, total)[c.key] > total * c.reservedMb / Reserved(claims)
    requires AwardsOf(claims, total)[d.key] == total * d.reservedMb / Reserved(claims)
    ensures RoundsFirst(total * c.reservedMb % Reserved(claims), c.reservedMb,
                        total * d.reservedMb % Reserved(claims), d.reservedMb)
  {
    var all := Reserved(claims);
    AwardsAreFair(claims, total, c);
    AwardsAreFair(claims, total, d);
    FairIsWhole(c, total, all, AwardsOf(claims, total)[c.key]);
    FairIsWhole(d, total, all, AwardsOf(claims, total)[d.key]);
    LargestFractionsFirst(claims, total, c, d);
    BeforeRoundsFirst(c, d, total, all);
  }
}
