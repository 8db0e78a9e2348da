/** Largest-remainder apportionment of a card's managed memory among the owners that reserved it. */
module Apportionment {
  import opened Basics
  import opened Sorting

  /** One owner's reservation, in whole megabytes. */
  datatype Claim = Claim(key: string, reservedMb: int)

  datatype Estimate = Estimate(key: string, reservedMb: int, exactShare: real, floorShare: int, remainder: real)

  function Reserved(claims: seq<Claim>): int {
    if claims == [] then 0 else Reserved(Init(claims)) + Last(claims).reservedMb
  }

  /** The part of the total that `reservedMb` out of `allReserved` entitles to. */
  function ExactShare(reservedMb: int, total: int, allReserved: int): real
    requires allReserved > 0
  {
    total as real * (reservedMb as real / allReserved as real)
  }

  function EstimateOf(c: Claim, total: int, allReserved: int): (e: Estimate)
    requires allReserved > 0
    ensures e.key == c.key && e.reservedMb == c.reservedMb && 0.0 <= e.remainder < 1.0
    ensures e.exactShare == e.floorShare as real + e.remainder
  {
    var exact := ExactShare(c.reservedMb, total, allReserved);
    Estimate(c.key, c.reservedMb, exact, exact.Floor, exact - exact.Floor as real)
  }

  function Estimates(claims: seq<Claim>, total: int, allReserved: int): (es: seq<Estimate>)
    requires allReserved > 0
    ensures |es| == |claims| && forall i :: 0 <= i < |es| ==> es[i] == EstimateOf(claims[i], total, allReserved)
  {
    if claims == [] then [] else Estimates(Init(claims), total, allReserved) + [EstimateOf(Last(claims), total, allReserved)]
  }

  /** Larger remainder first, then larger reservation; the sort keeps other ties in order. */
  predicate Before(a: Estimate, b: Estimate) {
    a.remainder > b.remainder || (a.remainder == b.remainder && a.reservedMb >= b.reservedMb)
  }

  function Floors(es: seq<Estimate>): int {
    if es == [] then 0 else Floors(Init(es)) + Last(es).floorShare
  }

  function Remainders(es: seq<Estimate>): real {
    if es == [] then 0.0 else Remainders(Init(es)) + Last(es).remainder
  }

  function Clamp(value: int, low: int, high: int): int {
    var v := if value > low then value else low;
    if v < high then v else high
  }

  function Leftover(claims: seq<Claim>, total: int, allReserved: int): int
    requires allReserved > 0
  {
    total - Floors(Estimates(claims, total, allReserved))
  }

  function Ranked(claims: seq<Claim>, total: int, allReserved: int): seq<Estimate>
    requires allReserved > 0
  {
    StableSort(Estimates(claims, total, allReserved), Before)
  }

  /** What the estimate at rank `i` is given when `leftover` units are to be handed out. */
  function AwardAt(e: Estimate, i: int, leftover: int): int {
    Clamp(e.floorShare + (if leftover - i > 0 then 1 else 0), 0, e.reservedMb)
  }

  /** The awards of the first estimates, by key. */
  function Awards(ranked: seq<Estimate>, leftover: int): map<string, int> {
    if ranked == [] then map[]
    else Awards(Init(ranked), leftover)[Last(ranked).key := AwardAt(Last(ranked), |ranked| - 1, leftover)]
  }

  function AwardedTotal(ranked: seq<Estimate>, leftover: int): int {
    if ranked == [] then 0 else AwardedTotal(Init(ranked), leftover) + AwardAt(Last(ranked), |ranked| - 1, leftover)
  }

  // ---------------------------------------------------------------------------
  // Shares
  // ---------------------------------------------------------------------------

  predicate Sound(claims: seq<Claim>) {
    forall i :: 0 <= i < |claims| ==> claims[i].reservedMb > 0
  }

  lemma {:induction false} ReservedPositive(claims: seq<Claim>)
    requires Sound(claims) && claims != []
    ensures Reserved(claims) > 0
    ensures forall i :: 0 <= i < |claims| ==> claims[i].reservedMb <= Reserved(claims)
    decreases |claims|
  {
    var front := Init(claims);
    assert Sound(front) by { assert forall i :: 0 <= i < |front| ==> front[i] == claims[i]; }
    if front != [] {
      ReservedPositive(front);
      forall i | 0 <= i < |claims|
        ensures claims[i].reservedMb <= Reserved(claims)
      {
        if i < |front| { assert front[i] == claims[i]; }
      }
    } else {
      assert Reserved(front) == 0;
    }
  }

  /** Exact shares of two reservations add up to the share of both. */
  lemma {:induction false} SharesAdd(a: int, b: int, total: int, r: int)
    requires r > 0
    ensures ExactShare(a, total, r) + ExactShare(b, total, r) == ExactShare(a + b, total, r)
    ensures ExactShare(0, total, r) == 0.0 && ExactShare(r, total, r) == total as real
  {
  }

  function Exacts(es: seq<Estimate>): real {
    if es == [] then 0.0 else Exacts(Init(es)) + Last(es).exactShare
  }

  lemma {:induction false} ExactsSnoc(front: seq<Estimate>, e: Estimate)
    ensures Exacts(front + [e]) == Exacts(front) + e.exactShare
  {
  }

  lemma {:induction false} ExactsOf(claims: seq<Claim>, total: int, allReserved: int)
    requires allReserved > 0
    ensures Exacts(Estimates(claims, total, allReserved)) == ExactShare(Reserved(claims), total, allReserved)
    decreases |claims|
  {
    if claims == [] {
      SharesAdd(0, 0, total, allReserved);
    } else {
      var front, c := Init(claims), Last(claims);
      calc {
        Exacts(Estimates(claims, total, allReserved));
        Exacts(Estimates(front, total, allReserved) + [EstimateOf(c, total, allReserved)]);
        { ExactsSnoc(Estimates(front, total, allReserved), EstimateOf(c, total, allReserved)); }
        Exacts(Estimates(front, total, allReserved)) + ExactShare(c.reservedMb, total, allReserved);
        { ExactsOf(front, total, allReserved); }
        ExactShare(Reserved(front), total, allReserved) + ExactShare(c.reservedMb, total, allReserved);
        { SharesAdd(Reserved(front), c.reservedMb, total, allReserved); }
        ExactShare(Reserved(claims), total, allReserved);
      }
    }
  }

  ghost predicate Split(e: Estimate) {
    e.exactShare == e.floorShare as real + e.remainder && 0.0 <= e.remainder < 1.0
  }

  lemma {:induction false} ExactsSplit(es: seq<Estimate>)
    requires forall i :: 0 <= i < |es| ==> Split(es[i])
    ensures Exacts(es) == Floors(es) as real + Remainders(es)
    decreases |es|
  {
    if es != [] {
      assert forall i :: 0 <= i < |Init(es)| ==> Init(es)[i] == es[i];
      ExactsSplit(Init(es));
      assert Split(es[|es| - 1]);
    }
  }

  /** The units left over are exactly the fractions cut off. */
  lemma {:induction false} LeftoverIsRemainders(claims: seq<Claim>, total: int)
    requires Sound(claims) && claims != []
    ensures Reserved(claims) > 0
    ensures Leftover(claims, total, Reserved(claims)) as real == Remainders(Estimates(claims, total, Reserved(claims)))
  {
    ReservedPositive(claims);
    var es := Estimates(claims, total, Reserved(claims));
    ExactsOf(claims, total, Reserved(claims));
    SharesAdd(0, 0, total, Reserved(claims));
    assert forall i :: 0 <= i < |es| ==> Split(es[i]);
    ExactsSplit(es);
  }

  // ---------------------------------------------------------------------------
  // Sums do not depend on the order
  // ---------------------------------------------------------------------------

  lemma {:induction false} InsertSums(x: Estimate, es: seq<Estimate>)
    ensures Floors(Insert(x, es, Before)) == Floors(es) + x.floorShare
    ensures Remainders(Insert(x, es, Before)) == Remainders(es) + x.remainder
  {
    if es == [] || Before(x, es[0]) {
      ConsSums(x, es);
    } else {
      InsertSums(x, es[1..]);
      ConsSums(es[0], Insert(x, es[1..], Before));
      ConsSums(es[0], es[1..]);
      assert [es[0]] + es[1..] == es;
    }
  }

  lemma {:induction false} ConsSums(x: Estimate, es: seq<Estimate>)
    ensures Floors([x] + es) == Floors(es) + x.floorShare
    ensures Remainders([x] + es) == Remainders(es) + x.remainder
    decreases |es|
  {
    if es == [] {
      assert [x] + es == [x] && Init([x]) == [];
    } else {
      ConsSums(x, Init(es));
      assert Init([x] + es) == [x] + Init(es) && Last([x] + es) == Last(es);
    }
  }

  lemma {:induction false} SortSums(es: seq<Estimate>)
    ensures Floors(StableSort(es, Before)) == Floors(es) && Remainders(StableSort(es, Before)) == Remainders(es)
    decreases |es|
  {
    if es != [] {
      SortSums(es[1..]);
      InsertSums(es[0], StableSort(es[1..], Before));
      ConsSums(es[0], es[1..]);
      assert [es[0]] + es[1..] == es;
    }
  }

  lemma {:induction false} BeforeTotalPreorder()
    ensures TotalPreorder(Before)
  {
  }

  // ---------------------------------------------------------------------------
  // Who gets the units left over
  // ---------------------------------------------------------------------------

  lemma {:induction false} RemaindersBound(es: seq<Estimate>)
    requires forall i :: 0 <= i < |es| ==> Split(es[i])
    ensures 0.0 <= Remainders(es) <= |es| as real
    ensures es != [] ==> Remainders(es) < |es| as real
    decreases |es|
  {
    if es != [] {
      assert forall i :: 0 <= i < |Init(es)| ==> Init(es)[i] == es[i];
      RemaindersBound(Init(es));
      assert Split(es[|es| - 1]);
    }
  }

  lemma {:induction false} RemaindersPrefix(es: seq<Estimate>, n: nat)
    requires n <= |es| && forall i :: n <= i < |es| ==> es[i].remainder == 0.0
    ensures Remainders(es) == Remainders(es[..n])
    decreases |es|
  {
    if n < |es| {
      var front := Init(es);
      assert forall i :: 0 <= i < |front| ==> front[i] == es[i];
      RemaindersPrefix(front, n);
      assert front[..n] == es[..n];
    } else {
      assert es[..n] == es;
    }
  }

  /** In rank order, every estimate before the units run out has a fraction to round up. */
  lemma {:induction false} OnlyFractionsRoundUp(ranked: seq<Estimate>, leftover: int, i: nat)
    requires Sorted(ranked, Before) && (forall k :: 0 <= k < |ranked| ==> Split(ranked[k]))
    requires leftover as real == Remainders(ranked) && i < |ranked| && i < leftover
    ensures ranked[i].remainder > 0.0
  {
    if ranked[i].remainder == 0.0 {
      forall k | i <= k < |ranked|
        ensures ranked[k].remainder == 0.0
      {
        assert Split(ranked[k]);
        assert k > i ==> Before(ranked[i], ranked[k]);
      }
      RemaindersPrefix(ranked, i);
      RemaindersBound(ranked[..i]);
    }
    assert Split(ranked[i]);
  }

  /** A whole share fits below the reservation when the total does. */
  lemma {:induction false} ShareFits(c: Claim, total: int, allReserved: int)
    requires 0 <= total <= allReserved && 0 < c.reservedMb && allReserved > 0
    ensures var e := EstimateOf(c, total, allReserved);
      && 0 <= e.floorShare && e.floorShare + (if e.remainder > 0.0 then 1 else 0) <= c.reservedMb
  {
    var t, r, all := total as real, c.reservedMb as real, allReserved as real;
    var part := r / all;
    assert part * all == r;
    assert part > 0.0;
    assert t * part <= all * part;
    assert t * part >= 0.0;
  }

  /** The rank's award is the floor or the ceiling of the exact share, the ceiling only for a fraction, and the clamp to
      the reservation changes nothing. */
  ghost predicate FairAt(e: Estimate, award: int) {
    && (award == e.floorShare || (award == e.floorShare + 1 && e.remainder > 0.0))
    && 0 <= award <= e.reservedMb
  }

  ghost predicate FromClaims(e: Estimate, claims: seq<Claim>, total: int, allReserved: int)
    requires allReserved > 0
  {
    exists c :: c in claims && e == EstimateOf(c, total, allReserved)
  }

  lemma {:induction false} RankedFromClaims(claims: seq<Claim>, total: int, allReserved: int)
    requires allReserved > 0
    ensures var ranked := Ranked(claims, total, allReserved);
      && Sorted(ranked, Before) && |ranked| == |claims|
      && multiset(ranked) == multiset(Estimates(claims, total, allReserved))
      && forall i :: 0 <= i < |ranked| ==> Split(ranked[i]) && FromClaims(ranked[i], claims, total, allReserved)
  {
    var es, ranked := Estimates(claims, total, allReserved), Ranked(claims, total, allReserved);
    BeforeTotalPreorder();
    StableSortCorrect(es, Before);
    SameElements(es, ranked);
    forall i | 0 <= i < |ranked|
      ensures Split(ranked[i]) && FromClaims(ranked[i], claims, total, allReserved)
    {
      assert ranked[i] in es;
      var k :| 0 <= k < |es| && es[k] == ranked[i];
      assert claims[k] in claims;
    }
  }

  lemma {:induction false} AwardIsFair(claims: seq<Claim>, total: int, i: nat)
    requires Sound(claims) && claims != [] && 0 < total <= Reserved(claims) && i < |claims|
    ensures var all := Reserved(claims); var ranked := Ranked(claims, total, all);
      i < |ranked| && FairAt(ranked[i], AwardAt(ranked[i], i, Leftover(claims, total, all)))
      && AwardAt(ranked[i], i, Leftover(claims, total, all)) == ranked[i].floorShare + (if i < Leftover(claims, total, all) then 1 else 0)
  {
    var all := Reserved(claims);
    var ranked := Ranked(claims, total, all);
    RankedFromClaims(claims, total, all);
    LeftoverIsRemainders(claims, total);
    SortSums(Estimates(claims, total, all));
    if i < Leftover(claims, total, all) {
      OnlyFractionsRoundUp(ranked, Leftover(claims, total, all), i);
    }
    var c :| c in claims && ranked[i] == EstimateOf(c, total, all);
    ShareFits(c, total, all);
  }

  function Bonus(n: nat, leftover: int): int {
    if leftover <= 0 then 0 else if n <= leftover then n else leftover
  }

  predicate UnclampedAt(ranked: seq<Estimate>, leftover: int, i: nat)
    requires i < |ranked|
  {
    AwardAt(ranked[i], i, leftover) == ranked[i].floorShare + (if i < leftover then 1 else 0)
  }

  lemma {:induction false} TotalSnoc(front: seq<Estimate>, e: Estimate, leftover: int)
    ensures AwardedTotal(front + [e], leftover) == AwardedTotal(front, leftover) + AwardAt(e, |front|, leftover)
    ensures Floors(front + [e]) == Floors(front) + e.floorShare
  {
  }

  lemma {:induction false} AwardedUpTo(ranked: seq<Estimate>, leftover: int, n: nat)
    requires n <= |ranked| && forall i :: 0 <= i < |ranked| ==> UnclampedAt(ranked, leftover, i)
    ensures AwardedTotal(ranked[..n], leftover) == Floors(ranked[..n]) + Bonus(n, leftover)
    decreases n
  {
    if n > 0 {
      AwardedUpTo(ranked, leftover, n - 1);
      assert UnclampedAt(ranked, leftover, n - 1);
      TotalSnoc(ranked[..n - 1], ranked[n - 1], leftover);
      assert ranked[..n] == ranked[..n - 1] + [ranked[n - 1]];
    }
  }

  /** EXACT TOTAL. The awards add up to the total. */
  lemma {:induction false} AwardsAddUp(claims: seq<Claim>, total: int)
    requires Sound(claims) && claims != [] && 0 < total <= Reserved(claims)
    ensures AwardedTotal(Ranked(claims, total, Reserved(claims)), Leftover(claims, total, Reserved(claims))) == total
  {
    var all := Reserved(claims);
    var ranked := Ranked(claims, total, all);
    RankedFromClaims(claims, total, all);
    forall i | 0 <= i < |ranked|
      ensures UnclampedAt(ranked, Leftover(claims, total, all), i)
    {
      AwardIsFair(claims, total, i);
    }
    AwardedUpTo(ranked, Leftover(claims, total, all), |ranked|);
    assert ranked[..|ranked|] == ranked;
    LeftoverIsRemainders(claims, total);
    SortSums(Estimates(claims, total, all));
    RemaindersBound(ranked);
  }

  // ---------------------------------------------------------------------------
  // By key
  // ---------------------------------------------------------------------------

  function KeysOf(claims: seq<Claim>): seq<string> {
    seq(|claims|, i requires 0 <= i < |claims| => claims[i].key)
  }

  function RankKeys(es: seq<Estimate>): seq<string> {
    seq(|es|, i requires 0 <= i < |es| => es[i].key)
  }

  lemma {:induction false} RankKeysDistinct(claims: seq<Claim>, total: int, allReserved: int)
    requires allReserved > 0 && NoDup(KeysOf(claims))
    ensures NoDup(RankKeys(Ranked(claims, total, allReserved)))
    ensures forall k :: k in RankKeys(Ranked(claims, total, allReserved)) <==> k in KeysOf(claims)
  {
    var es, ranked := Estimates(claims, total, allReserved), Ranked(claims, total, allReserved);
    RankedFromClaims(claims, total, allReserved);
    forall i, j | 0 <= i < j < |es|
      ensures es[i] != es[j]
    {
      assert Apart(KeysOf(claims), i, j);
    }
    SortKeepsDistinct(es, ranked);
    SameElements(es, ranked);
    forall i, j | 0 <= i < j < |ranked|
      ensures Apart(RankKeys(ranked), i, j)
    {
      var a :| a in claims && ranked[i] == EstimateOf(a, total, allReserved);
      var b :| b in claims && ranked[j] == EstimateOf(b, total, allReserved);
      if ranked[i].key == ranked[j].key {
        SameKeySameClaim(claims, a, b);
      }
    }
    forall k
      ensures k in RankKeys(ranked) <==> k in KeysOf(claims)
    {
      if k in KeysOf(claims) {
        var i := IndexOf(KeysOf(claims), k);
        assert es[i] in ranked;
        var j :| 0 <= j < |ranked| && ranked[j] == es[i];
        assert RankKeys(ranked)[j] == k;
      }
      if k in RankKeys(ranked) {
        var j := IndexOf(RankKeys(ranked), k);
        var c :| c in claims && ranked[j] == EstimateOf(c, total, allReserved);
        var i :| 0 <= i < |claims| && claims[i] == c;
        assert KeysOf(claims)[i] == k;
      }
    }
  }

  lemma {:induction false} SameKeySameClaim(claims: seq<Claim>, a: Claim, b: Claim)
    requires NoDup(KeysOf(claims)) && a in claims && b in claims && a.key == b.key
    ensures a == b
  {
    var i :| 0 <= i < |claims| && claims[i] == a;
    var j :| 0 <= j < |claims| && claims[j] == b;
    assert i < j ==> Apart(KeysOf(claims), i, j);
    assert j < i ==> Apart(KeysOf(claims), j, i);
  }

  lemma {:induction false} AwardsByKey(ranked: seq<Estimate>, leftover: int, i: nat)
    requires NoDup(RankKeys(ranked)) && i < |ranked|
    ensures ranked[i].key in Awards(ranked, leftover) && Awards(ranked, leftover)[ranked[i].key] == AwardAt(ranked[i], i, leftover)
    decreases |ranked|
  {
    var front := Init(ranked);
    assert NoDup(RankKeys(front)) by {
      forall k, l | 0 <= k < l < |front|
        ensures Apart(RankKeys(front), k, l)
      {
        assert Apart(RankKeys(ranked), k, l);
      }
    }
    if i < |front| {
      AwardsByKey(front, leftover, i);
      assert Apart(RankKeys(ranked), i, |front|);
    }
  }

  /** What each claim is given. */
  function AwardsOf(claims: seq<Claim>, total: int): map<string, int>
    requires Reserved(claims) > 0
  {
    Awards(Ranked(claims, total, Reserved(claims)), Leftover(claims, total, Reserved(claims)))
  }

  /** FAIR SHARES. Every claim gets the floor of its exact share or, only if that has a fraction, the ceiling; and never
      more than it reserved, so the clamp changes nothing. */
  lemma {:induction false} AwardsAreFair(claims: seq<Claim>, total: int, c: Claim)
    requires Sound(claims) && NoDup(KeysOf(claims)) && c in claims && 0 < total <= Reserved(claims)
    ensures var awards, e := AwardsOf(claims, total), EstimateOf(c, total, Reserved(claims));
      && c.key in awards && FairAt(e, awards[c.key])
  {
    var i := RankOf(claims, total, c);
    AwardIsFair(claims, total, i);
  }

  lemma {:induction false} RankOf(claims: seq<Claim>, total: int, c: Claim) returns (i: nat)
    requires NoDup(KeysOf(claims)) && c in claims && Reserved(claims) > 0
    ensures var all := Reserved(claims); var ranked, left := Ranked(claims, total, all), Leftover(claims, total, all);
      && i < |claims| == |ranked| && ranked[i] == EstimateOf(c, total, all)
      && c.key in AwardsOf(claims, total) && AwardsOf(claims, total)[c.key] == AwardAt(ranked[i], i, left)
  {
    var all := Reserved(claims);
    var es, ranked := Estimates(claims, total, all), Ranked(claims, total, all);
    RankedFromClaims(claims, total, all);
    RankKeysDistinct(claims, total, all);
    var k :| 0 <= k < |claims| && claims[k] == c;
    SameElements(es, ranked);
    assert es[k] in ranked;
    i :| 0 <= i < |ranked| && ranked[i] == es[k];
    AwardsByKey(ranked, Leftover(claims, total, all), i);
  }

  /** The larger fraction is rounded up first. */
  lemma {:induction false} LargestFractionsFirst(claims: seq<Claim>, total: int, c: Claim, d: Claim)
    requires Sound(claims) && NoDup(KeysOf(claims)) && c in claims && d in claims && 0 < total <= Reserved(claims)
    requires c.key in AwardsOf(claims, total) && d.key in AwardsOf(claims, total)
    requires var e, f := EstimateOf(c, total, Reserved(claims)), EstimateOf(d, total, Reserved(claims));
      AwardsOf(claims, total)[c.key] > e.floorShare && AwardsOf(claims, total)[d.key] == f.floorShare
    ensures Before(EstimateOf(c, total, Reserved(claims)), EstimateOf(d, total, Reserved(claims)))
  {
    var i := RankOf(claims, total, c);
    var j := RankOf(claims, total, d);
    AwardIsFair(claims, total, i);
    AwardIsFair(claims, total, j);
    RankedFromClaims(claims, total, Reserved(claims));
  }

  // ---------------------------------------------------------------------------
  // The total, in the order of the claims
  // ---------------------------------------------------------------------------

  function AwardOf(awards: map<string, int>, key: string): int {
    if key in awards then awards[key] else 0
  }

  function AwardSum(claims: seq<Claim>, awards: map<string, int>): int {
    if claims == [] then 0 else AwardSum(Init(claims), awards) + AwardOf(awards, Last(claims).key)
  }

  function KeySum(es: seq<Estimate>, awards: map<string, int>): int {
    if es == [] then 0 else KeySum(Init(es), awards) + AwardOf(awards, Last(es).key)
  }

  lemma {:induction false} KeySumCons(x: Estimate, es: seq<Estimate>, awards: map<string, int>)
    ensures KeySum([x] + es, awards) == KeySum(es, awards) + AwardOf(awards, x.key)
    decreases |es|
  {
    if es == [] {
      assert [x] + es == [x] && Init([x]) == [];
    } else {
      KeySumCons(x, Init(es), awards);
      assert Init([x] + es) == [x] + Init(es) && Last([x] + es) == Last(es);
    }
  }

  lemma {:induction false} KeySumInsert(x: Estimate, es: seq<Estimate>, awards: map<string, int>)
    ensures KeySum(Insert(x, es, Before), awards) == KeySum(es, awards) + AwardOf(awards, x.key)
  {
    if es == [] || Before(x, es[0]) {
      KeySumCons(x, es, awards);
    } else {
      KeySumInsert(x, es[1..], awards);
      KeySumCons(es[0], Insert(x, es[1..], Before), awards);
      KeySumCons(es[0], es[1..], awards);
      assert [es[0]] + es[1..] == es;
    }
  }

  lemma {:induction false} KeySumSort(es: seq<Estimate>, awards: map<string, int>)
    ensures KeySum(StableSort(es, Before), awards) == KeySum(es, awards)
    decreases |es|
  {
    if es != [] {
      KeySumSort(es[1..], awards);
      KeySumInsert(es[0], StableSort(es[1..], Before), awards);
      KeySumCons(es[0], es[1..], awards);
      assert [es[0]] + es[1..] == es;
    }
  }

  lemma {:induction false} KeySumOfEstimates(claims: seq<Claim>, total: int, allReserved: int, awards: map<string, int>)
    requires allReserved > 0
    ensures KeySum(Estimates(claims, total, allReserved), awards) == AwardSum(claims, awards)
    decreases |claims|
  {
    if claims != [] {
      KeySumOfEstimates(Init(claims), total, allReserved, awards);
      InitSnoc(Estimates(Init(claims), total, allReserved), EstimateOf(Last(claims), total, allReserved));
    }
  }

  predicate AwardedAt(ranked: seq<Estimate>, leftover: int, awards: map<string, int>, i: nat)
    requires i < |ranked|
  {
    AwardOf(awards, ranked[i].key) == AwardAt(ranked[i], i, leftover)
  }

  lemma {:induction false} KeySumOfRanked(ranked: seq<Estimate>, leftover: int, awards: map<string, int>, n: nat)
    requires n <= |ranked| && forall i :: 0 <= i < |ranked| ==> AwardedAt(ranked, leftover, awards, i)
    ensures KeySum(ranked[..n], awards) == AwardedTotal(ranked[..n], leftover)
    decreases n
  {
    if n > 0 {
      KeySumOfRanked(ranked, leftover, awards, n - 1);
      assert AwardedAt(ranked, leftover, awards, n - 1);
      TotalSnoc(ranked[..n - 1], ranked[n - 1], leftover);
      InitSnoc(ranked[..n - 1], ranked[n - 1]);
      assert ranked[..n] == ranked[..n - 1] + [ranked[n - 1]];
    }
  }

  /** CONSERVATION. What the claims are given adds up to exactly the total. */
  lemma {:induction false} SharesAddUp(claims: seq<Claim>, total: int)
    requires Sound(claims) && NoDup(KeysOf(claims)) && claims != [] && 0 < total <= Reserved(claims)
    ensures AwardSum(claims, AwardsOf(claims, total)) == total
  {
    var all := Reserved(claims);
    var ranked, leftover, awards := Ranked(claims, total, all), Leftover(claims, total, all), AwardsOf(claims, total);
    RankKeysDistinct(claims, total, all);
    forall i | 0 <= i < |ranked|
      ensures AwardedAt(ranked, leftover, awards, i)
    {
      AwardsByKey(ranked, leftover, i);
    }
    KeySumOfRanked(ranked, leftover, awards, |ranked|);
    assert ranked[..|ranked|] == ranked;
    KeySumSort(Estimates(claims, total, all), awards);
    KeySumOfEstimates(claims, total, all, awards);
    AwardsAddUp(claims, total);
  }
}
