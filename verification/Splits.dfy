/**
 The split calculators: how an amount becomes one share per participant.  EQUAL
 leaves the division remainder to the payer; EXACT copies; PERCENT and SHARES use
 the largest-remainder method, whose result is proved to add up, to stay within
 one minor unit of the exact proportion, to favour nobody with a smaller claim,
 and not to depend on the order of the participants.
 */
module Splits {
  import opened Wrappers
  import opened Sums
  import opened Sorting
  import opened Ledger

  datatype SplitType = EQUAL | EXACT | PERCENT | SHARES

  /** A participant with the figure their split type reads: an exact amount, basis points or share units. */
  datatype Raw = Raw(userId: UserId, figure: Option<int>)

  datatype Split = Shares(portions: seq<Portion>) | Refused

  const TOTAL_BASIS_POINTS := 10_000
  const MAX_SHARE_UNITS := 1_000_000

  // ── EQUAL ──────────────────────────────────────────────────────────────────

  function EqualShare(payer: UserId, payerShare: int, baseShare: int): UserId -> int {
    (u: UserId) => if u == payer then payerShare else baseShare
  }

  function Portions(ids: seq<UserId>, share: UserId -> int): seq<Portion> {
    seq(|ids|, i requires 0 <= i < |ids| => Portion(ids[i], share(ids[i])))
  }

  function SplitEqual(amountMinor: int, ids: seq<UserId>, payer: UserId): Split {
    if amountMinor <= 0 || ids == [] || payer !in ids then Refused
    else
      var n := |ids|;
      var baseShare := amountMinor / n;
      Shares(Portions(ids, EqualShare(payer, amountMinor - baseShare * (n - 1), baseShare)))
  }

  lemma {:induction false} PortionsTotal(ids: seq<UserId>, share: UserId -> int)
    ensures Total(Portions(ids, share)) == Sum(ids, share)
  {
    if ids != [] {
      var n := |ids| - 1;
      assert Portions(ids, share)[..n] == Portions(ids[..n], share);
      PortionsTotal(ids[..n], share);
    }
  }

  function Listed(payer: UserId): UserId -> int { (u: UserId) => if u == payer then 1 else 0 }

  lemma {:induction false} EqualTotal(ids: seq<UserId>, payer: UserId, baseShare: int, spare: int)
    ensures Sum(ids, EqualShare(payer, baseShare + spare, baseShare)) == baseShare * |ids| + spare * Sum(ids, Listed(payer))
  {
    if ids != [] {
      EqualTotal(ids[..|ids| - 1], payer, baseShare, spare);
    }
  }

  lemma {:induction false} ListedOften(ids: seq<UserId>, payer: UserId)
    ensures Sum(ids, Listed(payer)) >= if payer in ids then 1 else 0
  {
    if ids != [] {
      Snoc(ids);
      ListedOften(ids[..|ids| - 1], payer);
    }
  }

  lemma RemainderLost(spare: int, times: int, n: int)
    requires 0 <= spare < n && times >= 1
    ensures spare * times == spare <==> times == 1 || spare == 0
  {
    if spare * times == spare {
      assert spare * (times - 1) == 0;
    }
  }

  lemma EqualTotalIff(amountMinor: int, ids: seq<UserId>, payer: UserId, baseShare: int, spare: int)
    requires payer in ids && amountMinor == baseShare * |ids| + spare && 0 <= spare < |ids|
    ensures Sum(ids, EqualShare(payer, baseShare + spare, baseShare)) == amountMinor
            <==> Sum(ids, Listed(payer)) == 1 || spare == 0
  {
    EqualTotal(ids, payer, baseShare, spare);
    ListedOften(ids, payer);
    RemainderLost(spare, Sum(ids, Listed(payer)), |ids|);
  }

  lemma PayerShare(amountMinor: int, n: int) returns (baseShare: int, spare: int)
    requires n > 0
    ensures baseShare == amountMinor / n && spare == amountMinor % n
    ensures amountMinor == baseShare * n + spare && 0 <= spare < n
    ensures amountMinor - baseShare * (n - 1) == baseShare + spare
  {
    baseShare, spare := amountMinor / n, amountMinor % n;
    assert baseShare * (n - 1) == baseShare * n - baseShare;
  }

  /** The payer alone carries what division leaves over. */
  lemma EqualShareAt(amountMinor: int, ids: seq<UserId>, payer: UserId, i: nat)
    requires amountMinor > 0 && payer in ids && i < |ids|
    ensures SplitEqual(amountMinor, ids, payer).Shares?
    ensures SplitEqual(amountMinor, ids, payer).portions[i] ==
      Portion(ids[i], amountMinor / |ids| + if ids[i] == payer then amountMinor % |ids| else 0)
  {
    var baseShare, spare := PayerShare(amountMinor, |ids|);
  }

  /** An equal split adds up exactly when the payer is listed once or nothing is left over. */
  lemma EqualAddsUpIff(amountMinor: int, ids: seq<UserId>, payer: UserId)
    requires amountMinor > 0 && payer in ids
    ensures SplitEqual(amountMinor, ids, payer).Shares?
    ensures Total(SplitEqual(amountMinor, ids, payer).portions) == amountMinor
            <==> Sum(ids, Listed(payer)) == 1 || amountMinor % |ids| == 0
  {
    var baseShare, spare := PayerShare(amountMinor, |ids|);
    PortionsTotal(ids, EqualShare(payer, baseShare + spare, baseShare));
    EqualTotalIff(amountMinor, ids, payer, baseShare, spare);
  }

  // ── Figures ────────────────────────────────────────────────────────────────

  function Figure(): Raw -> int { (p: Raw) => if p.figure.Some? then p.figure.value else 0 }

  function TotalFigures(ps: seq<Raw>): int { Sum(ps, Figure()) }

  predicate FiguresWithin(ps: seq<Raw>, lo: int, hi: Option<int>) {
    forall i :: 0 <= i < |ps| ==>
      ps[i].figure.Some? && lo <= ps[i].figure.value && (hi.Some? ==> ps[i].figure.value <= hi.value)
  }

  lemma FiguresNext(ps: seq<Raw>, i: nat, lo: int, hi: Option<int>)
    requires i < |ps| && FiguresWithin(ps[..i], lo, hi)
    ensures FiguresWithin(ps[..i + 1], lo, hi) <==> FiguresWithin([ps[i]], lo, hi)
    ensures FiguresWithin(ps, lo, hi) ==> FiguresWithin([ps[i]], lo, hi)
  {
    var next := ps[..i + 1];
    assert forall k :: 0 <= k < i ==> next[k] == ps[..i][k];
    assert next[i] == ps[i] == [ps[i]][0];
  }

  /** The validation loop of the calculators: the total, or nothing when a figure is missing or out of range. */
  method SumFigures(ps: seq<Raw>, lo: int, hi: Option<int>) returns (total: Option<int>)
    ensures total == if FiguresWithin(ps, lo, hi) then Some(TotalFigures(ps)) else None
  {
    var sum := 0;
    for i := 0 to |ps|
      invariant FiguresWithin(ps[..i], lo, hi)
      invariant sum == TotalFigures(ps[..i])
    {
      SumPrefixStep(ps, Figure(), i);
      FiguresNext(ps, i, lo, hi);
      var figure := ps[i].figure;
      if figure.None? || figure.value < lo || (hi.Some? && figure.value > hi.value) { return None; }
      sum := sum + figure.value;
    }
    assert ps[..|ps|] == ps;
    return Some(sum);
  }

  // ── Largest remainder ──────────────────────────────────────────────────────

  /** A participant's fractional part, as the numerator over the total of the figures. */
  datatype Claim = Claim(userId: UserId, remainder: int)

  function FloorOf(amountMinor: nat, denom: int): Raw -> int
    requires denom > 0
  {
    (p: Raw) => Figure()(p) * amountMinor / denom
  }

  function RemainderOf(amountMinor: nat, denom: int): Raw -> int
    requires denom > 0
  {
    (p: Raw) => Figure()(p) * amountMinor % denom
  }

  function Claims(ps: seq<Raw>, amountMinor: nat, denom: int): seq<Claim>
    requires denom > 0
  {
    seq(|ps|, i requires 0 <= i < |ps| => Claim(ps[i].userId, RemainderOf(amountMinor, denom)(ps[i])))
  }

  /** Largest fractional part first, then the smaller id. */
  function ByRemainder(): (Claim, Claim) -> bool {
    (a: Claim, b: Claim) => a.remainder > b.remainder || (a.remainder == b.remainder && a.userId <= b.userId)
  }

  function Ranked(ps: seq<Raw>, amountMinor: nat, denom: int): seq<Claim>
    requires denom > 0
  {
    Sort(Claims(ps, amountMinor, denom), ByRemainder())
  }

  /** What the floors leave undistributed. */
  function Extra(ps: seq<Raw>, amountMinor: nat, denom: int): int
    requires denom > 0
  {
    amountMinor - Sum(ps, FloorOf(amountMinor, denom))
  }

  function Receivers(ps: seq<Raw>, amountMinor: nat): set<UserId>
    requires Proportional(ps)
  {
    var denom := TotalFigures(ps);
    TotalIsPositive(ps);
    ExtraFits(ps, amountMinor);
    set c | c in Ranked(ps, amountMinor, denom)[..Extra(ps, amountMinor, denom)] :: c.userId
  }

  function ShareOf(ps: seq<Raw>, amountMinor: nat): Raw -> int
    requires Proportional(ps)
  {
    TotalIsPositive(ps);
    (p: Raw) => FloorOf(amountMinor, TotalFigures(ps))(p) + if p.userId in Receivers(ps, amountMinor) then 1 else 0
  }

  function LargestRemainder(ps: seq<Raw>, amountMinor: nat): seq<Portion>
    requires Proportional(ps)
  {
    seq(|ps|, i requires 0 <= i < |ps| => Portion(ps[i].userId, ShareOf(ps, amountMinor)(ps[i])))
  }

  /** Some participants, each with a positive figure. */
  predicate Proportional(ps: seq<Raw>) {
    ps != [] && FiguresWithin(ps, 1, None)
  }

  lemma {:induction false} TotalAtLeastCount(ps: seq<Raw>)
    requires FiguresWithin(ps, 1, None)
    ensures TotalFigures(ps) >= |ps|
  {
    if ps != [] {
      TotalAtLeastCount(ps[..|ps| - 1]);
    }
  }

  lemma TotalIsPositive(ps: seq<Raw>)
    requires Proportional(ps)
    ensures TotalFigures(ps) > 0
  {
    TotalAtLeastCount(ps);
  }

  lemma DivisionStep(figure: int, amountMinor: nat, denom: int, floors: int, remainders: int, total: int)
    requires denom > 0 && floors * denom + remainders == amountMinor * total
    ensures (floors + figure * amountMinor / denom) * denom + (remainders + figure * amountMinor % denom)
            == amountMinor * (total + figure)
  {
    var product := figure * amountMinor;
    assert product == denom * (product / denom) + product % denom;
    assert (floors + product / denom) * denom == floors * denom + denom * (product / denom);
    assert amountMinor * (total + figure) == amountMinor * total + product;
  }

  /** The floors and the remainders together are the whole amount. */
  lemma {:induction false} DivisionAddsUp(ps: seq<Raw>, amountMinor: nat, denom: int)
    requires denom > 0
    ensures Sum(ps, FloorOf(amountMinor, denom)) * denom + Sum(ps, RemainderOf(amountMinor, denom)) == amountMinor * TotalFigures(ps)
  {
    if ps != [] {
      var init, last := ps[..|ps| - 1], ps[|ps| - 1];
      DivisionAddsUp(init, amountMinor, denom);
      DivisionStep(Figure()(last), amountMinor, denom, Sum(init, FloorOf(amountMinor, denom)),
        Sum(init, RemainderOf(amountMinor, denom)), TotalFigures(init));
    }
  }

  lemma MulSucc(n: int, d: int)
    ensures (n + 1) * d == n * d + d
  {
  }

  /** No remainder reaches the denominator. */
  lemma {:induction false} RemaindersBounded(ps: seq<Raw>, amountMinor: nat, denom: int)
    requires denom > 0
    ensures 0 <= Sum(ps, RemainderOf(amountMinor, denom)) <= |ps| * (denom - 1)
  {
    if ps != [] {
      var init := ps[..|ps| - 1];
      RemaindersBounded(init, amountMinor, denom);
      MulSucc(|init|, denom - 1);
    }
  }

  lemma MulAtLeast(a: int, b: int, d: int)
    requires d > 0 && a >= b
    ensures a * d >= b * d
  {
  }

  lemma SurplusFits(amountMinor: int, floors: int, remainders: int, denom: int, n: nat)
    requires denom > 0 && n > 0
    requires floors * denom + remainders == amountMinor * denom
    requires 0 <= remainders <= n * (denom - 1)
    ensures 0 <= amountMinor - floors < n
    ensures (amountMinor - floors) * denom == remainders
  {
    var extra := amountMinor - floors;
    assert extra * denom == amountMinor * denom - floors * denom;
    assert n * (denom - 1) == n * denom - n;
    if extra >= n {
      MulAtLeast(extra, n, denom);
    } else if extra < 0 {
      MulAtLeast(-1, extra, denom);
    }
  }

  /** The surplus is between 0 and one less than the number of participants. */
  lemma ExtraFits(ps: seq<Raw>, amountMinor: nat)
    requires Proportional(ps)
    ensures TotalFigures(ps) > 0
    ensures var denom := TotalFigures(ps); var extra := Extra(ps, amountMinor, denom);
            && 0 <= extra < |ps|
            && extra * denom == Sum(ps, RemainderOf(amountMinor, denom))
  {
    TotalIsPositive(ps);
    var denom := TotalFigures(ps);
    DivisionAddsUp(ps, amountMinor, denom);
    RemaindersBounded(ps, amountMinor, denom);
    SurplusFits(amountMinor, Sum(ps, FloorOf(amountMinor, denom)), Sum(ps, RemainderOf(amountMinor, denom)), denom, |ps|);
  }

  // ── The shares add up ──────────────────────────────────────────────────────

  ghost predicate DistinctRaw(ps: seq<Raw>) {
    forall i, j :: 0 <= i < j < |ps| ==> ps[i].userId != ps[j].userId
  }

  ghost predicate DistinctClaims(cs: seq<Claim>) {
    forall i, j :: 0 <= i < j < |cs| ==> cs[i].userId != cs[j].userId
  }

  function Holds(u: UserId): Claim -> int { (c: Claim) => if c.userId == u then 1 else 0 }

  function Award(receivers: set<UserId>): Claim -> int { (c: Claim) => if c.userId in receivers then 1 else 0 }

  function AwardTo(receivers: set<UserId>): Raw -> int { (p: Raw) => if p.userId in receivers then 1 else 0 }

  lemma {:induction false} HoldCount(cs: seq<Claim>, u: UserId)
    ensures (forall i :: 0 <= i < |cs| ==> cs[i].userId != u) ==> Sum(cs, Holds(u)) == 0
    ensures Sum(cs, Holds(u)) >= 0
    ensures forall i :: 0 <= i < |cs| && cs[i].userId == u ==> Sum(cs, Holds(u)) >= 1
    ensures forall i, j :: 0 <= i < j < |cs| && cs[i].userId == u == cs[j].userId ==> Sum(cs, Holds(u)) >= 2
    ensures DistinctClaims(cs) ==> Sum(cs, Holds(u)) <= 1
  {
    if cs != [] {
      var n := |cs| - 1;
      HoldCount(cs[..n], u);
      if DistinctClaims(cs) && cs[n].userId == u {
        forall i | 0 <= i < n ensures cs[..n][i].userId != u {
          assert cs[i].userId != cs[n].userId;
        }
      }
    }
  }

  lemma DistinctRanked(xs: seq<Claim>, ys: seq<Claim>)
    requires multiset(xs) == multiset(ys) && DistinctClaims(xs)
    ensures DistinctClaims(ys)
  {
    forall i, j | 0 <= i < j < |ys| ensures ys[i].userId != ys[j].userId {
      HoldCount(xs, ys[i].userId);
      HoldCount(ys, ys[i].userId);
      SumPermuted(xs, ys, Holds(ys[i].userId));
    }
  }

  lemma {:induction false} AllAwarded(cs: seq<Claim>, receivers: set<UserId>)
    requires forall i :: 0 <= i < |cs| ==> cs[i].userId in receivers
    ensures Sum(cs, Award(receivers)) == |cs|
  {
    if cs != [] {
      AllAwarded(cs[..|cs| - 1], receivers);
    }
  }

  lemma FirstReceive(cs: seq<Claim>, n: nat, receivers: set<UserId>)
    requires DistinctClaims(cs) && n <= |cs| && receivers == set c | c in cs[..n] :: c.userId
    ensures forall i :: 0 <= i < |cs| ==> (cs[i].userId in receivers <==> i < n)
  {
    forall i | 0 <= i < |cs| ensures cs[i].userId in receivers <==> i < n {
      if i < n {
        assert cs[..n][i] in cs[..n];
      } else {
        forall c | c in cs[..n] ensures c.userId != cs[i].userId {
          var k :| 0 <= k < n && cs[..n][k] == c;
          assert cs[k].userId != cs[i].userId;
        }
      }
    }
  }

  lemma {:induction false} NoneAwarded(cs: seq<Claim>, receivers: set<UserId>)
    requires forall i :: 0 <= i < |cs| ==> cs[i].userId !in receivers
    ensures Sum(cs, Award(receivers)) == 0
  {
    if cs != [] {
      NoneAwarded(cs[..|cs| - 1], receivers);
    }
  }

  /** Of distinct claims, exactly the first `n` are awarded. */
  lemma FirstAwarded(cs: seq<Claim>, n: nat, receivers: set<UserId>)
    requires DistinctClaims(cs) && n <= |cs| && receivers == set c | c in cs[..n] :: c.userId
    ensures Sum(cs, Award(receivers)) == n
    ensures forall i :: 0 <= i < |cs| ==> (cs[i].userId in receivers <==> i < n)
  {
    FirstReceive(cs, n, receivers);
    AllAwarded(cs[..n], receivers);
    NoneAwarded(cs[n..], receivers);
    SumConcat(cs[..n], cs[n..], Award(receivers));
    assert cs == cs[..n] + cs[n..];
  }

  lemma {:induction false} AwardsOverClaims(ps: seq<Raw>, amountMinor: nat, denom: int, receivers: set<UserId>)
    requires denom > 0
    ensures Sum(Claims(ps, amountMinor, denom), Award(receivers)) == Sum(ps, AwardTo(receivers))
  {
    if ps != [] {
      var n := |ps| - 1;
      assert Claims(ps, amountMinor, denom)[..n] == Claims(ps[..n], amountMinor, denom);
      AwardsOverClaims(ps[..n], amountMinor, denom, receivers);
    }
  }

  lemma {:induction false} TotalOfShares(ps: seq<Raw>, share: Raw -> int)
    ensures Total(seq(|ps|, i requires 0 <= i < |ps| => Portion(ps[i].userId, share(ps[i])))) == Sum(ps, share)
  {
    var all := seq(|ps|, i requires 0 <= i < |ps| => Portion(ps[i].userId, share(ps[i])));
    if ps != [] {
      var n := |ps| - 1;
      TotalOfShares(ps[..n], share);
      assert all[..n] == seq(n, i requires 0 <= i < n => Portion(ps[..n][i].userId, share(ps[..n][i])));
    }
  }

  /** Who ranks before the cut gets the extra unit. */
  lemma ReceiversAreFirst(ps: seq<Raw>, amountMinor: nat)
    requires Proportional(ps) && DistinctRaw(ps)
    ensures TotalFigures(ps) > 0
    ensures var denom := TotalFigures(ps); var ranked := Ranked(ps, amountMinor, denom);
            && DistinctClaims(ranked)
            && Sum(ranked, Award(Receivers(ps, amountMinor))) == Extra(ps, amountMinor, denom)
            && forall i :: 0 <= i < |ranked| ==>
                 (ranked[i].userId in Receivers(ps, amountMinor) <==> i < Extra(ps, amountMinor, denom))
  {
    ExtraFits(ps, amountMinor);
    var denom := TotalFigures(ps);
    var claims := Claims(ps, amountMinor, denom);
    DistinctRanked(claims, Ranked(ps, amountMinor, denom));
    FirstAwarded(Ranked(ps, amountMinor, denom), Extra(ps, amountMinor, denom), Receivers(ps, amountMinor));
  }

  /** The largest-remainder shares of distinct participants sum to the amount. */
  lemma LargestRemainderAddsUp(ps: seq<Raw>, amountMinor: nat)
    requires Proportional(ps) && DistinctRaw(ps)
    ensures Total(LargestRemainder(ps, amountMinor)) == amountMinor
  {
    ReceiversAreFirst(ps, amountMinor);
    var denom, receivers := TotalFigures(ps), Receivers(ps, amountMinor);
    TotalOfShares(ps, ShareOf(ps, amountMinor));
    SumLinear(ps, FloorOf(amountMinor, denom), AwardTo(receivers), ShareOf(ps, amountMinor));
    AwardsOverClaims(ps, amountMinor, denom, receivers);
    SumPermuted(Claims(ps, amountMinor, denom), Ranked(ps, amountMinor, denom), Award(receivers));
  }

  // ── How close each share is to the exact proportion ────────────────────────

  function ClaimRemainder(): Claim -> int { (c: Claim) => c.remainder }

  lemma {:induction false} RemaindersOverClaims(ps: seq<Raw>, amountMinor: nat, denom: int)
    requires denom > 0
    ensures Sum(Claims(ps, amountMinor, denom), ClaimRemainder()) == Sum(ps, RemainderOf(amountMinor, denom))
  {
    if ps != [] {
      var n := |ps| - 1;
      assert Claims(ps, amountMinor, denom)[..n] == Claims(ps[..n], amountMinor, denom);
      RemaindersOverClaims(ps[..n], amountMinor, denom);
    }
  }

  ghost predicate RemaindersBelow(cs: seq<Claim>, denom: int) {
    forall i :: 0 <= i < |cs| ==> 0 <= cs[i].remainder < denom
  }

  lemma {:induction false} BoundedSum(cs: seq<Claim>, denom: int)
    requires denom > 0 && RemaindersBelow(cs, denom)
    ensures Sum(cs, ClaimRemainder()) <= |cs| * (denom - 1)
  {
    if cs != [] {
      BoundedSum(cs[..|cs| - 1], denom);
      MulSucc(|cs| - 1, denom - 1);
    }
  }

  lemma {:induction false} NothingLeft(cs: seq<Claim>)
    requires forall i :: 0 <= i < |cs| ==> cs[i].remainder == 0
    ensures Sum(cs, ClaimRemainder()) == 0
  {
    if cs != [] {
      NothingLeft(cs[..|cs| - 1]);
    }
  }

  lemma TooLittle(remainders: int, i: nat, extra: int, denom: int)
    requires denom > 0 && i < extra && remainders <= i * (denom - 1)
    ensures remainders < extra * denom
  {
    MulAtLeast(extra, i + 1, denom);
    MulSucc(i, denom);
    assert i * (denom - 1) == i * denom - i;
  }

  /** A claim with no fractional part never ranks before the cut. */
  lemma CutIsPositive(ranked: seq<Claim>, denom: int, extra: nat, i: nat)
    requires denom > 0 && RemaindersBelow(ranked, denom) && Sorted(ranked, ByRemainder())
    requires extra * denom == Sum(ranked, ClaimRemainder()) && i < extra && i < |ranked|
    ensures ranked[i].remainder > 0
  {
    assert ranked == ranked[..i] + ranked[i..];
    SumConcat(ranked[..i], ranked[i..], ClaimRemainder());
    BoundedSum(ranked[..i], denom);
    TooLittle(Sum(ranked[..i], ClaimRemainder()), i, extra, denom);
    if ranked[i].remainder == 0 {
      forall j | 0 <= j < |ranked[i..]| ensures ranked[i..][j].remainder == 0 {
        assert j > 0 ==> ByRemainder()(ranked[i], ranked[i + j]);
      }
      NothingLeft(ranked[i..]);
    }
  }

  lemma RemainderBelow(p: Raw, amountMinor: nat, denom: int)
    requires denom > 0
    ensures 0 <= RemainderOf(amountMinor, denom)(p) < denom
  {
  }

  lemma ClaimsBelow(ps: seq<Raw>, amountMinor: nat, denom: int)
    requires denom > 0
    ensures RemaindersBelow(Ranked(ps, amountMinor, denom), denom)
  {
    var claims, ranked := Claims(ps, amountMinor, denom), Ranked(ps, amountMinor, denom);
    SameMembers(claims, ranked);
    forall i | 0 <= i < |ranked| ensures 0 <= ranked[i].remainder < denom {
      assert ranked[i] in claims;
      var k :| 0 <= k < |claims| && claims[k] == ranked[i];
      RemainderBelow(ps[k], amountMinor, denom);
    }
  }

  lemma RankOf(ps: seq<Raw>, amountMinor: nat, denom: int, k: nat) returns (i: nat)
    requires denom > 0 && k < |ps|
    ensures i < |Ranked(ps, amountMinor, denom)|
    ensures Ranked(ps, amountMinor, denom)[i] == Claim(ps[k].userId, RemainderOf(amountMinor, denom)(ps[k]))
  {
    var claims, ranked := Claims(ps, amountMinor, denom), Ranked(ps, amountMinor, denom);
    SameMembers(claims, ranked);
    assert claims[k] in ranked;
    i :| 0 <= i < |ranked| && ranked[i] == claims[k];
  }

  /** Only a participant whose proportion is not whole receives an extra unit. */
  lemma ReceiverHasFraction(ps: seq<Raw>, amountMinor: nat, k: nat)
    requires Proportional(ps) && DistinctRaw(ps) && k < |ps|
    ensures TotalFigures(ps) > 0
    ensures ps[k].userId in Receivers(ps, amountMinor) ==> RemainderOf(amountMinor, TotalFigures(ps))(ps[k]) > 0
  {
    ReceiversAreFirst(ps, amountMinor);
    ExtraFits(ps, amountMinor);
    var denom := TotalFigures(ps);
    var ranked, extra := Ranked(ps, amountMinor, denom), Extra(ps, amountMinor, denom);
    RemaindersOverClaims(ps, amountMinor, denom);
    SumPermuted(Claims(ps, amountMinor, denom), ranked, ClaimRemainder());
    ClaimsBelow(ps, amountMinor, denom);
    var i := RankOf(ps, amountMinor, denom, k);
    if i < extra {
      CutIsPositive(ranked, denom, extra, i);
    }
  }

  lemma WithinOne(product: int, denom: int, extra: int)
    requires denom > 0 && 0 <= extra <= 1 && (extra == 1 ==> product % denom > 0)
    ensures -denom < denom * (product / denom + extra) - product < denom
  {
    assert product == denom * (product / denom) + product % denom;
    assert denom * (product / denom + extra) == denom * (product / denom) + denom * extra;
  }

  function Product(p: Raw, amountMinor: nat): int { Figure()(p) * amountMinor }

  lemma ShareAt(ps: seq<Raw>, amountMinor: nat, k: nat)
    requires Proportional(ps) && k < |ps|
    ensures TotalFigures(ps) > 0
    ensures LargestRemainder(ps, amountMinor)[k].minor ==
      Product(ps[k], amountMinor) / TotalFigures(ps) + if ps[k].userId in Receivers(ps, amountMinor) then 1 else 0
  {
    TotalIsPositive(ps);
    var denom, share := TotalFigures(ps), ShareOf(ps, amountMinor);
    assert FloorOf(amountMinor, denom)(ps[k]) == Product(ps[k], amountMinor) / denom;
    assert share(ps[k]) == FloorOf(amountMinor, denom)(ps[k]) + if ps[k].userId in Receivers(ps, amountMinor) then 1 else 0;
  }

  /**
   Every share is less than one minor unit away from the exact proportion
   figure / total of the amount; in particular a whole proportion is given exactly.
   */
  lemma QuotaRule(ps: seq<Raw>, amountMinor: nat, k: nat)
    requires Proportional(ps) && DistinctRaw(ps) && k < |ps|
    ensures var denom := TotalFigures(ps); var share := LargestRemainder(ps, amountMinor)[k].minor;
            -denom < denom * share - Product(ps[k], amountMinor) < denom
  {
    ReceiverHasFraction(ps, amountMinor, k);
    ShareAt(ps, amountMinor, k);
    WithinOne(Product(ps[k], amountMinor), TotalFigures(ps), if ps[k].userId in Receivers(ps, amountMinor) then 1 else 0);
  }

  lemma DivisionMonotone(a: int, b: int, denom: int)
    requires denom > 0 && a > b
    ensures a / denom > b / denom || (a / denom == b / denom && a % denom > b % denom)
  {
    assert a == denom * (a / denom) + a % denom;
    assert b == denom * (b / denom) + b % denom;
    MulSucc(a / denom, denom);
    if a / denom < b / denom {
      MulAtLeast(b / denom, a / denom + 1, denom);
    }
  }

  lemma LargerProduct(p: Raw, q: Raw, amountMinor: nat)
    requires Figure()(p) > Figure()(q) && amountMinor > 0
    ensures Product(p, amountMinor) > Product(q, amountMinor)
  {
    MulAtLeast(Figure()(p), Figure()(q) + 1, amountMinor);
    MulSucc(Figure()(q), amountMinor);
  }

  /** A participant with a larger figure never gets a smaller share. */
  lemma NoEnvy(ps: seq<Raw>, amountMinor: nat, k: nat, l: nat)
    requires Proportional(ps) && DistinctRaw(ps) && k < |ps| && l < |ps|
    requires Figure()(ps[k]) > Figure()(ps[l]) && amountMinor > 0
    ensures LargestRemainder(ps, amountMinor)[k].minor >= LargestRemainder(ps, amountMinor)[l].minor
  {
    ReceiversAreFirst(ps, amountMinor);
    ShareAt(ps, amountMinor, k);
    ShareAt(ps, amountMinor, l);
    LargerProduct(ps[k], ps[l], amountMinor);
    DivisionMonotone(Product(ps[k], amountMinor), Product(ps[l], amountMinor), TotalFigures(ps));
    ReceivesBefore(ps, amountMinor, k, l);
  }

  /** Of two participants, one with the larger fractional part receives if the other does. */
  lemma ReceivesBefore(ps: seq<Raw>, amountMinor: nat, k: nat, l: nat)
    requires Proportional(ps) && DistinctRaw(ps) && k < |ps| && l < |ps|
    ensures TotalFigures(ps) > 0
    ensures Product(ps[k], amountMinor) % TotalFigures(ps) > Product(ps[l], amountMinor) % TotalFigures(ps) ==>
      ps[l].userId in Receivers(ps, amountMinor) ==> ps[k].userId in Receivers(ps, amountMinor)
  {
    ReceiversAreFirst(ps, amountMinor);
    var denom := TotalFigures(ps);
    var i := RankOf(ps, amountMinor, denom, k);
    var j := RankOf(ps, amountMinor, denom, l);
    SortedRank(Ranked(ps, amountMinor, denom), i, j);
  }

  lemma SortedRank(ranked: seq<Claim>, i: nat, j: nat)
    requires Sorted(ranked, ByRemainder()) && i < |ranked| && j < |ranked|
    ensures ranked[i].remainder > ranked[j].remainder ==> i < j
  {
    assert j < i ==> ByRemainder()(ranked[j], ranked[i]);
  }

  // ── Order of the participants ──────────────────────────────────────────────

  function IsClaim(c: Claim, amountMinor: nat, denom: int): Raw -> int
    requires denom > 0
  {
    (p: Raw) => if c == Claim(p.userId, RemainderOf(amountMinor, denom)(p)) then 1 else 0
  }

  lemma {:induction false} ClaimCount(ps: seq<Raw>, amountMinor: nat, denom: int, c: Claim)
    requires denom > 0
    ensures multiset(Claims(ps, amountMinor, denom))[c] == Sum(ps, IsClaim(c, amountMinor, denom))
  {
    var claims := Claims(ps, amountMinor, denom);
    if ps != [] {
      var n := |ps| - 1;
      ClaimCount(ps[..n], amountMinor, denom, c);
      assert claims[..n] == Claims(ps[..n], amountMinor, denom);
      assert claims == claims[..n] + [claims[n]];
    }
  }

  lemma ClaimsPermuted(ps: seq<Raw>, qs: seq<Raw>, amountMinor: nat, denom: int)
    requires denom > 0 && multiset(ps) == multiset(qs)
    ensures multiset(Claims(ps, amountMinor, denom)) == multiset(Claims(qs, amountMinor, denom))
  {
    var a, b := Claims(ps, amountMinor, denom), Claims(qs, amountMinor, denom);
    forall c: Claim ensures multiset(a)[c] == multiset(b)[c] {
      ClaimCount(ps, amountMinor, denom, c);
      ClaimCount(qs, amountMinor, denom, c);
      SumPermuted(ps, qs, IsClaim(c, amountMinor, denom));
    }
  }

  lemma ByRemainderAntisymmetric()
    ensures Antisymmetric(ByRemainder())
  {
    forall a: Claim, b: Claim | ByRemainder()(a, b) && ByRemainder()(b, a) ensures a == b {
    }
  }

  lemma OneRanking(a: seq<Claim>, b: seq<Claim>)
    requires multiset(a) == multiset(b)
    ensures Sort(a, ByRemainder()) == Sort(b, ByRemainder())
  {
    ByRemainderAntisymmetric();
    SortedUnique(Sort(a, ByRemainder()), Sort(b, ByRemainder()), ByRemainder());
  }

  lemma ReceiversIgnoreOrder(ps: seq<Raw>, qs: seq<Raw>, amountMinor: nat)
    requires Proportional(ps) && Proportional(qs) && multiset(ps) == multiset(qs)
    ensures TotalFigures(ps) == TotalFigures(qs) && Receivers(ps, amountMinor) == Receivers(qs, amountMinor)
  {
    TotalIsPositive(ps);
    SumPermuted(ps, qs, Figure());
    SumPermuted(ps, qs, FloorOf(amountMinor, TotalFigures(ps)));
    ClaimsPermuted(ps, qs, amountMinor, TotalFigures(ps));
    OneRanking(Claims(ps, amountMinor, TotalFigures(ps)), Claims(qs, amountMinor, TotalFigures(ps)));
  }

  /** Each participant gets the same share whatever order the request lists them in. */
  lemma LargestRemainderIgnoresOrder(ps: seq<Raw>, qs: seq<Raw>, amountMinor: nat, k: nat, l: nat)
    requires Proportional(ps) && Proportional(qs) && multiset(ps) == multiset(qs)
    requires k < |ps| && l < |qs| && ps[k] == qs[l]
    ensures LargestRemainder(ps, amountMinor)[k] == LargestRemainder(qs, amountMinor)[l]
  {
    ReceiversIgnoreOrder(ps, qs, amountMinor);
    ShareAt(ps, amountMinor, k);
    ShareAt(qs, amountMinor, l);
  }

  // ── Dispatch ───────────────────────────────────────────────────────────────

  function Ids(ps: seq<Raw>): seq<UserId> { seq(|ps|, i requires 0 <= i < |ps| => ps[i].userId) }

  function ExactPortions(ps: seq<Raw>): seq<Portion> {
    seq(|ps|, i requires 0 <= i < |ps| => Portion(ps[i].userId, Figure()(ps[i])))
  }

  function Compute(splitType: SplitType, amountMinor: nat, ps: seq<Raw>, payer: UserId): Split {
    match splitType
    case EQUAL => SplitEqual(amountMinor, Ids(ps), payer)
    case EXACT =>
      if ps != [] && FiguresWithin(ps, 0, None) && TotalFigures(ps) == amountMinor then Shares(ExactPortions(ps)) else Refused
    case PERCENT =>
      if ps != [] && FiguresWithin(ps, 1, Some(TOTAL_BASIS_POINTS)) && TotalFigures(ps) == TOTAL_BASIS_POINTS
      then Shares(LargestRemainder(ps, amountMinor)) else Refused
    case SHARES =>
      if ps != [] && FiguresWithin(ps, 1, Some(MAX_SHARE_UNITS)) then Shares(LargestRemainder(ps, amountMinor)) else Refused
  }

  method CalculateExact(amountMinor: nat, ps: seq<Raw>) returns (split: Split)
    ensures split == Compute(EXACT, amountMinor, ps, 0)
  {
    if ps == [] { return Refused; }
    var runningSum := 0;
    var results: seq<Portion> := [];
    for i := 0 to |ps|
      invariant FiguresWithin(ps[..i], 0, None)
      invariant runningSum == TotalFigures(ps[..i])
      invariant results == ExactPortions(ps[..i])
    {
      SumPrefixStep(ps, Figure(), i);
      FiguresNext(ps, i, 0, None);
      assert ExactPortions(ps[..i + 1]) == ExactPortions(ps[..i]) + [Portion(ps[i].userId, Figure()(ps[i]))];
      if ps[i].figure.None? || ps[i].figure.value < 0 { return Refused; }
      runningSum := runningSum + ps[i].figure.value;
      results := results + [Portion(ps[i].userId, ps[i].figure.value)];
    }
    assert ps[..|ps|] == ps;
    return if runningSum != amountMinor then Refused else Shares(results);
  }

  method CalculateProportional(amountMinor: nat, ps: seq<Raw>, cap: int, fixedTotal: Option<int>) returns (split: Split)
    ensures split ==
      if ps != [] && FiguresWithin(ps, 1, Some(cap)) && (fixedTotal.Some? ==> TotalFigures(ps) == fixedTotal.value)
      then Shares(LargestRemainder(ps, amountMinor)) else Refused
  {
    if ps == [] { return Refused; }
    var total := SumFigures(ps, 1, Some(cap));
    if total.None? || (fixedTotal.Some? && total != fixedTotal) { return Refused; }
    return Shares(LargestRemainder(ps, amountMinor));
  }

  method Calculate(splitType: SplitType, amountMinor: nat, ps: seq<Raw>, payer: UserId) returns (split: Split)
    ensures split == Compute(splitType, amountMinor, ps, payer)
  {
    match splitType {
      case EQUAL => split := SplitEqual(amountMinor, Ids(ps), payer);
      case EXACT => split := CalculateExact(amountMinor, ps);
      case PERCENT => split := CalculateProportional(amountMinor, ps, TOTAL_BASIS_POINTS, Some(TOTAL_BASIS_POINTS));
      case SHARES => split := CalculateProportional(amountMinor, ps, MAX_SHARE_UNITS, None);
    }
  }

  lemma {:induction false} ListedOnce(ps: seq<Raw>, payer: UserId)
    requires DistinctRaw(ps)
    ensures Sum(Ids(ps), Listed(payer)) == if payer in Ids(ps) then 1 else 0
  {
    forall i, j | 0 <= i < j < |Ids(ps)| ensures Ids(ps)[i] != Ids(ps)[j] {
      assert ps[i].userId != ps[j].userId;
    }
    SumSingle(Ids(ps), payer, Listed(payer));
  }

  lemma SharesNonNegative(ps: seq<Raw>, amountMinor: nat, k: nat)
    requires Proportional(ps) && k < |ps|
    ensures LargestRemainder(ps, amountMinor)[k].minor >= 0
  {
    ShareAt(ps, amountMinor, k);
    NoDebt(ps[k].figure.value, amountMinor, TotalFigures(ps));
  }

  lemma NoDebt(figure: nat, amountMinor: nat, denom: int)
    requires denom > 0
    ensures figure * amountMinor / denom >= 0
  {
    MulAtLeast(figure, 0, amountMinor + 1);
    assert figure * amountMinor >= 0;
  }

  /** Whatever the type, the shares of distinct participants are non-negative, keep their ids and sum to the amount. */
  lemma ComputeIsSound(splitType: SplitType, amountMinor: nat, ps: seq<Raw>, payer: UserId)
    requires DistinctRaw(ps)
    ensures var split := Compute(splitType, amountMinor, ps, payer);
            split.Shares? ==>
              && Total(split.portions) == amountMinor
              && |split.portions| == |ps|
              && forall i :: 0 <= i < |ps| ==> split.portions[i].userId == ps[i].userId && split.portions[i].minor >= 0
  {
    if Compute(splitType, amountMinor, ps, payer).Shares? {
      match splitType
      case EQUAL =>
        ListedOnce(ps, payer);
        EqualAddsUpIff(amountMinor, Ids(ps), payer);
        forall i: nat | i < |ps| {
          EqualShareAt(amountMinor, Ids(ps), payer, i);
        }
        EqualNonNegative(amountMinor, |ps|);
      case EXACT => TotalOfShares(ps, Figure());
      case _ =>
        LargestRemainderAddsUp(ps, amountMinor);
        NonNegativeAll(ps, amountMinor);
    }
  }

  lemma EqualNonNegative(amountMinor: nat, n: nat)
    requires n > 0
    ensures amountMinor / n >= 0 && amountMinor % n >= 0
  {
  }

  lemma NonNegativeAll(ps: seq<Raw>, amountMinor: nat)
    requires Proportional(ps)
    ensures forall k :: 0 <= k < |ps| ==> LargestRemainder(ps, amountMinor)[k].minor >= 0
  {
    forall k | 0 <= k < |ps| ensures LargestRemainder(ps, amountMinor)[k].minor >= 0 {
      SharesNonNegative(ps, amountMinor, k);
    }
  }

  // ── Whose share is whose ───────────────────────────────────────────────────

  /** What each split type accepts. */
  lemma ComputeAcceptsIff(splitType: SplitType, amountMinor: nat, ps: seq<Raw>, payer: UserId)
    ensures Compute(splitType, amountMinor, ps, payer).Shares? <==>
      match splitType
      case EQUAL => amountMinor > 0 && exists i :: 0 <= i < |ps| && ps[i].userId == payer
      case EXACT =>
        ps != [] && (forall i :: 0 <= i < |ps| ==> ps[i].figure.Some? && ps[i].figure.value >= 0) && Sum(ps, Figure()) == amountMinor
      case PERCENT =>
        ps != [] && (forall i :: 0 <= i < |ps| ==> ps[i].figure.Some? && 1 <= ps[i].figure.value <= 10_000) && Sum(ps, Figure()) == 10_000
      case SHARES =>
        ps != [] && forall i :: 0 <= i < |ps| ==> ps[i].figure.Some? && 1 <= ps[i].figure.value <= 1_000_000
  {
    assert forall i :: 0 <= i < |ps| ==> Ids(ps)[i] == ps[i].userId;
  }

  /** The share differs from figure / total of the amount by less than one minor unit. */
  predicate WithinUnit(share: int, figure: int, amountMinor: nat, total: int) {
    -total < total * share - figure * amountMinor < total
  }

  /**
   EXACT gives each participant their own figure, PERCENT their hundredths of a per cent
   and SHARES their part of the units, each within one minor unit; EQUAL gives everyone
   the same, and the payer what division leaves over.
   */
  lemma ComputeFigures(splitType: SplitType, amountMinor: nat, ps: seq<Raw>, payer: UserId, i: nat)
    requires DistinctRaw(ps) && i < |ps| && Compute(splitType, amountMinor, ps, payer).Shares?
    ensures var portions := Compute(splitType, amountMinor, ps, payer).portions;
            && |portions| == |ps| && portions[i].userId == ps[i].userId
            && match splitType
               case EQUAL => portions[i].minor == amountMinor / |ps| + if ps[i].userId == payer then amountMinor % |ps| else 0
               case EXACT => ps[i].figure.Some? && portions[i].minor == ps[i].figure.value
               case PERCENT => ps[i].figure.Some? && WithinUnit(portions[i].minor, ps[i].figure.value, amountMinor, 10_000)
               case SHARES => ps[i].figure.Some? && WithinUnit(portions[i].minor, ps[i].figure.value, amountMinor, Sum(ps, Figure()))
  {
    match splitType
    case EQUAL => EqualShareAt(amountMinor, Ids(ps), payer, i);
    case EXACT =>
    case _ => QuotaRule(ps, amountMinor, i);
  }

  /** An equal rank by remainder is decided by the id. */
  lemma RankedByRemainder(ranked: seq<Claim>, i: nat, j: nat)
    requires Sorted(ranked, ByRemainder()) && DistinctClaims(ranked) && i < j < |ranked|
    ensures ranked[i].remainder > ranked[j].remainder
            || (ranked[i].remainder == ranked[j].remainder && ranked[i].userId < ranked[j].userId)
  {
    assert ByRemainder()(ranked[i], ranked[j]);
    assert ranked[i].userId != ranked[j].userId;
  }

  lemma ReceiverRanksFirst(ps: seq<Raw>, amountMinor: nat, k: nat, l: nat)
    requires Proportional(ps) && DistinctRaw(ps) && k < |ps| && l < |ps|
    requires ps[k].userId in Receivers(ps, amountMinor) && ps[l].userId !in Receivers(ps, amountMinor)
    ensures TotalFigures(ps) > 0
    ensures var denom := TotalFigures(ps);
            var a, b := Product(ps[k], amountMinor) % denom, Product(ps[l], amountMinor) % denom;
            a > b || (a == b && ps[k].userId < ps[l].userId)
  {
    ReceiversAreFirst(ps, amountMinor);
    var denom := TotalFigures(ps);
    var i := RankOf(ps, amountMinor, denom, k);
    var j := RankOf(ps, amountMinor, denom, l);
    RankedByRemainder(Ranked(ps, amountMinor, denom), i, j);
  }

  /**
   The units that rounding down leaves over go one each to the largest fractional parts,
   among equal ones to the smaller id: a participant who got one stands before any who
   did not.
   */
  lemma ExtraUnitsRanked(splitType: SplitType, amountMinor: nat, ps: seq<Raw>, payer: UserId, k: nat, l: nat)
    requires (splitType == PERCENT || splitType == SHARES) && DistinctRaw(ps) && k < |ps| && l < |ps|
    requires Compute(splitType, amountMinor, ps, payer).Shares?
    ensures var portions := Compute(splitType, amountMinor, ps, payer).portions;
            var total := Sum(ps, Figure());
            && total > 0 && |portions| == |ps| && ps[k].figure.Some? && ps[l].figure.Some?
            && var a, b := ps[k].figure.value * amountMinor, ps[l].figure.value * amountMinor;
               && 0 <= portions[k].minor - a / total <= 1
               && (portions[k].minor > a / total && portions[l].minor == b / total ==>
                     a % total > b % total || (a % total == b % total && ps[k].userId < ps[l].userId))
  {
    ShareAt(ps, amountMinor, k);
    ShareAt(ps, amountMinor, l);
    if ps[k].userId in Receivers(ps, amountMinor) && ps[l].userId !in Receivers(ps, amountMinor) {
      ReceiverRanksFirst(ps, amountMinor, k, l);
    }
  }
}
