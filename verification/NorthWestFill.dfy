/**
 The transportation fill that decomposes a multi-payer expense into pairwise
 debts, against its closed form: lay the shares end to end in id order, lay the
 contributions end to end in id order; `u` owes `v` the overlap of the two
 stretches.  The closed form mentions no row order, so the fill cannot depend on
 one.
 */
module NorthWestFill {
  import opened Wrappers
  import opened Sums
  import opened Sorting
  import opened Ledger

  function Min(a: int, b: int): int { if a < b then a else b }

  function Max(a: int, b: int): int { if a < b then b else a }

  /** Length of the intersection of [lo, hi) and [a, b). */
  function Overlap(lo: int, hi: int, a: int, b: int): int { Max(0, Min(hi, b) - Max(lo, a)) }

  // ── Stretches of a line laid out in id order ───────────────────────────────

  function MinorBelow(u: UserId): Portion -> int {
    (p: Portion) => if p.userId < u && p.minor > 0 then p.minor else 0
  }

  function PositiveMinorOf(u: UserId): Portion -> int {
    (p: Portion) => if p.userId == u && p.minor > 0 then p.minor else 0
  }

  function PositiveMinor(): Portion -> int { (p: Portion) => if p.minor > 0 then p.minor else 0 }

  /** Where the stretch of `u` starts: everything held by smaller ids. */
  function Start(ps: seq<Portion>, u: UserId): int { Sum(ps, MinorBelow(u)) }

  function Size(ps: seq<Portion>, u: UserId): int { Sum(ps, PositiveMinorOf(u)) }

  function End(ps: seq<Portion>, u: UserId): int { Start(ps, u) + Size(ps, u) }

  function Length(ps: seq<Portion>): int { Sum(ps, PositiveMinor()) }

  /** What `u` owes `v` for one expense, before netting and including `u == v`. */
  function Owed(e: Expense, u: UserId, v: UserId): int {
    Overlap(Start(e.participants, u), End(e.participants, u), Start(e.payments, v), End(e.payments, v))
  }

  // ── The debt table ─────────────────────────────────────────────────────────

  type DebtTable = map<(UserId, UserId), int>

  function Owing(debt: DebtTable, u: UserId, v: UserId): int { if (u, v) in debt then debt[(u, v)] else 0 }

  function AddDebt(debt: DebtTable, u: UserId, v: UserId, amountMinor: int): DebtTable {
    if amountMinor <= 0 || u == v then debt else debt[(u, v) := Owing(debt, u, v) + amountMinor]
  }

  // ── Laying out a sorted line one portion at a time ─────────────────────────

  function ByUser(): (Portion, Portion) -> bool { (a: Portion, b: Portion) => a.userId <= b.userId }

  ghost predicate InIdOrder(ps: seq<Portion>) {
    forall i, j :: 0 <= i < j < |ps| ==> ps[i].userId <= ps[j].userId
  }

  lemma {:induction false} NoMoreThanLength(ps: seq<Portion>, u: UserId)
    ensures 0 <= Start(ps, u) && 0 <= Size(ps, u) && End(ps, u) <= Length(ps)
  {
    if ps != [] {
      NoMoreThanLength(ps[..|ps| - 1], u);
    }
  }

  /** Beyond the last id of a sorted line nothing more is laid out. */
  lemma {:induction false} StartBeyond(ps: seq<Portion>, u: UserId)
    requires forall p :: p in ps ==> p.userId <= u
    ensures End(ps, u) == Length(ps)
    ensures (forall p :: p in ps ==> p.userId < u) ==> Start(ps, u) == Length(ps) && Size(ps, u) == 0
  {
    if ps != [] {
      Snoc(ps);
      StartBeyond(ps[..|ps| - 1], u);
    }
  }

  /** Appending the next portion of a sorted line only lengthens its own stretch. */
  lemma LayNext(ps: seq<Portion>, i: nat, u: UserId)
    requires i < |ps| && InIdOrder(ps)
    ensures u < ps[i].userId ==> Start(ps[..i + 1], u) == Start(ps[..i], u) && Size(ps[..i + 1], u) == Size(ps[..i], u)
    ensures u == ps[i].userId ==> Start(ps[..i + 1], u) == Start(ps[..i], u)
    ensures u == ps[i].userId ==> End(ps[..i], u) == Length(ps[..i]) && End(ps[..i + 1], u) == Length(ps[..i + 1])
    ensures u > ps[i].userId ==> Size(ps[..i + 1], u) == 0 == Size(ps[..i], u)
    ensures Length(ps[..i + 1]) == Length(ps[..i]) + Max(0, ps[i].minor)
  {
    assert ps[..i + 1][..i] == ps[..i];
    if u >= ps[i].userId {
      StartBeyond(ps[..i], u);
      StartBeyond(ps[..i + 1], u);
    }
  }

  /** What the columns laid out so far take from the row stretch [lo, hi). */
  function Taken(payers: seq<Portion>, v: UserId, lo: int, hi: int): int {
    if payers == [] then 0
    else
      var init, last := payers[..|payers| - 1], payers[|payers| - 1];
      Taken(init, v, lo, hi) + if last.userId == v then Overlap(lo, hi, Length(init), Length(payers)) else 0
  }

  ghost predicate Payers(ps: seq<Portion>) {
    && (forall i, j :: 0 <= i < j < |ps| ==> ps[i].userId < ps[j].userId)
    && forall p :: p in ps ==> p.minor > 0
  }

  lemma EmptyOverlap(lo: int, hi: int, a: int)
    ensures Overlap(lo, hi, a, a) == 0
  {
  }

  lemma PayersInit(payers: seq<Portion>)
    requires Payers(payers) && payers != []
    ensures Payers(payers[..|payers| - 1])
    ensures forall p :: p in payers[..|payers| - 1] ==> p.userId < payers[|payers| - 1].userId
    ensures InIdOrder(payers)
  {
  }

  lemma OwnColumn(payers: seq<Portion>, v: UserId)
    requires Payers(payers) && payers != []
    ensures var n := |payers| - 1; var init, last := payers[..n], payers[n].userId;
            && (v < last ==> Start(payers, v) == Start(init, v) && Size(payers, v) == Size(init, v))
            && (v == last ==> Start(payers, v) == Length(init) && End(payers, v) == Length(payers) && Size(init, v) == 0)
            && (v > last ==> Size(payers, v) == 0 && Size(init, v) == 0)
  {
    var n := |payers| - 1;
    PayersInit(payers);
    assert payers[..n + 1] == payers;
    LayNext(payers, n, v);
    if v == payers[n].userId {
      StartBeyond(payers[..n], v);
    }
  }

  lemma {:induction false} TakenIsOverlap(payers: seq<Portion>, v: UserId, lo: int, hi: int)
    requires Payers(payers)
    ensures Taken(payers, v, lo, hi) == Overlap(lo, hi, Start(payers, v), End(payers, v))
  {
    if payers == [] {
      EmptyOverlap(lo, hi, 0);
    } else {
      var init := payers[..|payers| - 1];
      PayersInit(payers);
      OwnColumn(payers, v);
      TakenIsOverlap(init, v, lo, hi);
      EmptyOverlap(lo, hi, Start(init, v));
      EmptyOverlap(lo, hi, Start(payers, v));
    }
  }

  lemma {:induction false} NothingTakenBeyond(payers: seq<Portion>, q: nat, v: UserId, lo: int, hi: int)
    requires q <= |payers| && hi <= Length(payers[..q])
    ensures Taken(payers, v, lo, hi) == Taken(payers[..q], v, lo, hi)
    ensures hi <= Length(payers)
  {
    if q == |payers| {
      assert payers[..q] == payers;
    } else {
      assert payers[..|payers| - 1][..q] == payers[..q];
      NothingTakenBeyond(payers[..|payers| - 1], q, v, lo, hi);
    }
  }

  // ── The fill ───────────────────────────────────────────────────────────────

  /** What is left of column `k` once everything before position `x` is consumed. */
  function Left(payers: seq<Portion>, k: nat, x: int): int
    requires k < |payers|
  {
    Max(0, Length(payers[..k + 1]) - Max(Length(payers[..k]), x))
  }

  lemma {:induction false} LengthMonotone(ps: seq<Portion>, i: nat, j: nat)
    requires i <= j <= |ps|
    ensures 0 <= Length(ps[..i]) <= Length(ps[..j])
  {
    if i < j {
      LengthMonotone(ps, i, j - 1);
      assert ps[..j][..j - 1] == ps[..j - 1];
    } else if i > 0 {
      LengthMonotone(ps, i - 1, i - 1);
      LengthMonotone(ps, i - 1, i);
    }
  }

  /** The table gained exactly what the columns take from the row stretch of `u0`. */
  ghost predicate RowAdded(before: DebtTable, after: DebtTable, u0: UserId, payers: seq<Portion>, lo: int, hi: int) {
    forall u, v :: Owing(after, u, v) == (Owing(before, u, v) + if u == u0 && u != v then Taken(payers, v, lo, hi) else 0)
  }

  /** One column visited: what it yields to the row is its overlap with the row. */
  lemma ColumnVisited(payers: seq<Portion>, q: nat, lo: int, hi: int)
    requires Payers(payers) && q < |payers| && 0 <= lo
    requires Max(lo, Min(hi, Length(payers[..q]))) < hi
    ensures var left := hi - Max(lo, Min(hi, Length(payers[..q])));
            var taken := Overlap(lo, hi, Length(payers[..q]), Length(payers[..q + 1]));
            && taken == Min(left, Left(payers, q, lo))
            && left - taken == hi - Max(lo, Min(hi, Length(payers[..q + 1])))
            && Left(payers, q, hi) == Left(payers, q, lo) - taken
  {
    LengthMonotone(payers, q, q + 1);
  }

  lemma ColumnAdded(before: DebtTable, r: DebtTable, u0: UserId, payers: seq<Portion>, q: nat, lo: int, hi: int)
    requires q < |payers| && RowAdded(before, r, u0, payers[..q], lo, hi)
    ensures RowAdded(before,
              AddDebt(r, u0, payers[q].userId, Overlap(lo, hi, Length(payers[..q]), Length(payers[..q + 1]))),
              u0, payers[..q + 1], lo, hi)
  {
    assert payers[..q + 1][..q] == payers[..q];
  }

  method FillRow(debt: DebtTable, payers: seq<Portion>, colRemaining: array<int>, participant: Portion, ghost lo: int)
    returns (r: DebtTable)
    requires Payers(payers) && colRemaining.Length == |payers| && 0 <= lo
    requires forall k :: 0 <= k < |payers| ==> colRemaining[k] == Left(payers, k, lo)
    modifies colRemaining
    ensures forall k :: 0 <= k < |payers| ==> colRemaining[k] == Left(payers, k, lo + Max(0, participant.minor))
    ensures RowAdded(debt, r, participant.userId, payers, lo, lo + Max(0, participant.minor))
  {
    r := debt;
    var rowRemaining := participant.minor;
    ghost var hi := lo + Max(0, participant.minor);
    var q := 0;
    NothingAdded(debt, participant.userId, payers, lo, hi);
    while q < |payers| && rowRemaining > 0
      invariant 0 <= q <= |payers|
      invariant rowRemaining > 0 ==> rowRemaining == hi - Max(lo, Min(hi, Length(payers[..q])))
      invariant rowRemaining <= 0 ==> hi == lo || hi <= Length(payers[..q])
      invariant forall k :: 0 <= k < q ==> colRemaining[k] == Left(payers, k, hi)
      invariant forall k :: q <= k < |payers| ==> colRemaining[k] == Left(payers, k, lo)
      invariant RowAdded(debt, r, participant.userId, payers[..q], lo, hi)
    {
      ColumnVisited(payers, q, lo, hi);
      ColumnAdded(debt, r, participant.userId, payers, q, lo, hi);
      var available := colRemaining[q];
      if available > 0 {
        var take := if rowRemaining < available then rowRemaining else available;
        r := AddDebt(r, participant.userId, payers[q].userId, take);
        rowRemaining := rowRemaining - take;
        colRemaining[q] := available - take;
      }
      q := q + 1;
    }
    RowDone(payers, q, lo, hi);
  }

  lemma NothingAdded(debt: DebtTable, u0: UserId, payers: seq<Portion>, lo: int, hi: int)
    ensures RowAdded(debt, debt, u0, payers[..0], lo, hi)
  {
    assert forall v :: Taken(payers[..0], v, lo, hi) == 0;
  }

  lemma RowDone(payers: seq<Portion>, q: nat, lo: int, hi: int)
    requires q <= |payers| && lo <= hi
    requires q == |payers| || hi == lo || hi <= Length(payers[..q])
    ensures forall k :: q <= k < |payers| ==> Left(payers, k, lo) == Left(payers, k, hi)
    ensures forall v :: Taken(payers, v, lo, hi) == Taken(payers[..q], v, lo, hi)
  {
    forall k | q <= k < |payers| ensures Left(payers, k, lo) == Left(payers, k, hi) {
      LengthMonotone(payers, q, k);
    }
    forall v ensures Taken(payers, v, lo, hi) == Taken(payers[..q], v, lo, hi) {
      if q == |payers| {
        assert payers[..q] == payers;
      } else if hi <= Length(payers[..q]) {
        NothingTakenBeyond(payers, q, v, lo, hi);
      } else {
        NothingTakenEmpty(payers, v, lo);
        NothingTakenEmpty(payers[..q], v, lo);
      }
    }
  }

  lemma {:induction false} NothingTakenEmpty(payers: seq<Portion>, v: UserId, lo: int)
    ensures Taken(payers, v, lo, lo) == 0
  {
    if payers != [] {
      NothingTakenEmpty(payers[..|payers| - 1], v, lo);
    }
  }

  /** The table after the rows laid out so far, by the closed form. */
  ghost predicate RowsAdded(before: DebtTable, after: DebtTable, rows: seq<Portion>, payers: seq<Portion>) {
    forall u, v :: Owing(after, u, v) == (Owing(before, u, v) + if u == v then 0 else RowOverlap(rows, u, payers, v))
  }

  function RowOverlap(rows: seq<Portion>, u: UserId, payers: seq<Portion>, v: UserId): int {
    Overlap(Start(rows, u), End(rows, u), Start(payers, v), End(payers, v))
  }

  lemma RowExtends(rows: seq<Portion>, i: nat, payers: seq<Portion>, u: UserId, v: UserId)
    requires i < |rows| && InIdOrder(rows) && Payers(payers)
    ensures RowOverlap(rows[..i + 1], u, payers, v) == RowOverlap(rows[..i], u, payers, v) +
      if u == rows[i].userId then Taken(payers, v, Length(rows[..i]), Length(rows[..i + 1])) else 0
  {
    LayNext(rows, i, u);
    NoMoreThanLength(payers, v);
    NoMoreThanLength(rows[..i], u);
    NoMoreThanLength(rows[..i + 1], u);
    if u == rows[i].userId {
      TakenIsOverlap(payers, v, Length(rows[..i]), Length(rows[..i + 1]));
    }
  }

  lemma RowsExtend(before: DebtTable, middle: DebtTable, after: DebtTable, rows: seq<Portion>, i: nat, payers: seq<Portion>)
    requires i < |rows| && InIdOrder(rows) && Payers(payers)
    requires RowsAdded(before, middle, rows[..i], payers)
    requires RowAdded(middle, after, rows[i].userId, payers, Length(rows[..i]), Length(rows[..i + 1]))
    ensures RowsAdded(before, after, rows[..i + 1], payers)
  {
    forall u, v
      ensures Owing(after, u, v) ==
        (Owing(before, u, v) + if u == v then 0 else RowOverlap(rows[..i + 1], u, payers, v))
    {
      RowExtends(rows, i, payers, u, v);
    }
  }

  function CountUser(u: UserId): Portion -> int { (p: Portion) => if p.userId == u then 1 else 0 }

  lemma {:induction false} DistinctCount(ps: seq<Portion>, u: UserId)
    requires DistinctUsers(ps)
    ensures Sum(ps, CountUser(u)) <= 1
    ensures (forall p :: p in ps ==> p.userId != u) ==> Sum(ps, CountUser(u)) == 0
  {
    if ps != [] {
      var n := |ps| - 1;
      DistinctCount(ps[..n], u);
      if ps[n].userId == u {
        assert forall p :: p in ps[..n] ==> p.userId != u;
      }
    }
  }

  lemma {:induction false} CountAtLeast(ps: seq<Portion>, u: UserId)
    ensures Sum(ps, CountUser(u)) >= 0
    ensures forall i :: 0 <= i < |ps| && ps[i].userId == u ==> Sum(ps, CountUser(u)) >= 1
    ensures forall i, j :: 0 <= i < j < |ps| && ps[i].userId == u == ps[j].userId ==> Sum(ps, CountUser(u)) >= 2
  {
    if ps != [] {
      CountAtLeast(ps[..|ps| - 1], u);
      assert forall i :: 0 <= i < |ps| - 1 ==> ps[..|ps| - 1][i] == ps[i];
    }
  }

  lemma DistinctPermuted(ps: seq<Portion>, qs: seq<Portion>)
    requires multiset(ps) == multiset(qs) && DistinctUsers(ps)
    ensures DistinctUsers(qs)
  {
    forall i, j | 0 <= i < j < |qs| ensures qs[i].userId != qs[j].userId {
      var u := qs[i].userId;
      SumPermuted(ps, qs, CountUser(u));
      DistinctCount(ps, u);
      CountAtLeast(qs, u);
    }
  }

  lemma PayersSorted(payments: seq<Portion>, payers: seq<Portion>)
    requires PaymentsFault(payments) == None
    requires multiset(payments) == multiset(payers) && Sorted(payers, ByUser())
    ensures Payers(payers)
  {
    PaymentsFaultless(payments);
    SameMembers(payments, payers);
    DistinctPermuted(payments, payers);
    forall i, j | 0 <= i < j < |payers| ensures payers[i].userId < payers[j].userId {
      assert ByUser()(payers[i], payers[j]);
    }
  }

  /** Neither the fill order nor the row order of the database shows in the closed form. */
  lemma LayoutPermuted(ps: seq<Portion>, qs: seq<Portion>)
    requires multiset(ps) == multiset(qs)
    ensures forall u :: Start(ps, u) == Start(qs, u) && Size(ps, u) == Size(qs, u)
  {
    forall u ensures Start(ps, u) == Start(qs, u) && Size(ps, u) == Size(qs, u) {
      SumPermuted(ps, qs, MinorBelow(u));
      SumPermuted(ps, qs, PositiveMinorOf(u));
    }
  }

  method Columns(payers: seq<Portion>) returns (colRemaining: array<int>)
    requires Payers(payers)
    ensures fresh(colRemaining) && colRemaining.Length == |payers|
    ensures forall k :: 0 <= k < |payers| ==> colRemaining[k] == Left(payers, k, 0)
  {
    colRemaining := new int[|payers|];
    for k := 0 to |payers|
      invariant forall j :: 0 <= j < k ==> colRemaining[j] == Left(payers, j, 0)
    {
      FullColumn(payers, k);
      colRemaining[k] := payers[k].minor;
    }
  }

  lemma FullColumn(payers: seq<Portion>, k: nat)
    requires Payers(payers) && k < |payers|
    ensures Left(payers, k, 0) == payers[k].minor
  {
    LengthMonotone(payers, 0, k);
    assert payers[..k + 1][..k] == payers[..k];
    assert payers[k] in payers;
  }

  method FillRows(debt: DebtTable, payers: seq<Portion>, participants: seq<Portion>) returns (r: DebtTable)
    requires Payers(payers) && InIdOrder(participants)
    ensures RowsAdded(debt, r, participants, payers)
  {
    var colRemaining := Columns(payers);
    r := debt;
    assert participants[..0] == [];
    for i := 0 to |participants|
      invariant 0 <= Length(participants[..i])
      invariant forall k :: 0 <= k < |payers| ==> colRemaining[k] == Left(payers, k, Length(participants[..i]))
      invariant RowsAdded(debt, r, participants[..i], payers)
    {
      ghost var middle := r;
      LayNext(participants, i, 0);
      r := FillRow(r, payers, colRemaining, participants[i], Length(participants[..i]));
      RowsExtend(debt, middle, r, participants, i, payers);
    }
    assert participants[..|participants|] == participants;
  }

  /** The fill of one accepted expense, for any order of its rows. */
  method FillExpense(debt: DebtTable, e: Expense) returns (r: DebtTable)
    requires ExpenseFault(e) == None
    ensures forall u, v :: Owing(r, u, v) == (Owing(debt, u, v) + if u == v then 0 else Owed(e, u, v))
  {
    var payers := Sort(e.payments, ByUser());
    var participants := Sort(e.participants, ByUser());
    PayersSorted(e.payments, payers);
    SortedInIdOrder(participants);
    r := FillRows(debt, payers, participants);
    LayoutPermuted(e.participants, participants);
    LayoutPermuted(e.payments, payers);
    assert forall u, v :: RowOverlap(participants, u, payers, v) == Owed(e, u, v);
  }

  lemma SortedInIdOrder(ps: seq<Portion>)
    requires Sorted(ps, ByUser())
    ensures InIdOrder(ps)
  {
  }
}
