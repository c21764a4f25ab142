/**
 The order of the pairwise list.  The engine's comment promises (fromUserId,
 toUserId); its nested loops produce the order of the unordered pairs instead.
 The two agree exactly when no debt runs from a larger to a smaller id across
 another debt.
 */
module ListingOrder {
  import opened Sums
  import opened Ledger
  import opened NorthWestFill
  import opened PairLists
  import opened PairwiseDebts

  /** The order the comment promises. */
  predicate FromBefore(a: Transfer, b: Transfer) {
    a.fromUserId < b.fromUserId || (a.fromUserId == b.fromUserId && a.toUserId < b.toUserId)
  }

  ghost predicate InFromOrder(list: seq<Transfer>) {
    forall i, j :: 0 <= i < j < |list| ==> FromBefore(list[i], list[j])
  }

  predicate Owes(book: Book, u: UserId, v: UserId) { NetDebt(book, u, v) > 0 }

  /** `p` owes the smaller `q`, and someone below `p` owes in a pair that is listed later. */
  predicate Crossing(book: Book, p: UserId, q: UserId, r: UserId, s: UserId) {
    && Owes(book, p, q) && q < p
    && Owes(book, r, s)
    && ((q < r < p && q < s) || (r == q && p < s))
  }

  lemma CrossingIsMisplaced(a: Transfer, b: Transfer)
    requires a.fromUserId != a.toUserId && b.fromUserId != b.toUserId && PairBefore(a, b)
    ensures !FromBefore(a, b) <==>
      (a.toUserId < a.fromUserId
       && ((a.toUserId < b.fromUserId < a.fromUserId && a.toUserId < b.toUserId)
           || (b.fromUserId == a.toUserId && a.fromUserId < b.toUserId)))
  {
  }

  lemma ListedDebt(book: Book, list: seq<Transfer>, u: UserId, v: UserId) returns (i: nat)
    requires IsPairwise(book, list) && Owes(book, u, v)
    ensures i < |list| && list[i] == Transfer(u, v, NetDebt(book, u, v))
  {
    var t := Transfer(u, v, NetDebt(book, u, v));
    assert t in list;
    i :| 0 <= i < |list| && list[i] == t;
  }

  lemma Listed(book: Book, list: seq<Transfer>, i: nat)
    requires IsPairwise(book, list) && i < |list|
    ensures Owes(book, list[i].fromUserId, list[i].toUserId) && list[i].fromUserId != list[i].toUserId
  {
  }

  /** The list is in the promised order if and only if no two debts cross. */
  lemma FromOrderIff(book: Book, list: seq<Transfer>)
    requires IsPairwise(book, list)
    ensures InFromOrder(list) <==> forall p, q, r, s :: !Crossing(book, p, q, r, s)
  {
    if InFromOrder(list) {
      forall p: UserId, q: UserId, r: UserId, s: UserId ensures !Crossing(book, p, q, r, s) {
        if Owes(book, p, q) && Owes(book, r, s) {
          var i := ListedDebt(book, list, p, q);
          var j := ListedDebt(book, list, r, s);
          assert i < j ==> FromBefore(list[i], list[j]);
          assert j < i ==> PairBefore(list[j], list[i]);
        }
      }
    }
    if forall p, q, r, s :: !Crossing(book, p, q, r, s) {
      forall i, j | 0 <= i < j < |list| ensures FromBefore(list[i], list[j]) {
        Listed(book, list, i);
        Listed(book, list, j);
        CrossingIsMisplaced(list[i], list[j]);
        assert !Crossing(book, list[i].fromUserId, list[i].toUserId, list[j].fromUserId, list[j].toUserId);
      }
    }
  }

  /** A valid ledger of two settlements and its list, which is not in the promised order: 1 owes 3, and 2 owes 1. */
  lemma FromOrderFails() returns (book: Book, list: seq<Transfer>)
    ensures ValidBook(book) && IsPairwise(book, list) && !InFromOrder(list)
  {
    var a, b := Transfer(1, 2, 5), Transfer(3, 1, 5);
    book, list := Book([], [a, b]), [Transfer(2, 1, 5), Transfer(1, 3, 5)];
    forall u: UserId, v: UserId
      ensures NetDebt(book, u, v) ==
        if (u, v) == (2, 1) || (u, v) == (1, 3) then 5 else if (u, v) == (1, 2) || (u, v) == (3, 1) then -5 else 0
    {
      SumTwo(a, b, CreditBetween(u, v));
      SumTwo(a, b, CreditBetween(v, u));
    }
    assert !FromBefore(list[0], list[1]);
  }
}
