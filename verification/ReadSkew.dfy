/**
 A balances request reads the expenses and then, in a second statement, the
 settlements.  Commands that commit in between show in the second reading only.  The
 comments of both callers promise that no settlement is then seen without the expense
 before it; the order of the two readings does not give that, the other order would.
 */
module ReadSkew {
  import opened Wrappers
  import opened Sums
  import opened Ledger
  import opened NetBalances
  import opened NorthWestFill
  import opened PairwiseDebts
  import opened Reconciliation
  import opened Simplify
  import opened SettleUp
  import opened TripLedger
  import Splits

  /** The trip after the first `n` commands. */
  ghost function At(t: Trip, commands: seq<Command>, n: nat): Trip
    requires n <= |commands|
  {
    Run(t, commands[..n])
  }

  /** The ledger a request computes with that read the expenses after `i` commands and the settlements after `j`. */
  ghost function Reading(t: Trip, commands: seq<Command>, i: nat, j: nat): Book
    requires i <= |commands| && j <= |commands|
  {
    Book(Active(At(t, commands, i).rows), At(t, commands, j).settlements)
  }

  /** However far apart the readings, the engine accepts the ledger and its answers settle and reconcile. */
  lemma ReadingIsOk(
    t: Trip, commands: seq<Command>, i: nat, j: nat, members: seq<UserId>, nets: seq<NetBalance>, pairwise: seq<Transfer>)
    requires TripOk(t) && Distinct(members) && i <= |commands| && j <= |commands|
    ensures var b := Reading(t, commands, i, j);
            && BookFault(b) == None
            && (IsReport(members, b, nets) ==> Sum(nets, NetMinor()) == 0 && Settles(Plan(nets), nets))
            && (IsPairwise(b, pairwise) ==> forall u :: Flow(pairwise, u) == -Net(b, u))
  {
    RunKeepsOk(t, commands[..i]);
    RunKeepsOk(t, commands[..j]);
    OkLedger(Trip(members, At(t, commands, i).rows, At(t, commands, j).settlements), nets, pairwise);
  }

  // ── What a command changes ─────────────────────────────────────────────────

  /** Command `p` creates or deletes an expense. */
  ghost predicate ChangesRows(t: Trip, commands: seq<Command>, p: nat)
    requires p < |commands|
  {
    At(t, commands, p + 1).rows != At(t, commands, p).rows
  }

  /** Command `p` creates an expense. */
  ghost predicate Creates(t: Trip, commands: seq<Command>, p: nat)
    requires p < |commands|
  {
    |At(t, commands, p + 1).rows| > |At(t, commands, p).rows|
  }

  /** Command `q` records a settlement. */
  ghost predicate Pays(t: Trip, commands: seq<Command>, q: nat)
    requires q < |commands|
  {
    At(t, commands, q + 1).settlements != At(t, commands, q).settlements
  }

  /** How far a history of rows has come: each creation and each deletion takes it one further. */
  function Progress(rows: seq<ExpenseRow>): nat {
    if rows == [] then 0
    else Progress(rows[..|rows| - 1]) + if rows[|rows| - 1].deleted then 2 else 1
  }

  lemma {:induction false} DeletionProgress(rows: seq<ExpenseRow>, id: nat)
    requires id < |rows| && !rows[id].deleted
    ensures Progress(rows[id := rows[id].(deleted := true)]) == Progress(rows) + 1
  {
    var n := |rows| - 1;
    var after := rows[id := rows[id].(deleted := true)];
    if id == n {
      assert after[..n] == rows[..n];
    } else {
      assert after[..n] == rows[..n][id := rows[id].(deleted := true)];
      DeletionProgress(rows[..n], id);
    }
  }

  /** One command changes expenses or settlements, not both, and never takes a change back. */
  lemma OneStep(t: Trip, commands: seq<Command>, p: nat)
    requires p < |commands|
    ensures var a, b := At(t, commands, p), At(t, commands, p + 1);
            && Progress(b.rows) >= Progress(a.rows) && (Progress(b.rows) == Progress(a.rows) <==> b.rows == a.rows)
            && |b.rows| >= |a.rows|
            && |b.settlements| >= |a.settlements| && (|b.settlements| == |a.settlements| <==> b.settlements == a.settlements)
            && (ChangesRows(t, commands, p) ==> !Pays(t, commands, p))
  {
    var a, c := At(t, commands, p), commands[p];
    assert commands[..p + 1][..p] == commands[..p] && commands[..p + 1][p] == c;
    if c.DeleteExpense? && SoftDelete(a, c.actor, c.id).1.Accepted? {
      DeletionProgress(a.rows, c.id);
    }
    if c.CreateExpense? && Create(a, c.actor, c.body, c.splitTypesEnabled).1.Accepted? {
      var b := Create(a, c.actor, c.body, c.splitTypesEnabled).0;
      assert b.rows[..|b.rows| - 1] == a.rows;
    }
  }

  lemma {:induction false} Grows(t: Trip, commands: seq<Command>, m: nat, n: nat)
    requires m <= n <= |commands|
    ensures var a, b := At(t, commands, m), At(t, commands, n);
            Progress(b.rows) >= Progress(a.rows) && |b.rows| >= |a.rows| && |b.settlements| >= |a.settlements|
  {
    if m < n {
      Grows(t, commands, m, n - 1);
      OneStep(t, commands, n - 1);
    }
  }

  lemma {:induction false} RowsStay(t: Trip, commands: seq<Command>, m: nat, n: nat)
    requires m <= n <= |commands| && forall p :: m <= p < n ==> !ChangesRows(t, commands, p)
    ensures At(t, commands, n).rows == At(t, commands, m).rows
  {
    if m < n {
      RowsStay(t, commands, m, n - 1);
      assert !ChangesRows(t, commands, n - 1);
    }
  }

  lemma {:induction false} SomeoneCreates(t: Trip, commands: seq<Command>, m: nat, n: nat) returns (p: nat)
    requires m <= n <= |commands| && |At(t, commands, n).rows| > |At(t, commands, m).rows|
    ensures m <= p < n && Creates(t, commands, p)
  {
    if Creates(t, commands, n - 1) {
      p := n - 1;
    } else {
      p := SomeoneCreates(t, commands, m, n - 1);
    }
  }

  // ── When two readings are one ──────────────────────────────────────────────

  /** The two readings show one state the trip was in while they were made. */
  ghost predicate IsSnapshot(t: Trip, commands: seq<Command>, i: nat, j: nat)
    requires i <= j <= |commands|
  {
    exists n :: i <= n <= j && At(t, commands, n).rows == At(t, commands, i).rows
                && At(t, commands, n).settlements == At(t, commands, j).settlements
  }

  ghost predicate ChangeThenPayment(t: Trip, commands: seq<Command>, i: nat, j: nat)
    requires i <= j <= |commands|
  {
    exists p, q :: i <= p < q < j && ChangesRows(t, commands, p) && Pays(t, commands, q)
  }

  lemma {:induction false} LastPayment(t: Trip, commands: seq<Command>, i: nat, j: nat) returns (n: nat)
    requires i <= j <= |commands|
    ensures i <= n <= j && At(t, commands, n).settlements == At(t, commands, j).settlements
    ensures n > i ==> Pays(t, commands, n - 1)
  {
    if i < j && !Pays(t, commands, j - 1) {
      n := LastPayment(t, commands, i, j - 1);
    } else {
      n := j;
    }
  }

  /** They are one state exactly when no expense was created or deleted before a settlement between them. */
  lemma SnapshotIff(t: Trip, commands: seq<Command>, i: nat, j: nat)
    requires i <= j <= |commands|
    ensures IsSnapshot(t, commands, i, j) <==> !ChangeThenPayment(t, commands, i, j)
  {
    if ChangeThenPayment(t, commands, i, j) {
      var p, q :| i <= p < q < j && ChangesRows(t, commands, p) && Pays(t, commands, q);
      forall n | i <= n <= j
        ensures At(t, commands, n).rows != At(t, commands, i).rows || At(t, commands, n).settlements != At(t, commands, j).settlements
      {
        Torn(t, commands, i, j, p, q, n);
      }
    } else {
      var n := LastPayment(t, commands, i, j);
      if n > i {
        OneStep(t, commands, n - 1);
        RowsStay(t, commands, i, n);
      }
    }
  }

  lemma Torn(t: Trip, commands: seq<Command>, i: nat, j: nat, p: nat, q: nat, n: nat)
    requires i <= p < q < j <= |commands| && ChangesRows(t, commands, p) && Pays(t, commands, q) && i <= n <= j
    ensures At(t, commands, n).rows != At(t, commands, i).rows || At(t, commands, n).settlements != At(t, commands, j).settlements
  {
    if n <= q {
      Grows(t, commands, n, q);
      OneStep(t, commands, q);
      Grows(t, commands, q + 1, j);
    } else {
      Grows(t, commands, i, p);
      OneStep(t, commands, p);
      Grows(t, commands, p + 1, n);
    }
  }

  // ── Settlements without the expense before them ────────────────────────────

  /** A settlement of the reading was recorded when an expense was there that the reading lacks. */
  ghost predicate SeesOrphan(t: Trip, commands: seq<Command>, i: nat, j: nat)
    requires i <= |commands| && j <= |commands|
  {
    exists q :: 0 <= q < j && Pays(t, commands, q) && |At(t, commands, q).rows| > |At(t, commands, i).rows|
  }

  /** That happens exactly when an expense and then a settlement were created between the readings. */
  lemma OrphanIff(t: Trip, commands: seq<Command>, i: nat, j: nat)
    requires i <= j <= |commands|
    ensures SeesOrphan(t, commands, i, j) <==>
            exists p, q :: i <= p < q < j && Creates(t, commands, p) && Pays(t, commands, q)
  {
    if SeesOrphan(t, commands, i, j) {
      var q :| 0 <= q < j && Pays(t, commands, q) && |At(t, commands, q).rows| > |At(t, commands, i).rows|;
      if q < i {
        Grows(t, commands, q, i);
      } else {
        var p := SomeoneCreates(t, commands, i, q);
      }
    }
    forall p, q | i <= p < q < j && Creates(t, commands, p) && Pays(t, commands, q) ensures SeesOrphan(t, commands, i, j) {
      Grows(t, commands, i, p);
      Grows(t, commands, p + 1, q);
    }
  }

  /** Reading the settlements first would rule it out. */
  lemma SettlementsFirstSeesNone(t: Trip, commands: seq<Command>, i: nat, j: nat)
    requires j <= i <= |commands|
    ensures !SeesOrphan(t, commands, i, j)
  {
    forall q | 0 <= q < j ensures |At(t, commands, q).rows| <= |At(t, commands, i).rows| {
      Grows(t, commands, q, i);
    }
  }

  /** An equal split between the two members of a trip, paid by one of them. */
  lemma EqualIsAccepted(t: Trip, payer: UserId, other: UserId, amount: int) returns (c: Command)
    requires TripOk(t) && payer != other && t.members == [payer, other] && AmountInRange(amount)
    ensures var r := Execute(t, c);
            |r.rows| == |t.rows| + 1 && r.members == t.members && r.settlements == t.settlements
  {
    var body := Body(amount, Splits.EQUAL, Some(payer), None, None, None);
    c := CreateExpense(payer, body, false);
    assert PortionIds(EffectivePayments(body)) == [payer];
    assert Splits.Ids(RawParticipants(body, t.members)) == t.members;
    AcceptedIff(t, payer, body, false);
  }

  /**
   Such a history, for any two members: between the readings one pays for both and the
   other pays back.  The request computes with the repayment alone, a ledger that never was.
   */
  lemma OrphanShown(payer: UserId, other: UserId, amount: int) returns (t: Trip, commands: seq<Command>)
    requires payer != other && AmountInRange(amount)
    ensures TripOk(t) && |commands| == 2 && SeesOrphan(t, commands, 0, 2) && !IsSnapshot(t, commands, 0, 2)
    ensures BookOf(t) == Book([], []) && Reading(t, commands, 0, 2) == Book([], [Transfer(other, payer, amount)])
  {
    t := Trip([payer, other], [], []);
    var create := EqualIsAccepted(t, payer, other, amount);
    var settle := CreateSettlement(other, Transfer(other, payer, amount));
    commands := [create, settle];
    assert commands[..0] == [] && commands[..1] == [create] && commands[..2] == commands;
    assert [create][..0] == [];
    assert At(t, commands, 0) == t;
    assert At(t, commands, 1) == Execute(t, create);
    assert At(t, commands, 2) == Execute(Execute(t, create), settle);
    assert Creates(t, commands, 0) && ChangesRows(t, commands, 0) && Pays(t, commands, 1);
    OrphanIff(t, commands, 0, 2);
    SnapshotIff(t, commands, 0, 2);
  }
}
