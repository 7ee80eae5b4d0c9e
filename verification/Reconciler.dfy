/** What one reconciler pass achieves. */
module Reconciler {
  import opened Basics
  import opened Ledger
  import opened Books
  import opened Settlement
  import opened Prepaid
  import opened Store

  /** Orphans of a pass: stale and without a live channel. */
  ghost predicate Orphaned(c: CallId, stale: seq<CallId>, live: set<CallId>) {
    c in stale && c !in live
  }

  /** The pass closes exactly the orphans' reservations, charges no customer anything, and keeps the books. */
  lemma {:induction false} PassReleasesOrphans(db: Db, stale: seq<CallId>, live: set<CallId>, env: Costing)
    requires Inv(db)
    ensures var d := Exec(db, OrphanBills(stale, live, env), 0);
      && Inv(d)
      && (forall c :: c in d.open <==> c in db.open && !Orphaned(c, stale, live))
      && (forall c | c in d.open :: d.open[c] == db.open[c])
      && (forall o | o in db.accounts && o.Customer? ::
            o in d.accounts && d.accounts[o].balance == db.accounts[o].balance
              && d.accounts[o].credit == db.accounts[o].credit)
  {
    if stale != [] {
      var rest, c := stale[..|stale| - 1], stale[|stale| - 1];
      var mid := Exec(db, OrphanBills(rest, live, env), 0);
      assert stale == rest + [c];
      PassReleasesOrphans(db, rest, live, env);
      if c !in live {
        ExecAppend(db, OrphanBills(rest, live, env), Step.Bill(Orphan(c), env), 0);
        OrphanClosed(mid, c, env);
      }
    }
  }

  /** Where the stale list names a call without a live channel. */
  function OrphanPlaces(stale: seq<CallId>, live: set<CallId>): set<nat> {
    set i: nat | i < |stale| && stale[i] !in live
  }

  /** The pass counts every stale call without a live channel: none of them fails. */
  lemma {:induction false} PassCountsOrphans(db: Db, stale: seq<CallId>, live: set<CallId>, env: Costing)
    requires Inv(db)
    ensures OrphansBilled(db, stale, live, env) == |OrphanPlaces(stale, live)|
  {
    if stale != [] {
      var rest, n := stale[..|stale| - 1], |stale| - 1;
      PassCountsOrphans(db, rest, live, env);
      PassReleasesOrphans(db, rest, live, env);
      OrphanNeverFails(Exec(db, OrphanBills(rest, live, env), 0), stale[n]);
      NextOrphan(stale, live);
    } else {
      assert OrphanPlaces(stale, live) == {};
    }
  }

  lemma NextOrphan(stale: seq<CallId>, live: set<CallId>)
    requires stale != []
    ensures var n := |stale| - 1;
      |OrphanPlaces(stale, live)| == |OrphanPlaces(stale[..n], live)| + if stale[n] !in live then 1 else 0
  {
    var n := |stale| - 1;
    var before, after := OrphanPlaces(stale[..n], live), OrphanPlaces(stale, live);
    if stale[n] !in live {
      assert after == before + {n};
    } else {
      assert after == before;
    }
  }

  lemma OrphanNeverFails(db: Db, c: CallId)
    requires Inv(db)
    ensures BillOutcome(db, Orphan(c)) != Failed
  {
  }

  lemma {:induction false} OrphanClosed(db: Db, c: CallId, env: Costing)
    requires Inv(db)
    ensures var d := BillTx(db, Orphan(c), env);
      && Inv(d)
      && d.open == db.open - {c}
      && (forall o | o in db.accounts && o.Customer? ::
            o in d.accounts && d.accounts[o].balance == db.accounts[o].balance
              && d.accounts[o].credit == db.accounts[o].credit)
  {
    BillKeepsInv(db, Orphan(c), env);
    if BillOutcome(db, Orphan(c)) == Billed {
      FreeChargeKeepsBalances(db, c, Assess(db, Orphan(c), env));
    } else {
      assert db.open - {c} == db.open;
    }
  }

  lemma {:induction false} FreeChargeKeepsBalances(db: Db, c: CallId, ch: Charges)
    requires Inv(db) && c in db.open && ch.price == None
    ensures var d := ChargeTx(db, c, ch);
      && d.open == db.open - {c}
      && (forall o | o in db.accounts && o.Customer? ::
            o in d.accounts && d.accounts[o].balance == db.accounts[o].balance
              && d.accounts[o].credit == db.accounts[o].credit)
  {
    BillMovesAvailable(db, c, ch);
  }
}
