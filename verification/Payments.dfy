/** How a payment is spread over the open invoices of an account. */
module Payments {
  /** A requested allocation. */
  datatype Request = Request(invoice: nat, amount: int)

  function Sum(s: seq<int>): int {
    if s == [] then 0 else Sum(s[..|s| - 1]) + s[|s| - 1]
  }

  /** What the requests ask for one invoice, and for all. */
  function Asked(requests: seq<Request>, invoice: nat): int {
    if requests == [] then 0
    else
      var r := requests[|requests| - 1];
      Asked(requests[..|requests| - 1], invoice) + if r.invoice == invoice then r.amount else 0
  }

  function AskedInAll(requests: seq<Request>): int {
    if requests == [] then 0 else AskedInAll(requests[..|requests| - 1]) + requests[|requests| - 1].amount
  }

  ghost predicate Distinct(ids: seq<nat>) {
    forall i, j | 0 <= i < j < |ids| :: ids[i] != ids[j]
  }

  /** The requests are acceptable as a whole: known invoices, positive amounts, within what each invoice
      owes and within the payment. */
  ghost predicate Acceptable(ids: seq<nat>, dues: seq<int>, amount: int, requests: seq<Request>)
    requires |ids| == |dues|
  {
    && (forall k | 0 <= k < |requests| :: requests[k].invoice in ids && requests[k].amount > 0)
    && (forall i | 0 <= i < |ids| :: Asked(requests, ids[i]) > 0 ==> Asked(requests, ids[i]) <= dues[i])
    && AskedInAll(requests) <= amount
  }

  /** Acceptable requests are those that can be taken one after the other: the next one names a listed invoice and
      fits what that invoice still owes and what is left of the payment. */
  lemma AcceptableNext(ids: seq<nat>, dues: seq<int>, amount: int, requests: seq<Request>, r: Request)
    requires |ids| == |dues| && Distinct(ids) && Acceptable(ids, dues, amount, requests)
    ensures Acceptable(ids, dues, amount, []) <==> amount >= 0
    ensures Acceptable(ids, dues, amount, requests + [r]) <==>
      && r.amount > 0 && r.amount <= amount - AskedInAll(requests)
      && exists i :: 0 <= i < |ids| && ids[i] == r.invoice && r.amount <= dues[i] - Asked(requests, ids[i])
  {
    var more := requests + [r];
    assert more[..|requests|] == requests && more[|requests|] == r;
    if r.amount > 0 && r.invoice in ids {
      var i :| 0 <= i < |ids| && ids[i] == r.invoice;
      AskedNonNegative(requests, ids[i]);
      assert Asked(more, ids[i]) == Asked(requests, ids[i]) + r.amount;
      assert forall j | 0 <= j < |ids| && j != i :: Asked(more, ids[j]) == Asked(requests, ids[j]);
    }
  }

  lemma {:induction false} AskedNonNegative(requests: seq<Request>, invoice: nat)
    requires forall i | 0 <= i < |requests| :: requests[i].amount > 0
    ensures Asked(requests, invoice) >= 0
  {
    if requests != [] {
      AskedNonNegative(requests[..|requests| - 1], invoice);
    }
  }

  lemma {:induction false} SumUpdate(s: seq<int>, i: nat, v: int)
    requires i < |s|
    ensures Sum(s[i := v]) == Sum(s) - s[i] + v
  {
    var n := |s| - 1;
    if i == n {
      assert s[i := v][..n] == s[..n];
    } else {
      SumUpdate(s[..n], i, v);
      assert s[i := v][..n] == s[..n][i := v];
    }
  }

  lemma {:induction false} SumZero(s: seq<int>)
    requires forall i | 0 <= i < |s| :: s[i] == 0
    ensures Sum(s) == 0
  {
    if s != [] {
      SumZero(s[..|s| - 1]);
    }
  }

  /** With positive requests, the sums only grow along the list. */
  lemma {:induction false} AskedGrows(requests: seq<Request>, k: nat, invoice: nat)
    requires k <= |requests| && forall i | 0 <= i < |requests| :: requests[i].amount > 0
    ensures Asked(requests[..k], invoice) <= Asked(requests, invoice)
    ensures AskedInAll(requests[..k]) <= AskedInAll(requests)
    decreases |requests|
  {
    var n := |requests| - 1;
    if k == |requests| {
      assert requests[..k] == requests;
    } else {
      AskedGrows(requests[..n], k, invoice);
      assert requests[..n][..k] == requests[..k];
    }
  }

  lemma AskedNext(requests: seq<Request>, k: nat, invoice: nat)
    requires k < |requests|
    ensures Asked(requests[..k + 1], invoice)
        == Asked(requests[..k], invoice) + if requests[k].invoice == invoice then requests[k].amount else 0
    ensures AskedInAll(requests[..k + 1]) == AskedInAll(requests[..k]) + requests[k].amount
  {
    assert requests[..k + 1][..k] == requests[..k];
  }

  /** The plan after some requests: they are acceptable, each invoice has what was asked for it, and the
      money is accounted for. */
  ghost predicate Taken(ids: seq<nat>, dues: seq<int>, amount: int, requests: seq<Request>, planned: seq<int>,
                        remaining: int)
    requires |ids| == |dues|
  {
    && |planned| == |ids|
    && Acceptable(ids, dues, amount, requests)
    && (forall i | 0 <= i < |ids| :: planned[i] == Asked(requests, ids[i]) && planned[i] >= 0)
    && remaining == amount - AskedInAll(requests)
    && Sum(planned) + remaining == amount
  }

  /** The next request, for the invoice at i, fits what is still owed and left. */
  lemma Fits(ids: seq<nat>, dues: seq<int>, amount: int, requests: seq<Request>, r: Request, i: nat, planned: seq<int>,
             remaining: int)
    requires |ids| == |dues| && Distinct(ids) && Taken(ids, dues, amount, requests, planned, remaining)
    requires i < |ids| && r.invoice == ids[i] && 0 < r.amount <= dues[i] - planned[i] && r.amount <= remaining
    ensures Taken(ids, dues, amount, requests + [r], planned[i := planned[i] + r.amount], remaining - r.amount)
  {
    assert (requests + [r])[..|requests|] == requests;
    SumUpdate(planned, i, planned[i] + r.amount);
    assert forall j | 0 <= j < |ids| ::
      Asked(requests + [r], ids[j]) == Asked(requests, ids[j]) + if j == i then r.amount else 0;
  }

  lemma DoesNotFit(ids: seq<nat>, dues: seq<int>, amount: int, requests: seq<Request>, k: nat, i: nat)
    requires |ids| == |dues| && k < |requests| && i < |ids| && requests[k].invoice == ids[i] && requests[k].amount > 0
    requires Asked(requests[..k], ids[i]) >= 0
    requires
      || requests[k].amount > dues[i] - Asked(requests[..k], ids[i])
      || requests[k].amount > amount - AskedInAll(requests[..k])
    ensures !Acceptable(ids, dues, amount, requests)
  {
    AskedNext(requests, k, ids[i]);
    if forall x | 0 <= x < |requests| :: requests[x].amount > 0 {
      AskedGrows(requests, k + 1, ids[i]);
    }
  }

  method IndexOf(ids: seq<nat>, id: nat) returns (found: bool, i: nat)
    ensures found <==> id in ids
    ensures found ==> i < |ids| && ids[i] == id
  {
    for k := 0 to |ids|
      invariant id !in ids[..k]
    {
      if ids[k] == id {
        return true, k;
      }
    }
    found, i := false, 0;
  }

  /** Take the requested allocations one by one; refuse as soon as one does not fit. */
  method TakeRequests(ids: seq<nat>, dues: seq<int>, amount: int, requests: seq<Request>)
    returns (ok: bool, planned: seq<int>, remaining: int)
    requires |ids| == |dues| && Distinct(ids) && amount >= 0
    ensures ok <==> Acceptable(ids, dues, amount, requests)
    ensures |planned| == |ids|
    ensures ok ==> forall i | 0 <= i < |ids| :: planned[i] == Asked(requests, ids[i])
    ensures ok ==>
      (forall i | 0 <= i < |ids| :: planned[i] >= 0) && Sum(planned) + remaining == amount && remaining >= 0
  {
    remaining := amount;
    planned := seq(|ids|, _ => 0);
    SumZero(planned);
    for k := 0 to |requests|
      invariant Taken(ids, dues, amount, requests[..k], planned, remaining)
    {
      var r := requests[k];
      var found, i := IndexOf(ids, r.invoice);
      if !found || r.amount <= 0 {
        return false, planned, remaining;
      }
      if r.amount > dues[i] - planned[i] || r.amount > remaining {
        DoesNotFit(ids, dues, amount, requests, k, i);
        return false, planned, remaining;
      }
      assert requests[..k + 1] == requests[..k] + [r];
      Fits(ids, dues, amount, requests[..k], r, i, planned, remaining);
      planned := planned[i := planned[i] + r.amount];
      remaining := remaining - r.amount;
    }
    assert requests[..|requests|] == requests;
    ok := true;
  }

  /** Spread what remains over the invoices, oldest first. */
  method SpreadRest(dues: seq<int>, asked: seq<int>, rest: int) returns (planned: seq<int>, remaining: int)
    requires |dues| == |asked| && rest >= 0
    ensures |planned| == |dues| && 0 <= remaining && Sum(planned) + remaining == Sum(asked) + rest
    ensures forall i | 0 <= i < |dues| :: planned[i] == asked[i] || asked[i] < planned[i] <= dues[i]
    ensures forall i, j | 0 <= i < j < |dues| && planned[j] > asked[j] :: planned[i] >= dues[i]
    ensures remaining > 0 ==> forall i | 0 <= i < |dues| :: planned[i] >= dues[i]
  {
    planned, remaining := asked, rest;
    for k := 0 to |dues|
      invariant |planned| == |dues| && 0 <= remaining && Sum(planned) + remaining == Sum(asked) + rest
      invariant forall i | k <= i < |dues| :: planned[i] == asked[i]
      invariant forall i | 0 <= i < |dues| :: planned[i] == asked[i] || asked[i] < planned[i] <= dues[i]
      invariant forall i, j | 0 <= i < j < |dues| && planned[j] > asked[j] :: planned[i] >= dues[i]
      invariant remaining > 0 ==> forall i | 0 <= i < k :: planned[i] >= dues[i]
    {
      if remaining <= 0 {
        break;
      }
      var due := dues[k] - planned[k];
      if due <= 0 {
        continue;
      }
      var take := if due < remaining then due else remaining;
      SumUpdate(planned, k, planned[k] + take);
      planned := planned[k := planned[k] + take];
      remaining := remaining - take;
    }
  }

  /** The plan of a payment: the money is conserved, no invoice gets more than it owes, automatic money
      reaches an invoice only when every older one is paid in full, and money is left over only when
      nothing is due. */
  method PlanPayment(ids: seq<nat>, dues: seq<int>, amount: int, requests: seq<Request>, auto: bool)
    returns (ok: bool, planned: seq<int>, remaining: int)
    requires |ids| == |dues| && Distinct(ids)
    ensures ok <==> amount > 0 && Acceptable(ids, dues, amount, requests)
    ensures ok ==> |planned| == |ids| && remaining >= 0 && Sum(planned) + remaining == amount
    ensures ok ==> forall i | 0 <= i < |ids| :: 0 <= planned[i] && (planned[i] > 0 ==> planned[i] <= dues[i])
    ensures ok ==> forall i | 0 <= i < |ids| :: planned[i] >= Asked(requests, ids[i])
    ensures ok && !auto ==> forall i | 0 <= i < |ids| :: planned[i] == Asked(requests, ids[i])
    ensures ok && auto ==>
      forall i, j | 0 <= i < j < |ids| && planned[j] > Asked(requests, ids[j]) :: planned[i] >= dues[i]
    ensures ok && auto && remaining > 0 ==> forall i | 0 <= i < |ids| :: planned[i] >= dues[i]
  {
    if amount <= 0 {
      return false, [], 0;
    }
    ok, planned, remaining := TakeRequests(ids, dues, amount, requests);
    if ok && auto {
      planned, remaining := SpreadRest(dues, planned, remaining);
    }
  }
}
