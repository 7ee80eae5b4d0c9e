/** The admission commands as the service issues them, one after the other. */
module AdmissionStore {
  import opened Admission

  class Counters {
    var concurrent: map<Key, int>
    var cps: map<(Key, int), int>

    /** Count the call in, and out again when it is over a limit. */
    method Admit(k: Key, second: int, l: Limits) returns (concurrentExceeded: bool, cpsExceeded: bool)
      modifies this
      ensures concurrentExceeded <==> 0 < l.concurrent <= old(Value(concurrent, k))
      ensures cpsExceeded <==> 0 < l.cps <= old(Value(cps, (k, second)))
      ensures Value(concurrent, k) == old(Value(concurrent, k)) + if concurrentExceeded || cpsExceeded then 0 else 1
      ensures forall x: Key | x != k :: Value(concurrent, x) == old(Value(concurrent, x))
      ensures cps == old(cps)[(k, second) := old(Value(cps, (k, second))) + 1]
    {
      var inProgress, started := Value(concurrent, k) + 1, Value(cps, (k, second)) + 1;
      concurrent, cps := concurrent[k := inProgress], cps[(k, second) := started];
      concurrentExceeded, cpsExceeded := false, false;
      if l.concurrent > 0 && inProgress > l.concurrent {
        concurrentExceeded := true;
      }
      if l.cps > 0 && started > l.cps {
        cpsExceeded := true;
      }
      if concurrentExceeded || cpsExceeded {
        concurrent := concurrent[k := Value(concurrent, k) - 1];
      }
    }

    /** Count the call out, never below zero. */
    method Leave(k: Key)
      modifies this`concurrent
      ensures Value(concurrent, k) == if old(Value(concurrent, k)) >= 1 then old(Value(concurrent, k)) - 1 else 0
      ensures forall x: Key | x != k :: Value(concurrent, x) == old(Value(concurrent, x))
    {
      var n := Value(concurrent, k) - 1;
      concurrent := concurrent[k := n];
      if n < 0 {
        concurrent := concurrent[k := 0];
      }
    }

    /** A call takes the customer's slot and, when the node has limits, the node's slot; it ends with
        both or with neither. */
    method Authorize(customer: nat, limits: Limits, node: Limits, second: int) returns (admitted: bool)
      modifies this
      ensures admitted || old(Value(concurrent, Customer(customer))) >= 0 ==>
        Value(concurrent, Customer(customer)) == old(Value(concurrent, Customer(customer))) + Bit(admitted)
      ensures Value(concurrent, Global)
           == old(Value(concurrent, Global)) + Bit(admitted && (node.concurrent > 0 || node.cps > 0))
      ensures forall x: Key | x != Customer(customer) && x != Global ::
        Value(concurrent, x) == old(Value(concurrent, x))
      ensures admitted <==>
        && (limits.concurrent > 0 ==> old(Value(concurrent, Customer(customer))) < limits.concurrent)
        && (limits.cps > 0 ==> old(Value(cps, (Customer(customer), second))) < limits.cps)
        && (node.concurrent > 0 ==> old(Value(concurrent, Global)) < node.concurrent)
        && (node.cps > 0 ==> old(Value(cps, (Global, second))) < node.cps)
    {
      var concurrentExceeded, cpsExceeded := Admit(Customer(customer), second, limits);
      if concurrentExceeded {
        return false;
      }
      if cpsExceeded {
        return false;
      }
      if node.concurrent > 0 || node.cps > 0 {
        concurrentExceeded, cpsExceeded := Admit(Global, second, node);
        if concurrentExceeded {
          Leave(Customer(customer));
          return false;
        }
        if cpsExceeded {
          Leave(Customer(customer));
          return false;
        }
      }
      admitted := true;
    }

    /** Leaving gives back what Authorize took. */
    method LeaveAdmission(customer: nat, node: Limits)
      modifies this`concurrent
      ensures old(Value(concurrent, Customer(customer))) >= 1 ==>
        Value(concurrent, Customer(customer)) == old(Value(concurrent, Customer(customer))) - 1
      ensures (node.concurrent > 0 || node.cps > 0) && old(Value(concurrent, Global)) >= 1 ==>
        Value(concurrent, Global) == old(Value(concurrent, Global)) - 1
      ensures node.concurrent <= 0 && node.cps <= 0 ==> Value(concurrent, Global) == old(Value(concurrent, Global))
      ensures forall x: Key | x != Customer(customer) && x != Global ::
        Value(concurrent, x) == old(Value(concurrent, x))
    {
      Leave(Customer(customer));
      if node.concurrent > 0 || node.cps > 0 {
        Leave(Global);
      }
    }

    /** Make every customer counter the number of that customer's open calls, whatever drift there was. */
    method SyncCounters(open: map<nat, nat>)
      modifies this`concurrent
      ensures forall c: nat :: Value(concurrent, Customer(c)) == if c in open then open[c] else 0
      ensures forall k: Key | !k.Customer? :: Value(concurrent, k) == old(Value(concurrent, k))
    {
      var current := concurrent;
      var todo := set k | k in current && k.Customer? :: k.id;
      while todo != {}
        invariant forall k: Key | !k.Customer? :: Value(concurrent, k) == old(Value(concurrent, k))
        invariant forall c: nat | Customer(c) in current && c !in todo ::
          Value(concurrent, Customer(c)) == OpenCalls(open, c)
        invariant forall c: nat | Customer(c) !in current :: Value(concurrent, Customer(c)) == 0
        invariant forall c: nat | c in todo :: Value(concurrent, Customer(c)) == Value(current, Customer(c))
        decreases todo
      {
        var c :| c in todo;
        if OpenCalls(open, c) != Value(current, Customer(c)) {
          concurrent := concurrent[Customer(c) := OpenCalls(open, c)];
        }
        todo := todo - {c};
      }
      todo := open.Keys;
      while todo != {}
        invariant todo <= open.Keys
        invariant forall k: Key | !k.Customer? :: Value(concurrent, k) == old(Value(concurrent, k))
        invariant forall c: nat | Customer(c) in current || c !in todo ::
          Value(concurrent, Customer(c)) == OpenCalls(open, c)
        invariant forall c: nat | Customer(c) !in current && c in todo :: Value(concurrent, Customer(c)) == 0
        decreases todo
      {
        var c :| c in todo;
        if Customer(c) !in current && open[c] > 0 {
          concurrent := concurrent[Customer(c) := open[c]];
        }
        todo := todo - {c};
      }
    }
  }

  function OpenCalls(open: map<nat, nat>, c: nat): nat {
    if c in open then open[c] else 0
  }
}
