/** The fixed ceiling for concurrent device connections. */
module Connections {

  /** `ConnectionBudget`: each method is one atomic block of a lease, and leases interleave freely. */
  class ConnectionBudget {
    const limit: nat

    var permits: nat
    var active: nat

    /** The leases that hold a permit, and those of them that are counted as active. */
    ghost var holders: set<nat>
    ghost var counted: set<nat>

    ghost predicate Valid()
      reads this
    {
      permits + |holders| == limit && active == |counted| && counted <= holders && active <= |holders|
    }

    constructor (limit: nat)
      requires limit >= 1
      ensures Valid() && this.limit == limit && permits == limit && active == 0 && holders == {}
    {
      this.limit, permits, active := limit, limit, 0;
      holders, counted := {}, {};
    }

    /** A lease takes a permit, or gives up because none became free in time. */
    method Acquire(ghost lease: nat) returns (ok: bool)
      requires Valid() && lease !in holders
      modifies this`permits, this`holders
      ensures Valid() && ok == (|old(holders)| < limit)
      ensures holders == if ok then old(holders) + {lease} else old(holders)
    {
      if permits == 0 {
        return false;
      }
      permits := permits - 1;
      holders := holders + {lease};
      return true;
    }

    method Enter(ghost lease: nat)
      requires Valid() && lease in holders && lease !in counted
      modifies this`active, this`counted
      ensures Valid() && counted == old(counted) + {lease} && active <= limit
    {
      Room(holders, counted, lease);
      active := active + 1;
      counted := counted + {lease};
    }

    method Leave(ghost lease: nat)
      requires Valid() && lease in counted
      modifies this`active, this`counted
      ensures Valid() && counted == old(counted) - {lease}
    {
      active := active - 1;
      counted := counted - {lease};
    }

    /** The permit goes back; when every lease has done so, the whole budget is free again. */
    method Release(ghost lease: nat)
      requires Valid() && lease in holders && lease !in counted
      modifies this`permits, this`holders
      ensures Valid() && holders == old(holders) - {lease} && permits == old(permits) + 1
      ensures holders == {} ==> permits == limit && active == 0
    {
      Room(holders, counted, lease);
      permits := permits + 1;
      holders := holders - {lease};
    }
  }

  /** While a holder is not counted, fewer are counted than hold permits. */
  lemma Room(holders: set<nat>, counted: set<nat>, lease: nat)
    requires counted <= holders && lease in holders && lease !in counted
    ensures |counted| + 1 <= |holders|
  {
    Smaller(counted + {lease}, holders);
  }

  lemma {:induction false} Smaller(a: set<nat>, b: set<nat>)
    requires a <= b
    ensures |a| <= |b|
  {
    if a == {} {
    } else {
      var x :| x in a;
      Smaller(a - {x}, b - {x});
    }
  }
}
