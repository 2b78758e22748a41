/**
 The per-column privacy budget, `PrivacyBudgetTracker` of src/optimizer_rules/dp_noise.rs.
 Epsilon is a real number; rounding is not modelled, the tolerance of the comparison is.
 */
module PrivacyBudget {
  import opened Prelude

  type Key = (string, string)

  type Budgets = map<Key, real>

  /** `f64::EPSILON`, two to the power of minus 52. */
  const TOLERANCE: real := 1.0 / 4503599627370496.0

  function Remaining(b: Budgets, key: Key): real {
    if key in b then b[key] else 0.0
  }

  predicate Grants(b: Budgets, key: Key, epsilon: real) {
    Remaining(b, key) >= epsilon - TOLERANCE
  }

  function Debit(b: Budgets, key: Key, epsilon: real): Budgets {
    b[key := Remaining(b, key) - epsilon]
  }

  class Tracker {
    const enabled: bool
    var budgets: Budgets

    constructor (enforce: bool, initial: Budgets)
      ensures enabled == enforce && budgets == initial
    {
      enabled, budgets := enforce, initial;
    }

    /** Attempt to take `epsilon`; on refusal the remaining budget is reported and nothing changes. */
    method Consume(tenant: string, column: string, epsilon: real) returns (refused: Option<real>)
      modifies this
      ensures !enabled ==> refused.None? && budgets == old(budgets)
      ensures enabled ==>
                if Grants(old(budgets), (tenant, column), epsilon)
                then refused.None? && budgets == Debit(old(budgets), (tenant, column), epsilon)
                else refused == Some(Remaining(old(budgets), (tenant, column))) && budgets == old(budgets)
      ensures enabled ==>
                var left := if (tenant, column) in old(budgets) then old(budgets)[(tenant, column)] else 0.0;
                && (refused.None? <==> epsilon - left <= 1.0 / 4503599627370496.0)
                && (refused.None? ==> budgets == old(budgets)[(tenant, column) := left - epsilon])
                && (refused.Some? ==> refused.value == left && budgets == old(budgets))
    {
      if !enabled {
        return None;
      }
      var key := (tenant, column);
      var remaining := if key in budgets then budgets[key] else 0.0;
      if remaining < epsilon - TOLERANCE {
        return Some(remaining);
      }
      budgets := budgets[key := remaining - epsilon];
      return None;
    }
  }

  // ---- sequences of calls under enforcement ----

  datatype Call = Call(key: Key, epsilon: real)

  function AfterOne(b: Budgets, call: Call): Budgets {
    if Grants(b, call.key, call.epsilon) then Debit(b, call.key, call.epsilon) else b
  }

  function After(seed: Budgets, calls: seq<Call>): Budgets {
    if calls == [] then seed
    else
      AfterOne(After(seed, calls[..|calls| - 1]), calls[|calls| - 1])
  }

  /** Whether the last of these calls is granted. */
  predicate LastGranted(seed: Budgets, calls: seq<Call>)
    requires calls != []
  {
    var last := calls[|calls| - 1];
    Grants(After(seed, calls[..|calls| - 1]), last.key, last.epsilon)
  }

  /** The epsilons granted to `key`, added up. */
  function Granted(seed: Budgets, calls: seq<Call>, key: Key): real {
    if calls == [] then 0.0
    else
      Granted(seed, calls[..|calls| - 1], key) +
      (if calls[|calls| - 1].key == key && LastGranted(seed, calls) then calls[|calls| - 1].epsilon else 0.0)
  }

  function GrantCount(seed: Budgets, calls: seq<Call>, key: Key): nat {
    if calls == [] then 0
    else
      GrantCount(seed, calls[..|calls| - 1], key) +
      (if calls[|calls| - 1].key == key && LastGranted(seed, calls) then 1 else 0)
  }

  /**
   For every sequence of calls, each key's remaining budget is its seed minus what was granted,
   and whatever was granted in total is at most the seed plus the tolerance.
   */
  lemma {:induction false} BudgetIsConserved(seed: Budgets, calls: seq<Call>, key: Key)
    ensures Remaining(After(seed, calls), key) == Remaining(seed, key) - Granted(seed, calls, key)
    ensures GrantCount(seed, calls, key) > 0 ==> Remaining(seed, key) - Granted(seed, calls, key) >= -TOLERANCE
  {
    if calls != [] {
      BudgetIsConserved(seed, calls[..|calls| - 1], key);
    }
  }

  /** The calls for one key, in order. */
  function Only(calls: seq<Call>, key: Key): seq<Call> {
    if calls == [] then []
    else
      var rest, last := Only(calls[..|calls| - 1], key), calls[|calls| - 1];
      if last.key == key then rest + [last] else rest
  }

  lemma Snoc(seed: Budgets, calls: seq<Call>, last: Call, key: Key)
    ensures After(seed, calls + [last]) == AfterOne(After(seed, calls), last)
    ensures LastGranted(seed, calls + [last]) == Grants(After(seed, calls), last.key, last.epsilon)
    ensures Granted(seed, calls + [last], key) ==
            Granted(seed, calls, key) + (if last.key == key && Grants(After(seed, calls), last.key, last.epsilon) then last.epsilon else 0.0)
    ensures Only(calls + [last], key) == if last.key == key then Only(calls, key) + [last] else Only(calls, key)
  {
    assert (calls + [last])[..|calls|] == calls;
  }

  lemma OneCall(a: Budgets, b: Budgets, call: Call, key: Key)
    requires Remaining(a, key) == Remaining(b, key)
    ensures call.key == key ==>
              && Grants(a, key, call.epsilon) == Grants(b, key, call.epsilon)
              && Remaining(AfterOne(a, call), key) == Remaining(AfterOne(b, call), key)
    ensures call.key != key ==> Remaining(AfterOne(a, call), key) == Remaining(b, key)
  {
  }

  lemma {:induction false} SameRemaining(seed: Budgets, calls: seq<Call>, key: Key)
    ensures Remaining(After(seed, calls), key) == Remaining(After(seed, Only(calls, key)), key)
  {
    if calls != [] {
      var rest, last := calls[..|calls| - 1], calls[|calls| - 1];
      assert calls == rest + [last];
      SameRemaining(seed, rest, key);
      Snoc(seed, rest, last, key);
      Snoc(seed, Only(rest, key), last, key);
      OneCall(After(seed, rest), After(seed, Only(rest, key)), last, key);
    }
  }

  lemma {:induction false} SameGranted(seed: Budgets, calls: seq<Call>, key: Key)
    ensures Granted(seed, calls, key) == Granted(seed, Only(calls, key), key)
  {
    if calls != [] {
      var rest, last := calls[..|calls| - 1], calls[|calls| - 1];
      assert calls == rest + [last];
      SameGranted(seed, rest, key);
      SameRemaining(seed, rest, key);
      Snoc(seed, rest, last, key);
      Snoc(seed, Only(rest, key), last, key);
      OneCall(After(seed, rest), After(seed, Only(rest, key)), last, key);
    }
  }

  /** Keys never affect each other: leaving out all other keys' calls changes nothing for this key. */
  lemma {:induction false} KeysAreIndependent(seed: Budgets, calls: seq<Call>, last: Call, key: Key)
    ensures Remaining(After(seed, calls), key) == Remaining(After(seed, Only(calls, key)), key)
    ensures Granted(seed, calls, key) == Granted(seed, Only(calls, key), key)
    ensures last.key == key ==> LastGranted(seed, calls + [last]) == LastGranted(seed, Only(calls, key) + [last])
  {
    SameRemaining(seed, calls, key);
    SameGranted(seed, calls, key);
    Snoc(seed, calls, last, key);
    Snoc(seed, Only(calls, key), last, key);
    OneCall(After(seed, calls), After(seed, Only(calls, key)), last, key);
  }

  /**
   Exactly which calls are granted: those that, together with what was granted to the key before,
   stay within its seed and the tolerance. So a call within the budget is always granted.
   */
  lemma GrantedIff(seed: Budgets, calls: seq<Call>, last: Call)
    ensures LastGranted(seed, calls + [last]) <==>
              Granted(seed, calls, last.key) + last.epsilon <=
              (if last.key in seed then seed[last.key] else 0.0) + 1.0 / 4503599627370496.0
  {
    BudgetIsConserved(seed, calls, last.key);
    Snoc(seed, calls, last, last.key);
  }

  // ---- several calls for one key in a row ----

  /** `n` charges of `epsilon` in a row are granted: the first and the last one are. */
  predicate Suffices(left: real, epsilon: real, n: nat) {
    n > 0 ==> epsilon - left <= 1.0 / 4503599627370496.0 && epsilon * (n as real) - left <= 1.0 / 4503599627370496.0
  }

  lemma Distributes(epsilon: real, x: real, y: real)
    ensures epsilon * (x + y) == epsilon * x + epsilon * y
  {
  }

  lemma NotNegative(epsilon: real, x: real)
    requires epsilon >= 0.0 && x >= 0.0
    ensures epsilon * x >= 0.0
  {
  }

  lemma NoCost(epsilon: real, x: real)
    requires x == 0.0
    ensures epsilon * x == 0.0
  {
  }

  lemma OneMore(epsilon: real, n: nat)
    requires n > 0
    ensures epsilon * (n as real) == epsilon + epsilon * ((n - 1) as real)
  {
    var m := (n - 1) as real;
    Distributes(epsilon, 1.0, m);
    assert n as real == 1.0 + m;
  }

  /** The cost of two charges lies between that of one and that of all. */
  lemma Between(epsilon: real, n: nat)
    requires n >= 2
    ensures 2.0 * epsilon <= epsilon || 2.0 * epsilon <= epsilon * (n as real)
  {
    var k := (n - 2) as real;
    Distributes(epsilon, 2.0, k);
    assert n as real == 2.0 + k;
    if epsilon >= 0.0 {
      NotNegative(epsilon, k);
    }
  }

  lemma FirstThenRest(left: real, epsilon: real, all: real, rest: real, tolerance: real, more: bool)
    requires all == epsilon + rest && (more ==> 2.0 * epsilon <= epsilon || 2.0 * epsilon <= all) && (!more ==> rest == 0.0)
    ensures epsilon - left <= tolerance && all - left <= tolerance <==>
            && epsilon - left <= tolerance
            && (more ==> epsilon - (left - epsilon) <= tolerance && rest - (left - epsilon) <= tolerance)
  {
  }

  lemma SufficesStep(left: real, epsilon: real, n: nat)
    requires n > 0
    ensures Suffices(left, epsilon, n) <==> epsilon - left <= 1.0 / 4503599627370496.0 && Suffices(left - epsilon, epsilon, n - 1)
  {
    OneMore(epsilon, n);
    if n > 1 {
      Between(epsilon, n);
    } else {
      NoCost(epsilon, (n - 1) as real);
    }
    FirstThenRest(left, epsilon, epsilon * (n as real), epsilon * ((n - 1) as real), 1.0 / 4503599627370496.0, n > 1);
  }
}
