/**
 * The workforce manager of 494120/ideal1.go: employees by ID, a performance
 * review driven by workload, and a rebalancer that moves single tasks from
 * an employee with more than 8 to one with fewer than 5 until a whole pass
 * moves nothing.
 *
 * Employees are values in the map (the Go program keeps pointers that never
 * leave the map). Performance is a real number. Go's map iteration order is a
 * parameter: `outer(p)` is the order of pass p and `inner(p, i)` the order of
 * the search for a target made at the i-th employee of that pass.
 */
module Workforce {
  import opened Wrappers

  datatype Employee = Employee(
    id: int,
    name: string,
    role: string,
    performance: real,
    workload: int,
    availability: bool)

  type Staff = map<int, Employee>

  /** An iteration order: every key of the map exactly once. */
  predicate Enumerates(keys: set<int>, order: seq<int>) {
    && (forall i, j | 0 <= i < j < |order| :: order[i] != order[j])
    && (forall i | 0 <= i < |order| :: order[i] in keys)
    && (forall k | k in keys :: k in order)
  }

  // ---------------------------------------------------------------------
  // Sums over the staff

  function Workload(e: Employee): int { e.workload }

  /** How far a workload lies above 5; it falls with every move. */
  function Overload(e: Employee): int { if e.workload > 5 then e.workload - 5 else 0 }

  /** The sum of f over all employees. */
  ghost function Sum(m: Staff, f: Employee -> int): int
    decreases m.Keys
  {
    if |m| == 0 then 0
    else
      var k := Pick(m.Keys);
      f(m[k]) + Sum(m - {k}, f)
  }

  /** Some element of a non-empty set. */
  ghost function Pick(s: set<int>): (k: int)
    requires s != {}
    ensures k in s
  {
    assert exists k :: k in s by {
      if forall k :: k !in s {
        assert false;
      }
    }
    var k :| k in s; k
  }

  /** Any employee can be taken out of the sum first. */
  lemma {:induction false} SumRemove(m: Staff, f: Employee -> int, k: int)
    requires k in m
    ensures Sum(m, f) == f(m[k]) + Sum(m - {k}, f)
    decreases m.Keys
  {
    var j := Pick(m.Keys);
    if j != k {
      SumRemove(m - {j}, f, k);
      SumRemove(m - {k}, f, j);
      assert m - {j} - {k} == m - {k} - {j};
    }
  }

  /** Replacing one employee changes the sum by the difference of the two. */
  lemma SumUpdate(m: Staff, f: Employee -> int, k: int, e: Employee)
    requires k in m
    ensures Sum(m[k := e], f) == Sum(m, f) - f(m[k]) + f(e)
  {
    SumRemove(m, f, k);
    SumRemove(m[k := e], f, k);
    assert m[k := e] - {k} == m - {k};
  }

  lemma OverloadNonNegative(m: Staff)
    ensures Sum(m, Overload) >= 0
    decreases m.Keys
  {
    if |m| != 0 {
      var k := Pick(m.Keys);
      SumRemove(m, Overload, k);
      OverloadNonNegative(m - {k});
    }
  }

  // ---------------------------------------------------------------------
  // AddEmployee

  /** AddEmployee: the entry under the employee's ID is replaced, nothing else changes. */
  function Add(m: Staff, e: Employee): (r: Staff)
    ensures e.id in r && r[e.id] == e
    ensures r.Keys == m.Keys + {e.id}
    ensures forall k | k in m && k != e.id :: r[k] == m[k]
  {
    m[e.id := e]
  }

  // ---------------------------------------------------------------------
  // EvaluatePerformance

  /** The penalty or reward, before clamping. */
  function Adjusted(e: Employee): real {
    if e.workload > 8 then e.performance - 1.0
    else if e.workload < 3 then e.performance + 0.5
    else e.performance
  }

  /** One employee's review: adjust, then clamp to [0, 10]. */
  function Evaluate(e: Employee): (r: Employee)
    ensures r == e.(performance := r.performance)
    ensures 0.0 <= r.performance <= 10.0
    ensures 0.0 <= Adjusted(e) <= 10.0 ==> r.performance == Adjusted(e)
    ensures Adjusted(e) > 10.0 ==> r.performance == 10.0
    ensures Adjusted(e) < 0.0 ==> r.performance == 0.0
  {
    var p := Adjusted(e);
    e.(performance := if p > 10.0 then 10.0 else if p < 0.0 then 0.0 else p)
  }

  /** A workload between 3 and 8 only clamps, so a score already in range stays as it is. */
  lemma MidWorkloadKeepsScore(e: Employee)
    requires 3 <= e.workload <= 8 && 0.0 <= e.performance <= 10.0
    ensures Evaluate(e) == e
  {
  }

  // ---------------------------------------------------------------------
  // OptimizeResources

  /** Moves one task from `from` to `to`. */
  function Move(m: Staff, from: int, to: int): (r: Staff)
    requires from in m && to in m && from != to
    ensures r.Keys == m.Keys
    ensures r[from] == m[from].(workload := m[from].workload - 1)
    ensures r[to] == m[to].(workload := m[to].workload + 1)
    ensures forall k | k in m && k != from && k != to :: r[k] == m[k]
  {
    m[from := m[from].(workload := m[from].workload - 1)][to := m[to].(workload := m[to].workload + 1)]
  }

  /** A move keeps the total workload and lowers the overload by one. */
  lemma MoveBalances(m: Staff, from: int, to: int)
    requires from in m && to in m && m[from].workload > 8 && m[to].workload < 5
    ensures Sum(Move(m, from, to), Workload) == Sum(m, Workload)
    ensures Sum(Move(m, from, to), Overload) == Sum(m, Overload) - 1
  {
    var m1 := m[from := m[from].(workload := m[from].workload - 1)];
    SumUpdate(m, Workload, from, m1[from]);
    SumUpdate(m, Overload, from, m1[from]);
    SumUpdate(m1, Workload, to, m[to].(workload := m[to].workload + 1));
    SumUpdate(m1, Overload, to, m[to].(workload := m[to].workload + 1));
  }

  /** Every element of the order is an employee. */
  predicate Within(keys: set<int>, order: seq<int>) {
    forall i | 0 <= i < |order| :: order[i] in keys
  }

  /** The inner search: the first employee in the order with fewer than 5 tasks. */
  function FirstBelow(m: Staff, order: seq<int>): (r: Option<int>)
    requires Within(m.Keys, order)
    ensures r.Some? ==> r.value in order && m[r.value].workload < 5
    ensures r.None? ==> forall i | 0 <= i < |order| :: m[order[i]].workload >= 5
    decreases |order|
  {
    if order == [] then None
    else if m[order[0]].workload < 5 then Some(order[0])
    else FirstBelow(m, order[1..])
  }

  datatype PassResult = PassResult(staff: Staff, reassigned: bool)

  /**
   * The body of the pass loop for one employee: an employee above 8 gives
   * one task to the first one below 5, if there is one.
   */
  function Step(m: Staff, id: int, order: seq<int>): (r: PassResult)
    requires id in m && Within(m.Keys, order)
    ensures r.staff.Keys == m.Keys
    ensures r.reassigned <==> m[id].workload > 8 && FirstBelow(m, order).Some?
    ensures r.reassigned ==> r.staff == Move(m, id, FirstBelow(m, order).value)
    ensures !r.reassigned ==> r.staff == m
  {
    if m[id].workload > 8 then
      match FirstBelow(m, order)
      case Some(t) => PassResult(Move(m, id, t), true)
      case None => PassResult(m, false)
    else PassResult(m, false)
  }

  /** The first n iterations of one pass. */
  function Pass(m: Staff, order: seq<int>, inner: (nat, nat) -> seq<int>, pass: nat, n: nat): (r: PassResult)
    requires n <= |order| && Within(m.Keys, order)
    requires forall i: nat :: Within(m.Keys, inner(pass, i))
    ensures r.staff.Keys == m.Keys
    ensures !r.reassigned ==> r.staff == m
    decreases n
  {
    if n == 0 then PassResult(m, false)
    else
      var p := Pass(m, order, inner, pass, n - 1);
      var s := Step(p.staff, order[n - 1], inner(pass, n - 1));
      PassResult(s.staff, p.reassigned || s.reassigned)
  }

  /** A pass keeps the total workload, and one that moved a task lowered the overload. */
  lemma {:induction false} PassBalances(m: Staff, order: seq<int>, inner: (nat, nat) -> seq<int>, pass: nat, n: nat)
    requires n <= |order| && Within(m.Keys, order)
    requires forall i: nat :: Within(m.Keys, inner(pass, i))
    ensures Sum(Pass(m, order, inner, pass, n).staff, Workload) == Sum(m, Workload)
    ensures Pass(m, order, inner, pass, n).reassigned ==>
      Sum(Pass(m, order, inner, pass, n).staff, Overload) < Sum(m, Overload)
    decreases n
  {
    if n > 0 {
      var p := Pass(m, order, inner, pass, n - 1);
      PassBalances(m, order, inner, pass, n - 1);
      var t := FirstBelow(p.staff, inner(pass, n - 1));
      if p.staff[order[n - 1]].workload > 8 && t.Some? {
        MoveBalances(p.staff, order[n - 1], t.value);
      }
    }
  }

  /** Within for every order the Go runtime may pick. */
  ghost predicate Orders(keys: set<int>, outer: nat -> seq<int>, inner: (nat, nat) -> seq<int>) {
    && (forall p: nat :: Enumerates(keys, outer(p)))
    && (forall p: nat, i: nat :: Enumerates(keys, inner(p, i)))
  }

  /** OptimizeResources from pass `pass` on: passes until one moves nothing. */
  function Optimize(m: Staff, outer: nat -> seq<int>, inner: (nat, nat) -> seq<int>, pass: nat): (r: Staff)
    requires Orders(m.Keys, outer, inner)
    ensures r.Keys == m.Keys
    decreases Sum(m, Overload)
  {
    assert Enumerates(m.Keys, outer(pass));
    assert forall i: nat :: Enumerates(m.Keys, inner(pass, i)) ==> Within(m.Keys, inner(pass, i));
    var p := Pass(m, outer(pass), inner, pass, |outer(pass)|);
    if !p.reassigned then p.staff
    else
      PassBalances(m, outer(pass), inner, pass, |outer(pass)|);
      OverloadNonNegative(p.staff);
      Optimize(p.staff, outer, inner, pass + 1)
  }

  /** Rebalancing never creates or destroys a task. */
  lemma {:induction false} OptimizeKeepsTotal(m: Staff, outer: nat -> seq<int>, inner: (nat, nat) -> seq<int>, pass: nat)
    requires Orders(m.Keys, outer, inner)
    ensures Sum(Optimize(m, outer, inner, pass), Workload) == Sum(m, Workload)
    decreases Sum(m, Overload)
  {
    assert Enumerates(m.Keys, outer(pass));
    assert forall i: nat :: Enumerates(m.Keys, inner(pass, i)) ==> Within(m.Keys, inner(pass, i));
    var p := Pass(m, outer(pass), inner, pass, |outer(pass)|);
    PassBalances(m, outer(pass), inner, pass, |outer(pass)|);
    if p.reassigned {
      OverloadNonNegative(p.staff);
      OptimizeKeepsTotal(p.staff, outer, inner, pass + 1);
    }
  }

  /** Only workloads move; IDs, names, roles, scores and availability stay. */
  lemma {:induction false} OptimizeKeepsDetails(m: Staff, outer: nat -> seq<int>, inner: (nat, nat) -> seq<int>, pass: nat)
    requires Orders(m.Keys, outer, inner)
    ensures forall k | k in m :: Optimize(m, outer, inner, pass)[k] == m[k].(workload := Optimize(m, outer, inner, pass)[k].workload)
    decreases Sum(m, Overload)
  {
    assert Enumerates(m.Keys, outer(pass));
    assert forall i: nat :: Enumerates(m.Keys, inner(pass, i)) ==> Within(m.Keys, inner(pass, i));
    var p := Pass(m, outer(pass), inner, pass, |outer(pass)|);
    PassKeepsDetails(m, outer(pass), inner, pass, |outer(pass)|);
    PassBalances(m, outer(pass), inner, pass, |outer(pass)|);
    if p.reassigned {
      OverloadNonNegative(p.staff);
      OptimizeKeepsDetails(p.staff, outer, inner, pass + 1);
    }
  }

  lemma {:induction false} PassKeepsDetails(m: Staff, order: seq<int>, inner: (nat, nat) -> seq<int>, pass: nat, n: nat)
    requires n <= |order| && Within(m.Keys, order)
    requires forall i: nat :: Within(m.Keys, inner(pass, i))
    ensures forall k | k in m :: Pass(m, order, inner, pass, n).staff[k] == m[k].(workload := Pass(m, order, inner, pass, n).staff[k].workload)
    decreases n
  {
    if n > 0 {
      PassKeepsDetails(m, order, inner, pass, n - 1);
    }
  }

  /** A pass that moved nothing found, for each employee it visited, no overload with a target. */
  lemma {:induction false} QuietPass(m: Staff, order: seq<int>, inner: (nat, nat) -> seq<int>, pass: nat, n: nat)
    requires n <= |order| && Within(m.Keys, order)
    requires forall i: nat :: Within(m.Keys, inner(pass, i))
    requires !Pass(m, order, inner, pass, n).reassigned
    ensures forall i | 0 <= i < n :: !(m[order[i]].workload > 8 && FirstBelow(m, inner(pass, i)).Some?)
    decreases n
  {
    if n > 0 {
      QuietPass(m, order, inner, pass, n - 1);
    }
  }

  /** No employee above 8 tasks while another has fewer than 5. */
  predicate Balanced(m: Staff) {
    forall a, b | a in m && b in m :: !(m[a].workload > 8 && m[b].workload < 5)
  }

  /** When rebalancing stops, no employee above 8 sits beside one below 5. */
  lemma {:induction false} OptimizeBalanced(m: Staff, outer: nat -> seq<int>, inner: (nat, nat) -> seq<int>, pass: nat)
    requires Orders(m.Keys, outer, inner)
    ensures Balanced(Optimize(m, outer, inner, pass))
    decreases Sum(m, Overload)
  {
    var order := outer(pass);
    assert Enumerates(m.Keys, order);
    assert forall i: nat :: Enumerates(m.Keys, inner(pass, i)) ==> Within(m.Keys, inner(pass, i));
    var p := Pass(m, order, inner, pass, |order|);
    PassBalances(m, order, inner, pass, |order|);
    if p.reassigned {
      OverloadNonNegative(p.staff);
      OptimizeBalanced(p.staff, outer, inner, pass + 1);
    } else {
      QuietPass(m, order, inner, pass, |order|);
      forall a, b | a in m && b in m
        ensures !(m[a].workload > 8 && m[b].workload < 5)
      {
        var i :| 0 <= i < |order| && order[i] == a;
        assert Enumerates(m.Keys, inner(pass, i));
      }
    }
  }

  /** The three employees of the example: Bob hands one task to Charlie and nothing else moves. */
  lemma ExampleRebalance()
    ensures var m := map[1 := Employee(1, "Alice", "Engineer", 8.0, 5, false),
                         2 := Employee(2, "Bob", "Manager", 5.0, 9, false),
                         3 := Employee(3, "Charlie", "Technician", 7.0, 3, false)];
      var r := Optimize(m, _ => [1, 2, 3], (_, _) => [1, 2, 3], 0);
      r[1].workload == 5 && r[2].workload == 8 && r[3].workload == 4
  {
    var m := map[1 := Employee(1, "Alice", "Engineer", 8.0, 5, false),
                 2 := Employee(2, "Bob", "Manager", 5.0, 9, false),
                 3 := Employee(3, "Charlie", "Technician", 7.0, 3, false)];
    var outer: nat -> seq<int> := _ => [1, 2, 3];
    var inner: (nat, nat) -> seq<int> := (_, _) => [1, 2, 3];
    assert Orders(m.Keys, outer, inner);
    var p0 := Pass(m, [1, 2, 3], inner, 0, 3);
    assert FirstBelow(m, [1, 2, 3]) == Some(3);
    var m1 := Move(m, 2, 3);
    assert p0 == PassResult(m1, true);
    var p1 := Pass(m1, [1, 2, 3], inner, 1, 3);
    assert p1 == PassResult(m1, false);
  }

  // ---------------------------------------------------------------------
  // The Workforce object

  class Workforce {
    var employees: Staff

    /** NewWorkforce: no employees. */
    constructor()
      ensures employees == map[]
    {
      employees := map[];
    }

    method AddEmployee(emp: Employee)
      modifies this
      ensures employees == Add(old(employees), emp)
    {
      employees := employees[emp.id := emp];
    }

    /** Every employee is reviewed once; the result does not depend on the order. */
    method EvaluatePerformance(order: seq<int>)
      requires Enumerates(employees.Keys, order)
      modifies this
      ensures employees == map k | k in old(employees) :: Evaluate(old(employees)[k])
    {
      ghost var start := employees;
      var i := 0;
      while i < |order|
        invariant 0 <= i <= |order|
        invariant employees.Keys == start.Keys
        invariant forall k | k in start ::
          employees[k] == if k in order[..i] then Evaluate(start[k]) else start[k]
      {
        var id := order[i];
        var emp := employees[id];
        var performance := emp.performance;
        if emp.workload > 8 {
          performance := performance - 1.0;
        } else if emp.workload < 3 {
          performance := performance + 0.5;
        }
        if performance > 10.0 {
          performance := 10.0;
        } else if performance < 0.0 {
          performance := 0.0;
        }
        assert id !in order[..i];
        assert forall k :: k in order[..i + 1] <==> k in order[..i] || k == id;
        employees := employees[id := emp.(performance := performance)];
        i := i + 1;
      }
      assert order[..i] == order;
      assert forall k | k in start :: employees[k] == Evaluate(start[k]);
    }

    /** One pass over the employees in the given orders. */
    method RunPass(order: seq<int>, inner: (nat, nat) -> seq<int>, pass: nat) returns (reassigned: bool)
      requires Within(employees.Keys, order)
      requires forall i: nat :: Within(employees.Keys, inner(pass, i))
      modifies this
      ensures PassResult(employees, reassigned) == Pass(old(employees), order, inner, pass, |order|)
    {
      ghost var start := employees;
      reassigned := false;
      var i := 0;
      while i < |order|
        invariant 0 <= i <= |order|
        invariant employees.Keys == start.Keys
        invariant PassResult(employees, reassigned) == Pass(start, order, inner, pass, i)
      {
        var emp := order[i];
        var targets := inner(pass, i);
        ghost var step := Step(employees, emp, targets);
        assert Pass(start, order, inner, pass, i + 1) == PassResult(step.staff, reassigned || step.reassigned);
        if employees[emp].workload > 8 {
          var target := FindTarget(targets);
          if target.Some? {
            employees := Move(employees, emp, target.value);
            reassigned := true;
          }
        }
        assert employees == step.staff;
        i := i + 1;
      }
    }

    /** The inner search loop: the first employee in the order with fewer than 5 tasks. */
    method FindTarget(targets: seq<int>) returns (target: Option<int>)
      requires Within(employees.Keys, targets)
      ensures target == FirstBelow(employees, targets)
    {
      var j := 0;
      while j < |targets|
        invariant 0 <= j <= |targets|
        invariant FirstBelow(employees, targets) == FirstBelow(employees, targets[j..])
      {
        if employees[targets[j]].workload < 5 {
          return Some(targets[j]);
        }
        assert targets[j..][1..] == targets[j + 1..];
        j := j + 1;
      }
      return None;
    }

    /** OptimizeResources: passes until one moves nothing. */
    method OptimizeResources(outer: nat -> seq<int>, inner: (nat, nat) -> seq<int>)
      requires Orders(employees.Keys, outer, inner)
      modifies this
      ensures employees == Optimize(old(employees), outer, inner, 0)
    {
      var pass := 0;
      while true
        invariant Orders(employees.Keys, outer, inner)
        invariant Optimize(employees, outer, inner, pass) == Optimize(old(employees), outer, inner, 0)
        decreases Sum(employees, Overload)
      {
        assert Enumerates(employees.Keys, outer(pass));
        assert forall i: nat :: Enumerates(employees.Keys, inner(pass, i)) ==> Within(employees.Keys, inner(pass, i));
        ghost var before := employees;
        var reassigned := RunPass(outer(pass), inner, pass);
        if !reassigned {
          break;
        }
        PassBalances(before, outer(pass), inner, pass, |outer(pass)|);
        OverloadNonNegative(employees);
        pass := pass + 1;
      }
    }
  }
}
