/**
 * `VerificationConditionCongruenceClosureImpl`: the driver that loads one
 * verification condition into a congruence-closure conjunction. The
 * consequent's conjuncts become goals, the antecedent's become assumptions,
 * four boolean facts are seeded, and the status compares the goals with the
 * conjunction's state.
 *
 * The driver is written against an earlier term interface, whose symbols
 * carry their own arguments; its terms are modelled here on their own.
 * The conjunction and the registry are not part of this model: what they
 * answer is a function of everything they have been given so far.
 */
module CongruenceClosure {
  import opened Wrappers
  import opened JavaLang

  /** A term of that interface: the top-level operation and the sub-expressions. */
  datatype Exp = Exp(operation: string, args: seq<Exp>)

  const TRUE: Exp := Exp("true", [])
  const FALSE: Exp := Exp("false", [])

  function Binary(op: string, a: Exp, b: Exp): Exp {
    Exp(op, [a, b])
  }

  /** The four facts the constructor seeds, in order. */
  const SEEDS: seq<Exp> := [
    Binary("=B", Binary("=B", TRUE, FALSE), FALSE),
    Binary("=B", Binary("andB", TRUE, TRUE), TRUE),
    Binary("=B", Binary("andB", TRUE, FALSE), FALSE),
    Binary("=B", Binary("andB", FALSE, FALSE), FALSE)
  ]

  /** What the conjunction has been given: an assumption, or a formula to name. */
  datatype Event = AddedExpression(e: Exp) | AddedFormula(f: Exp)

  /**
   * The collaborators, as functions of the conjunction's history:
   * whether it evaluates to false, the registry symbol naming the formula
   * added last, a symbol's root, and `Utilities.replacePExp` with the
   * type graph and the two number types.
   */
  datatype Oracle = Oracle(
    evaluatesToFalse: seq<Event> -> bool,
    latestFormulaSymbol: seq<Event> -> string,
    rootSymbol: (seq<Event>, string) -> string,
    replace: Exp -> Exp)

  datatype Status = FalseAssumption | StillEvaluating | Proved | Unprovable

  /** The conjunction's history and the goal set. */
  datatype State = State(log: seq<Event>, goal: set<string>)

  /** `isProved`. */
  function IsProved(o: Oracle, st: State): (r: Status)
    ensures r != Unprovable
    ensures r == FalseAssumption <==> o.evaluatesToFalse(st.log)
    ensures r == Proved <==> !o.evaluatesToFalse(st.log) && "true" in st.goal
  {
    if o.evaluatesToFalse(st.log) then FalseAssumption
    else if "true" in st.goal then Proved
    else StillEvaluating
  }

  /** `addFormula`, then `addGoal` of the symbol naming it. */
  function AddFormulaGoal(o: Oracle, st: State, f: Exp): (r: State)
    ensures r.log == st.log + [AddedFormula(f)]
    ensures r.goal == st.goal + {o.rootSymbol(r.log, o.latestFormulaSymbol(r.log))}
  {
    var log := st.log + [AddedFormula(f)];
    State(log, st.goal + {o.rootSymbol(log, o.latestFormulaSymbol(log))})
  }

  /**
   * One conjunct: an assumption is added as it is; a goal whose top
   * operation is `orB` becomes two goals, the first two sub-expressions
   * (fewer than two is an out-of-bounds `get`); any other goal is one.
   */
  function AddConjunct(o: Oracle, st: State, curr: Exp, inAntecedent: bool): (r: Result<State>)
    ensures r.Error? <==> !inAntecedent && curr.operation == "orB" && |curr.args| < 2
    ensures r.Error? ==> r.error == IndexOutOfBounds
    ensures inAntecedent ==> r == Success(State(st.log + [AddedExpression(curr)], st.goal))
    ensures !inAntecedent && curr.operation == "orB" && r.Success? ==>
      r.value == AddFormulaGoal(o, AddFormulaGoal(o, st, curr.args[0]), curr.args[1])
    ensures !inAntecedent && curr.operation != "orB" ==> r == Success(AddFormulaGoal(o, st, curr))
  {
    if inAntecedent then Success(State(st.log + [AddedExpression(curr)], st.goal))
    else if curr.operation == "orB" then
      if |curr.args| < 2 then Error(IndexOutOfBounds)
      else Success(AddFormulaGoal(o, AddFormulaGoal(o, st, curr.args[0]), curr.args[1]))
    else Success(AddFormulaGoal(o, st, curr))
  }

  /** `addPExp`: the conjuncts in order, each replaced first, until the conjunction evaluates to false. */
  function Load(o: Oracle, st: State, items: seq<Exp>, inAntecedent: bool): Result<State>
    decreases |items|
  {
    if |items| == 0 || o.evaluatesToFalse(st.log) then Success(st)
    else
      var next := AddConjunct(o, st, o.replace(items[0]), inAntecedent);
      if next.Error? then next else Load(o, next.value, items[1..], inAntecedent)
  }

  function SeedEvents(): seq<Event> {
    [AddedExpression(SEEDS[0]), AddedExpression(SEEDS[1]), AddedExpression(SEEDS[2]), AddedExpression(SEEDS[3])]
  }

  /**
   * Loading the antecedent adds each conjunct, replaced, as an assumption,
   * in order, leaves the goals alone and never fails; it stops early only
   * when the conjunction evaluates to false.
   */
  lemma {:induction false} AntecedentAssumesInOrder(o: Oracle, st: State, items: seq<Exp>)
    ensures Load(o, st, items, true).Success?
    ensures var r := Load(o, st, items, true).value;
      && r.goal == st.goal
      && |st.log| <= |r.log| <= |st.log| + |items|
      && r.log[..|st.log|] == st.log
      && (forall k :: 0 <= k < |r.log| - |st.log| ==> r.log[|st.log| + k] == AddedExpression(o.replace(items[k])))
      && (|r.log| < |st.log| + |items| ==> o.evaluatesToFalse(r.log))
    decreases |items|
  {
    if |items| > 0 && !o.evaluatesToFalse(st.log) {
      var next := State(st.log + [AddedExpression(o.replace(items[0]))], st.goal);
      AntecedentAssumesInOrder(o, next, items[1..]);
      var r := Load(o, next, items[1..], true).value;
      assert r.log[..|next.log|] == next.log;
      assert r.log[..|st.log|] == next.log[..|st.log|];
      forall k | 0 <= k < |r.log| - |st.log|
        ensures r.log[|st.log| + k] == AddedExpression(o.replace(items[k]))
      {
        if k > 0 {
          assert r.log[|next.log| + (k - 1)] == AddedExpression(o.replace(items[1..][k - 1]));
        } else {
          assert r.log[|st.log|] == next.log[|st.log|];
        }
      }
    }
  }

  /**
   * The constructor: the consequent as goals, then the antecedent as
   * assumptions, then the seeds. Only the consequent can make it throw.
   */
  function Construct(o: Oracle, consequent: seq<Exp>, antecedent: seq<Exp>): (r: Result<State>)
    ensures r.Error? <==> Load(o, State([], {}), consequent, false).Error?
    ensures r.Error? ==> r == Load(o, State([], {}), consequent, false)
    ensures r.Success? ==>
      && r.value.goal == Load(o, State([], {}), consequent, false).value.goal
      && |r.value.log| >= |SeedEvents()|
      && r.value.log[|r.value.log| - |SeedEvents()|..] == SeedEvents()
  {
    var goals := Load(o, State([], {}), consequent, false);
    if goals.Error? then goals
    else
      AntecedentAssumesInOrder(o, goals.value, antecedent);
      var assumed := Load(o, goals.value, antecedent, true);
      if assumed.Error? then assumed
      else Success(State(assumed.value.log + SeedEvents(), assumed.value.goal))
  }

  class VerificationConditionCongruenceClosure {
    const name: string
    const oracle: Oracle
    var log: seq<Event>
    var goal: set<string>

    function Snapshot(): State
      reads this
    {
      State(log, goal)
    }

    /** The fields the constructor sets before it loads anything; the name is the VC number. */
    constructor Empty(number: Int32, o: Oracle)
      ensures name == IntToString(number) && oracle == o
      ensures log == [] && goal == {}
    {
      name := IntToString(number);
      oracle := o;
      log := [];
      goal := {};
    }

    /** `isProved`. */
    method GetStatus() returns (r: Status)
      ensures r == IsProved(oracle, Snapshot())
    {
      if oracle.evaluatesToFalse(log) {
        r := FalseAssumption;
      } else if "true" in goal {
        r := Proved;
      } else {
        r := StillEvaluating;
      }
    }

    /** `addGoal`: the root of the symbol, stored once. */
    method AddGoal(a: string)
      modifies this`goal
      ensures goal == old(goal) + {oracle.rootSymbol(log, a)}
    {
      var r := oracle.rootSymbol(log, a);
      if r in goal {
        return;
      }
      goal := goal + {r};
    }

    /** `addFormula` on the conjunction, then `addGoal` of the symbol for the index it returns. */
    method AddFormula(f: Exp)
      modifies this
      ensures Snapshot() == AddFormulaGoal(oracle, old(Snapshot()), f)
    {
      log := log + [AddedFormula(f)];
      AddGoal(oracle.latestFormulaSymbol(log));
    }

    /** `addPExp`: the while loop over the iterator. */
    method AddPExp(items: seq<Exp>, inAntecedent: bool) returns (r: Result<()>)
      modifies this
      ensures r.Success? <==> Load(oracle, old(Snapshot()), items, inAntecedent).Success?
      ensures r.Success? ==> Snapshot() == Load(oracle, old(Snapshot()), items, inAntecedent).value
      ensures r.Error? ==> r.error == Load(oracle, old(Snapshot()), items, inAntecedent).error
    {
      var i := 0;
      while i < |items| && !oracle.evaluatesToFalse(log)
        invariant 0 <= i <= |items|
        invariant Load(oracle, old(Snapshot()), items, inAntecedent) == Load(oracle, Snapshot(), items[i..], inAntecedent)
        decreases |items| - i
      {
        assert items[i..][0] == items[i] && items[i..][1..] == items[i + 1..];
        var curr := oracle.replace(items[i]);
        i := i + 1;
        if inAntecedent {
          log := log + [AddedExpression(curr)];
        } else if curr.operation == "orB" {
          if |curr.args| < 2 {
            return Error(IndexOutOfBounds);
          }
          AddFormula(curr.args[0]);
          AddFormula(curr.args[1]);
        } else {
          AddFormula(curr);
        }
      }
      r := Success(());
    }

    /** `addExpression` of one seed. */
    method AddExpression(e: Exp)
      modifies this`log
      ensures log == old(log) + [AddedExpression(e)]
    {
      log := log + [AddedExpression(e)];
    }
  }

  /** The constructor: a failing `get` on a disjunction bad in shape ends it with the exception. */
  method NewCongruenceClosure(number: Int32, consequent: seq<Exp>, antecedent: seq<Exp>, o: Oracle)
    returns (r: Result<VerificationConditionCongruenceClosure>)
    ensures r.Success? <==> Construct(o, consequent, antecedent).Success?
    ensures r.Error? ==> r.error == Construct(o, consequent, antecedent).error
    ensures r.Success? ==>
      && fresh(r.value) && r.value.name == IntToString(number)
      && r.value.Snapshot() == Construct(o, consequent, antecedent).value
  {
    var c := new VerificationConditionCongruenceClosure.Empty(number, o);
    var loaded := c.AddPExp(consequent, false);
    if loaded.Error? {
      return Error(loaded.error);
    }
    ghost var goals := c.Snapshot();
    assert Load(o, State([], {}), consequent, false) == Success(goals);
    loaded := c.AddPExp(antecedent, true);
    if loaded.Error? {
      return Error(loaded.error);
    }
    ghost var assumed := c.Snapshot();
    assert Load(o, goals, antecedent, true) == Success(assumed);
    var fls := Exp("false", []);
    var tr := Exp("true", []);
    var args := [tr, fls];
    var trEqF := Exp("=B", args);
    args := [trEqF, fls];
    assert Exp("=B", args) == SEEDS[0];
    c.AddExpression(Exp("=B", args));
    assert c.log == assumed.log + SeedEvents()[..1];
    args := [tr, tr];
    var tandt := Exp("andB", args);
    args := [tandt, tr];
    assert Exp("=B", args) == SEEDS[1];
    c.AddExpression(Exp("=B", args));
    assert c.log == assumed.log + SeedEvents()[..2];
    args := [tr, fls];
    var tandf := Exp("andB", args);
    args := [tandf, fls];
    assert Exp("=B", args) == SEEDS[2];
    c.AddExpression(Exp("=B", args));
    assert c.log == assumed.log + SeedEvents()[..3];
    args := [fls, fls];
    var fandf := Exp("andB", args);
    args := [fandf, fls];
    assert Exp("=B", args) == SEEDS[3];
    c.AddExpression(Exp("=B", args));
    assert c.log == assumed.log + SeedEvents()[..4];
    assert SeedEvents()[..4] == SeedEvents();
    r := Success(c);
  }
}

module CongruenceClosureFacts {
  import opened Wrappers
  import opened CongruenceClosure

  /** The two-valued reading of the boolean operators the seeds use. */
  function EvalBool(e: Exp): Option<bool>
    decreases e
  {
    if e.operation == "true" && |e.args| == 0 then Some(true)
    else if e.operation == "false" && |e.args| == 0 then Some(false)
    else if e.operation in {"=B", "andB"} && |e.args| == 2 then
      var a := EvalBool(e.args[0]);
      var b := EvalBool(e.args[1]);
      if a.None? || b.None? then None
      else if e.operation == "=B" then Some(a.value == b.value)
      else Some(a.value && b.value)
    else None
  }

  /** Every seed is a true boolean fact. */
  lemma SeedsAreTrue()
    ensures forall k :: 0 <= k < |SEEDS| ==> EvalBool(SEEDS[k]) == Some(true)
  {
    assert EvalBool(Binary("=B", TRUE, FALSE)) == Some(false);
    assert EvalBool(Binary("andB", TRUE, TRUE)) == Some(true);
    assert EvalBool(Binary("andB", TRUE, FALSE)) == Some(false);
    assert EvalBool(Binary("andB", FALSE, FALSE)) == Some(false);
  }

  /** All events are assumptions. */
  predicate AllExpressions(es: seq<Event>) {
    forall k :: 0 <= k < |es| ==> es[k].AddedExpression?
  }

  /** All events are formulas. */
  predicate AllFormulas(es: seq<Event>) {
    forall k :: 0 <= k < |es| ==> es[k].AddedFormula?
  }

  /** `r` extends `st` by formulas only, keeps every goal of `st` and has at most `bound` more. */
  predicate FormulaExtension(st: State, r: State, bound: nat) {
    && |st.log| <= |r.log|
    && r.log[..|st.log|] == st.log
    && AllFormulas(r.log[|st.log|..])
    && st.goal <= r.goal
    && |r.goal| <= |st.goal| + bound
  }

  lemma FormulaExtensionTransitive(a: State, b: State, c: State, x: nat, y: nat)
    requires FormulaExtension(a, b, x) && FormulaExtension(b, c, y)
    ensures FormulaExtension(a, c, x + y)
  {
    assert c.log[..|a.log|] == c.log[..|b.log|][..|a.log|];
    assert c.log[|a.log|..] == b.log[|a.log|..] + c.log[|b.log|..];
  }

  /** A consequent conjunct adds one or two formulas and goals. */
  lemma ConsequentConjunctExtends(o: Oracle, st: State, curr: Exp)
    requires AddConjunct(o, st, curr, false).Success?
    ensures FormulaExtension(st, AddConjunct(o, st, curr, false).value, 2)
  {
    var n := AddConjunct(o, st, curr, false).value;
    if curr.operation == "orB" {
      var mid := AddFormulaGoal(o, st, curr.args[0]);
      assert n.log == st.log + [AddedFormula(curr.args[0]), AddedFormula(curr.args[1])];
      assert n.log[|st.log|..] == [AddedFormula(curr.args[0]), AddedFormula(curr.args[1])];
      assert |mid.goal| <= |st.goal| + 1;
    } else {
      assert n.log[|st.log|..] == [AddedFormula(curr)];
    }
  }

  /**
   * Loading the consequent only adds formulas, never assumptions, and keeps
   * every goal there was; each conjunct adds at most two goals.
   */
  lemma {:induction false} ConsequentOnlyFormulas(o: Oracle, st: State, items: seq<Exp>)
    ensures Load(o, st, items, false).Success? ==> FormulaExtension(st, Load(o, st, items, false).value, 2 * |items|)
    decreases |items|
  {
    if |items| == 0 || o.evaluatesToFalse(st.log) {
      assert st.log[|st.log|..] == [];
    } else {
      var next := AddConjunct(o, st, o.replace(items[0]), false);
      if next.Success? {
        ConsequentConjunctExtends(o, st, o.replace(items[0]));
        ConsequentOnlyFormulas(o, next.value, items[1..]);
        if Load(o, next.value, items[1..], false).Success? {
          FormulaExtensionTransitive(st, next.value, Load(o, next.value, items[1..], false).value, 2, 2 * |items[1..]|);
        }
      }
    }
  }

  /** Once the conjunction evaluates to false, no conjunct is consumed. */
  lemma StopsOnceFalse(o: Oracle, st: State, items: seq<Exp>, inAntecedent: bool)
    requires o.evaluatesToFalse(st.log)
    ensures Load(o, st, items, inAntecedent) == Success(st)
    ensures IsProved(o, st) == FalseAssumption
  {
  }

  /** A disjunctive goal names both disjuncts as formulas and adds both roots as goals. */
  lemma DisjunctionSplits(o: Oracle, st: State, a: Exp, b: Exp)
    ensures var r := AddConjunct(o, st, Binary("orB", a, b), false);
      && r.Success?
      && r.value.log == st.log + [AddedFormula(a), AddedFormula(b)]
      && r.value.goal == st.goal
           + {o.rootSymbol(st.log + [AddedFormula(a)], o.latestFormulaSymbol(st.log + [AddedFormula(a)]))}
           + {o.rootSymbol(st.log + [AddedFormula(a), AddedFormula(b)], o.latestFormulaSymbol(st.log + [AddedFormula(a), AddedFormula(b)]))}
  {
    assert st.log + [AddedFormula(a)] + [AddedFormula(b)] == st.log + [AddedFormula(a), AddedFormula(b)];
  }

  /**
   * After construction the history is the consequent's formulas, then the
   * antecedent's assumptions, then the four seeds; the goals are those the
   * consequent made.
   */
  lemma ConstructionOrder(o: Oracle, consequent: seq<Exp>, antecedent: seq<Exp>)
    ensures Construct(o, consequent, antecedent).Success? ==>
      var r := Construct(o, consequent, antecedent).value;
      var goals := Load(o, State([], {}), consequent, false).value;
      exists formulas, assumptions ::
        && r.log == formulas + assumptions + SeedEvents()
        && AllFormulas(formulas) && AllExpressions(assumptions)
        && |assumptions| <= |antecedent|
        && r.goal == goals.goal
  {
    var goals := Load(o, State([], {}), consequent, false);
    if goals.Success? {
      ConsequentOnlyFormulas(o, State([], {}), consequent);
      AntecedentAssumesInOrder(o, goals.value, antecedent);
      var assumed := Load(o, goals.value, antecedent, true).value;
      var formulas := goals.value.log;
      var assumptions := assumed.log[|formulas|..];
      assert formulas == formulas[0..];
      assert assumed.log == formulas + assumptions;
      assert AllExpressions(assumptions) by {
        forall k | 0 <= k < |assumptions|
          ensures assumptions[k].AddedExpression?
        {
          assert assumptions[k] == assumed.log[|formulas| + k];
          assert assumed.log[|goals.value.log| + k] == AddedExpression(o.replace(antecedent[k]));
        }
      }
    }
  }
}
