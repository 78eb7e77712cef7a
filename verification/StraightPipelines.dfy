/** Pipelines that are a straight line of steps: accepted as soon as each step is supplied by the
    steps before it.
 */
module StraightPipelines {
  import opened Outcomes
  import opened Pipelines
  import opened Sequences

  /** One step of a line; it leads on by its only route or by its successor. */
  datatype Row = Row(action: string, version: string, config: Config, byRoute: bool)

  function Id(n: nat): string { seq(n + 1, _ => 's') }

  function LineStep(rows: seq<Row>, i: nat): Step
    requires i < |rows|
  {
    var last := i == |rows| - 1;
    Step(Id(i), rows[i].action, rows[i].version,
         if last || rows[i].byRoute then None else Some(Id(i + 1)),
         if !last && rows[i].byRoute then map["on" := Id(i + 1)] else map[], last, rows[i].config)
  }

  function Line(rows: seq<Row>): Pipeline {
    Pipeline(Id(0), |rows|, seq(|rows|, i requires 0 <= i < |rows| => LineStep(rows, i)))
  }

  ghost function Given(reg: Registry, rows: seq<Row>): set<string> {
    if rows == [] then INITIAL
    else Given(reg, Init(rows)) + if Last(rows).action in reg then reg[Last(rows).action].gives else {}
  }

  /** The row names an action of the registry as it is, and is supplied by the rows before it. */
  ghost predicate Fits(reg: Registry, rows: seq<Row>, i: nat)
    requires i < |rows|
  {
    && rows[i].action in reg && reg[rows[i].action].version == rows[i].version
    && ConfigAccepted(reg[rows[i].action].kind, LineStep(rows, i))
    && reg[rows[i].action].needs <= Given(reg, rows[..i])
  }

  ghost predicate AllFit(reg: Registry, rows: seq<Row>) {
    rows != [] && "result" in Given(reg, rows) && forall i | 0 <= i < |rows| :: Fits(reg, rows, i)
  }

  lemma IdsAreDistinct(i: nat, j: nat)
    ensures Id(i) == Id(j) ==> i == j
  {
    assert |Id(i)| == i + 1 && |Id(j)| == j + 1;
  }

  lemma LineEnd(rows: seq<Row>, i: nat)
    requires i < |rows|
    ensures var step := LineStep(rows, i);
            step.id == Id(i) && step.action == rows[i].action && step.version == rows[i].version && step.config == rows[i].config
            && (step.terminal <==> i == |rows| - 1) && WellFormedStep(step)
  {
    if rows[i].byRoute && i < |rows| - 1 { assert "on" in LineStep(rows, i).routes; }
  }

  lemma LineIsWellFormed(rows: seq<Row>)
    requires rows != []
    ensures UniqueIds(Line(rows).steps) && WellFormed(Line(rows))
  {
    hide Id;
    hide LineStep;
    hide WellFormedStep;
    var steps := Line(rows).steps;
    forall i | 0 <= i < |steps| ensures steps[i].id == Id(i) && WellFormedStep(steps[i]) { LineEnd(rows, i); }
    forall i, j | 0 <= i < j < |steps| ensures steps[i].id != steps[j].id { IdsAreDistinct(i, j); }
  }

  /** The steps of a line and where they lead. */
  lemma LineSteps(reg: Registry, rows: seq<Row>)
    requires rows != []
    ensures forall i | 0 <= i < |rows| :: Id(i) in StepMap(Line(rows).steps) && StepMap(Line(rows).steps)[Id(i)] == LineStep(rows, i)
    ensures forall id | id in StepMap(Line(rows).steps) :: exists i :: 0 <= i < |rows| && id == Id(i)
  {
    hide StepMap;
    hide Id;
    hide LineStep;
    hide UniqueIds;
    var steps := Line(rows).steps;
    LineIsWellFormed(rows);
    StepMapHoldsAll(steps);
    StepMapKeys(steps);
    forall i | 0 <= i < |rows| ensures Id(i) in StepMap(steps) && StepMap(steps)[Id(i)] == LineStep(rows, i) {
      LineEnd(rows, i);
      assert steps[i] == LineStep(rows, i) && steps[i] in steps;
    }
    forall id | id in StepMap(steps) ensures exists i :: 0 <= i < |rows| && id == Id(i) {
      var i :| 0 <= i < |steps| && steps[i] == StepMap(steps)[id];
      LineEnd(rows, i);
      assert id == Id(i);
    }
  }

  lemma LineTargets(rows: seq<Row>, i: nat)
    requires i < |rows|
    ensures Targets(LineStep(rows, i)) == if i + 1 < |rows| then {Id(i + 1)} else {}
  {
    hide Id;
    var step := LineStep(rows, i);
    if i + 1 < |rows| && rows[i].byRoute {
      assert step.routes["on"] == Id(i + 1);
    }
  }

  /** The only path along a line. */
  function Ids(n: nat): (r: seq<string>)
    ensures |r| == n
  {
    seq(n, i requires 0 <= i < n => Id(i))
  }

  lemma IdsGrow(n: nat)
    ensures Ids(n + 1) == Ids(n) + [Id(n)] && NoRepeat(Ids(n))
  {
    hide Id;
    forall i, j | 0 <= i < j < n ensures Ids(n)[i] != Ids(n)[j] { IdsAreDistinct(i, j); }
  }

  lemma LineAfter(reg: Registry, rows: seq<Row>, i: nat)
    requires i < |rows|
    ensures After(Check(reg, Line(rows)), Id(i)) == if i + 1 < |rows| then {Id(i + 1)} else {}
    ensures Terminal(Check(reg, Line(rows)), Id(i)) <==> i == |rows| - 1
  {
    hide Id;
    hide Line;
    hide LineStep;
    LineSteps(reg, rows);
    LineTargets(rows, i);
    LineEnd(rows, i);
  }

  lemma {:induction false} LinePath(reg: Registry, rows: seq<Row>, q: seq<string>)
    requires rows != [] && EntryPath(Check(reg, Line(rows)), q)
    ensures 0 < |q| <= |rows| && q == Ids(|q|)
    decreases |q|
  {
    hide Id;
    hide After;
    var c := Check(reg, Line(rows));
    if |q| > 1 {
      PathPrefix(c, q, |q| - 1);
      LinePath(reg, rows, Init(q));
      IdsGrow(|q| - 1);
      LineAfter(reg, rows, |q| - 2);
      assert q[|q| - 2] == Init(q)[|q| - 2] == Id(|q| - 2);
      assert q[|q| - 1] in After(c, q[|q| - 2]);
      assert q == Init(q) + [Last(q)];
    }
  }

  lemma {:induction false} LineIsPath(reg: Registry, rows: seq<Row>, n: nat)
    requires 0 < n <= |rows|
    ensures EntryPath(Check(reg, Line(rows)), Ids(n))
  {
    hide Id;
    hide After;
    forall i | 0 < i < n ensures Ids(n)[i] in After(Check(reg, Line(rows)), Ids(n)[i - 1]) {
      LineAfter(reg, rows, i - 1);
    }
  }

  lemma {:induction false} LineGives(reg: Registry, rows: seq<Row>, n: nat)
    requires n <= |rows|
    ensures Available(Check(reg, Line(rows)), Ids(n)) == Given(reg, rows[..n])
  {
    hide Id;
    hide Line;
    hide LineStep;
    if n > 0 {
      LineGives(reg, rows, n - 1);
      IdsGrow(n - 1);
      LineSteps(reg, rows);
      LineEnd(rows, n - 1);
      assert Init(rows[..n]) == rows[..n - 1] && Last(rows[..n]) == rows[n - 1];
      assert Init(Ids(n)) == Ids(n - 1) && Last(Ids(n)) == Id(n - 1);
    }
  }

  lemma LineStepsAccepted(reg: Registry, rows: seq<Row>)
    requires AllFit(reg, rows)
    ensures StepsAccepted(reg, Line(rows))
  {
    hide Id;
    hide ConfigAccepted;
    hide UniqueIds;
    hide Given;
    LineIsWellFormed(rows);
    LineSteps(reg, rows);
    var steps := StepMap(Line(rows).steps);
    forall s | s in Line(rows).steps ensures StepAccepted(reg, steps, s) {
      var i :| 0 <= i < |rows| && s == LineStep(rows, i);
      assert Fits(reg, rows, i);
      LineTargets(rows, i);
    }
  }

  /** A line whose rows fit is accepted. */
  lemma LineIsAccepted(reg: Registry, rows: seq<Row>)
    requires AllFit(reg, rows)
    ensures WellFormed(Line(rows)) && StepsAccepted(reg, Line(rows)) && Acceptable(Check(reg, Line(rows)))
  {
    hide Id;
    hide After;
    hide ConfigAccepted;
    hide Line;
    hide LineStep;
    hide StepsAccepted;
    hide NoRepeat;
    hide Given;
    LineIsWellFormed(rows);
    LineSteps(reg, rows);
    LineStepsAccepted(reg, rows);
    var c := Check(reg, Line(rows));
    forall q | EntryPath(c, q)
      ensures GoodPath(c, q) && (Terminal(c, Last(q)) ==> "result" in Available(c, q))
    {
      LinePath(reg, rows, q);
      var n := |q| - 1;
      IdsGrow(n);
      IdsGrow(n + 1);
      LineGives(reg, rows, n);
      LineGives(reg, rows, n + 1);
      LineAfter(reg, rows, n);
      LineEnd(rows, n);
      assert Fits(reg, rows, n);
      assert Init(q) == Ids(n) && Last(q) == Id(n);
      assert rows[..|rows|] == rows;
      LineSize(rows);
    }
    forall id | id in c.steps ensures exists q :: EntryPath(c, q) && Last(q) == id {
      var i :| 0 <= i < |rows| && id == Id(i);
      LineIsPath(reg, rows, i + 1);
      assert Last(Ids(i + 1)) == id;
    }
  }

  lemma LineSize(rows: seq<Row>)
    ensures Line(rows).maxSteps == |rows| && Line(rows).entry == Id(0)
  {
  }
}
