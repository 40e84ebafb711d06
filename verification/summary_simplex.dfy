/** The simplex tableau of summary/all_star_simplex.py, over exact fractions: the builder
    that lays out constraint rows with their slack block, the objective row, and the
    two solver steps that can return normally (`_can_improve` and `_pivot`). */
module SummarySimplex {
  import opened Outcomes

  type Row = seq<real>
  type Tableau = seq<Row>

  /** `SimplexTableauBuilder`: the objective coefficients, how many decision and slack
      variables there are, the constraint rows as stored so far and their values. */
  datatype Builder = Builder(
    coeffs: Row,
    numVariables: nat,
    numSlack: nat,
    constraints: seq<Row>,
    values: seq<real>)

  /** `n` zeros. */
  function Zeros(n: nat): (z: Row)
    ensures |z| == n && forall j :: 0 <= j < n ==> z[j] == 0.0
  {
    seq(n, j => 0.0)
  }

  /** `SimplexTableauBuilder(coeffs)`: no constraint yet. */
  function NewBuilder(coeffs: Row): Builder
  {
    Builder(coeffs, |coeffs|, 0, [], [])
  }

  /** The layout every stored row keeps: one row and one value per slack variable, each
      row as long as the decision and slack variables together, and the slack columns
      forming an identity block, row `i` owning slack column `i`. */
  ghost predicate Shaped(b: Builder)
  {
    && b.numVariables == |b.coeffs|
    && |b.constraints| == b.numSlack == |b.values|
    && (forall i :: 0 <= i < |b.constraints| ==> |b.constraints[i]| == b.numVariables + b.numSlack)
    && (forall i, c :: 0 <= i < b.numSlack && b.numVariables <= c < b.numVariables + b.numSlack ==>
          b.constraints[i][c] == if c == b.numVariables + i then 1.0 else 0.0)
  }

  /** `add_constraint`: a constraint whose length is not the number of variables fails
      the assertion. Otherwise every stored row gains a zero slack entry, and the new row
      is the coefficients, zeros for the earlier slack variables and a one for its own. */
  function AddConstraint(b: Builder, constraint: Row, value: real): (r: Result<Builder>)
    ensures r.Raise? <==> |constraint| != b.numVariables
    ensures r.Raise? ==> r.error == AssertionError
    ensures r.Ok? ==> (r.value.coeffs == b.coeffs && r.value.numVariables == b.numVariables
      && r.value.numSlack == b.numSlack + 1 && r.value.values == b.values + [value]
      && |r.value.constraints| == |b.constraints| + 1
      && |r.value.constraints[|b.constraints|]| == |constraint| + b.numSlack + 1
      && r.value.constraints[|b.constraints|][..|constraint|] == constraint
      && r.value.constraints[|b.constraints|][|constraint|..] == Zeros(b.numSlack) + [1.0]
      && forall i :: 0 <= i < |b.constraints| ==>
           && |r.value.constraints[i]| == |b.constraints[i]| + 1
           && r.value.constraints[i][..|b.constraints[i]|] == b.constraints[i]
           && r.value.constraints[i][|b.constraints[i]|] == 0.0)
  {
    if |constraint| != b.numVariables then Raise(AssertionError)
    else
      var grown := seq(|b.constraints|, i requires 0 <= i < |b.constraints| => b.constraints[i] + [0.0]);
      var added := constraint + Zeros(b.numSlack) + [1.0];
      assert added[..|constraint|] == constraint;
      assert added[|constraint|..] == Zeros(b.numSlack) + [1.0];
      assert forall i :: 0 <= i < |b.constraints| ==> grown[i][..|b.constraints[i]|] == b.constraints[i];
      Ok(b.(numSlack := b.numSlack + 1, constraints := grown + [added], values := b.values + [value]))
  }

  /** Adding a constraint keeps the layout. */
  lemma AddConstraintShaped(b: Builder, constraint: Row, value: real)
    requires Shaped(b) && |constraint| == b.numVariables
    ensures Shaped(AddConstraint(b, constraint, value).value)
  {
    var r := AddConstraint(b, constraint, value).value;
    var nv := b.numVariables;
    var k := b.numSlack;
    forall i | 0 <= i < k
      ensures r.constraints[i] == b.constraints[i] + [0.0]
    {
    }
    assert r.constraints[k] == constraint + Zeros(k) + [1.0];
    forall i, c | 0 <= i < k + 1 && nv <= c < nv + k + 1
      ensures r.constraints[i][c] == if c == nv + i then 1.0 else 0.0
    {
      var j := c - nv;
      if i < k && j < k {
        assert r.constraints[i][nv + j] == b.constraints[i][nv + j];
      } else if i < k {
        assert |b.constraints[i]| == nv + k;
        assert r.constraints[i][nv + j] == [0.0][0];
        assert i != j;
      } else if j < k {
        assert r.constraints[i][nv + j] == Zeros(k)[j];
        assert i != j;
      } else {
        assert r.constraints[i][nv + j] == [1.0][0];
        assert i == j;
      }
    }
  }

  /** The constraints added one after the other; the first failure stops the run. */
  function AddAll(b: Builder, cs: seq<(Row, real)>): (r: Result<Builder>)
    decreases |cs|
  {
    if |cs| == 0 then Ok(b)
    else
      match AddConstraint(b, cs[0].0, cs[0].1)
      case Raise(e) => Raise(e)
      case Ok(next) => AddAll(next, cs[1..])
  }

  /** The stored rows start with the constraints' coefficients, in order, and hold
      their values. */
  ghost predicate Records(b: Builder, cs: seq<(Row, real)>)
  {
    && |b.constraints| == |cs| == |b.values|
    && forall i :: 0 <= i < |cs| ==>
        |cs[i].0| <= |b.constraints[i]| && b.constraints[i][..|cs[i].0|] == cs[i].0 && b.values[i] == cs[i].1
  }

  /** Starting from a fresh builder, adding constraints fails exactly when one of them
      has the wrong length; otherwise the builder is laid out as `Shaped` demands with
      one slack variable per constraint, and its rows record the constraints. */
  lemma {:induction false} AddAllLayout(b: Builder, done: seq<(Row, real)>, cs: seq<(Row, real)>)
    requires Shaped(b) && Records(b, done)
    ensures AddAll(b, cs).Raise? <==> exists i :: 0 <= i < |cs| && |cs[i].0| != b.numVariables
    ensures AddAll(b, cs).Ok? ==> (Shaped(AddAll(b, cs).value) && Records(AddAll(b, cs).value, done + cs)
      && AddAll(b, cs).value.coeffs == b.coeffs)
    decreases |cs|
  {
    if |cs| > 0 {
      var step := AddConstraint(b, cs[0].0, cs[0].1);
      if step.Ok? {
        var next := step.value;
        AddConstraintShaped(b, cs[0].0, cs[0].1);
        assert Records(next, done + [cs[0]]) by {
          forall i | 0 <= i < |done|
            ensures next.constraints[i][..|done[i].0|] == done[i].0
          {
            assert next.constraints[i][..|b.constraints[i]|] == b.constraints[i];
            assert b.constraints[i][..|done[i].0|] == done[i].0;
          }
        }
        AddAllLayout(next, done + [cs[0]], cs[1..]);
        assert done + [cs[0]] + cs[1..] == done + cs;
        if exists i :: 0 <= i < |cs[1..]| && |cs[1..][i].0| != next.numVariables {
          var i :| 0 <= i < |cs[1..]| && |cs[1..][i].0| != next.numVariables;
          assert cs[i + 1] == cs[1..][i];
        }
        if exists i :: 0 <= i < |cs| && |cs[i].0| != b.numVariables {
          var i :| 0 <= i < |cs| && |cs[i].0| != b.numVariables;
          assert i > 0 && cs[1..][i - 1] == cs[i];
        }
      }
    } else {
      assert done + cs == done;
    }
  }

  /** `build`: each stored row with its value appended, then the objective row, the
      coefficients followed by a zero per slack variable and one for the value column. */
  function Build(b: Builder): (t: Tableau)
    requires |b.values| == |b.constraints|
    ensures |t| == |b.constraints| + 1
  {
    seq(|b.constraints|, i requires 0 <= i < |b.constraints| => b.constraints[i] + [b.values[i]])
      + [b.coeffs + Zeros(b.numSlack + 1)]
  }

  /** The tableau built from a laid-out builder is rectangular; its last column holds the
      constraint values and a zero; its slack block is the identity; its objective row
      is the coefficients with nothing else but zeros. */
  lemma BuildLayout(b: Builder)
    requires Shaped(b)
    ensures var t := Build(b); var nv := b.numVariables; var k := b.numSlack;
      && (forall i :: 0 <= i < |t| ==> |t[i]| == nv + k + 1)
      && (forall i :: 0 <= i < k ==> t[i][nv + k] == b.values[i])
      && (forall i, c :: 0 <= i < k && nv <= c < nv + k ==> t[i][c] == if c == nv + i then 1.0 else 0.0)
      && t[k][..nv] == b.coeffs
      && (forall j :: nv <= j < nv + k + 1 ==> t[k][j] == 0.0)
  {
    var t := Build(b);
    var nv := b.numVariables;
    var k := b.numSlack;
    assert t[k] == b.coeffs + Zeros(k + 1);
    assert forall i :: 0 <= i < k ==> t[i] == b.constraints[i] + [b.values[i]];
    forall i | 0 <= i < k
      ensures t[i][nv + k] == b.values[i]
    {
      assert t[i][|b.constraints[i]|] == b.values[i];
    }
    forall i, c | 0 <= i < k && nv <= c < nv + k
      ensures t[i][c] == if c == nv + i then 1.0 else 0.0
    {
      assert t[i][c] == b.constraints[i][c];
    }
    forall j | nv <= j < nv + k + 1
      ensures t[k][j] == 0.0
    {
      assert t[k][j] == Zeros(k + 1)[j - nv];
    }
  }

  /** Every entry of a row but the last, as `row[:-1]` gives it. */
  function AllButLast(s: Row): (r: Row)
    ensures |s| > 0 ==> r == s[..|s| - 1]
    ensures |s| == 0 ==> r == []
  {
    if |s| == 0 then [] else s[..|s| - 1]
  }

  /** Whether some entry is negative, scanned from the front. */
  function AnyNegative(s: Row): (r: bool)
    ensures r <==> exists j :: 0 <= j < |s| && s[j] < 0.0
  {
    if |s| == 0 then false
    else if s[0] < 0.0 then true
    else
      var rest := AnyNegative(s[1..]);
      assert forall j :: 1 <= j < |s| ==> s[j] == s[1..][j - 1];
      rest
  }

  /** The objective row, the tableau's last. */
  function Objective(t: Tableau): Row
    requires |t| > 0
  {
    t[|t| - 1]
  }

  /** `_can_improve`: some objective entry other than the value column is negative. The
      last row must exist; `build` always yields one. */
  function CanImprove(t: Tableau): (r: bool)
    requires |t| > 0
    ensures r <==> exists j :: 0 <= j < |Objective(t)| - 1 && Objective(t)[j] < 0.0
  {
    var row := AllButLast(Objective(t));
    assert forall j :: 0 <= j < |row| ==> row[j] == Objective(t)[j];
    AnyNegative(row)
  }

  /** A freshly built tableau can be improved exactly when some objective coefficient is
      negative. */
  lemma BuiltCanImprove(b: Builder)
    requires Shaped(b)
    ensures CanImprove(Build(b)) <==> exists j :: 0 <= j < |b.coeffs| && b.coeffs[j] < 0.0
  {
    BuildLayout(b);
    var t := Build(b);
    var k := b.numSlack;
    if exists j :: 0 <= j < |b.coeffs| && b.coeffs[j] < 0.0 {
      var j :| 0 <= j < |b.coeffs| && b.coeffs[j] < 0.0;
      assert t[k][..b.numVariables][j] == t[k][j];
    }
  }

  /** Every row reaches the pivot column. */
  ghost predicate Reaches(t: Tableau, pc: int)
  {
    forall i :: 0 <= i < |t| ==> 0 <= pc < |t[i]|
  }

  /** A row with every entry divided by `d`. */
  function Divide(row: Row, d: real): (r: Row)
    requires d != 0.0
    ensures |r| == |row| && forall j :: 0 <= j < |row| ==> r[j] * d == row[j] && r[j] == row[j] / d
  {
    seq(|row|, j requires 0 <= j < |row| => row[j] / d)
  }

  /** `_pivot` as written: the pivot row is divided by the pivot cell, which must not be
      zero; every other row then has subtracted from it its own entries times its own
      pivot-column entry. */
  function PivotAsWritten(t: Tableau, pr: int, pc: int): (r: Result<Tableau>)
    requires 0 <= pr < |t| && 0 <= pc < |t[pr]| && Reaches(t, pc)
    ensures r.Raise? <==> t[pr][pc] == 0.0
    ensures r.Raise? ==> r.error == ZeroDivisionError
    ensures r.Ok? ==> (|r.value| == |t| && (forall i :: 0 <= i < |t| ==> |r.value[i]| == |t[i]|)
      && r.value[pr][pc] == 1.0)
  {
    var cell := t[pr][pc];
    if cell == 0.0 then Raise(ZeroDivisionError)
    else
      assert Divide(t[pr], cell)[pc] == 1.0 by {
        assert Divide(t[pr], cell)[pc] * cell == cell;
      }
      Ok(seq(|t|, i requires 0 <= i < |t| =>
        if i == pr then Divide(t[pr], cell)
        else seq(|t[i]|, j requires 0 <= j < |t[i]| => t[i][j] - t[i][j] * t[i][pc])))
  }

  /** As written, another row's pivot-column entry ends up zero only when it already was
      zero or was one: eliminating with the row itself instead of the pivot row leaves
      the pivot column uncleared in general. */
  lemma AsWrittenClearsOnlyZeroOrOne(t: Tableau, pr: int, pc: int, i: int)
    requires 0 <= pr < |t| && 0 <= pc < |t[pr]| && Reaches(t, pc) && t[pr][pc] != 0.0
    requires 0 <= i < |t| && i != pr
    ensures PivotAsWritten(t, pr, pc).value[i][pc] == 0.0 <==> t[i][pc] == 0.0 || t[i][pc] == 1.0
  {
    var x := t[i][pc];
    assert PivotAsWritten(t, pr, pc).value[i][pc] == x - x * x == x * (1.0 - x);
  }

  /** The rows [1, 1] and [2, 1] pivoted on the first cell: as written the second row
      becomes [-2, -1] where elimination would give [0, -1]. */
  lemma AsWrittenCounterexample()
    ensures PivotAsWritten([[1.0, 1.0], [2.0, 1.0]], 0, 0) == Ok([[1.0, 1.0], [-2.0, -1.0]])
    ensures Pivot([[1.0, 1.0], [2.0, 1.0]], 0, 0) == Ok([[1.0, 1.0], [0.0, -1.0]])
  {
    var t := [[1.0, 1.0], [2.0, 1.0]];
    assert Divide(t[0], 1.0) == [1.0, 1.0];
    var w := PivotAsWritten(t, 0, 0).value;
    assert |w| == 2 && w[0] == [1.0, 1.0];
    assert |w[1]| == 2 && w[1][0] == -2.0 && w[1][1] == -1.0;
    assert w[1] == [-2.0, -1.0];
    assert w == [[1.0, 1.0], [-2.0, -1.0]];
    var p := Pivot(t, 0, 0).value;
    assert |p| == 2 && p[0] == [1.0, 1.0];
    assert |p[1]| == 2 && p[1][0] == 0.0 && p[1][1] == -1.0;
    assert p[1] == [0.0, -1.0];
    assert p == [[1.0, 1.0], [0.0, -1.0]];
  }

  /** The pivot step a simplex iteration needs: the pivot row is divided by its nonzero
      pivot cell and every other row has subtracted from it the scaled pivot row times
      its own pivot-column entry. */
  function Pivot(t: Tableau, pr: int, pc: int): (r: Result<Tableau>)
    requires 0 <= pr < |t| && 0 <= pc < |t[pr]| && Reaches(t, pc)
    requires forall i :: 0 <= i < |t| ==> |t[i]| == |t[pr]|
    ensures r.Raise? <==> t[pr][pc] == 0.0
    ensures r.Raise? ==> r.error == ZeroDivisionError
    ensures r.Ok? ==> |r.value| == |t| && forall i :: 0 <= i < |t| ==> |r.value[i]| == |t[i]|
  {
    var cell := t[pr][pc];
    if cell == 0.0 then Raise(ZeroDivisionError)
    else
      var scaled := Divide(t[pr], cell);
      Ok(seq(|t|, i requires 0 <= i < |t| =>
        if i == pr then scaled
        else seq(|t[i]|, j requires 0 <= j < |t[i]| => t[i][j] - t[i][pc] * scaled[j])))
  }

  /** After the pivot the pivot column is a unit column: one in the pivot row and zero in
      every other row. */
  lemma PivotClearsColumn(t: Tableau, pr: int, pc: int)
    requires 0 <= pr < |t| && 0 <= pc < |t[pr]| && Reaches(t, pc)
    requires forall i :: 0 <= i < |t| ==> |t[i]| == |t[pr]|
    requires t[pr][pc] != 0.0
    ensures forall i :: 0 <= i < |t| ==> Pivot(t, pr, pc).value[i][pc] == if i == pr then 1.0 else 0.0
  {
    var scaled := Divide(t[pr], t[pr][pc]);
    assert scaled[pc] == 1.0;
  }

  /** Every row after the pivot is the old row plus a multiple of the old pivot row, so
      the pivot keeps the constraints' solutions; the pivot row itself is the old one
      divided by the cell. */
  lemma PivotIsRowOperation(t: Tableau, pr: int, pc: int)
    requires 0 <= pr < |t| && 0 <= pc < |t[pr]| && Reaches(t, pc)
    requires forall i :: 0 <= i < |t| ==> |t[i]| == |t[pr]|
    requires t[pr][pc] != 0.0
    ensures var r := Pivot(t, pr, pc).value;
      forall i, j :: 0 <= i < |t| && 0 <= j < |t[pr]| ==>
        if i == pr then r[i][j] * t[pr][pc] == t[i][j]
        else r[i][j] == t[i][j] - (t[i][pc] / t[pr][pc]) * t[pr][j]
  {
    var cell := t[pr][pc];
    var r := Pivot(t, pr, pc).value;
    forall i, j | 0 <= i < |t| && 0 <= j < |t[pr]| && i != pr
      ensures r[i][j] == t[i][j] - (t[i][pc] / cell) * t[pr][j]
    {
      assert Divide(t[pr], cell)[j] == t[pr][j] / cell;
    }
  }
}
