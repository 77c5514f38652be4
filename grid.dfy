/** The cell-centred grid rebuilt from a sample count, and the step
    reference evaluated on it. */
module Grid {
  import opened Outcomes
  import opened Quadrature

  /** Where the reference solution steps down from 1 to 0. */
  const StepLocation: real := 0.75

  /** The evenly spaced left cell edges `i / n` for `i` in [0, n). */
  function CellEdges(n: nat): seq<real> {
    seq(n, i requires 0 <= i < n => i as real / n as real)
  }

  /** The grid as the analysis builds it: the left cell edges shifted right
      by half of the second edge. Reading the second edge fails for fewer
      than two samples. */
  function CellCentres(n: nat): (r: Result<seq<real>>)
    ensures r.Err? <==> n < 2
    ensures r.Err? ==> r.error == SecondCoordinateMissing(n)
    ensures r.Ok? ==> |r.value| == n
    ensures r.Ok? ==> forall i :: 0 <= i < n ==> r.value[i] == (i as real + 0.5) / n as real
  {
    if n < 2 then Err(SecondCoordinateMissing(n))
    else
      var edges := CellEdges(n);
      var shift := 0.5 * edges[1];
      var x := seq(n, i requires 0 <= i < n => edges[i] + shift);
      assert forall i :: 0 <= i < n ==> x[i] == (i as real + 0.5) / n as real by {
        forall i | 0 <= i < n
          ensures x[i] == (i as real + 0.5) / n as real
        {
          ShiftedEdgeIsCentre(i, n);
        }
      }
      Ok(x)
  }

  lemma ShiftedEdgeIsCentre(i: nat, n: nat)
    requires 0 < n
    ensures i as real / n as real + 0.5 * (1 as real / n as real) == (i as real + 0.5) / n as real
  {
  }

  /** The reference solution at one coordinate. */
  function StepProfile(xi: real): real {
    if xi < StepLocation then 1.0 else 0.0
  }

  /** The reference solution at every grid coordinate. */
  function Reference(x: seq<real>): (r: seq<real>)
    ensures |r| == |x|
    ensures forall i :: 0 <= i < |x| ==> (r[i] == 1.0 <==> x[i] < StepLocation)
    ensures forall i :: 0 <= i < |x| ==> (r[i] == 0.0 <==> StepLocation <= x[i])
  {
    seq(|x|, i requires 0 <= i < |x| => StepProfile(x[i]))
  }

  /** Builds the grid in place, as the analysis does: fill an array with the
      cell edges, then add half of the second entry to every entry. */
  method BuildCellCentres(n: nat) returns (r: Result<seq<real>>)
    ensures r == CellCentres(n)
  {
    var x := new real[n];
    for i := 0 to n
      invariant forall j :: 0 <= j < i ==> x[j] == j as real / n as real
    {
      x[i] := i as real / n as real;
    }
    if n < 2 {
      return Err(SecondCoordinateMissing(n));
    }
    var shift := 0.5 * x[1];
    for i := 0 to n
      invariant forall j :: 0 <= j < i ==> x[j] == j as real / n as real + shift
      invariant forall j :: i <= j < n ==> x[j] == j as real / n as real
    {
      x[i] := x[i] + shift;
    }
    r := Ok(x[..]);
    assert x[..] == CellCentres(n).value;
  }

  /** Builds the reference in place, as the analysis does: start from zeros
      and set to 1 every entry whose coordinate lies left of the step. */
  method BuildReference(x: seq<real>) returns (analytic: seq<real>)
    ensures analytic == Reference(x)
  {
    var a := new real[|x|](_ => 0.0);
    for i := 0 to |x|
      invariant forall j :: 0 <= j < i ==> a[j] == StepProfile(x[j])
      invariant forall j :: i <= j < |x| ==> a[j] == 0.0
    {
      if x[i] < StepLocation {
        a[i] := 1.0;
      }
    }
    analytic := a[..];
  }

  /** Dividing by the same positive count keeps the order of numerators. */
  lemma DivideKeepsOrder(a: real, b: real, n: real)
    requires 0.0 < n && a < b
    ensures a / n < b / n
  {
    assert b / n - a / n == (b - a) / n;
  }

  /** The grid from at least two samples lies strictly inside (0, 1) and is
      strictly increasing. */
  lemma CellCentresInsideDomain(n: nat)
    requires 2 <= n
    ensures StrictlyIncreasing(CellCentres(n).value)
    ensures InsideDomain(CellCentres(n).value)
  {
    var x := CellCentres(n).value;
    var m := n as real;
    forall i, j | 0 <= i < j < n
      ensures x[i] < x[j]
    {
      DivideKeepsOrder(i as real + 0.5, j as real + 0.5, m);
    }
    forall i | 0 <= i < n
      ensures 0.0 < x[i] < 1.0
    {
      DivideKeepsOrder(0.0, i as real + 0.5, m);
      DivideKeepsOrder(i as real + 0.5, m, m);
    }
  }

  /** Adjacent grid coordinates are one cell width `1 / n` apart. */
  lemma CellCentresSpacing(n: nat, i: nat)
    requires 2 <= n && i + 1 < n
    ensures CellCentres(n).value[i + 1] - CellCentres(n).value[i] == 1.0 / n as real
  {
    var m := n as real;
    assert (i as real + 1.5) / m - (i as real + 0.5) / m == ((i as real + 1.5) - (i as real + 0.5)) / m;
  }

  /** Number of grid cells, out of `n`, whose centre lies left of the step. */
  function CellsLeftOfStep(n: nat): nat {
    (3 * n + 1) / 4
  }

  /** On the grid the reference is a single downward step: ones in the
      first `CellsLeftOfStep(n)` cells and zeros after them. */
  lemma ReferenceOnCellCentres(n: nat)
    requires 2 <= n
    ensures |Reference(CellCentres(n).value)| == n
    ensures forall i :: 0 <= i < n ==>
      Reference(CellCentres(n).value)[i] == if i < CellsLeftOfStep(n) then 1.0 else 0.0
  {
    var x := CellCentres(n).value;
    var m := n as real;
    forall i | 0 <= i < n
      ensures Reference(x)[i] == if i < CellsLeftOfStep(n) then 1.0 else 0.0
    {
      assert x[i] < StepLocation <==> 4 * i + 2 < 3 * n by {
        assert x[i] == (i as real + 0.5) / m;
        CentreLeftOfStep(i, n);
      }
    }
  }

  /** The centre of cell `i` of `n` lies left of the step exactly when
      `4i + 2 < 3n`, an integer comparison. */
  lemma CentreLeftOfStep(i: nat, n: nat)
    requires 0 < n
    ensures (i as real + 0.5) / n as real < 0.75 <==> 4 * i + 2 < 3 * n
  {
    var m := n as real;
    var a, b := i as real + 0.5, 0.75 * m;
    assert b / m == 0.75;
    assert a < b <==> 4 * i + 2 < 3 * n;
    if a < b {
      DivideKeepsOrder(a, b, m);
    } else if b < a {
      DivideKeepsOrder(b, a, m);
    }
  }

  /** Four samples: centres at 1/8, 3/8, 5/8 and 7/8. */
  lemma CellCentresOfFour()
    ensures CellCentres(4) == Ok([0.125, 0.375, 0.625, 0.875])
  {
    var x := CellCentres(4).value;
    assert x == [0.125, 0.375, 0.625, 0.875];
  }

  /** The reference left and right of the step. */
  lemma ReferenceExample()
    ensures Reference([0.1, 0.8]) == [1.0, 0.0]
  {
  }
}
