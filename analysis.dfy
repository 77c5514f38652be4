/** The error of one resolution run: the squared difference between the
    numerical solution and the step reference, integrated over [0, 1] with
    the boundary-corrected trapezoid rule. The integral is the reported
    "L2 error" itself; no square root is taken. */
module Analysis {
  import opened Outcomes
  import opened Quadrature
  import opened Grid

  /** Everything one run produces: the error value, the grid, the numerical
      samples and the reference on the grid. */
  datatype Measurement = Measurement(l2: real, x: seq<real>, numeric: seq<real>, analytic: seq<real>)

  function Square(e: real): real {
    e * e
  }

  lemma SquareFacts(e: real)
    ensures 0.0 <= Square(e)
    ensures Square(e) == 0.0 <==> e == 0.0
  {
    if e == 0.0 {
      calc {
        Square(e);
        0.0 * 0.0;
        0.0;
      }
    } else {
      var m := if e < 0.0 then -e else e;
      calc {
        Square(e);
        m * m;
      >  { ProductPositive(m, m); }
        0.0;
      }
    }
  }

  /** The pointwise squared error. */
  function SquaredDiff(numeric: seq<real>, analytic: seq<real>): (d: seq<real>)
    requires |numeric| == |analytic|
    ensures |d| == |numeric| && NonNegative(d)
    ensures forall i :: 0 <= i < |d| ==> (d[i] == 0.0 <==> numeric[i] == analytic[i])
  {
    var d := seq(|numeric|, i requires 0 <= i < |numeric| => Square(numeric[i] - analytic[i]));
    assert forall i :: 0 <= i < |d| ==> 0.0 <= d[i] && (d[i] == 0.0 <==> numeric[i] == analytic[i]) by {
      forall i | 0 <= i < |d|
        ensures 0.0 <= d[i] && (d[i] == 0.0 <==> numeric[i] == analytic[i])
      {
        SquareFacts(numeric[i] - analytic[i]);
      }
    }
    d
  }

  /** The integrated squared error on the nodes `x`. */
  function L2Error(x: seq<real>, numeric: seq<real>, analytic: seq<real>): real
    requires |x| == |numeric| == |analytic| > 0
  {
    Trapezoid(x, SquaredDiff(numeric, analytic))
  }

  /** The error is never negative on nondecreasing nodes in [0, 1]. */
  lemma L2NonNegative(x: seq<real>, numeric: seq<real>, analytic: seq<real>)
    requires |x| == |numeric| == |analytic| > 0
    requires Nondecreasing(x) && WithinDomain(x)
    ensures 0.0 <= L2Error(x, numeric, analytic)
  {
    TrapezoidNonNegative(x, SquaredDiff(numeric, analytic));
  }

  /** Swapping the numerical and the reference series leaves the error
      unchanged. */
  lemma L2Symmetric(x: seq<real>, numeric: seq<real>, analytic: seq<real>)
    requires |x| == |numeric| == |analytic| > 0
    ensures L2Error(x, numeric, analytic) == L2Error(x, analytic, numeric)
  {
    var d, e := SquaredDiff(numeric, analytic), SquaredDiff(analytic, numeric);
    forall i | 0 <= i < |d|
      ensures d[i] == e[i]
    {
      var u := numeric[i] - analytic[i];
      calc {
        d[i];
        u * u;
        (-u) * (-u);
        e[i];
      }
    }
    assert d == e;
  }

  /** On strictly increasing nodes strictly inside (0, 1), the error is zero
      exactly when the two series agree at every node. */
  lemma L2ZeroIff(x: seq<real>, numeric: seq<real>, analytic: seq<real>)
    requires |x| == |numeric| == |analytic| > 0
    requires StrictlyIncreasing(x) && InsideDomain(x)
    ensures L2Error(x, numeric, analytic) == 0.0 <==> numeric == analytic
  {
    var d := SquaredDiff(numeric, analytic);
    TrapezoidZeroIff(x, d);
    if forall i :: 0 <= i < |d| ==> d[i] == 0.0 {
      assert numeric == analytic;
    }
  }

  /** On the cell-centred grid of the run's own sample count, the error is
      zero exactly when the series agree. */
  lemma L2OnCellCentresZeroIff(numeric: seq<real>, analytic: seq<real>)
    requires |numeric| == |analytic| >= 2
    ensures L2Error(CellCentres(|numeric|).value, numeric, analytic) == 0.0 <==> numeric == analytic
  {
    CellCentresInsideDomain(|numeric|);
    L2ZeroIff(CellCentres(|numeric|).value, numeric, analytic);
  }

  /** What measuring one sample file yields: fails for fewer than two
      samples, and otherwise pairs the error with the grid, the samples and
      the reference it was computed from. */
  function Measure(numeric: seq<real>): (r: Result<Measurement>)
    ensures r.Ok? <==> 2 <= |numeric|
    ensures r.Err? ==> r.error == SecondCoordinateMissing(|numeric|)
    ensures r.Ok? ==> r.value.numeric == numeric && r.value.x == CellCentres(|numeric|).value
    ensures r.Ok? ==> r.value.analytic == Reference(r.value.x) && |r.value.analytic| == |numeric|
    ensures r.Ok? ==> r.value.l2 == L2Error(r.value.x, numeric, r.value.analytic)
    ensures r.Ok? ==> 0.0 <= r.value.l2
    ensures r.Ok? ==> (r.value.l2 == 0.0 <==> numeric == r.value.analytic)
  {
    match CellCentres(|numeric|)
    case Err(e) => Err(e)
    case Ok(x) =>
      var analytic := Reference(x);
      CellCentresInsideDomain(|numeric|);
      L2NonNegative(x, numeric, analytic);
      L2ZeroIff(x, numeric, analytic);
      Ok(Measurement(L2Error(x, numeric, analytic), x, numeric, analytic))
  }

  /** Measures one run the way the analysis does, building the grid and the
      reference in place before integrating. */
  method MeasureError(numeric: seq<real>) returns (r: Result<Measurement>)
    ensures r == Measure(numeric)
  {
    var grid := BuildCellCentres(|numeric|);
    if grid.Err? {
      return Err(grid.error);
    }
    var x := grid.value;
    var analytic := BuildReference(x);
    r := Ok(Measurement(L2Error(x, numeric, analytic), x, numeric, analytic));
  }

  /** Comparing the reference with itself gives zero error. */
  lemma ReferenceAgainstItself(n: nat)
    requires 2 <= n
    ensures L2Error(CellCentres(n).value, Reference(CellCentres(n).value), Reference(CellCentres(n).value)) == 0.0
  {
    var x := CellCentres(n).value;
    L2OnCellCentresZeroIff(Reference(x), Reference(x));
  }
}
