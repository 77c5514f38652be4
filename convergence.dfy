/** The convergence study: one error per sample file, collected in input
    order, the grid spacing of each run, and the runs the power-law fit
    uses. */
module Convergence {
  import opened Outcomes
  import opened Grid
  import opened Analysis

  /** One sample file: the resolution `nx` named by its file name and the
      numerical solution read from its lines, both already parsed. */
  datatype SampleFile = SampleFile(nx: real, samples: seq<real>)

  /** The resolutions and errors of all runs, in input order. */
  datatype Study = Study(nx: seq<real>, errors: seq<real>)

  /** How many leading runs the fit leaves out. */
  const SkippedRuns: nat := 3

  /** Measures every file in turn, appending its resolution and its error.
      The first file that cannot be measured stops the study. */
  method RunStudy(files: seq<SampleFile>) returns (r: Result<Study>)
    ensures r.Ok? <==> forall i :: 0 <= i < |files| ==> 2 <= |files[i].samples|
    ensures r.Err? ==> exists i :: 0 <= i < |files| && Measure(files[i].samples) == Err(r.error)
                                   && forall j :: 0 <= j < i ==> Measure(files[j].samples).Ok?
    ensures r.Ok? ==> |r.value.nx| == |files| && |r.value.errors| == |files|
    ensures r.Ok? ==> forall i :: 0 <= i < |files| ==>
      r.value.nx[i] == files[i].nx && r.value.errors[i] == Measure(files[i].samples).value.l2
    ensures r.Ok? ==> forall i :: 0 <= i < |files| ==> 0.0 <= r.value.errors[i]
  {
    var nx: seq<real> := [];
    var errors: seq<real> := [];
    for k := 0 to |files|
      invariant |nx| == k && |errors| == k
      invariant forall i :: 0 <= i < k ==> Measure(files[i].samples).Ok?
      invariant forall i :: 0 <= i < k ==>
        nx[i] == files[i].nx && errors[i] == Measure(files[i].samples).value.l2
    {
      nx := nx + [files[k].nx];
      var m := MeasureError(files[k].samples);
      if m.Err? {
        return Err(m.error);
      }
      errors := errors + [m.value.l2];
    }
    r := Ok(Study(nx, errors));
  }

  /** The grid spacing `1 / nx` of every run. */
  function Spacings(nx: seq<real>): (dx: seq<real>)
    requires forall i :: 0 <= i < |nx| ==> 0.0 < nx[i]
    ensures |dx| == |nx|
    ensures forall i :: 0 <= i < |nx| ==> 0.0 < dx[i] && dx[i] * nx[i] == 1.0
  {
    seq(|nx|, i requires 0 <= i < |nx| => 1.0 / nx[i])
  }

  /** When the resolution a file names equals its number of lines, the
      spacing is the distance between adjacent grid coordinates. */
  lemma SpacingIsCellWidth(n: nat, i: nat)
    requires 2 <= n && i + 1 < n
    ensures Spacings([n as real])[0] == CellCentres(n).value[i + 1] - CellCentres(n).value[i]
  {
    CellCentresSpacing(n, i);
  }

  /** A finer resolution gives a smaller spacing. */
  lemma SpacingsShrinkWithResolution(nx: seq<real>, i: nat, j: nat)
    requires forall k :: 0 <= k < |nx| ==> 0.0 < nx[k]
    requires i < |nx| && j < |nx| && nx[i] < nx[j]
    ensures Spacings(nx)[j] < Spacings(nx)[i]
  {
    var dx := Spacings(nx);
    DivideKeepsOrder(dx[j] * nx[i], dx[j] * nx[j], nx[i]);
  }

  /** The entries the fit uses: all but the first `SkippedRuns`, in input
      order; none when there are no more than `SkippedRuns`. */
  function FitTail<T>(s: seq<T>): (t: seq<T>)
    ensures |t| == if |s| <= SkippedRuns then 0 else |s| - SkippedRuns
    ensures forall k :: 0 <= k < |t| ==> t[k] == s[SkippedRuns + k]
  {
    if |s| <= SkippedRuns then [] else s[SkippedRuns..]
  }

  /** The (spacing, error) points the fit uses, in input order. */
  function FitPoints(study: Study): (points: seq<(real, real)>)
    requires |study.nx| == |study.errors|
    requires forall i :: 0 <= i < |study.nx| ==> 0.0 < study.nx[i]
    ensures |points| == |FitTail(study.nx)|
    ensures forall k :: 0 <= k < |points| ==>
      points[k] == (Spacings(study.nx)[SkippedRuns + k], study.errors[SkippedRuns + k])
  {
    var dx, err := FitTail(Spacings(study.nx)), FitTail(study.errors);
    seq(|dx|, k requires 0 <= k < |dx| => (dx[k], err[k]))
  }
}
