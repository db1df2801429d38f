/**
 * Fit parameters and the parameter list of src/vmcmc/parameter.cpp.
 *
 * A `Parameter` is a value: its limit operations are functions of it (the
 * `double&` they update becomes the returned value). A `ParameterList` is an
 * object whose methods grow its sequence of parameters and its triangular
 * correlation store in place.
 */
module Parameters {
  import opened Wrappers
  import opened Numeric
  import opened Blas

  /** A limit as handed to the constructor: unset, a finite double, or a non-finite one (an infinity or NaN). */
  datatype LimitInput = Unset | FiniteLimit(value: real) | NonFiniteLimit

  /** Why construction throws. */
  datatype ConfigurationError = InvertedLimits | StartOutsideLimits

  /** The outcome of reflecting a value: the new value and whether it landed inside the limits. */
  datatype Reflection = Reflection(value: real, ok: bool)

  datatype Parameter = Parameter(
    name: string,
    startValue: real,
    absoluteError: real,
    lowerLimit: Option<real>,
    upperLimit: Option<real>,
    fixed: bool)
  {
    /**
     * The closed interval test; an absent side does not constrain. A value
     * can only be inside limits that are not inverted, and a parameter
     * without limits accepts every value.
     */
    predicate IsInsideLimits(v: real): (r: bool)
      ensures r ==> LimitsOrdered()
      ensures lowerLimit.None? && upperLimit.None? ==> r
    {
      (lowerLimit.None? || v >= lowerLimit.value) && (upperLimit.None? || v <= upperLimit.value)
    }

    predicate LimitsOrdered()
    {
      lowerLimit.Some? && upperLimit.Some? ==> lowerLimit.value <= upperLimit.value
    }

    /** What a successfully constructed parameter satisfies. */
    predicate WellFormed()
    {
      LimitsOrdered() && IsInsideLimits(startValue)
    }

    /** SetRelativeError: the absolute error becomes relError times the start value. */
    function SetRelativeError(relError: real): (r: Parameter)
      ensures r.absoluteError == relError * startValue
      ensures r.(absoluteError := absoluteError) == this
      ensures r.WellFormed() <==> WellFormed()
    {
      this.(absoluteError := relError * startValue)
    }

    /** ConstrainToLimits: moves a value below the lower limit onto it, else one above the upper limit onto that. */
    function ConstrainToLimits(v: real): (r: real)
      ensures IsInsideLimits(v) ==> r == v
      ensures LimitsOrdered() ==> IsInsideLimits(r)
    {
      if lowerLimit.Some? && v < lowerLimit.value then lowerLimit.value
      else if upperLimit.Some? && v > upperLimit.value then upperLimit.value
      else v
    }

    /**
     * ReflectFromLimits: mirrors a value that violates a limit at that limit;
     * `ok` is false when the mirrored value violates the other limit.
     */
    function ReflectFromLimits(v: real): (r: Reflection)
      ensures IsInsideLimits(v) ==> r == Reflection(v, true)
      ensures lowerLimit.Some? && v < lowerLimit.value ==>
        r.value == 2.0 * lowerLimit.value - v && (r.ok <==> (upperLimit.None? || r.value <= upperLimit.value))
      ensures !(lowerLimit.Some? && v < lowerLimit.value) && upperLimit.Some? && v > upperLimit.value ==>
        r.value == 2.0 * upperLimit.value - v && (r.ok <==> (lowerLimit.None? || r.value >= lowerLimit.value))
      ensures r.ok ==> IsInsideLimits(r.value)
    {
      if lowerLimit.Some? && v < lowerLimit.value then
        var w := 2.0 * lowerLimit.value - v;
        Reflection(w, !(upperLimit.Some? && w > upperLimit.value))
      else if upperLimit.Some? && v > upperLimit.value then
        var w := 2.0 * upperLimit.value - v;
        Reflection(w, !(lowerLimit.Some? && w < lowerLimit.value))
      else
        Reflection(v, true)
    }
  }

  /** CheckLimits' first step: a non-finite limit is treated as unset. */
  function NormalizeLimit(l: LimitInput): (r: Option<real>)
    ensures r.Some? <==> l.FiniteLimit?
    ensures r.Some? ==> r.value == l.value
  {
    match l
    case Unset => None
    case FiniteLimit(x) => Some(x)
    case NonFiniteLimit => None
  }

  /** The start value test of the constructor, on the limits as given. */
  predicate InsideInputLimits(v: real, lower: LimitInput, upper: LimitInput)
  {
    (!lower.FiniteLimit? || v >= lower.value) && (!upper.FiniteLimit? || v <= upper.value)
  }

  /**
   * The constructor with CheckLimits: fails when both limits are finite and
   * inverted, or when the start value lies outside the finite limits.
   */
  function NewParameter(name: string, startValue: real, errorHint: real,
                        lowerLimit: LimitInput, upperLimit: LimitInput, fixed: bool)
    : (r: Result<Parameter, ConfigurationError>)
    ensures r == Err(InvertedLimits) <==>
      lowerLimit.FiniteLimit? && upperLimit.FiniteLimit? && lowerLimit.value > upperLimit.value
    ensures r.Ok? <==>
      !(lowerLimit.FiniteLimit? && upperLimit.FiniteLimit? && lowerLimit.value > upperLimit.value)
      && InsideInputLimits(startValue, lowerLimit, upperLimit)
    ensures r.Ok? ==> r.value.WellFormed() && r.value.IsInsideLimits(startValue)
    ensures r.Ok? ==> r.value == Parameter(name, startValue, errorHint,
      NormalizeLimit(lowerLimit), NormalizeLimit(upperLimit), fixed)
  {
    var p := Parameter(name, startValue, errorHint, NormalizeLimit(lowerLimit), NormalizeLimit(upperLimit), fixed);
    if !p.LimitsOrdered() then Err(InvertedLimits)
    else if !p.IsInsideLimits(startValue) then Err(StartOutsideLimits)
    else Ok(p)
  }

  /** FixedParameter: a fixed parameter with zero error and no limits; its construction cannot fail. */
  function FixedParameter(name: string, startValue: real): (r: Parameter)
    ensures NewParameter(name, startValue, 0.0, Unset, Unset, true) == Ok(r)
    ensures r.fixed && r.absoluteError == 0.0 && r.lowerLimit.None? && r.upperLimit.None?
    ensures forall v :: r.IsInsideLimits(v)
  {
    Parameter(name, startValue, 0.0, None, None, true)
  }

  /** Clamping twice is clamping once. */
  lemma ConstrainIdempotent(p: Parameter, v: real)
    requires p.LimitsOrdered()
    ensures p.ConstrainToLimits(p.ConstrainToLimits(v)) == p.ConstrainToLimits(v)
  {
  }

  /** The clamped value is the point inside the limits nearest to v. */
  lemma ConstrainIsNearest(p: Parameter, v: real, w: real)
    requires p.LimitsOrdered() && p.IsInsideLimits(w)
    ensures AbsReal(p.ConstrainToLimits(v) - v) <= AbsReal(w - v)
  {
  }

  /** With ordered limits, reflection succeeds exactly when its result is inside the limits. */
  lemma ReflectOkIffInside(p: Parameter, v: real)
    requires p.LimitsOrdered()
    ensures p.ReflectFromLimits(v).ok <==> p.IsInsideLimits(p.ReflectFromLimits(v).value)
  {
  }

  /** Reflection keeps the distance to the violated limit. */
  lemma ReflectKeepsDistance(p: Parameter, v: real)
    ensures p.lowerLimit.Some? && v < p.lowerLimit.value ==>
      p.ReflectFromLimits(v).value - p.lowerLimit.value == p.lowerLimit.value - v
    ensures !(p.lowerLimit.Some? && v < p.lowerLimit.value) && p.upperLimit.Some? && v > p.upperLimit.value ==>
      p.upperLimit.value - p.ReflectFromLimits(v).value == v - p.upperLimit.value
  {
  }

  /**
   * The value the diagonal of the correlation matrix reads as, since no
   * write ever reaches it. The matrix is declared in parameter.h, which is
   * not part of this model: 0.0 is the value-initialised std::vector cell of
   * a MatrixLower. Were it a MatrixUnitLower, the diagonal would read 1.0;
   * UnitLowerCovariance models that reading.
   */
  const InitialCell: real := 0.0

  /** A lower-triangular store: row i holds the cells (i, 0) .. (i, i). */
  ghost predicate IsTriangular(store: seq<seq<real>>)
  {
    forall i :: 0 <= i < |store| ==> |store[i]| == i + 1
  }

  /**
   * The store after `resize(size, size, true)` and the zero-fill of the new
   * off-diagonal cells: old cells are kept, new diagonal cells hold InitialCell.
   */
  function Grown(store: seq<seq<real>>, size: nat): (r: seq<seq<real>>)
    requires IsTriangular(store)
    ensures IsTriangular(r) && |r| == MaxNat(|store|, size)
    ensures forall i, j :: 0 <= j <= i < |store| ==> r[i][j] == store[i][j]
    ensures forall i, j :: |store| <= i < |r| && 0 <= j < i ==> r[i][j] == 0.0
    ensures forall i :: |store| <= i < |r| ==> r[i][i] == InitialCell
  {
    if size <= |store| then store
    else store + seq(size - |store|, k requires 0 <= k => seq(|store| + k + 1, j => if j == |store| + k then InitialCell else 0.0))
  }

  /** The write SetCorrelation makes after growing: nothing on the diagonal, the clamped value elsewhere. */
  function StoreCorrelation(store: seq<seq<real>>, p1: nat, p2: nat, correlation: real): (r: seq<seq<real>>)
    requires IsTriangular(store) && p1 < |store| && p2 < |store|
    ensures IsTriangular(r) && |r| == |store|
    ensures p1 == p2 ==> r == store
    ensures forall i, j :: 0 <= j <= i < |store| && !(i == MaxNat(p1, p2) && j == MinNat(p1, p2) && p1 != p2) ==>
      r[i][j] == store[i][j]
    ensures p1 != p2 ==> r[MaxNat(p1, p2)][MinNat(p1, p2)] == Constrain(correlation, -1.0, 1.0)
  {
    if p1 == p2 then store
    else
      var hi := MaxNat(p1, p2);
      var lo := MinNat(p1, p2);
      store[hi := store[hi][lo := Constrain(correlation, -1.0, 1.0)]]
  }

  /**
   * The correlation of two parameters read from a store as GetCorrelation
   * reads it: 1.0 for a parameter with itself, the cell (max, min) otherwise.
   * A parameter with itself needs no cell, so any index is accepted then.
   * A definition; CorrelationSymmetric and SetThenGetCorrelation are about it.
   */
  function CorrelationOf(store: seq<seq<real>>, p1: nat, p2: nat): (r: real)
    requires IsTriangular(store) && (p1 == p2 || (p1 < |store| && p2 < |store|))
  {
    if p1 == p2 then 1.0 else store[MaxNat(p1, p2)][MinNat(p1, p2)]
  }

  /** GetCorrelation(i, j) == GetCorrelation(j, i). */
  lemma CorrelationSymmetric(store: seq<seq<real>>, p1: nat, p2: nat)
    requires IsTriangular(store) && (p1 == p2 || (p1 < |store| && p2 < |store|))
    ensures CorrelationOf(store, p1, p2) == CorrelationOf(store, p2, p1)
  {
  }

  /**
   * SetCorrelation followed by GetCorrelation: the pair written reads back
   * the clamped value in either order; every other pair reads what it read
   * before, and a pair involving a row the write added reads 0 (1.0 for a
   * parameter with itself).
   */
  lemma SetThenGetCorrelation(store: seq<seq<real>>, p1: nat, p2: nat, correlation: real, q1: nat, q2: nat)
    requires IsTriangular(store)
    requires q1 <= MaxNat(p1, p2) && q2 <= MaxNat(p1, p2)
    ensures var s := StoreCorrelation(Grown(store, MaxNat(p1, p2) + 1), p1, p2, correlation);
      CorrelationOf(s, q1, q2) ==
        if q1 != q2 && MaxNat(q1, q2) == MaxNat(p1, p2) && MinNat(q1, q2) == MinNat(p1, p2) then Constrain(correlation, -1.0, 1.0)
        else if q1 == q2 then 1.0
        else if MaxNat(q1, q2) < |store| then CorrelationOf(store, q1, q2)
        else 0.0
  {
  }

  /** The scaled errors: fErrorScaling times each absolute error. */
  function ScaledErrors(params: seq<Parameter>, scaling: real): (r: seq<real>)
    ensures |r| == |params|
  {
    seq(|params|, i requires 0 <= i < |params| => scaling * params[i].absoluteError)
  }

  /**
   * The covariance matrix as GetCovarianceMatrix fills it: cell (i, j),
   * j <= i, is the STORED correlation (i, j) times the squared scaling and
   * both absolute errors; the cells above the diagonal of a lower-triangular
   * matrix are zero.
   */
  ghost function Covariance(params: seq<Parameter>, store: seq<seq<real>>, scaling: real): (m: Matrix)
    requires IsTriangular(store) && |store| >= |params|
    ensures IsSquare(m, |params|)
  {
    var n := |params|;
    seq(n, i requires 0 <= i < n => seq(n, j requires 0 <= j < n =>
      if j <= i then store[i][j] * (scaling * scaling) * params[i].absoluteError * params[j].absoluteError
      else 0.0))
  }

  /** The n x n zero matrix, as a freshly constructed uBLAS matrix holds. */
  ghost function Zero(n: nat): (m: Matrix)
    ensures IsSquare(m, n)
  {
    seq(n, i => seq(n, j => 0.0))
  }

  /** The diagonal matrix with the given diagonal. */
  ghost function Diagonal(d: seq<real>): (m: Matrix)
    ensures IsSquare(m, |d|)
  {
    seq(|d|, i requires 0 <= i < |d| => seq(|d|, j requires 0 <= j < |d| => if i == j then d[i] else 0.0))
  }

  /**
   * What GetCholeskyDecomp returns for a covariance matrix: its Cholesky
   * factor when the decomposition succeeds, and otherwise the diagonal
   * matrix of the scaled errors.
   */
  ghost function CholeskyFactor(cov: Matrix, errors: seq<real>, sqrt: real -> real): (m: Matrix)
    requires IsSquare(cov, |errors|) && IsSqrt(sqrt)
    ensures IsSquare(m, |errors|)
  {
    var n := |errors|;
    var run := CholeskyRun(cov, Zero(n), n, 0, sqrt);
    if run.0 == 0 then run.1 else Diagonal(errors)
  }

  /** A new row i of the store: InitialCell on the diagonal, the cells before it zero-filled. */
  method NewRow(i: nat) returns (row: seq<real>)
    ensures |row| == i + 1 && row[i] == InitialCell
    ensures forall j :: 0 <= j < i ==> row[j] == 0.0
  {
    row := seq(i + 1, j => InitialCell);
    for j := 0 to i
      invariant |row| == i + 1 && row[i] == InitialCell
      invariant forall c :: 0 <= c < j ==> row[c] == 0.0
    {
      row := row[j := 0.0];
    }
  }

  /** The resize of SetCorrelation: grows the store to minSize rows, zero-filling the new off-diagonal cells. */
  method ResizeStore(store: seq<seq<real>>, minSize: nat) returns (r: seq<seq<real>>)
    requires IsTriangular(store)
    ensures r == Grown(store, minSize)
  {
    r := store;
    if |store| < minSize {
      for i := |store| to minSize
        invariant |r| == i
        invariant r == Grown(store, minSize)[..i]
      {
        var row := NewRow(i);
        assert row == Grown(store, minSize)[i];
        r := r + [row];
      }
    }
  }

  /**
   * The fallback of GetCholeskyDecomp: zeroes the lower triangle of a matrix
   * whose upper triangle is already zero and writes the errors on its diagonal.
   */
  method FillDiagonal(m: array2<real>, d: seq<real>)
    requires m.Length0 == m.Length1 == |d|
    requires forall r, c :: 0 <= r < c < |d| ==> m[r, c] == 0.0
    modifies m
    ensures Cells(m) == Diagonal(d)
  {
    var n := |d|;
    for i := 0 to n
      invariant forall r, c :: 0 <= r < i && 0 <= c < n ==> m[r, c] == if r == c then d[r] else 0.0
      invariant forall r, c :: i <= r < c < n ==> m[r, c] == 0.0
    {
      for j := 0 to i
        invariant forall r, c :: 0 <= r < i && 0 <= c < n ==> m[r, c] == if r == c then d[r] else 0.0
        invariant forall r, c :: i <= r < c < n ==> m[r, c] == 0.0
        invariant forall c :: 0 <= c < j ==> m[i, c] == 0.0
      {
        m[i, j] := 0.0;
      }
      m[i, i] := d[i];
    }
    MatrixExt(Cells(m), Diagonal(d), n);
  }

  class ParameterList {
    var parameters: seq<Parameter>
    /** The lower triangle of fCorrelations, row by row. */
    var correlations: seq<seq<real>>
    var errorScaling: real

    /** The correlation store on its own: triangular, off-diagonal cells in [-1, 1], diagonal never written. */
    ghost predicate StoreValid()
      reads this
    {
      && IsTriangular(correlations)
      && (forall i, j :: 0 <= j < i < |correlations| ==> -1.0 <= correlations[i][j] <= 1.0)
      && (forall i :: 0 <= i < |correlations| ==> correlations[i][i] == InitialCell)
    }

    ghost predicate Valid()
      reads this
    {
      && StoreValid()
      && |correlations| >= |parameters|
      && (forall i :: 0 <= i < |parameters| ==> parameters[i].WellFormed())
    }

    constructor ()
      ensures Valid()
      ensures parameters == [] && correlations == [] && errorScaling == 1.0
    {
      parameters := [];
      correlations := [];
      errorScaling := 1.0;
    }

    /** The implicit copy constructor: a new list with the same contents. */
    constructor Copy(other: ParameterList)
      requires other.Valid()
      ensures Valid()
      ensures parameters == other.parameters && correlations == other.correlations
      ensures errorScaling == other.errorScaling
    {
      parameters := other.parameters;
      correlations := other.correlations;
      errorScaling := other.errorScaling;
    }

    /**
     * SetCorrelation(p1, p2, c): grows the store to cover both indices, then
     * writes c, clamped to [-1, 1], at (max, min) unless p1 == p2.
     */
    method SetCorrelation(p1: nat, p2: nat, correlation: real)
      requires StoreValid()
      modifies this
      ensures StoreValid()
      ensures parameters == old(parameters) && errorScaling == old(errorScaling)
      ensures correlations == StoreCorrelation(Grown(old(correlations), MaxNat(p1, p2) + 1), p1, p2, correlation)
      ensures |correlations| >= |old(correlations)|
    {
      var hi, lo := p1, p2;
      if hi < lo {
        hi, lo := lo, hi;
      }
      correlations := ResizeStore(correlations, MaxNat(hi, lo) + 1);
      if hi == lo {
        return;
      }
      var c := Constrain(correlation, -1.0, 1.0);
      correlations := correlations[hi := correlations[hi][lo := c]];
    }

    /**
     * GetCorrelation: 1.0 for a parameter with itself, whatever its index,
     * otherwise the stored cell (max, min); always within [-1, 1].
     */
    function GetCorrelation(p1: nat, p2: nat): (r: real)
      reads this
      requires StoreValid() && (p1 == p2 || (p1 < |correlations| && p2 < |correlations|))
      ensures -1.0 <= r <= 1.0
      ensures p1 == p2 ==> r == 1.0
      ensures r == CorrelationOf(correlations, p1, p2)
    {
      if p1 < p2 then correlations[p2][p1]
      else if p1 == p2 then 1.0
      else correlations[p1][p2]
    }

    /**
     * SetParameter(i, p): stores p at index i; an index past the end first
     * appends fixed filler parameters and grows the correlation store.
     */
    method SetParameter(pIndex: nat, param: Parameter)
      requires Valid() && param.WellFormed()
      modifies this
      ensures Valid()
      ensures |parameters| == MaxNat(|old(parameters)|, pIndex + 1)
      ensures parameters[pIndex] == param
      ensures forall i :: 0 <= i < |old(parameters)| && i != pIndex ==> parameters[i] == old(parameters)[i]
      ensures forall i :: |old(parameters)| <= i < pIndex ==> parameters[i] == FixedParameter("", 0.0)
      ensures correlations == if |old(parameters)| <= pIndex then Grown(old(correlations), pIndex + 1) else old(correlations)
      ensures |correlations| >= pIndex + 1
      ensures errorScaling == old(errorScaling)
    {
      if |parameters| <= pIndex {
        parameters := parameters + seq(pIndex + 1 - |parameters|, k => FixedParameter("", 0.0));
        SetCorrelation(pIndex, pIndex, 1.0);
      }
      parameters := parameters[pIndex := param];
    }

    /** The start values of the parameters. */
    ghost function StartValues(): (r: seq<real>)
      reads this
      ensures |r| == |parameters|
    {
      seq(|parameters|, i requires 0 <= i < |parameters| reads this => parameters[i].startValue)
    }

    /**
     * GetStartValues(false): the start values, clamped into the limits; as
     * every start value is inside its limits the clamp changes nothing.
     */
    method GetStartValues() returns (startPoint: seq<real>)
      requires Valid()
      ensures startPoint == StartValues()
      ensures forall i :: 0 <= i < |startPoint| ==> parameters[i].IsInsideLimits(startPoint[i])
    {
      var a := new real[|parameters|];
      for pIndex := 0 to |parameters|
        invariant forall k :: 0 <= k < pIndex ==> a[k] == parameters[k].startValue
      {
        a[pIndex] := parameters[pIndex].startValue;
      }
      ConstrainToLimits(a);
      startPoint := a[..];
    }

    /** GetErrors: each absolute error times fErrorScaling. */
    method GetErrors() returns (result: seq<real>)
      ensures |result| == |parameters|
      ensures forall i :: 0 <= i < |parameters| ==> result[i] == errorScaling * parameters[i].absoluteError
    {
      result := seq(|parameters|, k => 0.0);
      for pIndex := 0 to |parameters|
        invariant |result| == |parameters|
        invariant forall k :: 0 <= k < pIndex ==> result[k] == errorScaling * parameters[k].absoluteError
      {
        result := result[pIndex := errorScaling * parameters[pIndex].absoluteError];
      }
    }

    /** GetCovarianceMatrix: a new lower-triangular matrix holding the covariance. */
    method GetCovarianceMatrix() returns (result: array2<real>)
      requires Valid()
      ensures fresh(result)
      ensures result.Length0 == result.Length1 == |parameters|
      ensures Cells(result) == Covariance(parameters, correlations, errorScaling)
    {
      var n := |parameters|;
      ghost var cov := Covariance(parameters, correlations, errorScaling);
      result := new real[n, n]((i, j) => 0.0);
      for i := 0 to n
        invariant forall r, c :: 0 <= r < n && 0 <= c < n ==>
          result[r, c] == if r < i && c <= r then cov[r][c] else 0.0
      {
        for j := 0 to i + 1
          invariant forall r, c :: 0 <= r < n && 0 <= c < n ==>
            result[r, c] == if (r < i && c <= r) || (r == i && c < j) then cov[r][c] else 0.0
        {
          var cell := correlations[i][j] * (errorScaling * errorScaling)
            * parameters[i].absoluteError * parameters[j].absoluteError;
          assert cell == cov[i][j];
          result[i, j] := cell;
        }
      }
      MatrixExt(Cells(result), cov, n);
    }

    /**
     * GetCholeskyDecomp: the Cholesky factor of the covariance matrix, or,
     * when the decomposition fails, the diagonal matrix of scaled errors.
     */
    method GetCholeskyDecomp(sqrt: real -> real) returns (result: array2<real>)
      requires Valid() && IsSqrt(sqrt)
      ensures fresh(result)
      ensures result.Length0 == result.Length1 == |parameters|
      ensures Cells(result) == CholeskyFactor(Covariance(parameters, correlations, errorScaling), ScaledErrors(parameters, errorScaling), sqrt)
    {
      var cov := GetCovarianceMatrix();
      var n := |parameters|;
      result := new real[n, n]((i, j) => 0.0);
      assert Cells(result) == Zero(n) by {
        MatrixExt(Cells(result), Zero(n), n);
      }
      var statusDecomp := CholeskyDecompose(cov, result, sqrt);
      ghost var run := CholeskyRun(Cells(cov), Zero(n), n, 0, sqrt);
      if statusDecomp != 0 {
        CholeskyFailureLeavesColumns(Cells(cov), Zero(n), n, sqrt, run.0, run.1);
        var errors := GetErrors();
        assert errors == ScaledErrors(parameters, errorScaling) by {
          assert forall i :: 0 <= i < n ==> errors[i] == ScaledErrors(parameters, errorScaling)[i];
        }
        FillDiagonal(result, errors);
      }
    }

    /** IsInsideLimits(point): every element is inside its parameter's limits. */
    method IsInsideLimits(somePoint: seq<real>) returns (inside: bool)
      requires |somePoint| == |parameters|
      ensures inside <==> forall i :: 0 <= i < |parameters| ==> parameters[i].IsInsideLimits(somePoint[i])
    {
      for i := 0 to |parameters|
        invariant forall k :: 0 <= k < i ==> parameters[k].IsInsideLimits(somePoint[k])
      {
        if !parameters[i].IsInsideLimits(somePoint[i]) {
          return false;
        }
      }
      return true;
    }

    /** ConstrainToLimits(point): clamps every element, in place. */
    method ConstrainToLimits(somePoint: array<real>)
      requires somePoint.Length == |parameters|
      modifies somePoint
      ensures forall i :: 0 <= i < somePoint.Length ==>
        somePoint[i] == parameters[i].ConstrainToLimits(old(somePoint[i]))
    {
      for i := 0 to |parameters|
        invariant forall k :: 0 <= k < i ==> somePoint[k] == parameters[k].ConstrainToLimits(old(somePoint[k]))
        invariant forall k :: i <= k < somePoint.Length ==> somePoint[k] == old(somePoint[k])
      {
        somePoint[i] := parameters[i].ConstrainToLimits(somePoint[i]);
      }
    }

    /**
     * ReflectFromLimits(point): reflects every element, in place; true iff
     * at least one element's reflection returned true (an element already
     * inside its limits counts), so false for an empty list.
     */
    method ReflectFromLimits(somePoint: array<real>) returns (reflectionSuccessful: bool)
      requires somePoint.Length == |parameters|
      modifies somePoint
      ensures forall i :: 0 <= i < somePoint.Length ==>
        somePoint[i] == parameters[i].ReflectFromLimits(old(somePoint[i])).value
      ensures reflectionSuccessful <==>
        exists i :: 0 <= i < somePoint.Length && parameters[i].ReflectFromLimits(old(somePoint[i])).ok
    {
      reflectionSuccessful := false;
      for i := 0 to |parameters|
        invariant forall k :: 0 <= k < i ==> somePoint[k] == parameters[k].ReflectFromLimits(old(somePoint[k])).value
        invariant forall k :: i <= k < somePoint.Length ==> somePoint[k] == old(somePoint[k])
        invariant reflectionSuccessful <==> exists k :: 0 <= k < i && parameters[k].ReflectFromLimits(old(somePoint[k])).ok
      {
        var reflection := parameters[i].ReflectFromLimits(somePoint[i]);
        somePoint[i] := reflection.value;
        if reflection.ok {
          reflectionSuccessful := true;
        }
      }
    }
  }

  /**
   * As written, the diagonal of every covariance matrix is zero: SetParameter
   * asks for SetCorrelation(i, i, 1.0), which returns before writing when
   * p1 == p2, so the stored diagonal keeps InitialCell. The first pivot is
   * then 0, the decomposition fails at row 0 (status 1), and GetCholeskyDecomp
   * returns the diagonal of scaled errors whatever the correlations are.
   */
  lemma CholeskyAlwaysFallsBack(params: seq<Parameter>, store: seq<seq<real>>, scaling: real, sqrt: real -> real)
    requires IsTriangular(store) && |store| >= |params| && |params| > 0 && IsSqrt(sqrt)
    requires store[0][0] == InitialCell
    ensures CholeskyRun(Covariance(params, store, scaling), Zero(|params|), |params|, 0, sqrt).0 == 1
    ensures CholeskyFactor(Covariance(params, store, scaling), ScaledErrors(params, scaling), sqrt)
      == Diagonal(ScaledErrors(params, scaling))
  {
    var n := |params|;
    var cov := Covariance(params, store, scaling);
    var run := CholeskyRun(cov, Zero(n), n, 0, sqrt);
    CholeskyPassesFirstRow(cov, Zero(n), n, sqrt, run.0, run.1);
  }

  /** For any valid list with a parameter, GetCholeskyDecomp's result is the diagonal of scaled errors. */
  lemma ListCholeskyAlwaysFallsBack(list: ParameterList, sqrt: real -> real)
    requires list.Valid() && |list.parameters| > 0 && IsSqrt(sqrt)
    ensures CholeskyFactor(Covariance(list.parameters, list.correlations, list.errorScaling),
      ScaledErrors(list.parameters, list.errorScaling), sqrt) == Diagonal(ScaledErrors(list.parameters, list.errorScaling))
  {
    CholeskyAlwaysFallsBack(list.parameters, list.correlations, list.errorScaling, sqrt);
  }

  /**
   * The covariance matrix the code evidently intends: cell (i, j), j <= i,
   * is GetCorrelation(i, j) times the scaled errors of i and j, so the
   * diagonal holds the squared scaled errors.
   */
  ghost function IntendedCovariance(params: seq<Parameter>, store: seq<seq<real>>, scaling: real): (m: Matrix)
    requires IsTriangular(store) && |store| >= |params|
    ensures IsSquare(m, |params|)
    ensures forall i :: 0 <= i < |params| ==>
      m[i][i] == ScaledErrors(params, scaling)[i] * ScaledErrors(params, scaling)[i]
  {
    var n := |params|;
    var errors := ScaledErrors(params, scaling);
    seq(n, i requires 0 <= i < n => seq(n, j requires 0 <= j < n =>
      if j <= i then CorrelationOf(store, i, j) * errors[i] * errors[j] else 0.0))
  }

  /**
   * The two matrices differ only on the diagonal: below it they agree, and
   * on it the matrix as written holds 0 where the intended one holds the
   * squared scaled error.
   */
  lemma CovarianceDiffersOnDiagonal(params: seq<Parameter>, store: seq<seq<real>>, scaling: real, i: nat, j: nat)
    requires IsTriangular(store) && |store| >= |params| && j <= i < |params|
    requires store[i][i] == InitialCell
    ensures j < i ==> Covariance(params, store, scaling)[i][j] == IntendedCovariance(params, store, scaling)[i][j]
    ensures j == i ==> Covariance(params, store, scaling)[i][j] == 0.0
  {
    var c, s, a, b := store[i][j], scaling, params[i].absoluteError, params[j].absoluteError;
    assert c * (s * s) * a * b == c * (s * a) * (s * b);
  }

  /**
   * The matrix parameter.cpp:185 builds if the correlation matrix is declared
   * unit-lower triangular: its read of a diagonal cell then yields 1.0 instead
   * of the stored cell.
   */
  ghost function UnitLowerCovariance(params: seq<Parameter>, store: seq<seq<real>>, scaling: real): (m: Matrix)
    requires IsTriangular(store) && |store| >= |params|
    ensures IsSquare(m, |params|)
  {
    var n := |params|;
    seq(n, i requires 0 <= i < n => seq(n, j requires 0 <= j < n =>
      if j <= i then (if i == j then 1.0 else store[i][j]) * (scaling * scaling) * params[i].absoluteError * params[j].absoluteError
      else 0.0))
  }

  /** Under the unit-lower reading the covariance is exactly the intended one, so the defect does not arise. */
  lemma UnitLowerCovarianceIsIntended(params: seq<Parameter>, store: seq<seq<real>>, scaling: real)
    requires IsTriangular(store) && |store| >= |params|
    ensures UnitLowerCovariance(params, store, scaling) == IntendedCovariance(params, store, scaling)
  {
    var n := |params|;
    var u := UnitLowerCovariance(params, store, scaling);
    var m := IntendedCovariance(params, store, scaling);
    forall i | 0 <= i < n
      ensures u[i] == m[i]
    {
      forall j | 0 <= j < n
        ensures u[i][j] == m[i][j]
      {
        if j <= i {
          var c := if i == j then 1.0 else store[i][j];
          var s, a, b := scaling, params[i].absoluteError, params[j].absoluteError;
          assert c * (s * s) * a * b == c * (s * a) * (s * b);
        }
      }
    }
  }

  /** With the intended covariance, a nonzero scaled first error gets the decomposition past row 0. */
  lemma IntendedPassesFirstRow(params: seq<Parameter>, store: seq<seq<real>>, scaling: real, sqrt: real -> real)
    requires IsTriangular(store) && |store| >= |params| && |params| > 0 && IsSqrt(sqrt)
    requires scaling != 0.0 && params[0].absoluteError != 0.0
    ensures CholeskyRun(IntendedCovariance(params, store, scaling), Zero(|params|), |params|, 0, sqrt).0 != 1
  {
    var n := |params|;
    var cov := IntendedCovariance(params, store, scaling);
    var run := CholeskyRun(cov, Zero(n), n, 0, sqrt);
    SquareIsPositive(ScaledErrors(params, scaling)[0], cov[0][0]);
    CholeskyPassesFirstRow(cov, Zero(n), n, sqrt, run.0, run.1);
  }

  /**
   * With the intended covariance, two parameters with positive errors, a
   * positive scaling and a correlation strictly inside (-1, 1) decompose:
   * L(0,0) = s e0, L(1,0) = rho s e1 and L(1,1)^2 = (s e1)^2 (1 - rho^2).
   */
  lemma IntendedTwoParameters(params: seq<Parameter>, store: seq<seq<real>>, scaling: real, sqrt: real -> real, s: nat, R: Matrix)
    requires IsTriangular(store) && |store| >= |params| == 2 && IsSqrt(sqrt)
    requires scaling > 0.0 && params[0].absoluteError > 0.0 && params[1].absoluteError > 0.0
    requires -1.0 < store[1][0] < 1.0
    requires CholeskyRun(IntendedCovariance(params, store, scaling), Zero(|params|), |params|, 0, sqrt) == (s, R)
    ensures s == 0 && IsSquare(R, 2)
    ensures R[0][0] == scaling * params[0].absoluteError
    ensures R[1][0] == store[1][0] * (scaling * params[1].absoluteError)
    ensures R[1][1] * R[1][1] == (scaling * params[1].absoluteError) * (scaling * params[1].absoluteError) * (1.0 - store[1][0] * store[1][0])
  {
    IntendedTwoDefinite(params, store, scaling);
    var cov := IntendedCovariance(params, store, scaling);
    CholeskyTwoByTwoCells(cov, Zero(|params|), sqrt, s, R);
    IntendedTwoFactorCells(params, store, scaling, R);
  }

  /** The cells of the intended covariance of two parameters, in terms of the scaled errors. */
  lemma IntendedTwoCells(params: seq<Parameter>, store: seq<seq<real>>, scaling: real)
    requires IsTriangular(store) && |store| >= |params| == 2
    requires scaling > 0.0 && params[0].absoluteError > 0.0 && params[1].absoluteError > 0.0
    ensures var e := ScaledErrors(params, scaling); var cov := IntendedCovariance(params, store, scaling);
      && e[0] > 0.0 && e[1] > 0.0
      && cov[0][0] == e[0] * e[0] && cov[1][1] == e[1] * e[1] && cov[1][0] == store[1][0] * e[1] * e[0]
  {
    var e := ScaledErrors(params, scaling);
    MulPositive(scaling, params[0].absoluteError, e[0]);
    MulPositive(scaling, params[1].absoluteError, e[1]);
  }

  /** The intended covariance of two parameters with positive errors and |rho| < 1 is positive definite. */
  lemma IntendedTwoDefinite(params: seq<Parameter>, store: seq<seq<real>>, scaling: real)
    requires IsTriangular(store) && |store| >= |params| == 2
    requires scaling > 0.0 && params[0].absoluteError > 0.0 && params[1].absoluteError > 0.0
    requires -1.0 < store[1][0] < 1.0
    ensures var cov := IntendedCovariance(params, store, scaling);
      cov[0][0] > 0.0 && cov[0][0] * cov[1][1] - cov[1][0] * cov[1][0] > 0.0
  {
    var e := ScaledErrors(params, scaling);
    var cov := IntendedCovariance(params, store, scaling);
    IntendedTwoCells(params, store, scaling);
    PositiveDeterminant(e[0], e[1], store[1][0], cov[0][0], cov[1][1], cov[1][0]);
    SquareIsPositive(e[0], cov[0][0]);
  }

  /** IntendedTwoFactor stated on the cells of a 2 x 2 matrix. */
  lemma IntendedTwoFactorCells(params: seq<Parameter>, store: seq<seq<real>>, scaling: real, R: Matrix)
    requires IsTriangular(store) && |store| >= |params| == 2 && IsSquare(R, 2)
    requires scaling > 0.0 && params[0].absoluteError > 0.0 && params[1].absoluteError > 0.0
    requires R[0][0] > 0.0 && R[0][0] * R[0][0] == IntendedCovariance(params, store, scaling)[0][0]
    requires R[1][0] * R[0][0] == IntendedCovariance(params, store, scaling)[1][0]
    requires R[1][1] * R[1][1] == IntendedCovariance(params, store, scaling)[1][1] - R[1][0] * R[1][0]
    ensures R[0][0] == scaling * params[0].absoluteError
    ensures R[1][0] == store[1][0] * (scaling * params[1].absoluteError)
    ensures R[1][1] * R[1][1] == (scaling * params[1].absoluteError) * (scaling * params[1].absoluteError) * (1.0 - store[1][0] * store[1][0])
  {
    IntendedTwoFactor(params, store, scaling, R[0][0], R[1][0], R[1][1]);
  }

  /** Any factor of the intended two-parameter covariance has the closed-form cells. */
  lemma IntendedTwoFactor(params: seq<Parameter>, store: seq<seq<real>>, scaling: real, r00: real, r10: real, r11: real)
    requires IsTriangular(store) && |store| >= |params| == 2
    requires scaling > 0.0 && params[0].absoluteError > 0.0 && params[1].absoluteError > 0.0
    requires r00 > 0.0 && r00 * r00 == IntendedCovariance(params, store, scaling)[0][0]
    requires r10 * r00 == IntendedCovariance(params, store, scaling)[1][0]
    requires r11 * r11 == IntendedCovariance(params, store, scaling)[1][1] - r10 * r10
    ensures r00 == scaling * params[0].absoluteError
    ensures r10 == store[1][0] * (scaling * params[1].absoluteError)
    ensures r11 * r11 == (scaling * params[1].absoluteError) * (scaling * params[1].absoluteError) * (1.0 - store[1][0] * store[1][0])
  {
    var e := ScaledErrors(params, scaling);
    var cov := IntendedCovariance(params, store, scaling);
    IntendedTwoCells(params, store, scaling);
    TwoByTwoFactorCells(e[0], e[1], store[1][0], cov[0][0], cov[1][0], cov[1][1], r00, r10, r11);
  }

  /** The factor cells of [[t0^2, .], [rho t1 t0, t1^2]] in closed form. */
  lemma TwoByTwoFactorCells(t0: real, t1: real, rho: real, a00: real, a10: real, a11: real, r00: real, r10: real, r11: real)
    requires a00 == t0 * t0 && a10 == rho * t1 * t0 && a11 == t1 * t1
    requires t0 > 0.0 && r00 > 0.0 && r00 * r00 == a00
    requires r10 * r00 == a10
    requires r11 * r11 == a11 - r10 * r10
    ensures r00 == t0 && r10 == rho * t1
    ensures r11 * r11 == t1 * t1 * (1.0 - rho * rho)
  {
    PositiveRootUnique(r00, t0);
    MulCancel(r10, rho * t1, t0);
  }

  /** a d - b^2 > 0 for a = t0^2, d = t1^2, b = rho t1 t0 with positive t0, t1 and |rho| < 1. */
  lemma PositiveDeterminant(t0: real, t1: real, rho: real, a: real, d: real, b: real)
    requires t0 > 0.0 && t1 > 0.0 && -1.0 < rho < 1.0
    requires a == t0 * t0 && d == t1 * t1 && b == rho * t1 * t0
    ensures a * d - b * b > 0.0
  {
    var p := t0 * t1;
    var q := p * p;
    MulPositive(t0, t1, p);
    MulPositive(p, p, q);
    MulPositive(1.0 - rho, 1.0 + rho, 1.0 - rho * rho);
    assert a * d - b * b == (1.0 - rho * rho) * q;
    MulPositive(1.0 - rho * rho, q, a * d - b * b);
  }
}
