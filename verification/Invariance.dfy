/** The robust-invariant certificate checker, and what a certified report promises about every run. */
module Invariance {
  import opened LinearAlgebra
  import opened Bareiss
  import opened GaussJordan
  import opened EllipsoidGeometry
  import NumberTheory

  const MAX_DIMENSION := 12
  const MAX_DISTURBANCES := 16
  const MAX_CONSTRAINTS := 128
  const MAX_INITIAL_VERTICES := 4096
  const MAX_INTEGER_BITS := 8192

  datatype Constraint = Constraint(name: string, stateRow: Vector, offset: real, disturbanceRow: Vector,
                                   lower: real, upper: real, strict: bool)

  datatype Problem = Problem(transition: Matrix, affine: Vector, disturbance: Matrix, bounds: Vector,
                             initialLower: Vector, initialUpper: Vector, constraints: seq<Constraint>)

  datatype Witness = Witness(equilibrium: Vector, shape: Matrix, gamma: real, eta: Vector,
                             radius: real, xi: Vector)

  datatype Status = Certified | Rejected | Indeterminate
  datatype Check = Check(name: string, passed: bool)
  datatype Interval = Interval(lower: real, upper: real)
  datatype Report = Report(status: Status, reasons: seq<string>, coordinates: seq<Interval>,
                           ranges: seq<Interval>, checks: seq<Check>)

  /** The shapes the source insists on before it computes. */
  ghost predicate ProblemShape(p: Problem) {
    var n, m := |p.transition|, |p.bounds|;
    && IsMatrix(p.transition, n, n) && |p.affine| == n && IsMatrix(p.disturbance, n, m)
    && |p.initialLower| == |p.initialUpper| == n
    && (forall i :: 0 <= i < n ==> p.initialLower[i] <= p.initialUpper[i])
    && (forall c :: c in p.constraints ==> |c.stateRow| == n && |c.disturbanceRow| == m)
  }

  ghost predicate WellFormed(p: Problem, w: Witness) {
    var n := |p.transition|;
    && ProblemShape(p)
    && |w.equilibrium| == n && IsMatrix(w.shape, n, n) && |w.eta| == |p.bounds| && |w.xi| == |p.constraints|
  }

  /** The limits on sizes, corners and integer bits; the bit count is an input, since a real number has none. */
  predicate OverLimit(p: Problem, integerBits: nat) {
    || |p.transition| == 0 || |p.transition| > MAX_DIMENSION || |p.bounds| > MAX_DISTURBANCES
    || |p.constraints| > MAX_CONSTRAINTS || NumberTheory.Power2(|p.transition|) > MAX_INITIAL_VERTICES
    || integerBits > MAX_INTEGER_BITS
  }

  function Absolute(v: Vector): (r: Vector)
    ensures |r| == |v|
    ensures forall i :: 0 <= i < |v| ==> r[i] >= 0.0 && r[i] in {v[i], -v[i]}
  {
    seq(|v|, i requires 0 <= i < |v| => if v[i] >= 0.0 then v[i] else -v[i])
  }

  function FailedNames(checks: seq<Check>): (r: seq<string>)
    ensures r == [] <==> forall k :: 0 <= k < |checks| ==> checks[k].passed
  {
    if checks == [] then []
    else if checks[0].passed then FailedNames(checks[1..])
    else [checks[0].name] + FailedNames(checks[1..])
  }

  function ProjectionInterval(center: real, radius: real, dual: real, direct: real): Interval {
    Interval(center - (radius * dual + direct), center + (radius * dual + direct))
  }

  function ConstraintInterval(p: Problem, w: Witness, i: nat): Interval
    requires i < |p.constraints| && i < |w.xi|
    requires |p.constraints[i].stateRow| == |w.equilibrium| && |p.constraints[i].disturbanceRow| == |p.bounds|
  {
    var c := p.constraints[i];
    ProjectionInterval(Dot(c.stateRow, w.equilibrium) + c.offset, w.radius, w.xi[i],
                       Dot(Absolute(c.disturbanceRow), p.bounds))
  }

  predicate Inside(r: Interval, c: Constraint) {
    if c.strict then r.lower > c.lower && r.upper < c.upper
    else r.lower >= c.lower && r.upper <= c.upper
  }

  // ----- what the checker tests -----

  predicate FixedPoint(p: Problem, w: Witness)
    requires WellFormed(p, w)
  {
    w.equilibrium == VectorAdd(MatrixVector(p.transition, w.equilibrium), p.affine)
  }

  predicate RadiusCloses(p: Problem, w: Witness)
    requires WellFormed(p, w)
  {
    w.radius > 0.0 && w.radius * (1.0 - w.gamma) >= Dot(w.eta, p.bounds)
  }

  predicate DisturbanceBounded(p: Problem, w: Witness)
    requires WellFormed(p, w)
  {
    NormBounds(w.shape, Transpose(p.disturbance, |p.bounds|), p.bounds, w.eta)
  }

  predicate CornersInside(p: Problem, w: Witness)
    requires WellFormed(p, w)
  {
    forall v :: v in Vertices(p.initialLower, p.initialUpper) ==>
      Quadratic(w.shape, VectorSubtract(v, w.equilibrium)) <= w.radius * w.radius
  }

  // ----- the meaning of a certificate, in terms of points rather than matrices -----

  /** Undisturbed, the equilibrium stays where it is. */
  ghost predicate StillPoint(p: Problem, w: Witness)
    requires WellFormed(p, w)
  {
    NextState(p, w.equilibrium, Zeros(|p.bounds|)) == w.equilibrium
  }

  ghost predicate ShapeHolds(w: Witness)
    requires IsMatrix(w.shape, |w.shape|, |w.shape|)
  {
    IsSymmetric(w.shape) && PositiveDefinite(w.shape)
  }

  /** A unit of each disturbance alone moves the state by at most eta. */
  ghost predicate DisturbanceMet(p: Problem, w: Witness)
    requires WellFormed(p, w)
  {
    forall j :: 0 <= j < |p.bounds| ==>
      && p.bounds[j] >= 0.0 && w.eta[j] >= 0.0
      && Quadratic(w.shape, MatrixVector(p.disturbance, Unit(|p.bounds|, j))) <= w.eta[j] * w.eta[j]
  }

  /** What is left of the radius after one step, and all disturbances on top, fit in the radius again. */
  ghost predicate RadiusMet(p: Problem, w: Witness)
    requires WellFormed(p, w)
  {
    w.radius > 0.0 && w.gamma * w.radius + Dot(w.eta, p.bounds) <= w.radius
  }

  ghost predicate BoxInside(p: Problem, w: Witness)
    requires WellFormed(p, w)
  {
    forall z :: InBox(z, p.initialLower, p.initialUpper) ==>
      WithinLevel(w.shape, w.equilibrium, w.radius * w.radius, z)
  }

  /** The witness bounds what the constraint's state row can do on the unit ellipsoid. */
  ghost predicate DualHolds(p: Problem, w: Witness, i: nat)
    requires WellFormed(p, w) && i < |p.constraints|
  {
    w.xi[i] >= 0.0 && DualBound(w.shape, p.constraints[i].stateRow, w.xi[i])
  }

  /** The value a constraint bounds, at a state and a disturbance. */
  function Value(c: Constraint, z: Vector, d: Vector): real
    requires |c.stateRow| == |z| && |c.disturbanceRow| == |d|
  {
    Dot(c.stateRow, z) + c.offset + Dot(c.disturbanceRow, d)
  }

  /** The values the witness leaves open to a constraint: some admissible disturbance at the equilibrium, and a state
      part of at most radius times dual bound either way. */
  ghost predicate Possible(p: Problem, w: Witness, i: nat, v: real)
    requires WellFormed(p, w) && i < |p.constraints|
  {
    exists d :: WithinBounds(d, p.bounds)
      && -(w.radius * w.xi[i]) <= v - Value(p.constraints[i], w.equilibrium, d) <= w.radius * w.xi[i]
  }

  ghost predicate Admits(c: Constraint, v: real) {
    if c.strict then c.lower < v < c.upper else c.lower <= v <= c.upper
  }

  ghost predicate ConstraintMet(p: Problem, w: Witness, i: nat)
    requires WellFormed(p, w) && i < |p.constraints|
  {
    DualHolds(p, w, i) && forall v :: Possible(p, w, i, v) ==> Admits(p.constraints[i], v)
  }

  ghost predicate Certificate(p: Problem, w: Witness)
    requires WellFormed(p, w)
  {
    && StillPoint(p, w) && ShapeHolds(w)
    && 0.0 <= w.gamma < 1.0 && Contracts(w.shape, p.transition, w.gamma)
    && DisturbanceMet(p, w) && RadiusMet(p, w) && BoxInside(p, w)
    && (forall i :: 0 <= i < |p.constraints| ==> ConstraintMet(p, w, i))
  }

  // ----- what the intervals of a report are -----

  ghost predicate Contains(r: Interval, values: real -> bool) {
    forall v :: values(v) ==> r.lower <= v <= r.upper
  }

  /** r is the smallest interval containing all these values. */
  ghost predicate IsHull(r: Interval, values: real -> bool) {
    && Contains(r, values)
    && forall other :: Contains(other, values) ==> other.lower <= r.lower && r.upper <= other.upper
  }

  /** Every point of the ellipsoid has its coordinate in the interval. */
  ghost predicate Encloses(w: Witness, i: nat, interval: Interval)
    requires IsMatrix(w.shape, |w.shape|, |w.shape|) && |w.equilibrium| == |w.shape| && i < |w.shape|
  {
    forall z :: WithinLevel(w.shape, w.equilibrium, w.radius * w.radius, z) ==>
      interval.lower <= z[i] <= interval.upper
  }

  /** m bounds coordinate i on the unit ellipsoid. */
  ghost predicate BoundsUnit(shape: Matrix, i: nat, m: nat)
    requires IsMatrix(shape, |shape|, |shape|) && i < |shape|
  {
    DualBound(shape, Unit(|shape|, i), m as real)
  }

  ghost predicate LeastDual(shape: Matrix, i: nat, m: nat)
    requires IsMatrix(shape, |shape|, |shape|) && i < |shape|
  {
    BoundsUnit(shape, i, m) && forall k: nat :: k < m ==> !BoundsUnit(shape, i, k)
  }

  /** The equilibrium's coordinate, give or take the radius times the least natural bound. */
  ghost predicate CoordinateIs(w: Witness, i: nat, interval: Interval)
    requires IsMatrix(w.shape, |w.shape|, |w.shape|) && |w.equilibrium| == |w.shape| && i < |w.shape|
  {
    exists m :: LeastDual(w.shape, i, m)
      && interval.lower == w.equilibrium[i] - w.radius * m as real
      && interval.upper == w.equilibrium[i] + w.radius * m as real
  }

  /** Over the whole ellipsoid and every admissible disturbance, the constraint's value is in the interval. */
  ghost predicate EnclosesValues(p: Problem, w: Witness, i: nat, interval: Interval)
    requires WellFormed(p, w) && i < |p.constraints|
  {
    forall z, d :: WithinLevel(w.shape, w.equilibrium, w.radius * w.radius, z) && WithinBounds(d, p.bounds) ==>
      interval.lower <= Value(p.constraints[i], z, d) <= interval.upper
  }

  /** Its middle is the constraint's value at the equilibrium, its width twice what state and disturbance may add. */
  ghost predicate RangeIs(p: Problem, w: Witness, i: nat, interval: Interval)
    requires WellFormed(p, w) && i < |p.constraints|
  {
    var c := p.constraints[i];
    && interval.lower + interval.upper == 2.0 * Value(c, w.equilibrium, Zeros(|p.bounds|))
    && interval.upper - interval.lower == 2.0 * (w.radius * w.xi[i] + Dot(Absolute(c.disturbanceRow), p.bounds))
  }

  ghost predicate NonNegative(v: Vector) {
    forall j :: 0 <= j < |v| ==> v[j] >= 0.0
  }

  /** The constraint intervals: each is the smallest one containing what the witness leaves possible, and encloses what
      really happens once the dual bound behind it is right. */
  ghost predicate RangesExact(p: Problem, w: Witness, ranges: seq<Interval>)
    requires WellFormed(p, w)
  {
    && |ranges| <= |p.constraints|
    && (forall i :: 0 <= i < |ranges| ==> RangeIs(p, w, i, ranges[i]))
    && (w.radius >= 0.0 && NonNegative(p.bounds) ==>
          forall i :: 0 <= i < |ranges| && w.xi[i] >= 0.0 ==> IsHull(ranges[i], v => Possible(p, w, i, v)))
    && (w.radius >= 0.0 ==>
          forall i :: 0 <= i < |ranges| && DualHolds(p, w, i) ==> EnclosesValues(p, w, i, ranges[i]))
  }

  ghost predicate CoordinatesExact(w: Witness, coordinates: seq<Interval>)
    requires IsMatrix(w.shape, |w.shape|, |w.shape|) && |w.equilibrium| == |w.shape|
  {
    && |coordinates| <= |w.shape|
    && (forall i :: 0 <= i < |coordinates| ==> CoordinateIs(w, i, coordinates[i]))
    && (w.radius >= 0.0 ==> forall i :: 0 <= i < |coordinates| ==> Encloses(w, i, coordinates[i]))
  }

  ghost predicate AllPassed(checks: seq<Check>) {
    forall k :: 0 <= k < |checks| ==> checks[k].passed
  }

  // ----- the checks of a report, and the reasons it gives -----

  /** Two checks for each of the first constraints, in order. */
  ghost function ConstraintChecks(p: Problem, w: Witness, count: nat): (r: seq<Check>)
    requires WellFormed(p, w) && count <= |p.constraints|
    ensures |r| == 2 * count
  {
    if count == 0 then []
    else
      var c := p.constraints[count - 1];
      ConstraintChecks(p, w, count - 1)
      + [Check("constraint_dual_norm:" + c.name, DualHolds(p, w, count - 1)),
         Check("constraint_range:" + c.name, Inside(ConstraintInterval(p, w, count - 1), c))]
  }

  /** Both checks of one constraint. */
  ghost predicate ConstraintHolds(p: Problem, w: Witness, i: nat)
    requires WellFormed(p, w) && i < |p.constraints|
  {
    DualHolds(p, w, i) && Inside(ConstraintInterval(p, w, i), p.constraints[i])
  }

  lemma {:induction false} ConstraintChecksDecide(p: Problem, w: Witness, count: nat)
    requires WellFormed(p, w) && count <= |p.constraints|
    ensures AllPassed(ConstraintChecks(p, w, count)) <==> forall i :: 0 <= i < count ==> ConstraintHolds(p, w, i)
  {
    hide DualHolds, ConstraintInterval, Inside, AllPassed;
    NothingFailed();
    if count > 0 {
      ConstraintChecksDecide(p, w, count - 1);
      var before, all := ConstraintChecks(p, w, count - 1), ConstraintChecks(p, w, count);
      AllPassedTwo(before, all[2 * count - 2], all[2 * count - 1]);
      assert ConstraintHolds(p, w, count - 1) <==> all[2 * count - 2].passed && all[2 * count - 1].passed;
    }
  }

  /** What each of the seven checks on the whole certificate means. */
  ghost function CertificateChecks(p: Problem, w: Witness): seq<Check>
    requires WellFormed(p, w)
  {
    [Check("equilibrium_fixed_point", StillPoint(p, w)),
     Check("shape_symmetric_positive_definite", ShapeHolds(w)),
     Check("contraction_bound_in_unit_interval", 0.0 <= w.gamma < 1.0),
     Check("strict_lyapunov_contraction", Contracts(w.shape, p.transition, w.gamma)),
     Check("disturbance_norm_bounds", DisturbanceMet(p, w)),
     Check("robust_radius_closure", RadiusMet(p, w)),
     Check("initial_box_inclusion", BoxInside(p, w))]
  }

  /** All the checks made: without a positive definite shape nothing after it is computed. */
  ghost function ChecksMade(p: Problem, w: Witness): seq<Check>
    requires WellFormed(p, w)
  {
    if ShapeHolds(w) then CertificateChecks(p, w) + ConstraintChecks(p, w, |p.constraints|)
    else CertificateChecks(p, w)[..2]
  }

  ghost function ReasonsGiven(p: Problem, w: Witness): seq<string>
    requires WellFormed(p, w)
  {
    if ShapeHolds(w) then FailedNames(ChecksMade(p, w)) else ["shape_symmetric_positive_definite"]
  }

  /** The certificate holds exactly when every check made passed, and exactly when no reason is given. */
  lemma {:induction false} CertificateIsAllChecks(p: Problem, w: Witness)
    requires WellFormed(p, w)
    ensures Certificate(p, w) <==> AllPassed(ChecksMade(p, w))
    ensures Certificate(p, w) <==> ReasonsGiven(p, w) == []
  {
    hide Contracts, ShapeHolds, StillPoint, BoxInside, ConstraintHolds, ConstraintMet, ConstraintChecks, FailedNames;
    if RadiusMet(p, w) && DisturbanceMet(p, w) {
      forall i | 0 <= i < |p.constraints|
        ensures ConstraintHolds(p, w, i) <==> ConstraintMet(p, w, i)
      {
        ConstraintMeaning(p, w, i);
      }
    }
    hide RadiusMet, DisturbanceMet;
    AllPassedMeaning(p, w);
    if !ShapeHolds(w) {
      assert !CertificateChecks(p, w)[..2][1].passed;
    }
  }

  /** Of a problem that is not certified, the reasons are the failed checks exactly when the shape holds or the fixed
      point does: with both wrong, the fixed point's failure is recorded but not among the reasons. */
  lemma {:induction false} ReasonsAreFailures(p: Problem, w: Witness)
    requires WellFormed(p, w)
    ensures ReasonsGiven(p, w) == FailedNames(ChecksMade(p, w)) <==> ShapeHolds(w) || StillPoint(p, w)
  {
    hide Contracts, ShapeHolds, StillPoint, RadiusMet, DisturbanceMet, BoxInside, ConstraintChecks;
    if !ShapeHolds(w) {
      var made := CertificateChecks(p, w)[..2];
      assert made[1..] == [made[1]] && made[1..][1..] == [];
      assert FailedNames([made[1]]) == ["shape_symmetric_positive_definite"];
    }
  }

  /** A problem within the limits, and a witness, where the reasons leave out a check that failed. */
  lemma {:induction false} ReasonsCanOmitAFailure(p: Problem, w: Witness)
    requires p == Problem([[0.0]], [1.0], [[0.0]], [0.0], [0.0], [0.0], [])
    requires w == Witness([0.0], [[0.0]], 0.0, [0.0], 1.0, [])
    ensures WellFormed(p, w) && !OverLimit(p, 1)
    ensures Check("equilibrium_fixed_point", false) in ChecksMade(p, w)
    ensures ReasonsGiven(p, w) == ["shape_symmetric_positive_definite"]
    ensures FailedNames(ChecksMade(p, w)) == ["equilibrium_fixed_point", "shape_symmetric_positive_definite"]
  {
    hide Contracts, DisturbanceMet, BoxInside, ConstraintChecks;
    ZeroIsNoShape(w.shape);
    StillIsNoFixedPoint(p, w);
    FixedPointMeaning(p, w);
    hide FixedPoint, StillPoint, ShapeHolds, RadiusMet;
    var made := CertificateChecks(p, w)[..2];
    assert made == [made[0], made[1]] && made[1..] == [made[1]] && made[1..][1..] == [];
    assert FailedNames(made[1..]) == [made[1].name] + FailedNames([]);
  }

  lemma {:induction false} ZeroIsNoShape(shape: Matrix)
    requires shape == [[0.0]]
    ensures !PositiveDefinite(shape)
  {
    var x: Vector := [1.0];
    assert x[0] != Zeros(1)[0];
    assert MatrixVector(shape, x)[0] == Dot([0.0], x) == 0.0 * 1.0 + Dot([0.0][1..], x[1..]);
    assert Quadratic(shape, x) == 1.0 * 0.0 + Dot(x[1..], MatrixVector(shape, x)[1..]) == 0.0;
  }

  lemma {:induction false} StillIsNoFixedPoint(p: Problem, w: Witness)
    requires WellFormed(p, w) && p.transition == [[0.0]] && p.affine == [1.0] && w.equilibrium == [0.0]
    ensures !FixedPoint(p, w)
  {
    assert MatrixVector(p.transition, w.equilibrium)[0] == Dot([0.0], [0.0]) == 0.0 * 0.0 + Dot([0.0][1..], [0.0][1..]);
    assert VectorAdd(MatrixVector(p.transition, w.equilibrium), p.affine)[0] == 1.0;
  }

  /** The limits, in numbers; twelve dimensions have just 4096 corners. */
  lemma {:induction false} LimitsAre(p: Problem, integerBits: nat)
    ensures OverLimit(p, integerBits) <==>
      || |p.transition| == 0 || |p.transition| > 12 || |p.bounds| > 16 || |p.constraints| > 128 || integerBits > 8192
  {
    TwelveCorners(|p.transition|);
  }

  lemma {:induction false} TwelveCorners(n: nat)
    ensures n <= 12 ==> NumberTheory.Power2(n) <= 4096
  {
    assert NumberTheory.Power2(4) == 16;
    NumberTheory.Power2Sum(4, 4);
    NumberTheory.Power2Sum(8, 4);
    if n <= 12 {
      NumberTheory.Power2Sum(n, 12 - n);
      AtLeastFactor(NumberTheory.Power2(n), NumberTheory.Power2(12 - n), 4096);
    }
  }

  lemma {:induction false} AtLeastFactor(a: nat, b: nat, c: nat)
    requires a * b == c && b >= 1
    ensures a <= c
  {
  }

  /** The names of the failed checks, in order and with nothing else. */
  lemma {:induction false} FailedNamesParts(a: seq<Check>, b: seq<Check>, c: Check)
    ensures FailedNames(a + b) == FailedNames(a) + FailedNames(b)
    ensures FailedNames([c]) == if c.passed then [] else [c.name]
  {
    assert [c][1..] == [];
    if a == [] {
      assert a + b == b;
    } else {
      assert (a + b)[1..] == a[1..] + b;
      FailedNamesParts(a[1..], b, c);
    }
  }

  // ----- what each computed test means -----

  lemma {:induction false} NothingAdded(m: Matrix, n: nat)
    requires IsMatrix(m, |m|, n)
    ensures MatrixVector(m, Zeros(n)) == Zeros(|m|)
  {
    forall i | 0 <= i < |m| ensures MatrixVector(m, Zeros(n))[i] == 0.0 {
      DotZeros(m[i]);
    }
  }

  lemma {:induction false} FixedPointMeaning(p: Problem, w: Witness)
    requires WellFormed(p, w)
    ensures FixedPoint(p, w) <==> StillPoint(p, w)
  {
    hide Dot, MatrixVector;
    NothingAdded(p.disturbance, |p.bounds|);
    var moved := VectorAdd(MatrixVector(p.transition, w.equilibrium), p.affine);
    assert VectorAdd(moved, Zeros(|moved|)) == moved;
  }

  lemma {:induction false} ColumnOfUnit(m: Matrix, n: nat, j: nat)
    requires IsMatrix(m, |m|, n) && j < n
    ensures MatrixVector(m, Unit(n, j)) == Transpose(m, n)[j]
  {
    hide Dot, Unit;
    forall i | 0 <= i < |m| ensures MatrixVector(m, Unit(n, j))[i] == Transpose(m, n)[j][i] {
      DotUnit(m[i], j);
      DotCommutes(m[i], Unit(n, j));
    }
  }

  lemma {:induction false} DisturbanceMeaning(p: Problem, w: Witness)
    requires WellFormed(p, w)
    ensures DisturbanceBounded(p, w) <==> DisturbanceMet(p, w)
  {
    hide Quadratic, MatrixVector, Transpose, Unit;
    forall j | 0 <= j < |p.bounds|
      ensures MatrixVector(p.disturbance, Unit(|p.bounds|, j)) == Transpose(p.disturbance, |p.bounds|)[j]
    {
      ColumnOfUnit(p.disturbance, |p.bounds|, j);
    }
  }

  lemma {:induction false} RadiusMeaning(p: Problem, w: Witness)
    requires WellFormed(p, w)
    ensures RadiusCloses(p, w) <==> RadiusMet(p, w)
  {
    hide Dot;
    assert w.radius * (1.0 - w.gamma) == w.radius - w.gamma * w.radius;
  }

  /** The disturbance that is worst for a row. */
  lemma {:induction false} Worst(row: Vector, bounds: Vector) returns (d: Vector)
    requires |row| == |bounds| && NonNegative(bounds)
    ensures WithinBounds(d, bounds) && Dot(row, d) == Dot(Absolute(row), bounds)
  {
    if |row| == 0 {
      return [];
    }
    var rest := Worst(row[1..], bounds[1..]);
    d := [if row[0] >= 0.0 then bounds[0] else -bounds[0]] + rest;
    assert d[1..] == rest && Absolute(row)[1..] == Absolute(row[1..]);
    hide Dot, Absolute;
    WorstHead(row, d, bounds);
  }

  lemma {:induction false} WorstHead(row: Vector, d: Vector, bounds: Vector)
    requires |row| == |d| == |bounds| > 0 && d[0] == if row[0] >= 0.0 then bounds[0] else -bounds[0]
    requires Dot(row[1..], d[1..]) == Dot(Absolute(row)[1..], bounds[1..])
    ensures Dot(row, d) == Dot(Absolute(row), bounds)
  {
    hide Dot;
    DotHead(row, d);
    DotHead(Absolute(row), bounds);
  }

  lemma {:induction false} Opposite(row: Vector, d: Vector, bounds: Vector)
    requires |row| == |bounds| && WithinBounds(d, bounds)
    ensures WithinBounds(Scale(-1.0, d), bounds) && Dot(row, Scale(-1.0, d)) == -Dot(row, d)
  {
    DotScale(row, -1.0, d);
  }

  /** Where the ends of a constraint interval lie. */
  lemma {:induction false} ConstraintEnds(p: Problem, w: Witness, i: nat)
    requires WellFormed(p, w) && i < |p.constraints|
    ensures RangeIs(p, w, i, ConstraintInterval(p, w, i))
  {
    hide Dot, Absolute;
    DotZeros(p.constraints[i].disturbanceRow);
  }

  /** Both ends are possible, so the interval is no wider than it has to be. */
  lemma {:induction false} EndsArePossible(p: Problem, w: Witness, i: nat)
    requires WellFormed(p, w) && i < |p.constraints| && w.radius >= 0.0 && w.xi[i] >= 0.0 && NonNegative(p.bounds)
    ensures Possible(p, w, i, ConstraintInterval(p, w, i).lower)
    ensures Possible(p, w, i, ConstraintInterval(p, w, i).upper)
  {
    hide Dot, Absolute, WithinBounds;
    var c, r, reach := p.constraints[i], ConstraintInterval(p, w, i), w.radius * w.xi[i];
    SquareOrZero(w.radius, w.xi[i]);
    var d := Worst(c.disturbanceRow, p.bounds);
    Opposite(c.disturbanceRow, d, p.bounds);
    SameLength(d, p.bounds);
    assert r.upper == Value(c, w.equilibrium, d) + reach;
    assert r.lower == Value(c, w.equilibrium, Scale(-1.0, d)) - reach;
  }

  lemma {:induction false} SameLength(d: Vector, bounds: Vector)
    requires WithinBounds(d, bounds)
    ensures |d| == |bounds|
  {
  }

  lemma {:induction false} SquareOrZero(a: real, b: real)
    requires a >= 0.0 && b >= 0.0
    ensures a * b >= 0.0
  {
  }

  lemma {:induction false} PossibleIsInside(p: Problem, w: Witness, i: nat, v: real)
    requires WellFormed(p, w) && i < |p.constraints| && Possible(p, w, i, v)
    ensures ConstraintInterval(p, w, i).lower <= v <= ConstraintInterval(p, w, i).upper
  {
    hide Dot, Absolute;
    var c := p.constraints[i];
    var d :| WithinBounds(d, p.bounds)
      && -(w.radius * w.xi[i]) <= v - Value(c, w.equilibrium, d) <= w.radius * w.xi[i];
    DirectBound(c.disturbanceRow, d, p.bounds);
  }

  /** A constraint interval is the smallest one containing every value the witness leaves possible. */
  lemma {:induction false} ConstraintIsHull(p: Problem, w: Witness, i: nat)
    requires WellFormed(p, w) && i < |p.constraints| && w.radius >= 0.0 && w.xi[i] >= 0.0 && NonNegative(p.bounds)
    ensures IsHull(ConstraintInterval(p, w, i), v => Possible(p, w, i, v))
  {
    hide ConstraintInterval, Possible, NonNegative;
    var r, values := ConstraintInterval(p, w, i), (v: real) => Possible(p, w, i, v);
    forall v | values(v) ensures r.lower <= v <= r.upper {
      PossibleIsInside(p, w, i, v);
    }
    EndsArePossible(p, w, i);
    assert values(r.lower) && values(r.upper);
  }

  /** The range check passes exactly when the constraint admits every possible value. */
  lemma {:induction false} RangeMeaning(p: Problem, w: Witness, i: nat)
    requires WellFormed(p, w) && i < |p.constraints| && w.radius >= 0.0 && w.xi[i] >= 0.0 && NonNegative(p.bounds)
    ensures Inside(ConstraintInterval(p, w, i), p.constraints[i])
      <==> forall v :: Possible(p, w, i, v) ==> Admits(p.constraints[i], v)
  {
    hide ConstraintInterval, Possible, NonNegative;
    EndsArePossible(p, w, i);
    forall v | Possible(p, w, i, v)
      ensures ConstraintInterval(p, w, i).lower <= v <= ConstraintInterval(p, w, i).upper
    {
      PossibleIsInside(p, w, i, v);
    }
  }

  lemma {:induction false} ConstraintMeaning(p: Problem, w: Witness, i: nat)
    requires WellFormed(p, w) && i < |p.constraints| && RadiusMet(p, w) && DisturbanceMet(p, w)
    ensures ConstraintHolds(p, w, i) <==> ConstraintMet(p, w, i)
  {
    hide ConstraintInterval, Possible, Inside, DualBound, Dot, Quadratic, MatrixVector;
    if w.xi[i] >= 0.0 {
      RangeMeaning(p, w, i);
    }
  }

  // ----- the checker -----

  /** The loop over the constraints: their intervals, their checks, and whether all of them pass. */
  method CheckConstraints(p: Problem, w: Witness, inverse: Matrix)
    returns (ranges: seq<Interval>, added: seq<Check>, ok: bool)
    requires WellFormed(p, w) && IsMatrix(inverse, |w.shape|, |w.shape|) && Inverts(w.shape, inverse)
    requires IsSymmetric(w.shape) && PositiveDefinite(w.shape)
    ensures |ranges| == |p.constraints| && RangesExact(p, w, ranges)
    ensures ok <==> forall i :: 0 <= i < |p.constraints| ==> ConstraintHolds(p, w, i)
    ensures added == ConstraintChecks(p, w, |p.constraints|)
  {
    hide Dot, DualBound, Quadratic, Inverts, PositiveDefinite, IsSymmetric, Absolute, DualHolds, Inside,
      ConstraintInterval, EnclosesValues, RangeIs, IsHull, Possible, NonNegative;
    ranges, added, ok := [], [], true;
    for i := 0 to |p.constraints|
      invariant |ranges| == i && RangesExact(p, w, ranges)
      invariant ok <==> forall k :: 0 <= k < i ==> ConstraintHolds(p, w, k)
      invariant added == ConstraintChecks(p, w, i)
    {
      var c := p.constraints[i];
      DualDecided(p, w, inverse, i);
      var dualOk := w.xi[i] >= 0.0 && w.xi[i] * w.xi[i] >= Quadratic(inverse, c.stateRow);
      var interval := ConstraintInterval(p, w, i);
      var safe := Inside(interval, c);
      ConstraintEnds(p, w, i);
      if w.radius >= 0.0 && dualOk {
        ConstraintEnclosed(p, w, i);
      }
      if w.radius >= 0.0 && w.xi[i] >= 0.0 && NonNegative(p.bounds) {
        ConstraintIsHull(p, w, i);
      }
      added := added + [Check("constraint_dual_norm:" + c.name, dualOk), Check("constraint_range:" + c.name, safe)];
      ranges := ranges + [interval];
      assert ConstraintHolds(p, w, i) <==> dualOk && safe;
      ok := ok && dualOk && safe;
    }
  }

  lemma {:induction false} DualDecided(p: Problem, w: Witness, inverse: Matrix, i: nat)
    requires WellFormed(p, w) && IsMatrix(inverse, |w.shape|, |w.shape|) && Inverts(w.shape, inverse)
    requires ShapeHolds(w) && i < |p.constraints|
    ensures DualHolds(p, w, i)
      <==> w.xi[i] >= 0.0 && w.xi[i] * w.xi[i] >= Quadratic(inverse, p.constraints[i].stateRow)
  {
    hide Dot, DualBound, Quadratic, Inverts, PositiveDefinite, IsSymmetric;
    if w.xi[i] >= 0.0 {
      DualMeaning(w.shape, inverse, p.constraints[i].stateRow, w.xi[i]);
    }
  }

  lemma {:induction false} AllPassedTwo(checks: seq<Check>, a: Check, b: Check)
    ensures AllPassed(checks + [a, b]) <==> AllPassed(checks) && a.passed && b.passed
  {
    var all := checks + [a, b];
    if AllPassed(all) {
      assert all[|checks|] == a && all[|checks| + 1] == b;
      forall k | 0 <= k < |checks| ensures checks[k].passed {
        assert all[k] == checks[k];
      }
    }
  }

  /** One interval for each coordinate, from the integer bound on its dual norm. */
  method CoordinateBounds(p: Problem, w: Witness, inverse: Matrix) returns (bounds: seq<Interval>)
    requires WellFormed(p, w) && IsMatrix(inverse, |w.shape|, |w.shape|) && Inverts(w.shape, inverse)
    requires IsSymmetric(w.shape) && PositiveDefinite(w.shape)
    ensures |bounds| == |w.shape| && CoordinatesExact(w, bounds)
  {
    hide Dot, Quadratic, Inverts, PositiveDefinite, IsSymmetric, DualBound, Unit, Encloses, CoordinateIs;
    var n := |w.shape|;
    bounds := [];
    for k := 0 to n
      invariant |bounds| == k && CoordinatesExact(w, bounds)
    {
      DiagonalNonnegative(w.shape, inverse, k);
      var dual := UnitDualBound(inverse[k][k]);
      DualIsLeast(w.shape, inverse, k, dual);
      CoordinateEnds(w, k, dual);
      if w.radius >= 0.0 {
        CoordinateEnclosed(w, inverse, k, dual);
      }
      bounds := bounds + [ProjectionInterval(w.equilibrium[k], w.radius, dual as real, 0.0)];
    }
  }

  /** The checker: three outcomes, the exact checks made, and the ranges derived. */
  method VerifyEllipsoidalInvariant(p: Problem, w: Witness, integerBits: nat) returns (report: Report)
    requires WellFormed(p, w)
    ensures report.status.Indeterminate? <==> OverLimit(p, integerBits)
    ensures report.status.Certified? <==> !OverLimit(p, integerBits) && Certificate(p, w)
    ensures OverLimit(p, integerBits) ==> report.reasons == ["resource_limit_exceeded"] && report.checks == []
    ensures !OverLimit(p, integerBits) ==> report.checks == ChecksMade(p, w) && report.reasons == ReasonsGiven(p, w)
    ensures if OverLimit(p, integerBits) || !ShapeHolds(w) then report.coordinates == [] && report.ranges == []
            else |report.coordinates| == |w.shape| && |report.ranges| == |p.constraints|
    ensures CoordinatesExact(w, report.coordinates) && RangesExact(p, w, report.ranges)
  {
    hide Contracts, PositiveDefinite, IsSymmetric, Inverts, ConstraintHolds, Singular, ConstraintInterval,
      Encloses, AllPassed, FailedNames, FixedPoint, RadiusCloses, DisturbanceBounded, CornersInside, BoxInside,
      RangesExact, CoordinatesExact, ConstraintChecks, DualHolds, Certificate, StillPoint, RadiusMet, DisturbanceMet;
    NothingEnclosed(p, w);
    if OverLimit(p, integerBits) {
      return Report(Indeterminate, ["resource_limit_exceeded"], [], [], []);
    }
    CertificateIsAllChecks(p, w);
    AllPassedMeaning(p, w);
    FixedPointMeaning(p, w);
    DisturbanceMeaning(p, w);
    RadiusMeaning(p, w);
    var equilibriumOk := FixedPoint(p, w);
    var checks := [Check("equilibrium_fixed_point", equilibriumOk)];
    var shapeOk := false;
    if IsSymmetric(w.shape) {
      shapeOk := IsPositiveDefinite(w.shape);
    }
    checks := checks + [Check("shape_symmetric_positive_definite", shapeOk)];
    if !shapeOk {
      assert CertificateChecks(p, w)[..2] == [CertificateChecks(p, w)[0], CertificateChecks(p, w)[1]];
      return Report(Rejected, ["shape_symmetric_positive_definite"], [], [], checks);
    }
    var gammaOk := 0.0 <= w.gamma < 1.0;
    checks := checks + [Check("contraction_bound_in_unit_interval", gammaOk)];
    var contractionOk := CheckContraction(w.shape, p.transition, w.gamma);
    checks := checks + [Check("strict_lyapunov_contraction", contractionOk)];
    var disturbanceOk := DisturbanceBounded(p, w);
    checks := checks + [Check("disturbance_norm_bounds", disturbanceOk)];
    var radiusOk := RadiusCloses(p, w);
    checks := checks + [Check("robust_radius_closure", radiusOk)];
    var initialOk := CornersInside(p, w);
    InitialMeaning(p, w);
    checks := checks + [Check("initial_box_inclusion", initialOk)];
    assert checks == CertificateChecks(p, w);
    PositiveDefiniteInverts(w.shape);
    var inverse := Inverse(w.shape);
    var coordinates := CoordinateBounds(p, w, inverse.value);
    var ranges, added, constraintsOk := CheckConstraints(p, w, inverse.value);
    checks := checks + added;
    var passed := equilibriumOk && shapeOk && gammaOk && contractionOk && disturbanceOk && radiusOk
      && initialOk && constraintsOk;
    return Report(if passed then Certified else Rejected,
                  if passed then [] else FailedNames(checks), coordinates, ranges, checks);
  }

  lemma {:induction false} NothingEnclosed(p: Problem, w: Witness)
    requires WellFormed(p, w)
    ensures RangesExact(p, w, []) && CoordinatesExact(w, [])
  {
  }

  lemma {:induction false} NothingFailed()
    ensures AllPassed([])
  {
  }

  lemma {:induction false} AllPassedMeaning(p: Problem, w: Witness)
    requires WellFormed(p, w)
    ensures ShapeHolds(w) ==> (AllPassed(ChecksMade(p, w)) <==>
      && StillPoint(p, w) && 0.0 <= w.gamma < 1.0 && Contracts(w.shape, p.transition, w.gamma)
      && DisturbanceMet(p, w) && RadiusMet(p, w) && BoxInside(p, w)
      && (forall i :: 0 <= i < |p.constraints| ==> ConstraintHolds(p, w, i)))
  {
    hide Contracts, ShapeHolds, StillPoint, BoxInside, ConstraintHolds, ConstraintChecks, RadiusMet, DisturbanceMet;
    var first := CertificateChecks(p, w);
    PassedTogether(first, ConstraintChecks(p, w, |p.constraints|));
    ConstraintChecksDecide(p, w, |p.constraints|);
    assert AllPassed(first) ==>
      && first[0].passed && first[2].passed && first[3].passed
      && first[4].passed && first[5].passed && first[6].passed;
  }

  method CheckContraction(shape: Matrix, transition: Matrix, gamma: real) returns (ok: bool)
    requires IsMatrix(shape, |shape|, |shape|) && IsMatrix(transition, |shape|, |shape|) && IsSymmetric(shape)
    ensures ok <==> Contracts(shape, transition, gamma)
  {
    hide IsSymmetric, Contracts, PositiveDefinite, ContractionMatrix;
    var contraction := ContractionMatrix(shape, transition, gamma);
    ContractionSymmetric(shape, transition, gamma);
    ContractionMeaning(shape, transition, gamma);
    ok := IsPositiveDefinite(contraction);
    ok := IsSymmetric(contraction) && ok;
  }

  lemma {:induction false} PassedTogether(before: seq<Check>, added: seq<Check>)
    ensures AllPassed(before + added) <==> AllPassed(before) && AllPassed(added)
  {
    var all := before + added;
    if AllPassed(all) {
      forall k | 0 <= k < |before| ensures before[k].passed {
        assert all[k] == before[k];
      }
      forall k | 0 <= k < |added| ensures added[k].passed {
        assert all[|before| + k] == added[k];
      }
    }
  }

  /** Testing the corners decides the whole box. */
  lemma {:induction false} InitialMeaning(p: Problem, w: Witness)
    requires WellFormed(p, w) && IsSymmetric(w.shape) && PositiveDefinite(w.shape)
    ensures CornersInside(p, w) <==> BoxInside(p, w)
  {
    hide Quadratic, PositiveDefinite, IsSymmetric, Vertices;
    var lower, upper, level := p.initialLower, p.initialUpper, w.radius * w.radius;
    forall v ensures v in Vertices(lower, upper) <==> IsVertex(v, lower, upper) {
      VerticesComplete(lower, upper, v);
    }
    if CornersInside(p, w) {
      forall z | InBox(z, lower, upper) ensures WithinLevel(w.shape, w.equilibrium, level, z) {
        BoxFromCorners(w.shape, w.equilibrium, level, lower, upper, |w.shape|, z);
      }
    }
    if BoxInside(p, w) {
      forall v | v in Vertices(lower, upper)
        ensures Quadratic(w.shape, VectorSubtract(v, w.equilibrium)) <= level
      {
        assert InBox(v, lower, upper);
      }
    }
  }

  lemma {:induction false} DiagonalIsDual(inverse: Matrix, k: nat)
    requires IsMatrix(inverse, |inverse|, |inverse|) && k < |inverse|
    ensures Quadratic(inverse, Unit(|inverse|, k)) == inverse[k][k]
  {
    DotUnit(inverse[k], k);
    DotUnit(MatrixVector(inverse, Unit(|inverse|, k)), k);
  }

  lemma {:induction false} DiagonalNonnegative(shape: Matrix, inverse: Matrix, k: nat)
    requires IsMatrix(shape, |shape|, |shape|) && IsMatrix(inverse, |shape|, |shape|) && k < |shape|
    requires IsSymmetric(shape) && PositiveDefinite(shape) && Inverts(shape, inverse)
    ensures inverse[k][k] >= 0.0
  {
    hide Dot, Quadratic, PositiveDefinite, IsSymmetric, Inverts, Unit, DualBound;
    DiagonalIsDual(inverse, k);
    DualMeaning(shape, inverse, Unit(|shape|, k), 0.0);
  }

  lemma {:induction false} CoordinateEnclosed(w: Witness, inverse: Matrix, k: nat, dual: nat)
    requires IsMatrix(w.shape, |w.shape|, |w.shape|) && IsMatrix(inverse, |w.shape|, |w.shape|)
    requires |w.equilibrium| == |w.shape| && k < |w.shape| && w.radius >= 0.0
    requires IsSymmetric(w.shape) && PositiveDefinite(w.shape) && Inverts(w.shape, inverse)
    requires inverse[k][k] >= 0.0 && dual == UnitDualBound(inverse[k][k])
    ensures Encloses(w, k, ProjectionInterval(w.equilibrium[k], w.radius, dual as real, 0.0))
  {
    hide Dot, Quadratic, PositiveDefinite, IsSymmetric, Inverts, Unit, DualBound, UnitDualBound;
    var e, xi := Unit(|w.shape|, k), dual as real;
    DiagonalIsDual(inverse, k);
    UnitDualBoundIsCeiling(inverse[k][k], dual);
    SquareAsReal(dual);
    DualMeaning(w.shape, inverse, e, xi);
    forall z | WithinLevel(w.shape, w.equilibrium, w.radius * w.radius, z)
      ensures w.equilibrium[k] - w.radius * xi <= z[k] <= w.equilibrium[k] + w.radius * xi
    {
      var d := VectorSubtract(z, w.equilibrium);
      RowRange(w.shape, e, xi, w.radius, d);
      DotUnit(d, k);
    }
  }

  lemma {:induction false} DualIsLeast(shape: Matrix, inverse: Matrix, k: nat, dual: nat)
    requires IsMatrix(shape, |shape|, |shape|) && IsMatrix(inverse, |shape|, |shape|) && k < |shape|
    requires IsSymmetric(shape) && PositiveDefinite(shape) && Inverts(shape, inverse)
    requires inverse[k][k] >= 0.0 && dual == UnitDualBound(inverse[k][k])
    ensures LeastDual(shape, k, dual)
  {
    hide Dot, Quadratic, PositiveDefinite, IsSymmetric, Inverts, Unit, DualBound, UnitDualBound;
    DiagonalIsDual(inverse, k);
    forall m: nat ensures BoundsUnit(shape, k, m) <==> m >= dual {
      UnitDualBoundIsCeiling(inverse[k][k], m);
      SquareAsReal(m);
      DualMeaning(shape, inverse, Unit(|shape|, k), m as real);
    }
  }

  lemma {:induction false} CoordinateEnds(w: Witness, k: nat, dual: nat)
    requires IsMatrix(w.shape, |w.shape|, |w.shape|) && |w.equilibrium| == |w.shape| && k < |w.shape|
    requires LeastDual(w.shape, k, dual)
    ensures CoordinateIs(w, k, ProjectionInterval(w.equilibrium[k], w.radius, dual as real, 0.0))
  {
    hide LeastDual;
  }

  lemma {:induction false} SquareAsReal(k: nat)
    ensures (k * k) as real == k as real * k as real
  {
  }

  // ----- every run -----

  /** The states of z+ = Phi*z + a + G*w, started anywhere in the box, disturbed within the bounds. */
  ghost predicate IsRun(p: Problem, zs: seq<Vector>, ws: seq<Vector>)
    requires ProblemShape(p)
  {
    && |zs| == |ws| + 1
    && InBox(zs[0], p.initialLower, p.initialUpper)
    && (forall k :: 0 <= k < |ws| ==> WithinBounds(ws[k], p.bounds))
    && (forall k :: 0 <= k < |zs| ==> |zs[k]| == |p.transition|)
    && (forall k :: 0 <= k < |ws| ==> zs[k + 1] == NextState(p, zs[k], ws[k]))
  }

  function NextState(p: Problem, z: Vector, w: Vector): (r: Vector)
    requires IsMatrix(p.transition, |z|, |z|) && |p.affine| == |z| && IsMatrix(p.disturbance, |z|, |w|)
    ensures |r| == |z|
  {
    VectorAdd(VectorAdd(MatrixVector(p.transition, z), p.affine), MatrixVector(p.disturbance, w))
  }

  /** A constraint of the problem at a state and a disturbance. */
  ghost predicate Satisfies(c: Constraint, z: Vector, d: Vector)
    requires |c.stateRow| == |z| && |c.disturbanceRow| == |d|
  {
    Admits(c, Value(c, z, d))
  }

  lemma {:induction false} StepFromCenter(p: Problem, w: Witness, z: Vector, d: Vector)
    requires WellFormed(p, w) && |z| == |w.shape| && |d| == |p.bounds|
    requires FixedPoint(p, w)
    ensures VectorSubtract(NextState(p, z, d), w.equilibrium)
      == Combine(1.0, MatrixVector(p.transition, VectorSubtract(z, w.equilibrium)), 1.0, MatrixVector(p.disturbance, d))
  {
    hide Dot;
    var e := w.equilibrium;
    assert VectorSubtract(z, e) == Combine(1.0, z, -1.0, e);
    MatrixVectorCombine(p.transition, 1.0, z, -1.0, e);
    var fz, fe, g := MatrixVector(p.transition, z), MatrixVector(p.transition, e), MatrixVector(p.disturbance, d);
    forall i | 0 <= i < |z|
      ensures VectorSubtract(NextState(p, z, d), e)[i] == Combine(1.0, Combine(1.0, fz, -1.0, fe), 1.0, g)[i]
    {
      assert e[i] == VectorAdd(fe, p.affine)[i] == fe[i] + p.affine[i];
    }
  }

  lemma {:induction false} WhatStepsNeed(p: Problem, w: Witness)
    requires WellFormed(p, w) && Certificate(p, w)
    ensures FixedPoint(p, w) && IsSymmetric(w.shape) && PositiveDefinite(w.shape) && 0.0 <= w.gamma < 1.0
    ensures Contracts(w.shape, p.transition, w.gamma) && RadiusCloses(p, w) && DisturbanceBounded(p, w)
  {
    hide Contracts, IsSymmetric, PositiveDefinite, BoxInside, ConstraintMet;
    FixedPointMeaning(p, w);
    DisturbanceMeaning(p, w);
    RadiusMeaning(p, w);
    hide StillPoint, FixedPoint, RadiusMet, RadiusCloses, DisturbanceMet, DisturbanceBounded;
  }

  /** One step from inside the ellipsoid, whatever the disturbance, ends inside it. */
  lemma {:induction false} StepStaysInside(p: Problem, w: Witness, z: Vector, d: Vector)
    requires WellFormed(p, w) && Certificate(p, w) && WithinBounds(d, p.bounds)
    requires WithinLevel(w.shape, w.equilibrium, w.radius * w.radius, z)
    ensures WithinLevel(w.shape, w.equilibrium, w.radius * w.radius, NextState(p, z, d))
  {
    hide Dot, Quadratic, PositiveDefinite, IsSymmetric, Contracts, Certificate, FixedPoint, MatrixVector, Transpose,
      Combine, NextState, VectorSubtract;
    WhatStepsNeed(p, w);
    var n, columns := |w.shape|, Transpose(p.disturbance, |p.bounds|);
    var x := VectorSubtract(z, w.equilibrium);
    var image, push := MatrixVector(p.transition, x), MatrixVector(p.disturbance, d);
    StepFromCenter(p, w, z, d);
    DisturbanceEnergy(w.shape, columns, d, p.bounds, w.eta);
    ColumnsApplied(p.disturbance, d, n);
    ContractedEnergy(w.shape, p.transition, w.gamma, w.radius, x);
    ProductMonotone(0.0, w.gamma, 0.0, w.radius);
    EnergyTriangle(w.shape, image, w.gamma * w.radius, push, Dot(w.eta, p.bounds));
    ClosureArithmetic(w.gamma, w.radius, Dot(w.eta, p.bounds));
  }

  lemma {:induction false} ContractedEnergy(shape: Matrix, transition: Matrix, gamma: real, radius: real, x: Vector)
    requires |x| == |shape| && IsMatrix(shape, |x|, |x|) && IsMatrix(transition, |x|, |x|)
    requires Contracts(shape, transition, gamma) && Quadratic(shape, x) <= radius * radius
    ensures Quadratic(shape, MatrixVector(transition, x)) <= (gamma * radius) * (gamma * radius)
  {
    hide Dot, Quadratic, MatrixVector, Zeros, Contracts;
    if x == Zeros(|x|) {
      ZeroImage(transition);
      ZeroEnergy(shape);
      SquareNonnegative(gamma * radius);
    } else {
      ContractsAt(shape, transition, gamma, x);
      ContractArithmetic(Quadratic(shape, MatrixVector(transition, x)), gamma, Quadratic(shape, x), radius);
    }
  }

  lemma {:induction false} ContractsAt(shape: Matrix, transition: Matrix, gamma: real, x: Vector)
    requires |x| == |shape| && IsMatrix(shape, |x|, |x|) && IsMatrix(transition, |x|, |x|)
    requires Contracts(shape, transition, gamma) && x != Zeros(|x|)
    ensures Quadratic(shape, MatrixVector(transition, x)) < gamma * gamma * Quadratic(shape, x)
  {
  }

  lemma {:induction false} ZeroImage(m: Matrix)
    requires IsMatrix(m, |m|, |m|)
    ensures MatrixVector(m, Zeros(|m|)) == Zeros(|m|)
  {
    forall i | 0 <= i < |m| ensures MatrixVector(m, Zeros(|m|))[i] == 0.0 {
      DotZeros(m[i]);
    }
  }

  lemma {:induction false} SquareNonnegative(a: real)
    ensures a * a >= 0.0
  {
    SquareWithin(a, if a >= 0.0 then a else -a);
  }

  lemma {:induction false} ContractArithmetic(image: real, gamma: real, q: real, radius: real)
    requires image < gamma * gamma * q && q <= radius * radius
    ensures image <= (gamma * radius) * (gamma * radius)
  {
    SquareNonnegative(gamma);
    MonotoneRight(gamma * gamma, q, radius * radius);
    assert (gamma * gamma) * (radius * radius) == (gamma * radius) * (gamma * radius);
  }

  lemma {:induction false} ClosureArithmetic(gamma: real, radius: real, beta: real)
    requires 0.0 <= gamma < 1.0 && radius > 0.0 && radius * (1.0 - gamma) >= beta >= 0.0
    ensures (gamma * radius + beta) * (gamma * radius + beta) <= radius * radius
  {
    assert gamma * radius + beta <= radius;
    ProductMonotone(0.0, gamma, 0.0, radius);
    var s := gamma * radius + beta;
    ProductMonotone(s, radius, s, radius);
  }

  /** The disturbance's own contribution to a constraint. */
  lemma {:induction false} DirectBound(row: Vector, d: Vector, bounds: Vector)
    requires |row| == |d| == |bounds| && WithinBounds(d, bounds)
    ensures -Dot(Absolute(row), bounds) <= Dot(row, d) <= Dot(Absolute(row), bounds)
    decreases |row|
  {
    if |row| > 0 {
      hide Dot;
      var size := Absolute(row);
      DirectBound(row[1..], d[1..], bounds[1..]);
      assert size[1..] == Absolute(row[1..]);
      DotHead(row, d);
      DotHead(size, bounds);
      DirectTerm(row[0], d[0], bounds[0]);
    }
  }

  lemma {:induction false} DirectTerm(a: real, d: real, b: real)
    requires -b <= d <= b
    ensures var t := if a >= 0.0 then a else -a; -(t * b) <= a * d <= t * b
  {
    var t := if a >= 0.0 then a else -a;
    ProductMonotone(0.0, t, 0.0, b - d);
    ProductMonotone(0.0, t, 0.0, b + d);
    assert t * (b - d) == t * b - t * d && t * (b + d) == t * b + t * d;
  }

  /** One value: the state row stays within xi times the radius of its value at the center, the rest within direct. */
  lemma {:induction false} ValueEnclosed(p: Problem, w: Witness, i: nat, z: Vector, d: Vector)
    requires WellFormed(p, w) && ShapeHolds(w) && w.radius >= 0.0 && i < |p.constraints| && DualHolds(p, w, i)
    requires WithinLevel(w.shape, w.equilibrium, w.radius * w.radius, z) && WithinBounds(d, p.bounds)
    ensures var r := ConstraintInterval(p, w, i); r.lower <= Value(p.constraints[i], z, d) <= r.upper
  {
    hide Dot, Quadratic, PositiveDefinite, IsSymmetric, DualBound, NormBounds, Absolute;
    var c := p.constraints[i];
    RowRange(w.shape, c.stateRow, w.xi[i], w.radius, VectorSubtract(z, w.equilibrium));
    DirectBound(c.disturbanceRow, d, p.bounds);
    SplitState(c.stateRow, z, w.equilibrium);
    SumWithin(Dot(c.stateRow, w.equilibrium) + c.offset, Dot(c.stateRow, VectorSubtract(z, w.equilibrium)),
              Dot(c.disturbanceRow, d), w.radius, w.xi[i], Dot(Absolute(c.disturbanceRow), p.bounds));
  }

  lemma {:induction false} SumWithin(center: real, state: real, noise: real, radius: real, dual: real, direct: real)
    requires -(radius * dual) <= state <= radius * dual && -direct <= noise <= direct
    ensures var r := ProjectionInterval(center, radius, dual, direct); r.lower <= center + state + noise <= r.upper
  {
    var product := radius * dual;
    assert -product <= state <= product;
  }

  /** Each constraint interval encloses every value the constraint can take. */
  lemma {:induction false} ConstraintEnclosed(p: Problem, w: Witness, i: nat)
    requires WellFormed(p, w) && ShapeHolds(w) && w.radius >= 0.0 && i < |p.constraints| && DualHolds(p, w, i)
    ensures EnclosesValues(p, w, i, ConstraintInterval(p, w, i))
  {
    hide ShapeHolds, DualHolds, ConstraintInterval;
    forall z, d | WithinLevel(w.shape, w.equilibrium, w.radius * w.radius, z) && WithinBounds(d, p.bounds)
      ensures var r := ConstraintInterval(p, w, i); r.lower <= Value(p.constraints[i], z, d) <= r.upper
    {
      ValueEnclosed(p, w, i, z, d);
    }
  }

  lemma {:induction false} EllipsoidIsSafe(p: Problem, w: Witness, i: nat, z: Vector, d: Vector)
    requires WellFormed(p, w) && Certificate(p, w) && i < |p.constraints| && WithinBounds(d, p.bounds)
    requires WithinLevel(w.shape, w.equilibrium, w.radius * w.radius, z)
    ensures Satisfies(p.constraints[i], z, d)
    ensures var r := ConstraintInterval(p, w, i); r.lower <= Value(p.constraints[i], z, d) <= r.upper
  {
    hide Dot, Quadratic, ShapeHolds, Contracts, DualHolds, ConstraintInterval, Value, BoxInside, StillPoint, Possible;
    assert ConstraintMet(p, w, i);
    ConstraintMeaning(p, w, i);
    hide ConstraintMet, RadiusMet, DisturbanceMet;
    ValueEnclosed(p, w, i, z, d);
  }

  lemma {:induction false} SplitState(row: Vector, z: Vector, e: Vector)
    requires |row| == |z| == |e|
    ensures Dot(row, z) == Dot(row, e) + Dot(row, VectorSubtract(z, e))
  {
    hide Dot;
    assert VectorSubtract(z, e) == Combine(1.0, z, -1.0, e);
    DotCombine(row, 1.0, z, -1.0, e);
  }

  /** A certified problem: every run, under every disturbance, at every time, is inside and safe, and no constraint
      leaves its reported interval. */
  lemma {:induction false} CertifiedRunsAreSafe(p: Problem, w: Witness, zs: seq<Vector>, ws: seq<Vector>, k: nat)
    requires WellFormed(p, w) && Certificate(p, w) && IsRun(p, zs, ws) && k < |zs|
    ensures WithinLevel(w.shape, w.equilibrium, w.radius * w.radius, zs[k])
    ensures forall i, d :: 0 <= i < |p.constraints| && WithinBounds(d, p.bounds) ==>
      Satisfies(p.constraints[i], zs[k], d)
    ensures forall i, d :: 0 <= i < |p.constraints| && WithinBounds(d, p.bounds) ==>
      var r := ConstraintInterval(p, w, i); r.lower <= Value(p.constraints[i], zs[k], d) <= r.upper
    decreases k
  {
    hide Quadratic, PositiveDefinite, IsSymmetric, Contracts, ConstraintMet, StillPoint, DisturbanceMet, RadiusMet,
      Value, ConstraintInterval;
    if k > 0 {
      CertifiedRunsAreSafe(p, w, zs, ws, k - 1);
      StepStaysInside(p, w, zs[k - 1], ws[k - 1]);
    }
    forall i, d | 0 <= i < |p.constraints| && WithinBounds(d, p.bounds)
      ensures Satisfies(p.constraints[i], zs[k], d)
      ensures var r := ConstraintInterval(p, w, i); r.lower <= Value(p.constraints[i], zs[k], d) <= r.upper
    {
      EllipsoidIsSafe(p, w, i, zs[k], d);
    }
  }
}
