/** Barycentric and Cartesian coordinates of a point with respect to a
    triangle, and the point-in-triangle test built on them.

    A triangle is given, as in the Python code, as a 2x3 matrix: row 0 holds
    x1, x2, x3 and row 1 holds y1, y2, y3. Matrices and vectors are sequences
    of reals, so that inputs of the wrong shape stay observable. Arithmetic is
    exact: "singular" means that the determinant is exactly zero. */
module Barycentric {

  /** The Python exceptions the three functions can raise. */
  datatype Exception =
    | ValueError   // unpacking a point without two entries; matmul shape mismatch
    | LinAlgError  // np.linalg.solve on a singular system
    | TypeError    // comparing None with 0

  /** What a Python call does: return a value, return None, or raise. */
  datatype Outcome<T> = Return(value: T) | ReturnNone | Raise(error: Exception)

  /** The shape test `triangle_coordinates.shape == (2, 3)`. */
  predicate Is2x3(t: seq<seq<real>>) {
    |t| == 2 && |t[0]| == 3 && |t[1]| == 3
  }

  /** Determinant of the 2x2 system that takes vertex 3 as the reference:
      (x1-x3)(y2-y3) - (x2-x3)(y1-y3). It is twice the signed area of the
      triangle, so it is zero exactly when the three vertices are collinear. */
  function Det(t: seq<seq<real>>): real
    requires Is2x3(t)
  {
    (t[0][0] - t[0][2]) * (t[1][1] - t[1][2]) - (t[0][1] - t[0][2]) * (t[1][0] - t[1][2])
  }

  /** Vertex i (0-based) of the triangle, as a point [x, y]. */
  function Vertex(t: seq<seq<real>>, i: nat): (v: seq<real>)
    requires Is2x3(t) && i < 3
    ensures |v| == 2
  {
    [t[0][i], t[1][i]]
  }

  /** The sum of the three entries of a coordinate triple. */
  function Total(l: seq<real>): real
    requires |l| == 3
  {
    l[0] + l[1] + l[2]
  }

  /** The test `np.all(barycentric_point >= 0)`. */
  predicate AllNonNegative(l: seq<real>) {
    forall i :: 0 <= i < |l| ==> l[i] >= 0.0
  }

  /** Solution of the 2x2 system [a b; c d] [u; v] = [e; g] by Cramer's rule,
      which stands for np.linalg.solve on a nonsingular system. */
  lemma Cramer(a: real, b: real, c: real, d: real, e: real, g: real)
    requires a * d - b * c != 0.0
    ensures a * ((e * d - b * g) / (a * d - b * c)) + b * ((a * g - e * c) / (a * d - b * c)) == e
    ensures c * ((e * d - b * g) / (a * d - b * c)) + d * ((a * g - e * c) / (a * d - b * c)) == g
  {
    var det := a * d - b * c;
    var u, v := (e * d - b * g) / det, (a * g - e * c) / det;
    assert u * det == e * d - b * g;
    assert v * det == a * g - e * c;
    assert (a * u + b * v) * det == e * det;
    assert (c * u + d * v) * det == g * det;
  }

  /** A nonsingular 2x2 system has at most one solution. */
  lemma CramerUnique(a: real, b: real, c: real, d: real, u: real, v: real, u': real, v': real)
    requires a * d - b * c != 0.0
    requires a * u + b * v == a * u' + b * v'
    requires c * u + d * v == c * u' + d * v'
    ensures u == u' && v == v'
  {
    var du, dv := u - u', v - v';
    assert a * du + b * dv == 0.0;
    assert c * du + d * dv == 0.0;
    assert (a * d - b * c) * du == d * (a * du + b * dv) - b * (c * du + d * dv);
    assert (a * d - b * c) * dv == a * (c * du + d * dv) - c * (a * du + b * dv);
  }

  /** get_barycentric_coordinates: the coordinates (l1, l2, l3) of point p.
      Anything but a 2x3 matrix gives None; a point that does not unpack into
      two values raises ValueError; a singular system raises LinAlgError.
      Otherwise l1 and l2 solve the system with vertex 3 as reference and
      l3 = 1 - (l1 + l2). */
  function GetBarycentric(t: seq<seq<real>>, p: seq<real>): (r: Outcome<seq<real>>)
    ensures r == ReturnNone <==> !Is2x3(t)
    ensures r == Raise(ValueError) <==> Is2x3(t) && |p| != 2
    ensures r == Raise(LinAlgError) <==> Is2x3(t) && |p| == 2 && Det(t) == 0.0
    ensures r.Return? <==> Is2x3(t) && |p| == 2 && Det(t) != 0.0
    ensures r.Return? ==> |r.value| == 3
    ensures r.Return? ==> Total(r.value) == 1.0
    ensures r.Return? ==>
              && (t[0][0] - t[0][2]) * r.value[0] + (t[0][1] - t[0][2]) * r.value[1] == p[0] - t[0][2]
              && (t[1][0] - t[1][2]) * r.value[0] + (t[1][1] - t[1][2]) * r.value[1] == p[1] - t[1][2]
  {
    if !Is2x3(t) then ReturnNone
    else if |p| != 2 then Raise(ValueError)
    else
      var x1, x2, x3 := t[0][0], t[0][1], t[0][2];
      var y1, y2, y3 := t[1][0], t[1][1], t[1][2];
      var x, y := p[0], p[1];
      var a, b, c, d := x1 - x3, x2 - x3, y1 - y3, y2 - y3;
      var e, g := x - x3, y - y3;
      var det := a * d - b * c;
      if det == 0.0 then Raise(LinAlgError)
      else
        var lambda1 := (e * d - b * g) / det;
        var lambda2 := (a * g - e * c) / det;
        Cramer(a, b, c, d, e, g);
        Return([lambda1, lambda2, 1.0 - (lambda1 + lambda2)])
  }

  /** Dot product of one matrix row with a vector. */
  function Dot(row: seq<real>, v: seq<real>): real
    requires |row| == |v|
  {
    if |row| == 0 then 0.0 else row[0] * v[0] + Dot(row[1..], v[1..])
  }

  /** The dot product of two triples, written out. */
  lemma Dot3(row: seq<real>, v: seq<real>)
    requires |row| == 3 && |v| == 3
    ensures Dot(row, v) == v[0] * row[0] + v[1] * row[1] + v[2] * row[2]
  {
    assert Dot(row[2..], v[2..]) == row[2] * v[2] + Dot(row[3..], v[3..]);
    assert Dot(row[1..], v[1..]) == row[1] * v[1] + Dot(row[2..], v[2..]);
  }

  /** np.matmul of a matrix (a non-empty sequence of rows) with a vector:
      one dot product per row, or ValueError when a row's length differs
      from the vector's. A list with no rows is a one-dimensional array of
      length 0, whose product with a non-empty vector raises ValueError. */
  function MatMul(m: seq<seq<real>>, v: seq<real>): (r: Outcome<seq<real>>)
    ensures r.Return? || r == Raise(ValueError)
    ensures r.Return? <==> 0 < |m| && forall i :: 0 <= i < |m| ==> |m[i]| == |v|
    ensures r.Return? ==> |r.value| == |m|
    ensures r.Return? ==> forall i :: 0 <= i < |m| ==> r.value[i] == Dot(m[i], v)
  {
    if 0 < |m| && forall i :: 0 <= i < |m| ==> |m[i]| == |v| then
      Return(seq(|m|, i requires 0 <= i < |m| => Dot(m[i], v)))
    else
      Raise(ValueError)
  }

  /** get_cartesian_coordinates: the matrix of vertices times the coefficient
      vector. For a 2x3 triangle and three coefficients this is the point
      (l1 x1 + l2 x2 + l3 x3, l1 y1 + l2 y2 + l3 y3), whatever the
      coefficients sum to. */
  function GetCartesian(t: seq<seq<real>>, l: seq<real>): (r: Outcome<seq<real>>)
    ensures Is2x3(t) && |l| == 3 ==>
              r == Return([l[0] * t[0][0] + l[1] * t[0][1] + l[2] * t[0][2],
                           l[0] * t[1][0] + l[1] * t[1][1] + l[2] * t[1][2]])
    ensures Is2x3(t) && |l| != 3 ==> r == Raise(ValueError)
  {
    if Is2x3(t) && |l| == 3 then
      Dot3(t[0], l);
      Dot3(t[1], l);
      assert forall i :: 0 <= i < |t| ==> |t[i]| == |l|;
      var r := MatMul(t, l);
      assert r.value == [Dot(t[0], l), Dot(t[1], l)];
      assert Dot(t[0], l) == l[0] * t[0][0] + l[1] * t[0][1] + l[2] * t[0][2];
      assert Dot(t[1], l) == l[0] * t[1][0] + l[1] * t[1][1] + l[2] * t[1][2];
      r
    else
      MatMul(t, l)
  }

  /** is_inside_triangle: true exactly when all three barycentric coordinates
      are at least zero, so vertices and edges count as inside. When the
      conversion returns None the comparison `None >= 0` raises TypeError;
      when it raises, the exception propagates. */
  function IsInsideTriangle(t: seq<seq<real>>, p: seq<real>): (r: Outcome<bool>)
    ensures !Is2x3(t) ==> r == Raise(TypeError)
    ensures Is2x3(t) && |p| != 2 ==> r == Raise(ValueError)
    ensures Is2x3(t) && |p| == 2 && Det(t) == 0.0 ==> r == Raise(LinAlgError)
    ensures r.Return? <==> GetBarycentric(t, p).Return?
    ensures r.Return? ==> (r.value <==> forall i :: 0 <= i < 3 ==> GetBarycentric(t, p).value[i] >= 0.0)
  {
    match GetBarycentric(t, p)
    case ReturnNone => Raise(TypeError)
    case Raise(e) => Raise(e)
    case Return(l) => Return(AllNonNegative(l))
  }

  /** Round trip: converting a point to barycentric coordinates and back
      gives the point again. */
  lemma CartesianOfBarycentric(t: seq<seq<real>>, p: seq<real>)
    requires Is2x3(t) && |p| == 2 && Det(t) != 0.0
    ensures GetBarycentric(t, p).Return?
    ensures GetCartesian(t, GetBarycentric(t, p).value) == Return(p)
  {
    var l := GetBarycentric(t, p).value;
    var q := GetCartesian(t, l).value;
    assert l[2] == 1.0 - (l[0] + l[1]);
    assert q[0] == t[0][2] + (t[0][0] - t[0][2]) * l[0] + (t[0][1] - t[0][2]) * l[1];
    assert q[1] == t[1][2] + (t[1][0] - t[1][2]) * l[0] + (t[1][1] - t[1][2]) * l[1];
    assert |q| == 2 && q[0] == p[0] && q[1] == p[1];
    assert q == p;
    assert GetCartesian(t, l) == Return(q);
  }

  /** The other direction: a coefficient triple that sums to 1 is recovered
      from the point it describes. So on a nonsingular triangle the two
      conversions are inverse bijections between points and such triples. */
  lemma BarycentricOfCartesian(t: seq<seq<real>>, l: seq<real>)
    requires Is2x3(t) && Det(t) != 0.0 && |l| == 3 && Total(l) == 1.0
    ensures GetCartesian(t, l).Return?
    ensures GetBarycentric(t, GetCartesian(t, l).value) == Return(l)
  {
    var p := GetCartesian(t, l).value;
    var m := GetBarycentric(t, p).value;
    var a, b := t[0][0] - t[0][2], t[0][1] - t[0][2];
    var c, d := t[1][0] - t[1][2], t[1][1] - t[1][2];
    assert a * l[0] + b * l[1] == p[0] - t[0][2];
    assert c * l[0] + d * l[1] == p[1] - t[1][2];
    CramerUnique(a, b, c, d, l[0], l[1], m[0], m[1]);
    assert m == l;
  }

  /** The standard basis vector with 1 in position i. */
  function Basis(i: nat): (e: seq<real>)
    requires i < 3
    ensures |e| == 3 && Total(e) == 1.0
  {
    seq(3, j requires 0 <= j < 3 => if j == i then 1.0 else 0.0)
  }

  /** Vertex i has the coordinates 1 at position i and 0 elsewhere. */
  lemma VertexIsBasis(t: seq<seq<real>>, i: nat)
    requires Is2x3(t) && Det(t) != 0.0 && i < 3
    ensures GetBarycentric(t, Vertex(t, i)) == Return(Basis(i))
  {
    BarycentricOfCartesian(t, Basis(i));
    assert GetCartesian(t, Basis(i)) == Return(Vertex(t, i));
  }

  /** The centroid has the coordinates (1/3, 1/3, 1/3). */
  lemma CentroidCoordinates(t: seq<seq<real>>)
    requires Is2x3(t) && Det(t) != 0.0
    ensures GetBarycentric(t, [(t[0][0] + t[0][1] + t[0][2]) / 3.0, (t[1][0] + t[1][1] + t[1][2]) / 3.0])
            == Return([1.0 / 3.0, 1.0 / 3.0, 1.0 / 3.0])
  {
    var third := [1.0 / 3.0, 1.0 / 3.0, 1.0 / 3.0];
    BarycentricOfCartesian(t, third);
    var p := GetCartesian(t, third).value;
    assert p[0] == (t[0][0] + t[0][1] + t[0][2]) / 3.0;
    assert p[1] == (t[1][0] + t[1][1] + t[1][2]) / 3.0;
    assert p == [(t[0][0] + t[0][1] + t[0][2]) / 3.0, (t[1][0] + t[1][1] + t[1][2]) / 3.0];
  }

  /** A point given by coefficients that sum to 1 is inside exactly when no
      coefficient is negative: convex combinations, including the vertices
      and the points on the edges, are inside and every other point is not. */
  lemma InsideIffConvexCombination(t: seq<seq<real>>, l: seq<real>)
    requires Is2x3(t) && Det(t) != 0.0 && |l| == 3 && Total(l) == 1.0
    ensures GetCartesian(t, l).Return?
    ensures IsInsideTriangle(t, GetCartesian(t, l).value) == Return(AllNonNegative(l))
  {
    BarycentricOfCartesian(t, l);
  }

  /** Every vertex counts as inside: the test uses >= 0, not > 0. */
  lemma VertexIsInside(t: seq<seq<real>>, i: nat)
    requires Is2x3(t) && Det(t) != 0.0 && i < 3
    ensures IsInsideTriangle(t, Vertex(t, i)) == Return(true)
  {
    VertexIsBasis(t, i);
  }

  /** The triangle with collinear vertices (0,0), (1,1), (2,2) raises
      LinAlgError for every point. */
  lemma CollinearRaises(p: seq<real>)
    requires |p| == 2
    ensures GetBarycentric([[0.0, 1.0, 2.0], [0.0, 1.0, 2.0]], p) == Raise(LinAlgError)
    ensures IsInsideTriangle([[0.0, 1.0, 2.0], [0.0, 1.0, 2.0]], p) == Raise(LinAlgError)
  {
  }
}
