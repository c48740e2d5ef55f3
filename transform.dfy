/** The rigid transform between standard mirror coordinates and metrology
    coordinates (compose_transformation_matrix, python/xmf/layer_02_generation.py).

    The 4x4 matrix [[R, t], [0, 0, 0, 1]] is kept as its rotation block and
    translation column; Rows shows it as the 4x4 array numpy builds. Sines
    and cosines of the three angles are values of the given Lib functions. */
module Transform {
  import opened Numerics

  datatype Vec3 = Vec3(x: real, y: real, z: real)

  /** A 3x3 matrix, row by row. */
  datatype Mat3 = Mat3(a: real, b: real, c: real,
                       d: real, e: real, f: real,
                       g: real, h: real, i: real)

  /** The homogeneous matrix [[r, t], [0, 0, 0, 1]]. */
  datatype Affine = Affine(r: Mat3, t: Vec3)

  const Identity3: Mat3 := Mat3(1.0, 0.0, 0.0, 0.0, 1.0, 0.0, 0.0, 0.0, 1.0)

  function Dot(u1: real, u2: real, u3: real, w1: real, w2: real, w3: real): real
  {
    u1 * w1 + u2 * w2 + u3 * w3
  }

  function Mul(m: Mat3, n: Mat3): Mat3
  {
    Mat3(Dot(m.a, m.b, m.c, n.a, n.d, n.g), Dot(m.a, m.b, m.c, n.b, n.e, n.h), Dot(m.a, m.b, m.c, n.c, n.f, n.i),
         Dot(m.d, m.e, m.f, n.a, n.d, n.g), Dot(m.d, m.e, m.f, n.b, n.e, n.h), Dot(m.d, m.e, m.f, n.c, n.f, n.i),
         Dot(m.g, m.h, m.i, n.a, n.d, n.g), Dot(m.g, m.h, m.i, n.b, n.e, n.h), Dot(m.g, m.h, m.i, n.c, n.f, n.i))
  }

  function Transpose(m: Mat3): Mat3
  {
    Mat3(m.a, m.d, m.g, m.b, m.e, m.h, m.c, m.f, m.i)
  }

  function MulVec(m: Mat3, v: Vec3): Vec3
  {
    Vec3(Dot(m.a, m.b, m.c, v.x, v.y, v.z),
         Dot(m.d, m.e, m.f, v.x, v.y, v.z),
         Dot(m.g, m.h, m.i, v.x, v.y, v.z))
  }

  function Add(u: Vec3, v: Vec3): Vec3
  {
    Vec3(u.x + v.x, u.y + v.y, u.z + v.z)
  }

  function Neg(v: Vec3): Vec3
  {
    Vec3(-v.x, -v.y, -v.z)
  }

  /** Rotation about x by an angle with sine s and cosine c. */
  function RotX(s: real, c: real): (r: Mat3)
    ensures MulVec(r, Vec3(1.0, 0.0, 0.0)) == Vec3(1.0, 0.0, 0.0)
    ensures s == 0.0 && c == 1.0 ==> r == Identity3
  {
    Mat3(1.0, 0.0, 0.0, 0.0, c, -s, 0.0, s, c)
  }

  function RotY(s: real, c: real): (r: Mat3)
    ensures MulVec(r, Vec3(0.0, 1.0, 0.0)) == Vec3(0.0, 1.0, 0.0)
    ensures s == 0.0 && c == 1.0 ==> r == Identity3
  {
    Mat3(c, 0.0, s, 0.0, 1.0, 0.0, -s, 0.0, c)
  }

  function RotZ(s: real, c: real): (r: Mat3)
    ensures MulVec(r, Vec3(0.0, 0.0, 1.0)) == Vec3(0.0, 0.0, 1.0)
    ensures s == 0.0 && c == 1.0 ==> r == Identity3
  {
    Mat3(c, -s, 0.0, s, c, 0.0, 0.0, 0.0, 1.0)
  }

  /** compose_transformation_matrix: R = Rz(gamma) Ry(beta) Rx(alpha) and the
      translation column (x_i, y_i, z_i). */
  function ComposeTransformationMatrix(lib: Lib, alpha: real, beta: real, gamma: real,
                                       xi: real, yi: real, zi: real): (T: Affine)
    ensures T.r == Mul(Mul(RotZ(lib.sin(gamma), lib.cos(gamma)), RotY(lib.sin(beta), lib.cos(beta))),
                       RotX(lib.sin(alpha), lib.cos(alpha)))
    ensures Apply(T, Vec3(0.0, 0.0, 0.0)) == Vec3(xi, yi, zi)
    ensures var rows := Rows(T);
      rows[3] == [0.0, 0.0, 0.0, 1.0] && rows[0][3] == xi && rows[1][3] == yi && rows[2][3] == zi
  {
    var R := Mul(Mul(RotZ(lib.sin(gamma), lib.cos(gamma)), RotY(lib.sin(beta), lib.cos(beta))),
                 RotX(lib.sin(alpha), lib.cos(alpha)));
    Affine(R, Vec3(xi, yi, zi))
  }

  /** The 4x4 array numpy stacks: rotation block, translation column, and
      the bottom row [0, 0, 0, 1]. */
  function Rows(T: Affine): (rows: seq<seq<real>>)
    ensures |rows| == 4 && forall k :: 0 <= k < 4 ==> |rows[k]| == 4
  {
    [[T.r.a, T.r.b, T.r.c, T.t.x],
     [T.r.d, T.r.e, T.r.f, T.t.y],
     [T.r.g, T.r.h, T.r.i, T.t.z],
     [0.0, 0.0, 0.0, 1.0]]
  }

  /** T applied to the homogeneous point (v, 1): R v + t. */
  function Apply(T: Affine, v: Vec3): Vec3
  {
    Add(MulVec(T.r, v), T.t)
  }

  predicate Orthonormal(m: Mat3)
  {
    Mul(Transpose(m), m) == Identity3 && Mul(m, Transpose(m)) == Identity3
  }

  /** sin^2 + cos^2 = 1 at an angle, the one fact about the given functions
      the rotation needs. */
  predicate Pythagorean(lib: Lib, angle: real)
  {
    lib.sin(angle) * lib.sin(angle) + lib.cos(angle) * lib.cos(angle) == 1.0
  }

  /** One entry of the associativity law: row u times (n times column w). */
  lemma EntryAssoc(u1: real, u2: real, u3: real,
                   n1: real, n2: real, n3: real, n4: real, n5: real, n6: real, n7: real, n8: real, n9: real,
                   w1: real, w2: real, w3: real)
    ensures Dot(Dot(u1, u2, u3, n1, n4, n7), Dot(u1, u2, u3, n2, n5, n8), Dot(u1, u2, u3, n3, n6, n9), w1, w2, w3)
         == Dot(u1, u2, u3, Dot(n1, n2, n3, w1, w2, w3), Dot(n4, n5, n6, w1, w2, w3), Dot(n7, n8, n9, w1, w2, w3))
  {
  }

  lemma MulAssoc(m: Mat3, n: Mat3, k: Mat3)
    ensures Mul(Mul(m, n), k) == Mul(m, Mul(n, k))
  {
    EntryAssoc(m.a, m.b, m.c, n.a, n.b, n.c, n.d, n.e, n.f, n.g, n.h, n.i, k.a, k.d, k.g);
    EntryAssoc(m.a, m.b, m.c, n.a, n.b, n.c, n.d, n.e, n.f, n.g, n.h, n.i, k.b, k.e, k.h);
    EntryAssoc(m.a, m.b, m.c, n.a, n.b, n.c, n.d, n.e, n.f, n.g, n.h, n.i, k.c, k.f, k.i);
    EntryAssoc(m.d, m.e, m.f, n.a, n.b, n.c, n.d, n.e, n.f, n.g, n.h, n.i, k.a, k.d, k.g);
    EntryAssoc(m.d, m.e, m.f, n.a, n.b, n.c, n.d, n.e, n.f, n.g, n.h, n.i, k.b, k.e, k.h);
    EntryAssoc(m.d, m.e, m.f, n.a, n.b, n.c, n.d, n.e, n.f, n.g, n.h, n.i, k.c, k.f, k.i);
    EntryAssoc(m.g, m.h, m.i, n.a, n.b, n.c, n.d, n.e, n.f, n.g, n.h, n.i, k.a, k.d, k.g);
    EntryAssoc(m.g, m.h, m.i, n.a, n.b, n.c, n.d, n.e, n.f, n.g, n.h, n.i, k.b, k.e, k.h);
    EntryAssoc(m.g, m.h, m.i, n.a, n.b, n.c, n.d, n.e, n.f, n.g, n.h, n.i, k.c, k.f, k.i);
  }

  lemma MulIdentity(m: Mat3)
    ensures Mul(Identity3, m) == m && Mul(m, Identity3) == m
  {
  }

  lemma TransposeMul(m: Mat3, n: Mat3)
    ensures Transpose(Mul(m, n)) == Mul(Transpose(n), Transpose(m))
  {
  }

  lemma RotationsOrthonormal(s: real, c: real)
    requires s * s + c * c == 1.0
    ensures Orthonormal(RotX(s, c)) && Orthonormal(RotY(s, c)) && Orthonormal(RotZ(s, c))
  {
    var u := c * c + s * s;
    assert u == 1.0;
    assert Mul(Transpose(RotX(s, c)), RotX(s, c)) == Mat3(1.0, 0.0, 0.0, 0.0, u, 0.0, 0.0, 0.0, u);
    assert Mul(RotX(s, c), Transpose(RotX(s, c))) == Mat3(1.0, 0.0, 0.0, 0.0, u, 0.0, 0.0, 0.0, u);
    assert Mul(Transpose(RotY(s, c)), RotY(s, c)) == Mat3(u, 0.0, 0.0, 0.0, 1.0, 0.0, 0.0, 0.0, u);
    assert Mul(RotY(s, c), Transpose(RotY(s, c))) == Mat3(u, 0.0, 0.0, 0.0, 1.0, 0.0, 0.0, 0.0, u);
    assert Mul(Transpose(RotZ(s, c)), RotZ(s, c)) == Mat3(u, 0.0, 0.0, 0.0, u, 0.0, 0.0, 0.0, 1.0);
    assert Mul(RotZ(s, c), Transpose(RotZ(s, c))) == Mat3(u, 0.0, 0.0, 0.0, u, 0.0, 0.0, 0.0, 1.0);
  }

  /** The product of two orthonormal matrices is orthonormal. */
  lemma OrthonormalProduct(m: Mat3, n: Mat3)
    requires Orthonormal(m) && Orthonormal(n)
    ensures Orthonormal(Mul(m, n))
  {
    var mn := Mul(m, n);
    TransposeMul(m, n);
    calc {
      Mul(Transpose(mn), mn);
      Mul(Mul(Transpose(n), Transpose(m)), Mul(m, n));
      { MulAssoc(Transpose(n), Transpose(m), Mul(m, n)); }
      Mul(Transpose(n), Mul(Transpose(m), Mul(m, n)));
      { MulAssoc(Transpose(m), m, n); }
      Mul(Transpose(n), Mul(Mul(Transpose(m), m), n));
      { MulIdentity(n); }
      Mul(Transpose(n), n);
      Identity3;
    }
    calc {
      Mul(mn, Transpose(mn));
      Mul(Mul(m, n), Mul(Transpose(n), Transpose(m)));
      { MulAssoc(m, n, Mul(Transpose(n), Transpose(m))); }
      Mul(m, Mul(n, Mul(Transpose(n), Transpose(m))));
      { MulAssoc(n, Transpose(n), Transpose(m)); }
      Mul(m, Mul(Mul(n, Transpose(n)), Transpose(m)));
      { MulIdentity(Transpose(m)); }
      Mul(m, Transpose(m));
      Identity3;
    }
  }

  /** Given sin^2 + cos^2 = 1 for each angle, the composed rotation block is
      orthonormal, so the transform is invertible. */
  lemma ComposedRotationOrthonormal(lib: Lib, alpha: real, beta: real, gamma: real,
                                    xi: real, yi: real, zi: real)
    requires Pythagorean(lib, alpha) && Pythagorean(lib, beta) && Pythagorean(lib, gamma)
    ensures Orthonormal(ComposeTransformationMatrix(lib, alpha, beta, gamma, xi, yi, zi).r)
  {
    RotationsOrthonormal(lib.sin(alpha), lib.cos(alpha));
    RotationsOrthonormal(lib.sin(beta), lib.cos(beta));
    RotationsOrthonormal(lib.sin(gamma), lib.cos(gamma));
    var rz := RotZ(lib.sin(gamma), lib.cos(gamma));
    var ry := RotY(lib.sin(beta), lib.cos(beta));
    var rx := RotX(lib.sin(alpha), lib.cos(alpha));
    OrthonormalProduct(rz, ry);
    OrthonormalProduct(Mul(rz, ry), rx);
  }

  /** The inverse of a rigid transform: [[R^T, -R^T t], [0, 0, 0, 1]]. */
  function RigidInverse(T: Affine): Affine
  {
    Affine(Transpose(T.r), Neg(MulVec(Transpose(T.r), T.t)))
  }

  lemma MulVecAdd(m: Mat3, u: Vec3, v: Vec3)
    ensures MulVec(m, Add(u, v)) == Add(MulVec(m, u), MulVec(m, v))
  {
  }

  lemma MulVecMul(m: Mat3, n: Mat3, v: Vec3)
    ensures MulVec(Mul(m, n), v) == MulVec(m, MulVec(n, v))
  {
    EntryAssoc(m.a, m.b, m.c, n.a, n.b, n.c, n.d, n.e, n.f, n.g, n.h, n.i, v.x, v.y, v.z);
    EntryAssoc(m.d, m.e, m.f, n.a, n.b, n.c, n.d, n.e, n.f, n.g, n.h, n.i, v.x, v.y, v.z);
    EntryAssoc(m.g, m.h, m.i, n.a, n.b, n.c, n.d, n.e, n.f, n.g, n.h, n.i, v.x, v.y, v.z);
  }

  lemma MulVecIdentity(v: Vec3)
    ensures MulVec(Identity3, v) == v
  {
  }

  /** For an orthonormal rotation block the rigid inverse undoes T from both
      sides: it is the matrix inverse the generation loop relies on. */
  lemma RigidInverseInverts(T: Affine, v: Vec3)
    requires Orthonormal(T.r)
    ensures Apply(RigidInverse(T), Apply(T, v)) == v
    ensures Apply(T, Apply(RigidInverse(T), v)) == v
  {
    var rt := Transpose(T.r);
    calc {
      Apply(RigidInverse(T), Apply(T, v));
      Add(MulVec(rt, Add(MulVec(T.r, v), T.t)), Neg(MulVec(rt, T.t)));
      { MulVecAdd(rt, MulVec(T.r, v), T.t); }
      Add(Add(MulVec(rt, MulVec(T.r, v)), MulVec(rt, T.t)), Neg(MulVec(rt, T.t)));
      MulVec(rt, MulVec(T.r, v));
      { MulVecMul(rt, T.r, v); }
      MulVec(Mul(rt, T.r), v);
      { MulVecIdentity(v); }
      v;
    }
    calc {
      Apply(T, Apply(RigidInverse(T), v));
      Add(MulVec(T.r, Add(MulVec(rt, v), Neg(MulVec(rt, T.t)))), T.t);
      { MulVecAdd(T.r, MulVec(rt, v), Neg(MulVec(rt, T.t))); }
      Add(Add(MulVec(T.r, MulVec(rt, v)), MulVec(T.r, Neg(MulVec(rt, T.t)))), T.t);
      { MulVecMul(T.r, rt, v); MulVecMul(T.r, rt, T.t); MulVecIdentity(v); MulVecIdentity(T.t); }
      v;
    }
  }
}
