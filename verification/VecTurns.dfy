/** The product of quaternions is the composition of turns. */
module VecTurns {
  import opened VecMath

  // The first row of the matrix of a unit quaternion, with its length kept in: a form of degree two.

  function RowA(x: real, y: real, z: real, w: real): real {
    x * x + w * w - y * y - z * z
  }

  function RowB(x: real, y: real, z: real, w: real): real {
    (x * y - z * w) * 2.0
  }

  function RowC(x: real, y: real, z: real, w: real): real {
    (z * x + y * w) * 2.0
  }

  function Row(q: Quaternion): Vec3 {
    Vec3(RowA(q.x, q.y, q.z, q.w), RowB(q.x, q.y, q.z, q.w), RowC(q.x, q.y, q.z, q.w))
  }

  lemma TimesA(x: real, y: real, z: real, w: real, p: real, q: real, r: real, s: real)
    ensures RowA(x * s + y * r - z * q + w * p, -x * r + y * s + z * p + w * q,
                 x * q - y * p + z * s + w * r, -x * p - y * q - z * r + w * s)
         == RowA(x, y, z, w) * RowA(p, q, r, s) + RowB(x, y, z, w) * RowC(q, r, p, s)
          + RowC(x, y, z, w) * RowB(r, p, q, s)
  {
  }

  lemma TimesB(x: real, y: real, z: real, w: real, p: real, q: real, r: real, s: real)
    ensures RowB(x * s + y * r - z * q + w * p, -x * r + y * s + z * p + w * q,
                 x * q - y * p + z * s + w * r, -x * p - y * q - z * r + w * s)
         == RowA(x, y, z, w) * RowB(p, q, r, s) + RowB(x, y, z, w) * RowA(q, r, p, s)
          + RowC(x, y, z, w) * RowC(r, p, q, s)
  {
  }

  lemma TimesC(x: real, y: real, z: real, w: real, p: real, q: real, r: real, s: real)
    ensures RowC(x * s + y * r - z * q + w * p, -x * r + y * s + z * p + w * q,
                 x * q - y * p + z * s + w * r, -x * p - y * q - z * r + w * s)
         == RowA(x, y, z, w) * RowC(p, q, r, s) + RowB(x, y, z, w) * RowB(q, r, p, s)
          + RowC(x, y, z, w) * RowA(r, p, q, s)
  {
  }

  /** A row of a product of matrices, applied to a vector. */
  lemma RowOfProduct(k: real, l: real, m: real, a1: real, b1: real, c1: real, a2: real, b2: real, c2: real,
                     a3: real, b3: real, c3: real, a: real, b: real, c: real)
    ensures (k * a1 + l * c2 + m * b3) * a + (k * b1 + l * a2 + m * c3) * b + (k * c1 + l * b2 + m * a3) * c
         == k * (a1 * a + b1 * b + c1 * c) + l * (a2 * b + b2 * c + c2 * a) + m * (a3 * c + b3 * a + c3 * b)
  {
  }

  lemma TimesRowA(x: real, y: real, z: real, w: real, p: real, q: real, r: real, s: real, t: Quaternion)
    requires t.x == x * s + y * r - z * q + w * p && t.y == -x * r + y * s + z * p + w * q
    requires t.z == x * q - y * p + z * s + w * r && t.w == -x * p - y * q - z * r + w * s
    ensures RowA(t.x, t.y, t.z, t.w)
         == RowA(x, y, z, w) * RowA(p, q, r, s) + RowB(x, y, z, w) * RowC(q, r, p, s)
          + RowC(x, y, z, w) * RowB(r, p, q, s)
  {
    TimesA(x, y, z, w, p, q, r, s);
    assert RowA(t.x, t.y, t.z, t.w)
        == RowA(x * s + y * r - z * q + w * p, -x * r + y * s + z * p + w * q,
                x * q - y * p + z * s + w * r, -x * p - y * q - z * r + w * s);
  }

  lemma TimesRowB(x: real, y: real, z: real, w: real, p: real, q: real, r: real, s: real, t: Quaternion)
    requires t.x == x * s + y * r - z * q + w * p && t.y == -x * r + y * s + z * p + w * q
    requires t.z == x * q - y * p + z * s + w * r && t.w == -x * p - y * q - z * r + w * s
    ensures RowB(t.x, t.y, t.z, t.w)
         == RowA(x, y, z, w) * RowB(p, q, r, s) + RowB(x, y, z, w) * RowA(q, r, p, s)
          + RowC(x, y, z, w) * RowC(r, p, q, s)
  {
    TimesB(x, y, z, w, p, q, r, s);
    assert RowB(t.x, t.y, t.z, t.w)
        == RowB(x * s + y * r - z * q + w * p, -x * r + y * s + z * p + w * q,
                x * q - y * p + z * s + w * r, -x * p - y * q - z * r + w * s);
  }

  lemma TimesRowC(x: real, y: real, z: real, w: real, p: real, q: real, r: real, s: real, t: Quaternion)
    requires t.x == x * s + y * r - z * q + w * p && t.y == -x * r + y * s + z * p + w * q
    requires t.z == x * q - y * p + z * s + w * r && t.w == -x * p - y * q - z * r + w * s
    ensures RowC(t.x, t.y, t.z, t.w)
         == RowA(x, y, z, w) * RowC(p, q, r, s) + RowB(x, y, z, w) * RowB(q, r, p, s)
          + RowC(x, y, z, w) * RowA(r, p, q, s)
  {
    TimesC(x, y, z, w, p, q, r, s);
    assert RowC(t.x, t.y, t.z, t.w)
        == RowC(x * s + y * r - z * q + w * p, -x * r + y * s + z * p + w * q,
                x * q - y * p + z * s + w * r, -x * p - y * q - z * r + w * s);
  }

  lemma SumOfRow(n: real, ta: real, tb: real, tc: real, k: real, l: real, m: real, a1: real, b1: real, c1: real,
                 a2: real, b2: real, c2: real, a3: real, b3: real, c3: real, a: real, b: real, c: real,
                 u: real, v: real, w: real)
    requires n == ta * a + tb * b + tc * c
    requires ta == k * a1 + l * c2 + m * b3 && tb == k * b1 + l * a2 + m * c3 && tc == k * c1 + l * b2 + m * a3
    requires u == a1 * a + b1 * b + c1 * c && v == a2 * b + b2 * c + c2 * a && w == a3 * c + b3 * a + c3 * b
    ensures n == k * u + l * v + m * w
  {
    RowOfProduct(k, l, m, a1, b1, c1, a2, b2, c2, a3, b3, c3, a, b, c);
  }

  // ----- the three rows are one, with the coordinates going round

  function Round(q: Quaternion): Quaternion {
    Quaternion(q.y, q.z, q.x, q.w)
  }

  function Round3(v: Vec3): Vec3 {
    Vec3(v.y, v.z, v.x)
  }

  lemma RoundTimesX(q: Quaternion, r: Quaternion)
    ensures Times(Round(q), Round(r)).x == Times(q, r).y
  {
  }

  lemma RoundTimesY(q: Quaternion, r: Quaternion)
    ensures Times(Round(q), Round(r)).y == Times(q, r).z
  {
  }

  lemma RoundTimesZ(q: Quaternion, r: Quaternion)
    ensures Times(Round(q), Round(r)).z == Times(q, r).x
  {
  }

  lemma RoundTimesW(q: Quaternion, r: Quaternion)
    ensures Times(Round(q), Round(r)).w == Times(q, r).w
  {
  }

  lemma RoundTimes(q: Quaternion, r: Quaternion)
    ensures Round(Times(q, r)) == Times(Round(q), Round(r))
  {
    RoundTimesX(q, r);
    RoundTimesY(q, r);
    RoundTimesZ(q, r);
    RoundTimesW(q, r);
    Parts(Round(Times(q, r)), Times(Round(q), Round(r)));
  }

  lemma Parts(q: Quaternion, r: Quaternion)
    requires q.x == r.x && q.y == r.y && q.z == r.z && q.w == r.w
    ensures q == r
  {
  }

  lemma RoundUnit(q: Quaternion)
    ensures Unit(Round(q)) == Unit(q)
  {
  }

  lemma RoundTurn(q: Quaternion, v: Vec3)
    ensures Turn(Rot(Round(q)), Round3(v)) == Round3(Turn(Rot(q), v))
  {
    TurnPartX(q, v);
    TurnPartY(q, v);
    TurnPartZ(q, v);
    TurnPartX(Round(q), Round3(v));
    TurnPartY(Round(q), Round3(v));
    TurnPartZ(Round(q), Round3(v));
  }

  /** A row of the product of a matrix with row q and one whose rows, gone round, are r1, r2 and r3. */
  predicate ProductRow(q: Vec3, r1: Vec3, r2: Vec3, r3: Vec3, t: Vec3) {
    && t.x == q.x * r1.x + q.y * r2.z + q.z * r3.y
    && t.y == q.x * r1.y + q.y * r2.x + q.z * r3.z
    && t.z == q.x * r1.z + q.y * r2.y + q.z * r3.x
  }

  lemma TimesRowX(q: Quaternion, r: Quaternion)
    ensures Row(Times(q, r)).x
         == Row(q).x * Row(r).x + Row(q).y * Row(Round(r)).z + Row(q).z * Row(Round(Round(r))).y
  {
    TimesRowA(q.x, q.y, q.z, q.w, r.x, r.y, r.z, r.w, Times(q, r));
  }

  lemma TimesRowY(q: Quaternion, r: Quaternion)
    ensures Row(Times(q, r)).y
         == Row(q).x * Row(r).y + Row(q).y * Row(Round(r)).x + Row(q).z * Row(Round(Round(r))).z
  {
    TimesRowB(q.x, q.y, q.z, q.w, r.x, r.y, r.z, r.w, Times(q, r));
  }

  lemma TimesRowZ(q: Quaternion, r: Quaternion)
    ensures Row(Times(q, r)).z
         == Row(q).x * Row(r).z + Row(q).y * Row(Round(r)).y + Row(q).z * Row(Round(Round(r))).x
  {
    TimesRowC(q.x, q.y, q.z, q.w, r.x, r.y, r.z, r.w, Times(q, r));
  }

  lemma TimesRow(q: Quaternion, r: Quaternion)
    ensures ProductRow(Row(q), Row(r), Row(Round(r)), Row(Round(Round(r))), Row(Times(q, r)))
  {
    TimesRowX(q, r);
    TimesRowY(q, r);
    TimesRowZ(q, r);
  }

  lemma RowApplied(q: Vec3, r1: Vec3, r2: Vec3, r3: Vec3, t: Vec3, v: Vec3)
    requires ProductRow(q, r1, r2, r3, t)
    ensures Dot(t, v) == Dot(q, Vec3(Dot(r1, v), Dot(r2, Round3(v)), Dot(r3, Round3(Round3(v)))))
  {
    SumOfRow(Dot(t, v), t.x, t.y, t.z, q.x, q.y, q.z, r1.x, r1.y, r1.z, r2.x, r2.y, r2.z, r3.x, r3.y, r3.z,
             v.x, v.y, v.z, Dot(r1, v), Dot(r2, Round3(v)), Dot(r3, Round3(Round3(v))));
  }

  lemma UnitRow(x: real, y: real, z: real, w: real)
    requires x * x + y * y + z * z + w * w == 1.0
    ensures 1.0 - y * y * 2.0 - z * z * 2.0 == RowA(x, y, z, w)
    ensures x * y * 2.0 - z * w * 2.0 == RowB(x, y, z, w) && z * x * 2.0 + y * w * 2.0 == RowC(x, y, z, w)
  {
  }

  lemma TurnRow(q: Quaternion, v: Vec3)
    requires Unit(q)
    ensures Turn(Rot(q), v).x == Dot(Row(q), v)
  {
    UnitRow(q.x, q.y, q.z, q.w);
  }

  lemma TurnRows(q: Quaternion, v: Vec3)
    requires Unit(q)
    ensures Turn(Rot(q), v)
         == Vec3(Dot(Row(q), v), Dot(Row(Round(q)), Round3(v)), Dot(Row(Round(Round(q))), Round3(Round3(v))))
  {
    TurnRow(q, v);
    RoundUnit(q);
    TurnRow(Round(q), Round3(v));
    RoundTurn(q, v);
    RoundUnit(Round(q));
    TurnRow(Round(Round(q)), Round3(Round3(v)));
    RoundTurn(Round(q), Round3(v));
  }

  lemma TimesTurnsX(q: Quaternion, r: Quaternion, v: Vec3)
    requires Unit(q) && Unit(r)
    ensures Turn(Rot(Times(q, r)), v).x == Turn(Rot(q), Turn(Rot(r), v)).x
  {
    UnitTimes(q, r);
    TurnRow(Times(q, r), v);
    TimesRow(q, r);
    RowApplied(Row(q), Row(r), Row(Round(r)), Row(Round(Round(r))), Row(Times(q, r)), v);
    TurnRows(r, v);
    TurnRow(q, Turn(Rot(r), v));
  }

  /** What holds with the coordinates gone round holds one coordinate further. */
  lemma RoundTurns(q: Quaternion, r: Quaternion, v: Vec3)
    ensures Turn(Rot(Times(Round(q), Round(r))), Round3(v)) == Round3(Turn(Rot(Times(q, r)), v))
    ensures Turn(Rot(Round(q)), Turn(Rot(Round(r)), Round3(v))) == Round3(Turn(Rot(q), Turn(Rot(r), v)))
  {
    RoundTimes(q, r);
    RoundTurn(Times(q, r), v);
    RoundTurn(r, v);
    RoundTurn(q, Turn(Rot(r), v));
  }

  lemma TimesTurnsY(q: Quaternion, r: Quaternion, v: Vec3)
    requires Unit(q) && Unit(r)
    ensures Turn(Rot(Times(q, r)), v).y == Turn(Rot(q), Turn(Rot(r), v)).y
  {
    RoundUnit(q);
    RoundUnit(r);
    TimesTurnsX(Round(q), Round(r), Round3(v));
    RoundTurns(q, r, v);
  }

  lemma TimesTurnsZ(q: Quaternion, r: Quaternion, v: Vec3)
    requires Unit(q) && Unit(r)
    ensures Turn(Rot(Times(q, r)), v).z == Turn(Rot(q), Turn(Rot(r), v)).z
  {
    RoundUnit(q);
    RoundUnit(r);
    TimesTurnsY(Round(q), Round(r), Round3(v));
    RoundTurns(q, r, v);
  }

  lemma SameParts(u: Vec3, v: Vec3)
    requires u.x == v.x && u.y == v.y && u.z == v.z
    ensures u == v
  {
  }

  /** Turning by a product is turning by the second factor, then by the first. */
  lemma TimesTurns(q: Quaternion, r: Quaternion, v: Vec3)
    requires Unit(q) && Unit(r)
    ensures Turn(Rot(Times(q, r)), v) == Turn(Rot(q), Turn(Rot(r), v))
  {
    TimesTurnsX(q, r, v);
    TimesTurnsY(q, r, v);
    TimesTurnsZ(q, r, v);
    SameParts(Turn(Rot(Times(q, r)), v), Turn(Rot(q), Turn(Rot(r), v)));
  }
}
