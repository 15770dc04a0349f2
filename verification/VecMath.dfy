/**
 Vectors, quaternions and rotation matrices over exact numbers.  The algebra is stated on components,
 through a few scalar functions, and carried over to vectors.
 */
module VecMath {

  datatype Vec2 = Vec2(x: real, y: real)

  datatype Vec3 = Vec3(x: real, y: real, z: real)

  datatype Quaternion = Quaternion(x: real, y: real, z: real, w: real)

  const ZERO := Vec2(0.0, 0.0)
  const IDENTITY := Quaternion(0.0, 0.0, 0.0, 1.0)

  function Times2(a: Vec2, b: Vec2): Vec2 {
    Vec2(a.x * b.x, a.y * b.y)
  }

  function Plus2(a: Vec2, b: Vec2): Vec2 {
    Vec2(a.x + b.x, a.y + b.y)
  }

  function Minus2(a: Vec2, b: Vec2): Vec2 {
    Vec2(a.x - b.x, a.y - b.y)
  }

  function Scale2(a: Vec2, k: real): Vec2 {
    Vec2(a.x * k, a.y * k)
  }

  function Dot2(a: Vec2, b: Vec2): real {
    a.x * b.x + a.y * b.y
  }

  function Dot(a: Vec3, b: Vec3): real {
    a.x * b.x + a.y * b.y + a.z * b.z
  }

  function Cross(a: Vec3, b: Vec3): Vec3 {
    Vec3(a.y * b.z - a.z * b.y, a.z * b.x - a.x * b.z, a.x * b.y - a.y * b.x)
  }

  /** The product of two quaternions. */
  function Times(q: Quaternion, r: Quaternion): Quaternion {
    Quaternion(q.x * r.w + q.y * r.z - q.z * r.y + q.w * r.x,
               -q.x * r.z + q.y * r.w + q.z * r.x + q.w * r.y,
               q.x * r.y - q.y * r.x + q.z * r.w + q.w * r.z,
               -q.x * r.x - q.y * r.y - q.z * r.z + q.w * r.w)
  }

  /** The square of the length. */
  function Norm(q: Quaternion): real {
    q.x * q.x + q.y * q.y + q.z * q.z + q.w * q.w
  }

  predicate Unit(q: Quaternion) {
    Norm(q) == 1.0
  }

  lemma NormParts(x: real, y: real, z: real, w: real)
    ensures Norm(Quaternion(x, y, z, w)) == x * x + y * y + z * z + w * w
  {
  }

  lemma ProductOne(p: real, s: real, t: real)
    requires p == s * t && s == 1.0 && t == 1.0
    ensures p == 1.0
  {
  }

  /** Euler's four-square identity: the length of a product is the product of the lengths. */
  lemma NormTimes(q: Quaternion, r: Quaternion)
    ensures Norm(Times(q, r))
         == (q.x * q.x + q.y * q.y + q.z * q.z + q.w * q.w) * (r.x * r.x + r.y * r.y + r.z * r.z + r.w * r.w)
  {
    NormParts(q.x * r.w + q.y * r.z - q.z * r.y + q.w * r.x, -q.x * r.z + q.y * r.w + q.z * r.x + q.w * r.y,
              q.x * r.y - q.y * r.x + q.z * r.w + q.w * r.z, -q.x * r.x - q.y * r.y - q.z * r.z + q.w * r.w);
  }

  lemma UnitTimes(q: Quaternion, r: Quaternion)
    requires Unit(q) && Unit(r)
    ensures Unit(Times(q, r))
  {
    NormTimes(q, r);
    UnitProduct(q, r, Norm(Times(q, r)));
  }

  lemma UnitProduct(q: Quaternion, r: Quaternion, n: real)
    requires Unit(q) && Unit(r)
    requires n == (q.x * q.x + q.y * q.y + q.z * q.z + q.w * q.w) * (r.x * r.x + r.y * r.y + r.z * r.z + r.w * r.w)
    ensures n == 1.0
  {
    ProductOne(n, q.x * q.x + q.y * q.y + q.z * q.z + q.w * q.w, r.x * r.x + r.y * r.y + r.z * r.z + r.w * r.w);
  }

  lemma TimesIdentity(q: Quaternion)
    ensures Times(IDENTITY, q) == q
  {
  }

  /** The quaternion the trackball makes of two points. */
  function Between(from: Vec3, to: Vec3): Quaternion {
    var v := Cross(from, to);
    Quaternion(v.x, v.y, v.z, Dot(from, to))
  }

  /** Lagrange's identity. */
  lemma NormBetween(a: Vec3, b: Vec3)
    ensures Norm(Between(a, b)) == (a.x * a.x + a.y * a.y + a.z * a.z) * (b.x * b.x + b.y * b.y + b.z * b.z)
  {
    NormParts(a.y * b.z - a.z * b.y, a.z * b.x - a.x * b.z, a.x * b.y - a.y * b.x, a.x * b.x + a.y * b.y + a.z * b.z);
  }

  lemma UnitBetween(a: Vec3, b: Vec3)
    requires Dot(a, a) == 1.0 && Dot(b, b) == 1.0
    ensures Unit(Between(a, b))
  {
    NormBetween(a, b);
    DotProduct(a, b, Norm(Between(a, b)));
  }

  lemma DotProduct(a: Vec3, b: Vec3, n: real)
    requires Dot(a, a) == 1.0 && Dot(b, b) == 1.0
    requires n == (a.x * a.x + a.y * a.y + a.z * a.z) * (b.x * b.x + b.y * b.y + b.z * b.z)
    ensures n == 1.0
  {
    ProductOne(n, a.x * a.x + a.y * a.y + a.z * a.z, b.x * b.x + b.y * b.y + b.z * b.z);
  }

  lemma BetweenSame(a: Vec3)
    requires Dot(a, a) == 1.0
    ensures Between(a, a) == IDENTITY
  {
  }

  // ----- matrices, column by column as OpenGL keeps them

  /** A 3x3 block, by its columns. */
  datatype Block = Block(a: Vec3, b: Vec3, c: Vec3)

  function BlockOf(m: seq<real>): Block
    requires |m| == 16
  {
    Block(Vec3(m[0], m[1], m[2]), Vec3(m[4], m[5], m[6]), Vec3(m[8], m[9], m[10]))
  }

  predicate Normal(r: Block) {
    Dot(r.a, r.a) == 1.0 && Dot(r.b, r.b) == 1.0 && Dot(r.c, r.c) == 1.0
  }

  predicate Orthogonal(r: Block) {
    Dot(r.a, r.b) == 0.0 && Dot(r.b, r.c) == 0.0 && Dot(r.c, r.a) == 0.0
  }

  /** A proper rotation: orthonormal columns, the third the vector product of the others. */
  predicate Rotation(r: Block) {
    Normal(r) && Orthogonal(r) && Cross(r.a, r.b) == r.c
  }

  function First(x: real, y: real, z: real, w: real): Vec3 {
    Vec3(1.0 - y * y * 2.0 - z * z * 2.0, x * y * 2.0 + z * w * 2.0, z * x * 2.0 - y * w * 2.0)
  }

  function Second(x: real, y: real, z: real, w: real): Vec3 {
    Vec3(x * y * 2.0 - z * w * 2.0, 1.0 - z * z * 2.0 - x * x * 2.0, y * z * 2.0 + x * w * 2.0)
  }

  function Third(x: real, y: real, z: real, w: real): Vec3 {
    Vec3(z * x * 2.0 + y * w * 2.0, y * z * 2.0 - x * w * 2.0, 1.0 - x * x * 2.0 - y * y * 2.0)
  }

  /** The block of the matrix of a quaternion. */
  function Rot(q: Quaternion): Block {
    Block(First(q.x, q.y, q.z, q.w), Second(q.x, q.y, q.z, q.w), Third(q.x, q.y, q.z, q.w))
  }

  /** The rotation matrix of a quaternion. */
  function Matrix(q: Quaternion): (m: seq<real>)
    ensures |m| == 16
  {
    var r := Rot(q);
    [r.a.x, r.a.y, r.a.z, 0.0, r.b.x, r.b.y, r.b.z, 0.0, r.c.x, r.c.y, r.c.z, 0.0, 0.0, 0.0, 0.0, 1.0]
  }

  lemma BlockOfMatrix(q: Quaternion)
    ensures BlockOf(Matrix(q)) == Rot(q)
  {
  }

  lemma DotParts(a: real, b: real, c: real, d: real, e: real, f: real)
    ensures Dot(Vec3(a, b, c), Vec3(d, e, f)) == a * d + b * e + c * f
  {
  }

  lemma CrossParts(a: real, b: real, c: real, d: real, e: real, f: real)
    ensures Cross(Vec3(a, b, c), Vec3(d, e, f)).x == b * f - c * e
    ensures Cross(Vec3(a, b, c), Vec3(d, e, f)).y == c * d - a * f
    ensures Cross(Vec3(a, b, c), Vec3(d, e, f)).z == a * e - b * d
  {
  }

  lemma Vanishes(a: real, b: real, k: real, n: real)
    requires n == 1.0 && a == b - k * (1.0 - n)
    ensures a == b
  {
  }

  // Every product is off by a multiple of how far the quaternion is from unit length.

  lemma FirstFirst(x: real, y: real, z: real, w: real)
    ensures Dot(First(x, y, z, w), First(x, y, z, w))
         == 1.0 - 4.0 * (y * y + z * z) * (1.0 - (x * x + y * y + z * z + w * w))
  {
    DotParts(1.0 - y * y * 2.0 - z * z * 2.0, x * y * 2.0 + z * w * 2.0, z * x * 2.0 - y * w * 2.0,
             1.0 - y * y * 2.0 - z * z * 2.0, x * y * 2.0 + z * w * 2.0, z * x * 2.0 - y * w * 2.0);
  }

  lemma SecondSecond(x: real, y: real, z: real, w: real)
    ensures Dot(Second(x, y, z, w), Second(x, y, z, w))
         == 1.0 - 4.0 * (z * z + x * x) * (1.0 - (x * x + y * y + z * z + w * w))
  {
    DotParts(x * y * 2.0 - z * w * 2.0, 1.0 - z * z * 2.0 - x * x * 2.0, y * z * 2.0 + x * w * 2.0,
             x * y * 2.0 - z * w * 2.0, 1.0 - z * z * 2.0 - x * x * 2.0, y * z * 2.0 + x * w * 2.0);
  }

  lemma ThirdThird(x: real, y: real, z: real, w: real)
    ensures Dot(Third(x, y, z, w), Third(x, y, z, w))
         == 1.0 - 4.0 * (x * x + y * y) * (1.0 - (x * x + y * y + z * z + w * w))
  {
    DotParts(z * x * 2.0 + y * w * 2.0, y * z * 2.0 - x * w * 2.0, 1.0 - x * x * 2.0 - y * y * 2.0,
             z * x * 2.0 + y * w * 2.0, y * z * 2.0 - x * w * 2.0, 1.0 - x * x * 2.0 - y * y * 2.0);
  }

  lemma FirstSecond(x: real, y: real, z: real, w: real)
    ensures Dot(First(x, y, z, w), Second(x, y, z, w)) == 0.0 - (-4.0 * x * y) * (1.0 - (x * x + y * y + z * z + w * w))
  {
    DotParts(1.0 - y * y * 2.0 - z * z * 2.0, x * y * 2.0 + z * w * 2.0, z * x * 2.0 - y * w * 2.0,
             x * y * 2.0 - z * w * 2.0, 1.0 - z * z * 2.0 - x * x * 2.0, y * z * 2.0 + x * w * 2.0);
  }

  lemma SecondThird(x: real, y: real, z: real, w: real)
    ensures Dot(Second(x, y, z, w), Third(x, y, z, w)) == 0.0 - (-4.0 * y * z) * (1.0 - (x * x + y * y + z * z + w * w))
  {
    DotParts(x * y * 2.0 - z * w * 2.0, 1.0 - z * z * 2.0 - x * x * 2.0, y * z * 2.0 + x * w * 2.0,
             z * x * 2.0 + y * w * 2.0, y * z * 2.0 - x * w * 2.0, 1.0 - x * x * 2.0 - y * y * 2.0);
  }

  lemma ThirdFirst(x: real, y: real, z: real, w: real)
    ensures Dot(Third(x, y, z, w), First(x, y, z, w)) == 0.0 - (-4.0 * z * x) * (1.0 - (x * x + y * y + z * z + w * w))
  {
    DotParts(z * x * 2.0 + y * w * 2.0, y * z * 2.0 - x * w * 2.0, 1.0 - x * x * 2.0 - y * y * 2.0,
             1.0 - y * y * 2.0 - z * z * 2.0, x * y * 2.0 + z * w * 2.0, z * x * 2.0 - y * w * 2.0);
  }

  lemma CrossX(x: real, y: real, z: real, w: real)
    ensures Cross(First(x, y, z, w), Second(x, y, z, w)).x
         == z * x * 2.0 + y * w * 2.0 - 4.0 * x * z * (1.0 - (x * x + y * y + z * z + w * w))
  {
    CrossParts(1.0 - y * y * 2.0 - z * z * 2.0, x * y * 2.0 + z * w * 2.0, z * x * 2.0 - y * w * 2.0,
               x * y * 2.0 - z * w * 2.0, 1.0 - z * z * 2.0 - x * x * 2.0, y * z * 2.0 + x * w * 2.0);
  }

  lemma CrossY(x: real, y: real, z: real, w: real)
    ensures Cross(First(x, y, z, w), Second(x, y, z, w)).y
         == y * z * 2.0 - x * w * 2.0 - 4.0 * y * z * (1.0 - (x * x + y * y + z * z + w * w))
  {
    CrossParts(1.0 - y * y * 2.0 - z * z * 2.0, x * y * 2.0 + z * w * 2.0, z * x * 2.0 - y * w * 2.0,
               x * y * 2.0 - z * w * 2.0, 1.0 - z * z * 2.0 - x * x * 2.0, y * z * 2.0 + x * w * 2.0);
  }

  lemma CrossZ(x: real, y: real, z: real, w: real)
    ensures Cross(First(x, y, z, w), Second(x, y, z, w)).z
         == 1.0 - x * x * 2.0 - y * y * 2.0 - 4.0 * z * z * (1.0 - (x * x + y * y + z * z + w * w))
  {
    CrossParts(1.0 - y * y * 2.0 - z * z * 2.0, x * y * 2.0 + z * w * 2.0, z * x * 2.0 - y * w * 2.0,
               x * y * 2.0 - z * w * 2.0, 1.0 - z * z * 2.0 - x * x * 2.0, y * z * 2.0 + x * w * 2.0);
  }

  lemma UnitFirstFirst(x: real, y: real, z: real, w: real)
    requires x * x + y * y + z * z + w * w == 1.0
    ensures Dot(First(x, y, z, w), First(x, y, z, w)) == 1.0
  {
    FirstFirst(x, y, z, w);
    SettleFirstFirst(x, y, z, w, Dot(First(x, y, z, w), First(x, y, z, w)));
  }

  lemma SettleFirstFirst(x: real, y: real, z: real, w: real, d: real)
    requires x * x + y * y + z * z + w * w == 1.0
    requires d == 1.0 - 4.0 * (y * y + z * z) * (1.0 - (x * x + y * y + z * z + w * w))
    ensures d == 1.0
  {
    Vanishes(d, 1.0, 4.0 * (y * y + z * z), x * x + y * y + z * z + w * w);
  }

  lemma UnitSecondSecond(x: real, y: real, z: real, w: real)
    requires x * x + y * y + z * z + w * w == 1.0
    ensures Dot(Second(x, y, z, w), Second(x, y, z, w)) == 1.0
  {
    SecondSecond(x, y, z, w);
    SettleSecondSecond(x, y, z, w, Dot(Second(x, y, z, w), Second(x, y, z, w)));
  }

  lemma SettleSecondSecond(x: real, y: real, z: real, w: real, d: real)
    requires x * x + y * y + z * z + w * w == 1.0
    requires d == 1.0 - 4.0 * (z * z + x * x) * (1.0 - (x * x + y * y + z * z + w * w))
    ensures d == 1.0
  {
    Vanishes(d, 1.0, 4.0 * (z * z + x * x), x * x + y * y + z * z + w * w);
  }

  lemma UnitThirdThird(x: real, y: real, z: real, w: real)
    requires x * x + y * y + z * z + w * w == 1.0
    ensures Dot(Third(x, y, z, w), Third(x, y, z, w)) == 1.0
  {
    ThirdThird(x, y, z, w);
    SettleThirdThird(x, y, z, w, Dot(Third(x, y, z, w), Third(x, y, z, w)));
  }

  lemma SettleThirdThird(x: real, y: real, z: real, w: real, d: real)
    requires x * x + y * y + z * z + w * w == 1.0
    requires d == 1.0 - 4.0 * (x * x + y * y) * (1.0 - (x * x + y * y + z * z + w * w))
    ensures d == 1.0
  {
    Vanishes(d, 1.0, 4.0 * (x * x + y * y), x * x + y * y + z * z + w * w);
  }

  lemma SettleFirstSecond(x: real, y: real, z: real, w: real, d: real)
    requires x * x + y * y + z * z + w * w == 1.0 && d == 0.0 - (-4.0 * x * y) * (1.0 - (x * x + y * y + z * z + w * w))
    ensures d == 0.0
  {
    Vanishes(d, 0.0, (-4.0 * x * y), x * x + y * y + z * z + w * w);
  }

  lemma SettleSecondThird(x: real, y: real, z: real, w: real, d: real)
    requires x * x + y * y + z * z + w * w == 1.0 && d == 0.0 - (-4.0 * y * z) * (1.0 - (x * x + y * y + z * z + w * w))
    ensures d == 0.0
  {
    Vanishes(d, 0.0, (-4.0 * y * z), x * x + y * y + z * z + w * w);
  }

  lemma SettleThirdFirst(x: real, y: real, z: real, w: real, d: real)
    requires x * x + y * y + z * z + w * w == 1.0 && d == 0.0 - (-4.0 * z * x) * (1.0 - (x * x + y * y + z * z + w * w))
    ensures d == 0.0
  {
    Vanishes(d, 0.0, (-4.0 * z * x), x * x + y * y + z * z + w * w);
  }

  lemma SettleCrossX(x: real, y: real, z: real, w: real, d: real)
    requires x * x + y * y + z * z + w * w == 1.0
    requires d == z * x * 2.0 + y * w * 2.0 - 4.0 * x * z * (1.0 - (x * x + y * y + z * z + w * w))
    ensures d == z * x * 2.0 + y * w * 2.0
  {
    Vanishes(d, z * x * 2.0 + y * w * 2.0, 4.0 * x * z, x * x + y * y + z * z + w * w);
  }

  lemma SettleCrossY(x: real, y: real, z: real, w: real, d: real)
    requires x * x + y * y + z * z + w * w == 1.0
    requires d == y * z * 2.0 - x * w * 2.0 - 4.0 * y * z * (1.0 - (x * x + y * y + z * z + w * w))
    ensures d == y * z * 2.0 - x * w * 2.0
  {
    Vanishes(d, y * z * 2.0 - x * w * 2.0, 4.0 * y * z, x * x + y * y + z * z + w * w);
  }

  lemma SettleCrossZ(x: real, y: real, z: real, w: real, d: real)
    requires x * x + y * y + z * z + w * w == 1.0
    requires d == 1.0 - x * x * 2.0 - y * y * 2.0 - 4.0 * z * z * (1.0 - (x * x + y * y + z * z + w * w))
    ensures d == 1.0 - x * x * 2.0 - y * y * 2.0
  {
    Vanishes(d, 1.0 - x * x * 2.0 - y * y * 2.0, 4.0 * z * z, x * x + y * y + z * z + w * w);
  }

  lemma NormalA(q: Quaternion)
    requires Unit(q)
    ensures Dot(Rot(q).a, Rot(q).a) == 1.0
  {
    UnitFirstFirst(q.x, q.y, q.z, q.w);
  }

  lemma NormalB(q: Quaternion)
    requires Unit(q)
    ensures Dot(Rot(q).b, Rot(q).b) == 1.0
  {
    UnitSecondSecond(q.x, q.y, q.z, q.w);
  }

  lemma NormalC(q: Quaternion)
    requires Unit(q)
    ensures Dot(Rot(q).c, Rot(q).c) == 1.0
  {
    UnitThirdThird(q.x, q.y, q.z, q.w);
  }

  lemma RightAB(q: Quaternion)
    requires Unit(q)
    ensures Dot(Rot(q).a, Rot(q).b) == 0.0
  {
    FirstSecond(q.x, q.y, q.z, q.w);
    SettleFirstSecond(q.x, q.y, q.z, q.w, Dot(Rot(q).a, Rot(q).b));
  }

  lemma RightBC(q: Quaternion)
    requires Unit(q)
    ensures Dot(Rot(q).b, Rot(q).c) == 0.0
  {
    SecondThird(q.x, q.y, q.z, q.w);
    SettleSecondThird(q.x, q.y, q.z, q.w, Dot(Rot(q).b, Rot(q).c));
  }

  lemma RightCA(q: Quaternion)
    requires Unit(q)
    ensures Dot(Rot(q).c, Rot(q).a) == 0.0
  {
    ThirdFirst(q.x, q.y, q.z, q.w);
    SettleThirdFirst(q.x, q.y, q.z, q.w, Dot(Rot(q).c, Rot(q).a));
  }

  lemma HandX(q: Quaternion)
    requires Unit(q)
    ensures Cross(Rot(q).a, Rot(q).b).x == Rot(q).c.x
  {
    CrossX(q.x, q.y, q.z, q.w);
    SettleCrossX(q.x, q.y, q.z, q.w, Cross(Rot(q).a, Rot(q).b).x);
  }

  lemma HandY(q: Quaternion)
    requires Unit(q)
    ensures Cross(Rot(q).a, Rot(q).b).y == Rot(q).c.y
  {
    CrossY(q.x, q.y, q.z, q.w);
    SettleCrossY(q.x, q.y, q.z, q.w, Cross(Rot(q).a, Rot(q).b).y);
  }

  lemma HandZ(q: Quaternion)
    requires Unit(q)
    ensures Cross(Rot(q).a, Rot(q).b).z == Rot(q).c.z
  {
    CrossZ(q.x, q.y, q.z, q.w);
    SettleCrossZ(q.x, q.y, q.z, q.w, Cross(Rot(q).a, Rot(q).b).z);
  }

  lemma Collect(r: Block)
    requires Dot(r.a, r.a) == 1.0 && Dot(r.b, r.b) == 1.0 && Dot(r.c, r.c) == 1.0
    requires Dot(r.a, r.b) == 0.0 && Dot(r.b, r.c) == 0.0 && Dot(r.c, r.a) == 0.0
    requires var c := Cross(r.a, r.b); c.x == r.c.x && c.y == r.c.y && c.z == r.c.z
    ensures Rotation(r)
  {
  }

  /** The matrix of a unit quaternion is a rotation. */
  lemma UnitRotates(q: Quaternion)
    requires Unit(q)
    ensures Rotation(Rot(q))
  {
    NormalA(q);
    NormalB(q);
    NormalC(q);
    RightAB(q);
    RightBC(q);
    RightCA(q);
    HandX(q);
    HandY(q);
    HandZ(q);
    Collect(Rot(q));
  }

  lemma MatrixRotates(q: Quaternion)
    requires Unit(q)
    ensures Rotation(BlockOf(Matrix(q)))
  {
    UnitRotates(q);
    BlockOfMatrix(q);
  }

  // ----- what a drag does

  function TurnPart(x: real, y: real, z: real, w: real, a: real, b: real, c: real): real {
    (1.0 - y * y * 2.0 - z * z * 2.0) * a + (x * y * 2.0 - z * w * 2.0) * b + (z * x * 2.0 + y * w * 2.0) * c
  }

  /** A block applied to a vector. */
  function Turn(r: Block, v: Vec3): Vec3 {
    Vec3(r.a.x * v.x + r.b.x * v.y + r.c.x * v.z, r.a.y * v.x + r.b.y * v.y + r.c.y * v.z,
         r.a.z * v.x + r.b.z * v.y + r.c.z * v.z)
  }

  lemma TurnBetween(a: real, b: real, c: real, d: real, e: real, f: real)
    ensures TurnPart(b * f - c * e, c * d - a * f, a * e - b * d, a * d + b * e + c * f, a, b, c)
         == (1.0 - 2.0 * (a * a + b * b + c * c) * (d * d + e * e + f * f)) * a
          + 2.0 * (a * d + b * e + c * f) * (a * a + b * b + c * c) * d
  {
  }

  lemma Substitute(n: real, s: real, t: real, k: real, a: real, d: real)
    requires s == 1.0 && t == 1.0 && n == (1.0 - 2.0 * s * t) * a + 2.0 * k * s * d
    ensures n == 2.0 * k * d - a
  {
  }

  lemma SettleTurn(a: real, b: real, c: real, d: real, e: real, f: real, k: real, n: real)
    requires a * a + b * b + c * c == 1.0 && d * d + e * e + f * f == 1.0
    requires n == (1.0 - 2.0 * (a * a + b * b + c * c) * (d * d + e * e + f * f)) * a
                + 2.0 * (a * d + b * e + c * f) * (a * a + b * b + c * c) * d
    requires k == a * d + b * e + c * f
    ensures n == 2.0 * k * d - a
  {
    Substitute(n, a * a + b * b + c * c, d * d + e * e + f * f, k, a, d);
  }

  lemma DragPart(a: real, b: real, c: real, d: real, e: real, f: real, q: Quaternion)
    requires a * a + b * b + c * c == 1.0 && d * d + e * e + f * f == 1.0
    requires q.x == b * f - c * e && q.y == c * d - a * f && q.z == a * e - b * d && q.w == a * d + b * e + c * f
    ensures TurnPart(q.x, q.y, q.z, q.w, a, b, c) == 2.0 * q.w * d - a
  {
    TurnBetween(a, b, c, d, e, f);
    assert TurnPart(q.x, q.y, q.z, q.w, a, b, c)
        == TurnPart(b * f - c * e, c * d - a * f, a * e - b * d, a * d + b * e + c * f, a, b, c);
    SettleTurn(a, b, c, d, e, f, q.w, TurnPart(q.x, q.y, q.z, q.w, a, b, c));
  }

  lemma TurnPartX(q: Quaternion, v: Vec3)
    ensures Turn(Rot(q), v).x == TurnPart(q.x, q.y, q.z, q.w, v.x, v.y, v.z)
  {
  }

  lemma TurnPartY(q: Quaternion, v: Vec3)
    ensures Turn(Rot(q), v).y == TurnPart(q.y, q.z, q.x, q.w, v.y, v.z, v.x)
  {
  }

  lemma TurnPartZ(q: Quaternion, v: Vec3)
    ensures Turn(Rot(q), v).z == TurnPart(q.z, q.x, q.y, q.w, v.z, v.x, v.y)
  {
  }

  lemma DragX(from: Vec3, to: Vec3)
    requires Dot(from, from) == 1.0 && Dot(to, to) == 1.0
    ensures Turn(Rot(Between(from, to)), from).x == 2.0 * Between(from, to).w * to.x - from.x
  {
    var q := Between(from, to);
    TurnPartX(q, from);
    DragPart(from.x, from.y, from.z, to.x, to.y, to.z, q);
  }

  lemma DragY(from: Vec3, to: Vec3)
    requires Dot(from, from) == 1.0 && Dot(to, to) == 1.0
    ensures Turn(Rot(Between(from, to)), from).y == 2.0 * Between(from, to).w * to.y - from.y
  {
    var q := Between(from, to);
    TurnPartY(q, from);
    DragPart(from.y, from.z, from.x, to.y, to.z, to.x, Quaternion(q.y, q.z, q.x, q.w));
  }

  lemma DragZ(from: Vec3, to: Vec3)
    requires Dot(from, from) == 1.0 && Dot(to, to) == 1.0
    ensures Turn(Rot(Between(from, to)), from).z == 2.0 * Between(from, to).w * to.z - from.z
  {
    var q := Between(from, to);
    TurnPartZ(q, from);
    DragPart(from.z, from.x, from.y, to.z, to.x, to.y, Quaternion(q.z, q.x, q.y, q.w));
  }

  /** The mirror image of a point of the sphere in another. */
  function Mirror(from: Vec3, to: Vec3): Vec3 {
    var k := 2.0 * Dot(from, to);
    Vec3(k * to.x - from.x, k * to.y - from.y, k * to.z - from.z)
  }

  /** The point pressed on goes to its mirror image in the point dragged to: twice the angle. */
  lemma DragTurns(from: Vec3, to: Vec3)
    requires Dot(from, from) == 1.0 && Dot(to, to) == 1.0
    ensures Turn(Rot(Between(from, to)), from) == Mirror(from, to)
  {
    DragX(from, to);
    DragY(from, to);
    DragZ(from, to);
    Components(Turn(Rot(Between(from, to)), from), from, to, Dot(from, to));
  }

  lemma Components(v: Vec3, from: Vec3, to: Vec3, k: real)
    requires v.x == 2.0 * k * to.x - from.x && v.y == 2.0 * k * to.y - from.y && v.z == 2.0 * k * to.z - from.z
    ensures v == Vec3(2.0 * k * to.x - from.x, 2.0 * k * to.y - from.y, 2.0 * k * to.z - from.z)
  {
  }
}
