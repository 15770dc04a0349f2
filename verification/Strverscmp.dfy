/**
 Version-string comparison.  The code looks at the first difference and back at the digit run it
 lies in; here it is shown to be a lexicographic order on keys, hence a total order.
 */
module Strverscmp {

  type Byte = b: int | 1 <= b < 256 witness 1

  type Bytes = seq<Byte>

  predicate Digit(c: int) {
    48 <= c <= 57
  }

  /** The byte at `i`; a C string ends with a zero. */
  function At(s: Bytes, i: nat): int {
    if i < |s| then s[i] else 0
  }

  function Sign(x: int): int {
    if x < 0 then -1 else if x > 0 then 1 else 0
  }

  // ----- what the code computes

  /** The number of digits at the start of `s`. */
  function RunLength(s: Bytes): (n: nat)
    ensures n <= |s|
  {
    if s != [] && Digit(s[0]) then 1 + RunLength(s[1..]) else 0
  }

  /** Conversion to unsigned char. */
  function Unsigned(x: int): int {
    x % 256
  }

  /** The answer at the first difference `i`, when the digit run around it starts at `dp`. */
  function Decide(l: Bytes, r: Bytes, i: nat, dp: nat, zeros: bool): int
    requires i <= |l| && i <= |r|
  {
    var byteOrder := At(l, i) - At(r, i);
    if At(l, dp) != 48 && At(r, dp) != 48 then
      var a, b := RunLength(l[i..]), RunLength(r[i..]);
      if a > b then 1 else if a < b then -1 else byteOrder
    else if zeros && dp < i && (Digit(At(l, i)) || Digit(At(r, i))) then
      Unsigned(At(l, i) - 48) - Unsigned(At(r, i) - 48)
    else byteOrder
  }

  /** The scan of the common prefix from `i` on. */
  function CompareFrom(l: Bytes, r: Bytes, i: nat, dp: nat, zeros: bool): int
    requires i <= |l| && i <= |r|
    decreases |l| - i
  {
    if At(l, i) != At(r, i) then Decide(l, r, i, dp, zeros)
    else if i == |l| then 0
    else if !Digit(l[i]) then CompareFrom(l, r, i + 1, i + 1, true)
    else CompareFrom(l, r, i + 1, dp, zeros && l[i] == 48)
  }

  function Compare(l: Bytes, r: Bytes): int {
    CompareFrom(l, r, 0, 0, true)
  }

  /** strverscmp. */
  method StrVersCmp(l: Bytes, r: Bytes) returns (c: int)
    ensures c == Compare(l, r)
  {
    var i, dp, z := 0, 0, true;
    while At(l, i) == At(r, i)
      invariant i <= |l| && i <= |r|
      invariant Compare(l, r) == CompareFrom(l, r, i, dp, z)
      decreases |l| - i
    {
      var b := At(l, i);
      if b == 0 {
        return 0;
      }
      if !Digit(b) {
        dp, z := i + 1, true;
      } else if b != 48 {
        z := false;
      }
      i := i + 1;
    }
    if At(l, dp) != 48 && At(r, dp) != 48 {
      var j := i;
      while Digit(At(l, j))
        invariant i <= j <= |l| && j <= |r|
        invariant RunLength(l[i..]) == j - i + RunLength(l[j..])
        invariant RunLength(r[i..]) == j - i + RunLength(r[j..])
        decreases |l| - j
      {
        if !Digit(At(r, j)) {
          return 1;
        }
        assert l[j..][1..] == l[j + 1..] && r[j..][1..] == r[j + 1..];
        j := j + 1;
      }
      if Digit(At(r, j)) {
        return -1;
      }
    } else if z && dp < i && (Digit(At(l, i)) || Digit(At(r, i))) {
      return Unsigned(At(l, i) - 48) - Unsigned(At(r, i) - 48);
    }
    c := At(l, i) - At(r, i);
  }

  // ----- keys

  /** Where a key is in a digit run. */
  datatype Mode =
    | Outside      // not in a run
    | Number       // in a run that does not start with a zero
    | Zeros        // in a run of zeros only
    | Fraction     // in a run that starts with a zero, past another digit

  function NextMode(m: Mode, c: Byte): Mode {
    if !Digit(c) then Outside
    else if m == Outside then if c == 48 then Zeros else Number
    else if m == Zeros then if c == 48 then Zeros else Fraction
    else m
  }

  /**
   The weights of the next byte of `s` (zero at its end).  A number's first digit carries the
   length of the number; behind zeros, digits weigh less than anything else.
   */
  function Weights(m: Mode, s: Bytes): seq<int> {
    if m == Outside && s != [] && Digit(s[0]) && s[0] != 48 then [256 + RunLength(s), s[0]]
    else if m == Zeros && !Digit(At(s, 0)) then [256 + At(s, 0)]
    else [At(s, 0)]
  }

  function Key(m: Mode, s: Bytes): seq<int>
    decreases |s|
  {
    if s == [] then Weights(m, s) else Weights(m, s) + Key(NextMode(m, s[0]), s[1..])
  }

  /** Lexicographic comparison. */
  function Lex(a: seq<int>, b: seq<int>): int
    decreases |a|
  {
    if a == [] then if b == [] then 0 else -1
    else if b == [] then 1
    else if a[0] != b[0] then Sign(a[0] - b[0])
    else Lex(a[1..], b[1..])
  }

  lemma {:induction false} LexPrefix(p: seq<int>, a: seq<int>, b: seq<int>)
    ensures Lex(p + a, p + b) == Lex(a, b)
    decreases |p|
  {
    if p == [] {
      assert p + a == a && p + b == b;
    } else {
      assert (p + a)[1..] == p[1..] + a && (p + b)[1..] == p[1..] + b;
      LexPrefix(p[1..], a, b);
    }
  }

  lemma LexFirst(x: int, a: seq<int>, y: int, b: seq<int>)
    requires x != y
    ensures Lex([x] + a, [y] + b) == Sign(x - y)
  {
  }

  lemma {:induction false} LexAntisymmetric(a: seq<int>, b: seq<int>)
    ensures Lex(a, b) == -Lex(b, a)
    decreases |a|
  {
    if a != [] && b != [] && a[0] == b[0] {
      LexAntisymmetric(a[1..], b[1..]);
    }
  }

  lemma {:induction false} LexTransitive(a: seq<int>, b: seq<int>, c: seq<int>)
    requires Lex(a, b) <= 0 && Lex(b, c) <= 0
    ensures Lex(a, c) <= 0 && (Lex(a, b) < 0 || Lex(b, c) < 0 ==> Lex(a, c) < 0)
    decreases |a|
  {
    if a != [] && b != [] && c != [] && a[0] == b[0] == c[0] {
      LexTransitive(a[1..], b[1..], c[1..]);
    }
  }

  lemma {:induction false} LexSame(a: seq<int>)
    ensures Lex(a, a) == 0
    decreases |a|
  {
    if a != [] {
      LexSame(a[1..]);
    }
  }

  // ----- the key of a digit run

  predicate Digits(s: Bytes) {
    forall k :: 0 <= k < |s| ==> Digit(s[k])
  }

  function ModeAfter(m: Mode, w: Bytes): Mode
    decreases |w|
  {
    if w == [] then m else ModeAfter(NextMode(m, w[0]), w[1..])
  }

  lemma {:induction false} RunLengthDigits(w: Bytes, t: Bytes)
    requires Digits(w)
    ensures RunLength(w + t) == |w| + RunLength(t)
    decreases |w|
  {
    if w == [] {
      assert w + t == t;
    } else {
      assert (w + t)[1..] == w[1..] + t;
      RunLengthDigits(w[1..], t);
    }
  }

  /** Inside a run the digits weigh what they are. */
  lemma {:induction false} KeyInside(m: Mode, w: Bytes, t: Bytes)
    requires m != Outside && Digits(w)
    ensures ModeAfter(m, w) != Outside && Key(m, w + t) == w + Key(ModeAfter(m, w), t)
    decreases |w|
  {
    if w == [] {
      assert w + t == t && w + Key(m, t) == Key(m, t);
    } else {
      assert (w + t)[1..] == w[1..] + t;
      KeyInside(NextMode(m, w[0]), w[1..], t);
      assert [w[0]] + (w[1..] + Key(ModeAfter(m, w), t)) == w + Key(ModeAfter(m, w), t);
    }
  }

  /** The key from the start of a run: the length first if it is a number, then the digits. */
  lemma KeyRun(w: Bytes, t: Bytes)
    requires w != [] && Digits(w)
    ensures var rest := w + Key(ModeAfter(Outside, w), t);
      Key(Outside, w + t) == if w[0] == 48 then rest else [256 + |w| + RunLength(t)] + rest
  {
    KeyHead(w, t);
    HeadWeights(w, t);
    Regroup(256 + |w| + RunLength(t), w, Key(ModeAfter(Outside, w), t));
  }

  lemma KeyHead(w: Bytes, t: Bytes)
    requires w != [] && Digits(w)
    ensures Key(Outside, w + t) == Weights(Outside, w + t) + (w[1..] + Key(ModeAfter(Outside, w), t))
  {
    assert (w + t)[1..] == w[1..] + t && (w + t)[0] == w[0];
    KeyInside(NextMode(Outside, w[0]), w[1..], t);
  }

  lemma HeadWeights(w: Bytes, t: Bytes)
    requires w != [] && Digits(w)
    ensures Weights(Outside, w + t) == if w[0] == 48 then [w[0]] else [256 + |w| + RunLength(t), w[0]]
  {
    RunLengthDigits(w, t);
  }

  lemma Regroup(x: int, w: Bytes, k: seq<int>)
    requires w != []
    ensures [w[0]] + (w[1..] + k) == w + k
    ensures [x, w[0]] + (w[1..] + k) == [x] + (w + k)
  {
  }

  /** The mode inside a run says how the run starts and whether it is all zeros. */
  lemma {:induction false} ModeOfRun(m: Mode, w: Bytes)
    requires m != Outside && Digits(w)
    ensures m == Number ==> ModeAfter(m, w) == Number
    ensures m == Fraction ==> ModeAfter(m, w) == Fraction
    ensures m == Zeros ==> ModeAfter(m, w) == if AllZeros(w) then Zeros else Fraction
    decreases |w|
  {
    if w != [] {
      ModeOfRun(NextMode(m, w[0]), w[1..]);
      assert AllZeros(w) <==> w[0] == 48 && AllZeros(w[1..]);
    }
  }

  predicate AllZeros(w: Bytes) {
    forall k :: 0 <= k < |w| ==> w[k] == 48
  }

  // ----- the first difference decides as the keys do

  /** Two texts that differ in their first byte, behind a common number. */
  lemma DecideNumber(w: Bytes, t: Bytes, u: Bytes)
    requires w != [] && w[0] != 48 && Digits(w) && At(t, 0) != At(u, 0)
    ensures Sign(Decide(w + t, w + u, |w|, 0, AllZeros(w)))
         == Lex(Key(Outside, w + t), Key(Outside, w + u))
  {
    assert (w + t)[|w|..] == t && (w + u)[|w|..] == u;
    ModeOfRun(Number, w[1..]);
    KeyRun(w, t);
    KeyRun(w, u);
    LexAfter(256 + |w| + RunLength(t), 256 + |w| + RunLength(u), w, Key(Number, t), Key(Number, u));
    HeadLex(Number, t, u);
    assert At(w + t, |w|) == At(t, 0) && At(w + u, |w|) == At(u, 0);
  }

  lemma ZeroMode(w: Bytes)
    requires w != [] && w[0] == 48 && Digits(w)
    ensures ModeAfter(Outside, w) == if AllZeros(w) then Zeros else Fraction
  {
    assert AllZeros(w) <==> AllZeros(w[1..]);
    ModeOfRun(Zeros, w[1..]);
  }

  lemma DecideZeroIs(w: Bytes, t: Bytes, u: Bytes, zeros: bool)
    requires w != [] && w[0] == 48
    ensures var a, b := At(t, 0), At(u, 0);
      Decide(w + t, w + u, |w|, 0, zeros)
        == if zeros && (Digit(a) || Digit(b)) then Unsigned(a - 48) - Unsigned(b - 48) else a - b
  {
    assert At(w + t, |w|) == At(t, 0) && At(w + u, |w|) == At(u, 0) && At(w + t, 0) == 48;
  }

  lemma DecideZeroWeighs(w: Bytes, t: Bytes, u: Bytes, zeros: bool)
    requires w != [] && w[0] == 48 && At(t, 0) != At(u, 0)
    ensures var m := if zeros then Zeros else Fraction;
      Sign(Decide(w + t, w + u, |w|, 0, zeros)) == Sign(Weights(m, t)[0] - Weights(m, u)[0])
  {
    DecideZeroIs(w, t, u, zeros);
    ZeroOrder(At(t, 0), At(u, 0), zeros);
  }

  lemma KeyZero(w: Bytes, t: Bytes, u: Bytes)
    requires w != [] && w[0] == 48 && Digits(w)
    ensures var m := if AllZeros(w) then Zeros else Fraction;
      Lex(Key(Outside, w + t), Key(Outside, w + u)) == Lex(Key(m, t), Key(m, u))
  {
    var m := if AllZeros(w) then Zeros else Fraction;
    ZeroMode(w);
    KeyRun(w, t);
    KeyRun(w, u);
    LexPrefix(w, Key(m, t), Key(m, u));
  }

  /** Behind a common run that starts with a zero. */
  lemma DecideZero(w: Bytes, t: Bytes, u: Bytes)
    requires w != [] && w[0] == 48 && Digits(w) && At(t, 0) != At(u, 0)
    ensures Sign(Decide(w + t, w + u, |w|, 0, AllZeros(w)))
         == Lex(Key(Outside, w + t), Key(Outside, w + u))
  {
    KeyZero(w, t, u);
    HeadLex(if AllZeros(w) then Zeros else Fraction, t, u);
    DecideZeroWeighs(w, t, u, AllZeros(w));
  }

  /** Two texts that differ in their first byte, behind a common run `w`. */
  lemma DecideLex(w: Bytes, t: Bytes, u: Bytes)
    requires Digits(w) && At(t, 0) != At(u, 0)
    ensures Sign(Decide(w + t, w + u, |w|, 0, AllZeros(w)))
         == Lex(Key(Outside, w + t), Key(Outside, w + u))
  {
    if w == [] {
      assert w + t == t && w + u == u;
      StartLex(t, u);
    } else if w[0] == 48 {
      DecideZero(w, t, u);
    } else {
      DecideNumber(w, t, u);
    }
  }

  /** The first weights of two texts that differ in their first byte. */
  lemma HeadLex(m: Mode, t: Bytes, u: Bytes)
    requires m != Outside && At(t, 0) != At(u, 0)
    ensures Lex(Key(m, t), Key(m, u)) == Sign(Weights(m, t)[0] - Weights(m, u)[0])
  {
  }

  lemma LexAfter(x: int, y: int, w: seq<int>, a: seq<int>, b: seq<int>)
    ensures Lex([x] + (w + a), [y] + (w + b)) == if x != y then Sign(x - y) else Lex(a, b)
  {
    if x != y {
      LexFirst(x, w + a, y, w + b);
    } else {
      LexPrefix([x], w + a, w + b);
      LexPrefix(w, a, b);
    }
  }

  /** Behind a run of zeros a digit weighs less than any other byte; elsewhere bytes weigh what they are. */
  lemma ZeroOrder(a: int, b: int, zeros: bool)
    requires 0 <= a < 256 && 0 <= b < 256 && a != b
    ensures Sign((if zeros && !Digit(a) then 256 + a else a) - (if zeros && !Digit(b) then 256 + b else b))
         == Sign(if zeros && (Digit(a) || Digit(b)) then Unsigned(a - 48) - Unsigned(b - 48) else a - b)
  {
    assert Digit(a) ==> Unsigned(a - 48) == a - 48;
    assert Digit(b) ==> Unsigned(b - 48) == b - 48;
    assert !Digit(a) ==> Unsigned(a - 48) == if a > 57 then a - 48 else a + 208;
    assert !Digit(b) ==> Unsigned(b - 48) == if b > 57 then b - 48 else b + 208;
  }

  /** Outside a run. */
  lemma StartLex(t: Bytes, u: Bytes)
    requires At(t, 0) != At(u, 0)
    ensures Sign(Decide(t, u, 0, 0, true)) == Lex(Key(Outside, t), Key(Outside, u))
  {
    assert t[0..] == t && u[0..] == u;
    var p, q := Weights(Outside, t), Weights(Outside, u);
    assert Key(Outside, t)[0] == p[0] && Key(Outside, u)[0] == q[0];
    if p[0] == q[0] {
      assert Key(Outside, t)[1] == t[0] && Key(Outside, u)[1] == u[0];
      assert Key(Outside, t)[1..][0] == t[0] && Key(Outside, u)[1..][0] == u[0];
    }
  }

  // ----- the scan

  lemma DecideShift(l: Bytes, r: Bytes, i: nat, dp: nat, zeros: bool)
    requires dp <= i <= |l| && i <= |r|
    ensures Decide(l, r, i, dp, zeros) == Decide(l[dp..], r[dp..], i - dp, 0, zeros)
  {
    DropDrop(l, dp, i);
    DropDrop(r, dp, i);
  }

  lemma DropDrop(s: Bytes, dp: nat, i: nat)
    requires dp <= i <= |s|
    ensures s[dp..][i - dp..] == s[i..]
    ensures At(s[dp..], 0) == At(s, dp) && At(s[dp..], i - dp) == At(s, i)
  {
    assert |s[dp..][i - dp..]| == |s[i..]|;
    assert forall k :: 0 <= k < |s| - i ==> s[dp..][i - dp..][k] == s[i..][k];
  }

  /** A run and the byte that ends it have the same weights whatever follows. */
  lemma KeyPast(w: Bytes, c: Byte, t: Bytes, u: Bytes)
    requires Digits(w) && !Digit(c)
    ensures Lex(Key(Outside, w + [c] + t), Key(Outside, w + [c] + u)) == Lex(Key(Outside, t), Key(Outside, u))
  {
    assert w + [c] + t == w + ([c] + t) && w + [c] + u == w + ([c] + u);
    var m := ModeAfter(Outside, w);
    KeyEnd(m, c, t, u);
    if w == [] {
      assert w + ([c] + t) == [c] + t && w + ([c] + u) == [c] + u;
    } else {
      KeyRunLex(w, [c] + t, [c] + u);
    }
  }

  lemma KeyEnd(m: Mode, c: Byte, t: Bytes, u: Bytes)
    requires !Digit(c)
    ensures Lex(Key(m, [c] + t), Key(m, [c] + u)) == Lex(Key(Outside, t), Key(Outside, u))
  {
    assert ([c] + t)[1..] == t && ([c] + u)[1..] == u;
    LexPrefix(Weights(m, [c] + t), Key(Outside, t), Key(Outside, u));
  }

  lemma KeyRunLex(w: Bytes, t: Bytes, u: Bytes)
    requires w != [] && Digits(w) && RunLength(t) == RunLength(u)
    ensures var m := ModeAfter(Outside, w);
      Lex(Key(Outside, w + t), Key(Outside, w + u)) == Lex(Key(m, t), Key(m, u))
  {
    var m := ModeAfter(Outside, w);
    KeyRun(w, t);
    KeyRun(w, u);
    LexPrefix(w, Key(m, t), Key(m, u));
    LexPrefix([256 + |w| + RunLength(t)], w + Key(m, t), w + Key(m, u));
  }

  /** What the scan knows at `i`: a common prefix, and the run it ends in. */
  predicate Scanned(l: Bytes, r: Bytes, i: nat, dp: nat, zeros: bool) {
    && dp <= i <= |l| && i <= |r| && l[..i] == r[..i]
    && Digits(l[dp..i]) && (zeros <==> AllZeros(l[dp..i]))
  }

  lemma ScanDecides(l: Bytes, r: Bytes, i: nat, dp: nat, zeros: bool)
    requires Scanned(l, r, i, dp, zeros) && At(l, i) != At(r, i)
    ensures Sign(Decide(l, r, i, dp, zeros)) == Lex(Key(Outside, l[dp..]), Key(Outside, r[dp..]))
  {
    var w := l[dp..i];
    assert w == l[..i][dp..] == r[..i][dp..] == r[dp..i];
    assert l[dp..] == w + l[i..] && r[dp..] == w + r[i..];
    DecideShift(l, r, i, dp, zeros);
    DecideLex(w, l[i..], r[i..]);
  }

  lemma RunSnoc(w: Bytes, c: Byte)
    requires Digits(w)
    ensures Digits(w + [c]) <==> Digit(c)
    ensures AllZeros(w + [c]) <==> AllZeros(w) && c == 48
  {
    var v := w + [c];
    assert v[|w|] == c;
    assert forall k :: 0 <= k < |w| ==> v[k] == w[k];
  }

  lemma ScanPasses(l: Bytes, r: Bytes, i: nat, dp: nat, zeros: bool)
    requires Scanned(l, r, i, dp, zeros) && i < |l| && i < |r| && l[i] == r[i]
    ensures if Digit(l[i]) then Scanned(l, r, i + 1, dp, zeros && l[i] == 48) else Scanned(l, r, i + 1, i + 1, true)
    ensures !Digit(l[i]) ==>
      Lex(Key(Outside, l[dp..]), Key(Outside, r[dp..])) == Lex(Key(Outside, l[i + 1..]), Key(Outside, r[i + 1..]))
  {
    var w := l[dp..i];
    assert w == l[..i][dp..] == r[..i][dp..] == r[dp..i];
    assert l[..i + 1] == l[..i] + [l[i]] && r[..i + 1] == r[..i] + [r[i]];
    assert l[dp..i + 1] == w + [l[i]];
    RunSnoc(w, l[i]);
    if !Digit(l[i]) {
      assert l[dp..] == w + [l[i]] + l[i + 1..] && r[dp..] == w + [l[i]] + r[i + 1..];
      KeyPast(w, l[i], l[i + 1..], r[i + 1..]);
    }
  }

  lemma {:induction false} CompareFromLex(l: Bytes, r: Bytes, i: nat, dp: nat, zeros: bool)
    requires Scanned(l, r, i, dp, zeros)
    ensures Sign(CompareFrom(l, r, i, dp, zeros)) == Lex(Key(Outside, l[dp..]), Key(Outside, r[dp..]))
    decreases |l| - i
  {
    if At(l, i) != At(r, i) {
      ScanDecides(l, r, i, dp, zeros);
    } else if i == |l| {
      ScanEnds(l, r, i, dp, zeros);
    } else {
      ScanPasses(l, r, i, dp, zeros);
      if Digit(l[i]) {
        CompareFromLex(l, r, i + 1, dp, zeros && l[i] == 48);
      } else {
        CompareFromLex(l, r, i + 1, i + 1, true);
      }
    }
  }

  lemma ScanEnds(l: Bytes, r: Bytes, i: nat, dp: nat, zeros: bool)
    requires Scanned(l, r, i, dp, zeros) && At(l, i) == At(r, i) && i == |l|
    ensures l == r && Lex(Key(Outside, l[dp..]), Key(Outside, r[dp..])) == 0
  {
    assert l == l[..i] && r == r[..i];
    LexSame(Key(Outside, l[dp..]));
  }

  /** At a difference the answer is not zero. */
  lemma DecideNonzero(l: Bytes, r: Bytes, i: nat, dp: nat, zeros: bool)
    requires i <= |l| && i <= |r| && At(l, i) != At(r, i)
    ensures Decide(l, r, i, dp, zeros) != 0
  {
  }

  lemma {:induction false} ZeroMeansSame(l: Bytes, r: Bytes, i: nat, dp: nat, zeros: bool)
    requires i <= |l| && i <= |r| && l[..i] == r[..i]
    ensures CompareFrom(l, r, i, dp, zeros) == 0 ==> l == r
    decreases |l| - i
  {
    if At(l, i) != At(r, i) {
      DecideNonzero(l, r, i, dp, zeros);
    } else if i == |l| {
      assert l == l[..i] && r == r[..i];
    } else {
      assert l[..i + 1] == l[..i] + [l[i]] && r[..i + 1] == r[..i] + [r[i]];
      if Digit(l[i]) {
        ZeroMeansSame(l, r, i + 1, dp, zeros && l[i] == 48);
      } else {
        ZeroMeansSame(l, r, i + 1, i + 1, true);
      }
    }
  }

  /** strverscmp is the lexicographic comparison of keys, and zero only on equal strings. */
  lemma CompareIsLex(l: Bytes, r: Bytes)
    ensures Sign(Compare(l, r)) == Lex(Key(Outside, l), Key(Outside, r))
    ensures Compare(l, r) == 0 <==> l == r
  {
    CompareFromLex(l, r, 0, 0, true);
    ZeroMeansSame(l, r, 0, 0, true);
    assert l[0..] == l && r[0..] == r;
    LexSame(Key(Outside, l));
  }

  /** Swapping the arguments swaps the sign. */
  lemma CompareAntisymmetric(l: Bytes, r: Bytes)
    ensures Sign(Compare(l, r)) == -Sign(Compare(r, l))
  {
    CompareIsLex(l, r);
    CompareIsLex(r, l);
    LexAntisymmetric(Key(Outside, l), Key(Outside, r));
  }

  /** The order is transitive. */
  lemma CompareTransitive(a: Bytes, b: Bytes, c: Bytes)
    requires Compare(a, b) <= 0 && Compare(b, c) <= 0
    ensures Compare(a, c) <= 0 && (Compare(a, c) == 0 ==> a == b == c)
  {
    CompareIsLex(a, b);
    CompareIsLex(b, c);
    CompareIsLex(a, c);
    LexTransitive(Key(Outside, a), Key(Outside, b), Key(Outside, c));
  }

  // ----- numbers

  /** Canonical decimal digits. */
  function Decimal(n: nat): (d: Bytes)
    ensures d != [] && Digits(d)
  {
    if n < 10 then [48 + n] else Decimal(n / 10) + [48 + n % 10]
  }

  lemma {:induction false} DecimalHead(n: nat)
    requires n > 0
    ensures Decimal(n)[0] != 48
  {
    if n >= 10 {
      DecimalHead(n / 10);
    }
  }

  lemma {:induction false} LexSnoc(a: seq<int>, b: seq<int>, x: int, y: int)
    requires |a| == |b|
    ensures Lex(a + [x], b + [y]) == if Lex(a, b) != 0 then Lex(a, b) else Sign(x - y)
    decreases |a|
  {
    if a != [] {
      assert (a + [x])[1..] == a[1..] + [x] && (b + [y])[1..] == b[1..] + [y];
      if a[0] == b[0] {
        LexSnoc(a[1..], b[1..], x, y);
      }
    }
  }

  /** A smaller number has fewer digits, or as many and smaller ones first. */
  lemma {:induction false} DecimalOrder(m: nat, n: nat)
    requires m < n
    ensures |Decimal(m)| < |Decimal(n)| || (|Decimal(m)| == |Decimal(n)| && Lex(Decimal(m), Decimal(n)) < 0)
    decreases n
  {
    if n >= 10 && m >= 10 {
      if m / 10 < n / 10 {
        DecimalOrder(m / 10, n / 10);
      } else {
        LexSame(Decimal(m / 10));
      }
      if |Decimal(m / 10)| == |Decimal(n / 10)| {
        LexSnoc(Decimal(m / 10), Decimal(n / 10), 48 + m % 10, 48 + n % 10);
      }
    }
  }

  lemma DecimalKeys(m: nat, n: nat)
    requires m < n
    ensures Lex(Key(Outside, Decimal(m)), Key(Outside, Decimal(n))) < 0
  {
    var p, q := Decimal(m), Decimal(n);
    DecimalOrder(m, n);
    DecimalHead(n);
    assert p + [] == p && q + [] == q;
    KeyRun(q, []);
    KeyRun(p, []);
    var a, b := Key(ModeAfter(Outside, p), []), Key(ModeAfter(Outside, q), []);
    if m == 0 {
      LexFirst(48, a, 256 + |q|, q + b);
      assert p == [48];
    } else {
      DecimalHead(m);
      if |p| == |q| {
        LexPrefix([256 + |p|], p + a, q + b);
        LexExtend(p, q, a, b);
      } else {
        LexFirst(256 + |p|, p + a, 256 + |q|, q + b);
      }
    }
  }

  lemma {:induction false} LexExtend(p: seq<int>, q: seq<int>, a: seq<int>, b: seq<int>)
    requires |p| == |q| && Lex(p, q) != 0
    ensures Lex(p + a, q + b) == Lex(p, q)
    decreases |p|
  {
    if p != [] {
      assert (p + a)[1..] == p[1..] + a && (q + b)[1..] == q[1..] + b;
      if p[0] == q[0] {
        LexExtend(p[1..], q[1..], a, b);
      }
    }
  }

  /** A common prefix that does not end in a digit has no influence. */
  lemma {:induction false} SkipPrefix(p: Bytes, l: Bytes, r: Bytes, m: Mode)
    requires p == [] ==> m == Outside
    requires p != [] ==> !Digit(p[|p| - 1])
    ensures Lex(Key(m, p + l), Key(m, p + r)) == Lex(Key(Outside, l), Key(Outside, r))
    decreases |p|
  {
    if p == [] {
      assert p + l == l && p + r == r;
    } else {
      SkipPrefix(p[1..], l, r, NextMode(m, p[0]));
      KeyStep(p, l, m);
      KeyStep(p, r, m);
      LexPrefix(Weights(m, p), Key(NextMode(m, p[0]), p[1..] + l), Key(NextMode(m, p[0]), p[1..] + r));
    }
  }

  lemma KeyStep(p: Bytes, l: Bytes, m: Mode)
    requires p != [] && !Digit(p[|p| - 1])
    ensures Key(m, p + l) == Weights(m, p) + Key(NextMode(m, p[0]), p[1..] + l)
  {
    RunInside(p, l);
    assert (p + l)[1..] == p[1..] + l;
  }

  lemma {:induction false} RunInside(p: Bytes, l: Bytes)
    requires p != [] && !Digit(p[|p| - 1])
    ensures RunLength(p + l) == RunLength(p)
    decreases |p|
  {
    assert (p + l)[1..] == p[1..] + l;
    if Digit(p[0]) {
      RunInside(p[1..], l);
    }
  }

  /** Behind a common prefix that does not end in a digit, numbers are ordered as numbers. */
  lemma NumbersInOrder(p: Bytes, m: nat, n: nat)
    requires p != [] ==> !Digit(p[|p| - 1])
    ensures Sign(Compare(p + Decimal(m), p + Decimal(n))) == Sign(m - n)
  {
    CompareIsLex(p + Decimal(m), p + Decimal(n));
    SkipPrefix(p, Decimal(m), Decimal(n), Outside);
    if m < n {
      DecimalKeys(m, n);
    } else if n < m {
      DecimalKeys(n, m);
      LexAntisymmetric(Key(Outside, Decimal(m)), Key(Outside, Decimal(n)));
    } else {
      LexSame(Key(Outside, Decimal(m)));
    }
  }
}
