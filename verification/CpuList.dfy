/** CPU lists as sysfs prints them, and the count of usable CPUs. */
module CpuList {
  import opened CStrings

  const FILE_SIZE := 64
  const MASK_BITS := 32

  // ----- numbers

  /** The value of a digit in any base up to sixteen. */
  function DigitOf(c: char): Option<nat> {
    if '0' <= c <= '9' then Some((c - '0') as nat)
    else if 'a' <= c <= 'f' then Some((c - 'a') as nat + 10)
    else if 'A' <= c <= 'F' then Some((c - 'A') as nat + 10)
    else None
  }

  predicate IsDigit(c: char, base: nat) {
    DigitOf(c).Some? && DigitOf(c).value < base
  }

  /** A number with one more digit. */
  function Append(value: nat, base: nat, d: nat): nat {
    value * base + d
  }

  /** Reads digits from `i` on: the value so far carried on, and where they end. */
  function Scan(t: Text, i: nat, base: nat, value: nat): (r: (nat, nat))
    requires i <= |t|
    ensures i <= r.1 <= |t|
    decreases |t| - i
  {
    if i == |t| || !IsDigit(t[i], base) then (value, i)
    else Scan(t, i + 1, base, Append(value, base, DigitOf(t[i]).value))
  }

  function Number(t: Text, i: nat, base: nat): (r: Option<(nat, nat)>)
    requires i <= |t|
    ensures r.Some? ==> i < r.value.1 <= |t|
  {
    var r := Scan(t, i, base, 0);
    if r.1 == i then None else Some(r)
  }

  /** parse_number. */
  method ParseNumber(t: Text, i: nat, base: nat) returns (r: Option<(nat, nat)>)
    requires i <= |t|
    ensures r == Number(t, i, base)
  {
    var p, val: nat := i, 0;
    while p < |t|
      invariant i <= p <= |t|
      invariant Scan(t, i, base, 0) == Scan(t, p, base, val)
    {
      var d := DigitOf(t[p]);
      if d.None? || d.value >= base {
        break;
      }
      val := Append(val, base, d.value);
      p := p + 1;
    }
    r := if p == i then None else Some((val, p));
  }

  // ----- lists

  /** The CPUs from `lo` to `hi` that have a bit. */
  function Span(lo: nat, hi: nat): set<nat> {
    set k: nat | k < MASK_BITS && Within(k, lo, hi)
  }

  predicate Within(k: nat, lo: nat, hi: nat) {
    lo <= k <= hi
  }

  /** What one item stands for; nothing if it is malformed. */
  function ItemBits(t: Text): Option<set<nat>> {
    match Number(t, 0, 10)
    case None => None
    case Some((lo, p)) =>
      if p < |t| && t[p] == '-' then
        match Number(t, p + 1, 10)
        case None => None
        case Some((hi, _)) => Some(Span(lo, hi))
      else Some(Span(lo, lo))
  }

  /** What a list stands for, up to its end, a newline or the first malformed item. */
  function ListBits(s: Text): set<nat>
    decreases |s|
  {
    if s == [] || s[0] == '\n' then {}
    else
      var q := IndexOf(s, ',', 0);
      match ItemBits(s[..q])
      case None => {}
      case Some(bits) => bits + if q < |s| then ListBits(s[q + 1..]) else {}
  }

  class CpuList {
    var mask: set<nat>

    constructor ()
      ensures mask == {}
    {
      mask := {};
    }

    method And(other: CpuList)
      modifies this
      ensures mask == old(mask) * old(other.mask)
    {
      mask := mask * other.mask;
    }

    method Set(index: nat)
      modifies this
      ensures mask == old(mask) + Span(index, index)
    {
      if index < MASK_BITS {
        mask := mask + {index};
      }
    }

    method SetRange(lo: nat, hi: nat)
      modifies this
      ensures mask == old(mask) + Span(lo, hi)
    {
      var val := lo;
      while val <= hi
        invariant lo <= val && (val <= hi + 1 || val == lo)
        invariant val == lo ==> mask == old(mask)
        invariant val > lo ==> mask == old(mask) + Span(lo, val - 1)
        decreases hi - val
      {
        Set(val);
        val := val + 1;
      }
    }

    /** One item of the list, which ends at `q`. */
    method ParseItem(item: Text) returns (ok: bool)
      modifies this
      ensures ok == ItemBits(item).Some?
      ensures mask == if ok then old(mask) + ItemBits(item).value else old(mask)
    {
      var first := ParseNumber(item, 0, 10);
      if first.None? {
        return false;
      }
      var (start, p) := first.value;
      var end := start;
      if p < |item| && item[p] == '-' {
        var second := ParseNumber(item, p + 1, 10);
        if second.None? {
          return false;
        }
        end := second.value.0;
      }
      SetRange(start, end);
      return true;
    }

    /** cpulist_parse. */
    method Parse(line: Text)
      modifies this
      ensures mask == old(mask) + ListBits(line)
    {
      var p := 0;
      while p < |line| && line[p] != '\n'
        invariant p <= |line|
        invariant mask + ListBits(line[p..]) == old(mask) + ListBits(line)
        decreases |line| - p
      {
        var q := IndexOf(line, ',', p);
        ItemAt(line, p, q);
        var ok := ParseItem(line[p..q]);
        if !ok {
          return;
        }
        p := if q < |line| then q + 1 else q;
      }
    }
  }

  lemma {:induction false} IndexShift(s: Text, p: nat, i: nat)
    requires p <= i <= |s|
    ensures IndexOf(s[p..], ',', i - p) == IndexOf(s, ',', i) - p
    decreases |s| - i
  {
    if i < |s| && s[i] != ',' {
      IndexShift(s, p, i + 1);
    }
  }

  lemma ItemAt(s: Text, p: nat, q: nat)
    requires p < |s| && s[p] != '\n' && q == IndexOf(s, ',', p)
    ensures ListBits(s[p..]) ==
      if ItemBits(s[p..q]).None? then {}
      else ItemBits(s[p..q]).value + ListBits(s[if q < |s| then q + 1 else q..])
  {
    IndexShift(s, p, p);
    Slices(s, p, q);
  }

  lemma Slices(s: Text, p: nat, q: nat)
    requires p <= q <= |s|
    ensures s[p..][..q - p] == s[p..q]
    ensures if q < |s| then s[p..][q - p + 1..] == s[q + 1..] else s[q..] == []
  {
  }

  // ----- counting

  /** cpulist_read_from: at most the first 64 characters are read, none if the file is not readable. */
  method ReadFrom(file: Option<Text>) returns (list: CpuList)
    ensures fresh(list) && list.mask == FileBits(file)
  {
    list := new CpuList();
    if file.None? {
      return;
    }
    list.Parse(if |file.value| <= FILE_SIZE then file.value else file.value[..FILE_SIZE]);
  }

  function FileBits(file: Option<Text>): set<nat> {
    if file.None? then {}
    else ListBits(if |file.value| <= FILE_SIZE then file.value else file.value[..FILE_SIZE])
  }

  /** get_cpu_count: the CPUs on both lists. */
  method GetCpuCount(present: Option<Text>, possible: Option<Text>) returns (n: nat)
    ensures n == |FileBits(present) * FileBits(possible)|
  {
    var list := ReadFrom(present);
    var other := ReadFrom(possible);
    list.And(other);
    n := |list.mask|;
  }

  // ----- printing

  /** A nonempty string of decimal digits. */
  predicate Digits(ds: Text) {
    ds != [] && forall i :: 0 <= i < |ds| ==> '0' <= ds[i] <= '9'
  }

  function Value(ds: Text): nat {
    if ds == [] then 0
    else
      var d := DigitOf(ds[|ds| - 1]);
      Append(Value(ds[..|ds| - 1]), 10, if d.Some? then d.value else 0)
  }

  datatype Item = One(n: Text) | Range(lo: Text, hi: Text)

  predicate WellFormed(item: Item) {
    match item
    case One(n) => Digits(n)
    case Range(lo, hi) => Digits(lo) && Digits(hi)
  }

  function Bits(item: Item): set<nat>
    requires WellFormed(item)
  {
    match item
    case One(n) => Span(Value(n), Value(n))
    case Range(lo, hi) => Span(Value(lo), Value(hi))
  }

  function Print(item: Item): Text {
    match item
    case One(n) => n
    case Range(lo, hi) => lo + ['-'] + hi
  }

  function PrintList(items: seq<Item>): Text {
    if items == [] then []
    else if |items| == 1 then Print(items[0])
    else Print(items[0]) + [','] + PrintList(items[1..])
  }

  function BitsOf(items: seq<Item>): set<nat>
    requires forall i :: 0 <= i < |items| ==> WellFormed(items[i])
  {
    if items == [] then {} else Bits(items[0]) + BitsOf(items[1..])
  }

  /** A CPU is among the bits exactly if it has one and an item contains it. */
  lemma {:induction false} BitsMean(items: seq<Item>, k: nat)
    requires forall i :: 0 <= i < |items| ==> WellFormed(items[i])
    ensures k in BitsOf(items) <==> k < MASK_BITS && exists i :: 0 <= i < |items| && Contains(items[i], k)
    decreases |items|
  {
    if items != [] {
      BitsMean(items[1..], k);
      assert Contains(items[0], k) && k < MASK_BITS <==> k in Bits(items[0]);
      if exists i :: 0 <= i < |items[1..]| && Contains(items[1..][i], k) {
        var i :| 0 <= i < |items[1..]| && Contains(items[1..][i], k);
        assert items[i + 1] == items[1..][i];
      }
      if exists i :: 0 <= i < |items| && Contains(items[i], k) {
        var i :| 0 <= i < |items| && Contains(items[i], k);
        assert i > 0 ==> items[1..][i - 1] == items[i];
      }
    }
  }

  predicate Contains(item: Item, k: nat) {
    WellFormed(item) &&
    match item
    case One(n) => k == Value(n)
    case Range(lo, hi) => Value(lo) <= k <= Value(hi)
  }

  /** Digits are read up to what follows them. */
  lemma {:induction false} ScanDigits(t: Text, i: nat, j: nat, e: nat)
    requires i <= j <= e <= |t| && Digits(t[i..e]) && (e < |t| ==> !IsDigit(t[e], 10))
    ensures Scan(t, i, 10, 0) == Scan(t, j, 10, Value(t[i..j]))
    ensures j == e ==> Scan(t, i, 10, 0) == (Value(t[i..e]), e)
    decreases j
  {
    if j > i {
      ScanDigits(t, i, j - 1, e);
      assert t[i..e][j - 1 - i] == t[j - 1];
      assert t[i..j][..j - i - 1] == t[i..j - 1];
    }
  }

  lemma NumberDigits(t: Text, i: nat, e: nat)
    requires i <= e <= |t| && Digits(t[i..e]) && (e < |t| ==> !IsDigit(t[e], 10))
    ensures Number(t, i, 10) == Some((Value(t[i..e]), e))
  {
    ScanDigits(t, i, e, e);
  }

  /** An item is read back, also with a newline behind it. */
  lemma ReadItem(item: Item, tail: Text)
    requires WellFormed(item) && (tail == [] || tail == ['\n'])
    ensures ItemBits(Print(item) + tail) == Some(Bits(item))
  {
    var t := Print(item) + tail;
    match item
    case One(n) =>
      assert t[0..|n|] == n;
      NumberDigits(t, 0, |n|);
    case Range(lo, hi) =>
      assert t[0..|lo|] == lo && t[|lo|] == '-' && t[|lo| + 1..|lo| + 1 + |hi|] == hi;
      NumberDigits(t, 0, |lo|);
      NumberDigits(t, |lo| + 1, |lo| + 1 + |hi|);
  }

  lemma NoComma(item: Item)
    requires WellFormed(item)
    ensures Print(item) != [] && Print(item)[0] != '\n' && ',' !in Print(item)
  {
  }

  lemma {:induction false} IndexPast(s: Text, i: nat, e: nat)
    requires i <= e <= |s| && (forall k :: i <= k < e ==> s[k] != ',') && (e < |s| ==> s[e] == ',')
    ensures IndexOf(s, ',', i) == e
    decreases e - i
  {
    if i < e {
      IndexPast(s, i + 1, e);
    }
  }

  /** Reading what was printed, with or without a newline, gives the CPUs of the items. */
  lemma {:induction false} PrintParse(items: seq<Item>, tail: Text)
    requires (forall i :: 0 <= i < |items| ==> WellFormed(items[i])) && (tail == [] || tail == ['\n'])
    ensures ListBits(PrintList(items) + tail) == BitsOf(items)
    decreases |items|
  {
    if items == [] {
      assert PrintList(items) + tail == tail;
    } else {
      if |items| == 1 {
        LastItem(items[0], tail);
      } else {
        PrintParse(items[1..], tail);
        FirstItem(items[0], PrintList(items[1..]) + tail);
        PrintTail(items, tail);
      }
    }
  }

  lemma PrintTail(items: seq<Item>, tail: Text)
    requires |items| > 1
    ensures PrintList(items) + tail == Print(items[0]) + [','] + (PrintList(items[1..]) + tail)
  {
  }

  lemma LastItem(item: Item, tail: Text)
    requires WellFormed(item) && (tail == [] || tail == ['\n'])
    ensures ListBits(Print(item) + tail) == Bits(item)
  {
    var s := Print(item) + tail;
    NoComma(item);
    ReadItem(item, tail);
    IndexPast(s, 0, |s|);
    assert s[..|s|] == s;
  }

  lemma FirstItem(item: Item, rest: Text)
    requires WellFormed(item)
    ensures ListBits(Print(item) + [','] + rest) == Bits(item) + ListBits(rest)
  {
    var t := Print(item);
    var s := t + [','] + rest;
    NoComma(item);
    IndexPast(s, 0, |t|);
    ReadItem(item, []);
    assert s[..|t|] == t == t + [] && s[|t| + 1..] == rest;
  }

  // ----- lists that the buffer cuts off

  /** The first characters of a printed item. */
  function PieceBits(item: Item, n: nat): set<nat>
    requires WellFormed(item) && n <= |Print(item)|
  {
    if n == 0 then {}
    else
      match item
      case One(ds) => Span(Value(ds[..n]), Value(ds[..n]))
      case Range(lo, hi) =>
        if n <= |lo| then Span(Value(lo[..n]), Value(lo[..n]))
        else if n == |lo| + 1 then {}
        else Span(Value(lo), Value(hi[..n - |lo| - 1]))
  }

  /** The first characters of a printed list: whole items, and the piece at which it is cut. */
  function CutBits(items: seq<Item>, n: nat): set<nat>
    requires forall i :: 0 <= i < |items| ==> WellFormed(items[i])
  {
    if items == [] then {}
    else if n <= |Print(items[0])| then PieceBits(items[0], n)
    else Bits(items[0]) + CutBits(items[1..], n - |Print(items[0])| - 1)
  }

  lemma PieceWhole(item: Item)
    requires WellFormed(item)
    ensures PieceBits(item, |Print(item)|) == Bits(item)
  {
    match item
    case One(ds) => assert ds[..|ds|] == ds;
    case Range(lo, hi) => assert hi[..|hi|] == hi;
  }

  lemma CutOne(item: Item, n: nat)
    requires WellFormed(item) && |Print(item)| <= n
    ensures CutBits([item], n) == Bits(item) == BitsOf([item])
  {
    PieceWhole(item);
    assert [item][1..] == [];
    assert Bits(item) + {} == Bits(item);
  }

  lemma PrintLonger(items: seq<Item>)
    requires |items| > 1
    ensures |PrintList(items)| == |Print(items[0])| + 1 + |PrintList(items[1..])|
  {
  }

  /** Nothing is lost of a list that fits. */
  lemma {:induction false} CutWhole(items: seq<Item>, n: nat)
    requires (forall i :: 0 <= i < |items| ==> WellFormed(items[i])) && |PrintList(items)| <= n
    ensures CutBits(items, n) == BitsOf(items)
    decreases |items|
  {
    if |items| == 1 {
      assert items == [items[0]];
      CutOne(items[0], n);
    } else if items != [] {
      PrintLonger(items);
      CutWhole(items[1..], n - |Print(items[0])| - 1);
    }
  }

  /** A text without a comma is one item. */
  lemma OneItem(s: Text)
    requires ',' !in s && s != [] && s[0] != '\n'
    ensures ListBits(s) == if ItemBits(s).Some? then ItemBits(s).value else {}
  {
    IndexPast(s, 0, |s|);
    assert s[..|s|] == s;
  }

  lemma ReadPiece(item: Item, n: nat)
    requires WellFormed(item) && n <= |Print(item)|
    ensures ListBits(Print(item)[..n]) == PieceBits(item, n)
  {
    if n > 0 {
      NoComma(item);
      OneItem(Print(item)[..n]);
      PieceItem(item, n);
    }
  }

  lemma PieceItem(item: Item, n: nat)
    requires WellFormed(item) && 0 < n <= |Print(item)|
    ensures var bits := ItemBits(Print(item)[..n]); PieceBits(item, n) == if bits.Some? then bits.value else {}
  {
    var s := Print(item)[..n];
    match item
    case One(ds) => NumberPart(s, ds, n);
    case Range(lo, hi) =>
      if n <= |lo| {
        assert s == lo[..n];
        NumberPart(s, lo, n);
      } else {
        PieceOfRange(lo, hi, n);
      }
  }

  lemma PieceOfRange(lo: Text, hi: Text, n: nat)
    requires Digits(lo) && Digits(hi) && |lo| < n <= |lo + ['-'] + hi|
    ensures ItemBits((lo + ['-'] + hi)[..n])
         == if n == |lo| + 1 then None else Some(Span(Value(lo), Value(hi[..n - |lo| - 1])))
  {
    var s := (lo + ['-'] + hi)[..n];
    assert s[0..|lo|] == lo && s[|lo|] == '-';
    NumberDigits(s, 0, |lo|);
    if n > |lo| + 1 {
      assert s[|lo| + 1..n] == hi[..n - |lo| - 1];
      NumberDigits(s, |lo| + 1, n);
    }
  }

  lemma NumberPart(s: Text, ds: Text, n: nat)
    requires Digits(ds) && 0 < n <= |ds| && s == ds[..n]
    ensures Number(s, 0, 10) == Some((Value(s), n))
  {
    assert s[0..n] == s;
    NumberDigits(s, 0, n);
  }

  /** What is read of a list cut off anywhere. */
  lemma {:induction false} CutParse(items: seq<Item>, tail: Text, n: nat)
    requires (forall i :: 0 <= i < |items| ==> WellFormed(items[i])) && (tail == [] || tail == ['\n'])
    requires n <= |PrintList(items) + tail|
    ensures ListBits((PrintList(items) + tail)[..n]) == CutBits(items, n)
    decreases |items|
  {
    var s := PrintList(items) + tail;
    if items == [] {
      assert s[..n] == tail[..n];
    } else if n <= |Print(items[0])| {
      PrintStart(items, tail, n);
      ReadPiece(items[0], n);
    } else if |items| == 1 {
      assert items == [items[0]] && s == Print(items[0]) + tail && s[..n] == s;
      LastItem(items[0], tail);
      CutOne(items[0], n);
    } else {
      var m := n - |Print(items[0])| - 1;
      PrintTail(items, tail);
      CutParse(items[1..], tail, m);
      CutStep(items[0], PrintList(items[1..]) + tail, n, CutBits(items[1..], m));
    }
  }

  lemma PrintStart(items: seq<Item>, tail: Text, n: nat)
    requires items != [] && n <= |Print(items[0])|
    ensures n <= |PrintList(items) + tail| && (PrintList(items) + tail)[..n] == Print(items[0])[..n]
  {
  }

  lemma CutStep(item: Item, rest: Text, n: nat, bits: set<nat>)
    requires WellFormed(item) && |Print(item)| < n <= |Print(item) + [','] + rest|
    requires ListBits(rest[..n - |Print(item)| - 1]) == bits
    ensures ListBits((Print(item) + [','] + rest)[..n]) == Bits(item) + bits
  {
    var cut := rest[..n - |Print(item)| - 1];
    assert (Print(item) + [','] + rest)[..n] == Print(item) + [','] + cut;
    FirstItem(item, cut);
  }

  lemma FileCut(items: seq<Item>, tail: Text)
    requires (forall i :: 0 <= i < |items| ==> WellFormed(items[i])) && (tail == [] || tail == ['\n'])
    ensures FileBits(Some(PrintList(items) + tail)) == CutBits(items, FILE_SIZE)
  {
    if |PrintList(items) + tail| <= FILE_SIZE {
      PrintParse(items, tail);
      CutWhole(items, FILE_SIZE);
    } else {
      CutParse(items, tail, FILE_SIZE);
    }
  }

  /** The count is that of the CPUs on both lists, as far as they fit the buffer; all of them if they do. */
  lemma CountCommon(present: seq<Item>, possible: seq<Item>, tail: Text)
    requires (forall i :: 0 <= i < |present| ==> WellFormed(present[i])) && (tail == [] || tail == ['\n'])
    requires forall i :: 0 <= i < |possible| ==> WellFormed(possible[i])
    ensures |FileBits(Some(PrintList(present) + tail)) * FileBits(Some(PrintList(possible) + tail))|
         == |CutBits(present, FILE_SIZE) * CutBits(possible, FILE_SIZE)|
    ensures |PrintList(present)| <= FILE_SIZE && |PrintList(possible)| <= FILE_SIZE ==>
      CutBits(present, FILE_SIZE) * CutBits(possible, FILE_SIZE) == BitsOf(present) * BitsOf(possible)
  {
    FileCut(present, tail);
    FileCut(possible, tail);
    if |PrintList(present)| <= FILE_SIZE && |PrintList(possible)| <= FILE_SIZE {
      CutWhole(present, FILE_SIZE);
      CutWhole(possible, FILE_SIZE);
    }
  }
}
