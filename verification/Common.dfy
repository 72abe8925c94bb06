/** Small shared vocabulary: optional values, and the one fact about folds that order
    independence rests on. */
module Common {
  datatype Option<+T> = None | Some(value: T) {
    function GetOr(default: T): T {
      if Some? then value else default
    }
  }

  /** Left fold: the elements are fed to `f` first to last. */
  function Fold<S, T>(f: (S, T) -> T, init: T, xs: seq<S>): T {
    if xs == [] then init else f(xs[|xs| - 1], Fold(f, init, xs[..|xs| - 1]))
  }

  // Feeding two elements in either order makes no difference.
  ghost predicate LeftCommutes<S(!new), T(!new)>(f: (S, T) -> T) {
    forall a, b, t :: f(a, f(b, t)) == f(b, f(a, t))
  }

  lemma {:induction false} FoldMoveToEnd<S(!new), T(!new)>(f: (S, T) -> T, init: T, xs: seq<S>, i: nat)
    requires LeftCommutes(f) && i < |xs|
    ensures Fold(f, init, xs) == f(xs[i], Fold(f, init, xs[..i] + xs[i + 1..]))
  {
    var n := |xs| - 1;
    if i < n {
      FoldMoveToEnd(f, init, xs[..n], i);
      var without := xs[..i] + xs[i + 1..];
      assert without[..n - 1] == xs[..n][..i] + xs[..n][i + 1..];
    } else {
      assert xs[..i] + xs[i + 1..] == xs[..n];
    }
  }

  lemma WithoutOne<S>(xs: seq<S>, i: nat)
    requires i < |xs|
    ensures multiset(xs) == multiset(xs[..i] + xs[i + 1..]) + multiset{xs[i]}
  {
    assert xs == xs[..i] + [xs[i]] + xs[i + 1..];
  }

  // Two maps with the same keys and values.
  lemma SameMap<K, V>(m: map<K, V>, n: map<K, V>)
    requires m.Keys == n.Keys && forall k | k in m :: m[k] == n[k]
    ensures m == n
  {
  }

  /** A commuting fold depends only on which elements there are, not on their order. */
  lemma {:induction false} FoldPermutation<S(!new), T(!new)>(f: (S, T) -> T, init: T, xs: seq<S>, ys: seq<S>)
    requires LeftCommutes(f) && multiset(xs) == multiset(ys)
    ensures Fold(f, init, xs) == Fold(f, init, ys)
  {
    assert |xs| == |multiset(xs)| == |multiset(ys)| == |ys|;
    if xs != [] {
      var n := |xs| - 1;
      var x := xs[n];
      assert xs == xs[..n] + [x];
      assert multiset(xs) == multiset(xs[..n]) + multiset{x};
      assert x in multiset(ys);
      var i :| 0 <= i < |ys| && ys[i] == x;
      var rest := ys[..i] + ys[i + 1..];
      WithoutOne(ys, i);
      assert multiset(rest) == multiset(ys) - multiset{x};
      assert multiset(xs[..n]) == multiset(xs) - multiset{x};
      FoldMoveToEnd(f, init, ys, i);
      FoldPermutation(f, init, xs[..n], rest);
    }
  }
}

/** Byte strings as Python's `bytes`, with the three text encodings the code uses:
    UTF-8, lowercase hex (`bytes.hex`) and the lenient reader `bytes.fromhex`. */
module Bytes {
  import opened Common

  type Byte = b: int | 0 <= b < 256
  type Bytes = seq<Byte>

  // SHA-256 output: 32 bytes.
  type Digest = d: Bytes | |d| == 32 witness seq(32, i => 0)

  predicate IsAscii(s: string) {
    forall i :: 0 <= i < |s| ==> s[i] as int < 128
  }

  /** `str.encode("utf-8")` of one scalar value. */
  function Utf8Char(c: char): (r: Bytes)
    ensures 1 <= |r| <= 4
    ensures |r| == 1 <==> c as int < 128
  {
    var n := c as int;
    if n < 0x80 then [n]
    else if n < 0x800 then [0xC0 + n / 64, 0x80 + n % 64]
    else if n < 0x10000 then [0xE0 + n / 4096, 0x80 + n / 64 % 64, 0x80 + n % 64]
    else [0xF0 + n / 262144, 0x80 + n / 4096 % 64, 0x80 + n / 64 % 64, 0x80 + n % 64]
  }

  function Utf8(s: string): (r: Bytes)
    ensures |r| >= |s|
    ensures |r| == |s| <==> IsAscii(s)
  {
    if s == "" then [] else Utf8Char(s[0]) + Utf8(s[1..])
  }

  lemma {:induction false} Utf8Concat(a: string, b: string)
    ensures Utf8(a + b) == Utf8(a) + Utf8(b)
  {
    if a == "" {
      assert a + b == b;
    } else {
      assert (a + b)[1..] == a[1..] + b;
      Utf8Concat(a[1..], b);
    }
  }

  // On ASCII text the encoding is one byte per character, so it can be undone.
  lemma {:induction false} Utf8AsciiAt(s: string, i: nat)
    requires IsAscii(s) && i < |s|
    ensures |Utf8(s)| == |s| && Utf8(s)[i] == s[i] as int
  {
    if i > 0 {
      Utf8AsciiAt(s[1..], i - 1);
    }
  }

  lemma Utf8AsciiInjective(a: string, b: string)
    requires IsAscii(a) && IsAscii(b)
    requires Utf8(a) == Utf8(b)
    ensures a == b
  {
    assert |a| == |b|;
    forall i | 0 <= i < |a|
      ensures a[i] == b[i]
    {
      Utf8AsciiAt(a, i);
      Utf8AsciiAt(b, i);
    }
  }

  // Reading UTF-8 back (section 3 of RFC 3629): the number in the lead byte, and six bits from each
  // byte that follows.

  function Follow(n: Option<int>, bs: Bytes, k: nat): Option<int> {
    if n.Some? && k < |bs| && 0x80 <= bs[k] < 0xC0 then Some(n.value * 64 + (bs[k] - 0x80)) else None
  }

  function CodePoint(bs: Bytes): (Option<int>, nat)
    requires bs != []
  {
    var b: int := bs[0];
    if b < 0x80 then (Some(b), 1)
    else if 0xC0 <= b < 0xE0 then (Follow(Some(b - 0xC0), bs, 1), 2)
    else if 0xE0 <= b < 0xF0 then (Follow(Follow(Some(b - 0xE0), bs, 1), bs, 2), 3)
    else if 0xF0 <= b < 0xF8 then (Follow(Follow(Follow(Some(b - 0xF0), bs, 1), bs, 2), bs, 3), 4)
    else (None, 1)
  }

  function DecodeUtf8(bs: Bytes): Option<string>
    decreases |bs|
  {
    if bs == [] then Some("")
    else
      var (n, used) := CodePoint(bs);
      if n.None? || used > |bs| || !(0 <= n.value < 0xD800 || 0xE000 <= n.value < 0x11_0000) then None
      else
        var rest := DecodeUtf8(bs[used..]);
        if rest.None? then None else Some([n.value as char] + rest.value)
  }

  lemma CharReadsBack(c: char, rest: Bytes)
    ensures CodePoint(Utf8Char(c) + rest) == (Some(c as int), |Utf8Char(c)|)
  {
    var n := c as int;
    if 0x800 <= n < 0x10000 {
      assert n / 64 == n / 4096 * 64 + n / 64 % 64;
    } else if n >= 0x10000 {
      assert n / 4096 == n / 262144 * 64 + n / 4096 % 64;
      assert n / 64 == n / 4096 * 64 + n / 64 % 64;
    }
  }

  /** The encoding can be undone, so no two texts share their bytes. */
  lemma {:induction false} Utf8ReadsBack(s: string)
    ensures DecodeUtf8(Utf8(s)) == Some(s)
  {
    if s != "" {
      var head, rest := Utf8Char(s[0]), Utf8(s[1..]);
      CharReadsBack(s[0], rest);
      Utf8ReadsBack(s[1..]);
      assert (head + rest)[|head|..] == rest;
      assert [s[0]] + s[1..] == s;
      hide Utf8Char, CodePoint;
    }
  }

  function HexDigit(d: int): (c: char)
    requires 0 <= d < 16
    ensures c as int < 128
  {
    if d < 10 then ('0' as int + d) as char else ('a' as int + d - 10) as char
  }

  /** Value of a hex digit in either case, -1 for any other character. */
  function HexValue(c: char): (d: int)
    ensures -1 <= d < 16
    ensures forall k | 0 <= k < 16 && c == HexDigit(k) :: d == k
  {
    if '0' <= c <= '9' then c as int - '0' as int
    else if 'a' <= c <= 'f' then c as int - 'a' as int + 10
    else if 'A' <= c <= 'F' then c as int - 'A' as int + 10
    else -1
  }

  /** `bytes.hex()` */
  function Hex(bs: Bytes): (s: string)
    ensures |s| == 2 * |bs| && IsAscii(s)
  {
    if bs == [] then "" else [HexDigit(bs[0] / 16), HexDigit(bs[0] % 16)] + Hex(bs[1..])
  }

  predicate IsHexSpace(c: char) {
    c == ' ' || 9 <= c as int <= 13
  }

  /** `bytes.fromhex(s)`: both cases accepted, ASCII white space skipped between bytes,
      None where Python raises ValueError. */
  function FromHex(s: string): Option<Bytes> {
    if s == "" then Some([])
    else if IsHexSpace(s[0]) then FromHex(s[1..])
    else if |s| < 2 || HexValue(s[0]) < 0 || HexValue(s[1]) < 0 then None
    else match FromHex(s[2..])
      case None => None
      case Some(rest) => Some([16 * HexValue(s[0]) + HexValue(s[1])] + rest)
  }

  /** Sixteen digits, the letters in either case, and nothing else. */
  lemma HexValues(c: char)
    ensures forall k | 0 <= k < 16 ::
              HexValue("0123456789abcdef"[k]) == k && HexValue("0123456789ABCDEF"[k]) == k
    ensures HexValue(c) >= 0 ==> c == "0123456789abcdef"[HexValue(c)] || c == "0123456789ABCDEF"[HexValue(c)]
  {
  }

  /** What `bytes.fromhex` makes of a text's first characters: blanks, tabs, line ends, vertical tabs
      and form feeds between bytes are skipped, two digits are a byte, and anything else is an error. */
  lemma FromHexReads(c: char, d: char, s: string)
    ensures c in [' ', 9 as char, 10 as char, 11 as char, 12 as char, 13 as char] ==> FromHex([c] + s) == FromHex(s)
    ensures HexValue(c) >= 0 && HexValue(d) >= 0 && FromHex(s).Some? ==>
              FromHex([c, d] + s) == Some([16 * HexValue(c) + HexValue(d)] + FromHex(s).value)
    ensures HexValue(c) < 0 && c !in [' ', 9 as char, 10 as char, 11 as char, 12 as char, 13 as char] ==>
              FromHex([c] + s).None?
    ensures HexValue(c) >= 0 && HexValue(d) < 0 ==> FromHex([c, d] + s).None? && FromHex([c]).None?
  {
    assert ([c] + s)[1..] == s;
    if HexValue(c) >= 0 && HexValue(d) >= 0 {
      FromHexPair(c, d, s);
    }
  }

  predicate IsLowerHex(s: string) {
    forall i :: 0 <= i < |s| ==> '0' <= s[i] <= '9' || 'a' <= s[i] <= 'f'
  }

  lemma FromHexPair(c: char, d: char, rest: string)
    requires HexValue(c) >= 0 && HexValue(d) >= 0
    ensures FromHex([c, d] + rest) == match FromHex(rest)
                                      case None => None
                                      case Some(bs) => Some([16 * HexValue(c) + HexValue(d)] + bs)
  {
    var s := [c, d] + rest;
    assert s[0] == c && s[1] == d && s[2..] == rest;
    assert !IsHexSpace(c);
  }

  // Reading back what `bytes.hex` wrote.
  lemma {:induction false} FromHexOfHex(bs: Bytes)
    ensures FromHex(Hex(bs)) == Some(bs)
  {
    if bs != [] {
      FromHexOfHex(bs[1..]);
      var hi, lo := HexDigit(bs[0] / 16), HexDigit(bs[0] % 16);
      assert HexValue(hi) == bs[0] / 16 && HexValue(lo) == bs[0] % 16;
      FromHexPair(hi, lo, Hex(bs[1..]));
      assert bs == [bs[0]] + bs[1..];
    }
  }

  lemma LowerDigit(c: char)
    requires '0' <= c <= '9' || 'a' <= c <= 'f'
    ensures HexValue(c) >= 0 && HexDigit(HexValue(c)) == c
  {
  }

  // Lowercase hex text of even length is exactly what `bytes.hex` writes for what it decodes to.
  lemma {:induction false} HexOfFromHex(s: string)
    requires IsLowerHex(s) && |s| % 2 == 0
    ensures FromHex(s).Some? && Hex(FromHex(s).value) == s
  {
    if s != "" {
      var c, d, rest := s[0], s[1], s[2..];
      HexOfFromHex(rest);
      LowerDigit(c);
      LowerDigit(d);
      FromHexPair(c, d, rest);
      assert s == [c, d] + rest;
      var bs := FromHex(rest).value;
      var b: Byte := 16 * HexValue(c) + HexValue(d);
      assert b / 16 == HexValue(c) && b % 16 == HexValue(d);
      assert ([b] + bs)[1..] == bs;
    }
  }

  lemma HexInjective(a: Bytes, b: Bytes)
    requires Hex(a) == Hex(b)
    ensures a == b
  {
    FromHexOfHex(a);
    FromHexOfHex(b);
  }
}
