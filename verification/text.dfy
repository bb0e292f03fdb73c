/**
 * String helpers with the semantics of the Go `strings`/`strconv` and
 * JavaScript `String.prototype` functions the application calls.
 * Strings are `seq<char>`; one char stands for one byte of the ASCII
 * inputs the application handles (codes, ids, paths, headers). Where
 * Go counts bytes of arbitrary text (`[]byte(s)`), `Utf8` gives them.
 */
module Text {
  import opened Wrappers

  /** JavaScript truthiness of a string that may be `undefined`: present and non-empty. */
  predicate Truthy(o: Option<string>) {
    o.Some? && o.value != ""
  }

  predicate HasPrefix(s: string, p: string) {
    |p| <= |s| && s[..|p|] == p
  }

  predicate HasSuffix(s: string, p: string) {
    |p| <= |s| && s[|s| - |p|..] == p
  }

  /** Go `strings.TrimPrefix`: drops one leading `p` if present. */
  function TrimPrefix(s: string, p: string): (r: string)
    ensures HasPrefix(s, p) ==> p + r == s
    ensures !HasPrefix(s, p) ==> r == s
  {
    if HasPrefix(s, p) then
      assert s == s[..|p|] + s[|p|..];
      s[|p|..]
    else s
  }

  /** Go `strings.TrimSuffix`: drops one trailing `p` if present. */
  function TrimSuffix(s: string, p: string): (r: string)
    ensures HasSuffix(s, p) ==> r + p == s
    ensures !HasSuffix(s, p) ==> r == s
  {
    if HasSuffix(s, p) then
      assert s == s[..|s| - |p|] + s[|s| - |p|..];
      s[..|s| - |p|]
    else s
  }

  /** Go `strings.ReplaceAll` for a one-character pattern and replacement. */
  function ReplaceChar(s: string, from: char, to: char): (r: string)
    ensures |r| == |s|
    ensures forall i :: 0 <= i < |s| ==> r[i] == (if s[i] == from then to else s[i])
    ensures from != to ==> from !in r
  {
    seq(|s|, i requires 0 <= i < |s| => if s[i] == from then to else s[i])
  }

  /** JavaScript `Array.prototype.join` over strings. */
  function Join(parts: seq<string>, sep: string): string
    decreases |parts|
  {
    if |parts| == 0 then ""
    else if |parts| == 1 then parts[0]
    else parts[0] + sep + Join(parts[1..], sep)
  }

  lemma JoinThree(a: string, b: string, c: string, sep: string)
    ensures Join([a, b, c], sep) == a + sep + b + sep + c
  {
    assert [a, b, c][1..] == [b, c];
    assert [b, c][1..] == [c];
    assert Join([c], sep) == c;
    assert Join([b, c], sep) == b + sep + c;
  }

  predicate IsDigit(c: char) {
    '0' <= c <= '9'
  }

  function DigitChar(d: nat): (c: char)
    requires d < 10
    ensures IsDigit(c)
  {
    "0123456789"[d]
  }

  function DigitValue(c: char): (d: nat)
    requires IsDigit(c)
    ensures d < 10
  {
    (c as int - '0' as int) as nat
  }

  /** Decimal rendering of a natural number, as Go's `%d` and JavaScript's template literals print it. */
  function NatToString(n: nat): (r: string)
    ensures |r| >= 1
    ensures forall i :: 0 <= i < |r| ==> IsDigit(r[i])
    decreases n
  {
    if n < 10 then [DigitChar(n)]
    else NatToString(n / 10) + [DigitChar(n % 10)]
  }

  /** Value of a non-empty run of decimal digits. */
  function DigitsValue(s: string): nat
    requires forall i :: 0 <= i < |s| ==> IsDigit(s[i])
    decreases |s|
  {
    if |s| == 0 then 0
    else DigitsValue(s[..|s| - 1]) * 10 + DigitValue(s[|s| - 1])
  }

  lemma {:induction false} DigitsOfNat(n: nat)
    ensures DigitsValue(NatToString(n)) == n
    decreases n
  {
    var s := NatToString(n);
    if n < 10 {
      assert s[..0] == [];
    } else {
      DigitsOfNat(n / 10);
      assert s[..|s| - 1] == NatToString(n / 10);
    }
  }

  const Int64Max: int := 0x7FFF_FFFF_FFFF_FFFF
  const Int64Min: int := -0x8000_0000_0000_0000
  const Uint32Max: int := 0xFFFF_FFFF

  predicate AllDigits(s: string) {
    forall i :: 0 <= i < |s| ==> IsDigit(s[i])
  }

  /**
   * Go `strconv.Atoi` on a 64-bit platform: an optional `+` or `-`, then at
   * least one decimal digit and nothing else, within the int64 range.
   */
  function Atoi(s: string): (r: Option<int>)
    ensures r.Some? ==> Int64Min <= r.value <= Int64Max
    ensures r.Some? ==> (|s| >= 1 && AllDigits(s)) || (|s| >= 2 && (s[0] == '+' || s[0] == '-') && AllDigits(s[1..]))
    ensures |s| >= 1 && AllDigits(s) ==>
              (r.Some? <==> DigitsValue(s) <= Int64Max) && (r.Some? ==> r.value == DigitsValue(s))
    ensures |s| >= 2 && s[0] == '+' && AllDigits(s[1..]) ==>
              (r.Some? <==> DigitsValue(s[1..]) <= Int64Max) && (r.Some? ==> r.value == DigitsValue(s[1..]))
    ensures |s| >= 2 && s[0] == '-' && AllDigits(s[1..]) ==>
              (r.Some? <==> DigitsValue(s[1..]) <= -Int64Min) && (r.Some? ==> r.value == -(DigitsValue(s[1..]) as int))
  {
    if |s| == 0 then None
    else
      var neg := s[0] == '-';
      var body := if s[0] == '-' || s[0] == '+' then s[1..] else s;
      if |body| == 0 || !AllDigits(body) then None
      else
        var v: int := if neg then -(DigitsValue(body) as int) else DigitsValue(body);
        if Int64Min <= v <= Int64Max then Some(v) else None
  }

  /** Go `strconv.ParseUint(s, 10, 32)`: decimal digits only, below 2^32. */
  function ParseUint32(s: string): (r: Option<nat>)
    ensures r.Some? <==> |s| >= 1 && AllDigits(s) && DigitsValue(s) <= Uint32Max
    ensures r.Some? ==> r.value == DigitsValue(s) && r.value <= Uint32Max
  {
    if |s| == 0 || !AllDigits(s) then None
    else if DigitsValue(s) <= Uint32Max then Some(DigitsValue(s))
    else None
  }

  lemma AtoiOfNat(n: nat)
    requires n <= Int64Max
    ensures Atoi(NatToString(n)) == Some(n)
  {
    var s := NatToString(n);
    DigitsOfNat(n);
    assert s[0] != '-' && s[0] != '+' by { assert IsDigit(s[0]); }
  }

  /** A key printed in decimal parses back to itself when it fits in 32 bits. */
  lemma ParseUint32OfNat(n: nat)
    requires n <= Uint32Max
    ensures ParseUint32(NatToString(n)) == Some(n)
  {
    DigitsOfNat(n);
  }

  /** ASCII lower-casing; exact for comparisons against an ASCII word such as "desc". */
  function Lower(s: string): (r: string)
    ensures |r| == |s|
    ensures forall i :: 0 <= i < |s| ==> r[i] == (if 'A' <= s[i] <= 'Z' then (s[i] as int + 32) as char else s[i])
  {
    seq(|s|, i requires 0 <= i < |s| => if 'A' <= s[i] <= 'Z' then (s[i] as int + 32) as char else s[i])
  }

  /** The characters JavaScript's `String.prototype.trim` removes. */
  predicate IsJsSpace(c: char) {
    var k := c as int;
    k == 0x20 || (0x09 <= k <= 0x0D) || k == 0xA0 || k == 0x1680
    || (0x2000 <= k <= 0x200A) || k == 0x2028 || k == 0x2029 || k == 0x202F
    || k == 0x205F || k == 0x3000 || k == 0xFEFF
  }

  function TrimStart(s: string): (r: string)
    ensures |r| <= |s| && r == s[|s| - |r|..]
    ensures |r| > 0 ==> !IsJsSpace(r[0])
    ensures forall i :: 0 <= i < |s| - |r| ==> IsJsSpace(s[i])
    decreases |s|
  {
    if |s| > 0 && IsJsSpace(s[0]) then TrimStart(s[1..]) else s
  }

  function TrimEnd(s: string): (r: string)
    ensures |r| <= |s| && r == s[..|r|]
    ensures |r| > 0 ==> !IsJsSpace(r[|r| - 1])
    ensures forall i :: |r| <= i < |s| ==> IsJsSpace(s[i])
    decreases |s|
  {
    if |s| > 0 && IsJsSpace(s[|s| - 1]) then TrimEnd(s[..|s| - 1]) else s
  }

  /** `r` sits at `i` in `s` with only white space around it. */
  predicate TrimmedFrom(s: string, r: string, i: int) {
    OccursAt(s, r, i) && (forall k :: 0 <= k < i ==> IsJsSpace(s[k])) && (forall k :: i + |r| <= k < |s| ==> IsJsSpace(s[k]))
  }

  /** JavaScript `String.prototype.trim`. */
  function Trim(s: string): string {
    TrimEnd(TrimStart(s))
  }

  /**
   * `Trim` keeps the text between the leading and the trailing white
   * space: what it returns sits inside `s` with only white space around
   * it, and neither starts nor ends with white space.
   */
  lemma TrimStripsSpace(s: string)
    ensures exists i :: TrimmedFrom(s, Trim(s), i)
    ensures var r := Trim(s); |r| > 0 ==> !IsJsSpace(r[0]) && !IsJsSpace(r[|r| - 1])
  {
    var t := TrimStart(s);
    var r := TrimEnd(t);
    assert r == Trim(s);
    var i := |s| - |t|;
    TrimmedAt(s, t, r);
    assert TrimmedFrom(s, r, i);
    assert |r| > 0 ==> r[0] == t[0];
  }

  /** Stripping white space from the front, then from the back, leaves a run of `s` with white space around it. */
  lemma TrimmedAt(s: string, t: string, r: string)
    requires |t| <= |s| && t == s[|s| - |t|..] && forall k :: 0 <= k < |s| - |t| ==> IsJsSpace(s[k])
    requires |r| <= |t| && r == t[..|r|] && forall k :: |r| <= k < |t| ==> IsJsSpace(t[k])
    ensures TrimmedFrom(s, r, |s| - |t|)
  {
    var i := |s| - |t|;
    assert s[i..] == t;
    assert t[..|r|] == r;
    assert s[i..i + |r|] == s[i..][..|r|];
    forall k | i + |r| <= k < |s| ensures IsJsSpace(s[k]) {
      assert s[k] == t[k - i];
    }
  }

  lemma TrimOfEmpty()
    ensures Trim("") == ""
  {
    assert TrimStart("") == "";
  }

  lemma TrimEmptyIffBlank(s: string)
    ensures Trim(s) == "" <==> forall i :: 0 <= i < |s| ==> IsJsSpace(s[i])
  {
  }

  /** `sub` occurs in `s` starting at index `i`. */
  predicate OccursAt(s: string, sub: string, i: int) {
    0 <= i && i + |sub| <= |s| && s[i..i + |sub|] == sub
  }

  /** `sub` occurs somewhere in `s`. */
  predicate Contains(s: string, sub: string) {
    exists i | 0 <= i <= |s| :: OccursAt(s, sub, i)
  }

  /** JavaScript `String.prototype.lastIndexOf` for one character; -1 when absent. */
  function LastIndexOf(s: string, c: char): (r: int)
    ensures -1 <= r < |s|
    ensures r >= 0 ==> s[r] == c
    ensures forall j :: r < j < |s| ==> s[j] != c
    decreases |s|
  {
    if |s| == 0 then -1
    else if s[|s| - 1] == c then |s| - 1
    else LastIndexOf(s[..|s| - 1], c)
  }

  /** JavaScript `String.prototype.slice(start)` for a non-negative start. */
  function SliceFrom(s: string, start: nat): (r: string)
    ensures start >= |s| ==> r == ""
    ensures start < |s| ==> r == s[start..]
  {
    if start >= |s| then "" else s[start..]
  }

  /** `s.split(c)[0]`: the text before the first `c`, or all of `s` when there is none. */
  function SplitFirst(s: string, c: char): (r: string)
    ensures |r| <= |s| && r == s[..|r|]
    ensures c !in r
    ensures |r| < |s| ==> s[|r|] == c
    decreases |s|
  {
    if |s| == 0 || s[0] == c then "" else [s[0]] + SplitFirst(s[1..], c)
  }

  /** A byte of Go's `[]byte(s)`. */
  type Byte = b: int | 0 <= b < 256

  /** The UTF-8 encoding of one character: one byte below 0x80, else a lead byte and continuation bytes. */
  function EncodeChar(c: char): (r: seq<Byte>)
    ensures 1 <= |r| <= 4
    ensures |r| == 1 <==> c as int < 0x80
    ensures |r| == 1 ==> r[0] == c as int
    ensures |r| > 1 ==> forall i :: 0 <= i < |r| ==> r[i] >= 0x80
    ensures forall i :: 1 <= i < |r| ==> 0x80 <= r[i] < 0xC0
    ensures |r| == LeadWidth(r[0])
  {
    var n := c as int;
    if n < 0x80 then [n]
    else if n < 0x800 then [0xC0 + n / 64, 0x80 + n % 64]
    else if n < 0x10000 then [0xE0 + n / 4096, 0x80 + n / 64 % 64, 0x80 + n % 64]
    else [0xF0 + n / 262144, 0x80 + n / 4096 % 64, 0x80 + n / 64 % 64, 0x80 + n % 64]
  }

  /** How many bytes a UTF-8 sequence starting with lead byte `b` takes. */
  function LeadWidth(b: Byte): nat {
    if b < 0x80 then 1 else if b < 0xE0 then 2 else if b < 0xF0 then 3 else 4
  }

  /** The character a UTF-8 sequence of one to four bytes stands for, the partner of `EncodeChar`. */
  function DecodeChar(r: seq<Byte>): int
    requires 1 <= |r| <= 4
  {
    var b := seq(|r|, i requires 0 <= i < |r| => r[i] as int);
    if |b| == 1 then b[0]
    else if |b| == 2 then (b[0] - 0xC0) * 64 + (b[1] - 0x80)
    else if |b| == 3 then (b[0] - 0xE0) * 4096 + (b[1] - 0x80) * 64 + (b[2] - 0x80)
    else (b[0] - 0xF0) * 262144 + (b[1] - 0x80) * 4096 + (b[2] - 0x80) * 64 + (b[3] - 0x80)
  }

  lemma DecodeEncodeChar(c: char)
    ensures DecodeChar(EncodeChar(c)) == c as int
  {
    var n := c as int;
    if n >= 0x80 {
      var a, b := Split64(n);
      if n >= 0x800 {
        var a2, b2 := Split64(a);
        assert n / 4096 == a2 && n / 64 % 64 == b2;
        if n >= 0x10000 {
          var a3, b3 := Split64(a2);
          assert n / 262144 == a3 && n / 4096 % 64 == b3;
        }
      }
    }
  }

  /** `n` in base 64: its quotient and its last digit. */
  lemma Split64(n: nat) returns (q: nat, d: nat)
    ensures q == n / 64 && d == n % 64 && d < 64 && n == q * 64 + d
    ensures q / 64 == n / 4096 && q / 4096 == n / 262144
  {
    q, d := n / 64, n % 64;
  }

  /** Go's `[]byte(s)`: each character's UTF-8 bytes in order. */
  function Utf8(s: string): (r: seq<Byte>)
    ensures |s| <= |r| <= 4 * |s|
    decreases |s|
  {
    if s == [] then [] else EncodeChar(s[0]) + Utf8(s[1..])
  }

  /** ASCII text takes one byte per character, each the character's code. */
  lemma {:induction false} Utf8Ascii(s: string)
    requires forall i :: 0 <= i < |s| ==> s[i] as int < 0x80
    ensures |Utf8(s)| == |s| && forall i :: 0 <= i < |s| ==> Utf8(s)[i] == s[i] as int
    decreases |s|
  {
    if s != [] {
      Utf8Ascii(s[1..]);
      assert Utf8(s) == [s[0] as int] + Utf8(s[1..]);
    }
  }

  /** The bytes hold a zero exactly where the text holds a NUL character. */
  lemma {:induction false} Utf8Zero(s: string)
    ensures 0 in Utf8(s) <==> '\0' in s
    decreases |s|
  {
    if s != [] {
      Utf8Zero(s[1..]);
      var e := EncodeChar(s[0]);
      assert 0 in e <==> s[0] == '\0';
      assert '\0' in s <==> s[0] == '\0' || '\0' in s[1..];
    }
  }

  lemma {:induction false} Utf8Concat(a: string, b: string)
    ensures Utf8(a + b) == Utf8(a) + Utf8(b)
    decreases |a|
  {
    if a != [] {
      var ab := a + b;
      assert ab[0] == a[0] && ab[1..] == a[1..] + b;
      Utf8Concat(a[1..], b);
      assert Utf8(ab) == EncodeChar(a[0]) + (Utf8(a[1..]) + Utf8(b));
    } else {
      assert a + b == b;
    }
  }

  /** Where Go's byte slice `s[n:]` lands: past the end, inside one character's bytes, or between two characters. */
  datatype ByteCut = PastEnd | MidChar | AtChar(rest: string)

  /**
   * Go's `s[n:]` on the bytes of `s`: it panics when `n` runs past the end;
   * between two characters it is the text that follows; inside a
   * character it starts with a continuation byte, which no UTF-8 text does.
   */
  function CutBytes(s: string, n: nat): (r: ByteCut)
    ensures r.PastEnd? <==> |Utf8(s)| < n
    ensures r.AtChar? ==> |r.rest| <= |s| && r.rest == s[|s| - |r.rest|..] && Utf8(r.rest) == Utf8(s)[n..]
    ensures r.MidChar? ==> n < |Utf8(s)| && 0x80 <= Utf8(s)[n] < 0xC0
    decreases |s|
  {
    if n == 0 then AtChar(s)
    else if s == [] then PastEnd
    else
      var e := EncodeChar(s[0]);
      assert Utf8(s) == e + Utf8(s[1..]);
      if n < |e| then MidChar
      else
        var r := CutBytes(s[1..], n - |e|);
        assert r.AtChar? ==> Utf8(s)[n..] == Utf8(s[1..])[n - |e|..];
        assert r.MidChar? ==> Utf8(s)[n] == Utf8(s[1..])[n - |e|];
        r
  }

  /** Cutting exactly the bytes of a prefix leaves the text after it. */
  lemma {:induction false} CutBytesAfterPrefix(p: string, t: string)
    ensures CutBytes(p + t, |Utf8(p)|) == AtChar(t)
    decreases |p|
  {
    if p == [] {
      assert p + t == t;
    } else {
      var e, u := EncodeChar(p[0]), p + t;
      assert Utf8(p) == e + Utf8(p[1..]);
      assert u[0] == p[0] && u[1..] == p[1..] + t;
      assert 0 < |e| <= |Utf8(p)|;
      assert CutBytes(u, |Utf8(p)|) == CutBytes(u[1..], |Utf8(p[1..])|);
      CutBytesAfterPrefix(p[1..], t);
    }
  }

  /** On ASCII text bytes and characters agree: the cut is the character slice. */
  lemma {:induction false} CutBytesAscii(s: string, n: nat)
    requires forall i :: 0 <= i < |s| ==> s[i] as int < 0x80
    ensures CutBytes(s, n) == if |s| < n then PastEnd else AtChar(s[n..])
    decreases |s|
  {
    if n > 0 && s != [] {
      assert |EncodeChar(s[0])| == 1;
      CutBytesAscii(s[1..], n - 1);
      if n <= |s| {
        assert s[1..][n - 1..] == s[n..];
      }
    }
  }

  /** Different strings have different bytes: the encoding can be read back. */
  lemma {:induction false} Utf8Injective(a: string, b: string)
    requires Utf8(a) == Utf8(b)
    ensures a == b
    decreases |a|
  {
    if a != [] && b != [] {
      var ea, eb := EncodeChar(a[0]), EncodeChar(b[0]);
      assert Utf8(a) == ea + Utf8(a[1..]) && Utf8(b) == eb + Utf8(b[1..]);
      assert ea[0] == Utf8(a)[0] == eb[0];
      assert |ea| == |eb|;
      assert ea == Utf8(a)[..|ea|] == eb;
      DecodeEncodeChar(a[0]);
      DecodeEncodeChar(b[0]);
      assert Utf8(a[1..]) == Utf8(a)[|ea|..] == Utf8(b[1..]);
      Utf8Injective(a[1..], b[1..]);
    }
  }
}
