/**
 * The JavaScript string and number semantics that the route handlers rely on:
 * `slice`/`substring`/`substr` index clamping, `lastIndexOf`, `trim`,
 * `Number(...)` on the two-character prefixes the handlers parse, `parseInt`,
 * number-to-string conversion, `split('\t')` and `join('\t')`, the
 * insertion order of a `Map`, and the default `Array.prototype.sort` order.
 *
 * Strings are sequences of characters; a JavaScript `null`/`undefined` that a
 * handler reads in place of a string is `None`.
 */
module JsText {

  datatype Option<T> = None | Some(value: T)

  // ---------------------------------------------------------------------
  // Truthiness of optional strings: `v || fallback`
  // ---------------------------------------------------------------------

  /** A string value is truthy in JavaScript iff it is present and non-empty. */
  predicate Truthy(v: Option<string>) {
    v.Some? && v.value != ""
  }

  /** `a || b` on two optional strings. */
  function Or(a: Option<string>, b: Option<string>): Option<string> {
    if Truthy(a) then a else b
  }

  /** `(v || '')`: the string itself, or the empty string when it is missing. */
  function OrEmpty(v: Option<string>): string {
    if v.Some? then v.value else ""
  }

  /** `${v}` for a value that may be `null`. */
  function Render(v: Option<string>): string {
    if v.Some? then v.value else "null"
  }

  // ---------------------------------------------------------------------
  // Index clamping of slice / substring / substr
  // ---------------------------------------------------------------------

  function Min(a: int, b: int): int { if a < b then a else b }
  function Max(a: int, b: int): int { if a < b then b else a }

  /** The position `slice` uses for argument `i` on a string of length `n`:
      negative arguments count from the end, and both ends clamp. */
  function RelIndex(i: int, n: nat): (k: nat)
    ensures k <= n
  {
    if i < 0 then Max(n + i, 0) else Min(i, n)
  }

  /** `s.slice(start, end)`. */
  function Slice(s: string, start: int, end: int): (r: string)
    ensures |r| <= |s|
  {
    var a := RelIndex(start, |s|);
    var b := RelIndex(end, |s|);
    if a < b then s[a..b] else ""
  }

  /** Within bounds, `slice` is the plain subsequence. */
  lemma SliceWithin(s: string, start: int, end: int)
    requires 0 <= start <= end <= |s|
    ensures Slice(s, start, end) == s[start..end]
  {
  }

  /** A piece of a piece of `s` is a piece of `s`. */
  lemma SliceOfSlice(s: string, a: nat, b: nat, c: nat, d: nat)
    requires a <= b <= |s| && c <= d <= b - a
    ensures s[a..b][c..d] == s[a + c..a + d]
  {
    assert forall k :: 0 <= k < d - c ==> s[a..b][c..d][k] == s[a + c + k];
  }

  /** `s.slice(start)` (and `s.substr(start)`, which treats its one argument the same way). */
  function SliceFrom(s: string, start: int): (r: string)
    ensures |r| <= |s|
  {
    Slice(s, start, |s|)
  }

  /** `s.substring(start, end)`: both arguments clamp to [0, |s|] and are swapped when reversed. */
  function Substring(s: string, start: int, end: int): (r: string)
    ensures |r| <= |s|
  {
    var a := Max(Min(start, |s|), 0);
    var b := Max(Min(end, |s|), 0);
    if a <= b then s[a..b] else s[b..a]
  }

  lemma SliceFromTail(s: string, k: int)
    requires k >= 1  // `slice(-0)` is `slice(0)`, the whole string
    ensures |s| <= k ==> SliceFrom(s, -k) == s
    ensures k <= |s| ==> SliceFrom(s, -k) == s[|s| - k..]
  {
    assert RelIndex(|s|, |s|) == |s|;
    if k <= |s| {
      assert RelIndex(-k, |s|) == |s| - k;
    } else {
      assert RelIndex(-k, |s|) == 0;
    }
  }

  /** `(z + t).slice(-|z|)`: the last |z| characters, so `t` left-padded with the tail of
      `z` when it is shorter, and the tail of `t` when it is longer. */
  lemma SliceFromPadded(z: string, t: string)
    requires |z| >= 1
    ensures |SliceFrom(z + t, -|z|)| == |z|
    ensures |t| <= |z| ==> SliceFrom(z + t, -|z|) == z[|t|..] + t
    ensures |t| >= |z| ==> SliceFrom(z + t, -|z|) == t[|t| - |z|..]
  {
    SliceFromTail(z + t, |z|);
    var s := z + t;
    if |t| <= |z| {
      assert s[|s| - |z|..] == z[|t|..] + t;
    } else {
      assert s[|s| - |z|..] == t[|t| - |z|..];
    }
  }

  lemma SlicePrefix(s: string, k: nat)
    ensures Slice(s, 0, k) == s[..Min(k, |s|)]
  {
  }

  /** `s.lastIndexOf(c)`: the last position holding `c`, or -1. */
  function LastIndexOf(s: string, c: char): (k: int)
    ensures -1 <= k < |s|
    ensures k >= 0 ==> s[k] == c
    ensures forall j :: k < j < |s| ==> s[j] != c
  {
    if s == [] then -1
    else if s[|s| - 1] == c then |s| - 1
    else LastIndexOf(s[..|s| - 1], c)
  }

  /** The text after the last `c` (the whole string when there is none):
      `s.substring(s.lastIndexOf(c) + 1)`. */
  function AfterLast(s: string, c: char): (r: string)
    ensures c !in r
  {
    var k := LastIndexOf(s, c) + 1;
    var r := Substring(s, k, |s|);
    assert r == s[k..];
    forall i | 0 <= i < |r| ensures r[i] != c {
      assert r[i] == s[k + i];
    }
    r
  }

  /** The text up to and including the last `c` (empty when there is none):
      `s.substring(0, s.lastIndexOf(c) + 1)`. */
  function UpToLast(s: string, c: char): (r: string)
  {
    Substring(s, 0, LastIndexOf(s, c) + 1)
  }

  lemma SplitAtLast(s: string, c: char)
    ensures UpToLast(s, c) + AfterLast(s, c) == s
    ensures UpToLast(s, c) == [] || UpToLast(s, c)[|UpToLast(s, c)| - 1] == c
  {
  }

  /** The last `c` of `p + q`, where `p` ends in `c` and `q` holds no `c`, is the one ending `p`. */
  lemma LastIndexOfAppend(p: string, q: string, c: char)
    requires p != [] && p[|p| - 1] == c && c !in q
    ensures LastIndexOf(p + q, c) == |p| - 1
    decreases |q|
  {
    if q != [] {
      assert (p + q)[..|p + q| - 1] == p + q[..|q| - 1];
      LastIndexOfAppend(p, q[..|q| - 1], c);
    } else {
      assert p + q == p;
    }
  }

  lemma LastIndexOfAbsent(q: string, c: char)
    requires c !in q
    ensures LastIndexOf(q, c) == -1
    decreases |q|
  {
    if q != [] {
      LastIndexOfAbsent(q[..|q| - 1], c);
    }
  }

  // ---------------------------------------------------------------------
  // Whitespace and trim
  // ---------------------------------------------------------------------

  /** The characters `String.prototype.trim` and `Number(...)` strip: the
      ECMAScript WhiteSpace and LineTerminator code points. */
  predicate IsJsSpace(c: char) {
    var n := c as int;
    n == 0x09 || n == 0x0A || n == 0x0B || n == 0x0C || n == 0x0D || n == 0x20 ||
    n == 0xA0 || n == 0x1680 || (0x2000 <= n <= 0x200A) || n == 0x2028 || n == 0x2029 ||
    n == 0x202F || n == 0x205F || n == 0x3000 || n == 0xFEFF
  }

  function TrimStart(s: string): (r: string)
    ensures |r| <= |s| && r == s[|s| - |r|..]
    ensures r == [] || !IsJsSpace(r[0])
  {
    if s != [] && IsJsSpace(s[0]) then TrimStart(s[1..]) else s
  }

  function TrimEnd(s: string): (r: string)
    ensures |r| <= |s| && r == s[..|r|]
    ensures r == [] || !IsJsSpace(r[|r| - 1])
  {
    if s != [] && IsJsSpace(s[|s| - 1]) then TrimEnd(s[..|s| - 1]) else s
  }

  /** `s.trim()`: the piece of `s` left once the white space at both ends is removed.
      It has no white space at either end; `TrimCut` shows that everything cut off was
      white space. */
  function Trim(s: string): (r: string)
    ensures |r| <= |s|
    ensures r == [] || (!IsJsSpace(r[0]) && !IsJsSpace(r[|r| - 1]))
    ensures forall c :: c in r ==> c in s
  {
    var t := TrimStart(s);
    var r := TrimEnd(t);
    forall c | c in r ensures c in s {
      var i :| 0 <= i < |r| && r[i] == c;
      assert s[|s| - |t| + i] == c;
    }
    r
  }

  /** `TrimStart` removes only white space. */
  lemma {:induction false} TrimStartCut(s: string)
    ensures forall i :: 0 <= i < |s| - |TrimStart(s)| ==> IsJsSpace(s[i])
  {
    if s != [] && IsJsSpace(s[0]) {
      TrimStartCut(s[1..]);
      forall i | 1 <= i < |s| - |TrimStart(s)| ensures IsJsSpace(s[i]) {
        assert s[i] == s[1..][i - 1];
      }
    }
  }

  /** `TrimEnd` removes only white space. */
  lemma {:induction false} TrimEndCut(s: string)
    ensures forall i :: |TrimEnd(s)| <= i < |s| ==> IsJsSpace(s[i])
  {
    if s != [] && IsJsSpace(s[|s| - 1]) {
      TrimEndCut(s[..|s| - 1]);
    }
  }

  /** `r` is the piece of `s` starting at `i`, and everything of `s` outside it is white
      space. */
  predicate SpaceAround(s: string, r: string, i: int) {
    0 <= i <= |s| - |r| && r == s[i..i + |r|] &&
    (forall k :: 0 <= k < i ==> IsJsSpace(s[k])) && (forall k :: i + |r| <= k < |s| ==> IsJsSpace(s[k]))
  }

  /** `s.trim()` is the piece of `s` that starts after the white space `TrimStart`
      removes, and everything of `s` outside it is white space. */
  lemma TrimCut(s: string)
    ensures SpaceAround(s, Trim(s), |s| - |TrimStart(s)|)
  {
    var t := TrimStart(s);
    TrimStartCut(s);
    TrimEndCut(t);
    SpaceAroundOf(s, t, TrimEnd(t));
  }

  lemma SpaceAroundOf(s: string, t: string, r: string)
    requires |t| <= |s| && t == s[|s| - |t|..] && forall i :: 0 <= i < |s| - |t| ==> IsJsSpace(s[i])
    requires |r| <= |t| && r == t[..|r|] && forall i :: |r| <= i < |t| ==> IsJsSpace(t[i])
    ensures SpaceAround(s, r, |s| - |t|)
  {
    var i0 := |s| - |t|;
    assert r == s[i0..i0 + |r|];
    forall k | i0 + |r| <= k < |s| ensures IsJsSpace(s[k]) {
      assert s[k] == t[k - i0];
    }
  }

  // ---------------------------------------------------------------------
  // Decimal digits
  // ---------------------------------------------------------------------

  predicate IsDigit(c: char) { '0' <= c <= '9' }

  predicate AllDigits(s: string) { forall i :: 0 <= i < |s| ==> IsDigit(s[i]) }

  function DigitValue(c: char): nat
    requires IsDigit(c)
  {
    (c as int) - ('0' as int)
  }

  function DigitChar(d: nat): (c: char)
    requires d < 10
    ensures IsDigit(c) && DigitValue(c) == d
  {
    (('0' as int) + d) as char
  }

  /** The value of a string of decimal digits. */
  function DecimalValue(s: string): nat
    requires AllDigits(s)
  {
    if s == [] then 0 else 10 * DecimalValue(s[..|s| - 1]) + DigitValue(s[|s| - 1])
  }

  /** The decimal text of a natural number, without leading zeros. */
  function NatToString(n: nat): (r: string)
    ensures |r| >= 1 && AllDigits(r)
    decreases n
  {
    if n < 10 then [DigitChar(n)] else NatToString(n / 10) + [DigitChar(n % 10)]
  }

  /** `${n}` (and `'' + n`) for an integer. */
  function IntToString(n: int): (r: string)
    ensures |r| >= 1
  {
    if n < 0 then "-" + NatToString(-n) else NatToString(n)
  }

  lemma {:induction false} NatToStringValue(n: nat)
    ensures DecimalValue(NatToString(n)) == n
    ensures |NatToString(n)| == 1 <==> n < 10
    ensures NatToString(n)[0] != '0' || n == 0
    decreases n
  {
    if n >= 10 {
      NatToStringValue(n / 10);
      var s := NatToString(n);
      assert s[..|s| - 1] == NatToString(n / 10);
    }
  }

  lemma NatToStringTwoDigits(n: nat)
    requires 10 <= n < 100
    ensures NatToString(n) == [DigitChar(n / 10), DigitChar(n % 10)]
  {
  }

  lemma NatToStringFourDigits(n: nat)
    requires 1000 <= n < 10000
    ensures |NatToString(n)| == 4
  {
    NatToStringTwoDigits(n / 100);
    assert NatToString(n / 10) == NatToString(n / 100) + [DigitChar((n / 10) % 10)];
  }

  /** A string of `k` digits is worth less than 10^k. */
  lemma DecimalValueBelow(s: string)
    requires AllDigits(s)
    ensures DecimalValue(s) < Pow10(|s|)
  {
    if s != [] {
      DecimalValueBelow(s[..|s| - 1]);
    }
  }

  function Pow10(k: nat): (r: nat)
    ensures r >= 1
  {
    if k == 0 then 1 else 10 * Pow10(k - 1)
  }

  // ---------------------------------------------------------------------
  // Number(...) on at most two characters, and number-to-string
  // ---------------------------------------------------------------------

  /** A JavaScript number as the handlers meet it: `NaN`, or a finite value held in
      tenths (every number that `Number(...)` yields on at most two characters,
      plus or minus small integers, is a whole number of tenths). */
  datatype JsNumber = NaN | Tenths(t: int)

  function FromInt(n: int): JsNumber { Tenths(10 * n) }

  /** `a < b`: false whenever either side is `NaN`. */
  predicate Less(a: JsNumber, b: JsNumber) {
    a.Tenths? && b.Tenths? && a.t < b.t
  }

  /** `a + b`. */
  function Add(a: JsNumber, b: JsNumber): JsNumber {
    if a.Tenths? && b.Tenths? then Tenths(a.t + b.t) else NaN
  }

  /** `Number(s)` for a string of at most two characters. After trimming, the
      empty string is 0 and the other forms a JavaScript numeric literal can take in
      two characters are `d`, `dd`, `+d`, `-d`, `d.` and `.d`; anything else is NaN. */
  function Number(s: string): (r: JsNumber)
    requires |s| <= 2
  {
    var t := Trim(s);
    if t == [] then Tenths(0)
    else if |t| == 1 then
      (if IsDigit(t[0]) then Tenths(10 * DigitValue(t[0])) else NaN)
    else if IsDigit(t[0]) && IsDigit(t[1]) then Tenths(100 * DigitValue(t[0]) + 10 * DigitValue(t[1]))
    else if t[0] == '+' && IsDigit(t[1]) then Tenths(10 * DigitValue(t[1]))
    else if t[0] == '-' && IsDigit(t[1]) then Tenths(-10 * DigitValue(t[1]))
    else if IsDigit(t[0]) && t[1] == '.' then Tenths(10 * DigitValue(t[0]))
    else if t[0] == '.' && IsDigit(t[1]) then Tenths(DigitValue(t[1]))
    else NaN
  }

  /** `${x}` for a number: "NaN", an integer without a fraction, or one fractional digit. */
  function NumberToString(x: JsNumber): (r: string)
    ensures |r| >= 1
  {
    match x
    case NaN => "NaN"
    case Tenths(t) =>
      if t % 10 == 0 then IntToString(t / 10)
      else
        var a := if t < 0 then -t else t;
        (if t < 0 then "-" else "") + NatToString(a / 10) + "." + [DigitChar(a % 10)]
  }

  lemma NumberToStringInt(n: int)
    ensures NumberToString(FromInt(n)) == IntToString(n)
  {
    assert (10 * n) % 10 == 0 && (10 * n) / 10 == n;
  }

  lemma NumberOfDigits(s: string)
    requires |s| == 2 && AllDigits(s)
    ensures Number(s) == FromInt(DecimalValue(s))
  {
    assert s[..1] == [s[0]];
    assert DecimalValue(s[..1]) == DigitValue(s[0]) by {
      assert s[..1][..0] == [];
    }
    assert !IsJsSpace(s[0]) && !IsJsSpace(s[1]);
    assert TrimStart(s) == s;
    assert Trim(s) == s;
  }

  // ---------------------------------------------------------------------
  // parseInt
  // ---------------------------------------------------------------------

  predicate IsHexDigit(c: char) {
    IsDigit(c) || 'a' <= c <= 'f' || 'A' <= c <= 'F'
  }

  function HexValue(c: char): nat
    requires IsHexDigit(c)
  {
    if IsDigit(c) then DigitValue(c)
    else if 'a' <= c <= 'f' then (c as int) - ('a' as int) + 10
    else (c as int) - ('A' as int) + 10
  }

  /** The longest prefix of `s` made of digits of the given base (10 or 16). */
  predicate AllBaseDigits(s: string, hex: bool) {
    forall i :: 0 <= i < |s| ==> (if hex then IsHexDigit(s[i]) else IsDigit(s[i]))
  }

  function DigitPrefix(s: string, hex: bool): (r: string)
    ensures |r| <= |s| && r == s[..|r|]
    ensures AllBaseDigits(r, hex)
  {
    if s != [] && (if hex then IsHexDigit(s[0]) else IsDigit(s[0])) then [s[0]] + DigitPrefix(s[1..], hex)
    else []
  }

  function PrefixValue(s: string, hex: bool): nat
    requires AllBaseDigits(s, hex)
  {
    if s == [] then 0
    else (if hex then 16 else 10) * PrefixValue(s[..|s| - 1], hex)
         + (if hex then HexValue(s[|s| - 1]) else DigitValue(s[|s| - 1]))
  }

  /** `parseInt(s, 10)` when `radix10` holds, `parseInt(s)` otherwise (which reads a
      `0x`/`0X` prefix as hexadecimal). Leading white space and one sign are skipped;
      the longest run of digits that follows is read; none at all gives NaN. */
  function ParseInt(s: string, radix10: bool): JsNumber
  {
    var t := TrimStart(s);
    var negative := t != [] && t[0] == '-';
    var u := if t != [] && (t[0] == '-' || t[0] == '+') then t[1..] else t;
    var hex := !radix10 && |u| >= 2 && u[0] == '0' && (u[1] == 'x' || u[1] == 'X');
    var body := if hex then u[2..] else u;
    var digits := DigitPrefix(body, hex);
    if digits == [] then NaN
    else
      var v: int := PrefixValue(digits, hex);
      FromInt(if negative then -v else v)
  }

  lemma PrefixValueDecimal(s: string)
    requires AllDigits(s)
    ensures PrefixValue(s, false) == DecimalValue(s)
  {
  }

  lemma DigitPrefixAll(s: string, hex: bool)
    requires AllBaseDigits(s, hex)
    ensures DigitPrefix(s, hex) == s
  {
  }

  /** `parseInt` reads back any non-empty digit string that starts with a digit other than
      a zero followed by an `x`: in particular every zero-padded two-digit field. */
  lemma ParseIntDigits(s: string, radix10: bool)
    requires s != [] && AllDigits(s)
    ensures ParseInt(s, radix10) == FromInt(DecimalValue(s))
  {
    assert !IsJsSpace(s[0]);
    assert TrimStart(s) == s;
    assert |s| >= 2 ==> s[1] != 'x' && s[1] != 'X';
    DigitPrefixAll(s, false);
    PrefixValueDecimal(s);
  }

  // ---------------------------------------------------------------------
  // Tab-separated lines: join and split
  // ---------------------------------------------------------------------

  /** `fields.join(sep)` for a non-empty list of fields. */
  function Join(fields: seq<string>, sep: char): string
    requires |fields| >= 1
  {
    if |fields| == 1 then fields[0] else fields[0] + [sep] + Join(fields[1..], sep)
  }

  /** `s.split(sep)`: always at least one field. */
  function Split(s: string, sep: char): (r: seq<string>)
    ensures |r| >= 1
  {
    if s == [] then [""]
    else if s[0] == sep then [""] + Split(s[1..], sep)
    else
      var rest := Split(s[1..], sep);
      [[s[0]] + rest[0]] + rest[1..]
  }

  lemma {:induction false} SplitNoSep(a: string, sep: char)
    requires sep !in a
    ensures Split(a, sep) == [a]
  {
    if a != [] {
      SplitNoSep(a[1..], sep);
      assert [a[0]] + a[1..] == a;
    }
  }

  lemma {:induction false} SplitAfterField(a: string, b: string, sep: char)
    requires sep !in a
    ensures Split(a + [sep] + b, sep) == [a] + Split(b, sep)
  {
    if a == [] {
      assert a + [sep] + b == [sep] + b;
      assert ([sep] + b)[1..] == b;
    } else {
      assert (a + [sep] + b)[1..] == a[1..] + [sep] + b;
      SplitAfterField(a[1..], b, sep);
      assert [a[0]] + a[1..] == a;
    }
  }

  /** Splitting a joined line gives back its fields when no field holds the separator. */
  lemma {:induction false} SplitJoin(fields: seq<string>, sep: char)
    requires |fields| >= 1
    requires forall i :: 0 <= i < |fields| ==> sep !in fields[i]
    ensures Split(Join(fields, sep), sep) == fields
  {
    if |fields| == 1 {
      SplitNoSep(fields[0], sep);
    } else {
      SplitJoin(fields[1..], sep);
      SplitAfterField(fields[0], Join(fields[1..], sep), sep);
      assert [fields[0]] + fields[1..] == fields;
    }
  }

  /** Appending one field to the joined text appends a separator and the field, so a
      string built by repeated `+ sep + x` is the join of its pieces. */
  lemma {:induction false} JoinSnoc(fields: seq<string>, x: string, sep: char)
    requires |fields| >= 1
    ensures Join(fields + [x], sep) == Join(fields, sep) + [sep] + x
  {
    if |fields| == 1 {
      assert (fields + [x])[1..] == [x];
    } else {
      assert (fields + [x])[1..] == fields[1..] + [x];
      JoinSnoc(fields[1..], x, sep);
    }
  }

  /** The text made by appending `line(x)` for every `x`, in order. */
  function Concat<T>(items: seq<T>, line: T -> string): string {
    if items == [] then "" else Concat(items[..|items| - 1], line) + line(items[|items| - 1])
  }

  /** Sequence facts stated once for every element type, so that proofs about
      sequences of large records do not redo them. */
  lemma SplitLast<T>(s: seq<T>)
    requires s != []
    ensures s == s[..|s| - 1] + [s[|s| - 1]]
  {
  }

  lemma PrefixStep<T>(s: seq<T>, i: nat)
    requires i < |s|
    ensures s[..i + 1][..i] == s[..i] && s[..i + 1][i] == s[i]
  {
  }

  lemma AppendLast<T>(s: seq<T>, x: T)
    ensures (s + [x])[..|s|] == s && (s + [x])[|s|] == x
  {
  }

  /** Some element of `s` satisfies `f`, stated from the end of `s`. */
  predicate AnyWhere<T>(s: seq<T>, f: T -> bool) {
    s != [] && (AnyWhere(s[..|s| - 1], f) || f(s[|s| - 1]))
  }

  lemma {:induction false} AnyWhereExists<T>(s: seq<T>, f: T -> bool)
    ensures AnyWhere(s, f) <==> exists i :: 0 <= i < |s| && f(s[i])
  {
    if s != [] {
      var init := s[..|s| - 1];
      AnyWhereExists(init, f);
      if AnyWhere(init, f) {
        var i :| 0 <= i < |init| && f(init[i]);
        assert s[i] == init[i];
      } else if !f(s[|s| - 1]) {
        forall i | 0 <= i < |s| ensures !f(s[i]) {
          if i < |init| {
            assert s[i] == init[i];
          }
        }
      }
    }
  }

  lemma AppendAssoc<T>(a: seq<T>, b: seq<T>, c: seq<T>)
    ensures (a + b) + c == a + (b + c)
  {
  }

  /** One more item appends its line. */
  lemma ConcatSnoc<T>(items: seq<T>, i: nat, line: T -> string)
    requires i < |items|
    ensures Concat(items[..i + 1], line) == Concat(items[..i], line) + line(items[i])
  {
    assert items[..i + 1][..i] == items[..i];
  }

  /** Text that holds a prefix and the lines of the first `i` items, extended by the
      line of item `i`, holds the lines of the first `i + 1` items. */
  lemma ConcatExtend<T>(prefix: string, items: seq<T>, i: nat, line: T -> string, text: string)
    requires i < |items| && text == prefix + Concat(items[..i], line)
    ensures text + line(items[i]) == prefix + Concat(items[..i + 1], line)
  {
    ConcatSnoc(items, i, line);
  }

  lemma {:induction false} ConcatAppend<T>(a: seq<T>, b: seq<T>, line: T -> string)
    ensures Concat(a + b, line) == Concat(a, line) + Concat(b, line)
  {
    if b == [] {
      assert a + b == a;
    } else {
      assert (a + b)[..|a + b| - 1] == a + b[..|b| - 1];
      ConcatAppend(a, b[..|b| - 1], line);
    }
  }

  // ---------------------------------------------------------------------
  // Insertion-ordered maps (JavaScript `Map`)
  // ---------------------------------------------------------------------

  /** A JavaScript `Map`: its keys in insertion order, and its entries. */
  datatype JsMap<K, V> = JsMap(keys: seq<K>, entries: map<K, V>)

  ghost predicate ValidMap<K(!new), V>(m: JsMap<K, V>) {
    (forall i, j :: 0 <= i < j < |m.keys| ==> m.keys[i] != m.keys[j]) &&
    (forall k :: k in m.entries <==> k in m.keys)
  }

  function EmptyMap<K(!new), V>(): (m: JsMap<K, V>)
    ensures ValidMap(m)
  {
    JsMap([], map[])
  }

  /** `m.set(k, v)`: a new key goes to the end; an existing key keeps its place. */
  function Set<K(!new), V>(m: JsMap<K, V>, k: K, v: V): (r: JsMap<K, V>)
    requires ValidMap(m)
    ensures ValidMap(r)
    ensures r.entries == m.entries[k := v]
    ensures k in m.entries ==> r.keys == m.keys
    ensures k !in m.entries ==> r.keys == m.keys + [k]
  {
    if k in m.entries then JsMap(m.keys, m.entries[k := v])
    else JsMap(m.keys + [k], m.entries[k := v])
  }

  // ---------------------------------------------------------------------
  // String order of the default `Array.prototype.sort`
  // ---------------------------------------------------------------------

  /** Lexicographic order by character code. */
  predicate StrLess(a: string, b: string) {
    if a == [] then b != []
    else if b == [] then false
    else if a[0] != b[0] then a[0] < b[0]
    else StrLess(a[1..], b[1..])
  }

  lemma {:induction false} StrLessIrreflexive(a: string)
    ensures !StrLess(a, a)
  {
    if a != [] {
      StrLessIrreflexive(a[1..]);
    }
  }

  lemma {:induction false} StrLessTransitive(a: string, b: string, c: string)
    requires StrLess(a, b) && StrLess(b, c)
    ensures StrLess(a, c)
  {
    if a != [] && b != [] && c != [] && a[0] == b[0] && b[0] == c[0] {
      StrLessTransitive(a[1..], b[1..], c[1..]);
    }
  }

  lemma {:induction false} StrLessTotal(a: string, b: string)
    requires a != b
    ensures StrLess(a, b) || StrLess(b, a)
  {
    if a != [] && b != [] && a[0] == b[0] {
      assert a == [a[0]] + a[1..] && b == [b[0]] + b[1..];
      StrLessTotal(a[1..], b[1..]);
    }
  }

  predicate SortedStrings(s: seq<string>) {
    forall i, j :: 0 <= i < j < |s| ==> StrLess(s[i], s[j])
  }

  /** Insert `x` into an ascending list of distinct strings. */
  function InsertString(x: string, s: seq<string>): (r: seq<string>)
    requires SortedStrings(s) && x !in s
    ensures SortedStrings(r)
    ensures multiset(r) == multiset(s) + multiset{x}
  {
    if s == [] then [x]
    else if StrLess(x, s[0]) then
      forall j | 0 < j < |s| ensures StrLess(x, s[j]) {
        StrLessTransitive(x, s[0], s[j]);
      }
      [x] + s
    else
      StrLessTotal(x, s[0]);
      var r := InsertString(x, s[1..]);
      assert multiset(r) == multiset(s[1..]) + multiset{x};
      forall j | 0 <= j < |r| ensures StrLess(s[0], r[j]) {
        assert r[j] in multiset(r);
        assert r[j] == x || r[j] in s[1..];
      }
      assert s == [s[0]] + s[1..];
      [s[0]] + r
  }

  /** `keys.sort()` for a list of distinct strings. */
  function SortStrings(s: seq<string>): (r: seq<string>)
    requires forall i, j :: 0 <= i < j < |s| ==> s[i] != s[j]
    ensures SortedStrings(r)
    ensures multiset(r) == multiset(s)
  {
    if s == [] then []
    else
      var init := s[..|s| - 1];
      var r := SortStrings(init);
      assert s[|s| - 1] !in init;
      assert s[|s| - 1] !in multiset(r);
      assert s == init + [s[|s| - 1]];
      InsertString(s[|s| - 1], r)
  }

  // ---------------------------------------------------------------------
  // Own-key order of plain objects (`for...in`, `Object.keys`)
  // ---------------------------------------------------------------------

  /** A property key that is an array index: the canonical decimal form of a number
      below 2^32 - 1 (no sign, no leading zero). */
  predicate IsArrayIndex(k: string) {
    k != [] && AllDigits(k) && (k[0] != '0' || |k| == 1) && DecimalValue(k) < 0xFFFF_FFFF
  }

  /** The array-index keys among `keys`, in the given order. */
  function IndexKeys(keys: seq<string>): seq<string> {
    if keys == [] then []
    else IndexKeys(keys[..|keys| - 1]) + (if IsArrayIndex(keys[|keys| - 1]) then [keys[|keys| - 1]] else [])
  }

  /** The other keys, in the given order. */
  function OtherKeys(keys: seq<string>): seq<string> {
    if keys == [] then []
    else OtherKeys(keys[..|keys| - 1]) + (if IsArrayIndex(keys[|keys| - 1]) then [] else [keys[|keys| - 1]])
  }

  lemma {:induction false} KeysPartition(keys: seq<string>)
    ensures multiset(IndexKeys(keys)) + multiset(OtherKeys(keys)) == multiset(keys)
    ensures forall k :: k in IndexKeys(keys) ==> IsArrayIndex(k)
    ensures forall k :: k in OtherKeys(keys) ==> !IsArrayIndex(k)
  {
    KeysCount(keys);
    KeysKinds(keys);
  }

  lemma {:induction false} KeysCount(keys: seq<string>)
    ensures multiset(IndexKeys(keys)) + multiset(OtherKeys(keys)) == multiset(keys)
  {
    if keys != [] {
      var init, last := keys[..|keys| - 1], keys[|keys| - 1];
      KeysCount(init);
      assert keys == init + [last];
    }
  }

  lemma {:induction false} KeysKinds(keys: seq<string>)
    ensures forall k :: k in IndexKeys(keys) ==> IsArrayIndex(k)
    ensures forall k :: k in OtherKeys(keys) ==> !IsArrayIndex(k)
  {
    if keys != [] {
      KeysKinds(keys[..|keys| - 1]);
    }
  }

  /** The numeric value of an array-index key. */
  function KeyValue(k: string): int {
    if AllDigits(k) then DecimalValue(k) else 0
  }

  /** Keys in ascending numeric order. */
  predicate AscendingIndices(s: seq<string>) {
    AscendingBy(s, KeyValue)
  }

  /** `s` ordered by `key`, smallest first. */
  predicate AscendingBy<T>(s: seq<T>, key: T -> int) {
    forall i, j :: 0 <= i < j < |s| ==> key(s[i]) <= key(s[j])
  }

  /** Insert `x` after every element of no larger key. */
  function InsertBy<T>(x: T, s: seq<T>, key: T -> int): seq<T> {
    if s == [] then [x]
    else if key(x) < key(s[0]) then [x] + s
    else [s[0]] + InsertBy(x, s[1..], key)
  }

  lemma {:induction false} InsertBySorted<T>(x: T, s: seq<T>, key: T -> int)
    requires AscendingBy(s, key)
    ensures AscendingBy(InsertBy(x, s, key), key)
  {
    if s == [] {
    } else if key(x) < key(s[0]) {
      var t := [x] + s;
      forall i, j | 0 <= i < j < |t| ensures key(t[i]) <= key(t[j]) {
        if i == 0 {
          assert key(s[0]) <= key(s[j - 1]);
        } else {
          assert t[i] == s[i - 1] && t[j] == s[j - 1];
        }
      }
    } else {
      var r := InsertBy(x, s[1..], key);
      InsertBySorted(x, s[1..], key);
      InsertByFloor(x, s[1..], key, key(s[0]));
      var t := [s[0]] + r;
      forall i, j | 0 <= i < j < |t| ensures key(t[i]) <= key(t[j]) {
        if i == 0 {
          assert t[j] == r[j - 1];
        } else {
          assert t[i] == r[i - 1] && t[j] == r[j - 1];
        }
      }
    }
  }

  /** A lower bound of every key stays one after an insertion. */
  lemma {:induction false} InsertByFloor<T>(x: T, s: seq<T>, key: T -> int, m: int)
    requires m <= key(x) && forall i :: 0 <= i < |s| ==> m <= key(s[i])
    ensures forall i :: 0 <= i < |InsertBy(x, s, key)| ==> m <= key(InsertBy(x, s, key)[i])
  {
    if s != [] && key(x) >= key(s[0]) {
      InsertByFloor(x, s[1..], key, m);
      var r := InsertBy(x, s[1..], key);
      assert InsertBy(x, s, key) == [s[0]] + r;
      forall i | 0 < i < |r| + 1 ensures m <= key(([s[0]] + r)[i]) {
        assert ([s[0]] + r)[i] == r[i - 1];
      }
    }
  }

  lemma {:induction false} InsertByPermutes<T>(x: T, s: seq<T>, key: T -> int)
    ensures multiset(InsertBy(x, s, key)) == multiset(s) + multiset{x}
  {
    if s != [] && key(x) >= key(s[0]) {
      InsertByPermutes(x, s[1..], key);
      assert s == [s[0]] + s[1..];
    }
  }

  /** Stable insertion sort by `key`. */
  function SortBy<T>(s: seq<T>, key: T -> int): seq<T> {
    if s == [] then [] else InsertBy(s[|s| - 1], SortBy(s[..|s| - 1], key), key)
  }

  lemma {:induction false} SortBySpec<T>(s: seq<T>, key: T -> int)
    ensures AscendingBy(SortBy(s, key), key)
    ensures multiset(SortBy(s, key)) == multiset(s)
  {
    if s != [] {
      SortBySpec(s[..|s| - 1], key);
      InsertBySorted(s[|s| - 1], SortBy(s[..|s| - 1], key), key);
      InsertByPermutes(s[|s| - 1], SortBy(s[..|s| - 1], key), key);
      assert s == s[..|s| - 1] + [s[|s| - 1]];
    }
  }

  /** The array-index keys sorted by numeric value. */
  function SortIndices(s: seq<string>): (r: seq<string>) {
    SortBy(s, KeyValue)
  }

  lemma SortIndicesSpec(s: seq<string>)
    ensures AscendingIndices(SortIndices(s))
    ensures multiset(SortIndices(s)) == multiset(s)
  {
    SortBySpec(s, KeyValue);
  }

  /** The order in which `for...in` visits the own keys of a plain object whose keys
      were added in the order `keys`: the array indices first, by ascending value; then
      the other keys, in insertion order. */
  function OwnKeys(keys: seq<string>): (r: seq<string>)
    ensures |r| == |keys|
  {
    var a := SortIndices(IndexKeys(keys));
    var b := OtherKeys(keys);
    KeysPartition(keys);
    SortIndicesSpec(IndexKeys(keys));
    assert |a + b| == |multiset(a + b)|;
    a + b
  }

  /** Exactly the object's keys are visited. */
  lemma OwnKeysMembers(keys: seq<string>)
    ensures forall k :: k in OwnKeys(keys) <==> k in keys
  {
    OwnKeysPermutation(keys);
    forall k ensures k in OwnKeys(keys) <==> k in keys {
      assert k in OwnKeys(keys) <==> k in multiset(OwnKeys(keys));
      assert k in keys <==> k in multiset(keys);
    }
  }

  /** Every key is visited as often as it was added. */
  lemma OwnKeysPermutation(keys: seq<string>)
    ensures multiset(OwnKeys(keys)) == multiset(keys)
  {
    KeysPartition(keys);
    SortIndicesSpec(IndexKeys(keys));
  }

  /** The array indices come first, by ascending value; the other keys follow. */
  lemma OwnKeysOrder(keys: seq<string>)
    ensures var r := OwnKeys(keys);
      forall i, j :: 0 <= i < j < |r| && !IsArrayIndex(r[i]) ==> !IsArrayIndex(r[j])
    ensures var r := OwnKeys(keys);
      forall i, j :: 0 <= i < j < |r| && IsArrayIndex(r[j]) ==> KeyValue(r[i]) <= KeyValue(r[j])
  {
    var a := SortIndices(IndexKeys(keys));
    var b := OtherKeys(keys);
    KeysPartition(keys);
    SortIndicesSpec(IndexKeys(keys));
    forall k | k in a ensures IsArrayIndex(k) {
      assert k in multiset(a);
      assert k in IndexKeys(keys);
    }
    IndicesFirst(a, b);
  }

  lemma IndicesFirst(a: seq<string>, b: seq<string>)
    requires AscendingIndices(a)
    requires forall k :: k in a ==> IsArrayIndex(k)
    requires forall k :: k in b ==> !IsArrayIndex(k)
    ensures forall i, j :: 0 <= i < j < |a + b| && !IsArrayIndex((a + b)[i]) ==> !IsArrayIndex((a + b)[j])
    ensures forall i, j :: 0 <= i < j < |a + b| && IsArrayIndex((a + b)[j]) ==> KeyValue((a + b)[i]) <= KeyValue((a + b)[j])
  {
    var r := a + b;
    forall i, j | 0 <= i < j < |r| && !IsArrayIndex(r[i]) ensures !IsArrayIndex(r[j]) {
      if i < |a| {
        assert false;
      }
      assert r[j] == b[j - |a|];
    }
    forall i, j | 0 <= i < j < |r| && IsArrayIndex(r[j]) ensures KeyValue(r[i]) <= KeyValue(r[j]) {
      if j >= |a| {
        assert false;
      }
      assert r[i] == a[i] && r[j] == a[j];
    }
  }

  /** The keys that are not array indices keep their insertion order, after the indices;
      so an object with no array-index keys is visited in insertion order. */
  lemma OwnKeysOthers(keys: seq<string>)
    ensures OwnKeys(keys)[|OwnKeys(keys)| - |OtherKeys(keys)|..] == OtherKeys(keys)
    ensures (forall k :: k in keys ==> !IsArrayIndex(k)) ==> OwnKeys(keys) == keys
  {
    if forall k :: k in keys ==> !IsArrayIndex(k) {
      OthersAll(keys);
      IndexKeysNone(keys);
    }
  }

  lemma {:induction false} OthersAll(keys: seq<string>)
    requires forall k :: k in keys ==> !IsArrayIndex(k)
    ensures OtherKeys(keys) == keys
  {
    if keys != [] {
      OthersAll(keys[..|keys| - 1]);
      assert keys == keys[..|keys| - 1] + [keys[|keys| - 1]];
    }
  }

  lemma {:induction false} IndexKeysNone(keys: seq<string>)
    requires forall k :: k in keys ==> !IsArrayIndex(k)
    ensures IndexKeys(keys) == []
  {
    if keys != [] {
      IndexKeysNone(keys[..|keys| - 1]);
    }
  }

  /** No element occurs twice. */
  predicate Distinct<T(==)>(s: seq<T>) {
    forall i, j :: 0 <= i < j < |s| ==> s[i] != s[j]
  }

  lemma {:induction false} DistinctCounts<T>(s: seq<T>)
    requires Distinct(s)
    ensures forall x :: multiset(s)[x] <= 1
  {
    if s != [] {
      var init := s[..|s| - 1];
      assert Distinct(init);
      DistinctCounts(init);
      assert s == init + [s[|s| - 1]];
      assert s[|s| - 1] !in init;
    }
  }

  lemma CountsDistinct<T>(s: seq<T>)
    requires forall x :: multiset(s)[x] <= 1
    ensures Distinct(s)
  {
    forall i, j | 0 <= i < j < |s| ensures s[i] != s[j] {
      assert s == s[..j] + [s[j]] + s[j + 1..];
      assert s[i] in s[..j];
      assert multiset(s)[s[i]] >= multiset(s[..j])[s[i]] + multiset([s[j]])[s[i]];
    }
  }

  /** Visiting the keys of an object never repeats one. */
  lemma OwnKeysDistinct(keys: seq<string>)
    requires Distinct(keys)
    ensures Distinct(OwnKeys(keys))
  {
    DistinctCounts(keys);
    OwnKeysPermutation(keys);
    CountsDistinct(OwnKeys(keys));
  }

  /** The distinct elements of `s` in order of first appearance. */
  function Dedup<T(==)>(s: seq<T>): (r: seq<T>)
    ensures Distinct(r)
  {
    if s == [] then []
    else
      var r := Dedup(s[..|s| - 1]);
      if s[|s| - 1] in r then r else r + [s[|s| - 1]]
  }

  lemma {:induction false} DedupMembers<T>(s: seq<T>)
    ensures forall x :: x in Dedup(s) <==> x in s
  {
    if s != [] {
      DedupMembers(s[..|s| - 1]);
      assert s == s[..|s| - 1] + [s[|s| - 1]];
    }
  }
}
