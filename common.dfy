/** Value types shared by every module, and the JavaScript primitives the
    application leans on: Array.prototype.filter and findIndex,
    String.prototype.trim, toLowerCase and includes, Number.toString and
    parseInt. */
module Common {

  datatype Option<T> = None | Some(value: T) {
    function GetOr(default: T): T {
      if Some? then value else default
    }
  }

  /** What a JSON route handler answers: an HTTP status and the
      `{ success, message?, <payload>? }` body. */
  datatype Response<T> = Response(status: int, success: bool, message: Option<string>, payload: Option<T>)

  const InternalError := "Error interno del servidor"

  /** The answer every handler's catch-all gives. */
  function ServerError<T>(): (r: Response<T>)
    ensures r.status == 500 && !r.success && r.payload.None?
  {
    Response(500, false, Some(InternalError), None)
  }

  // ---------------------------------------------------------------------
  // Arrays

  /** Array.prototype.filter: the elements of `s` that satisfy `p`, in order. */
  function Filter<T>(s: seq<T>, p: T -> bool): (r: seq<T>)
    ensures |r| <= |s|
    ensures forall i :: 0 <= i < |r| ==> r[i] in s && p(r[i])
    ensures forall i :: 0 <= i < |s| && p(s[i]) ==> s[i] in r
  {
    if s == [] then [] else (if p(s[0]) then [s[0]] else []) + Filter(s[1..], p)
  }

  lemma {:induction false} FilterAppend<T>(a: seq<T>, b: seq<T>, p: T -> bool)
    ensures Filter(a + b, p) == Filter(a, p) + Filter(b, p)
  {
    if a != [] {
      assert (a + b)[0] == a[0] && (a + b)[1..] == a[1..] + b;
      var head := if p(a[0]) then [a[0]] else [];
      assert Filter(a + b, p) == head + Filter(a[1..] + b, p);
      FilterAppend(a[1..], b, p);
      assert Filter(a, p) == head + Filter(a[1..], p);
    } else {
      assert a + b == b;
    }
  }

  /** Filtering a sequence that starts with `x`: `x` is kept when it passes,
      then the rest is filtered. */
  lemma {:induction false} FilterCons<T>(x: T, s: seq<T>, p: T -> bool)
    ensures Filter([x] + s, p) == (if p(x) then [x] else []) + Filter(s, p)
  {
    assert ([x] + s)[0] == x && ([x] + s)[1..] == s;
  }

  /** The negation of a predicate, as one value wherever it is written. */
  function Not<T>(p: T -> bool): T -> bool {
    x => !p(x)
  }

  /** Keeping what satisfies `p` and keeping what does not split the input:
      the two lengths add up to the length of `s`. */
  lemma {:induction false} FilterPartition<T>(s: seq<T>, p: T -> bool)
    ensures |Filter(s, p)| + |Filter(s, Not(p))| == |s|
  {
    if s != [] {
      FilterPartition(s[1..], p);
    }
  }

  lemma {:induction false} FilterKeepsAll<T>(s: seq<T>, p: T -> bool)
    requires forall i :: 0 <= i < |s| ==> p(s[i])
    ensures Filter(s, p) == s
  {
    if s != [] {
      FilterKeepsAll(s[1..], p);
    }
  }

  /** Array.prototype.findIndex, with -1 written as None: the first index
      whose element satisfies `p`. */
  function FindFirst<T>(s: seq<T>, p: T -> bool): (r: Option<nat>)
    ensures r.Some? ==> r.value < |s| && p(s[r.value])
    ensures r.Some? ==> forall j :: 0 <= j < r.value ==> !p(s[j])
    ensures r.None? <==> forall j :: 0 <= j < |s| ==> !p(s[j])
  {
    if s == [] then None
    else if p(s[0]) then Some(0)
    else match FindFirst(s[1..], p)
      case None => None
      case Some(i) => Some(i + 1)
  }

  /** Searching past the end of a sequence for something it lacks finds
      what the sequence itself gives. */
  lemma {:induction false} FindFirstAppend<T>(s: seq<T>, t: seq<T>, p: T -> bool)
    requires FindFirst(s, p).None?
    ensures FindFirst(s + t, p) == match FindFirst(t, p)
                                   case None => None
                                   case Some(i) => Some(|s| + i)
  {
    var st := s + t;
    forall k | 0 <= k < |st| && k < |s| ensures !p(st[k]) {
      assert st[k] == s[k];
    }
    match FindFirst(t, p)
    case None =>
      forall k | |s| <= k < |st| ensures !p(st[k]) {
        assert st[k] == t[k - |s|];
      }
    case Some(i) =>
      assert st[|s| + i] == t[i];
      forall k | |s| <= k < |s| + i ensures !p(st[k]) {
        assert st[k] == t[k - |s|];
      }
      var r := FindFirst(st, p);
      assert r.Some?;
      assert r.value == |s| + i;
  }

  /** Two tests that agree on every element find the same index. */
  lemma {:induction false} FindFirstSameTest<T>(s: seq<T>, p: T -> bool, q: T -> bool)
    requires forall i :: 0 <= i < |s| ==> p(s[i]) == q(s[i])
    ensures FindFirst(s, p) == FindFirst(s, q)
  {
    if s != [] {
      FindFirstSameTest(s[1..], p, q);
    }
  }

  /** Array.prototype.find, written as the element at FindFirst. */
  function Find<T>(s: seq<T>, p: T -> bool): (r: Option<T>)
    ensures r.Some? <==> exists i :: 0 <= i < |s| && p(s[i])
    ensures r.Some? ==> r.value in s && p(r.value)
  {
    match FindFirst(s, p)
    case None => None
    case Some(i) => Some(s[i])
  }

  /** Array.prototype.filter((_, i) => i !== index): drops position `index`
      when there is one. */
  function RemoveIndex<T>(s: seq<T>, index: int): (r: seq<T>)
    ensures 0 <= index < |s| ==> r == s[..index] + s[index + 1..]
    ensures !(0 <= index < |s|) ==> r == s
  {
    if 0 <= index < |s| then s[..index] + s[index + 1..] else s
  }

  // ---------------------------------------------------------------------
  // Strings

  /** The characters `\s` matches in a JavaScript regular expression, which
      are also the ones String.prototype.trim strips. */
  predicate IsWhitespace(c: char) {
    || c == ' ' || c == '\t' || c == '\n' || c == '\U{000B}' || c == '\U{000C}' || c == '\r'
    || c == '\U{00A0}' || c == '\U{1680}' || ('\U{2000}' <= c <= '\U{200A}')
    || c == '\U{2028}' || c == '\U{2029}' || c == '\U{202F}' || c == '\U{205F}'
    || c == '\U{3000}' || c == '\U{FEFF}'
  }

  /** String.prototype.trimStart: a suffix of `s` that does not start with
      white space. */
  function TrimStart(s: string): (r: string)
    ensures r == [] || !IsWhitespace(r[0])
    ensures |r| <= |s| && r == s[|s| - |r|..]
  {
    if s != [] && IsWhitespace(s[0]) then
      var r := TrimStart(s[1..]);
      assert s[1..][|s| - 1 - |r|..] == s[|s| - |r|..];
      r
    else
      s
  }

  /** String.prototype.trimEnd: a prefix of `s` that does not end with white
      space. */
  function TrimEnd(s: string): (r: string)
    ensures r == [] || !IsWhitespace(r[|r| - 1])
    ensures |r| <= |s| && r == s[..|r|]
  {
    if s != [] && IsWhitespace(s[|s| - 1]) then
      var r := TrimEnd(s[..|s| - 1]);
      assert s[..|s| - 1][..|r|] == s[..|r|];
      r
    else
      s
  }

  /** String.prototype.trim. */
  function Trim(s: string): string {
    TrimEnd(TrimStart(s))
  }

  predicate AllWhitespace(s: string) {
    forall i :: 0 <= i < |s| ==> IsWhitespace(s[i])
  }

  lemma {:induction false} TrimStartAllWhitespace(s: string)
    ensures TrimStart(s) == [] <==> AllWhitespace(s)
  {
    if s != [] && IsWhitespace(s[0]) {
      var tail := s[1..];
      TrimStartAllWhitespace(tail);
      assert TrimStart(s) == TrimStart(tail);
      if AllWhitespace(tail) {
        forall i | 0 <= i < |s| ensures IsWhitespace(s[i]) {
          if i > 0 { assert s[i] == tail[i - 1]; }
        }
      } else {
        var i :| 0 <= i < |tail| && !IsWhitespace(tail[i]);
        assert s[i + 1] == tail[i];
      }
    } else if s != [] {
      assert TrimStart(s) == s;
      assert !IsWhitespace(s[0]);
    }
  }

  /** `s.trim() === ''` exactly when every character of `s` is white space. */
  lemma TrimEmptyIffBlank(s: string)
    ensures Trim(s) == [] <==> AllWhitespace(s)
  {
    TrimStartAllWhitespace(s);
    var t := TrimStart(s);
    if t != [] {
      assert !IsWhitespace(t[0]);
      if TrimEnd(t) == [] {
        // TrimEnd only strips white space, and t[0] is not.
        TrimEndKeepsNonBlank(t);
      }
    }
  }

  lemma {:induction false} TrimEndKeepsNonBlank(s: string)
    requires s != [] && !IsWhitespace(s[0])
    ensures TrimEnd(s) != []
  {
    if IsWhitespace(s[|s| - 1]) {
      assert |s| > 1;
      assert s[..|s| - 1][0] == s[0];
      TrimEndKeepsNonBlank(s[..|s| - 1]);
    }
  }

  /** String.prototype.toLowerCase on the letters of Basic Latin and Latin-1
      (A-Z and the accented capitals U+00C0-U+00DE except U+00D7). */
  function ToLowerChar(c: char): (r: char)
    ensures r == c || ('A' <= c <= 'Z') || ('\U{00C0}' <= c <= '\U{00DE}')
  {
    if 'A' <= c <= 'Z' || ('\U{00C0}' <= c <= '\U{00DE}' && c != '\U{00D7}')
    then (c as int + 32) as char
    else c
  }

  function ToLower(s: string): (r: string)
    ensures |r| == |s|
    ensures forall i :: 0 <= i < |s| ==> r[i] == ToLowerChar(s[i])
  {
    if s == [] then [] else [ToLowerChar(s[0])] + ToLower(s[1..])
  }

  predicate IsPrefix(p: string, s: string) {
    |p| <= |s| && s[..|p|] == p
  }

  /** String.prototype.includes. */
  predicate Includes(s: string, part: string)
    decreases |s|
  {
    IsPrefix(part, s) || (s != [] && Includes(s[1..], part))
  }

  predicate OccursAt(s: string, part: string, i: int) {
    0 <= i <= |s| - |part| && s[i..i + |part|] == part
  }

  /** `includes` holds exactly when `part` occurs at some offset of `s`. */
  lemma {:induction false} IncludesIffOccurs(s: string, part: string)
    ensures Includes(s, part) <==> exists i :: OccursAt(s, part, i)
    decreases |s|
  {
    if IsPrefix(part, s) {
      assert OccursAt(s, part, 0);
    } else if s != [] {
      IncludesIffOccurs(s[1..], part);
      if exists i :: OccursAt(s, part, i) {
        var i :| OccursAt(s, part, i);
        assert i != 0;
        assert OccursAt(s[1..], part, i - 1) by {
          assert s[1..][i - 1..i - 1 + |part|] == s[i..i + |part|];
        }
      }
      if Includes(s[1..], part) {
        var i :| OccursAt(s[1..], part, i);
        assert OccursAt(s, part, i + 1) by {
          assert s[1..][i..i + |part|] == s[i + 1..i + 1 + |part|];
        }
      }
    }
  }

  /** Every string includes the empty string. */
  lemma IncludesEmpty(s: string)
    ensures Includes(s, "")
  {
  }

  // ---------------------------------------------------------------------
  // Numbers

  function DigitChar(d: nat): (c: char)
    requires d < 10
    ensures '0' <= c <= '9'
  {
    ('0' as int + d) as char
  }

  /** Number.prototype.toString for a non-negative integer. */
  function NatToString(n: nat): (r: string)
    ensures |r| >= 1
    ensures forall i :: 0 <= i < |r| ==> '0' <= r[i] <= '9'
  {
    if n < 10 then [DigitChar(n)] else NatToString(n / 10) + [DigitChar(n % 10)]
  }

  predicate IsDigit(c: char) {
    '0' <= c <= '9'
  }

  /** The value of a decimal digit; any other character counts as 0. */
  function DigitValue(c: char): (d: nat)
    ensures d < 10
  {
    if IsDigit(c) then c as int - '0' as int else 0
  }

  /** The number a string of decimal digits spells, read left to right. */
  function DecimalValue(s: string): nat {
    if s == [] then 0 else DecimalValue(s[..|s| - 1]) * 10 + DigitValue(s[|s| - 1])
  }

  /** Reading back the decimal form of `n` gives `n`: NatToString is
      injective. */
  lemma {:induction false} DecimalValueOfNatToString(n: nat)
    ensures DecimalValue(NatToString(n)) == n
  {
    var s := NatToString(n);
    if n < 10 {
      assert s[..|s| - 1] == [];
    } else {
      DecimalValueOfNatToString(n / 10);
      assert s[..|s| - 1] == NatToString(n / 10);
    }
  }

  /** The run of decimal digits at the head of `s`, as a number. */
  function DigitsValue(s: string, acc: nat): (r: nat)
    decreases |s|
  {
    if s != [] && IsDigit(s[0]) then DigitsValue(s[1..], acc * 10 + (s[0] as int - '0' as int)) else acc
  }

  /** parseInt(s) without a radix, for the decimal strings a number input
      produces: leading white space is skipped, one sign is read, then the
      longest run of digits; no digit at all gives NaN (None). */
  function ParseInt(s: string): (r: Option<int>)
    ensures r.Some? <==> var t := TrimStart(s);
                         var u := if t != [] && (t[0] == '+' || t[0] == '-') then t[1..] else t;
                         u != [] && IsDigit(u[0])
  {
    var t := TrimStart(s);
    var negative := t != [] && t[0] == '-';
    var u := if t != [] && (t[0] == '+' || t[0] == '-') then t[1..] else t;
    if u != [] && IsDigit(u[0]) then
      var v: int := DigitsValue(u, 0);
      Some(if negative then -v else v)
    else
      None
  }

  predicate AllDigits(s: string) {
    forall i :: 0 <= i < |s| ==> IsDigit(s[i])
  }

  /** The digit run stops at the first character that is not a digit. */
  lemma {:induction false} DigitsValueStops(d: string, t: string, acc: nat)
    requires AllDigits(d) && (t == [] || !IsDigit(t[0]))
    ensures DigitsValue(d + t, acc) == DigitsValue(d, acc)
    decreases |d|
  {
    if d == [] {
      assert d + t == t;
    } else {
      var next := acc * 10 + (d[0] as int - '0' as int);
      assert (d + t)[0] == d[0] && (d + t)[1..] == d[1..] + t;
      DigitsValueStops(d[1..], t, next);
    }
  }

  /** One more digit at the end multiplies the value read so far by ten. */
  lemma {:induction false} DigitsValueSnoc(d: string, c: char, acc: nat)
    requires AllDigits(d) && IsDigit(c)
    ensures DigitsValue(d + [c], acc) == DigitsValue(d, acc) * 10 + DigitValue(c)
    decreases |d|
  {
    if d == [] {
      assert d + [c] == [c];
      assert [c][1..] == [];
    } else {
      var next := acc * 10 + (d[0] as int - '0' as int);
      assert (d + [c])[0] == d[0] && (d + [c])[1..] == d[1..] + [c];
      DigitsValueSnoc(d[1..], c, next);
    }
  }

  /** Reading digits left to right with an accumulator agrees with
      DecimalValue, which reads them right to left. */
  lemma {:induction false} DigitsValueIsDecimal(d: string)
    requires AllDigits(d)
    ensures DigitsValue(d, 0) == DecimalValue(d)
    decreases |d|
  {
    if d != [] {
      var init := d[..|d| - 1];
      DigitsValueIsDecimal(init);
      assert d == init + [d[|d| - 1]];
      DigitsValueSnoc(init, d[|d| - 1], 0);
    }
  }

  /** A string that starts with a digit is read from its first character. */
  lemma ParseIntOfDigits(s: string, n: nat)
    requires s != [] && IsDigit(s[0]) && DigitsValue(s, 0) == n
    ensures ParseInt(s) == Some(n)
  {
    assert !IsWhitespace(s[0]);
    assert TrimStart(s) == s;
  }

  /** A minus sign before a digit negates what follows. */
  lemma ParseIntOfMinus(s: string, n: nat)
    requires s != [] && IsDigit(s[0]) && DigitsValue(s, 0) == n
    ensures ParseInt("-" + s) == Some(-(n as int))
  {
    var m := "-" + s;
    assert m[0] == '-' && m[1..] == s;
    assert !IsWhitespace(m[0]);
    assert TrimStart(m) == m;
  }

  /** The digits of NatToString(n), followed by anything but a digit, read
      as `n`. */
  lemma DigitsOfNatToString(n: nat, t: string)
    requires t == [] || !IsDigit(t[0])
    ensures NatToString(n) + t != [] && IsDigit((NatToString(n) + t)[0])
    ensures DigitsValue(NatToString(n) + t, 0) == n
  {
    var d := NatToString(n);
    assert AllDigits(d);
    assert (d + t)[0] == d[0];
    DigitsValueStops(d, t, 0);
    DigitsValueIsDecimal(d);
    DecimalValueOfNatToString(n);
  }

  /** parseInt reads back the decimal form of any integer, whatever
      non-digit text follows it. */
  lemma ParseIntRoundTrip(n: nat, t: string)
    requires t == [] || !IsDigit(t[0])
    ensures ParseInt(NatToString(n) + t) == Some(n)
    ensures ParseInt("-" + (NatToString(n) + t)) == Some(-(n as int))
  {
    DigitsOfNatToString(n, t);
    ParseIntOfDigits(NatToString(n) + t, n);
    ParseIntOfMinus(NatToString(n) + t, n);
  }
}
