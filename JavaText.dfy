/** The Option type used for Java's null results and for exceptions that abort a computation. */
module Wrappers {
  datatype Option<+T> = None | Some(value: T)
}

/**
 * The parts of java.lang.String and java.lang.Integer that the name-popularity code relies on:
 * indexOf, Integer.parseInt, Integer.toString, toUpperCase, and the joining of tokens that
 * both the data file format and Arrays.toString use.
 */
module JavaText {
  import opened Wrappers

  const MIN_INT: int := -0x8000_0000
  const MAX_INT: int := 0x7fff_ffff

  /** The values of a Java `int`. */
  predicate InIntRange(v: int) {
    MIN_INT <= v <= MAX_INT
  }

  // ---------------------------------------------------------------------------------------------
  // String.indexOf

  /** `s.indexOf(c, from)`: the first index at or after `from` that holds `c`, or -1 if there is none. */
  function IndexOf(s: string, c: char, from: nat): (r: int)
    ensures r == -1 || from <= r < |s|
    ensures r >= 0 ==> s[r] == c
    decreases |s| - from
  {
    if from >= |s| then -1
    else if s[from] == c then from
    else IndexOf(s, c, from + 1)
  }

  /** No `c` stands between `from` and the index IndexOf returns (or the end, when it returns -1). */
  lemma {:induction false} IndexOfFirstOccurrence(s: string, c: char, from: nat, k: nat)
    requires from <= k < |s|
    requires IndexOf(s, c, from) < 0 || k < IndexOf(s, c, from)
    ensures s[k] != c
    decreases |s| - from
  {
    if k > from {
      IndexOfFirstOccurrence(s, c, from + 1, k);
    }
  }

  /** A result with both properties, and no `c` before it, is the one IndexOf returns. */
  lemma IndexOfUnique(s: string, c: char, from: nat, r: int)
    requires r == -1 || from <= r < |s|
    requires r >= 0 ==> s[r] == c
    requires forall k :: from <= k < |s| && (r < 0 || k < r) ==> s[k] != c
    ensures IndexOf(s, c, from) == r
  {
    var q := IndexOf(s, c, from);
    if r >= 0 && (q < 0 || r < q) {
      IndexOfFirstOccurrence(s, c, from, r);
    }
  }

  /** Searching a suffix of `s` finds the same occurrence, shifted by the suffix's offset. */
  lemma IndexOfSuffix(s: string, c: char, from: nat)
    requires from <= |s|
    ensures IndexOf(s[from..], c, 0) == (if IndexOf(s, c, from) < 0 then -1 else IndexOf(s, c, from) - from)
  {
    var q := IndexOf(s, c, from);
    var t := s[from..];
    var r := if q < 0 then -1 else q - from;
    forall k | 0 <= k < |t| && (r < 0 || k < r)
      ensures t[k] != c
    {
      assert t[k] == s[from + k];
      IndexOfFirstOccurrence(s, c, from, from + k);
    }
    IndexOfUnique(t, c, 0, r);
  }

  /** In `x + [c] + y` with no `c` in `x`, the first `c` is the one after `x`. */
  lemma IndexOfFirst(x: string, c: char, y: string)
    requires c !in x
    ensures IndexOf(x + [c] + y, c, 0) == |x|
  {
    var s := x + [c] + y;
    forall k | 0 <= k < |s| && k < |x|
      ensures s[k] != c
    {
      assert s[k] == x[k];
    }
    IndexOfUnique(s, c, 0, |x|);
  }

  /** A string without `c` has no occurrence of it. */
  lemma IndexOfAbsent(s: string, c: char)
    requires c !in s
    ensures IndexOf(s, c, 0) == -1
  {
    IndexOfUnique(s, c, 0, -1);
  }

  // ---------------------------------------------------------------------------------------------
  // Integer.parseInt and Integer.toString (radix 10)

  predicate IsDigit(ch: char) {
    '0' <= ch <= '9'
  }

  /** Every character is a decimal digit (stated from the last character back, as DigitsValue reads). */
  predicate AllDigits(s: string)
    decreases |s|
  {
    s == [] || (AllDigits(s[..|s| - 1]) && IsDigit(s[|s| - 1]))
  }

  lemma {:induction false} AllDigitsAt(s: string)
    requires AllDigits(s)
    ensures forall k :: 0 <= k < |s| ==> IsDigit(s[k])
    decreases |s|
  {
    if s != [] {
      AllDigitsAt(s[..|s| - 1]);
      assert forall k :: 0 <= k < |s| - 1 ==> s[k] == s[..|s| - 1][k];
    }
  }

  function DigitValue(ch: char): nat
    requires IsDigit(ch)
  {
    ch as int - '0' as int
  }

  function DigitChar(d: nat): char
    requires d < 10
  {
    ('0' as int + d) as char
  }

  /** The value of a decimal numeral, most significant digit first. */
  function DigitsValue(s: string): nat
    requires AllDigits(s)
  {
    if s == [] then 0 else 10 * DigitsValue(s[..|s| - 1]) + DigitValue(s[|s| - 1])
  }

  /**
   * `Integer.parseInt(s)`: an optional sign followed by at least one decimal digit, whose value
   * fits in an `int`; every other string raises NumberFormatException, modelled as None.
   */
  function ParseInt(s: string): (r: Option<int>)
    ensures r.Some? ==> InIntRange(r.value)
    ensures r.Some? ==> |s| >= 1
  {
    if |s| == 0 then None
    else
      var digits := if s[0] == '-' || s[0] == '+' then s[1..] else s;
      if |digits| == 0 || !AllDigits(digits) then None
      else
        var v: int := if s[0] == '-' then -(DigitsValue(digits) as int) else DigitsValue(digits);
        if InIntRange(v) then Some(v)
        else None
  }

  /** What parseInt accepts holds no space and no comma. */
  lemma ParseIntSpaceFree(s: string)
    requires ParseInt(s).Some?
    ensures ' ' !in s && ',' !in s
  {
    var digits := if s[0] == '-' || s[0] == '+' then s[1..] else s;
    AllDigitsAt(digits);
    forall k | 0 <= k < |s| ensures s[k] != ' ' && s[k] != ',' {
      if k > 0 || digits == s {
        assert s[k] == digits[k - (|s| - |digits|)];
      }
    }
  }

  /** The decimal numeral of a natural number, without leading zeros. */
  function NatToString(n: nat): string {
    if n < 10 then [DigitChar(n)] else NatToString(n / 10) + [DigitChar(n % 10)]
  }

  /** `Integer.toString(v)`: a minus sign for negative values, then the numeral of the magnitude. */
  function IntToString(v: int): string {
    var digits := NatToString(if v < 0 then -v else v);
    if v < 0 then "-" + digits else digits
  }

  /** A numeral is a non-empty string of digits, and only 0 is written "0". */
  lemma {:induction false} NatToStringShape(n: nat)
    ensures |NatToString(n)| >= 1 && AllDigits(NatToString(n))
    ensures (n == 0) == (NatToString(n) == "0")
    decreases n
  {
    var s := NatToString(n);
    if n < 10 {
      assert AllDigits(s[..0]) && IsDigit(s[0]);
      assert s == "0" ==> s[0] == '0';
    } else {
      NatToStringShape(n / 10);
      assert s[..|s| - 1] == NatToString(n / 10);
      assert |s| != |"0"|;
    }
  }

  /** toString writes a sign exactly for negative values and otherwise only digits; only 0 is written "0". */
  lemma IntToStringShape(v: int)
    ensures |IntToString(v)| >= 1 && (IntToString(v)[0] == '-') == (v < 0)
    ensures forall k :: 0 <= k < |IntToString(v)| ==> IntToString(v)[k] == '-' || IsDigit(IntToString(v)[k])
    ensures (v == 0) == (IntToString(v) == "0")
  {
    var digits := NatToString(if v < 0 then -v else v);
    NatToStringShape(if v < 0 then -v else v);
    AllDigitsAt(digits);
  }

  lemma {:induction false} NatToStringValue(n: nat)
    ensures AllDigits(NatToString(n)) && DigitsValue(NatToString(n)) == n
    decreases n
  {
    NatToStringShape(n);
    var s := NatToString(n);
    if n < 10 {
      assert s[..0] == [];
    } else {
      NatToStringValue(n / 10);
      assert s[..|s| - 1] == NatToString(n / 10);
    }
  }

  /** parseInt reads back what toString writes, for every Java int. */
  lemma ParseIntToString(v: int)
    requires InIntRange(v)
    ensures ParseInt(IntToString(v)) == Some(v)
  {
    var s := IntToString(v);
    IntToStringShape(v);
    if v < 0 {
      assert s[1..] == NatToString(-v);
      NatToStringValue(-v);
    } else {
      NatToStringValue(v);
    }
  }

  lemma NatToStringInjective(m: nat, n: nat)
    requires NatToString(m) == NatToString(n)
    ensures m == n
  {
    NatToStringValue(m);
    NatToStringValue(n);
  }

  /** Distinct ints have distinct decimal representations. */
  lemma IntToStringInjective(a: int, b: int)
    requires IntToString(a) == IntToString(b)
    ensures a == b
  {
    var s := IntToString(a);
    IntToStringShape(a);
    IntToStringShape(b);
    if a < 0 {
      assert NatToString(-a) == s[1..] == NatToString(-b);
      NatToStringInjective(-a, -b);
    } else {
      NatToStringInjective(a, b);
    }
  }

  // ---------------------------------------------------------------------------------------------
  // String.toUpperCase

  function UpperChar(ch: char): char {
    if 'a' <= ch <= 'z' then (ch as int - 32) as char else ch
  }

  /** `s.toUpperCase()` on the ASCII letters. */
  function ToUpper(s: string): (r: string)
    ensures |r| == |s|
    ensures forall k :: 0 <= k < |r| ==> !('a' <= r[k] <= 'z')
  {
    if s == [] then [] else [UpperChar(s[0])] + ToUpper(s[1..])
  }

  lemma {:induction false} ToUpperIdempotent(s: string)
    ensures ToUpper(ToUpper(s)) == ToUpper(s)
  {
    if s != [] {
      ToUpperIdempotent(s[1..]);
      assert ToUpper(s)[1..] == ToUpper(s[1..]);
    }
  }

  // ---------------------------------------------------------------------------------------------
  // Joining tokens with a separator

  lemma SnocSplit<T>(s: seq<T>)
    requires |s| >= 1
    ensures s == s[..|s| - 1] + [s[|s| - 1]]
  {
  }

  lemma AppendAssoc<T>(a: seq<T>, b: seq<T>, c: seq<T>)
    ensures a + (b + c) == (a + b) + c
  {
  }

  /** The tokens of `parts`, in order, with `sep` between neighbours. */
  function Join(parts: seq<string>, sep: string): string
  {
    if |parts| == 0 then ""
    else if |parts| == 1 then parts[0]
    else parts[0] + sep + Join(parts[1..], sep)
  }

  /** No token holds the separator's first character (so a joined string can be cut back apart). */
  predicate Separable(parts: seq<string>, sep: string)
    requires |sep| >= 1
  {
    forall k :: 0 <= k < |parts| ==> sep[0] !in parts[k]
  }

  /** The first separator character of a join stands right after the first token. */
  lemma JoinFirstSeparator(parts: seq<string>, sep: string)
    requires |parts| >= 1 && |sep| >= 1 && Separable(parts, sep)
    ensures IndexOf(Join(parts, sep), sep[0], 0) == if |parts| == 1 then -1 else |parts[0]|
  {
    if |parts| == 1 {
      IndexOfAbsent(parts[0], sep[0]);
    } else {
      var c, p0, j := sep[0], parts[0], Join(parts[1..], sep);
      assert sep == [c] + sep[1..];
      AppendAssoc(p0, [c], sep[1..]);
      AppendAssoc(p0 + [c], sep[1..], j);
      IndexOfFirst(p0, c, sep[1..] + j);
    }
  }

  /** Tokens free of the separator's first character are determined by their join. */
  lemma {:induction false} JoinInjective(a: seq<string>, b: seq<string>, sep: string)
    requires |a| >= 1 && |b| >= 1 && |sep| >= 1
    requires Separable(a, sep) && Separable(b, sep)
    requires Join(a, sep) == Join(b, sep)
    ensures a == b
  {
    JoinFirstSeparator(a, sep);
    JoinFirstSeparator(b, sep);
    if |a| == 1 {
      assert |b| == 1;
    } else {
      assert |b| >= 2;
      var s := Join(a, sep);
      assert a[0] == s[..|a[0]|] == b[0];
      assert Join(a[1..], sep) == s[|a[0]| + |sep|..] == Join(b[1..], sep);
      JoinInjective(a[1..], b[1..], sep);
      assert a == [a[0]] + a[1..];
      assert b == [b[0]] + b[1..];
    }
  }
}
