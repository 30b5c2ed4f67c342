/**
 * The few pieces of JavaScript string and number behaviour the itinerary code relies on:
 * `String.prototype.split` with a one-character separator, `Array.prototype.join`,
 * `parseInt`, `Number(...)` applied to a string, the decimal rendering of a
 * non-negative integer, and truthiness of a number (`x || fallback`).
 */
module JsText {
  import opened Wrappers

  /** A JavaScript number as far as this code can produce one: an integer or NaN. */
  datatype Num = NaN | Int(value: int)

  /** `n` is truthy: not NaN and not zero. */
  predicate Truthy(n: Num) {
    n.Int? && n.value != 0
  }

  /** `n || fallback`. */
  function OrElse(n: Num, fallback: int): (r: Num)
    ensures Truthy(n) ==> r == n
    ensures !Truthy(n) ==> r == Int(fallback)
  {
    if Truthy(n) then n else Int(fallback)
  }

  /** An optional string is truthy when it is present and non-empty. */
  predicate Present(s: Option<string>) {
    s.Some? && s.value != ""
  }

  // ---------------------------------------------------------------- digits

  predicate IsDigit(c: char) {
    '0' <= c <= '9'
  }

  predicate AllDigits(s: string) {
    forall i :: 0 <= i < |s| ==> IsDigit(s[i])
  }

  function DigitValue(c: char): int {
    c as int - '0' as int
  }

  function DigitChar(d: nat): (c: char)
    requires d < 10
    ensures IsDigit(c) && DigitValue(c) == d
  {
    ('0' as int + d) as char
  }

  /** The value of a string of decimal digits, most significant first. */
  function DigitsValue(s: string): int
    decreases |s|
  {
    if s == [] then 0 else DigitsValue(s[..|s| - 1]) * 10 + DigitValue(s[|s| - 1])
  }

  /** `String(n)` for a non-negative integer: its shortest decimal rendering. */
  function NatToString(n: nat): (s: string)
    ensures |s| >= 1 && AllDigits(s)
    ensures DigitsValue(s) == n
    decreases n
  {
    if n < 10 then [DigitChar(n)]
    else
      var prefix := NatToString(n / 10);
      var s := prefix + [DigitChar(n % 10)];
      assert s[..|s| - 1] == prefix;
      s
  }

  /** The length of the run of decimal digits at the start of `s`. */
  function DigitRun(s: string): (k: nat)
    ensures k <= |s|
  {
    if s == [] || !IsDigit(s[0]) then 0 else 1 + DigitRun(s[1..])
  }

  lemma {:induction false} DigitRunOfDigitsThen(a: string, rest: string)
    requires AllDigits(a)
    requires rest == [] || !IsDigit(rest[0])
    ensures DigitRun(a + rest) == |a|
    decreases |a|
  {
    if a != [] {
      assert (a + rest)[1..] == a[1..] + rest;
      DigitRunOfDigitsThen(a[1..], rest);
    }
  }

  // ---------------------------------------------------------------- whitespace

  /** The ASCII white-space characters `parseInt` and `Number` skip. */
  predicate IsSpace(c: char) {
    c == ' ' || c == '\t' || c == '\n' || c == '\r' || c == '\U{B}' || c == '\U{C}'
  }

  function TrimStart(s: string): string {
    if s != [] && IsSpace(s[0]) then TrimStart(s[1..]) else s
  }

  function TrimEnd(s: string): string {
    if s != [] && IsSpace(s[|s| - 1]) then TrimEnd(s[..|s| - 1]) else s
  }

  // ---------------------------------------------------------------- parsing

  /** An optional sign followed by the rest of the text. */
  function SignAndBody(t: string): (bool, string) {
    if |t| > 0 && t[0] == '-' then (true, t[1..])
    else if |t| > 0 && t[0] == '+' then (false, t[1..])
    else (false, t)
  }

  function Signed(negative: bool, magnitude: int): int {
    if negative then -magnitude else magnitude
  }

  /**
   * `parseInt(s)` in base 10: leading white space and one sign are skipped, then the
   * longest run of digits is read; text after it is ignored. No digit at all gives NaN.
   */
  function ParseInt(s: string): (r: Num)
    ensures r.Int? <==> DigitRun(SignAndBody(TrimStart(s)).1) > 0
  {
    var (negative, body) := SignAndBody(TrimStart(s));
    var k := DigitRun(body);
    if k == 0 then NaN else Int(Signed(negative, DigitsValue(body[..k])))
  }

  /** `parseInt(x)` where `x` may be `undefined` (which gives NaN). */
  function ParseIntOpt(s: Option<string>): (r: Num)
    ensures s.None? ==> r == NaN
  {
    if s.Some? then ParseInt(s.value) else NaN
  }

  /**
   * `Number(s)`: surrounding white space is ignored, the empty text is 0, an optionally
   * signed run of digits is its value, anything else is NaN.
   */
  function ToNumber(s: string): (r: Num)
    ensures TrimEnd(TrimStart(s)) == [] ==> r == Int(0)
  {
    var t := TrimEnd(TrimStart(s));
    if t == [] then Int(0)
    else
      var (negative, body) := SignAndBody(t);
      if body != [] && AllDigits(body) then Int(Signed(negative, DigitsValue(body))) else NaN
  }

  /** A run of digits followed by nothing or by a non-digit parses to the run's value. */
  lemma ParseIntDigitsThen(a: string, rest: string)
    requires |a| > 0 && AllDigits(a)
    requires rest == [] || !IsDigit(rest[0])
    ensures ParseInt(a + rest) == Int(DigitsValue(a))
  {
    var s := a + rest;
    assert TrimStart(s) == s by {
      assert !IsSpace(s[0]) by { assert s[0] == a[0]; }
    }
    assert SignAndBody(s) == (false, s) by { assert s[0] == a[0]; }
    DigitRunOfDigitsThen(a, rest);
    assert s[..|a|] == a;
  }

  lemma ToNumberDigits(a: string)
    requires |a| > 0 && AllDigits(a)
    ensures ToNumber(a) == Int(DigitsValue(a))
  {
    assert !IsSpace(a[0]) && !IsSpace(a[|a| - 1]);
    assert TrimStart(a) == a;
    assert TrimEnd(a) == a;
  }

  // ---------------------------------------------------------------- split and join

  /** `s.split(sep)`: the fields between separators; always at least one field. */
  function Split(s: string, sep: char): (r: seq<string>)
    ensures |r| >= 1
    decreases |s|
  {
    if s == [] then [""]
    else
      var rest := Split(s[1..], sep);
      if s[0] == sep then [""] + rest else [[s[0]] + rest[0]] + rest[1..]
  }

  /** No field of a split contains the separator. */
  lemma {:induction false} SplitFieldsFree(s: string, sep: char)
    ensures forall i :: 0 <= i < |Split(s, sep)| ==> sep !in Split(s, sep)[i]
    decreases |s|
  {
    if s != [] {
      SplitFieldsFree(s[1..], sep);
    }
  }

  /** `parts.join(sep)`. */
  function Join(parts: seq<string>, sep: string): string {
    if parts == [] then ""
    else if |parts| == 1 then parts[0]
    else parts[0] + sep + Join(parts[1..], sep)
  }

  /** The field at index `i` of a split, or `undefined` past the end. */
  function FieldAt(parts: seq<string>, i: nat): (r: Option<string>)
    ensures r.Some? <==> i < |parts|
  {
    if i < |parts| then Some(parts[i]) else None
  }

  /** Splitting and joining with the same separator gives the text back. */
  lemma {:induction false} JoinSplit(s: string, sep: char)
    ensures Join(Split(s, sep), [sep]) == s
    decreases |s|
  {
    if s != [] {
      var rest := Split(s[1..], sep);
      JoinSplit(s[1..], sep);
      if s[0] == sep {
        assert Split(s, sep)[1..] == rest;
        assert s == [sep] + s[1..];
      } else {
        var r := Split(s, sep);
        assert r[1..] == rest[1..];
        assert r[0] == [s[0]] + rest[0];
        if |rest| == 1 {
          assert s == [s[0]] + rest[0];
        } else {
          assert Join(rest, [sep]) == rest[0] + [sep] + Join(rest[1..], [sep]);
          assert s == [s[0]] + s[1..];
        }
      }
    }
  }

  /** A field without the separator, then the separator, then more text. */
  lemma {:induction false} SplitCons(a: string, sep: char, b: string)
    requires sep !in a
    ensures Split(a + [sep] + b, sep) == [a] + Split(b, sep)
    decreases |a|
  {
    var s := a + [sep] + b;
    if a == [] {
      assert s[1..] == b;
    } else {
      assert s[1..] == a[1..] + [sep] + b;
      SplitCons(a[1..], sep, b);
      assert [a[0]] + a[1..] == a;
    }
  }

  lemma {:induction false} SplitNoSep(a: string, sep: char)
    requires sep !in a
    ensures Split(a, sep) == [a]
    decreases |a|
  {
    if a != [] {
      SplitNoSep(a[1..], sep);
      assert [a[0]] + a[1..] == a;
    }
  }

  /** Joining separator-free fields and splitting again gives the fields back. */
  lemma {:induction false} SplitJoin(parts: seq<string>, sep: char)
    requires |parts| >= 1
    requires forall i :: 0 <= i < |parts| ==> sep !in parts[i]
    ensures Split(Join(parts, [sep]), sep) == parts
    decreases |parts|
  {
    if |parts| == 1 {
      SplitNoSep(parts[0], sep);
    } else {
      SplitJoin(parts[1..], sep);
      SplitCons(parts[0], sep, Join(parts[1..], [sep]));
      assert [parts[0]] + parts[1..] == parts;
    }
  }

  /** A clock text "H:MM" or "HH:MM" splits into its two digit fields. */
  lemma ClockTextFields(h: string, m: string)
    requires AllDigits(h) && AllDigits(m)
    ensures Split(h + ":" + m, ':') == [h, m]
  {
    assert ':' !in h by {
      forall i | 0 <= i < |h| ensures h[i] != ':' { assert IsDigit(h[i]); }
    }
    assert ':' !in m by {
      forall i | 0 <= i < |m| ensures m[i] != ':' { assert IsDigit(m[i]); }
    }
    SplitCons(h, ':', m);
    SplitNoSep(m, ':');
  }

  // ---------------------------------------------------------------- slicing

  /** The end index `xs.slice(0, end)` stops at: a negative end counts back from the length. */
  function SliceEnd(len: nat, end: int): (k: nat)
    ensures k <= len
  {
    if end < 0 then (if len + end < 0 then 0 else len + end)
    else if end > len then len
    else end
  }

  /** `xs.slice(0, end)`. */
  function SliceTo<T>(xs: seq<T>, end: int): (r: seq<T>)
    ensures |r| <= |xs| && r == xs[..|r|]
    ensures 0 <= end <= |xs| ==> |r| == end
    ensures end > |xs| ==> r == xs
    ensures end < 0 ==> |r| == if |xs| + end < 0 then 0 else |xs| + end
  {
    xs[..SliceEnd(|xs|, end)]
  }
}
