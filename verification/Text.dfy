/** Strings as Python sees them here: stripping, splitting on a separator and
    decimal numerals.  Shared by the partition keys and the conversation text. */
module Text {
  datatype Option<+T> = None | Some(value: T)

  /** The characters Python's `str.strip()` removes. */
  predicate IsSpace(c: char) {
    var n := c as int;
    || 9 <= n <= 13 || 28 <= n <= 32 || n == 0x85 || n == 0xA0 || n == 0x1680
    || 0x2000 <= n <= 0x200A || n == 0x2028 || n == 0x2029 || n == 0x202F
    || n == 0x205F || n == 0x3000
  }

  function LStrip(s: string): (r: string)
    ensures |r| <= |s|
    ensures forall c :: c in r ==> c in s
    ensures r != "" ==> !IsSpace(r[0])
  {
    if s != "" && IsSpace(s[0]) then LStrip(s[1..]) else s
  }

  function RStrip(s: string): (r: string)
    ensures r <= s
    ensures r != "" ==> !IsSpace(r[|r| - 1])
    decreases |s|
  {
    if s != "" && IsSpace(s[|s| - 1]) then RStrip(s[..|s| - 1]) else s
  }

  function Strip(s: string): (r: string)
    ensures |r| <= |s|
    ensures forall c :: c in r ==> c in s
    ensures Trimmed(r)
  {
    RStrip(LStrip(s))
  }

  /** No white space at either end. */
  predicate Trimmed(s: string) {
    s != "" ==> !IsSpace(s[0]) && !IsSpace(s[|s| - 1])
  }

  lemma StripTrimmed(s: string)
    requires Trimmed(s)
    ensures Strip(s) == s
  {
  }

  /** A line "prefix" + " " + trimmed text strips back to the text. */
  lemma StripLeadingSpace(s: string)
    requires Trimmed(s)
    ensures Strip(" " + s) == s
  {
    var line := " " + s;
    assert line[0] == ' ' && line[1..] == s;
    assert LStrip(line) == LStrip(s);
  }

  // ---- Finding a character ----

  function IndexOf(s: string, c: char): (i: nat)
    ensures i <= |s|
    ensures c !in s[..i]
    ensures i < |s| ==> s[i] == c
  {
    if s == "" || s[0] == c then 0
    else
      var i := IndexOf(s[1..], c) + 1;
      assert s[..i] == [s[0]] + s[1..][..i - 1];
      i
  }

  lemma {:induction false} IndexOfSplit(a: string, c: char, b: string)
    requires c !in a
    ensures IndexOf(a + [c] + b, c) == |a|
  {
    var s := a + [c] + b;
    assert s[|a|] == c && s[..|a|] == a;
    var i := IndexOf(s, c);
    assert forall j :: 0 <= j < i ==> s[..i][j] == s[j] != c;
  }

  // ---- Splitting and joining on one separator character ----

  function Join(parts: seq<string>, sep: char): (r: string)
    ensures sep !in r <==> |parts| <= 1 && (forall p :: p in parts ==> sep !in p)
  {
    if parts == [] then ""
    else if |parts| == 1 then parts[0]
    else parts[0] + [sep] + Join(parts[1..], sep)
  }

  /** Python's `s.split(sep)` for a one-character separator. */
  function Split(s: string, sep: char): (r: seq<string>)
    ensures |r| > 0
    ensures forall p :: p in r ==> sep !in p
  {
    if s == "" then [""]
    else
      var rest := Split(s[1..], sep);
      if s[0] == sep then [""] + rest
      else [[s[0]] + rest[0]] + rest[1..]
  }

  /** Text without the separator stays in the first part. */
  lemma {:induction false} SplitPrefix(a: string, s: string, sep: char)
    requires sep !in a
    ensures Split(a + s, sep) == [a + Split(s, sep)[0]] + Split(s, sep)[1..]
  {
    if a == "" {
      assert a + s == s;
      assert a + Split(s, sep)[0] == Split(s, sep)[0];
    } else {
      var rest := Split(s, sep);
      assert (a + s)[1..] == a[1..] + s;
      SplitPrefix(a[1..], s, sep);
      assert [a[0]] + (a[1..] + rest[0]) == a + rest[0];
    }
  }

  /** Splitting undoes joining. */
  lemma {:induction false} SplitJoin(parts: seq<string>, sep: char)
    requires parts != []
    requires forall p :: p in parts ==> sep !in p
    ensures Split(Join(parts, sep), sep) == parts
  {
    if |parts| == 1 {
      assert parts[0] + "" == parts[0];
      SplitPrefix(parts[0], "", sep);
      assert parts == [parts[0]];
    } else {
      var rest := Join(parts[1..], sep);
      SplitJoin(parts[1..], sep);
      var tail := [sep] + rest;
      assert tail[1..] == rest;
      assert Split(tail, sep) == [""] + parts[1..];
      SplitPrefix(parts[0], tail, sep);
      assert parts[0] + [sep] + rest == parts[0] + tail;
      assert parts[0] + "" == parts[0];
      assert parts == [parts[0]] + parts[1..];
    }
  }

  lemma {:induction false} JoinConcat(a: seq<string>, b: seq<string>, sep: char)
    requires a != [] && b != []
    ensures Join(a + b, sep) == Join(a, sep) + [sep] + Join(b, sep)
  {
    if |a| == 1 {
      assert (a + b)[1..] == b;
    } else {
      assert (a + b)[1..] == a[1..] + b;
      JoinConcat(a[1..], b, sep);
    }
  }

  // ---- Decimal numerals ----

  function Digit(d: nat): char
    requires d < 10
  {
    ('0' as int + d) as char
  }

  predicate IsDigit(c: char) { '0' <= c <= '9' }

  function DigitValue(c: char): nat
    requires IsDigit(c)
  {
    c as int - '0' as int
  }

  /** Python's `str(n)` for a natural number. */
  function Decimal(n: nat): (s: string)
    ensures s != "" && forall c :: c in s ==> IsDigit(c)
  {
    if n < 10 then [Digit(n)] else Decimal(n / 10) + [Digit(n % 10)]
  }

  function ParseDecimal(s: string): (n: nat)
    requires forall c :: c in s ==> IsDigit(c)
  {
    if s == "" then 0
    else ParseDecimal(s[..|s| - 1]) * 10 + DigitValue(s[|s| - 1])
  }

  lemma {:induction false} DecimalRoundTrip(n: nat)
    ensures ParseDecimal(Decimal(n)) == n
  {
    if n < 10 {
      assert Decimal(n)[..0] == "";
    } else {
      DecimalRoundTrip(n / 10);
      assert Decimal(n)[..|Decimal(n)| - 1] == Decimal(n / 10);
    }
  }
}
