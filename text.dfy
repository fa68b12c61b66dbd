/** String helpers the core uses: decimal rendering of integers (`str(i)`),
    `sep.join(parts)` and its inverse `s.split(sep)`. */
module Text {

  function DigitChar(d: nat): char
    requires d < 10
  {
    "0123456789"[d]
  }

  predicate IsDigit(c: char) {
    '0' <= c <= '9'
  }

  function NatToString(n: nat): (s: string)
    ensures s != [] && forall i :: 0 <= i < |s| ==> IsDigit(s[i])
  {
    if n < 10 then [DigitChar(n)] else NatToString(n / 10) + [DigitChar(n % 10)]
  }

  /** `str(i)` for an integer. */
  function IntToString(i: int): (s: string)
    ensures s != [] && forall k :: 0 <= k < |s| ==> IsDigit(s[k]) || (k == 0 && s[k] == '-')
  {
    if i < 0 then "-" + NatToString(-i) else NatToString(i)
  }

  /** `sep.join(parts)` for a one-character separator. */
  function Join(sep: char, parts: seq<string>): string {
    if parts == [] then ""
    else if |parts| == 1 then parts[0]
    else parts[0] + [sep] + Join(sep, parts[1..])
  }

  /** `s.split(sep)` for a one-character separator: always at least one piece. */
  function Split(s: string, sep: char): (pieces: seq<string>)
    ensures |pieces| >= 1
    decreases |s|
  {
    if s == [] then [""]
    else
      var rest := Split(s[1..], sep);
      if s[0] == sep then [""] + rest else [[s[0]] + rest[0]] + rest[1..]
  }

  /** Splitting undoes joining, as long as no part contains the separator. */
  lemma {:induction false} SplitJoin(sep: char, parts: seq<string>)
    requires parts != []
    requires forall i :: 0 <= i < |parts| ==> sep !in parts[i]
    ensures Split(Join(sep, parts), sep) == parts
  {
    if |parts| == 1 {
      SplitNoSep(parts[0], sep, []);
      assert parts[0] + [] == parts[0];
      assert Split([], sep) == [""];
      assert parts[0] + "" == parts[0];
    } else {
      SplitJoin(sep, parts[1..]);
      SplitNoSep(parts[0], sep, [sep] + Join(sep, parts[1..]));
      assert parts[0] + [sep] + Join(sep, parts[1..]) == parts[0] + ([sep] + Join(sep, parts[1..]));
      var tail := Join(sep, parts[1..]);
      assert ([sep] + tail)[1..] == tail;
      var st := Split([sep] + tail, sep);
      assert st == [""] + parts[1..];
      assert Split(Join(sep, parts), sep) == [parts[0] + st[0]] + st[1..];
      assert parts[0] + "" == parts[0];
      assert parts == [parts[0]] + parts[1..];
    }
  }

  /** Splitting `a + b`, with no separator in `a`, glues `a` to the first piece of `b`. */
  lemma {:induction false} SplitNoSep(a: string, sep: char, b: string)
    requires sep !in a
    ensures Split(a + b, sep) == [a + Split(b, sep)[0]] + Split(b, sep)[1..]
    decreases |a|
  {
    var sb := Split(b, sep);
    if a == [] {
      assert a + b == b;
      assert sb == [sb[0]] + sb[1..];
      assert a + sb[0] == sb[0];
    } else {
      assert (a + b)[1..] == a[1..] + b;
      SplitNoSep(a[1..], sep, b);
      var rest := Split(a[1..] + b, sep);
      assert rest[0] == a[1..] + sb[0] && rest[1..] == sb[1..];
      assert (a + b)[0] == a[0] != sep;
      assert Split(a + b, sep) == [[a[0]] + rest[0]] + rest[1..];
      assert [a[0]] + (a[1..] + sb[0]) == a + sb[0];
    }
  }

  lemma IntToStringHasNoComma(i: int)
    ensures ',' !in IntToString(i)
  {
  }
}
