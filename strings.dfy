/** The Python `str` operations the Nyaa adapter relies on (`split`, `join`,
    `strip`, `str(int)` and `int(str)`), with the properties its contracts need. */
module Strings {
  import opened Wrappers

  /** True iff `sep` occurs in `s` starting at index `i`. */
  predicate OccursAt(s: string, sep: string, i: nat) {
    i + |sep| <= |s| && s[i..i + |sep|] == sep
  }

  /** The least index at or after `from` where `sep` occurs, as `s.find(sep, from)`. */
  function FindFrom(s: string, sep: string, from: nat): (r: Option<nat>)
    decreases |s| - from
    ensures r.None? ==> forall j :: from <= j ==> !OccursAt(s, sep, j)
    ensures r.Some? ==> from <= r.value && OccursAt(s, sep, r.value)
    ensures r.Some? ==> forall j :: from <= j < r.value ==> !OccursAt(s, sep, j)
  {
    if from + |sep| > |s| then None
    else if s[from..from + |sep|] == sep then Some(from)
    else FindFrom(s, sep, from + 1)
  }

  /** `s.split(sep)`: the pieces between left-to-right, non-overlapping occurrences of `sep`. */
  function Split(s: string, sep: string): (parts: seq<string>)
    requires sep != []
    decreases |s|, 1
    ensures |parts| >= 1
  {
    match FindFrom(s, sep, 0)
    case None => [s]
    case Some(i) => SplitAt(s, sep, i)
  }

  /** The split of `s` when its first occurrence of `sep` is at `i`: the text before it,
      then the split of the text after it. */
  function SplitAt(s: string, sep: string, i: nat): (parts: seq<string>)
    requires sep != [] && i + |sep| <= |s|
    decreases |s|, 0
    ensures |parts| >= 2
  {
    [s[..i]] + Split(s[i + |sep|..], sep)
  }

  /** `sep.join(parts)`. */
  function Join(sep: string, parts: seq<string>): string {
    if |parts| == 0 then ""
    else if |parts| == 1 then parts[0]
    else parts[0] + sep + Join(sep, parts[1..])
  }

  /** Joining the pieces of a split with the same separator gives back the text. */
  lemma {:induction false} JoinSplit(s: string, sep: string)
    requires sep != []
    ensures Join(sep, Split(s, sep)) == s
    decreases |s|
  {
    var found := FindFrom(s, sep, 0);
    if found.Some? {
      var i := found.value;
      var head := s[..i];
      var rest := s[i + |sep|..];
      var tail := Split(rest, sep);
      calc {
        Join(sep, Split(s, sep));
        { SplitFound(s, sep, i); }
        Join(sep, [head] + tail);
        { JoinCons(sep, head, tail); }
        head + sep + Join(sep, tail);
        { JoinSplit(rest, sep); }
        head + sep + rest;
        { AroundOccurrence(s, sep, i); }
        s;
      }
    }
  }

  lemma SplitFound(s: string, sep: string, i: nat)
    requires sep != [] && FindFrom(s, sep, 0) == Some(i)
    ensures i + |sep| <= |s|
    ensures Split(s, sep) == [s[..i]] + Split(s[i + |sep|..], sep)
  {
  }

  lemma AroundOccurrence(s: string, sep: string, i: nat)
    requires OccursAt(s, sep, i)
    ensures s == s[..i] + sep + s[i + |sep|..]
  {
    assert s[i..] == s[i..i + |sep|] + s[i + |sep|..];
    assert s == s[..i] + s[i..];
  }

  lemma JoinCons(sep: string, head: string, tail: seq<string>)
    requires |tail| >= 1
    ensures Join(sep, [head] + tail) == head + sep + Join(sep, tail)
  {
    assert ([head] + tail)[1..] == tail;
  }

  /** Splitting on a one-character separator that no line contains recovers the joined lines. */
  lemma {:induction false} SplitJoin(lines: seq<string>, sep: string)
    requires |sep| == 1 && |lines| >= 1
    requires forall k :: 0 <= k < |lines| ==> sep[0] !in lines[k]
    ensures Split(Join(sep, lines), sep) == lines
    decreases |lines|
  {
    var s := Join(sep, lines);
    var head := lines[0];
    if |lines| == 1 {
      var found := FindFrom(s, sep, 0);
      if found.Some? {
        assert false;
      }
    } else {
      var rest := lines[1..];
      var tail := Join(sep, rest);
      assert s == head + sep + tail;
      assert OccursAt(s, sep, |head|);
      var found := FindFrom(s, sep, 0);
      var i := found.value;
      if i < |head| {
        assert false;
      }
      assert s[..i] == head;
      assert s[i + 1..] == tail;
      SplitJoin(rest, sep);
      assert lines == [head] + rest;
    }
  }

  /** Python's `str.isspace` on one character (the characters `str.strip()` removes). */
  predicate IsSpace(c: char) {
    var n := c as int;
    (9 <= n <= 13) || (28 <= n <= 32) || n == 0x85 || n == 0xA0 || n == 0x1680
    || (0x2000 <= n <= 0x200A) || n == 0x2028 || n == 0x2029 || n == 0x202F
    || n == 0x205F || n == 0x3000
  }

  /** `s.lstrip()`: a suffix of `s` that starts with a non-space, all removed characters spaces. */
  function LStrip(s: string): (r: string)
    decreases |s|
    ensures |r| <= |s| && r == s[|s| - |r|..]
    ensures forall k :: 0 <= k < |s| - |r| ==> IsSpace(s[k])
    ensures r != [] ==> !IsSpace(r[0])
  {
    if s != [] && IsSpace(s[0]) then LStrip(s[1..]) else s
  }

  /** `s.rstrip()`: a prefix of `s` that ends with a non-space, all removed characters spaces. */
  function RStrip(s: string): (r: string)
    decreases |s|
    ensures |r| <= |s| && r == s[..|r|]
    ensures forall k :: |r| <= k < |s| ==> IsSpace(s[k])
    ensures r != [] ==> !IsSpace(r[|r| - 1])
  {
    if s != [] && IsSpace(s[|s| - 1]) then RStrip(s[..|s| - 1]) else s
  }

  /** `s.strip()`. */
  function Strip(s: string): string {
    RStrip(LStrip(s))
  }

  /** Where `Strip(s)` begins inside `s`. */
  function StripStart(s: string): nat {
    |s| - |LStrip(s)|
  }

  /** A prefix `r` of a suffix `l` of `s` is the slice of `s` where it sits. */
  lemma PrefixOfSuffix(s: string, l: string, r: string)
    requires |l| <= |s| && l == s[|s| - |l|..]
    requires |r| <= |l| && r == l[..|r|]
    ensures r == s[|s| - |l|..|s| - |l| + |r|]
    ensures forall k :: |s| - |l| + |r| <= k < |s| ==> s[k] == l[k - (|s| - |l|)]
  {
  }

  /** The stripped text sits at `StripStart(s)` inside `s`, followed only by spaces. */
  lemma StripSlice(s: string)
    ensures StripStart(s) + |Strip(s)| <= |s|
    ensures Strip(s) == s[StripStart(s)..StripStart(s) + |Strip(s)|]
    ensures forall k :: StripStart(s) + |Strip(s)| <= k < |s| ==> IsSpace(s[k])
  {
    var l := LStrip(s);
    var r := RStrip(l);
    PrefixOfSuffix(s, l, r);
  }

  /** The stripped text is a slice of the input, only spaces were cut on either side,
      and it neither begins nor ends with a space. */
  lemma StripSpec(s: string)
    ensures StripStart(s) + |Strip(s)| <= |s|
    ensures Strip(s) == s[StripStart(s)..StripStart(s) + |Strip(s)|]
    ensures forall k :: 0 <= k < StripStart(s) ==> IsSpace(s[k])
    ensures forall k :: StripStart(s) + |Strip(s)| <= k < |s| ==> IsSpace(s[k])
    ensures Strip(s) != [] ==> !IsSpace(Strip(s)[0]) && !IsSpace(Strip(s)[|Strip(s)| - 1])
  {
    StripSlice(s);
    var l := LStrip(s);
    var r := RStrip(l);
    if r != [] {
      assert r[0] == l[0];
    }
  }

  /** Stripping twice is stripping once. */
  lemma StripIdempotent(s: string)
    ensures Strip(Strip(s)) == Strip(s)
  {
    StripSpec(s);
    var r := Strip(s);
    assert LStrip(r) == r;
    assert RStrip(r) == r;
  }

  /** Reading a file in text mode with universal newlines (`open(path, 'r')`): each
      `"\r\n"` and each lone `"\r"` becomes `"\n"`, so no carriage return survives. */
  function Universal(s: string): (r: string)
    decreases |s|
    ensures |r| <= |s|
    ensures forall k :: 0 <= k < |r| ==> r[k] != '\r'
  {
    if s == [] then []
    else if s[0] == '\r' then
      "\n" + Universal(if |s| >= 2 && s[1] == '\n' then s[2..] else s[1..])
    else [s[0]] + Universal(s[1..])
  }

  /** Text without carriage returns reads back unchanged. */
  lemma {:induction false} UniversalKeeps(s: string)
    requires forall k :: 0 <= k < |s| ==> s[k] != '\r'
    ensures Universal(s) == s
    decreases |s|
  {
    if s != [] {
      UniversalKeeps(s[1..]);
    }
  }

  /** Reading text back is the identity when it holds no carriage return. */
  lemma UniversalKeepsPlain(s: string)
    ensures (forall k :: 0 <= k < |s| ==> s[k] != '\r') ==> Universal(s) == s
  {
    if forall k :: 0 <= k < |s| ==> s[k] != '\r' {
      UniversalKeeps(s);
    }
  }

  /** Reading back what was read is reading it once. */
  lemma UniversalIdempotent(s: string)
    ensures Universal(Universal(s)) == Universal(s)
  {
    UniversalKeeps(Universal(s));
  }

  predicate IsDigit(c: char) {
    '0' <= c <= '9'
  }

  predicate AllDigits(s: string) {
    forall k :: 0 <= k < |s| ==> IsDigit(s[k])
  }

  function DigitChar(d: nat): (c: char)
    requires d < 10
    ensures IsDigit(c)
  {
    ('0' as int + d) as char
  }

  /** `str(n)` for a non-negative integer. */
  function Decimal(n: nat): (r: string)
    ensures |r| >= 1 && AllDigits(r)
  {
    if n < 10 then [DigitChar(n)] else Decimal(n / 10) + [DigitChar(n % 10)]
  }

  /** `int(s)` for a string of ASCII decimal digits. */
  function DigitsValue(s: string): nat
    requires AllDigits(s)
  {
    if s == [] then 0 else DigitsValue(s[..|s| - 1]) * 10 + (s[|s| - 1] as int - '0' as int)
  }

  /** `int(str(n)) == n`. */
  lemma {:induction false} DecimalValue(n: nat)
    ensures DigitsValue(Decimal(n)) == n
  {
    var d := Decimal(n);
    if n >= 10 {
      DecimalValue(n / 10);
      assert d[..|d| - 1] == Decimal(n / 10);
    }
  }
}
