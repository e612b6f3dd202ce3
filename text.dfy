/** The string operations the converters use: Python's `strip`, `split`,
    `startswith`, `in`, `capitalize`, `isdigit`, string ordering, `join`,
    `str(int)` and the width padding of format specifications, all over
    ASCII. */
module Text {

  /** The six ASCII whitespace characters: space, tab, newline, carriage
      return, vertical tab and form feed. */
  predicate IsSpace(c: char) {
    c == ' ' || c == '\t' || c == '\n' || c == '\r' || c == '\U{B}' || c == '\U{C}'
  }

  predicate AllSpace(s: string) {
    forall k :: 0 <= k < |s| ==> IsSpace(s[k])
  }

  /** `s` with its leading whitespace removed. */
  function TrimLeft(s: string): (r: string)
    ensures |r| <= |s|
  {
    if s != [] && IsSpace(s[0]) then TrimLeft(s[1..]) else s
  }

  /** `s` with its trailing whitespace removed. */
  function TrimRight(s: string): (r: string)
    ensures |r| <= |s|
  {
    if s != [] && IsSpace(s[|s| - 1]) then TrimRight(s[..|s| - 1]) else s
  }

  /** Python's `s.strip()`: leading whitespace is skipped one character at a
      time, then the trailing whitespace is trimmed. */
  function Strip(s: string): string
    decreases |s|
  {
    if s != [] && IsSpace(s[0]) then Strip(s[1..]) else TrimRight(s)
  }

  /** Stripping is trimming both ends. */
  lemma {:induction false} StripTrims(s: string)
    ensures Strip(s) == TrimRight(TrimLeft(s))
    decreases |s|
  {
    if s != [] && IsSpace(s[0]) {
      StripTrims(s[1..]);
    }
  }

  /** `TrimLeft` removes exactly the leading run of whitespace: what it drops
      is whitespace and what it keeps is a suffix that starts with none. */
  lemma {:induction false} TrimLeftSpec(s: string)
    ensures TrimLeft(s) == s[|s| - |TrimLeft(s)|..]
    ensures AllSpace(s[..|s| - |TrimLeft(s)|])
    ensures TrimLeft(s) == [] || !IsSpace(TrimLeft(s)[0])
  {
    if s != [] && IsSpace(s[0]) {
      TrimLeftSpec(s[1..]);
      var n := |s| - |TrimLeft(s)|;
      assert s[..n] == [s[0]] + s[1..][..n - 1];
    }
  }

  /** `TrimRight` removes exactly the trailing run of whitespace. */
  lemma {:induction false} TrimRightSpec(s: string)
    ensures TrimRight(s) == s[..|TrimRight(s)|]
    ensures AllSpace(s[|TrimRight(s)|..])
    ensures TrimRight(s) == [] || !IsSpace(TrimRight(s)[|TrimRight(s)| - 1])
  {
    if s != [] && IsSpace(s[|s| - 1]) {
      var t := s[..|s| - 1];
      TrimRightSpec(t);
      var n := |TrimRight(s)|;
      assert s[n..] == t[n..] + [s[|s| - 1]];
    }
  }

  /** The stripped string is empty exactly when the input is all whitespace,
      and otherwise neither starts nor ends with whitespace. */
  lemma {:induction false} StripSpec(s: string)
    ensures Strip(s) == [] <==> AllSpace(s)
    ensures Strip(s) == [] || (!IsSpace(Strip(s)[0]) && !IsSpace(Strip(s)[|Strip(s)| - 1]))
  {
    StripTrims(s);
    var t := TrimLeft(s);
    TrimLeftSpec(s);
    TrimRightSpec(t);
    var n := |s| - |t|;
    assert s == s[..n] + t;
    if Strip(s) == [] {
      assert t == [] by {
        assert t[0..] == t;
      }
      assert s[..n] == s;
    } else {
      assert t[0] == Strip(s)[0];
      assert !IsSpace(s[n]);
    }
  }

  /** Python's `s.startswith(p)`. */
  predicate StartsWith(s: string, p: string) {
    |p| <= |s| && s[..|p|] == p
  }

  /** Python's `p in s` for strings. */
  predicate Contains(s: string, p: string)
    decreases |s|
  {
    StartsWith(s, p) || (s != [] && Contains(s[1..], p))
  }

  /** The longest prefix of `s` without whitespace. */
  function Word(s: string): (w: string)
    ensures |w| <= |s|
    ensures s != [] && !IsSpace(s[0]) ==> w != []
  {
    if s == [] || IsSpace(s[0]) then [] else [s[0]] + Word(s[1..])
  }

  /** `Word` takes exactly the leading run of non-whitespace. */
  lemma {:induction false} WordSpec(s: string)
    ensures Word(s) == s[..|Word(s)|]
    ensures forall c :: c in Word(s) ==> !IsSpace(c)
    ensures |Word(s)| < |s| ==> IsSpace(s[|Word(s)|])
  {
    if s != [] && !IsSpace(s[0]) {
      WordSpec(s[1..]);
    }
  }

  /** A piece of `split()` output: non-empty, without whitespace. */
  predicate IsToken(t: string) {
    t != [] && forall c :: c in t ==> !IsSpace(c)
  }

  /** Python's `s.split()`: the maximal runs of non-whitespace, in order. */
  function Split(s: string): seq<string>
    decreases |s|
  {
    var t := TrimLeft(s);
    if t == [] then []
    else
      var w := Word(t);
      assert w != [] by { TrimLeftSpec(s); }
      [w] + Split(t[|w|..])
  }

  /** `split()` yields tokens only, and none at all exactly when the string
      is all whitespace. */
  lemma {:induction false} SplitSpec(s: string)
    ensures forall t :: t in Split(s) ==> IsToken(t)
    ensures Split(s) == [] <==> AllSpace(s)
    decreases |s|
  {
    var t := TrimLeft(s);
    TrimLeftSpec(s);
    if t == [] {
      assert s[..|s|] == s;
    } else {
      var w := Word(t);
      WordSpec(t);
      assert w != [];
      SplitSpec(t[|w|..]);
      assert s[|s| - |t|] == t[0];
    }
  }

  /** Leading whitespace of `a` is trimmed first; once `a` holds something
      else, `b` is kept whole. */
  lemma {:induction false} TrimLeftAppend(a: string, b: string)
    ensures TrimLeft(a + b) == if AllSpace(a) then TrimLeft(b) else TrimLeft(a) + b
    decreases |a|
  {
    if a == [] {
      assert a + b == b;
    } else {
      assert (a + b)[0] == a[0] && (a + b)[1..] == a[1..] + b;
      if IsSpace(a[0]) {
        TrimLeftAppend(a[1..], b);
        assert AllSpace(a) <==> AllSpace(a[1..]) by {
          assert forall k :: 1 <= k < |a| ==> a[k] == a[1..][k - 1];
        }
      }
    }
  }

  /** A word ends where whitespace begins. */
  lemma {:induction false} WordAppend(a: string, b: string)
    requires b == [] || IsSpace(b[0])
    ensures Word(a + b) == Word(a)
    decreases |a|
  {
    if a == [] {
      assert a + b == b;
    } else {
      assert (a + b)[0] == a[0] && (a + b)[1..] == a[1..] + b;
      WordAppend(a[1..], b);
    }
  }

  /** A string without whitespace is one word. */
  lemma {:induction false} WordWhole(t: string)
    requires forall c :: c in t ==> !IsSpace(c)
    ensures Word(t) == t
    decreases |t|
  {
    if t != [] {
      assert t[0] in t;
      assert forall c :: c in t[1..] ==> c in t;
      WordWhole(t[1..]);
      assert t == [t[0]] + t[1..];
    }
  }

  /** `split()` looks only at what is left after the leading whitespace. */
  lemma {:induction false} SplitTrimmed(s: string, u: string)
    requires TrimLeft(s) == TrimLeft(u)
    ensures Split(s) == Split(u)
  {
  }

  /** A string with something besides whitespace splits into its first word
      and the tokens after it. */
  lemma {:induction false} SplitFirst(s: string)
    requires TrimLeft(s) != []
    ensures |Word(TrimLeft(s))| <= |TrimLeft(s)|
    ensures Split(s) == [Word(TrimLeft(s))] + Split(TrimLeft(s)[|Word(TrimLeft(s))|..])
  {
  }

  /** Splitting before whitespace, or at the end: the tokens of the two
      sides, in order. */
  lemma {:induction false} SplitAppend(a: string, r: string)
    requires r == [] || IsSpace(r[0])
    ensures Split(a + r) == Split(a) + Split(r)
    decreases |a|
  {
    if AllSpace(a) {
      SplitAppendBlank(a, r);
    } else {
      var rest := AfterWord(a);
      SplitAppend(rest, r);
      SplitAppendWord(a, r);
    }
  }

  /** What follows the first word of `a`, once its leading whitespace is gone. */
  function AfterWord(a: string): (rest: string)
    ensures !AllSpace(a) ==> |rest| < |a|
  {
    TrimLeftSpec(a);
    var ta := TrimLeft(a);
    if ta != [] && !IsSpace(ta[0]) then
      assert |Word(ta)| > 0;
      ta[|Word(ta)|..]
    else
      assert AllSpace(a) by { assert a[..|a|] == a; }
      []
  }

  lemma {:induction false} SplitAppendBlank(a: string, r: string)
    requires AllSpace(a)
    ensures Split(a + r) == Split(a) + Split(r)
  {
    TrimLeftAppend(a, r);
    SplitSpec(a);
    SplitTrimmed(a + r, r);
  }

  lemma {:induction false} SplitAppendWord(a: string, r: string)
    requires r == [] || IsSpace(r[0])
    requires !AllSpace(a)
    requires Split(AfterWord(a) + r) == Split(AfterWord(a)) + Split(r)
    ensures Split(a + r) == Split(a) + Split(r)
  {
    AfterWordAppend(a, r);
    SplitAfterWord(a);
    SplitAfterWord(a + r);
    ConsAppend(Split(a + r), Split(a), Split(r), Word(TrimLeft(a)), Split(AfterWord(a)), Split(AfterWord(a) + r));
  }

  /** A string with something besides whitespace splits into its first word
      and the tokens of what follows. */
  lemma {:induction false} SplitAfterWord(s: string)
    requires !AllSpace(s)
    ensures Split(s) == [Word(TrimLeft(s))] + Split(AfterWord(s))
  {
    TrimLeftSpec(s);
    assert TrimLeft(s) != [] by { assert s[..|s|] == s; }
    SplitFirst(s);
  }

  /** Whitespace after `a` leaves its first word alone and trails what follows. */
  lemma {:induction false} AfterWordAppend(a: string, r: string)
    requires r == [] || IsSpace(r[0])
    requires !AllSpace(a)
    ensures !AllSpace(a + r)
    ensures Word(TrimLeft(a + r)) == Word(TrimLeft(a))
    ensures AfterWord(a + r) == AfterWord(a) + r
  {
    assert !AllSpace(a + r) by {
      assert forall k :: 0 <= k < |a| ==> (a + r)[k] == a[k];
    }
    TrimLeftAppend(a, r);
    var ta := TrimLeft(a);
    TrimLeftSpec(a);
    assert ta != [] by { assert a[..|a|] == a; }
    WordAppend(ta, r);
    assert (ta + r)[|Word(ta)|..] == ta[|Word(ta)|..] + r;
  }

  lemma {:induction false} ConsAppend<T>(xr: seq<T>, x: seq<T>, r: seq<T>, w: T, rest: seq<T>, restr: seq<T>)
    requires x == [w] + rest && xr == [w] + restr && restr == rest + r
    ensures xr == x + r
  {
    assert [w] + (rest + r) == ([w] + rest) + r;
  }

  /** `split()` cuts at every whitespace character: the tokens of the two
      sides, in order. With `SplitSpec` and `SplitToken` this pins `Split`
      down to the maximal runs of non-whitespace, in order. */
  lemma {:induction false} SplitAtSpace(a: string, c: char, b: string)
    requires IsSpace(c)
    ensures Split(a + [c] + b) == Split(a) + Split(b)
  {
    assert a + [c] + b == a + ([c] + b);
    SplitAppend(a, [c] + b);
    assert ([c] + b)[1..] == b;
    SplitTrimmed([c] + b, b);
  }

  /** A token splits into itself. */
  lemma {:induction false} SplitToken(t: string)
    requires IsToken(t)
    ensures Split(t) == [t]
  {
    assert t[0] in t;
    assert TrimLeft(t) == t;
    WordWhole(t);
    assert t[|t|..] == [];
  }

  /** Python's slice `s[a:b]`: the part of `s[a..b]` that exists. */
  function Slice<T>(s: seq<T>, a: nat, b: nat): (r: seq<T>)
    requires a <= b
    ensures |r| == (if b <= |s| then b - a else if a <= |s| then |s| - a else 0)
    ensures forall k :: 0 <= k < |r| ==> r[k] == s[a + k]
  {
    if b <= |s| then s[a..b] else if a <= |s| then s[a..] else []
  }

  /** Python's `c.isdigit()`, restricted to ASCII. */
  predicate IsDigit(c: char) {
    '0' <= c <= '9'
  }

  /** `''.join([c for c in s if not c.isdigit()])`. */
  function RemoveDigits(s: string): (r: string)
    ensures forall c :: c in r <==> c in s && !IsDigit(c)
    ensures |r| <= |s|
  {
    if s == [] then []
    else (if IsDigit(s[0]) then [] else [s[0]]) + RemoveDigits(s[1..])
  }

  /** Every digit is dropped, and every other character is kept as often as
      it occurs. */
  lemma {:induction false} RemoveDigitsCounts(s: string)
    ensures forall c :: multiset(RemoveDigits(s))[c] == if IsDigit(c) then 0 else multiset(s)[c]
    decreases |s|
  {
    if s != [] {
      RemoveDigitsCounts(s[1..]);
      assert s == [s[0]] + s[1..];
    }
  }

  /** The filter works character by character, left to right: filtering a
      concatenation concatenates the filtered parts, so the characters kept
      stay in their order. */
  lemma {:induction false} RemoveDigitsAppend(a: string, b: string)
    ensures RemoveDigits(a + b) == RemoveDigits(a) + RemoveDigits(b)
    decreases |a|
  {
    if a == [] {
      assert a + b == b;
    } else {
      assert (a + b)[0] == a[0] && (a + b)[1..] == a[1..] + b;
      RemoveDigitsAppend(a[1..], b);
    }
  }

  function ToUpper(c: char): (u: char)
    ensures IsDigit(u) <==> IsDigit(c)
    ensures IsSpace(u) <==> IsSpace(c)
  {
    if 'a' <= c <= 'z' then (c as int - 'a' as int + 'A' as int) as char else c
  }

  function ToLower(c: char): (l: char)
    ensures IsDigit(l) <==> IsDigit(c)
    ensures IsSpace(l) <==> IsSpace(c)
  {
    if 'A' <= c <= 'Z' then (c as int - 'A' as int + 'a' as int) as char else c
  }

  function LowerAll(s: string): (r: string)
    ensures |r| == |s|
    ensures forall k :: 0 <= k < |s| ==> r[k] == ToLower(s[k])
  {
    if s == [] then [] else [ToLower(s[0])] + LowerAll(s[1..])
  }

  /** Python's `s.capitalize()` over ASCII: the first letter upper case, all
      others lower case. */
  function Capitalize(s: string): (r: string)
    ensures |r| == |s|
    ensures s != [] ==> r[0] == ToUpper(s[0])
    ensures forall k :: 0 < k < |s| ==> r[k] == ToLower(s[k])
  {
    if s == [] then [] else [ToUpper(s[0])] + LowerAll(s[1..])
  }

  /** Capitalizing twice is capitalizing once, so a label capitalized when it
      is read ranks the same when the ranking capitalizes it again. */
  lemma {:induction false} CapitalizeIdempotent(s: string)
    ensures Capitalize(Capitalize(s)) == Capitalize(s)
  {
    var c := Capitalize(s);
    var cc := Capitalize(c);
    assert |cc| == |c|;
    forall k | 0 <= k < |c|
      ensures cc[k] == c[k]
    {
      if k == 0 {
        assert cc[0] == ToUpper(ToUpper(s[0]));
      } else {
        assert cc[k] == ToLower(ToLower(s[k]));
      }
    }
  }

  /** Capitalizing keeps a digit-free string digit-free. */
  lemma {:induction false} CapitalizeKeepsNonDigits(s: string)
    requires forall c :: c in s ==> !IsDigit(c)
    ensures forall c :: c in Capitalize(s) ==> !IsDigit(c)
  {
    var r := Capitalize(s);
    forall c | c in r
      ensures !IsDigit(c)
    {
      var k :| 0 <= k < |r| && r[k] == c;
      assert s[k] in s;
    }
  }

  /** Capitalizing keeps a string without whitespace without whitespace. */
  lemma {:induction false} CapitalizeKeepsNonSpaces(s: string)
    requires forall c :: c in s ==> !IsSpace(c)
    ensures forall c :: c in Capitalize(s) ==> !IsSpace(c)
  {
    var r := Capitalize(s);
    forall c | c in r
      ensures !IsSpace(c)
    {
      var k :| 0 <= k < |r| && r[k] == c;
      assert s[k] in s;
    }
  }

  /** Python's `<` on strings: lexicographic by code point. */
  predicate Less(a: string, b: string)
    decreases |a|
  {
    if a == [] then b != []
    else if b == [] then false
    else if a[0] != b[0] then a[0] < b[0]
    else Less(a[1..], b[1..])
  }

  lemma {:induction false} LessIrreflexive(a: string)
    ensures !Less(a, a)
    decreases |a|
  {
    if a != [] {
      LessIrreflexive(a[1..]);
    }
  }

  lemma {:induction false} LessTransitive(a: string, b: string, c: string)
    requires Less(a, b) && Less(b, c)
    ensures Less(a, c)
    decreases |a|
  {
    if a != [] && b != [] && c != [] && a[0] == b[0] && b[0] == c[0] {
      LessTransitive(a[1..], b[1..], c[1..]);
    }
  }

  lemma {:induction false} LessTotal(a: string, b: string)
    ensures a == b || Less(a, b) || Less(b, a)
    decreases |a|
  {
    if a != [] && b != [] && a[0] == b[0] {
      LessTotal(a[1..], b[1..]);
      if a[1..] == b[1..] {
        assert a == [a[0]] + a[1..] && b == [b[0]] + b[1..];
      }
    }
  }

  lemma {:induction false} LessAsymmetric(a: string, b: string)
    requires Less(a, b)
    ensures !Less(b, a)
    decreases |a|
  {
    if a != [] && b != [] && a[0] == b[0] {
      LessAsymmetric(a[1..], b[1..]);
    }
  }

  /** Python's `sep.join(parts)`. */
  function Join(parts: seq<string>, sep: string): (r: string)
    ensures |parts| == 1 ==> r == parts[0]
  {
    if |parts| == 0 then ""
    else if |parts| == 1 then parts[0]
    else parts[0] + sep + Join(parts[1..], sep)
  }

  /** Python's `s.split(c)` for a single-character separator: the pieces
      between the occurrences of `c`. */
  function SplitOn(s: string, c: char): (r: seq<string>)
    ensures |r| > 0
  {
    if s == [] then [""]
    else
      var rest := SplitOn(s[1..], c);
      if s[0] == c then [""] + rest
      else [[s[0]] + rest[0]] + rest[1..]
  }

  lemma {:induction false} SplitOnPlain(p: string, c: char)
    requires c !in p
    ensures SplitOn(p, c) == [p]
  {
    if p != [] {
      SplitOnPlain(p[1..], c);
      assert p == [p[0]] + p[1..];
    }
  }

  lemma {:induction false} SplitOnPrefix(p: string, c: char, s: string)
    requires c !in p
    ensures SplitOn(p + [c] + s, c) == [p] + SplitOn(s, c)
    decreases |p|
  {
    var t := p + [c] + s;
    if p == [] {
      assert t[1..] == s;
    } else {
      assert t[1..] == p[1..] + [c] + s;
      SplitOnPrefix(p[1..], c, s);
      assert [p[0]] + p[1..] == p;
    }
  }

  /** Joining lines with a one-character separator that none of them contains
      can be undone by splitting on that character. */
  lemma {:induction false} JoinSplitOnRoundTrip(parts: seq<string>, c: char)
    requires |parts| > 0
    requires forall k :: 0 <= k < |parts| ==> c !in parts[k]
    ensures SplitOn(Join(parts, [c]), c) == parts
  {
    if |parts| == 1 {
      SplitOnPlain(parts[0], c);
    } else {
      JoinSplitOnRoundTrip(parts[1..], c);
      SplitOnPrefix(parts[0], c, Join(parts[1..], [c]));
      assert [parts[0]] + parts[1..] == parts;
    }
  }

  /** The character of a decimal digit value. */
  function DigitChar(d: nat): (c: char)
    requires d < 10
    ensures IsDigit(c)
  {
    ('0' as int + d) as char
  }

  /** Python's `str(n)` for a natural number. */
  function NatToString(n: nat): (r: string)
    ensures r != []
    ensures forall c :: c in r ==> IsDigit(c)
  {
    if n < 10 then [DigitChar(n)] else NatToString(n / 10) + [DigitChar(n % 10)]
  }

  /** The number a string of decimal digits denotes. */
  function DecimalValue(s: string): nat
    requires forall c :: c in s ==> IsDigit(c)
  {
    if s == [] then 0
    else
      var last := s[|s| - 1];
      assert last in s && IsDigit(last);
      assert forall c :: c in s[..|s| - 1] ==> c in s;
      DecimalValue(s[..|s| - 1]) * 10 + (last as int - '0' as int)
  }

  /** `str(n)` reads back as `n` and has no leading zero. */
  lemma {:induction false} NatToStringRoundTrip(n: nat)
    ensures DecimalValue(NatToString(n)) == n
    ensures NatToString(n)[0] != '0' || n == 0
  {
    var r := NatToString(n);
    if n >= 10 {
      NatToStringRoundTrip(n / 10);
      assert r[..|r| - 1] == NatToString(n / 10);
    }
  }

  /** `n` space characters. */
  function Spaces(n: nat): (r: string)
    ensures |r| == n && AllSpace(r)
    ensures forall k :: 0 <= k < n ==> r[k] == ' '
  {
    if n == 0 then [] else [' '] + Spaces(n - 1)
  }

  /** The format specification `>w` applied to a string: right-aligned in a
      field of `w` characters, never truncated. */
  function PadLeft(s: string, w: nat): (r: string)
    ensures |r| == if |s| < w then w else |s|
    ensures r[|r| - |s|..] == s && AllSpace(r[..|r| - |s|])
    ensures forall k :: 0 <= k < |r| - |s| ==> r[k] == ' '
  {
    if |s| < w then Spaces(w - |s|) + s else s
  }

  /** The format specification `w` applied to a string: left-aligned in a
      field of `w` characters, never truncated. */
  function PadRight(s: string, w: nat): (r: string)
    ensures |r| == if |s| < w then w else |s|
    ensures r[..|s|] == s && AllSpace(r[|s|..])
    ensures forall k :: |s| <= k < |r| ==> r[k] == ' '
  {
    if |s| < w then s + Spaces(w - |s|) else s
  }

  /** `field` is `s` pushed to the right of a column `w` wide (or exactly `s`
      when `s` is wider), the rest of the column being spaces. */
  predicate RightAligned(field: string, s: string, w: nat) {
    && |field| == (if |s| < w then w else |s|)
    && field[|field| - |s|..] == s
    && forall k :: 0 <= k < |field| - |s| ==> field[k] == ' '
  }

  lemma {:induction false} PadLeftAligned(s: string, w: nat)
    ensures RightAligned(PadLeft(s, w), s, w)
  {
  }

  /** A string with no whitespace in it, right-aligned with spaces, strips
      back to itself. */
  lemma {:induction false} StripPadded(s: string, w: nat)
    requires s != [] && forall c :: c in s ==> !IsSpace(c)
    ensures Strip(PadLeft(s, w)) == s
  {
    if |s| < w {
      StripSpaces(w - |s|, s);
    }
    assert !IsSpace(s[|s| - 1]);
  }

  lemma {:induction false} StripSpaces(n: nat, s: string)
    ensures Strip(Spaces(n) + s) == Strip(s)
  {
    if n > 0 {
      assert (Spaces(n) + s)[1..] == Spaces(n - 1) + s;
      StripSpaces(n - 1, s);
    } else {
      assert Spaces(n) + s == s;
    }
  }

  /** A prefix of a prefix is a prefix. */
  lemma {:induction false} PrefixOfPrefix<T>(a: seq<T>, b: seq<T>, c: seq<T>)
    requires |b| <= |a| && a[..|b|] == b
    requires |c| <= |b| && b[..|c|] == c
    ensures a[..|c|] == c
  {
    assert a[..|c|] == a[..|b|][..|c|];
  }

  /** A suffix of a suffix is a suffix. */
  lemma {:induction false} SuffixOfSuffix<T>(a: seq<T>, b: seq<T>, c: seq<T>)
    requires |b| <= |a| && a[|a| - |b|..] == b
    requires |c| <= |b| && b[|b| - |c|..] == c
    ensures a[|a| - |c|..] == c
  {
    assert a[|a| - |c|..] == a[|a| - |b|..][|b| - |c|..];
  }

  /** Python's `''.join(parts)`. */
  function Concat(parts: seq<string>): (r: string)
    ensures |parts| > 0 ==> |parts[0]| <= |r|
  {
    if parts == [] then "" else parts[0] + Concat(parts[1..])
  }

  /** The joined string starts with the first part ... */
  lemma {:induction false} ConcatFirst(parts: seq<string>)
    requires parts != []
    ensures Concat(parts)[..|parts[0]|] == parts[0]
  {
    assert Concat(parts) == parts[0] + Concat(parts[1..]);
  }

  /** ... and ends with the last. */
  lemma {:induction false} ConcatLast(parts: seq<string>)
    requires parts != []
    ensures var c, last := Concat(parts), parts[|parts| - 1];
            |last| <= |c| && c[|c| - |last|..] == last
  {
    if |parts| > 1 {
      ConcatLast(parts[1..]);
      assert parts[1..][|parts| - 2] == parts[|parts| - 1];
    }
  }
  /** A line as `readlines` yields it: a newline, if any, only at its end. */
  predicate IsFileLine(s: string) {
    forall k :: 0 <= k < |s| - 1 ==> s[k] != '\n'
  }

  lemma {:induction false} TrimRightNoNewline(s: string)
    requires IsFileLine(s)
    ensures '\n' !in TrimRight(s)
    decreases |s|
  {
    if s != [] {
      if IsSpace(s[|s| - 1]) {
        var t := s[..|s| - 1];
        TrimRightSpec(t);
        assert forall c :: c in TrimRight(t) ==> c in t;
      } else {
        assert forall c :: c in s ==> c != '\n';
      }
    }
  }

  /** Stripping a file line removes its newline. */
  lemma {:induction false} StripNoNewline(s: string)
    requires IsFileLine(s)
    ensures '\n' !in Strip(s)
    decreases |s|
  {
    if s != [] && IsSpace(s[0]) {
      StripNoNewline(s[1..]);
    } else {
      TrimRightNoNewline(s);
    }
  }

  lemma {:induction false} SpacesNoNewline(n: nat)
    ensures '\n' !in Spaces(n)
  {
    if n > 0 {
      SpacesNoNewline(n - 1);
    }
  }

  /** Padding adds no newline. */
  lemma {:induction false} PadNoNewline(s: string, w: nat)
    requires '\n' !in s
    ensures '\n' !in PadLeft(s, w) && '\n' !in PadRight(s, w)
  {
    if |s| < w {
      SpacesNoNewline(w - |s|);
    }
  }

  /** Joining adds no newline. */
  lemma {:induction false} ConcatNoNewline(parts: seq<string>)
    requires forall k :: 0 <= k < |parts| ==> '\n' !in parts[k]
    ensures '\n' !in Concat(parts)
  {
    if parts != [] {
      ConcatNoNewline(parts[1..]);
      assert forall k :: 1 <= k < |parts| ==> parts[1..][k - 1] == parts[k];
    }
  }
}
