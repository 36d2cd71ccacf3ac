/** The handful of Python string operations the fetch pipeline relies on
    (`strip`, `split`, `in`, `startswith`, `upper`, `re.sub(r"\D", "", …)`),
    written over `string == seq<char>`. */
module Text {
  import opened Results

  /** Python's `str.isspace()` for one character (the whitespace `strip()` and
      `split()` remove). */
  predicate IsSpace(c: char) {
    || ('\t' <= c <= '\r')
    || ('\U{1C}' <= c <= ' ')
    || c == '\U{85}' || c == '\U{A0}' || c == '\U{1680}'
    || ('\U{2000}' <= c <= '\U{200A}')
    || c == '\U{2028}' || c == '\U{2029}' || c == '\U{202F}' || c == '\U{205F}' || c == '\U{3000}'
  }

  predicate IsDigit(c: char) {
    '0' <= c <= '9'
  }

  predicate AllDigits(s: string) {
    forall i :: 0 <= i < |s| ==> IsDigit(s[i])
  }

  /** `s.startswith(p)` */
  predicate StartsWith(s: string, p: string) {
    |p| <= |s| && s[..|p|] == p
  }

  /** A concatenation starts with its first part. */
  lemma StartsWithPrefix(p: string, s: string)
    ensures StartsWith(p + s, p)
  {
    assert (p + s)[..|p|] == p;
  }

  /** A prefix of `a` is a prefix of every extension of `a`. */
  lemma StartsWithExtended(a: string, b: string, p: string)
    requires StartsWith(a, p)
    ensures StartsWith(a + b, p)
  {
    assert (a + b)[..|p|] == a[..|p|];
  }

  /** The suffix left after dropping the longest prefix whose characters satisfy `p`. */
  function DropWhile(s: string, p: char -> bool): (r: string)
    ensures |r| <= |s| && r == s[|s| - |r|..]
    ensures forall i :: 0 <= i < |s| - |r| ==> p(s[i])
    ensures r == [] || !p(r[0])
  {
    if |s| > 0 && p(s[0]) then DropWhile(s[1..], p) else s
  }

  /** The prefix left after dropping the longest suffix whose characters satisfy `p`. */
  function DropLastWhile(s: string, p: char -> bool): (r: string)
    ensures |r| <= |s| && r == s[..|r|]
    ensures forall i :: |r| <= i < |s| ==> p(s[i])
    ensures r == [] || !p(r[|r| - 1])
  {
    if |s| > 0 && p(s[|s| - 1]) then DropLastWhile(s[..|s| - 1], p) else s
  }

  /** The longest prefix whose characters all satisfy `p`. */
  function TakeWhile(s: string, p: char -> bool): (r: string)
    ensures |r| <= |s| && r == s[..|r|]
    ensures forall i :: 0 <= i < |r| ==> p(r[i])
    ensures |r| < |s| ==> !p(s[|r|])
  {
    if |s| > 0 && p(s[0]) then [s[0]] + TakeWhile(s[1..], p) else []
  }

  /** Both ends trimmed of characters satisfying `p` (`s.strip(chars)`). */
  function StripBy(s: string, p: char -> bool): string {
    DropLastWhile(DropWhile(s, p), p)
  }

  /** `s.strip()` */
  function Strip(s: string): string {
    StripBy(s, IsSpace)
  }

  /** `s.strip(c)` for a one-character argument. */
  function StripChar(s: string, c: char): string {
    StripBy(s, x => x == c)
  }

  /** Stripping a stripped string changes nothing. */
  lemma StripIdempotent(s: string)
    ensures Strip(Strip(s)) == Strip(s)
  {
    var t := DropWhile(s, IsSpace);
    var r := Strip(s);
    if r != [] {
      assert r[0] == t[0];
    }
    StripByUntouched(r, IsSpace);
  }

  /** `s.lstrip(c)` for a one-character argument. */
  function LStripChar(s: string, c: char): string {
    DropWhile(s, x => x == c)
  }

  /** `re.sub(r"\D", "", s)`: the digits of `s`, in order. */
  function Digits(s: string): (r: string)
    ensures AllDigits(r)
    ensures |r| <= |s|
    ensures AllDigits(s) ==> r == s
  {
    if s == [] then [] else (if IsDigit(s[0]) then [s[0]] else []) + Digits(s[1..])
  }

  lemma {:induction false} DigitsConcat(a: string, b: string)
    ensures Digits(a + b) == Digits(a) + Digits(b)
  {
    if a != [] {
      assert (a + b)[0] == a[0];
      assert (a + b)[1..] == a[1..] + b;
      DigitsConcat(a[1..], b);
      calc {
        Digits(a + b);
        (if IsDigit(a[0]) then [a[0]] else []) + Digits(a[1..] + b);
        (if IsDigit(a[0]) then [a[0]] else []) + (Digits(a[1..]) + Digits(b));
      }
    } else {
      assert a + b == b;
    }
  }

  lemma {:induction false} DigitsOfNonDigits(s: string)
    requires forall i :: 0 <= i < |s| ==> !IsDigit(s[i])
    ensures Digits(s) == []
  {
    if s != [] {
      DigitsOfNonDigits(s[1..]);
    }
  }

  /** Stripping whitespace never removes a digit. */
  lemma DigitsOfStrip(s: string)
    ensures Digits(Strip(s)) == Digits(s)
  {
    var t := DropWhile(s, IsSpace);
    var u := DropLastWhile(t, IsSpace);
    DigitsOfDropped(s, t);
    DigitsOfKept(t, u);
  }

  lemma DigitsOfDropped(s: string, t: string)
    requires |t| <= |s| && t == s[|s| - |t|..]
    requires forall i :: 0 <= i < |s| - |t| ==> IsSpace(s[i])
    ensures Digits(t) == Digits(s)
  {
    var k := |s| - |t|;
    var dropped := s[..k];
    assert s == dropped + t;
    DigitsConcat(dropped, t);
    assert forall i :: 0 <= i < |dropped| ==> dropped[i] == s[i];
    DigitsOfNonDigits(dropped);
  }

  lemma DigitsOfKept(t: string, u: string)
    requires |u| <= |t| && u == t[..|u|]
    requires forall i :: |u| <= i < |t| ==> IsSpace(t[i])
    ensures Digits(u) == Digits(t)
  {
    var kept := t[|u|..];
    assert t == u + kept;
    DigitsConcat(u, kept);
    assert forall i :: 0 <= i < |kept| ==> kept[i] == t[|u| + i];
    DigitsOfNonDigits(kept);
  }

  /** The three pieces of `a + [c] + b`, and a string made of exactly those pieces. */
  lemma Pieces(r: string, a: string, c: char, b: string)
    ensures r == a + [c] + b <==>
              |r| == |a| + 1 + |b| && r[..|a|] == a && r[|a|] == c && r[|a| + 1..] == b
  {
    if |r| == |a| + 1 + |b| && r[..|a|] == a && r[|a|] == c && r[|a| + 1..] == b {
      assert r == r[..|a|] + [r[|a|]] + r[|a| + 1..];
    }
  }

  lemma AbsentCountsZero(s: string, c: char)
    requires c !in s
    ensures multiset(s)[c] == 0
  {
    assert c !in multiset(s);
  }

  /** True when `pat` occurs in `s` starting at index `i`. */
  predicate OccursAt(s: string, pat: string, i: int) {
    0 <= i && i + |pat| <= |s| && s[i..i + |pat|] == pat
  }

  /** The first index at or after `from` where `pat` occurs in `s`. */
  function FindFrom(s: string, pat: string, from: nat): (r: Option<nat>)
    ensures r.Some? ==> from <= r.value && OccursAt(s, pat, r.value)
    ensures r.Some? ==> forall j :: from <= j < r.value ==> !OccursAt(s, pat, j)
    ensures r.None? ==> forall j :: from <= j ==> !OccursAt(s, pat, j)
    decreases |s| - from
  {
    if from + |pat| > |s| then None
    else if s[from..from + |pat|] == pat then Some(from)
    else FindFrom(s, pat, from + 1)
  }

  /** `s.find(pat)`, with `None` for -1. */
  function Find(s: string, pat: string): Option<nat> {
    FindFrom(s, pat, 0)
  }

  /** `pat in s` */
  predicate Contains(s: string, pat: string) {
    Find(s, pat).Some?
  }

  /** `s.split(pat, 1)[1]`: everything after the first occurrence of `pat`. */
  function After(s: string, pat: string): (r: string)
    requires Contains(s, pat)
    ensures |r| <= |s| && r == s[|s| - |r|..]
  {
    s[Find(s, pat).value + |pat|..]
  }

  /** What follows the first occurrence of a pattern, located by its prefix. */
  lemma AfterFirst(s: string, head: string, pat: string, tail: string)
    requires s == head + pat + tail
    requires Find(s, pat) == Some(|head|)
    ensures Contains(s, pat) && After(s, pat) == tail
  {
  }

  /** `s.split(c, 1)[0]`: everything before the first `c` (all of `s` if none). */
  function TakeUntil(s: string, c: char): (r: string)
    ensures |r| <= |s| && r == s[..|r|]
    ensures c !in r
    ensures |r| < |s| ==> s[|r|] == c
  {
    if s == [] || s[0] == c then [] else [s[0]] + TakeUntil(s[1..], c)
  }

  /** Inverse of `SplitOn`: the parts glued with `c`. */
  function Join(parts: seq<string>, c: char): string {
    if |parts| == 0 then []
    else if |parts| == 1 then parts[0]
    else parts[0] + [c] + Join(parts[1..], c)
  }

  /** `s.split(c)` for a one-character separator. */
  function SplitOn(s: string, c: char): (r: seq<string>)
    ensures |r| == multiset(s)[c] + 1
    ensures forall i :: 0 <= i < |r| ==> c !in r[i]
    ensures Join(r, c) == s
    decreases |s|
  {
    var h := TakeUntil(s, c);
    if |h| == |s| then [s]
    else
      var rest := s[|h| + 1..];
      assert s == h + [c] + rest;
      [h] + SplitOn(rest, c)
  }

  lemma JoinThree(a: string, b: string, c: string, sep: char)
    ensures Join([a, b, c], sep) == a + [sep] + b + [sep] + c
  {
    assert [a, b, c][1..] == [b, c];
    assert [b, c][1..] == [c];
    assert Join([c], sep) == c;
    assert Join([b, c], sep) == b + [sep] + c;
    assert Join([a, b, c], sep) == a + [sep] + (b + [sep] + c);
  }

  /** Splitting a join recovers the parts when no part contains the separator. */
  lemma {:induction false} SplitOnJoin(parts: seq<string>, c: char)
    requires |parts| >= 1
    requires forall i :: 0 <= i < |parts| ==> c !in parts[i]
    ensures SplitOn(Join(parts, c), c) == parts
  {
    var h := parts[0];
    if |parts| == 1 {
      TakeUntilNoSeparator(h, c, []);
      assert h + [] == h;
    } else {
      var tail := Join(parts[1..], c);
      var s := Join(parts, c);
      assert s == h + ([c] + tail);
      TakeUntilNoSeparator(h, c, [c] + tail);
      assert s[|h| + 1..] == tail;
      SplitOnJoin(parts[1..], c);
      assert SplitOn(s, c) == [h] + SplitOn(tail, c);
    }
  }

  /** `TakeUntil` stops exactly at a separator that follows a separator-free prefix. */
  lemma {:induction false} TakeUntilNoSeparator(h: string, c: char, tail: string)
    requires c !in h
    requires tail == [] || tail[0] == c
    ensures TakeUntil(h + tail, c) == h
  {
    if h != [] {
      assert (h + tail)[1..] == h[1..] + tail;
      TakeUntilNoSeparator(h[1..], c, tail);
    }
  }

  /** `s.split()[0]`: the first whitespace-delimited word, or `None` when `s` is blank. */
  function FirstWord(s: string): (r: Option<string>)
    ensures r.None? <==> forall i :: 0 <= i < |s| ==> IsSpace(s[i])
    ensures r.Some? ==> r.value != [] && forall i :: 0 <= i < |r.value| ==> !IsSpace(r.value[i])
  {
    var t := DropWhile(s, IsSpace);
    if t == [] then None
    else
      var w := TakeWhile(t, x => !IsSpace(x));
      assert w != [] by { assert !IsSpace(t[0]); }
      Some(w)
  }

  /** The first word of blank-separated text is the word after the blanks. */
  lemma FirstWordAfterBlanks(blanks: string, w: string, rest: string)
    requires forall i :: 0 <= i < |blanks| ==> IsSpace(blanks[i])
    requires w != [] && forall i :: 0 <= i < |w| ==> !IsSpace(w[i])
    requires rest == [] || IsSpace(rest[0])
    ensures FirstWord(blanks + w + rest) == Some(w)
  {
    var s := blanks + w + rest;
    assert s == blanks + (w + rest);
    assert (w + rest)[0] == w[0];
    DropLeading(blanks, w + rest, IsSpace);
    var t := DropWhile(s, IsSpace);
    assert t == w + rest && t != [];
    TakeWord(w, rest);
    assert TakeWhile(t, x => !IsSpace(x)) == w;
  }

  lemma {:induction false} TakeWord(w: string, rest: string)
    requires forall i :: 0 <= i < |w| ==> !IsSpace(w[i])
    requires rest == [] || IsSpace(rest[0])
    ensures TakeWhile(w + rest, x => !IsSpace(x)) == w
  {
    if w != [] {
      assert (w + rest)[0] == w[0];
      assert (w + rest)[1..] == w[1..] + rest;
      TakeWord(w[1..], rest);
    } else {
      assert w + rest == rest;
    }
  }

  /** Dropping a leading run of `p`-characters stops where the run ends. */
  lemma {:induction false} DropLeading(lead: string, s: string, p: char -> bool)
    requires forall i :: 0 <= i < |lead| ==> p(lead[i])
    requires s == [] || !p(s[0])
    ensures DropWhile(lead + s, p) == s
  {
    if lead != [] {
      assert (lead + s)[1..] == lead[1..] + s;
      DropLeading(lead[1..], s, p);
    }
  }

  /** Dropping a trailing run of `p`-characters stops where the run begins. */
  lemma {:induction false} DropTrailing(s: string, trail: string, p: char -> bool)
    requires forall i :: 0 <= i < |trail| ==> p(trail[i])
    requires s == [] || !p(s[|s| - 1])
    ensures DropLastWhile(s + trail, p) == s
  {
    if trail != [] {
      var shorter := trail[..|trail| - 1];
      assert (s + trail)[..|s + trail| - 1] == s + shorter;
      DropTrailing(s, shorter, p);
    } else {
      assert s + trail == s;
    }
  }

  /** `StripBy` leaves a string alone when neither end satisfies `p`. */
  lemma StripByUntouched(s: string, p: char -> bool)
    requires s == [] || (!p(s[0]) && !p(s[|s| - 1]))
    ensures StripBy(s, p) == s
  {
  }

  /** `c.upper()` for ASCII letters; other characters are returned unchanged. */
  function UpperChar(c: char): char {
    if 'a' <= c <= 'z' then (c as int - 32) as char else c
  }

  /** `s.upper()` restricted to the ASCII letters. */
  function Upper(s: string): (r: string)
    ensures |r| == |s|
    ensures forall i :: 0 <= i < |r| ==> !('a' <= r[i] <= 'z')
    ensures forall i :: 0 <= i < |s| && !('a' <= s[i] <= 'z') ==> r[i] == s[i]
    ensures forall i :: 0 <= i < |s| && 'a' <= s[i] <= 'z' ==> r[i] as int == s[i] as int - 32
  {
    seq(|s|, i requires 0 <= i < |s| => UpperChar(s[i]))
  }

  /** Upper-casing twice is upper-casing once. */
  lemma UpperIdempotent(s: string)
    ensures Upper(Upper(s)) == Upper(s)
  {
  }

  function DigitChar(d: nat): char
    requires d < 10
  {
    ('0' as int + d) as char
  }

  /** The number a digit string denotes in base ten. */
  function DigitsValue(s: string): nat
    requires AllDigits(s)
  {
    if s == [] then 0 else 10 * DigitsValue(s[..|s| - 1]) + (s[|s| - 1] as int - '0' as int)
  }

  /** Decimal rendering of a natural number (`f"{n}"`): the digits denote `n` and only
      zero itself starts with a zero. */
  function NatToString(n: nat): (r: string)
    ensures |r| >= 1 && AllDigits(r)
    ensures DigitsValue(r) == n
    ensures r[0] == '0' <==> n == 0
    ensures (|r| == 1) == (n < 10)
  {
    if n < 10 then [DigitChar(n)]
    else
      var high := NatToString(n / 10);
      var r := high + [DigitChar(n % 10)];
      assert r[..|r| - 1] == high;
      r
  }
}
