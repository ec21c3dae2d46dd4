/** The parts of Python's `str` that the application relies on: `strip`, `lower`,
    `find`, `split`, `int(...)`, `str(int)`, slicing and string ordering. */
module Text {
  import opened Wrappers

  // ---------------------------------------------------------------------------
  // Whitespace and stripping

  /** The characters for which Python's `str.isspace()` holds. */
  predicate IsSpace(c: char)
  {
    c == ' ' || ('\U{9}' <= c <= '\U{D}') || ('\U{1C}' <= c <= '\U{1F}')
    || c == '\U{85}' || c == '\U{A0}' || c == '\U{1680}'
    || ('\U{2000}' <= c <= '\U{200A}') || c == '\U{2028}' || c == '\U{2029}'
    || c == '\U{202F}' || c == '\U{205F}' || c == '\U{3000}'
  }

  /** Drops the longest prefix whose characters all satisfy `p`. */
  function TrimLeft(s: string, p: char -> bool): string
    decreases |s|
  {
    if s != [] && p(s[0]) then TrimLeft(s[1..], p) else s
  }

  /** What `TrimLeft` leaves: a suffix of `s`, after characters that all satisfy `p`,
      starting with one that does not. */
  lemma {:induction false} TrimLeftFacts(s: string, p: char -> bool)
    ensures var r := TrimLeft(s, p);
            && |r| <= |s| && r == s[|s| - |r|..]
            && (forall k :: 0 <= k < |s| - |r| ==> p(s[k]))
            && (r != [] ==> !p(r[0]))
    decreases |s|
  {
    if s != [] && p(s[0]) {
      TrimLeftFacts(s[1..], p);
      var r := TrimLeft(s, p);
      assert r == TrimLeft(s[1..], p);
      assert s[1..][|s| - 1 - |r|..] == s[|s| - |r|..];
      forall k | 0 <= k < |s| - |r| ensures p(s[k]) {
        if k > 0 {
          assert s[k] == s[1..][k - 1];
        }
      }
    }
  }

  /** Drops the longest suffix whose characters all satisfy `p` (Python `rstrip(chars)`). */
  function TrimRight(s: string, p: char -> bool): string
    decreases |s|
  {
    if s != [] && p(s[|s| - 1]) then TrimRight(s[..|s| - 1], p) else s
  }

  /** What `TrimRight` leaves: a prefix of `s`, before characters that all satisfy `p`,
      ending with one that does not. */
  lemma {:induction false} TrimRightFacts(s: string, p: char -> bool)
    ensures var r := TrimRight(s, p);
            && |r| <= |s| && r == s[..|r|]
            && (forall k :: |r| <= k < |s| ==> p(s[k]))
            && (r != [] ==> !p(r[|r| - 1]))
    decreases |s|
  {
    if s != [] && p(s[|s| - 1]) {
      var init := s[..|s| - 1];
      TrimRightFacts(init, p);
      var r := TrimRight(s, p);
      assert r == TrimRight(init, p);
      assert init[..|r|] == s[..|r|];
      forall k | |r| <= k < |s| ensures p(s[k]) {
        if k < |s| - 1 {
          assert s[k] == init[k];
        }
      }
    }
  }

  /** Python `s.strip()`: whitespace removed from both ends, nothing else. */
  function Strip(s: string): (r: string)
    ensures |r| <= |s|
    ensures r != [] ==> !IsSpace(r[0]) && !IsSpace(r[|r| - 1])
    ensures r == [] <==> forall k :: 0 <= k < |s| ==> IsSpace(s[k])
    ensures (forall k :: 0 <= k < |s| ==> !IsSpace(s[k])) ==> r == s
    ensures exists i, j :: && 0 <= i <= j <= |s| && r == s[i..j]
                           && (forall k :: 0 <= k < i ==> IsSpace(s[k]))
                           && (forall k :: j <= k < |s| ==> IsSpace(s[k]))
  {
    TrimLeftFacts(s, IsSpace);
    var l := TrimLeft(s, IsSpace);
    TrimRightFacts(l, IsSpace);
    var r := TrimRight(l, IsSpace);
    var i := |s| - |l|;
    assert s[i..i + |r|] == r;
    forall k | i + |r| <= k < |s| ensures IsSpace(s[k]) {
      assert s[k] == l[k - i];
    }
    r
  }

  /** Python `s.strip(c)` for a one-character argument. */
  function StripChar(s: string, c: char): (r: string)
    ensures |r| <= |s|
    ensures r != [] ==> r[0] != c && r[|r| - 1] != c
    ensures exists i, j :: && 0 <= i <= j <= |s| && r == s[i..j]
                           && (forall k :: 0 <= k < i ==> s[k] == c)
                           && (forall k :: j <= k < |s| ==> s[k] == c)
  {
    TrimLeftFacts(s, x => x == c);
    var l := TrimLeft(s, x => x == c);
    TrimRightFacts(l, x => x == c);
    var r := TrimRight(l, x => x == c);
    var i := |s| - |l|;
    assert s[i..i + |r|] == r;
    forall k | i + |r| <= k < |s| ensures s[k] == c {
      assert s[k] == l[k - i];
    }
    r
  }

  // ---------------------------------------------------------------------------
  // Case

  function LowerChar(c: char): char
  {
    if 'A' <= c <= 'Z' then (c as int - 'A' as int + 'a' as int) as char else c
  }

  /** Python `s.lower()`, restricted to the ASCII letters. */
  function Lower(s: string): (r: string)
    ensures |r| == |s|
    ensures forall i :: 0 <= i < |s| ==> r[i] == LowerChar(s[i])
  {
    seq(|s|, i requires 0 <= i < |s| => LowerChar(s[i]))
  }

  /** Lower-casing twice is lower-casing once. */
  lemma LowerIdempotent(s: string)
    ensures Lower(Lower(s)) == Lower(s)
  {
    assert forall i :: 0 <= i < |s| ==> LowerChar(LowerChar(s[i])) == LowerChar(s[i]);
  }

  // ---------------------------------------------------------------------------
  // Searching and splitting

  predicate OccursAt(s: string, sub: string, k: nat)
  {
    k + |sub| <= |s| && s[k..k + |sub|] == sub
  }

  /** Python `s.find(sub, start)`: the first occurrence at or after `start`, `None` for -1. */
  function Find(s: string, sub: string, start: nat): (r: Option<nat>)
    ensures r.Some? ==> start <= r.value && r.value + |sub| <= |s|
    decreases |s| - start
  {
    if start + |sub| > |s| then None
    else if s[start..start + |sub|] == sub then Some(start)
    else Find(s, sub, start + 1)
  }

  /** What `find` returns is an occurrence with none before it from `start`; `None`
      means there is no occurrence from `start` on. */
  lemma {:induction false} FindFacts(s: string, sub: string, start: nat)
    ensures Find(s, sub, start).Some? ==>
              && OccursAt(s, sub, Find(s, sub, start).value)
              && forall k :: start <= k < Find(s, sub, start).value ==> !OccursAt(s, sub, k)
    ensures Find(s, sub, start).None? ==> forall k :: start <= k ==> !OccursAt(s, sub, k)
    decreases |s| - start
  {
    if start + |sub| <= |s| && s[start..start + |sub|] != sub {
      FindFacts(s, sub, start + 1);
    }
  }

  /** `find` returns the first occurrence at or after `start`, whichever it is. */
  lemma FindIsFirst(s: string, sub: string, start: nat, k: nat)
    requires start <= k && OccursAt(s, sub, k)
    requires forall j :: start <= j < k ==> !OccursAt(s, sub, j)
    ensures Find(s, sub, start) == Some(k)
  {
    FindFacts(s, sub, start);
  }

  /** Python `sep.join(parts)` for a one-character separator. */
  function Join(parts: seq<string>, sep: char): string
  {
    if |parts| == 0 then ""
    else if |parts| == 1 then parts[0]
    else parts[0] + [sep] + Join(parts[1..], sep)
  }

  /** Python `s.split(sep)` for a one-character separator: at least one piece, no
      piece contains the separator, and joining the pieces gives `s` back. */
  function SplitOn(s: string, sep: char): (r: seq<string>)
    ensures |r| >= 1
    ensures forall i :: 0 <= i < |r| ==> sep !in r[i]
    ensures Join(r, sep) == s
    decreases |s|
  {
    if |s| == 0 then [""]
    else
      var rest := SplitOn(s[1..], sep);
      if s[0] == sep then
        assert [""] + rest == [""] + rest[..1] + rest[1..];
        [""] + rest
      else
        [[s[0]] + rest[0]] + rest[1..]
  }

  /** Python `s[:n]`. */
  function Take(s: string, n: nat): string
  {
    if n <= |s| then s[..n] else s
  }

  /** Python `s.rfind(c)` for one character: the last index holding `c`, `None` for -1. */
  function RFind(s: string, c: char): Option<nat>
  {
    if |s| == 0 then None
    else if s[|s| - 1] == c then Some(|s| - 1)
    else RFind(s[..|s| - 1], c)
  }

  /** `rfind` returns the last occurrence, and `None` only when there is none. */
  lemma {:induction false} RFindFacts(s: string, c: char)
    ensures RFind(s, c).Some? ==>
              && RFind(s, c).value < |s| && s[RFind(s, c).value] == c
              && forall k :: RFind(s, c).value < k < |s| ==> s[k] != c
    ensures RFind(s, c).None? ==> forall k :: 0 <= k < |s| ==> s[k] != c
    decreases |s|
  {
    if |s| > 0 && s[|s| - 1] != c {
      var init := s[..|s| - 1];
      RFindFacts(init, c);
      forall k | 0 <= k < |s| - 1 ensures s[k] == init[k] {
      }
    }
  }

  // ---------------------------------------------------------------------------
  // POSIX paths (`os.path`)

  /** `os.path.basename(p)`: the text after the last slash. */
  function Basename(p: string): (r: string)
    ensures |r| <= |p| && r == p[|p| - |r|..]
    ensures '/' !in r
    ensures |r| < |p| ==> p[|p| - |r| - 1] == '/'
  {
    RFindFacts(p, '/');
    match RFind(p, '/')
    case None => p
    case Some(j) => p[j + 1..]
  }

  /** `os.path.dirname(p)`: the text up to the last slash, trailing slashes removed
      unless it consists of slashes only. */
  function Dirname(p: string): (r: string)
    ensures |r| <= |p| && r == p[..|r|]
    ensures r == "" <==> '/' !in p
    ensures RFind(p, '/').Some? ==>
              var j := RFind(p, '/').value;
              && j < |p|
              && (|| (r == p[..j + 1] && forall k :: 0 <= k <= j ==> p[k] == '/')
                  || (0 < |r| <= j && r[|r| - 1] != '/' && forall k :: |r| <= k <= j ==> p[k] == '/'))
  {
    RFindFacts(p, '/');
    match RFind(p, '/')
    case None => ""
    case Some(j) =>
      var head := p[..j + 1];
      var t := TrimRight(head, c => c == '/');
      TrimRightFacts(head, c => c == '/');
      if t == "" then head else t
  }

  /** `os.path.splitext(p)`: the extension starts at the last dot of the last path
      component, unless that component has only dots before it. */
  function Splitext(p: string): (string, string)
  {
    var sep := RIndex(p, '/');
    var d := RIndex(p, '.');
    if d > sep && !OnlyDots(p[sep + 1..d]) then (p[..d], p[d..])
    else (p, "")
  }

  /** `s.rfind(c)` as Python returns it: the last index holding `c`, or -1. */
  function RIndex(s: string, c: char): (i: int)
    ensures -1 <= i < |s| && (i >= 0 ==> s[i] == c)
    ensures forall k :: i < k < |s| ==> s[k] != c
  {
    RFindFacts(s, c);
    match RFind(s, c) case None => -1 case Some(j) => j
  }

  /** Every character is a dot. */
  predicate OnlyDots(s: string)
  {
    s == [] || (s[0] == '.' && OnlyDots(s[1..]))
  }

  lemma {:induction false} OnlyDotsAll(s: string)
    ensures OnlyDots(s) <==> forall k :: 0 <= k < |s| ==> s[k] == '.'
  {
    if s != [] {
      OnlyDotsAll(s[1..]);
      assert forall k :: 1 <= k < |s| ==> s[k] == s[1..][k - 1];
    }
  }

  /** The two parts put back together give the path. A non-empty extension is a dot
      followed by neither a dot nor a slash, inside the last path component and after
      something other than dots. */
  lemma SplitextFacts(p: string)
    ensures Splitext(p).0 + Splitext(p).1 == p
    ensures Splitext(p).1 == "" || (Splitext(p).1[0] == '.' && '/' !in Splitext(p).1)
    ensures var ext := Splitext(p).1; var b := Basename(p);
              ext != "" ==>
                && '.' !in ext[1..]
                && |ext| <= |b| && !OnlyDots(b[..|b| - |ext|])
  {
    var sep, d := SplitPoints(p);
    if d > sep && !OnlyDots(p[sep + 1..d]) {
      ExtensionAfterLastDot(p, sep, d);
    }
  }

  /** The extension is empty exactly when every dot of the last path component has
      only dots before it (a name like `.bashrc` or `..` has no extension). */
  lemma SplitextEmptyIff(p: string)
    ensures var b := Basename(p);
              Splitext(p).1 == "" <==> forall i :: 0 <= i < |b| && b[i] == '.' ==> OnlyDots(b[..i])
  {
    var sep, d := SplitPoints(p);
    LastDotDecides(p, sep, d);
  }

  /** The last slash `sep` and the last dot `d` of `p` (-1 when absent), in terms of
      which `basename` and `splitext` cut the path. */
  lemma SplitPoints(p: string) returns (sep: int, d: int)
    ensures -1 <= sep < |p| && (sep >= 0 ==> p[sep] == '/')
    ensures forall k :: sep < k < |p| ==> p[k] != '/'
    ensures -1 <= d < |p| && (d >= 0 ==> p[d] == '.')
    ensures forall k :: d < k < |p| ==> p[k] != '.'
    ensures Basename(p) == p[sep + 1..]
    ensures Splitext(p) == if d > sep && !OnlyDots(p[sep + 1..d]) then (p[..d], p[d..]) else (p, "")
  {
    sep := RIndex(p, '/');
    d := RIndex(p, '.');
  }

  /** Cutting at the last dot `d`, after the last slash `sep`, gives an extension free
      of further dots and slashes, and the component before it is `p[sep + 1..d]`. */
  lemma ExtensionAfterLastDot(p: string, sep: int, d: nat)
    requires -1 <= sep < d < |p| && p[d] == '.'
    requires forall k :: d < k < |p| ==> p[k] != '.'
    requires forall k :: sep < k < |p| ==> p[k] != '/'
    ensures p[..d] + p[d..] == p
    ensures p[d..][0] == '.' && '/' !in p[d..] && '.' !in p[d..][1..]
    ensures p[sep + 1..][..|p[sep + 1..]| - |p[d..]|] == p[sep + 1..d]
  {
    assert p == p[..d] + p[d..];
    var ext := p[d..];
    assert forall k :: 0 <= k < |ext| ==> ext[k] == p[d + k];
    assert forall k :: 0 <= k < |ext| - 1 ==> ext[1..][k] == p[d + 1 + k];
  }

  /** With `d` the last dot of `p` (or -1) and `b` the text after `sep`, some dot of
      `b` has a non-dot before it exactly when `d` lies in `b` and does. */
  lemma LastDotDecides(p: string, sep: int, d: int)
    requires -1 <= sep < |p| && -1 <= d < |p| && (d >= 0 ==> p[d] == '.')
    requires forall k :: d < k < |p| ==> p[k] != '.'
    ensures var b := p[sep + 1..];
              (d > sep && !OnlyDots(p[sep + 1..d])) <==>
              exists i :: 0 <= i < |b| && b[i] == '.' && !OnlyDots(b[..i])
  {
    var b := p[sep + 1..];
    if d > sep {
      assert b[..d - sep - 1] == p[sep + 1..d];
    }
    if i :| 0 <= i < |b| && b[i] == '.' && !OnlyDots(b[..i]) {
      assert p[sep + 1 + i] == '.';
      assert sep + 1 + i <= d;
      OnlyDotsAll(b[..i]);
      OnlyDotsAll(p[sep + 1..d]);
      var k :| 0 <= k < i && b[..i][k] != '.';
      assert p[sep + 1..d][k] == b[k];
    }
  }

  // ---------------------------------------------------------------------------
  // Integers and their decimal text

  predicate IsDigit(c: char)
  {
    '0' <= c <= '9'
  }

  predicate AllDigits(s: string)
  {
    forall i :: 0 <= i < |s| ==> IsDigit(s[i])
  }

  function DigitChar(d: nat): char
    requires d < 10
  {
    (d + '0' as int) as char
  }

  /** The value of a string of decimal digits (meaningful when `AllDigits(s)`). */
  function DigitsValue(s: string): int
  {
    if |s| == 0 then 0
    else DigitsValue(s[..|s| - 1]) * 10 + (s[|s| - 1] as int - '0' as int)
  }

  /** Python `str(n)` for a natural number. */
  function NatToString(n: nat): (r: string)
    ensures |r| >= 1 && AllDigits(r)
  {
    if n < 10 then [DigitChar(n)] else NatToString(n / 10) + [DigitChar(n % 10)]
  }

  /** Python `str(i)`. */
  function IntToString(i: int): string
  {
    if i < 0 then "-" + NatToString(-i) else NatToString(i)
  }

  /** Python `int(s)` on text: surrounding whitespace, an optional sign, then
      decimal digits; `None` stands for the `ValueError` it raises otherwise. */
  function ParseInt(s: string): Option<int>
  {
    ParseSigned(Strip(s))
  }

  function ParseSigned(t: string): Option<int>
  {
    if |t| >= 2 && (t[0] == '-' || t[0] == '+') && AllDigits(t[1..]) then
      var v := DigitsValue(t[1..]);
      Some(if t[0] == '-' then -v else v)
    else if |t| >= 1 && AllDigits(t) then
      Some(DigitsValue(t))
    else
      None
  }

  lemma {:induction false} DigitsOfNat(n: nat)
    ensures DigitsValue(NatToString(n)) == n
    decreases n
  {
    var r := NatToString(n);
    if n >= 10 {
      DigitsOfNat(n / 10);
      assert r[..|r| - 1] == NatToString(n / 10);
    }
  }

  lemma NoSpaceInNumber(t: string)
    requires forall k :: 0 <= k < |t| ==> IsDigit(t[k]) || t[k] == '-'
    ensures Strip(t) == t
  {
    forall k | 0 <= k < |t| ensures !IsSpace(t[k]) {
      assert IsDigit(t[k]) || t[k] == '-';
    }
  }

  lemma ParseUnstripped(t: string)
    requires Strip(t) == t
    ensures ParseInt(t) == ParseSigned(t)
  {
  }

  lemma ParseDigits(d: string)
    requires |d| >= 1 && AllDigits(d)
    ensures ParseSigned(d) == Some(DigitsValue(d))
    ensures ParseSigned("-" + d) == Some(-DigitsValue(d))
  {
    assert IsDigit(d[0]);
    assert ("-" + d)[1..] == d;
  }

  /** Reading back the decimal text of an integer gives the integer. */
  lemma ParseIntOfString(i: int)
    ensures ParseInt(IntToString(i)) == Some(i)
  {
    var t := IntToString(i);
    if i < 0 {
      ParseNegativeString(i);
    } else {
      NoSpaceInNumber(t);
      ParseUnstripped(t);
      DigitsOfNat(i);
      ParseDigits(t);
    }
  }

  lemma ParseNegativeString(i: int)
    requires i < 0
    ensures ParseInt(IntToString(i)) == Some(i)
  {
    NegativeTextUnstripped(i);
    ParseUnstripped(IntToString(i));
    ParseSignedNegative(i);
  }

  lemma NegativeTextUnstripped(i: int)
    requires i < 0
    ensures Strip(IntToString(i)) == IntToString(i)
  {
    var d := NatToString(-i);
    var t := "-" + d;
    assert IntToString(i) == t;
    forall k | 0 <= k < |t| ensures IsDigit(t[k]) || t[k] == '-' {
      if k > 0 { assert t[k] == d[k - 1]; }
    }
    NoSpaceInNumber(t);
  }

  lemma ParseSignedNegative(i: int)
    requires i < 0
    ensures ParseSigned(IntToString(i)) == Some(i)
  {
    DigitsOfNat(-i);
    ParseDigits(NatToString(-i));
  }

  /** A natural number's text followed by a non-digit separator: the first
      separator is right after the number, the number reads back from the text before
      it, and the rest follows it unchanged. */
  lemma NumberThenSeparator(n: nat, sep: char, rest: string)
    requires !IsDigit(sep)
    ensures var t := NatToString(n) + [sep] + rest;
            var j := |NatToString(n)|;
            && Find(t, [sep], 0) == Some(j)
            && ParseInt(t[..j]) == Some(n)
            && t[j + 1..] == rest
  {
    var d := NatToString(n);
    var t := d + [sep] + rest;
    var j := |d|;
    assert t[..j] == d;
    forall i | 0 <= i < j ensures !OccursAt(t, [sep], i) {
      assert t[i] == d[i] && IsDigit(d[i]);
    }
    assert OccursAt(t, [sep], j) by { assert t[j..j + 1] == [sep]; }
    FindIsFirst(t, [sep], 0, j);
    ParseIntOfString(n);
    assert IntToString(n) == d;
    assert t[j + 1..] == rest;
  }

  // ---------------------------------------------------------------------------
  // Python string ordering (code point by code point)

  predicate LexLess(a: string, b: string)
  {
    if |a| == 0 then |b| > 0
    else if |b| == 0 then false
    else if a[0] != b[0] then a[0] < b[0]
    else LexLess(a[1..], b[1..])
  }

  lemma {:induction false} LexLessIrreflexive(a: string)
    ensures !LexLess(a, a)
  {
    if |a| > 0 { LexLessIrreflexive(a[1..]); }
  }

  lemma {:induction false} LexLessTransitive(a: string, b: string, c: string)
    requires LexLess(a, b) && LexLess(b, c)
    ensures LexLess(a, c)
  {
    if |a| > 0 && |b| > 0 && |c| > 0 && a[0] == b[0] && b[0] == c[0] {
      LexLessTransitive(a[1..], b[1..], c[1..]);
    }
  }

  lemma {:induction false} LexLessTotal(a: string, b: string)
    requires a != b
    ensures LexLess(a, b) || LexLess(b, a)
  {
    if |a| > 0 && |b| > 0 && a[0] == b[0] {
      assert a == [a[0]] + a[1..] && b == [b[0]] + b[1..];
      LexLessTotal(a[1..], b[1..]);
    }
  }
}
