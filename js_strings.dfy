/**
 * The JavaScript string built-ins the application relies on, stated over
 * Dafny strings (`seq<char>`): `indexOf`/`includes`, `split`/`join`,
 * global literal `replace`, `trim`, ASCII `toLowerCase`/`toUpperCase`,
 * `String(n)` for integers, `parseInt` and the default `sort` order.
 */
module JsStrings {

  import opened Wrappers

  // ---------------------------------------------------------------------------
  // Characters

  /** The characters `trim` and the regular-expression class `\s` remove/match
      (ECMAScript WhiteSpace and LineTerminator). */
  predicate IsSpace(c: char) {
    c == '\t' || c == '\n' || c == '\U{000B}' || c == '\U{000C}' || c == '\r' || c == ' '
    || c == '\U{00A0}' || c == '\U{1680}' || ('\U{2000}' <= c <= '\U{200A}')
    || c == '\U{2028}' || c == '\U{2029}' || c == '\U{202F}' || c == '\U{205F}'
    || c == '\U{3000}' || c == '\U{FEFF}'
  }

  predicate IsDigit(c: char) { '0' <= c <= '9' }

  function LowerChar(c: char): char {
    if 'A' <= c <= 'Z' then (c as int + 32) as char else c
  }

  function UpperChar(c: char): char {
    if 'a' <= c <= 'z' then (c as int - 32) as char else c
  }

  /** `s.toLowerCase()` on the ASCII letters. */
  function ToLower(s: string): (r: string)
    ensures |r| == |s|
    ensures forall i :: 0 <= i < |s| ==> r[i] == LowerChar(s[i])
  {
    seq(|s|, i requires 0 <= i < |s| => LowerChar(s[i]))
  }

  /** `s.charAt(0).toUpperCase() + s.slice(1)`. */
  function Capitalize(s: string): (r: string)
    ensures |r| == |s|
    ensures s != [] ==> r[0] == UpperChar(s[0]) && r[1..] == s[1..]
  {
    if s == [] then [] else [UpperChar(s[0])] + s[1..]
  }

  // ---------------------------------------------------------------------------
  // Searching

  predicate OccursAt(s: string, t: string, i: nat) {
    i + |t| <= |s| && s[i..i + |t|] == t
  }

  /** `s.indexOf(t)`: the first position where `t` occurs, or -1. */
  function IndexOf(s: string, t: string): (r: int)
    ensures -1 <= r <= |s|
    ensures r >= 0 ==> OccursAt(s, t, r) && forall j: nat :: j < r ==> !OccursAt(s, t, j)
    ensures r == -1 ==> forall j: nat :: !OccursAt(s, t, j)
    decreases |s|
  {
    if t <= s then
      assert OccursAt(s, t, 0);
      0
    else if |s| == 0 then
      -1
    else
      var k := IndexOf(s[1..], t);
      assert forall j: nat :: OccursAt(s, t, j + 1) <==> OccursAt(s[1..], t, j) by {
        forall j: nat ensures OccursAt(s, t, j + 1) <==> OccursAt(s[1..], t, j) {
          if j + 1 + |t| <= |s| {
            assert s[1..][j..j + |t|] == s[j + 1..j + 1 + |t|];
          }
        }
      }
      assert !OccursAt(s, t, 0);
      if k == -1 then
        assert forall j: nat :: !OccursAt(s, t, j) by {
          forall j: nat ensures !OccursAt(s, t, j) {
            if j > 0 { assert !OccursAt(s[1..], t, j - 1); }
          }
        }
        -1
      else
        assert forall j: nat :: j < k + 1 ==> !OccursAt(s, t, j) by {
          forall j: nat | j < k + 1 ensures !OccursAt(s, t, j) {
            if j > 0 { assert !OccursAt(s[1..], t, j - 1); }
          }
        }
        k + 1
  }

  /** `s.includes(t)`. */
  predicate Includes(s: string, t: string) {
    IndexOf(s, t) >= 0
  }

  lemma IncludesIff(s: string, t: string)
    ensures Includes(s, t) <==> exists i: nat :: OccursAt(s, t, i)
  {
  }

  // ---------------------------------------------------------------------------
  // split / join / replace

  /** `s.split(sep)` for a non-empty separator. */
  function Split(s: string, sep: string): (parts: seq<string>)
    requires |sep| > 0
    ensures |parts| >= 1
    decreases |s|
  {
    var i := IndexOf(s, sep);
    if i < 0 then [s] else [s[..i]] + Split(s[i + |sep|..], sep)
  }

  /** `parts.join(sep)`. */
  function Join(parts: seq<string>, sep: string): string
  {
    if |parts| == 0 then ""
    else if |parts| == 1 then parts[0]
    else parts[0] + sep + Join(parts[1..], sep)
  }

  /** `s.replace(new RegExp(pat, 'g'), rep)` for a pattern matched literally. */
  function ReplaceAll(s: string, pat: string, rep: string): string
    requires |pat| > 0
    decreases |s|
  {
    var i := IndexOf(s, pat);
    if i < 0 then s else s[..i] + rep + ReplaceAll(s[i + |pat|..], pat, rep)
  }

  /** Joining the pieces of a split gives back the string. */
  lemma {:induction false} JoinSplit(s: string, sep: string)
    requires |sep| > 0
    ensures Join(Split(s, sep), sep) == s
    decreases |s|
  {
    var i := IndexOf(s, sep);
    if i >= 0 {
      JoinSplit(s[i + |sep|..], sep);
      JoinSplitStep(s, sep, i);
    }
  }

  /** One occurrence of the separator: the first piece, the separator and
      the join of the rest. */
  lemma JoinSplitStep(s: string, sep: string, i: nat)
    requires |sep| > 0 && i == IndexOf(s, sep)
    requires Join(Split(s[i + |sep|..], sep), sep) == s[i + |sep|..]
    ensures Join(Split(s, sep), sep) == s
  {
    var rest := s[i + |sep|..];
    JoinCons(s[..i], Split(rest, sep), sep);
    assert s == s[..i] + sep + rest by {
      assert s[i..i + |sep|] == sep;
    }
  }

  /** No piece of a split contains the separator. */
  lemma {:induction false} SplitPartsFree(s: string, sep: string)
    requires |sep| > 0
    ensures forall p :: p in Split(s, sep) ==> !Includes(p, sep)
    decreases |s|
  {
    var i := IndexOf(s, sep);
    if i >= 0 {
      SplitPartsFree(s[i + |sep|..], sep);
      var head := s[..i];
      forall j: nat ensures !OccursAt(head, sep, j) {
        if OccursAt(head, sep, j) {
          assert head[j..j + |sep|] == s[j..j + |sep|];
          assert OccursAt(s, sep, j);
          assert false;
        }
      }
    }
  }

  lemma JoinCons(head: string, tail: seq<string>, sep: string)
    requires |tail| >= 1
    ensures Join([head] + tail, sep) == head + sep + Join(tail, sep)
  {
    assert ([head] + tail)[1..] == tail;
  }

  /** One occurrence of the pattern: both sides peel off the same first piece. */
  lemma ReplaceAllSplitJoinStep(s: string, pat: string, rep: string, i: nat)
    requires |pat| > 0 && i == IndexOf(s, pat)
    requires ReplaceAll(s[i + |pat|..], pat, rep) == Join(Split(s[i + |pat|..], pat), rep)
    ensures ReplaceAll(s, pat, rep) == Join(Split(s, pat), rep)
  {
    JoinCons(s[..i], Split(s[i + |pat|..], pat), rep);
  }

  /** Global literal replacement is a split on the pattern followed by a join
      with the replacement. */
  lemma {:induction false} ReplaceAllIsSplitJoin(s: string, pat: string, rep: string)
    requires |pat| > 0
    ensures ReplaceAll(s, pat, rep) == Join(Split(s, pat), rep)
    decreases |s|
  {
    var i := IndexOf(s, pat);
    if i >= 0 {
      ReplaceAllIsSplitJoin(s[i + |pat|..], pat, rep);
      ReplaceAllSplitJoinStep(s, pat, rep, i);
    }
  }

  /** Replacing a pattern by itself changes nothing. */
  lemma ReplaceAllSelf(s: string, pat: string)
    requires |pat| > 0
    ensures ReplaceAll(s, pat, pat) == s
  {
    ReplaceAllIsSplitJoin(s, pat, pat);
    JoinSplit(s, pat);
  }

  lemma OccursAtChar(s: string, c: char, i: nat)
    ensures OccursAt(s, [c], i) <==> i < |s| && s[i] == c
  {
    if i < |s| && s[i] == c {
      assert s[i..i + 1] == [c];
    }
  }

  lemma IndexOfCharAbsent(s: string, c: char)
    requires c !in s
    ensures IndexOf(s, [c]) == -1
  {
    var k := IndexOf(s, [c]);
    if k >= 0 {
      OccursAtChar(s, c, k);
    }
  }

  lemma IndexOfCharAfter(a: string, c: char, b: string)
    requires c !in a
    ensures IndexOf(a + [c] + b, [c]) == |a|
  {
    var s := a + [c] + b;
    OccursAtChar(s, c, |a|);
    forall j: nat | j < |a| ensures !OccursAt(s, [c], j) {
      OccursAtChar(s, c, j);
      assert s[j] == a[j];
    }
  }

  /** Splitting at the first occurrence of a one-character separator. */
  lemma SplitCharCons(p0: string, c: char, rest: string)
    requires c !in p0
    ensures Split(p0 + [c] + rest, [c]) == [p0] + Split(rest, [c])
  {
    var s := p0 + [c] + rest;
    IndexOfCharAfter(p0, c, rest);
    assert s[..|p0|] == p0;
    assert s[|p0| + 1..] == rest;
  }

  /** For a one-character separator, splitting a join gives back the parts. */
  lemma {:induction false} SplitJoinChar(parts: seq<string>, c: char)
    requires |parts| >= 1
    requires forall p :: p in parts ==> c !in p
    ensures Split(Join(parts, [c]), [c]) == parts
    decreases |parts|
  {
    if |parts| == 1 {
      IndexOfCharAbsent(parts[0], c);
    } else {
      var tail := parts[1..];
      assert parts[0] in parts;
      assert forall p :: p in tail ==> p in parts;
      SplitJoinChar(tail, c);
      SplitCharCons(parts[0], c, Join(tail, [c]));
    }
  }

  /** A one-character split yields pieces free of that character. */
  lemma SplitCharPartsFree(s: string, c: char)
    ensures forall p :: p in Split(s, [c]) ==> c !in p
  {
    SplitPartsFree(s, [c]);
    forall p | p in Split(s, [c]) ensures c !in p {
      if c in p {
        var i :| 0 <= i < |p| && p[i] == c;
        OccursAtChar(p, c, i);
      }
    }
  }

  // ---------------------------------------------------------------------------
  // trim

  function LeadingSpaces(s: string): (n: nat)
    ensures n <= |s|
    ensures forall k :: 0 <= k < n ==> IsSpace(s[k])
    ensures n < |s| ==> !IsSpace(s[n])
  {
    if s != [] && IsSpace(s[0]) then 1 + LeadingSpaces(s[1..]) else 0
  }

  function TrailingSpaces(s: string): (n: nat)
    ensures n <= |s|
    ensures forall k :: |s| - n <= k < |s| ==> IsSpace(s[k])
    ensures n < |s| ==> !IsSpace(s[|s| - n - 1])
  {
    if s != [] && IsSpace(s[|s| - 1]) then 1 + TrailingSpaces(s[..|s| - 1]) else 0
  }

  /** `s.trim()`: the longest slice of `s` that neither starts nor ends with
      white space, obtained by dropping white space at both ends. */
  function Trim(s: string): (r: string)
    ensures r == [] || (!IsSpace(r[0]) && !IsSpace(r[|r| - 1]))
    ensures r <= s[LeadingSpaces(s)..]
    ensures forall k :: 0 <= k < LeadingSpaces(s) ==> IsSpace(s[k])
    ensures forall k :: LeadingSpaces(s) + |r| <= k < |s| ==> IsSpace(s[k])
  {
    var lead := LeadingSpaces(s);
    var t := s[lead..];
    var r := t[..|t| - TrailingSpaces(t)];
    assert forall k :: lead + |r| <= k < |s| ==> s[k] == t[k - lead];
    r
  }

  // ---------------------------------------------------------------------------
  // Numbers

  function DigitChar(d: nat): char
    requires d < 10
  {
    ['0', '1', '2', '3', '4', '5', '6', '7', '8', '9'][d]
  }

  function DigitValue(c: char): nat
    requires IsDigit(c)
  {
    c as int - '0' as int
  }

  /** The decimal digits of a natural number, most significant first. */
  function NatToString(n: nat): (r: string)
    ensures |r| >= 1
    ensures forall k :: 0 <= k < |r| ==> IsDigit(r[k])
    decreases n
  {
    if n < 10 then [DigitChar(n)] else NatToString(n / 10) + [DigitChar(n % 10)]
  }

  /** `String(n)` / `${n}` for an integer. */
  function IntToString(n: int): string
  {
    if n < 0 then "-" + NatToString(-n) else NatToString(n)
  }

  /** The value of a non-empty run of decimal digits. */
  function DigitsValue(ds: string): nat
    requires forall k :: 0 <= k < |ds| ==> IsDigit(ds[k])
  {
    if ds == [] then 0 else 10 * DigitsValue(ds[..|ds| - 1]) + DigitValue(ds[|ds| - 1])
  }

  function LeadingDigits(s: string): (n: nat)
    ensures n <= |s|
    ensures forall k :: 0 <= k < n ==> IsDigit(s[k])
    ensures n < |s| ==> !IsDigit(s[n])
  {
    if s != [] && IsDigit(s[0]) then 1 + LeadingDigits(s[1..]) else 0
  }

  /** `parseInt(s)` in base ten: leading white space, an optional sign, then
      the longest run of digits; `None` where JavaScript gives NaN. */
  function ParseInt(s: string): Option<int>
  {
    ParseSigned(s[LeadingSpaces(s)..])
  }

  /** The sign and digits after the leading white space. */
  function ParseSigned(t: string): Option<int> {
    if t != [] && t[0] == '-' then
      var v := ParseDigits(t[1..]);
      if v.Some? then Some(-v.value) else None
    else if t != [] && t[0] == '+' then ParseDigits(t[1..])
    else ParseDigits(t)
  }

  /** The value of the leading run of digits, if there is one. */
  function ParseDigits(body: string): Option<int> {
    var n := LeadingDigits(body);
    if n == 0 then None else Some(DigitsValue(body[..n]))
  }


  lemma {:induction false} DigitsValueOfNatToString(n: nat)
    ensures DigitsValue(NatToString(n)) == n
    decreases n
  {
    var r := NatToString(n);
    if n < 10 {
      assert r[..0] == [];
    } else {
      DigitsValueOfNatToString(n / 10);
      assert r[..|r| - 1] == NatToString(n / 10);
    }
  }

  lemma {:induction false} LeadingDigitsOfNumber(ds: string, suffix: string)
    requires forall k :: 0 <= k < |ds| ==> IsDigit(ds[k])
    requires suffix == [] || !IsDigit(suffix[0])
    ensures LeadingDigits(ds + suffix) == |ds|
    decreases |ds|
  {
    if ds == [] {
      assert ds + suffix == suffix;
    } else {
      var s := ds + suffix;
      assert s[0] == ds[0];
      assert s[1..] == ds[1..] + suffix;
      LeadingDigitsOfNumber(ds[1..], suffix);
    }
  }

  /** `parseInt` reads back what `String(n)` writes, whatever non-digit text
      follows it (so `parseInt("1970s")` is 1970). */
  lemma ParseIntOfIntToString(n: int, suffix: string)
    requires suffix == [] || !IsDigit(suffix[0])
    ensures ParseInt(IntToString(n) + suffix) == Some(n)
  {
    var m: nat := if n < 0 then -n else n;
    var body := NatToString(m) + suffix;
    ParseDigitsOfNat(m, suffix);
    if n < 0 {
      assert IntToString(n) + suffix == "-" + body;
      ParseIntSigned(body);
    } else {
      ParseIntUnsigned(body);
    }
  }

  /** The digits of a number, then text that does not start with a digit,
      read back as the number. */
  lemma ParseDigitsOfNat(m: nat, suffix: string)
    requires suffix == [] || !IsDigit(suffix[0])
    ensures ParseDigits(NatToString(m) + suffix) == Some(m)
  {
    var ds := NatToString(m);
    LeadingDigitsOfNumber(ds, suffix);
    assert (ds + suffix)[..|ds|] == ds;
    DigitsValueOfNatToString(m);
  }

  /** Text that starts with a digit is read as its run of digits. */
  lemma ParseIntUnsigned(body: string)
    requires |body| > 0 && IsDigit(body[0])
    ensures ParseInt(body) == ParseDigits(body)
  {
    assert !IsSpace(body[0]);
    assert LeadingSpaces(body) == 0;
    assert body[0..] == body;
  }

  /** A minus sign before a digit negates the run of digits. */
  lemma ParseIntSigned(body: string)
    requires |body| > 0 && IsDigit(body[0])
    ensures ParseInt("-" + body) == (var v := ParseDigits(body); if v.Some? then Some(-v.value) else None)
  {
    var s := "-" + body;
    assert s[0] == '-' && s[1..] == body;
    assert LeadingSpaces(s) == 0;
    assert s[0..] == s;
  }

  // ---------------------------------------------------------------------------
  // The default `sort` order: lexicographic by character code

  predicate StrLess(a: string, b: string)
    decreases |a|
  {
    if |a| == 0 then |b| > 0
    else if |b| == 0 then false
    else if a[0] != b[0] then a[0] < b[0]
    else StrLess(a[1..], b[1..])
  }

  predicate StrLessEq(a: string, b: string) {
    a == b || StrLess(a, b)
  }

  lemma {:induction false} StrLessIrreflexive(a: string)
    ensures !StrLess(a, a)
    decreases |a|
  {
    if |a| > 0 { StrLessIrreflexive(a[1..]); }
  }

  lemma {:induction false} StrLessTransitive(a: string, b: string, c: string)
    requires StrLess(a, b) && StrLess(b, c)
    ensures StrLess(a, c)
    decreases |a|
  {
    if |a| > 0 && a[0] == b[0] && b[0] == c[0] {
      StrLessTransitive(a[1..], b[1..], c[1..]);
    }
  }

  lemma {:induction false} StrLessTotal(a: string, b: string)
    requires a != b
    ensures StrLess(a, b) || StrLess(b, a)
    decreases |a|
  {
    if |a| > 0 && |b| > 0 && a[0] == b[0] {
      assert a == [a[0]] + a[1..] && b == [b[0]] + b[1..];
      StrLessTotal(a[1..], b[1..]);
    }
  }

  lemma {:induction false} StrLessAsymmetric(a: string, b: string)
    requires StrLess(a, b)
    ensures !StrLess(b, a)
  {
    if StrLess(b, a) {
      StrLessTransitive(a, b, a);
      StrLessIrreflexive(a);
    }
  }
}
