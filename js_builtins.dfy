/** The JavaScript string and number built-ins the invoice front end relies on,
    stated over `seq<char>`, whose elements are Unicode scalar values. */
module JsBuiltins {
  import opened Wrappers

  // ---------------------------------------------------------------------------
  // `s.split(sep)` and `parts.join(sep)` for a one-character separator

  /** `s.split(sep)`: the separator-free pieces between occurrences of `sep`;
      there is always at least one piece (`"".split(sep)` is `[""]`). */
  function Split(s: string, sep: char): (parts: seq<string>)
    ensures |parts| >= 1
    ensures forall i :: 0 <= i < |parts| ==> sep !in parts[i]
    decreases |s|
  {
    if s == [] then [[]]
    else
      var rest := Split(s[1..], sep);
      if s[0] == sep then [[]] + rest
      else [[s[0]] + rest[0]] + rest[1..]
  }

  /** `parts.join(sep)`; an empty array joins to `""`. Joining separator-free
      pieces puts exactly one separator between each two neighbours. */
  function Join(parts: seq<string>, sep: char): (r: string)
    ensures (forall i :: 0 <= i < |parts| ==> sep !in parts[i]) ==>
      Count(r, sep) == if parts == [] then 0 else |parts| - 1
  {
    if parts == [] then []
    else if |parts| == 1 then
      CountAbsent(parts[0], sep);
      parts[0]
    else
      var tail := Join(parts[1..], sep);
      CountAppend(parts[0] + [sep], tail, sep);
      CountAppend(parts[0], [sep], sep);
      CountAbsent(parts[0], sep);
      parts[0] + [sep] + tail
  }

  /** Number of occurrences of `c` in `s`. */
  function Count(s: string, c: char): nat
  {
    if s == [] then 0 else (if s[0] == c then 1 else 0) + Count(s[1..], c)
  }

  lemma {:induction false} CountAppend(a: string, b: string, c: char)
    ensures Count(a + b, c) == Count(a, c) + Count(b, c)
  {
    if a == [] {
      assert a + b == b;
    } else {
      assert (a + b)[0] == a[0];
      assert (a + b)[1..] == a[1..] + b;
      CountAppend(a[1..], b, c);
    }
  }

  lemma {:induction false} CountAbsent(s: string, c: char)
    ensures c !in s ==> Count(s, c) == 0
  {
    if s != [] {
      CountAbsent(s[1..], c);
    }
  }

  lemma {:induction false} SplitCount(s: string, sep: char)
    ensures |Split(s, sep)| == Count(s, sep) + 1
  {
    if s != [] {
      SplitCount(s[1..], sep);
    }
  }

  lemma {:induction false} JoinConsHead(x: string, y: string, tail: seq<string>, sep: char)
    ensures Join([x + y] + tail, sep) == x + Join([y] + tail, sep)
  {
    if tail != [] {
      assert ([x + y] + tail)[1..] == tail;
      assert ([y] + tail)[1..] == tail;
    }
  }

  /** Splitting and re-joining on the same separator gives the string back. */
  lemma {:induction false} SplitThenJoin(s: string, sep: char)
    ensures Join(Split(s, sep), sep) == s
  {
    if s != [] {
      var rest := Split(s[1..], sep);
      SplitThenJoin(s[1..], sep);
      if s[0] == sep {
        assert Split(s, sep) == [[]] + rest;
        assert ([[]] + rest)[1..] == rest;
        assert Join([[]] + rest, sep) == [sep] + Join(rest, sep);
      } else {
        assert Split(s, sep) == [[s[0]] + rest[0]] + rest[1..];
        JoinConsHead([s[0]], rest[0], rest[1..], sep);
        assert [rest[0]] + rest[1..] == rest;
        assert [s[0]] + s[1..] == s;
      }
    }
  }

  lemma {:induction false} SplitAppendFree(a: string, t: string, sep: char)
    requires sep !in a
    ensures Split(a + t, sep) == [a + Split(t, sep)[0]] + Split(t, sep)[1..]
    decreases |a|
  {
    if a == [] {
      assert a + t == t;
      var parts := Split(t, sep);
      assert a + parts[0] == parts[0];
      assert [parts[0]] + parts[1..] == parts;
    } else {
      assert (a + t)[0] == a[0];
      assert (a + t)[1..] == a[1..] + t;
      SplitAppendFree(a[1..], t, sep);
      assert [a[0]] + (a[1..] + Split(t, sep)[0]) == a + Split(t, sep)[0];
    }
  }

  /** Joining separator-free pieces and splitting again gives the pieces back. */
  lemma {:induction false} JoinThenSplit(parts: seq<string>, sep: char)
    requires |parts| >= 1
    requires forall i :: 0 <= i < |parts| ==> sep !in parts[i]
    ensures Split(Join(parts, sep), sep) == parts
  {
    if |parts| == 1 {
      SplitAppendFree(parts[0], [], sep);
      assert parts[0] + [] == parts[0];
    } else {
      JoinThenSplit(parts[1..], sep);
      var t := [sep] + Join(parts[1..], sep);
      assert t[0] == sep && t[1..] == Join(parts[1..], sep);
      assert Split(t, sep) == [[]] + parts[1..];
      SplitAppendFree(parts[0], t, sep);
      assert parts[0] + [sep] + Join(parts[1..], sep) == parts[0] + t;
      assert parts[0] + [] == parts[0];
      assert parts == [parts[0]] + parts[1..];
    }
  }

  // ---------------------------------------------------------------------------
  // `s.padStart(n, fill)` for a one-character fill

  /** Prepends `fill` until the string is `n` long; never shortens `s`. */
  function PadStart(s: string, n: nat, fill: char): (r: string)
    ensures |r| == if |s| >= n then |s| else n
    ensures r[|r| - |s|..] == s
    ensures forall i :: 0 <= i < |r| - |s| ==> r[i] == fill
  {
    if |s| >= n then s else seq(n - |s|, _ => fill) + s
  }

  // ---------------------------------------------------------------------------
  // `s.toLowerCase()`, restricted to the ASCII letters

  function LowerChar(c: char): char
  {
    if 'A' <= c <= 'Z' then (c as int + 32) as char else c
  }

  /** `s.toLowerCase()` on ASCII: no upper-case ASCII letter is left, each one
      becomes its lower-case partner, and every other character is unchanged. */
  function ToLowerCase(s: string): (r: string)
    ensures |r| == |s|
    ensures forall i :: 0 <= i < |r| ==> !('A' <= r[i] <= 'Z')
    ensures forall i :: 0 <= i < |s| && 'A' <= s[i] <= 'Z' ==> r[i] as int == s[i] as int + 32
    ensures forall i :: 0 <= i < |s| && !('A' <= s[i] <= 'Z') ==> r[i] == s[i]
  {
    seq(|s|, i requires 0 <= i < |s| => LowerChar(s[i]))
  }

  lemma ToLowerCaseIdempotent(s: string)
    ensures ToLowerCase(ToLowerCase(s)) == ToLowerCase(s)
  {
  }

  lemma ToLowerCaseAppend(a: string, b: string)
    ensures ToLowerCase(a + b) == ToLowerCase(a) + ToLowerCase(b)
  {
  }

  // ---------------------------------------------------------------------------
  // `h.indexOf(n)`

  /** `n` occurs in `h` starting at index `j`. */
  predicate OccursAt(h: string, n: string, j: nat)
  {
    j + |n| <= |h| && h[j..j + |n|] == n
  }

  ghost predicate Contains(h: string, n: string)
  {
    exists j: nat :: OccursAt(h, n, j)
  }

  function IndexFrom(h: string, n: string, k: nat): (r: int)
    requires k <= |h|
    ensures r == -1 || (k <= r && OccursAt(h, n, r as nat))
    ensures r == -1 ==> forall j: nat :: k <= j ==> !OccursAt(h, n, j)
    ensures r != -1 ==> forall j: nat :: k <= j < r ==> !OccursAt(h, n, j)
    decreases |h| - k
  {
    if OccursAt(h, n, k) then k
    else if k + |n| >= |h| then -1
    else IndexFrom(h, n, k + 1)
  }

  /** `h.indexOf(n)`: the first index at which `n` occurs in `h`, or -1. */
  function IndexOf(h: string, n: string): (r: int)
    ensures r == -1 <==> !Contains(h, n)
    ensures r != -1 ==> 0 <= r && OccursAt(h, n, r as nat)
    ensures r != -1 ==> forall j: nat :: j < r ==> !OccursAt(h, n, j)
  {
    IndexFrom(h, n, 0)
  }

  /** An occurrence in `a` is an occurrence in `a + b` at the same index. */
  lemma ContainsInPrefix(a: string, b: string, n: string)
    requires Contains(a, n)
    ensures Contains(a + b, n)
  {
    var j: nat :| OccursAt(a, n, j);
    assert (a + b)[j..j + |n|] == a[j..j + |n|];
    assert OccursAt(a + b, n, j);
  }

  /** An occurrence in `b` is an occurrence in `a + b`, shifted by `|a|`. */
  lemma ContainsInSuffix(a: string, b: string, n: string)
    requires Contains(b, n)
    ensures Contains(a + b, n)
  {
    var j: nat :| OccursAt(b, n, j);
    assert (a + b)[|a| + j..|a| + j + |n|] == b[j..j + |n|];
    assert OccursAt(a + b, n, |a| + j);
  }

  // ---------------------------------------------------------------------------
  // `s.trim()`

  /** The characters of the ECMAScript WhiteSpace and LineTerminator
      productions, which `trim` removes: tab to carriage return, space,
      no-break space, the Unicode space separators, the line and paragraph
      separators, and the byte order mark. */
  predicate IsJsWhiteSpace(c: char)
  {
    ('\t' <= c <= '\r') || c == ' ' || c == '\U{00A0}' || c == '\U{1680}' ||
    ('\U{2000}' <= c <= '\U{200A}') || c == '\U{2028}' || c == '\U{2029}' ||
    c == '\U{202F}' || c == '\U{205F}' || c == '\U{3000}' || c == '\U{FEFF}'
  }

  predicate IsBlank(s: string)
  {
    forall i :: 0 <= i < |s| ==> IsJsWhiteSpace(s[i])
  }

  lemma IsBlankCons(c: char, s: string)
    ensures IsBlank([c] + s) <==> IsJsWhiteSpace(c) && IsBlank(s)
  {
    var t := [c] + s;
    if IsBlank(t) {
      assert IsJsWhiteSpace(t[0]);
      forall i | 0 <= i < |s| ensures IsJsWhiteSpace(s[i]) { assert s[i] == t[i + 1]; }
    }
    if IsJsWhiteSpace(c) && IsBlank(s) {
      forall i | 0 <= i < |t| ensures IsJsWhiteSpace(t[i]) { if i > 0 { assert t[i] == s[i - 1]; } }
    }
  }

  /** `s.trimStart()`: the suffix of `s` left after its leading white space. */
  function TrimStart(s: string): (r: string)
    ensures |r| <= |s| && r == s[|s| - |r|..]
    ensures forall i :: 0 <= i < |s| - |r| ==> IsJsWhiteSpace(s[i])
    ensures r == [] || !IsJsWhiteSpace(r[0])
  {
    if s != [] && IsJsWhiteSpace(s[0]) then
      var r := TrimStart(s[1..]);
      assert forall i :: 0 < i < |s| ==> s[i] == s[1..][i - 1];
      r
    else s
  }

  /** `s.trimEnd()`: the prefix of `s` left after its trailing white space. */
  function TrimEnd(s: string): (r: string)
    ensures |r| <= |s| && r == s[..|r|]
    ensures forall i :: |r| <= i < |s| ==> IsJsWhiteSpace(s[i])
    ensures r == [] || !IsJsWhiteSpace(r[|r| - 1])
  {
    if s != [] && IsJsWhiteSpace(s[|s| - 1]) then
      var r := TrimEnd(s[..|s| - 1]);
      assert forall i :: 0 <= i < |s| - 1 ==> s[i] == s[..|s| - 1][i];
      r
    else s
  }

  /** `s.trim()`: empty exactly when `s` is all white space; otherwise it
      starts and ends with a character that is not white space. */
  function Trim(s: string): (r: string)
    ensures r == [] <==> IsBlank(s)
    ensures SolidEnds(r)
  {
    var r := TrimEnd(TrimStart(s));
    TrimFacts(s, TrimStart(s), r);
    r
  }

  /** `r` is empty, or neither its first nor its last character is white space. */
  predicate SolidEnds(r: string)
  {
    r != [] ==> !IsJsWhiteSpace(r[0]) && !IsJsWhiteSpace(r[|r| - 1])
  }

  lemma TrimFacts(s: string, t: string, r: string)
    requires t == TrimStart(s) && r == TrimEnd(t)
    ensures r == [] <==> IsBlank(s)
    ensures SolidEnds(r)
  {
    var k := |s| - |t|;
    if r == [] {
      assert IsBlank(t);
      assert t == [];
    } else {
      assert r[0] == t[0];
      assert s[k] == t[0];
      assert !IsJsWhiteSpace(r[0]);
    }
  }

  /** `s.trim()` is the infix of `s` that starts after its `k` leading
      white-space characters and leaves only white space after it. */
  lemma TrimIsInfix(s: string) returns (k: nat)
    ensures k + |Trim(s)| <= |s| && Trim(s) == s[k..k + |Trim(s)|]
    ensures forall i :: 0 <= i < k ==> IsJsWhiteSpace(s[i])
    ensures forall i :: k + |Trim(s)| <= i < |s| ==> IsJsWhiteSpace(s[i])
  {
    var t := TrimStart(s);
    k := |s| - |t|;
    InfixOfSlices(s, t, Trim(s));
  }

  /** A prefix `r` of a suffix `t` of `s` sits in `s` at `|s| - |t|`, and
      whatever `r` leaves of `t` is what it leaves of `s` at the end. */
  lemma InfixOfSlices(s: string, t: string, r: string)
    requires |t| <= |s| && t == s[|s| - |t|..]
    requires |r| <= |t| && r == t[..|r|]
    requires forall i :: |r| <= i < |t| ==> IsJsWhiteSpace(t[i])
    ensures r == s[|s| - |t|..|s| - |t| + |r|]
    ensures forall i :: |s| - |t| + |r| <= i < |s| ==> IsJsWhiteSpace(s[i])
  {
    var k := |s| - |t|;
    forall i | k + |r| <= i < |s| ensures IsJsWhiteSpace(s[i]) {
      assert s[i] == t[i - k];
    }
  }

  // ---------------------------------------------------------------------------
  // `parseFloat(text) || 0`

  /** `parseFloat(text) || 0`, with the parse abstracted to `Some(value)` or
      `None` (NaN): a failed parse, like a parsed zero, becomes 0. */
  function FloatOrZero(parsed: Option<real>): (r: real)
    ensures r == 0.0 <==> parsed.None? || parsed.value == 0.0
    ensures parsed.Some? ==> r == parsed.value
  {
    match parsed
    case Some(v) => v
    case None => 0.0
  }
}
