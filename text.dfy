/**
 * The Python string operations the pipeline relies on, with Python's semantics:
 * `str.strip()`, `str.lower()` (ASCII letters only), `in` on strings,
 * `str.split` on single characters, `str.join`, and slicing with negative bounds.
 */
module PyText {

  /** Python's `str.isspace()` characters: the ones `str.strip()` removes. */
  predicate IsSpace(c: char)
  {
    c == ' ' || ('\t' <= c <= '\r') || ('\U{1C}' <= c <= '\U{1F}')
    || c == '\U{85}' || c == '\U{A0}' || c == '\U{1680}'
    || ('\U{2000}' <= c <= '\U{200A}') || c == '\U{2028}' || c == '\U{2029}'
    || c == '\U{202F}' || c == '\U{205F}' || c == '\U{3000}'
  }

  function TrimLeft(s: string): (r: string)
    ensures |r| <= |s| && r == s[|s| - |r|..]
    ensures r != [] ==> !IsSpace(r[0])
  {
    if s != [] && IsSpace(s[0]) then TrimLeft(s[1..]) else s
  }

  function TrimRight(s: string): (r: string)
    ensures |r| <= |s| && r == s[..|r|]
    ensures r != [] ==> !IsSpace(r[|r| - 1])
  {
    if s != [] && IsSpace(s[|s| - 1]) then TrimRight(s[..|s| - 1]) else s
  }

  /** `s.strip()`: the result neither starts nor ends with white space. */
  function Strip(s: string): (r: string)
    ensures |r| <= |s|
    ensures r != [] ==> !IsSpace(r[0]) && !IsSpace(r[|r| - 1])
  {
    TrimRight(TrimLeft(s))
  }

  /** Stripping removes white space only: what it drops on either side is white space. */
  lemma {:induction false} TrimLeftDropsSpaces(s: string)
    ensures forall i :: 0 <= i < |s| - |TrimLeft(s)| ==> IsSpace(s[i])
    decreases |s|
  {
    if s != [] && IsSpace(s[0]) {
      TrimLeftDropsSpaces(s[1..]);
    }
  }

  lemma {:induction false} TrimRightDropsSpaces(s: string)
    ensures forall i :: |TrimRight(s)| <= i < |s| ==> IsSpace(s[i])
    decreases |s|
  {
    if s != [] && IsSpace(s[|s| - 1]) {
      TrimRightDropsSpaces(s[..|s| - 1]);
    }
  }

  /** A string with a character that is not white space does not strip to nothing. */
  lemma StripNonBlank(s: string, k: nat)
    requires k < |s| && !IsSpace(s[k])
    ensures Strip(s) != ""
  {
    TrimLeftDropsSpaces(s);
    var t := TrimLeft(s);
    assert t != [] && !IsSpace(t[0]);
    TrimRightDropsSpaces(t);
  }

  lemma StripIdempotent(s: string)
    ensures Strip(Strip(s)) == Strip(s)
  {
    var r := Strip(s);
    if r != [] {
      assert TrimLeft(r) == r;
      assert TrimRight(r) == r;
    }
  }

  predicate IsAsciiUpper(c: char) { 'A' <= c <= 'Z' }

  function LowerChar(c: char): (r: char)
    ensures !IsAsciiUpper(r)
  {
    if IsAsciiUpper(c) then (c as int + 32) as char else c
  }

  /** `s.lower()`, restricted to the ASCII letters. */
  function Lower(s: string): (r: string)
    ensures |r| == |s|
    ensures forall i :: 0 <= i < |s| ==> r[i] == LowerChar(s[i])
  {
    seq(|s|, i requires 0 <= i < |s| => LowerChar(s[i]))
  }

  predicate StartsWith(s: string, p: string)
  {
    |p| <= |s| && s[..|p|] == p
  }

  predicate EndsWith(s: string, p: string)
  {
    |p| <= |s| && s[|s| - |p|..] == p
  }

  /** A suffix of the last part is a suffix of the whole. */
  lemma EndsWithSuffix(a: string, b: string, p: string)
    requires EndsWith(b, p)
    ensures EndsWith(a + b, p)
  {
    assert (a + b)[|a + b| - |p|..] == b[|b| - |p|..];
  }

  /** `p` occurs in `s` starting at position `i`. */
  predicate OccursAt(s: string, p: string, i: int)
  {
    0 <= i && i + |p| <= |s| && s[i..i + |p|] == p
  }

  /** Python's `p in s` for strings. */
  predicate Contains(s: string, p: string)
  {
    exists i :: 0 <= i <= |s| - |p| && OccursAt(s, p, i)
  }

  /** Cutting white space off the front and then the back leaves a slice between white space. */
  lemma TrimmedSlice(s: string, t: string, r: string)
    requires |t| <= |s| && t == s[|s| - |t|..]
    requires forall i :: 0 <= i < |s| - |t| ==> IsSpace(s[i])
    requires |r| <= |t| && r == t[..|r|]
    requires forall i :: |r| <= i < |t| ==> IsSpace(t[i])
    ensures r == s[|s| - |t|..|s| - |t| + |r|]
    ensures forall i :: |s| - |t| + |r| <= i < |s| ==> IsSpace(s[i])
  {
    var a := |s| - |t|;
    forall i | a + |r| <= i < |s|
      ensures IsSpace(s[i])
    {
      assert s[i] == t[i - a];
    }
  }

  /** `s.strip()` is the slice of `s` between white space on either side. */
  lemma StripSlice(s: string) returns (a: nat)
    ensures a + |Strip(s)| <= |s| && Strip(s) == s[a..a + |Strip(s)|]
    ensures forall i :: 0 <= i < a ==> IsSpace(s[i])
    ensures forall i :: a + |Strip(s)| <= i < |s| ==> IsSpace(s[i])
  {
    var t := TrimLeft(s);
    TrimLeftDropsSpaces(s);
    TrimRightDropsSpaces(t);
    TrimmedSlice(s, t, TrimRight(t));
    a := |s| - |t|;
  }

  /**
   * A pattern that neither starts nor ends with white space occurs in a slice
   * cut out between white space exactly when it occurs in the whole string.
   */
  lemma ContainsTrimmedSlice(s: string, a: nat, r: string, p: string)
    requires p != [] && !IsSpace(p[0]) && !IsSpace(p[|p| - 1])
    requires a + |r| <= |s| && r == s[a..a + |r|]
    requires forall i :: 0 <= i < a ==> IsSpace(s[i])
    requires forall i :: a + |r| <= i < |s| ==> IsSpace(s[i])
    ensures Contains(r, p) <==> Contains(s, p)
  {
    if Contains(r, p) {
      var i :| 0 <= i <= |r| - |p| && OccursAt(r, p, i);
      assert forall k :: a + i <= k < a + i + |p| ==> s[k] == r[k - a];
      assert s[a + i..a + i + |p|] == r[i..i + |p|];
      assert OccursAt(s, p, a + i);
    }
    if Contains(s, p) {
      var i :| 0 <= i <= |s| - |p| && OccursAt(s, p, i);
      assert s[i] == p[0] && s[i + |p| - 1] == p[|p| - 1];
      assert a <= i && i + |p| <= a + |r|;
      assert forall k :: i - a <= k < i - a + |p| ==> r[k] == s[k + a];
      assert r[i - a..i - a + |p|] == s[i..i + |p|];
      assert OccursAt(r, p, i - a);
    }
  }

  /** So stripping the string does not change whether such a pattern occurs in it. */
  lemma ContainsStripped(s: string, p: string)
    requires p != [] && !IsSpace(p[0]) && !IsSpace(p[|p| - 1])
    ensures Contains(Strip(s), p) <==> Contains(s, p)
  {
    var a := StripSlice(s);
    ContainsTrimmedSlice(s, a, Strip(s), p);
  }

  /** `any(p in s for p in pats)`. */
  predicate ContainsAny(s: string, pats: seq<string>)
  {
    exists i :: 0 <= i < |pats| && Contains(s, pats[i])
  }

  /** Every character of a pattern that occurs in `s` is a character of `s`. */
  lemma ContainsHasChar(s: string, p: string, k: nat)
    requires Contains(s, p) && k < |p|
    ensures exists i :: 0 <= i < |s| && s[i] == p[k]
  {
    var i :| 0 <= i <= |s| - |p| && OccursAt(s, p, i);
    assert s[i..i + |p|][k] == p[k];
  }

  /** A lowered string contains no pattern that has an ASCII capital letter. */
  lemma LowerMissesCapitals(s: string, p: string, k: nat)
    requires k < |p| && IsAsciiUpper(p[k])
    ensures !Contains(Lower(s), p)
  {
    if Contains(Lower(s), p) {
      ContainsHasChar(Lower(s), p, k);
    }
  }

  /** A string that is spliced into a text is found in it. */
  lemma ContainsInfix(a: string, p: string, b: string)
    ensures Contains(a + p + b, p)
  {
    assert (a + p + b)[|a|..|a| + |p|] == p;
    assert OccursAt(a + p + b, p, |a|);
  }

  /** Text put in front keeps an occurrence. */
  lemma ContainsPrepend(a: string, s: string, p: string)
    requires Contains(s, p)
    ensures Contains(a + s, p)
  {
    var i :| 0 <= i <= |s| - |p| && OccursAt(s, p, i);
    assert (a + s)[|a| + i..|a| + i + |p|] == s[i..i + |p|];
    assert OccursAt(a + s, p, |a| + i);
  }

  /**
   * `s.split(sep)` for single-character separators; with a set of several
   * characters it is `re.split('[...]', s)`. There is always at least one piece.
   */
  function Split(s: string, seps: set<char>): (r: seq<string>)
    ensures |r| >= 1
  {
    if s == [] then [""]
    else
      var rest := Split(s[1..], seps);
      if s[0] in seps then [""] + rest else [[s[0]] + rest[0]] + rest[1..]
  }

  /** `"".join(xs)`: the pieces one after another. */
  function Concat(xs: seq<string>): string
  {
    if xs == [] then "" else xs[0] + Concat(xs[1..])
  }

  /** Each piece of a concatenation is found in it. */
  lemma {:induction false} ContainsPiece(xs: seq<string>, k: nat)
    requires k < |xs|
    ensures Contains(Concat(xs), xs[k])
    decreases k
  {
    if k == 0 {
      assert xs[0] + Concat(xs[1..]) == [] + xs[0] + Concat(xs[1..]);
      ContainsInfix([], xs[0], Concat(xs[1..]));
    } else {
      ContainsPiece(xs[1..], k - 1);
      ContainsPrepend(xs[0], Concat(xs[1..]), xs[k]);
    }
  }

  /** No string occurs twice. */
  predicate NoDup(xs: seq<string>)
  {
    forall i, j :: 0 <= i < j < |xs| ==> xs[i] != xs[j]
  }

  /** `sep.join(xs)`. */
  function Join(xs: seq<string>, sep: string): string
  {
    if xs == [] then ""
    else if |xs| == 1 then xs[0]
    else xs[0] + sep + Join(xs[1..], sep)
  }

  lemma {:induction false} JoinAppend(xs: seq<string>, x: string, sep: string)
    requires xs != []
    ensures Join(xs + [x], sep) == Join(xs, sep) + sep + x
    decreases |xs|
  {
    if |xs| == 1 {
      assert xs + [x] == [xs[0], x];
    } else {
      assert (xs + [x])[1..] == xs[1..] + [x];
      JoinAppend(xs[1..], x, sep);
    }
  }

  /** Joining a prefix of a list never gives a longer text. */
  lemma {:induction false} JoinPrefix(a: seq<string>, b: seq<string>, sep: string)
    requires a <= b
    ensures |Join(a, sep)| <= |Join(b, sep)|
    decreases |b|
  {
    if a != b {
      var init := b[..|b| - 1];
      assert a <= init;
      JoinPrefix(a, init, sep);
      if init != [] {
        assert init + [b[|b| - 1]] == b;
        JoinAppend(init, b[|b| - 1], sep);
      }
    }
  }

  /** `s[:n]` for any integer `n`, negative ones counting from the end. */
  function PyTake<T>(s: seq<T>, n: int): (r: seq<T>)
    ensures 0 <= n ==> r == s[..if n < |s| then n else |s|]
    ensures n < 0 ==> r == s[..if -n < |s| then |s| + n else 0]
  {
    if n >= 0 then (if n <= |s| then s[..n] else s)
    else (if -n <= |s| then s[..|s| + n] else [])
  }

  /** `s[start:]` for any integer `start`, negative ones counting from the end. */
  function PyDrop<T>(s: seq<T>, start: int): (r: seq<T>)
    ensures 0 <= start ==> r == s[if start < |s| then start else |s|..]
    ensures start < 0 ==> r == s[if -start < |s| then |s| + start else 0..]
  {
    if start >= 0 then (if start <= |s| then s[start..] else [])
    else (if -start <= |s| then s[|s| + start..] else s)
  }

  function DigitChar(d: nat): char
    requires d < 10
  {
    "0123456789"[d]
  }

  /** `str(n)` for a natural number. */
  function NatToString(n: nat): (r: string)
    ensures |r| >= 1
    decreases n
  {
    if n < 10 then [DigitChar(n)] else NatToString(n / 10) + [DigitChar(n % 10)]
  }

  /** `str(i)` for an integer. */
  function IntToString(i: int): (r: string)
  {
    if i < 0 then "-" + NatToString(-i) else NatToString(i)
  }
}
