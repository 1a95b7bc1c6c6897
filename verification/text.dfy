/** The JavaScript string operations the site relies on, over `seq<char>`.
    Whitespace is the exact set JavaScript uses for `\s` and `trim`; letter
    case is mapped for ASCII letters only. */
module Text {
  import opened Wrappers

  /** WhiteSpace and LineTerminator code points of ECMAScript: what `\s`
      matches and what `String.prototype.trim` removes. */
  predicate IsSpace(c: char) {
    var n := c as int;
    || n == 0x09 || n == 0x0A || n == 0x0B || n == 0x0C || n == 0x0D || n == 0x20
    || n == 0xA0 || n == 0x1680 || (0x2000 <= n <= 0x200A)
    || n == 0x2028 || n == 0x2029 || n == 0x202F || n == 0x205F
    || n == 0x3000 || n == 0xFEFF
  }

  /** Every character of `s` is whitespace (the empty string included). */
  predicate Blank(s: string) {
    forall i | 0 <= i < |s| :: IsSpace(s[i])
  }

  predicate IsUpperAscii(c: char) { 'A' <= c <= 'Z' }

  predicate IsLowerAscii(c: char) { 'a' <= c <= 'z' }

  function LowerChar(c: char): (d: char)
    ensures IsUpperAscii(c) ==> IsLowerAscii(d) && d as int == c as int + 32
    ensures !IsUpperAscii(c) ==> d == c
  {
    if IsUpperAscii(c) then (c as int + 32) as char else c
  }

  function UpperChar(c: char): (d: char)
    ensures IsLowerAscii(c) ==> IsUpperAscii(d) && d as int == c as int - 32
    ensures !IsLowerAscii(c) ==> d == c
  {
    if IsLowerAscii(c) then (c as int - 32) as char else c
  }

  /** `s.toLowerCase()` */
  function Lower(s: string): (r: string)
    ensures |r| == |s|
    decreases |s|
  {
    if s == [] then [] else [LowerChar(s[0])] + Lower(s[1..])
  }

  /** `toLowerCase` maps each character on its own. */
  lemma {:induction false} LowerAt(s: string)
    ensures forall i | 0 <= i < |s| :: Lower(s)[i] == LowerChar(s[i])
    decreases |s|
  {
    if s != [] {
      LowerAt(s[1..]);
    }
  }

  lemma {:induction false} LowerAppend(a: string, b: string)
    ensures Lower(a + b) == Lower(a) + Lower(b)
    decreases |a|
  {
    if a == [] {
      assert a + b == b;
    } else {
      assert (a + b)[0] == a[0] && (a + b)[1..] == a[1..] + b;
      LowerAppend(a[1..], b);
    }
  }

  /** `s.toUpperCase()` */
  function Upper(s: string): (r: string)
    ensures |r| == |s|
    decreases |s|
  {
    if s == [] then [] else [UpperChar(s[0])] + Upper(s[1..])
  }

  /** `toUpperCase` maps each character on its own. */
  lemma {:induction false} UpperAt(s: string)
    ensures forall i | 0 <= i < |s| :: Upper(s)[i] == UpperChar(s[i])
    decreases |s|
  {
    if s != [] {
      UpperAt(s[1..]);
    }
  }

  /** Leading whitespace removed. */
  function TrimStart(s: string): (r: string)
    ensures |r| <= |s|
    ensures r == [] || !IsSpace(r[0])
    decreases |s|
  {
    if |s| > 0 && IsSpace(s[0]) then TrimStart(s[1..]) else s
  }

  /** `TrimStart` keeps a suffix of its input. */
  lemma {:induction false} TrimStartIsSuffix(s: string)
    ensures TrimStart(s) == s[|s| - |TrimStart(s)|..]
    decreases |s|
  {
    if |s| > 0 && IsSpace(s[0]) {
      TrimStartIsSuffix(s[1..]);
    }
  }

  /** What `TrimStart` removes is whitespace. */
  lemma {:induction false} TrimStartRemovesBlank(s: string)
    ensures Blank(s[..|s| - |TrimStart(s)|])
    decreases |s|
  {
    if |s| > 0 && IsSpace(s[0]) {
      TrimStartRemovesBlank(s[1..]);
      var n := |s| - |TrimStart(s)|;
      forall i | 0 <= i < n ensures IsSpace(s[..n][i]) {
        if i > 0 {
          assert s[..n][i] == s[1..][..n - 1][i - 1];
        }
      }
    }
  }

  /** Trailing whitespace removed. */
  function TrimEnd(s: string): (r: string)
    ensures |r| <= |s| && r == s[..|r|]
    ensures r == [] || !IsSpace(r[|r| - 1])
    decreases |s|
  {
    if |s| > 0 && IsSpace(s[|s| - 1]) then TrimEnd(s[..|s| - 1]) else s
  }

  /** A string `TrimEnd` empties is all whitespace. */
  lemma {:induction false} TrimEndEmptyIsBlank(s: string)
    requires TrimEnd(s) == []
    ensures Blank(s)
    decreases |s|
  {
    if |s| > 0 {
      TrimEndEmptyIsBlank(s[..|s| - 1]);
      forall i | 0 <= i < |s| ensures IsSpace(s[i]) {
        if i < |s| - 1 {
          assert s[i] == s[..|s| - 1][i];
        }
      }
    }
  }

  /** `s.trim()` */
  function Trim(s: string): string {
    TrimEnd(TrimStart(s))
  }

  /** `s.trim() !== ''` holds exactly when `s` has a non-whitespace character. */
  lemma TrimEmptyIffBlank(s: string)
    ensures Trim(s) == [] <==> Blank(s)
  {
    var t := TrimStart(s);
    TrimStartRemovesBlank(s);
    TrimStartIsSuffix(s);
    if Trim(s) == [] {
      TrimEndEmptyIsBlank(t);
      assert t == [];
      assert s == s[..|s| - |t|];
    } else {
      assert !IsSpace(s[|s| - |t|]);
    }
  }

  /** `s.startsWith(prefix)` */
  predicate StartsWith(s: string, prefix: string) {
    |prefix| <= |s| && s[..|prefix|] == prefix
  }

  /** `pattern` occurs in `s` at index `k`. */
  predicate OccursAt(s: string, pattern: string, k: int) {
    0 <= k && k + |pattern| <= |s| && s[k..k + |pattern|] == pattern
  }

  /** The first index at or after `from` where `pattern` occurs, if any. */
  function IndexOfFrom(s: string, pattern: string, from: nat): (r: Option<nat>)
    ensures r.Some? ==> from <= r.value && OccursAt(s, pattern, r.value)
    ensures r.Some? ==> forall k | from <= k < r.value :: !OccursAt(s, pattern, k)
    ensures r.None? ==> forall k | from <= k :: !OccursAt(s, pattern, k)
    decreases |s| - from
  {
    if from + |pattern| > |s| then None
    else if s[from..from + |pattern|] == pattern then Some(from)
    else IndexOfFrom(s, pattern, from + 1)
  }

  /** `s.indexOf(pattern)`, with `None` for -1. */
  function IndexOf(s: string, pattern: string): Option<nat> {
    IndexOfFrom(s, pattern, 0)
  }

  /** `s.includes(pattern)` */
  predicate Contains(s: string, pattern: string) {
    IndexOf(s, pattern).Some?
  }

  /** `pattern` at index `k` of `s` means `s.includes(pattern)`. */
  lemma ContainsAt(s: string, pattern: string, k: nat)
    requires OccursAt(s, pattern, k)
    ensures Contains(s, pattern)
  {
  }

  /** A string includes whatever it was built around. */
  lemma ContainsInfix(a: string, pattern: string, b: string)
    ensures Contains(a + pattern + b, pattern)
  {
    var s := a + pattern + b;
    assert s[|a|..|a| + |pattern|] == pattern;
    ContainsAt(s, pattern, |a|);
  }

  /** Text built around a part includes whatever the part includes. */
  lemma ContainsExtend(a: string, b: string, pattern: string)
    ensures Contains(a, pattern) ==> Contains(a + b, pattern)
    ensures Contains(b, pattern) ==> Contains(a + b, pattern)
  {
    if Contains(a, pattern) {
      var k := IndexOf(a, pattern).value;
      assert (a + b)[k..k + |pattern|] == a[k..k + |pattern|];
      ContainsAt(a + b, pattern, k);
    }
    if Contains(b, pattern) {
      var k := IndexOf(b, pattern).value;
      assert (a + b)[|a| + k..|a| + k + |pattern|] == b[k..k + |pattern|];
      ContainsAt(a + b, pattern, |a| + k);
    }
  }

  /** Inclusion is transitive: what a part includes, the whole includes. */
  lemma ContainsWithin(s: string, part: string, pattern: string)
    requires Contains(s, part) && Contains(part, pattern)
    ensures Contains(s, pattern)
  {
    var i := IndexOf(s, part).value;
    var j := IndexOf(part, pattern).value;
    forall t | 0 <= t < |pattern|
      ensures s[i + j + t] == pattern[t]
    {
      assert s[i..i + |part|][j + t] == s[i + j + t];
      assert part[j..j + |pattern|][t] == part[j + t];
    }
    assert s[i + j..i + j + |pattern|] == pattern;
    ContainsAt(s, pattern, i + j);
  }

  /** `s.replace(pattern, replacement)` for a string pattern: only the first
      occurrence is replaced. */
  function ReplaceFirst(s: string, pattern: string, replacement: string): (r: string)
    ensures (forall k :: !OccursAt(s, pattern, k)) ==> r == s
    ensures forall k | OccursAt(s, pattern, k) && (forall j | 0 <= j < k :: !OccursAt(s, pattern, j)) ::
      r == s[..k] + replacement + s[k + |pattern|..]
  {
    match IndexOf(s, pattern)
    case None => s
    case Some(k) => s[..k] + replacement + s[k + |pattern|..]
  }

  /** A pattern found at the very start is the one `replace` rewrites. */
  lemma ReplaceFirstAtStart(rest: string, pattern: string, replacement: string)
    ensures ReplaceFirst(pattern + rest, pattern, replacement) == replacement + rest
  {
    var s := pattern + rest;
    assert s[0..|pattern|] == pattern;
    assert IndexOfFrom(s, pattern, 0) == Some(0);
    assert s[..0] == [] && s[|pattern|..] == rest;
  }

  /** `s.split(sep)` for a one-character separator. */
  function Split(s: string, sep: char): (pieces: seq<string>)
    ensures |pieces| >= 1
    ensures forall i | 0 <= i < |pieces| :: sep !in pieces[i]
    decreases |s|
  {
    if |s| == 0 then [""]
    else if s[0] == sep then [""] + Split(s[1..], sep)
    else
      var rest := Split(s[1..], sep);
      [[s[0]] + rest[0]] + rest[1..]
  }

  /** `pieces.join(sep)` */
  function Join(pieces: seq<string>, sep: char): string
    decreases |pieces|
  {
    if |pieces| == 0 then ""
    else if |pieces| == 1 then pieces[0]
    else pieces[0] + [sep] + Join(pieces[1..], sep)
  }

  /** Splitting loses nothing: joining the pieces back gives the input. */
  lemma {:induction false} JoinSplit(s: string, sep: char)
    ensures Join(Split(s, sep), sep) == s
    decreases |s|
  {
    if |s| == 0 {
    } else if s[0] == sep {
      JoinSplit(s[1..], sep);
      assert s == [sep] + s[1..];
    } else {
      JoinSplit(s[1..], sep);
      var rest := Split(s[1..], sep);
      if |rest| == 1 {
        assert s == [s[0]] + rest[0];
      } else {
        assert rest == [rest[0]] + rest[1..];
        assert Join(rest, sep) == rest[0] + [sep] + Join(rest[1..], sep);
        assert s == [s[0]] + s[1..];
      }
    }
  }

  /** Joining separator-free pieces and splitting again gives the pieces back. */
  lemma {:induction false} SplitJoin(pieces: seq<string>, sep: char)
    requires |pieces| >= 1
    requires forall i | 0 <= i < |pieces| :: sep !in pieces[i]
    ensures Split(Join(pieces, sep), sep) == pieces
    decreases |pieces|, |pieces[0]|
  {
    var p := pieces[0];
    if |p| == 0 {
      if |pieces| == 1 {
      } else {
        var tail := Join(pieces[1..], sep);
        assert Join(pieces, sep) == [sep] + tail;
        SplitJoin(pieces[1..], sep);
        assert ([sep] + tail)[1..] == tail;
        assert pieces == [""] + pieces[1..];
      }
    } else {
      var shorter := [p[1..]] + pieces[1..];
      assert sep !in p[1..] by {
        forall i | 0 <= i < |p[1..]| ensures p[1..][i] != sep {
          assert p[1..][i] == p[i + 1];
        }
      }
      SplitJoin(shorter, sep);
      assert shorter[1..] == pieces[1..];
      var j := Join(pieces, sep);
      if |pieces| == 1 {
        assert j == [p[0]] + Join(shorter, sep);
      } else {
        assert j == [p[0]] + Join(shorter, sep);
      }
      assert j[0] == p[0] && j[1..] == Join(shorter, sep);
      assert p == [p[0]] + p[1..];
      assert pieces == [[p[0]] + p[1..]] + pieces[1..];
    }
  }

  /** Decimal digits of a natural number, as template literals print it. */
  function NatToString(n: nat): (r: string)
    ensures |r| >= 1
    ensures forall i | 0 <= i < |r| :: '0' <= r[i] <= '9'
    decreases n
  {
    var d := ['0' + (n % 10) as char];
    if n < 10 then d else NatToString(n / 10) + d
  }

  /** The number a string of decimal digits denotes. */
  function DigitsValue(s: string): nat
    requires forall i | 0 <= i < |s| :: '0' <= s[i] <= '9'
    decreases |s|
  {
    if s == [] then 0
    else DigitsValue(s[..|s| - 1]) * 10 + (s[|s| - 1] - '0') as nat
  }

  /** Reading the digits back gives the number. */
  lemma {:induction false} NatToStringRoundTrip(n: nat)
    ensures DigitsValue(NatToString(n)) == n
    decreases n
  {
    if n >= 10 {
      NatToStringRoundTrip(n / 10);
      var r := NatToString(n);
      assert r[..|r| - 1] == NatToString(n / 10);
    }
  }

  /** Different numbers print differently. */
  lemma NatToStringInjective(m: nat, n: nat)
    requires NatToString(m) == NatToString(n)
    ensures m == n
  {
    NatToStringRoundTrip(m);
    NatToStringRoundTrip(n);
  }
}
