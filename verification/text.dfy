/**
 * The few Python `str` builtins the core relies on: `strip`, `startswith`,
 * `endswith`, `split`, `join` and `str` of a non-negative integer.
 */
module Text {

  /**
   * Python's `str.isspace`, the set `str.strip()` removes: \t \n \x0b \x0c \r,
   * \x1c-\x1f, space, \x85, \xa0, and the Unicode space and separator
   * characters U+1680, U+2000-U+200A, U+2028, U+2029, U+202F, U+205F, U+3000.
   */
  predicate IsSpace(c: char) {
    ('\t' <= c <= '\r') || ('\U{1C}' <= c <= ' ') || c == '\U{85}' || c == '\U{A0}' || c == '\U{1680}'
    || ('\U{2000}' <= c <= '\U{200A}') || c == '\U{2028}' || c == '\U{2029}' || c == '\U{202F}'
    || c == '\U{205F}' || c == '\U{3000}'
  }

  /** No whitespace at either end. */
  predicate Trimmed(s: string) {
    (|s| > 0 ==> !IsSpace(s[0]) && !IsSpace(s[|s| - 1]))
  }

  function TrimStart(s: string): (r: string)
    ensures |r| <= |s| && r == s[|s| - |r|..]
    ensures |r| > 0 ==> !IsSpace(r[0])
  {
    if |s| > 0 && IsSpace(s[0]) then TrimStart(s[1..]) else s
  }

  function TrimEnd(s: string): (r: string)
    ensures |r| <= |s| && r == s[..|r|]
    ensures |r| > 0 ==> !IsSpace(r[|r| - 1])
  {
    if |s| > 0 && IsSpace(s[|s| - 1]) then TrimEnd(s[..|s| - 1]) else s
  }

  /** What `TrimStart` removes is whitespace. */
  lemma {:induction false} TrimStartRemovesSpace(s: string)
    ensures forall i :: 0 <= i < |s| - |TrimStart(s)| ==> IsSpace(s[i])
    decreases |s|
  {
    if |s| > 0 && IsSpace(s[0]) {
      TrimStartRemovesSpace(s[1..]);
    }
  }

  /** What `TrimEnd` removes is whitespace. */
  lemma {:induction false} TrimEndRemovesSpace(s: string)
    ensures forall i :: |TrimEnd(s)| <= i < |s| ==> IsSpace(s[i])
    decreases |s|
  {
    if |s| > 0 && IsSpace(s[|s| - 1]) {
      TrimEndRemovesSpace(s[..|s| - 1]);
    }
  }

  /** Python's `s.strip()`. */
  function Strip(s: string): string {
    TrimEnd(TrimStart(s))
  }

  /** Where the stripped text starts and ends inside `s`. */
  function StripStart(s: string): nat {
    |s| - |TrimStart(s)|
  }

  function StripEnd(s: string): nat {
    |s| - |TrimStart(s)| + |TrimEnd(TrimStart(s))|
  }

  /**
   * `Strip` removes exactly the whitespace at both ends: the result is the
   * slice of `s` between `StripStart` and `StripEnd`, it starts and ends with
   * non-whitespace, and everything outside it is whitespace.
   */
  lemma StripSpec(s: string)
    ensures StripStart(s) <= StripEnd(s) <= |s| && Strip(s) == s[StripStart(s)..StripEnd(s)]
    ensures Trimmed(Strip(s))
    ensures forall k :: 0 <= k < StripStart(s) ==> IsSpace(s[k])
    ensures forall k :: StripEnd(s) <= k < |s| ==> IsSpace(s[k])
  {
    StripIsTrimmed(s);
    TrimStartRemovesSpace(s);
    StripTailIsSpace(s);
    assert Strip(s) == s[StripStart(s)..StripEnd(s)];
  }

  /** What `Strip` drops at the end of `s` is whitespace. */
  lemma StripTailIsSpace(s: string)
    ensures forall k :: StripEnd(s) <= k < |s| ==> IsSpace(s[k])
  {
    var t := TrimStart(s);
    var i := |s| - |t|;
    TrimEndRemovesSpace(t);
    assert t == s[i..];
    forall k | i + |TrimEnd(t)| <= k < |s| ensures IsSpace(s[k]) {
      assert s[k] == t[k - i];
    }
  }

  /** `r` is a contiguous piece of `t`. */
  predicate IsInfix(r: string, t: string) {
    exists i, j :: 0 <= i <= j <= |t| && r == t[i..j]
  }

  lemma SliceOfSlice(s: string, a: nat, b: nat, c: nat, d: nat)
    requires a <= b <= |s| && c <= d <= b - a
    ensures s[a..b][c..d] == s[a + c..a + d]
  {
    forall k | 0 <= k < d - c ensures s[a..b][c..d][k] == s[a + c..a + d][k] {
    }
  }

  lemma InfixTrans(r: string, u: string, t: string)
    requires IsInfix(r, u) && IsInfix(u, t)
    ensures IsInfix(r, t)
  {
    var i, j :| 0 <= i <= j <= |u| && r == u[i..j];
    var b, e :| 0 <= b <= e <= |t| && u == t[b..e];
    SliceOfSlice(t, b, e, i, j);
  }

  /** `Strip` keeps a contiguous piece of its argument. */
  lemma StripInfix(s: string)
    ensures IsInfix(Strip(s), s)
  {
    var t := TrimStart(s);
    var i := |s| - |t|;
    SliceOfSlice(s, i, |s|, 0, |Strip(s)|);
    assert Strip(s) == s[i..i + |Strip(s)|];
  }

  /** `Strip` leaves no whitespace at either end. */
  lemma StripIsTrimmed(s: string)
    ensures Trimmed(Strip(s))
  {
  }

  /** A string already free of edge whitespace is its own `Strip`. */
  lemma StripTrimmed(s: string)
    requires Trimmed(s)
    ensures Strip(s) == s
  {
  }

  /** Leading whitespace does not survive a strip. */
  lemma StripLeadingSpace(c: char, s: string)
    requires IsSpace(c)
    ensures Strip([c] + s) == Strip(s)
  {
    assert ([c] + s)[1..] == s;
  }

  /** `strip` is idempotent. */
  lemma StripIdempotent(s: string)
    ensures Strip(Strip(s)) == Strip(s)
  {
    StripIsTrimmed(s);
    StripTrimmed(Strip(s));
  }

  /** A string is all whitespace exactly when it strips to "" (Python's `if not line.strip()`). */
  lemma StripEmpty(s: string)
    ensures Strip(s) == "" <==> forall k :: 0 <= k < |s| ==> IsSpace(s[k])
  {
    if forall k :: 0 <= k < |s| ==> IsSpace(s[k]) {
      AllSpaceTrimStart(s);
    }
    if Strip(s) == "" {
      StrippedAwayIsSpace(s);
    }
  }

  lemma StrippedAwayIsSpace(s: string)
    requires Strip(s) == ""
    ensures forall k :: 0 <= k < |s| ==> IsSpace(s[k])
  {
    var t := TrimStart(s);
    TrimStartRemovesSpace(s);
    TrimEndRemovesSpace(t);
    assert t == "";
  }

  lemma {:induction false} AllSpaceTrimStart(s: string)
    requires forall k :: 0 <= k < |s| ==> IsSpace(s[k])
    ensures TrimStart(s) == ""
    decreases |s|
  {
    if |s| > 0 {
      AllSpaceTrimStart(s[1..]);
    }
  }

  predicate StartsWith(s: string, prefix: string) {
    |prefix| <= |s| && s[..|prefix|] == prefix
  }

  predicate EndsWith(s: string, suffix: string) {
    |suffix| <= |s| && s[|s| - |suffix|..] == suffix
  }

  /** `s[len(p):]` when `s.startswith(p)`, else `s`. */
  function DropPrefix(s: string, p: string): (r: string)
    ensures |r| <= |s| && r == s[|s| - |r|..]
  {
    if StartsWith(s, p) then s[|p|..] else s
  }

  /** `s[:-len(p)]` when `s.endswith(p)`, else `s`. */
  function DropSuffix(s: string, p: string): (r: string)
    ensures |r| <= |s| && r == s[..|r|]
  {
    if EndsWith(s, p) then s[..|s| - |p|] else s
  }

  lemma DropInfix(s: string, p: string)
    ensures IsInfix(DropPrefix(s, p), s) && IsInfix(DropSuffix(s, p), s)
  {
    var r := DropPrefix(s, p);
    assert r == s[|s| - |r|..|s|];
    var q := DropSuffix(s, p);
    assert q == s[0..|q|];
  }

  lemma DropPrefixOf(p: string, x: string)
    ensures DropPrefix(p + x, p) == x
  {
    assert (p + x)[..|p|] == p;
    assert (p + x)[|p|..] == x;
  }

  lemma DropSuffixOf(x: string, p: string)
    ensures DropSuffix(x + p, p) == x
  {
    assert (x + p)[|x|..] == p;
    assert (x + p)[..|x|] == x;
  }

  /** Python's `sep.join(parts)`. */
  function Join(parts: seq<string>, sep: string): (r: string)
    ensures parts == [] ==> r == ""
    ensures |parts| == 1 ==> r == parts[0]
  {
    if |parts| == 0 then ""
    else if |parts| == 1 then parts[0]
    else parts[0] + sep + Join(parts[1..], sep)
  }

  /** Joining with a separator appends after every part but the last. */
  lemma {:induction false} JoinLength(parts: seq<string>, sep: string)
    requires |parts| > 0
    ensures |Join(parts, sep)| == SumLengths(parts) + (|parts| - 1) * |sep|
  {
    if |parts| > 1 {
      JoinLength(parts[1..], sep);
    }
  }

  function SumLengths(parts: seq<string>): nat {
    if parts == [] then 0 else |parts[0]| + SumLengths(parts[1..])
  }

  /**
   * When the last of at least two parts is "", the joined text ends with the
   * separator.
   */
  lemma {:induction false} JoinEndsWithSeparator(parts: seq<string>, sep: string)
    requires |parts| >= 2 && parts[|parts| - 1] == ""
    ensures EndsWith(Join(parts, sep), sep)
  {
    if |parts| > 2 {
      JoinEndsWithSeparator(parts[1..], sep);
    }
  }

  /** Index of the first `c` in `s`, or `|s|` when there is none. */
  function IndexOf(s: string, c: char): (i: nat)
    ensures i <= |s|
    ensures i < |s| ==> s[i] == c
    ensures forall k :: 0 <= k < i ==> s[k] != c
  {
    if |s| == 0 then 0
    else if s[0] == c then 0
    else 1 + IndexOf(s[1..], c)
  }

  /** Python's `s.split(sep)` for a one-character separator. */
  function Split(s: string, sep: char): (parts: seq<string>)
    ensures |parts| >= 1
    ensures forall k :: 0 <= k < |parts| ==> sep !in parts[k]
    decreases |s|
  {
    var i := IndexOf(s, sep);
    if i == |s| then [s] else [s[..i]] + Split(s[i + 1..], sep)
  }

  /** `split` and `join` are inverse: joining the pieces with the separator gives `s` back. */
  lemma {:induction false} SplitJoin(s: string, sep: char)
    ensures Join(Split(s, sep), [sep]) == s
    decreases |s|
  {
    var i := IndexOf(s, sep);
    if i < |s| {
      var rest := Split(s[i + 1..], sep);
      SplitAt(s, sep);
      JoinCons(s[..i], rest, [sep]);
      SplitJoin(s[i + 1..], sep);
      assert s == s[..i] + [sep] + s[i + 1..];
    }
  }

  /** Splitting at the first separator. */
  lemma SplitAt(s: string, sep: char)
    requires IndexOf(s, sep) < |s|
    ensures var i := IndexOf(s, sep);
            Split(s, sep) == [s[..i]] + Split(s[i + 1..], sep)
  {
  }

  /** Joining a first part onto a non-empty rest. */
  lemma JoinCons(head: string, rest: seq<string>, sep: string)
    requires |rest| >= 1
    ensures Join([head] + rest, sep) == head + sep + Join(rest, sep)
  {
    var parts := [head] + rest;
    assert parts[0] == head && parts[1..] == rest;
  }

  /** The first separator of `a + [c] + b` is right after `a` when `a` has none. */
  lemma IndexOfAfter(a: string, c: char, b: string)
    requires c !in a
    ensures IndexOf(a + [c] + b, c) == |a|
  {
    var s := a + [c] + b;
    assert s[|a|] == c;
    assert forall k :: 0 <= k < |a| ==> s[k] == a[k];
  }

  /** The reverse round trip: pieces free of the separator come back from splitting their join. */
  lemma {:induction false} JoinSplit(parts: seq<string>, sep: char)
    requires |parts| >= 1
    requires forall k :: 0 <= k < |parts| ==> sep !in parts[k]
    ensures Split(Join(parts, [sep]), sep) == parts
  {
    if |parts| == 1 {
      assert IndexOf(parts[0], sep) == |parts[0]|;
    } else {
      var rest := Join(parts[1..], [sep]);
      assert Join(parts, [sep]) == parts[0] + [sep] + rest;
      SplitFirst(parts[0], sep, rest);
      JoinSplit(parts[1..], sep);
      assert parts == [parts[0]] + parts[1..];
    }
  }

  /** A piece free of the separator is split off whole from the front. */
  lemma SplitFirst(a: string, sep: char, rest: string)
    requires sep !in a
    ensures Split(a + [sep] + rest, sep) == [a] + Split(rest, sep)
  {
    var s := a + [sep] + rest;
    IndexOfAfter(a, sep, rest);
    SplitAt(s, sep);
    assert s[..|a|] == a;
    assert s[|a| + 1..] == rest;
  }

  function DigitChar(d: nat): (c: char)
    requires d < 10
    ensures '0' <= c <= '9'
  {
    (('0' as int) + d) as char
  }

  /** Python's `str(n)` for `n >= 0`: decimal digits, no leading zero. */
  function NatToString(n: nat): (r: string)
    ensures |r| >= 1
    ensures forall k :: 0 <= k < |r| ==> '0' <= r[k] <= '9'
    ensures |r| > 1 ==> r[0] != '0'
    decreases n
  {
    if n < 10 then [DigitChar(n)] else NatToString(n / 10) + [DigitChar(n % 10)]
  }

  function DigitValue(c: char): nat
    requires '0' <= c <= '9'
  {
    (c as int) - ('0' as int)
  }

  /** The decimal value of a digit string. */
  function DigitsValue(s: string): nat
    requires forall k :: 0 <= k < |s| ==> '0' <= s[k] <= '9'
  {
    if s == [] then 0
    else 10 * DigitsValue(s[..|s| - 1]) + DigitValue(s[|s| - 1])
  }

  /** `NatToString` writes `n` in decimal: reading the digits back gives `n`. */
  lemma {:induction false} NatToStringValue(n: nat)
    ensures DigitsValue(NatToString(n)) == n
    decreases n
  {
    var r := NatToString(n);
    if n < 10 {
      assert r == [DigitChar(n)];
      assert r[..0] == [];
    } else {
      var q, d := n / 10, n % 10;
      NatToStringValue(q);
      assert r == NatToString(q) + [DigitChar(d)];
      assert r[..|r| - 1] == NatToString(q);
      assert DigitValue(r[|r| - 1]) == d;
      assert n == 10 * q + d;
    }
  }

  /** Distinct numbers print differently. */
  lemma NatToStringInjective(m: nat, n: nat)
    requires NatToString(m) == NatToString(n)
    ensures m == n
  {
    NatToStringValue(m);
    NatToStringValue(n);
  }

  function Pow10(k: nat): nat {
    if k == 0 then 1 else 10 * Pow10(k - 1)
  }

  /** A number below `10^k` prints in at most `k` digits. */
  lemma {:induction false} NatToStringLength(n: nat, k: nat)
    requires 1 <= k && n < Pow10(k)
    ensures |NatToString(n)| <= k
    decreases k
  {
    if n >= 10 {
      assert Pow10(k) == 10 * Pow10(k - 1);
      assert k >= 2;
      assert n / 10 < Pow10(k - 1);
      NatToStringLength(n / 10, k - 1);
    }
  }
}
