/** Text helpers: ASCII lower-casing and the substring test behind Python's `p in s`. */
module Text {
  import opened Wrappers

  /** Python `str.lower` restricted to ASCII letters. */
  function LowerChar(c: char): char
  {
    if 'A' <= c <= 'Z' then (c as int + 32) as char else c
  }

  function Lower(s: string): string
  {
    seq(|s|, i requires 0 <= i < |s| => LowerChar(s[i]))
  }

  lemma LowerAppend(a: string, b: string)
    ensures Lower(a + b) == Lower(a) + Lower(b)
  {
  }

  /** `t` occurs in `s` at position `i`. */
  predicate StartsAt(s: string, i: nat, t: string)
  {
    i + |t| <= |s| && s[i..i + |t|] == t
  }

  /** `s.find(t, i)`: the first position at or after `i` where `t` occurs. */
  function FindFrom(s: string, t: string, i: nat): (r: Option<nat>)
    ensures r.Some? ==> i <= r.value && StartsAt(s, r.value, t)
    ensures r.Some? ==> forall j :: i <= j < r.value ==> !StartsAt(s, j, t)
    ensures r.None? ==> forall j :: i <= j ==> !StartsAt(s, j, t)
    decreases |s| - i
  {
    if i + |t| > |s| then None
    else if s[i..i + |t|] == t then Some(i)
    else FindFrom(s, t, i + 1)
  }

  /** Python's `t in s` for strings. */
  predicate Contains(s: string, t: string)
  {
    FindFrom(s, t, 0).Some?
  }

  lemma ContainsIff(s: string, t: string)
    ensures Contains(s, t) <==> exists i: nat :: StartsAt(s, i, t)
  {
    if Contains(s, t) {
      assert StartsAt(s, FindFrom(s, t, 0).value, t);
    }
  }

  lemma ContainsAt(s: string, i: nat, t: string)
    requires StartsAt(s, i, t)
    ensures Contains(s, t)
  {
    ContainsIff(s, t);
  }

  /** Substring is transitive: a text containing `u` contains everything `u` contains. */
  lemma ContainsTrans(s: string, u: string, t: string)
    requires Contains(s, u) && Contains(u, t)
    ensures Contains(s, t)
  {
    ContainsIff(s, u);
    ContainsIff(u, t);
    var i: nat :| StartsAt(s, i, u);
    var j: nat :| StartsAt(u, j, t);
    forall k | 0 <= k < |t|
      ensures s[i + j + k] == t[k]
    {
      assert s[i + j + k] == s[i..i + |u|][j + k];
      assert t[k] == u[j..j + |t|][k];
    }
    assert s[i + j..i + j + |t|] == t;
    ContainsAt(s, i + j, t);
  }

  lemma ContainsSelf(s: string)
    ensures Contains(s, s)
  {
    ContainsAt(s, 0, s);
  }

  /** Lower-casing keeps every occurrence of a substring. */
  lemma ContainsLower(s: string, t: string)
    requires Contains(s, t)
    ensures Contains(Lower(s), Lower(t))
  {
    ContainsIff(s, t);
    var i: nat :| StartsAt(s, i, t);
    assert Lower(s)[i..i + |t|] == Lower(t);
    ContainsAt(Lower(s), i, Lower(t));
  }

  /** ContainsAny(s, ps) is Python's `any(p in s for p in ps)`. */
  predicate ContainsAny(s: string, patterns: seq<string>)
  {
    exists k :: 0 <= k < |patterns| && Contains(s, patterns[k])
  }

  /** Python `s.rfind(c)`: the last index of `c`, or -1. */
  function LastIndexOf(s: string, c: char): (r: int)
    ensures -1 <= r < |s|
    ensures r >= 0 ==> s[r] == c
    ensures forall j :: r < j < |s| ==> s[j] != c
  {
    if |s| == 0 then -1
    else if s[|s| - 1] == c then |s| - 1
    else LastIndexOf(s[..|s| - 1], c)
  }

  predicate NoNewline(s: string)
  {
    forall k :: 0 <= k < |s| ==> s[k] != '\n'
  }

  /** Python's `a <= b` on strings: lexicographic by code point. */
  predicate StrLe(a: string, b: string)
  {
    if |a| == 0 then true
    else if |b| == 0 then false
    else if a[0] != b[0] then a[0] < b[0]
    else StrLe(a[1..], b[1..])
  }

  lemma {:induction false} StrLeTotal(a: string, b: string)
    ensures StrLe(a, b) || StrLe(b, a)
  {
    if |a| > 0 && |b| > 0 && a[0] == b[0] {
      StrLeTotal(a[1..], b[1..]);
    }
  }

  lemma {:induction false} StrLeTrans(a: string, b: string, c: string)
    requires StrLe(a, b) && StrLe(b, c)
    ensures StrLe(a, c)
  {
    if |a| > 0 && |b| > 0 && |c| > 0 && a[0] == b[0] && b[0] == c[0] {
      StrLeTrans(a[1..], b[1..], c[1..]);
    }
  }

  lemma {:induction false} StrLeAntisymmetric(a: string, b: string)
    requires StrLe(a, b) && StrLe(b, a)
    ensures a == b
  {
    if |a| > 0 && |b| > 0 {
      StrLeAntisymmetric(a[1..], b[1..]);
      assert a == [a[0]] + a[1..] && b == [b[0]] + b[1..];
    }
  }

  /** A common prefix does not change the comparison. */
  lemma {:induction false} StrLeCommonPrefix(p: string, a: string, b: string)
    ensures StrLe(p + a, p + b) == StrLe(a, b)
  {
    if |p| > 0 {
      assert (p + a)[1..] == p[1..] + a && (p + b)[1..] == p[1..] + b;
      StrLeCommonPrefix(p[1..], a, b);
    } else {
      assert p + a == a && p + b == b;
    }
  }

  /** An occurrence inside a slice is an occurrence in the whole text. */
  lemma StartsAtSlice(s: string, a: nat, b: nat, j: nat, t: string)
    requires a <= b <= |s| && StartsAt(s[a..b], j, t)
    ensures StartsAt(s, a + j, t) && a + j + |t| <= b
  {
    forall k | 0 <= k < |t|
      ensures s[a + j + k] == t[k]
    {
      assert t[k] == s[a..b][j..j + |t|][k];
    }
    assert s[a + j..a + j + |t|] == t;
  }

  /** The slice of `s` starting at `i` reads `t` followed by the rest. */
  lemma StartsAtConcat(s: string, i: nat, t: string, u: string)
    requires StartsAt(s, i, t) && StartsAt(s, i + |t|, u)
    ensures StartsAt(s, i, t + u)
  {
    assert s[i..i + |t| + |u|] == s[i..i + |t|] + s[i + |t|..i + |t| + |u|];
  }
}
