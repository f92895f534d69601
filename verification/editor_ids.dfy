/** The recipe's editor id: a fixed prefix followed by the spell's name and
    form key with every run of characters outside the regex class `[A-z0-9_]`
    deleted. */
module EditorIds {
  import opened Wrappers

  const EditorIdPrefix: string := "GN_CraftScroll_"

  /** Membership in the class `[A-z0-9_]`. The range `A-z` spans 0x41..0x7A, so
      besides letters it also admits the six characters between `Z` and `a`. */
  predicate IsKept(c: char)
  {
    ('A' <= c <= 'z') || ('0' <= c <= '9') || c == '_'
  }

  /** The order-preserving subsequence of kept characters of `s`. */
  function Filter(s: string): (r: string)
    ensures |r| <= |s|
    ensures forall i :: 0 <= i < |r| ==> IsKept(r[i])
  {
    if s == [] then []
    else
      (if IsKept(s[0]) then [s[0]] else []) + Filter(s[1..])
  }

  /** Every kept character occurs in the result as often as in the input;
      no other character occurs. */
  lemma {:induction false} FilterCounts(s: string)
    ensures forall c :: multiset(Filter(s))[c] == if IsKept(c) then multiset(s)[c] else 0
  {
    if s != [] {
      FilterCounts(s[1..]);
      assert s == [s[0]] + s[1..];
      assert multiset(s) == multiset([s[0]]) + multiset(s[1..]);
    }
  }

  /** `a` can be obtained from `b` by deleting characters. */
  predicate IsSubsequence(a: string, b: string)
    decreases |b|
  {
    if a == [] then true
    else if b == [] then false
    else (a[0] == b[0] && IsSubsequence(a[1..], b[1..])) || IsSubsequence(a, b[1..])
  }

  lemma {:induction false} FilterIsSubsequence(s: string)
    ensures IsSubsequence(Filter(s), s)
  {
    if s != [] {
      FilterIsSubsequence(s[1..]);
      if IsKept(s[0]) {
        assert Filter(s) == [s[0]] + Filter(s[1..]);
        assert Filter(s)[1..] == Filter(s[1..]);
      } else {
        assert Filter(s) == Filter(s[1..]);
      }
    }
  }

  /** Length of the leading run of characters outside the class. */
  function RunLength(s: string): (n: nat)
    ensures n <= |s|
    ensures forall i :: 0 <= i < n ==> !IsKept(s[i])
    ensures n < |s| ==> IsKept(s[n])
  {
    if s == [] || IsKept(s[0]) then 0 else 1 + RunLength(s[1..])
  }

  /** `Regex.Replace(s, "[^A-z0-9_]+", "")`: each leftmost, greedy match of a
      run of excluded characters is replaced by the empty string. */
  function ReplaceRuns(s: string): (r: string)
    ensures |r| <= |s|
    ensures forall i :: 0 <= i < |r| ==> IsKept(r[i])
    decreases |s|
  {
    if s == [] then []
    else if IsKept(s[0]) then [s[0]] + ReplaceRuns(s[1..])
    else ReplaceRuns(s[RunLength(s)..])
  }

  lemma {:induction false} FilterDropsExcludedPrefix(s: string, n: nat)
    requires n <= |s|
    requires forall i :: 0 <= i < n ==> !IsKept(s[i])
    ensures Filter(s) == Filter(s[n..])
  {
    if n > 0 {
      assert s[1..][n - 1..] == s[n..];
      FilterDropsExcludedPrefix(s[1..], n - 1);
    }
  }

  /** Deleting whole runs at once is deleting excluded characters one by one. */
  lemma {:induction false} ReplaceRunsIsFilter(s: string)
    ensures ReplaceRuns(s) == Filter(s)
    decreases |s|
  {
    if s != [] {
      if IsKept(s[0]) {
        ReplaceRunsIsFilter(s[1..]);
      } else {
        var n := RunLength(s);
        FilterDropsExcludedPrefix(s, n);
        ReplaceRunsIsFilter(s[n..]);
      }
    }
  }

  lemma {:induction false} FilterConcat(a: string, b: string)
    ensures Filter(a + b) == Filter(a) + Filter(b)
  {
    if a != [] {
      assert (a + b)[1..] == a[1..] + b;
      FilterConcat(a[1..], b);
    } else {
      assert a + b == b;
    }
  }

  lemma {:induction false} FilterFixedIffAllKept(s: string)
    ensures Filter(s) == s <==> forall i :: 0 <= i < |s| ==> IsKept(s[i])
  {
    if s != [] {
      FilterFixedIffAllKept(s[1..]);
      if !IsKept(s[0]) {
        assert |Filter(s)| <= |s[1..]| < |s|;
      } else {
        assert Filter(s) == [s[0]] + Filter(s[1..]);
        if Filter(s) == s {
          assert Filter(s[1..]) == Filter(s)[1..] == s[1..];
        }
        if forall i :: 0 <= i < |s| ==> IsKept(s[i]) {
          assert forall i :: 0 <= i < |s[1..]| ==> IsKept(s[1..][i]) by {
            forall i | 0 <= i < |s[1..]| ensures IsKept(s[1..][i]) {
              assert s[1..][i] == s[i + 1];
            }
          }
        }
      }
    }
  }

  lemma FilterIdempotent(s: string)
    ensures Filter(Filter(s)) == Filter(s)
  {
    FilterFixedIffAllKept(Filter(s));
  }

  /** The five punctuation characters between `Z` and `a` survive the filter;
      spaces, colons, dots and non-ASCII letters do not. */
  lemma KeptClassBoundary()
    ensures Filter("[\\]^`") == "[\\]^`"
    ensures Filter(" :.-é") == ""
  {
    FilterFixedIffAllKept("[\\]^`");
  }

  function NameOrEmpty(name: Option<string>): string
  {
    match name
    case Some(n) => n
    case None => ""
  }

  /** `"GN_CraftScroll_" + Regex.Replace($"{spellName}{formKey}", @"[^A-z0-9_]+", "")`. */
  function EditorId(name: Option<string>, keyText: string): (r: string)
    ensures |EditorIdPrefix| <= |r| <= |EditorIdPrefix| + |NameOrEmpty(name)| + |keyText|
    ensures forall i :: |EditorIdPrefix| <= i < |r| ==> IsKept(r[i])
  {
    EditorIdPrefix + ReplaceRuns(NameOrEmpty(name) + keyText)
  }

  /** The editor id starts with the prefix, continues with the kept
      characters of the name and then those of the form key, in order, and
      is itself left unchanged by the filter. */
  lemma EditorIdSanitised(name: Option<string>, keyText: string)
    ensures var id := EditorId(name, keyText);
            && |EditorIdPrefix| <= |id| && id[..|EditorIdPrefix|] == EditorIdPrefix
            && id[|EditorIdPrefix|..] == Filter(NameOrEmpty(name)) + Filter(keyText)
            && (forall i :: 0 <= i < |id| ==> IsKept(id[i]))
            && Filter(id) == id
  {
    var joined := NameOrEmpty(name) + keyText;
    ReplaceRunsIsFilter(joined);
    FilterConcat(NameOrEmpty(name), keyText);
    var id := EditorId(name, keyText);
    assert id[|EditorIdPrefix|..] == ReplaceRuns(joined);
    FilterFixedIffAllKept(id);
  }
}
