/** The JavaScript string operations the page relies on, over Dafny strings:
    `includes`, a regular expression anchored with `$` on a literal suffix,
    `trim`, and the first-occurrence search a URL parser performs. */
module Text {
  import opened Wrappers

  /** `sub` occurs in `s` starting exactly at position `i`. */
  predicate OccursAt(s: string, sub: string, i: int)
  {
    0 <= i && i + |sub| <= |s| && s[i..i + |sub|] == sub
  }

  /** The position of the first occurrence of `sub` in `s` at or after
      `from`, if any (`String.prototype.indexOf`, with -1 read as `None`). */
  function IndexOf(s: string, sub: string, from: nat := 0): (r: Option<nat>)
    ensures r.Some? ==> from <= r.value && OccursAt(s, sub, r.value)
    ensures r.Some? ==> forall j :: from <= j < r.value ==> !OccursAt(s, sub, j)
    ensures r.None? ==> forall j :: from <= j ==> !OccursAt(s, sub, j)
    decreases |s| - from
  {
    if from + |sub| > |s| then None
    else if s[from..from + |sub|] == sub then Some(from)
    else IndexOf(s, sub, from + 1)
  }

  /** `String.prototype.includes`: `sub` occurs somewhere in `s`. */
  predicate Contains(s: string, sub: string)
  {
    IndexOf(s, sub).Some?
  }

  /** An occurrence at a known position witnesses `Contains`. */
  lemma OccursContains(s: string, sub: string, i: int)
    requires OccursAt(s, sub, i)
    ensures Contains(s, sub)
  {
  }

  /** `sub` does not occur in `s` when no two adjacent characters of `s`
      spell its first two. */
  lemma NotContainsByPairs(s: string, sub: string)
    requires |sub| >= 2
    requires forall i :: 0 <= i < |s| - 1 ==> !(s[i] == sub[0] && s[i + 1] == sub[1])
    ensures !Contains(s, sub)
  {
    forall j | 0 <= j <= |s| - |sub| ensures !OccursAt(s, sub, j) {
      assert s[j..j + |sub|][0] == s[j] && s[j..j + |sub|][1] == s[j + 1];
    }
  }

  /** `s` ends with `suffix`. */
  predicate EndsWith(s: string, suffix: string)
  {
    |suffix| <= |s| && s[|s| - |suffix|..] == suffix
  }

  /** `s.replace(/suffix$/, '')` for a regular expression that is a plain
      literal: the suffix is removed when present, once. */
  function StripSuffix(s: string, suffix: string): (r: string)
    ensures |r| <= |s| && r == s[..|r|]
    ensures EndsWith(s, suffix) ==> r + suffix == s
    ensures !EndsWith(s, suffix) ==> r == s
  {
    if EndsWith(s, suffix) then s[..|s| - |suffix|] else s
  }

  /** The code points `String.prototype.trim` removes: the ECMAScript
      WhiteSpace set (tab, vertical tab, form feed, space, no-break space,
      byte order mark and every Unicode space separator) and the
      LineTerminator set (line feed, carriage return, line and paragraph
      separators). */
  predicate IsJsWhitespace(c: char)
  {
    c == '\t' || c == '\n' || c == '\U{000B}' || c == '\U{000C}' || c == '\r'
    || c == ' ' || c == '\U{00A0}' || c == '\U{1680}'
    || ('\U{2000}' <= c <= '\U{200A}')
    || c == '\U{2028}' || c == '\U{2029}' || c == '\U{202F}' || c == '\U{205F}'
    || c == '\U{3000}' || c == '\U{FEFF}'
  }

  /** A string does not end with a suffix whose last character differs
      from its own. */
  lemma NotEndsWithByLast(s: string, suffix: string)
    requires |s| > 0 && |suffix| > 0 && s[|s| - 1] != suffix[|suffix| - 1]
    ensures !EndsWith(s, suffix)
  {
    if |suffix| <= |s| {
      assert s[|s| - |suffix|..][|suffix| - 1] == s[|s| - 1];
    }
  }

  /** `s` with its leading whitespace removed. */
  function TrimStart(s: string): (r: string)
    ensures |r| <= |s| && r == s[|s| - |r|..]
    ensures forall i :: 0 <= i < |s| - |r| ==> IsJsWhitespace(s[i])
    ensures r == [] || !IsJsWhitespace(r[0])
  {
    if s != [] && IsJsWhitespace(s[0]) then TrimStart(s[1..]) else s
  }

  /** `s` with its trailing whitespace removed. */
  function TrimEnd(s: string): (r: string)
    ensures |r| <= |s| && r == s[..|r|]
    ensures forall i :: |r| <= i < |s| ==> IsJsWhitespace(s[i])
    ensures r == [] || !IsJsWhitespace(r[|r| - 1])
  {
    if s != [] && IsJsWhitespace(s[|s| - 1]) then TrimEnd(s[..|s| - 1]) else s
  }

  /** `String.prototype.trim`: the longest slice of `s` that neither starts
      nor ends with whitespace, everything cut off being whitespace. */
  function Trim(s: string): (r: string)
    ensures exists a :: IsTrimmedSlice(s, a, r)
    ensures r == [] || (!IsJsWhitespace(r[0]) && !IsJsWhitespace(r[|r| - 1]))
  {
    TrimmedSlice(s);
    TrimEnd(TrimStart(s))
  }

  lemma TrimmedSlice(s: string)
    ensures IsTrimmedSlice(s, |s| - |TrimStart(s)|, TrimEnd(TrimStart(s)))
  {
    var t := TrimStart(s);
    TrimmedSliceOf(s, t, TrimEnd(t));
  }

  /** Whitespace cut from the front of `s`, giving `t`, and then from the
      back of `t`, giving `r`, leaves a trimmed slice of `s`. */
  lemma TrimmedSliceOf(s: string, t: string, r: string)
    requires |t| <= |s| && t == s[|s| - |t|..]
    requires forall i :: 0 <= i < |s| - |t| ==> IsJsWhitespace(s[i])
    requires |r| <= |t| && r == t[..|r|]
    requires forall i :: |r| <= i < |t| ==> IsJsWhitespace(t[i])
    ensures IsTrimmedSlice(s, |s| - |t|, r)
  {
    var a := |s| - |t|;
    SliceOfSuffix(s, a, r);
    TrailingOfSuffix(s, a, |r|);
  }

  /** A prefix of the suffix `s[a..]` is the slice of `s` starting at `a`. */
  lemma SliceOfSuffix(s: string, a: int, r: string)
    requires 0 <= a <= |s| && |r| <= |s| - a && r == s[a..][..|r|]
    ensures r == s[a..a + |r|]
  {
  }

  /** Whitespace past position `n` of the suffix `s[a..]` is whitespace past
      position `a + n` of `s`. */
  lemma TrailingOfSuffix(s: string, a: int, n: int)
    requires 0 <= a <= |s| && 0 <= n <= |s| - a
    requires forall i :: n <= i < |s[a..]| ==> IsJsWhitespace(s[a..][i])
    ensures forall i :: a + n <= i < |s| ==> IsJsWhitespace(s[i])
  {
    forall i | a + n <= i < |s| ensures IsJsWhitespace(s[i]) {
      assert s[i] == s[a..][i - a];
    }
  }

  /** `r` is the slice of `s` starting at `a`, and everything outside that
      slice is whitespace. */
  predicate IsTrimmedSlice(s: string, a: int, r: string)
  {
    && 0 <= a && a + |r| <= |s| && r == s[a..a + |r|]
    && (forall i :: 0 <= i < a ==> IsJsWhitespace(s[i]))
    && (forall i :: a + |r| <= i < |s| ==> IsJsWhitespace(s[i]))
  }

  /** Trimming twice is trimming once. */
  lemma TrimIdempotent(s: string)
    ensures Trim(Trim(s)) == Trim(s)
  {
    var r := Trim(s);
    assert TrimStart(r) == r;
    assert TrimEnd(r) == r;
  }

  /** `Trim` is the only trimmed slice whose ends are not whitespace: any
      such slice is what `trim` returns. */
  lemma TrimIsUnique(s: string, a: int, r: string)
    requires IsTrimmedSlice(s, a, r)
    requires r == [] || (!IsJsWhitespace(r[0]) && !IsJsWhitespace(r[|r| - 1]))
    ensures Trim(s) == r
  {
    var t := Trim(s);
    var b :| IsTrimmedSlice(s, b, t);
    TrimmedSlicesAgree(s, a, r, b, t);
  }

  /** Two trimmed slices of `s` whose ends are not whitespace are equal. */
  lemma TrimmedSlicesAgree(s: string, a: int, r: string, b: int, t: string)
    requires IsTrimmedSlice(s, a, r) && IsTrimmedSlice(s, b, t)
    requires r == [] || (!IsJsWhitespace(r[0]) && !IsJsWhitespace(r[|r| - 1]))
    requires t == [] || (!IsJsWhitespace(t[0]) && !IsJsWhitespace(t[|t| - 1]))
    ensures r == t
  {
    if r == [] || t == [] {
      AllWhitespaceHasEmptySlice(s, a, r, b, t);
    } else {
      assert r[0] == s[a] && r[|r| - 1] == s[a + |r| - 1];
      assert t[0] == s[b] && t[|t| - 1] == s[b + |t| - 1];
      assert a == b;
      assert |r| == |t|;
    }
  }

  /** When one trimmed slice is empty, `s` is all whitespace, so the other
      slice is empty as well. */
  lemma AllWhitespaceHasEmptySlice(s: string, a: int, r: string, b: int, t: string)
    requires IsTrimmedSlice(s, a, r) && IsTrimmedSlice(s, b, t)
    requires r == [] || (!IsJsWhitespace(r[0]) && !IsJsWhitespace(r[|r| - 1]))
    requires t == [] || (!IsJsWhitespace(t[0]) && !IsJsWhitespace(t[|t| - 1]))
    requires r == [] || t == []
    ensures r == [] && t == []
  {
    SliceStart(s, a, r);
    SliceStart(s, b, t);
  }

  /** A non-empty slice starts with the character of `s` at its position. */
  lemma SliceStart(s: string, a: int, r: string)
    requires IsTrimmedSlice(s, a, r)
    ensures r != [] ==> 0 <= a < |s| && s[a] == r[0]
  {
  }
}
