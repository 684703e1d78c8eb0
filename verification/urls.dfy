/** A simplified reading of `new URL(u).origin + new URL(u).pathname`: the
    address of a page without its query string and fragment. A URL parses
    when it has a scheme followed by `://` and a non-empty authority; an
    empty path reads as `/`. */
module Urls {
  import opened Wrappers
  import opened Text

  predicate IsSchemeChar(c: char)
  {
    ('a' <= c <= 'z') || ('A' <= c <= 'Z') || ('0' <= c <= '9') || c == '+' || c == '-' || c == '.'
  }

  /** A URL scheme: a letter followed by letters, digits, `+`, `-` or `.`. */
  predicate IsScheme(s: string)
  {
    |s| > 0 && (('a' <= s[0] <= 'z') || ('A' <= s[0] <= 'Z'))
    && forall i :: 0 <= i < |s| ==> IsSchemeChar(s[i])
  }

  predicate IsQueryOrFragmentStart(c: char)
  {
    c == '?' || c == '#'
  }

  predicate IsSlash(c: char)
  {
    c == '/'
  }

  /** The longest prefix of `s` in which no character satisfies `stop`. */
  function CutAt(s: string, stop: char -> bool): (r: string)
    ensures r <= s
    ensures forall i :: 0 <= i < |r| ==> !stop(r[i])
    ensures |r| < |s| ==> stop(s[|r|])
  {
    if s == [] || stop(s[0]) then [] else [s[0]] + CutAt(s[1..], stop)
  }

  /** The cut is fixed by the first stopping character. */
  lemma CutAtFirstStop(s: string, stop: char -> bool, k: nat)
    requires k <= |s|
    requires forall i :: 0 <= i < k ==> !stop(s[i])
    requires k < |s| ==> stop(s[k])
    ensures CutAt(s, stop) == s[..k]
  {
  }

  /** Origin and path of `url`, or `None` when it does not parse. */
  function Canonical(url: string): (r: Option<string>)
    ensures r.Some? ==> forall k :: 0 <= k < |r.value| ==> !IsQueryOrFragmentStart(r.value[k])
  {
    match IndexOf(url, "://")
    case None => None
    case Some(i) => Assemble(url[..i], url[i + 3..])
  }

  /** `scheme://` followed by the authority and path found in `afterScheme`. */
  function Assemble(scheme: string, afterScheme: string): (r: Option<string>)
    ensures r.Some? ==> forall k :: 0 <= k < |r.value| ==> !IsQueryOrFragmentStart(r.value[k])
  {
    var rest := CutAt(afterScheme, IsQueryOrFragmentStart);
    var host := CutAt(rest, IsSlash);
    if !IsScheme(scheme) || host == [] then None
    else Some(scheme + "://" + PathOf(rest, host))
  }

  /** `rest` with `/` appended when it is a bare authority. */
  function PathOf(rest: string, host: string): string
  {
    if |rest| == |host| then rest + "/" else rest
  }

  /** `c` is `scheme://path` with the scheme ending at `i`, a path without
      query or fragment characters whose first `/` follows a non-empty
      authority. */
  predicate IsCanonicalSplit(c: string, i: int)
  {
    && 0 <= i && i + 3 < |c|
    && IsScheme(c[..i]) && c[i..i + 3] == "://"
    && (forall k :: i + 3 <= k < |c| ==> !IsQueryOrFragmentStart(c[k]))
    && 0 < |CutAt(c[i + 3..], IsSlash)| < |c| - (i + 3)
  }

  lemma AssembleSplit(scheme: string, afterScheme: string)
    requires Assemble(scheme, afterScheme).Some?
    ensures IsCanonicalSplit(Assemble(scheme, afterScheme).value, |scheme|)
  {
    var rest := CutAt(afterScheme, IsQueryOrFragmentStart);
    var host := CutAt(rest, IsSlash);
    var path := PathOf(rest, host);
    var c := scheme + "://" + path;
    assert c[..|scheme|] == scheme;
    assert c[|scheme|..|scheme| + 3] == "://";
    assert c[|scheme| + 3..] == path;
    assert path[..|host|] == host;
    CutAtFirstStop(path, IsSlash, |host|);
  }

  /** In a canonical address the first `://` is the one after the scheme,
      since scheme characters exclude `:`. */
  lemma SplitFindsScheme(c: string, i: int)
    requires IsCanonicalSplit(c, i)
    ensures IndexOf(c, "://") == Some(i)
  {
    assert OccursAt(c, "://", i);
    forall j | 0 <= j < i ensures !OccursAt(c, "://", j) {
      assert c[..i][j] == c[j];
      assert IsSchemeChar(c[j]);
    }
  }

  /** Reassembling the parts of a canonical address gives it back. */
  lemma SplitReassembles(c: string, i: int)
    requires IsCanonicalSplit(c, i)
    ensures Assemble(c[..i], c[i + 3..]) == Some(c)
  {
    var p := c[i + 3..];
    SuffixHasNoQuery(c, i + 3);
    AssemblePath(c[..i], p);
    SchemeSplitJoins(c, i);
  }

  lemma SuffixHasNoQuery(c: string, start: nat)
    requires start <= |c|
    requires forall k :: start <= k < |c| ==> !IsQueryOrFragmentStart(c[k])
    ensures forall k :: 0 <= k < |c[start..]| ==> !IsQueryOrFragmentStart(c[start..][k])
  {
    forall k | 0 <= k < |c[start..]| ensures !IsQueryOrFragmentStart(c[start..][k]) {
      assert c[start..][k] == c[start + k];
    }
  }

  lemma SchemeSplitJoins(c: string, i: int)
    requires 0 <= i && i + 3 <= |c| && c[i..i + 3] == "://"
    ensures c[..i] + "://" + c[i + 3..] == c
  {
    assert c == c[..i] + c[i..i + 3] + c[i + 3..];
  }

  /** A path without `?` or `#` whose authority is followed by a `/` is
      reassembled unchanged. */
  lemma AssemblePath(scheme: string, p: string)
    requires IsScheme(scheme)
    requires forall k :: 0 <= k < |p| ==> !IsQueryOrFragmentStart(p[k])
    requires 0 < |CutAt(p, IsSlash)| < |p|
    ensures Assemble(scheme, p) == Some(scheme + "://" + p)
  {
    CutAtFirstStop(p, IsQueryOrFragmentStart, |p|);
    assert p[..|p|] == p;
  }

  /** Canonicalising a canonical address changes nothing: origin and path
      are a fixed point, which is what makes them a deduplication key. */
  lemma CanonicalIdempotent(url: string)
    requires Canonical(url).Some?
    ensures Canonical(Canonical(url).value) == Canonical(url)
  {
    var i := IndexOf(url, "://").value;
    AssembleSplit(url[..i], url[i + 3..]);
    var c := Canonical(url).value;
    SplitFindsScheme(c, i);
    SplitReassembles(c, i);
  }

  /** The separator after a scheme is the first `://` of the URL. */
  lemma SchemeSeparator(scheme: string, afterScheme: string)
    requires IsScheme(scheme)
    ensures Canonical(scheme + "://" + afterScheme) == Assemble(scheme, afterScheme)
  {
    var u := scheme + "://" + afterScheme;
    var i := |scheme|;
    assert u[i..i + 3] == "://";
    assert OccursAt(u, "://", i);
    forall j | 0 <= j < i ensures !OccursAt(u, "://", j) {
      assert u[j] == scheme[j];
      assert IsSchemeChar(scheme[j]);
      if j + 3 <= |u| {
        assert u[j..j + 3][0] == u[j];
      }
    }
    assert IndexOf(u, "://") == Some(i);
    assert u[..i] == scheme && u[i + 3..] == afterScheme;
  }

  /** The cut at `?`/`#` stops right after the path. */
  lemma QueryCut(host: string, path: string, tail: string)
    requires forall k :: 0 <= k < |host| ==> !IsQueryOrFragmentStart(host[k])
    requires forall k :: 0 <= k < |path| ==> !IsQueryOrFragmentStart(path[k])
    requires tail == [] || IsQueryOrFragmentStart(tail[0])
    ensures CutAt(host + path + tail, IsQueryOrFragmentStart) == host + path
  {
    var after := host + path + tail;
    var hp := host + path;
    assert after[..|hp|] == hp;
    forall k | 0 <= k < |hp| ensures !IsQueryOrFragmentStart(after[k]) {
      assert after[k] == hp[k];
      if k >= |host| { assert hp[k] == path[k - |host|]; }
    }
    CutAtFirstStop(after, IsQueryOrFragmentStart, |hp|);
  }

  /** The cut at `/` stops right after the authority. */
  lemma HostCut(host: string, path: string)
    requires forall k :: 0 <= k < |host| ==> !IsSlash(host[k])
    requires |path| > 0 && IsSlash(path[0])
    ensures CutAt(host + path, IsSlash) == host
  {
    var hp := host + path;
    assert hp[..|host|] == host;
    assert hp[|host|] == path[0];
    CutAtFirstStop(hp, IsSlash, |host|);
  }

  /** The cuts at `?`/`#` and at `/` find the path and the authority. */
  lemma AssembleParts(scheme: string, host: string, path: string, tail: string)
    requires IsScheme(scheme) && |host| > 0
    requires forall k :: 0 <= k < |host| ==> !IsSlash(host[k]) && !IsQueryOrFragmentStart(host[k])
    requires |path| > 0 && IsSlash(path[0])
    requires forall k :: 0 <= k < |path| ==> !IsQueryOrFragmentStart(path[k])
    requires tail == [] || IsQueryOrFragmentStart(tail[0])
    ensures Assemble(scheme, host + path + tail) == Some(scheme + "://" + host + path)
  {
    QueryCut(host, path, tail);
    HostCut(host, path);
    assert PathOf(host + path, host) == host + path;
    assert scheme + "://" + (host + path) == scheme + "://" + host + path;
  }

  /** The query string and fragment do not reach the address: a URL made of
      scheme, authority, path and a tail that starts with `?` or `#` becomes
      scheme, authority and path. */
  lemma QueryAndFragmentDropped(scheme: string, host: string, path: string, tail: string)
    requires IsScheme(scheme) && |host| > 0
    requires forall k :: 0 <= k < |host| ==> !IsSlash(host[k]) && !IsQueryOrFragmentStart(host[k])
    requires |path| > 0 && IsSlash(path[0])
    requires forall k :: 0 <= k < |path| ==> !IsQueryOrFragmentStart(path[k])
    requires tail == [] || IsQueryOrFragmentStart(tail[0])
    ensures Canonical(scheme + "://" + host + path + tail) == Some(scheme + "://" + host + path)
  {
    var after := host + path + tail;
    assert scheme + "://" + host + path + tail == scheme + "://" + after;
    SchemeSeparator(scheme, after);
    AssembleParts(scheme, host, path, tail);
  }
}
