/** The AI-history panel of the new-tab page: every browsing-history entry is
    sorted into the chat services it belongs to, reduced to the address of the
    conversation it shows (origin and path), stripped of non-content pages,
    deduplicated keeping the first occurrence, cut to thirty rows and given a
    display title. */
module History {
  import opened Wrappers
  import opened Seqs
  import opened Text
  import Urls

  /** One entry of the browser's history log. `title` is `None` when the
      log has no title for the page. */
  datatype Entry = Entry(url: string, title: Option<string>, lastVisitTime: int)

  /** A chat service: the domains whose URLs belong to it, and the name and
      container the page renders it under. */
  datatype Service = Service(id: string, domains: seq<string>, name: string, containerId: string)

  /** A history entry whose URL has been replaced by its origin and path. */
  datatype Visit = Visit(url: string, title: Option<string>, lastVisitTime: int)

  /** One rendered row of a service's panel. */
  datatype Item = Item(url: string, title: string, lastVisitTime: int)

  /** The services the page shows, in display order. */
  const AiServices: seq<Service> := [
    Service("chatgpt", ["chatgpt.com", "chat.openai.com"], "ChatGPT", "chatgptHistory"),
    Service("claude", ["claude.ai"], "Claude", "claudeHistory"),
    Service("gemini", ["gemini.google.com"], "Gemini", "geminiHistory")
  ]

  /** Rows kept per service. */
  const MaxItems: nat := 30

  /** Characters of a display title kept before the ellipsis. */
  const MaxTitleLength: nat := 35

  const Ellipsis := "..."

  /** The title shown for an entry without one ("untitled"). */
  const Untitled := "タイトルなし"

  /** Path fragments that mark a sign-in, settings or list page. */
  const NonContentMarkers: seq<string> := ["/login", "/auth", "/settings", "/recents"]

  /** The title suffixes removed, in the order they are removed. */
  const TitleSuffixes: seq<string> := ["- ChatGPT", "Claude", " - Gemini"]

  // ---------------------------------------------------------------------
  // Classification
  // ---------------------------------------------------------------------

  /** The entry's raw URL (query and fragment included) contains one of the
      service's domains. */
  predicate MatchesService(e: Entry, svc: Service)
  {
    exists i :: 0 <= i < |svc.domains| && Contains(e.url, svc.domains[i])
  }

  /** The entries of `history` that belong to `svc`, in history order. */
  function ServiceHistory(history: seq<Entry>, svc: Service): seq<Entry>
  {
    Filter(e => MatchesService(e, svc), history)
  }

  /** An origin-and-path address that is a home page (it ends in `/`) or a
      sign-in, settings or list page. */
  predicate IsNonContent(base: string)
  {
    EndsWith(base, "/") || exists i :: 0 <= i < |NonContentMarkers| && Contains(base, NonContentMarkers[i])
  }

  /** What one entry contributes before deduplication: nothing when its URL
      does not parse or is a non-content page, otherwise the entry with its
      URL replaced by origin and path. */
  function Candidate(e: Entry, parse: string -> Option<string>): (r: seq<Visit>)
    ensures |r| <= 1
    ensures parse(e.url).None? ==> r == []
    ensures |r| == 1 <==> parse(e.url).Some? && !IsNonContent(parse(e.url).value)
    ensures |r| == 1 ==> r[0] == Visit(parse(e.url).value, e.title, e.lastVisitTime)
  {
    match parse(e.url)
    case None => []
    case Some(base) => if IsNonContent(base) then [] else [Visit(base, e.title, e.lastVisitTime)]
  }

  /** The candidates of a run of entries, in order. */
  function Candidates(entries: seq<Entry>, parse: string -> Option<string>): seq<Visit>
  {
    if entries == [] then [] else Candidate(entries[0], parse) + Candidates(entries[1..], parse)
  }

  lemma {:induction false} CandidatesAppend(a: seq<Entry>, b: seq<Entry>, parse: string -> Option<string>)
    ensures Candidates(a + b, parse) == Candidates(a, parse) + Candidates(b, parse)
  {
    if a == [] {
      assert a + b == b;
    } else {
      assert (a + b)[1..] == a[1..] + b;
      CandidatesAppend(a[1..], b, parse);
    }
  }

  /** An entry that yields the visit `v`: it parses to `v`'s address and
      carries `v`'s title and visit time. */
  predicate Yields(e: Entry, v: Visit, parse: string -> Option<string>)
  {
    parse(e.url) == Some(v.url) && v.title == e.title && v.lastVisitTime == e.lastVisitTime
  }

  /** Every candidate is a content page yielded by one of the entries. */
  lemma {:induction false} CandidateSource(entries: seq<Entry>, parse: string -> Option<string>, k: nat)
    requires k < |Candidates(entries, parse)|
    ensures !IsNonContent(Candidates(entries, parse)[k].url)
    ensures exists j :: 0 <= j < |entries| && Yields(entries[j], Candidates(entries, parse)[k], parse)
  {
    var first := Candidate(entries[0], parse);
    var v := Candidates(entries, parse)[k];
    if k < |first| {
      assert v == first[0];
      assert Yields(entries[0], v, parse);
    } else {
      assert v == Candidates(entries[1..], parse)[k - |first|];
      CandidateSource(entries[1..], parse, k - |first|);
      var j :| 0 <= j < |entries[1..]| && Yields(entries[1..][j], v, parse);
      assert Yields(entries[j + 1], v, parse);
    }
  }

  /** The addresses of some visits. */
  function UrlsOf(vs: seq<Visit>): set<string>
  {
    set i | 0 <= i < |vs| :: vs[i].url
  }

  /** The `seenUrls` pass: a visit is kept when no earlier kept visit has its
      address. */
  function DedupFirst(vs: seq<Visit>): seq<Visit>
  {
    if vs == [] then []
    else
      var kept := DedupFirst(vs[..|vs| - 1]);
      if vs[|vs| - 1].url in UrlsOf(kept) then kept else kept + [vs[|vs| - 1]]
  }

  /** No two visits share an address. */
  predicate UniqueUrls(vs: seq<Visit>)
  {
    forall i, j :: 0 <= i < j < |vs| ==> vs[i].url != vs[j].url
  }

  /** No visit before position `j` has the address of `vs[j]`. */
  predicate IsFirstOccurrence(vs: seq<Visit>, j: int)
    requires 0 <= j < |vs|
  {
    forall i :: 0 <= i < j ==> vs[i].url != vs[j].url
  }

  /** The visits of `vs[..n]` that are first occurrences of their address,
      in order: the declarative reading of deduplication. */
  function FirstOccurrences(vs: seq<Visit>, n: nat): seq<Visit>
    requires n <= |vs|
  {
    if n == 0 then []
    else FirstOccurrences(vs, n - 1) + (if IsFirstOccurrence(vs, n - 1) then [vs[n - 1]] else [])
  }

  /** Deduplication loses no address and keeps no address twice. */
  lemma {:induction false} DedupUrlsUnique(vs: seq<Visit>)
    ensures UrlsOf(DedupFirst(vs)) == UrlsOf(vs)
    ensures UniqueUrls(DedupFirst(vs))
    decreases |vs|
  {
    if vs != [] {
      var init := vs[..|vs| - 1];
      var last := vs[|vs| - 1];
      DedupUrlsUnique(init);
      assert vs == init + [last];
      UrlsOfSnoc(init, last);
      var kept := DedupFirst(init);
      if last.url !in UrlsOf(kept) {
        UrlsOfSnoc(kept, last);
        UniqueSnoc(kept, last);
      }
    }
  }

  /** Appending a visit with a new address keeps addresses unique. */
  lemma UniqueSnoc(vs: seq<Visit>, v: Visit)
    requires UniqueUrls(vs) && v.url !in UrlsOf(vs)
    ensures UniqueUrls(vs + [v])
  {
    var r := vs + [v];
    forall i, j | 0 <= i < j < |r| ensures r[i].url != r[j].url {
      assert r[i] == vs[i];
      if j < |vs| {
        assert r[j] == vs[j];
      } else {
        assert vs[i].url in UrlsOf(vs);
      }
    }
  }

  /** Deduplication keeps exactly the first occurrence of every address, in
      input order. */
  lemma {:induction false} DedupKeepsFirstOccurrences(vs: seq<Visit>, n: nat)
    requires n <= |vs|
    ensures DedupFirst(vs[..n]) == FirstOccurrences(vs, n)
  {
    if n > 0 {
      DedupKeepsFirstOccurrences(vs, n - 1);
      var init := vs[..n][..n - 1];
      assert init == vs[..n - 1];
      DedupUrlsUnique(init);
      var x := vs[n - 1];
      assert vs[..n][n - 1] == x;
      assert x.url in UrlsOf(init) <==> !IsFirstOccurrence(vs, n - 1) by {
        if x.url in UrlsOf(init) {
          var i :| 0 <= i < |init| && init[i].url == x.url;
          assert vs[i].url == x.url;
        }
        if !IsFirstOccurrence(vs, n - 1) {
          var i :| 0 <= i < n - 1 && vs[i].url == x.url;
          assert init[i] == vs[i];
        }
      }
    }
  }

  /** At most `n` leading elements (`Array.prototype.slice(0, n)`). */
  function Take<T>(xs: seq<T>, n: nat): (r: seq<T>)
    ensures |r| <= n && |r| <= |xs|
    ensures r <= xs
    ensures |xs| <= n ==> r == xs
    ensures |xs| >= n ==> |r| == n
  {
    if |xs| <= n then xs else xs[..n]
  }

  // ---------------------------------------------------------------------
  // Display titles
  // ---------------------------------------------------------------------

  /** `item.title || 'タイトルなし'`: a missing or empty title reads as
      untitled. */
  function RawTitle(title: Option<string>): (r: string)
    ensures r != ""
    ensures title.Some? && title.value != "" ==> r == title.value
    ensures title.None? || title == Some("") ==> r == Untitled
  {
    match title
    case Some(t) => if t == "" then Untitled else t
    case None => Untitled
  }

  /** The title with the three service suffixes removed in turn, then
      trimmed. */
  function CleanTitle(title: Option<string>): (r: string)
    ensures r == [] || (!IsJsWhitespace(r[0]) && !IsJsWhitespace(r[|r| - 1]))
    ensures exists a :: OccursAt(RawTitle(title), r, a)
  {
    var t := RawTitle(title);
    var s := StripSuffixes(t);
    var r := Trim(s);
    var a :| IsTrimmedSlice(s, a, r);
    SliceOfPrefix(t, s, a, r);
    r
  }

  /** The three suffix removals, in order. */
  function StripSuffixes(t: string): (r: string)
    ensures |r| <= |t| && r == t[..|r|]
  {
    StripSuffix(StripSuffix(StripSuffix(t, TitleSuffixes[0]), TitleSuffixes[1]), TitleSuffixes[2])
  }

  /** A slice of a prefix of `t` is a slice of `t`. */
  lemma SliceOfPrefix(t: string, s: string, a: int, r: string)
    requires |s| <= |t| && s == t[..|s|]
    requires OccursAt(s, r, a)
    ensures OccursAt(t, r, a)
  {
  }

  /** A title ending in `- ChatGPT` loses it, and the remaining two patterns
      still apply to what is left. */
  lemma ChatGptSuffixRemoved(x: string)
    ensures CleanTitle(Some(x + "- ChatGPT")) == Trim(StripSuffix(StripSuffix(x, TitleSuffixes[1]), TitleSuffixes[2]))
  {
    var t := x + "- ChatGPT";
    assert t[|t| - |TitleSuffixes[0]|..] == TitleSuffixes[0];
    assert StripSuffix(t, TitleSuffixes[0]) == x;
  }

  /** A title ending in `Claude` loses the word (a preceding ` - ` stays),
      and the ` - Gemini` pattern still applies to what is left. */
  lemma ClaudeSuffixRemoved(x: string)
    ensures CleanTitle(Some(x + "Claude")) == Trim(StripSuffix(x, TitleSuffixes[2]))
  {
    var t := x + "Claude";
    NotEndsWithByLast(t, TitleSuffixes[0]);
    assert t[|t| - |TitleSuffixes[1]|..] == TitleSuffixes[1];
    assert StripSuffix(t, TitleSuffixes[1]) == x;
  }

  /** A title ending in ` - Gemini` is shown as what precedes it, trimmed. */
  lemma GeminiSuffixRemoved(x: string)
    ensures CleanTitle(Some(x + " - Gemini")) == Trim(x)
  {
    var t := x + " - Gemini";
    NotEndsWithByLast(t, TitleSuffixes[0]);
    NotEndsWithByLast(t, TitleSuffixes[1]);
    assert t[|t| - |TitleSuffixes[2]|..] == TitleSuffixes[2];
    assert StripSuffix(t, TitleSuffixes[2]) == x;
  }

  /** A title with none of the suffixes is only trimmed. */
  lemma UnsuffixedTitleIsTrimmed(t: string)
    requires t != ""
    requires forall i :: 0 <= i < |TitleSuffixes| ==> !EndsWith(t, TitleSuffixes[i])
    ensures CleanTitle(Some(t)) == Trim(t)
  {
    assert !EndsWith(t, TitleSuffixes[0]) && !EndsWith(t, TitleSuffixes[1]) && !EndsWith(t, TitleSuffixes[2]);
  }

  /** A title with none of the suffixes and no white space at either end is
      shown as it is. */
  lemma CleanTitleFixpoint(t: string)
    requires t != "" && !IsJsWhitespace(t[0]) && !IsJsWhitespace(t[|t| - 1])
    requires forall i :: 0 <= i < |TitleSuffixes| ==> !EndsWith(t, TitleSuffixes[i])
    ensures CleanTitle(Some(t)) == t
  {
    UnsuffixedTitleIsTrimmed(t);
    assert IsTrimmedSlice(t, 0, t);
    TrimIsUnique(t, 0, t);
  }

  /** A title cut to 35 characters plus an ellipsis when it is longer. */
  function Truncate(t: string): (r: string)
    ensures |r| <= MaxTitleLength + |Ellipsis|
    ensures |t| <= MaxTitleLength ==> r == t
    ensures |t| > MaxTitleLength ==>
              |r| == MaxTitleLength + |Ellipsis| && r[..MaxTitleLength] == t[..MaxTitleLength]
              && r[MaxTitleLength..] == Ellipsis
  {
    if |t| > MaxTitleLength then t[..MaxTitleLength] + Ellipsis else t
  }

  /** The title a row displays: cleaned, then truncated. */
  function DisplayTitle(title: Option<string>): (r: string)
    ensures |r| <= MaxTitleLength + |Ellipsis|
    ensures |CleanTitle(title)| <= MaxTitleLength ==> r == CleanTitle(title)
    ensures |CleanTitle(title)| > MaxTitleLength ==> r == CleanTitle(title)[..MaxTitleLength] + Ellipsis
  {
    Truncate(CleanTitle(title))
  }

  /** The row rendered for a kept visit. */
  function Render(v: Visit): Item
  {
    Item(v.url, DisplayTitle(v.title), v.lastVisitTime)
  }

  function RenderAll(vs: seq<Visit>): (r: seq<Item>)
    ensures |r| == |vs|
    ensures forall k :: 0 <= k < |vs| ==> r[k] == Render(vs[k])
  {
    seq(|vs|, k requires 0 <= k < |vs| => Render(vs[k]))
  }

  // ---------------------------------------------------------------------
  // The per-service pipeline
  // ---------------------------------------------------------------------

  /** The deduplicated, truncated visits of one service. */
  function ServiceVisits(history: seq<Entry>, svc: Service, parse: string -> Option<string>): seq<Visit>
  {
    Take(DedupFirst(Candidates(ServiceHistory(history, svc), parse)), MaxItems)
  }

  /** The rows of one service's panel. */
  function ClassifyService(history: seq<Entry>, svc: Service, parse: string -> Option<string>): seq<Item>
  {
    RenderAll(ServiceVisits(history, svc, parse))
  }

  lemma CandidatesSnoc(entries: seq<Entry>, n: nat, parse: string -> Option<string>)
    requires n < |entries|
    ensures Candidates(entries[..n + 1], parse) == Candidates(entries[..n], parse) + Candidate(entries[n], parse)
  {
    assert entries[..n + 1] == entries[..n] + [entries[n]];
    CandidatesAppend(entries[..n], [entries[n]], parse);
    assert Candidates([entries[n]], parse) == Candidate(entries[n], parse);
  }

  lemma UrlsOfSnoc(vs: seq<Visit>, v: Visit)
    ensures UrlsOf(vs + [v]) == UrlsOf(vs) + {v.url}
  {
    var r := vs + [v];
    forall u | u in UrlsOf(r) ensures u in UrlsOf(vs) + {v.url} {
      var i :| 0 <= i < |r| && r[i].url == u;
      if i < |vs| { assert r[i] == vs[i]; }
    }
    forall u | u in UrlsOf(vs) ensures u in UrlsOf(r) {
      var i :| 0 <= i < |vs| && vs[i].url == u;
      assert r[i] == vs[i];
    }
    assert r[|vs|] == v;
  }

  lemma DedupSnoc(vs: seq<Visit>, v: Visit)
    ensures DedupFirst(vs + [v]) ==
            if v.url in UrlsOf(DedupFirst(vs)) then DedupFirst(vs) else DedupFirst(vs) + [v]
  {
    assert (vs + [v])[..|vs + [v]| - 1] == vs;
  }

  /** The loop of the page over one service: filter by domain, parse, skip
      non-content pages, skip addresses already seen, keep thirty, render. */
  method ClassifyServiceLoop(history: seq<Entry>, svc: Service, parse: string -> Option<string>)
    returns (items: seq<Item>)
    ensures items == ClassifyService(history, svc, parse)
    ensures |items| <= MaxItems
    ensures forall i, j :: 0 <= i < j < |items| ==> items[i].url != items[j].url
  {
    var serviceHistory := ServiceHistory(history, svc);
    var unique: seq<Visit> := [];
    var seenUrls: set<string> := {};
    for n := 0 to |serviceHistory|
      invariant unique == DedupFirst(Candidates(serviceHistory[..n], parse))
      invariant seenUrls == UrlsOf(unique)
    {
      var item := serviceHistory[n];
      var before := Candidates(serviceHistory[..n], parse);
      CandidatesSnoc(serviceHistory, n, parse);
      match parse(item.url) {
        case None =>
          assert before + [] == before;
        case Some(baseUrl) =>
          if IsNonContent(baseUrl) {
            assert before + [] == before;
          } else {
            var v := Visit(baseUrl, item.title, item.lastVisitTime);
            DedupSnoc(before, v);
            if baseUrl !in seenUrls {
              seenUrls := seenUrls + {baseUrl};
              UrlsOfSnoc(unique, v);
              unique := unique + [v];
            }
          }
      }
    }
    assert serviceHistory[..|serviceHistory|] == serviceHistory;
    var recentHistory := Take(unique, MaxItems);
    items := RenderAll(recentHistory);
    ClassifyServiceUnique(history, svc, parse);
  }

  /** One service's panel has at most thirty rows and no address twice. */
  lemma ClassifyServiceUnique(history: seq<Entry>, svc: Service, parse: string -> Option<string>)
    ensures |ClassifyService(history, svc, parse)| <= MaxItems
    ensures forall i, j :: 0 <= i < j < |ClassifyService(history, svc, parse)| ==>
              ClassifyService(history, svc, parse)[i].url != ClassifyService(history, svc, parse)[j].url
  {
    var all := DedupFirst(Candidates(ServiceHistory(history, svc), parse));
    DedupUrlsUnique(Candidates(ServiceHistory(history, svc), parse));
    var kept := Take(all, MaxItems);
    assert forall i :: 0 <= i < |kept| ==> kept[i] == all[i];
  }

  /** Every element deduplication keeps is one of its inputs. */
  lemma {:induction false} DedupSubset(vs: seq<Visit>)
    ensures forall v :: v in DedupFirst(vs) ==> v in vs
    decreases |vs|
  {
    if vs != [] {
      DedupSubset(vs[..|vs| - 1]);
      assert forall v :: v in vs[..|vs| - 1] ==> v in vs;
    }
  }

  /** Every kept visit of a service is a content page yielded by an entry of
      the history that belongs to the service. */
  lemma ServiceVisitSource(history: seq<Entry>, svc: Service, parse: string -> Option<string>, k: nat)
    requires k < |ServiceVisits(history, svc, parse)|
    ensures !IsNonContent(ServiceVisits(history, svc, parse)[k].url)
    ensures exists j :: 0 <= j < |history| && MatchesService(history[j], svc)
                        && Yields(history[j], ServiceVisits(history, svc, parse)[k], parse)
  {
    var sh := ServiceHistory(history, svc);
    var cands := Candidates(sh, parse);
    var all := DedupFirst(cands);
    var v := ServiceVisits(history, svc, parse)[k];
    assert v == all[k];
    DedupSubset(cands);
    assert v in cands;
    var c :| 0 <= c < |cands| && cands[c] == v;
    CandidateSource(sh, parse, c);
    var j :| 0 <= j < |sh| && Yields(sh[j], v, parse);
    assert sh[j] in history && MatchesService(sh[j], svc);
    var h :| 0 <= h < |history| && history[h] == sh[j];
  }

  /** Every row of a service's panel comes from an entry of the history whose
      raw URL contains one of the service's domains and parses to the row's
      address, which is not a non-content page; the row carries that entry's
      visit time and its display title. */
  lemma ClassifyServiceProvenance(history: seq<Entry>, svc: Service, parse: string -> Option<string>, k: nat)
    requires k < |ClassifyService(history, svc, parse)|
    ensures !IsNonContent(ClassifyService(history, svc, parse)[k].url)
    ensures exists j :: 0 <= j < |history| && MatchesService(history[j], svc)
              && parse(history[j].url) == Some(ClassifyService(history, svc, parse)[k].url)
              && ClassifyService(history, svc, parse)[k].title == DisplayTitle(history[j].title)
              && ClassifyService(history, svc, parse)[k].lastVisitTime == history[j].lastVisitTime
  {
    var vs := ServiceVisits(history, svc, parse);
    ServiceVisitSource(history, svc, parse, k);
    var j :| 0 <= j < |history| && MatchesService(history[j], svc) && Yields(history[j], vs[k], parse);
    assert ClassifyService(history, svc, parse)[k] == Render(vs[k]);
  }

  /** The rows are the first occurrences of their addresses among the
      service's candidates, in history order, cut to thirty. Nothing is
      re-sorted by visit time. */
  lemma ClassifyServiceFirstOccurrences(history: seq<Entry>, svc: Service, parse: string -> Option<string>)
    ensures ClassifyService(history, svc, parse) ==
            RenderAll(Take(FirstOccurrences(Candidates(ServiceHistory(history, svc), parse),
                                            |Candidates(ServiceHistory(history, svc), parse)|), MaxItems))
  {
    var cands := Candidates(ServiceHistory(history, svc), parse);
    DedupKeepsFirstOccurrences(cands, |cands|);
    assert cands[..|cands|] == cands;
  }

  /** A panel with room to spare shows every address the service's history
      yields. */
  lemma ClassifyServiceComplete(history: seq<Entry>, svc: Service, parse: string -> Option<string>, v: Visit)
    requires v in Candidates(ServiceHistory(history, svc), parse)
    requires |ClassifyService(history, svc, parse)| < MaxItems
    ensures exists k :: 0 <= k < |ClassifyService(history, svc, parse)|
                        && ClassifyService(history, svc, parse)[k].url == v.url
  {
    var cands := Candidates(ServiceHistory(history, svc), parse);
    DedupUrlsUnique(cands);
    var all := DedupFirst(cands);
    var i :| 0 <= i < |cands| && cands[i] == v;
    assert v.url in UrlsOf(cands);
    assert v.url in UrlsOf(all);
    var k :| 0 <= k < |all| && all[k].url == v.url;
    assert Take(all, MaxItems) == all;
  }

  lemma ServiceHistoryAppend(a: seq<Entry>, b: seq<Entry>, svc: Service)
    ensures ServiceHistory(a + b, svc) == ServiceHistory(a, svc) + ServiceHistory(b, svc)
  {
    FilterAppend(e => MatchesService(e, svc), a, b);
  }

  /** What an entry contributes to a service's candidates: nothing when it is
      dropped. */
  lemma DroppedEntryContributesNothing(e: Entry, svc: Service, parse: string -> Option<string>)
    requires !MatchesService(e, svc) || parse(e.url).None? || IsNonContent(parse(e.url).value)
    ensures Candidates(ServiceHistory([e], svc), parse) == []
  {
    if MatchesService(e, svc) {
      assert ServiceHistory([e], svc) == [e];
      assert Candidates([e], parse) == Candidate(e, parse);
    } else {
      assert ServiceHistory([e], svc) == [];
    }
  }

  /** An entry that does not belong to the service, whose URL does not parse,
      or that is a non-content page leaves the panel exactly as if it were
      absent: it is dropped and the entries after it are still processed. */
  lemma DroppedEntryIsIgnored(a: seq<Entry>, e: Entry, b: seq<Entry>, svc: Service, parse: string -> Option<string>)
    requires !MatchesService(e, svc) || parse(e.url).None? || IsNonContent(parse(e.url).value)
    ensures ClassifyService(a + [e] + b, svc, parse) == ClassifyService(a + b, svc, parse)
  {
    ServiceHistoryAppend(a + [e], b, svc);
    ServiceHistoryAppend(a, [e], svc);
    ServiceHistoryAppend(a, b, svc);
    var sa, se, sb := ServiceHistory(a, svc), ServiceHistory([e], svc), ServiceHistory(b, svc);
    CandidatesAppend(sa + se, sb, parse);
    CandidatesAppend(sa, se, parse);
    CandidatesAppend(sa, sb, parse);
    DroppedEntryContributesNothing(e, svc, parse);
    assert Candidates(sa, parse) + [] == Candidates(sa, parse);
  }

  // ---------------------------------------------------------------------
  // All panels
  // ---------------------------------------------------------------------

  /** What a service's panel shows: its rows (none reads as "no history"),
      or the load-error message when the history could not be read. */
  datatype Panel = Rows(items: seq<Item>) | LoadError

  /** The whole history pass over the three services. `history` is `None`
      when reading the history log failed. */
  function ClassifyAll(history: Option<seq<Entry>>, parse: string -> Option<string>): (r: seq<Panel>)
    ensures |r| == |AiServices|
    ensures history.None? <==> forall i :: 0 <= i < |r| ==> r[i] == LoadError
    ensures history.Some? ==> forall i :: 0 <= i < |r| ==> r[i].Rows? && |r[i].items| <= MaxItems
    ensures history.Some? ==> forall i :: 0 <= i < |r| ==> r[i].items == ClassifyService(history.value, AiServices[i], parse)
  {
    match history
    case None => seq(|AiServices|, i => LoadError)
    case Some(h) =>
      var r := seq(|AiServices|, i requires 0 <= i < |AiServices| =>
        ClassifyServiceUnique(h, AiServices[i], parse);
        Rows(ClassifyService(h, AiServices[i], parse)));
      assert r[0].Rows?;
      r
  }
}
