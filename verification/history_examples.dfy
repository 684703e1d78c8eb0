/** Worked examples of the AI-history panel, on concrete entries. */
module HistoryExamples {
  import opened Wrappers
  import opened Seqs
  import opened Text
  import opened Urls
  import opened History

  const Scheme := "https"
  const ChatGptHost := "chatgpt.com"
  const ConversationPath := "/c/1"
  const LoginPath := "/login"

  /** `https://chatgpt.com/c/1` */
  const Conversation := Scheme + "://" + ChatGptHost + ConversationPath
  /** `https://chatgpt.com/login` */
  const Login := Scheme + "://" + ChatGptHost + LoginPath

  lemma HostHasNoDelimiters()
    ensures forall k :: 0 <= k < |ChatGptHost| ==> !IsSlash(ChatGptHost[k]) && !IsQueryOrFragmentStart(ChatGptHost[k])
  {
  }

  lemma ConversationWithQueryParses()
    ensures Canonical(Conversation + "?x=2") == Some(Conversation)
  {
    HostHasNoDelimiters();
    assert IsScheme(Scheme);
    QueryAndFragmentDropped(Scheme, ChatGptHost, ConversationPath, "?x=2");
  }

  lemma ConversationParses()
    ensures Canonical(Conversation) == Some(Conversation)
  {
    HostHasNoDelimiters();
    assert IsScheme(Scheme);
    QueryAndFragmentDropped(Scheme, ChatGptHost, ConversationPath, "");
    assert Conversation + "" == Conversation;
  }

  lemma LoginParses()
    ensures Canonical(Login) == Some(Login)
  {
    HostHasNoDelimiters();
    assert IsScheme(Scheme);
    QueryAndFragmentDropped(Scheme, ChatGptHost, LoginPath, "");
    assert Login + "" == Login;
  }

  lemma ConversationMatchesChatGpt(e: Entry, tail: string)
    requires e.url == Conversation + tail
    ensures MatchesService(e, AiServices[0])
  {
    var u := e.url;
    assert u == (Scheme + "://") + ChatGptHost + (ConversationPath + tail);
    assert u[8..19] == ChatGptHost;
    OccursContains(u, AiServices[0].domains[0], 8);
  }

  lemma LoginMatchesChatGpt(e: Entry)
    requires e.url == Login
    ensures MatchesService(e, AiServices[0])
  {
    assert Login == (Scheme + "://") + ChatGptHost + LoginPath;
    assert Login[8..19] == ChatGptHost;
    OccursContains(Login, AiServices[0].domains[0], 8);
  }

  lemma LoginIsNonContent()
    ensures IsNonContent(Login)
  {
    assert Login == (Scheme + "://" + ChatGptHost) + LoginPath;
    assert Login[19..25] == NonContentMarkers[0];
    OccursContains(Login, NonContentMarkers[0], 19);
  }

  lemma ConversationSpelled()
    ensures Conversation == "https://chatgpt.com/c/1"
  {
  }

  lemma ConversationAvoidsMarker(i: nat)
    requires i < |NonContentMarkers|
    ensures !Contains(Conversation, NonContentMarkers[i])
  {
    ConversationSpelled();
    var c := "https://chatgpt.com/c/1";
    assert forall k :: 0 <= k < |c| - 1 && c[k] == '/' ==> c[k + 1] == '/' || c[k + 1] == 'c' || c[k + 1] == '1';
    NotContainsByPairs(c, NonContentMarkers[i]);
  }

  lemma ConversationIsContent()
    ensures !IsNonContent(Conversation)
  {
    ConversationSpelled();
    NotEndsWithByLast(Conversation, "/");
    ConversationAvoidsMarker(0);
    ConversationAvoidsMarker(1);
    ConversationAvoidsMarker(2);
    ConversationAvoidsMarker(3);
  }

  // Titles

  /** A title is displayed as `r` when the three suffix removals give
      `stripped` and `r` is `stripped` without trailing white space. */
  lemma DisplayedAs(t: string, stripped: string, r: string)
    requires t != ""
    requires StripSuffix(StripSuffix(StripSuffix(t, TitleSuffixes[0]), TitleSuffixes[1]), TitleSuffixes[2]) == stripped
    requires IsTrimmedSlice(stripped, 0, r) && r != [] && !IsJsWhitespace(r[0]) && !IsJsWhitespace(r[|r| - 1])
    requires |r| <= MaxTitleLength
    ensures DisplayTitle(Some(t)) == r
  {
    TrimIsUnique(stripped, 0, r);
  }

  /** "Trip plan - ChatGPT" is shown as "Trip plan". */
  lemma ChatGptSuffixStripped()
    ensures DisplayTitle(Some("Trip plan - ChatGPT")) == "Trip plan"
  {
    var t := "Trip plan - ChatGPT";
    var s1 := "Trip plan ";
    assert StripSuffix(t, TitleSuffixes[0]) == s1 by {
      assert t == s1 + TitleSuffixes[0];
    }
    assert StripSuffix(s1, TitleSuffixes[1]) == s1 by {
      NotEndsWithByLast(s1, TitleSuffixes[1]);
    }
    assert StripSuffix(s1, TitleSuffixes[2]) == s1 by {
      NotEndsWithByLast(s1, TitleSuffixes[2]);
    }
    DisplayedAs(t, s1, "Trip plan");
  }

  /** "Trip plan - Gemini" is shown as "Trip plan". */
  lemma GeminiSuffixStripped()
    ensures DisplayTitle(Some("Trip plan - Gemini")) == "Trip plan"
  {
    var t := "Trip plan - Gemini";
    assert StripSuffix(t, TitleSuffixes[0]) == t by {
      NotEndsWithByLast(t, TitleSuffixes[0]);
    }
    assert StripSuffix(t, TitleSuffixes[1]) == t by {
      NotEndsWithByLast(t, TitleSuffixes[1]);
    }
    assert StripSuffix(t, TitleSuffixes[2]) == "Trip plan" by {
      assert t == "Trip plan" + TitleSuffixes[2];
    }
    DisplayedAs(t, "Trip plan", "Trip plan");
  }

  /** The second pattern removes only the word, so "Trip plan - Claude" is
      shown as "Trip plan -", with the dash left in place. */
  lemma ClaudeSuffixLeavesDash()
    ensures DisplayTitle(Some("Trip plan - Claude")) == "Trip plan -"
  {
    var t := "Trip plan - Claude";
    var s1 := "Trip plan - ";
    assert StripSuffix(t, TitleSuffixes[0]) == t by {
      NotEndsWithByLast(t, TitleSuffixes[0]);
    }
    assert StripSuffix(t, TitleSuffixes[1]) == s1 by {
      assert t == s1 + TitleSuffixes[1];
    }
    assert StripSuffix(s1, TitleSuffixes[2]) == s1 by {
      NotEndsWithByLast(s1, TitleSuffixes[2]);
    }
    DisplayedAs(t, s1, "Trip plan -");
  }

  lemma UntitledIsClean()
    ensures Trim(StripSuffix(StripSuffix(StripSuffix(Untitled, TitleSuffixes[0]), TitleSuffixes[1]), TitleSuffixes[2])) == Untitled
  {
    NotEndsWithByLast(Untitled, TitleSuffixes[0]);
    NotEndsWithByLast(Untitled, TitleSuffixes[1]);
    NotEndsWithByLast(Untitled, TitleSuffixes[2]);
    assert IsTrimmedSlice(Untitled, 0, Untitled);
    TrimIsUnique(Untitled, 0, Untitled);
  }

  lemma CleanUntitled(title: Option<string>)
    requires title.None? || title == Some("")
    ensures CleanTitle(title) == Untitled
  {
    UntitledIsClean();
    assert RawTitle(title) == Untitled;
  }

  /** A missing or empty title is shown as untitled. */
  lemma MissingTitleIsUntitled(title: Option<string>)
    requires title.None? || title == Some("")
    ensures DisplayTitle(title) == Untitled
  {
    CleanUntitled(title);
    assert |Untitled| <= MaxTitleLength;
  }

  // The three-entry history

  const Fresh := Entry(Conversation + "?x=2", Some("Trip plan - ChatGPT"), 3)
  const Stale := Entry(Conversation, Some("Old title"), 2)
  const SignIn := Entry(Login, None, 1)

  lemma BothKept(e1: Entry, e2: Entry, svc: Service)
    requires MatchesService(e1, svc) && MatchesService(e2, svc)
    ensures ServiceHistory([e1, e2], svc) == [e1, e2]
  {
    FilterKeepsPair(e => MatchesService(e, svc), e1, e2);
  }

  lemma TwoEntriesBelongToChatGpt()
    ensures ServiceHistory([Fresh, Stale], AiServices[0]) == [Fresh, Stale]
  {
    ConversationMatchesChatGpt(Fresh, "?x=2");
    ConversationMatchesChatGpt(Stale, "");
    BothKept(Fresh, Stale, AiServices[0]);
  }

  lemma FreshCandidate()
    ensures Candidate(Fresh, Canonical) == [Visit(Conversation, Fresh.title, 3)]
  {
    ConversationWithQueryParses();
    ConversationIsContent();
  }

  lemma StaleCandidate()
    ensures Candidate(Stale, Canonical) == [Visit(Conversation, Stale.title, 2)]
  {
    ConversationParses();
    ConversationIsContent();
  }

  lemma CandidatesOfTwo(e1: Entry, e2: Entry, parse: string -> Option<string>)
    ensures Candidates([e1, e2], parse) == Candidate(e1, parse) + Candidate(e2, parse)
  {
    assert [e1, e2][1..] == [e2];
    assert [e2][1..] == [];
    assert Candidates([e2], parse) == Candidate(e2, parse) + Candidates([], parse);
  }

  lemma TwoEntriesOneCandidateAddress()
    ensures Candidates([Fresh, Stale], Canonical) ==
            [Visit(Conversation, Fresh.title, 3), Visit(Conversation, Stale.title, 2)]
  {
    FreshCandidate();
    StaleCandidate();
    CandidatesOfTwo(Fresh, Stale, Canonical);
  }

  /** A dropped entry at the end of the history changes nothing. */
  lemma DroppedLast(a: seq<Entry>, e: Entry, svc: Service, parse: string -> Option<string>)
    requires !MatchesService(e, svc) || parse(e.url).None? || IsNonContent(parse(e.url).value)
    ensures ClassifyService(a + [e], svc, parse) == ClassifyService(a, svc, parse)
  {
    DroppedEntryIsIgnored(a, e, [], svc, parse);
    assert a + [e] + [] == a + [e];
    assert a + [] == a;
  }

  lemma SignInDropped()
    ensures ClassifyService([Fresh, Stale, SignIn], AiServices[0], Canonical)
            == ClassifyService([Fresh, Stale], AiServices[0], Canonical)
  {
    LoginParses();
    LoginIsNonContent();
    DroppedLast([Fresh, Stale], SignIn, AiServices[0], Canonical);
    assert [Fresh, Stale] + [SignIn] == [Fresh, Stale, SignIn];
  }

  lemma SecondVisitIsDuplicate(v1: Visit, v2: Visit)
    requires v1.url == v2.url
    ensures DedupFirst([v1, v2]) == [v1]
  {
    assert [v1, v2][..1] == [v1];
    assert [v1][..0] == [];
    assert UrlsOf([]) == {};
    assert DedupFirst([v1]) == [v1];
    assert [v1][0].url == v2.url;
    assert v2.url in UrlsOf([v1]);
  }

  lemma TwoEntriesOneVisit()
    ensures ServiceVisits([Fresh, Stale], AiServices[0], Canonical) == [Visit(Conversation, Fresh.title, 3)]
  {
    TwoEntriesBelongToChatGpt();
    TwoEntriesOneCandidateAddress();
    SecondVisitIsDuplicate(Visit(Conversation, Fresh.title, 3), Visit(Conversation, Stale.title, 2));
  }

  lemma RendersOne(v: Visit)
    ensures RenderAll(Take([v], MaxItems)) == [Item(v.url, DisplayTitle(v.title), v.lastVisitTime)]
  {
  }

  /** A query string does not make a second row, and a sign-in page makes
      none: the three entries `https://chatgpt.com/c/1?x=2`,
      `https://chatgpt.com/c/1` and `https://chatgpt.com/login` (newest first)
      yield the single row `https://chatgpt.com/c/1`, with the title and visit
      time of the newest entry. */
  lemma ChatGptScenario()
    ensures ClassifyService([Fresh, Stale, SignIn], AiServices[0], Canonical)
            == [Item(Conversation, "Trip plan", 3)]
  {
    SignInDropped();
    TwoEntriesOneVisit();
    RendersOne(Visit(Conversation, Fresh.title, 3));
    ChatGptSuffixStripped();
  }
}
