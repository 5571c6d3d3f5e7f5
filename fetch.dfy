/** `fetch_posts` and its one alternate strategy,
    `fallback_fetch_posts_via_default_browser`. The direct request is tried once;
    if it raises, the posts URL is opened in the default browser and the page
    text is copied through the clipboard. The network, the browser, the clipboard
    and `json.loads` are oracles. Neither path ever raises to its caller. */
module Fetch {
  import opened Wrappers
  import opened PyStrings

  /** A record of the posts endpoint. */
  datatype Post = Post(id: int, title: string, body: string)

  datatype Strategy = DirectRequest | BrowserClipboard

  /** Where the browser path raises, if anywhere: before its first clipboard
      read (clearing the clipboard, opening the browser, clicking, the
      select-all/copy hotkeys), during the re-copy before the second read, or
      while minimising the browser after a successful parse (the keyboard
      shortcut in the handler of the minimise step is itself unguarded). Every
      raise ends in the outer handler, which returns `[]`. A fault point the
      run does not reach has no effect. */
  datatype Fault = NoFault | BeforeFirstPaste | BeforeSecondPaste | WhileMinimising

  /** What the browser path observes: where it faults, and the text each
      clipboard read returns. */
  datatype BrowserObs = BrowserObs(fault: Fault, firstPaste: string, secondPaste: string)

  /** What the whole chain observes: the direct request's decoded list (`None`
      when the request, the status check or the decoding raises), the browser
      path, and `json.loads` (`None` when it raises). */
  datatype FetchObs = FetchObs(
    direct: Option<seq<Post>>,
    browser: BrowserObs,
    loads: string -> Option<seq<Post>>)

  /** The browser path's outcome: how many clipboard reads it made, the text it
      handed to `json.loads`, if any, and the posts it returned. */
  datatype BrowserRun = BrowserRun(pastes: nat, parsed: Option<string>, posts: seq<Post>)

  /** The chain's outcome: the strategies run, in order, and the posts returned. */
  datatype FetchRun = FetchRun(tried: seq<Strategy>, posts: seq<Post>)

  /** The clipboard acceptance test: the text, stripped, starts with `[`. */
  predicate LooksLikeJsonList(data: string) {
    var t := Strip(data);
    t != [] && t[0] == '['
  }

  /** The acceptance test in other words: a `[` preceded only by whitespace. */
  predicate BracketAfterBlanks(data: string) {
    exists k :: 0 <= k < |data| && data[k] == '[' && AllSpace(data[..k])
  }

  lemma {:induction false} LStripFindsBracket(s: string, k: nat)
    requires k < |s| && s[k] == '[' && AllSpace(s[..k])
    ensures LStrip(s) == s[k..]
    decreases k
  {
    if k > 0 {
      assert IsSpace(s[..k][0]);
      assert s[1..][..k - 1] == s[..k][1..];
      LStripFindsBracket(s[1..], k - 1);
    }
  }

  lemma AcceptedHasBracketAfterBlanks(data: string)
    requires LooksLikeJsonList(data)
    ensures BracketAfterBlanks(data)
  {
    var r := RStrip(data);
    var t := LStrip(r);
    var k := |r| - |t|;
    assert t == r[k..] && r == data[..|r|];
    assert data[k] == '[';
    assert data[..k] == r[..k];
  }

  lemma BracketAfterBlanksAccepted(data: string, k: nat)
    requires k < |data| && data[k] == '[' && AllSpace(data[..k])
    ensures LooksLikeJsonList(data)
  {
    var r := RStrip(data);
    // the `[` is not whitespace, so rstrip stops after it
    assert r[k] == '[' && r[..k] == data[..k];
    LStripFindsBracket(r, k);
  }

  lemma LooksLikeJsonListIff(data: string)
    ensures LooksLikeJsonList(data) <==> BracketAfterBlanks(data)
  {
    if LooksLikeJsonList(data) {
      AcceptedHasBracketAfterBlanks(data);
    }
    if BracketAfterBlanks(data) {
      var k :| 0 <= k < |data| && data[k] == '[' && AllSpace(data[..k]);
      BracketAfterBlanksAccepted(data, k);
    }
  }

  /** `fallback_fetch_posts_via_default_browser`. */
  function BrowserFetch(obs: BrowserObs, loads: string -> Option<seq<Post>>, maxPosts: nat): (r: BrowserRun)
    // a fault before the first read stops the path with nothing read
    ensures r.pastes == 0 <==> obs.fault == BeforeFirstPaste
    ensures obs.fault == BeforeFirstPaste ==> r.parsed.None? && r.posts == []
    // accepted first text: no re-copy, and that text is parsed
    ensures obs.fault != BeforeFirstPaste && LooksLikeJsonList(obs.firstPaste) ==>
      r.pastes == 1 && r.parsed == Some(obs.firstPaste)
    // rejected first text: a fault in the re-copy gives [], otherwise the
    // second text is read and parsed iff it is accepted
    ensures obs.fault == BeforeSecondPaste && !LooksLikeJsonList(obs.firstPaste) ==>
      r.pastes == 1 && r.parsed.None? && r.posts == []
    ensures obs.fault != BeforeFirstPaste && obs.fault != BeforeSecondPaste && !LooksLikeJsonList(obs.firstPaste) ==>
      r.pastes == 2 && (r.parsed.Some? <==> LooksLikeJsonList(obs.secondPaste))
      && (r.parsed.Some? ==> r.parsed.value == obs.secondPaste)
    // text never accepted gives []
    ensures r.parsed.None? ==> r.posts == []
    // a parsed list is truncated to maxPosts, unless the parse raised or
    // minimising the browser afterwards raised, which gives []
    ensures r.parsed.Some? ==>
      r.posts == if loads(r.parsed.value).Some? && obs.fault != WhileMinimising
                 then Take(loads(r.parsed.value).value, maxPosts) else []
    ensures |r.posts| <= maxPosts
  {
    Browse(obs, LooksLikeJsonList(obs.firstPaste), LooksLikeJsonList(obs.secondPaste), loads, maxPosts)
  }

  /** The browser path's branching, given whether each clipboard text passes
      the acceptance test. `BrowserFetch` is this applied to the two
      acceptance results; its contract is this one with `firstOk` and
      `secondOk` spelled out, and adds nothing new. */
  function Browse(obs: BrowserObs, firstOk: bool, secondOk: bool, loads: string -> Option<seq<Post>>, maxPosts: nat): (r: BrowserRun)
    ensures r.pastes == 0 <==> obs.fault == BeforeFirstPaste
    ensures obs.fault == BeforeFirstPaste ==> r.parsed.None? && r.posts == []
    ensures obs.fault != BeforeFirstPaste && firstOk ==> r.pastes == 1 && r.parsed == Some(obs.firstPaste)
    ensures obs.fault == BeforeSecondPaste && !firstOk ==> r.pastes == 1 && r.parsed.None? && r.posts == []
    ensures obs.fault != BeforeFirstPaste && obs.fault != BeforeSecondPaste && !firstOk ==>
      r.pastes == 2 && (r.parsed.Some? <==> secondOk) && (r.parsed.Some? ==> r.parsed.value == obs.secondPaste)
    ensures r.parsed.None? ==> r.posts == []
    ensures r.parsed.Some? ==>
      r.posts == if loads(r.parsed.value).Some? && obs.fault != WhileMinimising
                 then Take(loads(r.parsed.value).value, maxPosts) else []
    ensures |r.posts| <= maxPosts
  {
    if obs.fault == BeforeFirstPaste then BrowserRun(0, None, [])
    else if firstOk then
      Parse(1, obs.firstPaste, loads, obs.fault == WhileMinimising, maxPosts)
    else if obs.fault == BeforeSecondPaste then BrowserRun(1, None, [])
    else if secondOk then
      Parse(2, obs.secondPaste, loads, obs.fault == WhileMinimising, maxPosts)
    else BrowserRun(2, None, [])
  }

  /** Parsing accepted clipboard text, then minimising the browser; a parse
      error or a raise while minimising is caught and gives []. */
  function Parse(pastes: nat, data: string, loads: string -> Option<seq<Post>>, minimiseRaises: bool, maxPosts: nat): BrowserRun {
    match loads(data)
    case None => BrowserRun(pastes, Some(data), [])
    case Some(posts) =>
      if minimiseRaises then BrowserRun(pastes, Some(data), [])
      else BrowserRun(pastes, Some(data), Take(posts, maxPosts))
  }

  /** `fetch_posts`: the direct request, then the browser path only if it raised. */
  function FetchPosts(obs: FetchObs, maxPosts: nat): (r: FetchRun)
    ensures |r.posts| <= maxPosts
    ensures r.tried == if obs.direct.Some? then [DirectRequest] else [DirectRequest, BrowserClipboard]
    ensures obs.direct.Some? ==> r.posts == Take(obs.direct.value, maxPosts)
    ensures obs.direct.None? ==> r.posts == BrowserFetch(obs.browser, obs.loads, maxPosts).posts
  {
    match obs.direct
    case Some(posts) => FetchRun([DirectRequest], Take(posts, maxPosts))
    case None =>
      var posts := BrowserFetch(obs.browser, obs.loads, maxPosts).posts;
      if posts != [] then FetchRun([DirectRequest, BrowserClipboard], posts)
      else FetchRun([DirectRequest, BrowserClipboard], [])
  }

  /** The chain comes back empty only when the direct request delivered an empty
      list, or it raised and the browser path produced nothing. */
  lemma EmptyOnlyWhenExhausted(obs: FetchObs, maxPosts: nat)
    requires maxPosts > 0
    ensures FetchPosts(obs, maxPosts).posts == [] <==>
      (obs.direct == Some([])) ||
      (obs.direct.None? && BrowserFetch(obs.browser, obs.loads, maxPosts).posts == [])
  {
    if obs.direct.Some? && obs.direct.value != [] {
      assert |Take(obs.direct.value, maxPosts)| > 0;
    }
  }
}
