/** The main block: fetch the posts once; stop with exit status 1 if there are
    none; otherwise, for each post in order, bring the editor up and, if that
    worked, type and save the post, skipping the post if it did not. */
module TaskDriver {
  import opened Wrappers
  import opened Fetch
  import PostOutput
  import OpenTarget

  /** The processing settings `MAX_POSTS` and `RETRY_ATTEMPTS`. */
  datatype Config = Config(maxPosts: nat, retryAttempts: nat)

  /** The values the configuration ships with. */
  const Shipped: Config := Config(1, 3)

  /** A saved post: the file name given to the save dialog and the keys typed. */
  datatype Saved = Saved(fileName: string, keys: string)

  /** What happened to one post: the steps taken to bring the editor up, and
      the save, if the editor came up. */
  datatype ItemLog = ItemLog(id: int, steps: seq<OpenTarget.Step>, saved: Option<Saved>)

  /** The expected outcome for one post. */
  function ItemOutcome(p: Post, obs: OpenTarget.ItemObs): ItemLog {
    ItemLog(
      p.id,
      OpenTarget.OpenTrace(obs),
      if OpenTarget.Opens(obs)
      then Some(Saved(PostOutput.FileName(p.id), PostOutput.Normalize(PostOutput.Content(p))))
      else None)
  }

  /** The expected outcomes of the first `|posts|` items, in order. */
  function Outcomes(posts: seq<Post>, items: seq<OpenTarget.ItemObs>): (r: seq<ItemLog>)
    requires |posts| <= |items|
    ensures |r| == |posts|
  {
    if posts == [] then []
    else Outcomes(posts[..|posts| - 1], items) + [ItemOutcome(posts[|posts| - 1], items[|posts| - 1])]
  }

  lemma {:induction false} OutcomesAt(posts: seq<Post>, items: seq<OpenTarget.ItemObs>, i: nat)
    requires |posts| <= |items| && i < |posts|
    ensures Outcomes(posts, items)[i] == ItemOutcome(posts[i], items[i])
  {
    if i < |posts| - 1 {
      OutcomesAt(posts[..|posts| - 1], items, i);
    }
  }

  /** One pass of the main loop: bring the editor up, then type and save the
      post, or skip it. */
  method ProcessPost(post: Post, obs: OpenTarget.ItemObs, retryAttempts: nat) returns (entry: ItemLog)
    requires OpenTarget.WellFormed(obs, retryAttempts)
    ensures entry == ItemOutcome(post, obs)
  {
    var up, steps := OpenTarget.OpenEditor(obs, retryAttempts);
    if !up {
      return ItemLog(post.id, steps, None);
    }
    var keys, fileName := PostOutput.TypeAndSavePost(post);
    entry := ItemLog(post.id, steps, Some(Saved(fileName, keys)));
  }

  /** The main loop over the fetched posts, in order. */
  method ProcessAll(posts: seq<Post>, items: seq<OpenTarget.ItemObs>, retryAttempts: nat) returns (log: seq<ItemLog>)
    requires |posts| <= |items|
    requires forall i :: 0 <= i < |items| ==> OpenTarget.WellFormed(items[i], retryAttempts)
    ensures log == Outcomes(posts, items)
  {
    log := [];
    for idx := 0 to |posts|
      invariant log == Outcomes(posts[..idx], items)
    {
      var entry := ProcessPost(posts[idx], items[idx], retryAttempts);
      assert posts[..idx + 1][..idx] == posts[..idx];
      log := log + [entry];
    }
    assert posts[..|posts|] == posts;
  }

  /** The whole run. `items[i]` is what bringing the editor up for the i-th
      post observes; `status` is the process exit status. */
  method Run(cfg: Config, fetch: FetchObs, items: seq<OpenTarget.ItemObs>) returns (status: int, log: seq<ItemLog>)
    requires |items| >= cfg.maxPosts
    requires forall i :: 0 <= i < |items| ==> OpenTarget.WellFormed(items[i], cfg.retryAttempts)
    ensures var posts := FetchPosts(fetch, cfg.maxPosts).posts;
      && (posts == [] ==> status == 1 && log == [])
      && (posts != [] ==>
            status == 0 && |log| == |posts|
            && forall i :: 0 <= i < |posts| ==> log[i] == ItemOutcome(posts[i], items[i]))
  {
    var posts := FetchPosts(fetch, cfg.maxPosts).posts;
    if posts == [] {
      return 1, [];
    }
    log := ProcessAll(posts, items, cfg.retryAttempts);
    forall i | 0 <= i < |posts|
      ensures log[i] == ItemOutcome(posts[i], items[i])
    {
      OutcomesAt(posts, items, i);
    }
    status := 0;
  }

  /** A skipped post leaves no file, and every post is accounted for in order. */
  lemma SkippedPostsLeaveNoFile(p: Post, obs: OpenTarget.ItemObs, retryAttempts: nat)
    requires OpenTarget.WellFormed(obs, retryAttempts)
    ensures ItemOutcome(p, obs).saved.None? <==> !OpenTarget.Opens(obs)
    ensures ItemOutcome(p, obs).saved.None? ==>
      OpenTarget.CountIcon(ItemOutcome(p, obs).steps) == retryAttempts
      && OpenTarget.CountFallback(ItemOutcome(p, obs).steps) == 1
  {
    if !OpenTarget.Opens(obs) {
      OpenTarget.SkippedOnlyWhenExhausted(obs, retryAttempts);
    }
  }

  /** With the endpoint answering `[{id: 1, title: "T", body: "B"}]` and one post
      allowed, exactly that post is fetched; it is typed as the lines
      "Title: T", "", "B", "" and saved as post_1.txt. */
  lemma SinglePostScenario(p: Post, browser: BrowserObs, loads: string -> Option<seq<Post>>)
    requires p == Post(1, "T", "B")
    ensures FetchPosts(FetchObs(Some([p]), browser, loads), Shipped.maxPosts).posts == [p]
    ensures PostOutput.SplitLines(PostOutput.Content(p)) == ["Title: " + p.title, "", p.body, ""]
    ensures PostOutput.FileName(p.id) == "post_1.txt"
  {
    assert PostOutput.NoLineBreak(p.title) && PostOutput.NoLineBreak(p.body);
    PostOutput.ContentLines(p);
  }

  /** With the endpoint unreachable and the clipboard never holding a JSON
      list, nothing is fetched, so the run stops with status 1 before any
      attempt to open the editor. */
  lemma UnreachableScenario(browser: BrowserObs, loads: string -> Option<seq<Post>>, maxPosts: nat)
    requires browser.fault == NoFault
    requires !LooksLikeJsonList(browser.firstPaste) && !LooksLikeJsonList(browser.secondPaste)
    ensures FetchPosts(FetchObs(None, browser, loads), maxPosts).posts == []
    ensures FetchPosts(FetchObs(None, browser, loads), maxPosts).tried == [DirectRequest, BrowserClipboard]
  {
  }
}
