# Desktop-automation pipeline: a Dafny model of its decision logic

The script fetches a few posts from a web endpoint, then, for each post,
finds the text editor's icon on the desktop by multi-scale template matching,
double-clicks it, waits for the editor's window, types the post and saves it
as `post_<id>.txt`. When the icon cannot be found it falls back to launching
the editor from the Run dialog and sweeping away unexpected windows. When the
endpoint cannot be reached it opens the endpoint in the default browser and
copies the page text through the clipboard.

This project models the sequential decision logic underneath that plumbing.
Every call into the operating system, the network, OpenCV, the clipboard or
the clock is an oracle input:

- `IconLocator` (`icon_locator.dfy`) models `open_notepad`. Each call sees a
  `Screen`: whether the template could be read, and one `Probe` per scale.
  A probe holds the peak correlation, its location and the resized template's
  size. The model covers the first-hit scale loop and the centre of the
  matched box.
- `WindowPoller` (`window_poller.dfy`) models `wait_for_notepad`. Each pass of
  its loop is a `Poll`: the clock reading at the loop guard, the windows the
  title query returned, and whether the first of them was seen active.
- `PopupSweep` (`popup_sweep.dfy`) models `close_unexpected_popups`: which
  titles are targeted, and the fact that a failing window does not stop the
  sweep.
- `Fetch` (`fetch.dfy`) models `fetch_posts` and
  `fallback_fetch_posts_via_default_browser`: one direct request, then the
  browser path with its clipboard check and one re-copy, then truncation.
  `json.loads` is a function oracle.
- `PostOutput` (`post_output.dfy`) models `type_and_save_post`: the text built
  from a post, Python's `str.splitlines`, the keys typed line by line, and
  the file name.
- `OpenTarget` (`open_target.dfy`) models the per-post retry and fallback loop
  of the main block, as a trace of `Step`s.
- `TaskDriver` (`task_driver.dfy`) models the main block: the exit status and
  one log entry per post.
- `PyStrings` (`py_strings.dfy`) and `Wrappers` (`wrappers.dfy`) hold the
  Python built-ins the logic relies on (`str.strip`, `in`, `str(int)`,
  slicing) and `Option`.

`MAX_POSTS` and `RETRY_ATTEMPTS` (config.py:18-19) are parameters
(`TaskDriver.Config`). Their shipped values 1 and 3 are `TaskDriver.Shipped`.
The default scale list, the threshold 0.5, the 10-second wait and the window
title "Untitled - Notepad" are constants, as in the source.

Behaviour of the code as written that the model keeps:

- The direct request is made once, without retries, and there is exactly
  one alternate strategy (the default browser).
- A direct request that succeeds with an empty JSON list returns `[]` without
  trying the browser, as `Fetch.EmptyOnlyWhenExhausted` states.
- The window wait runs only after the icon was found and clicked
  (`OpenTarget.VerifyOnlyAfterHit`); an attempt that misses the icon goes
  straight to the next attempt.
- An unreadable template is reported as `False`, the same as "icon not
  found". The retry loop then tries again instead of going straight to the
  fallback.
- A raise while minimising the browser after the clipboard text was parsed
  reaches the outer handler, which discards the parsed posts and returns `[]`
  (`Fetch.Fault.WhileMinimising`).

## Model

| member | source | states |
|---|---|---|
| Wrappers.Take | main.py:122 | `posts[:MAX_POSTS]` keeps a prefix of at most `MAX_POSTS` items, and all of the list when it is shorter |
| PyStrings.LStrip | main.py:51 | the leading-whitespace part of `strip()`: the result is a suffix, only whitespace was removed, and it does not start with whitespace |
| PyStrings.RStrip | main.py:51 | the trailing-whitespace part of `strip()`: the result is a prefix, only whitespace was removed, and it does not end with whitespace |
| PyStrings.DecimalRoundTrip | main.py:239 | reading `str(id)` back gives `id`, for negative ids too |
| PyStrings.DecimalInjective | main.py:239 | two different ids never have the same decimal text |
| IconLocator.Centre | main.py:193-198 | the click point `(x + w//2, y + h//2)` lies inside the matched box (strictly inside when the box is non-empty) and sits at half its width and height, rounded down |
| IconLocator.FirstHit | main.py:187-192 | the accepted scale's score reaches the threshold, every earlier scale's score is below it, and with no hit every score is below it |
| IconLocator.FirstHitIgnoresLaterScales | main.py:187-203 | once a scale hits, appending more scales, however well they score, does not change which scale is accepted |
| IconLocator.FirstNotBest | main.py:187-203 | with two scales over the threshold, the earlier one is accepted even when the later scores higher, so swapping them changes which probe is reported |
| IconLocator.OpenNotepad | main.py:179-209 | an unreadable template gives `False` with zero scales tried; otherwise scales are tried in order, the loop stops at the first hit (k+1 scales tried, double-click at that match's centre), and `True` is returned iff some scale hit |
| WindowPoller.Decisive | main.py:213-225 | the wait ends at the first pass that either times out or finds a window seen active, and every earlier pass did neither |
| WindowPoller.WaitResultMeaning | main.py:211-225 | a window is returned only if it was seen active before the timeout; `None` is returned only when the timeout passed with no such window before it |
| WindowPoller.ReturnsAtFirstConfirmation | main.py:214-223 | a window seen active before the timeout is returned no later than that pass |
| WindowPoller.WaitForNotepad | main.py:211-225 | the polling loop returns what `WaitResult` describes, after one window query per pass before the timeout |
| PopupSweep.Targets | main.py:134-136 | a title is acted on iff it is non-empty and does not contain the editor's title, and no more titles are acted on than there are windows |
| PopupSweep.TargetsPreserveOrder | main.py:135-146 | the sweep works window by window: the targets of two lists of windows are the targets of the first, then those of the second |
| PopupSweep.CloseUnexpectedPopups | main.py:132-146 | every target is attempted whatever fails; the failures are exactly the targets whose close sequence raised |
| Fetch.LooksLikeJsonListIff | main.py:51 | the clipboard text is accepted iff a `[` is preceded only by whitespace |
| Fetch.BrowserFetch | main.py:27-114 | nothing is read iff the path faults before the first read; accepted first text is parsed with no re-copy; rejected first text leads to `[]` if the re-copy faults, else to a second read that is parsed iff accepted; text never accepted gives `[]`; a parsed list is truncated to `MAX_POSTS`, unless the parse or the browser minimisation after it raised, which gives `[]` |
| Fetch.FetchPosts | main.py:117-130 | the browser path runs iff the direct request raised; the direct path returns its list truncated to `MAX_POSTS`; the browser path's result is returned as is; at most `MAX_POSTS` posts |
| Fetch.EmptyOnlyWhenExhausted | main.py:117-130 | for `MAX_POSTS` ≥ 1, the chain returns `[]` iff the direct request returned an empty list, or it raised and the browser path gave nothing (with `MAX_POSTS` = 0 the truncation alone empties it) |
| PostOutput.SplitLinesHaveNoBreaks | main.py:233 | no line handed to the typing loop contains a line boundary |
| PostOutput.TypedSplitLines | main.py:230-235 | for text ending in a line break, typing each line followed by Enter reproduces the text, with every line boundary (`\r\n` counting as one) typed as one Enter |
| PostOutput.ContentEndsWithBreak | main.py:230 | every post's text ends in a line break, so `TypedSplitLines` applies to it |
| PostOutput.ContentLines | main.py:230-233 | a post whose title and body hold no line break is typed as the four lines `Title: <title>`, blank, `<body>`, blank |
| PostOutput.FileNameInjective | main.py:239 | distinct post ids never share a file name |
| PostOutput.TypeAndSavePost | main.py:227-240 | the keys sent are the post's text with line boundaries as Enter, and the file name is `post_<id>.txt` |
| OpenTarget.IconAttemptsBounded | main.py:326-334 | at most `RETRY_ATTEMPTS` icon attempts, and exactly that many when none succeeds |
| OpenTarget.StopsAtFirstSuccess | main.py:325-332 | the loop stops at the first attempt where the icon is found and the window confirmed: k+1 attempts, ending on a successful wait |
| OpenTarget.VerifyOnlyAfterHit | main.py:327-329 | every wait in the icon phase comes right after an attempt that found the icon |
| OpenTarget.FallbackOnceIffIconFailed | main.py:336-343 | the fallback runs exactly once if every icon attempt failed, and never otherwise |
| OpenTarget.SkippedOnlyWhenExhausted | main.py:325-347 | an item is given up only after exactly `RETRY_ATTEMPTS` icon attempts and one fallback, with the last wait finding no window |
| OpenTarget.OpenEditor | main.py:324-347 | the loop produces the trace `OpenTrace` and reports the editor up iff some icon attempt succeeded or the wait after the fallback found the window |
| TaskDriver.Run | main.py:310-353 | no posts means exit status 1 and no open attempt at all; otherwise every post is handled in order, a failure skips only that post, saved posts carry their file name and typed text, and the status is 0 |
| TaskDriver.ProcessPost | main.py:324-350 | one post's pass records the steps taken to bring the editor up, and it types and saves the post (its file name and normalised text) exactly when the editor came up; otherwise nothing is saved |
| TaskDriver.ProcessAll | main.py:321-350 | the loop over the fetched posts records one outcome per post, in the order the posts were fetched |
| TaskDriver.OutcomesAt | main.py:321-350 | the i-th recorded outcome belongs to the i-th post and the i-th observation |
| TaskDriver.SkippedPostsLeaveNoFile | main.py:345-350 | a post is saved iff the editor came up for it; a skipped post used every retry and the fallback once |
| TaskDriver.SinglePostScenario | main.py:117-122 | with the endpoint answering one post `{id: 1, title: "T", body: "B"}` and one post allowed, exactly that post is fetched, typed as "Title: T", "", "B", "" and saved as `post_1.txt` |
| TaskDriver.UnreachableScenario | main.py:117-130 | with the endpoint unreachable and neither clipboard read holding a JSON list, both strategies are tried and nothing is fetched, so the run exits with status 1 |

## Left out

- Template matching internals: `cv2.Canny`, `cv2.resize`, `cv2.matchTemplate` and `cv2.minMaxLoc` are foreign floating-point computations. Each scale's result is an oracle `Probe`.
- Screen capture (mss) supplies the image the template is matched against. It is folded into the per-scale `Probe` oracle together with the matching. The contour boxes, the annotated image and every `cv2.imwrite` are diagnostics that affect no return value, and `screenshot_index` only names those files.
- Simulated input (pyautogui), clipboard writes and `time.sleep` are not modelled. This includes the Win+D and Win+R keystrokes, typing "notepad.exe", the Ctrl+S, Ctrl+W and "y" keys of the save dialog, and the settle delays. `RETRY_DELAY` is therefore unused.
- Browser-window minimisation is not modelled step by step. Its only effect on the fetched list, a raise after the parse that loses the posts, is the `WhileMinimising` fault. On the rejected-text path a raise there gives `[]` either way.
- `requests.get`, `raise_for_status` and `response.json()` are one oracle: the decoded list, or `None` when any of them raises. `json.loads` is a function oracle. JSON elements are assumed to be posts with `id`, `title` and `body`; the source would raise `KeyError` at the first post lacking one.
- Window queries (`getWindowsWithTitle`, `activate`, `isActive`, `getAllTitles`) are OS state given as oracle data. The wall clock is read from the `Poll` oracle at each loop guard.
- `WindowPoller.WaitForNotepad` requires that the clock readings reach the timeout at some pass. The sleeps in the loop make this so; the model takes it as given.
- The file system is not modelled: `os.path.exists`, saving and replacing files, and `os.makedirs` in config.py. Only the line list and the file name are modelled. The "could not verify" save branch only logs.
- `pyautogui.write` silently skips characters it has no key for. `PostOutput.TypeAndSavePost` assumes every character is typed.
- `RETRY_ATTEMPTS` and `MAX_POSTS` are `nat`. A negative Python value would act as zero attempts, or as a slice that drops trailing items.
- Progress messages (`print`) are not modelled.
- TaskDriver.Run: assumes every call outside a `try` returns normally: the mss capture (main.py:158-165), `cv2.resize` and `cv2.matchTemplate` (main.py:188-189), `windows[0].isActive` (main.py:222) and the pyautogui calls of `type_and_save_post` (main.py:233-235 and on). If one of them raises, the source ends the whole run with a traceback and a non-zero status instead of skipping the post. `Run`'s status 0 and its one-skip-per-failure guarantee hold only under that assumption.
- Fetch.FetchPosts: `requests.get` is called without a timeout (main.py:120) and can block indefinitely. The model takes the request to either return or raise.
