/** `wait_for_notepad`: poll the window manager for the editor's window until
    one is found and observed active, or the timeout passes. The window query,
    the activation attempt and the wall clock are oracles: one Poll per pass of
    the loop. */
module WindowPoller {
  import opened Wrappers

  /** The title the editor's fresh window carries, and the default timeout in seconds. */
  const NotepadTitle: string := "Untitled - Notepad"
  const DefaultTimeout: real := 10.0

  /** A top-level window as the window manager reports it. */
  datatype Window = Window(handle: nat, title: string)

  /** One pass of the polling loop: the seconds elapsed when the loop guard reads
      the clock, the windows the title query returns, and whether the first of
      them reports itself active after the activation attempt. */
  datatype Poll = Poll(elapsed: real, matches: seq<Window>, activeAfter: bool)

  predicate TimedOut(p: Poll, timeout: real) {
    p.elapsed >= timeout
  }

  /** A pass that returns a window: a match was found and seen active. */
  predicate Confirms(p: Poll) {
    p.matches != [] && p.activeAfter
  }

  /** The clock reaches the timeout at some pass (the loop sleeps on every pass). */
  predicate Expires(polls: seq<Poll>, timeout: real) {
    exists i :: 0 <= i < |polls| && TimedOut(polls[i], timeout)
  }

  /** The pass at which the wait ends: the first that times out or confirms
      (`|polls|` when the observations run out first). */
  function Decisive(polls: seq<Poll>, timeout: real): (k: nat)
    ensures k <= |polls|
    ensures k < |polls| ==> TimedOut(polls[k], timeout) || Confirms(polls[k])
    ensures forall j :: 0 <= j < k ==> !TimedOut(polls[j], timeout) && !Confirms(polls[j])
  {
    if polls == [] then 0
    else if TimedOut(polls[0], timeout) || Confirms(polls[0]) then 0
    else 1 + Decisive(polls[1..], timeout)
  }

  /** What `wait_for_notepad` returns. */
  function WaitResult(polls: seq<Poll>, timeout: real): Option<Window> {
    var k := Decisive(polls, timeout);
    if k < |polls| && !TimedOut(polls[k], timeout) then Some(polls[k].matches[0]) else None
  }

  /** A window is returned only if it was seen active before the timeout, and
      `None` only once the timeout has passed with no confirmed window. */
  lemma WaitResultMeaning(polls: seq<Poll>, timeout: real)
    requires Expires(polls, timeout)
    ensures WaitResult(polls, timeout).Some? ==>
      exists k :: 0 <= k < |polls| && !TimedOut(polls[k], timeout) && Confirms(polls[k])
        && WaitResult(polls, timeout).value == polls[k].matches[0]
    ensures WaitResult(polls, timeout).None? ==>
      exists k :: 0 <= k < |polls| && TimedOut(polls[k], timeout)
        && forall j :: 0 <= j < k ==> !Confirms(polls[j])
  {
    var e :| 0 <= e < |polls| && TimedOut(polls[e], timeout);
    assert Decisive(polls, timeout) <= e;
  }

  /** The window is returned no later than the first pass, before the timeout,
      at which it is seen active. */
  lemma ReturnsAtFirstConfirmation(polls: seq<Poll>, timeout: real, k: nat)
    requires k < |polls| && Confirms(polls[k])
    requires forall j :: 0 <= j <= k ==> !TimedOut(polls[j], timeout)
    ensures Decisive(polls, timeout) <= k
    ensures WaitResult(polls, timeout).Some?
  {
  }

  /** The polling loop. `queries` counts the window queries made. */
  method WaitForNotepad(polls: seq<Poll>, timeout: real) returns (w: Option<Window>, queries: nat)
    requires Expires(polls, timeout)
    ensures w == WaitResult(polls, timeout)
    ensures queries == if w.Some? then Decisive(polls, timeout) + 1 else Decisive(polls, timeout)
  {
    ghost var e :| 0 <= e < |polls| && TimedOut(polls[e], timeout);
    var i := 0;
    queries := 0;
    while !TimedOut(polls[i], timeout)
      invariant 0 <= i <= e && queries == i
      invariant forall j :: 0 <= j < i ==> !TimedOut(polls[j], timeout) && !Confirms(polls[j])
      decreases |polls| - i
    {
      var windows := polls[i].matches;
      queries := queries + 1;
      if windows != [] && polls[i].activeAfter {
        return Some(windows[0]), queries;
      }
      i := i + 1;
    }
    w := None;
  }
}
