/** The per-item loop of the main block that brings the editor up: up to
    `RETRY_ATTEMPTS` icon attempts, each followed by a wait for the editor's
    window only when the icon was found; if none succeeds, the Run-dialog
    fallback and a popup sweep, then one more wait. */
module OpenTarget {
  import IconLocator
  import WindowPoller
  import PopupSweep

  /** What one icon attempt observes: the desktop the locator sees, and the
      polls of the wait that follows if the icon is found. */
  datatype AttemptObs = AttemptObs(screen: IconLocator.Screen, polls: seq<WindowPoller.Poll>)

  /** What opening the editor for one item observes: each icon attempt, the
      window titles the fallback's popup sweep enumerates (with whether closing
      each raises), and the polls of the wait after the fallback. */
  datatype ItemObs = ItemObs(
    attempts: seq<AttemptObs>,
    titles: seq<string>,
    closeRaises: seq<bool>,
    fallbackPolls: seq<WindowPoller.Poll>)

  /** The observable steps: an icon attempt (whether the icon was found and
      double-clicked), a wait for the window (whether it returned one), and the
      fallback (the titles its popup sweep tried to close). */
  datatype Step = IconAttempt(found: bool) | Verify(windowFound: bool) | Fallback(swept: seq<string>)

  /** The observations cover every attempt the loop can make: one per retry,
      one probe per default scale, and clocks that reach the wait's timeout. */
  predicate WellFormed(obs: ItemObs, retryAttempts: nat) {
    && |obs.attempts| == retryAttempts
    && (forall i :: 0 <= i < |obs.attempts| ==>
          |obs.attempts[i].screen.probes| == |IconLocator.DefaultScales|
          && WindowPoller.Expires(obs.attempts[i].polls, WindowPoller.DefaultTimeout))
    && |obs.closeRaises| == |obs.titles|
    && WindowPoller.Expires(obs.fallbackPolls, WindowPoller.DefaultTimeout)
  }

  predicate IconHit(a: AttemptObs) {
    IconLocator.Opens(a.screen, IconLocator.DefaultThreshold)
  }

  predicate Verified(polls: seq<WindowPoller.Poll>) {
    WindowPoller.WaitResult(polls, WindowPoller.DefaultTimeout).Some?
  }

  predicate AttemptSucceeds(a: AttemptObs) {
    IconHit(a) && Verified(a.polls)
  }

  predicate IconSucceeds(attempts: seq<AttemptObs>) {
    exists i :: 0 <= i < |attempts| && AttemptSucceeds(attempts[i])
  }

  /** The steps of one attempt: the wait happens only after a hit. */
  function AttemptSteps(a: AttemptObs): seq<Step> {
    if IconHit(a) then [IconAttempt(true), Verify(Verified(a.polls))] else [IconAttempt(false)]
  }

  /** The steps of the icon attempts, up to the first success. */
  function IconTrace(attempts: seq<AttemptObs>): seq<Step> {
    if attempts == [] then []
    else if AttemptSucceeds(attempts[0]) then AttemptSteps(attempts[0])
    else AttemptSteps(attempts[0]) + IconTrace(attempts[1..])
  }

  /** All steps for one item: the fallback and its wait follow only when every
      icon attempt failed. */
  function OpenTrace(obs: ItemObs): seq<Step> {
    IconTrace(obs.attempts) +
    if IconSucceeds(obs.attempts) then []
    else [Fallback(PopupSweep.Targets(obs.titles, WindowPoller.NotepadTitle)), Verify(Verified(obs.fallbackPolls))]
  }

  /** Whether the editor came up for the item (otherwise the item is skipped). */
  predicate Opens(obs: ItemObs) {
    IconSucceeds(obs.attempts) || Verified(obs.fallbackPolls)
  }

  function CountIcon(steps: seq<Step>): nat {
    if steps == [] then 0 else (if steps[0].IconAttempt? then 1 else 0) + CountIcon(steps[1..])
  }

  function CountFallback(steps: seq<Step>): nat {
    if steps == [] then 0 else (if steps[0].Fallback? then 1 else 0) + CountFallback(steps[1..])
  }

  lemma {:induction false} CountIconAppend(a: seq<Step>, b: seq<Step>)
    ensures CountIcon(a + b) == CountIcon(a) + CountIcon(b)
  {
    if a == [] {
      assert a + b == b;
    } else {
      assert (a + b)[0] == a[0] && (a + b)[1..] == a[1..] + b;
      CountIconAppend(a[1..], b);
    }
  }

  lemma {:induction false} CountFallbackAppend(a: seq<Step>, b: seq<Step>)
    ensures CountFallback(a + b) == CountFallback(a) + CountFallback(b)
  {
    if a == [] {
      assert a + b == b;
    } else {
      assert (a + b)[0] == a[0] && (a + b)[1..] == a[1..] + b;
      CountFallbackAppend(a[1..], b);
    }
  }

  /** The trace of the attempts before and after a point, when none before it succeeded. */
  lemma {:induction false} IconTraceSplit(p: seq<AttemptObs>, a: AttemptObs, rest: seq<AttemptObs>)
    requires !IconSucceeds(p)
    ensures IconTrace(p + [a] + rest) ==
      IconTrace(p) + if AttemptSucceeds(a) then AttemptSteps(a) else AttemptSteps(a) + IconTrace(rest)
  {
    if p == [] {
      assert p + [a] + rest == [a] + rest;
      assert ([a] + rest)[1..] == rest;
    } else {
      assert !AttemptSucceeds(p[0]);
      assert (p + [a] + rest)[1..] == p[1..] + [a] + rest;
      assert !IconSucceeds(p[1..]) by {
        forall i | 0 <= i < |p[1..]| ensures !AttemptSucceeds(p[1..][i]) {
          assert p[1..][i] == p[i + 1];
        }
      }
      IconTraceSplit(p[1..], a, rest);
    }
  }

  /** At most one icon attempt per retry; every retry is used when none succeeds. */
  lemma {:induction false} IconAttemptsBounded(s: seq<AttemptObs>)
    ensures CountIcon(IconTrace(s)) <= |s|
    ensures !IconSucceeds(s) ==> CountIcon(IconTrace(s)) == |s|
  {
    if s != [] {
      IconAttemptsBounded(s[1..]);
      CountIconAppend(AttemptSteps(s[0]), IconTrace(s[1..]));
      if !IconSucceeds(s) {
        assert !AttemptSucceeds(s[0]);
        assert !IconSucceeds(s[1..]) by {
          forall i | 0 <= i < |s[1..]| ensures !AttemptSucceeds(s[1..][i]) {
            assert s[1..][i] == s[i + 1];
          }
        }
      }
    }
  }

  /** The loop stops at the first attempt where the icon is found and the
      window confirmed: that attempt is the last, and it ends the trace. */
  lemma {:induction false} StopsAtFirstSuccess(s: seq<AttemptObs>, k: nat)
    requires k < |s| && AttemptSucceeds(s[k])
    requires forall j :: 0 <= j < k ==> !AttemptSucceeds(s[j])
    ensures CountIcon(IconTrace(s)) == k + 1
    ensures IconTrace(s) != [] && IconTrace(s)[|IconTrace(s)| - 1] == Verify(true)
  {
    if k == 0 {
      assert IconTrace(s) == [IconAttempt(true), Verify(true)];
      assert CountIcon([Verify(true)]) == 0;
    } else {
      assert s[1..][k - 1] == s[k];
      StopsAtFirstSuccess(s[1..], k - 1);
      CountIconAppend(AttemptSteps(s[0]), IconTrace(s[1..]));
    }
  }

  /** The wait is consulted only right after an icon hit. */
  lemma {:induction false} VerifyOnlyAfterHit(s: seq<AttemptObs>)
    ensures forall i :: 0 <= i < |IconTrace(s)| && IconTrace(s)[i].Verify? ==>
      i > 0 && IconTrace(s)[i - 1] == IconAttempt(true)
  {
    if s != [] && !AttemptSucceeds(s[0]) {
      VerifyOnlyAfterHit(s[1..]);
      var head: seq<Step>, tail: seq<Step> := AttemptSteps(s[0]), IconTrace(s[1..]);
      assert IconTrace(s) == head + tail;
      forall i | 0 <= i < |head + tail| && (head + tail)[i].Verify?
        ensures i > 0 && (head + tail)[i - 1] == IconAttempt(true)
      {
        if i >= |head| {
          assert (head + tail)[i] == tail[i - |head|];
          if i - |head| > 0 {
            assert (head + tail)[i - 1] == tail[i - |head| - 1];
          } else {
            assert false;
          }
        }
      }
    }
  }

  lemma {:induction false} NoFallbackInIconTrace(s: seq<AttemptObs>)
    ensures CountFallback(IconTrace(s)) == 0
  {
    if s != [] {
      NoFallbackInIconTrace(s[1..]);
      CountFallbackAppend(AttemptSteps(s[0]), IconTrace(s[1..]));
    }
  }

  /** The fallback runs exactly once for an item if every icon attempt failed,
      and never otherwise. */
  lemma FallbackOnceIffIconFailed(obs: ItemObs)
    ensures CountFallback(OpenTrace(obs)) == if IconSucceeds(obs.attempts) then 0 else 1
  {
    NoFallbackInIconTrace(obs.attempts);
    var tail := if IconSucceeds(obs.attempts) then []
      else [Fallback(PopupSweep.Targets(obs.titles, WindowPoller.NotepadTitle)), Verify(Verified(obs.fallbackPolls))];
    CountFallbackAppend(IconTrace(obs.attempts), tail);
    if tail != [] {
      assert CountFallback(tail[1..]) == 0 by {
        assert tail[1..][1..] == [];
      }
    }
  }

  /** An item is given up only after all the retries and the fallback were
      spent, the last wait having found no window. */
  lemma SkippedOnlyWhenExhausted(obs: ItemObs, retryAttempts: nat)
    requires WellFormed(obs, retryAttempts) && !Opens(obs)
    ensures CountIcon(OpenTrace(obs)) == retryAttempts
    ensures CountFallback(OpenTrace(obs)) == 1
    ensures OpenTrace(obs)[|OpenTrace(obs)| - 1] == Verify(false)
  {
    IconAttemptsBounded(obs.attempts);
    FallbackOnceIffIconFailed(obs);
    var tail := [Fallback(PopupSweep.Targets(obs.titles, WindowPoller.NotepadTitle)), Verify(false)];
    CountIconAppend(IconTrace(obs.attempts), tail);
    assert CountIcon(tail) == 0 by {
      assert tail[1..] == [Verify(false)] && tail[1..][1..] == [];
      assert CountIcon(tail[1..]) == 0;
    }
  }

  /** The retry/fallback loop for one item. */
  method OpenEditor(obs: ItemObs, retryAttempts: nat) returns (editorUp: bool, trace: seq<Step>)
    requires WellFormed(obs, retryAttempts)
    ensures editorUp == Opens(obs)
    ensures trace == OpenTrace(obs)
  {
    var success := false;
    trace := [];
    for attempt := 0 to retryAttempts
      invariant trace == IconTrace(obs.attempts[..attempt])
      invariant !IconSucceeds(obs.attempts[..attempt])
      invariant !success
    {
      var a := obs.attempts[attempt];
      assert obs.attempts == obs.attempts[..attempt] + [a] + obs.attempts[attempt + 1..];
      IconTraceSplit(obs.attempts[..attempt], a, obs.attempts[attempt + 1..]);
      IconTraceSplit(obs.attempts[..attempt], a, []);
      assert obs.attempts[..attempt + 1] == obs.attempts[..attempt] + [a] + [];
      var found, click, tried := IconLocator.OpenNotepad(a.screen, IconLocator.DefaultScales, IconLocator.DefaultThreshold);
      if found {
        var window, queries := WindowPoller.WaitForNotepad(a.polls, WindowPoller.DefaultTimeout);
        trace := trace + [IconAttempt(true), Verify(window.Some?)];
        if window.Some? {
          success := true;
          assert AttemptSucceeds(obs.attempts[attempt]);
          break;
        }
      } else {
        trace := trace + [IconAttempt(false)];
      }
      assert !IconSucceeds(obs.attempts[..attempt + 1]) by {
        var done := obs.attempts[..attempt + 1];
        forall i | 0 <= i < |done| ensures !AttemptSucceeds(done[i]) {
          if i < attempt {
            assert done[i] == obs.attempts[..attempt][i];
          }
        }
      }
    }
    if !success {
      assert obs.attempts[..retryAttempts] == obs.attempts;
      var attempted, failed := PopupSweep.CloseUnexpectedPopups(obs.titles, WindowPoller.NotepadTitle, obs.closeRaises);
      var window, queries := WindowPoller.WaitForNotepad(obs.fallbackPolls, WindowPoller.DefaultTimeout);
      trace := trace + [Fallback(attempted), Verify(window.Some?)];
      success := window.Some?;
    }
    editorUp := success;
  }
}
