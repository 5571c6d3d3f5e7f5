/** The multi-scale template search of `open_notepad`: the edge-detected icon
    template is resized by each scale factor in turn and matched against the
    edge-detected desktop; the first scale whose peak correlation reaches the
    threshold wins, and the icon is double-clicked at the centre of the match.
    The image processing itself is an oracle: one Probe per scale. */
module IconLocator {
  import opened Wrappers

  /** The default scale list and acceptance threshold of `open_notepad`. */
  const DefaultScales: seq<real> := [0.5, 0.75, 1.0, 1.25, 1.5, 2.0]
  const DefaultThreshold: real := 0.5

  /** What matching the template resized by one scale factor reports: the peak
      correlation score and its top-left location (`cv2.minMaxLoc`), and the
      height and width of the resized template. */
  datatype Probe = Probe(score: real, x: nat, y: nat, h: nat, w: nat)

  /** What one call observes: whether the icon template could be read, and the
      probe that each scale of the scale list would yield, in list order. */
  datatype Screen = Screen(templateLoaded: bool, probes: seq<Probe>)

  datatype Point = Point(x: int, y: int)

  /** The click point: the integer centre of the matched box. */
  function Centre(p: Probe): (c: Point)
    ensures p.x <= c.x <= p.x + p.w && p.y <= c.y <= p.y + p.h
    ensures p.w > 0 ==> c.x < p.x + p.w
    ensures p.h > 0 ==> c.y < p.y + p.h
    // the offsets are the halves of the box, rounded down
    ensures 2 * (c.x - p.x) <= p.w <= 2 * (c.x - p.x) + 1
    ensures 2 * (c.y - p.y) <= p.h <= 2 * (c.y - p.y) + 1
  {
    Point(p.x + p.w / 2, p.y + p.h / 2)
  }

  /** The position of the first probe whose score reaches the threshold. */
  function FirstHit(probes: seq<Probe>, threshold: real): (k: Option<nat>)
    ensures k.Some? ==> k.value < |probes| && probes[k.value].score >= threshold
    ensures k.Some? ==> forall j :: 0 <= j < k.value ==> probes[j].score < threshold
    ensures k.None? ==> forall j :: 0 <= j < |probes| ==> probes[j].score < threshold
  {
    if probes == [] then None
    else if probes[0].score >= threshold then Some(0)
    else match FirstHit(probes[1..], threshold)
      case None => None
      case Some(k) => Some(k + 1)
  }

  /** Whether `open_notepad` reports the icon found (and double-clicks it). */
  predicate Opens(s: Screen, threshold: real) {
    s.templateLoaded && FirstHit(s.probes, threshold).Some?
  }

  /** Scales after the first hit play no part: appending more probes, however
      well they score, does not change which scale is accepted. */
  lemma {:induction false} FirstHitIgnoresLaterScales(p: seq<Probe>, q: seq<Probe>, threshold: real)
    requires FirstHit(p, threshold).Some?
    ensures FirstHit(p + q, threshold) == FirstHit(p, threshold)
  {
    if p[0].score < threshold {
      assert (p + q)[1..] == p[1..] + q;
      FirstHitIgnoresLaterScales(p[1..], q, threshold);
    }
  }

  /** Acceptance is first-hit, not best-score: with two scales that both reach
      the threshold, the earlier is reported even when the later scores
      higher, so swapping them changes which probe is reported. */
  lemma FirstNotBest(a: Probe, b: Probe, threshold: real)
    requires a.score >= threshold && b.score > a.score
    ensures var ps := [a, b]; FirstHit(ps, threshold).Some? && ps[FirstHit(ps, threshold).value] == a
    ensures var ps := [b, a]; FirstHit(ps, threshold).Some? && ps[FirstHit(ps, threshold).value] == b
    ensures a != b
  {
  }

  /** `open_notepad` from the template load on: an unreadable template gives
      `False` before any scale is tried; otherwise scales are tried in order and
      the loop stops at the first whose score reaches the threshold.
      `tried` counts the scales evaluated, `click` is where the double-click lands. */
  method OpenNotepad(screen: Screen, scales: seq<real>, threshold: real)
      returns (found: bool, click: Option<Point>, tried: nat)
    requires |screen.probes| == |scales|
    ensures found == Opens(screen, threshold) && found == click.Some?
    ensures !screen.templateLoaded ==> tried == 0
    ensures screen.templateLoaded ==>
      match FirstHit(screen.probes, threshold)
      case Some(k) => tried == k + 1 && click == Some(Centre(screen.probes[k]))
      case None => tried == |scales|
  {
    found, click, tried := false, None, 0;
    if !screen.templateLoaded {
      return;
    }
    for i := 0 to |scales|
      invariant !found && click == None && tried == i
      invariant forall j :: 0 <= j < i ==> screen.probes[j].score < threshold
    {
      var probe := screen.probes[i];
      tried := tried + 1;
      if probe.score >= threshold {
        click := Some(Centre(probe));
        found := true;
        break;
      }
    }
  }
}
