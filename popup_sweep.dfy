/** `close_unexpected_popups`: every top-level window whose title is non-empty
    and does not contain the editor's title is brought to the front and sent
    Escape and Alt+F4. A failure on one window is logged and the sweep goes on. */
module PopupSweep {
  import opened PyStrings

  predicate Unexpected(title: string, mainTitle: string) {
    title != [] && !Contains(title, mainTitle)
  }

  /** The titles the sweep acts on, in enumeration order. */
  function Targets(titles: seq<string>, mainTitle: string): (r: seq<string>)
    ensures |r| <= |titles|
    ensures forall t :: t in r <==> t in titles && Unexpected(t, mainTitle)
  {
    if titles == [] then []
    else
      var init := titles[..|titles| - 1];
      var last := titles[|titles| - 1];
      assert titles == init + [last];
      Targets(init, mainTitle) + (if Unexpected(last, mainTitle) then [last] else [])
  }

  /** The titles whose close sequence raises. */
  function Raised(titles: seq<string>, raises: seq<bool>): (r: seq<string>)
    requires |raises| == |titles|
    ensures |r| <= |titles|
    ensures forall i :: 0 <= i < |titles| && raises[i] ==> titles[i] in r
  {
    if titles == [] then []
    else
      var n := |titles| - 1;
      Raised(titles[..n], raises[..n]) + (if raises[n] then [titles[n]] else [])
  }

  /** Acting only on the targets keeps their order: each target keeps its
      position relative to the others. */
  lemma {:induction false} TargetsPreserveOrder(titles: seq<string>, mainTitle: string, extra: seq<string>)
    ensures Targets(titles + extra, mainTitle) == Targets(titles, mainTitle) + Targets(extra, mainTitle)
    decreases |extra|
  {
    if extra == [] {
      assert titles + extra == titles;
    } else {
      var n := |extra| - 1;
      assert (titles + extra)[..|titles + extra| - 1] == titles + extra[..n];
      TargetsPreserveOrder(titles, mainTitle, extra[..n]);
    }
  }

  /** One pass of the sweep extends both lists by the i-th window at most. */
  lemma SweepStep(titles: seq<string>, raises: seq<bool>, mainTitle: string, i: nat)
    requires |raises| == |titles| && i < |titles|
    ensures Targets(titles[..i + 1], mainTitle)
      == Targets(titles[..i], mainTitle) + (if Unexpected(titles[i], mainTitle) then [titles[i]] else [])
    ensures Targets(Raised(titles[..i + 1], raises[..i + 1]), mainTitle)
      == Targets(Raised(titles[..i], raises[..i]), mainTitle)
         + (if raises[i] && Unexpected(titles[i], mainTitle) then [titles[i]] else [])
  {
    var w := titles[i];
    assert titles[..i + 1][..i] == titles[..i] && raises[..i + 1][..i] == raises[..i];
    var extra := if raises[i] then [w] else [];
    assert Raised(titles[..i + 1], raises[..i + 1]) == Raised(titles[..i], raises[..i]) + extra;
    TargetsPreserveOrder(Raised(titles[..i], raises[..i]), mainTitle, extra);
    if raises[i] {
      assert Targets([w], mainTitle) == Targets([], mainTitle) + (if Unexpected(w, mainTitle) then [w] else []);
    }
  }

  /** The sweep. `raises[i]` says whether closing the i-th enumerated window
      raises; `attempted` lists the windows the close sequence was started on,
      `failed` those where it raised. */
  method CloseUnexpectedPopups(titles: seq<string>, mainTitle: string, raises: seq<bool>)
      returns (attempted: seq<string>, failed: seq<string>)
    requires |raises| == |titles|
    ensures attempted == Targets(titles, mainTitle)
    ensures failed == Targets(Raised(titles, raises), mainTitle)
  {
    attempted, failed := [], [];
    for i := 0 to |titles|
      invariant attempted == Targets(titles[..i], mainTitle)
      invariant failed == Targets(Raised(titles[..i], raises[..i]), mainTitle)
    {
      var w := titles[i];
      if Unexpected(w, mainTitle) {
        attempted := attempted + [w];
        if raises[i] {
          failed := failed + [w];
        }
      }
      SweepStep(titles, raises, mainTitle, i);
    }
    assert titles[..|titles|] == titles && raises[..|raises|] == raises;
  }
}
