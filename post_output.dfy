/** `type_and_save_post`, its logical part: the text built from a post, the
    lines it is typed as (each followed by an Enter key press), and the file
    name it is saved under. */
module PostOutput {
  import opened PyStrings
  import opened Fetch

  /** The text written for a post. */
  function Content(p: Post): string {
    "Title: " + p.title + "\n\n" + p.body + "\n\n"
  }

  /** The file name a post is saved under. */
  function FileName(id: int): string {
    "post_" + Decimal(id) + ".txt"
  }

  /** The line boundaries of Python's `str.splitlines`: \n, \r, \v, \f,
      0x1C-0x1E, 0x85, U+2028 and U+2029 (\r\n counts as one boundary). */
  predicate IsLineBreak(c: char) {
    || c == '\n' || c == '\r' || c == '\U{0B}' || c == '\U{0C}'
    || c == '\U{1C}' || c == '\U{1D}' || c == '\U{1E}'
    || c == '\U{85}' || c == '\U{2028}' || c == '\U{2029}'
  }

  predicate NoLineBreak(s: string) {
    forall i :: 0 <= i < |s| ==> !IsLineBreak(s[i])
  }

  /** Index of the first line break, or |s|. */
  function FirstBreak(s: string): (i: nat)
    ensures i <= |s|
    ensures i < |s| ==> IsLineBreak(s[i])
  {
    if s == [] || IsLineBreak(s[0]) then 0
    else 1 + FirstBreak(s[1..])
  }

  lemma {:induction false} FirstBreakPlain(s: string)
    ensures NoLineBreak(s[..FirstBreak(s)])
    decreases |s|
  {
    if s != [] && !IsLineBreak(s[0]) {
      FirstBreakPlain(s[1..]);
      var i := FirstBreak(s);
      assert s[..i] == [s[0]] + s[1..][..i - 1];
    }
  }

  /** Length of the boundary at the start of `s`: 2 for \r\n, else 1. */
  function BreakLength(s: string): nat
    requires s != []
  {
    if s[0] == '\r' && |s| > 1 && s[1] == '\n' then 2 else 1
  }

  /** Python's `str.splitlines()` (no `keepends`). */
  function SplitLines(s: string): (lines: seq<string>)
    decreases |s|
  {
    if s == [] then []
    else
      var i := FirstBreak(s);
      if i == |s| then [s]
      else [s[..i]] + SplitLines(s[i + BreakLength(s[i..])..])
  }

  /** No line handed to the typing loop holds a line boundary. */
  lemma {:induction false} SplitLinesHaveNoBreaks(s: string)
    ensures forall l :: l in SplitLines(s) ==> NoLineBreak(l)
    decreases |s|
  {
    if s != [] {
      var i := FirstBreak(s);
      FirstBreakPlain(s);
      if i < |s| {
        SplitLinesHaveNoBreaks(s[i + BreakLength(s[i..])..]);
      }
    }
  }

  /** The keys typed for a list of lines: each line, then Enter (shown as \n). */
  function Typed(lines: seq<string>): string {
    if lines == [] then [] else lines[0] + "\n" + Typed(lines[1..])
  }

  /** The text with every line boundary, \r\n included, turned into one \n. */
  function Normalize(s: string): string
    decreases |s|
  {
    if s == [] then []
    else if IsLineBreak(s[0]) then "\n" + Normalize(s[BreakLength(s)..])
    else [s[0]] + Normalize(s[1..])
  }

  predicate EndsWithBreak(s: string) {
    s != [] && IsLineBreak(s[|s| - 1])
  }

  lemma {:induction false} NormalizePlainPrefix(p: string, t: string)
    requires NoLineBreak(p)
    ensures Normalize(p + t) == p + Normalize(t)
    decreases |p|
  {
    if p == [] {
      assert p + t == t;
    } else {
      var pt := p + t;
      assert pt[0] == p[0] && !IsLineBreak(p[0]);
      assert pt[1..] == p[1..] + t;
      NormalizePlainPrefix(p[1..], t);
      calc {
        Normalize(pt);
        [p[0]] + Normalize(p[1..] + t);
        [p[0]] + (p[1..] + Normalize(t));
        { assert p == [p[0]] + p[1..]; }
        p + Normalize(t);
      }
    }
  }

  /** A text split at its first boundary `i`: the line before it, then the rest. */
  lemma {:induction false} SplitLinesAtBreak(s: string)
    requires EndsWithBreak(s)
    ensures FirstBreak(s) < |s|
    ensures var i := FirstBreak(s);
      SplitLines(s) == [s[..i]] + SplitLines(s[i + BreakLength(s[i..])..])
  {
    FirstBreakPlain(s);
  }

  lemma {:induction false} NormalizeBreak(b: string)
    requires b != [] && IsLineBreak(b[0])
    ensures Normalize(b) == "\n" + Normalize(b[BreakLength(b)..])
  {
  }

  /** Normalizing a text whose first boundary is at `i`. */
  lemma {:induction false} NormalizeAt(s: string, i: nat)
    requires i < |s| && IsLineBreak(s[i]) && NoLineBreak(s[..i])
    ensures Normalize(s) == s[..i] + "\n" + Normalize(s[i + BreakLength(s[i..])..])
  {
    var p, b := s[..i], s[i..];
    var rest := b[BreakLength(b)..];
    calc {
      Normalize(s);
      { assert s == p + b; }
      Normalize(p + b);
      { NormalizePlainPrefix(p, b); }
      p + Normalize(b);
      { NormalizeBreak(b); }
      p + ("\n" + Normalize(rest));
    }
    assert rest == s[i + BreakLength(b)..];
  }

  /** Typing the lines of a text ending in a line break (as every post's text
      does) reproduces that text exactly, up to the spelling of line breaks. */
  lemma {:induction false} TypedSplitLines(s: string)
    requires s == [] || EndsWithBreak(s)
    ensures Typed(SplitLines(s)) == Normalize(s)
    decreases |s|
  {
    if s != [] {
      SplitLinesAtBreak(s);
      var i := FirstBreak(s);
      FirstBreakPlain(s);
      NormalizeAt(s, i);
      var rest := s[i + BreakLength(s[i..])..];
      assert rest == [] || rest[|rest| - 1] == s[|s| - 1];
      TypedSplitLines(rest);
      var lines := [s[..i]] + SplitLines(rest);
      assert lines[1..] == SplitLines(rest);
    }
  }

  lemma {:induction false} TypedAppend(lines: seq<string>, l: string)
    ensures Typed(lines + [l]) == Typed(lines) + l + "\n"
  {
    if lines != [] {
      assert (lines + [l])[1..] == lines[1..] + [l];
      TypedAppend(lines[1..], l);
    }
  }

  lemma {:induction false} ContentEndsWithBreak(p: Post)
    ensures EndsWithBreak(Content(p))
  {
  }

  lemma {:induction false} FirstBreakIs(s: string, k: nat)
    requires k < |s| && IsLineBreak(s[k]) && NoLineBreak(s[..k])
    ensures FirstBreak(s) == k
    decreases k
  {
    if k > 0 {
      assert !IsLineBreak(s[..k][0]);
      assert s[1..][..k - 1] == s[..k][1..];
      FirstBreakIs(s[1..], k - 1);
    }
  }

  /** A line ended by \n comes off a text as its first line. */
  lemma {:induction false} SplitLinesCons(a: string, rest: string)
    requires NoLineBreak(a)
    ensures SplitLines(a + "\n" + rest) == [a] + SplitLines(rest)
  {
    var s := a + "\n" + rest;
    assert s[..|a|] == a && s[|a|] == '\n';
    FirstBreakIs(s, |a|);
    assert s[|a|..][0] == '\n';
    assert s[|a| + 1..] == rest;
  }

  /** A post whose title and body hold no line break is typed as four lines:
      the title line, a blank line, the body, a blank line. */
  lemma {:induction false} ContentLines(p: Post)
    requires NoLineBreak(p.title) && NoLineBreak(p.body)
    ensures SplitLines(Content(p)) == ["Title: " + p.title, "", p.body, ""]
  {
    var t := "Title: " + p.title;
    var s4: string := "\n";
    var s3 := p.body + "\n" + s4;
    var s2 := [] + "\n" + s3;
    calc {
      SplitLines(Content(p));
      { assert Content(p) == t + "\n" + s2; }
      SplitLines(t + "\n" + s2);
      { SplitLinesCons(t, s2); }
      [t] + SplitLines(s2);
      { SplitLinesCons([], s3); }
      [t] + ([[]] + SplitLines(s3));
      { SplitLinesCons(p.body, s4); }
      [t] + ([[]] + ([p.body] + SplitLines(s4)));
      { assert s4 == [] + "\n" + []; SplitLinesCons([], []); }
      [t] + ([[]] + ([p.body] + ([[]] + SplitLines([]))));
    }
  }

  /** Distinct post ids never share a file name. */
  lemma {:induction false} FileNameInjective(a: int, b: int)
    ensures FileName(a) == FileName(b) ==> a == b
  {
    if FileName(a) == FileName(b) {
      var fa := FileName(a);
      assert fa[5..|fa| - 4] == Decimal(a);
      assert FileName(b)[5..|fa| - 4] == Decimal(b);
      DecimalInjective(a, b);
    }
  }

  /** Types the post line by line and returns the keys sent (Enter as \n)
      and the file name of the save dialog. */
  method TypeAndSavePost(p: Post) returns (keys: string, fileName: string)
    ensures keys == Normalize(Content(p))
    ensures fileName == FileName(p.id)
  {
    var content := Content(p);
    var lines := SplitLines(content);
    keys := [];
    for i := 0 to |lines|
      invariant keys == Typed(lines[..i])
    {
      assert lines[..i + 1] == lines[..i] + [lines[i]];
      TypedAppend(lines[..i], lines[i]);
      keys := keys + lines[i] + "\n";
    }
    assert lines[..|lines|] == lines;
    ContentEndsWithBreak(p);
    TypedSplitLines(content);
    fileName := FileName(p.id);
  }
}
