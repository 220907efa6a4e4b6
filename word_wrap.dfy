/** The greedy word wrap of the fallback panel texture: the title is split
    on single spaces and packed into lines no wider than the texture minus
    its padding, as measured by the canvas font. The measurement is a
    parameter: any function from a string to its drawn width. */
module WordWrap {
  const TEX_SIZE: int := 512
  const PAD: int := 20
  /** `TEX_SIZE - PAD * 2` */
  const MAX_W: real := 472.0
  const LINE_H: int := 44
  const TEXT_Y: int := 80
  const SUBTITLE_GAP: int := 16

  // ---------------------------------------------------------------------
  // Splitting and joining on single spaces

  /** `s.split(' ')`: the pieces between single spaces, empty pieces kept,
      so there is always at least one. */
  function Split(s: string): (r: seq<string>)
    ensures |r| >= 1
  {
    if |s| == 0 then [""]
    else
      var r := Split(s[..|s| - 1]);
      var c := s[|s| - 1];
      if c == ' ' then r + [""] else r[..|r| - 1] + [r[|r| - 1] + [c]]
  }

  /** `words.join(' ')` */
  function Join(words: seq<string>): string {
    if |words| == 0 then ""
    else if |words| == 1 then words[0]
    else Join(words[..|words| - 1]) + " " + words[|words| - 1]
  }

  predicate NoSpace(w: string) {
    forall i :: 0 <= i < |w| ==> w[i] != ' '
  }

  /** Splitting then joining gives the string back. */
  lemma {:induction false} SplitJoin(s: string)
    ensures Join(Split(s)) == s
  {
    if |s| > 0 {
      var init := s[..|s| - 1];
      SplitJoin(init);
      var c := s[|s| - 1];
      assert s == init + [c];
      if c == ' ' {
        JoinSnoc(Split(init), "");
      } else {
        JoinExtendLast(Split(init), c);
      }
    }
  }

  /** No piece of a split holds a space. */
  lemma {:induction false} SplitNoSpace(s: string)
    ensures forall k :: 0 <= k < |Split(s)| ==> NoSpace(Split(s)[k])
  {
    if |s| > 0 {
      var init := s[..|s| - 1];
      SplitNoSpace(init);
      var c := s[|s| - 1];
      var r := Split(init);
      if c != ' ' {
        var last := r[|r| - 1];
        assert NoSpace(last + [c]) by {
          assert NoSpace(last);
        }
        var t := Split(s);
        assert t == r[..|r| - 1] + [last + [c]];
        forall k | 0 <= k < |t|
          ensures NoSpace(t[k])
        {
          if k < |r| - 1 {
            assert t[k] == r[k];
          }
        }
      }
    }
  }

  /** Appending a character to the last word appends it to the join. */
  lemma JoinExtendLast(words: seq<string>, c: char)
    requires |words| >= 1
    ensures Join(words[..|words| - 1] + [words[|words| - 1] + [c]]) == Join(words) + [c]
  {
    var n := |words|;
    var ext := words[..n - 1] + [words[n - 1] + [c]];
    if n > 1 {
      assert ext[..n - 1] == words[..n - 1];
    }
  }

  /** Joining one more word. */
  lemma JoinSnoc(words: seq<string>, w: string)
    requires |words| >= 1
    ensures Join(words + [w]) == Join(words) + " " + w
  {
    assert (words + [w])[..|words|] == words;
  }

  /** The first word of a string: everything before its first space. */
  function FirstWord(s: string): (r: string)
    ensures r <= s && NoSpace(r)
    ensures |r| < |s| ==> s[|r|] == ' '
  {
    if |s| == 0 || s[0] == ' ' then "" else [s[0]] + FirstWord(s[1..])
  }

  /** Text after a first word does not change it. */
  lemma {:induction false} FirstWordOfLonger(s: string, t: string)
    requires |s| > 0
    ensures FirstWord(s + " " + t) == FirstWord(s)
  {
    if s[0] != ' ' && |s| > 1 {
      assert (s + " " + t)[1..] == s[1..] + " " + t;
      FirstWordOfLonger(s[1..], t);
    } else if s[0] != ' ' {
      assert (s + " " + t)[1..] == " " + t;
    }
  }

  /** A word without spaces is its own first word. */
  lemma {:induction false} FirstWordOfWord(w: string)
    requires NoSpace(w)
    ensures FirstWord(w) == w
  {
    if |w| > 0 {
      FirstWordOfWord(w[1..]);
      assert w == [w[0]] + w[1..];
    }
  }

  // ---------------------------------------------------------------------
  // The wrap

  /** The loop state: the closed lines and the open line. */
  datatype Fill = Fill(lines: seq<string>, line: string)

  /** One iteration of the wrap loop on `word`. */
  function Step(f: Fill, word: string, measure: string -> real): Fill {
    var test := if f.line != "" then f.line + " " + word else word;
    if measure(test) > MAX_W then
      Fill(if f.line != "" then f.lines + [f.line] else f.lines, word)
    else
      Fill(f.lines, test)
  }

  /** The loop state after the given words. */
  function Run(words: seq<string>, measure: string -> real): Fill {
    if |words| == 0 then Fill([], "")
    else Step(Run(words[..|words| - 1], measure), words[|words| - 1], measure)
  }

  /** The closed lines plus the open line when it is non-empty. */
  function Close(f: Fill): seq<string> {
    if f.line != "" then f.lines + [f.line] else f.lines
  }

  /** The lines `createFallbackTexture` draws for a title. */
  function Wrapped(title: string, measure: string -> real): seq<string> {
    Close(Run(Split(title), measure))
  }

  /** The word-wrap loop of `createFallbackTexture`. */
  method Wrap(title: string, measure: string -> real) returns (lines: seq<string>)
    ensures lines == Wrapped(title, measure)
  {
    var words := Split(title);
    lines := [];
    var line := "";
    for i := 0 to |words|
      invariant Fill(lines, line) == Run(words[..i], measure)
    {
      var word := words[i];
      assert words[..i + 1][..i] == words[..i];
      var test := if line != "" then line + " " + word else word;
      if measure(test) > MAX_W {
        if line != "" {
          lines := lines + [line];
        }
        line := word;
      } else {
        line := test;
      }
    }
    assert words[..|words|] == words;
    if line != "" {
      lines := lines + [line];
    }
  }

  // ---------------------------------------------------------------------
  // Properties of the wrap

  /** The closed lines are non-empty. */
  lemma {:induction false} RunLinesNonEmpty(words: seq<string>, measure: string -> real)
    ensures forall k :: 0 <= k < |Run(words, measure).lines| ==> Run(words, measure).lines[k] != ""
  {
    if |words| > 0 {
      RunLinesNonEmpty(words[..|words| - 1], measure);
    }
  }

  /** Every drawn line is non-empty. */
  lemma LinesNonEmpty(title: string, measure: string -> real)
    ensures forall k :: 0 <= k < |Wrapped(title, measure)| ==> Wrapped(title, measure)[k] != ""
  {
    RunLinesNonEmpty(Split(title), measure);
  }

  /** With words free of spaces, a line holding a space was accepted by the
      width test, so it fits. */
  predicate SpacedLinesFit(lines: seq<string>, measure: string -> real) {
    forall k :: 0 <= k < |lines| && !NoSpace(lines[k]) ==> measure(lines[k]) <= MAX_W
  }

  lemma {:induction false} RunFits(words: seq<string>, measure: string -> real)
    requires forall k :: 0 <= k < |words| ==> NoSpace(words[k])
    ensures SpacedLinesFit(Close(Run(words, measure)) + [Run(words, measure).line], measure)
  {
    if |words| > 0 {
      var n := |words| - 1;
      RunFits(words[..n], measure);
      var f := Run(words[..n], measure);
      var lines := Close(f) + [f.line];
      assert forall k :: 0 <= k < |f.lines| ==> lines[k] == f.lines[k];
      assert f.line != "" ==> lines[|f.lines|] == f.line;
    }
  }

  /** Any line of two or more words measures at most MAX_W; only a line of one
      word may be wider. */
  lemma MultiWordLinesFit(title: string, measure: string -> real)
    ensures SpacedLinesFit(Wrapped(title, measure), measure)
  {
    SplitNoSpace(title);
    var f := Run(Split(title), measure);
    RunFits(Split(title), measure);
    assert forall k :: 0 <= k < |Close(f)| ==> (Close(f) + [f.line])[k] == Close(f)[k];
  }

  /** One step from a non-empty open line adds the word to the joined text. */
  lemma StepJoins(f: Fill, w: string, measure: string -> real)
    requires f.line != "" && w != ""
    ensures Join(Close(Step(f, w, measure))) == Join(Close(f)) + " " + w
  {
    if measure(f.line + " " + w) > MAX_W {
      assert Close(Step(f, w, measure)) == f.lines + [f.line] + [w];
      JoinSnoc(f.lines + [f.line], w);
    } else if f.lines != [] {
      ExtendJoins(f.lines, f.line, w);
    }
  }

  /** Extending the last line by a word extends the joined text by it. */
  lemma ExtendJoins(lines: seq<string>, line: string, w: string)
    requires lines != []
    ensures Join(lines + [line + " " + w]) == Join(lines + [line]) + " " + w
  {
    JoinSnoc(lines, line + " " + w);
    JoinSnoc(lines, line);
    var j := Join(lines);
    assert j + " " + (line + " " + w) == (j + " " + line) + " " + w;
  }

  /** With no empty words, the open line is empty only before the first word,
      and the lines joined with spaces are the words joined with spaces. */
  lemma {:induction false} RunJoins(words: seq<string>, measure: string -> real)
    requires forall k :: 0 <= k < |words| ==> words[k] != ""
    ensures (Run(words, measure).line == "") <==> |words| == 0
    ensures |words| > 0 ==> Join(Close(Run(words, measure))) == Join(words)
  {
    if |words| > 1 {
      var n := |words| - 1;
      RunJoins(words[..n], measure);
      StepJoins(Run(words[..n], measure), words[n], measure);
    }
  }

  /** When the title has no empty words (no leading, trailing or doubled
      space), the drawn lines joined with single spaces give the title back:
      the wrap loses and invents no text. */
  lemma LinesRejoinTitle(title: string, measure: string -> real)
    requires forall k :: 0 <= k < |Split(title)| ==> Split(title)[k] != ""
    ensures Join(Wrapped(title, measure)) == title
  {
    SplitJoin(title);
    RunJoins(Split(title), measure);
  }

  /** Each line but the last was closed because the next line's first word
      would not fit after it. */
  predicate ClosedForCause(lines: seq<string>, measure: string -> real) {
    forall k :: 0 <= k < |lines| - 1 ==> measure(lines[k] + " " + FirstWord(lines[k + 1])) > MAX_W
  }

  /** Appending a line whose first word did not fit after the last one. */
  lemma ClosedSnoc(lines: seq<string>, x: string, measure: string -> real)
    requires ClosedForCause(lines, measure)
    requires |lines| > 0 ==> measure(lines[|lines| - 1] + " " + FirstWord(x)) > MAX_W
    ensures ClosedForCause(lines + [x], measure)
  {
    var r := lines + [x];
    forall k | 0 <= k < |r| - 1
      ensures measure(r[k] + " " + FirstWord(r[k + 1])) > MAX_W
    {
      if k + 1 < |lines| {
        assert r[k] == lines[k] && r[k + 1] == lines[k + 1];
      }
    }
  }

  /** Replacing the last line by one with the same first word. */
  lemma ClosedReplaceLast(lines: seq<string>, x: string, measure: string -> real)
    requires |lines| > 0 && ClosedForCause(lines, measure)
    requires FirstWord(x) == FirstWord(lines[|lines| - 1])
    ensures ClosedForCause(lines[..|lines| - 1] + [x], measure)
  {
    var r := lines[..|lines| - 1] + [x];
    forall k | 0 <= k < |r| - 1
      ensures measure(r[k] + " " + FirstWord(r[k + 1])) > MAX_W
    {
      assert r[k] == lines[k];
      if k + 1 < |lines| - 1 {
        assert r[k + 1] == lines[k + 1];
      }
    }
  }

  lemma {:induction false} RunClosesForCause(words: seq<string>, measure: string -> real)
    requires forall k :: 0 <= k < |words| ==> words[k] != "" && NoSpace(words[k])
    ensures ClosedForCause(Run(words, measure).lines + [Run(words, measure).line], measure)
  {
    if |words| > 0 {
      var n := |words| - 1;
      var w := words[n];
      RunClosesForCause(words[..n], measure);
      RunJoins(words[..n], measure);
      var f := Run(words[..n], measure);
      var prev := f.lines + [f.line];
      if f.line == "" {
        assert Run(words, measure).lines == [];
      } else if measure(f.line + " " + w) > MAX_W {
        FirstWordOfWord(w);
        ClosedSnoc(prev, w, measure);
      } else {
        FirstWordOfLonger(f.line, w);
        ClosedReplaceLast(prev, f.line + " " + w, measure);
        assert prev[..|prev| - 1] == f.lines;
      }
    }
  }

  /** A line is closed only when the next word would not fit after it. */
  lemma LinesClosedForCause(title: string, measure: string -> real)
    requires forall k :: 0 <= k < |Split(title)| ==> Split(title)[k] != ""
    ensures ClosedForCause(Wrapped(title, measure), measure)
  {
    SplitNoSpace(title);
    RunClosesForCause(Split(title), measure);
    RunJoins(Split(title), measure);
  }

  // ---------------------------------------------------------------------
  // Placement

  /** A string drawn centred at `x`, with its baseline middle at `y`, squeezed to `maxWidth`. */
  datatype DrawnText = DrawnText(text: string, x: int, y: int, maxWidth: real)

  /** The title lines, then the subtitle when it is truthy. */
  function Placement(lines: seq<string>, subtitle: string): (r: seq<DrawnText>)
    ensures |r| == |lines| + (if subtitle != "" then 1 else 0)
    ensures forall i :: 0 <= i < |lines| ==> r[i] == DrawnText(lines[i], TEX_SIZE / 2, 80 + 44 * i, MAX_W)
    ensures subtitle != "" ==> r[|lines|] == DrawnText(subtitle, TEX_SIZE / 2, 80 + 44 * |lines| + 16, MAX_W)
  {
    seq(|lines|, i requires 0 <= i < |lines| => DrawnText(lines[i], TEX_SIZE / 2, TEXT_Y + i * LINE_H, MAX_W))
    + (if subtitle != "" then [DrawnText(subtitle, TEX_SIZE / 2, TEXT_Y + |lines| * LINE_H + SUBTITLE_GAP, MAX_W)] else [])
  }

  /** The drawing loop of `createFallbackTexture`: one `fillText` per line,
      then the subtitle when it is truthy. */
  method Draw(lines: seq<string>, subtitle: string) returns (drawn: seq<DrawnText>)
    ensures drawn == Placement(lines, subtitle)
  {
    drawn := [];
    for i := 0 to |lines|
      invariant |drawn| == i
      invariant forall k :: 0 <= k < i ==> drawn[k] == DrawnText(lines[k], TEX_SIZE / 2, TEXT_Y + k * LINE_H, MAX_W)
    {
      drawn := drawn + [DrawnText(lines[i], TEX_SIZE / 2, TEXT_Y + i * LINE_H, MAX_W)];
    }
    if subtitle != "" {
      drawn := drawn + [DrawnText(subtitle, TEX_SIZE / 2, TEXT_Y + |lines| * LINE_H + SUBTITLE_GAP, MAX_W)];
    }
  }

  /** Drawn texts go strictly down the texture, the subtitle 16 below the last line's slot. */
  lemma PlacementDescends(lines: seq<string>, subtitle: string, i: nat, j: nat)
    requires i < j < |Placement(lines, subtitle)|
    ensures Placement(lines, subtitle)[i].y < Placement(lines, subtitle)[j].y
  {
  }
}
