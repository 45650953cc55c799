/**
 * `adapt_text_for_speech`: the lighter clean-up the speech tool applies to
 * a script before synthesis.  Five rewrites, each one pass over the text,
 * in a fixed order; every `re.sub` is a left-to-right scan as in
 * `TextFormatter`.
 */
module SpeechAdapter {
  import opened Common

  // =====================================================================
  // Marks (`\*\*|\*|---` -> ``)
  // =====================================================================

  /** Length of the alternative that matches at the start of `s`, or 0. */
  function MarkAt(s: string): (n: nat)
    ensures n <= |s|
    ensures n > 0 <==> |s| > 0 && (s[0] == '*' || (|s| >= 3 && s[..3] == "---"))
  {
    if |s| >= 2 && s[0] == '*' && s[1] == '*' then 2
    else if |s| >= 1 && s[0] == '*' then 1
    else if |s| >= 3 && s[0] == '-' && s[1] == '-' && s[2] == '-' then 3
    else 0
  }

  /** The first rewrite: every match of the alternation is deleted. */
  function StripMarks(s: string): (r: string)
    ensures |r| <= |s|
    ensures forall i | 0 <= i < |r| :: r[i] in s && r[i] != '*'
    decreases |s|
  {
    if |s| == 0 then ""
    else if MarkAt(s) > 0 then StripMarks(s[MarkAt(s)..])
    else [s[0]] + StripMarks(s[1..])
  }

  /** A text with neither `*` nor `---` is unchanged. */
  lemma {:induction false} StripMarksKeeps(s: string)
    requires forall i | 0 <= i < |s| :: MarkAt(s[i..]) == 0
    ensures StripMarks(s) == s
    decreases |s|
  {
    if |s| > 0 {
      assert s[0..] == s;
      assert forall i | 0 <= i < |s[1..]| :: MarkAt(s[1..][i..]) == 0 by {
        forall i | 0 <= i < |s[1..]|
          ensures MarkAt(s[1..][i..]) == 0
        {
          assert s[1..][i..] == s[i + 1..];
        }
      }
      StripMarksKeeps(s[1..]);
    }
  }

  /**
   * One pass is not idempotent: deleting the `*` of `-*--` joins three
   * dashes, which a second pass would delete.
   */
  lemma StripMarksNotIdempotent()
    ensures StripMarks("-*--") == "---"
    ensures StripMarks("---") == ""
  {
    var s := "-*--";
    assert MarkAt(s) == 0;
    assert s[1..] == "*--";
    assert MarkAt("*--") == 1;
    assert "*--"[1..] == "--";
    assert MarkAt("--") == 0;
    assert "--"[1..] == "-";
    assert MarkAt("-") == 0;
    assert "-"[1..] == "";
    assert MarkAt("---") == 3;
    assert "---"[3..] == "";
  }

  // =====================================================================
  // Stage directions (`\(.*?\)` -> ``, `.` not matching a line break)
  // =====================================================================

  /** Length of the leading run of characters other than `)` and a line break. */
  function LineRun(s: string): (n: nat)
    ensures n <= |s|
    ensures forall k | 0 <= k < n :: s[k] != ')' && s[k] != '\n'
    ensures n < |s| ==> s[n] == ')' || s[n] == '\n'
  {
    if |s| == 0 || s[0] == ')' || s[0] == '\n' then 0 else 1 + LineRun(s[1..])
  }

  /**
   * A direction starts `s`: `(` and, on the same line, a `)`.  Being
   * lazy, the match ends at the first `)`.
   */
  predicate DirectionAt(s: string)
  {
    |s| > 0 && s[0] == '(' && 1 + LineRun(s[1..]) < |s| && s[1 + LineRun(s[1..])] == ')'
  }

  /** The second rewrite: every direction, parentheses included, is deleted. */
  function StripDirections(s: string): (r: string)
    ensures |r| <= |s|
    ensures forall i | 0 <= i < |r| :: r[i] in s
    decreases |s|
  {
    if |s| == 0 then ""
    else if DirectionAt(s) then StripDirections(s[2 + LineRun(s[1..])..])
    else [s[0]] + StripDirections(s[1..])
  }

  predicate NoDirection(s: string)
  {
    forall i | 0 <= i < |s| :: !DirectionAt(s[i..])
  }

  /** The first character put back in front of the rest of its line. */
  lemma LineCons(t: string, k: nat, rest: string)
    requires 0 < k <= |t|
    ensures [t[0]] + (t[1..][..k - 1] + rest) == t[..k] + rest
  {
    assert [t[0]] + t[1..][..k - 1] == t[..k];
  }

  /** Up to the next line break (or the end) with no `)` in between, the text is copied. */
  lemma {:induction false} StripDirectionsKeepsLine(t: string)
    requires LineRun(t) == |t| || t[LineRun(t)] == '\n'
    ensures StripDirections(t) == t[..LineRun(t)] + StripDirections(t[LineRun(t)..])
    decreases |t|
  {
    var k := LineRun(t);
    if k > 0 {
      assert LineRun(t[1..]) == k - 1;
      assert !DirectionAt(t);
      assert t[1..][k - 1..] == t[k..];
      StripDirectionsKeepsLine(t[1..]);
      LineCons(t, k, StripDirections(t[k..]));
    }
  }

  lemma LineRunOfAppend(a: string, b: string)
    requires forall k | 0 <= k < |a| :: a[k] != ')' && a[k] != '\n'
    requires |b| > 0 && b[0] == '\n'
    ensures LineRun(a + b) == |a|
  {
    if |a| > 0 {
      assert (a + b)[1..] == a[1..] + b;
      LineRunOfAppend(a[1..], b);
    } else {
      assert a + b == b;
    }
  }

  lemma LineRunOfAll(a: string)
    requires forall k | 0 <= k < |a| :: a[k] != ')' && a[k] != '\n'
    ensures LineRun(a) == |a|
  {
    if |a| > 0 {
      LineRunOfAll(a[1..]);
    }
  }

  /** An `(` with no `)` after it on its line has none in the output either. */
  lemma StripDirectionsOpenKept(s: string)
    requires |s| > 0 && s[0] == '(' && !DirectionAt(s)
    ensures !DirectionAt([s[0]] + StripDirections(s[1..]))
  {
    var t := s[1..];
    var k := LineRun(t);
    StripDirectionsKeepsLine(t);
    var rest := StripDirections(t[k..]);
    var out := [s[0]] + (t[..k] + rest);
    assert out[1..] == t[..k] + rest;
    if k < |t| {
      assert t[k..][0] == '\n';
      assert rest == ['\n'] + StripDirections(t[k..][1..]);
      LineRunOfAppend(t[..k], rest);
    } else {
      assert t[k..] == [];
      assert t[..k] + rest == t[..k];
      LineRunOfAll(t[..k]);
    }
  }

  lemma NoDirectionCons(c: char, t: string)
    requires !DirectionAt([c] + t) && NoDirection(t)
    ensures NoDirection([c] + t)
  {
    var s := [c] + t;
    forall i | 0 <= i < |s|
      ensures !DirectionAt(s[i..])
    {
      if i > 0 {
        assert s[i..] == t[i - 1..];
      } else {
        assert s[0..] == s;
      }
    }
  }

  /**
   * After the second rewrite no `(` has a `)` after it on the same line;
   * a text without a direction is unchanged.
   */
  lemma {:induction false} StripDirectionsSpec(s: string)
    ensures NoDirection(StripDirections(s))
    ensures NoDirection(s) ==> StripDirections(s) == s
    decreases |s|
  {
    if |s| > 0 {
      if DirectionAt(s) {
        StripDirectionsSpec(s[2 + LineRun(s[1..])..]);
        assert s[0..] == s;
      } else {
        var tail := StripDirections(s[1..]);
        StripDirectionsSpec(s[1..]);
        if s[0] == '(' {
          StripDirectionsOpenKept(s);
        } else {
          assert !DirectionAt([s[0]] + tail);
        }
        NoDirectionCons(s[0], tail);
        if NoDirection(s) {
          assert NoDirection(s[1..]) by {
            forall i | 0 <= i < |s[1..]|
              ensures !DirectionAt(s[1..][i..])
            {
              assert s[1..][i..] == s[i + 1..];
            }
          }
        }
      }
    }
  }

  // =====================================================================
  // Speaker labels (`^[A-Za-z]+:\s*` -> ``, multi-line)
  // =====================================================================

  /** Length of the leading run of ASCII letters. */
  function LetterRun(s: string): (n: nat)
    ensures n <= |s|
    ensures forall k | 0 <= k < n :: IsAsciiLetter(s[k])
    ensures n < |s| ==> !IsAsciiLetter(s[n])
  {
    if |s| == 0 || !IsAsciiLetter(s[0]) then 0 else 1 + LetterRun(s[1..])
  }

  /** A label starts `s`: letters, then `:`. */
  predicate LabelAt(s: string)
  {
    0 < LetterRun(s) < |s| && s[LetterRun(s)] == ':'
  }

  /** Characters a label match takes: the name, the colon and the whitespace after it. */
  function LabelLength(s: string): (n: nat)
    requires LabelAt(s)
    ensures 2 <= LetterRun(s) + 1 <= n <= |s|
    ensures AllSpace(s[LetterRun(s) + 1..n])
  {
    var m := LetterRun(s) + 1;
    var n := m + SpaceRun(s[m..]);
    assert s[m..n] == s[m..][..SpaceRun(s[m..])];
    n
  }

  /**
   * The third rewrite.  `lineStart` says whether the position follows a
   * line break of the original text (or is its start), which is where `^`
   * matches; the whitespace a label takes may include line breaks.
   */
  function StripLabels(s: string, lineStart: bool): (r: string)
    ensures |r| <= |s|
    ensures forall i | 0 <= i < |r| :: r[i] in s
    decreases |s|
  {
    if |s| == 0 then ""
    else if lineStart && LabelAt(s) then
      StripLabels(s[LabelLength(s)..], s[LabelLength(s) - 1] == '\n')
    else [s[0]] + StripLabels(s[1..], s[0] == '\n')
  }

  predicate NoLabel(s: string, lineStart: bool)
  {
    forall i | 0 <= i < |s| :: !((if i == 0 then lineStart else s[i - 1] == '\n') && LabelAt(s[i..]))
  }

  /** A text without a label at a line start is unchanged. */
  lemma {:induction false} StripLabelsKeeps(s: string, lineStart: bool)
    requires NoLabel(s, lineStart)
    ensures StripLabels(s, lineStart) == s
    decreases |s|
  {
    if |s| > 0 {
      assert s[0..] == s;
      assert NoLabel(s[1..], s[0] == '\n') by {
        forall i | 0 <= i < |s[1..]|
          ensures !((if i == 0 then s[0] == '\n' else s[1..][i - 1] == '\n') && LabelAt(s[1..][i..]))
        {
          assert s[1..][i..] == s[i + 1..];
        }
      }
      StripLabelsKeeps(s[1..], s[0] == '\n');
    }
  }

  /** Labels are looked for only at line starts: away from one, a single line is kept. */
  lemma StripLabelsMidLine(s: string)
    requires forall i | 0 <= i < |s| :: s[i] != '\n'
    ensures StripLabels(s, false) == s
  {
    StripLabelsKeeps(s, false);
  }

  lemma SpeakerLabel(name: string, blanks: string, line: string)
    requires |name| > 0 && forall k | 0 <= k < |name| :: IsAsciiLetter(name[k])
    requires AllSpace(blanks)
    requires |line| > 0 && !IsSpace(line[0])
    ensures var s := name + ":" + blanks + line;
      LabelAt(s) && LabelLength(s) == |name| + 1 + |blanks|
  {
    var s := name + ":" + blanks + line;
    assert s == name + (":" + blanks + line);
    LetterRunOfAppend(name, ":" + blanks + line);
    var m := |name| + 1;
    assert s[m..] == blanks + line;
    SpaceRunOfAppend(blanks, line);
  }

  /**
   * A speaker's name at a line start goes with its colon and the blanks
   * after it: `JARVIS: Bom dia` becomes `Bom dia`.
   */
  lemma StripLabelsDropsSpeaker(name: string, blanks: string, line: string)
    requires |name| > 0 && forall k | 0 <= k < |name| :: IsAsciiLetter(name[k])
    requires AllSpace(blanks) && forall k | 0 <= k < |blanks| :: blanks[k] != '\n'
    requires |line| > 0 && !IsSpace(line[0]) && forall k | 0 <= k < |line| :: line[k] != '\n'
    ensures StripLabels(name + ":" + blanks + line, true) == line
  {
    var s := name + ":" + blanks + line;
    SpeakerLabel(name, blanks, line);
    var n := |name| + 1 + |blanks|;
    assert s[n..] == line;
    assert s[n - 1] != '\n' by {
      if |blanks| > 0 {
        assert s[n - 1] == blanks[|blanks| - 1];
      } else {
        assert s[n - 1] == ':';
      }
    }
    StripLabelsMidLine(line);
  }

  /** Away from a line start, the text up to the next line break (with no `)` before it) is copied. */
  lemma {:induction false} StripLabelsKeepsLine(t: string)
    requires LineRun(t) == |t| || t[LineRun(t)] == '\n'
    ensures StripLabels(t, false) == t[..LineRun(t)] + StripLabels(t[LineRun(t)..], false)
    decreases |t|
  {
    var k := LineRun(t);
    if k > 0 {
      assert LineRun(t[1..]) == k - 1;
      assert t[0] != '\n';
      assert t[1..][k - 1..] == t[k..];
      StripLabelsKeepsLine(t[1..]);
      LineCons(t, k, StripLabels(t[k..], false));
    }
  }

  /** An `(` with no `)` after it on its line has none after the third rewrite either. */
  lemma StripLabelsOpenKept(s: string)
    requires |s| > 0 && s[0] == '(' && !DirectionAt(s)
    ensures !DirectionAt([s[0]] + StripLabels(s[1..], false))
  {
    var t := s[1..];
    var k := LineRun(t);
    StripLabelsKeepsLine(t);
    var rest := StripLabels(t[k..], false);
    var out := [s[0]] + (t[..k] + rest);
    assert out[1..] == t[..k] + rest;
    if k < |t| {
      assert t[k..][0] == '\n';
      assert rest == ['\n'] + StripLabels(t[k..][1..], true);
      LineRunOfAppend(t[..k], rest);
    } else {
      assert t[k..] == [];
      assert t[..k] + rest == t[..k];
      LineRunOfAll(t[..k]);
    }
  }

  lemma NoDirectionSuffix(s: string, n: nat)
    requires NoDirection(s) && n <= |s|
    ensures NoDirection(s[n..])
  {
    forall i | 0 <= i < |s[n..]|
      ensures !DirectionAt(s[n..][i..])
    {
      assert s[n..][i..] == s[n + i..];
    }
  }

  /**
   * The third rewrite keeps the second's guarantee.  A label match starts
   * at a line start and takes only letters, `:` and whitespace, so it
   * never reaches past an `(`, and the line break ending an `(`'s line
   * survives: no `)` is brought onto that line.
   */
  lemma {:induction false} StripLabelsKeepsNoDirection(s: string, lineStart: bool)
    requires NoDirection(s)
    ensures NoDirection(StripLabels(s, lineStart))
    decreases |s|
  {
    if |s| > 0 {
      if lineStart && LabelAt(s) {
        NoDirectionSuffix(s, LabelLength(s));
        StripLabelsKeepsNoDirection(s[LabelLength(s)..], s[LabelLength(s) - 1] == '\n');
      } else {
        NoDirectionSuffix(s, 1);
        StripLabelsKeepsNoDirection(s[1..], s[0] == '\n');
        var tail := StripLabels(s[1..], s[0] == '\n');
        if s[0] == '(' {
          assert s[0..] == s;
          StripLabelsOpenKept(s);
        }
        NoDirectionCons(s[0], tail);
      }
    }
  }

  /** Before line breaks are joined, no `(` has a `)` after it on its line. */
  lemma NoDirectionBeforeJoin(text: string)
    ensures NoDirection(MarkParagraphs(StripLabels(StripDirections(StripMarks(text)), true)))
  {
    var directions := StripDirections(StripMarks(text));
    StripDirectionsSpec(StripMarks(text));
    StripLabelsKeepsNoDirection(directions, true);
    MarkParagraphsKeepsNoDirection(StripLabels(directions, true));
  }

  lemma LetterRunOfAppend(a: string, b: string)
    requires forall k | 0 <= k < |a| :: IsAsciiLetter(a[k])
    requires |b| > 0 && !IsAsciiLetter(b[0])
    ensures LetterRun(a + b) == |a|
  {
    if |a| > 0 {
      assert (a + b)[1..] == a[1..] + b;
      LetterRunOfAppend(a[1..], b);
    } else {
      assert a + b == b;
    }
  }

  lemma SpaceRunOfAppend(a: string, b: string)
    requires AllSpace(a)
    requires |b| > 0 && !IsSpace(b[0])
    ensures SpaceRun(a + b) == |a|
  {
    if |a| > 0 {
      assert (a + b)[1..] == a[1..] + b;
      SpaceRunOfAppend(a[1..], b);
    } else {
      assert a + b == b;
    }
  }

  // =====================================================================
  // Line breaks (`"\n\n"` -> `".\n"`, then `"\n"` -> `" "`)
  // =====================================================================

  /** The fourth rewrite: `str.replace`, so pairs are taken left to right without overlap. */
  function MarkParagraphs(s: string): (r: string)
    ensures |r| == |s|
    ensures forall i | 0 <= i < |r| :: r[i] == s[i] || (r[i] == '.' && s[i] == '\n')
    decreases |s|
  {
    if |s| >= 2 && s[0] == '\n' && s[1] == '\n' then ".\n" + MarkParagraphs(s[2..])
    else if |s| == 0 then ""
    else [s[0]] + MarkParagraphs(s[1..])
  }

  /** Where a paragraph break was, the first line break becomes a full stop. */
  lemma MarkParagraphsPair(s: string)
    requires |s| >= 2 && s[0] == '\n' && s[1] == '\n'
    ensures MarkParagraphs(s)[..2] == ".\n"
  {
  }

  /** A text without a paragraph break is unchanged. */
  lemma {:induction false} MarkParagraphsKeeps(s: string)
    requires NoDouble(s, '\n')
    ensures MarkParagraphs(s) == s
    decreases |s|
  {
    if |s| > 0 {
      assert NoDouble(s[1..], '\n') by {
        forall i | 0 <= i < |s[1..]| - 1
          ensures !(s[1..][i] == '\n' && s[1..][i + 1] == '\n')
        {
          assert s[1..][i] == s[i + 1] && s[1..][i + 1] == s[i + 2];
        }
      }
      MarkParagraphsKeeps(s[1..]);
    }
  }

  /** Up to the next line break (with no `)` before it), the text is copied. */
  lemma {:induction false} MarkParagraphsKeepsLine(t: string)
    requires LineRun(t) == |t| || t[LineRun(t)] == '\n'
    ensures MarkParagraphs(t) == t[..LineRun(t)] + MarkParagraphs(t[LineRun(t)..])
    decreases |t|
  {
    var k := LineRun(t);
    if k > 0 {
      assert LineRun(t[1..]) == k - 1;
      assert t[0] != '\n';
      assert t[1..][k - 1..] == t[k..];
      MarkParagraphsKeepsLine(t[1..]);
      LineCons(t, k, MarkParagraphs(t[k..]));
    }
  }

  /** What the fourth rewrite makes of a text that starts with a line break. */
  lemma MarkParagraphsAtBreak(u: string)
    requires |u| > 0 && u[0] == '\n'
    ensures var r := MarkParagraphs(u);
      |r| > 0 && (r[0] == '\n' || (|r| >= 2 && r[0] == '.' && r[1] == '\n'))
  {
  }

  /** A line ended by a break, or by a full stop and a break, has no `)` at its end. */
  lemma LineRunToBreak(a: string, b: string)
    requires forall k | 0 <= k < |a| :: a[k] != ')' && a[k] != '\n'
    requires |b| > 0 && (b[0] == '\n' || (|b| >= 2 && b[0] == '.' && b[1] == '\n'))
    ensures LineRun(a + b) < |a + b| && (a + b)[LineRun(a + b)] == '\n'
  {
    if b[0] == '\n' {
      LineRunOfAppend(a, b);
    } else {
      assert a + b == (a + [b[0]]) + b[1..];
      LineRunOfAppend(a + [b[0]], b[1..]);
    }
  }

  /**
   * An `(` with no `)` after it on its line has none after the fourth
   * rewrite either: the break ending its line stays, or becomes a full
   * stop followed by a break.
   */
  lemma MarkParagraphsOpenKept(s: string)
    requires |s| > 0 && s[0] == '(' && !DirectionAt(s)
    ensures !DirectionAt([s[0]] + MarkParagraphs(s[1..]))
  {
    var t := s[1..];
    var k := LineRun(t);
    MarkParagraphsKeepsLine(t);
    var rest := MarkParagraphs(t[k..]);
    var out := [s[0]] + (t[..k] + rest);
    assert out[1..] == t[..k] + rest;
    if k < |t| {
      MarkParagraphsAtBreak(t[k..]);
      LineRunToBreak(t[..k], rest);
    } else {
      assert t[k..] == [];
      assert t[..k] + rest == t[..k];
      LineRunOfAll(t[..k]);
    }
  }

  /** The fourth rewrite keeps the guarantee of the second and third. */
  lemma {:induction false} MarkParagraphsKeepsNoDirection(s: string)
    requires NoDirection(s)
    ensures NoDirection(MarkParagraphs(s))
    decreases |s|
  {
    if |s| >= 2 && s[0] == '\n' && s[1] == '\n' {
      NoDirectionSuffix(s, 2);
      MarkParagraphsKeepsNoDirection(s[2..]);
      var tail := MarkParagraphs(s[2..]);
      NoDirectionCons('\n', tail);
      NoDirectionCons('.', ['\n'] + tail);
      assert ".\n" + tail == ['.'] + (['\n'] + tail);
    } else if |s| > 0 {
      NoDirectionSuffix(s, 1);
      MarkParagraphsKeepsNoDirection(s[1..]);
      if s[0] == '(' {
        assert s[0..] == s;
        MarkParagraphsOpenKept(s);
      }
      NoDirectionCons(s[0], MarkParagraphs(s[1..]));
    }
  }

  /** The fifth rewrite: every line break becomes a space. */
  function JoinLines(s: string): (r: string)
    ensures |r| == |s|
    ensures forall i | 0 <= i < |r| :: r[i] == (if s[i] == '\n' then ' ' else s[i])
    decreases |s|
  {
    if |s| == 0 then ""
    else [if s[0] == '\n' then ' ' else s[0]] + JoinLines(s[1..])
  }

  /**
   * Pairs do not overlap: of three breaks in a row only the first two form
   * a pair, so two breaks are left side by side.
   */
  lemma MarkParagraphsTriple()
    ensures MarkParagraphs("\n\n\n") == ".\n\n"
  {
    assert "\n\n\n"[2..] == "\n";
    assert "\n"[1..] == "";
  }

  /** Only line breaks are rewritten: a text without one is unchanged. */
  lemma JoinLinesKeeps(s: string)
    requires forall i | 0 <= i < |s| :: s[i] != '\n'
    ensures JoinLines(s) == s
  {
  }

  // =====================================================================
  // The whole adapter
  // =====================================================================

  /** `adapt_text_for_speech`. */
  function AdaptTextForSpeech(text: string): string
  {
    Strip(JoinLines(MarkParagraphs(StripLabels(StripDirections(StripMarks(text)), true))))
  }

  /**
   * A script the rewrites have nothing to do to: no `*` and no `---`, no
   * `(` and no `:`, no paragraph break, and no whitespace at either end.
   */
  predicate PlainScript(t: string)
  {
    && (forall i | 0 <= i < |t| :: MarkAt(t[i..]) == 0 && t[i] != '(' && t[i] != ':')
    && NoDouble(t, '\n')
    && (|t| > 0 ==> !IsSpace(t[0]) && !IsSpace(t[|t| - 1]))
  }

  /** `strip()` keeps a text with no whitespace at either end. */
  lemma StripKeeps(s: string)
    requires |s| > 0 ==> !IsSpace(s[0]) && !IsSpace(s[|s| - 1])
    ensures Strip(s) == s
  {
    var r := Strip(s);
    if |s| > 0 {
      assert SpaceRun(s) == 0;
    }
  }

  /**
   * The words of a plain script reach speech as they are: only its line
   * breaks change, each becoming a space.
   */
  lemma AdaptKeepsPlainScript(t: string)
    requires PlainScript(t)
    ensures AdaptTextForSpeech(t) == JoinLines(t)
  {
    StripMarksKeeps(t);
    assert StripMarks(t) == t;
    PlainNoDirection(t);
    StripDirectionsSpec(t);
    assert StripDirections(t) == t;
    PlainNoLabel(t);
    StripLabelsKeeps(t, true);
    assert StripLabels(t, true) == t;
    MarkParagraphsKeeps(t);
    assert MarkParagraphs(t) == t;
    JoinLinesEnds(t);
    StripKeeps(JoinLines(t));
  }

  lemma JoinLinesEnds(t: string)
    requires |t| > 0 ==> !IsSpace(t[0]) && !IsSpace(t[|t| - 1])
    ensures var j := JoinLines(t); |j| > 0 ==> !IsSpace(j[0]) && !IsSpace(j[|j| - 1])
  {
  }

  lemma PlainNoDirection(t: string)
    requires forall i | 0 <= i < |t| :: t[i] != '('
    ensures NoDirection(t)
  {
    forall i | 0 <= i < |t|
      ensures !DirectionAt(t[i..])
    {
      assert t[i..][0] == t[i];
    }
  }

  lemma PlainNoLabel(t: string)
    requires forall i | 0 <= i < |t| :: t[i] != ':'
    ensures NoLabel(t, true)
  {
    forall i | 0 <= i < |t|
      ensures !LabelAt(t[i..])
    {
      var u := t[i..];
      assert forall k | 0 <= k < |u| :: u[k] != ':';
    }
  }

  /** A one-line plain script is spoken exactly as written. */
  lemma AdaptKeepsPlainLine(t: string)
    requires PlainScript(t)
    requires forall i | 0 <= i < |t| :: t[i] != '\n'
    ensures AdaptTextForSpeech(t) == t
  {
    AdaptKeepsPlainScript(t);
    JoinLinesKeeps(t);
  }

  /** The result has no `*`, no line break and no whitespace at either end. */
  lemma AdaptTextForSpeechSpec(text: string)
    ensures var r := AdaptTextForSpeech(text);
      && (forall i | 0 <= i < |r| :: r[i] != '*' && r[i] != '\n')
      && (|r| > 0 ==> !IsSpace(r[0]) && !IsSpace(r[|r| - 1]))
  {
    var marks := StripMarks(text);
    var directions := StripDirections(marks);
    var labels := StripLabels(directions, true);
    var paragraphs := MarkParagraphs(labels);
    var joined := JoinLines(paragraphs);
    var r := Strip(joined);
    forall i | 0 <= i < |r|
      ensures r[i] != '*' && r[i] != '\n'
    {
      var j := SpaceRun(joined) + i;
      assert r[i] == joined[j];
      if paragraphs[j] != '.' && paragraphs[j] != '\n' {
        assert labels[j] == paragraphs[j];
        var k :| 0 <= k < |directions| && directions[k] == labels[j];
        var m :| 0 <= m < |marks| && marks[m] == directions[k];
      }
    }
  }
}
