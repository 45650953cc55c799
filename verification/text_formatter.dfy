/**
 * `format_for_speech` and `format_with_ssml`: the text clean-up applied
 * before speech synthesis.
 *
 * Each numbered step of the source is a `re.sub` (or `str` method) over the
 * whole text and is modelled as its own function.  A `re.sub` scans left to
 * right: where the pattern matches it emits the replacement and resumes
 * after the match, elsewhere it copies one character and moves on.  Every
 * step function follows that scan, recursing on the rest of the string.
 */
module TextFormatter {
  import opened Common

  // =====================================================================
  // Step 1: URLs (`https?://[^\s]+`, then `www\.[^\s]+`)
  // =====================================================================

  /** `s` starts with `prefix` and its non-whitespace run goes past it. */
  predicate RunAfter(s: string, prefix: string)
  {
    |prefix| <= |s| && s[..|prefix|] == prefix && NonSpaceRun(s) > |prefix|
  }

  /** One of the alternatives of the pattern matches at the start of `s`. */
  predicate MatchAny(s: string, prefixes: seq<string>)
    ensures MatchAny(s, prefixes) ==> NonSpaceRun(s) > 0
  {
    |prefixes| > 0 && (RunAfter(s, prefixes[0]) || MatchAny(s, prefixes[1..]))
  }

  const HttpPrefixes: seq<string> := ["https://", "http://"]
  const WwwPrefixes: seq<string> := ["www."]

  /**
   * Deletes every match: a match starts where a prefix begins a longer
   * non-whitespace run and, the class being greedy, takes the whole run.
   */
  function StripRuns(s: string, prefixes: seq<string>): (r: string)
    ensures |r| <= |s|
    ensures |s| > 0 && IsSpace(s[0]) ==> |r| > 0 && r[0] == s[0]
    ensures forall i | 0 <= i < |r| :: r[i] in s
    decreases |s|
  {
    if |s| == 0 then ""
    else if MatchAny(s, prefixes) then StripRuns(s[NonSpaceRun(s)..], prefixes)
    else [s[0]] + StripRuns(s[1..], prefixes)
  }

  /** No alternative of the pattern matches anywhere in `s`. */
  predicate Clean(s: string, prefixes: seq<string>)
  {
    forall i | 0 <= i < |s| :: !MatchAny(s[i..], prefixes)
  }

  /** Step 1. */
  function StripUrls(s: string): string
  {
    StripRuns(StripRuns(s, HttpPrefixes), WwwPrefixes)
  }

  /** `a`'s leading non-whitespace run is a prefix of `b`'s. */
  predicate RunPrefix(a: string, b: string)
  {
    NonSpaceRun(a) <= NonSpaceRun(b) && a[..NonSpaceRun(a)] == b[..NonSpaceRun(a)]
  }

  /** Whether an alternative matches depends only on the leading run. */
  lemma {:induction false} MatchAnyTransfers(a: string, b: string, prefixes: seq<string>)
    requires RunPrefix(a, b) && MatchAny(a, prefixes)
    ensures MatchAny(b, prefixes)
    decreases |prefixes|
  {
    if RunAfter(a, prefixes[0]) {
      var p := prefixes[0];
      var k := NonSpaceRun(a);
      assert a[..|p|] == a[..k][..|p|];
      assert b[..|p|] == b[..k][..|p|];
    } else {
      MatchAnyTransfers(a, b, prefixes[1..]);
    }
  }

  lemma RunOfCons(c: char, t: string)
    requires !IsSpace(c)
    ensures NonSpaceRun([c] + t) == 1 + NonSpaceRun(t)
  {
    assert ([c] + t)[1..] == t;
  }

  /** Putting the same visible character in front of both keeps the prefix relation. */
  lemma ConsRunPrefix(c: char, a: string, b: string)
    requires !IsSpace(c) && RunPrefix(a, b)
    ensures RunPrefix([c] + a, [c] + b)
  {
    RunOfCons(c, a);
    RunOfCons(c, b);
    var k := NonSpaceRun(a);
    assert ([c] + a)[..k + 1] == [c] + a[..k];
    assert ([c] + b)[..k + 1] == [c] + b[..k];
  }

  /**
   * Deleting never lengthens the leading run: the output's leading run is
   * a prefix of the input's.
   */
  lemma {:induction false} StripLeadRun(t: string, prefixes: seq<string>)
    ensures RunPrefix(StripRuns(t, prefixes), t)
    decreases |t|
  {
    var r := StripRuns(t, prefixes);
    if |t| == 0 {
    } else if MatchAny(t, prefixes) {
      var rest := t[NonSpaceRun(t)..];
      assert r == StripRuns(rest, prefixes);
      assert NonSpaceRun(r) == 0;
    } else if IsSpace(t[0]) {
      assert NonSpaceRun(r) == 0;
    } else {
      StripLeadRun(t[1..], prefixes);
      ConsRunPrefix(t[0], StripRuns(t[1..], prefixes), t[1..]);
      assert t == [t[0]] + t[1..];
    }
  }

  lemma CleanCons(c: char, t: string, prefixes: seq<string>)
    requires !MatchAny([c] + t, prefixes) && Clean(t, prefixes)
    ensures Clean([c] + t, prefixes)
  {
    var s := [c] + t;
    forall i | 0 <= i < |s|
      ensures !MatchAny(s[i..], prefixes)
    {
      if i > 0 {
        assert s[i..] == t[i - 1..];
      }
    }
  }

  /** After a strip no match is left anywhere. */
  lemma {:induction false} StripRunsClean(s: string, prefixes: seq<string>)
    ensures Clean(StripRuns(s, prefixes), prefixes)
    decreases |s|
  {
    if |s| == 0 {
    } else if MatchAny(s, prefixes) {
      StripRunsClean(s[NonSpaceRun(s)..], prefixes);
    } else {
      var tail := StripRuns(s[1..], prefixes);
      StripRunsClean(s[1..], prefixes);
      if !IsSpace(s[0]) {
        StripLeadRun(s[1..], prefixes);
        ConsRunPrefix(s[0], tail, s[1..]);
        assert s == [s[0]] + s[1..];
        if MatchAny([s[0]] + tail, prefixes) {
          MatchAnyTransfers([s[0]] + tail, s, prefixes);
        }
      }
      CleanCons(s[0], tail, prefixes);
    }
  }

  /** A strip keeps a text clean of any other pattern of the same shape. */
  lemma {:induction false} StripRunsKeepsClean(s: string, prefixes: seq<string>, others: seq<string>)
    requires Clean(s, others)
    ensures Clean(StripRuns(s, prefixes), others)
    decreases |s|
  {
    if |s| == 0 {
    } else if MatchAny(s, prefixes) {
      StripRunsKeepsClean(s[NonSpaceRun(s)..], prefixes, others);
    } else {
      var tail := StripRuns(s[1..], prefixes);
      StripRunsKeepsClean(s[1..], prefixes, others);
      if !IsSpace(s[0]) {
        StripLeadRun(s[1..], prefixes);
        ConsRunPrefix(s[0], tail, s[1..]);
        assert s == [s[0]] + s[1..];
        assert s[0..] == s;
        if MatchAny([s[0]] + tail, others) {
          MatchAnyTransfers([s[0]] + tail, s, others);
        }
      } else {
        assert NonSpaceRun([s[0]] + tail) == 0;
      }
      CleanCons(s[0], tail, others);
    }
  }

  /** A text without a match is left as it is. */
  lemma {:induction false} StripRunsOfClean(s: string, prefixes: seq<string>)
    requires Clean(s, prefixes)
    ensures StripRuns(s, prefixes) == s
    decreases |s|
  {
    if |s| > 0 {
      assert s[0..] == s;
      assert Clean(s[1..], prefixes) by {
        forall i | 0 <= i < |s[1..]|
          ensures !MatchAny(s[1..][i..], prefixes)
        {
          assert s[1..][i..] == s[i + 1..];
        }
      }
      StripRunsOfClean(s[1..], prefixes);
    }
  }

  /**
   * Step 1 leaves no `http://`, `https://` or `www.` run behind, and
   * leaves a text without one unchanged.
   */
  lemma StripUrlsSpec(s: string)
    ensures Clean(StripUrls(s), HttpPrefixes) && Clean(StripUrls(s), WwwPrefixes)
    ensures Clean(s, HttpPrefixes) && Clean(s, WwwPrefixes) ==> StripUrls(s) == s
  {
    var once := StripRuns(s, HttpPrefixes);
    StripRunsClean(once, WwwPrefixes);
    StripRunsClean(s, HttpPrefixes);
    StripRunsKeepsClean(once, WwwPrefixes, HttpPrefixes);
    if Clean(s, HttpPrefixes) && Clean(s, WwwPrefixes) {
      StripRunsOfClean(s, HttpPrefixes);
      StripRunsOfClean(s, WwwPrefixes);
    }
  }

  // =====================================================================
  // Step 3: repeated punctuation (`([!?.])\1{2,}` -> `\1`)
  // =====================================================================

  predicate IsRepeatable(c: char)
  {
    c == '!' || c == '?' || c == '.'
  }

  /** Three copies of the same `!`, `?` or `.` start `s`. */
  predicate TripleAt(s: string)
  {
    |s| >= 3 && IsRepeatable(s[0]) && s[1] == s[0] && s[2] == s[0]
  }

  /** Step 3: a run of three or more copies becomes one copy. */
  function CollapseRepeats(s: string): (r: string)
    ensures |r| <= |s|
    ensures |s| > 0 ==> |r| > 0 && r[0] == s[0]
    ensures forall i | 0 <= i < |r| :: r[i] in s
    decreases |s|
  {
    if |s| == 0 then ""
    else if TripleAt(s) then [s[0]] + CollapseRepeats(s[CharRun(s, s[0])..])
    else [s[0]] + CollapseRepeats(s[1..])
  }

  predicate NoTriples(s: string)
  {
    forall i | 0 <= i < |s| :: !TripleAt(s[i..])
  }

  lemma NoTriplesCons(c: char, t: string)
    requires !TripleAt([c] + t) && NoTriples(t)
    ensures NoTriples([c] + t)
  {
    var s := [c] + t;
    forall i | 0 <= i < |s|
      ensures !TripleAt(s[i..])
    {
      if i > 0 {
        assert s[i..] == t[i - 1..];
      } else {
        assert s[0..] == s;
      }
    }
  }

  /** After step 3 no `!`, `?` or `.` appears three times in a row. */
  lemma {:induction false} CollapseRepeatsNoTriples(s: string)
    ensures NoTriples(CollapseRepeats(s))
    decreases |s|
  {
    if |s| == 0 {
    } else if TripleAt(s) {
      var n := CharRun(s, s[0]);
      CollapseRepeatsNoTriples(s[n..]);
      NoTriplesCons(s[0], CollapseRepeats(s[n..]));
    } else {
      var tail := CollapseRepeats(s[1..]);
      CollapseRepeatsNoTriples(s[1..]);
      if |s| >= 3 && IsRepeatable(s[0]) && s[1] == s[0] {
        assert !TripleAt(s[1..]);
        assert tail == [s[1]] + CollapseRepeats(s[2..]);
        assert tail[1] == s[2];
      }
      NoTriplesCons(s[0], tail);
    }
  }

  /** Runs of one or two copies are kept: a text without triples is unchanged. */
  lemma {:induction false} CollapseRepeatsKeeps(s: string)
    requires NoTriples(s)
    ensures CollapseRepeats(s) == s
    decreases |s|
  {
    if |s| > 0 {
      assert s[0..] == s;
      assert NoTriples(s[1..]) by {
        forall i | 0 <= i < |s[1..]|
          ensures !TripleAt(s[1..][i..])
        {
          assert s[1..][i..] == s[i + 1..];
        }
      }
      CollapseRepeatsKeeps(s[1..]);
    }
  }

  // =====================================================================
  // Step 4: spacing after punctuation (`([.!?,;:])\s*` -> `\1 `)
  // =====================================================================

  predicate IsPunct(c: char)
  {
    c == '.' || c == '!' || c == '?' || c == ',' || c == ';' || c == ':'
  }

  /** Step 4: each mark and the whitespace after it become the mark and one space. */
  function SpaceAfterPunct(s: string): (r: string)
    ensures |s| > 0 ==> |r| > 0 && r[0] == s[0]
    decreases |s|
  {
    if |s| == 0 then ""
    else if IsPunct(s[0]) then [s[0], ' '] + SpaceAfterPunct(s[1..][SpaceRun(s[1..])..])
    else [s[0]] + SpaceAfterPunct(s[1..])
  }

  /** Every mark is followed by exactly one space and then by visible text or the end. */
  predicate PunctSpaced(r: string)
  {
    forall i | 0 <= i < |r| && IsPunct(r[i]) ::
      i + 1 < |r| && r[i + 1] == ' ' && (i + 2 == |r| || !IsSpace(r[i + 2]))
  }

  /** Step 4 puts exactly one space after every mark. */
  lemma {:induction false} SpaceAfterPunctSpaced(s: string)
    ensures PunctSpaced(SpaceAfterPunct(s))
    decreases |s|
  {
    if |s| > 0 {
      var r := SpaceAfterPunct(s);
      if IsPunct(s[0]) {
        var t := s[1..];
        var n := SpaceRun(t);
        var tail := SpaceAfterPunct(t[n..]);
        SpaceAfterPunctSpaced(t[n..]);
        assert r == [s[0], ' '] + tail;
        forall i | 0 <= i < |r| && IsPunct(r[i])
          ensures i + 1 < |r| && r[i + 1] == ' ' && (i + 2 == |r| || !IsSpace(r[i + 2]))
        {
          if i >= 2 {
            assert r[i] == tail[i - 2];
          } else if i == 0 && |tail| > 0 {
            assert t[n..][0] == t[n];
          }
        }
      } else {
        var tail := SpaceAfterPunct(s[1..]);
        SpaceAfterPunctSpaced(s[1..]);
        assert r == [s[0]] + tail;
        forall i | 0 <= i < |r| && IsPunct(r[i])
          ensures i + 1 < |r| && r[i + 1] == ' ' && (i + 2 == |r| || !IsSpace(r[i + 2]))
        {
          assert r[i] == tail[i - 1];
        }
      }
    }
  }

  lemma NonSpaceCons(c: char, x: string)
    ensures NonSpace([c] + x) == if IsSpace(c) then NonSpace(x) else [c] + NonSpace(x)
  {
    assert ([c] + x)[1..] == x;
  }

  lemma NonSpaceSkipsSpaceRun(t: string)
    ensures NonSpace(t[SpaceRun(t)..]) == NonSpace(t)
  {
    var n := SpaceRun(t);
    assert t == t[..n] + t[n..];
    NonSpaceAppend(t[..n], t[n..]);
    NonSpaceOfAllSpace(t[..n]);
  }

  /** The visible text of a mark, a space and a tail that keeps the visible text of `t`. */
  lemma VisibleMarkCons(c: char, t: string, tail: string)
    requires !IsSpace(c)
    requires NonSpace(tail) == NonSpace(t[SpaceRun(t)..])
    ensures NonSpace([c] + ([' '] + tail)) == NonSpace([c] + t)
  {
    NonSpaceCons(c, [' '] + tail);
    NonSpaceCons(' ', tail);
    NonSpaceSkipsSpaceRun(t);
    NonSpaceCons(c, t);
  }

  /** One step of the proof below: a mark, its whitespace dropped, then one space. */
  lemma VisibleAfterMark(c: char, t: string)
    requires IsPunct(c)
    requires NonSpace(SpaceAfterPunct(t[SpaceRun(t)..])) == NonSpace(t[SpaceRun(t)..])
    ensures NonSpace(SpaceAfterPunct([c] + t)) == NonSpace([c] + t)
  {
    SpaceAfterPunctAtMark(c, t);
    VisibleMarkCons(c, t, SpaceAfterPunct(t[SpaceRun(t)..]));
  }

  /** The other step: a character that is not a mark is copied. */
  lemma VisibleAfterOther(c: char, t: string)
    requires !IsPunct(c)
    requires NonSpace(SpaceAfterPunct(t)) == NonSpace(t)
    ensures NonSpace(SpaceAfterPunct([c] + t)) == NonSpace([c] + t)
  {
    var s := [c] + t;
    assert s[0] == c && s[1..] == t;
    assert SpaceAfterPunct(s) == [c] + SpaceAfterPunct(t);
    NonSpaceCons(c, t);
    NonSpaceCons(c, SpaceAfterPunct(t));
  }

  lemma VisibleAfterMarkAt(s: string)
    requires |s| > 0 && IsPunct(s[0])
    requires NonSpace(SpaceAfterPunct(s[1..][SpaceRun(s[1..])..])) == NonSpace(s[1..][SpaceRun(s[1..])..])
    ensures NonSpace(SpaceAfterPunct(s)) == NonSpace(s)
  {
    assert s == [s[0]] + s[1..];
    VisibleAfterMark(s[0], s[1..]);
  }

  lemma VisibleAfterOtherAt(s: string)
    requires |s| > 0 && !IsPunct(s[0])
    requires NonSpace(SpaceAfterPunct(s[1..])) == NonSpace(s[1..])
    ensures NonSpace(SpaceAfterPunct(s)) == NonSpace(s)
  {
    assert s == [s[0]] + s[1..];
    VisibleAfterOther(s[0], s[1..]);
  }

  lemma SpaceAfterPunctAtMark(c: char, t: string)
    requires IsPunct(c)
    ensures SpaceAfterPunct([c] + t) == [c] + ([' '] + SpaceAfterPunct(t[SpaceRun(t)..]))
  {
    var s := [c] + t;
    assert s[0] == c && s[1..] == t;
    var tail := SpaceAfterPunct(t[SpaceRun(t)..]);
    assert SpaceAfterPunct(s) == [c, ' '] + tail;
    assert [c, ' '] + tail == [c] + ([' '] + tail);
  }

  /** Step 4 only adds or removes whitespace: the visible text is unchanged. */
  lemma {:induction false} SpaceAfterPunctVisible(s: string)
    ensures NonSpace(SpaceAfterPunct(s)) == NonSpace(s)
    decreases |s|
  {
    if |s| > 0 {
      if IsPunct(s[0]) {
        SpaceAfterPunctVisible(s[1..][SpaceRun(s[1..])..]);
        VisibleAfterMarkAt(s);
      } else {
        SpaceAfterPunctVisible(s[1..]);
        VisibleAfterOtherAt(s);
      }
    }
  }

  // =====================================================================
  // Steps 5 and 10: runs (`-{2,}` -> ` `, `\n{2,}` -> `\n`)
  // =====================================================================

  /** A run of two or more `c` becomes the single character `into`. */
  function CollapseRuns(s: string, c: char, into: char): (r: string)
    ensures |s| > 0 ==> |r| > 0 && r[0] == (if s[0] == c && CharRun(s, c) >= 2 then into else s[0])
    decreases |s|
  {
    if |s| == 0 then ""
    else if s[0] == c && CharRun(s, c) >= 2 then [into] + CollapseRuns(s[CharRun(s, c)..], c, into)
    else [s[0]] + CollapseRuns(s[1..], c, into)
  }

  /** After the collapse no two copies of `c` are adjacent. */
  lemma {:induction false} CollapseRunsNoDouble(s: string, c: char, into: char)
    ensures NoDouble(CollapseRuns(s, c, into), c)
    decreases |s|
  {
    if |s| > 0 {
      var r := CollapseRuns(s, c, into);
      var n := if s[0] == c && CharRun(s, c) >= 2 then CharRun(s, c) else 1;
      var tail := CollapseRuns(s[n..], c, into);
      CollapseRunsNoDouble(s[n..], c, into);
      assert r == [r[0]] + tail;
      if |tail| > 0 && r[0] == c {
        assert s[n..][0] == s[n];
        assert tail[0] != c;
      }
      forall i | 0 <= i < |r| - 1
        ensures !(r[i] == c && r[i + 1] == c)
      {
        if i > 0 {
          assert r[i] == tail[i - 1] && r[i + 1] == tail[i];
        }
      }
    }
  }

  /** A text without a pair of `c` is unchanged. */
  lemma {:induction false} CollapseRunsKeeps(s: string, c: char, into: char)
    requires NoDouble(s, c)
    ensures CollapseRuns(s, c, into) == s
    decreases |s|
  {
    if |s| > 0 {
      assert !(s[0] == c && CharRun(s, c) >= 2);
      assert NoDouble(s[1..], c) by {
        forall i | 0 <= i < |s[1..]| - 1
          ensures !(s[1..][i] == c && s[1..][i + 1] == c)
        {
          assert s[1..][i] == s[i + 1] && s[1..][i + 1] == s[i + 2];
        }
      }
      CollapseRunsKeeps(s[1..], c, into);
      assert s == [s[0]] + s[1..];
    }
  }

  /** After the collapse no two copies of `c` are adjacent; a text without a pair is unchanged. */
  lemma CollapseRunsSpec(s: string, c: char, into: char)
    ensures NoDouble(CollapseRuns(s, c, into), c)
    ensures NoDouble(s, c) ==> CollapseRuns(s, c, into) == s
  {
    CollapseRunsNoDouble(s, c, into);
    if NoDouble(s, c) {
      CollapseRunsKeeps(s, c, into);
    }
  }

  /** Step 5. */
  function CollapseDashes(s: string): string
  {
    CollapseRuns(s, '-', ' ')
  }

  // =====================================================================
  // Step 6: emphasis marks (`[\*_`~]` -> ``)
  // =====================================================================

  predicate IsEmphasis(c: char)
  {
    c == '*' || c == '_' || c == '`' || c == '~'
  }

  /** Step 6. */
  function StripEmphasis(s: string): (r: string)
    ensures forall i | 0 <= i < |r| :: r[i] in s && !IsEmphasis(r[i])
    decreases |s|
  {
    if |s| == 0 then ""
    else if IsEmphasis(s[0]) then StripEmphasis(s[1..])
    else [s[0]] + StripEmphasis(s[1..])
  }

  /** Step 6 drops exactly the emphasis marks: every other character keeps its count. */
  lemma {:induction false} StripEmphasisCounts(s: string)
    ensures forall c | IsEmphasis(c) :: multiset(StripEmphasis(s))[c] == 0
    ensures forall c | !IsEmphasis(c) :: multiset(StripEmphasis(s))[c] == multiset(s)[c]
    decreases |s|
  {
    if |s| > 0 {
      StripEmphasisCounts(s[1..]);
      assert s == [s[0]] + s[1..];
      assert multiset(s) == multiset{s[0]} + multiset(s[1..]);
      if !IsEmphasis(s[0]) {
        assert multiset(StripEmphasis(s)) == multiset{s[0]} + multiset(StripEmphasis(s[1..]));
      }
    }
  }

  // =====================================================================
  // Step 7: long asides (`\([^)]{100,}\)` -> ``)
  // =====================================================================

  /** Length of the leading run of characters other than `)`. */
  function OpenRun(s: string): (n: nat)
    ensures n <= |s|
    ensures forall k | 0 <= k < n :: s[k] != ')'
    ensures n < |s| ==> s[n] == ')'
  {
    if |s| == 0 || s[0] == ')' then 0 else 1 + OpenRun(s[1..])
  }

  const MinAside := 100

  /**
   * An aside starts `s`: `(`, at least a hundred characters none of which
   * is `)`, then `)`.  Being greedy, the class takes the whole run.
   */
  predicate LongAsideAt(s: string)
  {
    |s| > 0 && s[0] == '(' && OpenRun(s[1..]) >= MinAside && 1 + OpenRun(s[1..]) < |s|
  }

  /** Step 7: every long aside, parentheses included, is deleted. */
  function StripAsides(s: string): (r: string)
    ensures |r| <= |s|
    ensures forall i | 0 <= i < |r| :: r[i] in s
    decreases |s|
  {
    if |s| == 0 then ""
    else if LongAsideAt(s) then StripAsides(s[2 + OpenRun(s[1..])..])
    else [s[0]] + StripAsides(s[1..])
  }

  predicate NoLongAside(s: string)
  {
    forall i | 0 <= i < |s| :: !LongAsideAt(s[i..])
  }

  /** A run too short to hold an aside, or one never closed, is copied as it is. */
  lemma {:induction false} StripAsidesKeepsRun(t: string)
    requires OpenRun(t) <= MinAside || OpenRun(t) == |t|
    ensures StripAsides(t) == t[..OpenRun(t)] + StripAsides(t[OpenRun(t)..])
    decreases |t|
  {
    var k := OpenRun(t);
    if k > 0 {
      assert t[1..][..k - 1] == t[1..k];
      assert !LongAsideAt(t);
      StripAsidesKeepsRun(t[1..]);
      assert t[1..][k - 1..] == t[k..];
      assert t[..k] == [t[0]] + t[1..k];
    }
  }

  lemma OpenRunOfAppend(a: string, b: string)
    requires forall k | 0 <= k < |a| :: a[k] != ')'
    requires |b| > 0 && b[0] == ')'
    ensures OpenRun(a + b) == |a|
  {
    if |a| > 0 {
      assert (a + b)[1..] == a[1..] + b;
      OpenRunOfAppend(a[1..], b);
    } else {
      assert a + b == b;
    }
  }

  lemma OpenRunOfAll(a: string)
    requires forall k | 0 <= k < |a| :: a[k] != ')'
    ensures OpenRun(a) == |a|
  {
    if |a| > 0 {
      OpenRunOfAll(a[1..]);
    }
  }

  /** An `(` that does not start an aside does not start one in the output either. */
  lemma StripAsidesOpenKept(s: string)
    requires |s| > 0 && s[0] == '(' && !LongAsideAt(s)
    ensures !LongAsideAt([s[0]] + StripAsides(s[1..]))
  {
    var t := s[1..];
    var k := OpenRun(t);
    StripAsidesKeepsRun(t);
    var rest := StripAsides(t[k..]);
    var out := [s[0]] + (t[..k] + rest);
    assert out[1..] == t[..k] + rest;
    if k < |t| {
      assert t[k..][0] == ')';
      assert rest == [')'] + StripAsides(t[k..][1..]);
      OpenRunOfAppend(t[..k], rest);
    } else {
      assert t[k..] == [];
      assert t[..k] + rest == t[..k];
      OpenRunOfAll(t[..k]);
    }
  }

  lemma NoLongAsideCons(c: char, t: string)
    requires !LongAsideAt([c] + t) && NoLongAside(t)
    ensures NoLongAside([c] + t)
  {
    var s := [c] + t;
    forall i | 0 <= i < |s|
      ensures !LongAsideAt(s[i..])
    {
      if i > 0 {
        assert s[i..] == t[i - 1..];
      } else {
        assert s[0..] == s;
      }
    }
  }

  /** After step 7 no long aside is left; a text without one is unchanged. */
  lemma {:induction false} StripAsidesSpec(s: string)
    ensures NoLongAside(StripAsides(s))
    ensures NoLongAside(s) ==> StripAsides(s) == s
    decreases |s|
  {
    if |s| > 0 {
      if LongAsideAt(s) {
        StripAsidesSpec(s[2 + OpenRun(s[1..])..]);
        assert s[0..] == s;
      } else {
        var tail := StripAsides(s[1..]);
        StripAsidesSpec(s[1..]);
        if s[0] == '(' {
          StripAsidesOpenKept(s);
        } else {
          assert !LongAsideAt([s[0]] + tail);
        }
        NoLongAsideCons(s[0], tail);
        if NoLongAside(s) {
          assert NoLongAside(s[1..]) by {
            forall i | 0 <= i < |s[1..]|
              ensures !LongAsideAt(s[1..][i..])
            {
              assert s[1..][i..] == s[i + 1..];
            }
          }
        }
      }
    }
  }

  // =====================================================================
  // Step 8: whitespace (`\s+` -> ` `)
  // =====================================================================

  /** Step 8: every run of whitespace becomes one space. */
  function CollapseSpaces(s: string): (r: string)
    ensures |s| > 0 ==> |r| > 0 && r[0] == (if IsSpace(s[0]) then ' ' else s[0])
    ensures forall i | 0 <= i < |r| :: r[i] in s || r[i] == ' '
    decreases |s|
  {
    if |s| == 0 then ""
    else if IsSpace(s[0]) then " " + CollapseSpaces(s[SpaceRun(s)..])
    else [s[0]] + CollapseSpaces(s[1..])
  }

  /** The only whitespace is single spaces. */
  predicate SingleSpaced(s: string)
  {
    && (forall i | 0 <= i < |s| && IsSpace(s[i]) :: s[i] == ' ')
    && (forall i | 0 <= i < |s| - 1 :: !(IsSpace(s[i]) && IsSpace(s[i + 1])))
  }

  /** After step 8 the text is single spaced. */
  lemma {:induction false} CollapseSpacesSingle(s: string)
    ensures SingleSpaced(CollapseSpaces(s))
    decreases |s|
  {
    if |s| > 0 {
      var r := CollapseSpaces(s);
      if IsSpace(s[0]) {
        var u := s[SpaceRun(s)..];
        var tail := CollapseSpaces(u);
        CollapseSpacesSingle(u);
        assert r == [' '] + tail;
        if |u| > 0 {
          assert u[0] == s[SpaceRun(s)];
        }
        forall i | 0 <= i < |r| - 1
          ensures !(IsSpace(r[i]) && IsSpace(r[i + 1]))
        {
          if i > 0 {
            assert r[i] == tail[i - 1] && r[i + 1] == tail[i];
          }
        }
      } else {
        var tail := CollapseSpaces(s[1..]);
        CollapseSpacesSingle(s[1..]);
        assert r == [s[0]] + tail;
        forall i | 0 <= i < |r| - 1
          ensures !(IsSpace(r[i]) && IsSpace(r[i + 1]))
        {
          if i > 0 {
            assert r[i] == tail[i - 1] && r[i + 1] == tail[i];
          }
        }
      }
    }
  }

  /** Step 8 only rewrites whitespace: the visible text is unchanged. */
  lemma {:induction false} CollapseSpacesVisible(s: string)
    ensures NonSpace(CollapseSpaces(s)) == NonSpace(s)
    decreases |s|
  {
    if |s| > 0 {
      assert s == [s[0]] + s[1..];
      if IsSpace(s[0]) {
        var u := s[SpaceRun(s)..];
        CollapseSpacesVisible(u);
        NonSpaceSkipsSpaceRun(s);
        NonSpaceCons(' ', CollapseSpaces(u));
        assert CollapseSpaces(s) == [' '] + CollapseSpaces(u);
      } else {
        CollapseSpacesVisible(s[1..]);
        NonSpaceCons(s[0], s[1..]);
        NonSpaceCons(s[0], CollapseSpaces(s[1..]));
      }
    }
  }

  // =====================================================================
  // Step 9: abbreviations (case-insensitive)
  // =====================================================================

  /**
   * One entry of the replacement table: the upper-case `word`, whether the
   * pattern ends in `\s` (otherwise in `\b`), and the text put instead.
   */
  datatype Abbreviation = Abbreviation(word: string, spaceAfter: bool, replacement: string)

  const Doctor := Abbreviation("DR.", true, "Doutor ")
  const DoctorF := Abbreviation("DRA.", true, "Doutora ")
  const Mister := Abbreviation("SR.", true, "Senhor ")
  const Madam := Abbreviation("SRA.", true, "Senhora ")
  const Bill := Abbreviation("PL", true, "Projeto de Lei ")
  const PostCode := Abbreviation("CEP", false, "CEP")
  const TaxId := Abbreviation("CPF", false, "CPF")
  const CompanyId := Abbreviation("CNPJ", false, "CNPJ")

  /** The table, in the order the entries are applied. */
  const Abbreviations: seq<Abbreviation> :=
    [Doctor, DoctorF, Mister, Madam, Bill, PostCode, TaxId, CompanyId]

  function Lower(c: char): char
  {
    if 'A' <= c <= 'Z' then (c as int + 32) as char else c
  }

  /**
   * `c` matches the pattern character `p` under IGNORECASE: either case
   * of a letter, and for `s` also the long s (U+017F), which folds to it.
   */
  predicate SameLetter(c: char, p: char)
  {
    c == p || c == Lower(p) || (p == 'S' && c == '\U{17F}')
  }

  predicate WordAt(s: string, w: string)
  {
    |w| <= |s| && forall k | 0 <= k < |w| :: SameLetter(s[k], w[k])
  }

  /** Number of characters a match of `a` takes. */
  function MatchLength(a: Abbreviation): nat
  {
    |a.word| + if a.spaceAfter then 1 else 0
  }

  /**
   * The pattern of `a` matches at the start of `s` when the character
   * before it (`afterWord`: it was a word character) allows the leading
   * `\b`.
   */
  predicate AbbreviationAt(s: string, a: Abbreviation, afterWord: bool)
  {
    && !afterWord
    && WordAt(s, a.word)
    && if a.spaceAfter then |a.word| < |s| && IsSpace(s[|a.word|])
       else |a.word| == |s| || !IsWordChar(s[|a.word|])
  }

  /** Letters and spaces only. */
  predicate PlainText(s: string)
  {
    forall i | 0 <= i < |s| :: s[i] == ' ' || IsAsciiLetter(s[i])
  }

  /**
   * What the table's entries have in common: a replacement of letters and
   * single spaces that starts with a letter and ends in a space exactly
   * when the pattern ends in `\s`.
   */
  predicate WellFormed(a: Abbreviation)
  {
    && |a.word| > 0 && |a.replacement| > 0
    && PlainText(a.replacement)
    && a.replacement[0] != ' '
    && NoDouble(a.replacement, ' ')
    && (a.spaceAfter <==> a.replacement[|a.replacement| - 1] == ' ')
  }

  /** One `re.sub` of the table. */
  function ReplaceAbbreviation(s: string, a: Abbreviation, afterWord: bool): (r: string)
    ensures forall i | 0 <= i < |r| :: r[i] in s || r[i] in a.replacement
    decreases |s|
  {
    if |s| == 0 then ""
    else if AbbreviationAt(s, a, afterWord) && MatchLength(a) > 0 then
      a.replacement + ReplaceAbbreviation(s[MatchLength(a)..], a, IsWordChar(s[MatchLength(a) - 1]))
    else [s[0]] + ReplaceAbbreviation(s[1..], a, IsWordChar(s[0]))
  }

  predicate NoAbbreviation(s: string, a: Abbreviation, afterWord: bool)
  {
    forall i | 0 <= i < |s| :: !AbbreviationAt(s[i..], a, if i == 0 then afterWord else IsWordChar(s[i - 1]))
  }

  /** A text in which the pattern never matches is unchanged. */
  lemma {:induction false} ReplaceAbbreviationKeeps(s: string, a: Abbreviation, afterWord: bool)
    requires NoAbbreviation(s, a, afterWord)
    ensures ReplaceAbbreviation(s, a, afterWord) == s
    decreases |s|
  {
    if |s| > 0 {
      assert s[0..] == s;
      assert NoAbbreviation(s[1..], a, IsWordChar(s[0])) by {
        forall i | 0 <= i < |s[1..]|
          ensures !AbbreviationAt(s[1..][i..], a, if i == 0 then IsWordChar(s[0]) else IsWordChar(s[1..][i - 1]))
        {
          assert s[1..][i..] == s[i + 1..];
        }
      }
      ReplaceAbbreviationKeeps(s[1..], a, IsWordChar(s[0]));
    }
  }

  /** Applies the table entry by entry. */
  function ReplaceAll(s: string, table: seq<Abbreviation>): (r: string)
    requires forall j | 0 <= j < |table| :: PlainText(table[j].replacement)
    ensures forall i | 0 <= i < |r| :: r[i] in s || r[i] == ' ' || IsAsciiLetter(r[i])
    decreases |table|
  {
    if |table| == 0 then s
    else
      var once := ReplaceAbbreviation(s, table[0], false);
      assert forall i | 0 <= i < |once| :: once[i] in s || once[i] == ' ' || IsAsciiLetter(once[i]) by {
        forall i | 0 <= i < |once|
          ensures once[i] in s || once[i] == ' ' || IsAsciiLetter(once[i])
        {
          if once[i] !in s {
            assert PlainText(table[0].replacement);
            var k :| 0 <= k < |table[0].replacement| && table[0].replacement[k] == once[i];
          }
        }
      }
      ReplaceAll(once, table[1..])
  }

  /** Step 9. */
  function ExpandAbbreviations(s: string): string
  {
    AbbreviationsPlain();
    ReplaceAll(s, Abbreviations)
  }

  lemma AbbreviationsPlain()
    ensures forall j | 0 <= j < |Abbreviations| :: PlainText(Abbreviations[j].replacement)
  {
    AbbreviationsWellFormed();
  }

  lemma SingleSpacedAppend(x: string, y: string)
    requires SingleSpaced(x) && SingleSpaced(y)
    requires |x| > 0 && |y| > 0 ==> !(IsSpace(x[|x| - 1]) && IsSpace(y[0]))
    ensures SingleSpaced(x + y)
  {
    var z := x + y;
    forall i | 0 <= i < |z| - 1
      ensures !(IsSpace(z[i]) && IsSpace(z[i + 1]))
    {
      if i + 1 < |x| {
        assert z[i] == x[i] && z[i + 1] == x[i + 1];
      } else if i >= |x| {
        assert z[i] == y[i - |x|] && z[i + 1] == y[i + 1 - |x|];
      }
    }
  }

  /** Each output starts with the input's first character or with the replacement's. */
  lemma ReplaceAbbreviationHead(s: string, a: Abbreviation, afterWord: bool)
    requires |s| > 0 && |a.replacement| > 0
    ensures var r := ReplaceAbbreviation(s, a, afterWord);
      |r| > 0 && (r[0] == s[0] || r[0] == a.replacement[0])
  {
  }

  lemma SingleSpacedSuffix(s: string, n: nat)
    requires SingleSpaced(s) && n <= |s|
    ensures SingleSpaced(s[n..])
  {
    var rest := s[n..];
    forall i | 0 <= i < |rest| - 1
      ensures !(IsSpace(rest[i]) && IsSpace(rest[i + 1]))
    {
      assert rest[i] == s[n + i] && rest[i + 1] == s[n + i + 1];
    }
  }

  /** The step of the proof below where the pattern matches. */
  lemma SingleAtMatch(s: string, a: Abbreviation, afterWord: bool)
    requires WellFormed(a) && SingleSpaced(s)
    requires |s| > 0 && AbbreviationAt(s, a, afterWord) && MatchLength(a) > 0
    requires SingleSpaced(ReplaceAbbreviation(s[MatchLength(a)..], a, IsWordChar(s[MatchLength(a) - 1])))
    ensures SingleSpaced(ReplaceAbbreviation(s, a, afterWord))
  {
    var n := MatchLength(a);
    var rest := s[n..];
    var tail := ReplaceAbbreviation(rest, a, IsWordChar(s[n - 1]));
    ReplaceAtMatch(s, a, afterWord);
    if |rest| > 0 {
      ReplaceAbbreviationHead(rest, a, IsWordChar(s[n - 1]));
      if a.spaceAfter {
        assert IsSpace(s[n - 1]);
        assert rest[0] == s[n];
      }
    }
    SingleSpacedAppend(a.replacement, tail);
  }

  /** The step of the proof below where the first character is copied. */
  lemma SingleAtCopy(s: string, a: Abbreviation, afterWord: bool)
    requires WellFormed(a) && SingleSpaced(s) && |s| > 0
    requires !(AbbreviationAt(s, a, afterWord) && MatchLength(a) > 0)
    requires SingleSpaced(ReplaceAbbreviation(s[1..], a, IsWordChar(s[0])))
    ensures SingleSpaced(ReplaceAbbreviation(s, a, afterWord))
  {
    var tail := ReplaceAbbreviation(s[1..], a, IsWordChar(s[0]));
    assert ReplaceAbbreviation(s, a, afterWord) == [s[0]] + tail;
    if |s| > 1 {
      ReplaceAbbreviationHead(s[1..], a, IsWordChar(s[0]));
    }
    assert SingleSpaced([s[0]]);
    SingleSpacedAppend([s[0]], tail);
  }

  /** A well-formed entry keeps a single-spaced text single spaced. */
  lemma {:induction false} ReplaceAbbreviationSingle(s: string, a: Abbreviation, afterWord: bool)
    requires WellFormed(a) && SingleSpaced(s)
    ensures SingleSpaced(ReplaceAbbreviation(s, a, afterWord))
    decreases |s|
  {
    if |s| > 0 {
      if AbbreviationAt(s, a, afterWord) && MatchLength(a) > 0 {
        var n := MatchLength(a);
        SingleSpacedSuffix(s, n);
        ReplaceAbbreviationSingle(s[n..], a, IsWordChar(s[n - 1]));
        SingleAtMatch(s, a, afterWord);
      } else {
        SingleSpacedSuffix(s, 1);
        ReplaceAbbreviationSingle(s[1..], a, IsWordChar(s[0]));
        SingleAtCopy(s, a, afterWord);
      }
    }
  }

  lemma {:induction false} ReplaceAllSingle(s: string, table: seq<Abbreviation>)
    requires forall j | 0 <= j < |table| :: WellFormed(table[j])
    requires forall j | 0 <= j < |table| :: PlainText(table[j].replacement)
    requires SingleSpaced(s)
    ensures SingleSpaced(ReplaceAll(s, table))
    decreases |table|
  {
    if |table| > 0 {
      ReplaceAbbreviationSingle(s, table[0], false);
      ReplaceAllSingle(ReplaceAbbreviation(s, table[0], false), table[1..]);
    }
  }

  // The table's entries are checked a few at a time: each check reads
  // the replacement strings character by character.

  lemma DoctorsWellFormed()
    ensures WellFormed(Doctor) && WellFormed(DoctorF)
  {
  }

  lemma MistersWellFormed()
    ensures WellFormed(Mister) && WellFormed(Madam)
  {
  }

  lemma BillWellFormed()
    ensures WellFormed(Bill)
  {
  }

  lemma CodesWellFormed()
    ensures WellFormed(PostCode) && WellFormed(TaxId) && WellFormed(CompanyId)
  {
  }

  lemma AbbreviationsWellFormed()
    ensures forall j | 0 <= j < |Abbreviations| :: WellFormed(Abbreviations[j])
  {
    DoctorsWellFormed();
    MistersWellFormed();
    BillWellFormed();
    CodesWellFormed();
  }

  /** Step 9 keeps a single-spaced text single spaced. */
  lemma ExpandAbbreviationsSingle(s: string)
    requires SingleSpaced(s)
    ensures SingleSpaced(ExpandAbbreviations(s))
  {
    AbbreviationsWellFormed();
    ReplaceAllSingle(s, Abbreviations);
  }

  lemma ReplaceAtMatch(s: string, a: Abbreviation, afterWord: bool)
    requires |s| > 0 && AbbreviationAt(s, a, afterWord) && MatchLength(a) > 0
    ensures ReplaceAbbreviation(s, a, afterWord)
      == a.replacement + ReplaceAbbreviation(s[MatchLength(a)..], a, IsWordChar(s[MatchLength(a) - 1]))
  {
  }

  /** A title is spelt out and the name after it left alone: `Dr. Silva` becomes `Doutor Silva`. */
  lemma DoctorExample(name: string)
    requires NoAbbreviation(name, Doctor, false)
    ensures ReplaceAbbreviation("Dr. " + name, Doctor, false) == "Doutor " + name
  {
    var s := "Dr. " + name;
    assert SameLetter(s[0], 'D') && SameLetter(s[1], 'R') && SameLetter(s[2], '.');
    assert IsSpace(s[3]);
    assert AbbreviationAt(s, Doctor, false);
    ReplaceAtMatch(s, Doctor, false);
    assert s[4..] == name;
    ReplaceAbbreviationKeeps(name, Doctor, false);
  }

  /** Matching ignores case, and the code words come out in capitals. */
  lemma CodeWordExample()
    ensures ReplaceAbbreviation("cpf", TaxId, false) == "CPF"
  {
    var s := "cpf";
    assert WordAt(s, "CPF") by {
      assert SameLetter(s[0], 'C') && SameLetter(s[1], 'P') && SameLetter(s[2], 'F');
    }
    assert AbbreviationAt(s, TaxId, false);
    assert s[3..] == "";
  }

  /** Inside a word the leading `\b` fails, so nothing is replaced. */
  lemma InsideWordExample()
    ensures ReplaceAbbreviation("ADr. x", Doctor, false) == "ADr. x"
  {
    var s := "ADr. x";
    forall i | 0 <= i < |s|
      ensures !AbbreviationAt(s[i..], Doctor, if i == 0 then false else IsWordChar(s[i - 1]))
    {
      if i == 1 {
        assert IsWordChar(s[0]);
      } else {
        assert s[i..][0] == s[i];
        assert !SameLetter(s[i], 'D');
      }
    }
    ReplaceAbbreviationKeeps(s, Doctor, false);
  }

  // =====================================================================
  // Step 11: line breaks to pauses (step 12 is `Common.RStrip`)
  // =====================================================================

  /** Step 11: every line break becomes `. `. */
  function BreaksToPauses(s: string): (r: string)
    ensures forall i | 0 <= i < |r| :: r[i] != '\n' && (r[i] in s || r[i] == '.' || r[i] == ' ')
    ensures |r| >= |s|
    decreases |s|
  {
    if |s| == 0 then ""
    else if s[0] == '\n' then ". " + BreaksToPauses(s[1..])
    else [s[0]] + BreaksToPauses(s[1..])
  }

  /** Only the line breaks are rewritten: a text without one is unchanged. */
  lemma {:induction false} BreaksToPausesKeeps(s: string)
    requires forall i | 0 <= i < |s| :: s[i] != '\n'
    ensures BreaksToPauses(s) == s
    decreases |s|
  {
    if |s| > 0 {
      BreaksToPausesKeeps(s[1..]);
    }
  }

  /** Each line break costs one extra character. */
  lemma {:induction false} BreaksToPausesLength(s: string)
    ensures |BreaksToPauses(s)| == |s| + multiset(s)['\n']
    decreases |s|
  {
    if |s| > 0 {
      BreaksToPausesLength(s[1..]);
      assert s == [s[0]] + s[1..];
      assert multiset(s) == multiset{s[0]} + multiset(s[1..]);
    }
  }

  // =====================================================================
  // The whole clean-up
  // =====================================================================

  /** Steps 1 to 8. */
  function Tidy(text: string): string
  {
    CollapseSpaces(StripAsides(StripEmphasis(CollapseDashes(SpaceAfterPunct(CollapseRepeats(StripUrls(text)))))))
  }

  /** Steps 9 to 12. */
  function Finish(single: string): string
  {
    RStrip(BreaksToPauses(CollapseRuns(ExpandAbbreviations(single), '\n', '\n')))
  }

  /** `format_for_speech`. */
  function FormatForSpeech(text: string): string
  {
    Finish(Tidy(text))
  }

  /** No emphasis mark and no whitespace other than single spaces. */
  predicate Speakable(s: string)
  {
    SingleSpaced(s) && forall i | 0 <= i < |s| :: !IsEmphasis(s[i])
  }

  /** Steps 1 to 8 leave a speakable text. */
  lemma TidySpeakable(text: string)
    ensures Speakable(Tidy(text))
  {
    var plain := StripEmphasis(CollapseDashes(SpaceAfterPunct(CollapseRepeats(StripUrls(text)))));
    var asides := StripAsides(plain);
    CollapseSpacesSingle(asides);
    var r := CollapseSpaces(asides);
    forall i | 0 <= i < |r|
      ensures !IsEmphasis(r[i])
    {
      if r[i] != ' ' {
        assert r[i] in asides;
        var k :| 0 <= k < |asides| && asides[k] == r[i];
        assert asides[k] in plain;
      }
    }
  }

  lemma SpeakablePlain(s: string)
    requires Speakable(s)
    ensures Speakable(ExpandAbbreviations(s))
  {
    ExpandAbbreviationsSingle(s);
    var r := ExpandAbbreviations(s);
    forall i | 0 <= i < |r|
      ensures !IsEmphasis(r[i])
    {
      if r[i] in s {
        var k :| 0 <= k < |s| && s[k] == r[i];
      }
    }
  }

  lemma NoBreakOfSingle(s: string)
    requires SingleSpaced(s)
    ensures forall i | 0 <= i < |s| :: s[i] != '\n'
  {
    forall i | 0 <= i < |s|
      ensures s[i] != '\n'
    {
      if s[i] == '\n' {
        assert IsSpace(s[i]);
      }
    }
  }

  /** A prefix of a single-spaced text is single spaced. */
  lemma SingleSpacedPrefix(s: string, n: nat)
    requires SingleSpaced(s) && n <= |s|
    ensures SingleSpaced(s[..n])
  {
    var p := s[..n];
    forall i | 0 <= i < |p| - 1
      ensures !(IsSpace(p[i]) && IsSpace(p[i + 1]))
    {
      assert p[i] == s[i] && p[i + 1] == s[i + 1];
    }
  }

  /**
   * Steps 9 to 12 on a speakable text: it stays speakable and loses its
   * trailing space.  Step 8 has already turned every line break into a
   * space, so steps 10 and 11 find none and change nothing.
   */
  lemma FinishSpec(single: string)
    requires Speakable(single)
    ensures var expanded := ExpandAbbreviations(single);
      Finish(single) == RStrip(expanded)
    ensures Speakable(Finish(single))
    ensures |Finish(single)| > 0 ==> !IsSpace(Finish(single)[|Finish(single)| - 1])
  {
    var expanded := ExpandAbbreviations(single);
    SpeakablePlain(single);
    NoBreakOfSingle(expanded);
    CollapseRunsSpec(expanded, '\n', '\n');
    BreaksToPausesKeeps(expanded);
    var r := RStrip(expanded);
    SingleSpacedPrefix(expanded, |r|);
    forall i | 0 <= i < |r|
      ensures !IsEmphasis(r[i])
    {
      assert r[i] == expanded[i];
    }
  }

  /**
   * What speech receives: no emphasis marks, no line breaks, whitespace
   * only as single spaces, nothing trailing, and no match of either URL
   * pattern.
   */
  lemma FormatForSpeechSpec(text: string)
    ensures var r := FormatForSpeech(text);
      && Speakable(r)
      && (forall i | 0 <= i < |r| :: r[i] != '\n')
      && (|r| > 0 ==> !IsSpace(r[|r| - 1]))
      && Clean(r, HttpPrefixes) && Clean(r, WwwPrefixes)
  {
    TidySpeakable(text);
    FinishSpec(Tidy(text));
    NoBreakOfSingle(FormatForSpeech(text));
    FormatForSpeechNoUrl(text);
  }

  // =====================================================================
  // No URL survives: step 4 spaces every `:` and `.`
  // =====================================================================

  /** The marks both URL patterns need followed by visible text: `:` of `://`, `.` of `www.`. */
  predicate IsUrlMark(c: char)
  {
    c == ':' || c == '.'
  }

  /** Every `:` and `.` is followed by whitespace or ends the text. */
  predicate MarksSpaced(s: string)
  {
    forall i | 0 <= i < |s| - 1 && IsUrlMark(s[i]) :: IsSpace(s[i + 1])
  }

  lemma MarksSpacedCons(c: char, t: string)
    requires MarksSpaced(t)
    requires IsUrlMark(c) && |t| > 0 ==> IsSpace(t[0])
    ensures MarksSpaced([c] + t)
  {
    var s := [c] + t;
    forall i | 0 <= i < |s| - 1 && IsUrlMark(s[i])
      ensures IsSpace(s[i + 1])
    {
      if i > 0 {
        assert s[i] == t[i - 1] && s[i + 1] == t[i];
      }
    }
  }

  lemma MarksSpacedSuffix(s: string, k: nat)
    requires MarksSpaced(s) && k <= |s|
    ensures MarksSpaced(s[k..])
  {
    var t := s[k..];
    forall i | 0 <= i < |t| - 1 && IsUrlMark(t[i])
      ensures IsSpace(t[i + 1])
    {
      assert t[i] == s[k + i] && t[i + 1] == s[k + i + 1];
    }
  }

  lemma MarksSpacedPrefix(s: string, n: nat)
    requires MarksSpaced(s) && n <= |s|
    ensures MarksSpaced(s[..n])
  {
    var t := s[..n];
    forall i | 0 <= i < |t| - 1 && IsUrlMark(t[i])
      ensures IsSpace(t[i + 1])
    {
      assert t[i] == s[i] && t[i + 1] == s[i + 1];
    }
  }

  /** Letters and spaces in front of a marks-spaced text add no mark. */
  lemma MarksSpacedPlainAppend(p: string, t: string)
    requires PlainText(p) && MarksSpaced(t)
    ensures MarksSpaced(p + t)
  {
    var s := p + t;
    forall i | 0 <= i < |s| - 1 && IsUrlMark(s[i])
      ensures IsSpace(s[i + 1])
    {
      if i >= |p| {
        assert s[i] == t[i - |p|] && s[i + 1] == t[i - |p| + 1];
      }
    }
  }

  /** Step 4 leaves every mark spaced. */
  lemma PunctSpacedMarks(r: string)
    requires PunctSpaced(r)
    ensures MarksSpaced(r)
  {
    forall i | 0 <= i < |r| - 1 && IsUrlMark(r[i])
      ensures IsSpace(r[i + 1])
    {
      assert IsPunct(r[i]);
    }
  }

  /** Step 5 keeps the marks spaced: a dash run is never the space after a mark. */
  lemma {:induction false} CollapseDashesMarks(s: string)
    requires MarksSpaced(s)
    ensures MarksSpaced(CollapseDashes(s))
    decreases |s|
  {
    if |s| > 0 {
      var n := CharRun(s, '-');
      if s[0] == '-' && n >= 2 {
        MarksSpacedSuffix(s, n);
        CollapseDashesMarks(s[n..]);
        MarksSpacedCons(' ', CollapseDashes(s[n..]));
      } else {
        MarksSpacedSuffix(s, 1);
        CollapseDashesMarks(s[1..]);
        if |s| > 1 {
          assert s[1..][0] == s[1];
        }
        MarksSpacedCons(s[0], CollapseDashes(s[1..]));
      }
    }
  }

  /** Step 6 keeps the marks spaced: whitespace is never an emphasis mark. */
  lemma {:induction false} StripEmphasisMarks(s: string)
    requires MarksSpaced(s)
    ensures MarksSpaced(StripEmphasis(s))
    decreases |s|
  {
    if |s| > 0 {
      MarksSpacedSuffix(s, 1);
      StripEmphasisMarks(s[1..]);
      if !IsEmphasis(s[0]) {
        if IsUrlMark(s[0]) && |s| > 1 {
          assert s[1..][0] == s[1] && !IsEmphasis(s[1]);
          assert StripEmphasis(s[1..]) == [s[1]] + StripEmphasis(s[2..]);
        }
        MarksSpacedCons(s[0], StripEmphasis(s[1..]));
      }
    }
  }

  /** A leading space is kept by the aside rewrite. */
  lemma StripAsidesAtSpace(t: string)
    requires |t| > 0 && IsSpace(t[0])
    ensures |StripAsides(t)| > 0 && IsSpace(StripAsides(t)[0])
  {
    assert !LongAsideAt(t);
  }

  /** Step 7 keeps the marks spaced: an aside starts with `(`, never with the space after a mark. */
  lemma {:induction false} StripAsidesMarks(s: string)
    requires MarksSpaced(s)
    ensures MarksSpaced(StripAsides(s))
    decreases |s|
  {
    if |s| > 0 {
      if LongAsideAt(s) {
        var n := 2 + OpenRun(s[1..]);
        MarksSpacedSuffix(s, n);
        StripAsidesMarks(s[n..]);
      } else {
        MarksSpacedSuffix(s, 1);
        StripAsidesMarks(s[1..]);
        if IsUrlMark(s[0]) && |s| > 1 {
          StripAsidesAtSpace(s[1..]);
        }
        MarksSpacedCons(s[0], StripAsides(s[1..]));
      }
    }
  }

  /** Step 8 keeps the marks spaced: whitespace after a mark becomes one space. */
  lemma {:induction false} CollapseSpacesMarks(s: string)
    requires MarksSpaced(s)
    ensures MarksSpaced(CollapseSpaces(s))
    decreases |s|
  {
    if |s| > 0 {
      if IsSpace(s[0]) {
        var n := SpaceRun(s);
        MarksSpacedSuffix(s, n);
        CollapseSpacesMarks(s[n..]);
        MarksSpacedCons(' ', CollapseSpaces(s[n..]));
      } else {
        MarksSpacedSuffix(s, 1);
        CollapseSpacesMarks(s[1..]);
        if |s| > 1 {
          assert s[1..][0] == s[1];
        }
        MarksSpacedCons(s[0], CollapseSpaces(s[1..]));
      }
    }
  }

  /** The entry's pattern starts with an upper-case letter and its replacement is plain. */
  predicate LetterLed(a: Abbreviation)
  {
    |a.word| > 0 && 'A' <= a.word[0] <= 'Z' && PlainText(a.replacement)
  }

  /** A letter-led pattern never matches at whitespace. */
  lemma NoAbbreviationAtSpace(s: string, a: Abbreviation, afterWord: bool)
    requires LetterLed(a) && |s| > 0 && IsSpace(s[0])
    ensures !AbbreviationAt(s, a, afterWord)
  {
  }

  /** One entry of step 9 keeps the marks spaced: its replacement has none. */
  lemma {:induction false} ReplaceAbbreviationMarks(s: string, a: Abbreviation, afterWord: bool)
    requires LetterLed(a) && MarksSpaced(s)
    ensures MarksSpaced(ReplaceAbbreviation(s, a, afterWord))
    decreases |s|
  {
    if |s| > 0 {
      if AbbreviationAt(s, a, afterWord) && MatchLength(a) > 0 {
        var n := MatchLength(a);
        MarksSpacedSuffix(s, n);
        ReplaceAbbreviationMarks(s[n..], a, IsWordChar(s[n - 1]));
        MarksSpacedPlainAppend(a.replacement, ReplaceAbbreviation(s[n..], a, IsWordChar(s[n - 1])));
      } else {
        MarksSpacedSuffix(s, 1);
        ReplaceAbbreviationMarks(s[1..], a, IsWordChar(s[0]));
        if IsUrlMark(s[0]) && |s| > 1 {
          assert s[1..][0] == s[1];
          NoAbbreviationAtSpace(s[1..], a, IsWordChar(s[0]));
          assert ReplaceAbbreviation(s[1..], a, IsWordChar(s[0]))
              == [s[1]] + ReplaceAbbreviation(s[2..], a, IsWordChar(s[1]));
        }
        MarksSpacedCons(s[0], ReplaceAbbreviation(s[1..], a, IsWordChar(s[0])));
      }
    }
  }

  lemma {:induction false} ReplaceAllMarks(s: string, table: seq<Abbreviation>)
    requires forall j | 0 <= j < |table| :: PlainText(table[j].replacement)
    requires forall j | 0 <= j < |table| :: LetterLed(table[j])
    requires MarksSpaced(s)
    ensures MarksSpaced(ReplaceAll(s, table))
    decreases |table|
  {
    if |table| > 0 {
      var once := ReplaceAbbreviation(s, table[0], false);
      ReplaceAbbreviationMarks(s, table[0], false);
      ReplaceAllMarks(once, table[1..]);
    }
  }

  lemma TitlesLetterLed()
    ensures LetterLed(Doctor) && LetterLed(DoctorF) && LetterLed(Mister) && LetterLed(Madam)
  {
    DoctorsWellFormed();
    MistersWellFormed();
  }

  lemma CodesLetterLed()
    ensures LetterLed(Bill) && LetterLed(PostCode) && LetterLed(TaxId) && LetterLed(CompanyId)
  {
    BillWellFormed();
    CodesWellFormed();
  }

  /** Step 9 keeps the marks spaced. */
  lemma ExpandAbbreviationsMarks(s: string)
    requires MarksSpaced(s)
    ensures MarksSpaced(ExpandAbbreviations(s))
  {
    TitlesLetterLed();
    CodesLetterLed();
    AbbreviationsPlain();
    ReplaceAllMarks(s, Abbreviations);
  }

  /** Steps 4 to 8 leave every mark spaced, whatever the input. */
  lemma TidyMarks(text: string)
    ensures MarksSpaced(Tidy(text))
  {
    var spaced := SpaceAfterPunct(CollapseRepeats(StripUrls(text)));
    SpaceAfterPunctSpaced(CollapseRepeats(StripUrls(text)));
    PunctSpacedMarks(spaced);
    CollapseDashesMarks(spaced);
    StripEmphasisMarks(CollapseDashes(spaced));
    StripAsidesMarks(StripEmphasis(CollapseDashes(spaced)));
    CollapseSpacesMarks(StripAsides(StripEmphasis(CollapseDashes(spaced))));
  }

  lemma MatchHttp(t: string)
    ensures MatchAny(t, HttpPrefixes) <==> RunAfter(t, "https://") || RunAfter(t, "http://")
  {
    var rest: seq<string> := ["http://"];
    assert HttpPrefixes[0] == "https://" && HttpPrefixes[1..] == rest;
    assert rest[0] == "http://" && rest[1..] == [];
    assert MatchAny(t, HttpPrefixes) == (RunAfter(t, "https://") || MatchAny(t, rest));
    assert MatchAny(t, rest) == (RunAfter(t, "http://") || MatchAny(t, []));
  }

  lemma MatchWww(t: string)
    ensures MatchAny(t, WwwPrefixes) <==> RunAfter(t, "www.")
  {
    assert WwwPrefixes[1..] == [];
  }

  // The `:` of `://` is followed by a space, so the `/` cannot be there.

  lemma NoHttpsAt(s: string, i: nat)
    requires MarksSpaced(s) && i < |s|
    ensures !RunAfter(s[i..], "https://")
  {
    var t := s[i..];
    if |t| >= 8 {
      if t[5] == ':' {
        assert IsSpace(s[i + 6]);
        assert t[..8][6] != '/';
      } else {
        assert t[..8][5] != ':';
      }
    }
  }

  lemma NoHttpAt(s: string, i: nat)
    requires MarksSpaced(s) && i < |s|
    ensures !RunAfter(s[i..], "http://")
  {
    var t := s[i..];
    if |t| >= 7 {
      if t[4] == ':' {
        assert IsSpace(s[i + 5]);
        assert t[..7][5] != '/';
      } else {
        assert t[..7][4] != ':';
      }
    }
  }

  /** The `.` of `www.` is followed by whitespace or the end, so no visible text follows it. */
  lemma NoWwwAt(s: string, i: nat)
    requires MarksSpaced(s) && i < |s|
    ensures !RunAfter(s[i..], "www.")
  {
    var t := s[i..];
    if |t| > 4 {
      if t[3] == '.' {
        assert IsSpace(s[i + 4]);
        assert NonSpaceRun(t) <= 4;
      } else {
        assert t[..4][3] != '.';
      }
    }
  }

  /** Where every mark is spaced, neither URL pattern can match. */
  lemma MarksSpacedClean(s: string)
    requires MarksSpaced(s)
    ensures Clean(s, HttpPrefixes) && Clean(s, WwwPrefixes)
  {
    forall i | 0 <= i < |s|
      ensures !MatchAny(s[i..], HttpPrefixes) && !MatchAny(s[i..], WwwPrefixes)
    {
      MatchHttp(s[i..]);
      MatchWww(s[i..]);
      NoHttpsAt(s, i);
      NoHttpAt(s, i);
      NoWwwAt(s, i);
    }
  }

  /** The formatted text holds no URL match: whatever steps 5 to 12 join, a `:` or `.` stays spaced. */
  lemma FormatForSpeechNoUrl(text: string)
    ensures Clean(FormatForSpeech(text), HttpPrefixes) && Clean(FormatForSpeech(text), WwwPrefixes)
  {
    var single := Tidy(text);
    TidySpeakable(text);
    TidyMarks(text);
    FinishSpec(single);
    var expanded := ExpandAbbreviations(single);
    ExpandAbbreviationsMarks(single);
    MarksSpacedPrefix(expanded, |RStrip(expanded)|);
    MarksSpacedClean(FormatForSpeech(text));
  }

  // =====================================================================
  // A settled text is spoken as written
  // =====================================================================

  /** `t` with the space step 4 puts after a mark that ends it. */
  function Padded(t: string): string
  {
    if |t| > 0 && IsPunct(t[|t| - 1]) then t + " " else t
  }

  /** Every mark but a final one is followed by one space and then visible text. */
  predicate OnceSpaced(t: string)
  {
    forall i | 0 <= i < |t| - 1 && IsPunct(t[i]) :: t[i + 1] == ' ' && i + 2 < |t| && !IsSpace(t[i + 2])
  }

  /**
   * A text none of the twelve steps has anything to do to: no URL, no
   * triple, marks already spaced, no `--`, no emphasis mark, no long
   * aside, single spaces, nothing trailing, and no abbreviation, the last
   * looked for once step 4 has spaced a final mark.
   */
  predicate Settled(t: string)
  {
    && Clean(t, HttpPrefixes) && Clean(t, WwwPrefixes)
    && NoTriples(t)
    && OnceSpaced(t)
    && NoDouble(t, '-')
    && (forall i | 0 <= i < |t| :: !IsEmphasis(t[i]))
    && NoLongAside(t)
    && SingleSpaced(t)
    && (|t| > 0 ==> !IsSpace(t[|t| - 1]))
    && (forall j | 0 <= j < |Abbreviations| :: NoAbbreviation(Padded(t), Abbreviations[j], false))
  }

  lemma OnceSpacedSuffix(s: string, n: nat)
    requires OnceSpaced(s) && n <= |s|
    ensures OnceSpaced(s[n..])
  {
    var t := s[n..];
    forall i | 0 <= i < |t| - 1 && IsPunct(t[i])
      ensures t[i + 1] == ' ' && i + 2 < |t| && !IsSpace(t[i + 2])
    {
      assert t[i] == s[n + i] && t[i + 1] == s[n + i + 1];
      assert n + i + 2 < |s|;
      assert t[i + 2] == s[n + i + 2];
    }
  }

  lemma PaddedCons(p: string, t: string)
    requires |t| > 0
    ensures p + Padded(t) == Padded(p + t)
  {
    assert (p + t)[|p + t| - 1] == t[|t| - 1];
    if IsPunct(t[|t| - 1]) {
      assert p + (t + " ") == (p + t) + " ";
    }
  }

  /** At a mark followed by one space and visible text, step 4 goes on after that space. */
  lemma SpaceAfterPunctAtSpacedMark(s: string)
    requires |s| > 2 && IsPunct(s[0]) && s[1] == ' ' && !IsSpace(s[2])
    requires SpaceAfterPunct(s[2..]) == Padded(s[2..])
    ensures SpaceAfterPunct(s) == Padded(s)
  {
    var rest := s[2..];
    assert s[1..][1..] == rest;
    assert SpaceRun(s[1..]) == 1;
    assert SpaceAfterPunct(s) == [s[0], ' '] + SpaceAfterPunct(rest);
    PaddedCons([s[0], ' '], rest);
    assert [s[0], ' '] + rest == s;
  }

  /** Away from a mark, step 4 copies the character and goes on. */
  lemma SpaceAfterPunctAtOther(s: string)
    requires |s| > 1 && !IsPunct(s[0])
    requires SpaceAfterPunct(s[1..]) == Padded(s[1..])
    ensures SpaceAfterPunct(s) == Padded(s)
  {
    PaddedCons([s[0]], s[1..]);
    assert [s[0]] + s[1..] == s;
  }

  /** On marks already spaced, step 4 only adds the space after a final mark. */
  lemma {:induction false} SpaceAfterPunctKeeps(s: string)
    requires OnceSpaced(s) && (|s| > 0 ==> !IsSpace(s[|s| - 1]))
    ensures SpaceAfterPunct(s) == Padded(s)
    decreases |s|
  {
    if |s| == 1 {
      assert s[1..] == "";
    } else if |s| > 1 {
      if IsPunct(s[0]) {
        assert s[1] == ' ' && !IsSpace(s[2]);
        OnceSpacedSuffix(s, 2);
        SpaceAfterPunctKeeps(s[2..]);
        SpaceAfterPunctAtSpacedMark(s);
      } else {
        OnceSpacedSuffix(s, 1);
        SpaceAfterPunctKeeps(s[1..]);
        SpaceAfterPunctAtOther(s);
      }
    }
  }

  /** A text without an emphasis mark is unchanged by step 6. */
  lemma {:induction false} StripEmphasisKeeps(s: string)
    requires forall i | 0 <= i < |s| :: !IsEmphasis(s[i])
    ensures StripEmphasis(s) == s
    decreases |s|
  {
    if |s| > 0 {
      StripEmphasisKeeps(s[1..]);
    }
  }

  /** A single-spaced text is unchanged by step 8. */
  lemma {:induction false} CollapseSpacesKeeps(s: string)
    requires SingleSpaced(s)
    ensures CollapseSpaces(s) == s
    decreases |s|
  {
    if |s| > 0 {
      SingleSpacedSuffix(s, 1);
      CollapseSpacesKeeps(s[1..]);
      if IsSpace(s[0]) {
        assert s[0] == ' ';
        assert SpaceRun(s) == 1 by {
          if |s| > 1 {
            assert !IsSpace(s[1]);
          }
        }
        assert s == " " + s[1..];
      }
    }
  }

  lemma {:induction false} OpenRunSpace(y: string)
    ensures OpenRun(y + " ") == if OpenRun(y) < |y| then OpenRun(y) else |y| + 1
    decreases |y|
  {
    if |y| > 0 {
      assert (y + " ")[1..] == y[1..] + " ";
      OpenRunSpace(y[1..]);
    } else {
      assert y + " " == " ";
      assert " "[1..] == "";
    }
  }

  /** A space at the end closes no aside. */
  lemma NoLongAsideSpace(t: string)
    requires NoLongAside(t)
    ensures NoLongAside(t + " ")
  {
    var u := t + " ";
    forall i | 0 <= i < |u|
      ensures !LongAsideAt(u[i..])
    {
      if i < |t| {
        var x := t[i..];
        assert u[i..] == x + " ";
        assert (x + " ")[1..] == x[1..] + " ";
        OpenRunSpace(x[1..]);
        assert !LongAsideAt(x);
      } else {
        assert u[i..][0] == ' ';
      }
    }
  }

  /** Padding keeps what steps 5 to 8 look for absent. */
  lemma PaddedKeeps(t: string)
    requires NoDouble(t, '-') && NoLongAside(t) && SingleSpaced(t)
    requires forall i | 0 <= i < |t| :: !IsEmphasis(t[i])
    requires |t| > 0 ==> !IsSpace(t[|t| - 1])
    ensures var u := Padded(t);
      && NoDouble(u, '-') && NoLongAside(u) && Speakable(u)
  {
    if |t| > 0 && IsPunct(t[|t| - 1]) {
      var u := t + " ";
      NoLongAsideSpace(t);
      assert u[|t|] == ' ' && u[|t| - 1] == t[|t| - 1];
    }
  }

  /** `rstrip()` takes back the space of the padding and nothing else. */
  lemma RStripPadded(t: string)
    requires |t| > 0 ==> !IsSpace(t[|t| - 1])
    ensures RStrip(Padded(t)) == t
  {
    var u := Padded(t);
    var r := RStrip(u);
    if |t| > 0 {
      assert u[..|t|] == t;
      assert !IsSpace(u[|t| - 1]);
    }
  }

  /** A table entry by entry that never matches changes nothing. */
  lemma {:induction false} ReplaceAllKeeps(s: string, table: seq<Abbreviation>)
    requires forall j | 0 <= j < |table| :: PlainText(table[j].replacement)
    requires forall j | 0 <= j < |table| :: NoAbbreviation(s, table[j], false)
    ensures ReplaceAll(s, table) == s
    decreases |table|
  {
    if |table| > 0 {
      ReplaceAbbreviationKeeps(s, table[0], false);
      assert forall j | 0 <= j < |table[1..]| :: table[1..][j] == table[j + 1];
      ReplaceAllKeeps(s, table[1..]);
    }
  }

  /** Steps 1 to 8 leave a settled text alone, but for the space after a final mark. */
  lemma TidyKeepsSettled(t: string)
    requires Settled(t)
    ensures Tidy(t) == Padded(t)
  {
    StripUrlsSpec(t);
    CollapseRepeatsKeeps(t);
    SpaceAfterPunctKeeps(t);
    var u := Padded(t);
    PaddedKeeps(t);
    CollapseRunsSpec(u, '-', ' ');
    StripEmphasisKeeps(u);
    StripAsidesSpec(u);
    CollapseSpacesKeeps(u);
  }

  /** A settled text is spoken exactly as written. */
  lemma FormatForSpeechKeepsSettled(t: string)
    requires Settled(t)
    ensures FormatForSpeech(t) == t
  {
    TidyKeepsSettled(t);
    var u := Padded(t);
    PaddedKeeps(t);
    FinishSpec(u);
    AbbreviationsPlain();
    ReplaceAllKeeps(u, Abbreviations);
    RStripPadded(t);
  }

  /** An entry cannot match where no character is its first letter. */
  lemma NoAbbreviationWithout(s: string, a: Abbreviation, afterWord: bool)
    requires |a.word| > 0
    requires forall i | 0 <= i < |s| :: !SameLetter(s[i], a.word[0])
    ensures NoAbbreviation(s, a, afterWord)
  {
    forall i | 0 <= i < |s|
      ensures !AbbreviationAt(s[i..], a, if i == 0 then afterWord else IsWordChar(s[i - 1]))
    {
      assert s[i..][0] == s[i];
    }
  }

  /** No entry of the table can match in a text without `d`, `s`, `p` or `c`. */
  lemma NoAbbreviationsWithout(s: string)
    requires forall i | 0 <= i < |s| :: Lower(s[i]) !in "dspc" && s[i] != '\U{17F}'
    ensures forall j | 0 <= j < |Abbreviations| :: NoAbbreviation(s, Abbreviations[j], false)
  {
    forall j | 0 <= j < |Abbreviations|
      ensures NoAbbreviation(s, Abbreviations[j], false)
    {
      var a := Abbreviations[j];
      assert a.word[0] in "DSPC";
      NoAbbreviationWithout(s, a, false);
    }
  }

  const Greeting := "Boa noite, Tony."

  /** Its one inner mark, the comma, is followed by a space and a letter. */
  lemma GreetingSpaced()
    ensures OnceSpaced(Greeting) && MarksSpaced(Greeting)
  {
    forall i | 0 <= i < |Greeting| - 1 && IsPunct(Greeting[i])
      ensures Greeting[i + 1] == ' ' && i + 2 < |Greeting| && !IsSpace(Greeting[i + 2])
    {
      assert i == 9;
    }
    forall i | 0 <= i < |Greeting| - 1
      ensures !IsUrlMark(Greeting[i])
    {
    }
  }

  lemma GreetingSingle()
    ensures SingleSpaced(Greeting)
  {
    forall i | 0 <= i < |Greeting| && IsSpace(Greeting[i])
      ensures Greeting[i] == ' '
    {
      assert i == 3 || i == 10;
    }
    forall i | 0 <= i < |Greeting| - 1
      ensures !(IsSpace(Greeting[i]) && IsSpace(Greeting[i + 1]))
    {
      if IsSpace(Greeting[i]) {
        assert i == 3 || i == 10;
      }
    }
  }

  lemma GreetingPlain()
    ensures NoTriples(Greeting) && NoDouble(Greeting, '-') && NoLongAside(Greeting)
    ensures forall i | 0 <= i < |Greeting| :: !IsEmphasis(Greeting[i])
  {
    forall i | 0 <= i < |Greeting|
      ensures !TripleAt(Greeting[i..])
    {
      if i + 2 < |Greeting| {
        assert Greeting[i + 1] != Greeting[i];
        assert Greeting[i..][1] == Greeting[i + 1];
      }
    }
  }

  lemma GreetingNoAbbreviation()
    ensures forall j | 0 <= j < |Abbreviations| :: NoAbbreviation(Padded(Greeting), Abbreviations[j], false)
  {
    assert Padded(Greeting) == Greeting + " ";
    NoAbbreviationsWithout(Greeting + " ");
  }

  /** A greeting, with a comma inside it and a full stop at its end, comes through unchanged. */
  lemma GreetingSettled()
    ensures FormatForSpeech(Greeting) == Greeting
  {
    GreetingSpaced();
    GreetingSingle();
    GreetingPlain();
    MarksSpacedClean(Greeting);
    GreetingNoAbbreviation();
    FormatForSpeechKeepsSettled(Greeting);
  }

  // =====================================================================
  // SSML
  // =====================================================================

  const Voice := "pt-BR-AntonioNeural"
  const DefaultRate := "+0%"
  const DefaultPitch := "+0Hz"
  const SpeakOpen := "<speak>"
  const SpeakClose := "</speak>"

  /** The voice and prosody start tags, with the indentation of the template. */
  function VoiceOpen(rate: string, pitch: string): string
  {
    "\n    <voice name=\"" + Voice + "\">\n        <prosody rate=\"" + rate + "\" pitch=\"" + pitch + "\">\n            "
  }

  const VoiceClose := "\n        </prosody>\n    </voice>\n"

  function SsmlOpen(rate: string, pitch: string): string
  {
    SpeakOpen + VoiceOpen(rate, pitch)
  }

  const SsmlClose := VoiceClose + SpeakClose

  /** The fixed voice and prosody markup around a body. */
  function Wrap(body: string, rate: string, pitch: string): string
  {
    SsmlOpen(rate, pitch) + body + SsmlClose
  }

  /** `format_with_ssml`: the cleaned text inside a fixed voice and prosody. */
  function FormatWithSsml(text: string, rate: string := DefaultRate, pitch: string := DefaultPitch): string
  {
    Wrap(FormatForSpeech(text), rate, pitch)
  }

  /** The spoken text sits between the opening and the closing markup. */
  function SsmlBody(r: string, rate: string, pitch: string): string
    requires |SsmlOpen(rate, pitch)| + |SsmlClose| <= |r|
  {
    r[|SsmlOpen(rate, pitch)|..|r| - |SsmlClose|]
  }

  lemma SliceOfMiddle(a: string, b: string, c: string)
    ensures |a| + |c| <= |a + b + c|
    ensures (a + b + c)[|a|..|a + b + c| - |c|] == b
  {
  }

  lemma SliceOfEnds(a: string, b: string)
    ensures (a + b)[..|a|] == a && (a + b)[|a + b| - |b|..] == b
  {
  }

  /** Markup `a + v` before a body and `c + d` after it: the body and the outer tags read back. */
  lemma Framed(a: string, v: string, b: string, c: string, d: string)
    ensures var r := (a + v) + b + (c + d);
      && |a + v| + |c + d| <= |r|
      && r[|a + v|..|r| - |c + d|] == b
      && r[..|a|] == a
      && r[|r| - |d|..] == d
  {
    var r := (a + v) + b + (c + d);
    SliceOfMiddle(a + v, b, c + d);
    assert r == a + (v + b + (c + d));
    SliceOfEnds(a, v + b + (c + d));
    assert r == ((a + v) + b + c) + d;
    SliceOfEnds((a + v) + b + c, d);
  }

  /** Any wrapped body is one `speak` element whose body reads back unchanged. */
  lemma WrapRoundTrip(body: string, rate: string, pitch: string)
    ensures var r := Wrap(body, rate, pitch);
      && |SsmlOpen(rate, pitch)| + |SsmlClose| <= |r|
      && SsmlBody(r, rate, pitch) == body
      && r[..|SpeakOpen|] == SpeakOpen
      && r[|r| - |SpeakClose|..] == SpeakClose
  {
    var v := VoiceOpen(rate, pitch);
    var r := Wrap(body, rate, pitch);
    assert r == (SpeakOpen + v) + body + (VoiceClose + SpeakClose);
    assert |SsmlOpen(rate, pitch)| == |SpeakOpen + v| && |SsmlClose| == |VoiceClose + SpeakClose|;
    Framed(SpeakOpen, v, body, VoiceClose, SpeakClose);
  }

  /** The document is one `speak` element, and its body reads back as the cleaned text. */
  lemma SsmlBodyRoundTrip(text: string, rate: string, pitch: string)
    ensures var r := FormatWithSsml(text, rate, pitch);
      && |SsmlOpen(rate, pitch)| + |SsmlClose| <= |r|
      && SsmlBody(r, rate, pitch) == FormatForSpeech(text)
      && r[..|SpeakOpen|] == SpeakOpen
      && r[|r| - |SpeakClose|..] == SpeakClose
  {
    WrapRoundTrip(FormatForSpeech(text), rate, pitch);
  }
}
