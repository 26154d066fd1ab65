/**
 What becomes of a name in a seed label: the form of a seed prefix, written out apart from the
 loop that cuts it, and that names without one survive whole.
 */
module SeedNames {
  import opened Common
  import opened SeedLabels

  predicate AllIn(s: string, p: char -> bool) {
    forall i :: 0 <= i < |s| ==> p(s[i])
  }

  predicate EndsWith(s: string, tail: string) {
    |tail| <= |s| && s[|s| - |tail|..] == tail
  }

  /** Trimming takes white space off both ends and nothing else. */
  lemma TrimSpaceIsCore(s: string) returns (left: string, right: string)
    ensures s == left + TrimSpace(s) + right && AllIn(left, IsSpace) && AllIn(right, IsSpace)
  {
    left := TrimLeftIsTail(s);
    right := TrimRightIsHead(TrimLeft(s));
  }

  lemma {:induction false} TrimLeftIsTail(s: string) returns (left: string)
    ensures s == left + TrimLeft(s) && AllIn(left, IsSpace)
  {
    left := "";
    if s != "" && IsSpace(s[0]) {
      var more := TrimLeftIsTail(s[1..]);
      left := [s[0]] + more;
      assert s == [s[0]] + s[1..];
    }
  }

  lemma {:induction false} TrimRightIsHead(s: string) returns (right: string)
    ensures s == TrimRight(s) + right && AllIn(right, IsSpace)
  {
    right := "";
    if s != "" && IsSpace(s[|s| - 1]) {
      var more := TrimRightIsHead(s[..|s| - 1]);
      right := more + [s[|s| - 1]];
      assert s == s[..|s| - 1] + [s[|s| - 1]];
    }
  }

  /** "seed" in any case, blanks or none, and a numeral. */
  ghost predicate HasSeedForm(word: string, blanks: string, digits: string) {
    && |word| == 4 && (forall i :: 0 <= i < 4 ==> word[i] == "seed"[i] || word[i] == "SEED"[i])
    && AllIn(blanks, IsBlank) && digits != "" && AllIn(digits, IsDigit)
  }

  ghost predicate Prefixed(s: string, word: string, blanks: string, digits: string, rest: string) {
    s == word + blanks + digits + rest && HasSeedForm(word, blanks, digits)
  }

  ghost predicate HasSeedPrefix(s: string) {
    exists word, blanks, digits, rest :: Prefixed(s, word, blanks, digits, rest)
  }

  /** What a prefix may be followed by before the name: blanks, and a mark with its blanks. */
  ghost predicate Separates(before: string, mark: string, after: string, name: string) {
    && AllIn(before, IsBlank) && AllIn(after, IsBlank) && mark in {"", "-", ":"}
    && Trimmed(name) && (name == "" ==> after == "" && (mark == "" ==> before == ""))
    && (mark == "" ==> after == "" && (name != "" ==> name[0] !in "-:" && (before == "" ==> !IsDigit(name[0]))))
  }

  lemma {:induction false} SkipRunStops(s: string, i: nat, p: char -> bool)
    requires i <= |s|
    ensures AllIn(s[i..SkipRun(s, i, p)], p)
    ensures SkipRun(s, i, p) < |s| ==> !p(s[SkipRun(s, i, p)])
    decreases |s| - i
  {
    if i < |s| && p(s[i]) {
      SkipRunStops(s, i + 1, p);
      assert s[i..SkipRun(s, i, p)] == [s[i]] + s[i + 1..SkipRun(s, i, p)];
    }
  }

  /** A run in the middle of a text is skipped up to its end. */
  lemma SkipRunOver(s: string, head: string, run: string, tail: string, p: char -> bool)
    requires s == head + run + tail && AllIn(run, p) && (tail != "" ==> !p(tail[0]))
    ensures SkipRun(s, |head|, p) == |head| + |run|
  {
    SkipRunStopsAt(s, |head|, |head| + |run|, p);
  }

  lemma CutHasPrefix(s: string)
    requires AfterSeed(s).Some?
    ensures HasSeedPrefix(s)
  {
    var start := SkipRun(s, 4, IsBlank);
    var end := SkipRun(s, start, IsDigit);
    SkipRunStops(s, 4, IsBlank);
    SkipRunStops(s, start, IsDigit);
    InFour(s, 4, start, end);
    assert Prefixed(s, s[..4], s[4..start], s[start..end], s[end..]);
  }

  lemma InFour(s: string, a: nat, b: nat, c: nat)
    requires a <= b <= c <= |s|
    ensures s == s[..a] + s[a..b] + s[b..c] + s[c..]
  {
    assert s[..b] == s[..a] + s[a..b] && s[..c] == s[..b] + s[b..c];
  }

  /** One turn of the loop cuts exactly when the text has a prefix. */
  lemma AfterSeedIff(s: string)
    ensures AfterSeed(s).Some? <==> HasSeedPrefix(s)
  {
    if AfterSeed(s).Some? {
      CutHasPrefix(s);
    } else if HasSeedPrefix(s) {
      var word, blanks, digits, rest :| Prefixed(s, word, blanks, digits, rest);
      PrefixIsFound(s, word, blanks, digits, rest);
      assert false;
    }
  }

  lemma PrefixIsFound(s: string, word: string, blanks: string, digits: string, rest: string)
    requires Prefixed(s, word, blanks, digits, rest)
    ensures AfterSeed(s).Some?
  {
    var start := 4 + |blanks|;
    assert HasSeedWord(s);
    assert forall x :: 4 <= x < start ==> s[x] == blanks[x - 4];
    assert s[start] == digits[0];
    SkipRunStopsAt(s, 4, start, IsBlank);
  }

  lemma NumeralIsSkipped(s: string, start: nat, end: nat)
    requires HasSeedWord(s) && 4 <= start < end <= |s|
    requires forall x :: 4 <= x < start ==> IsBlank(s[x])
    requires (forall x :: start <= x < end ==> IsDigit(s[x])) && (end == |s| || !IsDigit(s[end]))
    ensures AfterSeed(s) == Some(AfterSeparator(s, SkipRun(s, end, IsBlank)))
  {
    assert IsDigit(s[start]);
    SkipRunStopsAt(s, 4, start, IsBlank);
    SkipRunStopsAt(s, start, end, IsDigit);
  }

  lemma HeadIsSkipped(s: string, word: string, blanks: string, digits: string, tail: string)
    requires Prefixed(s, word, blanks, digits, tail) && (tail != "" ==> !IsDigit(tail[0]))
    ensures AfterSeed(s) == Some(AfterSeparator(s, SkipRun(s, 4 + |blanks| + |digits|, IsBlank)))
  {
    var start, end := 4 + |blanks|, 4 + |blanks| + |digits|;
    assert forall x :: 4 <= x < start ==> s[x] == blanks[x - 4];
    assert forall x :: start <= x < end ==> s[x] == digits[x - start];
    NumeralIsSkipped(s, start, end);
  }

  lemma NoMarkIsKept(s: string, head: string, before: string, name: string)
    requires s == head + before + name && AllIn(before, IsBlank)
    requires name != "" ==> !IsBlank(name[0]) && name[0] !in "-:"
    ensures SkipRun(s, |head|, IsBlank) == |head| + |before| && AfterSeparator(s, |head| + |before|) == name
  {
    SkipRunOver(s, head, before, name, IsBlank);
  }

  lemma MarkIsCut(s: string, head: string, before: string, marked: string, after: string, name: string)
    requires s == head + before + marked && AllIn(before, IsBlank) && AllIn(after, IsBlank)
    requires marked == "-" + after + name || marked == ":" + after + name
    requires name != "" ==> !IsBlank(name[0])
    ensures SkipRun(s, |head|, IsBlank) == |head| + |before| && AfterSeparator(s, |head| + |before|) == name
  {
    SkipRunOver(s, head, before, marked, IsBlank);
    var lead := head + before + [marked[0]];
    assert s == lead + after + name;
    SkipRunOver(s, lead, after, name, IsBlank);
  }

  /** The cut ends where the name begins. */
  lemma SeparatorIsCut(s: string, head: string, before: string, mark: string, after: string, name: string)
    requires Separates(before, mark, after, name) && s == head + before + (mark + after + name)
    ensures AfterSeparator(s, SkipRun(s, |head|, IsBlank)) == name
  {
    if mark == "" {
      assert mark + after + name == name;
      NoMarkIsKept(s, head, before, name);
    } else {
      MarkIsCut(s, head, before, mark + after + name, after, name);
    }
  }

  lemma Regroup(head: string, before: string, mark: string, after: string, name: string)
    ensures head + before + mark + after + name == head + before + (mark + after + name)
    ensures head + before + (mark + after + name) == head + (before + (mark + after + name))
  {
  }

  /** What follows the numeral starts with no digit and ends with no white space. */
  lemma TailShape(before: string, mark: string, after: string, name: string)
    requires Separates(before, mark, after, name)
    ensures var tail := before + (mark + after + name);
            tail != "" ==> !IsDigit(tail[0]) && !IsSpace(tail[|tail| - 1])
  {
    var rest := mark + after + name;
    if before == "" {
      assert before + rest == rest;
      assert mark == "" ==> rest == name;
    }
    if name == "" {
      assert rest == mark;
    }
  }

  lemma PrefixedIsTrimmed(s: string, word: string, blanks: string, digits: string, tail: string)
    requires Prefixed(s, word, blanks, digits, tail) && (tail != "" ==> !IsSpace(tail[|tail| - 1]))
    ensures Trimmed(s)
  {
    if tail == "" {
      assert s[|s| - 1] == digits[|digits| - 1];
    }
  }

  /** What a trimmed text ends with is trimmed on the right. */
  lemma TrimTail(s: string, tail: string)
    requires Trimmed(s) && EndsWith(s, tail)
    ensures EndsWith(s, TrimSpace(tail))
  {
    var left := TrimLeftIsTail(tail);
    var trimmed := TrimLeft(tail);
    if trimmed != "" {
      assert trimmed[|trimmed| - 1] == s[|s| - 1];
    }
  }

  /** A stripped text is what the text ends with. */
  lemma {:induction false} StrippedIsTail(s: string)
    requires Trimmed(s)
    ensures EndsWith(s, StripTrimmed(s)) && (AfterSeed(s).Some? ==> |StripTrimmed(s)| < |s|)
    decreases |s|
  {
    match AfterSeed(s)
    case None =>
    case Some(rest) =>
      TrimTail(s, rest);
      StrippedIsTail(TrimSpace(rest));
  }

  /** A name is kept whole, up to the white space around it, exactly when it has no seed prefix; else its end is. */
  lemma StripKeepsIff(text: string)
    ensures EndsWith(TrimSpace(text), StripSeedPrefix(text))
    ensures StripSeedPrefix(text) == TrimSpace(text) <==> !HasSeedPrefix(TrimSpace(text))
  {
    StrippedIsTail(TrimSpace(text));
    AfterSeedIff(TrimSpace(text));
  }

  lemma CutText(s: string, word: string, blanks: string, digits: string, tail: string, name: string)
    requires Prefixed(s, word, blanks, digits, tail) && Trimmed(name)
    requires tail != "" ==> !IsDigit(tail[0]) && !IsSpace(tail[|tail| - 1])
    requires AfterSeparator(s, SkipRun(s, 4 + |blanks| + |digits|, IsBlank)) == name
    ensures StripSeedPrefix(s) == StripSeedPrefix(name)
  {
    HeadIsSkipped(s, word, blanks, digits, tail);
    PrefixedIsTrimmed(s, word, blanks, digits, tail);
    TrimmedIsFixed(s);
  }

  /** A prefix with its separator is cut, for any numeral, mark and blanks. */
  lemma PrefixIsCut(word: string, blanks: string, digits: string, before: string, mark: string, after: string,
      name: string)
    requires Separates(before, mark, after, name) && HasSeedForm(word, blanks, digits)
    ensures StripSeedPrefix(word + blanks + digits + before + mark + after + name) == StripSeedPrefix(name)
  {
    var head, tail := word + blanks + digits, before + (mark + after + name);
    Regroup(head, before, mark, after, name);
    TailShape(before, mark, after, name);
    SeparatorIsCut(head + tail, head, before, mark, after, name);
    CutText(head + tail, word, blanks, digits, tail, name);
  }

  // ---- labels ----

  /**
   The label shows the whole name exactly when there is one and it has no seed prefix; without a
   name, the seed alone.
   */
  lemma NameSurvivesIff(seed: nat, name: string)
    ensures var bare := TrimSpace(name);
            FormatSeedLabel(seed, name) == "Seed " + Decimal(seed) + " - " + bare <==>
                bare != "" && !HasSeedPrefix(bare)
    ensures TrimSpace(name) == "" ==> FormatSeedLabel(seed, name) == "Seed " + Decimal(seed)
  {
    var bare, stripped := TrimSpace(name), StripSeedPrefix(name);
    StripKeepsIff(name);
    FormatUsesStrippedName(seed, name);
    TrimmedIsFixed(bare);
    if stripped != "" && FormatSeedLabel(seed, name) == "Seed " + Decimal(seed) + " - " + bare {
      assert |stripped| == |bare|;
    }
  }

  /** An earlier label is replaced, whichever mark it was written with. */
  lemma EarlierLabelIsReplaced(seed: nat, word: string, blanks: string, digits: string, before: string, mark: string,
      after: string, name: string)
    requires Separates(before, mark, after, name) && HasSeedForm(word, blanks, digits) && !HasSeedPrefix(name)
    ensures FormatSeedLabel(seed, word + blanks + digits + before + mark + after + name) == LabelOf(seed, name)
  {
    PrefixIsCut(word, blanks, digits, before, mark, after, name);
    FormatUsesStrippedName(seed, word + blanks + digits + before + mark + after + name);
    StripKeepsIff(name);
    TrimmedIsFixed(name);
  }
}
