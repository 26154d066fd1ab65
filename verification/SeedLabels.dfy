/**
 Seed labels: `formatSeedLabel` prints "Seed N - Name" after stripping every earlier seed
 prefix, and `parseSeedValue` reads the seed back for the tie-break. The labels are the only
 place where a bracket stores its seeds, so printing, stripping and parsing must fit together.
 */
module SeedLabels {
  import opened Common

  // ---- characters ----

  /** Unicode White_Space, as in Go's unicode.IsSpace. */
  predicate IsSpace(c: char) {
    || '\U{9}' <= c <= '\U{d}' || c == ' ' || c == '\U{85}' || c == '\U{a0}' || c == '\U{1680}'
    || '\U{2000}' <= c <= '\U{200a}' || c == '\U{2028}' || c == '\U{2029}' || c == '\U{202f}'
    || c == '\U{205f}' || c == '\U{3000}'
  }

  predicate IsBlank(c: char) { c == ' ' }

  predicate IsDigit(c: char) { '0' <= c <= '9' }

  // ---- trimming ----

  function TrimLeft(s: string): (t: string)
    ensures |t| <= |s|
    ensures t == "" || !IsSpace(t[0])
  {
    if s != "" && IsSpace(s[0]) then TrimLeft(s[1..]) else s
  }

  function TrimRight(s: string): (t: string)
    ensures t <= s
    ensures t == "" || !IsSpace(t[|t| - 1])
  {
    if s != "" && IsSpace(s[|s| - 1]) then TrimRight(s[..|s| - 1]) else s
  }

  function TrimSpace(s: string): (t: string)
    ensures |t| <= |s|
    ensures Trimmed(t)
  {
    TrimRight(TrimLeft(s))
  }

  predicate Trimmed(s: string) {
    s != "" ==> !IsSpace(s[0]) && !IsSpace(s[|s| - 1])
  }

  lemma TrimmedIsFixed(s: string)
    requires Trimmed(s)
    ensures TrimSpace(s) == s
  {
  }

  // ---- stripping ----

  /** The first index at or after `i` whose character fails `p`. */
  function SkipRun(s: string, i: nat, p: char -> bool): (j: nat)
    requires i <= |s|
    ensures i <= j <= |s|
    decreases |s| - i
  {
    if i < |s| && p(s[i]) then SkipRun(s, i + 1, p) else i
  }

  lemma {:induction false} SkipRunStopsAt(s: string, i: nat, j: nat, p: char -> bool)
    requires i <= j <= |s|
    requires forall x :: i <= x < j ==> p(s[x])
    requires j == |s| || !p(s[j])
    ensures SkipRun(s, i, p) == j
    decreases j - i
  {
    if i < j {
      SkipRunStopsAt(s, i + 1, j, p);
    }
  }

  predicate HasSeedWord(s: string) {
    |s| >= 4 && s[0] in "sS" && s[1] in "eE" && s[2] in "eE" && s[3] in "dD"
  }

  /** The name that starts at index `sep`, or after the mark there and its blanks. */
  function AfterSeparator(s: string, sep: nat): (name: string)
    requires sep <= |s|
    ensures |name| <= |s| - sep
  {
    if sep < |s| && s[sep] in "-:" then s[SkipRun(s, sep + 1, IsBlank)..] else s[sep..]
  }

  /** What follows one "seed <digits> [-:]" prefix, if the label starts with one. */
  function AfterSeed(s: string): (rest: Option<string>)
    ensures rest.Some? ==> |rest.value| < |s|
  {
    if !HasSeedWord(s) then None
    else
      var digits := SkipRun(s, 4, IsBlank);
      var end := SkipRun(s, digits, IsDigit);
      if end == digits then None else Some(AfterSeparator(s, SkipRun(s, end, IsBlank)))
  }

  function StripTrimmed(s: string): (name: string)
    decreases |s|
  {
    match AfterSeed(s)
    case None => s
    case Some(rest) => StripTrimmed(TrimSpace(rest))
  }

  function StripSeedPrefix(text: string): string {
    StripTrimmed(TrimSpace(text))
  }

  method SkipBlanks(s: string, start: nat) returns (i: nat)
    requires start <= |s|
    ensures i == SkipRun(s, start, IsBlank)
  {
    i := start;
    while i < |s| && s[i] == ' '
      invariant start <= i <= |s|
      invariant SkipRun(s, i, IsBlank) == SkipRun(s, start, IsBlank)
    {
      i := i + 1;
    }
  }

  method SkipDigits(s: string, start: nat) returns (i: nat)
    requires start <= |s|
    ensures i == SkipRun(s, start, IsDigit)
  {
    i := start;
    while i < |s| && '0' <= s[i] <= '9'
      invariant start <= i <= |s|
      invariant SkipRun(s, i, IsDigit) == SkipRun(s, start, IsDigit)
    {
      i := i + 1;
    }
  }

  /** One turn of the source's loop: `i` moves over blanks, digits, blanks, and a mark with its blanks. */
  method CutPrefix(trimmed: string) returns (rest: Option<string>)
    ensures rest == AfterSeed(trimmed)
  {
    if !HasSeedWord(trimmed) {
      return None;
    }
    var startDigits := SkipBlanks(trimmed, 4);
    var i := SkipDigits(trimmed, startDigits);
    if startDigits == i {
      return None;
    }
    i := SkipBlanks(trimmed, i);
    if i < |trimmed| && (trimmed[i] == '-' || trimmed[i] == ':') {
      i := SkipBlanks(trimmed, i + 1);
    }
    return Some(trimmed[i..]);
  }

  method StripSeedPrefixLoop(text: string) returns (trimmed: string)
    ensures trimmed == StripSeedPrefix(text)
  {
    trimmed := TrimSpace(text);
    while trimmed != ""
      invariant StripTrimmed(trimmed) == StripSeedPrefix(text)
      decreases |trimmed|
    {
      var rest := CutPrefix(trimmed);
      if rest == None {
        return;
      }
      trimmed := TrimSpace(rest.value);
    }
  }

  /** A stripped label is trimmed and no prefix is left on it. */
  lemma {:induction false} StrippedHasNoPrefix(s: string)
    requires Trimmed(s)
    ensures Trimmed(StripTrimmed(s)) && AfterSeed(StripTrimmed(s)) == None
    decreases |s|
  {
    match AfterSeed(s)
    case None =>
    case Some(rest) => StrippedHasNoPrefix(TrimSpace(rest));
  }

  lemma StripIsIdempotent(text: string)
    ensures StripSeedPrefix(StripSeedPrefix(text)) == StripSeedPrefix(text)
    ensures Trimmed(StripSeedPrefix(text)) && AfterSeed(StripSeedPrefix(text)) == None
  {
    StrippedHasNoPrefix(TrimSpace(text));
    TrimmedIsFixed(StripSeedPrefix(text));
  }

  // ---- printing ----

  function Digit(d: nat): (c: char)
    requires d < 10
    ensures IsDigit(c) && DigitValue(c) == d
  {
    '0' + d as char
  }

  function DigitValue(c: char): (d: nat)
    requires IsDigit(c)
    ensures d < 10
  {
    c as int - '0' as int
  }

  /** The decimal numeral that %d prints. */
  function Decimal(n: nat): (s: string)
    ensures s != ""
    ensures forall x :: 0 <= x < |s| ==> IsDigit(s[x])
  {
    if n < 10 then [Digit(n)] else Decimal(n / 10) + [Digit(n % 10)]
  }

  lemma {:induction false} DecimalHasNoLeadingZero(n: nat)
    ensures Decimal(n)[0] == '0' <==> n == 0
  {
    if n >= 10 {
      DecimalHasNoLeadingZero(n / 10);
    }
  }

  lemma {:induction false} DecimalIsInjective(m: nat, n: nat)
    ensures Decimal(m) == Decimal(n) ==> m == n
    decreases m + n
  {
    if Decimal(m) == Decimal(n) && (m >= 10 || n >= 10) {
      var last := |Decimal(m)| - 1;
      assert DigitValue(Decimal(m)[last]) == m % 10 && DigitValue(Decimal(n)[last]) == n % 10;
      if m >= 10 && n >= 10 {
        assert Decimal(m)[..last] == Decimal(m / 10) && Decimal(n)[..last] == Decimal(n / 10);
        DecimalIsInjective(m / 10, n / 10);
      }
    }
  }

  function LabelOf(seed: nat, name: string): string {
    "Seed " + Decimal(seed) + if name == "" then "" else " - " + name
  }

  function FormatSeedLabel(seed: nat, name: string): string {
    var trimmed := TrimSpace(name);
    if trimmed == "" then "Seed " + Decimal(seed)
    else
      var stripped := StripSeedPrefix(trimmed);
      if stripped == "" then "Seed " + Decimal(seed)
      else "Seed " + Decimal(seed) + " - " + stripped
  }

  lemma FormatUsesStrippedName(seed: nat, name: string)
    ensures FormatSeedLabel(seed, name) == LabelOf(seed, StripSeedPrefix(name))
  {
    TrimmedIsFixed(TrimSpace(name));
    var stripped := StripSeedPrefix(name);
    assert "Seed " + Decimal(seed) + " - " + stripped == "Seed " + Decimal(seed) + (" - " + stripped);
  }

  /** Printing a seed in front of a clean name adds exactly one strippable prefix. */
  lemma AfterSeedOfLabel(seed: nat, name: string)
    requires Trimmed(name)
    ensures AfterSeed(LabelOf(seed, name)) == Some(name)
  {
    var text, end := LabelOf(seed, name), 5 + |Decimal(seed)|;
    LabelLayout(seed, name);
    SkipRunStopsAt(text, 4, 5, IsBlank);
    SkipRunStopsAt(text, 5, end, IsDigit);
    if name == "" {
      SkipRunStopsAt(text, end, end, IsBlank);
    } else {
      SkipRunStopsAt(text, end, end + 1, IsBlank);
      SkipRunStopsAt(text, end + 2, end + 3, IsBlank);
    }
  }

  /** Where the parts of a label stand. */
  lemma LabelLayout(seed: nat, name: string)
    requires Trimmed(name)
    ensures var text, end := LabelOf(seed, name), 5 + |Decimal(seed)|;
            && HasSeedWord(text) && Trimmed(text) && text[4] == ' '
            && (forall x :: 5 <= x < end ==> IsDigit(text[x]))
            && (if name == "" then |text| == end
                else && |text| == end + 3 + |name| && text[end] == ' ' && text[end + 1] == '-' && text[end + 2] == ' '
                     && text[end + 3] != ' ' && text[end + 3..] == name)
  {
    var text, end := LabelOf(seed, name), 5 + |Decimal(seed)|;
    if name == "" {
      LabelHead(seed, "");
      assert text[|text| - 1] == text[end - 1];
    } else {
      var tail := " - " + name;
      LabelHead(seed, tail);
      assert text[end + 3] == tail[3] == name[0];
      assert text[|text| - 1] == tail[|tail| - 1] == name[|name| - 1];
      assert text[end + 3..] == tail[3..] == name;
    }
  }

  lemma LabelHead(seed: nat, tail: string)
    ensures var text, end := "Seed " + Decimal(seed) + tail, 5 + |Decimal(seed)|;
            && HasSeedWord(text) && text[4] == ' '
            && (forall x :: 5 <= x < end ==> IsDigit(text[x]))
            && (forall x :: end <= x < |text| ==> text[x] == tail[x - end])
  {
    var text, digits := "Seed " + Decimal(seed) + tail, Decimal(seed);
    assert forall x :: 5 <= x < 5 + |digits| ==> text[x] == digits[x - 5];
  }

  /** The name part survives formatting: stripping a formatted label gives the stripped name. */
  lemma StripOfFormat(seed: nat, name: string)
    ensures StripSeedPrefix(FormatSeedLabel(seed, name)) == StripSeedPrefix(name)
  {
    var base := StripSeedPrefix(name);
    StripIsIdempotent(name);
    FormatUsesStrippedName(seed, name);
    AfterSeedOfLabel(seed, base);
    LabelLayout(seed, base);
    TrimmedIsFixed(LabelOf(seed, base));
    TrimmedIsFixed(base);
  }

  /** Relabelling absorbs every earlier label. */
  lemma RelabelAbsorbs(seed: nat, earlier: nat, name: string)
    ensures FormatSeedLabel(seed, FormatSeedLabel(earlier, name)) == FormatSeedLabel(seed, name)
  {
    StripOfFormat(earlier, name);
    FormatUsesStrippedName(seed, FormatSeedLabel(earlier, name));
    FormatUsesStrippedName(seed, name);
  }

  // ---- parsing ----

  /** Two's-complement wrap-around of Go's 64-bit int. */
  function Wrap64(v: int): int {
    (v + 0x8000_0000_0000_0000) % 0x1_0000_0000_0000_0000 - 0x8000_0000_0000_0000
  }

  datatype Phase = Before | Inside | Done

  /** The parser's accumulator after the first `n` characters. */
  function Scan(text: string, n: nat): (int, Phase)
    requires n <= |text|
  {
    if n == 0 then (0, Before)
    else
      var (seed, phase) := Scan(text, n - 1);
      var c := text[n - 1];
      if phase == Done then (seed, Done)
      else if IsDigit(c) then (Wrap64(Wrap64(seed * 10) + DigitValue(c)), Inside)
      else if phase == Inside then (seed, Done)
      else (seed, Before)
  }

  function ParseSeedValue(text: string): Option<int> {
    var (seed, phase) := Scan(text, |text|);
    if phase == Before then None else Some(seed)
  }

  method ParseSeedLoop(text: string) returns (seed: int, found: bool)
    ensures (if found then Some(seed) else None) == ParseSeedValue(text)
  {
    seed, found := 0, false;
    var i := 0;
    while i < |text|
      invariant i <= |text|
      invariant Scan(text, i) == (seed, if found then Inside else Before)
    {
      var c := text[i];
      if '0' <= c <= '9' {
        seed := Wrap64(Wrap64(seed * 10) + DigitValue(c));
        found := true;
      } else if found {
        ScanStaysDone(text, i + 1, |text|);
        break;
      }
      i := i + 1;
    }
  }

  lemma {:induction false} ScanStaysDone(text: string, m: nat, n: nat)
    requires m <= n <= |text|
    requires Scan(text, m).1 == Done
    ensures Scan(text, n) == Scan(text, m)
    decreases n
  {
    if m < n {
      ScanStaysDone(text, m, n - 1);
    }
  }

  lemma ScanDigit(text: string, i: nat, seed: int, phase: Phase)
    requires i < |text| && IsDigit(text[i])
    requires Scan(text, i) == (seed, phase) && phase != Done
    requires 0 <= seed && seed * 10 + DigitValue(text[i]) < 0x8000_0000_0000_0000
    ensures Scan(text, i + 1) == (seed * 10 + DigitValue(text[i]), Inside)
  {
  }

  /** Scanning "Seed " and a numeral that fits the machine word yields its value. */
  lemma {:induction false} ScanNumeral(text: string, n: nat)
    requires n < 0x8000_0000_0000_0000
    requires "Seed " + Decimal(n) <= text
    ensures Scan(text, 5 + |Decimal(n)|) == (n, Inside)
    decreases n
  {
    var last := 4 + |Decimal(n)|;
    assert text[last] == ("Seed " + Decimal(n))[last] == Digit(n % 10);
    if n < 10 {
      ScanSeedWord(text);
      ScanDigit(text, last, 0, Before);
    } else {
      assert Decimal(n) == Decimal(n / 10) + [Digit(n % 10)];
      assert "Seed " + Decimal(n / 10) <= "Seed " + Decimal(n);
      ScanNumeral(text, n / 10);
      ScanDigit(text, last, n / 10, Inside);
    }
  }

  lemma ScanSeedWord(text: string)
    requires "Seed " <= text
    ensures Scan(text, 5) == (0, Before)
  {
    assert text[..5] == "Seed ";
    assert forall x :: 0 <= x < 5 ==> text[x] == "Seed "[x];
    assert Scan(text, 1) == (0, Before);
    assert Scan(text, 2) == (0, Before);
    assert Scan(text, 3) == (0, Before);
  }

  lemma {:induction false} ScanNeedsDigit(text: string, n: nat)
    requires n <= |text|
    ensures Scan(text, n).1 == Before <==> forall i :: 0 <= i < n ==> !IsDigit(text[i])
  {
    if n > 0 {
      ScanNeedsDigit(text, n - 1);
    }
  }

  /** A label without a digit has no seed. */
  lemma ParseNeedsDigit(text: string)
    ensures ParseSeedValue(text).None? <==> forall i :: 0 <= i < |text| ==> !IsDigit(text[i])
  {
    ScanNeedsDigit(text, |text|);
  }

  /** Reading back a printed label gives its seed, whatever the name contains. */
  lemma ParseOfFormat(seed: nat, name: string)
    requires seed < 0x8000_0000_0000_0000
    ensures ParseSeedValue(FormatSeedLabel(seed, name)) == Some(seed)
  {
    FormatUsesStrippedName(seed, name);
    var text := FormatSeedLabel(seed, name);
    var end := 5 + |Decimal(seed)|;
    ScanNumeral(text, seed);
    if end < |text| {
      assert text[end] == ' ';
      assert Scan(text, end + 1) == (seed, Done);
      ScanStaysDone(text, end + 1, |text|);
    }
  }
}
