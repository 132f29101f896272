/**
 * LRC lyric parsing (src/utils/lrc-parse.ts).
 *
 * The document is cut at every '\n'. In each line the parser looks for the FIRST occurrence,
 * anywhere in the line, of a time tag `[mm:ss.ff]` or `[mm:ss.fff]`; a line without one is
 * skipped. The tag gives the cue time, the tag (only that first one) is cut out, the rest is
 * trimmed, and the line is kept only if something remains. Lines are kept in document order.
 *
 * Time is kept in whole milliseconds: the source's `min * 60 + sec + ms / 1000` seconds is
 * exactly `TimeMs / 1000`.
 */
module LrcParse {

  import opened Wrappers
  import opened Text

  /** One lyric line: its cue time in milliseconds and its text. */
  datatype LyricLine = LyricLine(timeMs: nat, text: string)

  /**
   * One match of the time tag: where it starts, how many fraction digits it has (2 or 3),
   * and its minute, second and fraction fields as written.
   */
  datatype Tag = Tag(pos: nat, digits: nat, minutes: nat, seconds: nat, fraction: nat)

  // ----- The tag pattern: '[' d d ':' d d '.' d d (d)? ']' -----

  /** One position of the pattern: a literal character or any decimal digit (`\d` is ASCII). */
  datatype CharClass = Literal(c: char) | AnyDigit

  predicate ClassMatches(cc: CharClass, c: char) {
    match cc
    case Literal(l) => c == l
    case AnyDigit => IsDigit(c)
  }

  /** The tag pattern with `k` fraction digits. */
  function TagPattern(k: nat): (p: seq<CharClass>)
    ensures |p| == k + 8
  {
    [Literal('['), AnyDigit, AnyDigit, Literal(':'), AnyDigit, AnyDigit, Literal('.')]
      + seq(k, _ => AnyDigit) + [Literal(']')]
  }

  predicate Fits(s: string, pat: seq<CharClass>) {
    |s| == |pat| && forall n :: 0 <= n < |s| ==> ClassMatches(pat[n], s[n])
  }

  /** The tag with `k` fraction digits occurs in `line` at position `i`. */
  predicate MatchesAt(line: string, i: nat, k: nat) {
    i + k + 8 <= |line| && Fits(line[i..i + k + 8], TagPattern(k))
  }

  /** Some tag (`\d{2,3}` fraction) occurs at `i`. */
  predicate TagStartsAt(line: string, i: nat) {
    MatchesAt(line, i, 2) || MatchesAt(line, i, 3)
  }

  /** Length of the text a tag covers. */
  function TagLength(t: Tag): nat {
    t.digits + 8
  }

  /** The fraction in milliseconds: two digits are hundredths (times ten), three are thousandths. */
  function FractionMs(t: Tag): nat {
    if t.digits == 2 then t.fraction * 10 else t.fraction
  }

  /** The cue time of a tag in milliseconds. */
  function TimeMs(t: Tag): nat {
    t.minutes * 60000 + t.seconds * 1000 + FractionMs(t)
  }

  /** The largest time a tag can denote: `[99:99.999]`; seconds are not range-checked. */
  const MaxTimeMs: nat := 99 * 60000 + 99 * 1000 + 999

  /** Well-formedness of a tag found in a line: fields are at most two / `digits` decimal digits. */
  predicate ValidTag(t: Tag) {
    (t.digits == 2 || t.digits == 3) && t.minutes < 100 && t.seconds < 100
    && (if t.digits == 2 then t.fraction < 100 else t.fraction < 1000)
  }

  function TwoDigitValue(a: char, b: char): (v: nat)
    requires IsDigit(a) && IsDigit(b)
    ensures v < 100 && v == DecimalValue([a, b])
  {
    assert [a, b][..1] == [a];
    assert [a][..0] == [];
    assert DecimalValue([a]) == DigitValue(a);
    assert DecimalValue([a, b]) == DecimalValue([a]) * 10 + DigitValue(b);
    DigitValue(a) * 10 + DigitValue(b)
  }

  function ThreeDigitValue(a: char, b: char, c: char): (v: nat)
    requires IsDigit(a) && IsDigit(b) && IsDigit(c)
    ensures v < 1000 && v == DecimalValue([a, b, c])
  {
    assert [a, b, c][..2] == [a, b];
    TwoDigitValue(a, b) * 10 + DigitValue(c)
  }

  /**
   * The tag starting at `i`, if the pattern matches there. The fields are the `parseInt`
   * values of the minute, second and fraction digits.
   */
  function TagAt(line: string, i: nat): (t: Option<Tag>)
    ensures t.Some? <==> TagStartsAt(line, i)
    ensures t.Some? ==> && t.value.pos == i && ValidTag(t.value)
                        && MatchesAt(line, i, t.value.digits)
                        && AllDigits(line[i + 1..i + 3]) && AllDigits(line[i + 4..i + 6])
                        && AllDigits(line[i + 7..i + 7 + t.value.digits])
                        && t.value.minutes == DecimalValue(line[i + 1..i + 3])
                        && t.value.seconds == DecimalValue(line[i + 4..i + 6])
                        && t.value.fraction == DecimalValue(line[i + 7..i + 7 + t.value.digits])
  {
    if i + 10 <= |line| && line[i] == '[' && IsDigit(line[i + 1]) && IsDigit(line[i + 2])
       && line[i + 3] == ':' && IsDigit(line[i + 4]) && IsDigit(line[i + 5]) && line[i + 6] == '.'
       && IsDigit(line[i + 7]) && IsDigit(line[i + 8])
    then
      var minutes := TwoDigitValue(line[i + 1], line[i + 2]);
      var seconds := TwoDigitValue(line[i + 4], line[i + 5]);
      assert line[i + 1..i + 3] == [line[i + 1], line[i + 2]];
      assert line[i + 4..i + 6] == [line[i + 4], line[i + 5]];
      if i + 11 <= |line| && IsDigit(line[i + 9]) && line[i + 10] == ']' then
        assert line[i + 7..i + 10] == [line[i + 7], line[i + 8], line[i + 9]];
        MatchesAtByChars(line, i, 3);
        NotMatchesAtByChar(line, i, 2, 9);
        Some(Tag(i, 3, minutes, seconds, ThreeDigitValue(line[i + 7], line[i + 8], line[i + 9])))
      else if line[i + 9] == ']' then
        assert line[i + 7..i + 9] == [line[i + 7], line[i + 8]];
        MatchesAtByChars(line, i, 2);
        NotThreeDigitsAt(line, i, 9);
        Some(Tag(i, 2, minutes, seconds, TwoDigitValue(line[i + 7], line[i + 8])))
      else
        NotMatchesAtByChar(line, i, 2, 9);
        NotThreeDigitsAt(line, i, if IsDigit(line[i + 9]) then 10 else 9);
        None
    else
      NoTagByPrefix(line, i);
      None
  }

  lemma MatchesAtByChars(line: string, i: nat, k: nat)
    requires k == 2 || k == 3
    requires i + k + 8 <= |line|
    requires line[i] == '[' && IsDigit(line[i + 1]) && IsDigit(line[i + 2]) && line[i + 3] == ':'
    requires IsDigit(line[i + 4]) && IsDigit(line[i + 5]) && line[i + 6] == '.'
    requires IsDigit(line[i + 7]) && IsDigit(line[i + 8]) && (k == 3 ==> IsDigit(line[i + 9]))
    requires line[i + 7 + k] == ']'
    ensures MatchesAt(line, i, k)
  {
    var s := line[i..i + k + 8];
    var p := TagPattern(k);
    forall n | 0 <= n < |s| ensures ClassMatches(p[n], s[n]) {
      assert s[n] == line[i + n];
    }
  }

  /** The pattern fails at position `n` of the candidate, so the tag does not match at `i`. */
  lemma NotMatchesAtByChar(line: string, i: nat, k: nat, n: nat)
    requires k == 2 || k == 3
    requires n < k + 8 && i + k + 8 <= |line|
    requires !ClassMatches(TagPattern(k)[n], line[i + n])
    ensures !MatchesAt(line, i, k)
  {
    assert line[i..i + k + 8][n] == line[i + n];
  }

  /** Like `NotMatchesAtByChar` for three fraction digits, also when the line is too short. */
  lemma NotThreeDigitsAt(line: string, i: nat, n: nat)
    requires i + 11 <= |line| ==> n < 11 && !ClassMatches(TagPattern(3)[n], line[i + n])
    ensures !MatchesAt(line, i, 3)
  {
    if i + 11 <= |line| {
      NotMatchesAtByChar(line, i, 3, n);
    }
  }

  lemma NoTagByPrefix(line: string, i: nat)
    requires !(i + 10 <= |line| && line[i] == '[' && IsDigit(line[i + 1]) && IsDigit(line[i + 2])
       && line[i + 3] == ':' && IsDigit(line[i + 4]) && IsDigit(line[i + 5]) && line[i + 6] == '.'
       && IsDigit(line[i + 7]) && IsDigit(line[i + 8]))
    ensures !TagStartsAt(line, i)
  {
    if i + 10 <= |line| {
      var n :| 0 <= n < 9 && !ClassMatches(TagPattern(2)[n], line[i + n]) by {
        if line[i] != '[' { assert !ClassMatches(TagPattern(2)[0], line[i]); }
        else if !IsDigit(line[i + 1]) { assert !ClassMatches(TagPattern(2)[1], line[i + 1]); }
        else if !IsDigit(line[i + 2]) { assert !ClassMatches(TagPattern(2)[2], line[i + 2]); }
        else if line[i + 3] != ':' { assert !ClassMatches(TagPattern(2)[3], line[i + 3]); }
        else if !IsDigit(line[i + 4]) { assert !ClassMatches(TagPattern(2)[4], line[i + 4]); }
        else if !IsDigit(line[i + 5]) { assert !ClassMatches(TagPattern(2)[5], line[i + 5]); }
        else if line[i + 6] != '.' { assert !ClassMatches(TagPattern(2)[6], line[i + 6]); }
        else if !IsDigit(line[i + 7]) { assert !ClassMatches(TagPattern(2)[7], line[i + 7]); }
        else { assert !ClassMatches(TagPattern(2)[8], line[i + 8]); }
      }
      NotMatchesAtByChar(line, i, 2, n);
      if i + 11 <= |line| {
        assert TagPattern(3)[n] == TagPattern(2)[n];
        NotMatchesAtByChar(line, i, 3, n);
      }
    }
  }

  /** The leftmost tag at or after position `i`. */
  function FindTagFrom(line: string, i: nat): (t: Option<Tag>)
    requires i <= |line|
    ensures t.Some? ==> i <= t.value.pos && TagAt(line, t.value.pos) == t
    ensures t.Some? ==> forall j :: i <= j < t.value.pos ==> !TagStartsAt(line, j)
    ensures t.None? ==> forall j :: i <= j ==> !TagStartsAt(line, j)
    decreases |line| - i
  {
    if i == |line| then None
    else
      match TagAt(line, i)
      case Some(tag) => Some(tag)
      case None => FindTagFrom(line, i + 1)
  }

  /** `line.match(timeReg)`: the leftmost tag in the line (the regex is not anchored). */
  function FindTag(line: string): (t: Option<Tag>)
    ensures t.Some? ==> TagAt(line, t.value.pos) == t
    ensures t.Some? ==> forall j :: 0 <= j < t.value.pos ==> !TagStartsAt(line, j)
    ensures t.None? <==> forall j :: 0 <= j ==> !TagStartsAt(line, j)
  {
    FindTagFrom(line, 0)
  }

  /** `line.replace(timeReg, '')`: the line with that one tag cut out. */
  function StripTag(line: string, t: Tag): string
    requires t.pos + TagLength(t) <= |line|
  {
    line[..t.pos] + line[t.pos + TagLength(t)..]
  }

  /** A lyric line as the parser produces it: non-empty trimmed text, a time of at most 99:99.999. */
  predicate Displayable(l: LyricLine) {
    l.text != [] && IsTrimmed(l.text) && l.timeMs <= MaxTimeMs
  }

  /** One iteration of the loop: the lyric line this input line contributes, if any. */
  function ParseLine(line: string): (r: Option<LyricLine>)
    ensures r.Some? ==> Displayable(r.value)
  {
    match FindTag(line)
    case None => None
    case Some(t) =>
      var text := Trim(StripTag(line, t));
      if text != [] then Some(LyricLine(TimeMs(t), text)) else None
  }

  /**
   * What a line contributes: nothing without a tag; otherwise the first tag's time and the rest of
   * the line trimmed, exactly when that rest is not all whitespace.
   */
  lemma ParseLineMeaning(line: string)
    ensures FindTag(line).None? ==> ParseLine(line).None?
    ensures FindTag(line).Some? ==>
      var t := FindTag(line).value;
      && t.pos + TagLength(t) <= |line|
      && (ParseLine(line).Some? <==> !AllWhitespace(StripTag(line, t)))
      && (ParseLine(line).Some? ==> ParseLine(line).value == LyricLine(TimeMs(t), Trim(StripTag(line, t))))
  {
  }

  function Emit(r: Option<LyricLine>): seq<LyricLine> {
    if r.Some? then [r.value] else []
  }

  /** The lyric lines a sequence of input lines yields, in input order. */
  function Collect(lines: seq<string>): (r: seq<LyricLine>)
    ensures |r| <= |lines|
  {
    if lines == [] then []
    else Collect(lines[..|lines| - 1]) + Emit(ParseLine(lines[|lines| - 1]))
  }

  /** Every lyric line collected has non-empty trimmed text and a time of at most 99:99.999. */
  lemma CollectDisplayable(lines: seq<string>)
    ensures forall k :: 0 <= k < |Collect(lines)| ==> Displayable(Collect(lines)[k])
  {
    CollectIsPresent(lines);
    PresentDisplayable(Parsed(lines));
  }

  /** `parseLrc`: split at '\n' and keep each line's parsed form, in order. Never fails. */
  method ParseLrc(lrc: string) returns (result: seq<LyricLine>)
    ensures result == Collect(Split(lrc, '\n'))
  {
    var lines := Split(lrc, '\n');
    result := [];
    var i := 0;
    while i < |lines|
      invariant 0 <= i <= |lines|
      invariant result == Collect(lines[..i])
    {
      var line := lines[i];
      assert lines[..i + 1][..i] == lines[..i];
      var parsed := ParseLine(line);
      if parsed.Some? {
        result := result + [parsed.value];
      }
      i := i + 1;
    }
    assert lines[..i] == lines;
  }

  // ----- Properties of the result -----

  /** The values present in a sequence of options, in order. */
  function Present<T>(xs: seq<Option<T>>): seq<T> {
    if xs == [] then []
    else Present(xs[..|xs| - 1]) + (if xs[|xs| - 1].Some? then [xs[|xs| - 1].value] else [])
  }

  /** The positions of the present values, in increasing order. */
  function PresentAt<T>(xs: seq<Option<T>>): seq<nat> {
    if xs == [] then []
    else
      var n := |xs| - 1;
      PresentAt(xs[..n]) + (if xs[n].Some? then [n] else [])
  }

  /** Each line's parse. */
  function Parsed(lines: seq<string>): (ps: seq<Option<LyricLine>>)
    ensures |ps| == |lines|
    ensures forall i :: 0 <= i < |lines| ==> ps[i] == ParseLine(lines[i])
  {
    seq(|lines|, i requires 0 <= i < |lines| => ParseLine(lines[i]))
  }

  /** The positions of the input lines that contribute a lyric line, in increasing order. */
  function Sources(lines: seq<string>): seq<nat> {
    PresentAt(Parsed(lines))
  }

  /** The present values of displayable options are displayable. */
  lemma {:induction false} PresentDisplayable(xs: seq<Option<LyricLine>>)
    requires forall i :: 0 <= i < |xs| && xs[i].Some? ==> Displayable(xs[i].value)
    ensures forall k :: 0 <= k < |Present(xs)| ==> Displayable(Present(xs)[k])
  {
    if xs != [] {
      PresentDisplayable(xs[..|xs| - 1]);
    }
  }

  /** `Collect` keeps exactly the present parses. */
  lemma {:induction false} CollectIsPresent(lines: seq<string>)
    ensures Collect(lines) == Present(Parsed(lines))
  {
    if lines != [] {
      var n := |lines| - 1;
      CollectIsPresent(lines[..n]);
      assert Parsed(lines)[..n] == Parsed(lines[..n]);
    }
  }

  /**
   * The output is exactly the parsed lines, in input order and without re-sorting: the k-th
   * entry comes from input line `Sources(lines)[k]`, these positions increase strictly, and
   * every line that parses appears.
   */
  lemma CollectInInputOrder(lines: seq<string>)
    ensures var idx := Sources(lines); var r := Collect(lines);
      && |idx| == |r|
      && (forall k :: 0 <= k < |idx| ==> idx[k] < |lines| && ParseLine(lines[idx[k]]) == Some(r[k]))
      && (forall k, m :: 0 <= k < m < |idx| ==> idx[k] < idx[m])
      && (forall i :: 0 <= i < |lines| && ParseLine(lines[i]).Some? ==> i in idx)
  {
    var ps := Parsed(lines);
    CollectIsPresent(lines);
    PresentAtMatches(ps);
    PresentAtIncreases(ps);
    PresentAtComplete(ps);
  }

  lemma {:induction false} PresentAtMatches<T>(xs: seq<Option<T>>)
    ensures |PresentAt(xs)| == |Present(xs)|
    ensures forall k :: 0 <= k < |PresentAt(xs)| ==>
      PresentAt(xs)[k] < |xs| && xs[PresentAt(xs)[k]] == Some(Present(xs)[k])
  {
    if xs != [] {
      var n := |xs| - 1;
      var init := xs[..n];
      PresentAtMatches(init);
      var idx0, idx := PresentAt(init), PresentAt(xs);
      var r0, r := Present(init), Present(xs);
      forall k | 0 <= k < |idx|
        ensures idx[k] < |xs| && xs[idx[k]] == Some(r[k])
      {
        if k < |idx0| {
          assert idx[k] == idx0[k] && r[k] == r0[k];
          assert xs[idx0[k]] == init[idx0[k]];
        }
      }
    }
  }

  lemma {:induction false} PresentAtBelow<T>(xs: seq<Option<T>>)
    ensures forall k :: 0 <= k < |PresentAt(xs)| ==> PresentAt(xs)[k] < |xs|
  {
    if xs != [] {
      PresentAtBelow(xs[..|xs| - 1]);
    }
  }

  lemma {:induction false} PresentAtIncreases<T>(xs: seq<Option<T>>)
    ensures forall k, m :: 0 <= k < m < |PresentAt(xs)| ==> PresentAt(xs)[k] < PresentAt(xs)[m]
  {
    if xs != [] {
      var n := |xs| - 1;
      PresentAtIncreases(xs[..n]);
      PresentAtBelow(xs[..n]);
    }
  }

  lemma {:induction false} PresentAtComplete<T>(xs: seq<Option<T>>)
    ensures forall i :: 0 <= i < |xs| && xs[i].Some? ==> i in PresentAt(xs)
  {
    if xs != [] {
      var n := |xs| - 1;
      var init := xs[..n];
      PresentAtComplete(init);
      forall i | 0 <= i < n && xs[i].Some? ensures i in PresentAt(xs) {
        assert init[i] == xs[i];
      }
    }
  }

  /** A line with no time tag anywhere contributes nothing. */
  lemma TaglessLineDropped(line: string)
    requires forall j :: 0 <= j < |line| ==> !TagStartsAt(line, j)
    ensures ParseLine(line).None?
  {
    assert forall j :: |line| <= j ==> !TagStartsAt(line, j);
  }

  /** A line that is nothing but a tag, up to whitespace, contributes nothing. */
  lemma TagOnlyLineDropped(line: string, t: Tag)
    requires FindTag(line) == Some(t)
    requires AllWhitespace(StripTag(line, t))
    ensures ParseLine(line).None?
  {
  }

  /** A two-digit fraction counts hundredths: `.ab` and `.ab0` give the same time. */
  lemma FractionWidthAgnostic(m1: char, m2: char, s1: char, s2: char, f1: char, f2: char)
    requires IsDigit(m1) && IsDigit(m2) && IsDigit(s1) && IsDigit(s2) && IsDigit(f1) && IsDigit(f2)
    ensures var two := TagAt(['[', m1, m2, ':', s1, s2, '.', f1, f2, ']'], 0);
            var three := TagAt(['[', m1, m2, ':', s1, s2, '.', f1, f2, '0', ']'], 0);
            two.Some? && three.Some? && TimeMs(two.value) == TimeMs(three.value)
  {
    var two := TagAt(['[', m1, m2, ':', s1, s2, '.', f1, f2, ']'], 0);
    var three := TagAt(['[', m1, m2, ':', s1, s2, '.', f1, f2, '0', ']'], 0);
    assert two.value.digits == 2;
    assert three.value.digits == 3;
    assert DigitValue('0') == 0;
  }

  /** The seconds in seconds-as-real; the integer model agrees with `min * 60 + sec + ms / 1000`. */
  lemma TimeAsSeconds(t: Tag)
    ensures TimeMs(t) as real / 1000.0
      == t.minutes as real * 60.0 + t.seconds as real + FractionMs(t) as real / 1000.0
  {
  }

  lemma TwoDigitTagAt(line: string, i: nat)
    requires i + 10 <= |line| && line[i] == '[' && IsDigit(line[i + 1]) && IsDigit(line[i + 2])
    requires line[i + 3] == ':' && IsDigit(line[i + 4]) && IsDigit(line[i + 5]) && line[i + 6] == '.'
    requires IsDigit(line[i + 7]) && IsDigit(line[i + 8]) && line[i + 9] == ']'
    ensures TagAt(line, i) == Some(Tag(i, 2, TwoDigitValue(line[i + 1], line[i + 2]),
      TwoDigitValue(line[i + 4], line[i + 5]), TwoDigitValue(line[i + 7], line[i + 8])))
  {
  }

  /** A line that starts with a two-digit tag and goes on with trimmed, non-empty text. */
  lemma LeadingTagLine(line: string)
    requires 10 < |line| && line[0] == '[' && IsDigit(line[1]) && IsDigit(line[2])
    requires line[3] == ':' && IsDigit(line[4]) && IsDigit(line[5]) && line[6] == '.'
    requires IsDigit(line[7]) && IsDigit(line[8]) && line[9] == ']'
    requires IsTrimmed(line[10..])
    ensures var t := Tag(0, 2, TwoDigitValue(line[1], line[2]), TwoDigitValue(line[4], line[5]),
                         TwoDigitValue(line[7], line[8]));
            ParseLine(line) == Some(LyricLine(TimeMs(t), line[10..]))
  {
    TwoDigitTagAt(line, 0);
    var t := FindTag(line).value;
    assert StripTag(line, t) == line[10..];
    TrimTrimmed(line[10..]);
  }

  /**
   * Only the first tag is removed: a line led by a `[00:<s1><s2>.00]` tag and a second tag keeps
   * the second tag at the start of its text.
   */
  lemma OnlyFirstTagRemoved(line: string, s1: char, s2: char)
    requires SecondsTagLeads(line, s1, s2) && TagStartsAt(line, 10)
    ensures ParseLine(line) == Some(LyricLine(TwoDigitValue(s1, s2) * 1000, line[10..]))
    ensures TagStartsAt(ParseLine(line).value.text, 0)
  {
    SecondsCue(line, s1, s2);
    TagStartsAfterDrop(line, 10);
  }

  /** A tag at `i` is a tag at the start of the line's suffix from `i`. */
  lemma TagStartsAfterDrop(line: string, i: nat)
    requires i <= |line| && TagStartsAt(line, i)
    ensures TagStartsAt(line[i..], 0)
  {
    var k := if MatchesAt(line, i, 2) then 2 else 3;
    assert line[i..][0..k + 8] == line[i..i + k + 8];
  }

  /**
   * The tag may stand anywhere in the line: after any text without a `[`, a two-digit tag is the
   * one found, and it is cut out of the middle of the line.
   */
  lemma TagInsideLine(line: string, i: nat)
    requires i + 10 <= |line| && line[i] == '[' && IsDigit(line[i + 1]) && IsDigit(line[i + 2])
    requires line[i + 3] == ':' && IsDigit(line[i + 4]) && IsDigit(line[i + 5]) && line[i + 6] == '.'
    requires IsDigit(line[i + 7]) && IsDigit(line[i + 8]) && line[i + 9] == ']'
    requires forall j :: 0 <= j < i ==> line[j] != '['
    ensures var t := Tag(i, 2, TwoDigitValue(line[i + 1], line[i + 2]),
                         TwoDigitValue(line[i + 4], line[i + 5]), TwoDigitValue(line[i + 7], line[i + 8]));
            var text := Trim(line[..i] + line[i + 10..]);
            ParseLine(line) == if text != [] then Some(LyricLine(TimeMs(t), text)) else None
  {
    FirstTagAfter(line, i);
  }

  /** After text without a `[`, a two-digit tag is the first tag of the line. */
  lemma FirstTagAfter(line: string, i: nat)
    requires i + 10 <= |line| && line[i] == '[' && IsDigit(line[i + 1]) && IsDigit(line[i + 2])
    requires line[i + 3] == ':' && IsDigit(line[i + 4]) && IsDigit(line[i + 5]) && line[i + 6] == '.'
    requires IsDigit(line[i + 7]) && IsDigit(line[i + 8]) && line[i + 9] == ']'
    requires forall j :: 0 <= j < i ==> line[j] != '['
    ensures FindTag(line) == Some(Tag(i, 2, TwoDigitValue(line[i + 1], line[i + 2]),
                                      TwoDigitValue(line[i + 4], line[i + 5]), TwoDigitValue(line[i + 7], line[i + 8])))
  {
    forall j | 0 <= j < i
      ensures !TagStartsAt(line, j)
    {
      NoTagWithoutBracket(line, j);
    }
    FindTagFromSkips(line, 0, i);
    TwoDigitTagAt(line, i);
  }

  /** No tag starts where there is no `[`. */
  lemma NoTagWithoutBracket(line: string, j: nat)
    requires j < |line| && line[j] != '['
    ensures !TagStartsAt(line, j)
  {
    if j + 10 <= |line| {
      NotMatchesAtByChar(line, j, 2, 0);
    }
    if j + 11 <= |line| {
      NotMatchesAtByChar(line, j, 3, 0);
    }
  }


  /** The scan passes over positions where no tag starts. */
  lemma {:induction false} FindTagFromSkips(line: string, i: nat, j: nat)
    requires i <= j < |line|
    requires forall p :: i <= p < j ==> !TagStartsAt(line, p)
    ensures FindTagFrom(line, i) == FindTagFrom(line, j)
    decreases j - i
  {
    if i < j {
      FindTagFromSkips(line, i + 1, j);
    }
  }


  /** A line led by the tag `[00:<s1><s2>.00]`, whose rest is trimmed and non-empty. */
  predicate SecondsTagLeads(line: string, s1: char, s2: char) {
    && 10 < |line| && line[0] == '[' && line[1] == '0' && line[2] == '0' && line[3] == ':'
    && line[4] == s1 && line[5] == s2 && line[6] == '.' && line[7] == '0' && line[8] == '0'
    && line[9] == ']' && IsDigit(s1) && IsDigit(s2) && IsTrimmed(line[10..])
  }

  /** Such a line is cued at its two seconds digits, with the rest of the line as its text. */
  lemma SecondsCue(line: string, s1: char, s2: char)
    requires SecondsTagLeads(line, s1, s2)
    ensures ParseLine(line) == Some(LyricLine(TwoDigitValue(s1, s2) * 1000, line[10..]))
  {
    LeadingTagLine(line);
    SecondsTime(s1, s2);
  }

  lemma SecondsTime(s1: char, s2: char)
    requires IsDigit(s1) && IsDigit(s2)
    ensures TimeMs(Tag(0, 2, TwoDigitValue('0', '0'), TwoDigitValue(s1, s2), TwoDigitValue('0', '0')))
      == TwoDigitValue(s1, s2) * 1000
  {
  }

  /** Seconds are not range-checked: `[00:75.00]` is cued at 75 seconds, the time of `[01:15.00]`. */
  lemma SecondsNotRangeChecked(line: string)
    requires SecondsTagLeads(line, '7', '5')
    ensures ParseLine(line) == Some(LyricLine(75000, line[10..]))
    ensures ParseLine(line).value.timeMs == TimeMs(Tag(0, 2, 1, 15, 0))
  {
    SecondsCue(line, '7', '5');
  }

  /**
   * No sorting happens: two cued lines come out in input order, so a later line with an earlier
   * time (`[00:05.00]b` before `[00:01.00]a`) stays later.
   */
  lemma OutputNotSortedByTime(l1: string, a1: char, b1: char, l2: string, a2: char, b2: char)
    requires SecondsTagLeads(l1, a1, b1) && SecondsTagLeads(l2, a2, b2)
    ensures Collect([l1, l2]) == [LyricLine(TwoDigitValue(a1, b1) * 1000, l1[10..]),
                                  LyricLine(TwoDigitValue(a2, b2) * 1000, l2[10..])]
    ensures TwoDigitValue(a1, b1) > TwoDigitValue(a2, b2) ==> Collect([l1, l2])[0].timeMs > Collect([l1, l2])[1].timeMs
  {
    SecondsCue(l1, a1, b1);
    SecondsCue(l2, a2, b2);
    CollectTwoParsed(l1, l2, LyricLine(TwoDigitValue(a1, b1) * 1000, l1[10..]),
                     LyricLine(TwoDigitValue(a2, b2) * 1000, l2[10..]));
  }

  lemma CollectTwo(l1: string, l2: string)
    ensures Collect([l1, l2]) == Emit(ParseLine(l1)) + Emit(ParseLine(l2))
  {
    assert [l1, l2][..1] == [l1];
    assert [l1][..0] == [];
  }

  /** Two lines that both parse yield their two lyric lines, first line first. */
  lemma CollectTwoParsed(l1: string, l2: string, a: LyricLine, b: LyricLine)
    requires ParseLine(l1) == Some(a) && ParseLine(l2) == Some(b)
    ensures Collect([l1, l2]) == [a, b]
  {
    CollectTwo(l1, l2);
  }
}
