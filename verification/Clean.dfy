/** Text cleanup shared by the ingest sources (src/passages/sources/clean.rs). */
module Clean {
  import opened Text
  import MatchKeys
  import Utf8

  // ---- strip_wiki_sections ----

  const TRAILING_SECTIONS: set<string> := {
    "References", "Notes", "Footnotes", "Citations", "Sources", "External links", "See also",
    "Further reading", "Track listing", "Track listings", "Formats and track listings",
    "Personnel", "Credits and personnel", "Charts", "Weekly charts", "Year-end charts",
    "Certifications", "Certifications and sales", "Release history",
    "脚注", "出典", "注釈", "参考文献", "関連項目", "外部リンク", "収録曲", "参加ミュージシャン", "チャート",
    "각주", "외부 링크", "같이 보기", "참고 문헌", "트랙 목록", "차트"
  }

  function TrimEquals(s: string): string {
    if s != [] && s[0] == '=' then TrimEquals(s[1..])
    else if s != [] && s[|s| - 1] == '=' then TrimEquals(s[..|s| - 1])
    else s
  }

  /** A line that opens a section of lists, credits or citations. */
  predicate IsHeading(line: string) {
    "==" <= Trim(line) && Trim(TrimEquals(Trim(line))) in TRAILING_SECTIONS
  }

  /** Where the line that starts at `i` ends, its newline included. */
  function LineEnd(text: string, i: nat): (e: nat)
    requires i < |text|
    ensures i < e <= |text|
    ensures forall j | i <= j < e - 1 :: text[j] != '\n'
    ensures e < |text| ==> text[e - 1] == '\n'
    decreases |text| - i
  {
    if text[i] == '\n' || i + 1 == |text| then i + 1 else LineEnd(text, i + 1)
  }

  /** The lines from `i` on, each with its newline. */
  function LinesFrom(text: string, i: nat): seq<string>
    requires i <= |text|
    decreases |text| - i
  {
    if i == |text| then []
    else [text[i..LineEnd(text, i)]] + LinesFrom(text, LineEnd(text, i))
  }

  /** Rust's split_inclusive('\n'). */
  function Lines(text: string): seq<string> {
    LinesFrom(text, 0)
  }

  /** Where the first heading line from `i` on starts. */
  function BodyEnd(text: string, heading: string -> bool, i: nat): (n: nat)
    requires i <= |text|
    ensures i <= n <= |text|
    decreases |text| - i
  {
    if i == |text| || heading(text[i..LineEnd(text, i)]) then i
    else BodyEnd(text, heading, LineEnd(text, i))
  }

  function StripSections(text: string, heading: string -> bool): string {
    TrimEnd(text[..BodyEnd(text, heading, 0)])
  }

  method StripFrom(text: string, heading: string -> bool) returns (result: string)
    ensures result == StripSections(text, heading)
  {
    var offset: nat := 0;
    while offset < |text|
      invariant offset <= |text|
      invariant BodyEnd(text, heading, offset) == BodyEnd(text, heading, 0)
    {
      var end := LineEnd(text, offset);
      if heading(text[offset..end]) {
        return TrimEnd(text[..offset]);
      }
      offset := end;
    }
    assert text[..|text|] == text;
    result := TrimEnd(text);
  }

  method StripWikiSections(text: string) returns (result: string)
    ensures result == StripSections(text, IsHeading)
  {
    result := StripFrom(text, IsHeading);
  }

  ghost predicate NoneIs(lines: seq<string>, heading: string -> bool) {
    forall k | 0 <= k < |lines| :: !heading(lines[k])
  }

  lemma NoneInCons(first: string, rest: seq<string>, heading: string -> bool)
    ensures NoneIs([first] + rest, heading) <==> !heading(first) && NoneIs(rest, heading)
  {
    var lines := [first] + rest;
    assert lines[0] == first;
    assert forall k | 0 <= k < |rest| :: lines[k + 1] == rest[k];
  }

  lemma {:induction false} NoHeadingIff(text: string, heading: string -> bool, i: nat)
    requires i <= |text|
    ensures BodyEnd(text, heading, i) == |text| <==> NoneIs(LinesFrom(text, i), heading)
    decreases |text| - i
  {
    if i < |text| {
      var e := LineEnd(text, i);
      NoHeadingIff(text, heading, e);
      NoneInCons(text[i..e], LinesFrom(text, e), heading);
    }
  }

  lemma {:induction false} LineEndIs(text: string, i: nat, e: nat)
    requires i < e <= |text| && (forall j | i <= j < e - 1 :: text[j] != '\n')
    requires e == |text| || text[e - 1] == '\n'
    ensures LineEnd(text, i) == e
    decreases e - i
  {
    if i + 1 < e {
      LineEndIs(text, i + 1, e);
    }
  }

  lemma EndsMatch(s: string, b: nat)
    requires b <= |s| && AllSpace(s[b..]) && (b > 0 ==> !IsSpace(s[b - 1]))
    ensures TrimEnd(s) == s[..b]
  {
    forall i | b <= i < |s|
      ensures IsSpace(s[i])
    {
      assert s[b..][i - b] == s[i];
    }
  }

  lemma StartsMatch(s: string, a: nat)
    requires a <= |s| && AllSpace(s[..a]) && (a < |s| ==> !IsSpace(s[a]))
    ensures TrimStart(s) == s[a..]
  {
    forall i | 0 <= i < a
      ensures IsSpace(s[i])
    {
      assert s[..a][i] == s[i];
    }
  }

  lemma TrimIs(s: string, a: nat, b: nat)
    requires a < b <= |s| && AllSpace(s[..a]) && AllSpace(s[b..])
    requires !IsSpace(s[a]) && !IsSpace(s[b - 1])
    ensures Trim(s) == s[a..b]
  {
    var t := s[a..];
    StartsMatch(s, a);
    assert t[b - a..] == s[b..] && t[..b - a] == s[a..b];
    EndsMatch(t, b - a);
  }

  lemma TrimBlank(s: string)
    requires AllSpace(s)
    ensures TrimEnd(s) == [] && Trim(s) == []
  {
  }

  lemma PrefixSlices(s: string, a: nat, b: nat)
    requires a <= b <= |s|
    ensures s[..b][..a] == s[..a] && s[..b][b..] == [] && s[..b][a..b] == s[a..b]
  {
  }

  lemma TrimOfTrimmedEnd(s: string)
    ensures Trim(TrimEnd(s)) == Trim(s)
  {
    var a, b := InkStart(s, 0), InkEnd(s, |s|);
    if a < b {
      PrefixSlices(s, a, b);
      TrimIs(s, a, b);
      TrimIs(s[..b], a, b);
    } else {
      TrimBlank(s);
      TrimBlank([]);
    }
  }

  lemma SameHeading(line: string)
    ensures IsHeading(TrimEnd(line)) == IsHeading(line)
  {
    TrimOfTrimmedEnd(line);
  }

  /** A line cut short within the space at its end. */
  lemma CutLine(text: string, i: nat, k: nat, e: nat)
    requires i < k <= e <= |text| && !IsSpace(text[k - 1])
    requires forall j | k <= j < e :: IsSpace(text[j])
    ensures TrimEnd(text[i..e]) == text[i..k]
  {
    var line := text[i..e];
    assert forall j | k - i <= j < e - i :: line[j] == text[i + j];
    EndsMatch(line, k - i);
    assert line[..k - i] == text[i..k];
  }

  /** Text cut before the space that precedes its first heading has no heading. */
  lemma {:induction false} PrefixHasNoHeading(text: string, heading: string -> bool, i: nat, k: nat)
    requires forall line :: heading(TrimEnd(line)) == heading(line)
    requires i <= |text| && i <= k <= BodyEnd(text, heading, i)
    requires k > 0 ==> !IsSpace(text[k - 1])
    requires forall j | k <= j < BodyEnd(text, heading, i) :: IsSpace(text[j])
    ensures BodyEnd(text[..k], heading, i) == k
    decreases k - i
  {
    if i < k {
      var e, r := LineEnd(text, i), text[..k];
      if e <= k {
        LineEndIs(r, i, e);
        SliceOfSlice(text, 0, k, i, e);
        PrefixHasNoHeading(text, heading, e, k);
      } else {
        LineEndIs(r, i, k);
        CutLine(text, i, k, e);
        assert r[i..k] == text[i..k];
        assert heading(TrimEnd(text[i..e])) == heading(text[i..e]);
      }
    }
  }

  /** Unless it is the end of the text, the cut is where a heading line starts. */
  lemma {:induction false} StopsAtHeading(text: string, heading: string -> bool, i: nat)
    requires i <= |text| && (i == 0 || i == |text| || text[i - 1] == '\n')
    ensures var n := BodyEnd(text, heading, i);
      n < |text| ==> heading(LinesFrom(text, n)[0]) && (n == 0 || text[n - 1] == '\n')
    decreases |text| - i
  {
    if i < |text| && !heading(text[i..LineEnd(text, i)]) {
      StopsAtHeading(text, heading, LineEnd(text, i));
    }
  }

  /** What is left is the text up to its first trailing heading without the space at its end:
      no line of it is such a heading, the line the text goes on with is one, and stripping again
      changes nothing. */
  lemma StripSectionsResult(text: string)
    ensures Stripped(text, IsHeading, StripSections(text, IsHeading))
  {
    forall line
      ensures IsHeading(TrimEnd(line)) == IsHeading(line)
    {
      SameHeading(line);
    }
    StripResult(text, IsHeading);
  }

  ghost predicate Stripped(text: string, heading: string -> bool, result: string) {
    var n := BodyEnd(text, heading, 0);
    && |result| <= n && result == text[..|result|] && AllSpace(text[|result|..n])
    && NoneIs(Lines(result), heading)
    && (n < |text| ==> heading(LinesFrom(text, n)[0]) && (n == 0 || text[n - 1] == '\n'))
    && StripSections(result, heading) == result
  }

  lemma StrippedLength(text: string, n: nat, k: nat)
    requires n <= |text| && k == |TrimEnd(text[..n])|
    ensures k <= n && TrimEnd(text[..n]) == text[..k] && AllSpace(text[k..n])
    ensures k > 0 ==> !IsSpace(text[k - 1])
    ensures forall j | k <= j < n :: IsSpace(text[j])
  {
    SliceOfSlice(text, 0, n, 0, k);
    assert text[..n][k..] == text[k..n];
    assert forall j | k <= j < n :: text[k..n][j - k] == text[j];
  }

  lemma FixedWithoutHeading(result: string, heading: string -> bool)
    requires BodyEnd(result, heading, 0) == |result|
    requires result != [] ==> !IsSpace(result[|result| - 1])
    ensures StripSections(result, heading) == result && NoneIs(Lines(result), heading)
  {
    NoHeadingIff(result, heading, 0);
    assert result[..|result|] == result && result[|result|..] == [];
    EndsMatch(result, |result|);
  }

  lemma StripResult(text: string, heading: string -> bool)
    requires forall line :: heading(TrimEnd(line)) == heading(line)
    ensures Stripped(text, heading, StripSections(text, heading))
  {
    var n := BodyEnd(text, heading, 0);
    var k := |TrimEnd(text[..n])|;
    StrippedLength(text, n, k);
    PrefixHasNoHeading(text, heading, 0, k);
    FixedWithoutHeading(text[..k], heading);
    StopsAtHeading(text, heading, 0);
  }

  // ---- strip_lastfm_suffix ----

  const MARKERS: seq<string> := ["<a href", "Read more on Last.fm", "User-contributed text"]

  /** Where the first of the markers starts, or the end of the text. */
  function FirstMarker(text: string, markers: seq<string>): (cut: nat)
    ensures cut <= |text|
  {
    if markers == [] then |text|
    else
      var before := FirstMarker(text, markers[..|markers| - 1]);
      match Find(text, markers[|markers| - 1], 0)
      case None => before
      case Some(i) => if i < before then i else before
  }

  function StripSuffix(text: string, markers: seq<string>): string {
    Trim(text[..FirstMarker(text, markers)])
  }

  function StripLastfmSuffix(text: string): string {
    StripSuffix(text, MARKERS)
  }

  lemma {:induction false} FirstMarkerIsFirst(text: string, markers: seq<string>)
    ensures var cut := FirstMarker(text, markers);
      && (forall m, j :: m in markers && 0 <= j < cut ==> !OccursAt(m, text, j))
      && (cut < |text| ==> exists m :: m in markers && OccursAt(m, text, cut))
  {
    if markers != [] {
      var front, last := markers[..|markers| - 1], markers[|markers| - 1];
      FirstMarkerIsFirst(text, front);
      assert markers == front + [last];
    }
  }

  lemma NoMarkerBeforeCut(text: string, markers: seq<string>, m: string)
    requires m in markers && m != []
    ensures !Contains(text[..FirstMarker(text, markers)], m)
  {
    FirstMarkerIsFirst(text, markers);
    PrefixBeforeFirst(text, m, FirstMarker(text, markers));
  }

  lemma {:induction false} NoMarkerNoCut(text: string, markers: seq<string>)
    requires forall m | m in markers :: !Contains(text, m)
    ensures FirstMarker(text, markers) == |text|
  {
    if markers != [] {
      var front, last := markers[..|markers| - 1], markers[|markers| - 1];
      NoMarkerNoCut(text, front);
      assert !Contains(text, last);
      assert Find(text, last, 0).None?;
    }
  }

  /** What is left holds no marker anywhere, and stripping again changes nothing. */
  lemma StripSuffixResult(text: string, markers: seq<string>)
    requires forall m | m in markers :: m != []
    ensures var result := StripSuffix(text, markers);
      && (forall m | m in markers :: !Contains(result, m))
      && StripSuffix(result, markers) == result
  {
    var body := text[..FirstMarker(text, markers)];
    var a, b := TrimSplits(body);
    var result := body[a..b];
    forall m | m in markers
      ensures !Contains(result, m)
    {
      NoMarkerBeforeCut(text, markers, m);
      if Contains(result, m) {
        ContainsSlice(body, m, a, b);
      }
    }
    NoMarkerNoCut(result, markers);
    assert result[..|result|] == result;
    TrimmedIsFixed(result);
  }

  lemma TrimOfPrefix(text: string, cut: nat) returns (a: nat, b: nat)
    requires cut <= |text|
    ensures a <= b <= cut && Trim(text[..cut]) == text[a..b]
    ensures AllSpace(text[..a]) && AllSpace(text[b..cut])
  {
    a, b := TrimSplits(text[..cut]);
    SliceOfSlice(text, 0, cut, a, b);
    SliceOfSlice(text, 0, cut, 0, a);
    SliceOfSlice(text, 0, cut, b, cut);
  }

  /** What is kept of a text is a slice of it that ends no later than its first marker, holds no
      marker anywhere, and is kept whole when stripped again. */
  lemma StripLastfmResult(text: string) returns (a: nat, b: nat)
    ensures a <= b <= FirstMarker(text, MARKERS) && StripLastfmSuffix(text) == text[a..b]
    ensures AllSpace(text[..a]) && AllSpace(text[b..FirstMarker(text, MARKERS)])
    ensures forall m | m in MARKERS :: !Contains(StripLastfmSuffix(text), m)
    ensures StripLastfmSuffix(StripLastfmSuffix(text)) == StripLastfmSuffix(text)
  {
    a, b := StripSuffixSlice(text, MARKERS);
    StripSuffixResult(text, MARKERS);
  }

  lemma StripSuffixSlice(text: string, markers: seq<string>) returns (a: nat, b: nat)
    ensures a <= b <= FirstMarker(text, markers) && StripSuffix(text, markers) == text[a..b]
    ensures AllSpace(text[..a]) && AllSpace(text[b..FirstMarker(text, markers)])
  {
    a, b := TrimOfPrefix(text, FirstMarker(text, markers));
  }

  // ---- truncate_body ----

  /** The last newline within the first k characters, or k. */
  function LineCut(text: string, k: nat): (cut: nat)
    requires k <= |text|
    ensures cut <= k
  {
    match MatchKeys.RFind(text[..k], '\n')
    case None => k
    case Some(i) => i
  }

  function Truncated(text: string, max: nat): string {
    if |Utf8.Bytes(text)| <= max then text
    else TrimEnd(text[..LineCut(text, Utf8.Fitting(text, max))])
  }

  /** Steps back from `max` to a character boundary, then to a line break. The loop's last index
      is the byte offset of the longest run of whole characters that fits. */
  method TruncateBody(text: string, max: nat) returns (result: string)
    ensures result == Truncated(text, max)
  {
    var bytes := Utf8.Bytes(text);
    if |bytes| <= max {
      return text;
    }
    ghost var k := Utf8.Fitting(text, max);
    Utf8.FittingIsLongest(text, max);
    Utf8.OffsetEnds(text);
    Utf8.BoundaryAtOffset(text, k);
    var end := max;
    while !Utf8.IsBoundary(bytes, end)
      invariant Utf8.Offset(text, k) <= end <= max
      decreases end
    {
      end := end - 1;
    }
    if Utf8.Offset(text, k) < end {
      Utf8.NoBoundaryInside(text, k, end);
    }
    var prefix := text[..Utf8.Fitting(text, end)];
    Utf8.FittingIsLongest(text, end);
    SameFit(text, Utf8.Fitting(text, end), k, end);
    var newline := MatchKeys.RFind(prefix, '\n');
    var cut := if newline.None? then |prefix| else newline.value;
    result := TrimEnd(prefix[..cut]);
    assert prefix[..cut] == text[..cut];
  }

  lemma SameFit(text: string, j: nat, k: nat, end: nat)
    requires j <= |text| && k <= |text| && Utf8.Offset(text, k) == end
    requires Utf8.Offset(text, j) <= end && (j < |text| ==> end < Utf8.Offset(text, j + 1))
    ensures j == k
  {
    if j < k {
      Utf8.OffsetsGrow(text, j + 1, k);
    } else if k < j {
      Utf8.OffsetsGrow(text, k, j);
    }
  }

  /** The result is a prefix of the text of at most `max` bytes. A text that is too long is cut
      at the last line break within the longest run of whole characters that fits, which ends at
      most three bytes short of `max`, or at the end of that run when it is a single line. */
  lemma TruncatedResult(text: string, max: nat)
    ensures var result := Truncated(text, max);
      && result <= text && |Utf8.Bytes(result)| <= max
      && Truncated(result, max) == result
      && (|Utf8.Bytes(text)| <= max ==> result == text)
      && (|Utf8.Bytes(text)| > max ==>
          exists k: nat, cut: nat :: WholeRun(text, max, k) && CutAt(text, k, cut, result))
  {
    if |Utf8.Bytes(text)| > max {
      TruncatedLong(text, max);
    }
  }

  lemma TruncatedLong(text: string, max: nat)
    requires |Utf8.Bytes(text)| > max
    ensures var result, k := Truncated(text, max), Utf8.Fitting(text, max);
      && result <= text && |Utf8.Bytes(result)| <= max
      && WholeRun(text, max, k) && CutAt(text, k, LineCut(text, k), result)
  {
    var result, k := Truncated(text, max), Utf8.Fitting(text, max);
    Utf8.OffsetEnds(text);
    Utf8.FittingIsLongest(text, max);
    var cut := LineCut(text, k);
    LineCutIs(text, k);
    TrimEndOfPrefix(text, cut);
    PrefixBytes(text, |result|, k);
  }

  lemma TrimEndOfPrefix(text: string, cut: nat)
    requires cut <= |text|
    ensures var r := TrimEnd(text[..cut]); |r| <= cut && r == text[..|r|]
  {
    var r := TrimEnd(text[..cut]);
    SliceOfSlice(text, 0, cut, 0, |r|);
  }

  lemma LineCutIs(text: string, k: nat)
    requires k <= |text|
    ensures var cut := LineCut(text, k);
      && (forall i | cut < i < k :: text[i] != '\n')
      && (cut < k ==> text[cut] == '\n') && (cut == k ==> '\n' !in text[..k])
  {
    assert forall i | 0 <= i < k :: text[..k][i] == text[i];
  }

  /** `result` is what comes before `cut`, where the last line of the first k characters breaks. */
  ghost predicate CutAt(text: string, k: nat, cut: nat, result: string) {
    && cut <= k <= |text| && result == TrimEnd(text[..cut])
    && (forall i | cut < i < k :: text[i] != '\n')
    && (cut < k ==> text[cut] == '\n') && (cut == k ==> '\n' !in text[..k])
  }

  ghost predicate WholeRun(text: string, max: nat, k: nat) {
    && k < |text| && Utf8.Offset(text, k) <= max < Utf8.Offset(text, k + 1)
    && max <= Utf8.Offset(text, k) + 3
  }

  lemma PrefixBytes(text: string, j: nat, k: nat)
    requires j <= k <= |text|
    ensures |Utf8.Bytes(text[..j])| <= |Utf8.Bytes(text[..k])|
  {
    Utf8.OffsetsGrow(text, j, k);
  }
}
