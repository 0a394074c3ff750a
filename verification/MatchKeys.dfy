/** Normalized song and artist keys (src/match_keys.rs). */
module MatchKeys {
  import opened Text

  /** The Unicode tables the keys depend on: full lower-casing and the alphanumeric class. */
  datatype Casing = Casing(lower: string -> string, isAlphanumeric: char -> bool) {
    /** What Unicode lower-casing guarantees and the keys rely on. */
    ghost predicate Lawful() {
      && (forall s :: IsNormal(s) ==> IsNormal(lower(s)))
      && (forall s :: lower(FoldDashes(lower(s))) == FoldDashes(lower(s)))
    }
  }

  // ---- match_key ----

  predicate IsDash(c: char) {
    '\U{2010}' <= c <= '\U{2015}'
  }

  function FoldChar(c: char): char {
    if IsDash(c) then '-' else c
  }

  function FoldDashes(s: string): (r: string)
    ensures |r| == |s| && forall i | 0 <= i < |s| :: r[i] == FoldChar(s[i])
  {
    if s == [] then [] else [FoldChar(s[0])] + FoldDashes(s[1..])
  }

  /** Words separated by single ordinary spaces, with none at the ends. */
  predicate IsNormal(s: string) {
    Join(Words(s), " ") == s
  }

  function IdentityKey(u: Casing, value: string): string {
    u.lower(Join(Words(value), " "))
  }

  function MatchKey(u: Casing, value: string): string {
    FoldDashes(IdentityKey(u, value))
  }

  lemma {:induction false} WordLengthOf(w: string, rest: string)
    requires forall i | 0 <= i < |w| :: !IsSpace(w[i])
    requires rest != [] ==> IsSpace(rest[0])
    ensures WordLength(w + rest) == |w|
  {
    if w == [] {
      assert w + rest == rest;
    } else {
      assert (w + rest)[1..] == w[1..] + rest;
      WordLengthOf(w[1..], rest);
    }
  }

  lemma {:induction false} WordsOfJoin(ws: seq<string>)
    requires AreWords(ws)
    ensures Words(Join(ws, " ")) == ws
  {
    if ws == [] {
    } else {
      var w := ws[0];
      assert IsWord(w);
      var rest := if |ws| == 1 then [] else " " + Join(ws[1..], " ");
      assert Join(ws, " ") == w + rest;
      WordLengthOf(w, rest);
      assert (w + rest)[..|w|] == w && (w + rest)[|w|..] == rest;
      if |ws| > 1 {
        assert rest[1..] == Join(ws[1..], " ");
        WordsOfJoin(ws[1..]);
      }
      assert ws == [w] + ws[1..];
    }
  }

  lemma {:induction false} FoldConcat(a: string, b: string)
    ensures FoldDashes(a + b) == FoldDashes(a) + FoldDashes(b)
  {
  }

  function FoldEach(ws: seq<string>): (r: seq<string>)
    ensures |r| == |ws| && forall i | 0 <= i < |ws| :: r[i] == FoldDashes(ws[i])
  {
    if ws == [] then [] else [FoldDashes(ws[0])] + FoldEach(ws[1..])
  }

  lemma {:induction false} FoldJoin(ws: seq<string>)
    ensures FoldDashes(Join(ws, " ")) == Join(FoldEach(ws), " ")
  {
    if |ws| > 1 {
      FoldJoin(ws[1..]);
      assert FoldEach(ws)[1..] == FoldEach(ws[1..]);
      FoldConcat(ws[0] + " ", Join(ws[1..], " "));
      FoldConcat(ws[0], " ");
      assert FoldDashes(" ") == " ";
    }
  }

  lemma FoldedIsWord(w: string)
    requires IsWord(w)
    ensures IsWord(FoldDashes(w))
  {
  }

  lemma FoldedAreWords(ws: seq<string>)
    requires AreWords(ws)
    ensures AreWords(FoldEach(ws))
  {
    forall k | 0 <= k < |ws|
      ensures IsWord(FoldEach(ws)[k])
    {
      FoldedIsWord(ws[k]);
    }
  }

  lemma FoldKeepsNormal(s: string)
    requires IsNormal(s)
    ensures IsNormal(FoldDashes(s))
  {
    FoldJoin(Words(s));
    FoldedAreWords(Words(s));
    WordsOfJoin(FoldEach(Words(s)));
  }

  lemma WordsAreNormal(s: string)
    ensures IsNormal(Join(Words(s), " "))
  {
    WordsOfJoin(Words(s));
  }

  lemma KeyOfKey(u: Casing, k: string)
    requires IsNormal(k) && u.lower(k) == k && FoldDashes(k) == k
    ensures MatchKey(u, k) == k
  {
  }

  lemma {:induction false} FoldTwice(s: string)
    ensures FoldDashes(FoldDashes(s)) == FoldDashes(s)
  {
  }

  /** A key is its own key, so stored keys can be compared with freshly computed ones. */
  lemma MatchKeyIdempotent(u: Casing, value: string)
    requires u.Lawful()
    ensures MatchKey(u, MatchKey(u, value)) == MatchKey(u, value)
    ensures IsNormal(MatchKey(u, value))
  {
    var n := Join(Words(value), " ");
    WordsAreNormal(value);
    FoldKeepsNormal(u.lower(n));
    FoldTwice(u.lower(n));
    KeyOfKey(u, MatchKey(u, value));
  }

  /** Space around a name never changes its key. */
  lemma MatchKeyOfTrimmed(u: Casing, value: string)
    ensures MatchKey(u, Trim(value)) == MatchKey(u, value)
  {
    WordsOfTrimmed(value);
  }

  /** The assumption on lower-casing is satisfiable. */
  lemma CaselessIsLawful(isAlphanumeric: char -> bool)
    ensures Casing((s: string) => s, isAlphanumeric).Lawful()
  {
    var u := Casing((s: string) => s, isAlphanumeric);
    forall s: string
      ensures u.lower(FoldDashes(u.lower(s))) == FoldDashes(u.lower(s))
    {
    }
  }

  // ---- base_title ----

  const TITLE_QUALIFIERS: set<string> := {
    "feat", "feat.", "ft", "ft.", "featuring", "with", "from", "remaster", "remastered",
    "version", "live", "remix", "edit", "mix", "mono", "stereo", "acoustic", "demo",
    "instrumental", "explicit", "ver", "ver."
  }

  function RFind(s: string, c: char): (r: Option<nat>)
    ensures r.Some? ==> r.value < |s| && s[r.value] == c
    ensures r.Some? ==> forall j | r.value < j < |s| :: s[j] != c
    ensures r.None? ==> c !in s
  {
    if s == [] then None
    else if s[|s| - 1] == c then Some(|s| - 1)
    else RFind(s[..|s| - 1], c)
  }

  /** Whether some maximal run of word characters (alphanumerics and '.') is a qualifier. */
  predicate HasQualifierWord(u: Casing, inner: string, run: string) {
    if inner == [] then run in TITLE_QUALIFIERS
    else if u.isAlphanumeric(inner[0]) || inner[0] == '.' then
      HasQualifierWord(u, inner[1..], run + [inner[0]])
    else run in TITLE_QUALIFIERS || HasQualifierWord(u, inner[1..], [])
  }

  predicate IsQualifier(u: Casing, inner: string) {
    || (forall c | c in Trim(inner) :: '0' <= c <= '9')
    || HasQualifierWord(u, inner, [])
  }

  /** The test base_title puts to the text between a pair of brackets. */
  function Qualified(u: Casing): string -> bool {
    inner => IsQualifier(u, u.lower(inner))
  }

  function Opening(base: string): char
    requires base != []
  {
    if base[|base| - 1] == ')' then '(' else '['
  }

  /** What one trailing bracket group leaves, or None where stripping stops. */
  function StripGroup(qualified: string -> bool, base: string): (r: Option<string>)
    ensures r.Some? ==> |r.value| < |base| && r.value <= base && TrimEnd(r.value) == r.value
  {
    if base == [] || base[|base| - 1] !in {')', ']'} then None
    else
      match RFind(base, Opening(base))
      case None => None
      case Some(start) =>
        if !qualified(base[start + 1..|base| - 1]) || start == 0 then None
        else
          var rest := TrimEnd(base[..start]);
          TrimmedEndIsFixed(base[..start]);
          Some(rest)
  }

  lemma TrimmedEndIsFixed(s: string)
    ensures TrimEnd(TrimEnd(s)) == TrimEnd(s)
  {
  }

  /** `base` with every trailing qualifier group removed. */
  function StripGroups(qualified: string -> bool, base: string): (r: string)
    ensures r <= base && StripGroup(qualified, r).None?
    ensures TrimEnd(base) == base ==> TrimEnd(r) == r
    decreases |base|
  {
    match StripGroup(qualified, base)
    case None => base
    case Some(rest) => StripGroups(qualified, rest)
  }

  function TitleHead(title: string): string {
    TrimEnd(Split(title, " - ")[0])
  }

  function BaseTitle(u: Casing, title: string): string {
    var base := StripGroups(Qualified(u), TitleHead(title));
    if base == [] then title else base
  }

  /** One round of base_title's loop; every index is in range. */
  method StripLast(qualified: string -> bool, base: string) returns (rest: Option<string>)
    requires base != [] && base[|base| - 1] in {')', ']'}
    ensures rest == StripGroup(qualified, base)
  {
    var open := if base[|base| - 1] == ')' then '(' else '[';
    var start := RFind(base, open);
    if start.None? {
      return None;
    }
    if !qualified(base[start.value + 1..|base| - 1]) || start.value == 0 {
      return None;
    }
    rest := Some(TrimEnd(base[..start.value]));
  }

  lemma StripGroupsStep(qualified: string -> bool, base: string)
    ensures var next := StripGroup(qualified, base);
      StripGroups(qualified, base) == if next.None? then base else StripGroups(qualified, next.value)
    ensures base == [] || base[|base| - 1] !in {')', ']'} ==> StripGroup(qualified, base).None?
  {
  }

  /** The loop of base_title, which ends. */
  method StripLoop(qualified: string -> bool, head: string) returns (base: string)
    ensures base == StripGroups(qualified, head)
  {
    base := head;
    while base != [] && base[|base| - 1] in {')', ']'}
      invariant StripGroups(qualified, base) == StripGroups(qualified, head)
      decreases |base|
    {
      StripGroupsStep(qualified, base);
      var rest := StripLast(qualified, base);
      if rest.None? {
        return;
      }
      base := rest.value;
    }
    StripGroupsStep(qualified, base);
  }

  method ComputeBaseTitle(u: Casing, title: string) returns (result: string)
    ensures result == BaseTitle(u, title)
  {
    var base := StripLoop(Qualified(u), TrimEnd(Split(title, " - ")[0]));
    result := if base == [] then title else base;
  }

  lemma SeparatorFreeSplit(s: string, sep: string)
    requires sep != [] && !Contains(s, sep)
    ensures Split(s, sep) == [s]
  {
  }

  lemma PrefixContains(p: string, s: string, t: string)
    requires p <= s && Contains(p, t)
    ensures Contains(s, t)
  {
    assert p == s[0..|p|];
    ContainsSlice(s, t, 0, |p|);
  }

  /** The base title is a prefix of the title. Where it is not the title itself, it ends in no
      space and has nothing left to strip. */
  lemma BaseTitlePrefix(u: Casing, title: string)
    ensures BaseTitle(u, title) <= title
    ensures title != [] ==> BaseTitle(u, title) != []
    ensures BaseTitle(u, title) != title ==>
      && StripGroup(Qualified(u), BaseTitle(u, title)).None? && !Contains(BaseTitle(u, title), " - ")
      && TrimEnd(BaseTitle(u, title)) == BaseTitle(u, title)
  {
    SplitHead(title, " - ");
    var head := Split(title, " - ")[0];
    TrimmedEndIsFixed(head);
    var base := StripGroups(Qualified(u), TitleHead(title));
    assert base <= TitleHead(title) <= head <= title;
    if Contains(base, " - ") {
      PrefixContains(base, head, " - ");
    }
  }

  lemma BaseTitleIdempotent(u: Casing, title: string)
    ensures BaseTitle(u, BaseTitle(u, title)) == BaseTitle(u, title)
  {
    var base := StripGroups(Qualified(u), TitleHead(title));
    if base != [] {
      SplitHead(title, " - ");
      var head := Split(title, " - ")[0];
      TrimmedEndIsFixed(head);
      assert base <= TitleHead(title) <= head;
      if Contains(base, " - ") {
        PrefixContains(base, head, " - ");
      }
      SeparatorFreeSplit(base, " - ");
      assert TitleHead(base) == base;
    }
  }

  // ---- song_keys ----

  function SongKeys(u: Casing, title: string): seq<string> {
    OneOrTwo(MatchKey(u, title), MatchKey(u, BaseTitle(u, title)))
  }

  function OneOrTwo(given: string, base: string): seq<string> {
    if base == given then [given] else [given, base]
  }

  method PushDistinct(given: string, base: string) returns (keys: seq<string>)
    ensures keys == OneOrTwo(given, base)
  {
    keys := [given];
    if base !in keys {
      keys := keys + [base];
    }
  }

  method ComputeSongKeys(u: Casing, title: string) returns (keys: seq<string>)
    ensures keys == SongKeys(u, title)
  {
    var base := ComputeBaseTitle(u, title);
    keys := PushDistinct(MatchKey(u, title), MatchKey(u, base));
  }

  /** A lookup by title tries the key a document for that title is stored under, and every key
      a lookup by its base title would try; asking with the title's own key loses nothing. */
  lemma SongKeysCoverStoredKey(u: Casing, title: string)
    ensures MatchKey(u, BaseTitle(u, title)) in SongKeys(u, title)
    ensures forall k | k in SongKeys(u, BaseTitle(u, title)) :: k in SongKeys(u, title)
    ensures |SongKeys(u, title)| == 1 <==>
      MatchKey(u, title) == MatchKey(u, BaseTitle(u, title))
    ensures SongKeys(u, title) != [] && SongKeys(u, title)[0] == MatchKey(u, title)
    ensures forall k | k in SongKeys(u, title) ::
      k == MatchKey(u, title) || k == MatchKey(u, BaseTitle(u, title))
  {
    BaseTitleIdempotent(u, title);
  }

  lemma StoredKeyIsListed(u: Casing, title: string)
    ensures MatchKey(u, BaseTitle(u, title)) in SongKeys(u, title)
  {
  }

  // ---- artist_parts ----

  const SEPARATORS: seq<string> := [",", "&", "、", " feat. ", " ft. ", " featuring "]

  const MAX_PARTS: nat := 16

  function SplitEach(parts: seq<string>, sep: string): seq<string>
    requires sep != []
  {
    if parts == [] then []
    else SplitEach(parts[..|parts| - 1], sep) + Split(parts[|parts| - 1], sep)
  }

  /** The credit split on the first n separators in turn. */
  function CreditPieces(artist: string, n: nat): seq<string>
    requires n <= |SEPARATORS|
  {
    if n == 0 then [artist] else SplitEach(CreditPieces(artist, n - 1), SEPARATORS[n - 1])
  }

  predicate HasKey(u: Casing, out: seq<string>, part: string) {
    exists i | 0 <= i < |out| :: MatchKey(u, out[i]) == MatchKey(u, part)
  }

  function AddPart(u: Casing, out: seq<string>, part: string): seq<string> {
    if Trim(part) != [] && !HasKey(u, out, Trim(part)) then out + [Trim(part)] else out
  }

  function AddParts(u: Casing, artist: string, parts: seq<string>): seq<string> {
    if parts == [] then [Trim(artist)]
    else AddPart(u, AddParts(u, artist, parts[..|parts| - 1]), parts[|parts| - 1])
  }

  /** Every distinct part of the credit, before truncation. */
  function AllParts(u: Casing, artist: string): seq<string> {
    AddParts(u, artist, CreditPieces(artist, |SEPARATORS|))
  }

  function ArtistParts(u: Casing, artist: string): seq<string> {
    var all := AllParts(u, artist);
    if |all| > MAX_PARTS then all[..MAX_PARTS] else all
  }

  method SplitOn(parts: seq<string>, sep: string) returns (next: seq<string>)
    requires sep != []
    ensures next == SplitEach(parts, sep)
  {
    next := [];
    for k := 0 to |parts|
      invariant next == SplitEach(parts[..k], sep)
    {
      assert parts[..k + 1][..k] == parts[..k];
      next := next + Split(parts[k], sep);
    }
    assert parts[..|parts|] == parts;
  }

  method Distinct(u: Casing, artist: string, parts: seq<string>) returns (out: seq<string>)
    ensures out == AddParts(u, artist, parts)
  {
    out := [Trim(artist)];
    for k := 0 to |parts|
      invariant out == AddParts(u, artist, parts[..k])
    {
      assert parts[..k + 1][..k] == parts[..k];
      var part := Trim(parts[k]);
      if part != [] && !HasKey(u, out, part) {
        out := out + [part];
      }
    }
    assert parts[..|parts|] == parts;
  }

  method ComputeArtistParts(u: Casing, artist: string) returns (out: seq<string>)
    ensures out == ArtistParts(u, artist)
  {
    var parts := [artist];
    for n := 0 to |SEPARATORS|
      invariant parts == CreditPieces(artist, n)
    {
      parts := SplitOn(parts, SEPARATORS[n]);
    }
    out := Distinct(u, artist, parts);
    if |out| > MAX_PARTS {
      out := out[..MAX_PARTS];
    }
  }

  ghost predicate FreeOf(p: string, n: nat)
    requires n <= |SEPARATORS|
  {
    forall k | 0 <= k < n :: !Contains(p, SEPARATORS[k])
  }

  lemma SliceFreeOf(s: string, a: nat, b: nat, n: nat)
    requires a <= b <= |s| && n <= |SEPARATORS| && FreeOf(s, n)
    ensures FreeOf(s[a..b], n)
  {
    forall k | 0 <= k < n
      ensures !Contains(s[a..b], SEPARATORS[k])
    {
      if Contains(s[a..b], SEPARATORS[k]) {
        ContainsSlice(s, SEPARATORS[k], a, b);
      }
    }
  }

  /** Splitting pieces that are free of n separators on one more leaves them free of n + 1. */
  lemma {:induction false} SplitEachFree(parts: seq<string>, n: nat)
    requires n < |SEPARATORS| && forall p | p in parts :: FreeOf(p, n)
    ensures forall q | q in SplitEach(parts, SEPARATORS[n]) :: FreeOf(q, n + 1)
  {
    if parts != [] {
      var last := parts[|parts| - 1];
      SplitEachFree(parts[..|parts| - 1], n);
      forall k | 0 <= k < |Split(last, SEPARATORS[n])|
        ensures FreeOf(Split(last, SEPARATORS[n])[k], n + 1)
      {
        var a, b := SplitPieces(last, SEPARATORS[n], k);
        SliceFreeOf(last, a, b, n);
      }
    }
  }

  lemma {:induction false} CreditPiecesFree(artist: string, n: nat)
    requires n <= |SEPARATORS|
    ensures forall p | p in CreditPieces(artist, n) :: FreeOf(p, n)
  {
    if n > 0 {
      CreditPiecesFree(artist, n - 1);
      SplitEachFree(CreditPieces(artist, n - 1), n - 1);
    }
  }

  ghost predicate DistinctKeys(u: Casing, out: seq<string>) {
    forall i, j | 0 <= i < j < |out| :: MatchKey(u, out[i]) != MatchKey(u, out[j])
  }

  ghost predicate GoodPart(p: string) {
    p != [] && IsTrimmed(p) && FreeOf(p, |SEPARATORS|)
  }

  ghost predicate GoodParts(u: Casing, artist: string, out: seq<string>) {
    && out != [] && out[0] == Trim(artist)
    && DistinctKeys(u, out)
    && GoodTail(out)
  }

  ghost predicate GoodTail(out: seq<string>) {
    forall i | 0 < i < |out| :: GoodPart(out[i])
  }

  lemma TrimmedPartIsGood(part: string)
    requires FreeOf(part, |SEPARATORS|) && Trim(part) != []
    ensures GoodPart(Trim(part))
  {
    var a, b := TrimSplits(part);
    SliceFreeOf(part, a, b, |SEPARATORS|);
  }

  lemma AppendGoodPart(out: seq<string>, p: string)
    requires out != [] && GoodPart(p) && GoodTail(out)
    ensures GoodTail(out + [p])
  {
    var more := out + [p];
    forall i | 0 < i < |more|
      ensures GoodPart(more[i])
    {
      assert more[i] == if i < |out| then out[i] else p;
    }
  }

  lemma AddPartShape(u: Casing, artist: string, out: seq<string>, part: string)
    requires GoodParts(u, artist, out) && FreeOf(part, |SEPARATORS|)
    ensures GoodParts(u, artist, AddPart(u, out, part))
  {
    if Trim(part) != [] && !HasKey(u, out, Trim(part)) {
      TrimmedPartIsGood(part);
      AppendGoodPart(out, Trim(part));
      NewKeyIsDistinct(u, out, Trim(part));
    }
  }

  lemma NewKeyIsDistinct(u: Casing, out: seq<string>, p: string)
    requires DistinctKeys(u, out) && !HasKey(u, out, p)
    ensures DistinctKeys(u, out + [p])
  {
    var more := out + [p];
    forall i, j | 0 <= i < j < |more|
      ensures MatchKey(u, more[i]) != MatchKey(u, more[j])
    {
      assert more[i] == out[i];
    }
  }

  lemma {:induction false} AddPartsShape(u: Casing, artist: string, parts: seq<string>)
    requires forall p | p in parts :: FreeOf(p, |SEPARATORS|)
    ensures GoodParts(u, artist, AddParts(u, artist, parts))
  {
    if parts != [] {
      AddPartsShape(u, artist, parts[..|parts| - 1]);
      AddPartShape(u, artist, AddParts(u, artist, parts[..|parts| - 1]), parts[|parts| - 1]);
    }
  }

  lemma AddPartCovers(u: Casing, out: seq<string>, part: string, p: string)
    requires HasKey(u, out, p) || (p == part && Trim(p) != [])
    ensures HasKey(u, AddPart(u, out, part), p)
  {
    MatchKeyOfTrimmed(u, p);
    var more := AddPart(u, out, part);
    if HasKey(u, out, p) {
      var i :| 0 <= i < |out| && MatchKey(u, out[i]) == MatchKey(u, p);
      assert more[i] == out[i];
    } else if !HasKey(u, out, Trim(part)) {
      assert more[|out|] == Trim(part);
    }
  }

  lemma InSnoc(parts: seq<string>, front: seq<string>, last: string, p: string)
    requires parts == front + [last] && p in parts
    ensures p in front || p == last
  {
  }

  lemma {:induction false} AddPartsCover(u: Casing, artist: string, parts: seq<string>, p: string)
    requires p in parts && Trim(p) != []
    ensures HasKey(u, AddParts(u, artist, parts), p)
  {
    var front, last := parts[..|parts| - 1], parts[|parts| - 1];
    Unsnoc(parts, front, last);
    InSnoc(parts, front, last, p);
    if p in front {
      AddPartsCover(u, artist, front, p);
    }
    AddPartCovers(u, AddParts(u, artist, front), last, p);
  }

  lemma GoodPrefix(u: Casing, artist: string, out: seq<string>, n: nat)
    requires GoodParts(u, artist, out) && 0 < n <= |out|
    ensures GoodParts(u, artist, out[..n])
  {
  }

  lemma AllPartsShape(u: Casing, artist: string)
    ensures GoodParts(u, artist, AllParts(u, artist))
  {
    CreditPiecesFree(artist, |SEPARATORS|);
    AddPartsShape(u, artist, CreditPieces(artist, |SEPARATORS|));
  }

  /** One to sixteen entries with pairwise distinct keys: the trimmed credit, then nonempty
      trimmed names in which no separator is left. */
  lemma ArtistPartsShape(u: Casing, artist: string)
    ensures 1 <= |ArtistParts(u, artist)| <= 16
    ensures GoodParts(u, artist, ArtistParts(u, artist))
  {
    AllPartsShape(u, artist);
    if |AllParts(u, artist)| > MAX_PARTS {
      GoodPrefix(u, artist, AllParts(u, artist), MAX_PARTS);
    }
  }

  /** Every credited name is represented by its key, unless sixteen entries came before it. */
  lemma ArtistPartsCover(u: Casing, artist: string, p: string)
    requires p in CreditPieces(artist, |SEPARATORS|) && Trim(p) != []
    ensures HasKey(u, ArtistParts(u, artist), p) || |ArtistParts(u, artist)| == 16
    ensures |AllParts(u, artist)| <= 16 ==> HasKey(u, ArtistParts(u, artist), p)
  {
    AddPartsCover(u, artist, CreditPieces(artist, |SEPARATORS|), p);
  }

  // ---- artist_keys ----

  function KeysOf(u: Casing, parts: seq<string>): (keys: seq<string>)
    ensures |keys| == |parts| && forall i | 0 <= i < |parts| :: keys[i] == MatchKey(u, parts[i])
  {
    if parts == [] then [] else [MatchKey(u, parts[0])] + KeysOf(u, parts[1..])
  }

  function ArtistKeys(u: Casing, artist: string): seq<string> {
    KeysOf(u, ArtistParts(u, artist))
  }

  /** The key a document credited to `artist` is stored under is among the lookup keys. */
  lemma ArtistKeysCoverCredit(u: Casing, artist: string)
    ensures MatchKey(u, artist) in ArtistKeys(u, artist)
    ensures forall i, j | 0 <= i < j < |ArtistKeys(u, artist)| ::
      ArtistKeys(u, artist)[i] != ArtistKeys(u, artist)[j]
  {
    ArtistPartsShape(u, artist);
    MatchKeyOfTrimmed(u, artist);
    assert ArtistKeys(u, artist)[0] == MatchKey(u, artist);
  }
}
