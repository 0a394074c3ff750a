/** Splitting a document body into retrieval chunks (src/passages/chunk.rs), for an arbitrary
    token counter. */
module Chunker {
  import opened Text

  const TARGET_TOKENS: nat := 150
  const MAX_TOKENS: nat := 250

  type Counter = string -> nat

  // ---- Sentences ----

  /** Whether the character at k closes a sentence: always for CJK stops, and for Latin stops
      at the end of the paragraph or before space. */
  predicate EndsSentence(p: string, k: int)
    requires 0 <= k < |p|
  {
    || p[k] == '。' || p[k] == '！' || p[k] == '？'
    || ((p[k] == '.' || p[k] == '!' || p[k] == '?') && (k + 1 == |p| || IsSpace(p[k + 1])))
  }

  /** The end of the sentence that starts at `start`. */
  function SentenceEnd(p: string, start: nat): (e: nat)
    requires start < |p|
    ensures start < e <= |p|
    ensures forall k | start <= k < e - 1 :: !EndsSentence(p, k)
    ensures e < |p| ==> EndsSentence(p, e - 1)
    decreases |p| - start
  {
    if EndsSentence(p, start) || start + 1 == |p| then start + 1 else SentenceEnd(p, start + 1)
  }

  function Kept(s: string): seq<string> {
    if Trim(s) == [] then [] else [Trim(s)]
  }

  /** The trimmed nonempty sentences of p from `start` on. */
  function SentencesFrom(p: string, start: nat): seq<string>
    requires start <= |p|
    decreases |p| - start
  {
    if start == |p| then []
    else Kept(p[start..SentenceEnd(p, start)]) + SentencesFrom(p, SentenceEnd(p, start))
  }

  lemma {:induction false} SentenceEndIs(p: string, start: nat, e: nat)
    requires start < e <= |p|
    requires forall k | start <= k < e - 1 :: !EndsSentence(p, k)
    requires e == |p| || EndsSentence(p, e - 1)
    ensures SentenceEnd(p, start) == e
    decreases e - start
  {
    if e > start + 1 {
      SentenceEndIs(p, start + 1, e);
    }
  }

  lemma SentenceStep(p: string, start: nat, e: nat)
    requires start < e <= |p|
    requires forall k | start <= k < e - 1 :: !EndsSentence(p, k)
    requires e == |p| || EndsSentence(p, e - 1)
    ensures SentencesFrom(p, start) == Kept(p[start..e]) + SentencesFrom(p, e)
  {
    SentenceEndIs(p, start, e);
  }

  method PushKept(out: seq<string>, current: string) returns (more: seq<string>)
    ensures more == out + Kept(current)
  {
    var s := Trim(current);
    more := if s != [] then out + [s] else out;
  }

  /** The scan has closed the sentences before `start` and is inside the one that begins there. */
  ghost predicate Scanned(p: string, out: seq<string>, current: string, start: nat, k: nat) {
    && start <= k <= |p| && current == p[start..k]
    && (forall j | start <= j < k :: !EndsSentence(p, j))
    && out + SentencesFrom(p, start) == SentencesFrom(p, 0)
  }

  lemma ScanInside(p: string, out: seq<string>, current: string, start: nat, k: nat)
    requires Scanned(p, out, current, start, k) && k < |p| && !EndsSentence(p, k)
    ensures Scanned(p, out, current + [p[k]], start, k + 1)
  {
    SliceSnoc(p, start, k);
  }

  lemma ScanEnd(p: string, out: seq<string>, current: string, start: nat, k: nat)
    requires Scanned(p, out, current, start, k) && k < |p|
    requires EndsSentence(p, k)
    ensures Scanned(p, out + Kept(current + [p[k]]), [], k + 1, k + 1)
  {
    SliceSnoc(p, start, k);
    EmptySlice(p, k + 1);
    SentenceStep(p, start, k + 1);
    ConcatAssociative(out, Kept(p[start..k + 1]), SentencesFrom(p, k + 1));
  }

  lemma ScanDone(p: string, out: seq<string>, current: string, start: nat)
    requires Scanned(p, out, current, start, |p|)
    ensures out + Kept(current) == SentencesFrom(p, 0)
  {
    if start < |p| {
      SentenceStep(p, start, |p|);
      EmptyConcat(Kept(current));
    } else {
      EmptySlice(p, |p|);
    }
  }

  method Sentences(paragraph: string) returns (out: seq<string>)
    ensures out == SentencesFrom(paragraph, 0)
  {
    var current := [];
    out := [];
    EmptyConcat(SentencesFrom(paragraph, 0));
    EmptySlice(paragraph, 0);
    ghost var start := 0;
    for k := 0 to |paragraph|
      invariant Scanned(paragraph, out, current, start, k)
    {
      if EndsSentence(paragraph, k) {
        ScanEnd(paragraph, out, current, start, k);
        current := current + [paragraph[k]];
        out := PushKept(out, current);
        current := [];
        start := k + 1;
      } else {
        ScanInside(paragraph, out, current, start, k);
        current := current + [paragraph[k]];
      }
    }
    ScanDone(paragraph, out, current, start);
    out := PushKept(out, current);
  }

  lemma InkKept(s: string)
    ensures Ink(Concat(Kept(s))) == Ink(s)
  {
    InkTrim(s);
    if Trim(s) != [] {
      ConcatOne(Trim(s));
    }
  }

  lemma SentencesFromStep(p: string, start: nat)
    requires start < |p|
    ensures var e := SentenceEnd(p, start);
      SentencesFrom(p, start) == Kept(p[start..e]) + SentencesFrom(p, e)
  {
  }

  lemma SlicesJoin(p: string, a: nat, b: nat)
    requires a <= b <= |p|
    ensures p[a..] == p[a..b] + p[b..]
  {
  }

  /** Sentences hold the paragraph's ink, in order. */
  lemma {:induction false} SentencesInk(p: string, start: nat)
    requires start <= |p|
    ensures Ink(Concat(SentencesFrom(p, start))) == Ink(p[start..])
    decreases |p| - start
  {
    if start < |p| {
      var e := SentenceEnd(p, start);
      SentencesFromStep(p, start);
      SlicesJoin(p, start, e);
      SentencesInk(p, e);
      InkKept(p[start..e]);
      InkParts(Kept(p[start..e]), SentencesFrom(p, e), p[start..e], p[e..]);
    }
  }

  // ---- Over-long sentences ----

  /** The pieces emitted so far and the text being collected. */
  datatype Split = Split(out: seq<string>, current: string)

  function Emit(st: Split): Split {
    if st.current == [] then st else Split(st.out + [Trim(st.current)], [])
  }

  function Put(count: Counter, st: Split, unit: string): Split {
    var room := if st.current != [] && count(st.current + unit) > MAX_TOKENS then Emit(st) else st;
    room.(current := room.current + unit)
  }

  function PutAll(count: Counter, st: Split, units: seq<string>): Split {
    if units == [] then st
    else Put(count, PutAll(count, st, units[..|units| - 1]), units[|units| - 1])
  }

  function Chars(s: string): (r: seq<string>)
    ensures |r| == |s| && forall i | 0 <= i < |s| :: r[i] == [s[i]]
  {
    if s == [] then [] else [[s[0]]] + Chars(s[1..])
  }

  /** Takes in one unit, by characters when it is over-long itself. */
  function Absorb(count: Counter, st: Split, unit: string): Split {
    if count(unit) > MAX_TOKENS then PutAll(count, Emit(st), Chars(unit))
    else Put(count, st, unit)
  }

  function AbsorbAll(count: Counter, units: seq<string>): Split {
    if units == [] then Split([], [])
    else Absorb(count, AbsorbAll(count, units[..|units| - 1]), units[|units| - 1])
  }

  function Spaced(words: seq<string>): (r: seq<string>)
    ensures |r| == |words| && forall i | 0 <= i < |words| :: r[i] == words[i] + " "
  {
    if words == [] then [] else [words[0] + " "] + Spaced(words[1..])
  }

  function Units(sentence: string): seq<string> {
    if ' ' in sentence then Spaced(Words(sentence)) else Chars(sentence)
  }

  function OversizedPieces(count: Counter, sentence: string): seq<string> {
    var st := AbsorbAll(count, Units(sentence));
    st.out + Kept(st.current)
  }

  method EmitCurrent(out: seq<string>, current: string)
    returns (out': seq<string>, current': string)
    ensures Split(out', current') == Emit(Split(out, current))
  {
    if current != [] {
      out', current' := out + [Trim(current)], [];
    } else {
      out', current' := out, current;
    }
  }

  method PutUnit(count: Counter, out: seq<string>, current: string, unit: string)
    returns (out': seq<string>, current': string)
    ensures Split(out', current') == Put(count, Split(out, current), unit)
  {
    out', current' := out, current;
    if current != [] && count(current + unit) > MAX_TOKENS {
      out', current' := EmitCurrent(out, current);
    }
    current' := current' + unit;
  }

  lemma PutAllStep(count: Counter, st: Split, units: seq<string>, j: nat)
    requires j < |units|
    ensures PutAll(count, st, units[..j + 1]) == Put(count, PutAll(count, st, units[..j]), units[j])
  {
    assert units[..j + 1][..j] == units[..j];
  }

  method PutUnits(count: Counter, out: seq<string>, current: string, units: seq<string>)
    returns (out': seq<string>, current': string)
    ensures Split(out', current') == PutAll(count, Split(out, current), units)
  {
    out', current' := out, current;
    for j := 0 to |units|
      invariant Split(out', current') == PutAll(count, Split(out, current), units[..j])
    {
      PutAllStep(count, Split(out, current), units, j);
      out', current' := PutUnit(count, out', current', units[j]);
    }
    assert units[..|units|] == units;
  }

  method AbsorbUnit(count: Counter, out: seq<string>, current: string, unit: string)
    returns (out': seq<string>, current': string)
    ensures Split(out', current') == Absorb(count, Split(out, current), unit)
  {
    if count(unit) > MAX_TOKENS {
      out', current' := EmitCurrent(out, current);
      out', current' := PutUnits(count, out', current', Chars(unit));
    } else {
      out', current' := PutUnit(count, out, current, unit);
    }
  }

  lemma AbsorbAllStep(count: Counter, units: seq<string>, i: nat)
    requires i < |units|
    ensures AbsorbAll(count, units[..i + 1]) == Absorb(count, AbsorbAll(count, units[..i]), units[i])
  {
    assert units[..i + 1][..i] == units[..i];
  }

  method AbsorbUnits(count: Counter, units: seq<string>) returns (out: seq<string>, current: string)
    ensures Split(out, current) == AbsorbAll(count, units)
  {
    out, current := [], [];
    for i := 0 to |units|
      invariant Split(out, current) == AbsorbAll(count, units[..i])
    {
      AbsorbAllStep(count, units, i);
      out, current := AbsorbUnit(count, out, current, units[i]);
    }
    assert units[..|units|] == units;
  }

  method SplitOversized(count: Counter, sentence: string) returns (out: seq<string>)
    ensures out == OversizedPieces(count, sentence)
  {
    var current;
    out, current := AbsorbUnits(count, Units(sentence));
    out := PushKept(out, current);
  }

  /** All the ink a splitter holds. */
  function Held(st: Split): string {
    Ink(Concat(st.out)) + Ink(st.current)
  }

  lemma HeldEmit(st: Split)
    ensures Held(Emit(st)) == Held(st)
  {
    if st.current != [] {
      var t := Trim(st.current);
      ConcatAppend(st.out, [t]);
      ConcatOne(t);
      InkConcat(Concat(st.out), t);
      InkTrim(st.current);
      assert Ink([]) == [];
    }
  }

  lemma HeldAppend(st: Split, unit: string)
    ensures Held(st.(current := st.current + unit)) == Held(st) + Ink(unit)
  {
    InkConcat(st.current, unit);
    ConcatAssociative(Ink(Concat(st.out)), Ink(st.current), Ink(unit));
  }

  lemma HeldPut(count: Counter, st: Split, unit: string)
    ensures Held(Put(count, st, unit)) == Held(st) + Ink(unit)
  {
    HeldEmit(st);
    HeldAppend(st, unit);
    HeldAppend(Emit(st), unit);
  }

  lemma PutAllSnoc(count: Counter, st: Split, front: seq<string>, last: string)
    ensures PutAll(count, st, front + [last]) == Put(count, PutAll(count, st, front), last)
  {
    assert (front + [last])[..|front|] == front;
  }

  lemma HeldPutAllSnoc(count: Counter, st: Split, front: seq<string>, last: string)
    requires Held(PutAll(count, st, front)) == Held(st) + Ink(Concat(front))
    ensures Held(PutAll(count, st, front + [last])) == Held(st) + Ink(Concat(front + [last]))
  {
    ConcatAssociative(Held(st), Ink(Concat(front)), Ink(last));
    InkSnoc(front, last);
    HeldPut(count, PutAll(count, st, front), last);
    PutAllSnoc(count, st, front, last);
  }

  lemma {:induction false} HeldPutAll(count: Counter, st: Split, units: seq<string>)
    ensures Held(PutAll(count, st, units)) == Held(st) + Ink(Concat(units))
  {
    if units == [] {
      EmptyConcat(Held(st));
    } else {
      var front, last := units[..|units| - 1], units[|units| - 1];
      Unsnoc(units, front, last);
      HeldPutAll(count, st, front);
      HeldPutAllSnoc(count, st, front, last);
    }
  }

  lemma {:induction false} ConcatChars(s: string)
    ensures Concat(Chars(s)) == s
  {
    if s != [] {
      ConcatChars(s[1..]);
    }
  }

  lemma HeldAbsorb(count: Counter, st: Split, unit: string)
    ensures Held(Absorb(count, st, unit)) == Held(st) + Ink(unit)
  {
    if count(unit) > MAX_TOKENS {
      HeldEmit(st);
      HeldPutAll(count, Emit(st), Chars(unit));
      ConcatChars(unit);
    } else {
      HeldPut(count, st, unit);
    }
  }

  lemma HeldAbsorbAllSnoc(count: Counter, front: seq<string>, last: string)
    requires Held(AbsorbAll(count, front)) == Ink(Concat(front))
    ensures Held(AbsorbAll(count, front + [last])) == Ink(Concat(front + [last]))
  {
    assert (front + [last])[..|front|] == front;
    HeldAbsorb(count, AbsorbAll(count, front), last);
    InkSnoc(front, last);
  }

  lemma {:induction false} HeldAbsorbAll(count: Counter, units: seq<string>)
    ensures Held(AbsorbAll(count, units)) == Ink(Concat(units))
  {
    if units != [] {
      var front, last := units[..|units| - 1], units[|units| - 1];
      Unsnoc(units, front, last);
      HeldAbsorbAll(count, front);
      HeldAbsorbAllSnoc(count, front, last);
    }
  }

  lemma {:induction false} InkSpaced(words: seq<string>)
    ensures Ink(Concat(Spaced(words))) == Ink(Concat(words))
  {
    if words != [] {
      InkSpaced(words[1..]);
      InkConcat(words[0] + " ", Concat(Spaced(words[1..])));
      InkConcat(words[0], " ");
      InkConcat(words[0], Concat(words[1..]));
      InkOfSpace(" ");
    }
  }

  lemma InkUnits(sentence: string)
    ensures Ink(Concat(Units(sentence))) == Ink(sentence)
  {
    if ' ' in sentence {
      InkSpaced(Words(sentence));
      InkWords(sentence);
      InkIsInk(sentence);
    } else {
      ConcatChars(sentence);
    }
  }

  lemma {:induction false} InkIsInk(s: string)
    ensures Ink(Ink(s)) == Ink(s)
  {
    if s != [] {
      InkIsInk(s[1..]);
      InkConcat(if IsSpace(s[0]) then [] else [s[0]], Ink(s[1..]));
    }
  }

  lemma OversizedInk(count: Counter, sentence: string)
    ensures Ink(Concat(OversizedPieces(count, sentence))) == Ink(sentence)
  {
    var st := AbsorbAll(count, Units(sentence));
    HeldAbsorbAll(count, Units(sentence));
    InkUnits(sentence);
    InkKept(st.current);
    ConcatAppend(st.out, Kept(st.current));
    InkConcat(Concat(st.out), Concat(Kept(st.current)));
  }

  // ---- Pieces of a body ----

  function SentencePieces(count: Counter, sentence: string): seq<string> {
    if count(sentence) > MAX_TOKENS then OversizedPieces(count, sentence) else [sentence]
  }

  function AllSentencePieces(count: Counter, sentences: seq<string>): seq<string> {
    if sentences == [] then []
    else AllSentencePieces(count, sentences[..|sentences| - 1])
         + SentencePieces(count, sentences[|sentences| - 1])
  }

  function ParagraphPieces(count: Counter, line: string): seq<string> {
    AllSentencePieces(count, SentencesFrom(Trim(line), 0))
  }

  function LinePieces(count: Counter, lines: seq<string>): seq<string> {
    if lines == [] then []
    else LinePieces(count, lines[..|lines| - 1]) + ParagraphPieces(count, lines[|lines| - 1])
  }

  function Pieces(count: Counter, body: string): seq<string> {
    LinePieces(count, Text.Split(body, "\n"))
  }

  lemma LinesStep(count: Counter, lines: seq<string>, i: nat)
    requires i < |lines|
    ensures LinePieces(count, lines[..i + 1])
      == LinePieces(count, lines[..i]) + ParagraphPieces(count, lines[i])
  {
    assert lines[..i + 1][..i] == lines[..i];
  }

  lemma BlankLine(count: Counter, line: string)
    requires Trim(line) == []
    ensures ParagraphPieces(count, line) == []
  {
  }

  method CollectPieces(count: Counter, body: string) returns (pieces: seq<string>)
    ensures pieces == Pieces(count, body)
  {
    pieces := [];
    var lines := Text.Split(body, "\n");
    for i := 0 to |lines|
      invariant pieces == LinePieces(count, lines[..i])
    {
      LinesStep(count, lines, i);
      var paragraph := Trim(lines[i]);
      if paragraph != [] {
        var sentences := Sentences(paragraph);
        var more := SplitSentences(count, sentences);
        pieces := pieces + more;
      } else {
        BlankLine(count, lines[i]);
      }
    }
    assert lines[..|lines|] == lines;
  }

  lemma SentencesStep(count: Counter, sentences: seq<string>, i: nat)
    requires i < |sentences|
    ensures AllSentencePieces(count, sentences[..i + 1])
      == AllSentencePieces(count, sentences[..i]) + SentencePieces(count, sentences[i])
  {
    assert sentences[..i + 1][..i] == sentences[..i];
  }

  method SplitSentence(count: Counter, sentence: string) returns (pieces: seq<string>)
    ensures pieces == SentencePieces(count, sentence)
  {
    if count(sentence) > MAX_TOKENS {
      pieces := SplitOversized(count, sentence);
    } else {
      pieces := [sentence];
    }
  }

  method SplitSentences(count: Counter, sentences: seq<string>) returns (pieces: seq<string>)
    ensures pieces == AllSentencePieces(count, sentences)
  {
    pieces := [];
    for i := 0 to |sentences|
      invariant pieces == AllSentencePieces(count, sentences[..i])
    {
      SentencesStep(count, sentences, i);
      var more := SplitSentence(count, sentences[i]);
      pieces := pieces + more;
    }
    assert sentences[..|sentences|] == sentences;
  }

  lemma SentencePiecesInk(count: Counter, sentence: string)
    ensures Ink(Concat(SentencePieces(count, sentence))) == Ink(sentence)
  {
    OversizedInk(count, sentence);
    ConcatOne(sentence);
  }

  lemma SentencePiecesInkSnoc(count: Counter, front: seq<string>, last: string)
    requires Ink(Concat(AllSentencePieces(count, front))) == Ink(Concat(front))
    ensures Ink(Concat(AllSentencePieces(count, front + [last]))) == Ink(Concat(front + [last]))
  {
    SentencePiecesInk(count, last);
    InkPartsSnoc(AllSentencePieces(count, front), SentencePieces(count, last), front, last);
    assert (front + [last])[..|front|] == front;
  }

  lemma {:induction false} AllSentencePiecesInk(count: Counter, sentences: seq<string>)
    ensures Ink(Concat(AllSentencePieces(count, sentences))) == Ink(Concat(sentences))
  {
    if sentences != [] {
      var front, last := sentences[..|sentences| - 1], sentences[|sentences| - 1];
      Unsnoc(sentences, front, last);
      AllSentencePiecesInk(count, front);
      SentencePiecesInkSnoc(count, front, last);
    }
  }

  lemma ParagraphPiecesInk(count: Counter, line: string)
    ensures Ink(Concat(ParagraphPieces(count, line))) == Ink(line)
  {
    AllSentencePiecesInk(count, SentencesFrom(Trim(line), 0));
    SentencesInk(Trim(line), 0);
    assert Trim(line)[0..] == Trim(line);
    InkTrim(line);
  }

  lemma LinePiecesSnoc(count: Counter, front: seq<string>, last: string)
    ensures LinePieces(count, front + [last])
      == LinePieces(count, front) + ParagraphPieces(count, last)
  {
    assert (front + [last])[..|front|] == front;
  }

  lemma LinePiecesInkSnoc(count: Counter, front: seq<string>, last: string)
    requires Ink(Concat(LinePieces(count, front))) == Ink(Concat(front))
    ensures Ink(Concat(LinePieces(count, front + [last]))) == Ink(Concat(front + [last]))
  {
    ParagraphPiecesInk(count, last);
    InkPartsSnoc(LinePieces(count, front), ParagraphPieces(count, last), front, last);
    LinePiecesSnoc(count, front, last);
  }

  lemma {:induction false} LinePiecesInk(count: Counter, lines: seq<string>)
    ensures Ink(Concat(LinePieces(count, lines))) == Ink(Concat(lines))
  {
    if lines != [] {
      var front, last := lines[..|lines| - 1], lines[|lines| - 1];
      Unsnoc(lines, front, last);
      LinePiecesInk(count, front);
      LinePiecesInkSnoc(count, front, last);
    }
  }

  lemma SplitLinesInk(body: string)
    ensures Ink(Concat(Text.Split(body, "\n"))) == Ink(body)
  {
    SplitJoins(body, "\n");
    InkJoin(Text.Split(body, "\n"), "\n");
  }

  /** The pieces hold exactly the body's ink, in order, whatever the counter. */
  lemma PiecesInk(count: Counter, body: string)
    ensures Ink(Concat(Pieces(count, body))) == Ink(body)
  {
    LinePiecesInk(count, Text.Split(body, "\n"));
    SplitLinesInk(body);
  }
}
