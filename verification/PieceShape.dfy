/** Where the pieces of a body begin and end (src/passages/chunk.rs): at the ends of sentences and of
    lines. */
module PieceShape {
  import opened Text
  import opened Chunker
  import opened Splitting

  // ---- Sentences ----

  /** A CJK stop, or a Latin one before space or at the end. */
  predicate IsStop(p: string, k: nat)
    requires k < |p|
  {
    || p[k] in ['。', '！', '？']
    || (p[k] in ['.', '!', '?'] && (k == |p| - 1 || IsSpace(p[k + 1])))
  }

  /** The cuts after `start`: behind every stop, and at the end. */
  ghost predicate AreCuts(p: string, start: nat, cuts: seq<nat>) {
    && (forall i | 0 <= i < |cuts| :: start < cuts[i] <= |p|)
    && (forall i, j | 0 <= i < j < |cuts| :: cuts[i] < cuts[j])
    && (forall k: nat | start <= k < |p| :: IsCut(p, cuts, k))
  }

  ghost predicate IsCut(p: string, cuts: seq<nat>, k: nat)
    requires k < |p|
  {
    k + 1 in cuts <==> IsStop(p, k) || k + 1 == |p|
  }

  /** What is left of the text between consecutive cuts, trimmed. */
  function Between(p: string, start: nat, cuts: seq<nat>): seq<string>
    decreases |cuts|
  {
    if cuts == [] || !(start <= cuts[0] <= |p|) then []
    else Kept(p[start..cuts[0]]) + Between(p, cuts[0], cuts[1..])
  }

  lemma FirstCut(p: string, start: nat, e: nat, rest: seq<nat>)
    requires start < e <= |p| && e == SentenceEnd(p, start) && AreCuts(p, e, rest)
    ensures AreCuts(p, start, [e] + rest)
  {
    var cuts := [e] + rest;
    forall k: nat | start <= k < |p|
      ensures IsCut(p, cuts, k)
    {
      if k >= e {
        assert IsCut(p, rest, k);
      } else if k < e - 1 {
        assert !EndsSentence(p, k);
      }
    }
  }

  /** Sentences are the nonempty trimmed texts between consecutive stops. */
  lemma {:induction false} SentencesAreBetweenStops(p: string, start: nat) returns (cuts: seq<nat>)
    requires start <= |p|
    ensures AreCuts(p, start, cuts) && SentencesFrom(p, start) == Between(p, start, cuts)
    decreases |p| - start
  {
    if start == |p| {
      cuts := [];
    } else {
      var e := SentenceEnd(p, start);
      var rest := SentencesAreBetweenStops(p, e);
      FirstCut(p, start, e, rest);
      cuts := [e] + rest;
      assert cuts[1..] == rest;
    }
  }

  // ---- Lines ----

  ghost predicate OnOneLine(s: string) {
    '\n' !in s
  }

  ghost predicate AllOnOneLine(parts: seq<string>) {
    forall i | 0 <= i < |parts| :: OnOneLine(parts[i])
  }

  lemma SliceOnOneLine(s: string, a: nat, b: nat)
    requires OnOneLine(s) && a <= b <= |s|
    ensures OnOneLine(s[a..b])
  {
  }

  lemma TrimOnOneLine(s: string)
    requires OnOneLine(s)
    ensures OnOneLine(Trim(s))
  {
    var a, b := TrimSplits(s);
    SliceOnOneLine(s, a, b);
  }

  lemma AppendOnOneLine(a: seq<string>, b: seq<string>)
    requires AllOnOneLine(a) && AllOnOneLine(b)
    ensures AllOnOneLine(a + b)
  {
  }

  lemma KeptOnOneLine(s: string)
    requires OnOneLine(s)
    ensures AllOnOneLine(Kept(s))
  {
    TrimOnOneLine(s);
  }

  lemma {:induction false} SentencesOnOneLine(p: string, start: nat)
    requires OnOneLine(p) && start <= |p|
    ensures AllOnOneLine(SentencesFrom(p, start))
    decreases |p| - start
  {
    if start < |p| {
      var e := SentenceEnd(p, start);
      SentencesOnOneLine(p, e);
      SliceOnOneLine(p, start, e);
      KeptOnOneLine(p[start..e]);
      SentencesFromStep(p, start);
      AppendOnOneLine(Kept(p[start..e]), SentencesFrom(p, e));
    }
  }

  ghost predicate AtomsOnOneLine(atoms: seq<Atom>) {
    forall i | 0 <= i < |atoms| :: OnOneLine(atoms[i].text)
  }

  lemma UnitAtomsOnOneLine(count: Counter, unit: string)
    requires OnOneLine(unit)
    ensures AtomsOnOneLine(UnitAtoms(count, unit))
  {
  }

  lemma {:induction false} AtomsOfOnOneLine(count: Counter, units: seq<string>)
    requires AllOnOneLine(units)
    ensures AtomsOnOneLine(AtomsOf(count, units))
  {
    if units != [] {
      AtomsOfOnOneLine(count, units[..|units| - 1]);
      UnitAtomsOnOneLine(count, units[|units| - 1]);
    }
  }

  lemma UnitsOnOneLine(sentence: string)
    requires OnOneLine(sentence)
    ensures AllOnOneLine(Units(sentence))
  {
    UnitsAre(sentence);
    var units, words := Units(sentence), Words(sentence);
    forall i | 0 <= i < |units|
      ensures OnOneLine(units[i])
    {
      if ' ' in sentence {
        assert IsWord(words[i]);
      }
    }
  }

  lemma {:induction false} RunOnOneLine(r: seq<Atom>)
    requires AtomsOnOneLine(r)
    ensures OnOneLine(RunText(r))
  {
    if r != [] {
      RunOnOneLine(r[..|r| - 1]);
    }
  }

  lemma {:induction false} RunsOnOneLine(runs: seq<seq<Atom>>)
    requires AtomsOnOneLine(Flatten(runs))
    ensures forall i | 0 <= i < |runs| :: OnOneLine(RunText(runs[i]))
  {
    if runs != [] {
      var front, r := runs[..|runs| - 1], runs[|runs| - 1];
      forall i | 0 <= i < |Flatten(front)|
        ensures OnOneLine(Flatten(front)[i].text)
      {
        assert Flatten(runs)[i] == Flatten(front)[i];
      }
      forall i | 0 <= i < |r|
        ensures OnOneLine(r[i].text)
      {
        assert Flatten(runs)[|Flatten(front)| + i] == r[i];
      }
      RunsOnOneLine(front);
      RunOnOneLine(r);
    }
  }

  lemma PiecesOfRunsOnOneLine(runs: seq<seq<Atom>>)
    requires forall i | 0 <= i < |runs| :: OnOneLine(RunText(runs[i]))
    ensures AllOnOneLine(PiecesOfRuns(runs))
  {
    if runs != [] {
      var front := runs[..|runs| - 1];
      forall i | 0 <= i < |front|
        ensures OnOneLine(Trimmed(front)[i])
      {
        TrimOnOneLine(RunText(runs[i]));
      }
      KeptOnOneLine(RunText(runs[|runs| - 1]));
    }
  }

  lemma SentencePiecesOnOneLine(count: Counter, sentence: string)
    requires OnOneLine(sentence)
    ensures AllOnOneLine(SentencePieces(count, sentence))
  {
    FittingSentenceIsOnePiece(count, sentence);
    if count(sentence) > MAX_TOKENS {
      UnitsOnOneLine(sentence);
      AtomsOfOnOneLine(count, Units(sentence));
      var runs := OversizedAreLongest(count, sentence);
      RunsOnOneLine(runs);
      PiecesOfRunsOnOneLine(runs);
    }
  }

  lemma {:induction false} AllSentencePiecesOnOneLine(count: Counter, sentences: seq<string>)
    requires AllOnOneLine(sentences)
    ensures AllOnOneLine(AllSentencePieces(count, sentences))
  {
    if sentences != [] {
      AllSentencePiecesOnOneLine(count, sentences[..|sentences| - 1]);
      SentencePiecesOnOneLine(count, sentences[|sentences| - 1]);
    }
  }

  lemma {:induction false} LinePiecesOnOneLine(count: Counter, lines: seq<string>)
    requires AllOnOneLine(lines)
    ensures AllOnOneLine(LinePieces(count, lines))
  {
    if lines != [] {
      var last := lines[|lines| - 1];
      LinePiecesOnOneLine(count, lines[..|lines| - 1]);
      TrimOnOneLine(last);
      SentencesOnOneLine(Trim(last), 0);
      AllSentencePiecesOnOneLine(count, SentencesFrom(Trim(last), 0));
    }
  }

  lemma BreakFree(s: string)
    requires !Contains(s, "\n")
    ensures OnOneLine(s)
  {
    forall i | 0 <= i < |s|
      ensures s[i] != '\n'
    {
      assert !OccursAt("\n", s, i);
      assert s[i..i + 1] == [s[i]];
    }
  }

  /** No piece reaches across the end of a line. */
  lemma PiecesOnOneLine(count: Counter, body: string)
    ensures AllOnOneLine(Pieces(count, body))
  {
    var lines := Text.Split(body, "\n");
    forall k | 0 <= k < |lines|
      ensures OnOneLine(lines[k])
    {
      var a, b := SplitPieces(body, "\n", k);
      BreakFree(lines[k]);
    }
    LinePiecesOnOneLine(count, lines);
  }
}
