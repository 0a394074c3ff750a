/** The size of the chunks (src/passages/chunk.rs): never above the maximum, and never closed
    below the target without need. */
module TokenBound {
  import opened Text
  import opened Chunker
  import opened Packing

  /** Trimming a text that fits leaves one that fits, and so does the empty text. */
  ghost predicate TrimFits(count: Counter) {
    && count("") <= MAX_TOKENS
    && forall s: string :: count(s) <= MAX_TOKENS ==> count(Trim(s)) <= MAX_TOKENS
  }

  ghost predicate CharsFit(count: Counter) {
    forall c: char | !IsSpace(c) :: count([c]) <= MAX_TOKENS
  }

  /** What the bound asks of a counter; on space alone it may count whatever it likes. */
  ghost predicate Measured(count: Counter) {
    TrimFits(count) && CharsFit(count)
  }

  ghost predicate AllFit(count: Counter, pieces: seq<string>) {
    forall i | 0 <= i < |pieces| :: count(pieces[i]) <= MAX_TOKENS
  }

  /** The text can be collected: it fits, or it holds only space and would be emitted empty. */
  predicate Collects(count: Counter, s: string) {
    count(s) <= MAX_TOKENS || Trim(s) == []
  }

  ghost predicate AllCollect(count: Counter, units: seq<string>) {
    forall i | 0 <= i < |units| :: Collects(count, units[i])
  }

  ghost predicate Within(count: Counter, st: Chunker.Split) {
    AllFit(count, st.out) && (st.current != [] ==> Collects(count, st.current))
  }

  lemma AllFitSnoc(count: Counter, out: seq<string>, s: string)
    requires AllFit(count, out) && count(s) <= MAX_TOKENS
    ensures AllFit(count, out + [s])
  {
  }

  lemma EmittedFits(count: Counter, s: string)
    requires TrimFits(count) && Collects(count, s)
    ensures count(Trim(s)) <= MAX_TOKENS
  {
  }

  lemma EmitWithin(count: Counter, st: Chunker.Split)
    requires Measured(count) && Within(count, st)
    ensures Within(count, Emit(st)) && Emit(st).current == []
  {
    if st.current != [] {
      EmittedFits(count, st.current);
      AllFitSnoc(count, st.out, Trim(st.current));
    }
  }

  lemma PutWithin(count: Counter, st: Chunker.Split, unit: string)
    requires Measured(count) && Within(count, st) && Collects(count, unit)
    ensures Within(count, Put(count, st, unit))
  {
    EmptyConcat(unit);
    EmitWithin(count, st);
  }

  lemma {:induction false} PutAllWithin(count: Counter, st: Chunker.Split, units: seq<string>)
    requires Measured(count) && Within(count, st) && AllCollect(count, units)
    ensures Within(count, PutAll(count, st, units))
  {
    if units != [] {
      PutAllWithin(count, st, units[..|units| - 1]);
      PutWithin(count, PutAll(count, st, units[..|units| - 1]), units[|units| - 1]);
    }
  }

  lemma CharsCollect(count: Counter, s: string)
    requires Measured(count)
    ensures AllCollect(count, Chars(s))
  {
    forall i | 0 <= i < |s|
      ensures Collects(count, Chars(s)[i])
    {
      if IsSpace(s[i]) {
        BlankTrims([s[i]]);
      }
    }
  }

  lemma {:induction false} AbsorbAllWithin(count: Counter, units: seq<string>)
    requires Measured(count)
    ensures Within(count, AbsorbAll(count, units))
  {
    if units != [] {
      var st, unit := AbsorbAll(count, units[..|units| - 1]), units[|units| - 1];
      AbsorbAllWithin(count, units[..|units| - 1]);
      if count(unit) > MAX_TOKENS {
        EmitWithin(count, st);
        CharsCollect(count, unit);
        PutAllWithin(count, Emit(st), Chars(unit));
      } else {
        PutWithin(count, st, unit);
      }
    }
  }

  lemma SentencePiecesFit(count: Counter, sentence: string)
    requires Measured(count)
    ensures AllFit(count, SentencePieces(count, sentence))
  {
    AbsorbAllWithin(count, Units(sentence));
  }

  lemma {:induction false} AllSentencePiecesFit(count: Counter, sentences: seq<string>)
    requires Measured(count)
    ensures AllFit(count, AllSentencePieces(count, sentences))
  {
    if sentences != [] {
      AllSentencePiecesFit(count, sentences[..|sentences| - 1]);
      SentencePiecesFit(count, sentences[|sentences| - 1]);
    }
  }

  lemma {:induction false} LinePiecesFit(count: Counter, lines: seq<string>)
    requires Measured(count)
    ensures AllFit(count, LinePieces(count, lines))
  {
    if lines != [] {
      LinePiecesFit(count, lines[..|lines| - 1]);
      AllSentencePiecesFit(count, SentencesFrom(Trim(lines[|lines| - 1]), 0));
    }
  }

  lemma RunPieces(blocks: seq<Block>, i: nat, j: nat)
    requires i < |blocks| && j < |blocks[i].run|
    ensures exists k :: 0 <= k < |Runs(blocks)| && Runs(blocks)[k] == blocks[i].run[j]
  {
    RunsPrefix(blocks, i);
    var off := |Runs(blocks[..i])|;
    assert (Runs(blocks[..i]) + blocks[i].run)[off + j] == blocks[i].run[j];
    assert Runs(blocks)[off + j] == blocks[i].run[j];
  }

  lemma LongRunFits(count: Counter, b: Block)
    requires Filled(count, b) && |b.run| > 1
    ensures count(b.Body()) <= MAX_TOKENS
  {
    var n := |b.run| - 1;
    assert StaysOpen(count, b.overlap + b.run[..n], b.run[n]);
    assert b.overlap + b.run[..n] + [b.run[n]] == b.Parts();
  }

  lemma ShortRunFits(count: Counter, b: Block, last: string)
    requires |b.run| == 1 && count(b.run[0]) <= MAX_TOKENS
    requires b.overlap == [] || b.overlap == OverlapFor(count, last, b.run[0])
    ensures count(b.Body()) <= MAX_TOKENS
  {
    if b.overlap == [] {
      assert b.Parts() == [b.run[0]];
    } else {
      assert b.Parts() == [last, b.run[0]];
    }
  }

  lemma BlockFits(count: Counter, blocks: seq<Block>, i: nat)
    requires WellPacked(count, blocks) && i < |blocks| && AllFit(count, Runs(blocks))
    ensures count(blocks[i].Body()) <= MAX_TOKENS
  {
    assert Filled(count, blocks[i]);
    if |blocks[i].run| > 1 {
      LongRunFits(count, blocks[i]);
    } else {
      RunPieces(blocks, i, 0);
      if i > 0 {
        assert Filled(count, blocks[i - 1]);
        assert Turns(count, blocks[i - 1], blocks[i].overlap, blocks[i].run[0]);
        ShortRunFits(count, blocks[i], Last(blocks[i - 1].run));
      } else {
        ShortRunFits(count, blocks[i], []);
      }
    }
  }

  /** No chunk has more than MAX_TOKENS tokens. */
  lemma ChunksFit(count: Counter, body: string)
    requires Measured(count)
    ensures AllFit(count, ChunksOf(count, body))
  {
    LinePiecesFit(count, Text.Split(body, "\n"));
    ChunksOfBody(count, body, []);
    var blocks := PackPieces(count, Pieces(count, body));
    forall i | 0 <= i < |blocks|
      ensures count(blocks[i].Body()) <= MAX_TOKENS
    {
      BlockFits(count, blocks, i);
    }
  }

  /** A chunk that is not the last and is below the target could not have taken the next
      piece, which opens the next chunk's run. */
  lemma ShortChunksWereFull(count: Counter, body: string, i: nat)
    requires i + 1 < |PackPieces(count, Pieces(count, body))|
    ensures var blocks := PackPieces(count, Pieces(count, body));
      && blocks[i + 1].run != []
      && (count(ChunksOf(count, body)[i]) < 150 ==>
          Tokens(count, blocks[i].Parts() + [blocks[i + 1].run[0]]) > 250)
  {
    ChunksOfBody(count, body, []);
    var blocks := PackPieces(count, Pieces(count, body));
    assert Filled(count, blocks[i]) && Filled(count, blocks[i + 1]);
    assert Turns(count, blocks[i], blocks[i + 1].overlap, blocks[i + 1].run[0]);
  }

  lemma CharIsSentence(c: char)
    requires !IsSpace(c)
    ensures SentencesFrom([c], 0) == [[c]]
  {
    TrimmedIsFixed([c]);
    assert SentenceEnd([c], 0) == 1 && [c][0..1] == [c];
  }

  lemma CharIsOnePiece(count: Counter, c: char)
    requires !IsSpace(c) && count([c]) > MAX_TOKENS
    ensures OversizedPieces(count, [c]) == [[c]]
  {
    var unit, none := [c], Chunker.Split([], []);
    TrimmedIsFixed(unit);
    assert Units(unit) == Chars(unit) == [unit];
    assert [unit][..0] == [];
    EmptyConcat(unit);
    assert PutAll(count, none, [unit]) == Put(count, none, unit) == Chunker.Split([], unit);
    assert AbsorbAll(count, [unit]) == Absorb(count, none, unit);
  }

  lemma OneSentence(count: Counter, sentence: string)
    ensures AllSentencePieces(count, [sentence]) == SentencePieces(count, sentence)
  {
    assert [sentence][..1] == [sentence] && [sentence][..0] == [];
    SentencesStep(count, [sentence], 0);
    EmptyConcat(SentencePieces(count, sentence));
  }

  lemma OneParagraph(count: Counter, line: string)
    ensures LinePieces(count, [line]) == ParagraphPieces(count, line)
  {
    assert [line][..1] == [line] && [line][..0] == [];
    LinesStep(count, [line], 0);
    EmptyConcat(ParagraphPieces(count, line));
  }

  lemma CharPieces(count: Counter, c: char)
    requires !IsSpace(c) && count([c]) > MAX_TOKENS
    ensures Pieces(count, [c]) == [[c]]
  {
    OneLine([c]);
    OneParagraph(count, [c]);
    CharParagraph(count, c);
  }

  lemma CharParagraph(count: Counter, c: char)
    requires !IsSpace(c) && count([c]) > MAX_TOKENS
    ensures ParagraphPieces(count, [c]) == [[c]]
  {
    TrimmedIsFixed([c]);
    CharIsSentence(c);
    CharIsOnePiece(count, c);
    OneSentence(count, [c]);
  }

  /** A visible character that counts more than the maximum is a body whose only chunk is too
      large. */
  lemma OversizedCharacter(count: Counter, c: char)
    requires !IsSpace(c) && count([c]) > MAX_TOKENS
    ensures ChunksOf(count, [c]) == [[c]] && !AllFit(count, ChunksOf(count, [c]))
  {
    CharPieces(count, c);
    OnePiece(count, [c]);
  }

  /** For a counter on which trimming behaves, every chunk of every body fits exactly when every
      visible character does. */
  lemma AllChunksFitIff(count: Counter)
    requires TrimFits(count)
    ensures (forall body: string :: AllFit(count, ChunksOf(count, body))) <==> CharsFit(count)
  {
    if CharsFit(count) {
      forall body: string
        ensures AllFit(count, ChunksOf(count, body))
      {
        ChunksFit(count, body);
      }
    } else {
      var c: char :| !IsSpace(c) && count([c]) > MAX_TOKENS;
      OversizedCharacter(count, c);
    }
  }

  lemma OccursHere(c: char, s: string, i: int)
    requires OccursAt([c], s, i)
    ensures s[i] == c
  {
    assert s[i..i + 1][0] == [c][0];
  }

  lemma OneLine(body: string)
    requires '\n' !in body
    ensures Text.Split(body, "\n") == [body]
  {
    forall j | 0 <= j <= |body|
      ensures !OccursAt("\n", body, j)
    {
      if OccursAt("\n", body, j) {
        OccursHere('\n', body, j);
      }
    }
  }

  lemma OnePiece(count: Counter, piece: string)
    ensures Bodies(PackPieces(count, [piece])) == [piece]
  {
    AddAllKeeps(count, [piece]);
    var b := Block([], [piece]);
    assert IsPacking(count, [piece], [b]) by {
      assert [b][..0] == [];
      AppendBlock(count, [], b);
      EmptyConcat([b]);
      EmptyConcat([piece]);
    }
    PackingUnique(count, [piece], [b], PackPieces(count, [piece]));
    assert b.Parts() == [piece];
    assert Bodies([b])[0] == piece;
  }

  /** Exactly the bodies without a visible character have no chunk. */
  lemma NoChunksOnlyForBlankBodies(count: Counter, body: string)
    ensures ChunksOf(count, body) == [] <==> AllSpace(body)
  {
    var blocks := PackPieces(count, Pieces(count, body));
    ChunksOfBody(count, body, blocks);
    if ChunksOf(count, body) == [] {
      assert Concat(Runs(blocks)) == [];
      NoInkIsSpace(body);
    }
    if AllSpace(body) {
      var lines := Text.Split(body, "\n");
      BlankLines(body, lines);
      BlankLinesHaveNoPieces(count, lines);
    }
  }

  lemma BlankLines(body: string, lines: seq<string>)
    requires AllSpace(body) && lines == Text.Split(body, "\n")
    ensures forall k | 0 <= k < |lines| :: AllSpace(lines[k])
  {
    forall k | 0 <= k < |lines|
      ensures AllSpace(lines[k])
    {
      var a, b := SplitPieces(body, "\n", k);
    }
  }

  lemma TrimmedBlank(t: string)
    requires IsTrimmed(t) && AllSpace(t)
    ensures t == []
  {
  }

  lemma BlankTrims(line: string)
    requires AllSpace(line)
    ensures Trim(line) == []
  {
    var a, b := TrimSplits(line);
    assert AllSpace(line[a..b]);
    TrimmedBlank(Trim(line));
  }

  lemma {:induction false} BlankLinesHaveNoPieces(count: Counter, lines: seq<string>)
    requires forall k | 0 <= k < |lines| :: AllSpace(lines[k])
    ensures LinePieces(count, lines) == []
  {
    if lines != [] {
      BlankLinesHaveNoPieces(count, lines[..|lines| - 1]);
      BlankTrims(lines[|lines| - 1]);
    }
  }
}
