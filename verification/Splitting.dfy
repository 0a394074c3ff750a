/** How an over-long sentence is broken up (src/passages/chunk.rs): into runs of units as long as
    they can be, which that determines. */
module Splitting {
  import opened Text
  import opened Chunker

  /** What is put into a run at once: a unit that fits, or a character of one that does not. The
      first character of such a unit starts a run. */
  datatype Atom = Atom(text: string, starts: bool)

  function CharAtoms(s: string): (r: seq<Atom>)
    ensures |r| == |s| && forall i | 0 <= i < |s| :: r[i] == Atom([s[i]], i == 0)
  {
    seq(|s|, i requires 0 <= i < |s| => Atom([s[i]], i == 0))
  }

  function UnitAtoms(count: Counter, unit: string): seq<Atom> {
    if count(unit) > MAX_TOKENS then CharAtoms(unit) else [Atom(unit, false)]
  }

  function AtomsOf(count: Counter, units: seq<string>): seq<Atom> {
    if units == [] then []
    else AtomsOf(count, units[..|units| - 1]) + UnitAtoms(count, units[|units| - 1])
  }

  function RunText(r: seq<Atom>): string {
    if r == [] then [] else RunText(r[..|r| - 1]) + r[|r| - 1].text
  }

  function Flatten(runs: seq<seq<Atom>>): seq<Atom> {
    if runs == [] then [] else Flatten(runs[..|runs| - 1]) + runs[|runs| - 1]
  }

  // ---- What a splitting is ----

  /** The atom goes on with the run r: it does not start one, and it still fits. */
  predicate Joins(count: Counter, r: seq<Atom>, a: Atom) {
    !a.starts && count(RunText(r) + a.text) <= MAX_TOKENS
  }

  ghost predicate IsRun(count: Counter, r: seq<Atom>) {
    r != [] && forall j | 0 < j < |r| :: Joins(count, r[..j], r[j])
  }

  /** The atoms in order, in runs that each take every atom they can. */
  ghost predicate IsSplitting(count: Counter, atoms: seq<Atom>, runs: seq<seq<Atom>>) {
    && Flatten(runs) == atoms
    && (forall i | 0 <= i < |runs| :: IsRun(count, runs[i]))
    && (forall i | 0 < i < |runs| :: Ends(count, runs[i - 1], runs[i]))
  }

  ghost predicate Ends(count: Counter, r: seq<Atom>, next: seq<Atom>) {
    next != [] && !Joins(count, r, next[0])
  }

  function Trimmed(runs: seq<seq<Atom>>): (r: seq<string>)
    ensures |r| == |runs| && forall i | 0 <= i < |runs| :: r[i] == Trim(RunText(runs[i]))
  {
    seq(|runs|, i requires 0 <= i < |runs| => Trim(RunText(runs[i])))
  }

  /** Each run trimmed, the last one unless it is blank. */
  function PiecesOfRuns(runs: seq<seq<Atom>>): seq<string> {
    if runs == [] then []
    else Trimmed(runs[..|runs| - 1]) + Kept(RunText(runs[|runs| - 1]))
  }

  // ---- Adding an atom ----

  function Extended(count: Counter, runs: seq<seq<Atom>>, a: Atom): seq<seq<Atom>> {
    if runs != [] && Joins(count, runs[|runs| - 1], a)
    then runs[..|runs| - 1] + [runs[|runs| - 1] + [a]]
    else runs + [[a]]
  }

  lemma FlattenSnoc(runs: seq<seq<Atom>>, r: seq<Atom>)
    ensures Flatten(runs + [r]) == Flatten(runs) + r
  {
    assert (runs + [r])[..|runs|] == runs;
  }

  lemma RunTextSnoc(r: seq<Atom>, a: Atom)
    ensures RunText(r + [a]) == RunText(r) + a.text
  {
    assert (r + [a])[..|r|] == r;
  }

  lemma LongerRun(count: Counter, r: seq<Atom>, a: Atom)
    requires IsRun(count, r) && Joins(count, r, a)
    ensures IsRun(count, r + [a])
  {
    var more := r + [a];
    forall j | 0 < j < |more|
      ensures Joins(count, more[..j], more[j])
    {
      if j < |r| {
        assert more[..j] == r[..j];
      } else {
        assert more[..j] == r;
      }
    }
  }

  lemma JoinLast(count: Counter, front: seq<seq<Atom>>, r: seq<Atom>, a: Atom, atoms: seq<Atom>)
    requires IsSplitting(count, atoms, front + [r]) && Joins(count, r, a)
    ensures IsSplitting(count, atoms + [a], front + [r + [a]])
  {
    var runs, more := front + [r], front + [r + [a]];
    assert runs[|front|] == r;
    LongerRun(count, r, a);
    FlattenSnoc(front, r);
    FlattenSnoc(front, r + [a]);
    ConcatAssociative(Flatten(front), r, [a]);
    forall i | 0 <= i < |more|
      ensures IsRun(count, more[i])
    {
      assert i < |front| ==> more[i] == runs[i];
    }
    forall i | 0 < i < |more|
      ensures Ends(count, more[i - 1], more[i])
    {
      assert Ends(count, runs[i - 1], runs[i]);
    }
  }

  lemma StartNext(count: Counter, runs: seq<seq<Atom>>, a: Atom, atoms: seq<Atom>)
    requires IsSplitting(count, atoms, runs)
    requires runs != [] ==> !Joins(count, runs[|runs| - 1], a)
    ensures IsSplitting(count, atoms + [a], runs + [[a]])
  {
    var more := runs + [[a]];
    FlattenSnoc(runs, [a]);
    forall i | 0 < i < |more|
      ensures Ends(count, more[i - 1], more[i])
    {
      assert i < |runs| ==> Ends(count, runs[i - 1], runs[i]);
    }
  }

  lemma ExtendSplitting(count: Counter, atoms: seq<Atom>, runs: seq<seq<Atom>>, a: Atom)
    requires IsSplitting(count, atoms, runs)
    ensures IsSplitting(count, atoms + [a], Extended(count, runs, a))
  {
    if runs != [] && Joins(count, runs[|runs| - 1], a) {
      Unsnoc(runs, runs[..|runs| - 1], runs[|runs| - 1]);
      JoinLast(count, runs[..|runs| - 1], runs[|runs| - 1], a, atoms);
    } else {
      StartNext(count, runs, a, atoms);
    }
  }

  // ---- There is only one ----

  lemma RunsHoldAtoms(count: Counter, atoms: seq<Atom>, runs: seq<seq<Atom>>)
    requires IsSplitting(count, atoms, runs)
    ensures runs != [] ==> atoms != []
  {
    if runs != [] {
      assert IsRun(count, runs[|runs| - 1]);
    }
  }

  lemma ShorterRun(count: Counter, r: seq<Atom>)
    requires IsRun(count, r) && |r| > 1
    ensures IsRun(count, r[..|r| - 1]) && Joins(count, r[..|r| - 1], r[|r| - 1])
  {
    var n := |r| - 1;
    forall j | 0 < j < n
      ensures Joins(count, r[..n][..j], r[..n][j])
    {
      assert r[..n][..j] == r[..j];
      assert Joins(count, r[..j], r[j]);
    }
  }

  lemma DropRun(count: Counter, front: seq<seq<Atom>>, a: Atom, atoms: seq<Atom>)
    requires IsSplitting(count, atoms + [a], front + [[a]])
    ensures IsSplitting(count, atoms, front)
    ensures front != [] ==> !Joins(count, front[|front| - 1], a)
  {
    var runs := front + [[a]];
    FlattenSnoc(front, [a]);
    assert Flatten(front) == (Flatten(front) + [a])[..|Flatten(front)|] == atoms;
    forall i | 0 <= i < |front|
      ensures IsRun(count, front[i])
    {
      assert IsRun(count, runs[i]);
    }
    forall i | 0 < i < |front|
      ensures Ends(count, front[i - 1], front[i])
    {
      assert Ends(count, runs[i - 1], runs[i]);
    }
    if front != [] {
      assert Ends(count, runs[|front| - 1], runs[|front|]);
    }
  }

  lemma DropAtom(count: Counter, front: seq<seq<Atom>>, r: seq<Atom>, a: Atom, atoms: seq<Atom>)
    requires IsSplitting(count, atoms + [a], front + [r + [a]]) && r != []
    ensures IsSplitting(count, atoms, front + [r]) && Joins(count, r, a)
  {
    var runs, less := front + [r + [a]], front + [r];
    assert runs[|front|] == r + [a];
    ShorterRun(count, r + [a]);
    assert (r + [a])[..|r|] == r;
    FlattenSnoc(front, r + [a]);
    FlattenSnoc(front, r);
    ConcatAssociative(Flatten(front), r, [a]);
    assert Flatten(less) == (Flatten(less) + [a])[..|Flatten(less)|] == atoms;
    forall i | 0 <= i < |less|
      ensures IsRun(count, less[i])
    {
      assert i < |front| ==> IsRun(count, runs[i]);
    }
    forall i | 0 < i < |less|
      ensures Ends(count, less[i - 1], less[i])
    {
      assert Ends(count, runs[i - 1], runs[i]);
    }
  }

  lemma LastIs(count: Counter, atoms: seq<Atom>, runs: seq<seq<Atom>>)
    requires IsSplitting(count, atoms, runs) && atoms != []
    ensures runs != [] && runs[|runs| - 1] != []
    ensures var r := runs[|runs| - 1]; r[|r| - 1] == atoms[|atoms| - 1]
  {
    var r := runs[|runs| - 1];
    assert IsRun(count, r);
    assert (Flatten(runs[..|runs| - 1]) + r)[|atoms| - 1] == r[|r| - 1];
  }

  /** A splitting is the extension of one of all atoms but the last. */
  lemma IsExtension(count: Counter, atoms: seq<Atom>, a: Atom, runs: seq<seq<Atom>>)
    returns (less: seq<seq<Atom>>)
    requires IsSplitting(count, atoms + [a], runs)
    ensures IsSplitting(count, atoms, less) && runs == Extended(count, less, a)
  {
    LastIs(count, atoms + [a], runs);
    var front, last := runs[..|runs| - 1], runs[|runs| - 1];
    Unsnoc(runs, front, last);
    var r := last[..|last| - 1];
    Unsnoc(last, r, a);
    if r == [] {
      EmptyConcat([a]);
      DropRun(count, front, a, atoms);
      less := front;
    } else {
      DropAtom(count, front, r, a, atoms);
      less := front + [r];
      assert less[..|less| - 1] == front;
    }
  }

  /** What a splitting is determines it. */
  lemma {:induction false} SplittingUnique(count: Counter, atoms: seq<Atom>, p: seq<seq<Atom>>,
                                           q: seq<seq<Atom>>)
    requires IsSplitting(count, atoms, p) && IsSplitting(count, atoms, q)
    ensures p == q
    decreases |atoms|
  {
    if atoms == [] {
      RunsHoldAtoms(count, atoms, p);
      RunsHoldAtoms(count, atoms, q);
    } else {
      var front, a := atoms[..|atoms| - 1], atoms[|atoms| - 1];
      Unsnoc(atoms, front, a);
      var p' := IsExtension(count, front, a, p);
      var q' := IsExtension(count, front, a, q);
      SplittingUnique(count, front, p', q');
    }
  }

  // ---- It is what the code computes ----

  function PutAtom(count: Counter, st: Chunker.Split, a: Atom): Chunker.Split {
    Put(count, if a.starts then Emit(st) else st, a.text)
  }

  function PutAtoms(count: Counter, st: Chunker.Split, atoms: seq<Atom>): Chunker.Split {
    if atoms == [] then st
    else PutAtom(count, PutAtoms(count, st, atoms[..|atoms| - 1]), atoms[|atoms| - 1])
  }

  lemma PutAtomsSnoc(count: Counter, st: Chunker.Split, atoms: seq<Atom>, a: Atom)
    ensures PutAtoms(count, st, atoms + [a]) == PutAtom(count, PutAtoms(count, st, atoms), a)
  {
    assert (atoms + [a])[..|atoms|] == atoms;
  }

  lemma {:induction false} PutAtomsAppend(count: Counter, st: Chunker.Split, a: seq<Atom>, b: seq<Atom>)
    ensures PutAtoms(count, st, a + b) == PutAtoms(count, PutAtoms(count, st, a), b)
  {
    if b == [] {
      EmptyConcat(a);
    } else {
      var front, last := b[..|b| - 1], b[|b| - 1];
      Unsnoc(b, front, last);
      ConcatAssociative(a, front, [last]);
      PutAtomsAppend(count, st, a, front);
      PutAtomsSnoc(count, st, a + front, last);
    }
  }

  lemma {:induction false} PutChars(count: Counter, st: Chunker.Split, s: string, n: nat)
    requires n <= |s|
    ensures n > 0 ==>
      PutAtoms(count, st, CharAtoms(s)[..n]) == PutAll(count, Emit(st), Chars(s)[..n])
  {
    if n > 0 {
      var atoms, chars := CharAtoms(s)[..n - 1], Chars(s)[..n - 1];
      assert CharAtoms(s)[..n] == atoms + [CharAtoms(s)[n - 1]];
      assert Chars(s)[..n] == chars + [Chars(s)[n - 1]];
      PutAtomsSnoc(count, st, atoms, CharAtoms(s)[n - 1]);
      PutAllSnoc(count, Emit(st), chars, Chars(s)[n - 1]);
      PutChars(count, st, s, n - 1);
    }
  }

  lemma AbsorbPuts(count: Counter, st: Chunker.Split, unit: string)
    requires unit != []
    ensures Absorb(count, st, unit) == PutAtoms(count, st, UnitAtoms(count, unit))
  {
    if count(unit) > MAX_TOKENS {
      PutChars(count, st, unit, |unit|);
      assert CharAtoms(unit)[..|unit|] == CharAtoms(unit) && Chars(unit)[..|unit|] == Chars(unit);
    } else {
      EmptyConcat([Atom(unit, false)]);
      PutAtomsSnoc(count, st, [], Atom(unit, false));
    }
  }

  ghost predicate NoneEmpty(units: seq<string>) {
    forall i | 0 <= i < |units| :: units[i] != []
  }

  lemma {:induction false} AbsorbAllPuts(count: Counter, units: seq<string>)
    requires NoneEmpty(units)
    ensures AbsorbAll(count, units) == PutAtoms(count, Chunker.Split([], []), AtomsOf(count, units))
  {
    if units != [] {
      var front, last := units[..|units| - 1], units[|units| - 1];
      AbsorbAllPuts(count, front);
      AbsorbPuts(count, AbsorbAll(count, front), last);
      PutAtomsAppend(count, Chunker.Split([], []), AtomsOf(count, front), UnitAtoms(count, last));
    }
  }

  /** The pieces emitted are the closed runs, and the text collected is the open one. */
  ghost predicate Holds(st: Chunker.Split, runs: seq<seq<Atom>>) {
    if runs == [] then st == Chunker.Split([], [])
    else
      && st.out == Trimmed(runs[..|runs| - 1])
      && st.current == RunText(runs[|runs| - 1]) && st.current != []
  }

  lemma TrimmedSnoc(runs: seq<seq<Atom>>, r: seq<Atom>)
    ensures Trimmed(runs + [r]) == Trimmed(runs) + [Trim(RunText(r))]
  {
    var more := runs + [r];
    assert forall i | 0 <= i < |runs| :: more[i] == runs[i];
  }

  lemma OneAtomText(a: Atom)
    ensures RunText([a]) == a.text
  {
    var none: seq<Atom> := [];
    assert none + [a] == [a];
    RunTextSnoc(none, a);
    EmptyConcat(a.text);
  }

  lemma PutJoins(count: Counter, st: Chunker.Split, front: seq<seq<Atom>>, r: seq<Atom>, a: Atom)
    requires st == Chunker.Split(Trimmed(front), RunText(r)) && Joins(count, r, a)
    ensures PutAtom(count, st, a) == Chunker.Split(Trimmed(front), RunText(r + [a]))
  {
    RunTextSnoc(r, a);
  }

  lemma PutStarts(count: Counter, st: Chunker.Split, front: seq<seq<Atom>>, r: seq<Atom>, a: Atom)
    requires st == Chunker.Split(Trimmed(front), RunText(r)) && st.current != [] && !Joins(count, r, a)
    ensures PutAtom(count, st, a) == Chunker.Split(Trimmed(front + [r]), RunText([a]))
  {
    TrimmedSnoc(front, r);
    OneAtomText(a);
    EmptyConcat(a.text);
  }

  lemma HoldsLast(st: Chunker.Split, front: seq<seq<Atom>>, r: seq<Atom>)
    requires st == Chunker.Split(Trimmed(front), RunText(r)) && st.current != []
    ensures Holds(st, front + [r])
  {
    assert (front + [r])[..|front|] == front;
  }

  lemma PutHolds(count: Counter, st: Chunker.Split, runs: seq<seq<Atom>>, a: Atom)
    requires Holds(st, runs) && a.text != []
    ensures Holds(PutAtom(count, st, a), Extended(count, runs, a))
  {
    OneAtomText(a);
    if runs == [] {
      EmptyConcat(a.text);
      HoldsLast(PutAtom(count, st, a), [], [a]);
    } else {
      var front, r := runs[..|runs| - 1], runs[|runs| - 1];
      Unsnoc(runs, front, r);
      if Joins(count, r, a) {
        PutJoins(count, st, front, r, a);
        RunTextSnoc(r, a);
        HoldsLast(PutAtom(count, st, a), front, r + [a]);
      } else {
        PutStarts(count, st, front, r, a);
        HoldsLast(PutAtom(count, st, a), runs, [a]);
      }
    }
  }

  ghost predicate TextsNotEmpty(atoms: seq<Atom>) {
    forall i | 0 <= i < |atoms| :: atoms[i].text != []
  }

  lemma {:induction false} PutAtomsSplits(count: Counter, atoms: seq<Atom>) returns (runs: seq<seq<Atom>>)
    requires TextsNotEmpty(atoms)
    ensures IsSplitting(count, atoms, runs)
    ensures Holds(PutAtoms(count, Chunker.Split([], []), atoms), runs)
  {
    if atoms == [] {
      runs := [];
    } else {
      var front, a := atoms[..|atoms| - 1], atoms[|atoms| - 1];
      Unsnoc(atoms, front, a);
      var less := PutAtomsSplits(count, front);
      ExtendSplitting(count, front, less, a);
      PutHolds(count, PutAtoms(count, Chunker.Split([], []), front), less, a);
      runs := Extended(count, less, a);
    }
  }

  lemma {:induction false} AtomsNotEmpty(count: Counter, units: seq<string>)
    requires NoneEmpty(units)
    ensures TextsNotEmpty(AtomsOf(count, units))
  {
    if units != [] {
      AtomsNotEmpty(count, units[..|units| - 1]);
    }
  }

  /** The units of a sentence: its words, each with a space after it, or its characters when it has
      no space. */
  lemma UnitsAre(sentence: string)
    ensures var units, words := Units(sentence), Words(sentence);
      && (' ' in sentence ==>
          |units| == |words| && forall i | 0 <= i < |words| :: units[i] == words[i] + [' '])
      && (' ' !in sentence ==>
          |units| == |sentence| && forall i | 0 <= i < |sentence| :: units[i] == [sentence[i]])
    ensures NoneEmpty(Units(sentence))
  {
  }

  /** The pieces of an over-long sentence are its units in order, in runs as long as they can be:
      a run of more than one atom fits, and it ends only where the next atom would not fit or where
      a unit that is too long itself is broken into characters. Each piece is a run, trimmed, and
      there is only one such list of runs. */
  lemma OversizedAreLongest(count: Counter, sentence: string) returns (runs: seq<seq<Atom>>)
    ensures IsSplitting(count, AtomsOf(count, Units(sentence)), runs)
    ensures OversizedPieces(count, sentence) == PiecesOfRuns(runs)
    ensures forall q :: IsSplitting(count, AtomsOf(count, Units(sentence)), q) ==> q == runs
    ensures forall i | 0 <= i < |runs| && |runs[i]| > 1 :: count(RunText(runs[i])) <= 250
  {
    UnitsAre(sentence);
    AbsorbAllPuts(count, Units(sentence));
    AtomsNotEmpty(count, Units(sentence));
    runs := PutAtomsSplits(count, AtomsOf(count, Units(sentence)));
    forall i | 0 <= i < |runs| && |runs[i]| > 1
      ensures count(RunText(runs[i])) <= MAX_TOKENS
    {
      assert IsRun(count, runs[i]);
      ShorterRun(count, runs[i]);
    }
    forall q | IsSplitting(count, AtomsOf(count, Units(sentence)), q)
      ensures q == runs
    {
      SplittingUnique(count, AtomsOf(count, Units(sentence)), q, runs);
    }
  }

  /** A sentence that fits is one piece, as it is. */
  lemma FittingSentenceIsOnePiece(count: Counter, sentence: string)
    ensures count(sentence) <= 250 ==> SentencePieces(count, sentence) == [sentence]
    ensures count(sentence) > 250 ==>
      SentencePieces(count, sentence) == OversizedPieces(count, sentence)
  {
  }
}
