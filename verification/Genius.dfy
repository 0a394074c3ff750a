/** The stored body of a Genius song: its description and annotations without the lyrics they
    quote (src/passages/sources/genius.rs). */
module Genius {
  import opened Text

  /** A referent: the lyric fragment it is attached to, and the plain text of its annotations;
      None where the field is absent or not a string. */
  datatype Referent = Referent(fragment: Option<string>, annotations: seq<Option<string>>)

  const BREAK: string := "\n\n"

  function Description(plain: Option<string>): Option<string> {
    match plain
    case None => None
    case Some(s) => if Trim(s) == [] || Trim(s) == "?" then None else Some(Trim(s))
  }

  function Fragments(refs: seq<Referent>): seq<string> {
    if refs == [] then []
    else
      var last := refs[|refs| - 1].fragment;
      Fragments(refs[..|refs| - 1]) + (if last.Some? && last.value != [] then [last.value] else [])
  }

  predicate Quotes(text: string, fragments: seq<string>) {
    exists f | f in fragments :: Contains(text, f)
  }

  /** What is kept of one text: its trimmed form, if any is left and it quotes no fragment. */
  function Keep(text: string, fragments: seq<string>): seq<string> {
    if Trim(text) == [] || Quotes(Trim(text), fragments) then [] else [Trim(text)]
  }

  function KeepAll(texts: seq<string>, fragments: seq<string>): seq<string> {
    if texts == [] then []
    else KeepAll(texts[..|texts| - 1], fragments) + Keep(texts[|texts| - 1], fragments)
  }

  function StripLyricParagraphs(text: string, fragments: seq<string>): Option<string> {
    var kept := KeepAll(Split(text, BREAK), fragments);
    if kept == [] then None else Some(Join(kept, BREAK))
  }

  function Texts(annotations: seq<Option<string>>): seq<string> {
    if annotations == [] then []
    else
      var last := annotations[|annotations| - 1];
      Texts(annotations[..|annotations| - 1]) + (if last.Some? then [last.value] else [])
  }

  function AllTexts(refs: seq<Referent>): seq<string> {
    if refs == [] then []
    else AllTexts(refs[..|refs| - 1]) + Texts(refs[|refs| - 1].annotations)
  }

  /** The paragraphs kept of the description. */
  function KeptDescription(plain: Option<string>, fragments: seq<string>): seq<string> {
    match Description(plain)
    case None => []
    case Some(d) => KeepAll(Split(d, BREAK), fragments)
  }

  /** Every text kept, in the order stored. */
  function KeptTexts(plain: Option<string>, refs: seq<Referent>): seq<string> {
    var fragments := Fragments(refs);
    KeptDescription(plain, fragments) + KeepAll(AllTexts(refs), fragments)
  }

  // ---- song_body ----

  method CollectFragments(refs: seq<Referent>) returns (fragments: seq<string>)
    ensures fragments == Fragments(refs)
  {
    fragments := [];
    for i := 0 to |refs|
      invariant fragments == Fragments(refs[..i])
    {
      assert refs[..i + 1][..i] == refs[..i];
      if refs[i].fragment.Some? && refs[i].fragment.value != [] {
        fragments := fragments + [refs[i].fragment.value];
      }
    }
    assert refs[..|refs|] == refs;
  }

  lemma KeepAllSnoc(a: seq<string>, raw: string, fragments: seq<string>)
    ensures KeepAll(a + [raw], fragments) == KeepAll(a, fragments) + Keep(raw, fragments)
  {
    assert (a + [raw])[..|a|] == a;
  }

  lemma {:induction false} KeepAllAppend(a: seq<string>, b: seq<string>, fragments: seq<string>)
    ensures KeepAll(a + b, fragments) == KeepAll(a, fragments) + KeepAll(b, fragments)
  {
    if b == [] {
      EmptyConcat(a);
      EmptyConcat(KeepAll(a, fragments));
    } else {
      var front, last := b[..|b| - 1], b[|b| - 1];
      assert b == front + [last];
      ConcatAssociative(a, front, [last]);
      KeepAllSnoc(a + front, last, fragments);
      KeepAllAppend(a, front, fragments);
      ConcatAssociative(KeepAll(a, fragments), KeepAll(front, fragments), Keep(last, fragments));
    }
  }

  method AddText(parts: seq<string>, raw: string, fragments: seq<string>)
    returns (more: seq<string>)
    ensures more == parts + Keep(raw, fragments)
  {
    var text := Trim(raw);
    more := if text != [] && !Quotes(text, fragments) then parts + [text] else parts;
  }

  method AddAnnotations(parts: seq<string>, annotations: seq<Option<string>>,
                        fragments: seq<string>)
    returns (more: seq<string>)
    ensures more == parts + KeepAll(Texts(annotations), fragments)
  {
    more := parts;
    EmptyConcat(parts);
    for j := 0 to |annotations|
      invariant more == parts + KeepAll(Texts(annotations[..j]), fragments)
    {
      ghost var texts := Texts(annotations[..j]);
      assert annotations[..j + 1][..j] == annotations[..j];
      if annotations[j].Some? {
        KeepAllSnoc(texts, annotations[j].value, fragments);
        ConcatAssociative(parts, KeepAll(texts, fragments), Keep(annotations[j].value, fragments));
        more := AddText(more, annotations[j].value, fragments);
      } else {
        EmptyConcat(texts);
      }
    }
    assert annotations[..|annotations|] == annotations;
  }

  method AddReferents(parts: seq<string>, refs: seq<Referent>, fragments: seq<string>)
    returns (more: seq<string>)
    ensures more == parts + KeepAll(AllTexts(refs), fragments)
  {
    more := parts;
    EmptyConcat(parts);
    for i := 0 to |refs|
      invariant more == parts + KeepAll(AllTexts(refs[..i]), fragments)
    {
      assert refs[..i + 1][..i] == refs[..i];
      ghost var before, here := AllTexts(refs[..i]), Texts(refs[i].annotations);
      KeepAllAppend(before, here, fragments);
      ConcatAssociative(parts, KeepAll(before, fragments), KeepAll(here, fragments));
      more := AddAnnotations(more, refs[i].annotations, fragments);
    }
    assert refs[..|refs|] == refs;
  }

  method AddDescription(plain: Option<string>, fragments: seq<string>)
    returns (parts: seq<string>)
    ensures var kept := KeptDescription(plain, fragments);
      parts == if kept == [] then [] else [Join(kept, BREAK)]
  {
    parts := [];
    var described := Description(plain);
    if described.Some? {
      var stripped := StripLyricParagraphs(described.value, fragments);
      if stripped.Some? {
        parts := [stripped.value];
      }
    }
  }

  method SongBody(plain: Option<string>, refs: seq<Referent>) returns (body: string)
    ensures body == Join(KeptTexts(plain, refs), BREAK)
  {
    var fragments := CollectFragments(refs);
    var parts := AddDescription(plain, fragments);
    parts := AddReferents(parts, refs, fragments);
    body := Join(parts, BREAK);
    TwoLevelJoin(KeptDescription(plain, fragments), KeepAll(AllTexts(refs), fragments));
  }

  /** Joining the description first and the rest after is joining them all. */
  lemma TwoLevelJoin(kept: seq<string>, rest: seq<string>)
    ensures Join((if kept == [] then [] else [Join(kept, BREAK)]) + rest, BREAK)
         == Join(kept + rest, BREAK)
  {
    if kept == [] {
      EmptyConcat(rest);
    } else if rest == [] {
      EmptyConcat(kept);
      EmptyConcat([Join(kept, BREAK)]);
    } else {
      JoinAppend([Join(kept, BREAK)], rest, BREAK);
      JoinAppend(kept, rest, BREAK);
    }
  }

  // ---- What is read of the input ----

  /** Some referent is attached to the fragment. */
  ghost predicate Carries(refs: seq<Referent>, f: string) {
    f != [] && exists k | 0 <= k < |refs| :: refs[k].fragment == Some(f)
  }

  lemma {:induction false} FragmentsAre(refs: seq<Referent>, f: string)
    ensures f in Fragments(refs) <==> Carries(refs, f)
  {
    if refs != [] {
      var front, last := refs[..|refs| - 1], refs[|refs| - 1];
      FragmentsAre(front, f);
      CarriesSnoc(refs, front, last, f);
    }
  }

  lemma CarriesSnoc(refs: seq<Referent>, front: seq<Referent>, last: Referent, f: string)
    requires refs != [] && front == refs[..|refs| - 1] && last == refs[|refs| - 1]
    ensures Carries(refs, f) <==> Carries(front, f) || (f != [] && last.fragment == Some(f))
  {
    if Carries(front, f) {
      var k :| 0 <= k < |front| && front[k].fragment == Some(f);
      assert refs[k].fragment == Some(f);
    }
    if f != [] && last.fragment == Some(f) {
      assert refs[|refs| - 1].fragment == Some(f);
    }
    if Carries(refs, f) {
      var k :| 0 <= k < |refs| && refs[k].fragment == Some(f);
      assert k < |front| ==> front[k].fragment == Some(f);
    }
  }

  /** Some referent has the text among its annotations. */
  ghost predicate Annotates(refs: seq<Referent>, t: string) {
    exists k, j :: IsAnnotation(refs, k, j, t)
  }

  predicate IsAnnotation(refs: seq<Referent>, k: int, j: int, t: string) {
    0 <= k < |refs| && 0 <= j < |refs[k].annotations| && refs[k].annotations[j] == Some(t)
  }

  lemma {:induction false} TextsAre(annotations: seq<Option<string>>, t: string)
    ensures t in Texts(annotations) <==> exists j | 0 <= j < |annotations| :: annotations[j] == Some(t)
  {
    if annotations != [] {
      var n := |annotations| - 1;
      TextsAre(annotations[..n], t);
      if j :| 0 <= j < n && annotations[..n][j] == Some(t) {
        assert annotations[j] == Some(t);
      }
      if j :| 0 <= j < |annotations| && annotations[j] == Some(t) {
        assert j < n ==> annotations[..n][j] == Some(t);
      }
    }
  }

  lemma AnnotatesSnoc(refs: seq<Referent>, front: seq<Referent>, last: Referent, t: string)
    requires refs != [] && front == refs[..|refs| - 1] && last == refs[|refs| - 1]
    ensures Annotates(refs, t) <==>
      (Annotates(front, t)
       || exists j | 0 <= j < |last.annotations| :: last.annotations[j] == Some(t))
  {
    if k, j :| IsAnnotation(front, k, j, t) {
      assert IsAnnotation(refs, k, j, t);
    }
    if j :| 0 <= j < |last.annotations| && last.annotations[j] == Some(t) {
      assert IsAnnotation(refs, |refs| - 1, j, t);
    }
    if k, j :| IsAnnotation(refs, k, j, t) {
      assert k < |front| ==> IsAnnotation(front, k, j, t);
    }
  }

  lemma {:induction false} AllTextsAre(refs: seq<Referent>, t: string)
    ensures t in AllTexts(refs) <==> Annotates(refs, t)
  {
    if refs != [] {
      var front, last := refs[..|refs| - 1], refs[|refs| - 1];
      AllTextsAre(front, t);
      TextsAre(last.annotations, t);
      AnnotatesSnoc(refs, front, last, t);
    }
  }

  /** The annotations are read referent by referent. */
  lemma {:induction false} AllTextsInOrder(a: seq<Referent>, b: seq<Referent>)
    ensures AllTexts(a + b) == AllTexts(a) + AllTexts(b)
  {
    if b == [] {
      EmptyConcat(a);
      EmptyConcat(AllTexts(a));
    } else {
      var front, last := b[..|b| - 1], b[|b| - 1];
      Unsnoc(b, front, last);
      ConcatAssociative(a, front, [last]);
      AllTextsInOrder(a, front);
      assert (a + front + [last])[..|a + front|] == a + front;
      ConcatAssociative(AllTexts(a), AllTexts(front), Texts(last.annotations));
    }
  }

  /** A paragraph of the description, which is nothing when it is blank or a question mark. */
  ghost predicate Describes(plain: Option<string>, t: string) {
    && plain.Some? && Trim(plain.value) !in ["", "?"]
    && t in Split(Trim(plain.value), "\n\n")
  }

  lemma DescribesIff(plain: Option<string>, t: string)
    ensures Describes(plain, t) <==>
      Description(plain).Some? && t in Split(Description(plain).value, BREAK)
  {
  }

  ghost predicate QuotesLyrics(refs: seq<Referent>, t: string) {
    exists f :: Carries(refs, f) && Contains(t, f)
  }

  lemma QuotesAre(refs: seq<Referent>, t: string)
    ensures Quotes(t, Fragments(refs)) <==> QuotesLyrics(refs, t)
  {
    if f :| f in Fragments(refs) && Contains(t, f) {
      FragmentsAre(refs, f);
    }
    if f :| Carries(refs, f) && Contains(t, f) {
      FragmentsAre(refs, f);
    }
  }

  // ---- No lyric is stored ----

  ghost predicate CleanText(p: string, fragments: seq<string>) {
    p != [] && IsTrimmed(p) && !Quotes(p, fragments)
  }

  ghost predicate AllClean(ps: seq<string>, fragments: seq<string>) {
    forall i | 0 <= i < |ps| :: CleanText(ps[i], fragments)
  }

  lemma {:induction false} KeepAllClean(texts: seq<string>, fragments: seq<string>)
    ensures AllClean(KeepAll(texts, fragments), fragments)
  {
    if texts != [] {
      KeepAllClean(texts[..|texts| - 1], fragments);
      var a, b := TrimSplits(texts[|texts| - 1]);
    }
  }

  /** f can be read across the blank line between two trimmed texts: it holds a two-newline
      break with no other space next to it, or starts or ends with a lone newline. */
  predicate JointShaped(f: string) {
    f != [] &&
    (|| (exists k | 0 <= k < |f| - 1 :: BreakAt(f, k))
     || (f[0] == '\n' && (|f| == 1 || !IsSpace(f[1])))
     || (f[|f| - 1] == '\n' && (|f| == 1 || !IsSpace(f[|f| - 2]))))
  }

  predicate BreakAt(f: string, k: int)
    requires 0 <= k < |f| - 1
  {
    && f[k] == '\n' && f[k + 1] == '\n'
    && (k == 0 || !IsSpace(f[k - 1]))
    && (k + 2 == |f| || !IsSpace(f[k + 2]))
  }

  /** An occurrence that touches the break between p and `rest` has the shape of a joint. */
  lemma AcrossBreak(p: string, rest: string, f: string, i: nat)
    requires p != [] && rest != [] && f != [] && !IsSpace(p[|p| - 1]) && !IsSpace(rest[0])
    requires OccursAt(f, p + BREAK + rest, i) && i < |p| + 2 && i + |f| > |p|
    ensures JointShaped(f)
  {
    var t, n := p + BREAK + rest, |p|;
    assert forall j | 0 <= j < |f| :: f[j] == t[i..i + |f|][j] == t[i + j];
    assert t[n - 1] == p[n - 1] && t[n] == '\n' && t[n + 1] == '\n' && t[n + 2] == rest[0];
    if i <= n && i + |f| >= n + 2 {
      assert BreakAt(f, n - i);
    } else if i == n + 1 {
      assert f[0] == '\n';
    } else {
      assert f[|f| - 1] == '\n';
    }
  }

  lemma {:induction false} OccursInJoin(ps: seq<string>, fragments: seq<string>, f: string, i: nat)
    requires AllClean(ps, fragments) && f in fragments && f != []
    requires OccursAt(f, Join(ps, BREAK), i)
    ensures JointShaped(f)
    decreases |ps|
  {
    if |ps| == 1 {
      assert false;
    } else if |ps| > 1 {
      var p, rest := ps[0], Join(ps[1..], BREAK);
      assert CleanText(p, fragments) && CleanText(ps[1], fragments);
      assert rest[0] == ps[1][0];
      if i + |f| <= |p| {
        SliceOfSlice(p + BREAK + rest, 0, |p|, i, i + |f|);
        assert (p + BREAK + rest)[0..|p|] == p;
        assert OccursAt(f, p, i);
        assert false;
      } else if i >= |p| + 2 {
        var j := i - |p| - 2;
        assert (p + BREAK + rest)[i..i + |f|] == rest[j..j + |f|];
        OccursInJoin(ps[1..], fragments, f, j);
      } else {
        AcrossBreak(p, rest, f, i);
      }
    }
  }

  /** No fragment that cannot be read across a blank line occurs anywhere in the stored body,
      not even across the two levels of joining. */
  lemma BodyHasNoLyrics(plain: Option<string>, refs: seq<Referent>, f: string)
    requires Carries(refs, f) && !JointShaped(f)
    ensures !Contains(Join(KeptTexts(plain, refs), BREAK), f)
  {
    FragmentsAre(refs, f);
    var fragments := Fragments(refs);
    FragmentsNotEmpty(refs);
    KeepAllClean(AllTexts(refs), fragments);
    if Description(plain).Some? {
      KeepAllClean(Split(Description(plain).value, BREAK), fragments);
    }
    var ps := KeptTexts(plain, refs);
    if Contains(Join(ps, BREAK), f) {
      var i :| 0 <= i <= |Join(ps, BREAK)| && OccursAt(f, Join(ps, BREAK), i);
      OccursInJoin(ps, fragments, f, i);
    }
  }

  lemma {:induction false} FragmentsNotEmpty(refs: seq<Referent>)
    ensures forall f | f in Fragments(refs) :: f != []
  {
    if refs != [] {
      FragmentsNotEmpty(refs[..|refs| - 1]);
    }
  }

  // ---- The condition is exact ----

  lemma TextsOfTwo(p: string, q: string)
    ensures Texts([Some(p), Some(q)]) == [p, q]
  {
    var one, two: seq<Option<string>> := [Some(p)], [Some(p), Some(q)];
    assert one[..|one| - 1] == [] && two[..|two| - 1] == one;
    assert Texts(one) == [p];
    assert Texts(two) == Texts(one) + [q];
  }

  lemma OneReferent(r: Referent)
    ensures AllTexts([r]) == Texts(r.annotations)
    ensures r.fragment.Some? && r.fragment.value != [] ==> Fragments([r]) == [r.fragment.value]
  {
    var rs, none: seq<Referent> := [r], [];
    assert rs[..|rs| - 1] == none && rs[|rs| - 1] == r;
    assert AllTexts(rs) == AllTexts(none) + Texts(r.annotations) == Texts(r.annotations);
    if r.fragment.Some? && r.fragment.value != [] {
      assert Fragments(rs) == Fragments(none) + [r.fragment.value] == [r.fragment.value];
    }
  }

  lemma KeepCleanPair(p: string, q: string, fragments: seq<string>)
    requires CleanText(p, fragments) && CleanText(q, fragments)
    ensures KeepAll([p, q], fragments) == [p, q]
  {
    TrimmedIsFixed(p);
    TrimmedIsFixed(q);
    var none: seq<string> := [];
    assert none + [p] == [p] && [p] + [q] == [p, q];
    KeepAllSnoc(none, p, fragments);
    KeepAllSnoc([p], q, fragments);
  }

  lemma TwoAnnotations(f: string, p: string, q: string)
    requires f != [] && CleanText(p, [f]) && CleanText(q, [f])
    ensures KeptTexts(None, [Referent(Some(f), [Some(p), Some(q)])]) == [p, q]
    ensures Fragments([Referent(Some(f), [Some(p), Some(q)])]) == [f]
  {
    OneReferent(Referent(Some(f), [Some(p), Some(q)]));
    TextsOfTwo(p, q);
    KeepCleanPair(p, q, [f]);
    EmptyConcat([p, q]);
  }

  lemma JointLeaks(f: string, p: string, q: string, i: nat)
    requires f != [] && CleanText(p, [f]) && CleanText(q, [f])
    requires OccursAt(f, p + BREAK + q, i)
    ensures var refs := [Referent(Some(f), [Some(p), Some(q)])];
      f in Fragments(refs) && Contains(Join(KeptTexts(None, refs), BREAK), f)
  {
    TwoAnnotations(f, p, q);
    assert [p, q][1..] == [q];
    assert Join([p, q], BREAK) == p + BREAK + q;
  }

  lemma TooShort(p: string, f: string)
    requires |p| < |f|
    ensures !Quotes(p, [f])
  {
  }

  lemma LeakAtBreak(f: string, k: nat) returns (refs: seq<Referent>)
    requires k < |f| - 1 && BreakAt(f, k)
    ensures f in Fragments(refs) && Contains(Join(KeptTexts(None, refs), BREAK), f)
  {
    var p, q := "x" + f[..k], f[k + 2..] + "x";
    TooShort(p, f);
    TooShort(q, f);
    assert f == f[..k] + BREAK + f[k + 2..];
    assert (p + BREAK + q)[1..1 + |f|] == f;
    JointLeaks(f, p, q, 1);
    refs := [Referent(Some(f), [Some(p), Some(q)])];
  }

  lemma DiffersAt(p: string, f: string, i: nat)
    requires |p| == |f| && i < |p| && p[i] != f[i]
    ensures !Quotes(p, [f])
  {
    forall j | 0 <= j <= |p|
      ensures !OccursAt(f, p, j)
    {
      if OccursAt(f, p, j) {
        OccursWhole(p, f, j);
      }
    }
  }

  lemma OccursWhole(p: string, f: string, j: int)
    requires |p| == |f| && OccursAt(f, p, j)
    ensures p == f
  {
    assert p[0..|p|] == p;
  }

  lemma LeakAtStart(f: string) returns (refs: seq<Referent>)
    requires f != [] && f[0] == '\n' && (|f| == 1 || !IsSpace(f[1]))
    ensures f in Fragments(refs) && Contains(Join(KeptTexts(None, refs), BREAK), f)
  {
    var p, q := "x", f[1..] + "x";
    assert q[0] == if |f| == 1 then 'x' else f[1];
    DiffersAt(q, f, 0);
    if |f| > 1 {
      TooShort(p, f);
    } else {
      DiffersAt(p, f, 0);
    }
    assert (p + BREAK + q)[2..2 + |f|] == f;
    JointLeaks(f, p, q, 2);
    refs := [Referent(Some(f), [Some(p), Some(q)])];
  }

  lemma LeakAtEnd(f: string) returns (refs: seq<Referent>)
    requires f != [] && f[|f| - 1] == '\n' && (|f| == 1 || !IsSpace(f[|f| - 2]))
    ensures f in Fragments(refs) && Contains(Join(KeptTexts(None, refs), BREAK), f)
  {
    var n := |f| - 1;
    var p, q := "x" + f[..n], "x";
    assert p[n] == if n == 0 then 'x' else f[n - 1];
    DiffersAt(p, f, n);
    if n > 0 {
      TooShort(q, f);
    } else {
      DiffersAt(q, f, 0);
    }
    assert (p + BREAK + q)[1..1 + |f|] == f;
    JointLeaks(f, p, q, 1);
    refs := [Referent(Some(f), [Some(p), Some(q)])];
  }

  /** Every fragment of that shape does get stored for some song: two annotations, neither of
      which quotes it, spell it out once they are joined. */
  lemma JointShapedLeaks(f: string) returns (refs: seq<Referent>)
    requires JointShaped(f)
    ensures Carries(refs, f) && Contains(Join(KeptTexts(None, refs), BREAK), f)
  {
    if f[0] == '\n' && (|f| == 1 || !IsSpace(f[1])) {
      refs := LeakAtStart(f);
    } else if f[|f| - 1] == '\n' && (|f| == 1 || !IsSpace(f[|f| - 2])) {
      refs := LeakAtEnd(f);
    } else {
      var k :| 0 <= k < |f| - 1 && BreakAt(f, k);
      refs := LeakAtBreak(f, k);
    }
    FragmentsAre(refs, f);
  }

  // ---- Nothing else is dropped ----

  lemma {:induction false} KeepAllComplete(texts: seq<string>, fragments: seq<string>, k: nat)
    requires k < |texts| && Trim(texts[k]) != [] && !Quotes(Trim(texts[k]), fragments)
    ensures Trim(texts[k]) in KeepAll(texts, fragments)
  {
    if k < |texts| - 1 {
      KeepAllComplete(texts[..|texts| - 1], fragments, k);
    }
  }

  lemma {:induction false} KeepAllSound(texts: seq<string>, fragments: seq<string>, p: string)
    requires p in KeepAll(texts, fragments)
    ensures exists k | 0 <= k < |texts| ::
      p == Trim(texts[k]) && p != [] && !Quotes(p, fragments)
  {
    var front, last := texts[..|texts| - 1], texts[|texts| - 1];
    if p in KeepAll(front, fragments) {
      KeepAllSound(front, fragments, p);
      var k :| 0 <= k < |front| && p == Trim(front[k]) && p != [] && !Quotes(p, fragments);
      assert texts[k] == front[k];
    } else {
      assert p in Keep(last, fragments);
    }
  }

  ghost predicate AllFrom(ps: seq<string>, texts: seq<string>) {
    forall i | 0 <= i < |ps| :: IsTrimOf(ps[i], texts)
  }

  ghost predicate IsTrimOf(p: string, texts: seq<string>) {
    exists k | 0 <= k < |texts| :: p == Trim(texts[k])
  }

  /** The description's paragraphs come first, and then the annotations. */
  lemma DescriptionComesFirst(plain: Option<string>, refs: seq<Referent>) returns (n: nat)
    ensures n <= |KeptTexts(plain, refs)|
    ensures n > 0 ==>
      && Description(plain).Some?
      && AllFrom(KeptTexts(plain, refs)[..n], Split(Description(plain).value, BREAK))
    ensures AllFrom(KeptTexts(plain, refs)[n..], AllTexts(refs))
  {
    var fragments := Fragments(refs);
    var first, rest := KeptDescription(plain, fragments), KeepAll(AllTexts(refs), fragments);
    n := |first|;
    assert (first + rest)[..n] == first && (first + rest)[n..] == rest;
    if n > 0 {
      KeptComeFrom(Split(Description(plain).value, BREAK), fragments);
    }
    KeptComeFrom(AllTexts(refs), fragments);
  }

  lemma KeptComeFrom(texts: seq<string>, fragments: seq<string>)
    ensures AllFrom(KeepAll(texts, fragments), texts)
  {
    var ps := KeepAll(texts, fragments);
    forall i | 0 <= i < |ps|
      ensures IsTrimOf(ps[i], texts)
    {
      KeepAllSound(texts, fragments, ps[i]);
    }
  }

  ghost predicate IsText(plain: Option<string>, refs: seq<Referent>, t: string) {
    Annotates(refs, t) || Describes(plain, t)
  }

  /** An annotation or description paragraph that is not blank and quotes no fragment is stored,
      trimmed. */
  lemma CleanTextsAreKept(plain: Option<string>, refs: seq<Referent>, t: string)
    requires IsText(plain, refs, t) && Trim(t) != [] && !QuotesLyrics(refs, Trim(t))
    ensures Trim(t) in KeptTexts(plain, refs)
  {
    AllTextsAre(refs, t);
    DescribesIff(plain, t);
    QuotesAre(refs, Trim(t));
    if t in AllTexts(refs) {
      var k :| 0 <= k < |AllTexts(refs)| && AllTexts(refs)[k] == t;
      KeepAllComplete(AllTexts(refs), Fragments(refs), k);
    } else {
      var paragraphs := Split(Description(plain).value, BREAK);
      var k :| 0 <= k < |paragraphs| && paragraphs[k] == t;
      KeepAllComplete(paragraphs, Fragments(refs), k);
    }
  }

  /** ... and nothing else is. */
  lemma KeptTextsAreClean(plain: Option<string>, refs: seq<Referent>, p: string)
    requires p in KeptTexts(plain, refs)
    ensures p != [] && !QuotesLyrics(refs, p)
    ensures exists t :: IsText(plain, refs, t) && p == Trim(t)
  {
    QuotesAre(refs, p);
    var texts := if p in KeepAll(AllTexts(refs), Fragments(refs)) then AllTexts(refs)
                 else Split(Description(plain).value, BREAK);
    KeepAllSound(texts, Fragments(refs), p);
    var k :| 0 <= k < |texts| && p == Trim(texts[k]) && p != [] && !Quotes(p, Fragments(refs));
    AllTextsAre(refs, texts[k]);
    DescribesIff(plain, texts[k]);
    assert IsText(plain, refs, texts[k]);
  }
}
