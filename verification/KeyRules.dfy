/** What makes two texts share a key, and what is cut from a title (src/match_keys.rs). */
module KeyRules {
  import opened Text
  import opened MatchKeys

  // ---- Dashes ----

  /** The hyphens and dashes that count as one character. */
  predicate IsHyphen(c: char) {
    c in ['-', '\U{2010}', '\U{2011}', '\U{2012}', '\U{2013}', '\U{2014}', '\U{2015}']
  }

  predicate SameChar(c: char, d: char) {
    c == d || (IsHyphen(c) && IsHyphen(d))
  }

  /** The texts differ only in which dashes they use. */
  ghost predicate SameButDashes(s: string, t: string) {
    |s| == |t| && forall i | 0 <= i < |s| :: SameChar(s[i], t[i])
  }

  /** Lower-casing has nothing to do with dashes. */
  ghost predicate LeavesDashes(u: Casing) {
    forall s, t :: SameButDashes(s, t) ==> SameButDashes(u.lower(s), u.lower(t))
  }

  /** A folded dash is the ASCII hyphen, and no other character changes. */
  lemma FoldIs(c: char)
    ensures FoldChar(c) == if IsHyphen(c) then '-' else c
  {
  }

  lemma FoldedAlike(s: string, t: string)
    ensures FoldDashes(s) == FoldDashes(t) <==> SameButDashes(s, t)
  {
    var a, b := FoldDashes(s), FoldDashes(t);
    forall i | 0 <= i < |s| && i < |t|
      ensures a[i] == b[i] <==> SameChar(s[i], t[i])
    {
      FoldIs(s[i]);
      FoldIs(t[i]);
    }
    if a == b {
      assert forall i | 0 <= i < |s| :: a[i] == b[i];
    }
  }

  lemma SpacesAlike(s: string, t: string, i: nat)
    requires SameButDashes(s, t) && i < |s|
    ensures IsSpace(s[i]) <==> IsSpace(t[i])
  {
    assert SameChar(s[i], t[i]);
  }

  lemma SlicesAlike(s: string, t: string, a: nat, b: nat)
    requires SameButDashes(s, t) && a <= b <= |s|
    ensures SameButDashes(s[a..b], t[a..b])
  {
    forall i | 0 <= i < b - a
      ensures SameChar(s[a..b][i], t[a..b][i])
    {
      assert SameChar(s[a + i], t[a + i]);
    }
  }

  lemma TailsAlike(s: string, t: string, a: nat)
    requires SameButDashes(s, t) && a <= |s|
    ensures SameButDashes(s[a..], t[a..])
  {
    forall i | 0 <= i < |s| - a
      ensures SameChar(s[a..][i], t[a..][i])
    {
      assert SameChar(s[a + i], t[a + i]);
    }
  }

  lemma {:induction false} WordLengthAlike(s: string, t: string)
    requires SameButDashes(s, t)
    ensures WordLength(s) == WordLength(t)
  {
    if s != [] {
      SpacesAlike(s, t, 0);
      TailsAlike(s, t, 1);
      WordLengthAlike(s[1..], t[1..]);
    }
  }

  ghost predicate AllAlike(a: seq<string>, b: seq<string>) {
    |a| == |b| && forall i | 0 <= i < |a| :: SameButDashes(a[i], b[i])
  }

  lemma ConsAlike(x: string, y: string, a: seq<string>, b: seq<string>)
    requires SameButDashes(x, y) && AllAlike(a, b)
    ensures AllAlike([x] + a, [y] + b)
  {
  }

  lemma WordsSplit(s: string)
    requires s != []
    ensures Words(s) == if IsSpace(s[0]) then Words(s[1..])
                        else [s[..WordLength(s)]] + Words(s[WordLength(s)..])
  {
  }

  lemma {:induction false} WordsAlike(s: string, t: string)
    requires SameButDashes(s, t)
    ensures AllAlike(Words(s), Words(t))
    decreases |s|
  {
    if s != [] {
      WordsSplit(s);
      WordsSplit(t);
      SpacesAlike(s, t, 0);
      if IsSpace(s[0]) {
        TailsAlike(s, t, 1);
        WordsAlike(s[1..], t[1..]);
      } else {
        var n := WordLength(s);
        WordLengthAlike(s, t);
        TailsAlike(s, t, n);
        WordsAlike(s[n..], t[n..]);
        SlicesAlike(s, t, 0, n);
        assert s[0..n] == s[..n] && t[0..n] == t[..n];
        ConsAlike(s[..n], t[..n], Words(s[n..]), Words(t[n..]));
      }
    }
  }

  lemma ConcatAlike(a: string, b: string, c: string, d: string)
    requires SameButDashes(a, b) && SameButDashes(c, d)
    ensures SameButDashes(a + c, b + d)
  {
  }

  lemma {:induction false} JoinsAlike(a: seq<string>, b: seq<string>)
    requires AllAlike(a, b)
    ensures SameButDashes(Join(a, " "), Join(b, " "))
  {
    if |a| > 1 {
      JoinsAlike(a[1..], b[1..]);
      ConcatAlike(a[0], b[0], " ", " ");
      ConcatAlike(a[0] + " ", b[0] + " ", Join(a[1..], " "), Join(b[1..], " "));
    }
  }

  /** Texts that differ only in their dashes share a key. */
  lemma DashesShareKey(u: Casing, s: string, t: string)
    requires LeavesDashes(u) && SameButDashes(s, t)
    ensures MatchKey(u, s) == MatchKey(u, t)
  {
    WordsAlike(s, t);
    JoinsAlike(Words(s), Words(t));
    FoldedAlike(u.lower(Join(Words(s), " ")), u.lower(Join(Words(t), " ")));
  }

  /** The key is lower-case, single-spaced and without other dashes; it depends on the words only. */
  lemma WordsShareKey(u: Casing, s: string, t: string)
    requires Words(s) == Words(t)
    ensures MatchKey(u, s) == MatchKey(u, t)
    ensures IdentityKey(u, s) == u.lower(Join(Words(s), " "))
    ensures forall i | 0 <= i < |MatchKey(u, s)| :: IsHyphen(MatchKey(u, s)[i]) ==> MatchKey(u, s)[i] == '-'
  {
    var id := IdentityKey(u, s);
    forall i | 0 <= i < |id|
      ensures IsHyphen(MatchKey(u, s)[i]) ==> MatchKey(u, s)[i] == '-'
    {
      FoldIs(id[i]);
    }
  }

  // ---- Qualifiers ----

  predicate IsWordChar(u: Casing, c: char) {
    u.isAlphanumeric(c) || c == '.'
  }

  /** inner[a..b] is a maximal run of word characters. */
  predicate IsWordAt(u: Casing, inner: string, a: int, b: int) {
    && 0 <= a <= b <= |inner| && (forall i | a <= i < b :: IsWordChar(u, inner[i]))
    && (a > 0 ==> !IsWordChar(u, inner[a - 1])) && (b < |inner| ==> !IsWordChar(u, inner[b]))
  }

  ghost predicate HasQualifier(u: Casing, inner: string, from: int) {
    exists a, b :: from <= a && IsWordAt(u, inner, a, b) && inner[a..b] in TITLE_QUALIFIERS
  }

  /** While inside a word that began at `start`, it is the first that remains. */
  lemma {:induction false} QualifierScan(u: Casing, inner: string, start: nat, i: nat)
    requires start <= i <= |inner| && (start > 0 ==> !IsWordChar(u, inner[start - 1]))
    requires forall k | start <= k < i :: IsWordChar(u, inner[k])
    ensures HasQualifierWord(u, inner[i..], inner[start..i]) <==> HasQualifier(u, inner, start)
    decreases |inner| - i
  {
    if i == |inner| {
      WordToEnd(u, inner, start);
    } else {
      assert inner[i..][0] == inner[i] && inner[i..][1..] == inner[i + 1..];
      if IsWordChar(u, inner[i]) {
        assert inner[start..i] + [inner[i]] == inner[start..i + 1];
        QualifierScan(u, inner, start, i + 1);
      } else {
        assert inner[i + 1..i + 1] == [];
        QualifierScan(u, inner, i + 1, i + 1);
        WordEndsHere(u, inner, start, i);
      }
    }
  }

  lemma WordToEnd(u: Casing, inner: string, start: nat)
    requires start <= |inner| && (start > 0 ==> !IsWordChar(u, inner[start - 1]))
    requires forall k | start <= k < |inner| :: IsWordChar(u, inner[k])
    ensures HasQualifier(u, inner, start) <==> inner[start..|inner|] in TITLE_QUALIFIERS
  {
    assert IsWordAt(u, inner, start, |inner|);
    forall a, b | start <= a && IsWordAt(u, inner, a, b)
      ensures a == start && b == |inner|
    {
    }
  }

  lemma WordEndsHere(u: Casing, inner: string, start: nat, i: nat)
    requires start <= i < |inner| && (start > 0 ==> !IsWordChar(u, inner[start - 1]))
    requires forall k | start <= k < i :: IsWordChar(u, inner[k])
    requires !IsWordChar(u, inner[i])
    ensures HasQualifier(u, inner, start) <==>
      inner[start..i] in TITLE_QUALIFIERS || HasQualifier(u, inner, i + 1)
  {
    assert IsWordAt(u, inner, start, i);
    forall a, b | start <= a && IsWordAt(u, inner, a, b)
      ensures (a == start && b == i) || i + 1 <= a
    {
      if a <= i {
        assert a == start;
      }
    }
  }

  predicate OnlyDigits(s: string) {
    forall i | 0 <= i < |s| :: '0' <= s[i] <= '9'
  }

  lemma DigitsAre(s: string)
    ensures (forall c | c in s :: '0' <= c <= '9') <==> OnlyDigits(s)
  {
    if forall c | c in s :: '0' <= c <= '9' {
      forall i | 0 <= i < |s|
        ensures '0' <= s[i] <= '9'
      {
        assert s[i] in s;
      }
    }
  }

  lemma HasQualifierWordIff(u: Casing, inner: string)
    ensures HasQualifierWord(u, inner, []) <==> HasQualifier(u, inner, 0)
  {
    assert inner[0..] == inner && inner[0..0] == [];
    QualifierScan(u, inner, 0, 0);
  }

  /** A bracketed text is a release qualifier exactly when it is only digits or has a word of the
      list, where a word is a maximal run of alphanumerics and full stops. */
  lemma QualifierIff(u: Casing, inner: string)
    ensures IsQualifier(u, inner) <==> OnlyDigits(Trim(inner)) || HasQualifier(u, inner, 0)
  {
    DigitsAre(Trim(inner));
    HasQualifierWordIff(u, inner);
  }

  // ---- What is cut ----

  lemma {:induction false} RFindIs(s: string, c: char, i: nat)
    requires i < |s| && s[i] == c && forall j | i < j < |s| :: s[j] != c
    ensures RFind(s, c) == Some(i)
  {
    if i < |s| - 1 {
      RFindIs(s[..|s| - 1], c, i);
    }
  }

  predicate AreBrackets(open: char, close: char) {
    (open == '(' && close == ')') || (open == '[' && close == ']')
  }

  /** One trailing group: cut off with the space before it exactly when what it holds qualifies and
      something stands before it. */
  lemma TrailingGroup(u: Casing, front: string, open: char, inner: string, close: char)
    requires AreBrackets(open, close) && open !in inner
    ensures StripGroup(Qualified(u), front + [open] + inner + [close])
      == if front != [] && IsQualifier(u, u.lower(inner)) then Some(TrimEnd(front)) else None
  {
    var base := front + [open] + inner + [close];
    var n := |front|;
    assert base[n] == open && forall j | n < j < |base| :: base[j] != open;
    RFindIs(base, open, n);
    assert base[n + 1..|base| - 1] == inner && base[..n] == front;
  }

  lemma RFindNone(s: string, c: char)
    requires c !in s
    ensures RFind(s, c) == None
  {
  }

  /** Without a closing bracket at its end, or without the opening one, nothing is cut. */
  lemma NoTrailingGroup(u: Casing, base: string)
    requires base != [] && base[|base| - 1] == ')' ==> '(' !in base
    requires base != [] && base[|base| - 1] == ']' ==> '[' !in base
    ensures StripGroup(Qualified(u), base) == None
  {
    if base != [] && (base[|base| - 1] == ')' || base[|base| - 1] == ']') {
      RFindNone(base, Opening(base));
    }
  }

  /** The groups are looked for in what stands before the first " - ", without trailing space. */
  lemma HeadIsBeforeDash(title: string)
    ensures !Contains(title, " - ") ==> TitleHead(title) == TrimEnd(title)
    ensures Contains(title, " - ") ==>
      exists i: nat | i <= |title| :: IsFirstAt(title, " - ", i) && TitleHead(title) == TrimEnd(title[..i])
  {
    match Find(title, " - ", 0)
    case None =>
    case Some(i) => assert IsFirstAt(title, " - ", i);
  }

  predicate IsFirstAt(s: string, t: string, i: nat) {
    OccursAt(t, s, i) && forall j | 0 <= j < i :: !OccursAt(t, s, j)
  }

  /** A title without " - " that ends in a qualifier group has the base title of what stands before
      the group. */
  lemma BaseTitleDropsGroup(u: Casing, front: string, open: char, inner: string, close: char)
    requires AreBrackets(open, close) && open !in inner && IsQualifier(u, u.lower(inner))
    requires front != [] && !Contains(front + [open] + inner + [close], " - ")
    ensures var title := front + [open] + inner + [close];
      var base := StripGroups(Qualified(u), TrimEnd(front));
      BaseTitle(u, title) == if base == [] then title else base
  {
    var title := front + [open] + inner + [close];
    HeadIsBeforeDash(title);
    assert title[|title| - 1] == close && !IsSpace(close);
    EndsInInk(title);
    TrailingGroup(u, front, open, inner, close);
    StripGroupsStep(Qualified(u), title);
  }

  lemma EndsInInk(s: string)
    requires s != [] && !IsSpace(s[|s| - 1])
    ensures TrimEnd(s) == s
  {
    assert s[..|s|] == s;
  }

  /** A title without " - " and without such a group at its end only loses the space at its end. */
  lemma BaseTitleOfPlain(u: Casing, title: string)
    requires !Contains(title, " - ") && StripGroup(Qualified(u), TrimEnd(title)).None?
    ensures BaseTitle(u, title) == if TrimEnd(title) == [] then title else TrimEnd(title)
  {
    HeadIsBeforeDash(title);
    StripGroupsStep(Qualified(u), TrimEnd(title));
  }
}
