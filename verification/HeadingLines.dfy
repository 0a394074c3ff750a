/** Which lines open a section that is cut off (src/passages/sources/clean.rs). */
module HeadingLines {
  import opened Text
  import opened Clean

  function EqualsSigns(n: nat): (s: string)
    ensures |s| == n && forall i | 0 <= i < n :: s[i] == '='
  {
    if n == 0 then "" else EqualsSigns(n - 1) + "="
  }

  /** The text with n more signs before it. */
  lemma SignsInFront(n: nat, s: string)
    ensures EqualsSigns(n + 1) + s == "=" + (EqualsSigns(n) + s)
  {
    var a, b := EqualsSigns(n + 1) + s, "=" + (EqualsSigns(n) + s);
    assert forall i | 0 <= i < |a| :: a[i] == b[i];
  }

  predicate IsBare(s: string) {
    s != [] ==> s[0] != '=' && s[|s| - 1] != '='
  }

  lemma {:induction false} TrimsTail(mid: string, n: nat)
    requires mid != [] && IsBare(mid)
    ensures TrimEquals(mid + EqualsSigns(n)) == mid
  {
    var s := mid + EqualsSigns(n);
    if n == 0 {
      assert s == mid;
    } else {
      assert s[0] == mid[0] && s[|s| - 1] == '=';
      assert s[..|s| - 1] == mid + EqualsSigns(n - 1);
      TrimsTail(mid, n - 1);
    }
  }

  lemma {:induction false} TrimsSigns(m: nat, mid: string, n: nat)
    requires mid != [] && IsBare(mid)
    ensures TrimEquals(EqualsSigns(m) + (mid + EqualsSigns(n))) == mid
  {
    var tail := mid + EqualsSigns(n);
    if m == 0 {
      assert EqualsSigns(0) + tail == tail;
      TrimsTail(mid, n);
    } else {
      SignsInFront(m - 1, tail);
      assert ("=" + (EqualsSigns(m - 1) + tail))[1..] == EqualsSigns(m - 1) + tail;
      TrimsSigns(m - 1, mid, n);
    }
  }

  /** What trim_matches takes off: the signs at both ends, and nothing else. */
  lemma {:induction false} SignsTrimmed(s: string) returns (m: nat, n: nat)
    ensures s == EqualsSigns(m) + (TrimEquals(s) + EqualsSigns(n)) && IsBare(TrimEquals(s))
    decreases |s|
  {
    if s != [] && s[0] == '=' {
      m, n := SignsTrimmed(s[1..]);
      SignsInFront(m, TrimEquals(s[1..]) + EqualsSigns(n));
      assert s == "=" + s[1..];
      m := m + 1;
    } else if s != [] && s[|s| - 1] == '=' {
      m, n := SignsTrimmed(s[..|s| - 1]);
      var rest := TrimEquals(s[..|s| - 1]);
      MoreSignsBehind(m, rest, n, s);
      n := n + 1;
    } else {
      m, n := 0, 0;
      assert s == EqualsSigns(0) + (s + EqualsSigns(0));
    }
  }

  lemma MoreSignsBehind(m: nat, rest: string, n: nat, s: string)
    requires s != [] && s[|s| - 1] == '='
    requires s[..|s| - 1] == EqualsSigns(m) + (rest + EqualsSigns(n))
    ensures s == EqualsSigns(m) + (rest + EqualsSigns(n + 1))
  {
    Unsnoc(s, s[..|s| - 1], '=');
    assert EqualsSigns(n + 1) == EqualsSigns(n) + "=";
    ConcatAssociative(rest, EqualsSigns(n), "=");
    ConcatAssociative(EqualsSigns(m), rest + EqualsSigns(n), "=");
  }

  /** The line reads, between its outer spaces: m equals signs, the name with space around it, and n
      equals signs. */
  ghost predicate Reads(line: string, m: nat, name: string, n: nat) {
    exists mid :: Trim(line) == EqualsSigns(m) + (mid + EqualsSigns(n)) && Trim(mid) == name
  }

  lemma NamesAreBare(name: string)
    requires name in TRAILING_SECTIONS
    ensures name != [] && IsBare(name)
  {
  }

  lemma BareAround(mid: string)
    requires Trim(mid) != [] && IsBare(Trim(mid))
    ensures mid != [] && IsBare(mid)
  {
    var a, b := TrimSplits(mid);
    var name := Trim(mid);
    assert name[0] == mid[a] && name[|name| - 1] == mid[b - 1];
    assert a > 0 ==> mid[0] == mid[..a][0];
    assert b < |mid| ==> mid[|mid| - 1] == mid[b..][|mid| - 1 - b];
  }

  lemma ReadsIsHeading(line: string, m: nat, name: string, n: nat)
    requires m >= 2 && name in TRAILING_SECTIONS && Reads(line, m, name, n)
    ensures IsHeading(line)
  {
    var mid :| Trim(line) == EqualsSigns(m) + (mid + EqualsSigns(n)) && Trim(mid) == name;
    NamesAreBare(name);
    BareAround(mid);
    TrimsSigns(m, mid, n);
    StartsWithTwo(Trim(line), m, mid + EqualsSigns(n));
  }

  lemma StartsWithTwo(s: string, m: nat, rest: string)
    requires m >= 2 && s == EqualsSigns(m) + rest
    ensures "==" <= s
  {
    assert s[0] == '=' && s[1] == '=';
  }

  lemma TwoInFront(s: string, m: nat, rest: string)
    requires "==" <= s && s == EqualsSigns(m) + rest && rest != [] && rest[0] != '='
    ensures m >= 2
  {
    assert s[0] == "=="[0] && s[1] == "=="[1];
    assert s[m] == rest[0];
  }

  /** A line is cut at exactly when it reads two or more equals signs, one of the section names with
      space around it if any, and any number of equals signs. */
  lemma HeadingIff(line: string)
    ensures IsHeading(line) <==>
      exists m: nat, name, n: nat :: m >= 2 && name in TRAILING_SECTIONS && Reads(line, m, name, n)
  {
    if IsHeading(line) {
      var t := Trim(line);
      var mid := TrimEquals(t);
      var name := Trim(mid);
      NamesAreBare(name);
      var m, n := SignsTrimmed(t);
      NonemptyTrim(mid);
      TwoInFront(t, m, mid + EqualsSigns(n));
      assert Reads(line, m, name, n);
    }
    if m: nat, name, n: nat :| m >= 2 && name in TRAILING_SECTIONS && Reads(line, m, name, n) {
      ReadsIsHeading(line, m, name, n);
    }
  }

  lemma NonemptyTrim(mid: string)
    requires Trim(mid) != []
    ensures mid != []
  {
    var a, b := TrimSplits(mid);
  }

  // ---- Where the text ends ----

  lemma {:induction false} CutByThen(text: string, heading: string -> bool, i: nat, k: nat)
    requires i <= k < |text| && (k == 0 || text[k - 1] == '\n') && heading(text[k..LineEnd(text, k)])
    ensures BodyEnd(text, heading, i) <= k
    decreases k - i
  {
    if i < k {
      assert LineEnd(text, i) <= k;
      CutByThen(text, heading, LineEnd(text, i), k);
    }
  }

  /** Nothing from such a line on is kept. */
  lemma HeadingIsCut(text: string, k: nat)
    requires k < |text| && (k == 0 || text[k - 1] == '\n') && IsHeading(text[k..LineEnd(text, k)])
    ensures |StripSections(text, IsHeading)| <= k && StripSections(text, IsHeading) <= text[..k]
  {
    CutByThen(text, IsHeading, 0, k);
    var n := BodyEnd(text, IsHeading, 0);
    TrimEndOfPrefix(text, n);
  }

  /** A text without such a line only loses the space at its end. */
  lemma NothingElseIsCut(text: string)
    requires NoneIs(Lines(text), IsHeading)
    ensures StripSections(text, IsHeading) == TrimEnd(text)
  {
    NoHeadingIff(text, IsHeading, 0);
    assert text[..|text|] == text;
  }
}
