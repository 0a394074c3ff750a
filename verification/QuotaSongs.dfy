/** A series of songs whose lookups exceed the daily quota, under the keys that job_keys gives them
    (src/passages/jobs.rs). */
module QuotaSongs {
  import opened Text
  import opened MatchKeys
  import opened JobTable
  import opened Quota
  import opened QuotaReached

  /** The n-th of a series of songs: its title is n times the letter x. */
  function Song(artist: string, n: int): Track {
    Track(Repeated(n), artist, None)
  }

  function Repeated(n: int): (s: string)
    ensures n >= 0 ==> |s| == n
    ensures forall i | 0 <= i < |s| :: s[i] == 'x'
  {
    if n <= 0 then "" else "x" + Repeated(n - 1)
  }

  /** job_keys. */
  function RealKeys(u: Casing): Track -> Key {
    track => JobKeys(u, track)
  }

  lemma PlainTitle(u: Casing, s: string)
    requires s != [] && forall i | 0 <= i < |s| :: s[i] == 'x'
    ensures BaseTitle(u, s) == s
  {
    forall j | 0 <= j <= |s|
      ensures !OccursAt(" - ", s, j)
    {
      if OccursAt(" - ", s, j) {
        SpaceWithin(s, j);
        assert false;
      }
    }
    SeparatorFreeSplit(s, " - ");
    TrimmedIsFixed(s);
    StripGroupsStep(Qualified(u), s);
  }

  lemma SpaceWithin(s: string, j: int)
    requires OccursAt(" - ", s, j)
    ensures s[j] == ' '
  {
    assert s[j..j + 3][0] == s[j];
  }

  lemma PlainKey(u: Casing, s: string)
    requires s != [] && (forall i | 0 <= i < |s| :: s[i] == 'x') && u.lower(s) == s
    ensures MatchKey(u, s) == s
  {
    WordsOfJoin([s]);
    assert Join([s], " ") == s && Words(s) == [s];
    KeyOfKey(u, s);
  }

  lemma SongKey(u: Casing, artist: string, n: int)
    requires n > 0 && u.lower(Repeated(n)) == Repeated(n)
    ensures JobKeys(u, Song(artist, n)).0 == Repeated(n)
  {
    PlainTitle(u, Repeated(n));
    PlainKey(u, Repeated(n));
  }

  /** Where lower-casing leaves lower-case letters alone, the songs have different keys, and k
      overlapping lookups of them exceed the quota as far as the bound allows. */
  lemma OverlappingSongLookups(u: Casing, artist: string, user: int, k: nat)
    returns (ss: seq<Site>, es: seq<Step>)
    requires 0 < k
    requires forall n | n > 0 :: u.lower(Repeated(n)) == Repeated(n)
    ensures IsQuotaRun(RealKeys(u), ss, es, user, k)
    ensures |AutoJobs(ss[|es|].queue.table.rows, user, ss[|es|].queue.now)| == 199 + k
  {
    var q := Series(n => Song(artist, n), RealKeys(u));
    forall n: int
      ensures q.NewKey(n)
    {
      forall id | 1 <= id < n
        ensures q.KeyAt(id) != q.KeyAt(n)
      {
        SongKey(u, artist, id);
        SongKey(u, artist, n);
        assert |q.KeyAt(id).0| == id && |q.KeyAt(n).0| == n;
      }
    }
    ss, es := OverlappingLookupsExceed(q, user, k);
  }
}
