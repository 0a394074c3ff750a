/** The daily quota of automatically queued jobs (src/passages/api.rs and src/passages/jobs.rs).
    A lookup counts its user's jobs and inserts one in separate statements, so lookups of one
    user can pass each other between the two. */
module Quota {
  import opened Text
  import opened JobTable
  import opened IngestQueue

  const AUTO_DAILY_LIMIT: int := 200
  const DAY: int := 24 * 60 * MINUTE

  predicate Counted(row: Row, user: int, t: int) {
    row.auto && row.requestedBy == Some(user) && t - DAY < row.createdAt <= t
  }

  /** The jobs queued automatically for a user in the day that ends at `t`. */
  function AutoJobs(rows: Rows, user: int, t: int): set<int> {
    set id | id in rows && Counted(rows[id], user, t)
  }

  /** They are the rows with the flag and the user that were created in those 24 hours. */
  lemma AutoJobsAre(rows: Rows, user: int, t: int, id: int)
    ensures id in AutoJobs(rows, user, t) <==>
      && id in rows && rows[id].auto && rows[id].requestedBy == Some(user)
      && 0 <= t - rows[id].createdAt < 24 * 60 * 60 * 1_000_000
  {
  }

  /** The queue, and the user of every lookup that found room in the quota and has yet to insert
      its job. */
  datatype Site = Site(queue: System, asking: map<int, int>)

  datatype Step =
    | Ask(lookup: int, user: int)
    | Answer(lookup: int, track: Track)
    | Abandon(lookup: int)
    | Other(event: Event)

  ghost predicate Allowed(s: Site, e: Step) {
    match e
    case Ask(l, user) =>
      l !in s.asking && |AutoJobs(s.queue.table.rows, user, s.queue.now)| < AUTO_DAILY_LIMIT
    case Answer(l, _) => l in s.asking
    case Abandon(l) => l in s.asking
    case Other(event) => Enabled(s.queue, event) && !(event.Insert? && event.auto)
  }

  /** The next state, where a track is queued under the key that `keyOf` gives it. */
  ghost function Next(keyOf: Track -> Key, s: Site, e: Step): Site
    requires Allowed(s, e)
  {
    match e
    case Ask(l, user) => s.(asking := s.asking[l := user])
    case Answer(l, track) =>
      Site(Apply(s.queue, Insert(track, keyOf(track), Some(s.asking[l]), true)), s.asking - {l})
    case Abandon(l) => s.(asking := s.asking - {l})
    case Other(event) => s.(queue := Apply(s.queue, event))
  }

  function Asking(s: Site, user: int): set<int> {
    set l | l in s.asking && s.asking[l] == user
  }

  ghost predicate StepAt(keyOf: Track -> Key, ss: seq<Site>, es: seq<Step>, i: nat)
    requires |ss| == |es| + 1 && i < |es|
  {
    Allowed(ss[i], es[i]) && ss[i + 1] == Next(keyOf, ss[i], es[i])
  }

  ghost predicate FewAsk(ss: seq<Site>, user: int, k: nat, i: nat)
    requires i < |ss|
  {
    |Asking(ss[i], user)| <= k
  }

  /** A run in which at most k lookups of the user overlap. */
  ghost predicate IsQuotaRun(keyOf: Track -> Key, ss: seq<Site>, es: seq<Step>, user: int, k: nat) {
    && |ss| == |es| + 1 && Initial(ss[0].queue) && ss[0].asking == map[]
    && (forall i: nat | i < |es| :: StepAt(keyOf, ss, es, i))
    && forall i: nat | i < |ss| :: FewAsk(ss, user, k, i)
  }

  // ---- The bound ----

  /** What the count of the day that ends at `t` is kept under: a day that is still open leaves
      room for the jobs that the lookups underway will insert. */
  ghost predicate Within(s: Site, user: int, k: nat, t: int) {
    |AutoJobs(s.queue.table.rows, user, t)| + (if t >= s.queue.now then |Asking(s, user)| else 0)
      < AUTO_DAILY_LIMIT + k
  }

  ghost predicate Dated(s: System) {
    forall id | id in s.table.rows ::
      id < s.table.nextId && s.table.rows[id].createdAt <= s.now
  }

  ghost predicate QuotaInv(s: Site, user: int, k: nat) {
    Dated(s.queue) && forall t :: Within(s, user, k, t)
  }

  /** No statement but an automatic insert changes what is counted. */
  ghost predicate CountsAlike(rows: Rows, rows': Rows) {
    && (forall id | id in rows :: id in rows' && SameCount(rows[id], rows'[id]))
    && forall id | id in rows' && id !in rows :: !rows'[id].auto
  }

  predicate SameCount(r: Row, r': Row) {
    r'.auto == r.auto && r'.requestedBy == r.requestedBy && r'.createdAt == r.createdAt
  }

  lemma AlikeCounts(rows: Rows, rows': Rows, user: int, t: int)
    requires CountsAlike(rows, rows')
    ensures AutoJobs(rows', user, t) == AutoJobs(rows, user, t)
  {
    forall id
      ensures id in AutoJobs(rows', user, t) <==> id in AutoJobs(rows, user, t)
    {
      if id in rows {
        assert SameCount(rows[id], rows'[id]);
      }
    }
  }

  lemma OthersCountAlike(s: System, e: Event)
    requires Enabled(s, e) && !(e.Insert? && e.auto) && Dated(s)
    ensures var s' := Apply(s, e);
      CountsAlike(s.table.rows, s'.table.rows) && s'.now >= s.now && Dated(s')
  {
  }

  lemma InsertCounts(s: System, track: Track, key: Key, user: int, t: int)
    requires Dated(s)
    ensures var s' := Apply(s, Insert(track, key, Some(user), true));
      && Dated(s')
      && (t < s.now ==> AutoJobs(s'.table.rows, user, t) == AutoJobs(s.table.rows, user, t))
      && |AutoJobs(s'.table.rows, user, t)| <= |AutoJobs(s.table.rows, user, t)| + 1
  {
    var rows' := InsertJob(s.table, track, key, Some(user), true, s.now).rows;
    var more := AutoJobs(s.table.rows, user, t) + {s.table.nextId};
    assert AutoJobs(rows', user, t) <= more;
    SubsetSize(AutoJobs(rows', user, t), more);
  }

  lemma InsertForOther(s: System, track: Track, key: Key, other: int, user: int, t: int)
    requires Dated(s) && other != user
    ensures var s' := Apply(s, Insert(track, key, Some(other), true));
      Dated(s') && AutoJobs(s'.table.rows, user, t) == AutoJobs(s.table.rows, user, t)
  {
  }

  lemma {:induction false} SubsetSize(a: set<int>, b: set<int>)
    requires a <= b
    ensures |a| <= |b|
  {
    assert b == a + (b - a);
  }

  lemma LaterWindow(s: System, user: int, t: int)
    requires Dated(s) && t >= s.now
    ensures |AutoJobs(s.table.rows, user, t)| <= |AutoJobs(s.table.rows, user, s.now)|
  {
    var rows := s.table.rows;
    forall id | id in AutoJobs(rows, user, t)
      ensures id in AutoJobs(rows, user, s.now)
    {
    }
    SubsetSize(AutoJobs(rows, user, t), AutoJobs(rows, user, s.now));
  }

  lemma NoLongerAsking(s: Site, user: int, l: int)
    requires l in s.asking
    ensures var left := Asking(s.(asking := s.asking - {l}), user);
      if s.asking[l] == user then |left| == |Asking(s, user)| - 1 else left == Asking(s, user)
  {
    var left := Asking(s.(asking := s.asking - {l}), user);
    assert left == if s.asking[l] == user then Asking(s, user) - {l} else Asking(s, user);
  }

  lemma AskKeeps(keyOf: Track -> Key, s: Site, l: int, asker: int, user: int, k: nat)
    requires QuotaInv(s, user, k) && Allowed(s, Ask(l, asker))
    requires |Asking(Next(keyOf, s, Ask(l, asker)), user)| <= k
    ensures QuotaInv(Next(keyOf, s, Ask(l, asker)), user, k)
  {
    var s' := Next(keyOf, s, Ask(l, asker));
    forall t
      ensures Within(s', user, k, t)
    {
      assert Within(s, user, k, t);
      if asker != user {
        assert Asking(s', user) == Asking(s, user);
      } else if t >= s.queue.now {
        LaterWindow(s.queue, user, t);
      }
    }
  }

  lemma AnswerKeeps(keyOf: Track -> Key, s: Site, l: int, track: Track, user: int, k: nat)
    requires QuotaInv(s, user, k) && l in s.asking
    ensures QuotaInv(Next(keyOf, s, Answer(l, track)), user, k)
  {
    var s' := Next(keyOf, s, Answer(l, track));
    NoLongerAsking(s, user, l);
    assert Asking(s', user) == Asking(s.(asking := s.asking - {l}), user);
    forall t
      ensures Within(s', user, k, t) && Dated(s'.queue)
    {
      assert Within(s, user, k, t);
      if s.asking[l] == user {
        InsertCounts(s.queue, track, keyOf(track), user, t);
      } else {
        InsertForOther(s.queue, track, keyOf(track), s.asking[l], user, t);
      }
    }
    assert Within(s', user, k, 0);
  }

  lemma AbandonKeeps(keyOf: Track -> Key, s: Site, l: int, user: int, k: nat)
    requires QuotaInv(s, user, k) && l in s.asking
    ensures QuotaInv(Next(keyOf, s, Abandon(l)), user, k)
  {
    NoLongerAsking(s, user, l);
    forall t
      ensures Within(Next(keyOf, s, Abandon(l)), user, k, t)
    {
      assert Within(s, user, k, t);
    }
  }

  lemma OtherKeeps(keyOf: Track -> Key, s: Site, event: Event, user: int, k: nat)
    requires QuotaInv(s, user, k) && Allowed(s, Other(event))
    ensures QuotaInv(Next(keyOf, s, Other(event)), user, k)
  {
    var s' := Next(keyOf, s, Other(event));
    OthersCountAlike(s.queue, event);
    assert Asking(s', user) == Asking(s, user);
    forall t
      ensures Within(s', user, k, t)
    {
      assert Within(s, user, k, t);
      AlikeCounts(s.queue.table.rows, s'.queue.table.rows, user, t);
    }
  }

  lemma {:induction false} QuotaRunKeeps(keyOf: Track -> Key, ss: seq<Site>, es: seq<Step>,
                                         user: int, k: nat, i: nat)
    requires IsQuotaRun(keyOf, ss, es, user, k) && i < |ss|
    ensures QuotaInv(ss[i], user, k)
  {
    if i == 0 {
      forall t
        ensures Within(ss[0], user, k, t)
      {
        assert AutoJobs(ss[0].queue.table.rows, user, t) == {} && Asking(ss[0], user) == {};
      }
    } else {
      QuotaRunKeeps(keyOf, ss, es, user, k, i - 1);
      assert StepAt(keyOf, ss, es, i - 1) && FewAsk(ss, user, k, i);
      match es[i - 1]
      case Ask(l, asker) => AskKeeps(keyOf, ss[i - 1], l, asker, user, k);
      case Answer(l, track) => AnswerKeeps(keyOf, ss[i - 1], l, track, user, k);
      case Abandon(l) => AbandonKeeps(keyOf, ss[i - 1], l, user, k);
      case Other(event) => OtherKeeps(keyOf, ss[i - 1], event, user, k);
    }
  }

  /** In every day-long window of every run, lookups queue fewer than the limit plus k jobs for a
      user at most k of whose lookups overlap: with one at a time, the limit holds. */
  lemma DailyQuota(keyOf: Track -> Key, ss: seq<Site>, es: seq<Step>, user: int, k: nat, i: nat,
                   t: int)
    requires IsQuotaRun(keyOf, ss, es, user, k) && i < |ss|
    ensures |AutoJobs(ss[i].queue.table.rows, user, t)| < 200 + k
    ensures k == 1 ==> |AutoJobs(ss[i].queue.table.rows, user, t)| <= 200
  {
    QuotaRunKeeps(keyOf, ss, es, user, k, i);
    assert Within(ss[i], user, k, t);
  }
}
