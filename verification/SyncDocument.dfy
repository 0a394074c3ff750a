/** The versioned sync document of each user (src/db.rs): compare-and-increment writes, run
    alone and with their read and their update interleaved with other writers. */
module SyncDocument {
  import opened Text

  type Json = string

  datatype Namespace = AppState | Playlists | ProviderConfiguration | Settings

  datatype Document = Document(
    version: int, updatedAt: int,
    appState: Json, playlists: Json, providerConfiguration: Json, settings: Json)
  {
    function Get(ns: Namespace): Json {
      match ns
      case AppState => appState
      case Playlists => playlists
      case ProviderConfiguration => providerConfiguration
      case Settings => settings
    }
  }

  function Fresh(now: int): Document {
    Document(0, now, "{}", "[]", "{}", "{}")
  }

  /** One namespace (update_namespace) or all four (replace_snapshot). */
  datatype Write =
    | One(ns: Namespace, data: Json)
    | All(appState: Json, playlists: Json, providerConfiguration: Json, settings: Json)

  datatype Request = Request(user: int, expected: Option<int>, write: Write)

  type Documents = map<int, Document>

  function Written(doc: Document, write: Write, version: int, now: int): Document {
    var stamped := doc.(version := version, updatedAt := now);
    match write
    case One(AppState, data) => stamped.(appState := data)
    case One(Playlists, data) => stamped.(playlists := data)
    case One(ProviderConfiguration, data) => stamped.(providerConfiguration := data)
    case One(Settings, data) => stamped.(settings := data)
    case All(a, p, c, s) =>
      stamped.(appState := a, playlists := p, providerConfiguration := c, settings := s)
  }

  function Ensured(docs: Documents, user: int, now: int): Documents {
    if user in docs then docs else docs[user := Fresh(now)]
  }

  // ---- The atomic document ----

  datatype Reply = Accepted(version: int) | Conflict(current: int)

  predicate Admits(doc: Document, expected: Option<int>) {
    expected.Some? ==> expected.value == doc.version
  }

  /** What one write does when nothing comes between its read and its update. */
  function AtomicPut(docs: Documents, req: Request, now: int): (Documents, Reply)
    requires req.user in docs
  {
    var doc := docs[req.user];
    if !Admits(doc, req.expected) then (docs, Conflict(doc.version))
    else
      (docs[req.user := Written(doc, req.write, doc.version + 1, now)], Accepted(doc.version + 1))
  }

  class SyncStore {
    var docs: Documents

    constructor ()
      ensures docs == map[]
    {
      docs := map[];
    }

    method EnsureUserDocument(user: int, now: int)
      modifies this
      ensures docs == Ensured(old(docs), user, now)
    {
      if user !in docs {
        docs := docs[user := Document(0, now, "{}", "[]", "{}", "{}")];
      }
    }

    method UpdateNamespace(user: int, expected: Option<int>, ns: Namespace, data: Json, now: int)
      returns (reply: Reply)
      modifies this
      ensures (docs, reply)
        == AtomicPut(Ensured(old(docs), user, now), Request(user, expected, One(ns, data)), now)
      ensures forall u :: u in old(docs) && u != user ==> u in docs && docs[u] == old(docs)[u]
    {
      EnsureUserDocument(user, now);
      var current := docs[user].version;
      if expected.Some? && expected.value != current {
        return Conflict(current);
      }
      var doc := docs[user].(version := current + 1, updatedAt := now);
      match ns {
        case AppState => doc := doc.(appState := data);
        case Playlists => doc := doc.(playlists := data);
        case ProviderConfiguration => doc := doc.(providerConfiguration := data);
        case Settings => doc := doc.(settings := data);
      }
      docs := docs[user := doc];
      reply := Accepted(current + 1);
    }

    method ReplaceSnapshot(user: int, expected: Option<int>, appState: Json, playlists: Json,
                           providerConfiguration: Json, settings: Json, now: int)
      returns (reply: Reply)
      modifies this
      ensures (docs, reply)
        == AtomicPut(Ensured(old(docs), user, now),
                     Request(user, expected, All(appState, playlists, providerConfiguration, settings)),
                     now)
      ensures forall u :: u in old(docs) && u != user ==> u in docs && docs[u] == old(docs)[u]
    {
      EnsureUserDocument(user, now);
      var current := docs[user].version;
      if expected.Some? && expected.value != current {
        return Conflict(current);
      }
      docs := docs[user := Document(current + 1, now, appState, playlists, providerConfiguration,
                                    settings)];
      reply := Accepted(current + 1);
    }
  }

  // ---- Interleaved writers ----

  /** A writer before its document is ensured, before its read, or holding the version it read. */
  datatype Phase = Starting | Reading | Holding(read: int)

  datatype Writer = Writer(req: Request, phase: Phase)

  /** The documents, the writers under way, and the writes committed so far, in order. */
  datatype System = System(docs: Documents, writers: map<int, Writer>, log: seq<Request>)

  datatype Event =
    | Begin(w: int, req: Request)
    | Ensure(w: int, now: int)
    | Read(w: int)
    | Commit(w: int, now: int)
    | Abort(w: int)

  predicate Enabled(s: System, e: Event) {
    match e
    case Begin(w, _) => w !in s.writers
    case Ensure(w, _) => w in s.writers && s.writers[w].phase == Starting
    case Read(w) =>
      w in s.writers && s.writers[w].phase == Reading && s.writers[w].req.user in s.docs
    case Commit(w, _) =>
      w in s.writers && s.writers[w].phase.Holding? && s.writers[w].req.user in s.docs
    case Abort(w) => w in s.writers
  }

  function Apply(s: System, e: Event): System
    requires Enabled(s, e)
  {
    match e
    case Begin(w, req) => s.(writers := s.writers[w := Writer(req, Starting)])
    case Ensure(w, now) =>
      var req := s.writers[w].req;
      s.(docs := Ensured(s.docs, req.user, now), writers := s.writers[w := Writer(req, Reading)])
    case Read(w) =>
      var req := s.writers[w].req;
      var doc := s.docs[req.user];
      if Admits(doc, req.expected)
      then s.(writers := s.writers[w := Writer(req, Holding(doc.version))])
      else s.(writers := s.writers - {w})
    case Commit(w, now) =>
      var Writer(req, phase) := s.writers[w];
      var doc := Written(s.docs[req.user], req.write, phase.read + 1, now);
      System(s.docs[req.user := doc], s.writers - {w}, s.log + [req])
    case Abort(w) => s.(writers := s.writers - {w})
  }

  /** Nobody else is between the read and the update of the same user's document. */
  ghost predicate Alone(s: System, w: int)
    requires w in s.writers
  {
    forall v :: v in s.writers && v != w && s.writers[v].req.user == s.writers[w].req.user ==>
      !s.writers[v].phase.Holding?
  }

  /** A read now goes on to an update; a rejected one has none to overlap with. */
  predicate IsAdmitted(s: System, w: int)
    requires w in s.writers && s.writers[w].req.user in s.docs
  {
    Admits(s.docs[s.writers[w].req.user], s.writers[w].req.expected)
  }

  ghost predicate StepAt(ss: seq<System>, es: seq<Event>, i: nat)
    requires |ss| == |es| + 1 && i < |es|
  {
    Enabled(ss[i], es[i]) && ss[i + 1] == Apply(ss[i], es[i])
  }

  ghost predicate IsRun(ss: seq<System>, es: seq<Event>) {
    && |ss| == |es| + 1 && ss[0] == System(map[], map[], [])
    && forall i | 0 <= i < |es| :: StepAt(ss, es, i)
  }

  /** No two writers of one user overlap between their read and their update. */
  ghost predicate NoOverlap(ss: seq<System>, es: seq<Event>)
    requires IsRun(ss, es)
  {
    forall i | 0 <= i < |es| :: ReadsAlone(ss, es, i)
  }

  ghost predicate ReadsAlone(ss: seq<System>, es: seq<Event>, i: nat)
    requires IsRun(ss, es) && i < |es|
  {
    assert StepAt(ss, es, i);
    es[i].Read? && IsAdmitted(ss[i], es[i].w) ==> Alone(ss[i], es[i].w)
  }

  /** A writer that holds a version was admitted against it. */
  ghost predicate AdmittedAtRead(s: System) {
    forall w :: w in s.writers && s.writers[w].phase.Holding? ==>
      && s.writers[w].req.user in s.docs
      && (s.writers[w].req.expected.Some? ==>
          s.writers[w].req.expected.value == s.writers[w].phase.read)
  }

  lemma {:induction false} RunAdmits(ss: seq<System>, es: seq<Event>, i: nat)
    requires IsRun(ss, es) && i < |ss|
    ensures AdmittedAtRead(ss[i])
  {
    if i > 0 {
      RunAdmits(ss, es, i - 1);
      assert StepAt(ss, es, i - 1);
    }
  }

  /** In every run, overlapping or not, an update is the atomic write with the version its writer
      reports exactly when the document still has the version that writer read, which is what a
      row lock would ensure. */
  lemma CommitIsAtomicIff(ss: seq<System>, es: seq<Event>, i: nat)
    requires IsRun(ss, es) && i < |es| && es[i].Commit?
    ensures Enabled(ss[i], es[i])
    ensures var Writer(req, phase) := ss[i].writers[es[i].w];
      AtomicPut(ss[i].docs, req, es[i].now) == (ss[i + 1].docs, Accepted(phase.read + 1))
      <==> ss[i].docs[req.user].version == phase.read
  {
    assert StepAt(ss, es, i);
    RunAdmits(ss, es, i);
  }

  // ---- Without overlap, every run is a run of the atomic document ----

  ghost predicate Held(s: System, w: int)
    requires w in s.writers
  {
    var Writer(req, phase) := s.writers[w];
    && (phase != Starting ==> req.user in s.docs)
    && (phase.Holding? ==>
        && s.docs[req.user].version == phase.read
        && Admits(s.docs[req.user], req.expected)
        && Alone(s, w))
  }

  ghost predicate Inv(s: System) {
    forall w :: w in s.writers ==> Held(s, w)
  }

  lemma StepKeeps(s: System, e: Event)
    requires Inv(s) && Enabled(s, e) && (e.Read? && IsAdmitted(s, e.w) ==> Alone(s, e.w))
    ensures Inv(Apply(s, e))
  {
    var s' := Apply(s, e);
    forall w | w in s'.writers
      ensures Held(s', w)
    {
      if w != e.w {
        assert Held(s, w);
        if s.writers[w].phase.Holding? && e.Commit? {
          assert s.writers[e.w].req.user != s.writers[w].req.user;
        }
        if s.writers[w].phase.Holding? && e.Read? && IsAdmitted(s, e.w) {
          assert s.writers[e.w].req.user != s.writers[w].req.user;
        }
      } else {
        assert e.Begin? || Held(s, w);
      }
    }
  }

  lemma {:induction false} RunKeeps(ss: seq<System>, es: seq<Event>, i: nat)
    requires IsRun(ss, es) && NoOverlap(ss, es) && i < |ss|
    ensures Inv(ss[i])
  {
    if i > 0 {
      RunKeeps(ss, es, i - 1);
      assert StepAt(ss, es, i - 1) && ReadsAlone(ss, es, i - 1);
      StepKeeps(ss[i - 1], es[i - 1]);
    }
  }

  /** Every step of such a run either leaves the documents alone, creates one, or is one atomic
      write; a writer is rejected exactly when the atomic document would reject it. */
  lemma RefinesAtomic(ss: seq<System>, es: seq<Event>, i: nat)
    requires IsRun(ss, es) && NoOverlap(ss, es) && i < |es|
    ensures Enabled(ss[i], es[i])
    ensures es[i].Commit? ==>
      var Writer(req, phase) := ss[i].writers[es[i].w];
      AtomicPut(ss[i].docs, req, es[i].now) == (ss[i + 1].docs, Accepted(phase.read + 1))
    ensures es[i].Read? ==>
      var req := ss[i].writers[es[i].w].req;
      && ss[i + 1].docs == ss[i].docs
      && (es[i].w !in ss[i + 1].writers <==> AtomicPut(ss[i].docs, req, 0).1.Conflict?)
    ensures es[i].Ensure? ==>
      ss[i + 1].docs == Ensured(ss[i].docs, ss[i].writers[es[i].w].req.user, es[i].now)
    ensures es[i].Begin? || es[i].Abort? ==> ss[i + 1].docs == ss[i].docs
  {
    assert StepAt(ss, es, i);
    RunKeeps(ss, es, i);
    if es[i].Commit? {
      assert Held(ss[i], es[i].w);
    }
  }

  // ---- What the documents hold ----

  /** The committed writes of one user, in order. */
  function WritesOf(log: seq<Request>, user: int): seq<Request> {
    if log == [] then []
    else WritesOf(log[..|log| - 1], user)
         + (if log[|log| - 1].user == user then [log[|log| - 1]] else [])
  }

  predicate Touches(write: Write, ns: Namespace) {
    write.All? || write.ns == ns
  }

  function DataFor(write: Write, ns: Namespace): Json
    requires Touches(write, ns)
  {
    match write
    case One(_, data) => data
    case All(a, p, c, s) =>
      match ns case AppState => a case Playlists => p case ProviderConfiguration => c case Settings => s
  }

  /** The data of the last write that touched the namespace. */
  function LastData(writes: seq<Request>, ns: Namespace): Json {
    if writes == [] then Fresh(0).Get(ns)
    else
      var last := writes[|writes| - 1].write;
      if Touches(last, ns) then DataFor(last, ns) else LastData(writes[..|writes| - 1], ns)
  }

  /** A document reflects the writes committed to it: its version counts them, every namespace
      holds the data last written to it, and a write that named a version named the one it
      found. */
  ghost predicate Reflects(doc: Document, writes: seq<Request>) {
    && doc.version == |writes|
    && (forall ns: Namespace :: doc.Get(ns) == LastData(writes, ns))
    && (forall k | 0 <= k < |writes| :: writes[k].expected.Some? ==> writes[k].expected.value == k)
  }

  ghost predicate DocsReflect(s: System) {
    && (forall u :: u in s.docs ==> Reflects(s.docs[u], WritesOf(s.log, u)))
    && (forall u: int :: u !in s.docs ==> WritesOf(s.log, u) == [])
  }

  lemma WrittenReflects(doc: Document, writes: seq<Request>, req: Request, now: int)
    requires Reflects(doc, writes) && Admits(doc, req.expected)
    ensures Reflects(Written(doc, req.write, doc.version + 1, now), writes + [req])
  {
    var doc', writes' := Written(doc, req.write, doc.version + 1, now), writes + [req];
    assert writes'[..|writes|] == writes;
    forall ns: Namespace
      ensures doc'.Get(ns) == LastData(writes', ns)
    {
      assert Touches(req.write, ns) ==> doc'.Get(ns) == DataFor(req.write, ns);
      assert !Touches(req.write, ns) ==> doc'.Get(ns) == doc.Get(ns);
    }
  }

  lemma CommitReflects(s: System, e: Event)
    requires Inv(s) && DocsReflect(s) && e.Commit? && Enabled(s, e)
    ensures DocsReflect(Apply(s, e))
  {
    var s', req := Apply(s, e), s.writers[e.w].req;
    assert Held(s, e.w);
    assert s'.log[..|s.log|] == s.log;
    WrittenReflects(s.docs[req.user], WritesOf(s.log, req.user), req, e.now);
    forall u: int | u != req.user
      ensures WritesOf(s'.log, u) == WritesOf(s.log, u)
    {
      EmptyConcat(WritesOf(s.log, u));
    }
  }

  lemma {:induction false} RunReflects(ss: seq<System>, es: seq<Event>, i: nat)
    requires IsRun(ss, es) && NoOverlap(ss, es) && i < |ss|
    ensures DocsReflect(ss[i])
  {
    if i > 0 {
      RunReflects(ss, es, i - 1);
      RunKeeps(ss, es, i - 1);
      assert StepAt(ss, es, i - 1);
      if es[i - 1].Commit? {
        CommitReflects(ss[i - 1], es[i - 1]);
      }
    }
  }

  /** In every state of a run without overlap, a user's version is the number of writes accepted
      for that user, each namespace holds its last accepted data, and no two accepted writes
      named the same version. */
  lemma DocumentsAreConsistent(ss: seq<System>, es: seq<Event>, i: nat, user: int)
    requires IsRun(ss, es) && NoOverlap(ss, es) && i < |ss| && user in ss[i].docs
    ensures var writes := WritesOf(ss[i].log, user);
      && Reflects(ss[i].docs[user], writes)
      && forall j, k | 0 <= j < k < |writes| && writes[j].expected.Some? ::
           writes[k].expected != writes[j].expected
  {
    RunReflects(ss, es, i);
  }

  // ---- Times, first contents and rejections ----

  /** A document that nobody wrote yet is at version 0 and empty. */
  lemma NewDocumentIs(docs: Documents, user: int, now: int)
    requires user !in docs
    ensures Ensured(docs, user, now) == docs[user := Document(0, now, "{}", "[]", "{}", "{}")]
  {
  }

  /** The answer names the version found when that is not the one expected, and the next one
      otherwise; a rejected write changes nothing. */
  lemma AnswerNames(docs: Documents, req: Request, now: int)
    requires req.user in docs
    ensures var version := docs[req.user].version;
      var (docs', reply) := AtomicPut(docs, req, now);
      if req.expected.Some? && req.expected.value != version then
        reply == Conflict(version) && docs' == docs
      else
        && reply == Accepted(version + 1) && docs'.Keys == docs.Keys
        && docs'[req.user].version == version + 1 && docs'[req.user].updatedAt == now
        && forall u | u in docs && u != req.user :: docs'[u] == docs[u]
  {
  }

  /** In any run, a read turns its writer away exactly when the writer named a version and the
      document is at another. */
  lemma RejectedIff(ss: seq<System>, es: seq<Event>, i: nat)
    requires IsRun(ss, es) && i < |es| && es[i].Read?
    ensures Enabled(ss[i], es[i])
    ensures var w, req := es[i].w, ss[i].writers[es[i].w].req;
      && (w !in ss[i + 1].writers <==>
          req.expected.Some? && req.expected.value != ss[i].docs[req.user].version)
      && (w in ss[i + 1].writers ==>
          ss[i + 1].writers[w] == Writer(req, Holding(ss[i].docs[req.user].version)))
  {
    assert StepAt(ss, es, i);
  }

  ghost predicate CommitsTo(ss: seq<System>, es: seq<Event>, k: nat, user: int)
    requires IsRun(ss, es) && k < |es|
  {
    es[k].Commit? && es[k].w in ss[k].writers && ss[k].writers[es[k].w].req.user == user
  }

  /** In any run, between two writes to a document nothing of it changes. */
  lemma {:induction false} DocumentStays(ss: seq<System>, es: seq<Event>, i: nat, j: nat, user: int)
    requires IsRun(ss, es) && i <= j < |ss| && user in ss[i].docs
    requires forall k: nat | i <= k < j :: !CommitsTo(ss, es, k, user)
    ensures user in ss[j].docs && ss[j].docs[user] == ss[i].docs[user]
  {
    if i < j {
      DocumentStays(ss, es, i, j - 1, user);
      assert StepAt(ss, es, j - 1);
      assert !CommitsTo(ss, es, j - 1, user);
    }
  }

  /** In any run, a document carries the time of its last write, the version after the one that
      write read, and in every namespace the write touched its data. */
  lemma LastWriteShows(ss: seq<System>, es: seq<Event>, k: nat, j: nat, user: int)
    requires IsRun(ss, es) && k < j < |ss| && k < |es| && CommitsTo(ss, es, k, user)
    requires forall m: nat | k < m < j :: !CommitsTo(ss, es, m, user)
    ensures user in ss[j].docs && ss[j].docs[user].updatedAt == es[k].now
    ensures var Writer(req, phase) := ss[k].writers[es[k].w];
      && phase.Holding? && ss[j].docs[user].version == phase.read + 1
      && (req.write.All? ==>
          && ss[j].docs[user].appState == req.write.appState
          && ss[j].docs[user].playlists == req.write.playlists
          && ss[j].docs[user].providerConfiguration == req.write.providerConfiguration
          && ss[j].docs[user].settings == req.write.settings)
      && (req.write.One? ==>
          && user in ss[k].docs && ss[j].docs[user].Get(req.write.ns) == req.write.data
          && forall ns: Namespace | ns != req.write.ns ::
            ss[j].docs[user].Get(ns) == ss[k].docs[user].Get(ns))
  {
    assert StepAt(ss, es, k);
    DocumentStays(ss, es, k + 1, j, user);
  }

  lemma ExtendRun(ss: seq<System>, es: seq<Event>, e: Event)
    requires IsRun(ss, es) && Enabled(ss[|es|], e)
    ensures IsRun(ss + [Apply(ss[|es|], e)], es + [e])
  {
    var ss', es' := ss + [Apply(ss[|es|], e)], es + [e];
    forall i | 0 <= i < |es'|
      ensures StepAt(ss', es', i)
    {
      assert i < |es| ==> StepAt(ss, es, i);
    }
  }

  /** Both writers have read version 0. */
  lemma BothHoldZero(r1: Request, r2: Request, now: int) returns (ss: seq<System>, es: seq<Event>)
    requires r1.user == r2.user == 7 && r1.expected == r2.expected == Some(0)
    ensures IsRun(ss, es)
    ensures ss[|es|] == System(map[7 := Fresh(now)],
                               map[1 := Writer(r1, Holding(0)), 2 := Writer(r2, Holding(0))], [])
  {
    ss, es := [System(map[], map[], [])], [];
    var steps := [Begin(1, r1), Begin(2, r2), Ensure(1, now), Ensure(2, now), Read(1), Read(2)];
    ExtendRun(ss, es, steps[0]);
    ss, es := ss + [Apply(ss[|es|], steps[0])], es + [steps[0]];
    ExtendRun(ss, es, steps[1]);
    ss, es := ss + [Apply(ss[|es|], steps[1])], es + [steps[1]];
    assert ss[|es|] == System(map[], map[1 := Writer(r1, Starting), 2 := Writer(r2, Starting)], []);
    ExtendRun(ss, es, steps[2]);
    ss, es := ss + [Apply(ss[|es|], steps[2])], es + [steps[2]];
    ExtendRun(ss, es, steps[3]);
    ss, es := ss + [Apply(ss[|es|], steps[3])], es + [steps[3]];
    assert ss[|es|] == System(map[7 := Fresh(now)],
                              map[1 := Writer(r1, Reading), 2 := Writer(r2, Reading)], []);
    ExtendRun(ss, es, steps[4]);
    ss, es := ss + [Apply(ss[|es|], steps[4])], es + [steps[4]];
    ExtendRun(ss, es, steps[5]);
    ss, es := ss + [Apply(ss[|es|], steps[5])], es + [steps[5]];
  }

  /** With overlap it fails: two writers that both named version 0 are both accepted, the
      version counts one of them, and the first one's data is gone. */
  lemma OverlapLosesAnUpdate(first: Json, second: Json, now: int)
    returns (ss: seq<System>, es: seq<Event>)
    ensures IsRun(ss, es) && 7 in ss[|es|].docs
    ensures ss[|es|].log == [Request(7, Some(0), One(Settings, first)),
                             Request(7, Some(0), One(Settings, second))]
    ensures ss[|es|].docs[7].version == 1 && ss[|es|].docs[7].settings == second
  {
    var r1, r2 := Request(7, Some(0), One(Settings, first)), Request(7, Some(0), One(Settings, second));
    ss, es := BothHoldZero(r1, r2, now);
    ExtendRun(ss, es, Commit(1, now));
    ss, es := ss + [Apply(ss[|es|], Commit(1, now))], es + [Commit(1, now)];
    ExtendRun(ss, es, Commit(2, now));
    ss, es := ss + [Apply(ss[|es|], Commit(2, now))], es + [Commit(2, now)];
  }
}
