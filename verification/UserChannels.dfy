/** The per-user broadcast channels of the server (src/state.rs): subscribing, dropping a
    receiver, and sending in two separately locked halves, in every interleaving. */
module UserChannels {

  /** A live receiver: whose events it gets, the sender it is attached to, and what that sender
      offered it so far. */
  datatype Receiver<E> = Receiver(user: int, sender: int, offered: seq<E>)

  type Receivers<E> = map<int, Receiver<E>>

  datatype Channels<E> = Channels(
    senders: map<int, int>, receivers: Receivers<E>, nextSender: int, nextReceiver: int)

  predicate HasReceivers<E>(receivers: Receivers<E>, sender: int) {
    exists r :: r in receivers && receivers[r].sender == sender
  }

  // ---- The locked sections, as functions ----

  /** Under the write lock: the user's sender, created if there is none, gains a receiver. */
  function Subscribed<E>(c: Channels<E>, user: int): Channels<E> {
    var isNew := user !in c.senders;
    var sender := if isNew then c.nextSender else c.senders[user];
    Channels(c.senders[user := sender],
             c.receivers[c.nextReceiver := Receiver(user, sender, [])],
             if isNew then c.nextSender + 1 else c.nextSender,
             c.nextReceiver + 1)
  }

  function Dropped<E>(c: Channels<E>, r: int): Channels<E> {
    c.(receivers := c.receivers - {r})
  }

  function Offer<E>(receivers: Receivers<E>, sender: int, event: E): Receivers<E> {
    map r | r in receivers ::
      if receivers[r].sender == sender
      then receivers[r].(offered := receivers[r].offered + [event]) else receivers[r]
  }

  /** Under the read lock: the event goes to every receiver of the user's sender. */
  function Sent<E>(c: Channels<E>, user: int, event: E): Channels<E> {
    if user in c.senders then c.(receivers := Offer(c.receivers, c.senders[user], event)) else c
  }

  /** Whether the first half of a send asks for the second. */
  predicate IsStale<E>(c: Channels<E>, user: int) {
    user in c.senders && !HasReceivers(c.receivers, c.senders[user])
  }

  /** Under the write lock: the sender is removed if it still has no receiver. */
  function CleanedUp<E>(c: Channels<E>, user: int): Channels<E> {
    if IsStale(c, user) then c.(senders := c.senders - {user}) else c
  }

  // ---- The same sections on the shared map ----

  class UserMap<E(0)> {
    var senders: map<int, int>
    var receivers: Receivers<E>
    var nextSender: int
    var nextReceiver: int

    constructor ()
      ensures Value() == Channels(map[], map[], 0, 0)
    {
      senders, receivers, nextSender, nextReceiver := map[], map[], 0, 0;
    }

    ghost function Value(): Channels<E>
      reads this
    {
      Channels(senders, receivers, nextSender, nextReceiver)
    }

    method SubscribeUser(user: int) returns (receiver: int)
      modifies this
      ensures Value() == Subscribed(old(Value()), user) && receiver == old(nextReceiver)
    {
      if user !in senders {
        senders := senders[user := nextSender];
        nextSender := nextSender + 1;
      }
      receiver := nextReceiver;
      receivers := receivers[receiver := Receiver(user, senders[user], [])];
      nextReceiver := nextReceiver + 1;
    }

    /** A connection ends, and its receiver with it. */
    method DropReceiver(receiver: int)
      modifies this
      ensures Value() == Dropped(old(Value()), receiver)
    {
      receivers := receivers - {receiver};
    }

    method SendUnderReadLock(user: int, event: E) returns (shouldCleanUp: bool)
      modifies this`receivers
      ensures Value() == Sent(old(Value()), user, event)
      ensures shouldCleanUp <==> IsStale(Value(), user)
    {
      shouldCleanUp := false;
      if user in senders {
        receivers := Offer(receivers, senders[user], event);
        shouldCleanUp := !HasReceivers(receivers, senders[user]);
      }
    }

    method CleanUpUnderWriteLock(user: int)
      modifies this`senders
      ensures Value() == CleanedUp(old(Value()), user)
    {
      if user in senders && !HasReceivers(receivers, senders[user]) {
        senders := senders - {user};
      }
    }

    /** A send that nothing interrupts also leaves no sender without receivers behind. */
    method SendUserEvent(user: int, event: E)
      modifies this
      ensures Value() == CleanedUp(Sent(old(Value()), user, event), user)
      ensures !IsStale(Value(), user)
    {
      var shouldCleanUp := SendUnderReadLock(user, event);
      if shouldCleanUp {
        CleanUpUnderWriteLock(user);
      }
    }
  }

  // ---- Interleavings ----

  datatype Event<E> =
    | Subscribe(user: int)
    | Drop(receiver: int)
    | Send(user: int, event: E)
    | CleanUp(user: int)

  /** The map, and the users whose send is between its two locked halves. */
  datatype System<E> = System(channels: Channels<E>, between: multiset<int>)

  predicate Enabled<E>(s: System<E>, e: Event<E>) {
    match e
    case Drop(r) => r in s.channels.receivers
    case CleanUp(user) => user in s.between
    case _ => true
  }

  function Apply<E>(s: System<E>, e: Event<E>): System<E>
    requires Enabled(s, e)
  {
    match e
    case Subscribe(user) => s.(channels := Subscribed(s.channels, user))
    case Drop(r) => s.(channels := Dropped(s.channels, r))
    case Send(user, event) =>
      var c := Sent(s.channels, user, event);
      System(c, if IsStale(c, user) then s.between + multiset{user} else s.between)
    case CleanUp(user) => System(CleanedUp(s.channels, user), s.between - multiset{user})
  }

  ghost predicate IsRun<E>(ss: seq<System<E>>, es: seq<Event<E>>) {
    && |ss| == |es| + 1
    && ss[0] == System(Channels(map[], map[], 0, 0), multiset{})
    && forall i | 0 <= i < |es| :: StepAt(ss, es, i)
  }

  ghost predicate StepAt<E>(ss: seq<System<E>>, es: seq<Event<E>>, i: nat)
    requires |ss| == |es| + 1 && i < |es|
  {
    Enabled(ss[i], es[i]) && ss[i + 1] == Apply(ss[i], es[i])
  }

  /** Every live receiver of a user is attached to the sender in the map for that user. */
  ghost predicate Attached<E>(c: Channels<E>) {
    forall r :: r in c.receivers ==>
      c.receivers[r].user in c.senders && c.receivers[r].sender == c.senders[c.receivers[r].user]
  }

  /** Senders are not shared, and identifiers are not reused. */
  ghost predicate Separate<E>(c: Channels<E>) {
    && (forall u, v :: u in c.senders && v in c.senders && c.senders[u] == c.senders[v] ==> u == v)
    && (forall u :: u in c.senders ==> c.senders[u] < c.nextSender)
    && (forall r :: r in c.receivers ==> r < c.nextReceiver)
  }

  ghost predicate Inv<E>(s: System<E>) {
    Attached(s.channels) && Separate(s.channels)
  }

  lemma SubscribeKeeps<E>(c: Channels<E>, user: int)
    requires Attached(c) && Separate(c)
    ensures Attached(Subscribed(c, user)) && Separate(Subscribed(c, user))
  {
    var d := Subscribed(c, user);
    forall u, v | u in d.senders && v in d.senders && d.senders[u] == d.senders[v]
      ensures u == v
    {
      assert u != user ==> u in c.senders && d.senders[u] == c.senders[u] < c.nextSender;
      assert v != user ==> v in c.senders && d.senders[v] == c.senders[v] < c.nextSender;
    }
  }

  lemma CleanUpKeeps<E>(c: Channels<E>, user: int)
    requires Attached(c) && Separate(c)
    ensures Attached(CleanedUp(c, user)) && Separate(CleanedUp(c, user))
  {
    var d := CleanedUp(c, user);
    forall r | r in d.receivers
      ensures d.receivers[r].user in d.senders
      ensures d.receivers[r].sender == d.senders[d.receivers[r].user]
    {
      assert r in c.receivers && c.receivers[r].sender == c.senders[c.receivers[r].user];
    }
  }

  lemma {:induction false} RunKeeps<E>(ss: seq<System<E>>, es: seq<Event<E>>, i: nat)
    requires IsRun(ss, es) && i < |ss|
    ensures Inv(ss[i])
  {
    if i > 0 {
      RunKeeps(ss, es, i - 1);
      assert StepAt(ss, es, i - 1);
      var c := ss[i - 1].channels;
      match es[i - 1]
      case Subscribe(user) => SubscribeKeeps(c, user);
      case CleanUp(user) => CleanUpKeeps(c, user);
      case Drop(_) =>
      case Send(_, _) =>
    }
  }

  /** No interleaving orphans a live receiver: the sender it listens to is the one every later
      send to its user will find in the map. */
  lemma NoReceiverIsOrphaned<E>(ss: seq<System<E>>, es: seq<Event<E>>, i: nat, r: int)
    requires IsRun(ss, es) && i < |ss| && r in ss[i].channels.receivers
    ensures var c := ss[i].channels;
      && c.receivers[r].user in c.senders
      && c.receivers[r].sender == c.senders[c.receivers[r].user]
  {
    RunKeeps(ss, es, i);
  }

  /** The events sent to a user, in order. */
  function SentTo<E>(es: seq<Event<E>>, user: int): seq<E> {
    if es == [] then []
    else
      var last := es[|es| - 1];
      SentTo(es[..|es| - 1], user)
      + (if last.Send? && last.user == user then [last.event] else [])
  }

  lemma OfferedStep<E>(s: System<E>, e: Event<E>, r: int)
    requires Inv(s) && Enabled(s, e) && r in Apply(s, e).channels.receivers
    requires r < s.channels.nextReceiver
    ensures r in s.channels.receivers
    ensures var before, after := s.channels.receivers[r], Apply(s, e).channels.receivers[r];
      && after.user == before.user
      && after.offered == before.offered
           + (if e.Send? && e.user == before.user then [e.event] else [])
  {
    if e.Send? {
      assert s.channels.receivers[r].sender == s.channels.senders[s.channels.receivers[r].user];
    }
  }

  lemma SentToLast<E>(es: seq<Event<E>>, a: nat, b: nat, user: int)
    requires a <= b < |es|
    ensures SentTo(es[a..b + 1], user)
         == SentTo(es[a..b], user)
            + (if es[b].Send? && es[b].user == user then [es[b].event] else [])
  {
    assert es[a..b + 1][..b - a] == es[a..b];
  }

  lemma OfferedLast<E>(ss: seq<System<E>>, es: seq<Event<E>>, j: nat, r: int)
    requires IsRun(ss, es) && j < |es| && r < ss[j].channels.nextReceiver
    requires r in ss[j + 1].channels.receivers
    ensures r in ss[j].channels.receivers
    ensures var before, after := ss[j].channels.receivers[r], ss[j + 1].channels.receivers[r];
      && after.user == before.user
      && after.offered == before.offered
           + (if es[j].Send? && es[j].user == before.user then [es[j].event] else [])
  {
    RunKeeps(ss, es, j);
    assert StepAt(ss, es, j);
    OfferedStep(ss[j], es[j], r);
  }

  /** What the receiver that event k created has been offered before event j. */
  ghost predicate OfferedSince<E>(ss: seq<System<E>>, es: seq<Event<E>>, k: nat, j: nat)
    requires k < j < |ss| == |es| + 1 && es[k].Subscribe?
    requires ss[k].channels.nextReceiver in ss[j].channels.receivers
  {
    var receiver := ss[j].channels.receivers[ss[k].channels.nextReceiver];
    receiver.user == es[k].user && receiver.offered == SentTo(es[k + 1..j], es[k].user)
  }

  lemma OfferedFirst<E>(ss: seq<System<E>>, es: seq<Event<E>>, k: nat)
    requires IsRun(ss, es) && k < |es| && es[k].Subscribe?
    ensures ss[k].channels.nextReceiver in ss[k + 1].channels.receivers
    ensures OfferedSince(ss, es, k, k + 1)
  {
    assert StepAt(ss, es, k);
    assert es[k + 1..k + 1] == [];
  }

  lemma OfferedNext<E>(ss: seq<System<E>>, es: seq<Event<E>>, k: nat, j: nat)
    requires IsRun(ss, es) && k < j < |es| && es[k].Subscribe?
    requires ss[k].channels.nextReceiver in ss[j].channels.receivers
    requires ss[k].channels.nextReceiver in ss[j + 1].channels.receivers
    requires OfferedSince(ss, es, k, j)
    ensures OfferedSince(ss, es, k, j + 1)
  {
    ReceiverIdsGrow(ss, es, k, j);
    OfferedLast(ss, es, j, ss[k].channels.nextReceiver);
    SentToLast(es, k + 1, j, es[k].user);
  }

  lemma StillThere<E>(ss: seq<System<E>>, es: seq<Event<E>>, k: nat, j: nat)
    requires IsRun(ss, es) && k < j < |es| && es[k].Subscribe?
    requires ss[k].channels.nextReceiver in ss[j + 1].channels.receivers
    ensures ss[k].channels.nextReceiver in ss[j].channels.receivers
  {
    ReceiverIdsGrow(ss, es, k, j);
    OfferedLast(ss, es, j, ss[k].channels.nextReceiver);
  }

  /** A receiver is offered every event sent to its user since it subscribed, each once and in
      order, and no other, whatever sends, cleanups and drops are interleaved. */
  lemma {:induction false} OffersEverySend<E>(ss: seq<System<E>>, es: seq<Event<E>>, k: nat, j: nat)
    requires IsRun(ss, es) && k < j < |ss| && es[k].Subscribe?
    requires ss[k].channels.nextReceiver in ss[j].channels.receivers
    ensures OfferedSince(ss, es, k, j)
  {
    if j == k + 1 {
      OfferedFirst(ss, es, k);
    } else {
      StillThere(ss, es, k, j - 1);
      OffersEverySend(ss, es, k, j - 1);
      OfferedNext(ss, es, k, j - 1);
    }
  }

  lemma {:induction false} ReceiverIdsGrow<E>(ss: seq<System<E>>, es: seq<Event<E>>, k: nat, j: nat)
    requires IsRun(ss, es) && k < j < |ss| && es[k].Subscribe?
    ensures ss[k].channels.nextReceiver < ss[j].channels.nextReceiver
  {
    assert StepAt(ss, es, j - 1);
    if j > k + 1 {
      ReceiverIdsGrow(ss, es, k, j - 1);
    }
  }

  // ---- A receiver lives until it is dropped ----

  /** A drop removes the receiver it names, and no step removes another or changes whose it is. */
  lemma ReceiverStep<E>(s: System<E>, e: Event<E>, r: int)
    requires Inv(s) && Enabled(s, e) && r < s.channels.nextReceiver
    ensures r in Apply(s, e).channels.receivers <==> r in s.channels.receivers && e != Drop(r)
    ensures r in s.channels.receivers && e != Drop(r) ==>
      Apply(s, e).channels.receivers[r].user == s.channels.receivers[r].user
  {
  }

  /** A subscription adds one receiver of the user, with nothing offered yet, and removes none. */
  lemma SubscribeAdds<E>(s: System<E>, user: int)
    requires Inv(s)
    ensures var c, c' := s.channels, Apply(s, Subscribe(user)).channels;
      && c'.receivers.Keys == c.receivers.Keys + {c.nextReceiver}
      && c.nextReceiver !in c.receivers
      && c'.receivers[c.nextReceiver].user == user && c'.receivers[c.nextReceiver].offered == []
      && forall r | r in c.receivers :: c'.receivers[r] == c.receivers[r]
  {
  }

  ghost predicate NotDropped<E>(es: seq<Event<E>>, k: nat, j: nat, r: int)
    requires j <= |es|
  {
    forall m: nat | k < m < j :: es[m] != Drop(r)
  }

  /** The receiver that event k created lives exactly until it is dropped: neither another
      subscription of its user, nor a send, a cleanup or another drop ends it. */
  lemma {:induction false} LivesUntilDropped<E>(ss: seq<System<E>>, es: seq<Event<E>>, k: nat, j: nat)
    requires IsRun(ss, es) && k < j < |ss| && es[k].Subscribe?
    ensures ss[k].channels.nextReceiver in ss[j].channels.receivers
      <==> NotDropped(es, k, j, ss[k].channels.nextReceiver)
  {
    var r := ss[k].channels.nextReceiver;
    if j == k + 1 {
      OfferedFirst(ss, es, k);
    } else {
      LivesUntilDropped(ss, es, k, j - 1);
      ReceiverIdsGrow(ss, es, k, j - 1);
      RunKeeps(ss, es, j - 1);
      assert StepAt(ss, es, j - 1);
      ReceiverStep(ss[j - 1], es[j - 1], r);
      assert NotDropped(es, k, j, r) <==> NotDropped(es, k, j - 1, r) && es[j - 1] != Drop(r);
    }
  }

  /** So every receiver that is not dropped is there, attached to the sender that the map has for
      its user, and has been offered every event sent to its user since it subscribed. */
  lemma UndroppedGetsEverything<E>(ss: seq<System<E>>, es: seq<Event<E>>, k: nat, j: nat)
    requires IsRun(ss, es) && k < j < |ss| && es[k].Subscribe?
    requires NotDropped(es, k, j, ss[k].channels.nextReceiver)
    ensures var c, r := ss[j].channels, ss[k].channels.nextReceiver;
      && r in c.receivers && es[k].user in c.senders
      && c.receivers[r].sender == c.senders[es[k].user] && c.receivers[r].user == es[k].user
      && c.receivers[r].offered == SentTo(es[k + 1..j], es[k].user)
  {
    LivesUntilDropped(ss, es, k, j);
    NoReceiverIsOrphaned(ss, es, j, ss[k].channels.nextReceiver);
    OffersEverySend(ss, es, k, j);
  }

  /** A send to a user whose receivers are all gone removes the user's sender once its second
      half runs, unless someone subscribed in between: entries do not pile up. */
  lemma StaleSenderGoes<E>(s: System<E>, t: System<E>, user: int, event: E)
    requires Inv(s) && user in s.channels.senders
    requires forall r :: r in s.channels.receivers ==> s.channels.receivers[r].user != user
    requires Inv(t) && user in t.between
    ensures user in Apply(s, Send(user, event)).between
    ensures user in Apply(t, CleanUp(user)).channels.senders <==>
      exists r :: r in t.channels.receivers && t.channels.receivers[r].user == user
  {
    var c := Sent(s.channels, user, event);
    assert !HasReceivers(c.receivers, c.senders[user]);
    if user in t.channels.senders && HasReceivers(t.channels.receivers, t.channels.senders[user]) {
      var r :| r in t.channels.receivers
        && t.channels.receivers[r].sender == t.channels.senders[user];
      assert t.channels.receivers[r].user == user;
    }
  }
}
