/**
 The queues of messages that wait to be injected into a run, the promises that wait for a steering
 message, and the race between a steer and the watcher that runs beside a batch of tool calls.
 */
module SteeringQueue {
  datatype Mode = All | OneAtATime

  datatype Attribution = Unattributed | ByUser | ByAgent | ByOther

  /** What the queue looks at in a message; `id` stands for all the rest. */
  datatype Message = Message(id: int, roleUser: bool, attribution: Attribution)

  datatype Source = NothingQueued | FromUser | FromAgent | FromSystem

  // ---------- taking messages ----------

  function Taken(queue: seq<Message>, mode: Mode): (r: seq<Message>)
    ensures queue != [] ==> r != []
  {
    if mode == All || queue == [] then queue else [queue[0]]
  }

  function Rest(queue: seq<Message>, mode: Mode): seq<Message> {
    queue[|Taken(queue, mode)|..]
  }

  function DropLast(queue: seq<Message>): seq<Message> {
    if queue == [] then [] else queue[..|queue| - 1]
  }

  /** What the next poll would take. */
  function Next(queue: seq<Message>, mode: Mode): nat {
    if queue == [] then 0 else if mode == OneAtATime then 1 else |queue|
  }

  predicate IsUsers(m: Message) {
    m.attribution == ByUser || (m.roleUser && m.attribution != ByAgent)
  }

  predicate IsAgents(m: Message) {
    m.roleUser && m.attribution == ByAgent
  }

  // ---------- the queues ----------

  /** A promise: pending until resolved. */
  class Waiter {
    var resolved: bool

    constructor (resolved: bool)
      ensures this.resolved == resolved
    {
      this.resolved := resolved;
    }
  }

  class Queues {
    var steering: seq<Message>
    var followUp: seq<Message>
    var steeringMode: Mode
    var followUpMode: Mode
    var waiters: set<Waiter>

    /** A promise is only kept waiting while nothing is queued. */
    ghost predicate Valid()
      reads this, waiters
    {
      forall w :: w in waiters && !w.resolved ==> steering == []
    }

    constructor (steeringMode: Mode, followUpMode: Mode)
      ensures Valid() && steering == followUp == [] && waiters == {}
      ensures this.steeringMode == steeringMode && this.followUpMode == followUpMode
    {
      steering, followUp, waiters := [], [], {};
      this.steeringMode, this.followUpMode := steeringMode, followUpMode;
    }

    method Notify()
      modifies waiters
      ensures forall w :: w in waiters ==> w.resolved
    {
      var left := waiters;
      while left != {}
        invariant left <= waiters
        invariant forall w :: w in waiters && w !in left ==> w.resolved
      {
        var w :| w in left;
        w.resolved := true;
        left := left - {w};
      }
    }

    method Steer(m: Message)
      requires Valid()
      modifies this`steering, waiters
      ensures Valid() && steering == old(steering) + [m]
      ensures forall w :: w in waiters ==> w.resolved
    {
      steering := steering + [m];
      Notify();
    }

    method FollowUp(m: Message)
      requires Valid()
      modifies this`followUp
      ensures Valid() && followUp == old(followUp) + [m]
    {
      followUp := followUp + [m];
    }

    method ReplaceQueues(steering: seq<Message>, followUp: seq<Message>)
      requires Valid()
      modifies this`steering, this`followUp, waiters
      ensures Valid() && this.steering == steering && this.followUp == followUp
      ensures forall w :: w in waiters ==> w.resolved
    {
      this.steering := steering;
      this.followUp := followUp;
      Notify();
    }

    method ClearSteering()
      requires Valid()
      modifies this`steering, waiters
      ensures Valid() && steering == []
      ensures forall w :: w in waiters ==> w.resolved
    {
      steering := [];
      Notify();
    }

    /** Only a push needs to notify: a shorter queue never wakes anyone. */
    method PopLastSteer() returns (m: seq<Message>)
      requires Valid()
      modifies this`steering
      ensures Valid() && steering == DropLast(old(steering))
      ensures steering + m == old(steering) && |m| == (if old(steering) == [] then 0 else 1)
    {
      if steering == [] {
        m := [];
      } else {
        m := [steering[|steering| - 1]];
        steering := steering[..|steering| - 1];
      }
    }

    method DequeueSteering() returns (r: seq<Message>)
      requires Valid()
      modifies this`steering
      ensures Valid() && r == Taken(old(steering), steeringMode) && steering == Rest(old(steering), steeringMode)
      ensures r + steering == old(steering)
    {
      if steeringMode == OneAtATime {
        if |steering| > 0 {
          r := [steering[0]];
          steering := steering[1..];
        } else {
          r := [];
        }
      } else {
        r := steering;
        steering := [];
      }
    }

    method DequeueFollowUp() returns (r: seq<Message>)
      requires Valid()
      modifies this`followUp
      ensures Valid() && r == Taken(old(followUp), followUpMode) && followUp == Rest(old(followUp), followUpMode)
      ensures r + followUp == old(followUp)
    {
      if followUpMode == OneAtATime {
        if |followUp| > 0 {
          r := [followUp[0]];
          followUp := followUp[1..];
        } else {
          r := [];
        }
      } else {
        r := followUp;
        followUp := [];
      }
    }

    /** The promise for the next steering message: already resolved when one is queued or the signal is aborted. */
    method WaitForSteering(aborted: bool) returns (w: Waiter)
      requires Valid()
      modifies this`waiters
      ensures Valid() && fresh(w)
      ensures w.resolved <==> old(steering) != [] || aborted
      ensures waiters == old(waiters) + (if w.resolved then {} else {w})
    {
      if |steering| > 0 || aborted {
        w := new Waiter(true);
      } else {
        w := new Waiter(false);
        waiters := waiters + {w};
      }
    }

    /** The signal of one waiter aborts. */
    method AbortWaiter(w: Waiter)
      requires Valid()
      modifies w
      ensures Valid() && w.resolved
    {
      w.resolved := true;
    }

    /** A resolved promise takes itself off the list; an unresolved one cannot be dropped. */
    method Settle(w: Waiter)
      requires Valid() && w.resolved
      modifies this`waiters
      ensures Valid() && waiters == old(waiters) - {w}
    {
      waiters := waiters - {w};
    }

    /** `hasSteeringMessages`: whose message the next poll would bring. */
    method HasSteering() returns (source: Source)
      ensures source == NothingQueued <==> steering == []
      ensures source == FromUser <==> exists k :: 0 <= k < Next(steering, steeringMode) && IsUsers(steering[k])
      ensures source == FromAgent ==> exists k :: 0 <= k < Next(steering, steeringMode) && IsAgents(steering[k])
      ensures source == FromSystem ==>
        forall k :: 0 <= k < Next(steering, steeringMode) ==> !IsUsers(steering[k]) && !IsAgents(steering[k])
    {
      if |steering| == 0 {
        return NothingQueued;
      }
      var messageCount := if steeringMode == OneAtATime then 1 else |steering|;
      var hasAgentSteering := false;
      for i := 0 to messageCount
        invariant forall k :: 0 <= k < i ==> !IsUsers(steering[k])
        invariant hasAgentSteering <==> exists k :: 0 <= k < i && IsAgents(steering[k])
      {
        var message := steering[i];
        if message.attribution == ByUser {
          return FromUser;
        }
        if message.roleUser {
          if message.attribution != ByAgent {
            return FromUser;
          }
          hasAgentSteering := true;
        }
      }
      return if hasAgentSteering then FromAgent else FromSystem;
    }
  }

  // ---------- nothing is lost or reordered on the way through the queue ----------

  datatype Traffic = Sent(m: Message) | Polled(mode: Mode)

  function Sends(ts: seq<Traffic>): seq<Message> {
    if ts == [] then []
    else if ts[0].Sent? then [ts[0].m] + Sends(ts[1..])
    else Sends(ts[1..])
  }

  /** What the polls have brought, and what is still queued. */
  function Through(queue: seq<Message>, ts: seq<Traffic>): (seq<Message>, seq<Message>)
    decreases |ts|
  {
    if ts == [] then ([], queue)
    else if ts[0].Sent? then Through(queue + [ts[0].m], ts[1..])
    else
      var later := Through(Rest(queue, ts[0].mode), ts[1..]);
      (Taken(queue, ts[0].mode) + later.0, later.1)
  }

  lemma Regroup(a: seq<Message>, b: seq<Message>, c: seq<Message>)
    ensures (a + b) + c == a + (b + c)
  {
  }

  lemma TakenThenRest(queue: seq<Message>, mode: Mode)
    ensures Taken(queue, mode) + Rest(queue, mode) == queue
  {
  }

  /** Every message sent is delivered or still queued, once, in the order of sending, whatever the modes. */
  lemma {:induction false} DeliveredInOrder(queue: seq<Message>, ts: seq<Traffic>)
    ensures Through(queue, ts).0 + Through(queue, ts).1 == queue + Sends(ts)
    decreases |ts|
  {
    if ts != [] {
      if ts[0].Sent? {
        var m := ts[0].m;
        DeliveredInOrder(queue + [m], ts[1..]);
        Regroup(queue, [m], Sends(ts[1..]));
      } else {
        var mode := ts[0].mode;
        var rest := Rest(queue, mode);
        DeliveredInOrder(rest, ts[1..]);
        var later := Through(rest, ts[1..]);
        Regroup(Taken(queue, mode), later.0, later.1);
        Regroup(Taken(queue, mode), rest, Sends(ts[1..]));
        TakenThenRest(queue, mode);
        assert Sends(ts) == Sends(ts[1..]);
      }
    }
  }

  // ---------- the watcher beside a batch ----------

  datatype Watcher =
    | Starting                  // at the head of its loop
    | Subscribed                // has its promise, has not read the queue
    | Checking(observed: bool)  // its check is under way after it read the queue
    | Blocked                   // waits for its promise
    | Ended

  /**
   A batch that interrupts immediately. `aborted`: the run is aborted or the batch is over; `threw`: a
   check of the watcher threw, which ends the watcher without a word.
   */
  datatype Race = Race(queue: seq<Message>, watcher: Watcher, resolved: bool, triggered: bool, aborted: bool, threw: bool)

  datatype Event =
    | Steer(m: Message)
    | Replace(queue: seq<Message>)
    | Clear
    | Pop
    | Dequeue(mode: Mode)
    | OtherPoll(peer: bool)  // the poll after a call, or the peer timer; it may find a peer's message
    | Abort
    | Watch(peer: bool)    // the watcher goes on; its check may find a peer's message
    | CheckThrows

  function Start(queue: seq<Message>): Race {
    Race(queue, Starting, true, false, false, false)
  }

  predicate Enabled(s: Race, e: Event) {
    && (e.Watch? ==> !s.watcher.Ended? && (s.watcher == Blocked ==> s.resolved || s.aborted))
    && (e.CheckThrows? ==> s.watcher.Checking?)
  }

  function Watched(s: Race, peer: bool): Race {
    match s.watcher
    case Starting =>
      if s.aborted then s.(watcher := Ended)
      else s.(resolved := s.queue != [], watcher := Subscribed)
    case Subscribed => s.(watcher := Checking(!s.aborted && s.queue != []))
    case Checking(observed) =>
      var triggered := s.triggered || observed || (peer && !s.aborted);
      s.(triggered := triggered, watcher := if s.aborted || triggered then Ended else Blocked)
    case Blocked => s.(watcher := if s.aborted then Ended else Starting)
    case Ended => s
  }

  function Apply(s: Race, e: Event): Race {
    match e
    case Steer(m) => s.(queue := s.queue + [m], resolved := true)
    case Replace(queue) => s.(queue := queue, resolved := true)
    case Clear => s.(queue := [], resolved := true)
    case Pop => s.(queue := DropLast(s.queue))
    case Dequeue(mode) => s.(queue := Rest(s.queue, mode))
    case OtherPoll(peer) => s.(triggered := s.triggered || (!s.aborted && (s.queue != [] || peer)))
    case Abort => s.(aborted := true, resolved := true)
    case Watch(peer) => Watched(s, peer)
    case CheckThrows => s.(watcher := Ended, threw := true)
  }

  predicate IsRun(s: Race, events: seq<Event>)
    decreases |events|
  {
    events == [] || (Enabled(s, events[0]) && IsRun(Apply(s, events[0]), events[1..]))
  }

  function After(s: Race, events: seq<Event>): Race
    decreases |events|
  {
    if events == [] then s else After(Apply(s, events[0]), events[1..])
  }

  predicate RaceOk(s: Race) {
    && (s.watcher.Subscribed? && s.queue != [] ==> s.resolved)
    && (s.watcher.Checking? && s.queue != [] ==> s.resolved)
    && (s.watcher.Blocked? && s.queue != [] ==> s.resolved)
    && (s.watcher.Ended? ==> s.aborted || s.triggered || s.threw)
    && (s.threw ==> s.watcher.Ended?)
  }

  lemma StepRaceOk(s: Race, e: Event)
    requires RaceOk(s) && Enabled(s, e)
    ensures RaceOk(Apply(s, e))
  {
  }

  lemma {:induction false} RunOk(s: Race, events: seq<Event>)
    requires RaceOk(s) && IsRun(s, events)
    ensures RaceOk(After(s, events))
    decreases |events|
  {
    hide RaceOk, Enabled, Apply;
    if events != [] {
      StepRaceOk(s, events[0]);
      RunOk(Apply(s, events[0]), events[1..]);
    }
  }

  /** A steer is queued and the batch has not been told. */
  predicate Urgent(s: Race) {
    s.queue != [] && !s.triggered && !s.aborted
  }

  /** The watcher will not look at the queue again by itself. */
  predicate Unwatched(s: Race) {
    s.watcher == Ended || (s.watcher == Blocked && !s.resolved)
  }

  /**
   Exactly when a steer escapes the watcher: in every run, while one is queued and the batch has not been
   told, the watcher is over or blocked if and only if one of its checks threw.
   */
  lemma SteerUnwatchedExactly(queue: seq<Message>, events: seq<Event>)
    requires IsRun(Start(queue), events)
    ensures var s := After(Start(queue), events);
      && (Urgent(s) ==> (Unwatched(s) <==> s.threw))
      && (Urgent(s) && !s.threw ==> Enabled(s, Watch(false)))
  {
    RunOk(Start(queue), events);
  }

  /** A watcher whose check threw never comes back. */
  lemma {:induction false} ThrownIsFinal(s: Race, events: seq<Event>)
    requires RaceOk(s) && s.threw && IsRun(s, events)
    ensures After(s, events).threw && After(s, events).watcher == Ended
    decreases |events|
  {
    if events != [] {
      StepRaceOk(s, events[0]);
      ThrownIsFinal(Apply(s, events[0]), events[1..]);
    }
  }

  /** What the watcher misses the poll after another call still notices, as long as the steer is queued. */
  lemma PollNotices(s: Race, peer: bool)
    requires Urgent(s)
    ensures Apply(s, OtherPoll(peer)).triggered && Apply(s, OtherPoll(peer)).queue == s.queue
  {
  }

  /** Such a run: a check throws and then a steer arrives, which only the poll after another call notices. */
  lemma ThrownCheckMissesSteer(m: Message)
    ensures var events := [Watch(false), Watch(false), CheckThrows, Steer(m)];
      var s := After(Start([]), events);
      IsRun(Start([]), events) && Urgent(s) && Unwatched(s) && Apply(s, OtherPoll(false)).triggered
  {
    var e4, e3, e2 := [Steer(m)], [CheckThrows, Steer(m)], [Watch(false), CheckThrows, Steer(m)];
    var s0 := Start([]);
    var s1 := Apply(s0, Watch(false));
    var s2 := Apply(s1, Watch(false));
    var s3 := Apply(s2, CheckThrows);
    assert IsRun(s3, e4) && After(s3, e4) == Apply(s3, Steer(m));
    assert e3[1..] == e4 && IsRun(s2, e3) && After(s2, e3) == After(s3, e4);
    assert e2[1..] == e3 && IsRun(s1, e2) && After(s1, e2) == After(s2, e3);
    var e1 := [Watch(false), Watch(false), CheckThrows, Steer(m)];
    assert e1[1..] == e2 && IsRun(s0, e1) && After(s0, e1) == After(s1, e2);
  }

  /** Steps of the watcher until it has told the batch. */
  function Distance(s: Race): nat {
    match s.watcher
    case Checking(observed) => if observed then 1 else 5
    case Blocked => 4
    case Starting => 3
    case Subscribed => 2
    case Ended => 0
  }

  /** It is told within five steps of the watcher, whatever else happens while the steer stays queued. */
  lemma SteerIsNoticed(s: Race, e: Event)
    requires RaceOk(s) && Urgent(s) && Enabled(s, e) && Urgent(Apply(s, e)) && !Apply(s, e).threw
    ensures RaceOk(Apply(s, e))
    ensures 0 < Distance(s) <= 5
    ensures if e.Watch? then Distance(Apply(s, e)) < Distance(s) else Distance(Apply(s, e)) == Distance(s)
  {
  }

  /** Number of watcher steps in a run. */
  function Watches(events: seq<Event>): nat {
    if events == [] then 0 else (if events[0].Watch? then 1 else 0) + Watches(events[1..])
  }

  /** The steer stays queued and unseen all along the run, and no check throws. */
  predicate UrgentThroughout(s: Race, events: seq<Event>)
    decreases |events|
  {
    Urgent(s) && !s.threw && (events == [] || UrgentThroughout(Apply(s, events[0]), events[1..]))
  }

  lemma {:induction false} NoticedWithinFive(s: Race, events: seq<Event>)
    requires RaceOk(s) && IsRun(s, events) && UrgentThroughout(s, events)
    ensures Watches(events) < Distance(s) <= 5
    decreases |events|
  {
    if events == [] {
      assert Urgent(s);
    } else {
      SteerIsNoticed(s, events[0]);
      NoticedWithinFive(Apply(s, events[0]), events[1..]);
    }
  }
}
