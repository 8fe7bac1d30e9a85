/**
 * The bounded blocking queue (`BlockingQueue.h`) as a system of interleaved steps.
 * One step is what one thread does from taking the mutex to its next wait or return. Threads with the same
 * local state are interchangeable, so the waiting and the woken threads of each kind are kept as counts, and
 * those inside push() as the multiset of the values they carry. A thread is `woken` from the moment it leaves the
 * wait set of its condition variable, by a notification or spuriously, until it gets the mutex again.
 */
module BlockingQueues {

  datatype State<T> = State(
    capacity: nat,
    queue: seq<T>,
    closed: bool,
    waitPop: nat,
    wokenPop: nat,
    waitPush: multiset<T>,
    wokenPush: multiset<T>,
    waitClose: nat,
    wokenClose: nat,
    pushed: seq<T>,
    popped: seq<T>)

  function Init<T>(capacity: nat): (r: State<T>) {
    State(capacity, [], false, 0, 0, multiset{}, multiset{}, 0, 0, [], [])
  }

  /** Whom `m_haveSpace.notify_one()` wakes. */
  datatype Pick<T> = NoOne | Pusher(value: T) | Closer

  ghost predicate PickOk<T>(s: State<T>, pick: Pick<T>) {
    match pick
    case NoOne => |s.waitPush| == 0 && s.waitClose == 0
    case Pusher(v) => v in s.waitPush
    case Closer => s.waitClose > 0
  }

  function WakeOneSpace<T>(s: State<T>, pick: Pick<T>): (r: State<T>)
    requires pick.Closer? ==> s.waitClose > 0
  {
    match pick
    case NoOne => s
    case Pusher(v) => s.(waitPush := s.waitPush - multiset{v}, wokenPush := s.wokenPush + multiset{v})
    case Closer => s.(waitClose := s.waitClose - 1, wokenClose := s.wokenClose + 1)
  }

  function WakeAllSpace<T>(s: State<T>): (r: State<T>) {
    s.(waitPush := multiset{}, wokenPush := s.wokenPush + s.waitPush,
       waitClose := 0, wokenClose := s.wokenClose + s.waitClose)
  }

  function WakeOneData<T>(s: State<T>): (r: State<T>) {
    if s.waitPop == 0 then s else s.(waitPop := s.waitPop - 1, wokenPop := s.wokenPop + 1)
  }

  function WakeAllData<T>(s: State<T>): (r: State<T>) {
    s.(waitPop := 0, wokenPop := s.wokenPop + s.waitPop)
  }

  /** push() from its loop test to a wait or a return, holding the mutex. */
  function PushTurn<T>(s: State<T>, v: T): (r: State<T>) {
    if !s.closed && |s.queue| >= s.capacity then s.(waitPush := s.waitPush + multiset{v})
    else if s.closed then s
    else WakeOneData(s.(queue := s.queue + [v], pushed := s.pushed + [v]))
  }

  /** pop() from its loop test to a wait or a return, holding the mutex. */
  function PopTurn<T>(s: State<T>, pick: Pick<T>): (r: State<T>)
    requires pick.Closer? ==> s.waitClose > 0
  {
    if s.queue == [] then
      if s.closed then s else s.(waitPop := s.waitPop + 1)
    else
      var taken := s.(queue := s.queue[1..], popped := s.popped + [s.queue[0]]);
      if taken.closed && taken.queue == [] then WakeAllSpace(taken) else WakeOneSpace(taken, pick)
  }

  /** The wait loop of close(true), holding the mutex. */
  function CloseTurn<T>(s: State<T>): (r: State<T>) {
    if s.queue != [] then s.(waitClose := s.waitClose + 1) else s
  }

  function CloseAll<T>(s: State<T>): (r: State<T>) {
    WakeAllSpace(WakeAllData(s.(closed := true)))
  }

  datatype Action<T> =
    | CallPush(value: T)
    | ResumePush(value: T)
    | SpuriousPush(value: T)
    | CallPop(pick: Pick<T>)
    | ResumePop(pick: Pick<T>)
    | SpuriousPop
    | CallClose(wait: bool)
    | ResumeClose
    | SpuriousClose

  ghost predicate Enabled<T>(s: State<T>, a: Action<T>) {
    match a
    case CallPush(_) => true
    case ResumePush(v) => v in s.wokenPush
    case SpuriousPush(v) => v in s.waitPush
    case CallPop(pick) => PickOk(s, pick)
    case ResumePop(pick) => s.wokenPop > 0 && PickOk(s, pick)
    case SpuriousPop => s.waitPop > 0
    case CallClose(_) => true
    case ResumeClose => s.wokenClose > 0
    case SpuriousClose => s.waitClose > 0
  }

  ghost function Do<T>(s: State<T>, a: Action<T>): (r: State<T>)
    requires Enabled(s, a)
  {
    match a
    case CallPush(v) => PushTurn(s, v)
    case ResumePush(v) => PushTurn(s.(wokenPush := s.wokenPush - multiset{v}), v)
    case SpuriousPush(v) => WakeOneSpace(s, Pusher(v))
    case CallPop(pick) => PopTurn(s, pick)
    case ResumePop(pick) => PopTurn(s.(wokenPop := s.wokenPop - 1), pick)
    case SpuriousPop => WakeOneData(s)
    case CallClose(wait) => if wait then CloseTurn(CloseAll(s)) else CloseAll(s)
    case ResumeClose => CloseTurn(s.(wokenClose := s.wokenClose - 1))
    case SpuriousClose => WakeOneSpace(s, Closer)
  }

  // ---- What each step does ----

  /**
   * push() appends its value and wakes one sleeping pop(), if the queue is open and has room; it sleeps if the queue is
   * open and full, and returns with nothing done if it is closed.
   */
  lemma {:induction false} PushEffect<T>(s: State<T>, v: T)
    ensures Do(s, CallPush(v)) ==
              if s.closed then s
              else if |s.queue| < s.capacity then
                State(s.capacity, s.queue + [v], false,
                      if s.waitPop > 0 then s.waitPop - 1 else 0, if s.waitPop > 0 then s.wokenPop + 1 else s.wokenPop,
                      s.waitPush, s.wokenPush, s.waitClose, s.wokenClose, s.pushed + [v], s.popped)
              else
                State(s.capacity, s.queue, false, s.waitPop, s.wokenPop, s.waitPush + multiset{v}, s.wokenPush,
                      s.waitClose, s.wokenClose, s.pushed, s.popped)
  {
  }

  /**
   * pop() takes the first value and wakes the picked sleeper for space, or everyone if that drains a closed queue.
   * On an empty queue it sleeps if the queue is open and returns with nothing done if it is closed.
   */
  lemma {:induction false} PopEffect<T>(s: State<T>, pick: Pick<T>)
    requires Enabled(s, CallPop(pick))
    ensures var t := Do(s, CallPop(pick));
            && t.capacity == s.capacity && t.closed == s.closed && t.pushed == s.pushed && t.wokenPop == s.wokenPop
            && (s.queue != [] ==>
                  && t.queue == s.queue[1..] && t.popped == s.popped + [s.queue[0]] && t.waitPop == s.waitPop
                  && (s.closed && |s.queue| == 1 ==>
                        && t.waitPush == multiset{} && t.wokenPush == s.wokenPush + s.waitPush
                        && t.waitClose == 0 && t.wokenClose == s.wokenClose + s.waitClose)
                  && (!(s.closed && |s.queue| == 1) ==> OneWoken(s, t, pick)))
            && (s.queue == [] ==>
                  && t.queue == [] && t.popped == s.popped && SameSpace(s, t)
                  && t.waitPop == if s.closed then s.waitPop else s.waitPop + 1)
  {
  }

  ghost predicate SameSpace<T>(s: State<T>, t: State<T>) {
    && t.waitPush == s.waitPush && t.wokenPush == s.wokenPush
    && t.waitClose == s.waitClose && t.wokenClose == s.wokenClose
  }

  /** Exactly the picked thread has left the wait set of `m_haveSpace`; someone has, if anyone was in it. */
  ghost predicate OneWoken<T>(s: State<T>, t: State<T>, pick: Pick<T>) {
    && (pick.NoOne? ==> |s.waitPush| == 0 && s.waitClose == 0 && SameSpace(s, t))
    && (pick.Pusher? ==>
          && pick.value in s.waitPush && t.waitPush == s.waitPush - multiset{pick.value}
          && t.wokenPush == s.wokenPush + multiset{pick.value}
          && t.waitClose == s.waitClose && t.wokenClose == s.wokenClose)
    && (pick.Closer? ==>
          && t.waitClose == s.waitClose - 1 && t.wokenClose == s.wokenClose + 1
          && t.waitPush == s.waitPush && t.wokenPush == s.wokenPush)
  }

  /** A woken thread does what a call would do, and is no longer among the woken. */
  lemma {:induction false} ResumeEffect<T>(s: State<T>, v: T, pick: Pick<T>)
    ensures Enabled(s, ResumePush(v)) ==>
              Do(s, ResumePush(v)) == Do(s.(wokenPush := s.wokenPush - multiset{v}), CallPush(v))
    ensures Enabled(s, ResumePop(pick)) ==>
              && Enabled(s.(wokenPop := s.wokenPop - 1), CallPop(pick))
              && Do(s, ResumePop(pick)) == Do(s.(wokenPop := s.wokenPop - 1), CallPop(pick))
    ensures Enabled<T>(s, ResumeClose) ==>
              Do(s, ResumeClose) == s.(wokenClose := s.wokenClose - 1,
                                       waitClose := if s.queue == [] then s.waitClose else s.waitClose + 1)
  {
  }

  /** close() wakes everyone; with waiting asked for it sleeps if values are left. */
  lemma {:induction false} CloseEffect<T>(s: State<T>, wait: bool)
    ensures Do(s, CallClose(wait)) ==
              State(s.capacity, s.queue, true, 0, s.wokenPop + s.waitPop, multiset{}, s.wokenPush + s.waitPush,
                    if wait && s.queue != [] then 1 else 0, s.wokenClose + s.waitClose, s.pushed, s.popped)
    ensures Enabled<T>(s, SpuriousPop) ==>
              Do(s, SpuriousPop) == s.(waitPop := s.waitPop - 1, wokenPop := s.wokenPop + 1)
    ensures Enabled<T>(s, SpuriousClose) ==>
              Do(s, SpuriousClose) == s.(waitClose := s.waitClose - 1, wokenClose := s.wokenClose + 1)
  {
  }

  lemma {:induction false} SpuriousPushEffect<T>(s: State<T>, v: T)
    requires Enabled(s, SpuriousPush(v))
    ensures Do(s, SpuriousPush(v))
            == s.(waitPush := s.waitPush - multiset{v}, wokenPush := s.wokenPush + multiset{v})
  {
  }

  /** Nothing blocks a call from taking its first turn, or a woken thread from taking its next; anyone may wake up. */
  lemma {:induction false} TurnsAreFree<T>(s: State<T>, v: T, wait: bool) returns (pick: Pick<T>)
    ensures Enabled(s, CallPush(v)) && Enabled(s, CallPop(pick)) && Enabled<T>(s, CallClose(wait))
    ensures v in s.wokenPush ==> Enabled(s, ResumePush(v))
    ensures s.wokenPop > 0 ==> Enabled(s, ResumePop(pick))
    ensures s.wokenClose > 0 ==> Enabled<T>(s, ResumeClose)
    ensures v in s.waitPush ==> Enabled(s, SpuriousPush(v)) && Enabled(s, CallPop(Pusher(v)))
    ensures s.waitPop > 0 ==> Enabled<T>(s, SpuriousPop)
    ensures s.waitClose > 0 ==> Enabled<T>(s, SpuriousClose) && Enabled<T>(s, CallPop(Closer))
  {
    if s.waitClose > 0 {
      pick := Closer;
    } else if |s.waitPush| > 0 {
      var u :| u in s.waitPush;
      pick := Pusher(u);
    } else {
      pick := NoOne;
    }
  }

  ghost predicate Inv<T>(s: State<T>) {
    && s.pushed == s.popped + s.queue
    && |s.queue| <= s.capacity
    && (s.waitPop > 0 ==> !s.closed && |s.queue| <= s.wokenPop)
    && (|s.waitPush| > 0 ==> !s.closed && s.capacity - |s.queue| <= |s.wokenPush|)
    && (s.waitClose > 0 ==> s.queue != [])
    && (s.waitClose + s.wokenClose > 0 ==> s.closed)
  }

  ghost predicate Kept<T>(s: State<T>, t: State<T>) {
    Inv(t) && t.capacity == s.capacity
  }

  lemma {:induction false} PushKeeps<T>(s: State<T>, v: T)
    requires Inv(s)
    ensures Kept(s, PushTurn(s, v))
  {
    assert s.pushed + [v] == s.popped + (s.queue + [v]);
  }

  lemma {:induction false} ResumePushKeeps<T>(s: State<T>, v: T)
    requires Inv(s) && v in s.wokenPush
    ensures Kept(s, PushTurn(s.(wokenPush := s.wokenPush - multiset{v}), v))
  {
    assert |s.wokenPush - multiset{v}| == |s.wokenPush| - 1;
    assert s.pushed + [v] == s.popped + (s.queue + [v]);
  }

  lemma {:induction false} WakeOneKeeps<T>(s: State<T>, pick: Pick<T>)
    requires Inv(s) && PickOk(s, pick)
    ensures Kept(s, WakeOneSpace(s, pick))
  {
    if pick.Pusher? {
      assert |s.waitPush - multiset{pick.value}| == |s.waitPush| - 1;
    }
  }

  lemma {:induction false} PopKeeps<T>(s: State<T>, pick: Pick<T>)
    requires Inv(s) && PickOk(s, pick)
    ensures Kept(s, PopTurn(s, pick))
  {
    if s.queue != [] {
      assert s.popped + [s.queue[0]] + s.queue[1..] == s.popped + s.queue;
    }
    if pick.Pusher? {
      assert |s.waitPush - multiset{pick.value}| == |s.waitPush| - 1;
    }
  }

  lemma {:induction false} ResumePopKeeps<T>(s: State<T>, pick: Pick<T>)
    requires Inv(s) && s.wokenPop > 0 && PickOk(s, pick)
    ensures Kept(s, PopTurn(s.(wokenPop := s.wokenPop - 1), pick))
  {
    if s.queue != [] {
      assert s.popped + [s.queue[0]] + s.queue[1..] == s.popped + s.queue;
    }
    if pick.Pusher? {
      assert |s.waitPush - multiset{pick.value}| == |s.waitPush| - 1;
    }
  }

  lemma {:induction false} SpuriousPopKeeps<T>(s: State<T>)
    requires Inv(s)
    ensures Kept(s, WakeOneData(s))
  {
  }

  lemma {:induction false} CloseKeeps<T>(s: State<T>)
    requires Inv(s)
    ensures Kept(s, CloseAll(s)) && Kept(s, CloseTurn(CloseAll(s)))
    ensures s.wokenClose > 0 ==> Kept(s, CloseTurn(s.(wokenClose := s.wokenClose - 1)))
  {
  }

  /** Every step of every thread keeps the invariant. */
  lemma {:induction false} StepKeeps<T>(s: State<T>, a: Action<T>)
    requires Inv(s) && Enabled(s, a)
    ensures Kept(s, Do(s, a))
  {
    hide Inv, PushTurn, PopTurn, CloseTurn, CloseAll, WakeOneSpace;
    match a {
      case CallPush(v) => PushKeeps(s, v);
      case ResumePush(v) => ResumePushKeeps(s, v);
      case SpuriousPush(v) => WakeOneKeeps(s, Pusher(v));
      case CallPop(pick) => PopKeeps(s, pick);
      case ResumePop(pick) => ResumePopKeeps(s, pick);
      case SpuriousPop => SpuriousPopKeeps(s);
      case CallClose(_) => CloseKeeps(s);
      case ResumeClose => CloseKeeps(s);
      case SpuriousClose => WakeOneKeeps(s, Closer);
    }
  }

  /** What happens to a closed queue: nothing more is accepted, and only pops change the contents. */
  lemma {:induction false} ClosedIsFinal<T>(s: State<T>, a: Action<T>)
    requires Enabled(s, a) && s.closed
    ensures Do(s, a).closed && Do(s, a).pushed == s.pushed
    ensures || Do(s, a).queue == s.queue
            || ((a.CallPop? || a.ResumePop?) && s.queue != [] && Do(s, a).queue == s.queue[1..])
  {
    match a {
      case CallPop(pick) => assert PickOk(s, pick);
      case _ =>
    }
  }

  /** A run: the state after a list of actions, each enabled when it happens. */
  ghost predicate Runs<T>(s: State<T>, acts: seq<Action<T>>, t: State<T>)
    decreases |acts|
  {
    if acts == [] then s == t
    else Enabled(s, acts[0]) && Runs(Do(s, acts[0]), acts[1..], t)
  }

  lemma {:induction false} RunKeeps<T>(s: State<T>, acts: seq<Action<T>>, t: State<T>)
    requires Inv(s) && Runs(s, acts, t)
    ensures Inv(t) && t.capacity == s.capacity
    decreases |acts|
  {
    if acts != [] {
      StepKeeps(s, acts[0]);
      RunKeeps(Do(s, acts[0]), acts[1..], t);
    }
  }

  /** In every interleaving the values come out in the order they went in and the capacity is never exceeded. */
  lemma {:induction false} FirstInFirstOut<T>(capacity: nat, acts: seq<Action<T>>, t: State<T>)
    requires Runs(Init(capacity), acts, t)
    ensures t.popped <= t.pushed && t.pushed == t.popped + t.queue && |t.queue| <= capacity
  {
    RunKeeps(Init(capacity), acts, t);
  }

  /**
   * No wake-up is lost in any interleaving. While a thread sleeps in pop(), every queued value has a woken thread
   * that can take it; while one sleeps in push(), every free slot has a woken thread that can fill it. So a thread is
   * left asleep, with no woken thread of its kind, only while what it waits for is false. A closed and drained queue
   * leaves nobody asleep.
   */
  lemma {:induction false} NoLostWakeup<T>(capacity: nat, acts: seq<Action<T>>, t: State<T>)
    requires Runs(Init(capacity), acts, t)
    ensures t.waitPop > 0 ==> !t.closed && |t.queue| <= t.wokenPop
    ensures |t.waitPush| > 0 ==> !t.closed && capacity - |t.queue| <= |t.wokenPush|
    ensures t.waitPop > 0 && t.wokenPop == 0 ==> t.queue == [] && !t.closed
    ensures |t.waitPush| > 0 && |t.wokenPush| == 0 ==> |t.queue| == capacity && !t.closed
    ensures t.waitClose > 0 ==> t.closed && t.queue != []
    ensures t.closed && t.queue == [] ==> t.waitPop == 0 && |t.waitPush| == 0 && t.waitClose == 0
  {
    RunKeeps(Init(capacity), acts, t);
  }

  /** Somebody can always move unless everyone asleep waits for a call that has not been made yet. */
  lemma {:induction false} NoDeadlock<T>(capacity: nat, acts: seq<Action<T>>, t: State<T>)
    requires Runs(Init(capacity), acts, t) && capacity > 0
    requires t.wokenPop == 0 && |t.wokenPush| == 0 && t.wokenClose == 0
    ensures !(t.waitPop > 0 && |t.waitPush| > 0)
    ensures t.waitClose > 0 ==> t.waitPop == 0 && |t.waitPush| == 0
  {
    RunKeeps(Init(capacity), acts, t);
  }

  // ---- Nothing is lost ----

  /** The value that a step brings into push(). */
  ghost function Brings<T>(a: Action<T>): multiset<T> {
    if a.CallPush? then multiset{a.value} else multiset{}
  }

  /** The value that push() refuses in a step: its turn comes when the queue is closed. */
  ghost function Refuses<T>(s: State<T>, a: Action<T>): multiset<T> {
    if (a.CallPush? || a.ResumePush?) && s.closed then multiset{a.value} else multiset{}
  }

  ghost function Called<T>(acts: seq<Action<T>>): multiset<T> {
    if acts == [] then multiset{} else Brings(acts[0]) + Called(acts[1..])
  }

  ghost function Refused<T>(s: State<T>, acts: seq<Action<T>>, t: State<T>): multiset<T>
    requires Runs(s, acts, t)
    decreases |acts|
  {
    if acts == [] then multiset{} else Refuses(s, acts[0]) + Refused(Do(s, acts[0]), acts[1..], t)
  }

  /** The values that are in the queue's history or carried by a thread inside push(). */
  ghost function Held<T>(s: State<T>): multiset<T> {
    multiset(s.pushed) + s.waitPush + s.wokenPush
  }

  lemma {:induction false} StepHolds<T>(s: State<T>, a: Action<T>)
    requires Enabled(s, a)
    ensures Held(s) + Brings(a) == Held(Do(s, a)) + Refuses(s, a)
  {
    hide Held, PushTurn, PopTurn, WakeOneSpace, CloseAll, CloseTurn;
    match a {
      case CallPush(v) => PushHolds(s, v);
      case ResumePush(v) =>
        PushHolds(s.(wokenPush := s.wokenPush - multiset{v}), v);
        LeavesWoken(s, v);
      case SpuriousPush(v) => WakeHolds(s, Pusher(v));
      case CallPop(pick) => PopHolds(s, pick);
      case ResumePop(pick) =>
        PopHolds(s.(wokenPop := s.wokenPop - 1), pick);
        SameHeld(s, s.(wokenPop := s.wokenPop - 1));
      case SpuriousPop => SameHeld(s, WakeOneData(s));
      case CallClose(_) => CloseHolds(s);
      case ResumeClose => CloseHolds(s);
      case SpuriousClose => WakeHolds(s, Closer);
    }
  }

  lemma {:induction false} SameHeld<T>(s: State<T>, t: State<T>)
    requires t.pushed == s.pushed && t.waitPush == s.waitPush && t.wokenPush == s.wokenPush
    ensures Held(t) == Held(s)
  {
  }

  lemma {:induction false} LeavesWoken<T>(s: State<T>, v: T)
    requires v in s.wokenPush
    ensures Held(s.(wokenPush := s.wokenPush - multiset{v})) + multiset{v} == Held(s)
  {
    assert s.wokenPush == s.wokenPush - multiset{v} + multiset{v};
  }

  lemma {:induction false} PushHolds<T>(s: State<T>, v: T)
    ensures Held(s) + multiset{v} == Held(PushTurn(s, v)) + (if s.closed then multiset{v} else multiset{})
  {
    assert multiset(s.pushed + [v]) == multiset(s.pushed) + multiset{v};
  }

  lemma {:induction false} WakeHolds<T>(s: State<T>, pick: Pick<T>)
    requires pick.Pusher? ==> pick.value in s.waitPush
    requires pick.Closer? ==> s.waitClose > 0
    ensures Held(WakeOneSpace(s, pick)) == Held(s)
  {
    if pick.Pusher? {
      assert s.waitPush == s.waitPush - multiset{pick.value} + multiset{pick.value};
    }
  }

  lemma {:induction false} PopHolds<T>(s: State<T>, pick: Pick<T>)
    requires PickOk(s, pick)
    ensures Held(PopTurn(s, pick)) == Held(s)
  {
    if s.queue != [] {
      var taken := s.(queue := s.queue[1..], popped := s.popped + [s.queue[0]]);
      SameHeld(s, taken);
      WakeHolds(taken, pick);
      hide WakeOneSpace;
    }
  }

  lemma {:induction false} CloseHolds<T>(s: State<T>)
    ensures Held(CloseAll(s)) == Held(CloseTurn(CloseAll(s))) == Held(s)
    ensures s.wokenClose > 0 ==> Held(CloseTurn(s.(wokenClose := s.wokenClose - 1))) == Held(s)
  {
  }

  lemma {:induction false} Balance<T>(s: multiset<T>, brings: multiset<T>, u: multiset<T>, refuses: multiset<T>,
                                      called: multiset<T>, t: multiset<T>, refused: multiset<T>)
    requires s + brings == u + refuses && u + called == t + refused
    ensures s + (brings + called) == t + (refuses + refused)
  {
    assert s + (brings + called) == s + brings + called == u + refuses + called;
    assert u + refuses + called == u + called + refuses == t + refused + refuses;
  }

  lemma {:induction false} RunHolds<T>(s: State<T>, acts: seq<Action<T>>, t: State<T>)
    requires Runs(s, acts, t)
    ensures Held(s) + Called(acts) == Held(t) + Refused(s, acts, t)
    decreases |acts|
  {
    hide Do, Enabled, Held, Brings, Refuses;
    if acts != [] {
      var u := Do(s, acts[0]);
      StepHolds(s, acts[0]);
      RunHolds(u, acts[1..], t);
      Balance(Held(s), Brings(acts[0]), Held(u), Refuses(s, acts[0]), Called(acts[1..]), Held(t),
              Refused(u, acts[1..], t));
    }
  }

  /**
   * In every interleaving each value given to push() is accounted for: it came out, it is in the queue, a thread inside
   * push() still carries it, or it was refused because the queue was closed.
   */
  lemma {:induction false} NothingLost<T>(capacity: nat, acts: seq<Action<T>>, t: State<T>)
    requires Runs(Init(capacity), acts, t)
    ensures Called(acts)
            == multiset(t.popped) + multiset(t.queue) + t.waitPush + t.wokenPush + Refused(Init(capacity), acts, t)
  {
    RunHolds(Init(capacity), acts, t);
    FirstInFirstOut(capacity, acts, t);
    assert Held(Init<T>(capacity)) == multiset{};
  }
}
