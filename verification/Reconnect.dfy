/** util/client.go and util/lock.go: any number of goroutines call reconnect (through
    SingleWaitExec.Do) and Reconnect, and Switch of pkg/sfu/client.go stores a parameter before
    it calls Reconnect. Each step below is one atomic access of the code. */
module Reconnect {
  import opened Options

  type Thread = nat

  const WRAP := 0x1_0000_0000

  /** What a call of reconnect is for: a plain one, or the first or second one of Reconnect.
      `before` is what Reconnect read from the counter, when `at` attempts had been counted. */
  datatype Caller = Plain | First(before: nat, at: nat) | Second

  /** Where a goroutine is: about to read the counter; about to look at l.ctx; waiting for an
      execution to end; running one, before its increment, before it renews the context of the stream, before
      the creation of the stream reads the parameter, before that has returned, and after that;
      about to read the counter again; returned. */
  datatype Pc =
    | Start
    | Enter(caller: Caller)
    | Wait(caller: Caller, exec: nat)
    | Running(caller: Caller, exec: nat)
    | Opening(caller: Caller, exec: nat, attempt: nat)
    | Dialing(caller: Caller, exec: nat, attempt: nat)
    | Dialed(caller: Caller, exec: nat, attempt: nat)
    | Opened(caller: Caller, exec: nat)
    | Compare(before: nat, at: nat)
    | Returned(caller: Caller)

  /** A goroutine and, noted when its call began, how many attempts had been counted, how many
      executions begun, and which version of the parameter was stored. */
  datatype Call = Call(pc: Pc, attempts0: nat, execs0: nat, param0: nat)

  /** One execution under l.ctx: how many attempts had been counted when it was begun, and its
      own attempt once it is counted. */
  datatype Exec = Exec(attempts0: nat, attempt: Option<nat>)

  /** One attempt: the version of the parameter stored when it was counted, and the version its
      stream creation read once it did. */
  datatype Attempt = Attempt(param0: nat, read: Option<nat>)

  /** The context of the last execution is l.ctx; those in `ended` were cancelled at their end.
      `counter` is reconnectTimes, a uint32; `param` the version stored by Switch. `live` are the
      attempts whose stream context was made and not cancelled by itself, `cancelLast` the attempt
      whose context cancelLast cancels, and `stream` the one that created the stored stream. */
  datatype State = State(
    calls: map<Thread, Call>,
    execs: seq<Exec>,
    ended: set<nat>,
    counter: nat,
    attempts: seq<Attempt>,
    param: nat,
    live: set<nat>,
    cancelLast: Option<nat>,
    stream: Option<nat>,
    topCancelled: bool)

  datatype Action =
    | CallPlain(t: Thread)
    | CallReconnect(t: Thread)
    | Switch(t: Thread)
    | ReadBefore(t: Thread)
    | Look(t: Thread)
    | WaitEnds(t: Thread)
    | Increment(t: Thread)
    | Renew(t: Thread)
    | ReadParam(t: Thread)
    | Created(t: Thread, ok: bool)
    | Finish(t: Thread)
    | ReadAfter(t: Thread)
    | Close

  const INITIAL := State(map[], [], {}, 0, [], 0, {}, None, None, false)

  /** Contexts derive from the top one, so all are done when that is cancelled. */
  ghost predicate Done(s: State, exec: nat) {
    exec in s.ended || s.topCancelled
  }

  ghost predicate Enabled(s: State, a: Action) {
    match a
    case CallPlain(t) => t !in s.calls
    case CallReconnect(t) => t !in s.calls
    case Switch(t) => t !in s.calls
    case ReadBefore(t) => t in s.calls && s.calls[t].pc.Start?
    case Look(t) => t in s.calls && s.calls[t].pc.Enter?
    case WaitEnds(t) => t in s.calls && s.calls[t].pc.Wait? && Done(s, s.calls[t].pc.exec)
    case Increment(t) => t in s.calls && s.calls[t].pc.Running? && s.calls[t].pc.exec < |s.execs|
    case Renew(t) => t in s.calls && s.calls[t].pc.Opening?
    case ReadParam(t) => t in s.calls && s.calls[t].pc.Dialing? && s.calls[t].pc.attempt < |s.attempts|
    case Created(t, _) => t in s.calls && s.calls[t].pc.Dialed?
    case Finish(t) => t in s.calls && s.calls[t].pc.Opened?
    case ReadAfter(t) => t in s.calls && s.calls[t].pc.Compare?
    case Close => true
  }

  ghost function Begin(s: State, t: Thread, pc: Pc): State {
    s.(calls := s.calls[t := Call(pc, |s.attempts|, |s.execs|, s.param)])
  }

  ghost function Goto(s: State, t: Thread, pc: Pc): State
    requires t in s.calls
  {
    s.(calls := s.calls[t := s.calls[t].(pc := pc)])
  }

  /** Where a goroutine goes on after its call of reconnect. */
  ghost function Resume(caller: Caller): Pc {
    if caller.First? then Compare(caller.before, caller.at) else Returned(caller)
  }

  ghost function After(s: State, a: Action): State
    requires Enabled(s, a)
  {
    match a
    case CallPlain(t) => Begin(s, t, Enter(Plain))
    case CallReconnect(t) => Begin(s, t, Start)
    case Switch(t) => Begin(s.(param := s.param + 1), t, Start)
    case ReadBefore(t) => Goto(s, t, Enter(First(s.counter, |s.attempts|)))
    case Look(t) =>
      var caller := s.calls[t].pc.caller;
      if s.execs != [] && !Done(s, |s.execs| - 1) then Goto(s, t, Wait(caller, |s.execs| - 1))
      else Goto(s.(execs := s.execs + [Exec(|s.attempts|, None)]), t, Running(caller, |s.execs|))
    case WaitEnds(t) => Goto(s, t, Resume(s.calls[t].pc.caller))
    case Increment(t) =>
      var e := s.calls[t].pc.exec;
      Goto(s.(counter := (s.counter + 1) % WRAP,
              attempts := s.attempts + [Attempt(s.param, None)],
              execs := s.execs[e := s.execs[e].(attempt := Some(|s.attempts|))]),
           t, Opening(s.calls[t].pc.caller, e, |s.attempts|))
    case Renew(t) =>
      var i := s.calls[t].pc.attempt;
      var rest := if s.cancelLast.Some? then s.live - {s.cancelLast.value} else s.live;
      Goto(s.(live := rest + {i}, cancelLast := Some(i)), t, Dialing(s.calls[t].pc.caller, s.calls[t].pc.exec, i))
    case ReadParam(t) =>
      var i := s.calls[t].pc.attempt;
      Goto(s.(attempts := s.attempts[i := s.attempts[i].(read := Some(s.param))]),
           t, Dialed(s.calls[t].pc.caller, s.calls[t].pc.exec, i))
    case Created(t, ok) =>
      Goto(s.(stream := if ok then Some(s.calls[t].pc.attempt) else s.stream),
           t, Opened(s.calls[t].pc.caller, s.calls[t].pc.exec))
    case Finish(t) =>
      Goto(s.(ended := s.ended + {s.calls[t].pc.exec}), t, Resume(s.calls[t].pc.caller))
    case ReadAfter(t) =>
      Goto(s, t, if s.calls[t].pc.before >= s.counter then Enter(Second) else Returned(Second))
    case Close => s.(topCancelled := true)
  }

  ghost predicate Step(s: State, a: Action, s': State) {
    Enabled(s, a) && s' == After(s, a)
  }

  // ----- Invariants, while the top context is live -----

  ghost predicate InOperation(pc: Pc) {
    pc.Running? || pc.Opening? || pc.Dialing? || pc.Dialed? || pc.Opened?
  }

  /** Some attempt has been counted since the call began. */
  ghost predicate Fresh(s: State, c: Call) {
    c.attempts0 < |s.attempts|
  }

  /** All executions begun before the call are over. */
  ghost predicate OldOver(s: State, c: Call) {
    forall e: nat | e < c.execs0 :: e in s.ended
  }

  ghost predicate ReadAt(s: State, c: Call, before: nat, at: nat) {
    before == at % WRAP && c.attempts0 <= at <= |s.attempts|
  }

  ghost predicate CallerInv(s: State, c: Call, caller: Caller) {
    match caller
    case Plain => true
    case First(before, at) => ReadAt(s, c, before, at)
    case Second => Fresh(s, c) || OldOver(s, c)
  }

  /** What is known of a goroutine at each place. */
  ghost predicate PcInv(s: State, c: Call) {
    match c.pc
    case Start => true
    case Enter(caller) => CallerInv(s, c, caller)
    case Wait(caller, e) =>
      && CallerInv(s, c, caller)
      && c.execs0 <= e + 1 <= |s.execs|
      && (caller.Second? ==> Fresh(s, c) || c.execs0 <= e)
    case Running(caller, e) =>
      CallerInv(s, c, caller) && e == |s.execs| - 1 && e !in s.ended && s.execs[e].attempt.None?
    case Opening(caller, e, i) =>
      && CallerInv(s, c, caller) && Fresh(s, c)
      && e == |s.execs| - 1 && e !in s.ended && s.execs[e].attempt == Some(i)
      && i == |s.attempts| - 1 && s.attempts[i].read.None?
      && (s.cancelLast.Some? ==> s.cancelLast.value < i)
    case Dialing(caller, e, i) =>
      && CallerInv(s, c, caller) && Fresh(s, c)
      && e == |s.execs| - 1 && e !in s.ended && s.execs[e].attempt == Some(i)
      && i == |s.attempts| - 1 && s.attempts[i].read.None? && s.cancelLast == Some(i)
    case Dialed(caller, e, i) =>
      && CallerInv(s, c, caller) && Fresh(s, c)
      && e == |s.execs| - 1 && e !in s.ended && s.execs[e].attempt == Some(i)
      && i == |s.attempts| - 1 && s.cancelLast == Some(i)
    case Opened(caller, e) =>
      && CallerInv(s, c, caller) && Fresh(s, c)
      && e == |s.execs| - 1 && e !in s.ended && s.execs[e].attempt.Some?
    case Compare(before, at) => ReadAt(s, c, before, at) && (Fresh(s, c) || OldOver(s, c))
    case Returned(caller) => caller.Plain? || Fresh(s, c)
  }

  /** What came after the call began counts from it. */
  ghost predicate CallInv(s: State, c: Call) {
    && c.attempts0 <= |s.attempts| && c.execs0 <= |s.execs| && c.param0 <= s.param
    && (forall e | c.execs0 <= e < |s.execs| :: c.attempts0 <= s.execs[e].attempts0)
    && (forall i | c.attempts0 <= i < |s.attempts| :: c.param0 <= s.attempts[i].param0)
    && PcInv(s, c)
  }

  ghost predicate ExecsInv(s: State) {
    && (forall e | e in s.ended :: e < |s.execs| && s.execs[e].attempt.Some?)
    && (forall e: nat | e < |s.execs| - 1 :: e in s.ended)
    && (forall e | 0 <= e < |s.execs| ::
          && s.execs[e].attempts0 <= |s.attempts|
          && (s.execs[e].attempt.Some? ==> s.execs[e].attempts0 <= s.execs[e].attempt.value < |s.attempts|))
  }

  ghost predicate AttemptsInv(s: State) {
    && s.counter == |s.attempts| % WRAP
    && forall i | 0 <= i < |s.attempts| ::
         && s.attempts[i].param0 <= s.param
         && (s.attempts[i].read.Some? ==> s.attempts[i].param0 <= s.attempts[i].read.value <= s.param)
  }

  /** Only the newest stream context made is live, and the stored stream is of it or of an older. */
  ghost predicate StreamInv(s: State) {
    && s.live == (if s.cancelLast.Some? then {s.cancelLast.value} else {})
    && (s.cancelLast.Some? ==> s.cancelLast.value < |s.attempts|)
    && (s.stream.Some? ==> s.cancelLast.Some? && s.stream.value <= s.cancelLast.value)
  }

  /** At most one goroutine is inside the operation. */
  ghost predicate Exclusive(s: State) {
    forall t, u | t in s.calls && u in s.calls && InOperation(s.calls[t].pc) && InOperation(s.calls[u].pc) :: t == u
  }

  ghost predicate LiveInv(s: State) {
    && ExecsInv(s) && AttemptsInv(s) && StreamInv(s) && Exclusive(s)
    && forall t | t in s.calls :: CallInv(s, s.calls[t])
  }

  ghost predicate Inv(s: State) {
    s.topCancelled || LiveInv(s)
  }

  /** The counter can tell two moments apart only if an attempt was counted in between. */
  lemma CounterMoved(s: State, c: Call)
    requires AttemptsInv(s) && c.pc.Compare? && ReadAt(s, c, c.pc.before, c.pc.at) && c.pc.before < s.counter
    ensures Fresh(s, c)
  {
  }

  /** Waiting for an execution that ended: it was the last one when the wait began, so all begun
      before the call are over; and if it was begun since the call, so was its attempt. */
  lemma WaitOver(s: State, c: Call)
    requires ExecsInv(s) && CallInv(s, c) && c.pc.Wait? && c.pc.exec in s.ended
    ensures OldOver(s, c)
    ensures c.pc.caller.Second? ==> Fresh(s, c)
  {
  }

  lemma ExecsKept(s: State, a: Action)
    requires LiveInv(s) && !s.topCancelled && Enabled(s, a) && !a.Close?
    ensures ExecsInv(After(s, a))
  {
  }

  lemma AttemptsKept(s: State, a: Action)
    requires LiveInv(s) && Enabled(s, a) && !a.Close?
    ensures AttemptsInv(After(s, a))
  {
    if a.Increment? {
      CounterStep(|s.attempts|);
    }
  }

  lemma CounterStep(n: nat)
    ensures (n % WRAP + 1) % WRAP == (n + 1) % WRAP
  {
  }

  lemma StreamKept(s: State, a: Action)
    requires LiveInv(s) && Enabled(s, a) && !a.Close?
    ensures StreamInv(After(s, a))
  {
    if a.Renew? || a.Created? {
      assert PcInv(s, s.calls[a.t]);
    }
  }

  /** Who begins an execution finds all others over, so nobody is inside. */
  lemma ExclusiveKeptByLook(s: State, t: Thread)
    requires LiveInv(s) && !s.topCancelled && Enabled(s, Look(t))
    ensures Exclusive(After(s, Look(t)))
  {
    if s.execs == [] || Done(s, |s.execs| - 1) {
      forall u | u in s.calls ensures !InOperation(s.calls[u].pc) {
        assert PcInv(s, s.calls[u]);
      }
    }
  }

  lemma ExclusiveKept(s: State, a: Action)
    requires LiveInv(s) && !s.topCancelled && Enabled(s, a) && !a.Close?
    ensures Exclusive(After(s, a))
  {
    if a.Look? {
      ExclusiveKeptByLook(s, a.t);
    } else {
      forall u | u in After(s, a).calls && InOperation(After(s, a).calls[u].pc)
        ensures u in s.calls && InOperation(s.calls[u].pc)
      {
      }
    }
  }

  lemma OtherKeptByLook(s: State, t: Thread, u: Thread)
    requires LiveInv(s) && !s.topCancelled && Enabled(s, Look(t)) && u in s.calls && t != u
    ensures CallInv(After(s, Look(t)), s.calls[u])
  {
  }

  /** A step inside the operation. */
  ghost predicate Works(a: Action) {
    a.Increment? || a.Renew? || a.ReadParam? || a.Created? || a.Finish?
  }

  lemma OtherKeptByWorker(s: State, a: Action, u: Thread)
    requires LiveInv(s) && !s.topCancelled && Enabled(s, a) && u in s.calls && !a.Close? && a.t != u
    requires Works(a)
    ensures CallInv(After(s, a), s.calls[u])
  {
    assert InOperation(s.calls[a.t].pc) && !InOperation(s.calls[u].pc);
  }

  lemma OtherKeptByCaller(s: State, a: Action, u: Thread)
    requires LiveInv(s) && !s.topCancelled && Enabled(s, a) && u in s.calls && !a.Close? && a.t != u
    requires a.CallPlain? || a.CallReconnect? || a.Switch?
    ensures CallInv(After(s, a), s.calls[u])
  {
  }

  /** A goroutine that does not move keeps what is known of it. */
  lemma OtherKept(s: State, a: Action, u: Thread)
    requires LiveInv(s) && !s.topCancelled && Enabled(s, a) && !a.Close? && u in s.calls && a.t != u
    ensures CallInv(After(s, a), s.calls[u])
  {
    if a.Look? {
      OtherKeptByLook(s, a.t, u);
    } else if Works(a) {
      OtherKeptByWorker(s, a, u);
    } else if a.CallPlain? || a.CallReconnect? || a.Switch? {
      OtherKeptByCaller(s, a, u);
    }
  }

  lemma StarterKept(s: State, a: Action)
    requires LiveInv(s) && !s.topCancelled && Enabled(s, a)
    requires a.CallPlain? || a.CallReconnect? || a.Switch? || a.ReadBefore? || a.Look?
    ensures CallInv(After(s, a), After(s, a).calls[a.t])
  {
  }

  lemma WorkerKept(s: State, a: Action)
    requires LiveInv(s) && !s.topCancelled && Enabled(s, a)
    requires Works(a)
    ensures CallInv(After(s, a), After(s, a).calls[a.t])
  {
  }

  lemma WaiterKept(s: State, a: Action)
    requires LiveInv(s) && !s.topCancelled && Enabled(s, a)
    requires a.WaitEnds? || a.ReadAfter?
    ensures CallInv(After(s, a), After(s, a).calls[a.t])
  {
    if a.WaitEnds? {
      WaitOver(s, s.calls[a.t]);
    } else if s.calls[a.t].pc.before < s.counter {
      CounterMoved(s, s.calls[a.t]);
    }
  }

  lemma MoverKept(s: State, a: Action)
    requires LiveInv(s) && !s.topCancelled && Enabled(s, a) && !a.Close?
    ensures CallInv(After(s, a), After(s, a).calls[a.t])
  {
    if a.WaitEnds? || a.ReadAfter? {
      WaiterKept(s, a);
    } else if Works(a) {
      WorkerKept(s, a);
    } else {
      StarterKept(s, a);
    }
  }

  lemma InvKept(s: State, a: Action)
    requires Inv(s) && Enabled(s, a)
    ensures Inv(After(s, a))
  {
    var s' := After(s, a);
    if !s'.topCancelled {
      ExecsKept(s, a);
      AttemptsKept(s, a);
      StreamKept(s, a);
      ExclusiveKept(s, a);
      forall t | t in s'.calls ensures CallInv(s', s'.calls[t]) {
        if t == a.t {
          MoverKept(s, a);
        } else {
          OtherKept(s, a, t);
        }
      }
    }
  }

  ghost predicate RunFrom(s: State, states: seq<State>, actions: seq<Action>) {
    && |states| == |actions| + 1
    && states[0] == s
    && forall i | 0 <= i < |actions| :: Step(states[i], actions[i], states[i + 1])
  }

  ghost predicate Run(states: seq<State>, actions: seq<Action>) {
    RunFrom(INITIAL, states, actions)
  }

  lemma {:induction false} InvFrom(s: State, states: seq<State>, actions: seq<Action>, i: nat)
    requires Inv(s) && RunFrom(s, states, actions) && i < |states|
    ensures Inv(states[i])
  {
    if i > 0 {
      InvFrom(s, states, actions, i - 1);
      assert Step(states[i - 1], actions[i - 1], states[i]);
      InvKept(states[i - 1], actions[i - 1]);
    }
  }

  lemma InvAlways(states: seq<State>, actions: seq<Action>, i: nat)
    requires Run(states, actions) && i < |states|
    ensures Inv(states[i])
  {
    InvFrom(INITIAL, states, actions, i);
  }

  /** A goroutine makes one call, and what was noted at its beginning stays. */
  lemma {:induction false} CallStays(states: seq<State>, actions: seq<Action>, j: nat, i: nat, t: Thread)
    requires Run(states, actions) && j < i < |states| && t !in states[j].calls && t in states[j + 1].calls
    ensures t in states[i].calls
    ensures var c, c0 := states[i].calls[t], states[j + 1].calls[t];
      (c.attempts0, c.execs0, c.param0) == (c0.attempts0, c0.execs0, c0.param0)
  {
    if i > j + 1 {
      CallStays(states, actions, j, i - 1, t);
      assert Step(states[i - 1], actions[i - 1], states[i]);
    }
  }

  ghost predicate IsPlain(pc: Pc) {
    !pc.Start? && !pc.Compare? && pc.caller.Plain?
  }

  /** A call of Reconnect never becomes a plain one. */
  lemma {:induction false} NeverPlain(states: seq<State>, actions: seq<Action>, j: nat, i: nat, t: Thread)
    requires Run(states, actions) && j < i < |states|
    requires actions[j] == CallReconnect(t) || actions[j] == Switch(t)
    ensures t in states[i].calls && !IsPlain(states[i].calls[t].pc)
  {
    assert Step(states[i - 1], actions[i - 1], states[i]);
    if i > j + 1 {
      NeverPlain(states, actions, j, i - 1, t);
      PlainStep(states[i - 1], actions[i - 1], t);
    }
  }

  lemma PlainStep(s: State, a: Action, t: Thread)
    requires Enabled(s, a) && t in s.calls && !IsPlain(s.calls[t].pc)
    ensures t in After(s, a).calls && !IsPlain(After(s, a).calls[t].pc)
  {
  }

  /** Whatever others do and however often the counter wraps: when a call of Reconnect that began
      at step j has returned with the top context live, an attempt was counted after step j. */
  lemma ReconnectIsFresh(states: seq<State>, actions: seq<Action>, j: nat, i: nat, t: Thread)
    requires Run(states, actions) && j < i < |states| && !states[i].topCancelled
    requires actions[j] == CallReconnect(t) || actions[j] == Switch(t)
    requires t in states[i].calls && states[i].calls[t].pc.Returned?
    ensures |states[j].attempts| < |states[i].attempts|
  {
    InvAlways(states, actions, i);
    NeverPlain(states, actions, j, i, t);
    assert Step(states[j], actions[j], states[j + 1]);
    CallStays(states, actions, j, i, t);
  }

  /** When Switch has returned, an attempt was counted after it had stored its parameter, and
      every attempt counted since reads that parameter or a later one. */
  lemma SwitchIsRead(states: seq<State>, actions: seq<Action>, j: nat, i: nat, t: Thread)
    requires Run(states, actions) && j < i < |states| && !states[i].topCancelled
    requires actions[j] == Switch(t)
    requires t in states[i].calls && states[i].calls[t].pc.Returned?
    ensures |states[j].attempts| < |states[i].attempts|
    ensures forall k | |states[j].attempts| <= k < |states[i].attempts| ::
      states[i].attempts[k].read.Some? ==> states[j].param + 1 <= states[i].attempts[k].read.value
  {
    ReconnectIsFresh(states, actions, j, i, t);
    InvAlways(states, actions, i);
    assert Step(states[j], actions[j], states[j + 1]);
    CallStays(states, actions, j, i, t);
  }

  /** With the top context live, at most one stream context is live; the context of the stored
      stream is cancelled exactly if a newer one was made, for an attempt that was counted later. */
  lemma OneStreamLive(states: seq<State>, actions: seq<Action>, i: nat)
    requires Run(states, actions) && i < |states| && !states[i].topCancelled
    ensures |states[i].live| <= 1
    ensures states[i].stream.Some? ==>
      var j := states[i].stream.value;
      && j < |states[i].attempts| && states[i].cancelLast.Some?
      && (j !in states[i].live <==> j < states[i].cancelLast.value)
      && (j !in states[i].live ==> j < |states[i].attempts| - 1)
  {
    InvAlways(states, actions, i);
  }

  /** The stored stream is never replaced by one of an older attempt. */
  lemma {:induction false} StreamNeverOlder(states: seq<State>, actions: seq<Action>, j: nat, i: nat)
    requires Run(states, actions) && j <= i < |states| && !states[i].topCancelled && states[j].stream.Some?
    ensures states[i].stream.Some? && states[j].stream.value <= states[i].stream.value
    decreases i - j
  {
    if j < i {
      InvAlways(states, actions, i - 1);
      assert Step(states[i - 1], actions[i - 1], states[i]);
      StreamNeverOlder(states, actions, j, i - 1);
      var a := actions[i - 1];
      if a.Created? {
        assert PcInv(states[i - 1], states[i - 1].calls[a.t]);
      }
    }
  }

  /** While the top context is live at most one goroutine is inside the operation. */
  lemma OneOperation(states: seq<State>, actions: seq<Action>, i: nat)
    requires Run(states, actions) && i < |states| && !states[i].topCancelled
    ensures Exclusive(states[i])
  {
    InvAlways(states, actions, i);
  }

  /** Some continuation of `s`, in which the top context is not cancelled any more, leads to two
      goroutines inside the operation. */
  ghost predicate CanOverlap(s: State) {
    exists states: seq<State>, actions: seq<Action> ::
      RunFrom(s, states, actions) && Close !in actions && !Exclusive(states[|states| - 1])
  }

  lemma {:induction false} StaysLive(s: State, states: seq<State>, actions: seq<Action>, i: nat)
    requires !s.topCancelled && RunFrom(s, states, actions) && Close !in actions && i < |states|
    ensures !states[i].topCancelled
  {
    if i > 0 {
      StaysLive(s, states, actions, i - 1);
      assert Step(states[i - 1], actions[i - 1], states[i]);
    }
  }

  /** Two numbers that no goroutine has. */
  lemma FreshThreads(calls: map<Thread, Call>) returns (t: Thread, u: Thread)
    ensures t !in calls && u !in calls && t != u
  {
    t := Above(calls.Keys);
    u := t + 1;
  }

  lemma {:induction false} Above(threads: set<Thread>) returns (t: Thread)
    ensures forall u | u in threads :: u < t
    decreases |threads|
  {
    t := 0;
    if threads != {} {
      var u :| u in threads;
      var v := Above(threads - {u});
      t := if u < v then v else u + 1;
      assert threads == (threads - {u}) + {u};
    }
  }

  /** A goroutine that calls reconnect under a cancelled parent goes straight into the operation. */
  lemma Enters(s: State, t: Thread) returns (s': State)
    requires s.topCancelled && t !in s.calls
    ensures Enabled(s, CallPlain(t)) && Enabled(After(s, CallPlain(t)), Look(t))
    ensures s' == After(After(s, CallPlain(t)), Look(t))
    ensures s'.topCancelled && s'.calls.Keys == s.calls.Keys + {t}
    ensures InOperation(s'.calls[t].pc) && forall u | u in s.calls :: s'.calls[u] == s.calls[u]
  {
    s' := After(After(s, CallPlain(t)), Look(t));
  }

  /** Executions can overlap exactly when the top context, the parent of all, is cancelled. */
  lemma OverlapIffClosed(s: State)
    requires Inv(s)
    ensures CanOverlap(s) <==> s.topCancelled
  {
    if s.topCancelled {
      var t, u := FreshThreads(s.calls);
      var s2 := Enters(s, t);
      var s4 := Enters(s2, u);
      var states := [s, After(s, CallPlain(t)), s2, After(s2, CallPlain(u)), s4];
      assert s4.calls[t] == s2.calls[t];
      assert RunFrom(s, states, [CallPlain(t), Look(t), CallPlain(u), Look(u)]);
    } else {
      forall states: seq<State>, actions: seq<Action> | RunFrom(s, states, actions) && Close !in actions
        ensures Exclusive(states[|states| - 1])
      {
        InvFrom(s, states, actions, |states| - 1);
        StaysLive(s, states, actions, |states| - 1);
      }
    }
  }

  /** Once the top context is cancelled two goroutines can be inside the operation at a time. */
  lemma OverlapAfterClose() returns (states: seq<State>, actions: seq<Action>)
    ensures Run(states, actions) && !Exclusive(states[|states| - 1])
  {
    actions := [CallPlain(0), Look(0), Close, CallPlain(1), Look(1)];
    var s1 := After(INITIAL, actions[0]);
    var s2 := After(s1, actions[1]);
    var s3 := After(s2, actions[2]);
    var s4 := After(s3, actions[3]);
    var s5 := After(s4, actions[4]);
    states := [INITIAL, s1, s2, s3, s4, s5];
    assert InOperation(s5.calls[0].pc) && InOperation(s5.calls[1].pc);
  }

  // ----- The stored stream, the parameters read, and the second reconnect -----

  /** The creation of attempt j has succeeded in step k, and no other has since. */
  ghost predicate StoredSince(states: seq<State>, actions: seq<Action>, k: nat, i: nat, j: nat)
    requires |states| == |actions| + 1 && k < i <= |actions|
  {
    && StoresIn(states[k], actions[k], j)
    && forall l | k < l < i :: !Stores(actions[l])
  }

  ghost predicate Stored(states: seq<State>, actions: seq<Action>, i: nat, j: nat)
    requires |states| == |actions| + 1 && i <= |actions|
  {
    exists k | 0 <= k < i :: StoredSince(states, actions, k, i, j)
  }

  ghost predicate Stores(a: Action) {
    a.Created? && a.ok
  }

  ghost predicate StoresIn(s: State, a: Action, j: nat) {
    Stores(a) && a.t in s.calls && s.calls[a.t].pc.Dialed? && s.calls[a.t].pc.attempt == j
  }

  lemma StreamStep(s: State, a: Action, j: nat)
    requires Enabled(s, a)
    ensures After(s, a).stream == Some(j) <==> StoresIn(s, a, j) || (s.stream == Some(j) && !Stores(a))
    ensures After(s, a).stream.None? <==> s.stream.None? && !Stores(a)
  {
  }

  /** The stored stream is that of the last attempt whose creation succeeded, and there is none
      exactly if no creation has. */
  lemma {:induction false} StreamIs(states: seq<State>, actions: seq<Action>, i: nat, j: nat)
    requires Run(states, actions) && i < |states|
    ensures states[i].stream == Some(j) <==> Stored(states, actions, i, j)
    ensures states[i].stream.None? <==> forall k | 0 <= k < i :: !Stores(actions[k])
  {
    if i > 0 {
      StreamIs(states, actions, i - 1, j);
      assert Step(states[i - 1], actions[i - 1], states[i]);
      StreamStep(states[i - 1], actions[i - 1], j);
      StoredGrows(states, actions, i - 1, j);
    }
  }

  lemma StoredGrows(states: seq<State>, actions: seq<Action>, i: nat, j: nat)
    requires |states| == |actions| + 1 && i < |actions|
    ensures Stored(states, actions, i + 1, j) <==>
      StoresIn(states[i], actions[i], j) || (Stored(states, actions, i, j) && !Stores(actions[i]))
  {
    var next := i + 1;
    if k :| 0 <= k < next && StoredSince(states, actions, k, next, j) {
      assert k < i ==> StoredSince(states, actions, k, i, j);
    }
    if StoresIn(states[i], actions[i], j) {
      assert StoredSince(states, actions, i, next, j);
    }
    if k :| 0 <= k < i && StoredSince(states, actions, k, i, j) {
      assert !Stores(actions[i]) ==> StoredSince(states, actions, k, next, j);
    }
  }

  ghost predicate ReadsIn(s: State, a: Action, j: nat, v: nat) {
    a.ReadParam? && a.t in s.calls && s.calls[a.t].pc.Dialing? && s.calls[a.t].pc.attempt == j && s.param == v
  }

  /** What the creation of a stream has read is the parameter stored at the moment of reading. */
  lemma {:induction false} ReadIsCurrent(states: seq<State>, actions: seq<Action>, i: nat, j: nat, v: nat)
    requires Run(states, actions) && i < |states| && j < |states[i].attempts| && states[i].attempts[j].read == Some(v)
    ensures exists k | 0 <= k < i :: ReadsIn(states[k], actions[k], j, v)
  {
    var s, a := states[i - 1], actions[i - 1];
    assert Step(s, a, states[i]);
    if !ReadsIn(s, a, j, v) {
      ReadIsCurrent(states, actions, i - 1, j, v);
    }
  }

  /** Unless the counter wrapped in between, Reconnect runs reconnect a second time exactly if no
      attempt was counted between its two looks at the counter. */
  lemma SecondIff(states: seq<State>, actions: seq<Action>, i: nat, t: Thread)
    requires Run(states, actions) && i < |actions| && !states[i].topCancelled && actions[i] == ReadAfter(t)
    ensures t in states[i].calls && states[i].calls[t].pc.Compare? && t in states[i + 1].calls
    ensures var at, now := states[i].calls[t].pc.at, |states[i].attempts|;
      && at <= now
      && (at / WRAP == now / WRAP ==> (states[i + 1].calls[t].pc == Enter(Second) <==> at == now))
    ensures states[i + 1].calls[t].pc in {Enter(Second), Returned(Second)}
  {
    InvAlways(states, actions, i);
    assert Step(states[i], actions[i], states[i + 1]);
    assert PcInv(states[i], states[i].calls[t]);
  }

  // ----- The way of a call, and the end of an execution -----

  /** How far a call has come; the second reconnect of Reconnect counts like the one of a plain call. */
  ghost function Progress(pc: Pc): nat {
    match pc
    case Start => 1
    case Enter(caller) => if caller.First? then 2 else 5
    case Wait(caller, _) => if caller.First? then 3 else 6
    case Compare(_, _) => 4
    case Returned(_) => 7
    case _ => if pc.caller.First? then 3 else 6
  }

  ghost function ProgressOf(s: State, t: Thread): nat {
    if t in s.calls then Progress(s.calls[t].pc) else 0
  }

  lemma ProgressStep(s: State, a: Action, t: Thread)
    requires Enabled(s, a)
    ensures ProgressOf(s, t) <= ProgressOf(After(s, a), t)
    ensures a == Look(t) ==> ProgressOf(s, t) in {2, 5} && ProgressOf(After(s, a), t) == ProgressOf(s, t) + 1
  {
  }

  lemma {:induction false} ProgressGrows(states: seq<State>, actions: seq<Action>, j: nat, i: nat, t: Thread)
    requires Run(states, actions) && j <= i < |states|
    ensures ProgressOf(states[j], t) <= ProgressOf(states[i], t)
  {
    if j < i {
      ProgressGrows(states, actions, j, i - 1, t);
      assert Step(states[i - 1], actions[i - 1], states[i]);
      ProgressStep(states[i - 1], actions[i - 1], t);
    }
  }

  /** A plain call enters SingleWaitExec.Do once; only a call of Reconnect comes to it twice. */
  lemma EntersTwiceAtMost(states: seq<State>, actions: seq<Action>, k: nat, l: nat, t: Thread)
    requires Run(states, actions) && k < l < |actions| && actions[k] == Look(t) && actions[l] == Look(t)
    ensures t in states[k].calls && states[k].calls[t].pc.Enter? && states[k].calls[t].pc.caller.First?
    ensures t in states[l].calls && states[l].calls[t].pc.Enter? && !states[l].calls[t].pc.caller.First?
  {
    assert Step(states[k], actions[k], states[k + 1]);
    assert Step(states[l], actions[l], states[l + 1]);
    ProgressStep(states[k], actions[k], t);
    ProgressGrows(states, actions, k + 1, l, t);
    ProgressStep(states[l], actions[l], t);
  }

  ghost predicate EndsIn(s: State, a: Action, e: nat) {
    a.Finish? && a.t in s.calls && s.calls[a.t].pc.Opened? && s.calls[a.t].pc.exec == e
  }

  /** The context of an execution is cancelled exactly when its goroutine has come to its end: the
      others wait for that, and for nothing else while the top context is live. */
  lemma {:induction false} EndedIff(states: seq<State>, actions: seq<Action>, i: nat, e: nat)
    requires Run(states, actions) && i < |states|
    ensures e in states[i].ended <==> exists k | 0 <= k < i :: EndsIn(states[k], actions[k], e)
  {
    if i > 0 {
      EndedIff(states, actions, i - 1, e);
      assert Step(states[i - 1], actions[i - 1], states[i]);
      EndedStep(states[i - 1], actions[i - 1], e);
      if k :| 0 <= k < i && EndsIn(states[k], actions[k], e) {
        assert k < i - 1 || k == i - 1;
      }
    }
  }

  lemma EndedStep(s: State, a: Action, e: nat)
    requires Enabled(s, a)
    ensures e in After(s, a).ended <==> e in s.ended || EndsIn(s, a, e)
  {
  }

  /** The goroutine runs the execution. */
  ghost predicate Runs(s: State, t: Thread, e: nat) {
    t in s.calls && InOperation(s.calls[t].pc) && s.calls[t].pc.exec == e
  }

  /** Every execution that has begun is over or is run by some goroutine. */
  ghost predicate Owned(s: State) {
    forall e: nat | e < |s.execs| && e !in s.ended :: exists t :: Runs(s, t, e)
  }

  lemma OwnedStep(s: State, a: Action)
    requires Owned(s) && Enabled(s, a)
    ensures Owned(After(s, a))
  {
    var s' := After(s, a);
    forall e: nat | e < |s'.execs| && e !in s'.ended ensures exists t :: Runs(s', t, e) {
      if e < |s.execs| {
        var t :| Runs(s, t, e);
        assert Runs(s', t, e);
      } else {
        assert Runs(s', a.t, e);
      }
    }
  }

  lemma {:induction false} OwnedAlways(states: seq<State>, actions: seq<Action>, i: nat)
    requires Run(states, actions) && i < |states|
    ensures Owned(states[i])
  {
    if i > 0 {
      OwnedAlways(states, actions, i - 1);
      assert Step(states[i - 1], actions[i - 1], states[i]);
      OwnedStep(states[i - 1], actions[i - 1]);
    }
  }

  /** What a goroutine does next where it is. */
  ghost function NextOf(t: Thread, pc: Pc): Action {
    match pc
    case Start => ReadBefore(t)
    case Enter(_) => Look(t)
    case Wait(_, _) => WaitEnds(t)
    case Running(_, _) => Increment(t)
    case Opening(_, _, _) => Renew(t)
    case Dialing(_, _, _) => ReadParam(t)
    case Dialed(_, _, _) => Created(t, false)
    case Opened(_, _) => Finish(t)
    case Compare(_, _) => ReadAfter(t)
    case Returned(_) => Close
  }

  lemma CanGoOn(s: State, t: Thread)
    requires t in s.calls && PcInv(s, s.calls[t]) && !s.calls[t].pc.Returned?
    requires s.calls[t].pc.Wait? ==> s.calls[t].pc.exec in s.ended
    ensures Enabled(s, NextOf(t, s.calls[t].pc))
  {
  }

  /** Nobody waits in vain: with the top context live a call that has not returned can go on, or
      waits for an execution whose goroutine can. */
  lemma NobodyWaitsInVain(states: seq<State>, actions: seq<Action>, i: nat, t: Thread)
    requires Run(states, actions) && i < |states| && !states[i].topCancelled
    requires t in states[i].calls && !states[i].calls[t].pc.Returned?
    ensures var s := states[i];
      || Enabled(s, NextOf(t, s.calls[t].pc))
      || (s.calls[t].pc.Wait? && exists u :: Runs(s, u, s.calls[t].pc.exec) && Enabled(s, NextOf(u, s.calls[u].pc)))
  {
    InvAlways(states, actions, i);
    OwnedAlways(states, actions, i);
    var s := states[i];
    assert PcInv(s, s.calls[t]);
    if s.calls[t].pc.Wait? && s.calls[t].pc.exec !in s.ended {
      var u :| Runs(s, u, s.calls[t].pc.exec);
      assert PcInv(s, s.calls[u]);
      CanGoOn(s, u);
    } else {
      CanGoOn(s, t);
    }
  }
}
