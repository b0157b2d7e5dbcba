// get_redis() run by any number of threads, one shared access at a time.
module RedisClient {
  import opened Options

  datatype Client = Mock(id: nat) | Real(id: nat)

  const RETRY_INTERVAL := 15.0

  // Where a thread is inside a call.  The first group runs without the lock, the second under it.
  // Local variables `client`, `now` and `found` travel with the thread.
  datatype Pc =
    | Start
    | FastClock(client: Option<Client>)
    | FastHasAttempt(client: Option<Client>, now: real)
    | FastInterval(client: Option<Client>, now: real)
    | Locking
    | Recheck
    | SlowClock(client: Option<Client>)
    | SlowHasAttempt(client: Option<Client>, now: real)
    | SlowInterval(client: Option<Client>, now: real)
    | Connecting(client: Option<Client>)
    | Connected(client: Option<Client>, found: Option<nat>)
    | Stamping(client: Option<Client>, found: Option<nat>, stamp: real)
    | Installing(client: Option<Client>, found: Option<nat>)
    | Reading
    | Releasing(result: Option<Client>)
    | Done(result: Option<Client>)

  // `began` is the length of the history, less one, when the call started.
  datatype Thread = Thread(pc: Pc, began: nat)

  datatype Attempt = Attempt(start: real, end: Option<real>)

  // `history` lists every value `_client` has held; `mocks` counts the MockRedis() calls.
  datatype State = State(
    client: Option<Client>,
    lastAttempt: Option<real>,
    lock: Option<nat>,
    clock: real,
    threads: map<nat, Thread>,
    history: seq<Option<Client>>,
    attempts: seq<Attempt>,
    mocks: nat)

  const INITIAL := State(None, None, None, 0.0, map[], [None], [], 0)

  predicate IsReal(c: Option<Client>) {
    c.Some? && c.value.Real?
  }

  // Between taking and releasing the lock.
  predicate Critical(pc: Pc) {
    !(pc.Start? || pc.FastClock? || pc.FastHasAttempt? || pc.FastInterval? || pc.Locking? || pc.Done?)
  }

  // ---------------------------------------------------------------------------
  // Steps
  // ---------------------------------------------------------------------------

  function Goto(s: State, t: nat, pc: Pc): State
    requires t in s.threads
  {
    s.(threads := s.threads[t := s.threads[t].(pc := pc)])
  }

  function BeginAttempt(s: State, t: nat, client: Option<Client>): State
    requires t in s.threads
  {
    Goto(s, t, Connecting(client)).(attempts := s.attempts + [Attempt(s.clock, None)])
  }

  function Install(s: State, c: Client): State {
    s.(client := Some(c), history := s.history + [Some(c)])
  }

  // The globals after the assignment to `_client`.
  function Installed(s: State, client: Option<Client>, found: Option<nat>): State {
    if found.Some? then Install(s, Real(found.value))
    else if client.None? then Install(s, Mock(s.mocks)).(mocks := s.mocks + 1)
    else s
  }

  predicate CanStep(s: State, t: nat) {
    && t in s.threads
    && !s.threads[t].pc.Done?
    && (s.threads[t].pc.Locking? ==> s.lock == None)
    && (s.threads[t].pc.Connecting? ==> s.attempts != [])
  }

  // A step outside the lock; Locking takes it.
  function FastStep(s: State, t: nat): State
    requires CanStep(s, t)
  {
    match s.threads[t].pc
    case Start =>
      if IsReal(s.client) then Goto(s, t, Done(s.client)) else Goto(s, t, FastClock(s.client))
    case FastClock(c) =>
      if c.None? then Goto(s, t, Locking) else Goto(s, t, FastHasAttempt(c, s.clock))
    case FastHasAttempt(c, now) =>
      if s.lastAttempt.None? then Goto(s, t, Locking) else Goto(s, t, FastInterval(c, now))
    case FastInterval(c, now) =>
      if s.lastAttempt.Some? && now - s.lastAttempt.value < RETRY_INTERVAL
      then Goto(s, t, Done(c)) else Goto(s, t, Locking)
    case Locking => Goto(s, t, Recheck).(lock := Some(t))
    case _ => s
  }

  // A step under the lock up to the decision to connect.
  function CheckStep(s: State, t: nat): State
    requires CanStep(s, t)
  {
    match s.threads[t].pc
    case Recheck =>
      if IsReal(s.client) then Goto(s, t, Releasing(s.client)) else Goto(s, t, SlowClock(s.client))
    case SlowClock(c) =>
      if c.None? then BeginAttempt(s, t, c) else Goto(s, t, SlowHasAttempt(c, s.clock))
    case SlowHasAttempt(c, now) =>
      if s.lastAttempt.None? then BeginAttempt(s, t, c) else Goto(s, t, SlowInterval(c, now))
    case SlowInterval(c, now) =>
      if s.lastAttempt.Some? && now - s.lastAttempt.value < RETRY_INTERVAL
      then Goto(s, t, Releasing(c)) else BeginAttempt(s, t, c)
    case Reading => Goto(s, t, Releasing(s.client))
    case Releasing(result) => Goto(s, t, Done(result)).(lock := None)
    case _ => s
  }

  // The attempt itself; `outcome` is the client that _connect_real_redis() returns.
  function AttemptStep(s: State, t: nat, outcome: Option<nat>): State
    requires CanStep(s, t)
  {
    match s.threads[t].pc
    case Connecting(c) =>
      var last := |s.attempts| - 1;
      Goto(s, t, Connected(c, outcome))
      .(attempts := s.attempts[last := s.attempts[last].(end := Some(s.clock))])
    case Connected(c, found) => Goto(s, t, Stamping(c, found, s.clock))
    case Stamping(c, found, stamp) => Goto(s, t, Installing(c, found)).(lastAttempt := Some(stamp))
    case Installing(c, found) => Installed(Goto(s, t, Reading), c, found)
    case _ => s
  }

  predicate Attempting(pc: Pc) {
    pc.Connecting? || pc.Connected? || pc.Stamping? || pc.Installing?
  }

  // One step of thread t.
  function Step(s: State, t: nat, outcome: Option<nat>): State
    requires CanStep(s, t)
  {
    var pc := s.threads[t].pc;
    if !Critical(pc) then FastStep(s, t)
    else if Attempting(pc) then AttemptStep(s, t, outcome)
    else CheckStep(s, t)
  }

  datatype Event = Tick(elapsed: real) | Call(t: nat) | Move(t: nat, outcome: Option<nat>)

  predicate Enabled(s: State, e: Event) {
    match e
    case Tick(elapsed) => elapsed >= 0.0
    case Call(t) => t in s.threads ==> s.threads[t].pc.Done?
    case Move(t, _) => CanStep(s, t)
  }

  function Next(s: State, e: Event): State
    requires Enabled(s, e)
  {
    match e
    case Tick(elapsed) => s.(clock := s.clock + elapsed)
    case Call(t) =>
      s.(threads := s.threads[t := Thread(Start, if |s.history| > 0 then |s.history| - 1 else 0)])
    case Move(t, outcome) => Step(s, t, outcome)
  }

  ghost predicate Run(es: seq<Event>, ss: seq<State>) {
    && |ss| == |es| + 1
    && ss[0] == INITIAL
    && forall i :: 0 <= i < |es| ==> Enabled(ss[i], es[i]) && ss[i + 1] == Next(ss[i], es[i])
  }

  // ---------------------------------------------------------------------------
  // The invariant
  // ---------------------------------------------------------------------------

  // `_client` goes from None to at most one MockRedis to at most one real client.
  predicate HistoryShape(s: State) {
    && 1 <= |s.history| <= 3
    && s.history[0] == None
    && s.history[|s.history| - 1] == s.client
    && (forall i :: 1 <= i < |s.history| ==> s.history[i].Some?)
    && (|s.history| == 3 ==> s.history[1].value.Mock? && IsReal(s.history[2]))
    && s.mocks == (if |s.history| > 1 && s.history[1].value.Mock? then 1 else 0)
  }

  ghost predicate Mutex(s: State) {
    && (forall t :: t in s.threads ==> (Critical(s.threads[t].pc) <==> s.lock == Some(t)))
    && (s.lock.Some? ==> s.lock.value in s.threads)
  }

  // The value c was held at or after the `began`-th entry of the history.
  predicate HeldSince(s: State, began: nat, c: Option<Client>) {
    exists i :: began <= i < |s.history| && s.history[i] == c
  }

  predicate ThreadOk(s: State, th: Thread) {
    && th.began < |s.history|
    && match th.pc
       case FastClock(c) => HeldSince(s, th.began, c) && !IsReal(c)
       case FastHasAttempt(c, now) => HeldSince(s, th.began, c) && c.Some?
       case FastInterval(c, now) => HeldSince(s, th.began, c) && c.Some?
       case SlowClock(c) => c == s.client && !IsReal(c)
       case SlowHasAttempt(c, now) => c == s.client && c.Some? && !IsReal(c) && now <= s.clock
       case SlowInterval(c, now) => c == s.client && c.Some? && !IsReal(c) && now <= s.clock && s.lastAttempt.Some?
       case Connecting(c) => c == s.client && !IsReal(c)
       case Connected(c, _) => c == s.client && !IsReal(c)
       case Stamping(c, _, _) => c == s.client && !IsReal(c)
       case Installing(c, _) => c == s.client && !IsReal(c)
       case Reading => s.client.Some?
       case Releasing(r) => r == s.client && r.Some?
       case Done(r) => r.Some? && HeldSince(s, th.began, r)
       case _ => true
  }

  ghost predicate ThreadsOk(s: State) {
    forall t :: t in s.threads ==> ThreadOk(s, s.threads[t])
  }

  predicate Ended(a: Attempt) {
    a.end.Some?
  }

  // An attempt does not end before it starts, nor start in the future.
  predicate Timely(s: State, a: Attempt) {
    a.start <= s.clock && (Ended(a) ==> a.start <= a.end.value)
  }

  // Every attempt but the last has ended, at least the retry interval before the next one starts.
  ghost predicate Spaced(s: State) {
    && (forall i :: 0 <= i < |s.attempts| ==> Timely(s, s.attempts[i]))
    && (forall i :: 0 <= i < |s.attempts| - 1 ==>
          Ended(s.attempts[i]) && s.attempts[i + 1].start >= s.attempts[i].end.value + RETRY_INTERVAL)
  }

  function HolderPc(s: State): Option<Pc> {
    if s.lock.Some? && s.lock.value in s.threads then Some(s.threads[s.lock.value].pc) else None
  }

  predicate LastEndedBy(s: State, at: real) {
    s.attempts != [] && Ended(s.attempts[|s.attempts| - 1]) && s.attempts[|s.attempts| - 1].end.value <= at
  }

  // The last attempt and its time stamp, by what the lock holder is doing.
  predicate Stamped(s: State) {
    match HolderPc(s)
    case Some(Connecting(_)) => s.attempts != []
    case Some(Connected(_, _)) => LastEndedBy(s, s.clock)
    case Some(Stamping(_, _, stamp)) => LastEndedBy(s, stamp)
    case Some(Installing(_, _)) => s.lastAttempt.Some? && LastEndedBy(s, s.lastAttempt.value)
    case _ =>
      if s.lastAttempt.None? then s.attempts == [] && s.client == None
      else LastEndedBy(s, s.lastAttempt.value) && s.client.Some?
  }

  ghost predicate Inv(s: State) {
    HistoryShape(s) && Mutex(s) && ThreadsOk(s) && Spaced(s) && Stamped(s)
  }

  // ---------------------------------------------------------------------------
  // Preservation
  // ---------------------------------------------------------------------------

  // Whatever thread t does, it changes its own place only, keeps the clock and extends the history.
  predicate Moved(s: State, n: State, t: nat) {
    && t in s.threads && t in n.threads
    && n.threads == s.threads[t := Thread(n.threads[t].pc, s.threads[t].began)]
    && n.clock == s.clock
    && s.history <= n.history
  }

  // What is shared is untouched.
  predicate SameShared(s: State, n: State) {
    && n.client == s.client && n.history == s.history && n.mocks == s.mocks
    && n.attempts == s.attempts && n.lastAttempt == s.lastAttempt
  }

  lemma HeldStays(s: State, n: State, began: nat, c: Option<Client>)
    requires s.history <= n.history && HeldSince(s, began, c)
    ensures HeldSince(n, began, c)
  {
    var i :| began <= i < |s.history| && s.history[i] == c;
    assert n.history[i] == c;
  }

  lemma HeldNow(s: State, began: nat)
    requires began < |s.history| && s.history[|s.history| - 1] == s.client
    ensures HeldSince(s, began, s.client)
  {
  }

  // A thread that does not move stays fine, unless it shares the critical section, which Mutex rules out.
  lemma OtherThreadOk(s: State, n: State, t: nat, u: nat)
    requires Moved(s, n, t) && u in s.threads && u != t && ThreadOk(s, s.threads[u])
    requires Critical(s.threads[u].pc) ==> SameShared(s, n)
    ensures ThreadOk(n, n.threads[u])
  {
    var began := s.threads[u].began;
    match s.threads[u].pc
    case FastClock(c) => HeldStays(s, n, began, c);
    case FastHasAttempt(c, _) => HeldStays(s, n, began, c);
    case FastInterval(c, _) => HeldStays(s, n, began, c);
    case Done(c) => HeldStays(s, n, began, c);
    case _ =>
  }

  // The parts of Inv after a move, given the moving thread's own part.
  lemma MovedInv(s: State, n: State, t: nat)
    requires Inv(s) && Moved(s, n, t) && ThreadOk(n, n.threads[t])
    requires HistoryShape(n) && Spaced(n) && Stamped(n)
    requires !Critical(s.threads[t].pc) ==> SameShared(s, n)
    requires n.lock == if Critical(n.threads[t].pc) then Some(t) else if Critical(s.threads[t].pc) then None else s.lock
    requires Critical(n.threads[t].pc) ==> Critical(s.threads[t].pc) || s.lock == None
    ensures Inv(n)
  {
    assert Mutex(n) by {
      hide ThreadOk, HistoryShape, Spaced, Stamped;
    }
    forall u | u in n.threads
      ensures ThreadOk(n, n.threads[u])
    {
      if u != t {
        assert ThreadOk(s, s.threads[u]);
        OtherThreadOk(s, n, t, u);
      }
    }
    hide ThreadOk, HistoryShape, Spaced, Stamped, Mutex;
    InvIntro(n);
  }

  lemma FastPreserves(s: State, t: nat)
    requires Inv(s) && CanStep(s, t) && !Critical(s.threads[t].pc)
    ensures Inv(FastStep(s, t))
  {
    var n := FastStep(s, t);
    assert ThreadOk(s, s.threads[t]);
    assert s.lock != Some(t);
    FastFrame(s, t);
    FastOwn(s, t);
    hide ThreadOk, FastStep;
    assert HolderPc(n) == HolderPc(s) || (HolderPc(s) == None && HolderPc(n) == Some(Recheck));
    assert Stamped(n) && Spaced(n) && HistoryShape(n);
    hide HistoryShape, Spaced, Stamped, Inv;
    MovedInv(s, n, t);
  }

  lemma FastFrame(s: State, t: nat)
    requires CanStep(s, t) && !Critical(s.threads[t].pc)
    ensures var n := FastStep(s, t);
            && Moved(s, n, t) && SameShared(s, n)
            && n.lock == (if Critical(n.threads[t].pc) then Some(t) else s.lock)
            && (Critical(n.threads[t].pc) ==> s.lock == None && n.threads[t].pc.Recheck?)
  {
  }

  lemma FastOwn(s: State, t: nat)
    requires HistoryShape(s) && CanStep(s, t) && !Critical(s.threads[t].pc) && ThreadOk(s, s.threads[t])
    ensures ThreadOk(FastStep(s, t), FastStep(s, t).threads[t])
  {
    var n, th := FastStep(s, t), s.threads[t];
    assert n.history == s.history && n.client == s.client;
    HeldNow(s, th.began);
    assert forall c :: HeldSince(n, th.began, c) <==> HeldSince(s, th.began, c);
    hide HeldSince, HistoryShape;
  }

  lemma CheckPreserves(s: State, t: nat)
    requires Inv(s) && CanStep(s, t) && Critical(s.threads[t].pc) && !Attempting(s.threads[t].pc)
    ensures Inv(CheckStep(s, t))
  {
    var n := CheckStep(s, t);
    assert ThreadOk(s, s.threads[t]);
    assert HolderPc(s) == Some(s.threads[t].pc);
    CheckFrame(s, t);
    CheckOwn(s, t);
    CheckAttempts(s, t);
    hide ThreadOk, CheckStep;
    assert HistoryShape(n);
    hide HistoryShape, Spaced, Stamped, Inv;
    MovedInv(s, n, t);
  }

  lemma CheckFrame(s: State, t: nat)
    requires CanStep(s, t) && Critical(s.threads[t].pc) && !Attempting(s.threads[t].pc) && s.lock == Some(t)
    ensures var n := CheckStep(s, t);
            && Moved(s, n, t)
            && n.client == s.client && n.history == s.history && n.mocks == s.mocks && n.lastAttempt == s.lastAttempt
            && n.lock == (if Critical(n.threads[t].pc) then Some(t) else None)
  {
  }

  lemma CheckOwn(s: State, t: nat)
    requires HistoryShape(s) && CanStep(s, t) && Critical(s.threads[t].pc) && !Attempting(s.threads[t].pc)
    requires ThreadOk(s, s.threads[t]) && Stamped(s) && HolderPc(s) == Some(s.threads[t].pc)
    ensures ThreadOk(CheckStep(s, t), CheckStep(s, t).threads[t])
  {
    var n := CheckStep(s, t);
    assert n.client == s.client && n.history == s.history;
    HeldNow(n, s.threads[t].began);
  }

  lemma CheckAttempts(s: State, t: nat)
    requires Spaced(s) && Stamped(s) && CanStep(s, t) && ThreadOk(s, s.threads[t])
    requires HolderPc(s) == Some(s.threads[t].pc) && s.lock == Some(t) && !Attempting(s.threads[t].pc)
    ensures Spaced(CheckStep(s, t)) && Stamped(CheckStep(s, t))
  {
    hide HeldSince;
  }

  lemma AttemptPreserves(s: State, t: nat, outcome: Option<nat>)
    requires Inv(s) && CanStep(s, t) && Attempting(s.threads[t].pc)
    ensures Inv(AttemptStep(s, t, outcome))
  {
    assert ThreadOk(s, s.threads[t]);
    assert HolderPc(s) == Some(s.threads[t].pc);
    if s.threads[t].pc.Installing? {
      InstallFrame(s, t, outcome);
    } else {
      AttemptFrame(s, t, outcome);
    }
    AttemptAttempts(s, t, outcome);
    hide ThreadOk, HistoryShape, Spaced, Stamped, Inv, AttemptStep;
    MovedInv(s, AttemptStep(s, t, outcome), t);
  }

  lemma AttemptFrame(s: State, t: nat, outcome: Option<nat>)
    requires HistoryShape(s) && CanStep(s, t) && Attempting(s.threads[t].pc) && s.lock == Some(t)
    requires ThreadOk(s, s.threads[t]) && !s.threads[t].pc.Installing?
    ensures var n := AttemptStep(s, t, outcome);
            && Moved(s, n, t) && HistoryShape(n) && ThreadOk(n, n.threads[t])
            && n.lock == Some(t) && Critical(n.threads[t].pc)
  {
    hide HeldSince;
    HistoryOnly(s, AttemptStep(s, t, outcome));
    hide HistoryShape;
  }

  lemma InstallFrame(s: State, t: nat, outcome: Option<nat>)
    requires HistoryShape(s) && CanStep(s, t) && s.lock == Some(t)
    requires ThreadOk(s, s.threads[t]) && s.threads[t].pc.Installing?
    ensures var n := AttemptStep(s, t, outcome);
            && Moved(s, n, t) && HistoryShape(n) && ThreadOk(n, n.threads[t])
            && n.lock == Some(t) && Critical(n.threads[t].pc)
  {
    hide HeldSince, HistoryShape;
    var pc, n := s.threads[t].pc, AttemptStep(s, t, outcome);
    var i := Installed(s, pc.client, pc.found);
    assert n == i.(threads := s.threads[t := Thread(Reading, s.threads[t].began)]);
    InstallHistory(s, pc.client, pc.found);
    HistoryOnly(i, n);
    assert |s.history| <= |n.history|;
  }

  lemma InstallHistory(s: State, client: Option<Client>, found: Option<nat>)
    requires HistoryShape(s) && client == s.client && !IsReal(client)
    ensures HistoryShape(Installed(s, client, found)) && Installed(s, client, found).client.Some?
    ensures s.history <= Installed(s, client, found).history
  {
  }

  lemma AttemptAttempts(s: State, t: nat, outcome: Option<nat>)
    requires Spaced(s) && Stamped(s) && CanStep(s, t) && ThreadOk(s, s.threads[t])
    requires HolderPc(s) == Some(s.threads[t].pc) && s.lock == Some(t) && Attempting(s.threads[t].pc)
    ensures Spaced(AttemptStep(s, t, outcome)) && Stamped(AttemptStep(s, t, outcome))
  {
    hide HeldSince;
  }

  lemma InvIntro(s: State)
    requires HistoryShape(s) && Mutex(s) && Spaced(s) && Stamped(s)
    requires forall t :: t in s.threads ==> ThreadOk(s, s.threads[t])
    ensures Inv(s)
  {
  }

  lemma TickPreserves(s: State, elapsed: real)
    requires Inv(s) && elapsed >= 0.0
    ensures Inv(s.(clock := s.clock + elapsed))
  {
    var n := s.(clock := s.clock + elapsed);
    forall t | t in n.threads
      ensures ThreadOk(n, n.threads[t])
    {
      assert ThreadOk(s, s.threads[t]);
      assert forall c :: HeldSince(n, n.threads[t].began, c) <==> HeldSince(s, n.threads[t].began, c);
    }
    assert HolderPc(n) == HolderPc(s);
    hide ThreadOk, HistoryShape;
    assert HistoryShape(n) by {
      HistoryOnly(s, n);
    }
    InvIntro(n);
  }

  lemma HistoryOnly(s: State, n: State)
    requires HistoryShape(s) && n.history == s.history && n.client == s.client && n.mocks == s.mocks
    ensures HistoryShape(n)
  {
  }

  lemma CallPreserves(s: State, t: nat)
    requires Inv(s) && Enabled(s, Call(t))
    ensures Inv(Next(s, Call(t)))
  {
    var n := Next(s, Call(t));
    HistoryOnly(s, n);
    forall u | u in n.threads
      ensures ThreadOk(n, n.threads[u])
    {
      if u != t {
        assert ThreadOk(s, s.threads[u]);
        assert forall c :: HeldSince(n, n.threads[u].began, c) <==> HeldSince(s, n.threads[u].began, c);
      }
    }
    assert s.lock.Some? ==> s.lock.value != t;
    assert HolderPc(n) == HolderPc(s);
    hide ThreadOk, HistoryShape;
    InvIntro(n);
  }

  lemma StepPreserves(s: State, e: Event)
    requires Inv(s) && Enabled(s, e)
    ensures Inv(Next(s, e))
  {
    hide Inv, FastStep, CheckStep, AttemptStep;
    match e
    case Tick(elapsed) => TickPreserves(s, elapsed);
    case Call(t) => CallPreserves(s, t);
    case Move(t, outcome) =>
      if !Critical(s.threads[t].pc) {
        FastPreserves(s, t);
      } else if Attempting(s.threads[t].pc) {
        AttemptPreserves(s, t, outcome);
      } else {
        CheckPreserves(s, t);
      }
  }

  lemma StepExtendsHistory(s: State, e: Event)
    requires Enabled(s, e)
    ensures s.history <= Next(s, e).history
  {
  }

  lemma {:induction false} RunKeepsInv(es: seq<Event>, ss: seq<State>, n: nat)
    requires Run(es, ss) && n < |ss|
    ensures Inv(ss[n])
  {
    if n > 0 {
      RunKeepsInv(es, ss, n - 1);
      StepPreserves(ss[n - 1], es[n - 1]);
    }
  }

  // ---------------------------------------------------------------------------
  // Theorems about every run of any number of threads
  // ---------------------------------------------------------------------------

  lemma {:induction false} HistoryGrows(es: seq<Event>, ss: seq<State>, i: nat, j: nat)
    requires Run(es, ss) && i <= j < |ss|
    ensures ss[i].history <= ss[j].history
  {
    if i < j {
      HistoryGrows(es, ss, i, j - 1);
      StepExtendsHistory(ss[j - 1], es[j - 1]);
    }
  }

  // A real client, once installed, is never replaced.
  lemma RealClientIsKept(es: seq<Event>, ss: seq<State>, i: nat, j: nat)
    requires Run(es, ss) && i <= j < |ss| && IsReal(ss[i].client)
    ensures ss[j].client == ss[i].client
  {
    RunKeepsInv(es, ss, i);
    RunKeepsInv(es, ss, j);
    HistoryGrows(es, ss, i, j);
    var last := |ss[i].history| - 1;
    assert ss[j].history[last] == ss[i].client;
    hide Run, Mutex, ThreadsOk, Spaced, Stamped;
  }

  // `_client` starts empty, and whatever it holds later is one MockRedis, then one real client.
  lemma OneMockOneReal(es: seq<Event>, ss: seq<State>, n: nat)
    requires Run(es, ss) && n < |ss|
    ensures ss[n].mocks <= 1
    ensures ss[n].history == [None]
         || (exists a: nat :: ss[n].history == [None, Some(Mock(a))])
         || (exists b: nat :: ss[n].history == [None, Some(Real(b))])
         || (exists a: nat, b: nat :: ss[n].history == [None, Some(Mock(a)), Some(Real(b))])
    ensures ss[n].client == ss[n].history[|ss[n].history| - 1]
  {
    RunKeepsInv(es, ss, n);
    var h := ss[n].history;
    hide Run, Mutex, ThreadsOk, Spaced, Stamped;
    if |h| == 1 {
      assert h == [None];
    } else if |h| == 2 {
      assert h == [None, h[1]];
      assert h == [None, Some(Mock(h[1].value.id))] || h == [None, Some(Real(h[1].value.id))];
    } else {
      assert h == [None, Some(Mock(h[1].value.id)), Some(Real(h[2].value.id))];
    }
  }

  // Each connection attempt starts at least 15 s after the one before it ended,
  // so n attempts take at least n - 1 times that, however many threads call.
  lemma {:induction false} AttemptsAreSpaced(es: seq<Event>, ss: seq<State>, n: nat, i: nat, j: nat)
    requires Run(es, ss) && n < |ss| && i < j < |ss[n].attempts|
    ensures ss[n].attempts[i].end.Some?
    ensures ss[n].attempts[j].start >= ss[n].attempts[i].end.value + 15.0 * ((j - i) as real)
    decreases j
  {
    RunKeepsInv(es, ss, n);
    if i + 1 < j {
      AttemptsAreSpaced(es, ss, n, i, j - 1);
      var a := ss[n].attempts[j - 1];
      assert Ended(a) && Timely(ss[n], a);
      assert 15.0 * ((j - i) as real) == 15.0 * ((j - 1 - i) as real) + 15.0;
    }
  }

  // A finished call returns a client that `_client` held at some instant between call and return.
  lemma CallsReturnHeldClients(es: seq<Event>, ss: seq<State>, n: nat, t: nat)
    requires Run(es, ss) && n < |ss| && t in ss[n].threads && ss[n].threads[t].pc.Done?
    ensures var th := ss[n].threads[t];
            && th.pc.result.Some?
            && exists i :: th.began <= i < |ss[n].history| && ss[n].history[i] == th.pc.result
  {
    RunKeepsInv(es, ss, n);
    assert ThreadOk(ss[n], ss[n].threads[t]);
  }

  // At most one thread is between taking and releasing the lock.
  lemma MutualExclusion(es: seq<Event>, ss: seq<State>, n: nat, t: nat, u: nat)
    requires Run(es, ss) && n < |ss| && t in ss[n].threads && u in ss[n].threads
    requires Critical(ss[n].threads[t].pc) && Critical(ss[n].threads[u].pc)
    ensures t == u
  {
    RunKeepsInv(es, ss, n);
  }

  // ---------------------------------------------------------------------------
  // A call that nobody disturbs
  // ---------------------------------------------------------------------------

  datatype Globals = Globals(client: Option<Client>, lastAttempt: Option<real>, mocks: nat)

  function GlobalsOf(s: State): Globals {
    Globals(s.client, s.lastAttempt, s.mocks)
  }

  predicate Recent(g: Globals, now: real) {
    g.client.Some? && g.lastAttempt.Some? && now - g.lastAttempt.value < 15.0
  }

  // The globals after one call, whose result is the client then held; `now` and `again` are the clock
  // readings before the decision, `found` what the attempt returns, `stamp` the reading after it.
  function Undisturbed(g: Globals, now: real, again: real, found: Option<nat>, stamp: real): Globals {
    if IsReal(g.client) || Recent(g, now) || Recent(g, again) then g
    else if found.Some? then Globals(Some(Real(found.value)), Some(stamp), g.mocks)
    else if g.client.None? then Globals(Some(Mock(g.mocks)), Some(stamp), g.mocks + 1)
    else g.(lastAttempt := Some(stamp))
  }

  // From s to n by steps of thread t and by time passing.
  ghost predicate Reaches(s: State, t: nat, n: State) {
    exists es: seq<Event>, ss: seq<State> :: SoloPath(s, t, n, es, ss)
  }

  ghost predicate SoloPath(s: State, t: nat, n: State, es: seq<Event>, ss: seq<State>) {
    && |ss| == |es| + 1 && ss[0] == s && ss[|es|] == n
    && forall i :: 0 <= i < |es| ==> Solo(t, es[i]) && Enabled(ss[i], es[i]) && ss[i + 1] == Next(ss[i], es[i])
  }

  predicate Solo(t: nat, e: Event) {
    e.Tick? || (e.Move? && e.t == t)
  }

  lemma ReachSelf(s: State, t: nat)
    ensures Reaches(s, t, s)
  {
    assert SoloPath(s, t, s, [], [s]);
  }

  lemma ReachStep(s: State, t: nat, m: State, e: Event)
    requires Reaches(s, t, m) && Solo(t, e) && Enabled(m, e)
    ensures Reaches(s, t, Next(m, e))
  {
    hide Enabled, Next, Solo;
    var es: seq<Event>, ss: seq<State> :| SoloPath(s, t, m, es, ss);
    assert SoloPath(s, t, Next(m, e), es + [e], ss + [Next(m, e)]);
  }

  lemma MoveOn(s: State, t: nat, m: State, outcome: Option<nat>) returns (n: State)
    requires Reaches(s, t, m) && CanStep(m, t)
    ensures n == Step(m, t, outcome) && Reaches(s, t, n)
  {
    hide Reaches;
    n := Next(m, Move(t, outcome));
    ReachStep(s, t, m, Move(t, outcome));
  }

  lemma WaitUntil(s: State, t: nat, m: State, clock: real) returns (n: State)
    requires Reaches(s, t, m) && m.clock <= clock
    ensures n == m.(clock := clock) && Reaches(s, t, n)
  {
    hide Reaches;
    n := Next(m, Tick(clock - m.clock));
    ReachStep(s, t, m, Tick(clock - m.clock));
  }

  predicate At(s: State, t: nat, pc: Pc) {
    t in s.threads && s.threads[t].pc == pc
  }

  // The part without the lock: done at once, or at the lock.
  lemma FastPart(s: State, t: nat, m: State, now: real) returns (n: State)
    requires Reaches(s, t, m) && At(m, t, Start) && m.clock <= now
    ensures Reaches(s, t, n) && GlobalsOf(n) == GlobalsOf(m) && n.lock == m.lock && n.clock <= now
    ensures At(n, t, if IsReal(m.client) || Recent(GlobalsOf(m), now) then Done(m.client) else Locking)
  {
    hide Reaches;
    n := MoveOn(s, t, m, None);
    if !IsReal(m.client) {
      n := WaitUntil(s, t, n, now);
      n := MoveOn(s, t, n, None);
      if m.client.Some? {
        n := MoveOn(s, t, n, None);
        if m.lastAttempt.Some? {
          n := MoveOn(s, t, n, None);
        }
      }
    }
  }

  // The part under the lock up to the decision.
  lemma SlowPart(s: State, t: nat, m: State, again: real) returns (n: State)
    requires Reaches(s, t, m) && At(m, t, Locking) && m.lock == None && m.clock <= again
    ensures Reaches(s, t, n) && GlobalsOf(n) == GlobalsOf(m) && n.clock <= again
    ensures if IsReal(m.client) || Recent(GlobalsOf(m), again) then At(n, t, Releasing(m.client))
            else At(n, t, Connecting(m.client)) && n.attempts != []
  {
    hide Reaches;
    n := MoveOn(s, t, m, None);
    n := MoveOn(s, t, n, None);
    if !IsReal(m.client) {
      n := WaitUntil(s, t, n, again);
      n := MoveOn(s, t, n, None);
      if m.client.Some? {
        n := MoveOn(s, t, n, None);
        if m.lastAttempt.Some? {
          n := MoveOn(s, t, n, None);
        }
      }
    }
  }

  // The attempt, up to its time stamp.
  lemma ConnectPart(s: State, t: nat, m: State, found: Option<nat>, stamp: real) returns (n: State)
    requires Reaches(s, t, m) && At(m, t, Connecting(m.client)) && m.attempts != [] && m.clock <= stamp
    ensures Reaches(s, t, n) && At(n, t, Stamping(m.client, found, stamp)) && GlobalsOf(n) == GlobalsOf(m) && n.clock == stamp
  {
    hide Reaches;
    n := MoveOn(s, t, m, found);
    n := WaitUntil(s, t, n, stamp);
    n := MoveOn(s, t, n, None);
  }

  // The attempt and what it leaves.
  lemma AttemptPart(s: State, t: nat, m: State, found: Option<nat>, stamp: real) returns (n: State)
    requires Reaches(s, t, m) && At(m, t, Connecting(m.client)) && m.attempts != [] && m.clock <= stamp
    ensures Reaches(s, t, n) && At(n, t, Releasing(n.client)) && n.clock == stamp
    ensures GlobalsOf(n) == if found.Some? then Globals(Some(Real(found.value)), Some(stamp), m.mocks)
                            else if m.client.None? then Globals(Some(Mock(m.mocks)), Some(stamp), m.mocks + 1)
                            else Globals(m.client, Some(stamp), m.mocks)
  {
    hide Reaches;
    n := ConnectPart(s, t, m, found, stamp);
    n := MoveOn(s, t, n, None);
    assert At(n, t, Installing(m.client, found)) && GlobalsOf(n) == GlobalsOf(m).(lastAttempt := Some(stamp));
    n := MoveOn(s, t, n, None);
    assert At(n, t, Reading);
    n := MoveOn(s, t, n, None);
  }

  // A thread that starts a call while the lock is free, and is not interfered with, can finish it with
  // exactly these globals, holding the client it returns.
  lemma SoloCall(s: State, t: nat, now: real, again: real, found: Option<nat>, stamp: real) returns (n: State)
    requires At(s, t, Start) && s.lock == None && s.clock <= now <= again <= stamp
    ensures Reaches(s, t, n) && GlobalsOf(n) == Undisturbed(GlobalsOf(s), now, again, found, stamp)
    ensures At(n, t, Done(n.client))
  {
    hide Reaches, Step, CanStep;
    ReachSelf(s, t);
    n := FastPart(s, t, s, now);
    if At(n, t, Locking) {
      n := SlowPart(s, t, n, again);
      if !At(n, t, Releasing(n.client)) {
        n := AttemptPart(s, t, n, found, stamp);
      }
      n := ReleasePart(s, t, n);
    }
  }

  lemma ReleasePart(s: State, t: nat, m: State) returns (n: State)
    requires Reaches(s, t, m) && At(m, t, Releasing(m.client))
    ensures Reaches(s, t, n) && At(n, t, Done(n.client)) && GlobalsOf(n) == GlobalsOf(m)
  {
    hide Reaches;
    n := MoveOn(s, t, m, None);
  }

  // The clock readings and the outcome of the attempt that explain where a call has got to.
  datatype Readings = Readings(now: real, again: real, found: Option<nat>, stamp: real)

  // Past the first reading, which was no reason to return.
  predicate Slow(s: State, m: State, r: Readings) {
    && GlobalsOf(m) == GlobalsOf(s) && !IsReal(s.client)
    && s.clock <= r.now <= m.clock && !Recent(GlobalsOf(s), r.now)
  }

  // Past the second.
  predicate Deciding(s: State, m: State, r: Readings) {
    && !IsReal(s.client) && s.clock <= r.now <= r.again <= m.clock
    && !Recent(GlobalsOf(s), r.now) && !Recent(GlobalsOf(s), r.again)
  }

  predicate Decided(s: State, m: State, r: Readings, result: Option<Client>) {
    && s.clock <= r.now <= r.again <= r.stamp <= m.clock && result == m.client
    && GlobalsOf(m) == Undisturbed(GlobalsOf(s), r.now, r.again, r.found, r.stamp)
  }

  // What an undisturbed call of thread t that started in s has done by the time it is in m.
  predicate Explains(s: State, m: State, t: nat, r: Readings) {
    t in m.threads && s.clock <= m.clock &&
    match m.threads[t].pc
    case Start => GlobalsOf(m) == GlobalsOf(s)
    case FastClock(c) => GlobalsOf(m) == GlobalsOf(s) && c == s.client && !IsReal(c)
    case FastHasAttempt(c, now) => GlobalsOf(m) == GlobalsOf(s) && c == s.client && c.Some? && !IsReal(c) && s.clock <= now <= m.clock
    case FastInterval(c, now) => GlobalsOf(m) == GlobalsOf(s) && c == s.client && c.Some? && !IsReal(c) && s.clock <= now <= m.clock
    case Locking => Slow(s, m, r)
    case Recheck => Slow(s, m, r)
    case SlowClock(c) => Slow(s, m, r) && c == s.client
    case SlowHasAttempt(c, again) => Slow(s, m, r) && c == s.client && c.Some? && r.now <= again <= m.clock
    case SlowInterval(c, again) => Slow(s, m, r) && c == s.client && c.Some? && r.now <= again <= m.clock
    case Connecting(c) => GlobalsOf(m) == GlobalsOf(s) && Deciding(s, m, r) && c == s.client
    case Connected(c, found) => GlobalsOf(m) == GlobalsOf(s) && Deciding(s, m, r) && c == s.client && r.found == found
    case Stamping(c, found, stamp) =>
      GlobalsOf(m) == GlobalsOf(s) && Deciding(s, m, r) && c == s.client && r.found == found && r.again <= stamp <= m.clock
    case Installing(c, found) =>
      && GlobalsOf(m) == GlobalsOf(s).(lastAttempt := Some(r.stamp)) && Deciding(s, m, r) && c == s.client
      && r.found == found && r.again <= r.stamp <= m.clock
    case Reading => Decided(s, m, r, m.client)
    case Releasing(result) => Decided(s, m, r, result)
    case Done(result) => Decided(s, m, r, result)
  }

  lemma FastExplained(s: State, m: State, t: nat, r: Readings) returns (r': Readings)
    requires Explains(s, m, t, r) && CanStep(m, t) && !Critical(m.threads[t].pc)
    ensures Explains(s, FastStep(m, t), t, r')
  {
    match m.threads[t].pc
    case Start => r' := Readings(m.clock, m.clock, None, m.clock);
    case FastClock(c) => r' := r.(now := m.clock);
    case FastHasAttempt(c, now) => r' := r.(now := now);
    case FastInterval(c, now) => r' := Readings(now, now, None, now);
    case _ => r' := r;
  }

  lemma CheckExplained(s: State, m: State, t: nat, r: Readings) returns (r': Readings)
    requires Explains(s, m, t, r) && CanStep(m, t) && Critical(m.threads[t].pc) && !Attempting(m.threads[t].pc)
    ensures Explains(s, CheckStep(m, t), t, r')
  {
    match m.threads[t].pc
    case SlowClock(c) => r' := r.(again := m.clock);
    case SlowHasAttempt(c, again) => r' := r.(again := again);
    case SlowInterval(c, again) => r' := r.(again := again, stamp := again);
    case _ => r' := r;
  }

  lemma AttemptExplained(s: State, m: State, t: nat, r: Readings, outcome: Option<nat>) returns (r': Readings)
    requires Explains(s, m, t, r) && CanStep(m, t) && Attempting(m.threads[t].pc)
    ensures Explains(s, AttemptStep(m, t, outcome), t, r')
  {
    match m.threads[t].pc
    case Connecting(c) => r' := r.(found := outcome);
    case Stamping(c, found, stamp) => r' := r.(stamp := stamp);
    case _ => r' := r;
  }

  lemma SoloStepExplained(s: State, m: State, t: nat, e: Event, r: Readings) returns (r': Readings)
    requires Explains(s, m, t, r) && Solo(t, e) && Enabled(m, e)
    ensures Explains(s, Next(m, e), t, r')
  {
    match e
    case Tick(_) => r' := r;
    case Move(_, outcome) =>
      hide Explains, FastStep, CheckStep, AttemptStep;
      assert t in m.threads;
      if !Critical(m.threads[t].pc) {
        r' := FastExplained(s, m, t, r);
      } else if Attempting(m.threads[t].pc) {
        r' := AttemptExplained(s, m, t, r, outcome);
      } else {
        r' := CheckExplained(s, m, t, r);
      }
  }

  lemma {:induction false} SoloPathExplained(s: State, t: nat, n: State, es: seq<Event>, ss: seq<State>, k: nat) returns (r: Readings)
    requires SoloPath(s, t, n, es, ss) && At(s, t, Start) && k < |ss|
    ensures Explains(s, ss[k], t, r)
  {
    if k == 0 {
      r := Readings(s.clock, s.clock, None, s.clock);
    } else {
      hide Explains, Next, Enabled, Solo;
      var before := SoloPathExplained(s, t, n, es, ss, k - 1);
      r := SoloStepExplained(s, ss[k - 1], t, es[k - 1], before);
    }
  }

  // The converse of SoloCall: however a thread's undisturbed call proceeds, and however much time passes
  // on the way, once it is done the globals and the result are those of the specification, for readings
  // taken during the call.
  lemma EverySoloCall(s: State, t: nat, n: State, es: seq<Event>, ss: seq<State>, result: Option<Client>) returns (r: Readings)
    requires SoloPath(s, t, n, es, ss) && At(s, t, Start) && At(n, t, Done(result))
    ensures s.clock <= r.now <= r.again <= r.stamp <= n.clock
    ensures GlobalsOf(n) == Undisturbed(GlobalsOf(s), r.now, r.again, r.found, r.stamp) && result == n.client
  {
    r := SoloPathExplained(s, t, n, es, ss, |es|);
  }
}
