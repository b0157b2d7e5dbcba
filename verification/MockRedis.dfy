// MockRedis expires keys lazily; seen from outside it is a map that expires them on time.
module MockRedis {
  import opened Options

  datatype Value = PyNone | PyStr(text: string) | PyBytes(text: string) | PyOther(id: int)

  datatype Reply = Got(value: Value) | SetDone | SetRefused | Flag(answer: bool) | Listed(keys: set<string>)

  // Each operation with the clock readings it takes: `at` first, `later` last.
  // KEYS reads the clock once per key; `clock` gives those readings and `matches` is the pattern.
  datatype Op =
    | Get(key: string, at: real)
    | Set(key: string, value: Value, ex: Option<real>, nx: bool, at: real, later: real)
    | Delete(key: string, at: real)
    | Exists(key: string, at: real)
    | Keys(matches: string -> bool, clock: string -> real, at: real, later: real)
  {
    function Last(): real {
      if Set? || Keys? then later else at
    }
  }

  ghost predicate Timed(op: Op) {
    op.at <= op.Last() && (op.Keys? ==> forall k :: op.at <= op.clock(k) <= op.later)
  }

  // ---------------------------------------------------------------------------
  // The lazily expiring store
  // ---------------------------------------------------------------------------

  datatype Lazy = Lazy(store: map<string, Value>, expires: map<string, real>)

  const EMPTY := Lazy(map[], map[])

  // get() hands out strings as bytes.
  function Encode(v: Value): Value {
    if v.PyStr? then PyBytes(v.text) else v
  }

  predicate Expired(l: Lazy, k: string, now: real) {
    k in l.expires && now >= l.expires[k]
  }

  function Purge(l: Lazy, k: string, now: real): Lazy {
    if Expired(l, k, now) then Lazy(l.store - {k}, l.expires - {k}) else l
  }

  function PurgeAll(l: Lazy, clock: string -> real): Lazy {
    var dead := set k | k in l.store && Expired(l, k, clock(k));
    Lazy(l.store - dead, l.expires - dead)
  }

  function WithDeadline(expires: map<string, real>, k: string, deadline: Option<real>): map<string, real> {
    if deadline.Some? then expires[k := deadline.value] else expires - {k}
  }

  function Deadline(ex: Option<real>, now: real): Option<real> {
    if ex.Some? then Some(now + ex.value) else None
  }

  function LazyStep(l: Lazy, op: Op): (Lazy, Reply) {
    match op
    case Get(k, at) =>
      var p := Purge(l, k, at);
      (p, Got(if k in p.store then Encode(p.store[k]) else PyNone))
    case Set(k, v, ex, nx, at, later) =>
      var p := Purge(l, k, at);
      if nx && k in p.store then (p, SetRefused)
      else (Lazy(p.store[k := v], WithDeadline(p.expires, k, Deadline(ex, later))), SetDone)
    case Delete(k, _) =>
      (Lazy(l.store - {k}, l.expires - {k}), Flag(k in l.store && l.store[k] != PyNone))
    case Exists(k, at) =>
      var p := Purge(l, k, at);
      (p, Flag(k in p.store))
    case Keys(matches, clock, _, _) =>
      var p := PurgeAll(l, clock);
      (p, Listed(set k | k in p.store && matches(k)))
  }

  // Deadlines belong to stored keys.
  predicate WellFormed(l: Lazy) {
    l.expires.Keys <= l.store.Keys
  }

  lemma LazyStepKeepsDeadlines(l: Lazy, op: Op)
    requires WellFormed(l)
    ensures WellFormed(LazyStep(l, op).0)
  {
  }

  // ---------------------------------------------------------------------------
  // The eagerly expiring reference
  // ---------------------------------------------------------------------------

  datatype Entry = Entry(value: Value, deadline: Option<real>)

  type Eager = map<string, Entry>

  predicate Alive(e: Entry, now: real) {
    e.deadline.Some? ==> now < e.deadline.value
  }

  // What is left of m at time `now`.
  function At(m: Eager, now: real): Eager {
    map k | k in m && Alive(m[k], now) :: m[k]
  }

  function EagerStep(m: Eager, op: Op): (Eager, Reply) {
    var live := At(m, op.at);
    match op
    case Get(k, _) => (live, Got(if k in live then Encode(live[k].value) else PyNone))
    case Set(k, v, ex, nx, _, later) =>
      if nx && k in live then (live, SetRefused)
      else (live[k := Entry(v, Deadline(ex, later))], SetDone)
    case Delete(k, _) => (live - {k}, Flag(k in live && live[k].value != PyNone))
    case Exists(k, _) => (live, Flag(k in live))
    case Keys(matches, clock, _, later) =>
      (At(live, later), Listed(set k | k in live && Alive(live[k], clock(k)) && matches(k)))
  }

  // ---------------------------------------------------------------------------
  // Refinement
  // ---------------------------------------------------------------------------

  function View(l: Lazy): Eager {
    map k | k in l.store :: Entry(l.store[k], if k in l.expires then Some(l.expires[k]) else None)
  }

  // From `now` on nobody can tell the two apart.
  ghost predicate Similar(l: Lazy, m: Eager, now: real) {
    WellFormed(l) && forall t :: t >= now ==> At(View(l), t) == At(m, t)
  }

  // The one reply that gives the lazy store away: delete of an expired key still in the store.
  predicate DeletesStale(l: Lazy, op: Op) {
    op.Delete? && op.key in l.store && Expired(l, op.key, op.at) && l.store[op.key] != PyNone
  }

  lemma AtAt(m: Eager, t: real, u: real)
    requires t <= u
    ensures At(At(m, t), u) == At(m, u)
  {
  }

  lemma PurgeView(l: Lazy, k: string, now: real, t: real)
    requires now <= t && WellFormed(l)
    ensures At(View(Purge(l, k, now)), t) == At(View(l), t)
  {
  }

  lemma PurgeAllView(l: Lazy, clock: string -> real, t: real)
    requires WellFormed(l) && forall k :: clock(k) <= t
    ensures At(View(PurgeAll(l, clock)), t) == At(View(l), t)
  {
  }

  // The value that the two sides hold for one key at one instant.
  lemma KeyAgrees(l: Lazy, m: Eager, now: real, t: real, k: string)
    requires Similar(l, m, now) && now <= t
    ensures k in At(m, t) <==> k in l.store && !Expired(l, k, t)
    ensures k in At(m, t) ==> At(m, t)[k].value == l.store[k]
  {
    assert At(View(l), t) == At(m, t);
    assert k in At(View(l), t) <==> k in l.store && !Expired(l, k, t);
  }

  lemma {:induction false} StatesStaySimilar(l: Lazy, m: Eager, now: real, op: Op)
    requires Similar(l, m, now) && Timed(op) && now <= op.at
    ensures Similar(LazyStep(l, op).0, EagerStep(m, op).0, op.Last())
  {
    var l', m' := LazyStep(l, op).0, EagerStep(m, op).0;
    LazyStepKeepsDeadlines(l, op);
    if op.Set? {
      KeyAgrees(l, m, now, op.at, op.key);
    }
    forall t | t >= op.Last()
      ensures At(View(l'), t) == At(m', t)
    {
      assert At(View(l), t) == At(m, t);
      AtAt(m, op.at, t);
      StatesAgreeAt(l, m, now, op, t);
    }
  }

  lemma StatesAgreeAt(l: Lazy, m: Eager, now: real, op: Op, t: real)
    requires Similar(l, m, now) && Timed(op) && now <= op.at && op.Last() <= t
    requires At(View(l), t) == At(m, t) == At(At(m, op.at), t)
    ensures At(View(LazyStep(l, op).0), t) == At(EagerStep(m, op).0, t)
  {
    match op
    case Get(k, at) => PurgeView(l, k, at, t);
    case Exists(k, at) => PurgeView(l, k, at, t);
    case Delete(k, at) => DropKey(l, At(m, at), k, t);
    case Keys(_, clock, at, later) =>
      PurgeAllView(l, clock, t);
      AtAt(At(m, at), later, t);
    case Set(k, v, ex, nx, at, later) =>
      PurgeView(l, k, at, t);
      KeyAgrees(l, m, now, at, k);
      var p := Purge(l, k, at);
      if !(nx && k in p.store) {
        PutKey(p, At(m, at), k, v, Deadline(ex, later), t);
      }
  }

  lemma DropKey(l: Lazy, live: Eager, k: string, t: real)
    requires At(View(l), t) == At(live, t)
    ensures At(View(Lazy(l.store - {k}, l.expires - {k})), t) == At(live - {k}, t)
  {
    assert At(View(Lazy(l.store - {k}, l.expires - {k})), t) == At(View(l), t) - {k};
    assert At(live - {k}, t) == At(live, t) - {k};
  }

  lemma PutKey(p: Lazy, live: Eager, k: string, v: Value, deadline: Option<real>, t: real)
    requires At(View(p), t) == At(live, t)
    ensures At(View(Lazy(p.store[k := v], WithDeadline(p.expires, k, deadline))), t) == At(live[k := Entry(v, deadline)], t)
  {
    var n, live' := Lazy(p.store[k := v], WithDeadline(p.expires, k, deadline)), live[k := Entry(v, deadline)];
    var left, right := At(View(n), t), At(live', t);
    forall x
      ensures x in left <==> x in right
      ensures x in left && x in right ==> left[x] == right[x]
    {
      if x == k {
        assert View(n)[k] == Entry(v, deadline) == live'[k];
      } else {
        assert x in left <==> x in At(View(p), t);
        assert x in right <==> x in At(live, t);
      }
    }
    assert left == right;
  }

  lemma RepliesAgree(l: Lazy, m: Eager, now: real, op: Op)
    requires Similar(l, m, now) && Timed(op) && now <= op.at
    ensures LazyStep(l, op).1 == EagerStep(m, op).1 <==> !DeletesStale(l, op)
  {
    match op
    case Get(k, at) => KeyAgrees(l, m, now, at, k);
    case Exists(k, at) => KeyAgrees(l, m, now, at, k);
    case Delete(k, at) => KeyAgrees(l, m, now, at, k);
    case Set(k, _, _, _, at, _) => KeyAgrees(l, m, now, at, k);
    case Keys(matches, clock, at, later) =>
      var live := At(m, at);
      forall k
        ensures k in PurgeAll(l, clock).store <==> k in live && Alive(live[k], clock(k))
      {
        AtAt(m, at, clock(k));
        KeyAgrees(l, m, now, clock(k), k);
        assert k in At(live, clock(k)) <==> k in live && Alive(live[k], clock(k));
      }
  }

  // ---------------------------------------------------------------------------
  // Whole histories
  // ---------------------------------------------------------------------------

  // The clock does not go backwards over the history.
  ghost predicate Ordered(ops: seq<Op>) {
    && (forall i :: 0 <= i < |ops| ==> Timed(ops[i]) && ops[i].at >= 0.0)
    && (forall i :: 0 <= i < |ops| - 1 ==> ops[i].Last() <= ops[i + 1].at)
  }

  function LazyAfter(ops: seq<Op>): Lazy {
    if ops == [] then EMPTY else LazyStep(LazyAfter(ops[..|ops| - 1]), ops[|ops| - 1]).0
  }

  function EagerAfter(ops: seq<Op>): Eager {
    if ops == [] then map[] else EagerStep(EagerAfter(ops[..|ops| - 1]), ops[|ops| - 1]).0
  }

  function LazyReply(ops: seq<Op>, i: nat): Reply
    requires i < |ops|
  {
    LazyStep(LazyAfter(ops[..i]), ops[i]).1
  }

  function EagerReply(ops: seq<Op>, i: nat): Reply
    requires i < |ops|
  {
    EagerStep(EagerAfter(ops[..i]), ops[i]).1
  }

  function Now(ops: seq<Op>): real {
    if ops == [] then 0.0 else ops[|ops| - 1].Last()
  }

  lemma {:induction false} HistoriesStaySimilar(ops: seq<Op>, n: nat)
    requires Ordered(ops) && n <= |ops|
    ensures Similar(LazyAfter(ops[..n]), EagerAfter(ops[..n]), Now(ops[..n]))
  {
    if n > 0 {
      HistoriesStaySimilar(ops, n - 1);
      assert ops[..n][..n - 1] == ops[..n - 1];
      assert Now(ops[..n - 1]) <= ops[n - 1].at;
      StatesStaySimilar(LazyAfter(ops[..n - 1]), EagerAfter(ops[..n - 1]), Now(ops[..n - 1]), ops[n - 1]);
    }
  }

  // Over any history every reply is the one of the eagerly expiring map, except exactly those of
  // a delete that hits an expired key nobody purged.
  lemma LazyExpiryRefinesEager(ops: seq<Op>, i: nat)
    requires Ordered(ops) && i < |ops|
    ensures LazyReply(ops, i) == EagerReply(ops, i) <==> !DeletesStale(LazyAfter(ops[..i]), ops[i])
    ensures LazyAfter(ops[..i]).expires.Keys <= LazyAfter(ops[..i]).store.Keys
  {
    HistoriesStaySimilar(ops, i);
    RepliesAgree(LazyAfter(ops[..i]), EagerAfter(ops[..i]), Now(ops[..i]), ops[i]);
  }

  // KEYS lists every matching key that survives the call and none that was dead before it.
  lemma KeysListsTheLiving(ops: seq<Op>, i: nat, k: string)
    requires Ordered(ops) && i < |ops| && ops[i].Keys? && ops[i].matches(k)
    ensures k in At(EagerAfter(ops[..i]), ops[i].later) ==> k in LazyReply(ops, i).keys
    ensures k in LazyReply(ops, i).keys ==> k in At(EagerAfter(ops[..i]), ops[i].at)
  {
    LazyExpiryRefinesEager(ops, i);
    assert ops[i].at <= ops[i].clock(k) <= ops[i].later;
  }

  // A value set and then deleted after its deadline: the lazy store still says it deleted something.
  lemma DeleteTellsTheDifference() returns (ops: seq<Op>)
    ensures |ops| == 2 && Ordered(ops) && LazyReply(ops, 1) != EagerReply(ops, 1)
  {
    ops := [Set("k", PyStr("v"), Some(5.0), false, 0.0, 0.0), Delete("k", 6.0)];
    assert ops[..1] == [ops[0]] && ops[..1][..0] == [];
    assert LazyAfter(ops[..1]) == Lazy(map["k" := PyStr("v")], map["k" := 5.0]);
    LazyExpiryRefinesEager(ops, 1);
  }

  // ---------------------------------------------------------------------------
  // The lock that set(nx, ex) implements
  // ---------------------------------------------------------------------------

  // Operations that may take the key away before its deadline.
  predicate Releases(op: Op, k: string) {
    (op.Delete? && op.key == k) || (op.Set? && op.key == k && !op.nx)
  }

  predicate Acquires(ops: seq<Op>, i: nat, k: string) {
    i < |ops| && ops[i].Set? && ops[i].key == k && ops[i].nx && LazyReply(ops, i) == SetDone
  }

  // The key is held until `until`, or that time has come.
  predicate HeldUntil(l: Lazy, k: string, until: real, now: real) {
    now >= until || (k in l.store && k in l.expires && l.expires[k] == until)
  }

  lemma HoldSurvives(l: Lazy, op: Op, k: string, until: real, now: real)
    requires HeldUntil(l, k, until, now) && Timed(op) && now <= op.at && !Releases(op, k)
    ensures HeldUntil(LazyStep(l, op).0, k, until, op.Last())
  {
    if op.Keys? {
      assert op.clock(k) <= op.later;
    }
  }

  lemma {:induction false} LockHeld(ops: seq<Op>, i: nat, j: nat, k: string)
    requires Ordered(ops) && i < j <= |ops| && Acquires(ops, i, k) && ops[i].ex.Some?
    requires forall m :: i < m < j ==> !Releases(ops[m], k)
    ensures HeldUntil(LazyAfter(ops[..j]), k, ops[i].later + ops[i].ex.value, Now(ops[..j]))
    decreases j
  {
    assert ops[..j][..j - 1] == ops[..j - 1];
    if i + 1 < j {
      LockHeld(ops, i, j - 1, k);
      assert Now(ops[..j - 1]) <= ops[j - 1].at;
      HoldSurvives(LazyAfter(ops[..j - 1]), ops[j - 1], k, ops[i].later + ops[i].ex.value, Now(ops[..j - 1]));
    }
  }

  // Two acquisitions of one key with no release between them are at least the first one's ex apart.
  lemma LockExcludesForItsTtl(ops: seq<Op>, i: nat, j: nat, k: string)
    requires Ordered(ops) && i < j && Acquires(ops, i, k) && Acquires(ops, j, k) && ops[i].ex.Some?
    requires forall m :: i < m < j ==> !Releases(ops[m], k)
    ensures ops[j].at >= ops[i].later + ops[i].ex.value
  {
    LockHeld(ops, i, j, k);
    assert Now(ops[..j]) <= ops[j].at;
  }

  // ---------------------------------------------------------------------------
  // What get returns
  // ---------------------------------------------------------------------------

  // Right after a set that was not refused, get returns the value until the deadline, and None from then
  // on; a string comes back as bytes with the same text, everything else as it was put in.
  lemma GetReturnsWhatWasSet(l: Lazy, k: string, v: Value, ex: Option<real>, at: real, later: real, now: real)
    ensures var s := LazyStep(l, Set(k, v, ex, false, at, later)).0;
            var reply := LazyStep(s, Get(k, now)).1;
            if ex.Some? && now >= later + ex.value then reply == Got(PyNone)
            else match v
                 case PyStr(text) => reply == Got(PyBytes(text))
                 case _ => reply == Got(v)
  {
  }

  // A set with nx is refused exactly when the key is there and alive, and then changes nothing of it.
  lemma RefusedIffHeld(l: Lazy, k: string, v: Value, ex: Option<real>, at: real, later: real)
    requires WellFormed(l)
    ensures var (n, reply) := LazyStep(l, Set(k, v, ex, true, at, later));
            var held := k in l.store && !(k in l.expires && at >= l.expires[k]);
            && (reply == SetRefused <==> held)
            && (held ==> n == l)
            && (!held ==> reply == SetDone && k in n.store && n.store[k] == v && (k in n.expires <==> ex.Some?))
  {
  }
}
