// watchlists.ts: the tabs that share the cell, kept in step by storage events, and the store of one tab.
module WatchlistTabs {
  import opened Options
  import opened Json
  import opened Watchlists

  // pending counts the storage events the browser has queued for the tab.
  datatype Tab = Tab(snapshot: Option<Lists>, bound: bool, pending: nat)

  datatype World = World(cell: Cell, tabs: seq<Tab>)

  // Render calls getSnapshot, Bind is the first subscribe, Deliver runs one queued storage event,
  // Reload discards a tab's memory.
  datatype Event = Render(tab: nat) | Bind(tab: nat) | Mutate(tab: nat, op: Op) | Deliver(tab: nat) | Reload(tab: nat)

  type Coercion = Json -> Option<real>

  function Current(coerce: Coercion, tab: Tab, cell: Cell): Lists {
    if tab.snapshot.Some? then tab.snapshot.value else Read(coerce, cell)
  }

  predicate Enabled(w: World, e: Event) {
    e.tab < |w.tabs| && (e.Deliver? ==> w.tabs[e.tab].pending > 0)
  }

  // setItem notifies the other tabs, and only when the value changes.
  function Notified(tabs: seq<Tab>, writer: nat, changed: bool): (r: seq<Tab>)
    ensures |r| == |tabs|
    ensures forall i :: 0 <= i < |tabs| ==>
              r[i] == if changed && i != writer then tabs[i].(pending := tabs[i].pending + 1) else tabs[i]
  {
    seq(|tabs|, i requires 0 <= i < |tabs| =>
      if changed && i != writer then tabs[i].(pending := tabs[i].pending + 1) else tabs[i])
  }

  function AfterMutation(coerce: Coercion, w: World, i: nat, op: Op): World
    requires i < |w.tabs|
  {
    if !Commits(op) then w
    else
      var next := Apply(op, Current(coerce, w.tabs[i], w.cell));
      var cell := Doc(Encode(next));
      World(cell, Notified(w.tabs, i, cell != w.cell)[i := w.tabs[i].(snapshot := Some(next))])
  }

  function Next(coerce: Coercion, w: World, e: Event): World
    requires Enabled(w, e)
  {
    var i, tab := e.tab, w.tabs[e.tab];
    match e
    case Render(_) => w.(tabs := w.tabs[i := tab.(snapshot := Some(Current(coerce, tab, w.cell)))])
    case Bind(_) => w.(tabs := w.tabs[i := tab.(bound := true)])
    case Mutate(_, op) => AfterMutation(coerce, w, i, op)
    case Deliver(_) =>
      w.(tabs := w.tabs[i := tab.(pending := tab.pending - 1,
                                  snapshot := if tab.bound then Some(Read(coerce, w.cell)) else tab.snapshot)])
    case Reload(_) => w.(tabs := w.tabs[i := Tab(None, false, 0)])
  }

  ghost predicate Run(coerce: Coercion, worlds: seq<World>, events: seq<Event>) {
    |worlds| == |events| + 1 &&
    forall k :: 0 <= k < |events| ==> Enabled(worlds[k], events[k]) && worlds[k + 1] == Next(coerce, worlds[k], events[k])
  }

  // ---------------------------------------------------------------------------
  // Everything cached is in normal form
  // ---------------------------------------------------------------------------

  predicate TabNormal(tab: Tab) {
    tab.snapshot.Some? ==> NormalForm(tab.snapshot.value)
  }

  predicate Normal(w: World) {
    forall i :: 0 <= i < |w.tabs| ==> TabNormal(w.tabs[i])
  }

  lemma CurrentNormal(coerce: Coercion, w: World, i: nat)
    requires i < |w.tabs| && Normal(w)
    ensures NormalForm(Current(coerce, w.tabs[i], w.cell))
  {
    assert TabNormal(w.tabs[i]);
    ReadIsNormal(coerce, w.cell);
  }

  // Whatever the cell held at first, every snapshot of every tab keeps the normal form.
  lemma StepKeepsNormal(coerce: Coercion, w: World, e: Event)
    requires Normal(w) && Enabled(w, e)
    ensures Normal(Next(coerce, w, e))
  {
    hide NormalForm, Read, Apply, Encode, Commits;
    CurrentNormal(coerce, w, e.tab);
    ReadIsNormal(coerce, w.cell);
    var w' := Next(coerce, w, e);
    if e.Mutate? && Commits(e.op) {
      ApplyKeepsNormal(e.op, Current(coerce, w.tabs[e.tab], w.cell));
    }
    forall j | 0 <= j < |w'.tabs|
      ensures TabNormal(w'.tabs[j])
    {
      assert TabNormal(w.tabs[j]);
    }
  }

  lemma {:induction false} RunKeepsNormal(coerce: Coercion, worlds: seq<World>, events: seq<Event>, k: nat)
    requires Run(coerce, worlds, events) && Normal(worlds[0]) && k < |worlds|
    ensures Normal(worlds[k])
  {
    if k > 0 {
      hide Normal, Next, Enabled;
      RunKeepsNormal(coerce, worlds, events, k - 1);
      StepKeepsNormal(coerce, worlds[k - 1], events[k - 1]);
    }
  }

  // ---------------------------------------------------------------------------
  // Convergence
  // ---------------------------------------------------------------------------

  predicate TabSynced(coerce: Coercion, tab: Tab, cell: Cell) {
    tab.snapshot == None || tab.snapshot == Some(Read(coerce, cell)) || tab.pending > 0
  }

  // Each tab has cached nothing, or what the cell reads as, or has an event coming.
  predicate Synced(coerce: Coercion, w: World) {
    forall i :: 0 <= i < |w.tabs| ==> TabSynced(coerce, w.tabs[i], w.cell)
  }

  // The last storage event queued for a tab arrives before the tab listens, and what it has cached is old.
  predicate MissesUpdate(coerce: Coercion, w: World, e: Event)
    requires Enabled(w, e)
  {
    var tab := w.tabs[e.tab];
    e.Deliver? && tab.pending == 1 && !tab.bound && tab.snapshot.Some? && tab.snapshot.value != Read(coerce, w.cell)
  }

  lemma CommitReadsBack(coerce: Coercion, w: World, i: nat, op: Op)
    requires Normal(w) && i < |w.tabs| && Commits(op)
    ensures var next := Apply(op, Current(coerce, w.tabs[i], w.cell)); Read(coerce, Doc(Encode(next))) == next
  {
    CurrentNormal(coerce, w, i);
    ApplyKeepsNormal(op, Current(coerce, w.tabs[i], w.cell));
    ReloadPreservesIffNormal(coerce, Apply(op, Current(coerce, w.tabs[i], w.cell)));
  }

  lemma MutationKeepsSynced(coerce: Coercion, w: World, i: nat, op: Op)
    requires Normal(w) && Synced(coerce, w) && i < |w.tabs|
    ensures Synced(coerce, AfterMutation(coerce, w, i, op))
  {
    hide Normal, Read, Apply, Encode, Commits;
    if Commits(op) {
      CommitReadsBack(coerce, w, i, op);
      var w' := AfterMutation(coerce, w, i, op);
      forall j | 0 <= j < |w'.tabs|
        ensures TabSynced(coerce, w'.tabs[j], w'.cell)
      {
        assert TabSynced(coerce, w.tabs[j], w.cell);
      }
    }
  }

  // A step keeps the tabs in step with the cell exactly when it is not a missed update.
  lemma StaysSyncedIff(coerce: Coercion, w: World, e: Event)
    requires Normal(w) && Synced(coerce, w) && Enabled(w, e)
    ensures Synced(coerce, Next(coerce, w, e)) <==> !MissesUpdate(coerce, w, e)
  {
    hide Normal, Read;
    if e.Mutate? {
      MutationKeepsSynced(coerce, w, e.tab, e.op);
    } else {
      var w' := Next(coerce, w, e);
      assert TabSynced(coerce, w.tabs[e.tab], w.cell);
      forall j | 0 <= j < |w'.tabs| && j != e.tab
        ensures TabSynced(coerce, w'.tabs[j], w'.cell)
      {
        assert TabSynced(coerce, w.tabs[j], w.cell);
      }
      assert Synced(coerce, w') <==> TabSynced(coerce, w'.tabs[e.tab], w'.cell);
    }
  }

  // So the tabs stay in step throughout a run exactly when no step of it is a missed update.
  lemma RunStaysSyncedIff(coerce: Coercion, worlds: seq<World>, events: seq<Event>)
    requires Run(coerce, worlds, events) && Normal(worlds[0]) && Synced(coerce, worlds[0])
    ensures (forall k :: 0 <= k < |worlds| ==> Synced(coerce, worlds[k])) <==>
            (forall k :: 0 <= k < |events| ==> !MissesUpdate(coerce, worlds[k], events[k]))
  {
    hide Normal, Synced, Next, MissesUpdate;
    forall k | 0 <= k < |events|
      ensures Synced(coerce, worlds[k]) ==> (Synced(coerce, worlds[k + 1]) <==> !MissesUpdate(coerce, worlds[k], events[k]))
    {
      RunKeepsNormal(coerce, worlds, events, k);
      if Synced(coerce, worlds[k]) {
        StaysSyncedIff(coerce, worlds[k], events[k]);
      }
    }
    if forall k :: 0 <= k < |events| ==> !MissesUpdate(coerce, worlds[k], events[k]) {
      for n := 0 to |events|
        invariant forall k :: 0 <= k <= n ==> Synced(coerce, worlds[k])
      {
        assert !MissesUpdate(coerce, worlds[n], events[n]);
      }
    } else {
      var k :| 0 <= k < |events| && MissesUpdate(coerce, worlds[k], events[k]);
      assert Synced(coerce, worlds[k]) ==> !Synced(coerce, worlds[k + 1]);
    }
  }

  // Once no event is queued, every tab that has cached anything shows what the cell reads as; so any two
  // agree, and a reload changes nothing.
  lemma QuiescentTabsAgree(coerce: Coercion, w: World, i: nat, j: nat)
    requires Synced(coerce, w) && i < |w.tabs| && j < |w.tabs|
    requires w.tabs[i].pending == 0 && w.tabs[j].pending == 0
    ensures Current(coerce, w.tabs[i], w.cell) == Current(coerce, w.tabs[j], w.cell) == Read(coerce, w.cell)
    ensures var reloaded := Next(coerce, w, Reload(i));
            Current(coerce, reloaded.tabs[i], reloaded.cell) == Current(coerce, w.tabs[i], w.cell)
  {
    hide Read;
    assert TabSynced(coerce, w.tabs[i], w.cell) && TabSynced(coerce, w.tabs[j], w.cell);
  }

  // Every tab that has cached something listens.
  predicate BindsFirst(w: World) {
    forall i :: 0 <= i < |w.tabs| ==> w.tabs[i].snapshot.Some? ==> w.tabs[i].bound
  }

  // A tab reads or commits only once its storage listener is bound.
  predicate Listens(w: World, e: Event)
    requires Enabled(w, e)
  {
    e.Render? || (e.Mutate? && Commits(e.op)) ==> w.tabs[e.tab].bound
  }

  ghost predicate Attentive(coerce: Coercion, worlds: seq<World>, events: seq<Event>)
    requires Run(coerce, worlds, events)
  {
    forall k :: 0 <= k < |events| ==> Listens(worlds[k], events[k])
  }

  lemma ListeningKeepsBindsFirst(coerce: Coercion, w: World, e: Event)
    requires BindsFirst(w) && Enabled(w, e) && Listens(w, e)
    ensures BindsFirst(Next(coerce, w, e)) && !MissesUpdate(coerce, w, e)
  {
    hide Read, Apply, Encode, Commits;
    assert w.tabs[e.tab].snapshot.Some? ==> w.tabs[e.tab].bound;
  }

  lemma {:induction false} AttentiveRunsBindFirst(coerce: Coercion, worlds: seq<World>, events: seq<Event>, k: nat)
    requires Run(coerce, worlds, events) && Attentive(coerce, worlds, events) && BindsFirst(worlds[0]) && k < |worlds|
    ensures BindsFirst(worlds[k])
  {
    if k > 0 {
      AttentiveRunsBindFirst(coerce, worlds, events, k - 1);
      hide Next, Enabled, Listens, BindsFirst;
      ListeningKeepsBindsFirst(coerce, worlds[k - 1], events[k - 1]);
    }
  }

  // When no tab reads or commits before it listens, the tabs converge in every run.
  lemma ListeningTabsConverge(coerce: Coercion, worlds: seq<World>, events: seq<Event>)
    requires Run(coerce, worlds, events) && Attentive(coerce, worlds, events)
    requires Normal(worlds[0]) && Synced(coerce, worlds[0]) && BindsFirst(worlds[0])
    ensures forall k :: 0 <= k < |worlds| ==> Synced(coerce, worlds[k])
  {
    hide Normal, Synced, Next, BindsFirst, Listens, MissesUpdate;
    forall k | 0 <= k < |events|
      ensures !MissesUpdate(coerce, worlds[k], events[k])
    {
      AttentiveRunsBindFirst(coerce, worlds, events, k);
      ListeningKeepsBindsFirst(coerce, worlds[k], events[k]);
    }
    RunStaysSyncedIff(coerce, worlds, events);
  }

  // The same, said of the states: whoever has cached anything listens.
  lemma BoundTabsConverge(coerce: Coercion, worlds: seq<World>, events: seq<Event>, k: nat)
    requires Run(coerce, worlds, events) && Normal(worlds[0]) && Synced(coerce, worlds[0]) && k < |worlds|
    requires forall m :: 0 <= m < |worlds| ==> BindsFirst(worlds[m])
    ensures Synced(coerce, worlds[k])
  {
    hide Normal, Synced, Next;
    assert forall m :: 0 <= m < |events| ==> !MissesUpdate(coerce, worlds[m], events[m]);
    RunStaysSyncedIff(coerce, worlds, events);
  }

  lemma PrependStep(coerce: Coercion, w: World, e: Event, worlds: seq<World>, events: seq<Event>)
    requires Enabled(w, e) && Listens(w, e) && Run(coerce, worlds, events) && Attentive(coerce, worlds, events)
    requires worlds[0] == Next(coerce, w, e)
    ensures Run(coerce, [w] + worlds, [e] + events) && Attentive(coerce, [w] + worlds, [e] + events)
  {
    hide Next, Enabled, Listens;
    var ws, es := [w] + worlds, [e] + events;
    forall k | 0 <= k < |es|
      ensures Enabled(ws[k], es[k]) && ws[k + 1] == Next(coerce, ws[k], es[k]) && Listens(ws[k], es[k])
    {
      if k > 0 {
        assert ws[k] == worlds[k - 1] && es[k] == events[k - 1] && ws[k + 1] == worlds[k];
      }
    }
  }

  // The events queued for a tab without a listener are dropped one by one, and it stays as it is.
  lemma {:induction false} QueueDrainsUnheard(coerce: Coercion, w: World, i: nat) returns (worlds: seq<World>, events: seq<Event>)
    requires i < |w.tabs| && !w.tabs[i].bound && w.tabs[i].snapshot.Some? && w.tabs[i].snapshot.value != Read(coerce, w.cell)
    ensures Run(coerce, worlds, events) && Attentive(coerce, worlds, events) && worlds[0] == w
    ensures !Synced(coerce, worlds[|events|])
    decreases w.tabs[i].pending
  {
    hide Read;
    if w.tabs[i].pending == 0 {
      worlds, events := [w], [];
      assert !TabSynced(coerce, w.tabs[i], w.cell);
    } else {
      var next := Next(coerce, w, Deliver(i));
      var ws, es := QueueDrainsUnheard(coerce, next, i);
      PrependStep(coerce, w, Deliver(i), ws, es);
      worlds, events := [w] + ws, [Deliver(i)] + es;
    }
  }

  // A tab that has cached but does not listen loses track as soon as another one commits.
  lemma UnheardCommit(coerce: Coercion, w: World, i: nat, j: nat) returns (worlds: seq<World>, events: seq<Event>)
    requires Normal(w) && i < |w.tabs| && j < |w.tabs| && i != j && !w.tabs[i].bound && w.tabs[i].snapshot.Some?
    ensures Run(coerce, worlds, events) && Attentive(coerce, worlds, events) && worlds[0] == w
    ensures !Synced(coerce, worlds[|events|])
  {
    hide Read, Encode, Normal;
    var seen := w.tabs[i].snapshot.value;
    var op := SetActive(if seen.activeId == 1.0 then 2.0 else 1.0);
    var bound := Next(coerce, w, Bind(j));
    StepKeepsNormal(coerce, w, Bind(j));
    var committed := Next(coerce, bound, Mutate(j, op));
    CommitReadsBack(coerce, bound, j, op);
    assert Read(coerce, committed.cell).activeId != seen.activeId;
    assert committed.tabs[i].snapshot == Some(seen) && !committed.tabs[i].bound;
    worlds, events := QueueDrainsUnheard(coerce, committed, i);
    assert Listens(bound, Mutate(j, op)) && Listens(w, Bind(j));
    hide Next, Enabled, Listens;
    PrependStep(coerce, bound, Mutate(j, op), worlds, events);
    worlds, events := [bound] + worlds, [Mutate(j, op)] + events;
    PrependStep(coerce, w, Bind(j), worlds, events);
    worlds, events := [w] + worlds, [Bind(j)] + events;
  }

  // With two tabs or more, every run in which the tabs listen before they read or commit stays in step
  // if and only if, to begin with, every tab that has cached something listens.
  lemma ConvergesIffBindsFirst(coerce: Coercion, w: World)
    requires Normal(w) && Synced(coerce, w) && |w.tabs| >= 2
    ensures BindsFirst(w) <==>
              forall worlds: seq<World>, events: seq<Event> ::
                Run(coerce, worlds, events) && worlds[0] == w && Attentive(coerce, worlds, events) ==>
                Synced(coerce, worlds[|events|])
  {
    hide Normal, Synced;
    if BindsFirst(w) {
      forall worlds: seq<World>, events: seq<Event>
        | Run(coerce, worlds, events) && worlds[0] == w && Attentive(coerce, worlds, events)
        ensures Synced(coerce, worlds[|events|])
      {
        hide Attentive, BindsFirst;
        ListeningTabsConverge(coerce, worlds, events);
      }
    } else {
      var i :| 0 <= i < |w.tabs| && w.tabs[i].snapshot.Some? && !w.tabs[i].bound;
      var worlds, events := UnheardCommit(coerce, w, i, if i == 0 then 1 else 0);
    }
  }

  // A tab that reads before it listens can miss a commit for good: both orders of reading and binding
  // are open to the code, and binding later does not read again.
  lemma LateListenerStaysStale(coerce: Coercion)
    ensures var start := World(Absent, [Tab(None, false, 0), Tab(None, false, 0)]);
            var rendered := Next(coerce, start, Render(0));
            var committed := Next(coerce, rendered, Mutate(1, SetActive(2.0)));
            Enabled(committed, Deliver(0)) &&
            var missed := Next(coerce, committed, Deliver(0));
            var listening := Next(coerce, missed, Bind(0));
            Synced(coerce, start) && Synced(coerce, committed) && !Synced(coerce, listening) &&
            listening.tabs[0].pending == 0 && listening.tabs[0].snapshot == Some(Default()) &&
            Read(coerce, listening.cell).activeId == 2.0
  {
    hide Encode, Normalized;
    var start := World(Absent, [Tab(None, false, 0), Tab(None, false, 0)]);
    var rendered := Next(coerce, start, Render(0));
    StepKeepsNormal(coerce, start, Render(0));
    StaysSyncedIff(coerce, start, Render(0));
    CommitReadsBack(coerce, rendered, 1, SetActive(2.0));
    StaysSyncedIff(coerce, rendered, Mutate(1, SetActive(2.0)));
    var committed := Next(coerce, rendered, Mutate(1, SetActive(2.0)));
    StepKeepsNormal(coerce, rendered, Mutate(1, SetActive(2.0)));
    StaysSyncedIff(coerce, committed, Deliver(0));
    var listening := Next(coerce, Next(coerce, committed, Deliver(0)), Bind(0));
    assert !TabSynced(coerce, listening.tabs[0], listening.cell);
  }

  // A commit by a tab with nothing queued builds on what is stored: no other tab's change is overwritten.
  lemma SettledCommitLosesNothing(coerce: Coercion, w: World, i: nat, op: Op)
    requires Normal(w) && Synced(coerce, w) && i < |w.tabs| && w.tabs[i].pending == 0 && Commits(op)
    ensures Read(coerce, AfterMutation(coerce, w, i, op).cell) == Apply(op, Read(coerce, w.cell))
  {
    assert TabSynced(coerce, w.tabs[i], w.cell);
    CommitReadsBack(coerce, w, i, op);
  }

  // ---------------------------------------------------------------------------
  // The store of one tab
  // ---------------------------------------------------------------------------

  // localStorage, as far as the one key goes.
  class LocalStorage {
    var cell: Cell

    constructor ()
      ensures cell == Absent
    {
      cell := Absent;
    }
  }

  // Module-level _snapshot, listeners and _storageBound; callbacks are numbered.
  class Store {
    const coerce: Coercion
    const storage: LocalStorage
    var snapshot: Option<Lists>
    var listeners: set<nat>
    var storageBound: bool

    constructor (coerce: Coercion, storage: LocalStorage)
      ensures this.coerce == coerce && this.storage == storage
      ensures AsTab(0) == Tab(None, false, 0) && listeners == {}
    {
      this.coerce, this.storage := coerce, storage;
      snapshot, listeners, storageBound := None, {}, false;
    }

    // This tab in the model above, with the number of queued events, which the browser keeps.
    ghost function AsTab(pending: nat): Tab
      reads this
    {
      Tab(snapshot, storageBound, pending)
    }

    method GetSnapshot() returns (s: Lists)
      modifies `snapshot
      ensures s == Current(coerce, old(AsTab(0)), storage.cell) && snapshot == Some(s)
      ensures forall n: nat :: World(storage.cell, [AsTab(n)]) == Next(coerce, World(storage.cell, [old(AsTab(n))]), Render(0))
    {
      if snapshot == None {
        snapshot := Some(Read(coerce, storage.cell));
      }
      s := snapshot.value;
    }

    method Subscribe(cb: nat)
      modifies `storageBound, `listeners
      ensures listeners == old(listeners) + {cb}
      ensures forall n: nat :: World(storage.cell, [AsTab(n)]) == Next(coerce, World(storage.cell, [old(AsTab(n))]), Bind(0))
    {
      if !storageBound {
        storageBound := true;
      }
      listeners := listeners + {cb};
    }

    method Unsubscribe(cb: nat)
      modifies `listeners
      ensures listeners == old(listeners) - {cb}
    {
      listeners := listeners - {cb};
    }

    // The storage listener, which exists only once subscribe has bound it.
    method OnStorage() returns (emitted: set<nat>)
      requires storageBound
      modifies `snapshot
      ensures emitted == listeners
      ensures forall n: nat :: n > 0 ==>
                World(storage.cell, [AsTab(n - 1)]) == Next(coerce, World(storage.cell, [old(AsTab(n))]), Deliver(0))
    {
      snapshot := Some(Read(coerce, storage.cell));
      emitted := listeners;
    }

    method Commit(next: Lists) returns (emitted: set<nat>)
      modifies `snapshot, storage
      ensures snapshot == Some(next) && storage.cell == Doc(Encode(next)) && emitted == listeners
    {
      snapshot := Some(next);
      storage.cell := Doc(Encode(next));
      emitted := listeners;
    }

    method AddToWatchlist(ticker: string, listId: Option<real>) returns (emitted: set<nat>)
      modifies `snapshot, storage
      ensures forall n: nat :: World(storage.cell, [AsTab(n)]) ==
                Next(coerce, old(World(storage.cell, [AsTab(n)])), Mutate(0, Add(ticker, listId)))
      ensures emitted == if Commits(Add(ticker, listId)) then listeners else {}
    {
      emitted := {};
      if Ticker(ticker) == "" {
        return;
      }
      var s := GetSnapshot();
      var id := if listId.Some? then listId.value else s.activeId;
      emitted := Commit(s.(lists := MapLists(s.lists, l => AddTo(l, id, Ticker(ticker)))));
    }

    method RemoveFromWatchlist(ticker: string, listId: Option<real>) returns (emitted: set<nat>)
      modifies `snapshot, storage
      ensures forall n: nat :: World(storage.cell, [AsTab(n)]) ==
                Next(coerce, old(World(storage.cell, [AsTab(n)])), Mutate(0, Remove(ticker, listId)))
      ensures emitted == if Commits(Remove(ticker, listId)) then listeners else {}
    {
      emitted := {};
      if Ticker(ticker) == "" {
        return;
      }
      var s := GetSnapshot();
      emitted := Commit(s.(lists := MapLists(s.lists, l => RemoveFrom(l, listId, Ticker(ticker)))));
    }

    method SetActiveWatchlist(id: real) returns (emitted: set<nat>)
      modifies `snapshot, storage
      ensures forall n: nat :: World(storage.cell, [AsTab(n)]) ==
                Next(coerce, old(World(storage.cell, [AsTab(n)])), Mutate(0, SetActive(id)))
      ensures emitted == if Commits(SetActive(id)) then listeners else {}
    {
      emitted := {};
      if !(1.0 <= id <= MAX_WATCHLISTS as real) {
        return;
      }
      var s := GetSnapshot();
      emitted := Commit(s.(activeId := id));
    }
  }
}
