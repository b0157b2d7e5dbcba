// watchlists.ts: five numbered lists in one localStorage cell, cached by every open tab.
module Watchlists {
  import opened Options
  import opened Text
  import opened Json
  import opened Selection

  datatype Watchlist = Watchlist(id: int, tickers: seq<string>)

  // activeId is any number from 1 to 5: the code does not insist on a whole one.
  datatype Lists = Lists(lists: seq<Watchlist>, activeId: real)

  const MAX_WATCHLISTS := 5
  const SEED_TICKERS := ["HDFCBANK", "TCS", "RELIANCE", "INFY", "ITC", "SBIN"]

  // What is stored under the key: nothing, text that is not JSON (or empty), or a JSON value.
  datatype Cell = Absent | Garbage | Doc(raw: Json)

  // Number(v) with the numbers JavaScript reads from strings and arrays as a parameter; None is NaN.
  function ToNumber(coerce: Json -> Option<real>, v: Option<Json>): Option<real> {
    match v
    case None => None
    case Some(JNum(x)) => Some(x)
    case Some(JBool(b)) => Some(if b then 1.0 else 0.0)
    case Some(JNull) => Some(0.0)
    case Some(JObj(_)) => None
    case Some(j) => coerce(j)
  }

  predicate InRange(x: Option<real>) {
    x.Some? && 1.0 <= x.value <= MAX_WATCHLISTS as real
  }

  function Field(j: Json, key: string): Option<Json> {
    if j.JObj? then Get(j.fields, key) else None
  }

  function Ticker(t: string): string {
    Upper(Trim(t))
  }

  function CleanTickers(items: seq<Json>): seq<string> {
    if items == [] then []
    else
      var last := items[|items| - 1];
      CleanTickers(items[..|items| - 1]) + if last.JStr? && Ticker(last.str) != "" then [Ticker(last.str)] else []
  }

  // The slot an entry of the stored list assigns to, with its tickers.
  function Assigned(coerce: Json -> Option<real>, entry: Json): Option<(real, seq<string>)> {
    var id, tickers := ToNumber(coerce, Field(entry, "id")), Field(entry, "tickers");
    if InRange(id) && tickers.Some? && tickers.value.JArr? then Some((id.value, CleanTickers(tickers.value.items))) else None
  }

  function ById(coerce: Json -> Option<real>, entries: seq<Json>): map<real, seq<string>> {
    if entries == [] then map[]
    else
      var before := ById(coerce, entries[..|entries| - 1]);
      var slot := Assigned(coerce, entries[|entries| - 1]);
      if slot.Some? then before[slot.value.0 := slot.value.1] else before
  }

  function Entries(raw: Json): seq<Json> {
    match Field(raw, "lists")
    case Some(JArr(items)) => items
    case _ => []
  }

  function Slots(byId: map<real, seq<string>>): (lists: seq<Watchlist>)
    ensures |lists| == MAX_WATCHLISTS
  {
    seq(MAX_WATCHLISTS, i requires 0 <= i < MAX_WATCHLISTS =>
      Watchlist(i + 1, if (i + 1) as real in byId then byId[(i + 1) as real] else []))
  }

  function Normalized(coerce: Json -> Option<real>, raw: Json): Lists {
    var activeId := ToNumber(coerce, Field(raw, "activeId"));
    Lists(Slots(ById(coerce, Entries(raw))), if InRange(activeId) then activeId.value else 1.0)
  }

  method NormalizeStored(coerce: Json -> Option<real>, raw: Json) returns (state: Lists)
    ensures state == Normalized(coerce, raw)
  {
    var byId: map<real, seq<string>> := map[];
    var entries := Entries(raw);
    for i := 0 to |entries|
      invariant byId == ById(coerce, entries[..i])
    {
      assert entries[..i + 1][..i] == entries[..i];
      var slot := Assigned(coerce, entries[i]);
      if slot.Some? {
        byId := byId[slot.value.0 := slot.value.1];
      }
    }
    assert entries[..|entries|] == entries;
    var activeId := ToNumber(coerce, Field(raw, "activeId"));
    state := Lists(Slots(byId), if InRange(activeId) then activeId.value else 1.0);
  }

  function Default(): Lists {
    Lists(seq(MAX_WATCHLISTS, i => Watchlist(i + 1, if i == 0 then SEED_TICKERS else [])), 1.0)
  }

  function Read(coerce: Json -> Option<real>, cell: Cell): Lists {
    if cell.Doc? then Normalized(coerce, cell.raw) else Default()
  }

  // ---------------------------------------------------------------------------
  // Stored states are fixed points
  // ---------------------------------------------------------------------------

  predicate CleanTicker(t: string) {
    t != "" && Ticker(t) == t
  }

  predicate CleanAll(tickers: seq<string>) {
    forall i :: 0 <= i < |tickers| ==> CleanTicker(tickers[i])
  }

  predicate NormalLists(lists: seq<Watchlist>) {
    forall i :: 0 <= i < |lists| ==> lists[i].id == i + 1 && CleanAll(lists[i].tickers)
  }

  predicate NormalForm(s: Lists) {
    |s.lists| == MAX_WATCHLISTS && NormalLists(s.lists) && 1.0 <= s.activeId <= MAX_WATCHLISTS as real
  }

  function EncodeTickers(tickers: seq<string>): seq<Json> {
    if tickers == [] then [] else EncodeTickers(tickers[..|tickers| - 1]) + [JStr(tickers[|tickers| - 1])]
  }

  function EncodeList(list: Watchlist): Json {
    JObj([("id", JNum(list.id as real)), ("tickers", JArr(EncodeTickers(list.tickers)))])
  }

  function EncodeLists(lists: seq<Watchlist>): seq<Json> {
    if lists == [] then [] else EncodeLists(lists[..|lists| - 1]) + [EncodeList(lists[|lists| - 1])]
  }

  // JSON.stringify of a state, as the value JSON.parse gives back.
  function Encode(s: Lists): Json {
    JObj([("lists", JArr(EncodeLists(s.lists))), ("activeId", JNum(s.activeId))])
  }

  lemma {:induction false} CleanTickersClean(items: seq<Json>)
    ensures CleanAll(CleanTickers(items))
  {
    if items != [] {
      var last := items[|items| - 1];
      CleanTickersClean(items[..|items| - 1]);
      if last.JStr? {
        TrimUpperNormal(last.str);
      }
    }
  }

  lemma {:induction false} CleanTickersOfEncoded(tickers: seq<string>)
    requires CleanAll(tickers)
    ensures CleanTickers(EncodeTickers(tickers)) == tickers
  {
    hide Ticker;
    if tickers != [] {
      var front, encoded := tickers[..|tickers| - 1], EncodeTickers(tickers);
      CleanTickersOfEncoded(front);
      assert encoded[..|encoded| - 1] == EncodeTickers(front);
    }
  }

  lemma FieldsOfList(list: Watchlist)
    ensures Field(EncodeList(list), "id") == Some(JNum(list.id as real))
    ensures Field(EncodeList(list), "tickers") == Some(JArr(EncodeTickers(list.tickers)))
  {
    hide EncodeTickers;
    var fields := EncodeList(list).fields;
    assert |"id"| != |"tickers"|;
    assert Get(fields[1..], "tickers") == Some(JArr(EncodeTickers(list.tickers)));
    assert Get(fields, "tickers") == Some(JArr(EncodeTickers(list.tickers)));
  }

  lemma FieldsOfState(s: Lists)
    ensures Entries(Encode(s)) == EncodeLists(s.lists)
    ensures Field(Encode(s), "activeId") == Some(JNum(s.activeId))
  {
    hide EncodeLists;
    var fields := Encode(s).fields;
    assert |"lists"| != |"activeId"|;
    assert Get(fields[1..], "activeId") == Some(JNum(s.activeId));
    assert Get(fields, "activeId") == Some(JNum(s.activeId));
  }

  lemma AssignedByEncoded(coerce: Json -> Option<real>, list: Watchlist)
    requires 1 <= list.id <= MAX_WATCHLISTS && CleanAll(list.tickers)
    ensures Assigned(coerce, EncodeList(list)) == Some((list.id as real, list.tickers))
  {
    hide CleanAll, Field, EncodeList;
    FieldsOfList(list);
    CleanTickersOfEncoded(list.tickers);
  }

  predicate HoldsAt(byId: map<real, seq<string>>, i: nat, tickers: seq<string>) {
    var id := (i + 1) as real;
    id in byId && byId[id] == tickers
  }

  // Every slot of lists is where its number says.
  predicate Holds(byId: map<real, seq<string>>, lists: seq<Watchlist>) {
    forall i :: 0 <= i < |lists| ==> HoldsAt(byId, i, lists[i].tickers)
  }

  lemma {:induction false} ByIdOfEncoded(coerce: Json -> Option<real>, lists: seq<Watchlist>)
    requires |lists| <= MAX_WATCHLISTS && NormalLists(lists)
    ensures Holds(ById(coerce, EncodeLists(lists)), lists)
  {
    if lists != [] {
      hide CleanAll, Assigned, EncodeList;
      var n := |lists| - 1;
      var front, encoded := lists[..n], EncodeLists(lists);
      assert encoded[..|encoded| - 1] == EncodeLists(front);
      ByIdOfEncoded(coerce, front);
      assert lists[n].id == n + 1 && CleanAll(lists[n].tickers);
      AssignedByEncoded(coerce, lists[n]);
      HoldsGrows(ById(coerce, EncodeLists(front)), lists, n);
    }
  }

  lemma HoldsGrows(before: map<real, seq<string>>, lists: seq<Watchlist>, n: nat)
    requires |lists| == n + 1 && Holds(before, lists[..n])
    ensures Holds(before[(n + 1) as real := lists[n].tickers], lists)
  {
    var front, after := lists[..n], before[(n + 1) as real := lists[n].tickers];
    forall i | 0 <= i < |lists|
      ensures HoldsAt(after, i, lists[i].tickers)
    {
      if i < n {
        assert HoldsAt(before, i, front[i].tickers);
        assert (i + 1) as real < (n + 1) as real;
      }
    }
  }

  predicate CleanMap(byId: map<real, seq<string>>) {
    forall id :: id in byId ==> CleanAll(byId[id])
  }

  lemma {:induction false} ByIdClean(coerce: Json -> Option<real>, entries: seq<Json>)
    ensures CleanMap(ById(coerce, entries))
  {
    if entries != [] {
      hide CleanAll, Field, ToNumber, CleanTickers;
      ByIdClean(coerce, entries[..|entries| - 1]);
      var slot := Assigned(coerce, entries[|entries| - 1]);
      if slot.Some? {
        CleanTickersClean(Field(entries[|entries| - 1], "tickers").value.items);
      }
    }
  }

  // Whatever is stored, what is read is five numbered slots of clean tickers and an active id in range.
  lemma NormalizedIsNormal(coerce: Json -> Option<real>, raw: Json)
    ensures NormalForm(Normalized(coerce, raw))
  {
    hide CleanAll, ById, Entries;
    var byId := ById(coerce, Entries(raw));
    ByIdClean(coerce, Entries(raw));
    NoTickersClean();
  }

  lemma NoTickersClean()
    ensures CleanAll([])
  {
  }

  lemma SlotsOfHeld(byId: map<real, seq<string>>, lists: seq<Watchlist>)
    requires |lists| == MAX_WATCHLISTS && NormalLists(lists) && Holds(byId, lists)
    ensures Slots(byId) == lists
  {
    forall i | 0 <= i < |lists|
      ensures Slots(byId)[i] == lists[i]
    {
      assert HoldsAt(byId, i, lists[i].tickers);
    }
  }

  // Storing a state and reading it back gives the same state exactly when it has that form.
  lemma ReloadPreservesIffNormal(coerce: Json -> Option<real>, s: Lists)
    ensures Normalized(coerce, Encode(s)) == s <==> NormalForm(s)
  {
    NormalizedIsNormal(coerce, Encode(s));
    if NormalForm(s) {
      FieldsOfState(s);
      ByIdOfEncoded(coerce, s.lists);
      SlotsOfHeld(ById(coerce, EncodeLists(s.lists)), s.lists);
    }
  }

  lemma CapitalsClean(t: string)
    requires t != "" && forall i :: 0 <= i < |t| ==> 'A' <= t[i] <= 'Z'
    ensures CleanTicker(t)
  {
    TrimTrimmed(t);
    assert Upper(t) == t;
  }

  lemma ReadIsNormal(coerce: Json -> Option<real>, cell: Cell)
    ensures NormalForm(Read(coerce, cell))
  {
    if cell.Doc? {
      NormalizedIsNormal(coerce, cell.raw);
    } else {
      forall i | 0 <= i < |SEED_TICKERS|
        ensures CleanTicker(SEED_TICKERS[i])
      {
        CapitalsClean(SEED_TICKERS[i]);
      }
    }
  }

  // ---------------------------------------------------------------------------
  // Mutations
  // ---------------------------------------------------------------------------

  datatype Op = Add(ticker: string, listId: Option<real>) | Remove(ticker: string, listId: Option<real>) | SetActive(id: real)

  function AddTo(list: Watchlist, id: real, t: string): Watchlist {
    if list.id as real == id && t !in list.tickers then Watchlist(list.id, list.tickers + [t]) else list
  }

  function Dropped(tickers: seq<string>, t: string): seq<string> {
    if tickers == [] then []
    else
      var last := tickers[|tickers| - 1];
      Dropped(tickers[..|tickers| - 1], t) + if last == t then [] else [last]
  }

  function RemoveFrom(list: Watchlist, listId: Option<real>, t: string): Watchlist {
    if listId == None || list.id as real == listId.value then Watchlist(list.id, Dropped(list.tickers, t)) else list
  }

  function MapLists(lists: seq<Watchlist>, f: Watchlist -> Watchlist): (r: seq<Watchlist>)
    ensures |r| == |lists| && forall i :: 0 <= i < |lists| ==> r[i] == f(lists[i])
  {
    seq(|lists|, i requires 0 <= i < |lists| => f(lists[i]))
  }

  // The early returns.
  predicate Commits(op: Op) {
    match op
    case Add(ticker, _) => Ticker(ticker) != ""
    case Remove(ticker, _) => Ticker(ticker) != ""
    case SetActive(id) => 1.0 <= id <= MAX_WATCHLISTS as real
  }

  // The state a mutation commits.
  function Apply(op: Op, s: Lists): Lists {
    match op
    case Add(ticker, listId) =>
      var id := if listId.Some? then listId.value else s.activeId;
      s.(lists := MapLists(s.lists, l => AddTo(l, id, Ticker(ticker))))
    case Remove(ticker, listId) => s.(lists := MapLists(s.lists, l => RemoveFrom(l, listId, Ticker(ticker))))
    case SetActive(id) => s.(activeId := id)
  }

  lemma {:induction false} DroppedExact(tickers: seq<string>, t: string)
    ensures t !in Dropped(tickers, t)
    ensures forall x :: x != t ==> (x in Dropped(tickers, t) <==> x in tickers)
    ensures t !in tickers ==> Dropped(tickers, t) == tickers
    ensures CleanAll(tickers) ==> CleanAll(Dropped(tickers, t))
  {
    hide CleanTicker;
    if tickers != [] {
      var n := |tickers| - 1;
      assert tickers == tickers[..n] + [tickers[n]];
      DroppedExact(tickers[..n], t);
    }
  }

  lemma TickerClean(ticker: string)
    requires Ticker(ticker) != ""
    ensures CleanTicker(Ticker(ticker))
  {
    TrimUpperNormal(ticker);
  }

  lemma AddKeepsClean(list: Watchlist, id: real, t: string)
    requires CleanAll(list.tickers) && CleanTicker(t)
    ensures CleanAll(AddTo(list, id, t).tickers)
  {
  }

  // Every committed state is in normal form again.
  lemma ApplyKeepsNormal(op: Op, s: Lists)
    requires NormalForm(s) && Commits(op)
    ensures NormalForm(Apply(op, s))
  {
    hide CleanAll, Ticker;
    var next := Apply(op, s);
    forall i | 0 <= i < |next.lists|
      ensures next.lists[i].id == i + 1 && CleanAll(next.lists[i].tickers)
    {
      match op
      case Add(ticker, listId) =>
        TickerClean(ticker);
        AddKeepsClean(s.lists[i], if listId.Some? then listId.value else s.activeId, Ticker(ticker));
      case Remove(ticker, _) => DroppedExact(s.lists[i].tickers, Ticker(ticker));
      case SetActive(_) =>
    }
  }

  predicate IsInAnyWatchlist(s: Lists, ticker: string) {
    Ticker(ticker) != "" && exists l :: l in s.lists && Ticker(ticker) in l.tickers
  }

  // Adding to slot k puts the ticker there; removing it from everywhere leaves it nowhere.
  lemma AddedAndRemoved(s: Lists, ticker: string, k: int)
    requires NormalForm(s) && Ticker(ticker) != "" && 1 <= k <= MAX_WATCHLISTS
    ensures Ticker(ticker) in Apply(Add(ticker, Some(k as real)), s).lists[k - 1].tickers
    ensures IsInAnyWatchlist(Apply(Add(ticker, Some(k as real)), s), ticker)
    ensures !IsInAnyWatchlist(Apply(Remove(ticker, None), s), ticker)
  {
    var added := Apply(Add(ticker, Some(k as real)), s);
    assert added.lists[k - 1] == AddTo(s.lists[k - 1], k as real, Ticker(ticker));
    assert added.lists[k - 1] in added.lists;
    var removed := Apply(Remove(ticker, None), s);
    forall i | 0 <= i < |removed.lists|
      ensures Ticker(ticker) !in removed.lists[i].tickers
    {
      DroppedExact(s.lists[i].tickers, Ticker(ticker));
    }
  }

  // Removing what was just added to a slot that did not hold it restores the state.
  lemma RemoveUndoesAdd(s: Lists, ticker: string, k: int)
    requires NormalForm(s) && 1 <= k <= MAX_WATCHLISTS && Ticker(ticker) !in s.lists[k - 1].tickers
    ensures Apply(Remove(ticker, Some(k as real)), Apply(Add(ticker, Some(k as real)), s)) == s
  {
    hide Ticker, CleanTicker, CleanAll;
    var t := Ticker(ticker);
    var added := Apply(Add(ticker, Some(k as real)), s);
    var back := Apply(Remove(ticker, Some(k as real)), added);
    forall i | 0 <= i < |s.lists|
      ensures back.lists[i] == s.lists[i]
    {
      if i == k - 1 {
        var tickers := s.lists[i].tickers;
        assert (tickers + [t])[..|tickers + [t]| - 1] == tickers;
        DroppedExact(tickers, t);
      }
    }
    assert back.lists == s.lists;
  }

  // ---------------------------------------------------------------------------
  // What is read and what each mutation does, in words of their own
  // ---------------------------------------------------------------------------

  predicate Blank(s: string) {
    forall i :: 0 <= i < |s| ==>
      s[i] == ' ' || s[i] == '\t' || s[i] == '\n' || s[i] == '\r' || s[i] == '\U{B}' || s[i] == '\U{C}' || s[i] == '\U{A0}'
  }

  // A ticker is what was typed without the space around it, in capitals.
  lemma TickerIs(typed: string) returns (lead: string, core: string, trail: string)
    ensures Blank(lead) && Blank(trail) && typed == lead + core + trail
    ensures core != "" ==> !Blank(core[..1]) && !Blank(core[|core| - 1..])
    ensures |Ticker(typed)| == |core|
    ensures forall i :: 0 <= i < |core| ==> Ticker(typed)[i] == if 'a' <= core[i] <= 'z' then (core[i] as int - 32) as char else core[i]
  {
    core := Trim(typed);
    lead, trail := TrimSplits(typed);
    hide Trim;
  }

  lemma TickerBlank(typed: string)
    ensures Ticker(typed) == "" <==> Blank(typed)
  {
    var lead, core, trail := TickerIs(typed);
    hide Ticker;
    if core == "" {
    } else {
      assert typed[|lead|] == core[..1][0];
    }
  }

  // A mutation commits unless the ticker is blank, or the number is not one from 1 to 5.
  lemma CommitsIff(op: Op)
    ensures Commits(op) <==>
            match op
            case Add(typed, _) => !Blank(typed)
            case Remove(typed, _) => !Blank(typed)
            case SetActive(id) => 1.0 <= id <= 5.0
  {
    hide Blank, Ticker;
    match op
    case Add(typed, _) => TickerBlank(typed);
    case Remove(typed, _) => TickerBlank(typed);
    case SetActive(_) =>
  }

  // Adding: the ticker goes to the end of the slot with that number, the active one if none is given;
  // nothing changes where it already is, and nothing else changes.
  lemma AddExactly(s: Lists, typed: string, listId: Option<real>, i: nat)
    requires i < |s.lists|
    ensures var next, t := Apply(Add(typed, listId), s), Ticker(typed);
            && next.activeId == s.activeId && |next.lists| == |s.lists|
            && next.lists[i].id == s.lists[i].id
            && (listId == Some(s.lists[i].id as real) || (listId == None && s.activeId == s.lists[i].id as real) ==>
                  next.lists[i].tickers == if t in s.lists[i].tickers then s.lists[i].tickers else s.lists[i].tickers + [t])
            && (listId != Some(s.lists[i].id as real) && (listId != None || s.activeId != s.lists[i].id as real) ==>
                  next.lists[i] == s.lists[i])
  {
  }

  // Every ticker but t.
  function Unless(t: string): string -> Option<string> {
    x => if x == t then None else Some(x)
  }

  lemma {:induction false} DroppedInOrder(tickers: seq<string>, t: string)
    ensures Picks(tickers, Unless(t), Dropped(tickers, t))
  {
    hide Picks;
    if tickers == [] {
      PicksNothing(Unless(t));
    } else {
      var n := |tickers| - 1;
      DroppedInOrder(tickers[..n], t);
      PicksOneMore(tickers[..n], Unless(t), Dropped(tickers[..n], t), tickers[n]);
      assert Dropped(tickers[..n], t) + [] == Dropped(tickers[..n], t);
      assert tickers[..n] + [tickers[n]] == tickers;
    }
  }

  // Removing: from the slot with that number, or from all of them if none is given, the ticker goes and
  // the others stay in their order; nothing else changes.
  lemma RemoveExactly(s: Lists, typed: string, listId: Option<real>, i: nat)
    requires i < |s.lists|
    ensures var next := Apply(Remove(typed, listId), s);
            && next.activeId == s.activeId && |next.lists| == |s.lists|
            && next.lists[i].id == s.lists[i].id
            && (listId == None || listId == Some(s.lists[i].id as real) ==>
                  Picks(s.lists[i].tickers, Unless(Ticker(typed)), next.lists[i].tickers))
            && (listId != None && listId != Some(s.lists[i].id as real) ==> next.lists[i] == s.lists[i])
  {
    hide Ticker, Picks;
    DroppedInOrder(s.lists[i].tickers, Ticker(typed));
  }

  // The clean ticker of a stored entry: a string that is not blank.
  function Kept(): Json -> Option<string> {
    (j: Json) =>
      match j
      case JStr(text) => if Ticker(text) != "" then Some(Ticker(text)) else None
      case _ => None
  }

  lemma {:induction false} CleanTickersInOrder(items: seq<Json>)
    ensures Picks(items, Kept(), CleanTickers(items))
  {
    hide Picks, Ticker;
    if items == [] {
      PicksNothing(Kept());
    } else {
      var n := |items| - 1;
      CleanTickersInOrder(items[..n]);
      PicksOneMore(items[..n], Kept(), CleanTickers(items[..n]), items[n]);
      assert CleanTickers(items[..n]) + [] == CleanTickers(items[..n]);
      assert items[..n] + [items[n]] == items;
    }
  }

  // A stored entry that gives slot id its tickers.
  predicate Gives(coerce: Json -> Option<real>, entry: Json, id: real, items: seq<Json>) {
    && entry.JObj?
    && ToNumber(coerce, Get(entry.fields, "id")) == Some(id) && 1.0 <= id <= 5.0
    && Get(entry.fields, "tickers") == Some(JArr(items))
  }

  ghost predicate GivesNothing(coerce: Json -> Option<real>, entry: Json, id: real) {
    forall items :: !Gives(coerce, entry, id, items)
  }

  // The e-th entry is the last one that gives slot id its tickers.
  ghost predicate LastGives(coerce: Json -> Option<real>, entries: seq<Json>, id: real, e: nat, items: seq<Json>) {
    && e < |entries| && Gives(coerce, entries[e], id, items)
    && forall f :: e < f < |entries| ==> GivesNothing(coerce, entries[f], id)
  }

  lemma GivesAssigned(coerce: Json -> Option<real>, entry: Json, id: real, items: seq<Json>)
    requires Gives(coerce, entry, id, items)
    ensures Assigned(coerce, entry) == Some((id, CleanTickers(items)))
  {
    hide Get, ToNumber, CleanTickers;
  }

  lemma AssignedGives(coerce: Json -> Option<real>, entry: Json) returns (items: seq<Json>)
    requires Assigned(coerce, entry).Some?
    ensures Gives(coerce, entry, Assigned(coerce, entry).value.0, items)
    ensures Assigned(coerce, entry).value.1 == CleanTickers(items)
  {
    hide Get, ToNumber, CleanTickers;
    items := Field(entry, "tickers").value.items;
  }

  lemma GivesNow(coerce: Json -> Option<real>, entries: seq<Json>, id: real, items: seq<Json>)
    requires entries != [] && Gives(coerce, entries[|entries| - 1], id, items)
    ensures LastGives(coerce, entries, id, |entries| - 1, items)
    ensures forall e, other :: LastGives(coerce, entries, id, e, other) ==> e == |entries| - 1
  {
    hide Gives;
  }

  lemma GivesBefore(coerce: Json -> Option<real>, entries: seq<Json>, id: real, e: nat, items: seq<Json>)
    requires entries != [] && GivesNothing(coerce, entries[|entries| - 1], id)
    ensures LastGives(coerce, entries, id, e, items) <==> LastGives(coerce, entries[..|entries| - 1], id, e, items)
  {
    hide Gives;
  }

  ghost predicate ReadsLast(coerce: Json -> Option<real>, entries: seq<Json>, id: real, byId: map<real, seq<string>>) {
    && (id in byId <==> exists e: nat, items: seq<Json> :: LastGives(coerce, entries, id, e, items))
    && (forall e: nat, items: seq<Json> :: LastGives(coerce, entries, id, e, items) ==>
          id in byId && Picks(items, Kept(), byId[id]))
  }

  lemma ReadsGiven(coerce: Json -> Option<real>, entries: seq<Json>, id: real, items: seq<Json>, byId: map<real, seq<string>>)
    requires entries != [] && Gives(coerce, entries[|entries| - 1], id, items)
    requires Assigned(coerce, entries[|entries| - 1]).Some? && id in byId && byId[id] == Assigned(coerce, entries[|entries| - 1]).value.1
    ensures ReadsLast(coerce, entries, id, byId)
  {
    hide Gives, Picks, LastGives, Assigned, CleanTickers, Kept;
    var n := |entries| - 1;
    GivesNow(coerce, entries, id, items);
    forall e: nat, other: seq<Json> | LastGives(coerce, entries, id, e, other)
      ensures Picks(other, Kept(), byId[id])
    {
      LastIsGiven(coerce, entries, id, e, other);
      GivesAssigned(coerce, entries[n], id, other);
      CleanTickersInOrder(other);
    }
  }

  lemma LastIsGiven(coerce: Json -> Option<real>, entries: seq<Json>, id: real, e: nat, items: seq<Json>)
    requires LastGives(coerce, entries, id, e, items)
    ensures e < |entries| && Gives(coerce, entries[e], id, items)
  {
  }

  lemma {:induction false} ByIdIsLast(coerce: Json -> Option<real>, entries: seq<Json>, id: real)
    ensures ReadsLast(coerce, entries, id, ById(coerce, entries))
  {
    if entries != [] {
      hide Assigned, Gives, Picks, LastGives, Kept;
      var n := |entries| - 1;
      var slot := Assigned(coerce, entries[n]);
      ByIdIsLast(coerce, entries[..n], id);
      if slot.Some? {
        var items := AssignedGives(coerce, entries[n]);
        if slot.value.0 == id {
          ReadsGiven(coerce, entries, id, items, ById(coerce, entries));
          return;
        }
      }
      forall other
        ensures !Gives(coerce, entries[n], id, other)
      {
        if Gives(coerce, entries[n], id, other) {
          GivesAssigned(coerce, entries[n], id, other);
        }
      }
      forall e: nat, items: seq<Json>
        ensures LastGives(coerce, entries, id, e, items) <==> LastGives(coerce, entries[..n], id, e, items)
      {
        GivesBefore(coerce, entries, id, e, items);
      }
    }
  }

  // What is read back from the JSON object stored: the five slots, each with the clean tickers of the
  // last entry that gives it some, in their order, and the stored active number if it is one from 1 to 5.
  lemma StoredSlots(coerce: Json -> Option<real>, fields: seq<(string, Json)>, entries: seq<Json>, i: nat, e: nat, items: seq<Json>)
    requires Get(fields, "lists") == Some(JArr(entries)) && i < 5
    ensures var s, id := Normalized(coerce, JObj(fields)), (i + 1) as real;
            && |s.lists| == 5 && s.lists[i].id == i + 1
            && (LastGives(coerce, entries, id, e, items) ==> Picks(items, Kept(), s.lists[i].tickers))
            && ((forall f: nat, other: seq<Json> :: !LastGives(coerce, entries, id, f, other)) ==> s.lists[i].tickers == [])
  {
    hide Picks, LastGives, Kept, ById, Get, ToNumber, InRange;
    ByIdIsLast(coerce, entries, (i + 1) as real);
    assert Entries(JObj(fields)) == entries;
  }

  // Without an array of lists there is nothing in any slot.
  lemma NothingStored(coerce: Json -> Option<real>, raw: Json, i: nat)
    requires i < 5 && (raw.JObj? ==> forall entries :: Get(raw.fields, "lists") != Some(JArr(entries)))
    ensures |Normalized(coerce, raw).lists| == 5 && Normalized(coerce, raw).lists[i] == Watchlist(i + 1, [])
  {
    hide Get, ToNumber, InRange;
    assert Entries(raw) == [];
  }

  lemma StoredActive(coerce: Json -> Option<real>, raw: Json)
    ensures var read, id := Normalized(coerce, raw).activeId, if raw.JObj? then ToNumber(coerce, Get(raw.fields, "activeId")) else None;
            (id.Some? && 1.0 <= id.value <= 5.0 ==> read == id.value) && (id.None? || !(1.0 <= id.value <= 5.0) ==> read == 1.0)
  {
    hide Get, ById, Slots, Entries;
  }

  // A first visit, and a cell that cannot be parsed, show six tickers in the first slot.
  lemma FirstVisit(coerce: Json -> Option<real>, cell: Cell)
    requires !cell.Doc?
    ensures Read(coerce, cell) ==
            Lists([Watchlist(1, ["HDFCBANK", "TCS", "RELIANCE", "INFY", "ITC", "SBIN"]),
                   Watchlist(2, []), Watchlist(3, []), Watchlist(4, []), Watchlist(5, [])], 1.0)
  {
    assert Read(coerce, cell).lists ==
           [Watchlist(1, ["HDFCBANK", "TCS", "RELIANCE", "INFY", "ITC", "SBIN"]),
            Watchlist(2, []), Watchlist(3, []), Watchlist(4, []), Watchlist(5, [])];
  }
}
