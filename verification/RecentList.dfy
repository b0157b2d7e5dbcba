// CompanyAutosuggest.tsx: the shortlist of recent picks, kept in the component and in localStorage.
module RecentList {
  datatype Company = Company(symbol: string, name: string)

  const RECENT_MAX := 6

  datatype Event = Pick(company: Company) | Clear | Remount

  function Take<T>(xs: seq<T>, n: nat): seq<T> {
    if |xs| <= n then xs else xs[..n]
  }

  function Others(xs: seq<Company>, symbol: string): (r: seq<Company>)
    ensures |r| <= |xs|
  {
    if xs == [] then [] else (if xs[0].symbol == symbol then [] else [xs[0]]) + Others(xs[1..], symbol)
  }

  function Remember(recent: seq<Company>, pick: Company): seq<Company> {
    Take([pick] + Others(recent, pick.symbol), RECENT_MAX)
  }

  function After(recent: seq<Company>, e: Event): seq<Company> {
    match e
    case Pick(company) => Remember(recent, company)
    case Clear => []
    case Remount => recent
  }

  // The component's list after a history that starts with nothing stored.
  function Recent(history: seq<Event>): seq<Company> {
    if history == [] then [] else After(Recent(history[..|history| - 1]), history[|history| - 1])
  }

  // The mutable state: the component's list and what localStorage holds.
  class Shortlist {
    var recent: seq<Company>
    var stored: seq<Company>

    constructor ()
      ensures Valid() && recent == []
    {
      recent, stored := [], [];
    }

    // The stored copy is the list, and short enough to survive loadRecent's slice.
    ghost predicate Valid()
      reads this
    {
      stored == recent && |recent| <= RECENT_MAX
    }

    method HandleSelect(result: Company)
      requires Valid()
      modifies this
      ensures Valid() && recent == After(old(recent), Pick(result))
    {
      var next := Take([result] + Others(recent, result.symbol), RECENT_MAX);
      SaveRecent(next);
      recent := next;
    }

    method SaveRecent(list: seq<Company>)
      modifies `stored
      ensures stored == Take(list, RECENT_MAX)
    {
      stored := Take(list, RECENT_MAX);
    }

    method ClearRecent()
      requires Valid()
      modifies this
      ensures Valid() && recent == After(old(recent), Clear)
    {
      recent := [];
      SaveRecent([]);
    }

    // A new mount loads what was stored.
    method LoadRecent()
      requires Valid()
      modifies `recent
      ensures Valid() && recent == After(old(recent), Remount)
    {
      recent := Take(stored, RECENT_MAX);
    }
  }

  // ---------------------------------------------------------------------------
  // What the list is
  // ---------------------------------------------------------------------------

  // The picks since the last clear, latest first.
  function PicksBack(history: seq<Event>): seq<Company> {
    if history == [] then []
    else
      match history[|history| - 1]
      case Pick(company) => [company] + PicksBack(history[..|history| - 1])
      case Clear => []
      case Remount => PicksBack(history[..|history| - 1])
  }

  // Drops every entry whose symbol has come before.
  function Dedup(xs: seq<Company>): seq<Company> {
    if xs == [] then [] else [xs[0]] + Others(Dedup(xs[1..]), xs[0].symbol)
  }

  predicate DistinctSymbols(xs: seq<Company>) {
    forall i, j :: 0 <= i < j < |xs| ==> xs[i].symbol != xs[j].symbol
  }

  // x is the first entry of xs with its symbol.
  predicate FirstOf(xs: seq<Company>, x: Company) {
    exists i :: 0 <= i < |xs| && xs[i] == x && forall j :: 0 <= j < i ==> xs[j].symbol != x.symbol
  }

  lemma {:induction false} OthersExact(xs: seq<Company>, symbol: string)
    ensures forall x :: x in Others(xs, symbol) <==> x in xs && x.symbol != symbol
  {
    if xs != [] {
      OthersExact(xs[1..], symbol);
      assert xs == [xs[0]] + xs[1..];
    }
  }

  lemma {:induction false} OthersDistinct(xs: seq<Company>, symbol: string)
    requires DistinctSymbols(xs)
    ensures DistinctSymbols(Others(xs, symbol)) && |Others(xs, symbol)| >= |xs| - 1
    ensures (forall x :: x in xs ==> x.symbol != symbol) ==> Others(xs, symbol) == xs
  {
    if xs != [] {
      var rest := xs[1..];
      OthersDistinct(rest, symbol);
      OthersExact(rest, symbol);
      assert xs == [xs[0]] + rest;
      if xs[0].symbol == symbol {
        assert forall x :: x in rest ==> x.symbol != symbol;
      } else {
        var others := Others(rest, symbol);
        assert Others(xs, symbol) == [xs[0]] + others;
        hide Others;
        forall i | 0 <= i < |others|
          ensures others[i].symbol != xs[0].symbol
        {
          assert others[i] in rest;
        }
      }
    }
  }

  // Dedup keeps exactly the first entry of each symbol, once.
  lemma {:induction false} DedupExact(xs: seq<Company>)
    ensures DistinctSymbols(Dedup(xs))
    ensures forall x :: x in Dedup(xs) <==> FirstOf(xs, x)
  {
    if xs != [] {
      var rest := xs[1..];
      DedupExact(rest);
      OthersExact(Dedup(rest), xs[0].symbol);
      OthersDistinct(Dedup(rest), xs[0].symbol);
      var others := Others(Dedup(rest), xs[0].symbol);
      assert forall i :: 0 <= i < |others| ==> others[i] in others;
      forall x
        ensures x in Dedup(xs) <==> FirstOf(xs, x)
      {
        FirstOfCons(xs, x);
      }
    }
  }

  lemma FirstOfCons(xs: seq<Company>, x: Company)
    requires xs != []
    ensures FirstOf(xs, x) <==> x == xs[0] || (x.symbol != xs[0].symbol && FirstOf(xs[1..], x))
  {
    var rest := xs[1..];
    if FirstOf(xs, x) {
      var i :| 0 <= i < |xs| && xs[i] == x && forall j :: 0 <= j < i ==> xs[j].symbol != x.symbol;
      if i > 0 {
        assert rest[i - 1] == x && forall j :: 0 <= j < i - 1 ==> rest[j] == xs[j + 1];
      }
    }
    if x.symbol != xs[0].symbol && FirstOf(rest, x) {
      var i :| 0 <= i < |rest| && rest[i] == x && forall j :: 0 <= j < i ==> rest[j].symbol != x.symbol;
      assert xs[i + 1] == x && forall j :: 1 <= j < i + 1 ==> xs[j] == rest[j - 1];
    }
  }

  // The place of the first entry with a symbol.
  function FirstAt(xs: seq<Company>, symbol: string): nat {
    if xs == [] || xs[0].symbol == symbol then 0 else 1 + FirstAt(xs[1..], symbol)
  }

  // The entries of ys come in the order in which their symbols first appear in xs.
  predicate InOrderOf(ys: seq<Company>, xs: seq<Company>) {
    forall i, j :: 0 <= i < j < |ys| ==> FirstAt(xs, ys[i].symbol) < FirstAt(xs, ys[j].symbol)
  }

  lemma {:induction false} OthersInOrder(ys: seq<Company>, symbol: string, xs: seq<Company>)
    requires InOrderOf(ys, xs)
    ensures InOrderOf(Others(ys, symbol), xs)
  {
    if ys != [] {
      var rest := ys[1..];
      OthersInOrder(rest, symbol, xs);
      OthersExact(rest, symbol);
      var others := Others(rest, symbol);
      assert Others(ys, symbol) == (if ys[0].symbol == symbol then [] else [ys[0]]) + others;
      hide Others, FirstAt;
      forall i | 0 <= i < |others|
        ensures FirstAt(xs, ys[0].symbol) < FirstAt(xs, others[i].symbol)
      {
        assert others[i] in rest;
        var k :| 0 <= k < |rest| && rest[k] == others[i];
        assert rest[k] == ys[k + 1];
      }
    }
  }

  // Dedup keeps the order of first appearance.
  lemma {:induction false} DedupInOrder(xs: seq<Company>)
    ensures InOrderOf(Dedup(xs), xs)
  {
    if xs != [] {
      var rest, symbol := xs[1..], xs[0].symbol;
      DedupInOrder(rest);
      OthersInOrder(Dedup(rest), symbol, rest);
      OthersExact(Dedup(rest), symbol);
      var others := Others(Dedup(rest), symbol);
      forall i | 0 <= i < |others|
        ensures FirstAt(xs, others[i].symbol) == 1 + FirstAt(rest, others[i].symbol)
      {
        assert others[i] in others;
      }
      hide Others;
      assert Dedup(xs) == [xs[0]] + others;
      hide Dedup, FirstAt;
      assert FirstAt(xs, symbol) == 0 by { FirstIsFirst(xs); }
      var all := [xs[0]] + others;
      forall i, j | 0 <= i < j < |all|
        ensures FirstAt(xs, all[i].symbol) < FirstAt(xs, all[j].symbol)
      {
        assert all[j] == others[j - 1];
        if i > 0 {
          assert all[i] == others[i - 1];
        }
      }
    }
  }

  lemma FirstIsFirst(xs: seq<Company>)
    requires xs != []
    ensures FirstAt(xs, xs[0].symbol) == 0
  {
  }

  lemma {:induction false} OthersOfTake(xs: seq<Company>, symbol: string, n: nat)
    requires n <= |xs|
    ensures Others(xs[..n], symbol) <= Others(xs, symbol)
  {
    if n > 0 {
      assert xs[..n][1..] == xs[1..][..n - 1];
      OthersOfTake(xs[1..], symbol, n - 1);
    } else {
      assert xs[..0] == [];
    }
  }

  // Cutting the list before or after a pick makes no difference, because the pick displaces at most one.
  lemma CutOnceOrTwice(xs: seq<Company>, pick: Company)
    requires DistinctSymbols(xs)
    ensures Remember(Take(xs, RECENT_MAX), pick) == Remember(xs, pick)
  {
    if |xs| > RECENT_MAX {
      var cut := xs[..RECENT_MAX];
      OthersOfTake(xs, pick.symbol, RECENT_MAX);
      OthersDistinct(cut, pick.symbol);
    }
  }

  // The list is the first six distinct symbols of the picks since the last clear, latest first: cutting
  // at every step loses nothing against deduplicating the whole history once.
  lemma {:induction false} RecentIsDedupedHistory(history: seq<Event>)
    ensures Recent(history) == Take(Dedup(PicksBack(history)), 6)
  {
    if history != [] {
      var front, last := history[..|history| - 1], history[|history| - 1];
      RecentIsDedupedHistory(front);
      if last.Pick? {
        var back := PicksBack(front);
        DedupExact(back);
        CutOnceOrTwice(Dedup(back), last.company);
        assert ([last.company] + back)[1..] == back;
      }
    }
  }
}
