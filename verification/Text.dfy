// Character and string helpers shared by the other modules.  Only ASCII letters
// change case; white space is the set that trim() and \s agree on below U+0100.
module Text {
  predicate IsSpace(c: char) {
    c in {' ', '\t', '\n', '\r', '\U{B}', '\U{C}', '\U{A0}'}
  }

  function UpperChar(c: char): char {
    if 'a' <= c <= 'z' then (c as int - 32) as char else c
  }

  function Upper(s: string): (r: string)
    ensures |r| == |s| && forall i :: 0 <= i < |s| ==> r[i] == UpperChar(s[i])
  {
    if s == "" then "" else [UpperChar(s[0])] + Upper(s[1..])
  }

  function TrimLeft(s: string): string {
    if s != "" && IsSpace(s[0]) then TrimLeft(s[1..]) else s
  }

  function TrimRight(s: string): string {
    if s != "" && IsSpace(s[|s| - 1]) then TrimRight(s[..|s| - 1]) else s
  }

  function Trim(s: string): string {
    TrimRight(TrimLeft(s))
  }

  function Underscores(s: string): (r: string)
    ensures |r| == |s| && forall i :: 0 <= i < |s| ==> r[i] == if s[i] == ' ' then '_' else s[i]
  {
    if s == "" then "" else [if s[0] == ' ' then '_' else s[0]] + Underscores(s[1..])
  }

  // The normal form of a symbol: liveQuoteManager and useLiveQuote both apply it.
  function Normalise(symbol: string): string {
    Underscores(Upper(Trim(symbol)))
  }

  // A string that trim() leaves alone.
  predicate Trimmed(s: string) {
    s != "" ==> !IsSpace(s[0]) && !IsSpace(s[|s| - 1])
  }

  predicate AllSpace(s: string) {
    forall i :: 0 <= i < |s| ==> IsSpace(s[i])
  }

  lemma {:induction false} TrimLeftSkips(s: string, lead: string)
    requires AllSpace(lead)
    ensures TrimLeft(lead + s) == TrimLeft(s)
  {
    if lead == "" {
      assert lead + s == s;
    } else {
      assert (lead + s)[1..] == lead[1..] + s;
      TrimLeftSkips(s, lead[1..]);
    }
  }

  lemma {:induction false} TrimRightSkips(s: string, trail: string)
    requires AllSpace(trail)
    ensures TrimRight(s + trail) == TrimRight(s)
  {
    if trail == "" {
      assert s + trail == s;
    } else {
      assert (s + trail)[..|s + trail| - 1] == s + trail[..|trail| - 1];
      TrimRightSkips(s, trail[..|trail| - 1]);
    }
  }

  // Every way of writing s as space + core + space with a trimmed core gives the same core.
  lemma TrimOf(lead: string, core: string, trail: string)
    requires AllSpace(lead) && AllSpace(trail) && Trimmed(core)
    ensures Trim(lead + core + trail) == core
  {
    TrimLeftSkips(core + trail, lead);
    assert lead + core + trail == lead + (core + trail);
    if core == "" {
      assert core + trail == trail + "";
      TrimLeftSkips("", trail);
    } else {
      assert (core + trail)[0] == core[0];
      TrimRightSkips(core, trail);
    }
  }

  lemma {:induction false} TrimLeftSplits(s: string) returns (lead: string)
    ensures AllSpace(lead) && s == lead + TrimLeft(s)
    ensures TrimLeft(s) != "" ==> !IsSpace(TrimLeft(s)[0])
  {
    lead := "";
    if s != "" && IsSpace(s[0]) {
      var rest := TrimLeftSplits(s[1..]);
      lead := [s[0]] + rest;
    }
  }

  lemma {:induction false} TrimRightSplits(s: string) returns (trail: string)
    ensures AllSpace(trail) && s == TrimRight(s) + trail
    ensures TrimRight(s) != "" ==> !IsSpace(TrimRight(s)[|TrimRight(s)| - 1])
  {
    trail := "";
    if s != "" && IsSpace(s[|s| - 1]) {
      var rest := TrimRightSplits(s[..|s| - 1]);
      trail := rest + [s[|s| - 1]];
    }
  }

  lemma TrimSplits(s: string) returns (lead: string, trail: string)
    ensures AllSpace(lead) && AllSpace(trail) && s == lead + Trim(s) + trail
    ensures Trimmed(Trim(s))
  {
    lead := TrimLeftSplits(s);
    trail := TrimRightSplits(TrimLeft(s));
    if Trim(s) != "" {
      assert Trim(s)[0] == TrimLeft(s)[0];
    }
  }

  lemma TrimTrimmed(s: string)
    requires Trimmed(s)
    ensures Trim(s) == s
  {
    TrimOf("", s, "");
    assert "" + s + "" == s;
  }

  lemma UpperKeepsTrimmed(s: string)
    requires Trimmed(s)
    ensures Trimmed(Upper(s))
  {
  }

  lemma UpperTwice(s: string)
    ensures Upper(Upper(s)) == Upper(s)
  {
    assert forall c: char :: UpperChar(UpperChar(c)) == UpperChar(c);
  }

  // useLiveQuote normalises before it calls subscribe, which normalises again.
  lemma NormaliseIdempotent(symbol: string)
    ensures Normalise(Normalise(symbol)) == Normalise(symbol)
  {
    hide Trim;
    var lead, trail := TrimSplits(symbol);
    var n := Normalise(symbol);
    UpperKeepsTrimmed(Trim(symbol));
    assert Trimmed(n);
    TrimTrimmed(n);
    assert forall i :: 0 <= i < |n| ==> UpperChar(n[i]) == n[i] && n[i] != ' ';
    hide Upper, Underscores, Trimmed, UpperChar;
    assert Upper(n) == n;
    assert Underscores(n) == n;
  }

  // trim() followed by toUpperCase() is a normal form too.
  lemma TrimUpperNormal(s: string)
    ensures Trimmed(Upper(Trim(s)))
    ensures Upper(Trim(Upper(Trim(s)))) == Upper(Trim(s))
  {
    var lead, trail := TrimSplits(s);
    UpperKeepsTrimmed(Trim(s));
    TrimTrimmed(Upper(Trim(s)));
    UpperTwice(Trim(s));
  }

  // ---------------------------------------------------------------------------
  // Spellings
  // ---------------------------------------------------------------------------

  predicate SameLetter(c: char, d: char) {
    c == d || ('a' <= c <= 'z' && d as int == c as int - 32) || ('a' <= d <= 'z' && c as int == d as int - 32)
  }

  // Two texts that differ at most in the case of ASCII letters.
  predicate SameSpelling(a: string, b: string) {
    |a| == |b| && forall i :: 0 <= i < |a| ==> SameLetter(a[i], b[i])
  }

  lemma {:induction false} TrimLeftSameSpelling(a: string, b: string)
    requires SameSpelling(a, b)
    ensures SameSpelling(TrimLeft(a), TrimLeft(b))
  {
    if a != "" {
      assert SameLetter(a[0], b[0]);
      assert IsSpace(a[0]) <==> IsSpace(b[0]);
      if IsSpace(a[0]) {
        TrimLeftSameSpelling(a[1..], b[1..]);
      }
    }
  }

  lemma {:induction false} TrimRightSameSpelling(a: string, b: string)
    requires SameSpelling(a, b)
    ensures SameSpelling(TrimRight(a), TrimRight(b))
  {
    if a != "" {
      var n := |a| - 1;
      assert SameLetter(a[n], b[n]);
      assert IsSpace(a[n]) <==> IsSpace(b[n]);
      if IsSpace(a[n]) {
        TrimRightSameSpelling(a[..n], b[..n]);
      }
    }
  }

  lemma UpperSameSpelling(a: string, b: string)
    requires SameSpelling(a, b)
    ensures Upper(a) == Upper(b)
  {
    forall i | 0 <= i < |a|
      ensures Upper(a)[i] == Upper(b)[i]
    {
      assert SameLetter(a[i], b[i]);
    }
  }

  // Texts that differ in case only come to the same symbol, and to the same ticker.
  lemma CaseDoesNotMatter(a: string, b: string)
    requires SameSpelling(a, b)
    ensures Normalise(a) == Normalise(b) && Upper(Trim(a)) == Upper(Trim(b))
  {
    TrimLeftSameSpelling(a, b);
    TrimRightSameSpelling(TrimLeft(a), TrimLeft(b));
    UpperSameSpelling(Trim(a), Trim(b));
  }

  // Space around a symbol is dropped; inside, letters become capitals and spaces underscores, and nothing
  // else changes.
  lemma NormaliseIs(lead: string, core: string, trail: string)
    requires AllSpace(lead) && AllSpace(trail) && Trimmed(core)
    ensures var n := Normalise(lead + core + trail);
            |n| == |core| && forall i :: 0 <= i < |core| ==>
              n[i] == (if core[i] == ' ' then '_' else if 'a' <= core[i] <= 'z' then (core[i] as int - 32) as char else core[i])
  {
    TrimOf(lead, core, trail);
  }
}
