// refs.ts: the template-reference scanner, its validator and what a workflow's references imply.
module Refs {
  import opened Options
  import opened Text
  import opened Json
  import opened Decimal
  import opened Selection

  // ---------------------------------------------------------------------------
  // The scanner
  // ---------------------------------------------------------------------------

  // The first closing brace at or after i, or the length.
  function FirstClose(s: string, i: nat): (j: nat)
    requires i <= |s|
    ensures i <= j <= |s|
    ensures j < |s| ==> s[j] == '}'
    ensures forall k :: i <= k < j ==> s[k] != '}'
    decreases |s| - i
  {
    if i == |s| || s[i] == '}' then i else FirstClose(s, i + 1)
  }

  // A reference starts at i: two opening braces, something without a closing brace, two closing braces.
  predicate Matches(s: string, i: nat) {
    i + 2 <= |s| && s[i] == '{' && s[i + 1] == '{' &&
    var j := FirstClose(s, i + 2);
    i + 2 < j && j + 1 < |s| && s[j + 1] == '}'
  }

  function Scan(s: string, i: nat): seq<string>
    requires i <= |s|
    decreases |s| - i
  {
    if i == |s| then []
    else if Matches(s, i) then
      var j := FirstClose(s, i + 2);
      [Trim(s[i + 2..j])] + Scan(s, j + 2)
    else Scan(s, i + 1)
  }

  function ExtractRefs(s: string): seq<string> {
    Scan(s, 0)
  }

  // The loop over all matches.
  method ExtractRefsLoop(value: string) returns (out: seq<string>)
    ensures out == ExtractRefs(value)
  {
    out := [];
    var i := 0;
    while i < |value|
      invariant i <= |value|
      invariant out + Scan(value, i) == ExtractRefs(value)
    {
      if Matches(value, i) {
        var j := FirstClose(value, i + 2);
        out := out + [Trim(value[i + 2..j])];
        i := j + 2;
      } else {
        i := i + 1;
      }
    }
  }

  // One way the pattern \{\{\s*([^}]+?)\s*\}\} can match at i, with the group at a..b, the end at c + 2.
  predicate PatternMatch(s: string, i: nat, a: nat, b: nat, c: nat) {
    && i + 2 <= a < b <= c && c + 2 <= |s|
    && s[i] == '{' && s[i + 1] == '{'
    && AllSpace(s[i + 2..a])
    && (forall k :: a <= k < b ==> s[k] != '}')
    && AllSpace(s[b..c])
    && s[c] == '}' && s[c + 1] == '}'
  }

  lemma TrimIgnoresPadding(lead: string, mid: string, trail: string)
    requires AllSpace(lead) && AllSpace(trail)
    ensures Trim(lead + mid + trail) == Trim(mid)
  {
    var l, t := TrimSplits(mid);
    TrimOf(lead + l, Trim(mid), t + trail);
    assert lead + mid + trail == lead + l + Trim(mid) + (t + trail);
  }

  // However greedily the pattern splits the spaces, it matches where the scanner does, ends where the
  // scanner goes on, and captures a group that trims to what the scanner reports.
  lemma ScannerIsThePattern(s: string, i: nat)
    ensures Matches(s, i) <==> exists a: nat, b: nat, c: nat :: PatternMatch(s, i, a, b, c)
    ensures forall a: nat, b: nat, c: nat :: PatternMatch(s, i, a, b, c) ==>
              c == FirstClose(s, i + 2) && Trim(s[a..b]) == Trim(s[i + 2..c])
  {
    if Matches(s, i) {
      var j := FirstClose(s, i + 2);
      assert PatternMatch(s, i, i + 2, j, j);
    }
    forall a: nat, b: nat, c: nat | PatternMatch(s, i, a, b, c)
      ensures Matches(s, i) && c == FirstClose(s, i + 2) && Trim(s[a..b]) == Trim(s[i + 2..c])
    {
      PatternEnd(s, i, a, b, c);
      assert s[i + 2..c] == s[i + 2..a] + s[a..b] + s[b..c];
      TrimIgnoresPadding(s[i + 2..a], s[a..b], s[b..c]);
    }
  }

  lemma PatternEnd(s: string, i: nat, a: nat, b: nat, c: nat)
    requires PatternMatch(s, i, a, b, c)
    ensures c == FirstClose(s, i + 2)
  {
    forall k | i + 2 <= k < c
      ensures s[k] != '}'
    {
      if k < a {
        assert IsSpace(s[i + 2..a][k - (i + 2)]);
      } else if k >= b {
        assert IsSpace(s[b..c][k - b]);
      }
    }
  }

  // ---------------------------------------------------------------------------
  // Printing and scanning
  // ---------------------------------------------------------------------------

  datatype Piece = Piece(text: string, ref: string)

  function Wrap(ref: string): string {
    "{{ " + ref + " }}"
  }

  function Render(pieces: seq<Piece>, tail: string): string {
    if pieces == [] then tail else pieces[0].text + Wrap(pieces[0].ref) + Render(pieces[1..], tail)
  }

  function RefsOf(pieces: seq<Piece>): seq<string> {
    if pieces == [] then [] else [pieces[0].ref] + RefsOf(pieces[1..])
  }

  predicate PlainText(s: string) {
    forall i :: 0 <= i < |s| ==> s[i] != '{'
  }

  predicate ProperRef(r: string) {
    r != "" && Trimmed(r) && forall i :: 0 <= i < |r| ==> r[i] != '}'
  }

  lemma {:induction false} SkipText(s: string, i: nat, k: nat)
    requires i <= k <= |s| && forall j :: i <= j < k ==> s[j] != '{'
    ensures Scan(s, i) == Scan(s, k)
    decreases k - i
  {
    if i < k {
      SkipText(s, i + 1, k);
    }
  }

  lemma WrappedText(s: string, i: nat, r: string)
    requires i <= |s| && Wrap(r) <= s[i..]
    ensures i + |r| + 6 <= |s| && s[i] == '{' && s[i + 1] == '{'
    ensures s[i + 2..i + |r| + 4] == " " + r + " "
    ensures s[i + |r| + 4] == '}' && s[i + |r| + 5] == '}'
  {
    var w := Wrap(r);
    assert forall k :: 0 <= k < |w| ==> s[i + k] == s[i..][k] == w[k];
    assert w[2..|r| + 4] == " " + r + " ";
  }

  lemma FirstCloseAt(s: string, i: nat, end: nat)
    requires i <= end < |s| && s[end] == '}' && forall k :: 0 <= k < end - i ==> s[i..end][k] != '}'
    ensures FirstClose(s, i) == end
  {
    assert forall k :: i <= k < end ==> s[k] != '}' by {
      forall k | i <= k < end ensures s[k] != '}' {
        assert s[k] == s[i..end][k - i];
      }
    }
  }

  lemma ScanWrapped(s: string, i: nat, r: string)
    requires ProperRef(r) && i <= |s| && Wrap(r) <= s[i..]
    ensures i + |Wrap(r)| <= |s| && Scan(s, i) == [r] + Scan(s, i + |Wrap(r)|)
  {
    var end := i + |r| + 4;
    WrappedText(s, i, r);
    FirstCloseAt(s, i + 2, end);
    TrimOf(" ", r, " ");
  }

  // Scanning one piece: its text is skipped, its reference reported.
  lemma ScanPiece(s: string, i: nat, p: Piece, rest: string) returns (next: nat)
    requires i <= |s| && s[i..] == p.text + Wrap(p.ref) + rest
    requires PlainText(p.text) && ProperRef(p.ref)
    ensures i < next <= |s| && s[next..] == rest
    ensures Scan(s, i) == [p.ref] + Scan(s, next)
  {
    hide Scan, ProperRef;
    var k, w := i + |p.text|, Wrap(p.ref);
    next := k + |w|;
    assert s[i..] == p.text + (w + rest);
    assert s[k..] == s[i..][|p.text|..] == w + rest;
    assert s[next..] == s[k..][|w|..] == rest;
    forall j | i <= j < k
      ensures s[j] != '{'
    {
      assert s[j] == s[i..][j - i] == p.text[j - i];
    }
    SkipText(s, i, k);
    ScanWrapped(s, k, p.ref);
  }

  lemma {:induction false} ScanRendered(s: string, i: nat, pieces: seq<Piece>, tail: string)
    requires i <= |s| && s[i..] == Render(pieces, tail) && PlainText(tail)
    requires forall p :: p in pieces ==> PlainText(p.text) && ProperRef(p.ref)
    ensures Scan(s, i) == RefsOf(pieces)
    decreases pieces
  {
    hide PlainText, ProperRef, Wrap;
    if pieces == [] {
      ScanTail(s, i);
    } else {
      hide Scan;
      assert pieces[0] in pieces;
      var next := ScanPiece(s, i, pieces[0], Render(pieces[1..], tail));
      ScanRendered(s, next, pieces[1..], tail);
    }
  }

  lemma ScanTail(s: string, i: nat)
    requires i <= |s| && PlainText(s[i..])
    ensures Scan(s, i) == []
  {
    forall j | i <= j < |s|
      ensures s[j] != '{'
    {
      assert s[j] == s[i..][j - i];
    }
    SkipText(s, i, |s|);
  }

  // Interleaving wrapped references with plain text loses and invents none.
  lemma ScanInvertsRender(pieces: seq<Piece>, tail: string)
    requires PlainText(tail) && forall p :: p in pieces ==> PlainText(p.text) && ProperRef(p.ref)
    ensures ExtractRefs(Render(pieces, tail)) == RefsOf(pieces)
  {
    ScanRendered(Render(pieces, tail), 0, pieces, tail);
  }

  // ---------------------------------------------------------------------------
  // The validator
  // ---------------------------------------------------------------------------

  datatype Step = Step(index: nat, kind: string, config: Json)

  datatype Reason = NoSecond | NoWebhook | NoPath | NotAnIndex | NotBefore | BadField | UnknownNamespace

  const WORKFLOW_FIELDS := ["id", "name", "version"]

  function Split(s: string): (parts: seq<string>)
    ensures |parts| >= 1
  {
    if s == "" then [""]
    else
      var rest := Split(s[1..]);
      if s[0] == '.' then [""] + rest else [[s[0]] + rest[0]] + rest[1..]
  }

  // `number` is JavaScript's Number() restricted to its non-negative integer results.
  function WhyInvalid(number: string -> Option<nat>, ref: string, valid: set<nat>, webhook: bool): Option<Reason> {
    var parts := Split(ref);
    var second := if |parts| > 1 then parts[1] else "";
    if ref == "now" then None
    else if parts[0] == "context" then
      if second == "" then Some(NoSecond)
      else if second == "webhook_payload" then
        if !webhook then Some(NoWebhook) else if |parts| >= 3 then None else Some(NoPath)
      else
        match number(second)
        case None => Some(NotAnIndex)
        case Some(idx) => if idx !in valid then Some(NotBefore) else if |parts| >= 3 then None else Some(NoPath)
    else if parts[0] == "workflow" then
      if second in WORKFLOW_FIELDS then None else Some(BadField)
    else Some(UnknownNamespace)
  }

  function Indices(steps: seq<Step>): set<nat> {
    set i | 0 <= i < |steps| :: steps[i].index
  }

  // The errors for refs, in order.
  function ErrorsFor(number: string -> Option<nat>, refs: seq<string>, valid: set<nat>, webhook: bool): seq<(string, Reason)> {
    if refs == [] then []
    else
      var last := refs[|refs| - 1];
      var before := ErrorsFor(number, refs[..|refs| - 1], valid, webhook);
      match WhyInvalid(number, last, valid, webhook)
      case Some(reason) => before + [(last, reason)]
      case None => before
  }

  method ValidateRefsInString(number: string -> Option<nat>, value: string, prior: seq<Step>, webhook: bool)
    returns (errors: seq<(string, Reason)>)
    ensures errors == ErrorsFor(number, ExtractRefs(value), Indices(prior), webhook)
    ensures errors == [] <==> forall r :: r in ExtractRefs(value) ==> WhyInvalid(number, r, Indices(prior), webhook) == None
  {
    hide WhyInvalid, ErrorsFor, Indices;
    errors := [];
    var valid := Indices(prior);
    var refs := ExtractRefsLoop(value);
    NoErrorsIffAllValid(number, refs[..0], valid, webhook);
    for i := 0 to |refs|
      invariant errors == ErrorsFor(number, refs[..i], valid, webhook)
    {
      assert refs[..i + 1] == refs[..i] + [refs[i]];
      ErrorsStep(number, refs[..i], refs[i], valid, webhook);
      var reason := WhyInvalid(number, refs[i], valid, webhook);
      if reason.Some? {
        errors := errors + [(refs[i], reason.value)];
      }
    }
    assert refs[..|refs|] == refs;
    NoErrorsIffAllValid(number, refs, valid, webhook);
  }

  lemma {:induction false} NoErrorsIffAllValid(number: string -> Option<nat>, refs: seq<string>, valid: set<nat>, webhook: bool)
    ensures ErrorsFor(number, refs, valid, webhook) == [] <==>
            forall r :: r in refs ==> WhyInvalid(number, r, valid, webhook) == None
  {
    if refs != [] {
      var n := |refs| - 1;
      NoErrorsIffAllValid(number, refs[..n], valid, webhook);
      assert refs == refs[..n] + [refs[n]];
    }
  }

  // The reference with the reason against it, if there is one.
  function Against(number: string -> Option<nat>, valid: set<nat>, webhook: bool): string -> Option<(string, Reason)> {
    ref => match WhyInvalid(number, ref, valid, webhook)
           case Some(reason) => Some((ref, reason))
           case None => None
  }

  lemma ErrorsStep(number: string -> Option<nat>, refs: seq<string>, ref: string, valid: set<nat>, webhook: bool)
    ensures ErrorsFor(number, refs + [ref], valid, webhook) ==
            ErrorsFor(number, refs, valid, webhook) +
            if WhyInvalid(number, ref, valid, webhook) == None then [] else [(ref, WhyInvalid(number, ref, valid, webhook).value)]
  {
    hide WhyInvalid;
    assert (refs + [ref])[..|refs|] == refs;
  }

  // There is one error for each invalid reference, with its reason, and they stand in the order of the text.
  lemma {:induction false} ErrorsInOrder(number: string -> Option<nat>, refs: seq<string>, valid: set<nat>, webhook: bool)
    ensures Picks(refs, Against(number, valid, webhook), ErrorsFor(number, refs, valid, webhook))
  {
    hide WhyInvalid, Picks;
    var f := Against(number, valid, webhook);
    if refs == [] {
      PicksNothing(f);
    } else {
      var n := |refs| - 1;
      ErrorsInOrder(number, refs[..n], valid, webhook);
      assert refs[..n] + [refs[n]] == refs;
      PicksOneMore(refs[..n], f, ErrorsFor(number, refs[..n], valid, webhook), refs[n]);
      ErrorsStep(number, refs[..n], refs[n], valid, webhook);
    }
  }

  // ---------------------------------------------------------------------------
  // The language of valid references
  // ---------------------------------------------------------------------------

  predicate Dotless(a: string) {
    forall i :: 0 <= i < |a| ==> a[i] != '.'
  }

  lemma {:induction false} SplitFirst(a: string, b: string)
    requires Dotless(a)
    ensures Split(a + "." + b) == [a] + Split(b)
  {
    if a == "" {
      assert a + "." + b == "." + b;
      assert ("." + b)[1..] == b;
    } else {
      assert (a + "." + b)[1..] == a[1..] + "." + b;
      SplitFirst(a[1..], b);
      assert [a[0]] + a[1..] == a;
    }
  }

  lemma {:induction false} SplitWhole(a: string)
    requires Dotless(a)
    ensures Split(a) == [a]
  {
    if a != "" {
      SplitWhole(a[1..]);
      assert [a[0]] + a[1..] == a;
    }
  }

  lemma {:induction false} FirstDot(s: string) returns (a: string, b: string)
    requires !Dotless(s)
    ensures Dotless(a) && s == a + "." + b
  {
    if s[0] == '.' {
      a, b := "", s[1..];
    } else {
      a, b := FirstDot(s[1..]);
      a := [s[0]] + a;
    }
  }

  // The first part is w, and there are more, exactly when the text starts with w and a dot.
  lemma FirstPartIs(s: string, w: string)
    requires Dotless(w)
    ensures w + "." <= s <==> |Split(s)| > 1 && Split(s)[0] == w
    ensures w + "." <= s ==> Split(s) == [w] + Split(s[|w| + 1..])
    ensures s == w <==> Split(s) == [w]
  {
    hide Split;
    if w + "." <= s {
      assert s == w + "." + s[|w| + 1..];
      SplitFirst(w, s[|w| + 1..]);
      assert s[|w|] == '.';
    } else if Dotless(s) {
      SplitWhole(s);
    } else {
      var a, b := FirstDot(s);
      SplitFirst(a, b);
      assert a == w ==> w + "." <= s;
      SplitWhole(w);
    }
  }

  // The text is p, or p and a dot and anything.
  predicate StartsWithPath(s: string, p: string) {
    s == p || p + "." <= s
  }

  predicate StepPath(number: string -> Option<nat>, rest: string, seg: string, valid: set<nat>) {
    && Dotless(seg) && seg != "" && seg != "webhook_payload"
    && seg + "." <= rest
    && number(seg).Some? && number(seg).value in valid
  }

  // What may stand in a reference, as texts: now; a workflow field, alone or followed by a path that is
  // not looked at; and, each followed by a dot and any path, the webhook payload if there is one or an
  // earlier step.
  ghost predicate Allowed(number: string -> Option<nat>, ref: string, valid: set<nat>, webhook: bool) {
    || ref == "now"
    || StartsWithPath(ref, "workflow.id") || StartsWithPath(ref, "workflow.name") || StartsWithPath(ref, "workflow.version")
    || ("context." <= ref && webhook && "webhook_payload." <= ref[8..])
    || ("context." <= ref && exists seg :: StepPath(number, ref[8..], seg, valid))
  }

  lemma FieldPart(rest: string)
    ensures Split(rest)[0] in WORKFLOW_FIELDS <==> exists f :: f in WORKFLOW_FIELDS && StartsWithPath(rest, f)
  {
    hide Split;
    forall f | f in WORKFLOW_FIELDS
      ensures StartsWithPath(rest, f) <==> Split(rest)[0] == f
    {
      FirstPartIs(rest, f);
      assert |Split(rest)| == 1 && Split(rest)[0] == f ==> Split(rest) == [f];
    }
  }

  lemma FirstPartDotless(s: string)
    ensures Dotless(Split(s)[0])
  {
    if Dotless(s) {
      SplitWhole(s);
    } else {
      var a, b := FirstDot(s);
      SplitFirst(a, b);
    }
  }

  lemma StepPart(number: string -> Option<nat>, rest: string, valid: set<nat>)
    ensures (exists seg :: StepPath(number, rest, seg, valid)) <==>
              var second := Split(rest)[0];
              |Split(rest)| > 1 && second != "" && second != "webhook_payload" && number(second).Some? && number(second).value in valid
  {
    hide Split;
    var second := Split(rest)[0];
    FirstPartDotless(rest);
    FirstPartIs(rest, second);
    assert StepPath(number, rest, second, valid) <==>
      |Split(rest)| > 1 && second != "" && second != "webhook_payload" && number(second).Some? && number(second).value in valid;
    forall seg | StepPath(number, rest, seg, valid)
      ensures seg == second
    {
      FirstPartIs(rest, seg);
    }
  }

  lemma FieldPath(ref: string, f: string)
    ensures StartsWithPath(ref, "workflow." + f) <==> "workflow." <= ref && StartsWithPath(ref[9..], f)
  {
    var p := "workflow." + f;
    assert ref == p || p + "." <= ref ==> ref[..9] == "workflow." && p[9..] == f;
    assert "workflow." <= ref ==> ref == "workflow." + ref[9..];
    assert p + "." == "workflow." + (f + ".");
    assert p + "." <= ref ==> ref == p + "." + ref[|p| + 1..] && ref[9..][..|f| + 1] == f + ".";
    assert "workflow." <= ref && f + "." <= ref[9..] ==> ref[..9 + |f| + 1] == p + ".";
  }

  // The fields a text may start with, written out.
  lemma FieldPaths(ref: string)
    ensures "workflow." <= ref && (exists f :: f in WORKFLOW_FIELDS && StartsWithPath(ref[9..], f)) <==>
            StartsWithPath(ref, "workflow.id") || StartsWithPath(ref, "workflow.name") || StartsWithPath(ref, "workflow.version")
  {
    FieldPath(ref, "id");
    FieldPath(ref, "name");
    FieldPath(ref, "version");
    hide StartsWithPath;
    assert "workflow." + "id" == "workflow.id" && "workflow." + "name" == "workflow.name" && "workflow." + "version" == "workflow.version";
    assert "id" in WORKFLOW_FIELDS && "name" in WORKFLOW_FIELDS && "version" in WORKFLOW_FIELDS;
  }

  // whyInvalid is silent on exactly these texts.
  lemma ValidRefsExactly(number: string -> Option<nat>, ref: string, valid: set<nat>, webhook: bool)
    ensures WhyInvalid(number, ref, valid, webhook) == None <==> Allowed(number, ref, valid, webhook)
  {
    hide Split, StepPath, StartsWithPath;
    FirstPartIs(ref, "workflow");
    FirstPartIs(ref, "context");
    FieldPaths(ref);
    assert "workflow" + "." == "workflow." && "context" + "." == "context.";
    assert |Split(ref)| == 1 ==> !("workflow." <= ref) && !("context." <= ref);
    if ref == "now" {
    } else if "workflow." <= ref {
      assert ref[0] == "workflow."[0] == 'w';
      assert !("context." <= ref) by { assert "context."[0] == 'c'; }
      FieldPart(ref[9..]);
    } else if "context." <= ref {
      FirstPartIs(ref[8..], "webhook_payload");
      assert "webhook_payload" + "." == "webhook_payload.";
      StepPart(number, ref[8..], valid);
    }
  }

  // What is said of every text: it is one part, two parts, or two parts and the rest of a path.
  lemma ReasonsExactly(number: string -> Option<nat>, a: string, b: string, path: string, valid: set<nat>, webhook: bool)
    requires Dotless(a) && Dotless(b)
    ensures WhyInvalid(number, a, valid, webhook) ==
            if a == "now" then None
            else if a == "context" then Some(NoSecond)
            else if a == "workflow" then Some(BadField)
            else Some(UnknownNamespace)
    ensures var two, more := WhyInvalid(number, a + "." + b, valid, webhook), WhyInvalid(number, a + "." + b + "." + path, valid, webhook);
            if a == "context" then
              if b == "" then two == more == Some(NoSecond)
              else if b == "webhook_payload" then
                if webhook then two == Some(NoPath) && more == None else two == more == Some(NoWebhook)
              else if number(b) == None then two == more == Some(NotAnIndex)
              else if number(b).value !in valid then two == more == Some(NotBefore)
              else two == Some(NoPath) && more == None
            else if a == "workflow" then
              two == more == if b == "id" || b == "name" || b == "version" then None else Some(BadField)
            else two == more == Some(UnknownNamespace)
  {
    hide Split;
    SplitWhole(a);
    SplitFirst(a, b);
    SplitWhole(b);
    assert a + "." + b + "." + path == a + "." + (b + "." + path);
    SplitFirst(a, b + "." + path);
    SplitFirst(b, path);
    assert forall rest :: (a + "." + rest)[|a|] == '.';
  }

  // Two texts outside the documented shapes that pass: a path after a workflow field, an empty one after a step.
  lemma LooseRefsPass(number: string -> Option<nat>, valid: set<nat>, webhook: bool)
    ensures WhyInvalid(number, "workflow.id.x", valid, webhook) == None
    ensures number("1") == Some(1) && 1 in valid ==> WhyInvalid(number, "context.1.", valid, webhook) == None
  {
    ValidRefsExactly(number, "workflow.id.x", valid, webhook);
    ValidRefsExactly(number, "context.1.", valid, webhook);
    hide WhyInvalid;
    assert StartsWithPath("workflow.id.x", "workflow.id");
    assert "context.1."[8..] == "1.";
    assert number("1") == Some(1) && 1 in valid ==> StepPath(number, "1.", "1", valid);
  }

  // ---------------------------------------------------------------------------
  // Suggestions are valid
  // ---------------------------------------------------------------------------

  function StepSuggestion(step: Step): string {
    "context." + Dec(step.index) + "."
  }

  function StepSuggestions(steps: seq<Step>): seq<string> {
    if steps == [] then [] else [StepSuggestion(steps[0])] + StepSuggestions(steps[1..])
  }

  function WorkflowSuggestions(names: seq<string>): seq<string> {
    if names == [] then [] else ["workflow." + names[0]] + WorkflowSuggestions(names[1..])
  }

  // The `value` column of buildRefSuggestions.
  function BuildRefSuggestions(prior: seq<Step>, webhook: bool): seq<string> {
    StepSuggestions(prior)
    + (if webhook then ["context.webhook_payload."] else [])
    + ["now"] + WorkflowSuggestions(WORKFLOW_FIELDS)
  }

  lemma {:induction false} StepSuggestionsAt(steps: seq<Step>)
    ensures |StepSuggestions(steps)| == |steps|
    ensures forall i :: 0 <= i < |steps| ==> StepSuggestions(steps)[i] == "context." + Dec(steps[i].index) + "."
  {
    if steps != [] {
      StepSuggestionsAt(steps[1..]);
    }
  }

  // What is suggested, in this order: each step before, the webhook payload if there is one, now, and the
  // three workflow fields.
  lemma SuggestionsInOrder(prior: seq<Step>, webhook: bool)
    ensures var all, n := BuildRefSuggestions(prior, webhook), |prior|;
            && |all| == n + (if webhook then 5 else 4)
            && (forall i :: 0 <= i < n ==> all[i] == "context." + Dec(prior[i].index) + ".")
            && (webhook ==> all[n] == "context.webhook_payload.")
            && all[|all| - 4..] == ["now", "workflow.id", "workflow.name", "workflow.version"]
  {
    StepSuggestionsAt(prior);
    hide StepSuggestions, Dec;
    assert WORKFLOW_FIELDS[1..] == ["name", "version"];
    assert ["name", "version"][1..] == ["version"];
    assert ["version"][1..] == [];
    assert "workflow." + "id" == "workflow.id" && "workflow." + "name" == "workflow.name" && "workflow." + "version" == "workflow.version";
    assert WorkflowSuggestions(WORKFLOW_FIELDS) == ["workflow.id", "workflow.name", "workflow.version"];
  }

  lemma StepSuggestionValid(number: string -> Option<nat>, step: Step, valid: set<nat>, webhook: bool)
    requires number(Dec(step.index)) == Some(step.index) && step.index in valid
    ensures ProperRef(StepSuggestion(step)) && WhyInvalid(number, StepSuggestion(step), valid, webhook) == None
  {
    hide Dec, Split;
    var d, v := Dec(step.index), StepSuggestion(step);
    assert v == "context" + "." + (d + "." + "");
    SplitFirst("context", d + "." + "");
    SplitFirst(d, "");
    SplitWhole("");
    assert Split(v) == ["context", d, ""];
    assert d[0] != "webhook_payload"[0];
    assert v[0] == 'c' && v[|v| - 1] == '.' && v != "now";
    assert forall i :: 0 <= i < |v| ==> v[i] in "context." || '0' <= v[i] <= '9';
  }

  lemma NowValid(number: string -> Option<nat>, valid: set<nat>, webhook: bool)
    ensures ProperRef("now") && WhyInvalid(number, "now", valid, webhook) == None
  {
  }

  lemma PayloadValid(number: string -> Option<nat>, valid: set<nat>)
    ensures ProperRef("context.webhook_payload.") && WhyInvalid(number, "context.webhook_payload.", valid, true) == None
  {
    hide Split;
    var v := "context.webhook_payload.";
    assert v == "context" + "." + ("webhook_payload" + "." + "");
    SplitFirst("context", "webhook_payload" + "." + "");
    SplitFirst("webhook_payload", "");
    SplitWhole("");
  }

  lemma FieldValid(number: string -> Option<nat>, field: string, valid: set<nat>, webhook: bool)
    requires field in WORKFLOW_FIELDS
    ensures ProperRef("workflow." + field) && WhyInvalid(number, "workflow." + field, valid, webhook) == None
  {
    hide Split;
    assert "workflow." + field == "workflow" + "." + field;
    SplitFirst("workflow", field);
    SplitWhole(field);
    assert "workflow"[0] != "context"[0];
  }

  lemma {:induction false} WorkflowSuggestionFrom(names: seq<string>, v: string)
    requires v in WorkflowSuggestions(names)
    ensures exists name :: name in names && v == "workflow." + name
  {
    if v == "workflow." + names[0] {
    } else {
      WorkflowSuggestionFrom(names[1..], v);
      var name :| name in names[1..] && v == "workflow." + name;
      assert name in names;
    }
  }

  lemma {:induction false} StepSuggestionFrom(steps: seq<Step>, v: string)
    requires v in StepSuggestions(steps)
    ensures exists i :: 0 <= i < |steps| && v == StepSuggestion(steps[i])
  {
    if v == StepSuggestion(steps[0]) {
    } else {
      StepSuggestionFrom(steps[1..], v);
      var i :| 0 <= i < |steps[1..]| && v == StepSuggestion(steps[1..][i]);
      assert steps[1..][i] == steps[i + 1];
    }
  }

  lemma SuggestionValid(number: string -> Option<nat>, prior: seq<Step>, webhook: bool, v: string)
    requires forall i :: 0 <= i < |prior| ==> number(Dec(prior[i].index)) == Some(prior[i].index)
    requires v in BuildRefSuggestions(prior, webhook)
    ensures ProperRef(v) && WhyInvalid(number, v, Indices(prior), webhook) == None
  {
    hide WhyInvalid, ProperRef;
    if v in StepSuggestions(prior) {
      StepSuggestionFrom(prior, v);
      var i :| 0 <= i < |prior| && v == StepSuggestion(prior[i]);
      StepSuggestionValid(number, prior[i], Indices(prior), webhook);
    } else if v in WorkflowSuggestions(WORKFLOW_FIELDS) {
      WorkflowSuggestionFrom(WORKFLOW_FIELDS, v);
      var field :| field in WORKFLOW_FIELDS && v == "workflow." + field;
      FieldValid(number, field, Indices(prior), webhook);
    } else if v == "now" {
      NowValid(number, Indices(prior), webhook);
    } else {
      PayloadValid(number, Indices(prior));
    }
  }

  // Every suggestion, wrapped and put anywhere in plain text, validates against the same prior steps.
  lemma SuggestionsValidate(number: string -> Option<nat>, prior: seq<Step>, webhook: bool, v: string, before: string, after: string)
    requires forall i :: 0 <= i < |prior| ==> number(Dec(prior[i].index)) == Some(prior[i].index)
    requires v in BuildRefSuggestions(prior, webhook) && PlainText(before) && PlainText(after)
    ensures ExtractRefs(before + Wrap(v) + after) == [v]
    ensures ErrorsFor(number, ExtractRefs(before + Wrap(v) + after), Indices(prior), webhook) == []
  {
    hide WhyInvalid, ProperRef, BuildRefSuggestions;
    SuggestionValid(number, prior, webhook, v);
    var piece := Piece(before, v);
    assert Render([piece], after) == before + Wrap(v) + after;
    ScanInvertsRender([piece], after);
    assert [v][..0] == [];
  }

  // With plain decimal numerals Number() meets the assumption above.
  lemma SuggestionsValidateWithDecimals(prior: seq<Step>, webhook: bool, v: string)
    requires v in BuildRefSuggestions(prior, webhook)
    ensures ErrorsFor(Number, ExtractRefs(Wrap(v)), Indices(prior), webhook) == []
  {
    forall i | 0 <= i < |prior|
      ensures Number(Dec(prior[i].index)) == Some(prior[i].index)
    {
      NumberReadsDec(prior[i].index);
    }
    SuggestionsValidate(Number, prior, webhook, v, "", "");
    assert "" + Wrap(v) + "" == Wrap(v);
  }

  // ---------------------------------------------------------------------------
  // Dependencies of a workflow
  // ---------------------------------------------------------------------------

  function StringLeaves(j: Json): set<string> {
    match j
    case JStr(s) => {s}
    case JArr(items) => ItemLeaves(items)
    case JObj(_) => FieldLeaves(j, 0)
    case _ => {}
  }

  function ItemLeaves(items: seq<Json>): set<string> {
    if items == [] then {} else StringLeaves(items[0]) + ItemLeaves(items[1..])
  }

  // The leaves of an object's fields from the i-th on.
  function FieldLeaves(j: Json, i: nat): set<string>
    requires j.JObj? && i <= |j.fields|
    decreases j, |j.fields| - i
  {
    if i == |j.fields| then {} else StringLeaves(j.fields[i].1) + FieldLeaves(j, i + 1)
  }

  // What stands at a path of positions inside a value.
  function At(j: Json, path: seq<nat>): Option<Json> {
    if path == [] then Some(j)
    else
      match j
      case JArr(items) => if path[0] < |items| then At(items[path[0]], path[1..]) else None
      case JObj(fields) => if path[0] < |fields| then At(fields[path[0]].1, path[1..]) else None
      case _ => None
  }

  lemma AtChild(j: Json, i: nat, path: seq<nat>)
    requires j.JArr? || j.JObj?
    ensures At(j, [i] + path) ==
            if j.JArr? then if i < |j.items| then At(j.items[i], path) else None
            else if i < |j.fields| then At(j.fields[i].1, path) else None
  {
    assert ([i] + path)[1..] == path;
  }

  lemma {:induction false} ItemLeavesAre(items: seq<Json>, s: string)
    ensures s in ItemLeaves(items) <==> exists i :: 0 <= i < |items| && s in StringLeaves(items[i])
  {
    if items != [] {
      ItemLeavesAre(items[1..], s);
      assert forall i :: 0 < i < |items| ==> items[i] == items[1..][i - 1];
    }
  }

  lemma {:induction false} FieldLeavesAre(j: Json, k: nat, s: string)
    requires j.JObj? && k <= |j.fields|
    ensures s in FieldLeaves(j, k) <==> exists i :: k <= i < |j.fields| && s in StringLeaves(j.fields[i].1)
    decreases |j.fields| - k
  {
    if k < |j.fields| {
      FieldLeavesAre(j, k + 1, s);
    }
  }

  // The string leaves are what stands at some path and is a string.
  lemma {:induction false} LeavesStandAtPaths(j: Json, s: string)
    ensures s in StringLeaves(j) <==> exists path: seq<nat> :: At(j, path) == Some(JStr(s))
    decreases j
  {
    if s in StringLeaves(j) {
      var _ := LeafHasPath(j, s);
    }
    if path: seq<nat> :| At(j, path) == Some(JStr(s)) {
      PathHasLeaf(j, path, s);
    }
  }

  lemma {:induction false} LeafHasPath(j: Json, s: string) returns (path: seq<nat>)
    requires s in StringLeaves(j)
    ensures At(j, path) == Some(JStr(s))
    decreases j
  {
    match j
    case JStr(_) => path := [];
    case JArr(items) =>
      ItemLeavesAre(items, s);
      var i: nat :| i < |items| && s in StringLeaves(items[i]);
      path := LeafHasPath(items[i], s);
      AtChild(j, i, path);
      path := [i] + path;
    case JObj(fields) =>
      FieldLeavesAre(j, 0, s);
      var i: nat :| i < |fields| && s in StringLeaves(fields[i].1);
      path := LeafHasPath(fields[i].1, s);
      AtChild(j, i, path);
      path := [i] + path;
  }

  lemma {:induction false} PathHasLeaf(j: Json, path: seq<nat>, s: string)
    requires At(j, path) == Some(JStr(s))
    ensures s in StringLeaves(j)
    decreases |path|
  {
    if path != [] {
      if j.JArr? {
        PathHasLeaf(j.items[path[0]], path[1..], s);
        ItemLeavesAre(j.items, s);
      } else {
        PathHasLeaf(j.fields[path[0]].1, path[1..], s);
        FieldLeavesAre(j, 0, s);
      }
    }
  }

  // extractRefsFromConfig: the walk collects the refs of every string leaf, each once.
  function ConfigRefs(j: Json): set<string> {
    match j
    case JStr(s) => set r | r in ExtractRefs(s)
    case JArr(items) => ItemRefs(items)
    case JObj(_) => FieldRefs(j, 0)
    case _ => {}
  }

  function ItemRefs(items: seq<Json>): set<string> {
    if items == [] then {} else ConfigRefs(items[0]) + ItemRefs(items[1..])
  }

  function FieldRefs(j: Json, i: nat): set<string>
    requires j.JObj? && i <= |j.fields|
    decreases j, |j.fields| - i
  {
    if i == |j.fields| then {} else ConfigRefs(j.fields[i].1) + FieldRefs(j, i + 1)
  }

  // The walk reaches every string leaf, however deep, and nothing else.
  lemma ConfigRefsAreLeafRefs(j: Json, r: string)
    ensures r in ConfigRefs(j) <==> exists s :: s in StringLeaves(j) && r in ExtractRefs(s)
    decreases j
  {
    match j
    case JArr(items) => ItemRefsAreLeafRefs(items, r);
    case JObj(_) => FieldRefsAreLeafRefs(j, 0, r);
    case JStr(s) => assert s in StringLeaves(j);
    case _ =>
  }

  lemma ItemRefsAreLeafRefs(items: seq<Json>, r: string)
    ensures r in ItemRefs(items) <==> exists s :: s in ItemLeaves(items) && r in ExtractRefs(s)
    decreases items
  {
    if items != [] {
      ConfigRefsAreLeafRefs(items[0], r);
      ItemRefsAreLeafRefs(items[1..], r);
    }
  }

  lemma FieldRefsAreLeafRefs(j: Json, i: nat, r: string)
    requires j.JObj? && i <= |j.fields|
    ensures r in FieldRefs(j, i) <==> exists s :: s in FieldLeaves(j, i) && r in ExtractRefs(s)
    decreases j, |j.fields| - i
  {
    if i < |j.fields| {
      ConfigRefsAreLeafRefs(j.fields[i].1, r);
      FieldRefsAreLeafRefs(j, i + 1, r);
    }
  }

  // The step a reference points at, if it points at one.
  function StepOf(number: string -> Option<nat>, ref: string): Option<nat> {
    var parts := Split(ref);
    if parts[0] == "context" && |parts| > 1 && parts[1] != "" && parts[1] != "webhook_payload"
    then number(parts[1]) else None
  }

  function ReferencedStepIndices(number: string -> Option<nat>, config: Json): set<nat> {
    set r | r in ConfigRefs(config) && StepOf(number, r).Some? :: StepOf(number, r).value
  }

  // A reference that starts with context and the number idx, whatever follows.
  predicate PointsAt(number: string -> Option<nat>, ref: string, seg: string, idx: nat) {
    Dotless(seg) && seg != "" && seg != "webhook_payload" && number(seg) == Some(idx) && StartsWithPath(ref, "context." + seg)
  }

  lemma StepOfIff(number: string -> Option<nat>, ref: string, idx: nat)
    ensures StepOf(number, ref) == Some(idx) <==> exists seg :: PointsAt(number, ref, seg, idx)
  {
    hide Split;
    if StepOf(number, ref) == Some(idx) {
      FirstPartIs(ref, "context");
      assert "context" + "." == "context.";
      var rest := ref[8..];
      var seg := Split(rest)[0];
      FirstPartDotless(rest);
      FirstPartIs(rest, seg);
      assert |Split(rest)| == 1 ==> rest == seg;
      assert ref == "context." + rest;
      assert seg + "." <= rest ==> ref[..|"context." + seg + "."|] == "context." + seg + ".";
      assert PointsAt(number, ref, seg, idx);
    }
    forall seg | PointsAt(number, ref, seg, idx)
      ensures StepOf(number, ref) == Some(idx)
    {
      SplitWhole(seg);
      if ref == "context." + seg {
        assert ref == "context" + "." + seg;
        SplitFirst("context", seg);
      } else {
        var rest := ref[|"context." + seg + "."|..];
        assert ref == "context" + "." + (seg + "." + rest);
        SplitFirst("context", seg + "." + rest);
        SplitFirst(seg, rest);
      }
    }
  }

  // The steps a config points at: those some reference in some string of it, at any depth, starts with.
  lemma ReferencedIff(number: string -> Option<nat>, config: Json, idx: nat)
    ensures idx in ReferencedStepIndices(number, config) <==>
            exists path: seq<nat>, s: string, r: string, seg: string ::
              At(config, path) == Some(JStr(s)) && r in ExtractRefs(s) && PointsAt(number, r, seg, idx)
  {
    hide *;
    if idx in ReferencedStepIndices(number, config) {
      var r := ReferencedHow(number, config, idx);
      ConfigRefsAreLeafRefs(config, r);
      var s :| s in StringLeaves(config) && r in ExtractRefs(s);
      LeavesStandAtPaths(config, s);
      StepOfIff(number, r, idx);
      var seg :| PointsAt(number, r, seg, idx);
      var path: seq<nat> :| At(config, path) == Some(JStr(s));
      assert At(config, path) == Some(JStr(s)) && r in ExtractRefs(s) && PointsAt(number, r, seg, idx);
    }
    if path: seq<nat>, s: string, r: string, seg: string :|
         At(config, path) == Some(JStr(s)) && r in ExtractRefs(s) && PointsAt(number, r, seg, idx) {
      PathHasLeaf(config, path, s);
      assert s in StringLeaves(config);
      ConfigRefsAreLeafRefs(config, r);
      assert r in ConfigRefs(config);
      StepOfIff(number, r, idx);
      HowReferenced(number, config, r, idx);
    }
  }

  lemma ReferencedHow(number: string -> Option<nat>, config: Json, idx: nat) returns (r: string)
    requires idx in ReferencedStepIndices(number, config)
    ensures r in ConfigRefs(config) && StepOf(number, r) == Some(idx)
  {
    r :| r in ConfigRefs(config) && StepOf(number, r) == Some(idx);
  }

  lemma HowReferenced(number: string -> Option<nat>, config: Json, r: string, idx: nat)
    requires r in ConfigRefs(config) && StepOf(number, r) == Some(idx)
    ensures idx in ReferencedStepIndices(number, config)
  {
  }

  method ReferencedStepIndicesLoop(number: string -> Option<nat>, config: Json) returns (indices: set<nat>)
    ensures indices == ReferencedStepIndices(number, config)
  {
    indices := {};
    var refs := ConfigRefs(config);
    var rest := refs;
    while rest != {}
      invariant rest <= refs
      invariant indices == set r | r in refs - rest && StepOf(number, r).Some? :: StepOf(number, r).value
      decreases rest
    {
      var ref :| ref in rest;
      var step := StepOf(number, ref);
      if step.Some? {
        indices := indices + {step.value};
      }
      assert refs - (rest - {ref}) == refs - rest + {ref};
      rest := rest - {ref};
    }
    assert refs - rest == refs;
  }

  // Every string leaf of the config validates against the steps before.
  ghost predicate ConfigValid(number: string -> Option<nat>, config: Json, prior: seq<Step>, webhook: bool) {
    forall s :: s in StringLeaves(config) ==> ErrorsFor(number, ExtractRefs(s), Indices(prior), webhook) == []
  }

  lemma ValidRefPointsBack(number: string -> Option<nat>, ref: string, valid: set<nat>, webhook: bool)
    requires WhyInvalid(number, ref, valid, webhook) == None && StepOf(number, ref).Some?
    ensures StepOf(number, ref).value in valid
  {
    if ref == "now" {
      SplitWhole("now");
    }
  }

  // A config whose strings validate references earlier steps only.
  lemma ValidConfigPointsBack(number: string -> Option<nat>, config: Json, prior: seq<Step>, webhook: bool)
    requires ConfigValid(number, config, prior, webhook)
    ensures ReferencedStepIndices(number, config) <= Indices(prior)
  {
    forall idx | idx in ReferencedStepIndices(number, config)
      ensures idx in Indices(prior)
    {
      var r :| r in ConfigRefs(config) && StepOf(number, r) == Some(idx);
      ConfigRefsAreLeafRefs(config, r);
      var s :| s in StringLeaves(config) && r in ExtractRefs(s);
      NoErrorsIffAllValid(number, ExtractRefs(s), Indices(prior), webhook);
      ValidRefPointsBack(number, r, Indices(prior), webhook);
    }
  }

  ghost predicate WorkflowValid(number: string -> Option<nat>, steps: seq<Step>, webhook: bool) {
    forall i :: 0 <= i < |steps| ==> ConfigValid(number, steps[i].config, steps[..i], webhook)
  }

  predicate DistinctIndices(steps: seq<Step>) {
    forall i, j :: 0 <= i < j < |steps| ==> steps[i].index != steps[j].index
  }

  // Step i reads an output of step j.
  predicate DependsOn(number: string -> Option<nat>, steps: seq<Step>, i: nat, j: nat) {
    i < |steps| && j < |steps| && steps[j].index in ReferencedStepIndices(number, steps[i].config)
  }

  ghost predicate DependencyPath(number: string -> Option<nat>, steps: seq<Step>, path: seq<nat>) {
    forall k :: 0 <= k < |path| - 1 ==> DependsOn(number, steps, path[k], path[k + 1])
  }

  lemma DependenciesPointBack(number: string -> Option<nat>, steps: seq<Step>, webhook: bool, i: nat, j: nat)
    requires WorkflowValid(number, steps, webhook) && DistinctIndices(steps) && DependsOn(number, steps, i, j)
    ensures j < i
  {
    ValidConfigPointsBack(number, steps[i].config, steps[..i], webhook);
    var k :| 0 <= k < |steps[..i]| && steps[..i][k].index == steps[j].index;
    assert steps[k].index == steps[j].index;
  }

  // Following dependencies always leads to earlier steps, so there is no cycle of any length.
  lemma {:induction false} DependenciesAcyclic(number: string -> Option<nat>, steps: seq<Step>, webhook: bool, path: seq<nat>)
    requires WorkflowValid(number, steps, webhook) && DistinctIndices(steps)
    requires |path| >= 2 && DependencyPath(number, steps, path)
    ensures path[|path| - 1] < path[0]
  {
    DependenciesPointBack(number, steps, webhook, path[0], path[1]);
    if |path| > 2 {
      var rest := path[1..];
      forall k | 0 <= k < |rest| - 1
        ensures DependsOn(number, steps, rest[k], rest[k + 1])
      {
        assert rest[k] == path[k + 1] && rest[k + 1] == path[k + 1 + 1];
      }
      DependenciesAcyclic(number, steps, webhook, rest);
    }
  }

  // Steps run in order, each reading outputs by index; None when one is read before it is produced.
  function Execute<Output>(number: string -> Option<nat>, run: (Step, map<nat, Output>) -> Output, steps: seq<Step>): Option<map<nat, Output>> {
    if steps == [] then Some(map[])
    else
      var last := steps[|steps| - 1];
      match Execute(number, run, steps[..|steps| - 1])
      case None => None
      case Some(outputs) =>
        if ReferencedStepIndices(number, last.config) <= outputs.Keys
        then Some(outputs[last.index := run(last, outputs)])
        else None
  }

  // Running a validated workflow in step order never reads an output that is not there yet.
  lemma {:induction false} ValidWorkflowsExecute<Output>(number: string -> Option<nat>, run: (Step, map<nat, Output>) -> Output,
                                                         steps: seq<Step>, webhook: bool)
    requires WorkflowValid(number, steps, webhook)
    ensures Execute(number, run, steps).Some? && Execute(number, run, steps).value.Keys == Indices(steps)
  {
    if steps != [] {
      var n := |steps| - 1;
      var front := steps[..n];
      forall i | 0 <= i < n
        ensures ConfigValid(number, front[i].config, front[..i], webhook)
      {
        assert front[i] == steps[i] && front[..i] == steps[..i];
      }
      ValidWorkflowsExecute(number, run, front, webhook);
      ValidConfigPointsBack(number, steps[n].config, front, webhook);
      assert Indices(steps) == Indices(front) + {steps[n].index} by {
        assert forall i :: 0 <= i < n ==> front[i] == steps[i];
      }
    }
  }
}
