// step-compat.ts: which capabilities a workflow prefix leaves available, and how the step picker
// sorts its candidates by them.
module StepCompat {
  import opened Options

  datatype Requirement = Requirement(anyOf: seq<string>, warn: string)

  datatype Compat = Compat(needs: seq<Requirement>, consumes: seq<string>, produces: seq<string>)

  datatype StepDef = StepDef(kind: string, category: string, compat: Option<Compat>)

  type Catalog = map<string, StepDef>

  datatype Bucket = Recommended | Available | NeedsSetup

  datatype Verdict = Verdict(bucket: Bucket, unmetWarn: Option<string>)

  // ---------------------------------------------------------------------------
  // Accumulated capabilities
  // ---------------------------------------------------------------------------

  // What a step of the given kind deletes and adds; nothing when the catalog has no entry for it.
  function Consumed(catalog: Catalog, kind: string): seq<string> {
    if kind in catalog && catalog[kind].compat.Some? then catalog[kind].compat.value.consumes else []
  }

  function Produced(catalog: Catalog, kind: string): seq<string> {
    if kind in catalog && catalog[kind].compat.Some? then catalog[kind].compat.value.produces else []
  }

  function Elements(xs: seq<string>): set<string> {
    set x | x in xs
  }

  // One step: first what it consumes goes, then what it produces comes.
  function After(catalog: Catalog, caps: set<string>, kind: string): set<string> {
    caps - Elements(Consumed(catalog, kind)) + Elements(Produced(catalog, kind))
  }

  function Accumulated(catalog: Catalog, kinds: seq<string>): set<string> {
    if kinds == [] then {} else After(catalog, Accumulated(catalog, kinds[..|kinds| - 1]), kinds[|kinds| - 1])
  }

  // The inner loops.
  method DeleteEach(caps: set<string>, names: seq<string>) returns (left: set<string>)
    ensures left == caps - Elements(names)
  {
    hide Elements;
    left := caps;
    NoElements(names);
    for j := 0 to |names|
      invariant left == caps - Elements(names[..j])
    {
      left := left - {names[j]};
      ElementsGrow(names, j);
    }
    assert names[..|names|] == names;
  }

  method AddEach(caps: set<string>, names: seq<string>) returns (more: set<string>)
    ensures more == caps + Elements(names)
  {
    hide Elements;
    more := caps;
    NoElements(names);
    for j := 0 to |names|
      invariant more == caps + Elements(names[..j])
    {
      more := more + {names[j]};
      ElementsGrow(names, j);
    }
    assert names[..|names|] == names;
  }

  method AccumulateCaps(catalog: Catalog, kinds: seq<string>) returns (caps: set<string>)
    ensures caps == Accumulated(catalog, kinds)
  {
    caps := {};
    for i := 0 to |kinds|
      invariant caps == Accumulated(catalog, kinds[..i])
    {
      hide Consumed, Produced, Elements, Accumulated;
      caps := DeleteEach(caps, Consumed(catalog, kinds[i]));
      caps := AddEach(caps, Produced(catalog, kinds[i]));
      AccumulatedGrows(catalog, kinds, i);
    }
    assert kinds[..|kinds|] == kinds;
  }

  lemma NoElements(xs: seq<string>)
    ensures Elements(xs[..0]) == {}
  {
  }

  lemma ElementsGrow(xs: seq<string>, j: nat)
    requires j < |xs|
    ensures Elements(xs[..j + 1]) == Elements(xs[..j]) + {xs[j]}
  {
    assert xs[..j + 1] == xs[..j] + [xs[j]];
  }

  lemma AccumulatedGrows(catalog: Catalog, kinds: seq<string>, i: nat)
    requires i < |kinds|
    ensures Accumulated(catalog, kinds[..i + 1]) == After(catalog, Accumulated(catalog, kinds[..i]), kinds[i])
  {
    assert kinds[..i + 1][..i] == kinds[..i];
  }

  predicate Touches(catalog: Catalog, kind: string, cap: string) {
    cap in Consumed(catalog, kind) || cap in Produced(catalog, kind)
  }

  // Step i is the last one that consumes or produces cap.
  predicate LastTouch(catalog: Catalog, kinds: seq<string>, cap: string, i: nat) {
    i < |kinds| && Touches(catalog, kinds[i], cap) &&
    forall j :: i < j < |kinds| ==> !Touches(catalog, kinds[j], cap)
  }

  // A capability is available exactly when the last step that touches it produces it.
  lemma {:induction false} AvailableIffLastTouchProduces(catalog: Catalog, kinds: seq<string>, cap: string)
    ensures cap in Accumulated(catalog, kinds) <==>
            exists i: nat :: LastTouch(catalog, kinds, cap, i) && cap in Produced(catalog, kinds[i])
  {
    if kinds != [] {
      var n := |kinds| - 1;
      var front := kinds[..n];
      if Touches(catalog, kinds[n], cap) {
        assert LastTouch(catalog, kinds, cap, n);
      } else {
        AvailableIffLastTouchProduces(catalog, front, cap);
        forall i: nat | i < n
          ensures LastTouch(catalog, front, cap, i) <==> LastTouch(catalog, kinds, cap, i)
        {
          assert forall j :: i <= j < n ==> front[j] == kinds[j];
        }
      }
    }
  }

  lemma AppendStep(catalog: Catalog, front: seq<string>, back: seq<string>)
    requires back != []
    ensures Accumulated(catalog, front + back) == After(catalog, Accumulated(catalog, front + back[..|back| - 1]), back[|back| - 1])
  {
    assert (front + back)[..|front + back| - 1] == front + back[..|back| - 1];
  }

  predicate Untouched(catalog: Catalog, kinds: seq<string>, cap: string) {
    forall kind :: kind in kinds ==> !Touches(catalog, kind, cap)
  }

  // Steps that never touch a capability leave it as it was.
  lemma {:induction false} UntouchedStays(catalog: Catalog, front: seq<string>, back: seq<string>, cap: string)
    requires Untouched(catalog, back, cap)
    ensures cap in Accumulated(catalog, front + back) <==> cap in Accumulated(catalog, front)
  {
    hide Accumulated;
    if back == [] {
      assert front + back == front;
    } else {
      AppendStep(catalog, front, back);
      assert back[|back| - 1] in back;
      UntouchedStays(catalog, front, back[..|back| - 1], cap);
    }
  }

  // Once a later step touches a capability, what came before does not matter.
  lemma {:induction false} LaterStepsDecide(catalog: Catalog, front: seq<string>, front': seq<string>, back: seq<string>, cap: string)
    requires !Untouched(catalog, back, cap)
    ensures cap in Accumulated(catalog, front + back) <==> cap in Accumulated(catalog, front' + back)
  {
    hide Accumulated;
    AppendStep(catalog, front, back);
    AppendStep(catalog, front', back);
    var n := |back| - 1;
    if !Touches(catalog, back[n], cap) {
      assert back == back[..n] + [back[n]];
      LaterStepsDecide(catalog, front, front', back[..n], cap);
    }
  }

  function Without<T>(xs: seq<T>, i: nat): seq<T>
    requires i < |xs|
  {
    xs[..i] + xs[i + 1..]
  }

  // Step i is the only reason cap is available: it produces it, nothing after touches it and
  // nothing before had left it available.
  predicate OnlySource(catalog: Catalog, kinds: seq<string>, i: nat, cap: string)
    requires i < |kinds|
  {
    && cap in Produced(catalog, kinds[i])
    && Untouched(catalog, kinds[i + 1..], cap)
    && cap !in Accumulated(catalog, kinds[..i])
  }

  // Deleting a step loses a capability exactly when the step was its only source.
  lemma DeletionLosesIffOnlySource(catalog: Catalog, kinds: seq<string>, i: nat, cap: string)
    requires i < |kinds|
    ensures cap in Accumulated(catalog, kinds) && cap !in Accumulated(catalog, Without(kinds, i)) <==>
            OnlySource(catalog, kinds, i, cap)
  {
    var front, back := kinds[..i], kinds[i + 1..];
    hide Accumulated;
    assert kinds == kinds[..i + 1] + back;
    AccumulatedGrows(catalog, kinds, i);
    if Untouched(catalog, back, cap) {
      UntouchedStays(catalog, kinds[..i + 1], back, cap);
      UntouchedStays(catalog, front, back, cap);
    } else {
      LaterStepsDecide(catalog, kinds[..i + 1], front, back, cap);
    }
  }

  // ---------------------------------------------------------------------------
  // Classification
  // ---------------------------------------------------------------------------

  predicate Met(need: Requirement, caps: set<string>) {
    exists c :: c in need.anyOf && c in caps
  }

  function FirstUnmet(needs: seq<Requirement>, caps: set<string>): Option<string> {
    if needs == [] then None
    else if Met(needs[0], caps) then FirstUnmet(needs[1..], caps)
    else Some(needs[0].warn)
  }

  function Needs(def: StepDef): seq<Requirement> {
    if def.compat.Some? then def.compat.value.needs else []
  }

  predicate FollowsOn(category: string, previous: Option<string>) {
    (category == "action" && previous == Some("condition")) || (category == "condition" && previous == Some("fetch"))
  }

  function Classify(def: StepDef, caps: set<string>, previous: Option<string>): Verdict {
    match FirstUnmet(Needs(def), caps)
    case Some(warn) => Verdict(NeedsSetup, Some(warn))
    case None => Verdict(if Needs(def) != [] || FollowsOn(def.category, previous) then Recommended else Available, None)
  }

  method AnyIn(names: seq<string>, caps: set<string>) returns (found: bool)
    ensures found <==> exists c :: c in names && c in caps
  {
    for i := 0 to |names|
      invariant forall c :: c in names[..i] ==> c !in caps
    {
      if names[i] in caps {
        return true;
      }
    }
    return false;
  }

  // The loop with its three flags.
  method ClassifyStepType(def: StepDef, caps: set<string>, previous: Option<string>) returns (verdict: Verdict)
    ensures verdict == Classify(def, caps, previous)
  {
    var reqs := Needs(def);
    var needsSetup, firstUnmetWarn, satFlow := false, None, 0;
    for i := 0 to |reqs|
      invariant needsSetup <==> firstUnmetWarn.Some?
      invariant !needsSetup ==> satFlow == i
      invariant FirstUnmet(reqs, caps) == if needsSetup then firstUnmetWarn else FirstUnmet(reqs[i..], caps)
    {
      var satisfiedByFlow := AnyIn(reqs[i].anyOf, caps);
      if satisfiedByFlow {
        satFlow := satFlow + 1;
      } else {
        needsSetup := true;
        if firstUnmetWarn.None? {
          firstUnmetWarn := Some(reqs[i].warn);
        }
      }
    }
    if needsSetup {
      return Verdict(NeedsSetup, firstUnmetWarn);
    }
    if |reqs| > 0 && satFlow > 0 {
      return Verdict(Recommended, None);
    }
    if def.category == "action" && previous == Some("condition") {
      return Verdict(Recommended, None);
    }
    if def.category == "condition" && previous == Some("fetch") {
      return Verdict(Recommended, None);
    }
    return Verdict(Available, None);
  }

  lemma {:induction false} UnmetIffSomeNeedFails(needs: seq<Requirement>, caps: set<string>)
    ensures FirstUnmet(needs, caps) == None <==> forall k :: 0 <= k < |needs| ==> Met(needs[k], caps)
  {
    if needs != [] {
      UnmetIffSomeNeedFails(needs[1..], caps);
      assert forall k :: 1 <= k < |needs| ==> needs[k] == needs[1..][k - 1];
      assert needs[0] == needs[0];
    }
  }

  // A candidate needs setup exactly when none of the alternatives of some requirement is available;
  // the category of the step before plays no part.
  lemma NeedsSetupIff(def: StepDef, caps: set<string>, previous: Option<string>)
    ensures Classify(def, caps, previous).bucket == NeedsSetup <==>
            exists need :: need in Needs(def) && forall c :: c in need.anyOf ==> c !in caps
  {
    UnmetIffSomeNeedFails(Needs(def), caps);
  }

  // Need i is the first that no available capability meets.
  predicate FirstUnmetAt(needs: seq<Requirement>, caps: set<string>, i: nat) {
    i < |needs| && (forall c :: c in needs[i].anyOf ==> c !in caps) &&
    forall j :: 0 <= j < i ==> exists c :: c in needs[j].anyOf && c in caps
  }

  lemma {:induction false} WarnOfFirstUnmet(needs: seq<Requirement>, caps: set<string>, i: nat)
    requires FirstUnmetAt(needs, caps, i)
    ensures FirstUnmet(needs, caps) == Some(needs[i].warn)
  {
    assert i > 0 ==> exists c :: c in needs[0].anyOf && c in caps;
    if i > 0 {
      var rest := needs[1..];
      assert rest[i - 1] == needs[i];
      forall j | 0 <= j < i - 1
        ensures exists c :: c in rest[j].anyOf && c in caps
      {
        assert rest[j] == needs[j + 1];
      }
      WarnOfFirstUnmet(rest, caps, i - 1);
    }
  }

  // A candidate that needs setup carries the warning of its first unmet requirement.
  lemma SetupWarnsOfFirst(def: StepDef, caps: set<string>, previous: Option<string>, i: nat)
    requires def.compat.Some? && FirstUnmetAt(def.compat.value.needs, caps, i)
    ensures Classify(def, caps, previous) == Verdict(NeedsSetup, Some(def.compat.value.needs[i].warn))
  {
    WarnOfFirstUnmet(def.compat.value.needs, caps, i);
  }

  // Of the others, one with requirements is recommended; one without is, exactly when it is an action after
  // a condition or a condition after a fetch.
  lemma RecommendedIff(def: StepDef, caps: set<string>, previous: Option<string>)
    requires forall need :: need in Needs(def) ==> exists c :: c in need.anyOf && c in caps
    ensures Classify(def, caps, previous).unmetWarn == None
    ensures Classify(def, caps, previous).bucket ==
              if (def.compat.Some? && def.compat.value.needs != []) ||
                 (def.category == "action" && previous == Some("condition")) ||
                 (def.category == "condition" && previous == Some("fetch"))
              then Recommended else Available
  {
    UnmetIffSomeNeedFails(Needs(def), caps);
    forall k | 0 <= k < |Needs(def)|
      ensures Met(Needs(def)[k], caps)
    {
      assert Needs(def)[k] in Needs(def);
    }
  }

  // Deleting a step that is nobody's only source, in particular one that produces nothing, leaves
  // every capability in place and makes no candidate newly need setup, whatever precedes it then.
  lemma DeletionNeedsNoNewSetup(catalog: Catalog, kinds: seq<string>, i: nat, def: StepDef, previous: Option<string>, previous': Option<string>)
    requires i < |kinds| && forall cap :: cap in Produced(catalog, kinds[i]) ==> !OnlySource(catalog, kinds, i, cap)
    ensures Accumulated(catalog, kinds) <= Accumulated(catalog, Without(kinds, i))
    ensures Classify(def, Accumulated(catalog, Without(kinds, i)), previous').bucket == NeedsSetup ==>
            Classify(def, Accumulated(catalog, kinds), previous).bucket == NeedsSetup
  {
    forall cap | cap in Accumulated(catalog, kinds)
      ensures cap in Accumulated(catalog, Without(kinds, i))
    {
      DeletionLosesIffOnlySource(catalog, kinds, i, cap);
    }
    NeedsSetupIff(def, Accumulated(catalog, Without(kinds, i)), previous');
    NeedsSetupIff(def, Accumulated(catalog, kinds), previous);
  }

  // A candidate that asks for one capability.
  function Asking(cap: string, warn: string): StepDef {
    StepDef("candidate", "action", Some(Compat([Requirement([cap], warn)], [], [])))
  }

  lemma AskingVerdict(cap: string, warn: string, caps: set<string>, previous: Option<string>)
    ensures Classify(Asking(cap, warn), caps, previous) ==
            if cap in caps then Verdict(Recommended, None) else Verdict(NeedsSetup, Some(warn))
  {
    var need := Requirement([cap], warn);
    assert cap in need.anyOf;
    assert [need][1..] == [];
    assert Met(need, caps) <==> cap in caps;
    assert FirstUnmet([need][1..], caps) == None;
    assert FirstUnmet([need], caps) == if cap in caps then None else Some(warn);
    assert Needs(Asking(cap, warn)) == [need];
  }

  // Conversely, deleting an only source makes the candidate that asks for its capability need setup.
  lemma DeletingAnOnlySourceNeedsSetup(catalog: Catalog, kinds: seq<string>, i: nat, cap: string, warn: string, previous: Option<string>)
    requires i < |kinds| && OnlySource(catalog, kinds, i, cap)
    ensures Classify(Asking(cap, warn), Accumulated(catalog, kinds), previous).bucket == Recommended
    ensures Classify(Asking(cap, warn), Accumulated(catalog, Without(kinds, i)), previous) == Verdict(NeedsSetup, Some(warn))
  {
    hide Accumulated, OnlySource, Classify;
    DeletionLosesIffOnlySource(catalog, kinds, i, cap);
    AskingVerdict(cap, warn, Accumulated(catalog, kinds), previous);
    AskingVerdict(cap, warn, Accumulated(catalog, Without(kinds, i)), previous);
  }

  // ---------------------------------------------------------------------------
  // Buckets
  // ---------------------------------------------------------------------------

  datatype Bucketed = Bucketed(def: StepDef, verdict: Verdict)

  function CategoryBefore(catalog: Catalog, kinds: seq<string>): Option<string> {
    if kinds == [] then None
    else
      var last := kinds[|kinds| - 1];
      if last in catalog then Some(catalog[last].category) else None
  }

  // The step before is the last one; without one, or without a catalog entry for it, there is no category.
  lemma CategoryOfLast(catalog: Catalog, kinds: seq<string>, last: string)
    ensures CategoryBefore(catalog, []) == None
    ensures CategoryBefore(catalog, kinds + [last]) == if last in catalog then Some(catalog[last].category) else None
  {
  }

  // The positions of the candidates of one bucket, in order.
  function Positions(defs: seq<StepDef>, caps: set<string>, previous: Option<string>, b: Bucket): seq<nat> {
    if defs == [] then []
    else
      var n := |defs| - 1;
      Positions(defs[..n], caps, previous, b) + if Classify(defs[n], caps, previous).bucket == b then [n] else []
  }

  ghost predicate Picks(out: seq<Bucketed>, defs: seq<StepDef>, caps: set<string>, previous: Option<string>, b: Bucket) {
    var at := Positions(defs, caps, previous, b);
    |out| == |at| && forall i :: 0 <= i < |at| ==>
      at[i] < |defs| && out[i] == Bucketed(defs[at[i]], Classify(defs[at[i]], caps, previous))
  }

  method PartitionIntoBuckets(visible: seq<StepDef>, kinds: seq<string>, catalog: Catalog)
    returns (recommended: seq<Bucketed>, available: seq<Bucketed>, needsSetup: seq<Bucketed>)
    ensures var caps, previous := Accumulated(catalog, kinds), CategoryBefore(catalog, kinds);
            Picks(recommended, visible, caps, previous, Recommended) &&
            Picks(available, visible, caps, previous, Available) &&
            Picks(needsSetup, visible, caps, previous, NeedsSetup)
  {
    var caps := AccumulateCaps(catalog, kinds);
    var previous := CategoryBefore(catalog, kinds);
    recommended, available, needsSetup := [], [], [];
    NothingPicked(caps, previous);
    assert visible[..0] == [];
    hide Picks, Classify;
    for i := 0 to |visible|
      invariant Picks(recommended, visible[..i], caps, previous, Recommended)
      invariant Picks(available, visible[..i], caps, previous, Available)
      invariant Picks(needsSetup, visible[..i], caps, previous, NeedsSetup)
    {
      var verdict := ClassifyStepType(visible[i], caps, previous);
      PicksGrow(recommended, visible, i, caps, previous, Recommended);
      PicksGrow(available, visible, i, caps, previous, Available);
      PicksGrow(needsSetup, visible, i, caps, previous, NeedsSetup);
      var entry := Bucketed(visible[i], verdict);
      if verdict.bucket == Recommended {
        recommended := recommended + [entry];
      } else if verdict.bucket == NeedsSetup {
        needsSetup := needsSetup + [entry];
      } else {
        available := available + [entry];
      }
    }
    assert visible[..|visible|] == visible;
  }

  lemma NothingPicked(caps: set<string>, previous: Option<string>)
    ensures forall b :: Picks([], [], caps, previous, b)
  {
  }

  lemma PicksGrow(out: seq<Bucketed>, visible: seq<StepDef>, i: nat, caps: set<string>, previous: Option<string>, b: Bucket)
    requires i < |visible| && Picks(out, visible[..i], caps, previous, b)
    ensures var verdict := Classify(visible[i], caps, previous);
            Picks(if verdict.bucket == b then out + [Bucketed(visible[i], verdict)] else out, visible[..i + 1], caps, previous, b)
  {
    hide Classify;
    assert visible[..i + 1][..i] == visible[..i];
  }

  // Positions rise, and hold a candidate's place exactly when it is classified into the bucket.
  lemma {:induction false} PositionsExact(defs: seq<StepDef>, caps: set<string>, previous: Option<string>, b: Bucket)
    ensures var at := Positions(defs, caps, previous, b);
            (forall i, j :: 0 <= i < j < |at| ==> at[i] < at[j]) &&
            (forall k: nat :: k in at <==> k < |defs| && Classify(defs[k], caps, previous).bucket == b)
  {
    hide Classify;
    if defs != [] {
      var n := |defs| - 1;
      var front := defs[..n];
      PositionsExact(front, caps, previous, b);
      var before := Positions(front, caps, previous, b);
      assert forall i :: 0 <= i < |before| ==> before[i] in before;
      assert forall k :: 0 <= k < n ==> front[k] == defs[k];
    }
  }

  lemma {:induction false} BucketSizes(defs: seq<StepDef>, caps: set<string>, previous: Option<string>)
    ensures |Positions(defs, caps, previous, Recommended)| + |Positions(defs, caps, previous, Available)|
            + |Positions(defs, caps, previous, NeedsSetup)| == |defs|
  {
    hide Classify;
    if defs != [] {
      BucketSizes(defs[..|defs| - 1], caps, previous);
    }
  }

  // The three buckets are an order-preserving partition: each lists its candidates by rising
  // position, every position is in exactly one of them.
  lemma BucketsPartition(defs: seq<StepDef>, caps: set<string>, previous: Option<string>, k: nat)
    requires k < |defs|
    ensures exists b :: k in Positions(defs, caps, previous, b) &&
                        forall b' :: k in Positions(defs, caps, previous, b') ==> b' == b
  {
    var b := Classify(defs[k], caps, previous).bucket;
    PositionsExact(defs, caps, previous, b);
    forall b' | k in Positions(defs, caps, previous, b')
      ensures b' == b
    {
      PositionsExact(defs, caps, previous, b');
    }
  }
}
