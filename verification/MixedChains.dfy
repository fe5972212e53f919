/** Chains that begin with ordered stages and go on with unordered and optional ones. A hit on one of the
    latter completes the chain when the ordered stages are done and every unordered stage has been hit;
    the matcher cuts a stream into as many such pieces as possible. */
module MixedChains {
  import opened Wrappers
  import opened Values
  import opened Sequences
  import opened CorrelationModel
  import opened ChainInvariant
  import opened ChainProjection
  import opened OrderedChains
  import opened UnorderedChains

  /** The first `p` stages are ordered, the others, at least one, unordered or optional. */
  ghost predicate Mixed(chain: AttackChain, p: nat) {
    && p < |chain.stages|
    && (forall i | 0 <= i < p :: chain.stages[i].stageType.Ordered?)
    && (forall i | p <= i < |chain.stages| :: chain.stages[i].stageType.Unordered? || chain.stages[i].stageType.Optional?)
  }

  /** Some rule is taken by stage `j` when no ordered stage takes it. */
  ghost predicate Owned(chain: AttackChain, p: nat, j: nat)
    requires p <= |chain.stages|
  {
    exists x :: Owner(chain, x, p) == j
  }

  predicate IsUnordered(chain: AttackChain, p: nat, j: nat) {
    p <= j < |chain.stages| && chain.stages[j].stageType.Unordered?
  }

  /** An ordered stage lists a rule of the unordered stage `j`, while stage `l` has rules of its own. */
  ghost predicate Contended(chain: AttackChain, p: nat, i: nat, x: string, j: nat, l: nat)
    requires p <= |chain.stages|
  {
    && i < p && x in chain.stages[i].ruleIds && Owner(chain, x, p) == j && IsUnordered(chain, p, j)
    && p <= l < |chain.stages| && l != j && Owned(chain, p, l)
  }

  /** No hit that an ordered stage takes can be missing from an unordered one. */
  ghost predicate Harmless(chain: AttackChain, p: nat)
    requires p <= |chain.stages|
  {
    forall i: nat, x, j: nat, l: nat :: !Contended(chain, p, i, x, j, l)
  }

  /** An unordered stage that is not among those hit can never be hit, so that nothing completes. */
  ghost predicate Dead(chain: AttackChain, p: nat, have: set<nat>)
    requires p <= |chain.stages|
  {
    exists u: nat :: IsUnordered(chain, p, u) && !Owned(chain, p, u) && u !in have
  }

  /** Where cutting as early as possible is optimal. */
  ghost predicate Countable(chain: AttackChain, p: nat, have: set<nat>)
    requires p <= |chain.stages|
  {
    Harmless(chain, p) || Dead(chain, p, have)
  }

  /** The rule is one of the ordered stage that is due. */
  predicate Due(chain: AttackChain, p: nat, cur: nat, rule: string)
    requires p <= |chain.stages|
  {
    cur < p && rule in chain.stages[cur].ruleIds
  }

  /** Every unordered stage is among those hit. */
  ghost predicate AllHit(chain: AttackChain, p: nat, have: set<nat>) {
    forall i: nat | p <= i < |chain.stages| && chain.stages[i].stageType.Unordered? :: i in have
  }

  // ----- the matcher -----

  const UNHIT: set<nat> := {}

  /** The stages matched so far, the ordered ones aside. */
  ghost function TailMatched(chain: AttackChain, p: nat, o: Option<ChainState>): set<nat> {
    set i | i in MatchedStages(chain, o) && p <= i
  }

  lemma {:induction false} TailTakes(chain: AttackChain, p: nat, st: ChainState, rule: string, idx: nat)
    requires Mixed(chain, p) && idx <= p && !Due(chain, p, st.current, rule)
    ensures Taker(chain, st, rule, idx) == Owner(chain, rule, p)
    decreases p - idx
  {
    if idx < p {
      TailTakes(chain, p, st, rule, idx + 1);
    } else {
      TailOwner(chain, p, st, rule, p);
    }
  }

  lemma {:induction false} TailOwner(chain: AttackChain, p: nat, st: ChainState, rule: string, idx: nat)
    requires Mixed(chain, p) && p <= idx <= |chain.stages|
    ensures Taker(chain, st, rule, idx) == Owner(chain, rule, idx)
    decreases |chain.stages| - idx
  {
    if idx < |chain.stages| {
      TailOwner(chain, p, st, rule, idx + 1);
    }
  }

  lemma {:induction false} DueTakes(chain: AttackChain, p: nat, st: ChainState, rule: string, idx: nat)
    requires p <= |chain.stages| && (forall i | 0 <= i < p :: chain.stages[i].stageType.Ordered?)
    requires Due(chain, p, st.current, rule) && idx <= st.current
    ensures Taker(chain, st, rule, idx) == st.current
    decreases st.current - idx
  {
    if idx < st.current {
      DueTakes(chain, p, st, rule, idx + 1);
    }
  }

  lemma RequiredInTail(chain: AttackChain, p: nat, st: ChainState)
    requires WellFormed(chain) && Mixed(chain, p) && ProgressOk(chain, st)
    ensures AllRequiredMatched(chain, st) <==> st.current == p && AllHit(chain, p, TailMatched(chain, p, Some(st)))
  {
    hide ConfidenceSum;
    assert !chain.stages[p].stageType.Ordered?;
    var tail := TailMatched(chain, p, Some(st));
    forall i: nat | i < |chain.stages|
      ensures chain.stages[i].stageId in st.progress && st.progress[chain.stages[i].stageId] == ProgressOf(chain, st, i)
    {
      assert chain.stages[i].stageId in StageIds(chain);
    }
    assert forall i: nat | p <= i < |chain.stages| :: i in tail <==> ProgressOf(chain, st, i).matched;
    assert AllRequiredMatched(chain, st) <==>
           forall i: nat | i < |chain.stages| && !chain.stages[i].stageType.Optional? :: ProgressOf(chain, st, i).matched;
    hide TailMatched, AllRequiredMatched, ProgressOf, StageIds;
    if st.current < p {
      assert !ProgressOf(chain, st, st.current).matched;
    }
  }

  lemma TouchedMatched(chain: AttackChain, p: nat, st: ChainState, now: real)
    ensures TailMatched(chain, p, Some(Touched(st, now))) == TailMatched(chain, p, Some(st))
  {
    assert MatchedStages(chain, Some(Touched(st, now))) == MatchedStages(chain, Some(st));
  }

  lemma TakenInTail(chain: AttackChain, p: nat, st: ChainState, j: nat, h: LocalHit)
    requires WellFormed(chain) && j < |chain.stages| && chain.stages[j].stageId in st.progress
    ensures var next := Taken(chain, st, j, h.rule, h.event, h.now);
            TailMatched(chain, p, Some(next)) == if p <= j then TailMatched(chain, p, Some(st)) + {j} else TailMatched(chain, p, Some(st))
  {
    TakenMatches(chain, st, j, h);
    hide MatchedStages, Taken;
  }

  lemma MixedAdvance(chain: AttackChain, p: nat, st: ChainState, h: LocalHit)
    requires WellFormed(chain) && Mixed(chain, p) && ChainOk(chain, st)
    ensures var r := Advance(chain, st, h.rule, h.event, h.now);
            var have := TailMatched(chain, p, Some(st));
            var own := Owner(chain, h.rule, p);
            var more := With(chain, have, own);
      && st.current <= p && r.Advanced?
      && if Due(chain, p, st.current, h.rule) then
           !r.completed && r.state.current == st.current + 1 && TailMatched(chain, p, Some(r.state)) == have
         else
           && (r.completed <==> own < |chain.stages| && st.current == p && AllHit(chain, p, more))
           && r.state.current == st.current && TailMatched(chain, p, Some(r.state)) == more
  {
    var touched := Touched(st, h.now);
    TouchedIsOk(chain, st, h.now);
    TouchedMatched(chain, p, st, h.now);
    assert !chain.stages[p].stageType.Ordered? && st.current <= p;
    AdvanceByTaker(chain, touched, h.rule, h.event, h.now, 0);
    var j := if Due(chain, p, st.current, h.rule) then st.current else Owner(chain, h.rule, p);
    if Due(chain, p, st.current, h.rule) {
      DueTakes(chain, p, touched, h.rule, 0);
    } else {
      TailTakes(chain, p, touched, h.rule, 0);
    }
    if j < |chain.stages| {
      assert chain.stages[j].stageId in StageIds(chain);
      TakenInTail(chain, p, touched, j, h);
      MarkKeepsProgress(chain, touched, j, h.rule, h.event, h.now);
      RequiredInTail(chain, p, Taken(chain, touched, j, h.rule, h.event, h.now));
    }
    hide WellFormed, ProgressOk, ChainOk, AllRequiredMatched, TailMatched, AllHit, AdvanceFrom, Mark;
  }

  /** One step of such a chain. A hit on an ordered stage never completes it, even if it is the last that
      was missing. */
  lemma MixedStep(chain: AttackChain, p: nat, o: Option<ChainState>, h: LocalHit)
    requires WellFormed(chain) && Mixed(chain, p) && ComponentOk(chain, o)
    ensures var (next, completed) := LocalStep(chain, o, h);
            var own := Owner(chain, h.rule, p);
            var more := With(chain, TailMatched(chain, p, o), own);
      && ComponentOk(chain, next) && Current(o) <= p
      && if Due(chain, p, Current(o), h.rule) then
           !completed && Current(next) == Current(o) + 1 && TailMatched(chain, p, next) == TailMatched(chain, p, o)
         else if own < |chain.stages| && Current(o) == p && AllHit(chain, p, more) then
           completed && next == None
         else
           !completed && Current(next) == Current(o) && TailMatched(chain, p, next) == more
  {
    StartedChainIsOk(chain, 0, h.now);
    var st := if o.Some? then o.value else Start(chain, 0, h.now);
    assert MatchedStages(chain, o) == MatchedStages(chain, Some(st));
    AdvanceKeepsInvariant(chain, st, h.rule, h.event, h.now);
    MixedAdvance(chain, p, st, h);
    hide WellFormed, ChainOk, MatchedStages, Advance, AllHit;
  }

  /** When the last stage to be matched is an ordered one, the chain stays open with every required stage
      matched. */
  lemma LateOrderedStageLeavesOpen(chain: AttackChain, p: nat, st: ChainState, h: LocalHit)
    requires WellFormed(chain) && Mixed(chain, p) && ChainOk(chain, st)
    requires Due(chain, p, st.current, h.rule) && st.current + 1 == p && AllHit(chain, p, TailMatched(chain, p, Some(st)))
    ensures var (next, completed) := LocalStep(chain, Some(st), h);
            !completed && next.Some? && AllRequiredMatched(chain, next.value)
  {
    MixedStep(chain, p, Some(st), h);
    MixedAdvance(chain, p, st, h);
    hide WellFormed, Mixed, AllRequiredMatched, TailMatched, AllHit, Advance, ChainOk, ProgressOk;
    var next := Advance(chain, st, h.rule, h.event, h.now).state;
    AdvanceKeepsInvariant(chain, st, h.rule, h.event, h.now);
    RequiredInTail(chain, p, next);
  }

  /** Cutting the stream as soon as the current piece is complete. */
  ghost function CutsFrom(chain: AttackChain, p: nat, cur: nat, have: set<nat>, rules: seq<string>): nat
    requires p <= |chain.stages|
    decreases rules
  {
    if rules == [] then 0
    else if Due(chain, p, cur, rules[0]) then CutsFrom(chain, p, cur + 1, have, rules[1..])
    else if Closing(chain, p, cur, have, rules[0]) then 1 + CutsFrom(chain, p, 0, {}, rules[1..])
    else CutsFrom(chain, p, cur, With(chain, have, Owner(chain, rules[0], p)), rules[1..])
  }

  /** The hit is on a stage behind the ordered ones, those are done, and no unordered stage is missing. */
  ghost predicate Closing(chain: AttackChain, p: nat, cur: nat, have: set<nat>, rule: string)
    requires p <= |chain.stages|
  {
    var own := Owner(chain, rule, p);
    own < |chain.stages| && cur == p && AllHit(chain, p, With(chain, have, own))
  }

  lemma {:induction false} MatcherCuts(chain: AttackChain, p: nat, o: Option<ChainState>, hits: seq<LocalHit>)
    requires WellFormed(chain) && Mixed(chain, p) && ComponentOk(chain, o)
    ensures LocalCount(chain, o, hits) == CutsFrom(chain, p, Current(o), TailMatched(chain, p, o), Rules(hits))
    decreases hits
  {
    if hits != [] {
      hide *;
      CurrentWithin(chain, p, o);
      RulesStep(hits);
      CountStep(chain, o, hits);
      StepIsOneCut(chain, p, o, hits[0], Rules(hits));
      MatcherCuts(chain, p, LocalStep(chain, o, hits[0]).0, hits[1..]);
    }
  }

  lemma CurrentWithin(chain: AttackChain, p: nat, o: Option<ChainState>)
    requires Mixed(chain, p) && ComponentOk(chain, o)
    ensures p <= |chain.stages| && Current(o) <= p
  {
    assert !chain.stages[p].stageType.Ordered?;
  }

  /** The step in the terms of the cuts. */
  lemma StepClosesOrNot(chain: AttackChain, p: nat, o: Option<ChainState>, h: LocalHit)
    requires WellFormed(chain) && Mixed(chain, p) && ComponentOk(chain, o)
    ensures p <= |chain.stages| && ComponentOk(chain, LocalStep(chain, o, h).0)
    ensures var (next, completed) := LocalStep(chain, o, h);
            var cur, have := Current(o), TailMatched(chain, p, o);
            if Due(chain, p, cur, h.rule) then !completed && Current(next) == cur + 1 && TailMatched(chain, p, next) == have
            else if Closing(chain, p, cur, have, h.rule) then completed && Current(next) == 0 && TailMatched(chain, p, next) == UNHIT
            else !completed && Current(next) == cur && TailMatched(chain, p, next) == With(chain, have, Owner(chain, h.rule, p))
  {
    MixedStep(chain, p, o, h);
    NothingTracked(chain, p);
    hide WellFormed, ComponentOk, LocalStep, TailMatched, AllHit, Due;
  }

  lemma StepIsOneCut(chain: AttackChain, p: nat, o: Option<ChainState>, h: LocalHit, rules: seq<string>)
    requires WellFormed(chain) && Mixed(chain, p) && ComponentOk(chain, o) && rules != [] && rules[0] == h.rule
    ensures p <= |chain.stages| && ComponentOk(chain, LocalStep(chain, o, h).0)
    ensures var (next, completed) := LocalStep(chain, o, h);
            CutsFrom(chain, p, Current(o), TailMatched(chain, p, o), rules) ==
            (if completed then 1 else 0) + CutsFrom(chain, p, Current(next), TailMatched(chain, p, next), rules[1..])
  {
    CurrentWithin(chain, p, o);
    StepClosesOrNot(chain, p, o, h);
    CutsStep(chain, p, Current(o), TailMatched(chain, p, o), rules);
    hide *;
  }

  lemma RulesStep(hits: seq<LocalHit>)
    requires hits != []
    ensures Rules(hits) != [] && Rules(hits)[0] == hits[0].rule && Rules(hits)[1..] == Rules(hits[1..])
  {}

  lemma CutsStep(chain: AttackChain, p: nat, cur: nat, have: set<nat>, rules: seq<string>)
    requires p <= |chain.stages| && rules != []
    ensures CutsFrom(chain, p, cur, have, rules) ==
            if Due(chain, p, cur, rules[0]) then CutsFrom(chain, p, cur + 1, have, rules[1..])
            else if Closing(chain, p, cur, have, rules[0]) then 1 + CutsFrom(chain, p, 0, {}, rules[1..])
            else CutsFrom(chain, p, cur, With(chain, have, Owner(chain, rules[0], p)), rules[1..])
  {
    hide Due, Closing, With;
  }

  lemma NothingTracked(chain: AttackChain, p: nat)
    ensures TailMatched(chain, p, None) == UNHIT
  {}

  // ----- cutting as early as possible is optimal -----

  /** The stream hits stage `i` behind the ordered ones, as the first of them to list the rule. */
  ghost predicate TailHit(chain: AttackChain, p: nat, i: nat, rules: seq<string>)
    requires p <= |chain.stages|
  {
    exists x :: x in rules && Owner(chain, x, p) == i
  }

  /** Hit `k` completes the chain or comes after that: it is on a stage behind the ordered ones, the ordered
      stages from `cur` on occur before it as a subsequence, and no unordered stage is missing. */
  ghost predicate DoneAt(chain: AttackChain, p: nat, cur: nat, have: set<nat>, rules: seq<string>, k: nat)
    requires cur <= p <= |chain.stages|
  {
    && k < |rules| && Owner(chain, rules[k], p) < |chain.stages|
    && Embeds(chain.stages[cur..p], rules[..k])
    && forall i: nat | p <= i < |chain.stages| && chain.stages[i].stageType.Unordered? ::
         i in have || TailHit(chain, p, i, rules[..k + 1])
  }

  /** The stream holds a complete attack, with `cur` ordered stages and the stages `have` granted. */
  ghost predicate Done(chain: AttackChain, p: nat, cur: nat, have: set<nat>, rules: seq<string>)
    requires cur <= p <= |chain.stages|
  {
    exists k: nat :: DoneAt(chain, p, cur, have, rules, k)
  }

  /** The stream falls into `m` consecutive pieces that each hold a complete attack, and a rest. */
  ghost predicate PiecesFrom(chain: AttackChain, p: nat, cur: nat, have: set<nat>, rules: seq<string>, m: nat)
    requires cur <= p <= |chain.stages|
    decreases m, 1
  {
    m == 0 || exists i: nat :: PiecesAt(chain, p, cur, have, rules, m, i)
  }

  ghost predicate PiecesAt(chain: AttackChain, p: nat, cur: nat, have: set<nat>, rules: seq<string>, m: nat, i: nat)
    requires cur <= p <= |chain.stages| && m > 0
    decreases m, 0
  {
    i <= |rules| && Done(chain, p, cur, have, rules[..i]) && PiecesFrom(chain, p, 0, {}, rules[i..], m - 1)
  }

  ghost predicate Pieces(chain: AttackChain, p: nat, rules: seq<string>, m: nat)
    requires p <= |chain.stages|
  {
    PiecesFrom(chain, p, 0, {}, rules, m)
  }

  lemma HitsOfLonger(chain: AttackChain, p: nat, i: nat, rules: seq<string>)
    requires p <= |chain.stages| && rules != []
    ensures TailHit(chain, p, i, rules) <==> Owner(chain, rules[0], p) == i || TailHit(chain, p, i, rules[1..])
  {
    assert rules == [rules[0]] + rules[1..];
  }

  /** A piece may begin earlier. */
  lemma DoneEarlier(chain: AttackChain, p: nat, rules: seq<string>)
    requires p <= |chain.stages| && rules != [] && Done(chain, p, 0, {}, rules[1..])
    ensures Done(chain, p, 0, {}, rules)
  {
    var k: nat :| DoneAt(chain, p, 0, {}, rules[1..], k);
    assert rules[1..][..k] == rules[..k + 1][1..] && rules[1..][..k + 1] == rules[..k + 2][1..];
    EmbedsInLonger(chain.stages[0..p], rules[..k + 1]);
    var shorter, longer := rules[1..][..k + 1], rules[..k + 2];
    forall i: nat ensures TailHit(chain, p, i, shorter) ==> TailHit(chain, p, i, longer) {
      HitsOfLonger(chain, p, i, longer);
    }
    assert DoneAt(chain, p, 0, {}, rules, k + 1);
  }

  lemma PiecesEarlier(chain: AttackChain, p: nat, rules: seq<string>, m: nat)
    requires p <= |chain.stages| && rules != [] && Pieces(chain, p, rules[1..], m)
    ensures Pieces(chain, p, rules, m)
  {
    if m > 0 {
      assert PiecesFrom(chain, p, 0, {}, rules[1..], m);
      var i: nat :| PiecesAt(chain, p, 0, {}, rules[1..], m, i);
      assert rules[..i + 1][1..] == rules[1..][..i] && rules[i + 1..] == rules[1..][i..];
      DoneEarlier(chain, p, rules[..i + 1]);
      assert PiecesAt(chain, p, 0, {}, rules, m, i + 1);
    }
  }

  lemma {:induction false} PiecesMuchEarlier(chain: AttackChain, p: nat, rules: seq<string>, drop: nat, m: nat)
    requires p <= |chain.stages| && drop <= |rules| && Pieces(chain, p, rules[drop..], m)
    ensures Pieces(chain, p, rules, m)
    decreases drop
  {
    if drop > 0 {
      assert rules[drop - 1..][1..] == rules[drop..];
      PiecesEarlier(chain, p, rules[drop - 1..], m);
      PiecesMuchEarlier(chain, p, rules, drop - 1, m);
    } else {
      assert rules[0..] == rules;
    }
  }

  /** A due hit aside, the same unordered stages are hit up to a hit on a later stage. */
  lemma TailHitPastDue(chain: AttackChain, p: nat, cur: nat, rules: seq<string>, k: nat, i: nat)
    requires Mixed(chain, p) && Harmless(chain, p) && rules != [] && Due(chain, p, cur, rules[0])
    requires 0 < k < |rules| && Owner(chain, rules[k], p) < |chain.stages| && IsUnordered(chain, p, i)
    ensures TailHit(chain, p, i, rules[..k + 1]) <==> TailHit(chain, p, i, rules[1..][..k])
  {
    var rest := rules[1..][..k];
    assert rules[..k + 1][1..] == rest;
    HitsOfLonger(chain, p, i, rules[..k + 1]);
    if Owner(chain, rules[0], p) == i {
      var l := Owner(chain, rules[k], p);
      assert !Contended(chain, p, cur, rules[0], i, l);
      assert rest[k - 1] == rules[k] && rules[k] in rest;
    }
  }

  /** The same, of the hit that completes. */
  lemma PastDue(chain: AttackChain, p: nat, cur: nat, have: set<nat>, rules: seq<string>, k: nat)
    requires Mixed(chain, p) && Harmless(chain, p) && cur <= p && k + 1 < |rules| && Due(chain, p, cur, rules[0])
    ensures DoneAt(chain, p, cur, have, rules, k + 1) <==> DoneAt(chain, p, cur + 1, have, rules[1..], k)
  {
    var rest, due := rules[1..], chain.stages[cur..p];
    assert due[1..] == chain.stages[cur + 1..p] && due[0] == chain.stages[cur];
    var shorter, longer := rest[..k + 1], rules[..k + 2];
    assert rules[..k + 1][1..] == rest[..k] && rest[k] == rules[k + 1] && longer == rules[..k + 1 + 1];
    if Owner(chain, rules[k + 1], p) < |chain.stages| {
      forall i: nat | IsUnordered(chain, p, i)
        ensures TailHit(chain, p, i, longer) <==> TailHit(chain, p, i, shorter)
      {
        TailHitPastDue(chain, p, cur, rules, k + 1, i);
      }
    }
    if Embeds(due, rules[..k + 1]) { EmbedsWithoutHead(due, rules[..k + 1]); }
    if Embeds(due[1..], rest[..k]) { EmbedsWithHead(due, rules[..k + 1]); }
    assert Embeds(due, rules[..k + 1]) <==> Embeds(chain.stages[cur + 1..p], rest[..k]);
    hide TailHit, Embeds, Harmless, Mixed, Due;
    assert forall i: nat | p <= i < |chain.stages| && chain.stages[i].stageType.Unordered? :: IsUnordered(chain, p, i);
  }

  /** An ordered hit that is due. */
  lemma DoneAfterDue(chain: AttackChain, p: nat, cur: nat, have: set<nat>, rules: seq<string>)
    requires Mixed(chain, p) && Harmless(chain, p) && cur <= p && rules != [] && Due(chain, p, cur, rules[0])
    ensures Done(chain, p, cur, have, rules) <==> Done(chain, p, cur + 1, have, rules[1..])
  {
    var rest, next := rules[1..], cur + 1;
    if k: nat :| DoneAt(chain, p, cur, have, rules, k) {
      assert rules[..0] == [];
      NothingEmbeds(chain.stages[cur..p]);
      assert k > 0;
      PastDue(chain, p, cur, have, rules, k - 1);
      hide DoneAt;
      assert Done(chain, p, next, have, rest);
    }
    if k: nat :| DoneAt(chain, p, next, have, rest, k) {
      PastDue(chain, p, cur, have, rules, k);
      hide DoneAt;
      assert Done(chain, p, cur, have, rules);
    }
  }

  lemma EmptyEmbeds(rules: seq<string>)
    ensures Embeds([], rules)
  {
    assert EmbedsAt([], rules, []);
  }

  lemma NothingEmbeds(pattern: seq<ChainStage>)
    requires pattern != []
    ensures !Embeds(pattern, [])
  {
    forall f: seq<nat> ensures !EmbedsAt(pattern, [], f) {
      assert |f| == |pattern| ==> f[0] >= 0;
    }
  }

  /** Dropping a hit that is not due keeps the ordered stages. */
  lemma EmbedsPastOther(chain: AttackChain, p: nat, cur: nat, rules: seq<string>)
    requires cur <= p <= |chain.stages| && rules != [] && !Due(chain, p, cur, rules[0])
    ensures Embeds(chain.stages[cur..p], rules) <==> Embeds(chain.stages[cur..p], rules[1..])
  {
    var due := chain.stages[cur..p];
    if cur < p {
      assert due[0] == chain.stages[cur];
      if Embeds(due, rules) { EmbedsWithoutHead(due, rules); }
      if Embeds(due, rules[1..]) { EmbedsInLonger(due, rules); }
    } else {
      EmptyEmbeds(rules);
      EmptyEmbeds(rules[1..]);
    }
  }

  /** A hit that is not due, seen from a later one. */
  lemma PastOther(chain: AttackChain, p: nat, cur: nat, have: set<nat>, rules: seq<string>, k: nat)
    requires Mixed(chain, p) && cur <= p && k + 1 < |rules| && !Due(chain, p, cur, rules[0])
    ensures DoneAt(chain, p, cur, have, rules, k + 1)
       <==> DoneAt(chain, p, cur, With(chain, have, Owner(chain, rules[0], p)), rules[1..], k)
  {
    var rest := rules[1..];
    var more := With(chain, have, Owner(chain, rules[0], p));
    var shorter, longer := rest[..k + 1], rules[..k + 2];
    assert longer[1..] == shorter && rules[..k + 1][1..] == rest[..k];
    forall i: nat | i < |chain.stages| ensures i in have || TailHit(chain, p, i, longer) <==> i in more || TailHit(chain, p, i, shorter) {
      HitsOfLonger(chain, p, i, longer);
    }
    EmbedsPastOther(chain, p, cur, rules[..k + 1]);
    hide TailHit, Embeds, Due, Mixed, With;
  }

  /** A hit that is neither due nor closing. */
  lemma DoneAfterOther(chain: AttackChain, p: nat, cur: nat, have: set<nat>, rules: seq<string>)
    requires Mixed(chain, p) && cur <= p && rules != []
    requires !Due(chain, p, cur, rules[0]) && !Closing(chain, p, cur, have, rules[0])
    ensures Done(chain, p, cur, have, rules) <==> Done(chain, p, cur, With(chain, have, Owner(chain, rules[0], p)), rules[1..])
  {
    var rest, more := rules[1..], With(chain, have, Owner(chain, rules[0], p));
    NoFirstHitCloses(chain, p, cur, have, rules);
    if k: nat :| DoneAt(chain, p, cur, have, rules, k) {
      assert k > 0;
      PastOther(chain, p, cur, have, rules, k - 1);
      hide DoneAt;
      assert Done(chain, p, cur, more, rest);
    }
    if k: nat :| DoneAt(chain, p, cur, more, rest, k) {
      PastOther(chain, p, cur, have, rules, k);
      hide DoneAt;
      assert Done(chain, p, cur, have, rules);
    }
  }

  lemma NoFirstHitCloses(chain: AttackChain, p: nat, cur: nat, have: set<nat>, rules: seq<string>)
    requires cur <= p <= |chain.stages| && rules != []
    ensures DoneAt(chain, p, cur, have, rules, 0) <==> Closing(chain, p, cur, have, rules[0])
  {
    assert rules[..1] == [rules[0]] && rules[..0] == [];
    var own := Owner(chain, rules[0], p);
    forall i: nat ensures TailHit(chain, p, i, [rules[0]]) <==> own == i {
      assert rules[0] in [rules[0]];
    }
    if cur < p {
      NothingEmbeds(chain.stages[cur..p]);
    } else {
      assert chain.stages[cur..p] == [];
      EmptyEmbeds([]);
    }
    hide Embeds, TailHit;
  }

  lemma {:induction false} CutsAreOptimal(chain: AttackChain, p: nat, cur: nat, have: set<nat>, rules: seq<string>, m: nat)
    requires Mixed(chain, p) && Countable(chain, p, have) && cur <= p
    ensures PiecesFrom(chain, p, cur, have, rules, m) <==> m <= CutsFrom(chain, p, cur, have, rules)
    decreases rules
  {
    if m > 0 {
      if rules == [] {
        NothingIsDone(chain, p, cur, have);
        return;
      }
      if !Harmless(chain, p) {
        DeadHasNoCut(chain, p, cur, have, rules);
        DeadHasNoPiece(chain, p, cur, have, rules, m);
        return;
      }
      CutsStep(chain, p, cur, have, rules);
      var due := Due(chain, p, cur, rules[0]);
      assert due ==> cur + 1 <= p;
      hide Done, DoneAt, Mixed, Harmless, Closing, AllHit, CutsFrom, PiecesFrom, Due, With;
      if Due(chain, p, cur, rules[0]) {
        PiecesOneOn(chain, p, cur, have, cur + 1, have, rules, m);
        CutsAreOptimal(chain, p, cur + 1, have, rules[1..], m);
      } else if Closing(chain, p, cur, have, rules[0]) {
        PiecesCutNow(chain, p, cur, have, rules, m);
        CutsAreOptimal(chain, p, 0, {}, rules[1..], m - 1);
      } else {
        var more := With(chain, have, Owner(chain, rules[0], p));
        PiecesOneOn(chain, p, cur, have, cur, more, rules, m);
        CutsAreOptimal(chain, p, cur, more, rules[1..], m);
      }
    }
  }

  lemma DeadHasNoPiece(chain: AttackChain, p: nat, cur: nat, have: set<nat>, rules: seq<string>, m: nat)
    requires cur <= p <= |chain.stages| && Dead(chain, p, have) && m > 0
    ensures !PiecesFrom(chain, p, cur, have, rules, m)
  {
    var u: nat :| IsUnordered(chain, p, u) && !Owned(chain, p, u) && u !in have;
    forall i: nat | i <= |rules| ensures !Done(chain, p, cur, have, rules[..i]) {
      forall k: nat ensures !DoneAt(chain, p, cur, have, rules[..i], k) {}
    }
    hide Done;
    assert forall i: nat :: !PiecesAt(chain, p, cur, have, rules, m, i);
  }

  lemma {:induction false} DeadHasNoCut(chain: AttackChain, p: nat, cur: nat, have: set<nat>, rules: seq<string>)
    requires p <= |chain.stages| && Dead(chain, p, have)
    ensures CutsFrom(chain, p, cur, have, rules) == 0
    decreases rules
  {
    if rules != [] {
      var u: nat :| IsUnordered(chain, p, u) && !Owned(chain, p, u) && u !in have;
      var more := With(chain, have, Owner(chain, rules[0], p));
      assert u !in more && Dead(chain, p, more);
      hide Dead, Owned;
      DeadHasNoCut(chain, p, cur + 1, have, rules[1..]);
      DeadHasNoCut(chain, p, cur, more, rules[1..]);
    }
  }

  lemma NothingIsDone(chain: AttackChain, p: nat, cur: nat, have: set<nat>)
    requires cur <= p <= |chain.stages|
    ensures !Done(chain, p, cur, have, [])
    ensures forall m: nat | m > 0 :: !PiecesFrom(chain, p, cur, have, [], m)
  {
    forall m: nat, i: nat | m > 0 ensures !PiecesAt(chain, p, cur, have, [], m, i) {
      var none: seq<string> := [];
      assert none[..0] == none;
    }
  }

  /** The first hit leaves the piece open. */
  lemma PiecesOneOn(chain: AttackChain, p: nat, cur: nat, have: set<nat>, cur': nat, more: set<nat>, rules: seq<string>, m: nat)
    requires Mixed(chain, p) && Harmless(chain, p) && cur <= p && rules != [] && m > 0
    requires if Due(chain, p, cur, rules[0]) then cur' == cur + 1 && more == have
             else !Closing(chain, p, cur, have, rules[0]) && cur' == cur && more == With(chain, have, Owner(chain, rules[0], p))
    ensures PiecesFrom(chain, p, cur, have, rules, m) <==> PiecesFrom(chain, p, cur', more, rules[1..], m)
  {
    forall i: nat | 0 < i <= |rules|
      ensures Done(chain, p, cur, have, rules[..i]) <==> Done(chain, p, cur', more, rules[1..][..i - 1])
    {
      var piece := rules[..i];
      assert piece[0] == rules[0] && piece[1..] == rules[1..][..i - 1];
      if Due(chain, p, cur, rules[0]) {
        DoneAfterDue(chain, p, cur, have, piece);
      } else {
        DoneAfterOther(chain, p, cur, have, piece);
      }
    }
    NothingIsDone(chain, p, cur, have);
    assert rules[..0] == [];
    hide Done, DoneAt, Mixed, Harmless, Closing, AllHit, Due;
    if i: nat :| PiecesAt(chain, p, cur, have, rules, m, i) {
      assert rules[i..] == rules[1..][i - 1..];
      assert PiecesAt(chain, p, cur', more, rules[1..], m, i - 1);
    }
    if i: nat :| PiecesAt(chain, p, cur', more, rules[1..], m, i) {
      assert rules[i + 1..] == rules[1..][i..];
      assert PiecesAt(chain, p, cur, have, rules, m, i + 1);
    }
  }

  /** When the first hit completes the piece, cutting there loses nothing. */
  lemma PiecesCutNow(chain: AttackChain, p: nat, cur: nat, have: set<nat>, rules: seq<string>, m: nat)
    requires cur <= p <= |chain.stages| && rules != [] && m > 0 && Closing(chain, p, cur, have, rules[0])
    ensures PiecesFrom(chain, p, cur, have, rules, m) <==> Pieces(chain, p, rules[1..], m - 1)
  {
    NoFirstHitCloses(chain, p, cur, have, rules[..1]);
    assert Done(chain, p, cur, have, rules[..1]);
    NothingIsDone(chain, p, cur, have);
    assert rules[..0] == [];
    hide Done, DoneAt, Closing, AllHit;
    if i: nat :| PiecesAt(chain, p, cur, have, rules, m, i) {
      assert rules[i..] == rules[1..][i - 1..];
      PiecesMuchEarlier(chain, p, rules[1..], i - 1, m - 1);
    }
    if Pieces(chain, p, rules[1..], m - 1) {
      assert PiecesAt(chain, p, cur, have, rules, m, 1);
    }
  }

  /** The local theorem: completions are the most complete attacks the stream can be cut into. */
  lemma CompletionsAreMostAttacks(chain: AttackChain, p: nat, hits: seq<LocalHit>, m: nat)
    requires WellFormed(chain) && Mixed(chain, p) && Countable(chain, p, {})
    ensures Pieces(chain, p, Rules(hits), m) <==> m <= LocalCount(chain, None, hits)
  {
    MatcherCuts(chain, p, None, hits);
    NothingTracked(chain, p);
    CutsAreOptimal(chain, p, 0, {}, Rules(hits), m);
  }

  // ----- where else it is not -----

  /** One rule of each ordered stage from `t` on, with `x` for stage `i`. */
  function OneEach(chain: AttackChain, p: nat, i: nat, x: string, t: nat): seq<string>
    requires p <= |chain.stages| && forall n | 0 <= n < p :: chain.stages[n].ruleIds != []
    decreases p - t
  {
    if t >= p then [] else [if t == i then x else chain.stages[t].ruleIds[0]] + OneEach(chain, p, i, x, t + 1)
  }

  /** They take the matcher through all ordered stages. */
  lemma {:induction false} OneEachIsDue(chain: AttackChain, p: nat, i: nat, x: string, t: nat, rest: seq<string>)
    requires WellFormed(chain) && Mixed(chain, p) && t <= p && i < p && x in chain.stages[i].ruleIds
    ensures CutsFrom(chain, p, t, {}, OneEach(chain, p, i, x, t) + rest) == CutsFrom(chain, p, p, {}, rest)
    decreases p - t
  {
    var rules := OneEach(chain, p, i, x, t);
    hide CutsFrom;
    if t == p {
      assert rules + rest == rest;
    } else {
      assert (rules + rest)[1..] == rules[1..] + rest;
      assert Due(chain, p, t, (rules + rest)[0]);
      CutsStep(chain, p, t, {}, rules + rest);
      hide WellFormed, Mixed;
      OneEachIsDue(chain, p, i, x, t + 1, rest);
    }
  }

  lemma {:induction false} OneEachEmbeds(chain: AttackChain, p: nat, i: nat, x: string, t: nat)
    requires WellFormed(chain) && Mixed(chain, p) && t <= p && i < p && x in chain.stages[i].ruleIds
    ensures Embeds(chain.stages[t..p], OneEach(chain, p, i, x, t))
    decreases p - t
  {
    var rules, due := OneEach(chain, p, i, x, t), chain.stages[t..p];
    if t == p {
      assert due == [];
      EmptyEmbeds(rules);
    } else {
      OneEachEmbeds(chain, p, i, x, t + 1);
      assert due[1..] == chain.stages[t + 1..p];
      EmbedsWithHead(due, rules);
    }
  }

  lemma {:induction false} OneEachHolds(chain: AttackChain, p: nat, i: nat, x: string, t: nat)
    requires WellFormed(chain) && Mixed(chain, p) && t <= i < p
    ensures x in OneEach(chain, p, i, x, t)
    decreases p - t
  {
    if t < i {
      OneEachHolds(chain, p, i, x, t + 1);
    }
  }

  /** Rules of later stages, of all that have rules of their own from `l` on, and none of stage `j`. */
  ghost predicate CoversOthers(chain: AttackChain, p: nat, j: nat, l: nat, rules: seq<string>)
    requires p <= |chain.stages|
  {
    && (forall x | x in rules :: Owner(chain, x, p) < |chain.stages| && Owner(chain, x, p) != j)
    && (forall u: nat | l <= u < |chain.stages| && u != j && Owned(chain, p, u) :: TailHit(chain, p, u, rules))
  }

  lemma {:induction false} OwnRules(chain: AttackChain, p: nat, j: nat, l: nat) returns (rules: seq<string>)
    requires Mixed(chain, p) && p <= l <= |chain.stages|
    ensures CoversOthers(chain, p, j, l, rules)
    decreases |chain.stages| - l
  {
    if l == |chain.stages| {
      rules := [];
    } else {
      var rest := OwnRules(chain, p, j, l + 1);
      rules := rest;
      if l != j && Owned(chain, p, l) {
        var x :| Owner(chain, x, p) == l;
        rules := [x] + rest;
        assert x in rules;
      }
      forall u: nat | l <= u < |chain.stages| && u != j && Owned(chain, p, u) ensures TailHit(chain, p, u, rules) {
        if u != l {
          var y :| y in rest && Owner(chain, y, p) == u;
          assert y in rules;
        }
      }
    }
  }

  /** Without a hit on the unordered stage `j` nothing completes. */
  lemma {:induction false} NoCutWithout(chain: AttackChain, p: nat, j: nat, have: set<nat>, rules: seq<string>)
    requires Mixed(chain, p) && IsUnordered(chain, p, j) && j !in have
    requires forall x | x in rules :: Owner(chain, x, p) != j
    ensures CutsFrom(chain, p, p, have, rules) == 0
    decreases rules
  {
    if rules != [] {
      assert rules[0] in rules;
      CutsStep(chain, p, p, have, rules);
      NoCutWithout(chain, p, j, With(chain, have, Owner(chain, rules[0], p)), rules[1..]);
    }
  }

  /** Hits that do the ordered stages, with `x` among them. */
  lemma OrderedHits(chain: AttackChain, p: nat, i: nat, x: string, rest: seq<string>) returns (front: seq<string>)
    requires WellFormed(chain) && Mixed(chain, p) && i < p && x in chain.stages[i].ruleIds
    ensures CutsFrom(chain, p, 0, {}, front + rest) == CutsFrom(chain, p, p, {}, rest)
    ensures Embeds(chain.stages[0..p], front) && x in front
  {
    front := OneEach(chain, p, i, x, 0);
    OneEachEmbeds(chain, p, i, x, 0);
    OneEachIsDue(chain, p, i, x, 0, rest);
    OneEachHolds(chain, p, i, x, 0);
    hide *;
  }

  /** For any other chain, a stream that holds a complete attack and does not complete the chain. */
  lemma ContentionLosesAttack(chain: AttackChain, p: nat) returns (rules: seq<string>)
    requires WellFormed(chain) && Mixed(chain, p) && !Countable(chain, p, {})
    ensures Pieces(chain, p, rules, 1) && CutsFrom(chain, p, 0, {}, rules) == 0
  {
    assert p <= |chain.stages| && !Harmless(chain, p) && !Dead(chain, p, {});
    var i: nat, x, j: nat, l: nat :| Contended(chain, p, i, x, j, l);
    hide *;
    rules := ContendedAttack(chain, p, i, x, j, l);
  }

  lemma ContendedAttack(chain: AttackChain, p: nat, i: nat, x: string, j: nat, l: nat) returns (rules: seq<string>)
    requires WellFormed(chain) && Mixed(chain, p) && Contended(chain, p, i, x, j, l) && !Dead(chain, p, {})
    ensures Pieces(chain, p, rules, 1) && CutsFrom(chain, p, 0, {}, rules) == 0
  {
    assert i < p && x in chain.stages[i].ruleIds && IsUnordered(chain, p, j) && p <= |chain.stages|;
    hide *;
    var tail := OwnRules(chain, p, j, p);
    var front := OrderedHits(chain, p, i, x, tail);
    NoCutOfOthers(chain, p, j, tail);
    HoldsAttack(chain, p, front, tail, i, x, j, l);
    rules := front + tail;
  }

  lemma NoCutOfOthers(chain: AttackChain, p: nat, j: nat, rules: seq<string>)
    requires Mixed(chain, p) && IsUnordered(chain, p, j) && CoversOthers(chain, p, j, p, rules)
    ensures CutsFrom(chain, p, p, {}, rules) == 0
  {
    hide TailHit, Owned;
    NoCutWithout(chain, p, j, {}, rules);
  }

  lemma HoldsAttack(chain: AttackChain, p: nat, front: seq<string>, tail: seq<string>, i: nat, x: string, j: nat, l: nat)
    requires p <= |chain.stages| && Embeds(chain.stages[0..p], front) && x in front
    requires Contended(chain, p, i, x, j, l) && !Dead(chain, p, {}) && CoversOthers(chain, p, j, p, tail)
    ensures Pieces(chain, p, front + tail, 1)
  {
    var rules := front + tail;
    var k := |rules| - 1;
    assert TailHit(chain, p, l, tail) && tail != [];
    assert rules[k] in tail && rules[..k + 1] == rules;
    EmbedsInFront(chain.stages[0..p], front, rules[..k]);
    hide Embeds;
    forall u: nat | IsUnordered(chain, p, u) ensures TailHit(chain, p, u, rules) {
      if u == j {
        assert x in rules;
      } else {
        assert Owned(chain, p, u);
        var y :| y in tail && Owner(chain, y, p) == u;
        assert y in rules;
      }
    }
    hide TailHit, Owned, Dead;
    assert forall u: nat | p <= u < |chain.stages| && chain.stages[u].stageType.Unordered? :: IsUnordered(chain, p, u);
    OnePieceIsEnough(chain, p, rules, k);
  }

  lemma EmbedsInFront(pattern: seq<ChainStage>, front: seq<string>, rules: seq<string>)
    requires Embeds(pattern, front) && front <= rules
    ensures Embeds(pattern, rules)
  {
    var f :| EmbedsAt(pattern, front, f);
    assert EmbedsAt(pattern, rules, f);
  }

  lemma OnePieceIsEnough(chain: AttackChain, p: nat, rules: seq<string>, k: nat)
    requires p <= |chain.stages| && DoneAt(chain, p, 0, {}, rules, k)
    ensures Pieces(chain, p, rules, 1)
  {
    hide DoneAt;
    assert rules[..|rules|] == rules;
    assert PiecesAt(chain, p, 0, {}, rules, 1, |rules|);
  }

  function HitsOn(rules: seq<string>): seq<LocalHit> {
    seq(|rules|, i requires 0 <= i < |rules| => LocalHit(rules[i], Null, 0.0))
  }

  /** Exactly for which of these chains completions are the most complete attacks, in every stream: nothing
      completes at all, or each rule that an ordered stage shares with an unordered one belongs to the only
      later stage with rules of its own. */
  lemma CutsAreOptimalIff(chain: AttackChain, p: nat)
    requires WellFormed(chain) && Mixed(chain, p)
    ensures (forall hits, m: nat :: Pieces(chain, p, Rules(hits), m) <==> m <= LocalCount(chain, None, hits))
       <==> Countable(chain, p, {})
  {
    if Countable(chain, p, {}) {
      forall hits, m: nat ensures Pieces(chain, p, Rules(hits), m) <==> m <= LocalCount(chain, None, hits) {
        CompletionsAreMostAttacks(chain, p, hits, m);
      }
    } else {
      var rules := ContentionLosesAttack(chain, p);
      var hits := HitsOn(rules);
      assert Rules(hits) == rules;
      MatcherCuts(chain, p, None, hits);
      NothingTracked(chain, p);
      assert !(Pieces(chain, p, Rules(hits), 1) <==> 1 <= LocalCount(chain, None, hits));
    }
  }

  /** In any run that keeps the definition the incidents of such a chain and an untracked key are a sum over
      the stretches between expiries: for each stretch the most consecutive complete attacks. */
  lemma IncidentsAreMostAttacks(es: EngineState, j: nat, p: nat, k: string, ops: seq<Op>) returns (counts: seq<nat>)
    requires DistinctIds(es.defs) && j < |es.defs| && k != UNKNOWN && KeepsDefinition(es.defs[j], ops)
    requires WellFormed(es.defs[j]) && Mixed(es.defs[j], p) && Countable(es.defs[j], p, {}) && (es.defs[j].id, k) !in es.chains
    ensures var chain := es.defs[j];
            var stretches := Stretches(chain, [], EventsFor(chain, k, ops));
      && CountFor(chain, k, Run(es, ops).1) == Sum(counts) && |counts| == |stretches|
      && forall i, m: nat | 0 <= i < |stretches| :: Pieces(chain, p, Rules(stretches[i]), m) <==> m <= counts[i]
  {
    var chain := es.defs[j];
    var stretches := Stretches(chain, [], EventsFor(chain, k, ops));
    IncidentsAddUp(es, j, k, ops);
    counts := CountsOf(chain, stretches);
    forall i, m: nat | 0 <= i < |stretches|
      ensures Pieces(chain, p, Rules(stretches[i]), m) <==> m <= counts[i]
    {
      CompletionsAreMostAttacks(chain, p, stretches[i], m);
    }
  }

  // ----- a rule shared by an ordered and another stage -----

  const SHARING := AttackChain("chain", true, SourceIp, 3600, [
    ChainStage("a", Ordered, ["y"], 0), ChainStage("b", Ordered, ["x", "w"], 0),
    ChainStage("c", Unordered, ["x"], 0), ChainStage("d", Unordered, ["z"], 0)], 0)

  lemma SharingOwners()
    ensures WellFormed(SHARING) && Mixed(SHARING, 2) && |SHARING.stages| == 4
    ensures Owner(SHARING, "x", 2) == 2 && Owner(SHARING, "z", 2) == 3
    ensures Owner(SHARING, "y", 2) == 4 && Owner(SHARING, "w", 2) == 4
    ensures forall cur: nat | cur <= 2 :: Due(SHARING, 2, cur, "y") <==> cur == 0
    ensures forall cur: nat | cur <= 2 :: Due(SHARING, 2, cur, "x") <==> cur == 1
    ensures forall cur: nat | cur <= 2 :: Due(SHARING, 2, cur, "w") <==> cur == 1
    ensures forall cur: nat | cur <= 2 :: !Due(SHARING, 2, cur, "z")
  {
    var stages := SHARING.stages;
    assert stages[0].ruleIds == ["y"] && stages[1].ruleIds == ["x", "w"] && stages[2].ruleIds == ["x"] && stages[3].ruleIds == ["z"];
  }

  /** The step from one suffix of the stream to the next. */
  lemma SharingStep(cur: nat, have: set<nat>, rule: string, rest: seq<string>, cur': nat, more: set<nat>)
    requires cur <= 2 && rule in {"x", "y", "w", "z"}
    requires if Due(SHARING, 2, cur, rule) then cur' == cur + 1 && more == have
             else cur' == cur && more == With(SHARING, have, Owner(SHARING, rule, 2))
    requires !Due(SHARING, 2, cur, rule) ==> !Closing(SHARING, 2, cur, have, rule)
    ensures CutsFrom(SHARING, 2, cur, have, [rule] + rest) == CutsFrom(SHARING, 2, cur', more, rest)
  {
    assert ([rule] + rest)[1..] == rest;
    CutsStep(SHARING, 2, cur, have, [rule] + rest);
    hide *;
  }

  const COMPLETE := ["x"] + (["y"] + (["w"] + (["z"] + [])))

  lemma CompleteIsOne()
    ensures CutsFrom(SHARING, 2, 0, {}, COMPLETE) == 1
  {
    SharingOwners();
    assert SHARING.stages[2].stageType.Unordered? && SHARING.stages[3].stageType.Unordered?;
    assert Closing(SHARING, 2, 2, {2}, "z");
    assert (["z"] + [])[1..] == [];
    CutsStep(SHARING, 2, 2, {2}, ["z"] + []);
    hide Owner, Due, CutsFrom;
    SharingStep(0, {}, "x", ["y"] + (["w"] + (["z"] + [])), 0, {2});
    SharingStep(0, {2}, "y", ["w"] + (["z"] + []), 1, {2});
    SharingStep(1, {2}, "w", ["z"] + [], 2, {2});
    assert CutsFrom(SHARING, 2, 0, {}, []) == 0;
  }

  lemma WithOneMoreIsNone()
    ensures CutsFrom(SHARING, 2, 0, {}, ["y"] + COMPLETE) == 0
  {
    SharingOwners();
    assert SHARING.stages[2].stageType.Unordered?;
    assert !Closing(SHARING, 2, 2, {}, "z");
    hide Owner, Due, CutsFrom;
    SharingStep(0, {}, "y", COMPLETE, 1, {});
    SharingStep(1, {}, "x", ["y"] + (["w"] + (["z"] + [])), 2, {});
    SharingStep(2, {}, "y", ["w"] + (["z"] + []), 2, {});
    SharingStep(2, {}, "w", ["z"] + [], 2, {});
    SharingStep(2, {}, "z", [], 2, {3});
    assert CutsFrom(SHARING, 2, 2, {3}, []) == 0;
  }

  lemma SharingIsContended()
    ensures |SHARING.stages| == 4 && !Countable(SHARING, 2, {})
  {
    SharingOwners();
    assert "x" in SHARING.stages[1].ruleIds && SHARING.stages[2].stageType.Unordered?;
    assert Contended(SHARING, 2, 1, "x", 2, 3);
    forall u: nat | IsUnordered(SHARING, 2, u) ensures Owned(SHARING, 2, u) {
      assert u == 2 || u == 3;
    }
  }

  /** With a shared rule cutting early is not optimal: a stream that completes the chain does not complete
      it with one more hit in front. */
  lemma EarlierHitPreventsCompletion(event: Value, now: real) returns (hits: seq<LocalHit>, extra: LocalHit)
    ensures WellFormed(SHARING) && Mixed(SHARING, 2) && !Countable(SHARING, 2, {})
    ensures LocalCount(SHARING, None, hits) == 1 && LocalCount(SHARING, None, [extra] + hits) == 0
  {
    SharingOwners();
    SharingIsContended();
    hits := [LocalHit("x", event, now), LocalHit("y", event, now), LocalHit("w", event, now), LocalHit("z", event, now)];
    extra := LocalHit("y", event, now);
    assert Rules(hits) == COMPLETE && Rules([extra] + hits) == ["y"] + COMPLETE;
    MatcherCuts(SHARING, 2, None, hits);
    MatcherCuts(SHARING, 2, None, [extra] + hits);
    NothingTracked(SHARING, 2);
    CompleteIsOne();
    WithOneMoreIsNone();
  }
}
