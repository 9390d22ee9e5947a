/**
 The proxy's guardrail set: built all or nothing from its configuration, and evaluated in declaration order.
 */
module Guardrails {
  import opened Wrappers

  datatype Stage = Input | Output | OutputChunk

  datatype Action = Block(code: nat, text: string) | Replace(payload: string)

  datatype Entry =
    | Regex(name: string, pattern: string, stages: seq<Stage>, action: Action)
    | Cel(name: string, expression: string, stages: seq<Stage>, action: Action, failOpen: bool)
    | LengthCap(name: string, maxChars: nat, stages: seq<Stage>)
    | PromptInjection(name: string)

  // Which patterns and expressions compile, and whether the CEL engine was built in.
  datatype Engines = Engines(regexCompiles: string -> bool, celCompiles: string -> bool, hasCel: bool)

  // A guardrail remembers the entry it was built from and the stages it runs at.
  datatype Guardrail = Guardrail(entry: Entry, stages: seq<Stage>)

  datatype BuildError =
    | BlankName
    | DuplicateName(name: string)
    | EmptyStages(name: string)
    | InvalidRegex(name: string)
    | InvalidCel(name: string)
    | CelMissing(name: string)
    | NoneRegistered

  const INJECTION_STAGES: seq<Stage> := [Input]

  /// Building one

  function StagesOf(name: string, stages: seq<Stage>): Result<seq<Stage>, BuildError> {
    if stages == [] then Err(EmptyStages(name)) else Ok(stages)
  }

  function BuildOne(engines: Engines, entry: Entry): Result<Guardrail, BuildError> {
    match entry
    case Regex(name, pattern, stages, _) =>
      if !engines.regexCompiles(pattern) then Err(InvalidRegex(name)) else
      var mapped := StagesOf(name, stages);
      if mapped.Err? then Err(mapped.error) else Ok(Guardrail(entry, mapped.value))
    case LengthCap(name, _, stages) =>
      var mapped := StagesOf(name, stages);
      if mapped.Err? then Err(mapped.error) else Ok(Guardrail(entry, mapped.value))
    case PromptInjection(_) => Ok(Guardrail(entry, INJECTION_STAGES))
    case Cel(name, expression, stages, _, _) =>
      if !engines.hasCel then Err(CelMissing(name)) else
      var mapped := StagesOf(name, stages);
      if mapped.Err? then Err(mapped.error)
      else if !engines.celCompiles(expression) then Err(InvalidCel(name))
      else Ok(Guardrail(entry, mapped.value))
  }

  /// Building all

  predicate Whitespace(c: char) {
    || '\t' <= c <= '\r' || c == ' ' || c == '\U{85}' || c == '\U{a0}' || c == '\U{1680}'
    || '\U{2000}' <= c <= '\U{200a}' || c == '\U{2028}' || c == '\U{2029}' || c == '\U{202f}' || c == '\U{205f}'
    || c == '\U{3000}'
  }

  predicate IsBlank(name: string) {
    forall k :: 0 <= k < |name| ==> Whitespace(name[k])
  }

  // What is wrong with entry `i`, if anything.
  function EntryError(engines: Engines, entries: seq<Entry>, i: nat): Option<BuildError>
    requires i < |entries|
  {
    var name := entries[i].name;
    if IsBlank(name) then Some(BlankName)
    else if exists j :: 0 <= j < i && entries[j].name == name then Some(DuplicateName(name))
    else
      match entries[i]
      case Regex(_, pattern, stages, _) =>
        if !engines.regexCompiles(pattern) then Some(InvalidRegex(name))
        else if stages == [] then Some(EmptyStages(name)) else None
      case Cel(_, expression, stages, _, _) =>
        if !engines.hasCel then Some(CelMissing(name))
        else if stages == [] then Some(EmptyStages(name))
        else if !engines.celCompiles(expression) then Some(InvalidCel(name)) else None
      case LengthCap(_, _, stages) => if stages == [] then Some(EmptyStages(name)) else None
      case PromptInjection(_) => None
  }

  // The configured stages, or those of the heuristic.
  function ConfiguredStages(entry: Entry): seq<Stage> {
    if entry.PromptInjection? then [Input] else entry.stages
  }

  ghost predicate FirstError(engines: Engines, entries: seq<Entry>, error: BuildError) {
    exists i :: 0 <= i < |entries| && EntryError(engines, entries, i) == Some(error)
      && forall j :: 0 <= j < i ==> EntryError(engines, entries, j).None?
  }

  // All entries or none: guardrail `i` comes from entry `i` with its stages, or the first bad entry is reported.
  method BuildRegistry(engines: Engines, entries: seq<Entry>) returns (r: Result<seq<Guardrail>, BuildError>)
    ensures r.Ok? <==> forall i :: 0 <= i < |entries| ==> EntryError(engines, entries, i).None?
    ensures r.Ok? ==> |r.value| == |entries|
    ensures r.Ok? ==>
      forall i :: 0 <= i < |entries| ==>
        r.value[i] == Guardrail(entries[i], ConfiguredStages(entries[i])) && r.value[i].stages != []
    ensures r.Err? ==> FirstError(engines, entries, r.error) && r.error != NoneRegistered
  {
    var registry: seq<Guardrail> := [];
    var seen: set<string> := {};
    for i := 0 to |entries|
      invariant |registry| == i
      invariant seen == set j | 0 <= j < i :: entries[j].name
      invariant forall j :: 0 <= j < i ==> EntryError(engines, entries, j).None?
      invariant forall j :: 0 <= j < i ==> registry[j] == Guardrail(entries[j], ConfiguredStages(entries[j]))
      invariant forall j :: 0 <= j < i ==> registry[j].stages != []
    {
      var name := entries[i].name;
      if IsBlank(name) {
        assert EntryError(engines, entries, i) == Some(BlankName);
        return Err(BlankName);
      }
      if name in seen {
        assert EntryError(engines, entries, i) == Some(DuplicateName(name));
        return Err(DuplicateName(name));
      }
      seen := seen + {name};
      var built := BuildOne(engines, entries[i]);
      if built.Err? {
        assert EntryError(engines, entries, i) == Some(built.error);
        return Err(built.error);
      }
      registry := registry + [built.value];
    }
    if entries != [] && registry == [] {
      assert false;
      return Err(NoneRegistered);
    }
    return Ok(registry);
  }

  /// Running a stage

  datatype Decision<P> = Allow | Blocked(reason: string, code: nat) | Mutate(payload: P)

  // The guardrails that are asked at a stage, in order.
  function AskedFrom(registry: seq<Guardrail>, stage: Stage, i: nat): seq<Guardrail>
    decreases |registry| - i
  {
    if i >= |registry| then []
    else (if stage in registry[i].stages then [registry[i]] else []) + AskedFrom(registry, stage, i + 1)
  }

  function Asked(registry: seq<Guardrail>, stage: Stage): seq<Guardrail> {
    AskedFrom(registry, stage, 0)
  }

  // Entry `i` of the registry is asked at the stage, and blocks or rewrites.
  predicate BlocksAt<C, P>(registry: seq<Guardrail>, check: (Guardrail, Stage, C) -> Decision<P>, stage: Stage,
                           context: C, i: nat) {
    i < |registry| && stage in registry[i].stages && check(registry[i], stage, context).Blocked?
  }

  predicate RewritesAt<C, P>(registry: seq<Guardrail>, check: (Guardrail, Stage, C) -> Decision<P>, stage: Stage,
                             context: C, i: nat) {
    i < |registry| && stage in registry[i].stages && check(registry[i], stage, context).Mutate?
  }

  ghost predicate FirstToBlock<C, P>(registry: seq<Guardrail>, check: (Guardrail, Stage, C) -> Decision<P>,
                                     stage: Stage, context: C, i: nat) {
    && BlocksAt(registry, check, stage, context, i)
    && forall j: nat :: j < i ==> !BlocksAt(registry, check, stage, context, j)
  }

  ghost predicate LastToRewrite<C, P>(registry: seq<Guardrail>, check: (Guardrail, Stage, C) -> Decision<P>,
                                      stage: Stage, context: C, i: nat) {
    && RewritesAt(registry, check, stage, context, i)
    && forall j: nat :: j > i ==> !RewritesAt(registry, check, stage, context, j)
  }

  // The first guardrail configured for the stage that blocks decides. If none does, the last one that rewrites
  // does, and if none does that either, the request is allowed.
  ghost predicate DecidedByRegistry<C, P>(registry: seq<Guardrail>, check: (Guardrail, Stage, C) -> Decision<P>,
                                          stage: Stage, context: C, decision: Decision<P>) {
    && (forall i: nat :: FirstToBlock(registry, check, stage, context, i) ==>
          decision == check(registry[i], stage, context))
    && ((forall i: nat :: !BlocksAt(registry, check, stage, context, i)) ==>
          && (forall i: nat :: LastToRewrite(registry, check, stage, context, i) ==>
                decision == check(registry[i], stage, context))
          && ((forall i: nat :: !RewritesAt(registry, check, stage, context, i)) ==> decision == Allow))
  }

  method RunStage<C, P>(registry: seq<Guardrail>, check: (Guardrail, Stage, C) -> Decision<P>, stage: Stage, context: C)
    returns (decision: Decision<P>)
    ensures decision == Decide(check, stage, context, Asked(registry, stage))
    ensures DecidedByRegistry(registry, check, stage, context, decision)
  {
    RegistryDecides(registry, check, stage, context);
    var lastMutation: Option<Decision<P>> := None;
    var i := 0;
    while i < |registry|
      invariant i <= |registry|
      invariant Verdict(check, stage, context, Asked(registry, stage), None)
             == Verdict(check, stage, context, AskedFrom(registry, stage, i), lastMutation)
    {
      ghost var rest := AskedFrom(registry, stage, i + 1);
      if stage in registry[i].stages {
        assert AskedFrom(registry, stage, i) == [registry[i]] + rest;
        assert ([registry[i]] + rest)[1..] == rest;
        decision := check(registry[i], stage, context);
        if decision.Blocked? {
          return;
        }
        if decision.Mutate? {
          lastMutation := Some(decision);
        }
      } else {
        assert [] + rest == rest;
      }
      i := i + 1;
    }
    return if lastMutation.Some? then lastMutation.value else Allow;
  }

  // The loop over the guardrails asked, with the last mutation seen so far.
  function Verdict<C, P>(check: (Guardrail, Stage, C) -> Decision<P>, stage: Stage, context: C,
                         asked: seq<Guardrail>, last: Option<Decision<P>>): Decision<P> {
    if asked == [] then if last.Some? then last.value else Allow
    else
      var decision := check(asked[0], stage, context);
      if decision.Blocked? then decision
      else Verdict(check, stage, context, asked[1..], if decision.Mutate? then Some(decision) else last)
  }

  function Decide<C, P>(check: (Guardrail, Stage, C) -> Decision<P>, stage: Stage, context: C,
                        asked: seq<Guardrail>): Decision<P> {
    Verdict(check, stage, context, asked, None)
  }

  ghost predicate NoneBlocks<C, P>(check: (Guardrail, Stage, C) -> Decision<P>, stage: Stage, context: C,
                                   asked: seq<Guardrail>) {
    forall k :: 0 <= k < |asked| ==> !check(asked[k], stage, context).Blocked?
  }

  lemma {:induction false} FirstBlockWins<C, P>(check: (Guardrail, Stage, C) -> Decision<P>, stage: Stage, context: C,
                                                asked: seq<Guardrail>, last: Option<Decision<P>>, k: nat)
    requires k < |asked| && check(asked[k], stage, context).Blocked?
    requires forall j :: 0 <= j < k ==> !check(asked[j], stage, context).Blocked?
    ensures Verdict(check, stage, context, asked, last) == check(asked[k], stage, context)
  {
    if k > 0 {
      var decision := check(asked[0], stage, context);
      FirstBlockWins(check, stage, context, asked[1..], if decision.Mutate? then Some(decision) else last, k - 1);
    }
  }

  // Every guardrail is asked about the original payload, and only the last rewriting of it survives: what an
  // earlier guardrail took out is back.
  lemma {:induction false} LastMutationWins<C, P>(check: (Guardrail, Stage, C) -> Decision<P>, stage: Stage, context: C,
                                                  asked: seq<Guardrail>, last: Option<Decision<P>>, k: nat)
    requires NoneBlocks(check, stage, context, asked)
    requires k < |asked| && check(asked[k], stage, context).Mutate?
    requires forall j :: k < j < |asked| ==> check(asked[j], stage, context).Allow?
    ensures Verdict(check, stage, context, asked, last) == check(asked[k], stage, context)
  {
    var decision := check(asked[0], stage, context);
    var next := if decision.Mutate? then Some(decision) else last;
    forall j | 0 <= j < |asked| - 1 ensures asked[1..][j] == asked[j + 1] {
    }
    if k > 0 {
      LastMutationWins(check, stage, context, asked[1..], next, k - 1);
    } else {
      AllAllow(check, stage, context, asked[1..], next);
    }
  }

  lemma {:induction false} AllAllow<C, P>(check: (Guardrail, Stage, C) -> Decision<P>, stage: Stage, context: C,
                                          asked: seq<Guardrail>, last: Option<Decision<P>>)
    requires forall j :: 0 <= j < |asked| ==> check(asked[j], stage, context).Allow?
    ensures Verdict(check, stage, context, asked, last) == if last.Some? then last.value else Allow
  {
    if asked != [] {
      AllAllow(check, stage, context, asked[1..], last);
    }
  }

  // Guardrail `k` of those asked is entry `places[k]` of the registry.
  ghost predicate AskedAt(registry: seq<Guardrail>, stage: Stage, from: nat, asked: seq<Guardrail>, places: seq<nat>) {
    && |places| == |asked|
    && (forall j, k :: 0 <= j < k < |places| ==> places[j] < places[k])
    && (forall k :: 0 <= k < |places| ==>
          from <= places[k] < |registry| && asked[k] == registry[places[k]] && stage in asked[k].stages)
    && (forall i :: from <= i < |registry| && stage in registry[i].stages ==> i in places)
  }

  lemma {:induction false} AskedInOrder(registry: seq<Guardrail>, stage: Stage, from: nat) returns (places: seq<nat>)
    requires from <= |registry|
    ensures AskedAt(registry, stage, from, AskedFrom(registry, stage, from), places)
    decreases |registry| - from
  {
    if from == |registry| {
      places := [];
    } else {
      hide AskedAt;
      var asked := AskedFrom(registry, stage, from + 1);
      places := AskedInOrder(registry, stage, from + 1);
      assert [] + asked == asked;
      if stage in registry[from].stages {
        AskedFirst(registry, stage, from, asked, places);
        places := [from] + places;
      } else {
        NotAsked(registry, stage, from, asked, places);
      }
    }
  }

  lemma NotAsked(registry: seq<Guardrail>, stage: Stage, from: nat, asked: seq<Guardrail>, places: seq<nat>)
    requires from < |registry| && stage !in registry[from].stages
    requires AskedAt(registry, stage, from + 1, asked, places)
    ensures AskedAt(registry, stage, from, asked, places)
  {
  }

  lemma AskedFirst(registry: seq<Guardrail>, stage: Stage, from: nat, asked: seq<Guardrail>, places: seq<nat>)
    requires from < |registry| && stage in registry[from].stages
    requires AskedAt(registry, stage, from + 1, asked, places)
    ensures AskedAt(registry, stage, from, [registry[from]] + asked, [from] + places)
  {
    var all := [from] + places;
    assert all[0] == from;
    forall i | from < i < |registry| && stage in registry[i].stages ensures i in all {
      var k :| 0 <= k < |places| && places[k] == i;
      assert all[k + 1] == i;
    }
  }

  lemma RegistryDecides<C, P>(registry: seq<Guardrail>, check: (Guardrail, Stage, C) -> Decision<P>, stage: Stage,
                              context: C)
    ensures DecidedByRegistry(registry, check, stage, context, Decide(check, stage, context, Asked(registry, stage)))
  {
    hide Verdict, AskedFrom, BlocksAt, RewritesAt, AskedAt, FirstToBlock, LastToRewrite;
    var asked := Asked(registry, stage);
    var places := AskedInOrder(registry, stage, 0);
    var decision := Decide(check, stage, context, asked);
    forall i: nat | FirstToBlock(registry, check, stage, context, i)
      ensures i < |registry| && decision == check(registry[i], stage, context)
    {
      BlockDecides(registry, check, stage, context, asked, places, i);
    }
    if forall i: nat :: !BlocksAt(registry, check, stage, context, i) {
      NoBlock(registry, check, stage, context, asked, places);
      forall i: nat | LastToRewrite(registry, check, stage, context, i)
        ensures i < |registry| && decision == check(registry[i], stage, context)
      {
        RewriteDecides(registry, check, stage, context, asked, places, i);
      }
      if forall i: nat :: !RewritesAt(registry, check, stage, context, i) {
        NobodyDecides(registry, check, stage, context, asked, places);
      }
    }
  }

  lemma BlockDecides<C, P>(registry: seq<Guardrail>, check: (Guardrail, Stage, C) -> Decision<P>, stage: Stage,
                           context: C, asked: seq<Guardrail>, places: seq<nat>, i: nat)
    requires AskedAt(registry, stage, 0, asked, places) && FirstToBlock(registry, check, stage, context, i)
    ensures i < |registry| && Decide(check, stage, context, asked) == check(registry[i], stage, context)
  {
    var k :| 0 <= k < |places| && places[k] == i;
    forall j | 0 <= j < k ensures !check(asked[j], stage, context).Blocked? {
      assert !BlocksAt(registry, check, stage, context, places[j]);
    }
    FirstBlockWins(check, stage, context, asked, None, k);
  }

  lemma NoBlock<C, P>(registry: seq<Guardrail>, check: (Guardrail, Stage, C) -> Decision<P>, stage: Stage,
                      context: C, asked: seq<Guardrail>, places: seq<nat>)
    requires AskedAt(registry, stage, 0, asked, places)
    requires forall i: nat :: !BlocksAt(registry, check, stage, context, i)
    ensures NoneBlocks(check, stage, context, asked)
  {
    forall k | 0 <= k < |asked| ensures !check(asked[k], stage, context).Blocked? {
      assert !BlocksAt(registry, check, stage, context, places[k]);
    }
  }

  lemma RewriteDecides<C, P>(registry: seq<Guardrail>, check: (Guardrail, Stage, C) -> Decision<P>, stage: Stage,
                             context: C, asked: seq<Guardrail>, places: seq<nat>, i: nat)
    requires AskedAt(registry, stage, 0, asked, places) && LastToRewrite(registry, check, stage, context, i)
    requires NoneBlocks(check, stage, context, asked)
    ensures i < |registry| && Decide(check, stage, context, asked) == check(registry[i], stage, context)
  {
    var k :| 0 <= k < |places| && places[k] == i;
    forall j | k < j < |asked| ensures check(asked[j], stage, context).Allow? {
      assert !RewritesAt(registry, check, stage, context, places[j]);
    }
    LastMutationWins(check, stage, context, asked, None, k);
  }

  lemma NobodyDecides<C, P>(registry: seq<Guardrail>, check: (Guardrail, Stage, C) -> Decision<P>, stage: Stage,
                            context: C, asked: seq<Guardrail>, places: seq<nat>)
    requires AskedAt(registry, stage, 0, asked, places) && NoneBlocks(check, stage, context, asked)
    requires forall i: nat :: !RewritesAt(registry, check, stage, context, i)
    ensures Decide(check, stage, context, asked) == Allow
  {
    forall j | 0 <= j < |asked| ensures check(asked[j], stage, context).Allow? {
      assert !RewritesAt(registry, check, stage, context, places[j]);
    }
    AllAllow(check, stage, context, asked, None);
  }

  /// Rewriting the context

  // The evaluation the registry's documentation describes: `rewrite` puts a new payload into the context, and
  // the guardrails behind are asked about that.
  function Chained<C, P>(check: (Guardrail, Stage, C) -> Decision<P>, rewrite: (C, P) -> C, stage: Stage, context: C,
                         asked: seq<Guardrail>, last: Option<Decision<P>>): Decision<P> {
    if asked == [] then if last.Some? then last.value else Allow
    else
      var decision := check(asked[0], stage, context);
      if decision.Blocked? then decision
      else if decision.Mutate? then
        Chained(check, rewrite, stage, rewrite(context, decision.payload), asked[1..], Some(decision))
      else Chained(check, rewrite, stage, context, asked[1..], last)
  }

  // A guardrail that rewrites, with none before it that rewrites or blocks, is not the last one asked.
  ghost predicate RewritesForOthers<C, P>(check: (Guardrail, Stage, C) -> Decision<P>, stage: Stage, context: C,
                                          asked: seq<Guardrail>) {
    exists k :: 0 <= k < |asked| - 1 && check(asked[k], stage, context).Mutate?
             && forall j :: 0 <= j < k ==> check(asked[j], stage, context).Allow?
  }

  // Guardrails that decide about `context` alike; about other contexts they may differ.
  ghost predicate AlikeAbout<C, P>(check: (Guardrail, Stage, C) -> Decision<P>,
                                   check': (Guardrail, Stage, C) -> Decision<P>,
                                   stage: Stage, context: C)
  {
    forall g :: check'(g, stage, context) == check(g, stage, context)
  }

  // The code and the documentation decide alike whatever the guardrails say about rewritten contexts.
  ghost predicate ReadingsAgree<C(!new), P(!new)>(check: (Guardrail, Stage, C) -> Decision<P>, stage: Stage, context: C,
                                                  asked: seq<Guardrail>) {
    forall check': (Guardrail, Stage, C) -> Decision<P>, rewrite: (C, P) -> C ::
      AlikeAbout(check, check', stage, context) ==>
        Chained(check', rewrite, stage, context, asked, None) == Decide(check', stage, context, asked)
  }

  // They do exactly when no guardrail rewrites the context for another one.
  lemma ReadingsAgreeUnlessOneRewritesForOthers<C(!new), P(!new)>(
      check: (Guardrail, Stage, C) -> Decision<P>, stage: Stage, context: C, other: C, asked: seq<Guardrail>)
    requires other != context
    ensures ReadingsAgree(check, stage, context, asked) <==> !RewritesForOthers(check, stage, context, asked)
  {
    if RewritesForOthers(check, stage, context, asked) {
      var reason := Unlike(Decide(check, stage, context, asked));
      var check', rewrite := Objecting(check, stage, context, reason), (c: C, p: P) => other;
      ObjectionIsHeard(check, rewrite, stage, context, other, reason, asked, None);
      VerdictIsAlike(check, check', stage, context, asked, None);
      UnlikeDiffers(Decide(check, stage, context, asked));
      assert Chained(check', rewrite, stage, context, asked, None) != Decide(check', stage, context, asked);
      assert AlikeAbout(check, check', stage, context);
    } else {
      forall check': (Guardrail, Stage, C) -> Decision<P>, rewrite: (C, P) -> C
        | AlikeAbout(check, check', stage, context)
        ensures Chained(check', rewrite, stage, context, asked, None) == Decide(check', stage, context, asked)
      {
        ReadingsAgreeFrom(check', rewrite, stage, context, asked, None);
      }
    }
  }

  lemma {:induction false} ReadingsAgreeFrom<C, P>(check: (Guardrail, Stage, C) -> Decision<P>, rewrite: (C, P) -> C,
                                                   stage: Stage, context: C, asked: seq<Guardrail>,
                                                   last: Option<Decision<P>>)
    requires !RewritesForOthers(check, stage, context, asked)
    ensures Chained(check, rewrite, stage, context, asked, last) == Verdict(check, stage, context, asked, last)
  {
    if asked != [] && check(asked[0], stage, context).Allow? {
      if RewritesForOthers(check, stage, context, asked[1..]) {
        RewritesBehind(check, stage, context, asked);
      }
      ReadingsAgreeFrom(check, rewrite, stage, context, asked[1..], last);
    }
  }

  lemma RewritesBehind<C, P>(check: (Guardrail, Stage, C) -> Decision<P>, stage: Stage, context: C,
                             asked: seq<Guardrail>)
    requires asked != [] && !check(asked[0], stage, context).Mutate?
    ensures RewritesForOthers(check, stage, context, asked)
       <==> check(asked[0], stage, context).Allow? && RewritesForOthers(check, stage, context, asked[1..])
  {
    if RewritesForOthers(check, stage, context, asked) {
      var k :| 0 <= k < |asked| - 1 && check(asked[k], stage, context).Mutate?
            && forall j :: 0 <= j < k ==> check(asked[j], stage, context).Allow?;
      assert asked[1..][k - 1] == asked[k];
    }
    if check(asked[0], stage, context).Allow? && RewritesForOthers(check, stage, context, asked[1..]) {
      var k :| 0 <= k < |asked[1..]| - 1 && check(asked[1..][k], stage, context).Mutate?
            && forall j :: 0 <= j < k ==> check(asked[1..][j], stage, context).Allow?;
      assert asked[k + 1] == asked[1..][k];
      forall j | 0 <= j < k + 1 ensures check(asked[j], stage, context).Allow? {
        assert j > 0 ==> asked[j] == asked[1..][j - 1];
      }
    }
  }

  // A reason to block that `decision` does not give.
  function Unlike<P>(decision: Decision<P>): string {
    if decision.Blocked? then decision.reason + "!" else ""
  }

  lemma UnlikeDiffers<P>(decision: Decision<P>)
    ensures decision != Blocked(Unlike(decision), 0)
  {
    if decision.Blocked? {
      assert |decision.reason + "!"| != |decision.reason|;
    }
  }

  // Guardrails that block whatever is not `context`.
  ghost function Objecting<C, P>(check: (Guardrail, Stage, C) -> Decision<P>, stage: Stage, context: C, reason: string)
    : (Guardrail, Stage, C) -> Decision<P>
  {
    (g, s, c) => if s == stage && c != context then Blocked(reason, 0) else check(g, s, c)
  }

  lemma {:induction false} ObjectionIsHeard<C, P>(check: (Guardrail, Stage, C) -> Decision<P>, rewrite: (C, P) -> C,
                                                  stage: Stage, context: C, other: C, reason: string,
                                                  asked: seq<Guardrail>, last: Option<Decision<P>>)
    requires other != context && forall c, p :: rewrite(c, p) == other
    requires RewritesForOthers(check, stage, context, asked)
    ensures Chained(Objecting(check, stage, context, reason), rewrite, stage, context, asked, last)
        == Blocked(reason, 0)
  {
    if !check(asked[0], stage, context).Mutate? {
      RewritesBehind(check, stage, context, asked);
      ObjectionIsHeard(check, rewrite, stage, context, other, reason, asked[1..], last);
    } else {
      var check' := Objecting(check, stage, context, reason);
      var decision := check'(asked[0], stage, context);
      assert check'(asked[1..][0], stage, other) == Blocked(reason, 0);
      assert Chained(check', rewrite, stage, other, asked[1..], Some(decision)) == Blocked(reason, 0);
    }
  }

  lemma {:induction false} VerdictIsAlike<C, P>(check: (Guardrail, Stage, C) -> Decision<P>,
                                                check': (Guardrail, Stage, C) -> Decision<P>, stage: Stage, context: C,
                                                asked: seq<Guardrail>, last: Option<Decision<P>>)
    requires AlikeAbout(check, check', stage, context)
    ensures Verdict(check', stage, context, asked, last) == Verdict(check, stage, context, asked, last)
  {
    if asked != [] {
      var decision := check(asked[0], stage, context);
      VerdictIsAlike(check, check', stage, context, asked[1..], if decision.Mutate? then Some(decision) else last);
    }
  }

  // A redactor replaces its letter, if it is there.
  function Redact(g: Guardrail, stage: Stage, text: string): Decision<string> {
    if g.entry.Regex? && |g.entry.pattern| == 1 && g.entry.pattern[0] in text
    then Mutate(Masked(text, g.entry.pattern[0])) else Allow
  }

  function Masked(text: string, letter: char): string {
    seq(|text|, i requires 0 <= i < |text| => if text[i] == letter then '*' else text[i])
  }

  function Redactor(letter: char): Guardrail {
    Guardrail(Regex([letter], [letter], [Input], Replace("*")), [Input])
  }

  // Two redactors: the code lets the letter through that the first one took out, the documentation does not.
  lemma FirstRedactionIsLost()
    ensures var asked := [Redactor('a'), Redactor('b')];
            && Decide(Redact, Input, "ab", asked) == Mutate("a*")
            && Chained(Redact, (text: string, masked: string) => masked, Input, "ab", asked, None) == Mutate("**")
  {
    var asked := [Redactor('a'), Redactor('b')];
    assert asked[1..] == [Redactor('b')];
    assert Masked("ab", 'a') == "*b" && Masked("ab", 'b') == "a*" && Masked("*b", 'b') == "**";
  }
}
