/**
 The middleware around one model: which layers are put around the service, in which order, and what a
 request that a guardrail stops leaves behind.
 */
module ServiceStack {
  import Guardrails

  datatype Layer =
    | Cache | HealthCheck | Cooldown | ModelRateLimit | KeyLimit | BudgetLedger | CostTracking | Budget
    | Guardrail | Tracing | Hooks

  // Which parts of the configuration are there.
  datatype Config = Config(
    cache: bool,
    healthInterval: bool,
    cooldown: bool,
    rateLimit: bool,
    costTracking: bool,
    budget: bool,
    tracing: bool)

  // The layers that count, spend, or answer in place of the upstream service.
  predicate Protected(layer: Layer) {
    !layer.Guardrail? && !layer.Tracing? && !layer.Hooks?
  }

  predicate Outer(layer: Layer) {
    layer.Tracing? || layer.Hooks?
  }

  function Position(layer: Layer): (n: nat)
    ensures n < 11
  {
    match layer
    case Cache => 0
    case HealthCheck => 1
    case Cooldown => 2
    case ModelRateLimit => 3
    case KeyLimit => 4
    case BudgetLedger => 5
    case CostTracking => 6
    case Budget => 7
    case Guardrail => 8
    case Tracing => 9
    case Hooks => 10
  }

  // What the configuration asks for.
  predicate Wanted(config: Config, guarded: bool, usageSink: bool, layer: Layer) {
    match layer
    case Cache => config.cache
    case HealthCheck => config.healthInterval
    case Cooldown => config.cooldown
    case ModelRateLimit => config.rateLimit
    case KeyLimit => true
    case BudgetLedger => true
    case CostTracking => config.costTracking
    case Budget => config.budget
    case Guardrail => guarded
    case Tracing => config.tracing
    case Hooks => usageSink
  }

  ghost predicate InOrder(stack: seq<Layer>) {
    forall j, k :: 0 <= j < k < |stack| ==> Position(stack[j]) < Position(stack[k])
  }

  // The layers wanted at the `n` innermost positions.
  ghost predicate UpTo(stack: seq<Layer>, config: Config, guarded: bool, usageSink: bool, n: nat) {
    InOrder(stack)
    && forall layer :: layer in stack <==> Wanted(config, guarded, usageSink, layer) && Position(layer) < n
  }

  function When(wanted: bool, layer: Layer): seq<Layer> {
    if wanted then [layer] else []
  }

  // The first six layers, and all of them, innermost first.
  function InnerLayers(config: Config): seq<Layer> {
    When(config.cache, Cache) + When(config.healthInterval, HealthCheck) + When(config.cooldown, Cooldown)
    + When(config.rateLimit, ModelRateLimit) + [KeyLimit] + [BudgetLedger]
  }

  function Configured(config: Config, guarded: bool, usageSink: bool): seq<Layer> {
    InnerLayers(config) + When(config.costTracking, CostTracking) + When(config.budget, Budget)
    + When(guarded, Guardrail) + When(config.tracing, Tracing) + When(usageSink, Hooks)
  }

  lemma NextLayer(stack: seq<Layer>, config: Config, guarded: bool, usageSink: bool, layer: Layer, n: nat)
    requires UpTo(stack, config, guarded, usageSink, n) && Position(layer) == n
    ensures UpTo(stack + When(Wanted(config, guarded, usageSink, layer), layer), config, guarded, usageSink, n + 1)
  {
    hide Position, Wanted;
    if Wanted(config, guarded, usageSink, layer) {
      forall k | 0 <= k < |stack| ensures Position(stack[k]) < Position(layer) {
        assert stack[k] in stack;
      }
    } else {
      assert stack + [] == stack;
    }
    forall other | Position(other) == n ensures other == layer {
      SamePosition(other, layer);
    }
  }

  lemma SamePosition(a: Layer, b: Layer)
    requires Position(a) == Position(b)
    ensures a == b
  {
  }

  lemma InnerAreOrdered(config: Config, guarded: bool, usageSink: bool)
    ensures UpTo(InnerLayers(config), config, guarded, usageSink, 6)
  {
    hide UpTo, When;
    var stack: seq<Layer> := [];
    assert UpTo(stack, config, guarded, usageSink, 0) by { NoLayers(config, guarded, usageSink); }
    NextLayer(stack, config, guarded, usageSink, Cache, 0);
    stack := stack + When(config.cache, Cache);
    assert stack == When(config.cache, Cache);
    NextLayer(stack, config, guarded, usageSink, HealthCheck, 1);
    stack := stack + When(config.healthInterval, HealthCheck);
    NextLayer(stack, config, guarded, usageSink, Cooldown, 2);
    stack := stack + When(config.cooldown, Cooldown);
    NextLayer(stack, config, guarded, usageSink, ModelRateLimit, 3);
    stack := stack + When(config.rateLimit, ModelRateLimit);
    NextLayer(stack, config, guarded, usageSink, KeyLimit, 4);
    assert When(true, KeyLimit) == [KeyLimit] by { Always(KeyLimit); }
    stack := stack + [KeyLimit];
    NextLayer(stack, config, guarded, usageSink, BudgetLedger, 5);
    Always(BudgetLedger);
  }

  lemma Always(layer: Layer)
    ensures When(true, layer) == [layer]
  {
  }

  lemma NoLayers(config: Config, guarded: bool, usageSink: bool)
    ensures UpTo([], config, guarded, usageSink, 0)
  {
  }

  // The layers are in the documented order, and exactly those that the configuration asks for.
  lemma ConfiguredAreOrdered(config: Config, guarded: bool, usageSink: bool)
    ensures UpTo(Configured(config, guarded, usageSink), config, guarded, usageSink, 11)
  {
    hide UpTo, When, InnerLayers;
    InnerAreOrdered(config, guarded, usageSink);
    var stack := InnerLayers(config);
    NextLayer(stack, config, guarded, usageSink, CostTracking, 6);
    stack := stack + When(config.costTracking, CostTracking);
    NextLayer(stack, config, guarded, usageSink, Budget, 7);
    stack := stack + When(config.budget, Budget);
    NextLayer(stack, config, guarded, usageSink, Guardrail, 8);
    stack := stack + When(guarded, Guardrail);
    NextLayer(stack, config, guarded, usageSink, Tracing, 9);
    stack := stack + When(config.tracing, Tracing);
    NextLayer(stack, config, guarded, usageSink, Hooks, 10);
  }

  lemma Added(stack: seq<Layer>, wanted: bool, layer: Layer)
    ensures (if wanted then stack + [layer] else stack) == stack + When(wanted, layer)
  {
    assert stack + [] == stack;
  }

  // The layers around the service, innermost first.
  method BuildServiceStack(config: Config, guardrails: seq<Guardrails.Guardrail>, usageSink: bool)
    returns (stack: seq<Layer>)
    ensures stack == Configured(config, guardrails != [], usageSink)
    ensures InOrder(stack)
    ensures forall layer :: layer in stack <==> Wanted(config, guardrails != [], usageSink, layer)
  {
    hide UpTo, When, InOrder, Wanted;
    stack := [];
    ghost var guarded := guardrails != [];
    Added(stack, config.cache, Cache);
    if config.cache { stack := stack + [Cache]; }
    assert stack == When(config.cache, Cache);
    Added(stack, config.healthInterval, HealthCheck);
    if config.healthInterval { stack := stack + [HealthCheck]; }
    Added(stack, config.cooldown, Cooldown);
    if config.cooldown { stack := stack + [Cooldown]; }
    Added(stack, config.rateLimit, ModelRateLimit);
    if config.rateLimit { stack := stack + [ModelRateLimit]; }
    stack := stack + [KeyLimit];
    stack := stack + [BudgetLedger];
    assert stack == InnerLayers(config);
    Added(stack, config.costTracking, CostTracking);
    if config.costTracking { stack := stack + [CostTracking]; }
    Added(stack, config.budget, Budget);
    if config.budget { stack := stack + [Budget]; }
    Added(stack, guarded, Guardrail);
    if guardrails != [] { stack := stack + [Guardrail]; }
    Added(stack, config.tracing, Tracing);
    if config.tracing { stack := stack + [Tracing]; }
    Added(stack, usageSink, Hooks);
    if usageSink { stack := stack + [Hooks]; }
    ConfiguredAreOrdered(config, guarded, usageSink);
    AllLayers(stack, config, guarded, usageSink);
  }

  lemma AllLayers(stack: seq<Layer>, config: Config, guarded: bool, usageSink: bool)
    requires UpTo(stack, config, guarded, usageSink, 11)
    ensures InOrder(stack) && forall layer :: layer in stack <==> Wanted(config, guarded, usageSink, layer)
  {
  }

  /// Calls

  // A layer passes a request on, perhaps rewritten, or answers it itself.
  datatype Step<Q, P> = Forward(request: Q) | Answer(response: P)

  // Each layer sees what goes in and what comes out and has a state of its own, and so has the service. The
  // guardrails have no state: `gate` is their Input stage and `inspect` their Output stage.
  datatype Behaviour<!S, !Q, !P> = Behaviour(
    enter: (Layer, S, Q) -> (S, Step<Q, P>),
    leave: (Layer, S, Q, P) -> (S, P),
    gate: Q -> Step<Q, P>,
    inspect: (Q, P) -> P,
    serve: (S, Q) -> (S, P))

  const SERVICE: nat := 11
  const STATES: nat := 12

  // A request that arrives at the `n` innermost layers.
  function Call<S, Q, P>(b: Behaviour<S, Q, P>, stack: seq<Layer>, n: nat, st: seq<S>, request: Q): (r: (seq<S>, P))
    requires n <= |stack| && |st| == STATES
    ensures |r.0| == STATES
  {
    if n == 0 then
      var served := b.serve(st[SERVICE], request);
      (st[SERVICE := served.0], served.1)
    else if stack[n - 1].Guardrail? then
      match b.gate(request) {
        case Answer(response) => (st, response)
        case Forward(passed) =>
          var inner := Call(b, stack, n - 1, st, passed);
          (inner.0, b.inspect(passed, inner.1))
      }
    else
      var layer := stack[n - 1];
      var entered := b.enter(layer, st[Position(layer)], request);
      var st1 := st[Position(layer) := entered.0];
      match entered.1 {
        case Answer(response) => (st1, response)
        case Forward(passed) =>
          var inner := Call(b, stack, n - 1, st1, passed);
          var left := b.leave(layer, inner.0[Position(layer)], request, inner.1);
          (inner.0[Position(layer) := left.0], left.1)
      }
  }

  // Tracing and usage hooks record a request and pass it on as it is.
  ghost predicate Transparent<S(!new), Q(!new), P>(b: Behaviour<S, Q, P>) {
    forall layer, s, q :: Outer(layer) ==> b.enter(layer, s, q).1 == Forward(q)
  }

  // The same for every protected layer and for the service.
  ghost predicate Same<S>(st: seq<S>, st': seq<S>) {
    |st| == |st'| == STATES && forall k :: 0 <= k < STATES && !(8 <= k <= 10) ==> st[k] == st'[k]
  }

  lemma {:induction false} SameCall<S(!new), Q(!new), P>(b: Behaviour<S, Q, P>, stack: seq<Layer>, n: nat,
                                                         st: seq<S>, st': seq<S>, request: Q)
    requires n <= |stack| && Same(st, st') && InOrder(stack) && Guardrail in stack && Transparent(b)
    ensures Same(Call(b, stack, n, st, request).0, Call(b, stack, n, st', request).0)
    ensures (forall k :: 0 <= k < n ==> Protected(stack[k])) ==>
            Call(b, stack, n, st, request).1 == Call(b, stack, n, st', request).1
  {
    if n > 0 {
      var layer := stack[n - 1];
      if layer.Guardrail? {
        if b.gate(request).Forward? {
          SameCall(b, stack, n - 1, st, st', b.gate(request).request);
        }
      } else {
        var entered, entered' := b.enter(layer, st[Position(layer)], request),
          b.enter(layer, st'[Position(layer)], request);
        var st1, st1' := st[Position(layer) := entered.0], st'[Position(layer) := entered'.0];
        if entered.1.Forward? {
          if Outer(layer) {
            assert entered.1 == Forward(request) == entered'.1;
          } else {
            BelowIsProtected(stack, n);
          }
          SameCall(b, stack, n - 1, st1, st1', entered.1.request);
        }
      }
    }
  }

  // Below a protected layer there are protected layers only.
  lemma BelowIsProtected(stack: seq<Layer>, n: nat)
    requires 0 < n <= |stack| && InOrder(stack) && Protected(stack[n - 1])
    ensures forall k :: 0 <= k < n ==> Protected(stack[k])
  {
    forall k | 0 <= k < n ensures Protected(stack[k]) {
      assert Position(stack[k]) <= Position(stack[n - 1]);
    }
  }

  // Nobody answers this request or rewrites it on its way in.
  ghost predicate PassesOn<S(!new), Q, P>(b: Behaviour<S, Q, P>, request: Q) {
    b.gate(request) == Forward(request) && forall layer, s :: b.enter(layer, s, request).1 == Forward(request)
  }

  // The layer saw the request go in and, in the state this left, a response come out.
  ghost predicate Once<S, Q, P(!new)>(b: Behaviour<S, Q, P>, layer: Layer, before: S, after: S, request: Q) {
    exists p :: after == b.leave(layer, b.enter(layer, before, request).0, request, p).0
  }

  lemma OneLayer<S(!new), Q, P(!new)>(b: Behaviour<S, Q, P>, stack: seq<Layer>, n: nat, st: seq<S>, request: Q)
    requires 0 < n <= |stack| && |st| == STATES && PassesOn(b, request)
    ensures var layer := stack[n - 1];
            if layer.Guardrail? then Call(b, stack, n, st, request).0 == Call(b, stack, n - 1, st, request).0 else
            var entered := b.enter(layer, st[Position(layer)], request).0;
            var inner := Call(b, stack, n - 1, st[Position(layer) := entered], request);
            var left := b.leave(layer, inner.0[Position(layer)], request, inner.1).0;
            && Call(b, stack, n, st, request).0 == inner.0[Position(layer) := left]
            && (inner.0[Position(layer)] == entered ==> Once(b, layer, st[Position(layer)], left, request))
  {
    hide Position;
  }

  // Such a request gets to the service, once through every layer and past no other.
  lemma {:induction false} EachLayerOnce<S(!new), Q, P(!new)>(b: Behaviour<S, Q, P>, stack: seq<Layer>, n: nat,
                                                              st: seq<S>, request: Q)
    requires n <= |stack| && |st| == STATES && InOrder(stack) && PassesOn(b, request)
    ensures var after := Call(b, stack, n, st, request).0;
            && after[SERVICE] == b.serve(st[SERVICE], request).0
            && (forall k :: 0 <= k < n && !stack[k].Guardrail? ==>
                 Once(b, stack[k], st[Position(stack[k])], after[Position(stack[k])], request))
            && forall i :: 0 <= i < SERVICE && (forall k :: 0 <= k < n ==> Position(stack[k]) != i) ==>
                 after[i] == st[i]
  {
    hide Once, PassesOn, Position;
    if n > 0 {
      var layer := stack[n - 1];
      assert forall k :: 0 <= k < n - 1 ==> Position(stack[k]) < Position(layer);
      var st1 := if layer.Guardrail? then st
                 else st[Position(layer) := b.enter(layer, st[Position(layer)], request).0];
      OneLayer(b, stack, n, st, request);
      EachLayerOnce(b, stack, n - 1, st1, request);
    }
  }

  // A request the Input stage stops changes the state of the outer layers at most.
  lemma {:induction false} StoppedCall<S(!new), Q(!new), P>(b: Behaviour<S, Q, P>, stack: seq<Layer>, n: nat,
                                                            st: seq<S>, request: Q)
    requires n <= |stack| && |st| == STATES && InOrder(stack) && Guardrail in stack[..n] && Transparent(b)
    requires b.gate(request).Answer?
    ensures Same(Call(b, stack, n, st, request).0, st)
  {
    var layer := stack[n - 1];
    if !layer.Guardrail? {
      var g :| 0 <= g < n && stack[g] == Guardrail;
      assert g < n - 1 && Position(layer) > 8;
      assert stack[..n - 1][g] == Guardrail;
      var entered := b.enter(layer, st[Position(layer)], request);
      assert entered.1 == Forward(request);
      StoppedCall(b, stack, n - 1, st[Position(layer) := entered.0], request);
    }
  }

  /// The stacks of a pool

  // Every model has a stack of the same layers with states of its own; the limits and the budget ledger of the
  // keys are one state for all of them.
  datatype States<S> = States(own: map<string, seq<S>>, keyLimits: S, ledger: S)

  // The states one model's stack works on.
  function Seen<S>(st: States<S>, model: string): (seen: seq<S>)
    requires model in st.own && |st.own[model]| == STATES
    ensures |seen| == STATES
  {
    st.own[model][Position(KeyLimit) := st.keyLimits][Position(BudgetLedger) := st.ledger]
  }

  predicate WellFormed<S>(st: States<S>) {
    forall model :: model in st.own ==> |st.own[model]| == STATES
  }

  // A request for a model; a name that is not configured reaches no stack.
  function PoolCall<S, Q, P>(b: string -> Behaviour<S, Q, P>, stack: seq<Layer>, st: States<S>, model: string,
                             request: Q)
    : (r: States<S>)
    requires WellFormed(st)
    ensures WellFormed(r) && r.own.Keys == st.own.Keys
  {
    if model !in st.own then st else
    var next := Call(b(model), stack, |stack|, Seen(st, model), request).0;
    States(st.own[model := next], next[Position(KeyLimit)], next[Position(BudgetLedger)])
  }

  // One request after the other, for whatever models.
  function Run<S, Q, P>(b: string -> Behaviour<S, Q, P>, stack: seq<Layer>, st: States<S>, requests: seq<(string, Q)>)
    : (r: States<S>)
    requires WellFormed(st)
    ensures WellFormed(r)
    decreases |requests|
  {
    if requests == [] then st
    else Run(b, stack, PoolCall(b, stack, st, requests[0].0, requests[0].1), requests[1..])
  }

  // The requests that the Input stage lets through.
  function Passing<S, Q, P>(b: string -> Behaviour<S, Q, P>, requests: seq<(string, Q)>): seq<(string, Q)> {
    if requests == [] then []
    else (if b(requests[0].0).gate(requests[0].1).Forward? then [requests[0]] else []) + Passing(b, requests[1..])
  }

  // The same for every model's protected layers and its service, and for what the stacks share.
  ghost predicate SameStates<S>(st: States<S>, st': States<S>) {
    && WellFormed(st) && WellFormed(st') && st.own.Keys == st'.own.Keys
    && st.keyLimits == st'.keyLimits && st.ledger == st'.ledger
    && forall model :: model in st.own ==> Same(Seen(st, model), Seen(st', model))
  }

  ghost predicate AllTransparent<S(!new), Q(!new), P>(b: string -> Behaviour<S, Q, P>) {
    forall model :: Transparent(b(model))
  }

  lemma SameElsewhere<S>(st: States<S>, st': States<S>, model: string, next: seq<S>, next': seq<S>)
    requires SameStates(st, st') && Same(next, next')
    ensures var k, l := Position(KeyLimit), Position(BudgetLedger);
            SameStates(States(st.own[model := next], next[k], next[l]),
                       States(st'.own[model := next'], next'[k], next'[l]))
  {
    var k, l := Position(KeyLimit), Position(BudgetLedger);
    var after, after' := States(st.own[model := next], next[k], next[l]),
      States(st'.own[model := next'], next'[k], next'[l]);
    forall m | m in after.own ensures Same(Seen(after, m), Seen(after', m)) {
      if m != model {
        assert Same(Seen(st, m), Seen(st', m));
        forall i | 0 <= i < STATES && !(8 <= i <= 10) ensures Seen(after, m)[i] == Seen(after', m)[i] {
          assert Seen(st, m)[i] == Seen(st', m)[i];
        }
      }
    }
  }

  lemma SamePoolCall<S(!new), Q(!new), P>(b: string -> Behaviour<S, Q, P>, stack: seq<Layer>, st: States<S>,
                                          st': States<S>, model: string, request: Q)
    requires SameStates(st, st') && InOrder(stack) && Guardrail in stack && AllTransparent(b)
    ensures SameStates(PoolCall(b, stack, st, model, request), PoolCall(b, stack, st', model, request))
  {
    hide Call, Transparent, InOrder, Same;
    if model in st.own {
      SameCall(b(model), stack, |stack|, Seen(st, model), Seen(st', model), request);
      SameElsewhere(st, st', model, Call(b(model), stack, |stack|, Seen(st, model), request).0,
                    Call(b(model), stack, |stack|, Seen(st', model), request).0);
    }
  }

  lemma StoppedPoolCall<S(!new), Q(!new), P>(b: string -> Behaviour<S, Q, P>, stack: seq<Layer>, st: States<S>,
                                             st': States<S>, model: string, request: Q)
    requires SameStates(st, st') && InOrder(stack) && Guardrail in stack && AllTransparent(b)
    requires b(model).gate(request).Answer?
    ensures SameStates(PoolCall(b, stack, st, model, request), st')
  {
    hide Call, Transparent, InOrder;
    if model in st.own {
      assert stack[..|stack|] == stack;
      StoppedCall(b(model), stack, |stack|, Seen(st, model), request);
      SameElsewhere(st, st', model, Call(b(model), stack, |stack|, Seen(st, model), request).0, Seen(st', model));
      SeenAgain(st', model);
    }
  }

  // Writing a stack's states back as they were seen changes nothing that can be seen.
  lemma SeenAgain<S>(st: States<S>, model: string)
    requires WellFormed(st) && model in st.own
    ensures var seen := Seen(st, model);
            forall m :: m in st.own ==> Seen(st.(own := st.own[model := seen]), m) == Seen(st, m)
    ensures Seen(st, model)[Position(KeyLimit)] == st.keyLimits && Seen(st, model)[Position(BudgetLedger)] == st.ledger
  {
  }

  // Whatever the layers do, in all stacks together: leave out the requests a guardrail stops at its Input stage,
  // and cache, health, cooldown, limits, budgets, costs and the services end up in the same state.
  lemma {:induction false} StoppedRequestsLeaveNoTrace<S(!new), Q(!new), P>(
      b: string -> Behaviour<S, Q, P>, stack: seq<Layer>, st: States<S>, st': States<S>, requests: seq<(string, Q)>)
    requires InOrder(stack) && Guardrail in stack && AllTransparent(b) && SameStates(st, st')
    ensures SameStates(Run(b, stack, st, requests), Run(b, stack, st', Passing(b, requests)))
    decreases |requests|
  {
    hide PoolCall, AllTransparent, InOrder, SameStates;
    assert WellFormed(st) && WellFormed(st') by { SameAreWellFormed(st, st'); }
    if requests != [] {
      var (model, request) := requests[0];
      var rest := requests[1..];
      if b(model).gate(request).Forward? {
        SamePoolCall(b, stack, st, st', model, request);
        StoppedRequestsLeaveNoTrace(b, stack, PoolCall(b, stack, st, model, request),
                                    PoolCall(b, stack, st', model, request), rest);
        assert ([requests[0]] + Passing(b, rest))[1..] == Passing(b, rest);
      } else {
        StoppedPoolCall(b, stack, st, st', model, request);
        StoppedRequestsLeaveNoTrace(b, stack, PoolCall(b, stack, st, model, request), st', rest);
        assert [] + Passing(b, rest) == Passing(b, rest);
      }
    }
  }

  lemma SameAreWellFormed<S>(st: States<S>, st': States<S>)
    requires SameStates(st, st')
    ensures WellFormed(st) && WellFormed(st')
  {
  }

  // The Input stage of the guardrail layer, from the registry's decision.
  function Gate<Q, P, C, Payload>(registry: seq<Guardrails.Guardrail>,
                                  check: (Guardrails.Guardrail, Guardrails.Stage, C) -> Guardrails.Decision<Payload>,
                                  context: Q -> C, rewrite: (Q, Payload) -> Step<Q, P>, reject: (string, nat) -> P,
                                  request: Q): Step<Q, P> {
    match Guardrails.Decide(check, Guardrails.Input, context(request), Guardrails.Asked(registry, Guardrails.Input))
    case Allow => Forward(request)
    case Blocked(reason, code) => Answer(reject(reason, code))
    case Mutate(payload) => rewrite(request, payload)
  }

  // What the Input stage does with a request: a block by any guardrail configured for it stops the request, and
  // if none blocks or rewrites, the request goes on as it is.
  lemma BlockStops<Q, P, C, Payload>(registry: seq<Guardrails.Guardrail>,
                                     check: (Guardrails.Guardrail, Guardrails.Stage, C) -> Guardrails.Decision<Payload>,
                                     context: Q -> C, rewrite: (Q, Payload) -> Step<Q, P>, reject: (string, nat) -> P,
                                     request: Q)
    ensures (exists k :: 0 <= k < |registry| && Guardrails.Input in registry[k].stages
                      && check(registry[k], Guardrails.Input, context(request)).Blocked?) ==>
      Gate(registry, check, context, rewrite, reject, request).Answer?
    ensures (forall k :: 0 <= k < |registry| && Guardrails.Input in registry[k].stages ==>
               check(registry[k], Guardrails.Input, context(request)).Allow?) ==>
      Gate(registry, check, context, rewrite, reject, request) == Forward(request)
  {
    hide Guardrails.Decide, Guardrails.Asked;
    var c := context(request);
    Guardrails.RegistryDecides(registry, check, Guardrails.Input, c);
    if k :| 0 <= k < |registry| && Guardrails.BlocksAt(registry, check, Guardrails.Input, c, k) {
      var first := FirstBlocking(registry, check, c, k);
      assert Guardrails.FirstToBlock(registry, check, Guardrails.Input, c, first);
    }
  }

  lemma FirstBlocking<C, Payload>(registry: seq<Guardrails.Guardrail>,
                                  check: (Guardrails.Guardrail, Guardrails.Stage, C) -> Guardrails.Decision<Payload>,
                                  context: C, k: nat) returns (first: nat)
    requires Guardrails.BlocksAt(registry, check, Guardrails.Input, context, k)
    ensures Guardrails.FirstToBlock(registry, check, Guardrails.Input, context, first)
  {
    first := 0;
    while !Guardrails.BlocksAt(registry, check, Guardrails.Input, context, first)
      invariant first <= k
      invariant forall j: nat :: j < first ==> !Guardrails.BlocksAt(registry, check, Guardrails.Input, context, j)
      decreases k - first
    {
      first := first + 1;
    }
  }
}
