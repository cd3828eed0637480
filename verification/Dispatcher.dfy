/** The layered dispatcher: a worklist over a hash map whose iteration order is unspecified. */
module Dispatch {
  import opened Base
  import opened Roster
  import opened Tools
  import opened Worklist

  datatype AgentInput = AgentInput(event: string, payload: Json)

  datatype AgentOutput = AgentOutput(summary: string, publish: Option<AgentInput>)

  datatype AgentError = Processing(id: AgentId, message: string) | BadPayload(message: string)

  /** An agent is an arbitrary deterministic function. */
  datatype Agent = Agent(id: AgentId, process: AgentInput -> Result<AgentOutput, AgentError>)

  /** Every agent sits under its own id. */
  type Agents = agents: map<AgentId, Agent> | forall id :: id in agents ==> agents[id].id == id witness map[]

  datatype DispatchError =
    | LayerSkip(from: AgentId, fromLayer: Layer, to: Layer)
    | UnknownAgent(id: AgentId)
    | AgentFailed(error: AgentError)

  /** `Panicked`: asking an agent for its layer when its id is outside the roster. */
  datatype Outcome = Finished(outputs: seq<AgentOutput>) | Refused(error: DispatchError) | Panicked

  type Work = (AgentId, AgentInput)

  function CheckRoute(from: AgentId, to: Layer): Result<(), DispatchError> {
    if LayerOf(from).None? then Err(UnknownAgent(from))
    else
      var fromLayer := LayerOf(from).value;
      var allowed := if fromLayer.Research? then IsOperational(to) else NextOperational(fromLayer) == Some(to);
      if allowed then Ok(()) else Err(LayerSkip(from, fromLayer, to))
  }

  /** No layer is skipped: research may address every operational layer, and any other route is legal
      exactly when it leads from one operational layer to the operational layer one below. */
  lemma RoutesNeverSkip(from: AgentId, to: Layer)
    ensures CheckRoute(from, to).Ok? <==>
            && IsOperational(to)
            && (44 <= from <= 47 || (1 <= from <= 43 && Rank(LayerOf(from).value) == Rank(to) + 1))
    ensures from > 47 <==> CheckRoute(from, to) == Err(UnknownAgent(from))
    ensures from <= 47 && CheckRoute(from, to).Err? ==>
              CheckRoute(from, to) == Err(LayerSkip(from, LayerOf(from).value, to))
  {
  }

  // ----- the fan-out tree ----------------------------------------------------------------

  type Outputs = Total<AgentOutput>

  ghost predicate AllOnRoster(agents: Agents) {
    forall id :: id in agents ==> LayerOf(id).Some?
  }

  /** What agent `id` and everything it triggers produce. */
  ghost function FanOut(agents: Agents, id: AgentId, input: AgentInput): Outputs
    decreases if LayerOf(id).Some? then Rank(LayerOf(id).value) else 0, 0
  {
    if id !in agents then None
    else
      match agents[id].process(input)
      case Err(_) => None
      case Ok(output) =>
        if output.publish.None? then Some(multiset{output})
        else if LayerOf(id).None? then None
        else
          match NextOperational(LayerOf(id).value)
          case None => Some(multiset{output})
          case Some(next) =>
            if !AllOnRoster(agents) then None
            else Plus(Some(multiset{output}), FanOutBelow(agents, next, output.publish.value, agents.Keys, 256))
  }

  /** The members of `among` with ids below `k` in `layer`, one after the other. */
  ghost function FanOutBelow(agents: Agents, layer: Layer, input: AgentInput, among: set<AgentId>, k: nat): Outputs
    requires k <= 256
    decreases Rank(layer), 1, k
  {
    if k == 0 then Some(multiset{})
    else
      var rest := FanOutBelow(agents, layer, input, among, k - 1);
      if k - 1 in among && LayerOf(k - 1) == Some(layer) then Plus(rest, FanOut(agents, k - 1, input)) else rest
  }

  /** The order in which a layer is visited does not matter. */
  lemma {:induction false} FanOutBelowAdds(agents: Agents, layer: Layer, input: AgentInput, among: set<AgentId>,
      id: AgentId, k: nat)
    requires k <= 256 && id !in among
    ensures FanOutBelow(agents, layer, input, among + {id}, k) ==
            if id < k && LayerOf(id) == Some(layer)
            then Plus(FanOutBelow(agents, layer, input, among, k), FanOut(agents, id, input))
            else FanOutBelow(agents, layer, input, among, k)
  {
    if k > 0 {
      FanOutBelowAdds(agents, layer, input, among, id, k - 1);
      var rest := FanOutBelow(agents, layer, input, among, k - 1);
      var last, added := FanOut(agents, k - 1, input), FanOut(agents, id, input);
      PlusLaws(rest, last, added);
      PlusLaws(rest, added, last);
      PlusLaws(last, added, rest);
    }
  }

  lemma {:induction false} FanOutBelowNobody(agents: Agents, layer: Layer, input: AgentInput, k: nat)
    requires k <= 256
    ensures FanOutBelow(agents, layer, input, {}, k) == Some(multiset{})
  {
    if k > 0 { FanOutBelowNobody(agents, layer, input, k - 1); }
  }

  /** The tree below a queued piece of work, as a function of the work. */
  ghost function Tree(agents: Agents): Work -> Outputs {
    (work: Work) => FanOut(agents, work.0, work.1)
  }

  // ----- the termination weight ----------------------------------------------------------

  /** How many ids below `k` in `among` belong to `layer`. */
  ghost function CountBelow(layer: Layer, among: set<AgentId>, k: nat): nat
    requires k <= 256
    decreases k, among
  {
    if k == 0 then 0
    else CountBelow(layer, among, k - 1) + if k - 1 in among && LayerOf(k - 1) == Some(layer) then 1 else 0
  }

  lemma {:induction false} CountBelowAdds(layer: Layer, among: set<AgentId>, id: AgentId, k: nat)
    requires k <= 256 && id !in among
    ensures CountBelow(layer, among + {id}, k)
            == CountBelow(layer, among, k) + if id < k && LayerOf(id) == Some(layer) then 1 else 0
  {
    if k > 0 { CountBelowAdds(layer, among, id, k - 1); }
  }

  lemma {:induction false} CountBelowNobody(layer: Layer, k: nat)
    requires k <= 256
    ensures CountBelow(layer, {}, k) == 0
  {
    if k > 0 { CountBelowNobody(layer, k - 1); }
  }

  /** The number of registered agents of `layer`. */
  ghost function Size(agents: Agents, layer: Layer): nat {
    CountBelow(layer, agents.Keys, 256)
  }

  ghost function Weight(agents: Agents, layer: Layer): (w: nat)
    ensures w >= 1
    decreases Rank(layer)
  {
    match NextOperational(layer)
    case None => 1
    case Some(next) => 1 + Size(agents, next) * Weight(agents, next)
  }

  ghost function WorkWeight(agents: Agents, id: AgentId): (w: nat)
    ensures w >= 1
  {
    if LayerOf(id).Some? then Weight(agents, LayerOf(id).value) else 1
  }

  ghost function Weigh(agents: Agents): Work -> nat {
    (work: Work) => WorkWeight(agents, work.0)
  }

  /** The roster bounds a layer's size, whatever is registered. */
  lemma {:induction false} CountBelowInRange(layer: Layer, among: set<AgentId>, lo: nat, n: nat, k: nat)
    requires k <= 256 && forall id: nat :: LayerOf(id) == Some(layer) ==> lo <= id < lo + n
    ensures CountBelow(layer, among, k) <= n && (k <= lo ==> CountBelow(layer, among, k) == 0)
    ensures lo <= k ==> CountBelow(layer, among, k) <= k - lo
  {
    if k > 0 { CountBelowInRange(layer, among, lo, n, k - 1); }
  }

  lemma ProductBound(a: nat, b: nat, x: nat, y: nat)
    requires a <= x && b <= y
    ensures a * b <= x * y
  {
    assert a * b <= a * y <= x * y;
  }

  lemma LayerWeightBound(agents: Agents, layer: Layer, next: Layer, lo: nat, n: nat, w: nat)
    requires NextOperational(layer) == Some(next) && Weight(agents, next) <= w
    requires forall id: nat :: LayerOf(id) == Some(next) ==> lo <= id < lo + n
    ensures Weight(agents, layer) <= 1 + n * w
  {
    CountBelowInRange(next, agents.Keys, lo, n, 256);
    ProductBound(Size(agents, next), Weight(agents, next), n, w);
  }

  /** No run, over any registry, produces more than 1 + 9 * (1 + 10 * (1 + 8)) outputs. */
  lemma WeightIsBounded(agents: Agents, id: AgentId)
    ensures WorkWeight(agents, id) <= 820
  {
    LayerWeightBound(agents, Decision, Coordination, 36, 8, 1);
    LayerWeightBound(agents, Analysis, Decision, 26, 10, 9);
    LayerWeightBound(agents, Perception, Analysis, 17, 9, 91);
  }

  ghost function IdsBelow(layer: Layer, among: set<AgentId>, k: nat): (ids: set<AgentId>)
    requires k <= 256
    ensures |ids| == CountBelow(layer, among, k)
    ensures forall id :: id in ids <==> id < k && id in among && LayerOf(id) == Some(layer)
    decreases k, among
  {
    if k == 0 then {}
    else IdsBelow(layer, among, k - 1) + if k - 1 in among && LayerOf(k - 1) == Some(layer) then {k - 1} else {}
  }

  lemma SizeIsCardinality(agents: Agents, layer: Layer)
    ensures Size(agents, layer) == |set id | id in agents && LayerOf(id) == Some(layer)|
  {
    assert IdsBelow(layer, agents.Keys, 256) == set id | id in agents && LayerOf(id) == Some(layer);
  }

  /** Forwarded work goes to the layers below perception, never to research or the chatbot. */
  predicate Forwarded(id: AgentId) {
    LayerOf(id).Some? && IsOperational(LayerOf(id).value) && !LayerOf(id).value.Perception?
  }

  /** `queue` is `queue0` followed by copies of one message to members of `layer`. */
  ghost predicate QueuedFor(agents: Agents, queue0: seq<Work>, queue: seq<Work>, layer: Layer, message: AgentInput) {
    && queue0 <= queue
    && forall i :: |queue0| <= i < |queue| ==>
         queue[i].0 in agents && LayerOf(queue[i].0) == Some(layer) && queue[i].1 == message
  }

  /** Of the members of `layer`, exactly those in `done` have been queued after `queue0`. */
  ghost predicate ForwardedTo(agents: Agents, queue0: seq<Work>, queue: seq<Work>, layer: Layer, message: AgentInput,
      done: set<AgentId>) {
    && QueuedFor(agents, queue0, queue, layer, message)
    && |queue| == |queue0| + CountBelow(layer, done, 256)
    && QueueSum(Tree(agents), queue)
         == Plus(QueueSum(Tree(agents), queue0), FanOutBelow(agents, layer, message, done, 256))
  }

  lemma ForwardedToNobody(agents: Agents, queue: seq<Work>, layer: Layer, message: AgentInput)
    ensures ForwardedTo(agents, queue, queue, layer, message, {})
  {
    FanOutBelowNobody(agents, layer, message, 256);
    PlusLaws(QueueSum(Tree(agents), queue), None, None);
    CountBelowNobody(layer, 256);
  }

  /** `queue` once the loop over the map has looked at `id`. */
  ghost function WithMember(queue: seq<Work>, layer: Layer, message: AgentInput, id: AgentId): seq<Work> {
    if LayerOf(id) == Some(layer) then queue + [(id, message)] else queue
  }

  lemma SumExtends(agents: Agents, queue0: seq<Work>, queue: seq<Work>, layer: Layer, message: AgentInput,
      done: set<AgentId>, id: AgentId)
    requires id !in done
    requires QueueSum(Tree(agents), queue)
               == Plus(QueueSum(Tree(agents), queue0), FanOutBelow(agents, layer, message, done, 256))
    ensures QueueSum(Tree(agents), WithMember(queue, layer, message, id))
            == Plus(QueueSum(Tree(agents), queue0), FanOutBelow(agents, layer, message, done + {id}, 256))
  {
    FanOutBelowAdds(agents, layer, message, done, id, 256);
    PlusLaws(QueueSum(Tree(agents), queue0), FanOutBelow(agents, layer, message, done, 256),
             FanOut(agents, id, message));
    QueueExtends(Tree(agents), Weigh(agents), queue, (id, message));
  }

  lemma ForwardedToExtends(agents: Agents, queue0: seq<Work>, queue: seq<Work>, layer: Layer, message: AgentInput,
      done: set<AgentId>, id: AgentId)
    requires ForwardedTo(agents, queue0, queue, layer, message, done) && id in agents && id !in done
    ensures ForwardedTo(agents, queue0, WithMember(queue, layer, message, id), layer, message, done + {id})
  {
    SumExtends(agents, queue0, queue, layer, message, done, id);
    CountBelowAdds(layer, done, id, 256);
  }

  /** `queue` is `queue0` with `message` delivered to all of `layer`, as the tree has it. */
  ghost predicate ForwardedToLayer(agents: Agents, queue0: seq<Work>, queue: seq<Work>, layer: Layer,
      message: AgentInput) {
    && QueuedFor(agents, queue0, queue, layer, message)
    && QueueSum(Tree(agents), queue)
         == Plus(QueueSum(Tree(agents), queue0), FanOutBelow(agents, layer, message, agents.Keys, 256))
    && QueueWeight(Weigh(agents), queue)
         == QueueWeight(Weigh(agents), queue0) + Size(agents, layer) * Weight(agents, layer)
  }

  lemma ForwardedToAll(agents: Agents, queue0: seq<Work>, queue: seq<Work>, layer: Layer, message: AgentInput)
    requires ForwardedTo(agents, queue0, queue, layer, message, agents.Keys)
    ensures ForwardedToLayer(agents, queue0, queue, layer, message)
  {
    MembersWeighAlike(agents, queue0, queue, layer, message);
    EqualWeights(Weigh(agents), queue0, queue, Weight(agents, layer));
    assert |queue| - |queue0| == Size(agents, layer);
  }

  lemma MembersWeighAlike(agents: Agents, queue0: seq<Work>, queue: seq<Work>, layer: Layer, message: AgentInput)
    requires QueuedFor(agents, queue0, queue, layer, message)
    ensures forall i :: |queue0| <= i < |queue| ==> Weigh(agents)(queue[i]) == Weight(agents, layer)
  {
  }

  ghost predicate AllForwarded(agents: Agents, queue: seq<Work>) {
    forall i :: 0 <= i < |queue| ==> queue[i].0 in agents && Forwarded(queue[i].0)
  }

  /** Why a run that started at `start` may end without finishing. */
  ghost predicate Excused(agents: Agents, start: AgentId, outcome: Outcome) {
    match outcome
    case Finished(_) => false
    case Refused(UnknownAgent(id)) => id == start && start !in agents
    case Refused(LayerSkip(_, _, _)) => false
    case Refused(AgentFailed(_)) => start in agents
    case Panicked => start in agents && !AllOnRoster(agents)
  }

  /** An agent's failure is the error that agent returned for the work. */
  ghost predicate BlamedOn(agents: Agents, work: Work, outcome: Outcome) {
    outcome.Refused? && outcome.error.AgentFailed? ==>
      work.0 in agents && agents[work.0].process(work.1) == Err(outcome.error.error)
  }

  /** `deliveries[i]` is the work whose processing gave `outputs[i]`: the start, then forwarded work.
      A last delivery may have failed to give an output. */
  ghost predicate Delivered(agents: Agents, start: Work, deliveries: seq<Work>, outputs: seq<AgentOutput>) {
    && |outputs| <= |deliveries| <= |outputs| + 1
    && (forall i :: 0 <= i < |outputs| ==>
          deliveries[i].0 in agents && agents[deliveries[i].0].process(deliveries[i].1) == Ok(outputs[i]))
    && (deliveries != [] ==> deliveries[0] == start)
    && (forall i :: 1 <= i < |deliveries| ==> Forwarded(deliveries[i].0))
  }

  /** Deliveries so far, and what may still be in the queue. */
  ghost predicate Trail(agents: Agents, start: Work, queue: seq<Work>, deliveries: seq<Work>,
      outputs: seq<AgentOutput>) {
    && Delivered(agents, start, deliveries, outputs) && |deliveries| == |outputs|
    && if outputs == [] then queue == [start] else start.0 in agents && AllForwarded(agents, queue)
  }

  lemma TrailSteps(agents: Agents, start: Work, queue0: seq<Work>, work: Work, output: AgentOutput, queue: seq<Work>,
                   deliveries: seq<Work>, outputs: seq<AgentOutput>)
    requires Trail(agents, start, queue0 + [work], deliveries, outputs)
    requires work.0 in agents && agents[work.0].process(work.1) == Ok(output)
    requires AllForwarded(agents, queue0) ==> AllForwarded(agents, queue)
    ensures Trail(agents, start, queue, deliveries + [work], outputs + [output])
    ensures outputs == [] ==> work == start
  {
    assert (queue0 + [work])[|queue0|] == work;
    assert forall i :: 0 <= i < |queue0| ==> (queue0 + [work])[i] == queue0[i];
  }

  /** Work that is popped is a legal delivery, whatever comes of it. */
  lemma TrailPops(agents: Agents, start: Work, queue0: seq<Work>, work: Work, deliveries: seq<Work>,
      outputs: seq<AgentOutput>)
    requires Trail(agents, start, queue0 + [work], deliveries, outputs)
    ensures Delivered(agents, start, deliveries + [work], outputs)
  {
    assert (queue0 + [work])[|queue0|] == work;
  }

  /** What the outputs so far and the queue together stand for. */
  ghost predicate OnTrack(agents: Agents, start: Work, queue: seq<Work>, outputs: seq<AgentOutput>) {
    && Plus(Some(multiset(outputs)), QueueSum(Tree(agents), queue)) == FanOut(agents, start.0, start.1)
    && |outputs| + QueueWeight(Weigh(agents), queue) <= WorkWeight(agents, start.0)
  }

  /** Processing `work` for `output` turned `queue0` plus that work into `queue`. */
  ghost predicate Processed(agents: Agents, work: Work, output: AgentOutput, queue0: seq<Work>, queue: seq<Work>) {
    && Plus(QueueSum(Tree(agents), queue0), FanOut(agents, work.0, work.1))
         == Plus(Some(multiset{output}), QueueSum(Tree(agents), queue))
    && QueueWeight(Weigh(agents), queue) + 1 <= QueueWeight(Weigh(agents), queue0) + WorkWeight(agents, work.0)
  }

  /** Everything one pass of the loop's body keeps. */
  ghost predicate Answered(agents: Agents, work: Work, output: AgentOutput, queue0: seq<Work>, queue: seq<Work>) {
    && work.0 in agents && agents[work.0].process(work.1) == Ok(output)
    && Processed(agents, work, output, queue0, queue)
    && multiset(queue) == multiset(queue0) + Posted(agents, work, output)
    && (AllForwarded(agents, queue0) ==> AllForwarded(agents, queue))
  }

  lemma AnswersAlone(agents: Agents, work: Work, output: AgentOutput, queue: seq<Work>)
    requires work.0 in agents && agents[work.0].process(work.1) == Ok(output)
    requires output.publish.None?
             || (LayerOf(work.0).Some? && NextOperational(LayerOf(work.0).value).None?)
    ensures Answered(agents, work, output, queue, queue)
  {
    PlusLaws(QueueSum(Tree(agents), queue), Some(multiset{output}), None);
    assert multiset(queue) == multiset(queue) + Posted(agents, work, output);
  }

  lemma AnswersLayer(agents: Agents, work: Work, output: AgentOutput, next: Layer, queue0: seq<Work>,
      queue: seq<Work>)
    requires work.0 in agents && agents[work.0].process(work.1) == Ok(output) && output.publish.Some?
    requires LayerOf(work.0).Some? && NextOperational(LayerOf(work.0).value) == Some(next) && AllOnRoster(agents)
    requires HandedOn(agents, queue0, queue, next, output.publish.value)
    ensures Answered(agents, work, output, queue0, queue)
  {
    TreeAnswers(agents, work, output, next, queue0, queue);
  }

  lemma TreeAnswers(agents: Agents, work: Work, output: AgentOutput, next: Layer, queue0: seq<Work>, queue: seq<Work>)
    requires work.0 in agents && agents[work.0].process(work.1) == Ok(output) && output.publish.Some?
    requires LayerOf(work.0).Some? && NextOperational(LayerOf(work.0).value) == Some(next) && AllOnRoster(agents)
    requires ForwardedToLayer(agents, queue0, queue, next, output.publish.value)
    ensures Processed(agents, work, output, queue0, queue)
  {
    var triggered := FanOutBelow(agents, next, output.publish.value, agents.Keys, 256);
    PlusLaws(Some(multiset{output}), QueueSum(Tree(agents), queue0), triggered);
    PlusLaws(QueueSum(Tree(agents), queue0), Some(multiset{output}), triggered);
  }

  lemma OnTrackStart(agents: Agents, start: Work)
    ensures OnTrack(agents, start, [start], [])
  {
    QueueExtends(Tree(agents), Weigh(agents), [], start);
    assert [] + [start] == [start];
    PlusLaws(FanOut(agents, start.0, start.1), None, None);
  }

  lemma OnTrackSteps(agents: Agents, start: Work, queue0: seq<Work>, work: Work, output: AgentOutput,
      queue: seq<Work>, outputs: seq<AgentOutput>)
    requires OnTrack(agents, start, queue0 + [work], outputs) && Processed(agents, work, output, queue0, queue)
    ensures OnTrack(agents, start, queue, outputs + [output])
    ensures QueueWeight(Weigh(agents), queue) < QueueWeight(Weigh(agents), queue0 + [work])
  {
    QueueExtends(Tree(agents), Weigh(agents), queue0, work);
    PlusLaws(Some(multiset(outputs)), Some(multiset{output}), QueueSum(Tree(agents), queue));
    assert multiset(outputs + [output]) == multiset(outputs) + multiset{output};
  }

  lemma OffTrack(agents: Agents, start: Work, queue0: seq<Work>, work: Work, outputs: seq<AgentOutput>)
    requires OnTrack(agents, start, queue0 + [work], outputs) && FanOut(agents, work.0, work.1).None?
    ensures FanOut(agents, start.0, start.1).None?
  {
    QueueExtends(Tree(agents), Weigh(agents), queue0, work);
  }

  // ----- messages ----------------------------------------------------------------------------

  ghost function Recipients(ids: set<AgentId>, layer: Layer): set<AgentId> {
    set id | id in ids && LayerOf(id) == Some(layer)
  }

  ghost function Copies(ids: set<AgentId>, message: AgentInput): set<Work> {
    set id | id in ids :: (id, message)
  }

  /** What an output sends: the published event, once to every registered member of the layer below its
      agent's, and nothing without an event or a layer below. */
  ghost function Posted(agents: Agents, work: Work, output: AgentOutput): multiset<Work> {
    if output.publish.None? || LayerOf(work.0).None? || NextOperational(LayerOf(work.0).value).None? then multiset{}
    else multiset(Copies(Recipients(agents.Keys, NextOperational(LayerOf(work.0).value).value), output.publish.value))
  }

  /** All that the first `n` outputs sent. */
  ghost function AllPosted(agents: Agents, deliveries: seq<Work>, outputs: seq<AgentOutput>, n: nat): multiset<Work>
    requires n <= |outputs| && n <= |deliveries|
  {
    if n == 0 then multiset{}
    else AllPosted(agents, deliveries, outputs, n - 1) + Posted(agents, deliveries[n - 1], outputs[n - 1])
  }

  /** The loop over the map has queued one copy for each recipient among `done`. */
  ghost predicate Copied(queue0: seq<Work>, queue: seq<Work>, layer: Layer, message: AgentInput, done: set<AgentId>) {
    multiset(queue) == multiset(queue0) + multiset(Copies(Recipients(done, layer), message))
  }

  lemma CopiedToNobody(queue: seq<Work>, layer: Layer, message: AgentInput)
    ensures Copied(queue, queue, layer, message, {})
  {
    assert Copies(Recipients({}, layer), message) == {};
  }

  lemma CopiedExtends(queue0: seq<Work>, queue: seq<Work>, layer: Layer, message: AgentInput, done: set<AgentId>,
                      id: AgentId)
    requires Copied(queue0, queue, layer, message, done) && id !in done
    ensures Copied(queue0, WithMember(queue, layer, message, id), layer, message, done + {id})
  {
    CopiesExtend(layer, message, done, id);
    if LayerOf(id) == Some(layer) {
      assert multiset(queue + [(id, message)]) == multiset(queue) + multiset{(id, message)};
    }
  }

  lemma CopiesExtend(layer: Layer, message: AgentInput, done: set<AgentId>, id: AgentId)
    requires id !in done
    ensures multiset(Copies(Recipients(done + {id}, layer), message))
            == multiset(Copies(Recipients(done, layer), message))
               + if LayerOf(id) == Some(layer) then multiset{(id, message)} else multiset{}
  {
    var before := Copies(Recipients(done, layer), message);
    if LayerOf(id) == Some(layer) {
      assert Recipients(done + {id}, layer) == Recipients(done, layer) + {id};
      assert Copies(Recipients(done + {id}, layer), message) == before + {(id, message)};
      assert (id, message) !in before;
    } else {
      assert Recipients(done + {id}, layer) == Recipients(done, layer);
    }
  }

  /** One of the first `n` outputs sent this work. */
  ghost predicate Sent(agents: Agents, deliveries: seq<Work>, outputs: seq<AgentOutput>, n: nat, work: Work)
    requires n <= |outputs| && n <= |deliveries|
  {
    exists j :: 0 <= j < n && work in Posted(agents, deliveries[j], outputs[j])
  }

  /** Every delivery but the first was sent by the output of an earlier one. */
  ghost predicate Causal(agents: Agents, deliveries: seq<Work>, outputs: seq<AgentOutput>) {
    && |outputs| <= |deliveries| <= |outputs| + 1
    && forall i :: 1 <= i < |deliveries| ==> Sent(agents, deliveries, outputs, i, deliveries[i])
  }

  /** What was sent so far has been delivered or is in the queue. */
  ghost predicate Balanced(agents: Agents, start: Work, queue: multiset<Work>, deliveries: seq<Work>,
      outputs: seq<AgentOutput>)
  {
    && |deliveries| == |outputs|
    && multiset(deliveries) + queue == multiset{start} + AllPosted(agents, deliveries, outputs, |outputs|)
  }

  /** Every delivery and every queued piece of work has been sent. */
  ghost predicate Traced(agents: Agents, start: Work, queue: multiset<Work>, deliveries: seq<Work>,
      outputs: seq<AgentOutput>)
  {
    && |deliveries| == |outputs| && Causal(agents, deliveries, outputs)
    && forall q :: q in queue ==>
         if outputs == [] then q == start else Sent(agents, deliveries, outputs, |outputs|, q)
  }

  lemma {:induction false} AllPostedExtends(agents: Agents, deliveries: seq<Work>, outputs: seq<AgentOutput>,
      work: Work, more: seq<AgentOutput>, n: nat)
    requires n <= |outputs| && n <= |deliveries| && outputs <= more
    ensures AllPosted(agents, deliveries + [work], more, n) == AllPosted(agents, deliveries, outputs, n)
  {
    if n > 0 { AllPostedExtends(agents, deliveries, outputs, work, more, n - 1); }
  }

  lemma BalancePops(agents: Agents, start: Work, queue0: multiset<Work>, work: Work, deliveries: seq<Work>,
      outputs: seq<AgentOutput>)
    requires Balanced(agents, start, queue0 + multiset{work}, deliveries, outputs)
    ensures multiset(deliveries + [work]) + queue0
            == multiset{start} + AllPosted(agents, deliveries + [work], outputs, |outputs|)
  {
    AllPostedExtends(agents, deliveries, outputs, work, outputs, |outputs|);
    assert multiset(deliveries + [work]) == multiset(deliveries) + multiset{work};
  }

  lemma Moves<T(!new)>(a: multiset<T>, q: multiset<T>, w: multiset<T>, s: multiset<T>, p: multiset<T>, x: multiset<T>)
    requires a + (q + w) == s + p
    ensures (a + w) + (q + x) == s + (p + x)
  {
    assert (a + w) + (q + x) == (a + (q + w)) + x;
    assert s + (p + x) == (s + p) + x;
  }

  lemma BalanceSteps(agents: Agents, start: Work, queue0: multiset<Work>, work: Work, output: AgentOutput,
      deliveries: seq<Work>, outputs: seq<AgentOutput>)
    requires Balanced(agents, start, queue0 + multiset{work}, deliveries, outputs)
    ensures Balanced(agents, start, queue0 + Posted(agents, work, output), deliveries + [work], outputs + [output])
  {
    var longer, more := deliveries + [work], outputs + [output];
    AllPostedExtends(agents, deliveries, outputs, work, more, |outputs|);
    assert AllPosted(agents, longer, more, |outputs| + 1)
        == AllPosted(agents, longer, more, |outputs|) + Posted(agents, longer[|outputs|], more[|outputs|]);
    assert multiset(longer) == multiset(deliveries) + multiset{work};
    Moves(multiset(deliveries), queue0, multiset{work}, multiset{start},
          AllPosted(agents, deliveries, outputs, |outputs|), Posted(agents, work, output));
  }

  lemma SentExtends(agents: Agents, deliveries: seq<Work>, outputs: seq<AgentOutput>, work: Work,
      more: seq<AgentOutput>, n: nat, q: Work)
    requires n <= |outputs| && n <= |deliveries| && outputs <= more
    requires Sent(agents, deliveries, outputs, n, q)
    ensures Sent(agents, deliveries + [work], more, n, q)
  {
    var j :| 0 <= j < n && q in Posted(agents, deliveries[j], outputs[j]);
    assert (deliveries + [work])[j] == deliveries[j] && more[j] == outputs[j];
  }

  lemma CausalPops(agents: Agents, start: Work, queue0: multiset<Work>, work: Work, deliveries: seq<Work>,
      outputs: seq<AgentOutput>, more: seq<AgentOutput>)
    requires Traced(agents, start, queue0 + multiset{work}, deliveries, outputs) && outputs <= more
    requires |more| <= |outputs| + 1
    ensures Causal(agents, deliveries + [work], more)
  {
    var longer := deliveries + [work];
    forall i | 1 <= i < |longer| ensures Sent(agents, longer, more, i, longer[i]) {
      assert i == |deliveries| ==> work in queue0 + multiset{work};
      SentExtends(agents, deliveries, outputs, work, more, i, longer[i]);
    }
  }

  lemma TraceSteps(agents: Agents, start: Work, queue0: multiset<Work>, work: Work, output: AgentOutput,
      deliveries: seq<Work>, outputs: seq<AgentOutput>)
    requires Traced(agents, start, queue0 + multiset{work}, deliveries, outputs)
    requires outputs == [] ==> queue0 == multiset{}
    ensures Traced(agents, start, queue0 + Posted(agents, work, output), deliveries + [work], outputs + [output])
  {
    var longer, more := deliveries + [work], outputs + [output];
    CausalPops(agents, start, queue0, work, deliveries, outputs, more);
    forall q | q in queue0 + Posted(agents, work, output) ensures Sent(agents, longer, more, |more|, q) {
      if q in queue0 {
        assert q in queue0 + multiset{work};
        SentExtends(agents, deliveries, outputs, work, more, |outputs|, q);
        SentEarlier(agents, longer, more, |outputs|, q);
      } else {
        assert longer[|outputs|] == work && more[|outputs|] == output;
      }
    }
  }

  lemma SentEarlier(agents: Agents, deliveries: seq<Work>, outputs: seq<AgentOutput>, n: nat, q: Work)
    requires n < |outputs| && n < |deliveries| && Sent(agents, deliveries, outputs, n, q)
    ensures Sent(agents, deliveries, outputs, n + 1, q)
  {
  }

  // ----- one layer, copy by copy -------------------------------------------------------------

  /** The loop over the map has handed `message` to all members of `layer` but those in `todo`. */
  ghost predicate Handed(agents: Agents, queue0: seq<Work>, queue: seq<Work>, layer: Layer, message: AgentInput,
      todo: set<AgentId>)
  {
    && todo <= agents.Keys && (forall id :: id in agents && id !in todo ==> LayerOf(id).Some?)
    && ForwardedTo(agents, queue0, queue, layer, message, agents.Keys - todo)
    && Copied(queue0, queue, layer, message, agents.Keys - todo)
  }

  lemma HandedNobody(agents: Agents, queue: seq<Work>, layer: Layer, message: AgentInput)
    ensures Handed(agents, queue, queue, layer, message, agents.Keys)
  {
    assert agents.Keys - agents.Keys == {};
    ForwardedToNobody(agents, queue, layer, message);
    CopiedToNobody(queue, layer, message);
  }

  lemma HandedExtends(agents: Agents, queue0: seq<Work>, queue: seq<Work>, layer: Layer, message: AgentInput,
      todo: set<AgentId>, id: AgentId)
    requires Handed(agents, queue0, queue, layer, message, todo) && id in todo && LayerOf(id).Some?
    ensures Handed(agents, queue0, WithMember(queue, layer, message, id), layer, message, todo - {id})
  {
    assert agents.Keys - (todo - {id}) == (agents.Keys - todo) + {id};
    ForwardedToExtends(agents, queue0, queue, layer, message, agents.Keys - todo, id);
    CopiedExtends(queue0, queue, layer, message, agents.Keys - todo, id);
  }

  /** The whole layer has been handed the message. */
  ghost predicate HandedOn(agents: Agents, queue0: seq<Work>, queue: seq<Work>, layer: Layer, message: AgentInput) {
    && ForwardedToLayer(agents, queue0, queue, layer, message)
    && Copied(queue0, queue, layer, message, agents.Keys)
  }

  lemma HandedAll(agents: Agents, queue0: seq<Work>, queue: seq<Work>, layer: Layer, message: AgentInput)
    requires Handed(agents, queue0, queue, layer, message, {})
    ensures AllOnRoster(agents) && HandedOn(agents, queue0, queue, layer, message)
  {
    assert agents.Keys - {} == agents.Keys;
    ForwardedToAll(agents, queue0, queue, layer, message);
  }

  // ----- a run, step by step -----------------------------------------------------------------

  /** What the loop keeps. */
  ghost predicate Underway(agents: Agents, start: Work, queue: seq<Work>, deliveries: seq<Work>,
      outputs: seq<AgentOutput>)
  {
    && OnTrack(agents, start, queue, outputs)
    && Trail(agents, start, queue, deliveries, outputs)
    && Balanced(agents, start, multiset(queue), deliveries, outputs)
    && Traced(agents, start, multiset(queue), deliveries, outputs)
  }

  /** What is true of the deliveries and outputs of every run. */
  ghost predicate WellDelivered(agents: Agents, start: Work, deliveries: seq<Work>, outputs: seq<AgentOutput>) {
    && Delivered(agents, start, deliveries, outputs) && Causal(agents, deliveries, outputs)
    && multiset(deliveries) <= multiset{start} + AllPosted(agents, deliveries, outputs, |outputs|)
    && |outputs| <= WorkWeight(agents, start.0)
  }

  lemma Begins(agents: Agents, start: Work)
    ensures Underway(agents, start, [start], [], [])
  {
    OnTrackStart(agents, start);
  }

  lemma Proceeds(agents: Agents, start: Work, queue0: seq<Work>, rest: seq<Work>, work: Work, output: AgentOutput,
      queue: seq<Work>, deliveries: seq<Work>, outputs: seq<AgentOutput>)
    requires Underway(agents, start, queue0, deliveries, outputs) && queue0 == rest + [work]
    requires Answered(agents, work, output, rest, queue)
    ensures Underway(agents, start, queue, deliveries + [work], outputs + [output])
    ensures QueueWeight(Weigh(agents), queue) < QueueWeight(Weigh(agents), queue0)
  {
    assert multiset(rest + [work]) == multiset(rest) + multiset{work};
    assert outputs == [] ==> |rest + [work]| == 1;
    OnTrackSteps(agents, start, rest, work, output, queue, outputs);
    TrailSteps(agents, start, rest, work, output, queue, deliveries, outputs);
    BalanceSteps(agents, start, multiset(rest), work, output, deliveries, outputs);
    TraceSteps(agents, start, multiset(rest), work, output, deliveries, outputs);
  }

  /** How a run ended: it finished exactly when the fan-out tree is whole, with the tree's outputs and
      nothing undelivered, or the work delivered last is to blame. */
  ghost predicate EndedAs(agents: Agents, start: Work, outcome: Outcome, deliveries: seq<Work>,
      produced: seq<AgentOutput>)
  {
    match outcome
    case Finished(outputs) =>
      && FanOut(agents, start.0, start.1) == Some(multiset(outputs))
      && produced == outputs && |deliveries| == |produced|
      && multiset(deliveries) == multiset{start} + AllPosted(agents, deliveries, produced, |produced|)
    case _ =>
      && FanOut(agents, start.0, start.1).None? && Excused(agents, start.0, outcome)
      && |deliveries| == |produced| + 1 && BlamedOn(agents, deliveries[|produced|], outcome)
  }

  /** Processing `work` ends the run. */
  ghost predicate FailsAs(agents: Agents, work: Work, outcome: Outcome) {
    && FanOut(agents, work.0, work.1).None? && Excused(agents, work.0, outcome)
    && !outcome.Finished? && BlamedOn(agents, work, outcome)
  }

  lemma Breaks(agents: Agents, start: Work, queue0: seq<Work>, rest: seq<Work>, work: Work, outcome: Outcome,
      deliveries: seq<Work>, outputs: seq<AgentOutput>)
    requires Underway(agents, start, queue0, deliveries, outputs) && queue0 == rest + [work]
    requires FailsAs(agents, work, outcome)
    ensures EndedAs(agents, start, outcome, deliveries + [work], outputs)
    ensures WellDelivered(agents, start, deliveries + [work], outputs)
  {
    assert multiset(rest + [work]) == multiset(rest) + multiset{work};
    OffTrack(agents, start, rest, work, outputs);
    TrailPops(agents, start, rest, work, deliveries, outputs);
    BalancePops(agents, start, multiset(rest), work, deliveries, outputs);
    CausalPops(agents, start, multiset(rest), work, deliveries, outputs, outputs);
    assert (rest + [work])[|rest|] == work;
  }

  lemma Finishes(agents: Agents, start: Work, deliveries: seq<Work>, outputs: seq<AgentOutput>)
    requires Underway(agents, start, [], deliveries, outputs)
    ensures EndedAs(agents, start, Finished(outputs), deliveries, outputs)
    ensures WellDelivered(agents, start, deliveries, outputs)
  {
    PlusLaws(Some(multiset(outputs)), None, None);
  }

  // ----- the dispatcher, in place ----------------------------------------------------------

  class Dispatcher {
    var agents: Agents

    constructor ()
      ensures agents == map[]
    {
      agents := map[];
    }

    method Register(agent: Agent)
      modifies this
      ensures agents == old(agents)[agent.id := agent]
    {
      agents := agents[agent.id := agent];
    }

    /** The loop over the hash map: whatever its order, each member of `next` is queued once. */
    method Forward(next: Layer, publish: AgentInput, queue0: seq<Work>) returns (queue: seq<Work>, panicked: bool)
      ensures panicked <==> !AllOnRoster(agents)
      ensures !panicked ==> HandedOn(agents, queue0, queue, next, publish)
    {
      queue := queue0;
      var todo := agents.Keys;
      HandedNobody(agents, queue0, next, publish);
      while todo != {}
        invariant Handed(agents, queue0, queue, next, publish, todo)
      {
        var id :| id in todo;
        if LayerOf(agents[id].id).None? { return queue, true; }
        HandedExtends(agents, queue0, queue, next, publish, todo, id);
        if LayerOf(agents[id].id).value == next { queue := queue + [(id, publish)]; }
        todo := todo - {id};
      }
      HandedAll(agents, queue0, queue, next, publish);
      panicked := false;
    }

    /** One pass of the loop's body over work just popped: its output and the queue with whatever
        it triggers, or the outcome that ends the run. */
    method Process(work: Work, queue0: seq<Work>) returns (r: Result<AgentOutput, Outcome>, queue: seq<Work>)
      ensures r.Ok? ==> Answered(agents, work, r.value, queue0, queue)
      ensures r.Err? ==> FailsAs(agents, work, r.error)
    {
      var (id, input) := work;
      queue := queue0;
      if id !in agents { return Err(Refused(UnknownAgent(id))), queue; }
      var processed := agents[id].process(input);
      if processed.Err? { return Err(Refused(AgentFailed(processed.error))), queue; }
      var output := processed.value;
      if output.publish.Some? {
        if LayerOf(agents[id].id).None? { return Err(Panicked), queue; }
        var nextLayer := NextOperational(LayerOf(agents[id].id).value);
        if nextLayer.Some? {
          match CheckRoute(id, nextLayer.value) {
            case Err(error) => return Err(Refused(error)), queue;
            case Ok(_) =>
          }
          var panicked;
          queue, panicked := Forward(nextLayer.value, output.publish.value, queue);
          if panicked { return Err(Panicked), queue; }
          AnswersLayer(agents, work, output, nextLayer.value, queue0, queue);
          return Ok(output), queue;
        }
      }
      AnswersAlone(agents, work, output, queue0);
      return Ok(output), queue;
    }

    /** `pop`: the queue is used as a stack. */
    method Pop(queue: seq<Work>) returns (rest: seq<Work>, work: Work)
      requires queue != []
      ensures queue == rest + [work]
    {
      rest, work := queue[..|queue| - 1], queue[|queue| - 1];
    }

    /** `run`: for every iteration order it succeeds exactly when the fan-out tree does, and then
        its outputs are the tree's. In every run, failing ones included, the work delivered after the
        start was forwarded to layers below perception. */
    method Run(start: AgentId, input: AgentInput)
      returns (outcome: Outcome, ghost deliveries: seq<Work>, ghost produced: seq<AgentOutput>)
      ensures outcome.Finished? <==> FanOut(agents, start, input).Some?
      ensures outcome.Finished? ==> Some(multiset(outcome.outputs)) == FanOut(agents, start, input)
      ensures !outcome.Finished? ==> Excused(agents, start, outcome)
      ensures EndedAs(agents, (start, input), outcome, deliveries, produced)
      ensures WellDelivered(agents, (start, input), deliveries, produced)
      ensures WorkWeight(agents, start) <= 820
    {
      var outputs: seq<AgentOutput> := [];
      deliveries := [];
      var queue: seq<Work> := [(start, input)];
      Begins(agents, (start, input));
      WeightIsBounded(agents, start);
      while queue != []
        invariant Underway(agents, (start, input), queue, deliveries, outputs)
        decreases QueueWeight(Weigh(agents), queue)
      {
        ghost var before := queue;
        var rest, work := Pop(queue);
        var processed;
        processed, queue := Process(work, rest);
        if processed.Err? {
          Breaks(agents, (start, input), before, rest, work, processed.error, deliveries, outputs);
          return processed.error, deliveries + [work], outputs;
        }
        Proceeds(agents, (start, input), before, rest, work, processed.value, queue, deliveries, outputs);
        deliveries := deliveries + [work];
        outputs := outputs + [processed.value];
      }
      Finishes(agents, (start, input), deliveries, outputs);
      return Finished(outputs), deliveries, outputs;
    }
  }
}
