/**
 Many instances side by side: every instance created so far, with the link
 from each derived node to the node its `then` was called on. The link
 carries data (the child settles from the parent) but never cancellation:
 each operation on one node leaves every other node as it was.
 */
module Chains {
  import opened Values
  import opened ControlBlock
  import opened Construction
  import opened Continuation

  /** How a node came to exist: by the constructor, whose executor holds its
      resolve and reject, or by `then` on an earlier node. */
  datatype Origin = Root | Derived(parent: nat, reaction: Reaction)

  datatype Node = Node(block: Block, origin: Origin)

  /** The instances in creation order. */
  datatype Chain = Chain(nodes: seq<Node>) {
    /** A derived node's parent was created before it. */
    predicate Valid() {
      forall i :: 0 <= i < |nodes| && nodes[i].origin.Derived? ==> nodes[i].origin.parent < i
    }
  }

  const Empty: Chain := Chain([])

  /** A call that may create an instance: the chain afterwards, and the index
      of the new instance or the error thrown at the call site. */
  datatype Step = Step(chain: Chain, result: Result<nat>)

  /** `c'` is `c` with one node added at the end. */
  ghost predicate Appended(c: Chain, c': Chain) {
    |c'.nodes| == |c.nodes| + 1 && forall j :: 0 <= j < |c.nodes| ==> c'.nodes[j] == c.nodes[j]
  }

  /** `c'` differs from `c` at most in node `i`, whose origin stays. */
  ghost predicate OnlyChanged(c: Chain, c': Chain, i: nat) {
    && |c'.nodes| == |c.nodes|
    && (forall j :: 0 <= j < |c.nodes| && j != i ==> c'.nodes[j] == c.nodes[j])
    && (i < |c.nodes| ==> c'.nodes[i].origin == c.nodes[i].origin)
  }

  /** `new CancellablePromise(executor)`: a failed check leaves no new
      instance behind. */
  function NewInstance(c: Chain, executor: ExecutorArg): (s: Step)
    requires c.Valid()
    ensures s.chain.Valid()
    ensures s.result.Throws? <==> !executor.IsCallable()
    ensures s.result.Throws? ==> s.chain == c && s.result.error == ConstructionError
    ensures s.result.Ok? ==> s.result.value == |c.nodes| && Appended(c, s.chain)
    ensures s.result.Ok? ==> s.chain.nodes[|c.nodes|].origin.Root?
    ensures s.result.Ok? ==> !s.chain.nodes[|c.nodes|].block.isCanceled
    ensures s.result.Ok? ==> Construct(executor) == Ok(s.chain.nodes[|c.nodes|].block)
  {
    match Construct(executor)
    case Throws(e) => Step(c, Throws(e))
    case Ok(b) => Step(Chain(c.nodes + [Node(b, Root)]), Ok(|c.nodes|))
  }

  /** `then` on node `i`: either it throws and nothing is created, or a new
      node, distinct from `i`, pending and not cancelled, is linked to `i`. */
  function ThenAt(c: Chain, i: nat, args: seq<HandlerArg>): (s: Step)
    requires c.Valid() && i < |c.nodes|
    ensures s.chain.Valid()
    ensures s.result.Throws? <==> |args| > 0 && !args[0].IsCallable()
    ensures s.result.Throws? ==> s.chain == c && s.result.error == ArgumentError
    ensures s.result.Ok? ==> s.result.value == |c.nodes| && s.result.value != i
    ensures s.result.Ok? ==> Appended(c, s.chain)
    ensures s.result.Ok? ==> s.chain.nodes[|c.nodes|].block == Block(Pending, false)
    ensures s.result.Ok? ==> var o := s.chain.nodes[|c.nodes|].origin;
                             o.Derived? && o.parent == i && ThenCheck(args) == Ok(o.reaction)
  {
    match Then(args)
    case Throws(e) => Step(c, Throws(e))
    case Ok((b, rx)) => Step(Chain(c.nodes + [Node(b, Derived(i, rx))]), Ok(|c.nodes|))
  }

  /** Replaces the block of node `i`. */
  function WithBlock(c: Chain, i: nat, b: Block): (c': Chain)
    requires i < |c.nodes|
    ensures OnlyChanged(c, c', i) && c'.nodes[i].block == b
    ensures c.Valid() ==> c'.Valid()
  {
    Chain(c.nodes[i := Node(b, c.nodes[i].origin)])
  }

  /** A later call of the `resolve` the executor of root node `i` received. */
  function ResolveAt(c: Chain, i: nat, v: Value): (c': Chain)
    requires c.Valid() && i < |c.nodes| && c.nodes[i].origin.Root?
    ensures c'.Valid() && OnlyChanged(c, c', i)
    ensures Extends(c.nodes[i].block, c'.nodes[i].block)
    ensures c'.nodes[i].block.isCanceled == c.nodes[i].block.isCanceled
    ensures c'.nodes[i].block.state == (if c.nodes[i].block.state.Pending? then Fulfilled(v) else c.nodes[i].block.state)
  {
    WithBlock(c, i, Resolve(c.nodes[i].block, v))
  }

  /** A later call of a reject capability of node `i`: the `reject` its
      executor received, for a root node, or the `rejector` property every
      instance exposes, derived ones included. */
  function RejectAt(c: Chain, i: nat, reason: Value): (c': Chain)
    requires c.Valid() && i < |c.nodes|
    ensures c'.Valid() && OnlyChanged(c, c', i)
    ensures Extends(c.nodes[i].block, c'.nodes[i].block)
    ensures c'.nodes[i].block.isCanceled == c.nodes[i].block.isCanceled
    ensures c'.nodes[i].block.state == (if c.nodes[i].block.state.Pending? then Rejected(reason) else c.nodes[i].block.state)
  {
    WithBlock(c, i, ControlBlock.Reject(c.nodes[i].block, reason))
  }

  /** `cancel()` on node `i`: its flag is set, it rejects with the cancel
      reason if it was pending, and no other node changes, neither its
      parent nor its children. */
  function CancelAt(c: Chain, i: nat): (c': Chain)
    requires c.Valid() && i < |c.nodes|
    ensures c'.Valid() && OnlyChanged(c, c', i)
    ensures c'.nodes[i].block.isCanceled
    ensures c.nodes[i].block.state.Pending? ==> c'.nodes[i].block.state == Rejected(CancelReason)
    ensures c.nodes[i].block.state.Settled() ==> c'.nodes[i].block.state == c.nodes[i].block.state
  {
    WithBlock(c, i, Cancel(c.nodes[i].block))
  }

  /** The reaction job of derived node `i`, run by the host after its parent
      settled: the child settles from the parent (unless it already has), and
      its flag stays as it was even when the parent's rejection was a
      cancellation. */
  function ReactAt(c: Chain, i: nat): (c': Chain)
    requires c.Valid() && i < |c.nodes| && c.nodes[i].origin.Derived?
    ensures c'.Valid() && OnlyChanged(c, c', i)
    ensures Extends(c.nodes[i].block, c'.nodes[i].block)
    ensures c'.nodes[i].block.isCanceled == c.nodes[i].block.isCanceled
    ensures c.nodes[c.nodes[i].origin.parent].block.state.Pending? ==> c' == c
    ensures var o := c.nodes[i].origin;
            c'.nodes[i].block == Derive(c.nodes[i].block, c.nodes[o.parent].block.state, o.reaction)
  {
    var o := c.nodes[i].origin;
    WithBlock(c, i, Derive(c.nodes[i].block, c.nodes[o.parent].block.state, o.reaction))
  }

  /** Something that can happen to the instances. */
  datatype Action =
    | NewOn(executor: ExecutorArg)
    | ThenOn(target: nat, args: seq<HandlerArg>)
    | ResolveOn(target: nat, value: Value)
    | RejectOn(target: nat, reason: Value)
    | CancelOn(target: nat)
    | ReactOn(target: nat)

  /** An action that names an existing node, and, for resolve, a root node
      (a derived node's resolve stays inside the host), and, for a reaction
      job, a derived node. */
  predicate Enabled(c: Chain, a: Action) {
    match a
    case NewOn(_) => true
    case ThenOn(i, _) => i < |c.nodes|
    case ResolveOn(i, _) => i < |c.nodes| && c.nodes[i].origin.Root?
    case RejectOn(i, _) => i < |c.nodes|
    case CancelOn(i) => i < |c.nodes|
    case ReactOn(i) => i < |c.nodes| && c.nodes[i].origin.Derived?
  }

  /** One action; one that is not enabled changes nothing. A synchronous
      throw leaves the chain as it was. */
  function Perform(c: Chain, a: Action): (c': Chain)
    requires c.Valid()
    ensures c'.Valid() && |c'.nodes| >= |c.nodes|
    ensures forall i :: 0 <= i < |c.nodes| ==>
              c'.nodes[i].origin == c.nodes[i].origin && Extends(c.nodes[i].block, c'.nodes[i].block)
    ensures forall i :: 0 <= i < |c.nodes| ==>
              (c'.nodes[i].block.isCanceled <==> c.nodes[i].block.isCanceled || a == CancelOn(i))
  {
    if !Enabled(c, a) then c
    else
      match a
      case NewOn(e) => NewInstance(c, e).chain
      case ThenOn(i, args) => ThenAt(c, i, args).chain
      case ResolveOn(i, v) => ResolveAt(c, i, v)
      case RejectOn(i, r) => RejectAt(c, i, r)
      case CancelOn(i) => CancelAt(c, i)
      case ReactOn(i) => ReactAt(c, i)
  }

  /** A sequence of actions, in order. No node ever leaves a settled state
      or changes its result, no flag is ever cleared, and no node loses its
      link. */
  function Execute(c: Chain, actions: seq<Action>): (c': Chain)
    requires c.Valid()
    ensures c'.Valid() && |c'.nodes| >= |c.nodes|
    ensures forall i :: 0 <= i < |c.nodes| ==>
              c'.nodes[i].origin == c.nodes[i].origin && Extends(c.nodes[i].block, c'.nodes[i].block)
    decreases |actions|
  {
    if |actions| == 0 then c else Execute(Perform(c, actions[0]), actions[1..])
  }

  /** A node's flag is true after any sequence of actions exactly when it was
      true before or the sequence cancelled that very node: cancelling a
      parent, a child or a sibling never sets it. */
  lemma {:induction false} FlagOnlyByOwnCancel(c: Chain, actions: seq<Action>, i: nat)
    requires c.Valid() && i < |c.nodes|
    ensures Execute(c, actions).nodes[i].block.isCanceled <==>
              c.nodes[i].block.isCanceled || exists k :: 0 <= k < |actions| && actions[k] == CancelOn(i)
    decreases |actions|
  {
    if |actions| > 0 {
      var next := Perform(c, actions[0]);
      FlagOnlyByOwnCancel(next, actions[1..], i);
      assert forall k :: 1 <= k < |actions| ==> actions[k] == actions[1..][k - 1];
    }
  }

  /** The chain of the test with `depth` successive `then(val => val + 1)`
      calls on an instance resolved with 0: after each reaction job has run
      in order, the last node is fulfilled with `depth`, and no node was
      cancelled. */
  method IncrementChain(depth: nat) returns (c: Chain, last: nat)
    ensures c.Valid() && |c.nodes| == depth + 1 && last == depth
    ensures c.nodes[last].block == Block(Fulfilled(Num(depth)), false)
    ensures forall j :: 0 <= j < |c.nodes| ==> !c.nodes[j].block.isCanceled
  {
    var made := NewInstance(Empty, Function(Script([Fulfill(Num(0))], None)));
    c := made.chain;
    last := 0;
    while last < depth
      invariant c.Valid() && |c.nodes| == last + 1 && last <= depth
      invariant c.nodes[0] == Node(Block(Fulfilled(Num(0)), false), Root)
      invariant forall j :: 1 <= j < |c.nodes| ==>
                  c.nodes[j] == Node(Block(Pending, false), Derived(j - 1, IncrementReaction))
    {
      var linked := ThenAt(c, last, [Function(Increment)]);
      c := linked.chain;
      last := linked.result.value;
    }
    var k := 1;
    while k <= depth
      invariant c.Valid() && |c.nodes| == depth + 1 && 1 <= k <= depth + 1
      invariant forall j :: 0 <= j < k ==> c.nodes[j].block == Block(Fulfilled(Num(j)), false)
      invariant forall j :: 1 <= j < |c.nodes| ==> c.nodes[j].origin == Derived(j - 1, IncrementReaction)
      invariant forall j :: k <= j < |c.nodes| ==> c.nodes[j].block == Block(Pending, false)
    {
      c := ReactAt(c, k);
      k := k + 1;
    }
  }
}
