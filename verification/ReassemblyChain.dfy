/**
 Reassembly into the real chain: the event loop with the chain's own `Apply` in it behaves as the loop
 with a verdict that looks at headers, senders and the game only, and drives the chain to the last
 block before the first gap.
 */
module ReassemblyChain {
  import opened Wrappers
  import opened OrderedKeys
  import opened Primitives
  import opened Poa
  import C = Chain
  import opened Reorg
  import opened ChainRuns
  import opened ChainForks
  import R = Reassembly

  /** What the virtual machine and the game world answer while a block is applied. */
  type Answers = Block -> C.Oracles

  /** Applying a block to the chain, with those answers. */
  type Applier = (C.State, Block) -> C.Outcome

  function ApplierOf(rules: C.Rules, answers: Answers): Applier {
    (s: C.State, b: Block) => C.Apply(rules, answers(b), s, b)
  }

  datatype Node = Node(chain: C.State, intake: R.State)

  // ---------- The loop over the chain ----------

  /** Apply buffered blocks to the chain while the next one is there. */
  function DrainInto(apply: Applier, n: Node): Node
    decreases n.intake.buffer.Keys
  {
    var next := NumberOf(n.chain) + 1;
    if next !in n.intake.buffer then n
    else
      var b := n.intake.buffer[next];
      var rest := n.intake.(buffer := n.intake.buffer - {next});
      var out := apply(n.chain, b);
      if out.error.None? then DrainInto(apply, Node(out.state, R.Applied(rest, b))) else Node(out.state, rest)
  }

  function Receive(apply: Applier, n: Node, b: Block): Node {
    var expected := NumberOf(n.chain) + 1;
    if b.header.number < expected then n
    else if b.header.number == expected then
      var out := apply(n.chain, b);
      if out.error.None? then
        var drained := DrainInto(apply, Node(out.state, R.Applied(n.intake, b)));
        drained.(intake := R.Fit(drained.intake))
      else Node(out.state, R.Fit(n.intake))
    else if n.intake.Head() + 1 < b.header.number then n.(intake := R.Fit(R.OnEarly(n.intake, b)))
    else n
  }

  function Deliver(apply: Applier, n: Node, blocks: nat -> Block, ns: seq<nat>): Node
    decreases |ns|
  {
    if ns == [] then n else Deliver(apply, Receive(apply, n, blocks(ns[0])), blocks, ns[1..])
  }

  // ---------- The chain's verdict ----------

  /** The chain takes `b` on `head`, whatever its accounts, tables and pool. */
  ghost predicate Takes(rules: C.Rules, o: C.Oracles, head: Header, b: Block) {
    VerifyBlock(rules.recover, rules.validators, b, head).None? && AllSigned(b.txs) && Ticks(o, b.txs)
  }

  function TipOf(start: Header, applied: seq<Block>): Header {
    if applied == [] then start else applied[|applied| - 1].header
  }

  ghost function Verdict(rules: C.Rules, answers: Answers, start: Header): R.Accepts {
    (applied: seq<Block>, b: Block) => Takes(rules, answers(b), TipOf(start, applied), b)
  }

  /** The chain's head is the last applied block, and the intake counts the same blocks. */
  ghost predicate Joined(n: Node, start: Header) {
    n.chain.head == Some(TipOf(start, n.intake.applied)) && NumberOf(n.chain) == n.intake.Head()
  }

  lemma {:induction false} ApplyTakes(rules: C.Rules, o: C.Oracles, s: C.State, head: Header, b: Block)
    requires s.head == Some(head)
    ensures var out := C.Apply(rules, o, s, b);
      && (out.error.None? <==> Takes(rules, o, head, b))
      && (out.error.None? ==> out.state.head == Some(b.header) && b.header.number == head.number + 1)
      && (out.error.Some? ==> out.state.head == s.head)
  {
    AppliedExactly(rules, o, s, b);
    ApplyCases(rules, o, s, b);
    VerifiedExactly(rules, b, head);
  }

  lemma {:induction false} TipAfter(start: Header, s: R.State, b: Block)
    ensures TipOf(start, R.Applied(s, b).applied) == b.header && R.Applied(s, b).Head() == s.Head() + 1
  {}

  /** The applier takes exactly what the verdict takes, and moves the head there. */
  ghost predicate Matches(apply: Applier, v: R.Accepts, start: Header) {
    forall n: Node, b :: Joined(n, start) ==> MatchesAt(apply, v, start, n, b)
  }

  ghost predicate MatchesAt(apply: Applier, v: R.Accepts, start: Header, n: Node, b: Block) {
    var out := apply(n.chain, b);
    && (out.error.None? <==> v(n.intake.applied, b))
    && out.state.head == (if out.error.None? then Some(b.header) else n.chain.head)
    && (out.error.None? ==> b.header.number == NumberOf(n.chain) + 1)
  }

  lemma {:induction false} ChainMatches(rules: C.Rules, answers: Answers, start: Header)
    ensures Matches(ApplierOf(rules, answers), Verdict(rules, answers, start), start)
  {
    forall n: Node, b | Joined(n, start)
      ensures MatchesAt(ApplierOf(rules, answers), Verdict(rules, answers, start), start, n, b)
    {
      ApplyTakes(rules, answers(b), n.chain, n.chain.head.value, b);
    }
  }

  lemma {:induction false} AppliedJoined(apply: Applier, v: R.Accepts, n: Node, start: Header, s: R.State, b: Block)
    requires Matches(apply, v, start)
    requires Joined(n, start) && s.applied == n.intake.applied && s.base == n.intake.base
    ensures var out := apply(n.chain, b);
      && (out.error.None? <==> v(s.applied, b))
      && Joined(Node(out.state, if out.error.None? then R.Applied(s, b) else s), start)
  {
    assert MatchesAt(apply, v, start, n, b);
    TipAfter(start, s, b);
  }

  lemma {:induction false} DrainJoined(apply: Applier, v: R.Accepts, n: Node, start: Header)
    requires Matches(apply, v, start) && Joined(n, start)
    ensures Joined(DrainInto(apply, n), start) && DrainInto(apply, n).intake == R.Drain(v, n.intake)
    decreases n.intake.buffer.Keys
  {
    var next := NumberOf(n.chain) + 1;
    if next in n.intake.buffer {
      var b := n.intake.buffer[next];
      var rest := n.intake.(buffer := n.intake.buffer - {next});
      assert rest.buffer.Keys == n.intake.buffer.Keys - {next};
      var out := apply(n.chain, b);
      AppliedJoined(apply, v, n, start, rest, b);
      if out.error.None? {
        DrainJoined(apply, v, Node(out.state, R.Applied(rest, b)), start);
      }
    }
  }

  /** One block into the chain is one block into the abstract intake, under the chain's verdict. */
  lemma {:induction false} ReceiveJoined(apply: Applier, v: R.Accepts, n: Node, start: Header, b: Block)
    requires Matches(apply, v, start) && Joined(n, start)
    ensures Joined(Receive(apply, n, b), start) && Receive(apply, n, b).intake == R.OnBlock(v, n.intake, b)
  {
    if b.header.number == NumberOf(n.chain) + 1 {
      var out := apply(n.chain, b);
      AppliedJoined(apply, v, n, start, n.intake, b);
      if out.error.None? {
        DrainJoined(apply, v, Node(out.state, R.Applied(n.intake, b)), start);
      }
    }
  }

  lemma {:induction false} DeliverJoined(apply: Applier, v: R.Accepts, n: Node, start: Header,
                                         blocks: nat -> Block, ns: seq<nat>)
    requires Matches(apply, v, start) && Joined(n, start)
    ensures var m := Deliver(apply, n, blocks, ns);
      Joined(m, start) && m.intake == R.Deliver(v, n.intake, blocks, ns)
    decreases |ns|
  {
    if ns != [] {
      ReceiveJoined(apply, v, n, start, blocks(ns[0]));
      DeliverJoined(apply, v, Receive(apply, n, blocks(ns[0])), start, blocks, ns[1..]);
    }
  }

  // ---------- The chain stays canonical ----------

  ghost predicate Keeps(apply: Applier, holds: C.State -> bool) {
    forall s, b :: holds(s) ==> holds(apply(s, b).state)
  }

  ghost function Sound(g: Header): C.State -> bool { (s: C.State) => Inv(s, g) }

  lemma {:induction false} ChainKeepsSound(rules: C.Rules, answers: Answers, g: Header)
    ensures Keeps(ApplierOf(rules, answers), Sound(g))
  {
    forall s, b | Sound(g)(s)
      ensures Sound(g)(ApplierOf(rules, answers)(s, b).state)
    {
      ApplyKeeps(rules, answers(b), s, b, g);
    }
  }

  /** What applying a block keeps, draining the buffer keeps. */
  lemma {:induction false} DrainKeeps(apply: Applier, n: Node, holds: C.State -> bool)
    requires Keeps(apply, holds) && holds(n.chain)
    ensures holds(DrainInto(apply, n).chain)
    decreases n.intake.buffer.Keys
  {
    var next := NumberOf(n.chain) + 1;
    if next in n.intake.buffer {
      var b := n.intake.buffer[next];
      var rest := n.intake.(buffer := n.intake.buffer - {next});
      assert rest.buffer.Keys == n.intake.buffer.Keys - {next};
      var out := apply(n.chain, b);
      if out.error.None? {
        DrainKeeps(apply, Node(out.state, R.Applied(rest, b)), holds);
      }
    }
  }

  lemma {:induction false} DeliverKeeps(apply: Applier, n: Node, holds: C.State -> bool, blocks: nat -> Block,
      ns: seq<nat>)
    requires Keeps(apply, holds) && holds(n.chain)
    ensures holds(Deliver(apply, n, blocks, ns).chain)
    decreases |ns|
  {
    if ns != [] {
      var b := blocks(ns[0]);
      var out := apply(n.chain, b);
      if out.error.None? {
        DrainKeeps(apply, Node(out.state, R.Applied(n.intake, b)), holds);
      }
      DeliverKeeps(apply, Receive(apply, n, b), holds, blocks, ns[1..]);
    }
  }

  // ---------- One valid chain, delivered in any order ----------

  /** `blocks` continue `start`, each taken on the one before it. */
  ghost predicate Continues(rules: C.Rules, answers: Answers, start: Header, blocks: nat -> Block) {
    && (forall n :: blocks(n).header.number == n)
    && forall n: nat :: n > start.number ==>
         Takes(rules, answers(blocks(n)), if n == start.number + 1 then start else blocks(n - 1).header, blocks(n))
  }

  lemma {:induction false} ContinuesValid(rules: C.Rules, answers: Answers, start: Header, blocks: nat -> Block)
    requires Continues(rules, answers, start, blocks)
    ensures R.Valid(Verdict(rules, answers, start), blocks, start.number)
  {
    var base := start.number;
    forall n: nat
      ensures Verdict(rules, answers, start)(R.Prefix(blocks, base, n), blocks(base + 1 + n))
    {
      var applied := R.Prefix(blocks, base, n);
      assert n > 0 ==> applied[n - 1] == blocks(base + n);
      assert Takes(rules, answers(blocks(base + 1 + n)), TipOf(start, applied), blocks(base + 1 + n));
    }
  }

  /**
   Delivered in any order and with repetitions, as long as the waiting blocks always fit, the blocks of a
   chain end up applied up to the first gap: the head is the last block before it, and the chain's index
   is canonical up to there.
   */
  lemma {:induction false} DeliveredBlocksApplied(rules: C.Rules, answers: Answers, s: C.State, g: Header,
                                                  blocks: nat -> Block, ns: seq<nat>)
    requires Inv(s, g) && Continues(rules, answers, s.head.value, blocks)
    requires R.AlwaysFits(NumberOf(s), {}, ns)
    ensures var t := Deliver(ApplierOf(rules, answers), Node(s, R.Init(NumberOf(s))), blocks, ns).chain;
      && Inv(t, g) && R.LastContiguous(SetOf(ns), NumberOf(s), NumberOf(t))
      && t.head == Some(if NumberOf(t) == NumberOf(s) then s.head.value else blocks(NumberOf(t)).header)
  {
    var start := s.head.value;
    var base := NumberOf(s);
    var n := Node(s, R.Init(base));
    var apply := ApplierOf(rules, answers);
    var v := Verdict(rules, answers, start);
    var m := Deliver(apply, n, blocks, ns);
    ChainMatches(rules, answers, start);
    DeliverJoined(apply, v, n, start, blocks, ns);
    ChainKeepsSound(rules, answers, g);
    DeliverKeeps(apply, n, Sound(g), blocks, ns);
    ContinuesValid(rules, answers, start, blocks);
    R.DeliveredIsCanonical(v, blocks, base, ns);
    assert m.intake.applied == R.Prefix(blocks, base, |m.intake.applied|);
  }
}
