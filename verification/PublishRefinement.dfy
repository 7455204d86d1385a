/** The locking protocol acts on the queue as the atomic operations of module
    ReadingQueue do. */
module PublishRefinement {
  import opened ReadingQueue
  import opened PublishProtocol
  import opened PublishSafety

  /** The atomic operation a step stands for, if any: a publish takes effect when
      its result is decided, a close when the channel is closed, a receive when
      the reading is taken. */
  function Effect(s: State, a: Action): seq<Op>
    requires Enabled(s, a)
  {
    match a
    case Advance(p, _) =>
      var c := s.callbacks[p];
      if c.phase == Checked || (c.phase == Locked && s.closed) then [OfferOp(c.reading)] else []
    case CloserStep => if s.closer == FlagSet then [CloseOp] else []
    case Take => [ReceiveOp]
    case _ => []
  }

  /** What one operation, on its own, adds to the two histories. */
  lemma OneOperation(q: Queue, op: Op)
    ensures ApplyAll(q, [op]) == Apply(q, op)
    ensures Accepted(q, [op]) == if op.OfferOp? && Offer(q, op.r).1 == Published then [op.r] else []
    ensures Handed(q, [op]) == if op.ReceiveOp? && q.buffer != [] then [q.buffer[0]] else []
  {
    assert [op][..0] == [];
  }

  /** The result a publisher decides on is the one the atomic Offer gives at that
      moment, and the one it returns. */
  lemma ResultsRefine(s: State, p: nat, parses: bool)
    requires Inv(s) && Enabled(s, Advance(p, parses))
    ensures Effect(s, Advance(p, parses)) != [] ==>
              AdvanceCallback(s, p, parses).callbacks[p].phase == Decided(Offer(s.channel, s.callbacks[p].reading).1)
    ensures s.callbacks[p].phase.Decided? ==>
              AdvanceCallback(s, p, parses).callbacks[p].phase == Released(s.callbacks[p].phase.result)
  {
    AdvanceNeverPanics(s, p, parses);
    if HoldsLock(s.callbacks[p]) { HolderIsReader(s, p); }
  }

  lemma AdvanceRefines(s: State, p: nat, parses: bool)
    requires Inv(s) && Enabled(s, Advance(p, parses))
    ensures var s' := AdvanceCallback(s, p, parses);
            var ops := Effect(s, Advance(p, parses));
            && s'.channel == ApplyAll(s.channel, ops)
            && s'.accepted == s.accepted + Accepted(s.channel, ops)
            && s'.handed == s.handed + Handed(s.channel, ops)
  {
    AdvanceNeverPanics(s, p, parses);
    if HoldsLock(s.callbacks[p]) { HolderIsReader(s, p); }
    if Effect(s, Advance(p, parses)) != [] {
      OneOperation(s.channel, OfferOp(s.callbacks[p].reading));
    }
  }

  /** Each step does to the channel what its atomic operation does. */
  lemma StepRefines(s: State, a: Action)
    requires Inv(s) && Enabled(s, a)
    ensures Step(s, a).channel == ApplyAll(s.channel, Effect(s, a))
    ensures Step(s, a).accepted == s.accepted + Accepted(s.channel, Effect(s, a))
    ensures Step(s, a).handed == s.handed + Handed(s.channel, Effect(s, a))
  {
    match a
    case Advance(p, parses) => AdvanceRefines(s, p, parses);
    case CloserStep => OneOperation(s.channel, CloseOp);
    case Take => OneOperation(s.channel, ReceiveOp);
    case _ =>
  }

  function Linearised(s: State, actions: seq<Action>): seq<Op>
    requires Legal(s, actions)
    decreases actions
  {
    if actions == [] then []
    else Effect(s, actions[0]) + Linearised(Step(s, actions[0]), actions[1..])
  }

  lemma {:induction false} HistoriesCompose(q: Queue, xs: seq<Op>, ys: seq<Op>)
    ensures ApplyAll(q, xs + ys) == ApplyAll(ApplyAll(q, xs), ys)
    ensures Accepted(q, xs + ys) == Accepted(q, xs) + Accepted(ApplyAll(q, xs), ys)
    ensures Handed(q, xs + ys) == Handed(q, xs) + Handed(ApplyAll(q, xs), ys)
  {
    if ys == [] {
      assert xs + ys == xs;
    } else {
      var init := ys[..|ys| - 1];
      assert (xs + ys)[..|xs + ys| - 1] == xs + init;
      HistoriesCompose(q, xs, init);
    }
  }

  ghost predicate Explains(s: State, ops: seq<Op>, end: State) {
    && end.channel == ApplyAll(s.channel, ops)
    && end.accepted == s.accepted + Accepted(s.channel, ops)
    && end.handed == s.handed + Handed(s.channel, ops)
  }

  lemma PrependStep(s: State, a: Action, ops: seq<Op>, end: State)
    requires Inv(s) && Enabled(s, a) && Explains(Step(s, a), ops, end)
    ensures Explains(s, Effect(s, a) + ops, end)
  {
    StepRefines(s, a);
    HistoriesCompose(s.channel, Effect(s, a), ops);
    var q := ApplyAll(s.channel, Effect(s, a));
    AppendTwice(s.accepted, Accepted(s.channel, Effect(s, a)), Accepted(q, ops));
    AppendTwice(s.handed, Handed(s.channel, Effect(s, a)), Handed(q, ops));
  }

  lemma AppendTwice(xs: seq<Reading>, ys: seq<Reading>, zs: seq<Reading>)
    ensures (xs + ys) + zs == xs + (ys + zs)
  {
  }

  /** Every interleaving of publishers, closer and consumer acts on the queue as
      some sequence of whole, uninterrupted operations. */
  lemma {:induction false} Linearisable(s: State, actions: seq<Action>)
    requires Inv(s) && Legal(s, actions)
    ensures Explains(s, Linearised(s, actions), After(s, actions))
    decreases actions
  {
    if actions != [] {
      StepKeeps(s, actions[0]);
      Linearisable(Step(s, actions[0]), actions[1..]);
      PrependStep(s, actions[0], Linearised(Step(s, actions[0]), actions[1..]), After(s, actions));
    }
  }
}
