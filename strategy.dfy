/** The decision tree of the complex example bot
    (client/examples/complex/src/strategy.rs): branches of (condition, subtree)
    pairs tried in order, and leaves that offer a behaviour with a priority.
    Evaluating a condition may advance its timer, so every function here
    returns the tree as it is after the evaluation. */
module Strategy {
  import opened Types
  import opened Condition

  datatype Priority = Empty | Low | Medium | High

  /** The discriminant Rust's derived `PartialOrd` compares. */
  function Rank(p: Priority): nat
  {
    match p
    case Empty => 0
    case Low => 1
    case Medium => 2
    case High => 3
  }

  /** `a > b` on priorities. */
  predicate Above(a: Priority, b: Priority)
  {
    Rank(a) > Rank(b)
  }

  /** `>` is a strict total order with Empty < Low < Medium < High. */
  lemma PriorityIsTotalOrder(a: Priority, b: Priority, c: Priority)
    ensures !Above(a, a)
    ensures Above(a, b) && Above(b, c) ==> Above(a, c)
    ensures a != b ==> Above(a, b) || Above(b, a)
    ensures Above(Low, Empty) && Above(Medium, Low) && Above(High, Medium)
  {
  }

  /** The tokyo behaviours this bot uses; what they do is not modelled. */
  datatype Behavior = Noop | FireAtClosest | Dodge

  datatype PrioritizedBehavior = PrioritizedBehavior(priority: Priority, behavior: Behavior)

  /** `PrioritizedBehavior::new`. */
  function NewPrioritized(): (pb: PrioritizedBehavior)
    ensures pb.behavior == Noop
    ensures forall p :: p != pb.priority ==> Above(p, pb.priority)
  {
    PrioritizedBehavior(Empty, Noop)
  }

  function WithLow(b: Behavior): PrioritizedBehavior
  {
    PrioritizedBehavior(Low, b)
  }

  function WithMedium(b: Behavior): PrioritizedBehavior
  {
    PrioritizedBehavior(Medium, b)
  }

  function WithHigh(b: Behavior): PrioritizedBehavior
  {
    PrioritizedBehavior(High, b)
  }

  /** Each constructor keeps the behaviour it is given and sets its own
      priority, and the three of them are ranked low < medium < high. */
  lemma ConstructorsSetPriority(b: Behavior)
    ensures WithLow(b).behavior == b && WithMedium(b).behavior == b && WithHigh(b).behavior == b
    ensures WithLow(b).priority == Low && WithMedium(b).priority == Medium
    ensures WithHigh(b).priority == High
    ensures Above(WithLow(b).priority, NewPrioritized().priority)
    ensures Above(WithMedium(b).priority, WithLow(b).priority)
    ensures Above(WithHigh(b).priority, WithMedium(b).priority)
  {
  }

  datatype Node = Branch(arms: seq<Arm>) | Leaf(offer: PrioritizedBehavior)

  datatype Arm = Arm(cond: Cond, node: Node)

  /** `StrategyNode::next_behavior`: a leaf offers (a copy of) its behaviour;
      a branch asks the subtree of its first arm whose condition holds. */
  function NextBehavior(n: Node, now: int, sense: Sensor -> bool)
    : (res: (Option<PrioritizedBehavior>, Node))
    ensures n.Leaf? ==> res == (Some(n.offer), n)
    ensures n.Branch? ==> res.1.Branch? && |res.1.arms| == |n.arms|
    decreases n, 1
  {
    match n
    case Leaf(pb) => (Some(pb), n)
    case Branch(arms) =>
      var (r, arms') := FirstMatch(n, 0, now, sense);
      (r, Branch(arms'))
  }

  /** The search loop over `parent.arms[i..]`; returns the answer and the
      arms from `i` on as they are afterwards. */
  function FirstMatch(parent: Node, i: nat, now: int, sense: Sensor -> bool)
    : (res: (Option<PrioritizedBehavior>, seq<Arm>))
    requires parent.Branch? && i <= |parent.arms|
    ensures |res.1| == |parent.arms| - i
    decreases parent, 0, |parent.arms| - i
  {
    if i == |parent.arms| then (None, [])
    else
      var arm := parent.arms[i];
      assert arm in parent.arms;
      var (b, c') := Evaluate(arm.cond, now, sense);
      if b then
        var (r, n') := NextBehavior(arm.node, now, sense);
        (r, [Arm(c', n')] + parent.arms[i + 1..])
      else
        var (r, rest) := FirstMatch(parent, i + 1, now, sense);
        (r, [Arm(c', arm.node)] + rest)
  }

  /** The index of the first arm from `i` on whose condition holds. */
  function FirstTrue(arms: seq<Arm>, i: nat, now: int, sense: Sensor -> bool): (j: Option<nat>)
    requires i <= |arms|
    ensures j.Some? ==> i <= j.value < |arms| && Evaluate(arms[j.value].cond, now, sense).0
    ensures forall k :: i <= k < |arms| && (j.None? || k < j.value) ==>
                          !Evaluate(arms[k].cond, now, sense).0
    decreases |arms| - i
  {
    if i == |arms| then None
    else if Evaluate(arms[i].cond, now, sense).0 then Some(i)
    else FirstTrue(arms, i + 1, now, sense)
  }

  /** An arm whose condition was evaluated and found false: its condition
      advanced, its subtree untouched. */
  function Passed(a: Arm, now: int, sense: Sensor -> bool): Arm
  {
    Arm(Evaluate(a.cond, now, sense).1, a.node)
  }

  /** The arms `arms[i..j]`, each passed over. */
  function PassedOver(arms: seq<Arm>, i: nat, j: nat, now: int, sense: Sensor -> bool)
    : (r: seq<Arm>)
    requires i <= j <= |arms|
    ensures |r| == j - i
    decreases j - i
  {
    if i == j then [] else [Passed(arms[i], now, sense)] + PassedOver(arms, i + 1, j, now, sense)
  }

  /** The first-match rule: the answer is that of the subtree of the first
      arm whose condition holds (None when no condition holds); the arms
      before it are passed over, its condition is advanced and its subtree
      asked, and every arm after it is left exactly as it was. */
  lemma {:induction false} FirstMatchSpec(parent: Node, i: nat, now: int, sense: Sensor -> bool)
    requires parent.Branch? && i <= |parent.arms|
    ensures var arms := parent.arms;
            var res := FirstMatch(parent, i, now, sense);
            match FirstTrue(arms, i, now, sense)
            case None =>
              && res.0 == None
              && res.1 == PassedOver(arms, i, |arms|, now, sense)
            case Some(j) =>
              && res.0 == NextBehavior(arms[j].node, now, sense).0
              && res.1 == PassedOver(arms, i, j, now, sense)
                          + [Arm(Evaluate(arms[j].cond, now, sense).1,
                                 NextBehavior(arms[j].node, now, sense).1)]
                          + arms[j + 1..]
    decreases |parent.arms| - i
  {
    var arms := parent.arms;
    if i < |arms| && !Evaluate(arms[i].cond, now, sense).0 {
      FirstMatchSpec(parent, i + 1, now, sense);
    }
  }

  /** The bot's strategy: a tree whose root is always a branch. */
  datatype Strategy = Strategy(tree: Node)

  /** `Strategy::new`. */
  function NewStrategy(arms: seq<Arm>): (s: Strategy)
    ensures s.tree.Branch? && s.tree.arms == arms
  {
    Strategy(Branch(arms))
  }

  /** `Strategy::next_behavior`: the root branch's answer. */
  function Next(s: Strategy, now: int, sense: Sensor -> bool)
    : (res: (Option<PrioritizedBehavior>, Strategy))
    requires s.tree.Branch?
    ensures res.1.tree.Branch?
    ensures match FirstTrue(s.tree.arms, 0, now, sense)
            case None => res.0 == None
            case Some(j) => res.0 == NextBehavior(s.tree.arms[j].node, now, sense).0
  {
    FirstMatchSpec(s.tree, 0, now, sense);
    var (r, t) := NextBehavior(s.tree, now, sense);
    (r, Strategy(t))
  }
}
