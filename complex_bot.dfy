/** The complex example bot (client/examples/complex/src/main.rs): each tick
    it asks its strategy for a behaviour and switches to it when the offer
    outranks the current behaviour or the current behaviour has nothing to
    say. */
module ComplexBot {
  import opened Types
  import opened Condition
  import opened Strategy

  /** The tree `Player::new` builds: fire at the closest player when one is
      within 200 units, otherwise dodge. */
  function InitialStrategy(): (s: Strategy)
    ensures s.tree.Branch? && |s.tree.arms| == 2
  {
    NewStrategy([Arm(Probe(PlayerWithin(200.0)), Leaf(WithHigh(FireAtClosest))),
                  Arm(Always, Leaf(WithMedium(Dodge)))])
  }

  /** The initial tree always offers something: the high-priority attack
      when a player is near, the medium-priority dodge otherwise. */
  lemma InitialStrategyOffers(now: int, sense: Sensor -> bool)
    ensures Next(InitialStrategy(), now, sense).0 ==
              Some(if sense(PlayerWithin(200.0)) then WithHigh(FireAtClosest)
                   else WithMedium(Dodge))
  {
    var arms := InitialStrategy().tree.arms;
    if !sense(PlayerWithin(200.0)) {
      assert FirstTrue(arms, 1, now, sense) == Some(1);
    }
  }

  /** The switching rule of `tick`: adopt the offer when there is one and
      it outranks the current behaviour or the current behaviour yields no
      command. */
  predicate Switches(offer: Option<PrioritizedBehavior>, current: PrioritizedBehavior,
                     currentCommand: Option<Command>)
  {
    offer.Some? && (Above(offer.value.priority, current.priority) || currentCommand.None?)
  }

  /** A switch never lowers the priority unless the current behaviour had
      nothing to say, and an offer strictly above the current priority is
      always taken. */
  lemma SwitchRespectsPriority(offer: Option<PrioritizedBehavior>, current: PrioritizedBehavior,
                               currentCommand: Option<Command>)
    ensures Switches(offer, current, currentCommand) && currentCommand.Some? ==>
              Above(offer.value.priority, current.priority)
    ensures offer.Some? && Above(offer.value.priority, current.priority) ==>
              Switches(offer, current, currentCommand)
    ensures offer.None? ==> !Switches(offer, current, currentCommand)
  {
  }

  class Player {
    var strategy: Strategy
    var current: PrioritizedBehavior

    ghost predicate Valid()
      reads this
    {
      strategy.tree.Branch?
    }

    /** `Player::new`: the tree above, and the empty-priority no-op. */
    constructor ()
      ensures Valid()
      ensures strategy == InitialStrategy()
      ensures current == NewPrioritized() && current.priority == Empty
    {
      strategy := InitialStrategy();
      current := NewPrioritized();
    }

    /** `Handler::tick`. What a behaviour commands is tokyo's business, so
        it comes from `command`; the analyzer's verdicts come from `sense`. */
    method Tick(now: int, sense: Sensor -> bool, command: Behavior -> Option<Command>)
      returns (cmd: Option<Command>)
      requires Valid()
      modifies this
      ensures Valid()
      ensures strategy == Next(old(strategy), now, sense).1
      ensures var offer := Next(old(strategy), now, sense).0;
              if Switches(offer, old(current), command(old(current).behavior))
              then current == offer.value && cmd == command(offer.value.behavior)
              else current == old(current) && cmd == command(old(current).behavior)
      ensures Rank(current.priority) >= Rank(old(current).priority)
              || command(old(current).behavior).None?
    {
      var nextCommand := command(current.behavior);
      var (offer, strategy') := Next(strategy, now, sense);
      strategy := strategy';
      if offer.Some? {
        if Above(offer.value.priority, current.priority) || nextCommand.None? {
          current := offer.value;
          return command(current.behavior);
        }
      }
      return nextCommand;
    }
  }
}
