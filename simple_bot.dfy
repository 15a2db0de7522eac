/** The simple example bot (client/examples/simple.rs): it turns a little
    every tick, and cycles rotate, fire, throttle, throttle while sweeping its
    throttle up and down between 0 and 0.99.

    The throttle is kept in hundredths (`THROTTLE_VELOCITY` is one step), so
    the sweep is exact here. */
module SimpleBot {
  import opened Types

  /** One throttle step in direction `dir`: a step that would leave
      [0, 99] hundredths reverses the direction and steps back, so at either
      end the throttle holds for one tick while it turns round. */
  function StepThrottle(t: int, dir: int): (r: (int, int))
    requires 0 <= t <= 99 && (dir == 1 || dir == -1)
    ensures 0 <= r.0 <= 99
    ensures r.1 == 1 || r.1 == -1
    ensures r.1 == dir <==> 0 <= t + dir <= 99
    ensures r.0 == if r.1 == dir then t + dir else t
  {
    var t' := t + dir;
    if t' > 99 then (t' - dir, -dir)
    else if t' < 0 then (t' - dir, -dir)
    else (t', dir)
  }

  /** The command a tick sends, chosen by the new counter value. */
  function Choose(counter: nat, angleBefore: real, throttle: int): (cmd: Command)
    ensures counter % 4 == 0 <==> cmd == Rotate(angleBefore)
    ensures counter % 4 == 1 <==> cmd == Fire
    ensures counter % 4 >= 2 <==> cmd == Throttle(throttle as real / 100.0)
  {
    if counter % 4 == 0 then Rotate(angleBefore)
    else if counter % 4 == 1 then Fire
    else Throttle(throttle as real / 100.0)
  }

  class Player {
    var id: U32
    var angle: real
    var counter: nat
    /** In hundredths. */
    var throttle: int
    var throttleDir: int

    ghost predicate Valid()
      reads this
    {
      0 <= throttle <= 99 && -1 <= throttleDir <= 1
    }

    /** `Player::default()`. */
    constructor ()
      ensures Valid()
      ensures id == 0 && angle == 0.0 && counter == 0 && throttle == 0 && throttleDir == 0
    {
      id, angle, counter, throttle, throttleDir := 0, 0.0, 0, 0, 0;
    }

    /** `Handler::tick` for a state whose own player id is `stateId`. */
    method Tick(stateId: U32) returns (cmd: Command)
      requires Valid()
      modifies this
      ensures Valid()
      ensures id == stateId
      ensures counter == old(counter) + 1
      ensures angle == old(angle) + 0.05
      ensures (throttle, throttleDir) ==
                StepThrottle(old(throttle), if old(throttleDir) == 0 then 1 else old(throttleDir))
      ensures throttleDir == 1 || throttleDir == -1
      ensures cmd == Choose(counter, old(angle), throttle)
    {
      if throttleDir == 0 {
        throttleDir := 1;
      }
      id := stateId;

      var angleBefore := angle;
      angle := angle + 0.05;

      counter := counter + 1;
      throttle := throttle + throttleDir;

      if throttle > 99 {
        throttleDir := -throttleDir;
        throttle := throttle + throttleDir;
      } else if throttle < 0 {
        throttleDir := -throttleDir;
        throttle := throttle + throttleDir;
      }

      cmd := if counter % 4 == 0 then Rotate(angleBefore)
             else if counter % 4 == 1 then Fire
             else Throttle(throttle as real / 100.0);
    }
  }
}
