/** The server's game state (server/src/game.rs): players, dead players
    waiting to respawn, bullets, items, the scoreboard and the survival
    timers, changed by commands and by the passes of `tick`.

    Time is an integer number of milliseconds passed in by the caller; one
    call sees one instant. What tokyo's `randomize`, `Item::new_randomized`,
    `Item::apply_to` and the motion integration produce comes from the
    caller as values or functions; the model keeps what `game.rs` does with
    them. Positions are `real`. */
module Game {
  import opened Types

  const DEAD_PUNISH: int := 3000
  const MAX_CONCURRENT_ITEMS: nat := 20
  const ITEM_SPAWN_TIME: int := 5000
  /** Time until a player starts accruing points for surviving. */
  const SURVIVAL_TIMEOUT: int := 10000
  /** Interval between survival points after that. */
  const SURVIVAL_POINT_INTERVAL: int := 10000
  /** How far in front of its shooter a bullet appears. */
  const MUZZLE_DISTANCE: real := 5.0

  datatype Config = Config(boundX: real, boundY: real)

  datatype PlayerState = PlayerState(id: U32, angle: real, throttle: real, x: real, y: real,
                                     radius: real, bulletLimit: nat, bulletRadius: real,
                                     bulletSpeed: real)

  datatype BulletState = BulletState(id: U32, playerId: U32, angle: real, x: real, y: real,
                                     radius: real, speed: real)

  datatype DeadPlayer = DeadPlayer(respawn: int, player: PlayerState)

  datatype Item = Item(id: U32, x: real, y: real, radius: real)

  /** The circle a `Triangle` stands for: its centre and radius. */
  datatype Disc = Disc(x: real, y: real, radius: real)

  /** `Triangle::is_colliding`: the squared distance between the centres is
      below the squared sum of the radii. */
  predicate IsColliding(a: Disc, b: Disc)
  {
    var dx := b.x - a.x;
    var dy := b.y - a.y;
    var dr := b.radius + a.radius;
    dx * dx + dy * dy < dr * dr
  }

  /** Collision does not depend on which side asks. */
  lemma IsCollidingSymmetric(a: Disc, b: Disc)
    ensures IsColliding(a, b) <==> IsColliding(b, a)
  {
    assert (b.x - a.x) * (b.x - a.x) == (a.x - b.x) * (a.x - b.x);
    assert (b.y - a.y) * (b.y - a.y) == (a.y - b.y) * (a.y - b.y);
  }

  /** Anything with a positive radius collides with itself, which is why
      the pairwise passes skip pairs with equal ids. */
  lemma SelfCollides(a: Disc)
    requires a.radius > 0.0
    ensures IsColliding(a, a)
  {
  }

  function PlayerDisc(p: PlayerState): Disc
  {
    Disc(p.x, p.y, p.radius)
  }

  function BulletDisc(b: BulletState): Disc
  {
    Disc(b.x, b.y, b.radius)
  }

  function ItemDisc(i: Item): Disc
  {
    Disc(i.x, i.y, i.radius)
  }

  /** An id with a circle: what the pairwise passes look at. */
  datatype Body = Body(id: U32, disc: Disc)

  function PlayerBody(p: PlayerState): Body
  {
    Body(p.id, PlayerDisc(p))
  }

  function BulletBody(b: BulletState): Body
  {
    Body(b.id, BulletDisc(b))
  }

  /** A pair the pairwise passes count: different ids, touching circles. */
  predicate Clash(p: Body, q: Body)
  {
    p.id != q.id && IsColliding(p.disc, q.disc)
  }

  function IdOf(p: PlayerState): U32
  {
    p.id
  }

  function DeadIdOf(d: DeadPlayer): U32
  {
    d.player.id
  }

  function Ids(ps: seq<PlayerState>): seq<U32>
  {
    Map(ps, IdOf)
  }

  function DeadIds(ds: seq<DeadPlayer>): seq<U32>
  {
    Map(ds, DeadIdOf)
  }

  function IdSet(ids: seq<U32>): set<U32>
  {
    set x | x in ids
  }

  // ---------------------------------------------------------------------
  // Commands

  /** `Iterator::position`: the first index holding `id`. */
  function IndexOf(ids: seq<U32>, id: U32): (r: Option<nat>)
    ensures r.Some? ==> r.value < |ids| && ids[r.value] == id
                        && forall k :: 0 <= k < r.value ==> ids[k] != id
    ensures r.None? <==> id !in ids
  {
    IndexFrom(ids, id, 0)
  }

  /** The first index from `from` on holding `id`. */
  function IndexFrom(ids: seq<U32>, id: U32, from: nat): (r: Option<nat>)
    requires from <= |ids|
    ensures r.Some? ==> from <= r.value < |ids| && ids[r.value] == id
                        && forall k :: from <= k < r.value ==> ids[k] != id
    ensures r.None? <==> forall k :: from <= k < |ids| ==> ids[k] != id
    decreases |ids| - from
  {
    if from == |ids| then None
    else if ids[from] == id then Some(from)
    else IndexFrom(ids, id, from + 1)
  }

  /** `Vec::remove` of the first element whose key is `id`, if any. */
  function RemoveFirst<T>(s: seq<T>, key: T -> U32, id: U32): seq<T>
  {
    match IndexOf(Map(s, key), id)
    case None => s
    case Some(i) => RemoveAt(s, i)
  }

  /** Removing the first element with key `id` takes exactly one `id` out
      of the keys when there is one, and leaves `s` as it is otherwise. */
  lemma RemoveFirstKeys<T>(s: seq<T>, key: T -> U32, id: U32)
    ensures Bag(RemoveFirst(s, key, id), key) == Bag(s, key) - multiset{id}
    ensures id !in Map(s, key) ==> RemoveFirst(s, key, id) == s
  {
    match IndexOf(Map(s, key), id)
    case None =>
      BagIsMultiset(s, key);
    case Some(i) =>
      BagRemoveAt(s, i, key);
  }

  /** `throttle.max(0.0).min(1.0)`. */
  function ClampThrottle(t: real): (r: real)
    ensures 0.0 <= r <= 1.0
    ensures 0.0 <= t <= 1.0 ==> r == t
    ensures t < 0.0 ==> r == 0.0
    ensures t > 1.0 ==> r == 1.0
  {
    var lo := if t >= 0.0 then t else 0.0;
    if lo <= 1.0 then lo else 1.0
  }

  function OwnedBy(owner: U32): BulletState -> bool
  {
    (b: BulletState) => b.playerId == owner
  }

  /** How many of `owner`'s bullets are in play. */
  function ActiveBullets(bs: seq<BulletState>, owner: U32): nat
  {
    |Filter(bs, OwnedBy(owner))|
  }

  /** The bullet `p` fires, with id `id`; `toVector` is `angle_to_vector`. */
  function Fired(p: PlayerState, id: U32, toVector: real -> (real, real)): BulletState
  {
    var (vx, vy) := toVector(p.angle);
    BulletState(id, p.id, p.angle, p.x + vx * MUZZLE_DISTANCE, p.y + vy * MUZZLE_DISTANCE,
                p.bulletRadius, p.bulletSpeed)
  }

  /** A new bullet counts once towards its shooter's limit and not at all
      towards anyone else's. */
  lemma FiringCountsOnce(bs: seq<BulletState>, b: BulletState)
    ensures ActiveBullets(bs + [b], b.playerId) == ActiveBullets(bs, b.playerId) + 1
    ensures forall o :: o != b.playerId ==> ActiveBullets(bs + [b], o) == ActiveBullets(bs, o)
  {
    FilterAppend(bs, b, OwnedBy(b.playerId));
    forall o | o != b.playerId
      ensures ActiveBullets(bs + [b], o) == ActiveBullets(bs, o)
    {
      FilterAppend(bs, b, OwnedBy(o));
    }
  }

  // ---------------------------------------------------------------------
  // The passes of `tick`, as functions of the state they read

  /** Corpses whose respawn instant has come, and those still waiting. */
  function Due(now: int): DeadPlayer -> bool
  {
    (c: DeadPlayer) => c.respawn <= now
  }

  function Pending(now: int): DeadPlayer -> bool
  {
    (c: DeadPlayer) => !(c.respawn <= now)
  }

  function Corpse(c: DeadPlayer): PlayerState
  {
    c.player
  }

  /** `randomize` re-places a player and keeps its id. */
  function Replaced(randomize: PlayerState -> PlayerState, p: PlayerState): PlayerState
  {
    randomize(p).(id := p.id)
  }

  /** A player sent to the dead list at `now`. */
  function Bury(now: int, randomize: PlayerState -> PlayerState): PlayerState -> DeadPlayer
  {
    (p: PlayerState) => DeadPlayer(now + DEAD_PUNISH, Replaced(randomize, p))
  }

  lemma BuriedIds(ps: seq<PlayerState>, now: int, randomize: PlayerState -> PlayerState)
    ensures DeadIds(Map(ps, Bury(now, randomize))) == Ids(ps)
    ensures Bag(Map(ps, Bury(now, randomize)), DeadIdOf) == Bag(ps, IdOf)
  {
    MapMap(ps, Bury(now, randomize), DeadIdOf, IdOf);
    BagMap(ps, Bury(now, randomize), DeadIdOf, IdOf);
  }

  /** `f.max(lo).min(hi)`. */
  function Clamp(v: real, lo: real, hi: real): real
  {
    var l := if v >= lo then v else lo;
    if l <= hi then l else hi
  }

  /** A player after the motion step: `move` gives the integrated position
      (the physics is not modelled), which is then clamped to the arena. */
  function Moved(move: PlayerState -> (real, real), config: Config): PlayerState -> PlayerState
  {
    (p: PlayerState) =>
      p.(x := Clamp(move(p).0, p.radius, config.boundX - p.radius),
         y := Clamp(move(p).1, p.radius, config.boundY - p.radius))
  }

  /** The motion step keeps a player's id and everything but its position,
      and keeps the whole circle inside the arena whenever it fits. */
  lemma MovedStaysInArena(move: PlayerState -> (real, real), config: Config, p: PlayerState)
    ensures var q := Moved(move, config)(p);
            && q == p.(x := q.x, y := q.y)
            && q.x <= config.boundX - p.radius && q.y <= config.boundY - p.radius
            && (p.radius <= config.boundX - p.radius ==> p.radius <= q.x)
            && (p.radius <= config.boundY - p.radius ==> p.radius <= q.y)
  {
    var q := Moved(move, config)(p);
    assert q.x == Clamp(move(p).0, p.radius, config.boundX - p.radius);
    assert q.y == Clamp(move(p).1, p.radius, config.boundY - p.radius);
  }

  /** A bullet after the motion step; `advance` gives its new position. */
  function Advanced(advance: BulletState -> (real, real)): BulletState -> BulletState
  {
    (b: BulletState) => b.(x := advance(b).0, y := advance(b).1)
  }

  /** The bullets the out-of-bounds pass keeps. */
  function InArena(config: Config): BulletState -> bool
  {
    (b: BulletState) => b.x > b.radius && b.x < config.boundX + b.radius
         && b.y > b.radius && b.y < config.boundY + b.radius
  }

  function Struck<T>(body: T -> Body, struck: set<U32>): T -> bool
  {
    (x: T) => body(x).id in struck
  }

  function Unstruck<T>(body: T -> Body, struck: set<U32>): T -> bool
  {
    (x: T) => !(body(x).id in struck)
  }

  /** `struck` holds both ids of every pair related by `rel`. */
  ghost predicate CoversPairs(bodies: seq<Body>, rel: (Body, Body) -> bool, struck: set<U32>)
  {
    forall a, b :: 0 <= a < |bodies| && 0 <= b < |bodies| && rel(bodies[a], bodies[b]) ==>
      bodies[a].id in struck && bodies[b].id in struck
  }

  /** The ids of the first members of the pairs related by `rel`. */
  ghost function PairIds(bodies: seq<Body>, rel: (Body, Body) -> bool): set<U32>
  {
    set a, b | 0 <= a < |bodies| && 0 <= b < |bodies| && rel(bodies[a], bodies[b]) :: bodies[a].id
  }

  /** Every id in `struck` belongs to a pair related by `rel`. */
  ghost predicate OnlyPairs(bodies: seq<Body>, rel: (Body, Body) -> bool, struck: set<U32>)
  {
    struck <= PairIds(bodies, rel)
  }

  /** `struck` holds every id of a clashing pair. */
  ghost predicate CoversClashes(bodies: seq<Body>, struck: set<U32>)
  {
    CoversPairs(bodies, Clash, struck)
  }

  /** Every id in `struck` belongs to a clashing pair. */
  ghost predicate OnlyClashes(bodies: seq<Body>, struck: set<U32>)
  {
    OnlyPairs(bodies, Clash, struck)
  }

  /** Both ids of every related pair whose first member is among the first
      `i` bodies are in `struck`. */
  ghost predicate RowsCovered(bodies: seq<Body>, rel: (Body, Body) -> bool, struck: set<U32>, i: nat)
  {
    forall a, b :: 0 <= a < |bodies| && a < i && 0 <= b < |bodies| && rel(bodies[a], bodies[b]) ==>
      bodies[a].id in struck && bodies[b].id in struck
  }

  /** Both ids of every pair relating body `i` to one of the first `j`
      bodies are in `struck`. */
  ghost predicate RowCovered(bodies: seq<Body>, rel: (Body, Body) -> bool, struck: set<U32>,
                             i: nat, j: nat)
    requires i < |bodies|
  {
    forall b :: 0 <= b < j && b < |bodies| && rel(bodies[i], bodies[b]) ==>
      bodies[i].id in struck && bodies[b].id in struck
  }

  lemma RowsCoveredGrow(bodies: seq<Body>, rel: (Body, Body) -> bool, struck: set<U32>,
                        more: set<U32>, i: nat)
    requires RowsCovered(bodies, rel, struck, i)
    ensures RowsCovered(bodies, rel, struck + more, i)
  {
  }

  lemma RowCoveredStep(bodies: seq<Body>, rel: (Body, Body) -> bool, struck: set<U32>,
                       more: set<U32>, i: nat, j: nat)
    requires i < |bodies| && j < |bodies|
    requires RowCovered(bodies, rel, struck, i, j)
    requires rel(bodies[i], bodies[j]) ==> bodies[i].id in struck + more && bodies[j].id in struck + more
    ensures RowCovered(bodies, rel, struck + more, i, j + 1)
  {
  }

  lemma RowsCoveredNext(bodies: seq<Body>, rel: (Body, Body) -> bool, struck: set<U32>, i: nat)
    requires i < |bodies|
    requires RowsCovered(bodies, rel, struck, i) && RowCovered(bodies, rel, struck, i, |bodies|)
    ensures RowsCovered(bodies, rel, struck, i + 1)
  {
  }

  /** The nested loop of the pairwise passes: every element against every
      element, collecting both ids of each related pair. */
  method ScanPairs(bodies: seq<Body>, rel: (Body, Body) -> bool) returns (struck: set<U32>)
    requires forall p, q :: rel(p, q) ==> rel(q, p)
    ensures CoversPairs(bodies, rel, struck)
    ensures OnlyPairs(bodies, rel, struck)
  {
    struck := {};
    for i := 0 to |bodies|
      invariant RowsCovered(bodies, rel, struck, i)
      invariant OnlyPairs(bodies, rel, struck)
    {
      for j := 0 to |bodies|
        invariant RowsCovered(bodies, rel, struck, i)
        invariant RowCovered(bodies, rel, struck, i, j)
        invariant OnlyPairs(bodies, rel, struck)
      {
        if rel(bodies[i], bodies[j]) {
          assert rel(bodies[j], bodies[i]);
          assert bodies[i].id in PairIds(bodies, rel);
          assert bodies[j].id in PairIds(bodies, rel);
          RowsCoveredGrow(bodies, rel, struck, {bodies[i].id, bodies[j].id}, i);
          RowCoveredStep(bodies, rel, struck, {bodies[i].id, bodies[j].id}, i, j);
          struck := struck + {bodies[i].id, bodies[j].id};
        } else {
          RowCoveredStep(bodies, rel, struck, {}, i, j);
          assert struck + {} == struck;
        }
      }
      RowsCoveredNext(bodies, rel, struck, i);
    }
  }

  lemma ClashSymmetric(p: Body, q: Body)
    ensures Clash(p, q) ==> Clash(q, p)
  {
    IsCollidingSymmetric(p.disc, q.disc);
  }

  /** The pairwise collision scan: both ids of every clashing pair. */
  method ScanClashes(bodies: seq<Body>) returns (struck: set<U32>)
    ensures CoversClashes(bodies, struck)
    ensures OnlyClashes(bodies, struck)
  {
    forall p, q ensures Clash(p, q) ==> Clash(q, p) {
      ClashSymmetric(p, q);
    }
    struck := ScanPairs(bodies, Clash);
  }

  /** What survives a collision pass: no two survivors with different ids
      touch. */
  lemma UnstruckApart<T>(s: seq<T>, body: T -> Body, struck: set<U32>)
    requires CoversClashes(Map(s, body), struck)
    ensures var r := Filter(s, Unstruck(body, struck));
            forall i, j :: 0 <= i < |r| && 0 <= j < |r| ==> !Clash(body(r[i]), body(r[j]))
  {
    var r := Filter(s, Unstruck(body, struck));
    var bodies := Map(s, body);
    FilterMembers(s, Unstruck(body, struck));
    forall i, j | 0 <= i < |r| && 0 <= j < |r|
      ensures !Clash(body(r[i]), body(r[j]))
    {
      var a :| 0 <= a < |s| && s[a] == r[i];
      var b :| 0 <= b < |s| && s[b] == r[j];
      assert bodies[a] == body(r[i]) && bodies[b] == body(r[j]);
      assert Unstruck(body, struck)(r[i]);
    }
  }

  /** `p` is hit by `b`: they touch and `b` is not `p`'s own bullet. */
  function HitBy(b: BulletState): PlayerState -> bool
  {
    (p: PlayerState) => IsColliding(PlayerDisc(p), BulletDisc(b)) && b.playerId != p.id
  }

  function MissedBy(b: BulletState): PlayerState -> bool
  {
    (p: PlayerState) => !(IsColliding(PlayerDisc(p), BulletDisc(b)) && b.playerId != p.id)
  }

  /** The outcome of the hit pass: the players left alive, the players
      killed (in order), and for each kill the shooter's id and the
      bullet's id. */
  datatype Volley = Volley(alive: seq<PlayerState>, killed: seq<PlayerState>,
                           hits: seq<U32>, used: seq<U32>)

  /** The hit pass over the bullets `bs` in order: each bullet takes out,
      in order, every live player it touches and did not fire. */
  function ShootAll(ps: seq<PlayerState>, bs: seq<BulletState>): (v: Volley)
    ensures |v.killed| == |v.hits| == |v.used|
    decreases |bs|
  {
    if bs == [] then Volley(ps, [], [], [])
    else
      var v := ShootAll(ps, bs[..|bs| - 1]);
      var b := bs[|bs| - 1];
      var victims := Filter(v.alive, HitBy(b));
      Volley(Filter(v.alive, MissedBy(b)), v.killed + victims,
             v.hits + Copies(b.playerId, |victims|), v.used + Copies(b.id, |victims|))
  }

  /** One more bullet of the hit pass. */
  lemma ShootAllStep(ps: seq<PlayerState>, bs: seq<BulletState>, k: nat)
    requires k < |bs|
    ensures var v := ShootAll(ps, bs[..k]);
            var victims := Filter(v.alive, HitBy(bs[k]));
            ShootAll(ps, bs[..k + 1])
            == Volley(Filter(v.alive, MissedBy(bs[k])), v.killed + victims,
                      v.hits + Copies(bs[k].playerId, |victims|), v.used + Copies(bs[k].id, |victims|))
  {
    assert bs[..k + 1][..k] == bs[..k];
  }

  /** A kill of `victim` credited to `shooter` with bullet `bullet` comes
      from a bullet of `bs` with that id and owner that touched the
      victim. */
  ghost predicate Recorded(bs: seq<BulletState>, victim: PlayerState, shooter: U32, bullet: U32)
  {
    exists k :: 0 <= k < |bs| && bs[k].playerId == shooter && bs[k].id == bullet
                && IsColliding(PlayerDisc(victim), BulletDisc(bs[k]))
  }

  /** The `i`th kill of the hit pass was not made by the victim's own
      bullet, and is credited to the owner of a bullet that touched the
      victim. */
  lemma {:induction false} ShootAllCredit(ps: seq<PlayerState>, bs: seq<BulletState>, i: nat)
    requires i < |ShootAll(ps, bs).killed|
    ensures var v := ShootAll(ps, bs);
            v.killed[i].id != v.hits[i] && Recorded(bs, v.killed[i], v.hits[i], v.used[i])
    decreases |bs|
  {
    var bs' := bs[..|bs| - 1];
    var b := bs[|bs| - 1];
    var v' := ShootAll(ps, bs');
    var victims := Filter(v'.alive, HitBy(b));
    var v := ShootAll(ps, bs);
    assert v.killed == v'.killed + victims;
    assert v.hits == v'.hits + Copies(b.playerId, |victims|);
    assert v.used == v'.used + Copies(b.id, |victims|);
    if i < |v'.killed| {
      ShootAllCredit(ps, bs', i);
      var k :| 0 <= k < |bs'| && bs'[k].playerId == v'.hits[i] && bs'[k].id == v'.used[i]
               && IsColliding(PlayerDisc(v'.killed[i]), BulletDisc(bs'[k]));
      assert bs[k] == bs'[k];
    } else {
      var m := i - |v'.killed|;
      assert v.killed[i] == victims[m];
      assert HitBy(b)(victims[m]) by {
        FilterSatisfies(v'.alive, HitBy(b));
      }
    }
  }

  /** Nobody is killed by their own bullet, and every kill is credited to
      the owner of a bullet that touched the victim. */
  lemma ShootAllCredits(ps: seq<PlayerState>, bs: seq<BulletState>)
    ensures var v := ShootAll(ps, bs);
            forall i :: 0 <= i < |v.killed| ==>
              v.killed[i].id != v.hits[i] && Recorded(bs, v.killed[i], v.hits[i], v.used[i])
  {
    forall i | 0 <= i < |ShootAll(ps, bs).killed|
      ensures var v := ShootAll(ps, bs);
              v.killed[i].id != v.hits[i] && Recorded(bs, v.killed[i], v.hits[i], v.used[i])
    {
      ShootAllCredit(ps, bs, i);
    }
  }

  /** The hit pass moves players from alive to killed and loses none. */
  lemma {:induction false} ShootAllConserves(ps: seq<PlayerState>, bs: seq<BulletState>)
    ensures var v := ShootAll(ps, bs);
            Bag(v.alive, IdOf) + Bag(v.killed, IdOf) == Bag(ps, IdOf)
    decreases |bs|
  {
    if bs != [] {
      var bs' := bs[..|bs| - 1];
      var b := bs[|bs| - 1];
      ShootAllConserves(ps, bs');
      var v' := ShootAll(ps, bs');
      BagPartition(v'.alive, MissedBy(b), HitBy(b), IdOf);
      BagConcat(v'.killed, Filter(v'.alive, HitBy(b)), IdOf);
    }
  }

  function Touches(item: Item): PlayerState -> bool
  {
    (p: PlayerState) => IsColliding(PlayerDisc(p), ItemDisc(item))
  }

  /** A player after `item` is checked against it: `applyTo` (tokyo's
      `Item::apply_to`, not modelled) acts on a player it touches; the id is
      kept. */
  function Apply(item: Item, applyTo: (Item, PlayerState) -> PlayerState): PlayerState -> PlayerState
  {
    (p: PlayerState) => if IsColliding(PlayerDisc(p), ItemDisc(item)) then applyTo(item, p).(id := p.id) else p
  }

  /** The item pass over `items` in order: the players afterwards, and the
      item id recorded once per player each item touched. */
  function UseAll(items: seq<Item>, ps: seq<PlayerState>, applyTo: (Item, PlayerState) -> PlayerState)
    : (r: (seq<PlayerState>, seq<U32>))
    ensures |r.0| == |ps|
    decreases |items|
  {
    if items == [] then (ps, [])
    else
      var (ps', used) := UseAll(items[..|items| - 1], ps, applyTo);
      var item := items[|items| - 1];
      (Map(ps', Apply(item, applyTo)), used + Copies(item.id, |Filter(ps', Touches(item))|))
  }

  /** Items change players but never their ids or their order. */
  lemma {:induction false} UseAllKeepsIds(items: seq<Item>, ps: seq<PlayerState>,
                                          applyTo: (Item, PlayerState) -> PlayerState)
    ensures Ids(UseAll(items, ps, applyTo).0) == Ids(ps)
    decreases |items|
  {
    if items != [] {
      var items' := items[..|items| - 1];
      UseAllKeepsIds(items', ps, applyTo);
      var ps' := UseAll(items', ps, applyTo).0;
      assert UseAll(items, ps, applyTo).0 == Map(ps', Apply(items[|items| - 1], applyTo));
      MapMap(ps', Apply(items[|items| - 1], applyTo), IdOf, IdOf);
    }
  }

  /** Items never change who is playing. */
  lemma UseAllKeepsRoster(items: seq<Item>, ps: seq<PlayerState>,
                          applyTo: (Item, PlayerState) -> PlayerState)
    ensures Bag(UseAll(items, ps, applyTo).0, IdOf) == Bag(ps, IdOf)
  {
    UseAllKeepsIds(items, ps, applyTo);
    BagIsMultiset(UseAll(items, ps, applyTo).0, IdOf);
    BagIsMultiset(ps, IdOf);
  }

  /** An item id is recorded only for an item that was there. */
  lemma {:induction false} UseAllRecordsItems(items: seq<Item>, ps: seq<PlayerState>,
                                              applyTo: (Item, PlayerState) -> PlayerState)
    ensures forall x :: x in UseAll(items, ps, applyTo).1 ==> exists k :: 0 <= k < |items| && items[k].id == x
    decreases |items|
  {
    if items != [] {
      var items' := items[..|items| - 1];
      var item := items[|items| - 1];
      UseAllRecordsItems(items', ps, applyTo);
      var (ps', used) := UseAll(items', ps, applyTo);
      assert UseAll(items, ps, applyTo).1 == used + Copies(item.id, |Filter(ps', Touches(item))|);
      forall x | x in UseAll(items, ps, applyTo).1
        ensures exists k :: 0 <= k < |items| && items[k].id == x
      {
        if x in used {
          var k :| 0 <= k < |items'| && items'[k].id == x;
          assert items[k] == items'[k];
        } else {
          assert items[|items| - 1].id == x;
        }
      }
    }
  }

  function NotIn(used: seq<U32>): Item -> bool
  {
    (i: Item) => !(i.id in used)
  }

  function BulletNotIn(used: seq<U32>): BulletState -> bool
  {
    (b: BulletState) => !(b.id in used)
  }

  /** One more hit is one more point for its shooter. */
  lemma AddHitsSnoc(board: map<U32, nat>, hits: seq<U32>, h: U32)
    ensures AddHits(board, hits + [h]) == AddHits(board, hits)[h := Get(AddHits(board, hits), h, 0) + 1]
  {
    assert (hits + [h])[..|hits|] == hits;
  }

  /** The scoreboard after `hits`: one point per entry, from 0 for a
      shooter not yet on it (`entry().or_default() += 1`). */
  function AddHits(board: map<U32, nat>, hits: seq<U32>): (r: map<U32, nat>)
    ensures r.Keys == board.Keys + IdSet(hits)
    ensures forall id :: Get(r, id, 0) == Get(board, id, 0) + Count(hits, id)
    decreases |hits|
  {
    if hits == [] then board
    else
      var r := AddHits(board, hits[..|hits| - 1]);
      var h := hits[|hits| - 1];
      r[h := Get(r, h, 0) + 1]
  }


  /** The survival timers after each id of `ids` is restarted to `t`. */
  function Restarted(st: map<U32, int>, ids: seq<U32>, t: int): map<U32, int>
    decreases |ids|
  {
    if ids == [] then st else Restarted(st, ids[..|ids| - 1], t)[ids[|ids| - 1] := t]
  }

  lemma RestartedSnoc(st: map<U32, int>, ids: seq<U32>, x: U32, t: int)
    ensures Restarted(st, ids + [x], t) == Restarted(st, ids, t)[x := t]
  {
    assert (ids + [x])[..|ids + [x]| - 1] == ids;
  }

  /** Players with the ids `ids`, the k-th placed by `place(k)`. */
  function Placed(ids: seq<U32>, place: nat -> PlayerState): seq<PlayerState>
  {
    seq(|ids|, k requires 0 <= k < |ids| => place(k).(id := ids[k]))
  }

  /** The placed players carry exactly the ids `ids`, in order, each
      otherwise as `place` puts it. */
  lemma PlacedIds(ids: seq<U32>, place: nat -> PlayerState)
    ensures Ids(Placed(ids, place)) == ids
    ensures forall k :: 0 <= k < |ids| ==> Placed(ids, place)[k] == place(k).(id := ids[k])
  {
  }

  /** Restarting gives a timer to every id of `ids`, set to `t`, and leaves
      the other timers as they were. */
  lemma {:induction false} RestartedTimers(st: map<U32, int>, ids: seq<U32>, t: int)
    ensures Restarted(st, ids, t).Keys == st.Keys + IdSet(ids)
    ensures forall id :: id in Restarted(st, ids, t) ==>
              Restarted(st, ids, t)[id] == if id in ids then t else st[id]
    decreases |ids|
  {
    if ids != [] {
      var ids' := ids[..|ids| - 1];
      RestartedTimers(st, ids', t);
      assert ids == ids' + [ids[|ids| - 1]];
    }
  }

  lemma BuriedConcat<T>(ds: seq<DeadPlayer>, a: seq<T>, b: seq<T>, f: T -> DeadPlayer)
    ensures ds + Map(a, f) + Map(b, f) == ds + Map(a + b, f)
  {
    MapConcat(a, b, f);
  }

  lemma RestartedIdsConcat(st: map<U32, int>, a: seq<PlayerState>, b: seq<PlayerState>, t: int)
    ensures Restarted(Restarted(st, Ids(a), t), Ids(b), t) == Restarted(st, Ids(a + b), t)
  {
    MapConcat(a, b, IdOf);
    RestartedConcat(st, Ids(a), Ids(b), t);
  }

  lemma {:induction false} RestartedConcat(st: map<U32, int>, a: seq<U32>, b: seq<U32>, t: int)
    ensures Restarted(st, a + b, t) == Restarted(Restarted(st, a, t), b, t)
    decreases |b|
  {
    if b == [] {
      assert a + b == a;
    } else {
      var b' := b[..|b| - 1];
      assert (a + b)[..|a + b| - 1] == a + b';
      RestartedConcat(st, a, b', t);
    }
  }

  // ---------------------------------------------------------------------
  // Who is playing: each pass moves players between the live and the dead
  // lists and loses or invents none

  lemma ReviveKeepsRoster(ps: seq<PlayerState>, ds: seq<DeadPlayer>, now: int)
    ensures Bag(ps + Map(Filter(ds, Due(now)), Corpse), IdOf) + Bag(Filter(ds, Pending(now)), DeadIdOf)
            == Bag(ps, IdOf) + Bag(ds, DeadIdOf)
  {
    BagPartition(ds, Pending(now), Due(now), DeadIdOf);
    BagMap(Filter(ds, Due(now)), Corpse, IdOf, DeadIdOf);
    BagConcat(ps, Map(Filter(ds, Due(now)), Corpse), IdOf);
  }

  lemma MoveKeepsRoster(ps: seq<PlayerState>, move: PlayerState -> (real, real), config: Config)
    ensures Ids(Map(ps, Moved(move, config))) == Ids(ps)
    ensures Bag(Map(ps, Moved(move, config)), IdOf) == Bag(ps, IdOf)
  {
    MapMap(ps, Moved(move, config), IdOf, IdOf);
    BagMap(ps, Moved(move, config), IdOf, IdOf);
  }

  lemma KillKeepsRoster(ps: seq<PlayerState>, ds: seq<DeadPlayer>, struck: set<U32>, now: int,
                        randomize: PlayerState -> PlayerState)
    ensures Bag(Filter(ps, Unstruck(PlayerBody, struck)), IdOf)
            + Bag(ds + Map(Filter(ps, Struck(PlayerBody, struck)), Bury(now, randomize)), DeadIdOf)
            == Bag(ps, IdOf) + Bag(ds, DeadIdOf)
  {
    var victims := Filter(ps, Struck(PlayerBody, struck));
    BagPartition(ps, Unstruck(PlayerBody, struck), Struck(PlayerBody, struck), IdOf);
    BuriedIds(victims, now, randomize);
    BagConcat(ds, Map(victims, Bury(now, randomize)), DeadIdOf);
  }

  lemma ShootKeepsRoster(ps: seq<PlayerState>, bs: seq<BulletState>, ds: seq<DeadPlayer>, now: int,
                         randomize: PlayerState -> PlayerState)
    ensures var v := ShootAll(ps, bs);
            Bag(v.alive, IdOf) + Bag(ds + Map(v.killed, Bury(now, randomize)), DeadIdOf)
            == Bag(ps, IdOf) + Bag(ds, DeadIdOf)
  {
    var v := ShootAll(ps, bs);
    ShootAllConserves(ps, bs);
    BuriedIds(v.killed, now, randomize);
    BagConcat(ds, Map(v.killed, Bury(now, randomize)), DeadIdOf);
  }

  /** Replacing a player by one with the same id keeps the roster. */
  lemma UpdateKeepsRoster(ps: seq<PlayerState>, i: nat, p: PlayerState)
    requires i < |ps| && p.id == ps[i].id
    ensures Bag(ps[i := p], IdOf) == Bag(ps, IdOf)
  {
    assert Ids(ps[i := p]) == Ids(ps);
    BagIsMultiset(ps[i := p], IdOf);
    BagIsMultiset(ps, IdOf);
  }

  /** The players `reset` places are the old live players then the old
      corpses, one each: nobody joins or leaves. */
  lemma ResetKeepsRoster(ps: seq<PlayerState>, ds: seq<DeadPlayer>, place: nat -> PlayerState)
    ensures Bag(Placed(Ids(ps) + DeadIds(ds), place), IdOf) + Bag([], DeadIdOf)
            == Bag(ps, IdOf) + Bag(ds, DeadIdOf)
  {
    var ps' := Placed(Ids(ps) + DeadIds(ds), place);
    PlacedIds(Ids(ps) + DeadIds(ds), place);
    BagIsMultiset(ps', IdOf);
    BagIsMultiset(ps, IdOf);
    BagIsMultiset(ds, DeadIdOf);
  }

  // ---------------------------------------------------------------------
  // The game

  class Game {
    const config: Config
    var players: seq<PlayerState>
    var bullets: seq<BulletState>
    var dead: seq<DeadPlayer>
    var items: seq<Item>
    var scoreboard: map<U32, nat>
    var bulletIdCounter: U32
    var itemIdCounter: U32
    /** When each player next earns a survival point. */
    var survivalTimes: map<U32, int>
    var lastItemSpawnAt: int

    /** Spawning stops at the cap and nothing else adds items. */
    ghost predicate Valid()
      reads this`items
    {
      |items| <= MAX_CONCURRENT_ITEMS
    }

    /** Nothing in play but the players: no bullets, corpses, items or
        scores, both id counters at 0, and the last item spawn at `now`
        (what `Game::new` sets up). */
    ghost predicate Cleared(now: int)
      reads this`bullets, this`dead, this`items, this`scoreboard
      reads this`bulletIdCounter, this`itemIdCounter, this`lastItemSpawnAt
    {
      bullets == [] && dead == [] && items == [] && scoreboard == map[]
      && bulletIdCounter == 0 && itemIdCounter == 0 && lastItemSpawnAt == now
    }

    /** The live players' ids, then the dead players' ids. */
    function AllIds(): seq<U32>
      reads this`players, this`dead
    {
      Ids(players) + DeadIds(dead)
    }

    /** Every id in play, alive or dead, with multiplicity. */
    ghost function Roster(): multiset<U32>
      reads this`players, this`dead
    {
      Bag(players, IdOf) + Bag(dead, DeadIdOf)
    }

    /** `Game::new` at instant `now`, with an empty `GameState`. */
    constructor (config: Config, now: int)
      ensures Valid() && this.config == config
      ensures players == [] && bullets == [] && dead == [] && items == []
      ensures scoreboard == map[] && survivalTimes == map[]
      ensures bulletIdCounter == 0 && itemIdCounter == 0 && lastItemSpawnAt == now
    {
      this.config := config;
      players, bullets, dead, items := [], [], [], [];
      scoreboard, survivalTimes := map[], map[];
      bulletIdCounter, itemIdCounter := 0, 0;
      lastItemSpawnAt := now;
    }

    /** What `add_player` does: the spawned player joins the live players
        under `id` and its survival timer starts; nothing else changes. */
    twostate predicate PlayerAdded(id: U32, spawn: PlayerState, now: int)
      reads this
    {
      && players == old(players) + [spawn.(id := id)]
      && survivalTimes == old(survivalTimes)[id := now + SURVIVAL_TIMEOUT]
      && bullets == old(bullets) && dead == old(dead) && items == old(items)
      && scoreboard == old(scoreboard) && bulletIdCounter == old(bulletIdCounter)
      && itemIdCounter == old(itemIdCounter) && lastItemSpawnAt == old(lastItemSpawnAt)
    }

    /** `add_player` at instant `now`; `spawn` is the randomized placement. */
    method AddPlayer(id: U32, spawn: PlayerState, now: int)
      requires Valid()
      modifies this`players, this`survivalTimes
      ensures Valid()
      ensures PlayerAdded(id, spawn, now)
      ensures Roster() == old(Roster()) + multiset{id}
    {
      BagSnoc(players, spawn.(id := id), IdOf);
      players := players + [spawn.(id := id)];
      survivalTimes := survivalTimes[id := now + SURVIVAL_TIMEOUT];
    }

    /** The players and survival timers of the new game `reset` builds:
        `add_player` for each of `ids` in turn. */
    static method Rejoin(ids: seq<U32>, place: nat -> PlayerState, now: int)
      returns (ps: seq<PlayerState>, st: map<U32, int>)
      ensures ps == Placed(ids, place)
      ensures st == Restarted(map[], ids, now + SURVIVAL_TIMEOUT)
    {
      ps, st := [], map[];
      for i := 0 to |ids|
        invariant ps == Placed(ids[..i], place)
        invariant st == Restarted(map[], ids[..i], now + SURVIVAL_TIMEOUT)
      {
        ps := ps + [place(i).(id := ids[i])];
        st := st[ids[i] := now + SURVIVAL_TIMEOUT];
        assert ids[..i + 1] == ids[..i] + [ids[i]];
        assert st == Restarted(map[], ids[..i + 1], now + SURVIVAL_TIMEOUT) by {
          RestartedSnoc(map[], ids[..i], ids[i], now + SURVIVAL_TIMEOUT);
        }
      }
      assert ids[..|ids|] == ids;
    }

    /** What `reset` does: the live players' ids, then the dead players'
        ids, are placed anew with fresh survival timers, and nothing else
        stays in play. */
    twostate predicate Restarting(place: nat -> PlayerState, now: int)
      reads this
    {
      && players == Placed(old(AllIds()), place)
      && survivalTimes == Restarted(map[], old(AllIds()), now + SURVIVAL_TIMEOUT)
      && Cleared(now)
    }

    /** `reset` at instant `now`: a new game holding the live players'
        ids, then the dead players' ids, the k-th of them placed by
        `place(k)`. */
    method Reset(place: nat -> PlayerState, now: int)
      requires Valid()
      modifies this`players, this`bullets, this`dead, this`items, this`scoreboard
      modifies this`survivalTimes, this`bulletIdCounter, this`itemIdCounter, this`lastItemSpawnAt
      ensures Valid()
      ensures Restarting(place, now)
      ensures Roster() == old(Roster())
    {
      ResetKeepsRoster(players, dead, place);
      var ids := AllIds();
      var ps, st := Rejoin(ids, place, now);
      players, bullets, dead, items := ps, [], [], [];
      scoreboard, survivalTimes := map[], st;
      bulletIdCounter, itemIdCounter := 0, 0;
      lastItemSpawnAt := now;
    }

    /** What `player_left` does: the first live and the first dead entry
        with `id` go, and so do its score and its survival timer; nothing
        else changes. */
    twostate predicate PlayerRemoved(id: U32)
      reads this
    {
      && players == RemoveFirst(old(players), IdOf, id)
      && dead == RemoveFirst(old(dead), DeadIdOf, id)
      && scoreboard == old(scoreboard) - {id}
      && survivalTimes == old(survivalTimes) - {id}
      && bullets == old(bullets) && items == old(items) && bulletIdCounter == old(bulletIdCounter)
      && itemIdCounter == old(itemIdCounter) && lastItemSpawnAt == old(lastItemSpawnAt)
    }

    /** `player_left`: the first live and the first dead entry with `id`
        go, and so do its score and its survival timer. */
    method PlayerLeft(id: U32)
      requires Valid()
      modifies this`players, this`dead, this`scoreboard, this`survivalTimes
      ensures Valid()
      ensures PlayerRemoved(id)
      ensures Bag(players, IdOf) == Bag(old(players), IdOf) - multiset{id}
      ensures Bag(dead, DeadIdOf) == Bag(old(dead), DeadIdOf) - multiset{id}
      ensures id !in old(Ids(players)) && id !in old(DeadIds(dead)) ==>
                players == old(players) && dead == old(dead)
    {
      RemoveFirstKeys(players, IdOf, id);
      RemoveFirstKeys(dead, DeadIdOf, id);
      players, dead := RemoveFirst(players, IdOf, id), RemoveFirst(dead, DeadIdOf, id);
      scoreboard, survivalTimes := scoreboard - {id}, survivalTimes - {id};
      assert items == old(items);
    }

    /** What `handle_cmd` does: a command for an id that is not a live
        player does nothing; otherwise Rotate sets the heading, Throttle
        stores the clamped value, and Fire adds one bullet while the shooter
        has fewer than its limit in play; nothing else changes. `toVector`
        is `angle_to_vector`. */
    twostate predicate Commanded(id: U32, cmd: Command, toVector: real -> (real, real))
      reads this
    {
      && dead == old(dead) && items == old(items) && scoreboard == old(scoreboard)
      && survivalTimes == old(survivalTimes) && itemIdCounter == old(itemIdCounter)
      && lastItemSpawnAt == old(lastItemSpawnAt)
      && match IndexOf(Ids(old(players)), id)
      case None =>
        players == old(players) && bullets == old(bullets)
        && bulletIdCounter == old(bulletIdCounter)
      case Some(i) =>
        var p := old(players)[i];
        match cmd
        case Rotate(a) =>
          players == old(players)[i := p.(angle := a)]
          && bullets == old(bullets) && bulletIdCounter == old(bulletIdCounter)
        case Throttle(t) =>
          players == old(players)[i := p.(throttle := ClampThrottle(t))]
          && bullets == old(bullets) && bulletIdCounter == old(bulletIdCounter)
        case Fire =>
          players == old(players)
          && if ActiveBullets(old(bullets), id) < p.bulletLimit
             then bullets == old(bullets) + [Fired(p, old(bulletIdCounter), toVector)]
                  && bulletIdCounter == WrappingInc(old(bulletIdCounter))
                  && ActiveBullets(bullets, id) == ActiveBullets(old(bullets), id) + 1
                  && ActiveBullets(bullets, id) <= p.bulletLimit
             else bullets == old(bullets) && bulletIdCounter == old(bulletIdCounter)
    }

    /** `handle_cmd`; it keeps every player in play. */
    method HandleCmd(id: U32, cmd: Command, toVector: real -> (real, real))
      requires Valid()
      modifies this`players, this`bullets, this`bulletIdCounter
      ensures Valid()
      ensures Commanded(id, cmd, toVector)
      ensures Roster() == old(Roster())
    {
      var found := IndexOf(Ids(players), id);
      if found.Some? {
        var i := found.value;
        var p := players[i];
        match cmd {
          case Rotate(a) =>
            UpdateKeepsRoster(players, i, p.(angle := a));
            players := players[i := p.(angle := a)];
          case Throttle(t) =>
            UpdateKeepsRoster(players, i, p.(throttle := ClampThrottle(t)));
            players := players[i := p.(throttle := ClampThrottle(t))];
          case Fire =>
            if ActiveBullets(bullets, p.id) < p.bulletLimit {
              var bulletId := bulletIdCounter;
              bulletIdCounter := WrappingInc(bulletIdCounter);
              var b := Fired(p, bulletId, toVector);
              FiringCountsOnce(bullets, b);
              bullets := bullets + [b];
            }
        }
      }
    }

    /** The revive pass: corpses due at `now` rejoin the live players, in
        order; the rest keep waiting. */
    method Revive(now: int)
      requires Valid()
      modifies this`players, this`dead
      ensures Valid()
      ensures dead == Filter(old(dead), Pending(now))
      ensures players == old(players) + Map(Filter(old(dead), Due(now)), Corpse)
      ensures forall k :: 0 <= k < |dead| ==> dead[k].respawn > now
      ensures Roster() == old(Roster())
    {
      ghost var ps, ds := players, dead;
      var revived := Map(Filter(dead, Due(now)), Corpse);
      dead := Filter(dead, Pending(now));
      players := players + revived;
      assert forall k :: 0 <= k < |dead| ==> dead[k].respawn > now by {
        FilterSatisfies(ds, Pending(now));
      }
      assert Roster() == old(Roster()) by {
        ReviveKeepsRoster(ps, ds, now);
      }
    }

    /** The item spawn: more than `ITEM_SPAWN_TIME` after the last spawn and
        below the cap, `spawned` (the randomized item) joins with the next
        item id. */
    method SpawnItem(now: int, spawned: Item)
      requires Valid()
      modifies this`items, this`itemIdCounter, this`lastItemSpawnAt
      ensures Valid()
      ensures if now - old(lastItemSpawnAt) > ITEM_SPAWN_TIME && |old(items)| < MAX_CONCURRENT_ITEMS
              then items == old(items) + [spawned.(id := old(itemIdCounter))]
                   && itemIdCounter == WrappingInc(old(itemIdCounter)) && lastItemSpawnAt == now
              else items == old(items) && itemIdCounter == old(itemIdCounter)
                   && lastItemSpawnAt == old(lastItemSpawnAt)
      ensures Roster() == old(Roster())
    {
      if now - lastItemSpawnAt > ITEM_SPAWN_TIME && |items| < MAX_CONCURRENT_ITEMS {
        var itemId := itemIdCounter;
        itemIdCounter := WrappingInc(itemIdCounter);
        items := items + [spawned.(id := itemId)];
        lastItemSpawnAt := now;
      }
    }

    /** Each bullet advanced by `advance`, in order. */
    static method AdvanceBullets(bs: seq<BulletState>, advance: BulletState -> (real, real))
      returns (r: seq<BulletState>)
      ensures r == Map(bs, Advanced(advance))
    {
      r := bs;
      for k := 0 to |r|
        invariant |r| == |bs|
        invariant forall m :: 0 <= m < k ==> r[m] == Advanced(advance)(bs[m])
        invariant forall m :: k <= m < |r| ==> r[m] == bs[m]
      {
        var b := r[k];
        r := r[k := b.(x := advance(b).0, y := advance(b).1)];
      }
    }

    /** Each player moved by `move` and clamped into the arena, in order. */
    static method MovePlayers(ps: seq<PlayerState>, move: PlayerState -> (real, real), config: Config)
      returns (r: seq<PlayerState>)
      ensures r == Map(ps, Moved(move, config))
    {
      r := ps;
      for k := 0 to |r|
        invariant |r| == |ps|
        invariant forall m :: 0 <= m < k ==> r[m] == Moved(move, config)(ps[m])
        invariant forall m :: k <= m < |r| ==> r[m] == ps[m]
      {
        var p := r[k];
        var (nx, ny) := move(p);
        r := r[k := p.(x := Clamp(nx, p.radius, config.boundX - p.radius),
                       y := Clamp(ny, p.radius, config.boundY - p.radius))];
      }
    }

    /** The motion step: each bullet, then each player, in place. */
    method Move(advance: BulletState -> (real, real), move: PlayerState -> (real, real))
      requires Valid()
      modifies this`players, this`bullets
      ensures Valid()
      ensures bullets == Map(old(bullets), Advanced(advance))
      ensures players == Map(old(players), Moved(move, config))
      ensures Roster() == old(Roster())
    {
      MoveKeepsRoster(players, move, config);
      bullets := AdvanceBullets(bullets, advance);
      players := MovePlayers(players, move, config);
    }

    /** The out-of-bounds pass. */
    method DropStrayBullets()
      requires Valid()
      modifies this`bullets
      ensures Valid()
      ensures bullets == Filter(old(bullets), InArena(config))
      ensures Roster() == old(Roster())
    {
      bullets := Filter(bullets, InArena(config));
    }

    /** The bullet-collision pass: every bullet touching another bullet is
        removed with its partner. */
    method DropClashingBullets() returns (struck: set<U32>)
      requires Valid()
      modifies this`bullets
      ensures Valid()
      ensures CoversClashes(Map(old(bullets), BulletBody), struck)
      ensures OnlyClashes(Map(old(bullets), BulletBody), struck)
      ensures bullets == Filter(old(bullets), Unstruck(BulletBody, struck))
      ensures forall i, j :: 0 <= i < |bullets| && 0 <= j < |bullets| ==>
                !Clash(BulletBody(bullets[i]), BulletBody(bullets[j]))
      ensures Roster() == old(Roster())
    {
      struck := ScanClashes(Map(bullets, BulletBody));
      UnstruckApart(bullets, BulletBody, struck);
      bullets := Filter(bullets, Unstruck(BulletBody, struck));
    }

    /** `victims` appended, in order, to the dead list `ds`, each re-placed
        by `randomize` and due back `DEAD_PUNISH` after `now`. */
    static method BuryAll(ds: seq<DeadPlayer>, victims: seq<PlayerState>, now: int,
                          randomize: PlayerState -> PlayerState)
      returns (r: seq<DeadPlayer>)
      ensures r == ds + Map(victims, Bury(now, randomize))
    {
      r := ds;
      for m := 0 to |victims|
        invariant r == ds + Map(victims[..m], Bury(now, randomize))
      {
        assert victims[..m + 1][..m] == victims[..m];
        r := r + [DeadPlayer(now + DEAD_PUNISH, Replaced(randomize, victims[m]))];
      }
      assert victims[..|victims|] == victims;
    }

    /** The survival timers `st` with the timer of each player of `victims`
        restarted to `t`. */
    static method RestartAll(st: map<U32, int>, victims: seq<PlayerState>, t: int)
      returns (r: map<U32, int>)
      ensures r == Restarted(st, Ids(victims), t)
    {
      r := st;
      ghost var ids := Ids(victims);
      for m := 0 to |victims|
        invariant r == Restarted(st, ids[..m], t)
      {
        assert ids[m] == victims[m].id;
        assert ids[..m + 1] == ids[..m] + [ids[m]];
        RestartedSnoc(st, ids[..m], ids[m], t);
        r := r[victims[m].id := t];
      }
      assert ids[..|victims|] == ids;
    }

    /** The player-collision pass: every player touching another player
        goes to the dead list, re-placed by `randomize`, to respawn
        `DEAD_PUNISH` after `now`. */
    method KillClashingPlayers(now: int, randomize: PlayerState -> PlayerState)
      returns (struck: set<U32>)
      requires Valid()
      modifies this`players, this`dead
      ensures Valid()
      ensures CoversClashes(Map(old(players), PlayerBody), struck)
      ensures OnlyClashes(Map(old(players), PlayerBody), struck)
      ensures players == Filter(old(players), Unstruck(PlayerBody, struck))
      ensures dead == old(dead) + Map(Filter(old(players), Struck(PlayerBody, struck)),
                                      Bury(now, randomize))
      ensures forall i, j :: 0 <= i < |players| && 0 <= j < |players| ==>
                !Clash(PlayerBody(players[i]), PlayerBody(players[j]))
      ensures Roster() == old(Roster())
    {
      struck := ScanClashes(Map(players, PlayerBody));
      UnstruckApart(players, PlayerBody, struck);
      var victims := Filter(players, Struck(PlayerBody, struck));
      var ds := BuryAll(dead, victims, now, randomize);
      ghost var ps0, ds0 := players, dead;
      players := Filter(players, Unstruck(PlayerBody, struck));
      dead := ds;
      assert Roster() == old(Roster()) by {
        KillKeepsRoster(ps0, ds0, struck, now, randomize);
      }
    }

    /** The hit pass: for each bullet in order, every live player it
        touches and did not fire dies, is re-placed by `randomize`, has its
        survival timer restarted, and is credited to the shooter. Returns
        the shooters' ids and the bullets' ids, one entry per kill. */
    method Shoot(now: int, randomize: PlayerState -> PlayerState)
      returns (hits: seq<U32>, used: seq<U32>)
      requires Valid()
      modifies this`players, this`dead, this`survivalTimes
      ensures Valid()
      ensures var v := ShootAll(old(players), bullets);
              && players == v.alive && hits == v.hits && used == v.used
              && dead == old(dead) + Map(v.killed, Bury(now, randomize))
              && survivalTimes == Restarted(old(survivalTimes), Ids(v.killed), now + SURVIVAL_TIMEOUT)
      ensures Roster() == old(Roster())
    {
      ShootKeepsRoster(players, bullets, dead, now, randomize);
      var ps, ds, st;
      ps, ds, st, hits, used := ShootPass(players, bullets, dead, survivalTimes, now, randomize);
      players, dead, survivalTimes := ps, ds, st;
    }

    /** The hit pass on values: `ps` the live players, `bs` the bullets,
        `ds` the dead list and `st` the survival timers before the pass. */
    static method ShootPass(ps0: seq<PlayerState>, bs: seq<BulletState>, ds0: seq<DeadPlayer>,
                            st0: map<U32, int>, now: int, randomize: PlayerState -> PlayerState)
      returns (ps: seq<PlayerState>, ds: seq<DeadPlayer>, st: map<U32, int>,
               hits: seq<U32>, used: seq<U32>)
      ensures var v := ShootAll(ps0, bs);
              && ps == v.alive && hits == v.hits && used == v.used
              && ds == ds0 + Map(v.killed, Bury(now, randomize))
              && st == Restarted(st0, Ids(v.killed), now + SURVIVAL_TIMEOUT)
    {
      ps, ds, st := ps0, ds0, st0;
      hits, used := [], [];
      var t := now + SURVIVAL_TIMEOUT;
      ghost var killed: seq<PlayerState> := [];
      for k := 0 to |bs|
        invariant ShootAll(ps0, bs[..k]) == Volley(ps, killed, hits, used)
        invariant ds == ds0 + Map(killed, Bury(now, randomize))
        invariant st == Restarted(st0, Ids(killed), t)
      {
        var b := bs[k];
        var victims := Filter(ps, HitBy(b));
        ShootAllStep(ps0, bs, k);
        ps := Filter(ps, MissedBy(b));
        hits := hits + Copies(b.playerId, |victims|);
        used := used + Copies(b.id, |victims|);
        BuriedConcat(ds0, killed, victims, Bury(now, randomize));
        RestartedIdsConcat(st0, killed, victims, t);
        ds := BuryAll(ds, victims, now, randomize);
        st := RestartAll(st, victims, t);
        killed := killed + victims;
      }
      assert bs[..|bs|] == bs;
    }

    /** One item of the item pass against each live player, in order: a
        touched player gets the item applied, and the item's id is recorded
        once per touch. */
    static method TouchPlayers(ps: seq<PlayerState>, item: Item,
                               applyTo: (Item, PlayerState) -> PlayerState)
      returns (r: seq<PlayerState>, touched: seq<U32>)
      ensures r == Map(ps, Apply(item, applyTo))
      ensures touched == Copies(item.id, |Filter(ps, Touches(item))|)
    {
      r, touched := ps, [];
      for j := 0 to |ps|
        invariant |r| == |ps|
        invariant forall m :: 0 <= m < j ==> r[m] == Apply(item, applyTo)(ps[m])
        invariant forall m :: j <= m < |ps| ==> r[m] == ps[m]
        invariant touched == Copies(item.id, |Filter(ps[..j], Touches(item))|)
      {
        assert ps[..j + 1] == ps[..j] + [ps[j]];
        FilterAppend(ps[..j], ps[j], Touches(item));
        var p := r[j];
        if IsColliding(PlayerDisc(p), ItemDisc(item)) {
          r := r[j := applyTo(item, p).(id := p.id)];
          touched := touched + [item.id];
        }
      }
      assert ps[..|ps|] == ps;
    }

    /** The item pass: each item, in order, is checked against each live
        player, in order; a touch applies the item and records its id, and
        afterwards the recorded items are removed. */
    method UseItems(applyTo: (Item, PlayerState) -> PlayerState)
      requires Valid()
      modifies this`players, this`items
      ensures Valid()
      ensures var (ps, usedItems) := UseAll(old(items), old(players), applyTo);
              players == ps && items == Filter(old(items), NotIn(usedItems))
      ensures |items| <= |old(items)|
      ensures Roster() == old(Roster())
    {
      UseAllKeepsRoster(items, players, applyTo);
      var ps, usedItems := UsePass(items, players, applyTo);
      players, items := ps, Filter(items, NotIn(usedItems));
    }

    /** The item loops on values: `ps0` the live players before the pass. */
    static method UsePass(its: seq<Item>, ps0: seq<PlayerState>,
                          applyTo: (Item, PlayerState) -> PlayerState)
      returns (ps: seq<PlayerState>, usedItems: seq<U32>)
      ensures (ps, usedItems) == UseAll(its, ps0, applyTo)
    {
      ps, usedItems := ps0, [];
      for k := 0 to |its|
        invariant (ps, usedItems) == UseAll(its[..k], ps0, applyTo)
      {
        assert its[..k + 1][..k] == its[..k];
        var touched;
        ps, touched := TouchPlayers(ps, its[k], applyTo);
        usedItems := usedItems + touched;
      }
      assert its[..|its|] == its;
    }

    /** Removes the bullets that killed someone. */
    method DropUsedBullets(used: seq<U32>)
      requires Valid()
      modifies this`bullets
      ensures Valid()
      ensures bullets == Filter(old(bullets), BulletNotIn(used))
      ensures Roster() == old(Roster())
    {
      bullets := Filter(bullets, BulletNotIn(used));
    }

    /** The scoreboard update: one point per recorded hit. */
    method TallyHits(hits: seq<U32>)
      requires Valid()
      modifies this`scoreboard
      ensures Valid()
      ensures scoreboard == AddHits(old(scoreboard), hits)
      ensures Roster() == old(Roster())
    {
      scoreboard := Tally(scoreboard, hits);
    }

    /** The tally loop on values: one point per hit, in order. */
    static method Tally(board0: map<U32, nat>, hits: seq<U32>) returns (board: map<U32, nat>)
      ensures board == AddHits(board0, hits)
    {
      board := board0;
      for k := 0 to |hits|
        invariant board == AddHits(board0, hits[..k])
      {
        var h := hits[k];
        assert board[h := Get(board, h, 0) + 1] == AddHits(board0, hits[..k + 1]) by {
          assert hits[..k + 1] == hits[..k] + [h];
          AddHitsSnoc(board0, hits[..k], h);
        }
        board := board[h := Get(board, h, 0) + 1];
      }
      assert hits[..|hits|] == hits;
    }

    /** The survival reward at `now`: every timer that is due earns its
        player a point when more than one player is alive, and restarts
        `SURVIVAL_POINT_INTERVAL` after `now`. The map is visited in no
        particular order; the outcome does not depend on it. */
    method RewardSurvivors(now: int)
      requires Valid()
      modifies this`scoreboard, this`survivalTimes
      ensures Valid()
      ensures survivalTimes.Keys == old(survivalTimes).Keys
      ensures forall id :: id in survivalTimes ==>
                survivalTimes[id] == if old(survivalTimes)[id] <= now then now + SURVIVAL_POINT_INTERVAL
                                     else old(survivalTimes)[id]
      ensures forall id :: Get(scoreboard, id, 0) == Get(old(scoreboard), id, 0)
                + (if |players| > 1 && id in old(survivalTimes) && old(survivalTimes)[id] <= now
                   then 1 else 0)
      ensures scoreboard.Keys <= old(scoreboard).Keys + old(survivalTimes).Keys
      ensures Roster() == old(Roster())
    {
      var st, board := survivalTimes, scoreboard;
      var pending := st.Keys;
      var crowded := |players| > 1;
      while pending != {}
        invariant pending <= survivalTimes.Keys && st.Keys == survivalTimes.Keys
        invariant forall id :: id in st ==>
                    st[id] == if id !in pending && survivalTimes[id] <= now
                              then now + SURVIVAL_POINT_INTERVAL else survivalTimes[id]
        invariant forall id :: Get(board, id, 0) == Get(scoreboard, id, 0)
                    + (if crowded && id in survivalTimes && id !in pending && survivalTimes[id] <= now
                       then 1 else 0)
        invariant board.Keys <= scoreboard.Keys + survivalTimes.Keys
        decreases pending
      {
        var id :| id in pending;
        if st[id] <= now {
          if crowded {
            board := board[id := Get(board, id, 0) + 1];
          }
          st := st[id := now + SURVIVAL_POINT_INTERVAL];
        }
        pending := pending - {id};
      }
      survivalTimes, scoreboard := st, board;
    }

    /** `tick` at instant `now`. `spawned` is the item a spawn would add,
        `advance` and `move` the motion integration, `randomize` the
        re-placement of a killed player and `applyTo` an item's effect. Each
        pass is specified by its own method above; across the whole tick
        the item cap holds and nobody joins or leaves the game. */
    method Tick(now: int, spawned: Item, advance: BulletState -> (real, real),
                move: PlayerState -> (real, real), randomize: PlayerState -> PlayerState,
                applyTo: (Item, PlayerState) -> PlayerState)
      requires Valid()
      modifies this
      ensures Valid()
      ensures Roster() == old(Roster())
    {
      Revive(now);
      SpawnItem(now, spawned);
      Move(advance, move);
      DropStrayBullets();
      var _ := DropClashingBullets();
      var _ := KillClashingPlayers(now, randomize);
      var hits, used := Shoot(now, randomize);
      UseItems(applyTo);
      DropUsedBullets(used);
      TallyHits(hits);
      RewardSurvivors(now);
    }
  }
}
