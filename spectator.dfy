/** The spectator page (spectator/index.js): a reconnecting connection with a
    status indicator, a handler that applies inbound messages, the per-frame
    scale transform, and the scoreboard that is redrawn only when it changes.

    The page's globals (`websocket_status`, `team_names`,
    `last_drawn_scoreboard`) are the fields of one `Session`. Time is in
    milliseconds and is passed in by the caller. */
module Spectator {
  import opened Types
  import Decimal

  /** Player ids: the server's `u32` ids, which JavaScript sees as the
      integer keys of JSON objects. */
  type Id = nat

  datatype Status = Connecting | Connected | Disconnected | Error

  /** The indicator's text and border colour for each status. */
  function Indicator(s: Status): (string, string)
  {
    match s
    case Connecting => ("connecting...", "gray")
    case Connected => ("connected", "white")
    case Disconnected => ("disconnected", "orange")
    case Error => ("error!", "red")
  }

  /** The delay before a closed connection is opened again. */
  const RECONNECT_DELAY: int := 1000

  datatype PlayerObj = PlayerObj(id: Id, x: real, y: real, angle: real)

  datatype BulletObj = BulletObj(id: Id, playerId: Id, x: real, y: real, angle: real)

  /** The payload of a `state` message. */
  datatype Snapshot = Snapshot(boundX: real, boundY: real, players: seq<PlayerObj>,
                               bullets: seq<BulletObj>, scoreboard: map<Id, nat>)

  /** A decoded message; `e` other than `teamnames` and `state` is ignored. */
  datatype Message = TeamNames(names: map<Id, string>) | State(data: Snapshot) | Unknown(e: string)

  /** The view of a player drawn in one frame. */
  datatype Ship = Ship(id: Id, x: int, y: int, angle: real)

  /** The `Ship` constructor: the position is floored to whole units, the
      heading kept as it is. */
  function NewShip(p: PlayerObj): (s: Ship)
    ensures s.id == p.id && s.angle == p.angle
    ensures s.x as real <= p.x < s.x as real + 1.0
    ensures s.y as real <= p.y < s.y as real + 1.0
  {
    Ship(p.id, p.x.Floor, p.y.Floor, p.angle)
  }

  /** `Math.min(W / bx, H / by)`: the uniform scale that fits the arena in
      the canvas. */
  function Scale(width: real, height: real, boundX: real, boundY: real): (s: real)
    requires boundX > 0.0 && boundY > 0.0
    ensures s * boundX <= width && s * boundY <= height
    ensures s * boundX == width || s * boundY == height
  {
    var sx := width / boundX;
    var sy := height / boundY;
    if sx <= sy then sx else sy
  }

  /** No larger uniform scale fits the arena in the canvas. */
  lemma ScaleIsLargestFit(width: real, height: real, boundX: real, boundY: real, t: real)
    requires boundX > 0.0 && boundY > 0.0
    requires t * boundX <= width && t * boundY <= height
    ensures t <= Scale(width, height, boundX, boundY)
  {
    var s := Scale(width, height, boundX, boundY);
    if s * boundX == width {
      assert t * boundX <= s * boundX;
    } else {
      assert t * boundY <= s * boundY;
    }
  }

  /** When the arena is relatively wider than the canvas
      (`boundX / boundY >= width / height`), the width binds: the scale
      is `width / boundX`. */
  lemma ScaleWidthBinds(width: real, height: real, boundX: real, boundY: real)
    requires boundX > 0.0 && boundY > 0.0
    ensures boundX * height >= boundY * width ==> Scale(width, height, boundX, boundY) == width / boundX
  {
  }

  /** When the arena is relatively taller than the canvas
      (`boundX / boundY <= width / height`), the height binds: the scale
      is `height / boundY`. */
  lemma ScaleHeightBinds(width: real, height: real, boundX: real, boundY: real)
    requires boundX > 0.0 && boundY > 0.0
    ensures boundX * height <= boundY * width ==> Scale(width, height, boundX, boundY) == height / boundY
  {
  }

  function Lookup(names: map<Id, string>, id: Id): Option<string>
  {
    if id in names then Some(names[id]) else None
  }

  /** What one render pass draws, in order: the scale transform, the arena
      outline from (0, 0) to the bounds, one ship glyph with the team name
      looked up for it (absent when the directory has no entry) per player,
      and one marker per bullet. */
  datatype Frame = Frame(scale: real, outline: (real, real), ships: seq<Ship>,
                         labels: seq<Option<string>>, bullets: seq<BulletObj>)

  function Render(data: Snapshot, width: real, height: real, names: map<Id, string>): (f: Frame)
    requires data.boundX > 0.0 && data.boundY > 0.0
    ensures f.scale == Scale(width, height, data.boundX, data.boundY)
    ensures f.scale * data.boundX <= width && f.scale * data.boundY <= height
    ensures f.outline == (data.boundX, data.boundY)
    ensures |f.ships| == |f.labels| == |data.players|
    ensures forall i :: 0 <= i < |data.players| ==>
              f.ships[i] == NewShip(data.players[i]) && f.labels[i] == Lookup(names, data.players[i].id)
    ensures f.bullets == data.bullets
  {
    Frame(Scale(width, height, data.boundX, data.boundY), (data.boundX, data.boundY),
          seq(|data.players|, i requires 0 <= i < |data.players| => NewShip(data.players[i])),
          seq(|data.players|, i requires 0 <= i < |data.players| => Lookup(names, data.players[i].id)),
          data.bullets)
  }

  /** `String.prototype.padEnd(n)`: pad with spaces up to `n` characters. */
  function PadEnd(s: string, n: nat): (r: string)
    ensures |r| == if |s| >= n then |s| else n
    ensures r[..|s|] == s
    ensures forall i :: |s| <= i < |r| ==> r[i] == ' '
  {
    if |s| >= n then s else s + seq(n - |s|, _ => ' ')
  }

  /** The scoreboard's order: higher score first; equal scores by ascending
      id. JavaScript lists integer keys in ascending order and its sort is
      stable, so this is the order the comparator `b - a` on scores leaves. */
  predicate RanksBefore(board: map<Id, nat>, a: Id, b: Id)
    requires a in board && b in board
  {
    board[a] > board[b] || (board[a] == board[b] && a < b)
  }

  predicate Ranked(board: map<Id, nat>, ids: seq<Id>)
  {
    && (forall i :: 0 <= i < |ids| ==> ids[i] in board)
    && (forall i, j :: 0 <= i < j < |ids| ==> RanksBefore(board, ids[i], ids[j]))
  }

  /** Insertion of one id into a ranked list. */
  function Insert(board: map<Id, nat>, k: Id, ids: seq<Id>): (r: seq<Id>)
    requires k in board
    ensures |r| == |ids| + 1
    ensures multiset(r) == multiset(ids) + multiset{k}
  {
    if ids == [] then [k]
    else if ids[0] in board && RanksBefore(board, k, ids[0]) then [k] + ids
    else
      assert ids == [ids[0]] + ids[1..];
      [ids[0]] + Insert(board, k, ids[1..])
  }

  /** Insertion adds `k` and nothing else. */
  lemma InsertMember(board: map<Id, nat>, k: Id, ids: seq<Id>, x: Id)
    requires k in board
    ensures x in Insert(board, k, ids) <==> x == k || x in ids
  {
    assert x in multiset(Insert(board, k, ids)) <==> x in multiset(ids) + multiset{k};
  }

  /** An id ranked before everything of a ranked list can go in front. */
  lemma RankedCons(board: map<Id, nat>, x: Id, ids: seq<Id>)
    requires x in board && Ranked(board, ids)
    requires forall j :: 0 <= j < |ids| ==> RanksBefore(board, x, ids[j])
    ensures Ranked(board, [x] + ids)
  {
    var r := [x] + ids;
    forall a, b | 0 <= a < b < |r|
      ensures RanksBefore(board, r[a], r[b])
    {
      assert r[b] == ids[b - 1];
      if a > 0 {
        assert r[a] == ids[a - 1];
      }
    }
  }

  /** The tail of a ranked list is ranked. */
  lemma RankedTail(board: map<Id, nat>, ids: seq<Id>)
    requires Ranked(board, ids) && ids != []
    ensures Ranked(board, ids[1..])
  {
    var rest := ids[1..];
    forall a, b | 0 <= a < b < |rest|
      ensures RanksBefore(board, rest[a], rest[b])
    {
      assert rest[a] == ids[a + 1] && rest[b] == ids[b + 1];
    }
  }

  lemma {:induction false} InsertKeepsRanked(board: map<Id, nat>, k: Id, ids: seq<Id>)
    requires k in board && k !in ids && Ranked(board, ids)
    ensures Ranked(board, Insert(board, k, ids))
  {
    if ids == [] {
    } else if RanksBefore(board, k, ids[0]) {
      forall j | 0 <= j < |ids|
        ensures RanksBefore(board, k, ids[j])
      {
        if j > 0 {
          assert RanksBefore(board, ids[0], ids[j]);
        }
      }
      RankedCons(board, k, ids);
    } else {
      var rest := ids[1..];
      RankedTail(board, ids);
      InsertKeepsRanked(board, k, rest);
      var r' := Insert(board, k, rest);
      forall j | 0 <= j < |r'|
        ensures RanksBefore(board, ids[0], r'[j])
      {
        InsertMember(board, k, rest, r'[j]);
        if r'[j] != k {
          var m :| 0 <= m < |rest| && rest[m] == r'[j];
          assert ids[m + 1] == r'[j];
        }
      }
      RankedCons(board, ids[0], r');
    }
  }

  /** One line of the scoreboard table. */
  datatype Row = Row(rank: nat, id: Id, name: Option<string>, score: string)

  /** `rows` is the table `draw_scoreboard` builds for `board`: one row per
      id, ranks 1, 2, ... in order, ids in scoreboard order, each with its
      team name (absent when unknown) and its score padded to three
      characters. */
  ghost predicate ScoreboardTable(rows: seq<Row>, board: map<Id, nat>, names: map<Id, string>)
  {
    && |rows| == |board|
    && (forall i :: 0 <= i < |rows| ==>
          && rows[i].rank == i + 1
          && rows[i].id in board
          && rows[i].name == Lookup(names, rows[i].id)
          && rows[i].score == PadEnd(Decimal.NatToString(board[rows[i].id]), 3))
    && (forall i, j :: 0 <= i < j < |rows| ==>
          rows[i].id in board && rows[j].id in board && RanksBefore(board, rows[i].id, rows[j].id))
    && (forall id :: id in board ==> exists i :: 0 <= i < |rows| && rows[i].id == id)
  }

  /** The first half of `draw_scoreboard`: the scoreboard's ids in
      scoreboard order, each once. */
  method SortIds(board: map<Id, nat>) returns (order: seq<Id>)
    ensures Ranked(board, order)
    ensures |order| == |board|
    ensures forall k :: k in board ==> k in order
  {
    var rest := board.Keys;
    order := [];
    while rest != {}
      invariant rest <= board.Keys
      invariant Ranked(board, order)
      invariant forall i :: 0 <= i < |order| ==> order[i] !in rest
      invariant forall k :: k in board && k !in rest ==> k in order
      invariant |order| + |rest| == |board|
      decreases rest
    {
      var k :| k in rest;
      InsertKeepsRanked(board, k, order);
      var order' := Insert(board, k, order);
      forall i | 0 <= i < |order'|
        ensures order'[i] !in rest - {k}
      {
        InsertMember(board, k, order, order'[i]);
      }
      forall k' | k' in board && k' !in rest - {k}
        ensures k' in order'
      {
        InsertMember(board, k, order, k');
      }
      order := order';
      rest := rest - {k};
    }
  }

  /** `draw_scoreboard`: sort the ids, then build the rows in an index
      loop. */
  method DrawScoreboard(board: map<Id, nat>, names: map<Id, string>) returns (rows: seq<Row>)
    ensures ScoreboardTable(rows, board, names)
  {
    var order := SortIds(board);
    rows := [];
    for i := 0 to |order|
      invariant |rows| == i
      invariant forall j :: 0 <= j < i ==> rows[j] == ScoreRow(board, names, j + 1, order[j])
    {
      rows := rows + [ScoreRow(board, names, i + 1, order[i])];
    }
    RowsMakeTable(board, names, order, rows);
  }

  /** The row of rank `rank` for `id`. */
  function ScoreRow(board: map<Id, nat>, names: map<Id, string>, rank: nat, id: Id): Row
    requires id in board
  {
    Row(rank, id, Lookup(names, id), PadEnd(Decimal.NatToString(board[id]), 3))
  }

  /** One row per id of a ranked order of the whole board is its table. */
  lemma RowsMakeTable(board: map<Id, nat>, names: map<Id, string>, order: seq<Id>, rows: seq<Row>)
    requires Ranked(board, order) && |order| == |board|
    requires forall k :: k in board ==> k in order
    requires |rows| == |order|
    requires forall j :: 0 <= j < |rows| ==> rows[j] == ScoreRow(board, names, j + 1, order[j])
    ensures ScoreboardTable(rows, board, names)
  {
    forall id | id in board
      ensures exists i :: 0 <= i < |rows| && rows[i].id == id
    {
      var i :| 0 <= i < |order| && order[i] == id;
      assert rows[i].id == id;
    }
  }

  class Session {
    var status: Status
    /** Every status the indicator has shown, oldest first. */
    var shown: seq<Status>
    var teamNames: map<Id, string>
    var lastDrawnScoreboard: map<Id, nat>
    /** Due instants of the reconnects scheduled by `setTimeout`, in the
        order they were scheduled. */
    var reconnects: seq<int>

    /** The page loads and calls `connect`. */
    constructor ()
      ensures status == Connecting && shown == [Connecting]
      ensures teamNames == map[] && lastDrawnScoreboard == map[] && reconnects == []
    {
      status := Connecting;
      shown := [Connecting];
      teamNames := map[];
      lastDrawnScoreboard := map[];
      reconnects := [];
    }

    /** The socket's `open` event. */
    method OnOpen()
      modifies this
      ensures status == Connected && shown == old(shown) + [Connected]
      ensures teamNames == old(teamNames) && lastDrawnScoreboard == old(lastDrawnScoreboard)
      ensures reconnects == old(reconnects)
    {
      status := Connected;
      shown := shown + [Connected];
    }

    /** The socket's `close` event at instant `now`: one reconnect is
        scheduled a second later. */
    method OnClose(now: int)
      modifies this
      ensures status == Disconnected && shown == old(shown) + [Disconnected]
      ensures reconnects == old(reconnects) + [now + RECONNECT_DELAY]
      ensures teamNames == old(teamNames) && lastDrawnScoreboard == old(lastDrawnScoreboard)
    {
      status := Disconnected;
      shown := shown + [Disconnected];
      reconnects := reconnects + [now + RECONNECT_DELAY];
    }

    /** The socket's `error` event: the indicator shows the error, then the
        handler closes the socket, whose `close` event follows. An error
        therefore schedules exactly the one reconnect its close does. */
    method OnError(now: int)
      modifies this
      ensures status == Disconnected && shown == old(shown) + [Error, Disconnected]
      ensures reconnects == old(reconnects) + [now + RECONNECT_DELAY]
      ensures teamNames == old(teamNames) && lastDrawnScoreboard == old(lastDrawnScoreboard)
    {
      status := Error;
      shown := shown + [Error];
      OnClose(now);
    }

    /** The earliest scheduled reconnect fires once its instant has come,
        and `connect` starts a new connection. */
    method Reconnect(now: int) returns (fired: bool)
      modifies this
      ensures fired <==> old(reconnects) != [] && old(reconnects)[0] <= now
      ensures fired ==> status == Connecting && shown == old(shown) + [Connecting]
                        && reconnects == old(reconnects)[1..]
      ensures !fired ==> status == old(status) && shown == old(shown)
                         && reconnects == old(reconnects)
      ensures teamNames == old(teamNames) && lastDrawnScoreboard == old(lastDrawnScoreboard)
    {
      fired := reconnects != [] && reconnects[0] <= now;
      if fired {
        reconnects := reconnects[1..];
        status := Connecting;
        shown := shown + [Connecting];
      }
    }

    /** The message handler, for a canvas of `width` by `height`: it returns
        the frame it draws (if any) and the scoreboard table it rebuilds (if
        any). */
    method HandleMessage(msg: Message, width: real, height: real)
      returns (frame: Option<Frame>, table: Option<seq<Row>>)
      requires msg.State? ==> msg.data.boundX > 0.0 && msg.data.boundY > 0.0
      modifies this
      ensures status == old(status) && shown == old(shown) && reconnects == old(reconnects)
      ensures msg.TeamNames? ==>
                && teamNames == msg.names
                && frame == None && table == None
                && lastDrawnScoreboard == old(lastDrawnScoreboard)
      ensures msg.State? ==>
                && teamNames == old(teamNames)
                && frame == Some(Render(msg.data, width, height, teamNames))
                && (table.Some? <==> msg.data.scoreboard != old(lastDrawnScoreboard))
                && (table.Some? ==> ScoreboardTable(table.value, msg.data.scoreboard, teamNames))
                && lastDrawnScoreboard == msg.data.scoreboard
      ensures msg.Unknown? ==>
                && teamNames == old(teamNames) && lastDrawnScoreboard == old(lastDrawnScoreboard)
                && frame == None && table == None
    {
      frame, table := None, None;
      match msg
      case TeamNames(names) =>
        teamNames := names;
      case State(data) =>
        frame := Some(Render(data, width, height, teamNames));
        if data.scoreboard != lastDrawnScoreboard {
          var rows := DrawScoreboard(data.scoreboard, teamNames);
          table := Some(rows);
          lastDrawnScoreboard := data.scoreboard;
        }
      case Unknown(_) =>
    }
  }
}
