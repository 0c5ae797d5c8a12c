/** The join queues: first come, first seated, and nobody is lost or doubled on the way into a room. */
module Matchmaker {
  import opened Prelude
  import opened Game
  import opened RoomModel
  import opened RoomInvariant
  import opened RoomActor
  import opened RoomManager

  type Queues = map<string, seq<PlayerId>>

  function Queue(qs: Queues, gameType: string): seq<PlayerId> {
    if gameType in qs then qs[gameType] else []
  }

  datatype Verdict = AlreadyQueued | Queued | Matched(group: seq<PlayerId>)

  /** The critical section of Enqueue for a game with `capacity` seats. */
  function EnqueueIn(qs: Queues, gameType: string, capacity: nat, p: PlayerId): (Queues, Verdict) {
    var q := Queue(qs, gameType);
    if p in q then (qs, AlreadyQueued)
    else
      var longer := q + [p];
      if |longer| < capacity then (qs[gameType := longer], Queued)
      else (qs[gameType := longer[capacity..]], Matched(longer[..capacity]))
  }

  function DequeueIn(qs: Queues, gameType: string, p: PlayerId): (Queues, bool) {
    var q := Queue(qs, gameType);
    if p in q then (qs[gameType := RemoveFirst(q, p)], true) else (qs, false)
  }

  class Matchmaker {
    const rooms: Manager
    var queues: Queues

    constructor (rooms: Manager)
      ensures this.rooms == rooms && queues == map[]
    {
      this.rooms := rooms;
      queues := map[];
    }

    /** Queue a player; the call that fills a room takes the whole group out and creates it. */
    method Enqueue(gameType: string, p: PlayerId, roomId: string, now: Time)
      returns (r: Actor?, matched: bool, err: Option<ManagerError>)
      requires rooms.Valid() && roomId !in rooms.rooms
      modifies this, rooms
      ensures rooms.Valid()
      ensures gameType !in rooms.registry ==>
                r == null && !matched && err == Some(UnknownGameType) && queues == old(queues) && rooms.rooms == old(rooms.rooms)
      ensures gameType in rooms.registry ==>
                var taken := EnqueueIn(old(queues), gameType, rooms.registry[gameType].maxPlayers, p);
                var verdict := taken.1;
                && queues == taken.0
                && (!verdict.Matched? ==> r == null && !matched && err.None? && rooms.rooms == old(rooms.rooms))
                && (verdict.Matched? ==>
                      var made := JoinAll(NewRoom(rooms.registry[gameType], rooms.grace, now), verdict.group, now);
                      var refusal := made.1;
                      && roomId in rooms.rooms && fresh(rooms.rooms[roomId]) && rooms.rooms[roomId].View() == made.0
                      && rooms.rooms == old(rooms.rooms)[roomId := rooms.rooms[roomId]]
                      && (matched <==> refusal.None?)
                      && (matched ==> r == rooms.rooms[roomId] && err.None?)
                      && (!matched ==> r == null && err == Some(JoinFailed(refusal.value))))
    {
      if gameType !in rooms.registry {
        return null, false, Some(UnknownGameType);
      }
      var capacity := rooms.registry[gameType].maxPlayers;
      var q := if gameType in queues then queues[gameType] else [];
      var i := Find(q, p);
      if i < |q| {
        return null, false, None;
      }
      q := q + [p];
      if |q| < capacity {
        queues := queues[gameType := q];
        return null, false, None;
      }
      var group := q[..capacity];
      queues := queues[gameType := q[capacity..]];
      r, err := rooms.CreateRoom(roomId, gameType, group, now);
      if err.Some? {
        return null, false, err;
      }
      matched := true;
    }

    /** Withdraw a player: if they were queued they no longer are, and nobody else notices. */
    method Dequeue(gameType: string, p: PlayerId) returns (was: bool)
      modifies this
      ensures (queues, was) == DequeueIn(old(queues), gameType, p)
      ensures was <==> p in Queue(old(queues), gameType)
      ensures NoDuplicates(Queue(old(queues), gameType)) ==> p !in Queue(queues, gameType)
      ensures was ==> CutOut(Queue(old(queues), gameType), p, Queue(queues, gameType))
      ensures !was ==> queues == old(queues)
      ensures forall other :: other != gameType ==> Queue(queues, other) == Queue(old(queues), other)
    {
      DequeueIsExact(queues, gameType, p);
      var q := if gameType in queues then queues[gameType] else [];
      var i := Find(q, p);
      if i < |q| {
        queues := queues[gameType := q[..i] + q[i + 1..]];
        return true;
      }
      return false;
    }
  }

  /** `rest` is `q` with one entry of `p` cut out and everybody else where they were. */
  ghost predicate CutOut(q: seq<PlayerId>, p: PlayerId, rest: seq<PlayerId>) {
    exists i :: 0 <= i < |q| && q[i] == p && rest == q[..i] + q[i + 1..]
  }

  lemma DequeueIsExact(qs: Queues, gt: string, p: PlayerId)
    ensures var (rest, was) := DequeueIn(qs, gt, p);
            && (was <==> p in Queue(qs, gt)) && (!was ==> rest == qs)
            && (was ==> CutOut(Queue(qs, gt), p, Queue(rest, gt)))
            && (NoDuplicates(Queue(qs, gt)) ==> p !in Queue(rest, gt))
            && forall other :: other != gt ==> Queue(rest, other) == Queue(qs, other)
  {
    var q := Queue(qs, gt);
    if p in q {
      var i := IndexOf(q, p);
      assert RemoveFirst(q, p) == q[..i] + q[i + 1..];
      assert CutOut(q, p, RemoveFirst(q, p));
    }
  }

  /** Who is queued, who is matched, and with whom: somebody queued already is ignored; otherwise they
      are last in the queue, unless that makes a full table, which leaves as a group. */
  lemma EnqueueIsExact(qs: Queues, gt: string, capacity: nat, p: PlayerId)
    requires |Queue(qs, gt)| < capacity
    ensures var (rest, v) := EnqueueIn(qs, gt, capacity, p);
            var q := Queue(qs, gt);
            && (v == AlreadyQueued <==> p in q) && (p in q ==> rest == qs)
            && (v == Queued <==> p !in q && |q| + 1 < capacity) && (v == Queued ==> Queue(rest, gt) == q + [p])
            && (p !in q && |q| + 1 == capacity ==> v == Matched(q + [p]) && Queue(rest, gt) == [])
            && forall other :: other != gt ==> Queue(rest, other) == Queue(qs, other)
  {
    var longer := Queue(qs, gt) + [p];
    assert longer[..|longer|] == longer;
  }

  // ----- runs ---------------------------------------------------------------------------

  datatype Op = Enqueue(gameType: string, p: PlayerId) | Dequeue(gameType: string, p: PlayerId)

  datatype Group = Group(gameType: string, players: seq<PlayerId>)

  /** The queues, and the groups taken out of them so far. */
  datatype Lobby = Lobby(queues: Queues, groups: seq<Group>)

  /** One critical section; `seats` gives the capacity of every registered game. */
  function Step(l: Lobby, seats: map<string, nat>, op: Op): Lobby {
    match op
    case Enqueue(gt, p) =>
      if gt !in seats then l
      else
        var (qs, v) := EnqueueIn(l.queues, gt, seats[gt], p);
        Lobby(qs, if v.Matched? then l.groups + [Group(gt, v.group)] else l.groups)
    case Dequeue(gt, p) => Lobby(DequeueIn(l.queues, gt, p).0, l.groups)
  }

  function Run(seats: map<string, nat>, ops: seq<Op>): Lobby
    decreases |ops|
  {
    if ops == [] then Lobby(map[], []) else Step(Run(seats, ops[..|ops| - 1]), seats, ops[|ops| - 1])
  }

  /** Everybody who was put into a room, group after group. */
  ghost function Placed(groups: seq<Group>, gt: string): seq<PlayerId> {
    if groups == [] then []
    else
      var g := groups[|groups| - 1];
      Placed(groups[..|groups| - 1], gt) + if g.gameType == gt then g.players else []
  }

  // ----- the reference: one list per game, without queues or groups ---------------------

  /** Of those who came and stayed, the ones who do not fill a table yet. */
  ghost function Waiting(s: seq<PlayerId>, capacity: nat): seq<PlayerId>
    requires 0 < capacity
  {
    s[|s| - |s| % capacity..]
  }

  ghost function Served(s: seq<PlayerId>, capacity: nat): seq<PlayerId>
    requires 0 < capacity
  {
    s[..|s| - |s| % capacity]
  }

  /** One request to the list of those who came and stayed: arriving puts at its end whoever is not
      waiting, withdrawing takes out whoever is. */
  ghost function Heard(s: seq<PlayerId>, capacity: nat, op: Op): seq<PlayerId>
    requires 0 < capacity
  {
    var waits := op.p in Waiting(s, capacity);
    if op.Enqueue? then (if waits then s else s + [op.p])
    else if waits then RemoveLast(s, op.p) else s
  }

  /** Who came for game `gt` and stayed, in order of arrival. */
  ghost function Stayed(capacity: nat, ops: seq<Op>, gt: string): seq<PlayerId>
    requires 0 < capacity
    decreases |ops|
  {
    if ops == [] then []
    else
      var before := Stayed(capacity, ops[..|ops| - 1], gt);
      var op := ops[|ops| - 1];
      if op.gameType == gt then Heard(before, capacity, op) else before
  }

  // ----- order in the lobby -------------------------------------------------------------

  ghost predicate ShortQueues(qs: Queues, seats: map<string, nat>) {
    && (forall gt :: NoDuplicates(Queue(qs, gt)))
    && (forall gt :: gt in seats ==> |Queue(qs, gt)| < seats[gt])
  }

  ghost predicate FullGroup(g: Group, seats: map<string, nat>) {
    g.gameType in seats && |g.players| == seats[g.gameType] && NoDuplicates(g.players)
  }

  ghost predicate FullGroups(groups: seq<Group>, seats: map<string, nat>) {
    forall k :: 0 <= k < |groups| ==> FullGroup(groups[k], seats)
  }

  /** Queues are free of duplicates and shorter than a room; groups fill one with distinct players. */
  ghost predicate Orderly(l: Lobby, seats: map<string, nat>) {
    ShortQueues(l.queues, seats) && FullGroups(l.groups, seats)
  }

  lemma OneQueueReplaced(qs: Queues, ns: Queues, seats: map<string, nat>, gt: string, q: seq<PlayerId>)
    requires ShortQueues(qs, seats) && NoDuplicates(q) && (gt in seats ==> |q| < seats[gt])
    requires Queue(ns, gt) == q && forall g :: g != gt ==> Queue(ns, g) == Queue(qs, g)
    ensures ShortQueues(ns, seats)
  {
  }

  lemma EnqueueOrderly(l: Lobby, seats: map<string, nat>, gt: string, p: PlayerId)
    requires Orderly(l, seats) && gt in seats && 1 <= seats[gt]
    ensures Orderly(Step(l, seats, Enqueue(gt, p)), seats)
  {
    var q := Queue(l.queues, gt);
    EnqueueIsExact(l.queues, gt, seats[gt], p);
    if p !in q {
      var n, longer := Step(l, seats, Enqueue(gt, p)), q + [p];
      DistinctSnoc(q, p, 0);
      assert longer[0..] == longer;
      OneQueueReplaced(l.queues, n.queues, seats, gt, if |longer| < seats[gt] then longer else []);
      if |longer| >= seats[gt] {
        GroupsGrow(l.groups, Group(gt, longer), seats);
      }
    }
  }

  lemma GroupsGrow(groups: seq<Group>, g: Group, seats: map<string, nat>)
    requires FullGroups(groups, seats) && FullGroup(g, seats)
    ensures FullGroups(groups + [g], seats)
  {
  }

  lemma DequeueOrderly(l: Lobby, seats: map<string, nat>, gt: string, p: PlayerId)
    requires Orderly(l, seats)
    ensures Orderly(Step(l, seats, Dequeue(gt, p)), seats)
  {
    var q := Queue(l.queues, gt);
    if p in q {
      DistinctAfterRemoval(q, p);
      var n := Step(l, seats, Dequeue(gt, p));
      assert Queue(n.queues, gt) == RemoveFirst(q, p);
      OneQueueReplaced(l.queues, n.queues, seats, gt, RemoveFirst(q, p));
    }
  }

  lemma StepOrderly(l: Lobby, seats: map<string, nat>, op: Op)
    requires Orderly(l, seats) && forall gt :: gt in seats ==> 1 <= seats[gt]
    ensures Orderly(Step(l, seats, op), seats)
  {
    match op
    case Enqueue(gt, p) => if gt in seats { EnqueueOrderly(l, seats, gt, p); }
    case Dequeue(gt, p) => DequeueOrderly(l, seats, gt, p);
  }

  // ----- the lobby is the list ----------------------------------------------------------

  /** Groups followed by queue are the list `s`, and the queue is what does not fill a table. */
  ghost predicate Conserved(l: Lobby, gt: string, s: seq<PlayerId>, capacity: nat)
    requires 0 < capacity
  {
    Placed(l.groups, gt) == Served(s, capacity) && Queue(l.queues, gt) == Waiting(s, capacity)
  }

  lemma RemainderIs(n: nat, tables: nat, left: nat, capacity: nat)
    requires left < capacity && n == tables * capacity + left
    ensures n % capacity == left
  {
    var d := n / capacity - tables;
    assert d * capacity == left - n % capacity;
    WholeTables(d, capacity);
  }

  lemma WholeTables(d: int, capacity: int)
    requires 0 < capacity
    ensures 1 <= d ==> capacity <= d * capacity
    ensures d <= -1 ==> d * capacity <= -capacity
  {
  }

  lemma NextRemainder(n: nat, capacity: nat)
    requires 0 < capacity
    ensures (n + 1) % capacity == if n % capacity + 1 == capacity then 0 else n % capacity + 1
  {
    var tables, left := n / capacity, n % capacity;
    if left + 1 == capacity {
      assert n + 1 == (tables + 1) * capacity + 0;
      RemainderIs(n + 1, tables + 1, 0, capacity);
    } else {
      RemainderIs(n + 1, tables, left + 1, capacity);
    }
  }

  lemma PlacedGrows(groups: seq<Group>, g: Group, gt: string)
    ensures Placed(groups + [g], gt) == Placed(groups, gt) + if g.gameType == gt then g.players else []
  {
    assert (groups + [g])[..|groups|] == groups;
  }

  /** Cutting `s + [p]` where its table boundary is. */
  lemma ArrivalSplits(s: seq<PlayerId>, p: PlayerId, capacity: nat)
    requires 0 < capacity
    ensures var longer := Waiting(s, capacity) + [p];
            && |Waiting(s, capacity)| < capacity
            && (|longer| < capacity ==> Served(s + [p], capacity) == Served(s, capacity) && Waiting(s + [p], capacity) == longer)
            && (|longer| == capacity ==> Served(s + [p], capacity) == Served(s, capacity) + longer && Waiting(s + [p], capacity) == [])
  {
    NextRemainder(|s|, capacity);
  }

  lemma EnqueueConserved(l: Lobby, seats: map<string, nat>, gt: string, p: PlayerId, s: seq<PlayerId>)
    requires gt in seats && 0 < seats[gt] && Conserved(l, gt, s, seats[gt])
    ensures Conserved(Step(l, seats, Enqueue(gt, p)), gt, Heard(s, seats[gt], Enqueue(gt, p)), seats[gt])
  {
    ArrivalSplits(s, p, seats[gt]);
    EnqueueIsExact(l.queues, gt, seats[gt], p);
    PlacedGrows(l.groups, Group(gt, Queue(l.queues, gt) + [p]), gt);
  }

  /** Where a list is cut is decided by its length. */
  lemma CutAt(head: seq<PlayerId>, tail: seq<PlayerId>, capacity: nat)
    requires 0 < capacity && |head + tail| % capacity == |tail|
    ensures Served(head + tail, capacity) == head && Waiting(head + tail, capacity) == tail
  {
  }

  lemma OneLess(n: nat, capacity: nat)
    requires 0 < capacity && 0 < n % capacity
    ensures (n - 1) % capacity == n % capacity - 1
  {
    NextRemainder(n - 1, capacity);
  }

  /** Taking somebody who is waiting out of the list takes them out of its waiting part. */
  lemma WithdrawalSplits(s: seq<PlayerId>, p: PlayerId, capacity: nat)
    requires 0 < capacity && p in Waiting(s, capacity) && NoDuplicates(Waiting(s, capacity))
    ensures Served(RemoveLast(s, p), capacity) == Served(s, capacity)
    ensures Waiting(RemoveLast(s, p), capacity) == RemoveFirst(Waiting(s, capacity), p)
  {
    var head, tail := Served(s, capacity), Waiting(s, capacity);
    assert s == head + tail;
    RemovalAt(head, tail, p, capacity);
    CutAt(head, RemoveFirst(tail, p), capacity);
  }

  lemma RemovalAt(head: seq<PlayerId>, tail: seq<PlayerId>, p: PlayerId, capacity: nat)
    requires 0 < capacity && p in tail && NoDuplicates(tail) && |head + tail| % capacity == |tail|
    ensures RemoveLast(head + tail, p) == head + RemoveFirst(tail, p)
    ensures |head + RemoveFirst(tail, p)| % capacity == |RemoveFirst(tail, p)|
  {
    RemoveLastInSuffix(head, tail, p);
    OneShorter(tail, p);
    OneLess(|head + tail|, capacity);
  }

  lemma OneShorter(q: seq<PlayerId>, p: PlayerId)
    requires p in q
    ensures |RemoveFirst(q, p)| == |q| - 1
  {
  }

  lemma DequeueConserved(l: Lobby, seats: map<string, nat>, gt: string, p: PlayerId, s: seq<PlayerId>)
    requires gt in seats && 0 < seats[gt] && Conserved(l, gt, s, seats[gt]) && NoDuplicates(Queue(l.queues, gt))
    ensures Conserved(Step(l, seats, Dequeue(gt, p)), gt, Heard(s, seats[gt], Dequeue(gt, p)), seats[gt])
  {
    if p in Queue(l.queues, gt) {
      WithdrawalSplits(s, p, seats[gt]);
    }
  }

  /** Steps on one game's queue say nothing about another's. */
  lemma OtherGameUntouched(l: Lobby, seats: map<string, nat>, op: Op, gt: string)
    requires op.gameType != gt
    ensures var n := Step(l, seats, op);
            Queue(n.queues, gt) == Queue(l.queues, gt) && Placed(n.groups, gt) == Placed(l.groups, gt)
  {
    if op.Enqueue? && op.gameType in seats {
      var v := EnqueueIn(l.queues, op.gameType, seats[op.gameType], op.p).1;
      if v.Matched? {
        PlacedGrows(l.groups, Group(op.gameType, v.group), gt);
      }
    }
  }

  lemma StepConserved(l: Lobby, seats: map<string, nat>, op: Op, gt: string, s: seq<PlayerId>)
    requires gt in seats && 0 < seats[gt] && Orderly(l, seats) && Conserved(l, gt, s, seats[gt])
    ensures Conserved(Step(l, seats, op), gt, if op.gameType == gt then Heard(s, seats[gt], op) else s, seats[gt])
  {
    if op.gameType != gt {
      OtherGameUntouched(l, seats, op, gt);
    } else if op.Dequeue? {
      DequeueConserved(l, seats, gt, op.p, s);
    } else {
      EnqueueConserved(l, seats, gt, op.p, s);
    }
  }

  /** Over any interleaving of enqueues and dequeues of any games: the groups formed, followed by
      the queue, are exactly those who came and stayed, in order of arrival; the queue is what does
      not fill a table yet, and every group fills one with distinct players. */
  lemma {:induction false} MatchmakingConserves(seats: map<string, nat>, ops: seq<Op>, gt: string)
    requires (forall g :: g in seats ==> 1 <= seats[g]) && gt in seats
    ensures Orderly(Run(seats, ops), seats)
    ensures Conserved(Run(seats, ops), gt, Stayed(seats[gt], ops, gt), seats[gt])
    decreases |ops|
  {
    if ops != [] {
      var pre := ops[..|ops| - 1];
      MatchmakingConserves(seats, pre, gt);
      StepOrderly(Run(seats, pre), seats, ops[|ops| - 1]);
      StepConserved(Run(seats, pre), seats, ops[|ops| - 1], gt, Stayed(seats[gt], pre, gt));
    }
  }

  lemma GroupPlays(qs: Queues, gt: string, p: PlayerId, game: Game, grace: nat, now: Time, c: Promise)
    requires Lawful(game, c) && NoDuplicates(Queue(qs, gt)) && p !in Queue(qs, gt) && |Queue(qs, gt)| + 1 == game.maxPlayers
    ensures var group := Queue(qs, gt) + [p];
            var (room, err) := JoinAll(NewRoom(game, grace, now), group, now);
            && EnqueueIn(qs, gt, game.maxPlayers, p) == (qs[gt := []], Matched(group))
            && err.None? && room.lifecycle == Active && Inv(room, c) && room.seatOrder == group
            && forall i :: 0 <= i < |group| ==> group[i] in room.players && room.players[group[i]].seat == i
  {
    var group := Queue(qs, gt) + [p];
    assert group[..game.maxPlayers] == group;
    GroupIsSeated(game, grace, group, now, c);
  }

  /** From queue to game: after any run of the lobby, a call that completes a table takes the whole
      queue in order plus the caller, and the room made for that group lets everybody in and is
      Active with exactly them in seats 0, 1, 2, ... So creating the room is never refused. */
  lemma MatchIsPlayed(seats: map<string, nat>, ops: seq<Op>, gt: string, p: PlayerId, game: Game, grace: nat, now: Time, c: Promise)
    requires Lawful(game, c) && (forall g :: g in seats ==> 1 <= seats[g]) && gt in seats && seats[gt] == game.maxPlayers
    requires p !in Queue(Run(seats, ops).queues, gt) && |Queue(Run(seats, ops).queues, gt)| + 1 >= game.maxPlayers
    ensures var qs := Run(seats, ops).queues;
            var group := Queue(qs, gt) + [p];
            var (room, err) := JoinAll(NewRoom(game, grace, now), group, now);
            && EnqueueIn(qs, gt, game.maxPlayers, p) == (qs[gt := []], Matched(group))
            && err.None? && room.lifecycle == Active && Inv(room, c) && room.seatOrder == group
            && forall i :: 0 <= i < |group| ==> group[i] in room.players && room.players[group[i]].seat == i
  {
    MatchmakingConserves(seats, ops, gt);
    GroupPlays(Run(seats, ops).queues, gt, p, game, grace, now, c);
  }
}
