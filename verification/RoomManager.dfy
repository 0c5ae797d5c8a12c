/** The registry of live rooms: creating a room with its first players, and the garbage-collection sweep. */
module RoomManager {
  import opened Prelude
  import opened Game
  import opened RoomModel
  import opened RoomInvariant
  import opened RoomRuns
  import opened RoomActor

  // ----- seating the first players ------------------------------------------------------

  /** CreateRoom's loop: join the players in order, stop at the first refusal. */
  function JoinAll(r: Room, ps: seq<PlayerId>, now: Time): (Room, Option<RoomError>)
    decreases |ps|
  {
    if ps == [] then (r, None)
    else
      var (n, reply) := r.(lastActivity := now).HandleJoin(ps[0]);
      if reply.err.Some? then (n, reply.err) else JoinAll(n, ps[1..], now)
  }

  /** The seat list after everybody in `ps` who is not seated yet has been put at its end. */
  ghost function Seated(order: seq<PlayerId>, ps: seq<PlayerId>): (s: seq<PlayerId>)
    ensures order <= s
    decreases |ps|
  {
    if ps == [] then order
    else if ps[0] in order then Seated(order, ps[1..])
    else Seated(order + [ps[0]], ps[1..])
  }

  ghost predicate Open(r: Room) {
    (r.lifecycle == Waiting || r.lifecycle == Active) && (r.lifecycle == Active <==> r.game.minPlayers <= |r.seatOrder|)
  }

  lemma SeatedIff(r: Room, p: PlayerId)
    requires Seating(r)
    ensures p in r.players <==> p in r.seatOrder
  {
  }

  lemma NewcomerStarts(r: Room, p: PlayerId, c: Promise)
    requires Lawful(r.game, c) && Inv(r, c) && p !in r.players
    requires r.lifecycle == Waiting && |r.seatOrder| + 1 == r.game.minPlayers
    ensures var (n, reply) := r.HandleJoin(p);
            Inv(n, c) && Open(n) && n.game == r.game && reply.err.None? && n.seatOrder == r.seatOrder + [p]
  {
    LastSeatStarts(r, p, c);
    assert r.HandleJoin(p).0 == r.Seat(p).Start().0;
  }

  lemma NewcomerWaits(r: Room, p: PlayerId, c: Promise)
    requires Inv(r, c) && Open(r) && p !in r.players && |r.seatOrder| < r.game.maxPlayers
    requires r.lifecycle == Waiting ==> |r.seatOrder| + 1 < r.game.minPlayers
    ensures var (n, reply) := r.HandleJoin(p);
            Inv(n, c) && Open(n) && n.game == r.game && reply.err.None? && n.seatOrder == r.seatOrder + [p]
  {
    SeatKeeps(r, p, c);
    assert r.HandleJoin(p).0 == r.Seat(p);
  }

  /** One join into an open room: seated already, seated now, or refused for lack of a seat. */
  lemma JoinSeats(r: Room, p: PlayerId, c: Promise)
    requires Lawful(r.game, c) && Inv(r, c) && Open(r)
    ensures var (n, reply) := r.HandleJoin(p);
            && Inv(n, c) && Open(n) && n.game == r.game
            && (p in r.seatOrder ==> n == r && reply.err.None?)
            && (p !in r.seatOrder && |r.seatOrder| < r.game.maxPlayers ==>
                  reply.err.None? && n.seatOrder == r.seatOrder + [p])
            && (p !in r.seatOrder && |r.seatOrder| == r.game.maxPlayers ==> n == r && reply.err == Some(RoomFull))
  {
    SeatedIff(r, p);
    if p !in r.players && |r.seatOrder| < r.game.maxPlayers {
      if r.lifecycle == Waiting && |r.seatOrder| + 1 == r.game.minPlayers {
        NewcomerStarts(r, p, c);
      } else {
        NewcomerWaits(r, p, c);
      }
    }
  }

  lemma JoinNextSeats(r: Room, p: PlayerId, now: Time, c: Promise)
    requires Lawful(r.game, c) && Inv(r, c) && Open(r)
    ensures var (n, reply) := r.(lastActivity := now).HandleJoin(p);
            && Inv(n, c) && Open(n) && n.game == r.game
            && (reply.err.None? ==> n.seatOrder == if p in r.seatOrder then r.seatOrder else r.seatOrder + [p])
            && (reply.err.Some? ==> reply.err == Some(RoomFull) && n.seatOrder == r.seatOrder)
            && (reply.err.Some? <==> p !in r.seatOrder && |r.seatOrder| == r.game.maxPlayers)
            && |n.seatOrder| <= r.game.maxPlayers
  {
    TouchKeeps(r, now, c);
    JoinSeats(r.(lastActivity := now), p, c);
  }

  lemma JoinSetsNoTimer(r: Room, p: PlayerId, now: Time)
    ensures var n := r.(lastActivity := now).HandleJoin(p).0; n.timers == r.timers && n.lastActivity == now
  {
  }

  /** `wanted` is the seat list if it fits; otherwise what fits of it is, and somebody was refused. */
  ghost predicate Accommodates(n: Room, err: Option<RoomError>, wanted: seq<PlayerId>) {
    && (|wanted| <= n.game.maxPlayers ==> err.None? && n.seatOrder == wanted)
    && (|wanted| > n.game.maxPlayers ==> err == Some(RoomFull) && n.seatOrder == wanted[..n.game.maxPlayers])
  }

  /** Seating any list of players, repetitions included: they end up in list order, nobody is
      refused if they all fit, and otherwise the first one too many is. */
  lemma {:induction false} JoinAllSeats(r: Room, ps: seq<PlayerId>, now: Time, c: Promise)
    requires Lawful(r.game, c) && Inv(r, c) && Open(r)
    ensures var (n, err) := JoinAll(r, ps, now);
            Inv(n, c) && Open(n) && n.game == r.game && Accommodates(n, err, Seated(r.seatOrder, ps))
    decreases |ps|
  {
    if ps == [] {
      assert Accommodates(r, None, r.seatOrder);
    } else {
      JoinNextSeats(r, ps[0], now, c);
      var (n, reply) := r.(lastActivity := now).HandleJoin(ps[0]);
      if reply.err.None? {
        JoinAllSeats(n, ps[1..], now, c);
      } else {
        Overflow(n, r.seatOrder, ps);
      }
    }
  }

  lemma Overflow(n: Room, order: seq<PlayerId>, ps: seq<PlayerId>)
    requires ps != [] && ps[0] !in order && n.seatOrder == order && |order| == n.game.maxPlayers
    ensures Accommodates(n, Some(RoomFull), Seated(order, ps))
  {
    assert order + [ps[0]] <= Seated(order, ps);
  }

  lemma {:induction false} DistinctAreSeatedInOrder(order: seq<PlayerId>, ps: seq<PlayerId>)
    requires NoDuplicates(order + ps)
    ensures Seated(order, ps) == order + ps
    decreases |ps|
  {
    if ps != [] {
      assert (order + ps)[|order|] == ps[0];
      assert forall i :: 0 <= i < |order| ==> (order + ps)[i] == order[i];
      assert order + [ps[0]] + ps[1..] == order + ps;
      DistinctAreSeatedInOrder(order + [ps[0]], ps[1..]);
    } else {
      assert order + ps == order;
    }
  }

  /** A group of distinct players that fits is seated in order, and plays at once if it is large enough. */
  lemma GroupIsSeated(game: Game, grace: nat, ps: seq<PlayerId>, now: Time, c: Promise)
    requires Lawful(game, c) && NoDuplicates(ps) && |ps| <= game.maxPlayers
    ensures var (n, err) := JoinAll(NewRoom(game, grace, now), ps, now);
            && err.None? && Inv(n, c) && n.seatOrder == ps
            && (n.lifecycle == Active <==> game.minPlayers <= |ps|)
            && (forall i :: 0 <= i < |ps| ==> ps[i] in n.players && n.players[ps[i]].seat == i)
  {
    FreshRoom(game, grace, now, c);
    JoinAllSeats(NewRoom(game, grace, now), ps, now, c);
    assert [] + ps == ps;
    DistinctAreSeatedInOrder([], ps);
  }

  // ----- how long rooms live ------------------------------------------------------------

  /** Ticks, status reads and timers that are not pending do nothing to a waiting room, so they
      cannot prolong its life. */
  lemma {:induction false} IdlingChangesNothing(r: Room, es: seq<Timed>)
    requires r.lifecycle == Waiting
    requires forall k :: 0 <= k < |es| ==>
      es[k].input.Tick? || es[k].input.Poll? || (es[k].input.Fire? && es[k].input.t !in r.timers)
    ensures Exec(r, es) == r
    decreases |es|
  {
    if es != [] {
      IdlingChangesNothing(r, es[..|es| - 1]);
    }
  }

  /** Whatever is sent to a finished room, the moment it may be collected stays the same. */
  lemma FinishTimeIsFixed(r: Room, es: seq<Timed>, i: nat, j: nat)
    requires i <= j <= |es| && After(r, es, i).lifecycle == Finished
    ensures After(r, es, j).finishedAt == After(r, es, i).finishedAt
    ensures After(r, es, j).lifecycle == Finished || After(r, es, j).lifecycle == Closed
  {
    RunOnward(r, es, i, j);
  }

  // ----- the manager --------------------------------------------------------------------

  datatype ManagerError = UnknownGameType | JoinFailed(why: RoomError)

  class Manager {
    const registry: map<string, Game>
    const grace: nat
    const waitingTTL: nat
    const finishedLinger: nat
    var rooms: map<string, Actor>

    constructor (registry: map<string, Game>, grace: nat, waitingTTL: nat, finishedLinger: nat)
      ensures this.registry == registry && this.grace == grace && this.waitingTTL == waitingTTL
      ensures this.finishedLinger == finishedLinger && rooms == map[] && Valid()
    {
      this.registry, this.grace, this.waitingTTL, this.finishedLinger := registry, grace, waitingTTL, finishedLinger;
      rooms := map[];
    }

    /** Every room is registered under one ID. */
    ghost predicate Valid()
      reads this
    {
      Injective(rooms)
    }

    method CreateRoom(id: string, gameType: string, initialPlayers: seq<PlayerId>, now: Time)
      returns (r: Actor?, err: Option<ManagerError>)
      requires Valid() && id !in rooms
      modifies this
      ensures Valid()
      ensures gameType !in registry ==> r == null && err == Some(UnknownGameType) && rooms == old(rooms)
      ensures gameType in registry ==>
                && r != null && fresh(r) && rooms == old(rooms)[id := r]
                && var (n, e) := JoinAll(NewRoom(registry[gameType], grace, now), initialPlayers, now);
                   r.View() == n && err == if e.Some? then Some(JoinFailed(e.value)) else None
      ensures gameType in registry ==>
                r != null && r.game == registry[gameType] && r.grace == grace && r.lastActivity == now && r.timers == multiset{}
    {
      if gameType !in registry {
        return null, Some(UnknownGameType);
      }
      var room := new Actor(registry[gameType], grace, now);
      rooms := rooms[id := room];
      var i := 0;
      while i < |initialPlayers|
        invariant i <= |initialPlayers| && fresh(room) && rooms == old(rooms)[id := room]
        invariant room.game == registry[gameType] && room.grace == grace
        invariant room.lastActivity == now && room.timers == multiset{}
        invariant JoinAll(NewRoom(registry[gameType], grace, now), initialPlayers, now)
                  == JoinAll(room.View(), initialPlayers[i..], now)
      {
        JoinSetsNoTimer(room.View(), initialPlayers[i], now);
        var reply := room.Handle(At(now, Join(initialPlayers[i])));
        if reply.err.Some? {
          return room, Some(JoinFailed(reply.err.value));
        }
        i := i + 1;
      }
      return room, None;
    }

    method Remove(id: string)
      modifies this
      ensures rooms == old(rooms) - {id}
      ensures old(Valid()) ==> Valid()
    {
      rooms := rooms - {id};
    }

    /** Waiting longer than WaitingTTL since the last command, or finished longer than FinishedLinger ago. */
    predicate Stale(r: Room, now: Time) {
      || (r.lifecycle == Waiting && now as int - r.lastActivity as int > waitingTTL)
      || (r.lifecycle == Finished && now as int - r.finishedAt as int > finishedLinger)
    }

    /** What a sweep makes of a room. */
    ghost function Sweep(r: Room, now: Time): Room {
      if Stale(r, now)
      then r.(lifecycle := Closed, lastActivity := now, log := r.log + [RoomClosed(r.serverSeq)])
      else r
    }

    /** Look at one room, and close and unregister it if it is stale. */
    method SweepRoom(id: string, now: Time)
      requires id in rooms
      modifies this, rooms[id]
      ensures rooms == if Stale(old(rooms[id].View()), now) then old(rooms) - {id} else old(rooms)
      ensures old(rooms)[id].View() == Sweep(old(rooms[id].View()), now)
      ensures old(Valid()) ==> Valid()
    {
      var room := rooms[id];
      var status := room.StatusLocked();
      if (status.lifecycle == Waiting && now as int - status.lastActivityAt as int > waitingTTL)
         || (status.lifecycle == Finished && now as int - status.finishedAt as int > finishedLinger) {
        var _ := room.Handle(At(now, ForceClose));
        Remove(id);
      }
    }

    /** The same, seen from all the rooms a sweep started with: only this one changes. */
    method SweepOneOf(id: string, now: Time, ghost all: map<string, Actor>)
      requires id in rooms && id in all && all[id] == rooms[id] && Injective(all)
      modifies this, rooms[id]
      ensures rooms == if Stale(old(Views(all))[id], now) then old(rooms) - {id} else old(rooms)
      ensures Views(all) == old(Views(all))[id := Sweep(old(Views(all))[id], now)]
    {
      ghost var before := Views(all);
      ghost var after := Sweep(before[id], now);
      SweepRoom(id, now);
      forall other | other in all && other != id ensures Views(all)[other] == before[other] {
        assert all[other] != all[id];
      }
      OneDiffers(before, Views(all), id, after);
    }

    /** Half-way through a sweep: the rooms still to do are as before. */
    ghost function Halfway(before: map<string, Room>, todo: set<string>, now: Time): map<string, Room> {
      map id | id in before :: if id in todo then before[id] else Sweep(before[id], now)
    }

    ghost function Kept(all: map<string, Actor>, before: map<string, Room>, todo: set<string>, now: Time): map<string, Actor>
      requires before.Keys == all.Keys
    {
      map id | id in all && (id in todo || !Stale(before[id], now)) :: all[id]
    }

    lemma OneMore(all: map<string, Actor>, before: map<string, Room>, todo: set<string>, id: string, now: Time)
      requires before.Keys == all.Keys && id in todo && id in all
      ensures id in Kept(all, before, todo, now) && Kept(all, before, todo, now)[id] == all[id]
      ensures id in Halfway(before, todo, now) && Halfway(before, todo, now)[id] == before[id]
      ensures Halfway(before, todo - {id}, now) == Halfway(before, todo, now)[id := Sweep(before[id], now)]
      ensures Kept(all, before, todo - {id}, now)
              == if Stale(before[id], now) then Kept(all, before, todo, now) - {id} else Kept(all, before, todo, now)
    {
    }

    lemma AllLeft(all: map<string, Actor>, before: map<string, Room>, now: Time)
      requires before.Keys == all.Keys
      ensures Halfway(before, all.Keys, now) == before && Kept(all, before, all.Keys, now) == all
    {
    }

    lemma NoneLeft(all: map<string, Actor>, before: map<string, Room>, now: Time)
      requires before.Keys == all.Keys
      ensures Halfway(before, {}, now) == map id | id in all :: Sweep(before[id], now)
      ensures Kept(all, before, {}, now) == map id | id in all && !Stale(before[id], now) :: all[id]
    {
    }

    /** Where a sweep over `all` stands that still has the rooms of `todo` to do. */
    ghost predicate Midway(all: map<string, Actor>, before: map<string, Room>, todo: set<string>, now: Time)
      reads this, all.Values
    {
      && before.Keys == all.Keys && todo <= all.Keys
      && rooms == Kept(all, before, todo, now) && Views(all) == Halfway(before, todo, now)
    }

    /** The next room of a sweep, whichever it is. */
    method SweepNext(id: string, now: Time, ghost all: map<string, Actor>, ghost before: map<string, Room>, ghost todo: set<string>)
      requires Injective(all) && Midway(all, before, todo, now) && id in todo
      modifies this, all[id]
      ensures Midway(all, before, todo - {id}, now)
    {
      OneMore(all, before, todo, id, now);
      SweepOneOf(id, now, all);
    }

    /** The walk over the registry, in any order. */
    method SweepAll(now: Time, ghost all: map<string, Actor>, ghost before: map<string, Room>)
      requires Injective(all) && all == rooms && Midway(all, before, all.Keys, now)
      modifies this, all.Values
      ensures Midway(all, before, {}, now)
    {
      var todo := rooms.Keys;
      while todo != {}
        invariant Midway(all, before, todo, now)
        decreases |todo|
      {
        var id :| id in todo;
        assert all[id] in all.Values;
        SweepNext(id, now, all, before, todo);
        todo := todo - {id};
      }
    }

    /** One sweep, with nothing else going on: exactly the stale rooms are closed and unregistered,
        and every other room is untouched. */
    method GCSweepOnce(now: Time)
      requires Valid()
      modifies this, rooms.Values
      ensures Valid()
      ensures rooms == map id | id in old(rooms) && !Stale(old(Views(rooms))[id], now) :: old(rooms)[id]
      ensures Views(old(rooms)) == map id | id in old(rooms) :: Sweep(old(Views(rooms))[id], now)
      ensures forall id | id in rooms :: InTime(Views(rooms)[id], now)
      ensures forall id | id in old(rooms) ::
                if InTime(old(Views(rooms))[id], now) then id in rooms && Views(old(rooms))[id] == old(Views(rooms))[id]
                else id !in rooms && Views(old(rooms))[id].lifecycle == Closed
    {
      ghost var all, before := rooms, Views(rooms);
      AllLeft(all, before, now);
      SweepAll(now, all, before);
      NoneLeft(all, before, now);
      forall id | id in all ensures Stale(before[id], now) <==> !InTime(before[id], now) {
        StaleIff(this, before[id], now);
      }
    }

    /** Not waiting for longer than WaitingTTL since the last command, and not finished for longer than
        FinishedLinger. */
    ghost predicate InTime(r: Room, now: Time) {
      && (r.lifecycle == Waiting ==> now <= r.lastActivity + waitingTTL)
      && (r.lifecycle == Finished ==> now <= r.finishedAt + finishedLinger)
    }
  }

  ghost predicate Injective(rooms: map<string, Actor>) {
    forall i, j :: i in rooms && j in rooms && rooms[i] == rooms[j] ==> i == j
  }

  /** The state of every room. */
  ghost function Views(rooms: map<string, Actor>): map<string, Room>
    reads rooms.Values
  {
    map id | id in rooms :: rooms[id].View()
  }

  lemma OneDiffers(before: map<string, Room>, after: map<string, Room>, id: string, r: Room)
    requires before.Keys == after.Keys && id in after && after[id] == r
    requires forall other :: other in after && other != id ==> after[other] == before[other]
    ensures after == before[id := r]
  {
  }

  /** What counts as overdue: a room that is neither Waiting nor Finished never is. */
  lemma StaleIff(m: Manager, r: Room, now: Time)
    ensures m.Stale(r, now) <==> !m.InTime(r, now)
    ensures m.Stale(r, now) ==> r.lifecycle == Waiting || r.lifecycle == Finished
  {
  }

  /** After a sweep no registered room is overdue. */
  lemma SweptRoomsAreNotStale(m: Manager, r: Room, now: Time)
    ensures !m.Stale(m.Sweep(r, now), now)
    ensures m.Sweep(r, now) == if m.Stale(r, now) then r.Step(At(now, ForceClose)) else r
  {
  }

  /** Not a command from a player or an operator: such inputs leave the activity clock alone. */
  predicate Idle(i: Input) {
    i.Tick? || i.Poll? || i.Fire?
  }

  /** Closed, or in use since `now`: no sweep at `now` finds the room overdue. */
  ghost predicate InUseSince(r: Room, now: Time) {
    r.lifecycle == Closed || (now <= r.lastActivity && (r.lifecycle == Finished ==> now <= r.finishedAt))
  }

  lemma StaysInUse(r: Room, e: Timed, now: Time)
    requires InUseSince(r, now) && now <= e.now
    ensures InUseSince(r.Step(e), now)
  {
  }

  lemma CommandPutsInUse(r: Room, e: Timed, now: Time)
    requires r.lifecycle == Waiting && !Idle(e.input) && now <= e.now
    ensures InUseSince(r.Step(e), now)
  {
  }

  ghost predicate AllIdle(es: seq<Timed>) {
    forall k :: 0 <= k < |es| ==> Idle(es[k].input)
  }

  lemma AllIdleButLast(es: seq<Timed>)
    requires es != []
    ensures AllIdle(es) <==> AllIdle(es[..|es| - 1]) && Idle(es[|es| - 1].input)
  {
    var pre := es[..|es| - 1];
    assert forall k :: 0 <= k < |pre| ==> pre[k] == es[k];
  }

  lemma IdleStep(r: Room, e: Timed)
    requires r.lifecycle == Waiting && r.timers == multiset{} && Idle(e.input)
    ensures r.Step(e) == r
  {
  }

  /** Between a status read and the close that follows it, a waiting room is either left alone
      altogether or in use from then on. */
  lemma {:induction false} LeftAloneOrInUse(r: Room, es: seq<Timed>, now: Time)
    requires r.lifecycle == Waiting && r.timers == multiset{}
    requires forall k :: 0 <= k < |es| ==> now <= es[k].now
    ensures if AllIdle(es) then Exec(r, es) == r else InUseSince(Exec(r, es), now)
    decreases |es|
  {
    if es != [] {
      var pre, e := es[..|es| - 1], es[|es| - 1];
      LeftAloneOrInUse(r, pre, now);
      AllIdleButLast(es);
      if !AllIdle(pre) {
        StaysInUse(Exec(r, pre), e, now);
      } else if Idle(e.input) {
        IdleStep(r, e);
      } else {
        CommandPutsInUse(r, e, now);
      }
    }
  }

  /** A sweep reads the status first and closes in a second step, with anything at all in between.
      What it closes is still overdue exactly if no command reached the waiting room in the meantime;
      ticks, status reads and timers do no harm. */
  lemma StillStaleIff(m: Manager, r: Room, es: seq<Timed>, now: Time, c: Promise)
    requires Inv(r, c) && r.lifecycle == Waiting && m.Stale(r, now)
    requires forall k :: 0 <= k < |es| ==> now <= es[k].now
    ensures m.Stale(Exec(r, es), now) <==> forall k :: 0 <= k < |es| ==> Idle(es[k].input)
  {
    LeftAloneOrInUse(r, es, now);
  }

  lemma LastJoinStarts(r: Room, p: PlayerId, now: Time, c: Promise)
    requires Lawful(r.game, c) && Inv(r, c)
    requires r.lifecycle == Waiting && |r.seatOrder| + 1 == r.game.minPlayers && p !in r.players
    ensures r.Step(At(now, Join(p))).lifecycle == Active
  {
  }

  /** So a join that completes the table between the two steps starts a game that is closed at once. */
  lemma SweepCanCloseALiveGame(m: Manager, r: Room, p: PlayerId, now: Time, c: Promise)
    requires Lawful(r.game, c) && Inv(r, c) && m.Stale(r, now)
    requires r.lifecycle == Waiting && |r.seatOrder| + 1 == r.game.minPlayers && p !in r.players
    ensures var joined := r.Step(At(now, Join(p)));
            joined.lifecycle == Active && !m.Stale(joined, now) && joined.Step(At(now, ForceClose)).lifecycle == Closed
  {
    LastJoinStarts(r, p, now, c);
    var joined := r.Step(At(now, Join(p)));
    assert joined.Step(At(now, ForceClose)).lifecycle == Closed by {
      ForceCloseCloses(joined, now);
    }
  }

  lemma ForceCloseCloses(r: Room, now: Time)
    ensures r.Step(At(now, ForceClose)).lifecycle == Closed
  {
  }
}
