/** What every handler keeps, for every lawful game. */
module RoomInvariant {
  import opened Prelude
  import opened Game
  import opened RoomModel

  // ----- reading the broadcast log ------------------------------------------------------

  ghost function DiffCount(log: seq<RoomEvent>): nat {
    if log == [] then 0
    else DiffCount(log[..|log| - 1]) + if log[|log| - 1].StateDiff? then 1 else 0
  }

  ghost predicate About(e: RoomEvent, p: PlayerId) {
    (e.PlayerJoined? || e.PlayerDisconnected? || e.PlayerReconnected?) && e.who == p
  }

  /** The last word of the log on whether `p` is connected. */
  ghost predicate LogConnected(log: seq<RoomEvent>, p: PlayerId) {
    log != [] &&
    var e := log[|log| - 1];
    if About(e, p) then !e.PlayerDisconnected? else LogConnected(log[..|log| - 1], p)
  }

  /** How often `p` disconnected since they last joined. */
  ghost function LogGeneration(log: seq<RoomEvent>, p: PlayerId): nat {
    if log == [] then 0
    else
      var e := log[|log| - 1];
      var before := LogGeneration(log[..|log| - 1], p);
      if About(e, p) && e.PlayerJoined? then 0
      else if About(e, p) && e.PlayerDisconnected? then before + 1
      else before
  }

  ghost predicate LogStarted(log: seq<RoomEvent>) {
    log != [] && (log[|log| - 1].RoomStarted? || LogStarted(log[..|log| - 1]))
  }

  ghost predicate LogEnded(log: seq<RoomEvent>) {
    log != [] && ((log[|log| - 1].StateDiff? && log[|log| - 1].terminal) || LogEnded(log[..|log| - 1]))
  }

  /** `p` disconnected after the game had started and has not been back since. */
  ghost predicate DroppedLive(log: seq<RoomEvent>, p: PlayerId) {
    log != [] &&
    var e := log[|log| - 1];
    if About(e, p) then e.PlayerDisconnected? && LogStarted(log[..|log| - 1]) else DroppedLive(log[..|log| - 1], p)
  }

  /** May `e` follow `log`? A diff takes the next number and only before the end; any other
      event repeats the current number; disconnects and reconnects alternate. */
  ghost predicate Follows(log: seq<RoomEvent>, e: RoomEvent) {
    && e.serverSeq == DiffCount(log) + (if e.StateDiff? then 1 else 0)
    && (e.StateDiff? ==> LogStarted(log) && !LogEnded(log))
    && (e.RoomStarted? ==> !LogStarted(log))
    && (e.PlayerDisconnected? ==> LogConnected(log, e.who))
    && (e.PlayerReconnected? ==> !LogConnected(log, e.who))
  }

  ghost predicate WellFormed(log: seq<RoomEvent>) {
    log == [] || (WellFormed(log[..|log| - 1]) && Follows(log[..|log| - 1], log[|log| - 1]))
  }

  // ----- the invariant ------------------------------------------------------------------

  /** Seats are the bijection between the seat list and the keys of the slot map. */
  ghost predicate Bijection(order: seq<PlayerId>, slots: map<PlayerId, Slot>) {
    && (forall i :: 0 <= i < |order| ==> order[i] in slots && slots[order[i]].seat == i)
    && (forall p :: p in slots ==> slots[p].seat < |order| && order[slots[p].seat] == p)
  }

  ghost predicate Seating(r: Room) {
    |r.seatOrder| <= r.game.maxPlayers && Bijection(r.seatOrder, r.players)
  }

  /** The players the game was started with: it starts at the join that fills MinPlayers. */
  ghost function Cast(r: Room): seq<PlayerId>
    requires r.game.minPlayers <= |r.seatOrder|
  {
    r.seatOrder[..r.game.minPlayers]
  }

  ghost predicate Playing(r: Room, c: Promise) {
    && r.state.Some? && r.game.minPlayers <= |r.seatOrder|
    && c.reach(Cast(r), r.state.value)
    && r.serverSeq + c.remaining(r.state.value) <= c.limit
  }

  /** Lifecycle and game state are coupled. */
  ghost predicate Coupled(r: Room, c: Promise) {
    match r.lifecycle
    case Waiting =>
      && r.state.None? && |r.seatOrder| < r.game.minPlayers && r.serverSeq == 0 && r.timers == multiset{}
      && r.finishedAt == 0 && (forall p :: p in r.players ==> r.players[p].lastAppliedSeq == 0)
    case Active => Playing(r, c) && !r.game.isTerminal(r.state.value)
    case Finished => Playing(r, c) && r.game.isTerminal(r.state.value)
    case Closed => if r.state.Some? then Playing(r, c) else r.serverSeq == 0
  }

  /** The log determines the counters and flags. */
  ghost predicate Logged(r: Room) {
    && WellFormed(r.log)
    && r.serverSeq == DiffCount(r.log)
    && (LogStarted(r.log) <==> r.state.Some?)
    && (LogEnded(r.log) <==> r.state.Some? && r.game.isTerminal(r.state.value))
    && (forall p :: p in r.players ==>
          r.players[p].connected == LogConnected(r.log, p) && r.players[p].generation == LogGeneration(r.log, p))
  }

  ghost predicate HasTimer(r: Room, p: PlayerId, generation: nat) {
    exists t :: t in r.timers && t.player == p && t.generation == generation
  }

  /** `p` is in the game, offline since a disconnect that happened during the game. */
  ghost predicate OnNotice(r: Room, p: PlayerId) {
    && p in r.players && !r.players[p].connected && r.players[p].seat < r.game.minPlayers
    && r.lifecycle == Active && DroppedLive(r.log, p)
  }

  /** Pending timers are about seated players, one per disconnect, and a disconnect from
      before the start has none. */
  ghost predicate Issued(r: Room) {
    && (forall t | t in r.timers ::
          r.timers[t] == 1 && t.player in r.players && 1 <= t.generation <= r.players[t.player].generation)
    && (forall t, u | t in r.timers && u in r.timers && t.player == u.player && t.generation == u.generation :: t == u)
    && (forall t | t in r.timers && !r.players[t.player].connected && !DroppedLive(r.log, t.player) ::
          t.generation < r.players[t.player].generation)
  }

  /** Nobody on notice is without a timer of their current generation. */
  ghost predicate Covered(r: Room) {
    forall p | OnNotice(r, p) :: HasTimer(r, p, r.players[p].generation)
  }

  ghost predicate Watched(r: Room) {
    Issued(r) && Covered(r)
  }

  ghost predicate Inv(r: Room, c: Promise) {
    Seating(r) && Coupled(r, c) && Logged(r) && Watched(r)
  }

  // ----- one event more -----------------------------------------------------------------

  lemma LogGrows(log: seq<RoomEvent>, e: RoomEvent)
    ensures var l := log + [e];
            && DiffCount(l) == DiffCount(log) + (if e.StateDiff? then 1 else 0)
            && (WellFormed(l) <==> WellFormed(log) && Follows(log, e))
            && (LogStarted(l) <==> e.RoomStarted? || LogStarted(log))
            && (LogEnded(l) <==> (e.StateDiff? && e.terminal) || LogEnded(log))
  {
  }

  lemma LogGrowsFor(log: seq<RoomEvent>, e: RoomEvent)
    ensures forall p :: LogConnected(log + [e], p) ==
                        if About(e, p) then !e.PlayerDisconnected? else LogConnected(log, p)
    ensures forall p :: LogGeneration(log + [e], p) ==
                        if About(e, p) && e.PlayerJoined? then 0
                        else LogGeneration(log, p) + if About(e, p) && e.PlayerDisconnected? then 1 else 0
    ensures forall p :: DroppedLive(log + [e], p) ==
                        if About(e, p) then e.PlayerDisconnected? && LogStarted(log) else DroppedLive(log, p)
  {
  }

  lemma {:induction false} NobodyDropsBeforeTheStart(log: seq<RoomEvent>, p: PlayerId)
    ensures DroppedLive(log, p) ==> LogStarted(log)
  {
    if log != [] {
      NobodyDropsBeforeTheStart(log[..|log| - 1], p);
    }
  }

  // ----- joining ------------------------------------------------------------------------

  lemma SeatSeating(r: Room, p: PlayerId)
    requires Seating(r) && p !in r.players && |r.seatOrder| < r.game.maxPlayers
    ensures Seating(r.Seat(p))
  {
  }

  lemma SeatLogged(r: Room, p: PlayerId)
    requires Logged(r)
    ensures Logged(r.Seat(p))
  {
  }

  lemma SeatWatched(r: Room, p: PlayerId)
    requires Watched(r) && p !in r.players
    ensures Watched(r.Seat(p))
  {
    LogGrowsFor(r.log, PlayerJoined(r.serverSeq, p));
    forall q | OnNotice(r.Seat(p), q) ensures HasTimer(r.Seat(p), q, r.Seat(p).players[q].generation) {
      assert OnNotice(r, q);
    }
  }

  lemma StartKeeps(r: Room, c: Promise)
    requires Lawful(r.game, c) && Seating(r) && Logged(r)
    requires r.lifecycle == Waiting && r.state.None? && |r.seatOrder| == r.game.minPlayers && r.serverSeq == 0
    requires r.timers == multiset{}
    ensures r.Start().1.None? && r.Start().0.lifecycle == Active
    ensures Coupled(r.Start().0, c) && Logged(r.Start().0) && Watched(r.Start().0)
  {
    assert NoDuplicates(r.seatOrder);
    assert r.seatOrder[..r.game.minPlayers] == r.seatOrder;
    var e := RoomStarted(r.serverSeq, r.Start().0.Snapshot());
    LogGrows(r.log, e);
    LogGrowsFor(r.log, e);
    forall p ensures !OnNotice(r.Start().0, p) {
      NobodyDropsBeforeTheStart(r.log, p);
    }
  }

  lemma SeatKeeps(r: Room, p: PlayerId, c: Promise)
    requires Inv(r, c) && p !in r.players && |r.seatOrder| < r.game.maxPlayers
    requires r.lifecycle == Active || (r.lifecycle == Waiting && |r.seatOrder| + 1 < r.game.minPlayers)
    ensures Inv(r.Seat(p), c)
  {
    SeatSeating(r, p);
    SeatLogged(r, p);
    SeatWatched(r, p);
    if r.lifecycle == Active {
      assert Cast(r.Seat(p)) == Cast(r);
    }
  }

  /** The join that fills MinPlayers always starts the game. */
  lemma LastSeatStarts(r: Room, p: PlayerId, c: Promise)
    requires Lawful(r.game, c) && Inv(r, c) && p !in r.players
    requires r.lifecycle == Waiting && |r.seatOrder| + 1 == r.game.minPlayers
    ensures r.Seat(p).Start().1.None? && r.Seat(p).Start().0.lifecycle == Active
    ensures Inv(r.Seat(p).Start().0, c)
  {
    SeatSeating(r, p);
    SeatLogged(r, p);
    StartKeeps(r.Seat(p), c);
  }

  lemma JoinKeeps(r: Room, p: PlayerId, c: Promise)
    requires Lawful(r.game, c) && Inv(r, c)
    ensures Inv(r.HandleJoin(p).0, c)
  {
    if (r.lifecycle == Waiting || r.lifecycle == Active) && p !in r.players && |r.seatOrder| < r.game.maxPlayers {
      if r.lifecycle == Waiting && |r.seatOrder| + 1 == r.game.minPlayers {
        LastSeatStarts(r, p, c);
      } else {
        SeatKeeps(r, p, c);
      }
    }
  }

  // ----- leaving ------------------------------------------------------------------------

  /** Who sits where after the shift: the first `k` stay, the others move up. */
  lemma ShiftedSeat(order: seq<PlayerId>, slots: map<PlayerId, Slot>, p: PlayerId, i: nat)
    requires Bijection(order, slots) && p in slots && i < |order| && order[i] != p
    ensures order[i] in Compact(slots, p)
    ensures Compact(slots, p)[order[i]].seat == if i > slots[p].seat then i - 1 else i
  {
  }

  /** The in-place shift and the seat decrements give back a bijection. */
  lemma CompactBijection(order: seq<PlayerId>, slots: map<PlayerId, Slot>, p: PlayerId)
    requires Bijection(order, slots) && p in slots
    ensures Bijection(RemoveFirst(order, p), Compact(slots, p))
    ensures |RemoveFirst(order, p)| == |order| - 1
  {
    var k := slots[p].seat;
    assert IndexOf(order, p) == k;
    var shifted, low := RemoveFirst(order, p), Compact(slots, p);
    forall i | 0 <= i < |shifted| ensures shifted[i] in low && low[shifted[i]].seat == i {
      ShiftedSeat(order, slots, p, if i < k then i else i + 1);
    }
    forall q | q in low ensures low[q].seat < |shifted| && shifted[low[q].seat] == q {
      ShiftedSeat(order, slots, p, slots[q].seat);
    }
  }

  lemma UnseatSeating(r: Room, p: PlayerId)
    requires Seating(r) && p in r.players
    ensures Seating(r.Unseat(p)) && |r.Unseat(p).seatOrder| == |r.seatOrder| - 1
  {
    CompactBijection(r.seatOrder, r.players, p);
  }

  lemma UnseatRest(r: Room, p: PlayerId, c: Promise)
    requires Seating(r) && Coupled(r, c) && Logged(r) && r.lifecycle == Waiting && p in r.players
    ensures Coupled(r.Unseat(p), c) && Logged(r.Unseat(p))
  {
  }

  // ----- connections --------------------------------------------------------------------

  lemma DisconnectLogged(r: Room, p: PlayerId, now: Time)
    requires Logged(r)
    ensures Logged(r.HandleDisconnect(p, now).0)
  {
    LogGrows(r.log, PlayerDisconnected(r.serverSeq, p));
    LogGrowsFor(r.log, PlayerDisconnected(r.serverSeq, p));
  }

  lemma DisconnectWatched(r: Room, p: PlayerId, now: Time)
    requires Watched(r) && p in r.players && r.players[p].connected
    requires r.lifecycle == Active && LogStarted(r.log)
    ensures Watched(r.HandleDisconnect(p, now).0)
  {
    LogGrowsFor(r.log, PlayerDisconnected(r.serverSeq, p));
    var n := r.HandleDisconnect(p, now).0;
    var armed := Timer(p, r.players[p].generation + 1, now + r.grace);
    assert armed !in r.timers;
    assert forall t :: t in n.timers <==> t in r.timers || t == armed;
    forall q | OnNotice(n, q) ensures HasTimer(n, q, n.players[q].generation) {
      if q == p {
        assert armed in n.timers;
      } else {
        assert OnNotice(r, q);
      }
    }
  }

  lemma LateDisconnectWatched(r: Room, p: PlayerId, now: Time)
    requires Watched(r) && p in r.players && r.players[p].connected && r.lifecycle != Active
    ensures Watched(r.HandleDisconnect(p, now).0)
  {
  }

  lemma ReconnectLogged(r: Room, p: PlayerId)
    requires Logged(r)
    ensures Logged(r.HandleReconnect(p).0)
  {
    LogGrows(r.log, PlayerReconnected(r.serverSeq, p));
    LogGrowsFor(r.log, PlayerReconnected(r.serverSeq, p));
  }

  lemma ReconnectWatched(r: Room, p: PlayerId)
    requires Watched(r)
    ensures Watched(r.HandleReconnect(p).0)
  {
    LogGrowsFor(r.log, PlayerReconnected(r.serverSeq, p));
    var n := r.HandleReconnect(p).0;
    forall q | OnNotice(n, q) ensures HasTimer(n, q, n.players[q].generation) {
      assert OnNotice(r, q);
    }
  }

  /** Somebody's connection says nothing about seats, lifecycle or game. */
  lemma ConnectionRest(r: Room, n: Room, p: PlayerId, s: Slot, c: Promise)
    requires Seating(r) && Coupled(r, c) && p in r.players
    requires s.seat == r.players[p].seat && s.lastAppliedSeq == r.players[p].lastAppliedSeq
    requires n == r.(players := r.players[p := s], log := n.log, timers := n.timers)
    requires r.lifecycle != Active ==> n.timers == r.timers
    ensures Seating(n) && Coupled(n, c)
  {
  }

  lemma DisconnectKeeps(r: Room, p: PlayerId, now: Time, c: Promise)
    requires Inv(r, c)
    ensures Inv(r.HandleDisconnect(p, now).0, c)
  {
    if p in r.players && r.players[p].connected {
      var n := r.HandleDisconnect(p, now).0;
      ConnectionRest(r, n, p, n.players[p], c);
      DisconnectLogged(r, p, now);
      if r.lifecycle == Active {
        DisconnectWatched(r, p, now);
      } else {
        LateDisconnectWatched(r, p, now);
      }
    }
  }

  lemma LeaveKeeps(r: Room, p: PlayerId, now: Time, c: Promise)
    requires Inv(r, c)
    ensures Inv(r.HandleLeave(p, now).0, c)
  {
    if p in r.players && r.lifecycle == Waiting {
      UnseatSeating(r, p);
      UnseatRest(r, p, c);
      assert r.HandleLeave(p, now).0.timers == multiset{};
    } else {
      DisconnectKeeps(r, p, now, c);
    }
  }

  lemma ReconnectKeeps(r: Room, p: PlayerId, c: Promise)
    requires Inv(r, c)
    ensures Inv(r.HandleReconnect(p).0, c)
  {
    if p in r.players && !r.players[p].connected {
      var n := r.HandleReconnect(p).0;
      ConnectionRest(r, n, p, n.players[p], c);
      ReconnectLogged(r, p);
      ReconnectWatched(r, p);
    }
  }

  // ----- game results -------------------------------------------------------------------

  lemma PublishCoupled(r: Room, res: Result, who: PlayerId, now: Time, c: Promise)
    requires Coupled(r, c) && Logged(r) && r.lifecycle == Active
    requires Advances(r.game, c, Cast(r), r.state.value, res)
    ensures Coupled(r.Publish(res, res.terminal, who, now), c)
    ensures Logged(r.Publish(res, res.terminal, who, now))
  {
  }

  lemma PublishWatched(r: Room, res: Result, who: PlayerId, now: Time)
    requires Issued(r) && (res.terminal || Covered(r))
    ensures Watched(r.Publish(res, res.terminal, who, now))
  {
    var n := r.Publish(res, res.terminal, who, now);
    LogGrowsFor(r.log, n.log[|r.log|]);
    forall q | OnNotice(n, q) ensures HasTimer(n, q, n.players[q].generation) {
      assert OnNotice(r, q);
    }
  }

  lemma PublishKeeps(r: Room, res: Result, who: PlayerId, now: Time, c: Promise)
    requires Seating(r) && Coupled(r, c) && Logged(r) && Issued(r) && r.lifecycle == Active
    requires Advances(r.game, c, Cast(r), r.state.value, res)
    requires res.terminal || Covered(r)
    ensures Inv(r.Publish(res, res.terminal, who, now), c)
  {
    PublishCoupled(r, res, who, now, c);
    PublishWatched(r, res, who, now);
  }

  /** Remembering the last applied sequence number of a player changes nothing else. */
  lemma NoteSeqKeeps(r: Room, p: PlayerId, n: nat, c: Promise)
    requires Seating(r) && Coupled(r, c) && Logged(r) && p in r.players && r.lifecycle != Waiting
    ensures var m := r.(players := r.players[p := r.players[p].(lastAppliedSeq := n)]);
            Seating(m) && Coupled(m, c) && Logged(m)
  {
  }

  lemma NoteSeqWatched(r: Room, p: PlayerId, n: nat)
    requires Watched(r) && p in r.players
    ensures Watched(r.(players := r.players[p := r.players[p].(lastAppliedSeq := n)]))
  {
  }

  lemma ActionKeeps(r: Room, a: Action, now: Time, c: Promise)
    requires Lawful(r.game, c) && Inv(r, c)
    ensures Inv(r.HandleAction(a, now).0, c)
  {
    if r.HandleAction(a, now).0 != r {
      var res := r.game.applyAction(r.state.value, a).value;
      var m := r.(players := r.players[a.player := r.players[a.player].(lastAppliedSeq := a.seqNo)]);
      NoteSeqKeeps(r, a.player, a.seqNo, c);
      NoteSeqWatched(r, a.player, a.seqNo);
      assert Cast(m) == Cast(r);
      PublishKeeps(m, res, a.player, now, c);
    }
  }

  lemma TickKeeps(r: Room, now: Time, c: Promise)
    requires Lawful(r.game, c) && Inv(r, c)
    ensures Inv(r.HandleTick(now), c)
  {
    if r.HandleTick(now) != r {
      PublishKeeps(r, r.game.tick(r.state.value, now).value, "", now, c);
    }
  }

  // ----- timers -------------------------------------------------------------------------

  ghost predicate Current(r: Room, t: Timer) {
    t.player in r.players && !r.players[t.player].connected && r.players[t.player].generation == t.generation
  }

  lemma SeatsInTheGame(r: Room, p: PlayerId)
    requires Seating(r) && p in r.players && r.game.minPlayers <= |r.seatOrder|
    ensures p in Cast(r) <==> r.players[p].seat < r.game.minPlayers
  {
  }

  lemma DeliveryKeepsIssued(r: Room, t: Timer)
    requires Issued(r) && t in r.timers
    ensures Issued(r.(timers := r.timers - multiset{t}))
  {
  }

  lemma DeliveryKeepsCovered(r: Room, t: Timer)
    requires Issued(r) && Covered(r) && t in r.timers
    requires !Current(r, t) || !OnNotice(r, t.player)
    ensures Covered(r.(timers := r.timers - multiset{t}))
  {
  }

  lemma AbandonedLoses(g: Game, c: Promise, ps: seq<PlayerId>, s: State, p: PlayerId)
    requires AbandonLaw(g, c) && c.reach(ps, s) && !g.isTerminal(s)
    ensures g.onPlayerAbandoned(s, p).Ok? <==> p in ps
    ensures p in ps ==> var r := g.onPlayerAbandoned(s, p).value; Advances(g, c, ps, s, r) && LostBy(p, ps, r)
  {
  }

  lemma DeliveryRest(r: Room, t: Timer, c: Promise)
    requires Seating(r) && Coupled(r, c) && Logged(r) && t in r.timers
    ensures var m := r.(timers := r.timers - multiset{t}); Seating(m) && Coupled(m, c) && Logged(m)
  {
  }

  lemma ForfeitKeeps(r: Room, t: Timer, now: Time, c: Promise)
    requires AbandonLaw(r.game, c) && Inv(r, c) && t in r.timers
    requires Current(r, t) && r.lifecycle == Active && t.player in Cast(r)
    ensures Inv(r.(timers := r.timers - multiset{t}).HandleGraceExpired(t.player, t.generation, now), c)
  {
    var m := r.(timers := r.timers - multiset{t});
    DeliveryRest(r, t, c);
    DeliveryKeepsIssued(r, t);
    AbandonedLoses(r.game, c, Cast(r), r.state.value, t.player);
    var verdict := r.game.onPlayerAbandoned(r.state.value, t.player).value;
    PublishKeeps(m, verdict, t.player, now, c);
    assert m.HandleGraceExpired(t.player, t.generation, now) == m.Publish(verdict, verdict.terminal, t.player, now);
  }

  lemma StaleTimerKeeps(r: Room, t: Timer, now: Time, c: Promise)
    requires AbandonLaw(r.game, c) && Inv(r, c) && t in r.timers
    requires !Current(r, t) || r.lifecycle != Active || t.player !in Cast(r)
    ensures r.(timers := r.timers - multiset{t}).HandleGraceExpired(t.player, t.generation, now)
            == r.(timers := r.timers - multiset{t})
    ensures Inv(r.(timers := r.timers - multiset{t}), c)
  {
    DeliveryRest(r, t, c);
    DeliveryKeepsIssued(r, t);
    if r.lifecycle == Active {
      SeatsInTheGame(r, t.player);
      AbandonedLoses(r.game, c, Cast(r), r.state.value, t.player);
    }
    DeliveryKeepsCovered(r, t);
  }

  lemma FireKeeps(r: Room, t: Timer, now: Time, c: Promise)
    requires AbandonLaw(r.game, c) && Inv(r, c) && t in r.timers
    ensures Inv(r.(timers := r.timers - multiset{t}).HandleGraceExpired(t.player, t.generation, now), c)
  {
    if Current(r, t) && r.lifecycle == Active && t.player in Cast(r) {
      ForfeitKeeps(r, t, now, c);
    } else {
      StaleTimerKeeps(r, t, now, c);
    }
  }

  lemma CloseLogged(r: Room)
    requires Logged(r)
    ensures Logged(r.HandleForceClose().0)
  {
    LogGrows(r.log, RoomClosed(r.serverSeq));
    LogGrowsFor(r.log, RoomClosed(r.serverSeq));
  }

  lemma CloseIssued(r: Room)
    requires Issued(r)
    ensures Issued(r.HandleForceClose().0)
  {
  }

  lemma CloseKeeps(r: Room, c: Promise)
    requires Inv(r, c)
    ensures Inv(r.HandleForceClose().0, c)
  {
    CloseLogged(r);
    CloseIssued(r);
  }

  lemma TouchKeeps(r: Room, now: Time, c: Promise)
    requires Inv(r, c)
    ensures Inv(r.(lastActivity := now), c)
  {
    var n := r.(lastActivity := now);
    assert Covered(n) by {
      forall q | OnNotice(n, q) ensures HasTimer(n, q, n.players[q].generation) {
        assert OnNotice(r, q);
      }
    }
  }

  /** What holds after whichever handler the input selects holds after the turn. */
  lemma Dispatch(r: Room, e: Timed, holds: Room -> bool)
    requires holds(r) && holds(r.HandleTick(e.now))
    requires var n := r.(lastActivity := e.now);
      match e.input
      case Join(p) => holds(n.HandleJoin(p).0)
      case Leave(p) => holds(n.HandleLeave(p, e.now).0)
      case Submit(a) => holds(n.HandleAction(a, e.now).0)
      case Disconnect(p) => holds(n.HandleDisconnect(p, e.now).0)
      case Reconnect(p) => holds(n.HandleReconnect(p).0)
      case Fire(t) => r.Due(t, e.now) ==>
        holds(n.(timers := n.timers - multiset{t}).HandleGraceExpired(t.player, t.generation, e.now))
      case ForceClose => holds(n.HandleForceClose().0)
      case TakeSnapshot => holds(n)
      case Tick => true
      case Poll => true
    ensures holds(r.Step(e))
  {
  }

  /** Every turn of the actor loop keeps the invariant. */
  lemma StepKeeps(r: Room, e: Timed, c: Promise)
    requires Lawful(r.game, c) && Inv(r, c)
    ensures Inv(r.Step(e), c)
  {
    var n := r.(lastActivity := e.now);
    TickKeeps(r, e.now, c);
    TouchKeeps(r, e.now, c);
    match e.input {
      case Join(p) => JoinKeeps(n, p, c);
      case Leave(p) => LeaveKeeps(n, p, e.now, c);
      case Submit(a) => ActionKeeps(n, a, e.now, c);
      case Disconnect(p) => DisconnectKeeps(n, p, e.now, c);
      case Reconnect(p) => ReconnectKeeps(n, p, c);
      case Fire(t) => if r.Due(t, e.now) { FireKeeps(n, t, e.now, c); }
      case ForceClose => CloseKeeps(n, c);
      case _ =>
    }
    Dispatch(r, e, x => Inv(x, c));
  }
}
