// Rooms and the application layer: who is in which room, and what is left of
// a connection once its close hook has run.
module PulseRooms {
  import opened Common

  type Rooms = map<string, seq<nat>>
  type Bytes = seq<byte>

  /** A room's members without every occurrence of `ch`. */
  function Without(members: seq<nat>, ch: nat): (r: seq<nat>)
    ensures ch !in r
    ensures forall c :: c != ch ==> (c in r <==> c in members)
  {
    if members == [] then []
    else (if members[0] == ch then [] else [members[0]]) + Without(members[1..], ch)
  }

  /** What leaving one room does; a room left empty disappears. */
  function LeaveRoom(rooms: Rooms, room: string, ch: nat): Rooms {
    if room !in rooms then rooms
    else if Without(rooms[room], ch) == [] then rooms - {room}
    else rooms[room := Without(rooms[room], ch)]
  }

  function LeaveEverywhere(rooms: Rooms, ch: nat): Rooms {
    map room | room in rooms && Without(rooms[room], ch) != [] :: Without(rooms[room], ch)
  }

  function JoinRoom(rooms: Rooms, room: string, ch: nat): Rooms {
    rooms[room := (if room in rooms then rooms[room] else []) + [ch]]
  }

  predicate InNoRoom(rooms: Rooms, ch: nat) {
    forall room | room in rooms :: ch !in rooms[room]
  }

  /** No room is kept without members. */
  predicate NoEmptyRoom(rooms: Rooms) {
    forall room | room in rooms :: rooms[room] != []
  }

  class Hub {
    var rooms: Rooms

    constructor ()
      ensures rooms == map[]
    {
      rooms := map[];
    }

    method Join(room: string, ch: nat)
      modifies this
      ensures rooms == JoinRoom(old(rooms), room, ch)
    {
      var v := if room in rooms then rooms[room] else [];
      v := v + [ch];
      rooms := rooms[room := v];
    }

    method Leave(room: string, ch: nat)
      modifies this
      ensures rooms == LeaveRoom(old(rooms), room, ch)
    {
      if room !in rooms { return; }
      var v := Filter(rooms[room], ch);
      rooms := rooms[room := v];
      if v == [] {
        rooms := rooms - {room};
        assert rooms == old(rooms) - {room};
      }
    }

    /** Visits every room once, in whatever order the table yields them. */
    method LeaveAll(ch: nat)
      modifies this
      ensures rooms == LeaveEverywhere(old(rooms), ch)
    {
      var todo := rooms.Keys;
      while todo != {}
        invariant todo <= old(rooms).Keys && rooms.Keys <= old(rooms).Keys
        invariant forall room | room in todo :: room in rooms && rooms[room] == old(rooms)[room]
        invariant forall room | room in old(rooms) && room !in todo ::
                    if Without(old(rooms)[room], ch) == [] then room !in rooms
                    else room in rooms && rooms[room] == Without(old(rooms)[room], ch)
        decreases todo
      {
        var room :| room in todo;
        Leave(room, ch);
        todo := todo - {room};
      }
    }

    /**
     * A frame for a room is queued on every open channel in it, once for each
     * time the channel joined, and on no other channel.
     */
    method BroadcastFrame(room: string, frame: Bytes, channels: Channels)
      requires forall ch | room in rooms && ch in rooms[room] :: ch in channels.boxes
      modifies channels
      ensures channels.boxes.Keys == old(channels.boxes).Keys
      ensures forall ch | ch in channels.boxes ::
                channels.boxes[ch] == Queued(old(channels.boxes)[ch], frame, Memberships(rooms, room, ch))
    {
      hide AfterFrames;
      ghost var before := channels.boxes;
      NoFrames(before, frame);
      if room in rooms {
        var snap := rooms[room];
        for i := 0 to |snap|
          invariant channels.boxes == AfterFrames(before, frame, snap[..i])
        {
          assert snap[..i + 1] == snap[..i] + [snap[i]];
          FramesSnoc(before, frame, snap[..i], snap[i]);
          channels.SendRaw(snap[i], frame);
        }
        assert snap[..|snap|] == snap;
      }
      FramesCount(before, frame, if room in rooms then rooms[room] else []);
    }
  }

  // ---- what a broadcast does to the members ----

  /** A channel's outgoing side. */
  datatype Outbox = Outbox(pending: Bytes, closed: bool)

  class Channels {
    var boxes: map<nat, Outbox>

    constructor (boxes: map<nat, Outbox>)
      ensures this.boxes == boxes
    {
      this.boxes := boxes;
    }

    /** `send_raw`: a closed channel takes nothing more. */
    method SendRaw(ch: nat, frame: Bytes)
      requires ch in boxes
      modifies this
      ensures boxes == old(boxes)[ch := Queued(old(boxes)[ch], frame, 1)]
    {
      var b := boxes[ch];
      assert Copies(frame, 1) == frame by { OneCopy(frame); }
      if !b.closed {
        boxes := boxes[ch := b.(pending := b.pending + frame)];
      }
    }
  }

  function Copies(frame: Bytes, k: nat): Bytes {
    if k == 0 then [] else Copies(frame, k - 1) + frame
  }

  lemma OneCopy(frame: Bytes)
    ensures Copies(frame, 1) == frame
  {
    assert Copies(frame, 0) + frame == frame;
  }

  /** A frame queued `k` times. */
  function Queued(b: Outbox, frame: Bytes, k: nat): Outbox {
    if b.closed then b else b.(pending := b.pending + Copies(frame, k))
  }

  lemma QueuedAgain(b: Outbox, frame: Bytes, k: nat)
    ensures Queued(Queued(b, frame, k), frame, 1) == Queued(b, frame, k + 1)
    ensures Queued(b, frame, 0) == b
  {
    OneCopy(frame);
    assert b.pending + Copies(frame, k) + frame == b.pending + (Copies(frame, k) + frame);
    assert b.pending + [] == b.pending;
  }

  /** What the channels hold once the frame went to each of the members in turn. */
  function AfterFrames(boxes: map<nat, Outbox>, frame: Bytes, members: seq<nat>): (r: map<nat, Outbox>)
    ensures r.Keys == boxes.Keys
  {
    map ch | ch in boxes :: Queued(boxes[ch], frame, multiset(members)[ch])
  }

  lemma FramesCount(boxes: map<nat, Outbox>, frame: Bytes, members: seq<nat>)
    ensures forall ch | ch in boxes :: AfterFrames(boxes, frame, members)[ch] == Queued(boxes[ch], frame, multiset(members)[ch])
  {
  }

  lemma NoFrames(boxes: map<nat, Outbox>, frame: Bytes)
    ensures AfterFrames(boxes, frame, []) == boxes
  {
    forall ch | ch in boxes
      ensures Queued(boxes[ch], frame, 0) == boxes[ch]
    {
      QueuedAgain(boxes[ch], frame, 0);
    }
  }

  lemma FramesSnoc(boxes: map<nat, Outbox>, frame: Bytes, members: seq<nat>, ch: nat)
    requires ch in boxes
    ensures var after := AfterFrames(boxes, frame, members);
            after[ch := Queued(after[ch], frame, 1)] == AfterFrames(boxes, frame, members + [ch])
  {
    hide Queued;
    QueuedAgain(boxes[ch], frame, multiset(members)[ch]);
    assert multiset(members + [ch]) == multiset(members) + multiset{ch};
  }

  /** How often a channel is in a room. */
  function Memberships(rooms: Rooms, room: string, ch: nat): nat {
    if room in rooms then multiset(rooms[room])[ch] else 0
  }

  /** A channel that has left everywhere gets no broadcast, one that joined once more gets one copy more. */
  lemma MembershipsCount(rooms: Rooms, room: string, ch: nat, c: nat)
    ensures InNoRoom(rooms, ch) ==> Memberships(rooms, room, ch) == 0
    ensures Memberships(JoinRoom(rooms, room, ch), room, c) == Memberships(rooms, room, c) + if c == ch then 1 else 0
  {
    var v := if room in rooms then rooms[room] else [];
    assert multiset(v + [ch]) == multiset(v) + multiset{ch};
  }

  method Filter(members: seq<nat>, ch: nat) returns (r: seq<nat>)
    ensures r == Without(members, ch)
  {
    hide Without;
    r := [];
    assert members[0..] == members;
    for i := 0 to |members|
      invariant r + Without(members[i..], ch) == Without(members, ch)
    {
      WithoutStep(members, ch, i);
      if members[i] != ch {
        r := r + [members[i]];
      }
    }
    WithoutNobody(members[|members|..], ch);
  }

  lemma WithoutStep(members: seq<nat>, ch: nat, i: nat)
    requires i < |members|
    ensures Without(members[i..], ch) ==
            (if members[i] == ch then [] else [members[i]]) + Without(members[i + 1..], ch)
  {
    assert members[i..][1..] == members[i + 1..];
  }

  lemma WithoutNobody(members: seq<nat>, ch: nat)
    requires members == []
    ensures Without(members, ch) == []
  {
  }

  /** Leaving everywhere leaves nothing of the channel and everything of the others. */
  lemma LeftEverywhere(rooms: Rooms, ch: nat)
    requires NoEmptyRoom(rooms)
    ensures var after := LeaveEverywhere(rooms, ch);
            && InNoRoom(after, ch)
            && NoEmptyRoom(after)
            && (forall room, c | c != ch && room in rooms && c in rooms[room] :: room in after && c in after[room])
            && (forall room, c | room in after && c in after[room] :: room in rooms && c in rooms[room])
  {
  }

  /** Joining is undone by leaving, for a channel that was not there before. */
  lemma {:induction false} WithoutStranger(members: seq<nat>, ch: nat)
    requires ch !in members
    ensures Without(members, ch) == members && Without(members + [ch], ch) == members
  {
    if members == [] {
      assert [ch][1..] == [];
    } else {
      WithoutStranger(members[1..], ch);
      assert (members + [ch])[1..] == members[1..] + [ch];
    }
  }

  lemma LeaveUndoesJoin(rooms: Rooms, room: string, ch: nat)
    requires InNoRoom(rooms, ch) && NoEmptyRoom(rooms)
    ensures LeaveRoom(JoinRoom(rooms, room, ch), room, ch) == rooms
    ensures LeaveEverywhere(JoinRoom(rooms, room, ch), ch) == rooms
  {
    hide Without;
    var v := if room in rooms then rooms[room] else [];
    var joined := JoinRoom(rooms, room, ch);
    WithoutStranger(v, ch);
    assert joined[room] == v + [ch] && Without(joined[room], ch) == v;
    forall r | r in rooms
      ensures Without(rooms[r], ch) == rooms[r]
    {
      WithoutStranger(rooms[r], ch);
    }
    assert LeaveRoom(joined, room, ch) == rooms;
    assert LeaveEverywhere(joined, ch) == rooms;
  }

  // ---------------------------------------------------------------------
  // The application
  // ---------------------------------------------------------------------

  /** What a user's close handler may do to rooms and to the application's table. */
  datatype Action =
    | Join(room: string, ch: nat)
    | Leave(room: string, ch: nat)
    | LeaveAll(ch: nat)
    | Release(ch: nat)

  type Program = seq<Action>

  /** The application's view: adopted connections with their close handlers, and the rooms. */
  datatype World = World(live: map<nat, seq<Program>>, rooms: Rooms)

  function ReleaseId(w: World, ch: nat): World {
    if ch !in w.live then w
    else World(w.live - {ch}, LeaveEverywhere(w.rooms, ch))
  }

  function Act(w: World, a: Action): World {
    match a
    case Join(room, ch) => w.(rooms := JoinRoom(w.rooms, room, ch))
    case Leave(room, ch) => w.(rooms := LeaveRoom(w.rooms, room, ch))
    case LeaveAll(ch) => w.(rooms := LeaveEverywhere(w.rooms, ch))
    case Release(ch) => ReleaseId(w, ch)
  }

  function Perform(w: World, p: Program): World
    decreases p
  {
    if p == [] then w else Perform(Act(w, p[0]), p[1..])
  }

  function PerformAll(w: World, ps: seq<Program>): World
    decreases ps
  {
    if ps == [] then w else PerformAll(Perform(w, ps[0]), ps[1..])
  }

  /** The hook `adopt` registers: the user's handlers, then release. */
  function CloseHook(w: World, ch: nat): World {
    ReleaseId(PerformAll(w, if ch in w.live then w.live[ch] else []), ch)
  }

  class App {
    const hub: Hub
    var live: map<nat, seq<Program>>

    ghost function Abs(): World
      reads this, hub
    {
      World(live, hub.rooms)
    }

    constructor (h: Hub)
      ensures hub == h && live == map[]
    {
      hub, live := h, map[];
    }

    method Adopt(ch: nat, handlers: seq<Program>)
      modifies this
      ensures live == old(live)[ch := handlers]
    {
      live := live[ch := handlers];
    }

    /** Idempotent. */
    method ReleaseConnection(ch: nat)
      modifies this, hub
      ensures Abs() == ReleaseId(old(Abs()), ch)
    {
      if ch !in live { return; }
      live := live - {ch};
      hub.LeaveAll(ch);
    }

    method Run(a: Action)
      modifies this, hub
      ensures Abs() == Act(old(Abs()), a)
    {
      match a
      case Join(room, ch) => hub.Join(room, ch);
      case Leave(room, ch) => hub.Leave(room, ch);
      case LeaveAll(ch) => hub.LeaveAll(ch);
      case Release(ch) => ReleaseConnection(ch);
    }

    method RunHandler(p: Program)
      modifies this, hub
      ensures Abs() == Perform(old(Abs()), p)
    {
      for i := 0 to |p|
        invariant Perform(Abs(), p[i..]) == Perform(old(Abs()), p)
      {
        assert p[i..][1..] == p[i + 1..];
        Run(p[i]);
      }
    }

    /** The close hook: a copy of the handlers is run, then the connection is released. */
    method OnChannelClose(ch: nat)
      modifies this, hub
      ensures Abs() == CloseHook(old(Abs()), ch)
    {
      var handlers := if ch in live then live[ch] else [];
      for i := 0 to |handlers|
        invariant PerformAll(Abs(), handlers[i..]) == PerformAll(old(Abs()), handlers)
      {
        assert handlers[i..][1..] == handlers[i + 1..];
        RunHandler(handlers[i]);
      }
      ReleaseConnection(ch);
    }
  }

  // ---- what the hook leaves behind ----

  /** Rooms are never left empty, whatever handlers do. */
  lemma ActKeepsRooms(w: World, a: Action)
    requires NoEmptyRoom(w.rooms)
    ensures NoEmptyRoom(Act(w, a).rooms)
  {
  }

  /** The connection is never live after its hook, whatever the handlers did. */
  lemma HookEndsLife(w: World, ch: nat)
    ensures ch !in CloseHook(w, ch).live
  {
    hide PerformAll, LeaveEverywhere;
  }

  // ---- in no room: a condition on the handlers alone ----

  function Flat(ps: seq<Program>): Program {
    if ps == [] then [] else ps[0] + Flat(ps[1..])
  }

  lemma {:induction false} PerformAppend(w: World, p: Program, q: Program)
    ensures Perform(w, p + q) == Perform(Perform(w, p), q)
    decreases p
  {
    hide Act;
    if p == [] {
      assert p + q == q;
    } else {
      assert (p + q)[1..] == p[1..] + q;
      PerformAppend(Act(w, p[0]), p[1..], q);
    }
  }

  lemma {:induction false} PerformFlat(w: World, ps: seq<Program>)
    ensures PerformAll(w, ps) == Perform(w, Flat(ps))
    decreases ps
  {
    if ps != [] {
      PerformAppend(w, ps[0], Flat(ps[1..]));
      hide Perform;
      PerformFlat(Perform(w, ps[0]), ps[1..]);
    }
  }

  /** The action takes the channel out of the room by name or out of every room. */
  predicate TakesOut(a: Action, room: string, ch: nat) { a == Action.Leave(room, ch) || a == Action.LeaveAll(ch) }

  predicate TakenOutIn(p: Program, room: string, ch: nat) {
    exists i | 0 <= i < |p| :: TakesOut(p[i], room, ch)
  }

  /** Every join of the channel is followed by an action that takes it out again. */
  predicate JoinsUndone(p: Program, ch: nat)
    decreases p
  {
    p != [] ==>
      && (p[0].Join? && p[0].ch == ch ==> TakenOutIn(p[1..], p[0].room, ch))
      && JoinsUndone(p[1..], ch)
  }

  /** No action releases the channel, or after the first that does every join is undone. */
  predicate Tidy(p: Program, ch: nat)
    decreases p
  {
    p != [] ==> if p[0] == Release(ch) then JoinsUndone(p[1..], ch) else Tidy(p[1..], ch)
  }

  predicate InRoom(rooms: Rooms, room: string, ch: nat) { room in rooms && ch in rooms[room] }

  /** One action on one room, for a channel that is no longer live. */
  lemma ActOnRoom(w: World, a: Action, room: string, ch: nat)
    requires ch !in w.live
    ensures ch !in Act(w, a).live
    ensures InRoom(Act(w, a).rooms, room, ch) <==>
            a == Action.Join(room, ch) || (InRoom(w.rooms, room, ch) && !TakesOut(a, room, ch))
  {
  }

  /** It ends up in a room exactly if it is there and never taken out, or joins and is not taken out afterwards. */
  lemma {:induction false} PerformOnRoom(w: World, p: Program, room: string, ch: nat)
    requires ch !in w.live && !InRoom(w.rooms, room, ch)
    ensures JoinsUndone(p, ch) ==> !InRoom(Perform(w, p).rooms, room, ch)
    decreases p
  {
    hide Act, InRoom;
    if p != [] {
      ActOnRoom(w, p[0], room, ch);
      if p[0] == Action.Join(room, ch) {
        if TakenOutIn(p[1..], room, ch) {
          TakenOutLater(Act(w, p[0]), p[1..], room, ch);
        }
      } else {
        PerformOnRoom(Act(w, p[0]), p[1..], room, ch);
      }
    }
  }

  lemma TakenOutSplit(p: Program, room: string, ch: nat)
    requires TakenOutIn(p, room, ch)
    ensures TakesOut(p[0], room, ch) || TakenOutIn(p[1..], room, ch)
  {
    forall i | 0 < i < |p| && TakesOut(p[i], room, ch)
      ensures TakenOutIn(p[1..], room, ch)
    {
      assert p[1..][i - 1] == p[i];
    }
  }

  /** Taken out at some point, it is back only through a join that is not undone. */
  lemma {:induction false} TakenOutLater(w: World, p: Program, room: string, ch: nat)
    requires ch !in w.live && TakenOutIn(p, room, ch)
    ensures JoinsUndone(p, ch) ==> !InRoom(Perform(w, p).rooms, room, ch)
    decreases p
  {
    hide Act, InRoom;
    ActOnRoom(w, p[0], room, ch);
    if TakenOutIn(p[1..], room, ch) {
      TakenOutLater(Act(w, p[0]), p[1..], room, ch);
    } else {
      TakenOutSplit(p, room, ch);
      PerformOnRoom(Act(w, p[0]), p[1..], room, ch);
    }
  }

  /** In a room and never taken out, it stays. */
  lemma {:induction false} StaysInRoom(w: World, p: Program, room: string, ch: nat)
    requires ch !in w.live && InRoom(w.rooms, room, ch) && !TakenOutIn(p, room, ch)
    ensures InRoom(Perform(w, p).rooms, room, ch)
    decreases p
  {
    hide Act, InRoom;
    if p != [] {
      assert !TakesOut(p[0], room, ch);
      assert forall i | 0 <= i < |p[1..]| :: p[1..][i] == p[i + 1];
      ActOnRoom(w, p[0], room, ch);
      StaysInRoom(Act(w, p[0]), p[1..], room, ch);
    }
  }

  /** A join that is not undone leaves it in that room. */
  lemma {:induction false} NotUndone(w: World, p: Program, ch: nat) returns (room: string)
    requires ch !in w.live && !JoinsUndone(p, ch)
    ensures InRoom(Perform(w, p).rooms, room, ch)
    decreases p
  {
    hide Act, InRoom;
    if p[0].Join? && p[0].ch == ch && !TakenOutIn(p[1..], p[0].room, ch) {
      room := p[0].room;
      ActOnRoom(w, p[0], room, ch);
      StaysInRoom(Act(w, p[0]), p[1..], room, ch);
    } else {
      ActOnRoom(w, p[0], "", ch);
      room := NotUndone(Act(w, p[0]), p[1..], ch);
    }
  }

  /** After a release: in no room exactly if every later join is undone. */
  lemma AfterRelease(w: World, p: Program, ch: nat)
    requires ch !in w.live && InNoRoom(w.rooms, ch)
    ensures InNoRoom(Perform(w, p).rooms, ch) <==> JoinsUndone(p, ch)
    ensures ch !in Perform(w, p).live
  {
    hide Perform, JoinsUndone;
    StaysReleased(w, p, ch);
    if JoinsUndone(p, ch) {
      forall room | room in Perform(w, p).rooms
        ensures ch !in Perform(w, p).rooms[room]
      {
        PerformOnRoom(w, p, room, ch);
      }
    } else {
      var room := NotUndone(w, p, ch);
    }
  }

  lemma {:induction false} StaysReleased(w: World, p: Program, ch: nat)
    requires ch !in w.live
    ensures ch !in Perform(w, p).live
    decreases p
  {
    hide Act;
    if p != [] {
      ActOnRoom(w, p[0], "", ch);
      StaysReleased(Act(w, p[0]), p[1..], ch);
    }
  }

  lemma ReleaseLeaves(w: World, ch: nat)
    requires ch in w.live
    ensures InNoRoom(ReleaseId(w, ch).rooms, ch) && ch !in ReleaseId(w, ch).live
  {
  }

  lemma {:induction false} TidyLeavesNoRoom(w: World, p: Program, ch: nat)
    requires ch in w.live
    ensures InNoRoom(ReleaseId(Perform(w, p), ch).rooms, ch) <==> Tidy(p, ch)
    decreases p
  {
    hide ReleaseId, InNoRoom;
    if p == [] {
      ReleaseLeaves(w, ch);
    } else if p[0] == Release(ch) {
      var w1 := Act(w, p[0]);
      ReleaseLeaves(w, ch);
      AfterRelease(w1, p[1..], ch);
      ReleasedAlready(Perform(w1, p[1..]), ch);
    } else {
      OthersKeepLive(w, p[0], ch);
      TidyLeavesNoRoom(Act(w, p[0]), p[1..], ch);
    }
  }

  lemma ReleasedAlready(w: World, ch: nat)
    requires ch !in w.live
    ensures ReleaseId(w, ch) == w
  {
  }

  lemma OthersKeepLive(w: World, a: Action, ch: nat)
    requires ch in w.live && a != Release(ch)
    ensures ch in Act(w, a).live
  {
    hide LeaveEverywhere, LeaveRoom, JoinRoom;
  }

  /**
   * After the hook the channel is in no room exactly when its handlers are tidy:
   * none releases it, or every join after the first release is undone by a later leave.
   */
  lemma HookEmptiesRooms(w: World, ch: nat)
    requires ch in w.live
    ensures InNoRoom(CloseHook(w, ch).rooms, ch) <==> Tidy(Flat(w.live[ch]), ch)
  {
    hide Perform, PerformAll, ReleaseId, Tidy, InNoRoom;
    PerformFlat(w, w.live[ch]);
    TidyLeavesNoRoom(w, Flat(w.live[ch]), ch);
  }

  predicate Never(p: Program, a: Action) { forall i | 0 <= i < |p| :: p[i] != a }

  predicate NeverJoins(p: Program, ch: nat) { forall i | 0 <= i < |p| :: !(p[i].Join? && p[i].ch == ch) }

  lemma {:induction false} NeverJoinsUndone(p: Program, ch: nat)
    requires NeverJoins(p, ch)
    ensures JoinsUndone(p, ch)
    decreases p
  {
    if p != [] {
      NeverJoinsUndone(p[1..], ch);
    }
  }

  lemma {:induction false} TidyIf(p: Program, ch: nat)
    requires Never(p, Release(ch)) || NeverJoins(p, ch)
    ensures Tidy(p, ch)
    decreases p
  {
    if p != [] {
      if p[0] == Release(ch) {
        NeverJoinsUndone(p[1..], ch);
      } else {
        TidyIf(p[1..], ch);
      }
    }
  }

  /**
   * So if no handler releases it early, it is in no room, not even in one a
   * handler joined; and if no handler joins, neither, released early or not.
   */
  lemma HookCleansUp(w: World, ch: nat)
    requires ch in w.live
    requires Never(Flat(w.live[ch]), Release(ch)) || NeverJoins(Flat(w.live[ch]), ch)
    ensures InNoRoom(CloseHook(w, ch).rooms, ch) && ch !in CloseHook(w, ch).live
  {
    hide Flat, CloseHook, InNoRoom, Tidy;
    TidyIf(Flat(w.live[ch]), ch);
    HookEndsLife(w, ch);
    HookEmptiesRooms(w, ch);
  }

  /** A handler that releases the connection and then joins a room leaves it there. */
  lemma EarlyReleaseExample()
    ensures var w := World(map[7 := [[Release(7), Join("r", 7)]]], map[]);
            !InNoRoom(CloseHook(w, 7).rooms, 7)
  {
    var p := [Release(7), Join("r", 7)];
    var w := World(map[7 := [p]], map[]);
    var w1 := Act(w, p[0]);
    assert w1 == World(map[], map[]);
    var w2 := Act(w1, p[1]);
    assert w2.rooms["r"] == [7];
    assert p[1..][1..] == [];
    assert Perform(w, p) == w2;
    assert [p][1..] == [];
    assert PerformAll(w, [p]) == w2;
  }
}
