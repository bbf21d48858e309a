/** The handler's room bookkeeping on its own state: each connection's `joined_rooms` and room lock, and
    the fanout's memberships. Each method is one stretch of code between two awaits; what a suspended
    frame remembers is in its locals, here the methods' parameters. The protocol's state rides along as a
    ghost, and `Valid` ties the two together. */
module Rooms {
  import opened RoomProtocol

  class RoomConnection {
    const id: Conn
    const user: User
    var joinedRooms: set<Room>
    var locked: bool

    constructor (id: Conn, user: User)
      ensures this.id == id && this.user == user && joinedRooms == {} && !locked
    {
      this.id, this.user := id, user;
      joinedRooms, locked := {}, false;
    }

    /** What the protocol says of this connection is what its fields say. */
    ghost predicate Shows(c: Connection)
      reads this
    {
      user == c.user && joinedRooms == c.joined && (locked <==> c.lock != Free)
    }
  }

  class RoomHandler {
    var members: set<Member>
    ghost var st: State
    ghost var objects: map<Conn, RoomConnection>

    ghost predicate Valid()
      reads this, objects.Values
    {
      && Reachable(st) && members == st.members && objects.Keys == st.conns.Keys
      && forall k | k in objects :: objects[k].id == k && objects[k].Shows(st.conns[k])
    }

    ghost predicate Knows(c: RoomConnection)
      reads this, c
    {
      c.id in objects && objects[c.id] == c
    }

    /** What the holder of the connection's lock is doing. */
    ghost function Doing(c: RoomConnection): Lock
      requires Valid() && Knows(c)
      reads this, objects.Values, c
    {
      st.conns[c.id].lock
    }

    constructor ()
      ensures Valid() && st == EMPTY && members == {}
    {
      members, st, objects := {}, EMPTY, map[];
      ReachableAtFirst();
    }

    /** handle_connection(), once authenticated. */
    method Register(id: Conn, user: User) returns (c: RoomConnection)
      requires Valid() && id !in objects
      modifies this
      ensures Valid() && fresh(c) && Knows(c) && c.joinedRooms == {} && !c.locked
      ensures st == Step(old(st), Connect(id, user)) && objects == old(objects)[id := c]
    {
      c := new RoomConnection(id, user);
      ReachableStep(st, Connect(id, user));
      st, objects := Step(st, Connect(id, user)), objects[id := c];
    }

    /** A join or leave frame takes the room lock. */
    method BeginFrame(c: RoomConnection, ghost e: Event)
      requires Valid() && Knows(c) && (e.JoinFrame? || e.LeaveFrame?) && e.conn == c.id && Enabled(st, e)
      modifies this, c
      ensures Valid() && st == Step(old(st), e) && objects == old(objects) && c.locked
    {
      c.locked := true;
      ReachableStep(st, e);
      st := Step(st, e);
    }

    /** The join gates answered: join_room is called exactly for an allowed room that is not joined yet,
        and otherwise the lock is free again and nothing else has changed. */
    method JoinDecided(c: RoomConnection, room: Room, allowed: bool) returns (calling: bool)
      requires Valid() && Knows(c) && Doing(c).Joining? && Doing(c).room == room
      modifies this, c
      ensures Valid() && objects == old(objects)
      ensures st == Step(old(st), if allowed then JoinAllowed(c.id) else Release(c.id))
      ensures calling <==> allowed && room !in c.joinedRooms
      ensures c.joinedRooms == old(c.joinedRooms) && members == old(members) && (c.locked <==> calling)
    {
      ghost var e := if allowed then JoinAllowed(c.id) else Release(c.id);
      calling := allowed && room !in c.joinedRooms;
      c.locked := calling;
      ReachableStep(st, e);
      st := Step(st, e);
    }

    /** join_room's membership write. */
    method JoinWrites(c: RoomConnection, room: Room)
      requires Valid() && Knows(c) && Doing(c).JoinCalled? && Doing(c).room == room
      modifies this
      ensures Valid() && st == Step(old(st), JoinLands(c.id)) && objects == old(objects)
      ensures members == old(members) + {Member(room, c.id)}
    {
      members := members + {Member(room, c.id)};
      ReachableStep(st, JoinLands(c.id));
      st := Step(st, JoinLands(c.id));
    }

    /** join_room returned: now the bookkeeping agrees with the memberships. */
    method FinishJoin(c: RoomConnection, room: Room)
      requires Valid() && Knows(c) && Doing(c).JoinLanded? && Doing(c).room == room
      modifies this, c
      ensures Valid() && st == Step(old(st), JoinReturns(c.id)) && objects == old(objects)
      ensures !c.locked && room in c.joinedRooms && Member(room, c.id) in members
      ensures st.conns[c.id].phase == Serving ==> forall r :: r in c.joinedRooms <==> Member(r, c.id) in members
    {
      ReachableAgrees(st, c.id);
      c.joinedRooms, c.locked := c.joinedRooms + {room}, false;
      ReachableStep(st, JoinReturns(c.id));
      st := Step(st, JoinReturns(c.id));
      ReachableAgrees(st, c.id);
    }

    /** leave_room's membership write, for a leave frame, an eviction or the cleanup. */
    method LeaveWrites(c: RoomConnection, room: Room, ghost e: Event)
      requires Valid() && Knows(c) && e.conn == c.id && Enabled(st, e)
      requires ((e.LeaveLands? || e.EvictLands?) && Doing(c).room == room) || e == CleanLeave(c.id, room)
      modifies this
      ensures Valid() && st == Step(old(st), e) && objects == old(objects)
      ensures members == old(members) - {Member(room, c.id)}
    {
      members := members - {Member(room, c.id)};
      ReachableStep(st, e);
      st := Step(st, e);
    }

    /** leave_room returned. */
    method FinishLeave(c: RoomConnection, room: Room)
      requires Valid() && Knows(c) && Doing(c).LeaveLanded? && Doing(c).room == room
      modifies this, c
      ensures Valid() && st == Step(old(st), LeaveReturns(c.id)) && objects == old(objects)
      ensures !c.locked && room !in c.joinedRooms && Member(room, c.id) !in members
    {
      ReachableAgrees(st, c.id);
      c.joinedRooms, c.locked := c.joinedRooms - {room}, false;
      ReachableStep(st, LeaveReturns(c.id));
      st := Step(st, LeaveReturns(c.id));
    }

    /** An op or transient frame: refused unless the room is joined, else on to the gates. */
    method BeginSend(c: RoomConnection, room: Room) returns (joined: bool)
      requires Valid() && Knows(c) && LoopReady(st.conns[c.id])
      modifies this, c
      ensures Valid() && objects == old(objects) && (joined <==> room in c.joinedRooms)
      ensures c.joinedRooms == old(c.joinedRooms) && members == old(members) && (c.locked <==> joined)
      ensures st == if joined then Step(old(st), SendFrame(c.id, room)) else old(st)
    {
      joined := room in c.joinedRooms;
      if joined {
        c.locked := true;
        ReachableStep(st, SendFrame(c.id, room));
        st := Step(st, SendFrame(c.id, room));
      }
    }

    /** The gates and the op handler accepted: the frame is broadcast, by a member, although the check
        was made before the gates were asked. */
    method SendToRoom(c: RoomConnection, room: Room)
      requires Valid() && Knows(c) && Doing(c).Gating? && Doing(c).room == room
      modifies this
      ensures Valid() && st == Step(old(st), Broadcast(c.id)) && objects == old(objects) && members == old(members)
      ensures room in c.joinedRooms && Member(room, c.id) in members
    {
      ReachableAgrees(st, c.id);
      ReachableStep(st, Broadcast(c.id));
      st := Step(st, Broadcast(c.id));
    }

    /** The holder lets go: refused, rejected, sent, allowed to stay, or told of its eviction. */
    method LetGo(c: RoomConnection)
      requires Valid() && Knows(c) && MayRelease(Doing(c))
      modifies this, c
      ensures Valid() && st == Step(old(st), Release(c.id)) && objects == old(objects) && !c.locked
    {
      c.locked := false;
      ReachableStep(st, Release(c.id));
      st := Step(st, Release(c.id));
    }

    /** revoke(), at one connection of the snapshot: that user's, if in the room, has the room struck from
        its bookkeeping before leave_room is called, so no frame of its own can use it meanwhile. */
    method RevokeOne(c: RoomConnection, room: Room, user: User) returns (evicting: bool)
      requires Valid() && Knows(c) && !c.locked
      modifies this, c
      ensures Valid() && objects == old(objects) && members == old(members)
      ensures evicting <==> c.user == user && room in old(c.joinedRooms)
      ensures st == if evicting then Step(old(st), Revoke(c.id, room, user)) else old(st)
      ensures evicting ==> room !in c.joinedRooms && c.locked
    {
      evicting := c.user == user && room in c.joinedRooms;
      if evicting {
        c.locked, c.joinedRooms := true, c.joinedRooms - {room};
        ReachableStep(st, Revoke(c.id, room, user));
        st := Step(st, Revoke(c.id, room, user));
      }
    }

    /** reevaluate_room(), at one connection of the snapshot. */
    method ReevaluateOne(c: RoomConnection, room: Room) returns (asking: bool)
      requires Valid() && Knows(c) && !c.locked
      modifies this, c
      ensures Valid() && objects == old(objects) && (asking <==> room in c.joinedRooms)
      ensures c.joinedRooms == old(c.joinedRooms) && members == old(members) && (c.locked <==> asking)
      ensures st == if asking then Step(old(st), Reevaluate(c.id, room)) else old(st)
    {
      asking := room in c.joinedRooms;
      if asking {
        c.locked := true;
        ReachableStep(st, Reevaluate(c.id, room));
        st := Step(st, Reevaluate(c.id, room));
      }
    }

    /** The gates answered for a member; a gate that raised counts as a refusal. A member allowed to stay
        is still a member; a refused one is being evicted. */
    method Redecided(c: RoomConnection, room: Room, allowed: bool)
      requires Valid() && Knows(c) && Doing(c).Redeciding? && Doing(c).room == room
      modifies this, c
      ensures Valid() && objects == old(objects) && members == old(members)
      ensures st == Step(old(st), if allowed then Release(c.id) else Refused(c.id))
      ensures allowed <==> room in c.joinedRooms
      ensures c.locked <==> !allowed
    {
      ghost var e := if allowed then Release(c.id) else Refused(c.id);
      ReachableAgrees(st, c.id);
      if allowed {
        c.locked := false;
      } else {
        c.joinedRooms := c.joinedRooms - {room};
      }
      ReachableStep(st, e);
      st := Step(st, e);
    }

    /** The message loop ends, or is cancelled wherever it stands; a frame it was handling lets go of the
        lock, an eviction keeps it. */
    method LoopStops(c: RoomConnection, inFrame: bool)
      requires Valid() && Knows(c) && st.conns[c.id].phase == Serving && (inFrame <==> HeldByLoop(Doing(c)))
      modifies this, c
      ensures Valid() && st == Step(old(st), StopLoop(c.id)) && objects == old(objects)
      ensures c.joinedRooms == old(c.joinedRooms) && members == old(members)
    {
      if inFrame { c.locked := false; }
      ReachableStep(st, StopLoop(c.id));
      st := Step(st, StopLoop(c.id));
    }

    /** The finally block takes the lock, lists the rooms to leave and empties the bookkeeping. */
    method BeginCleanup(c: RoomConnection) returns (toLeave: set<Room>)
      requires Valid() && Knows(c) && st.conns[c.id].phase == Stopped && !c.locked
      modifies this, c
      ensures Valid() && st == Step(old(st), CleanBegin(c.id)) && objects == old(objects)
      ensures toLeave == old(c.joinedRooms) && c.joinedRooms == {} && Doing(c) == Cleaning(toLeave)
    {
      toLeave := c.joinedRooms;
      c.locked, c.joinedRooms := true, {};
      ReachableStep(st, CleanBegin(c.id));
      st := Step(st, CleanBegin(c.id));
    }

    /** Every room has been left: the connection is gone, and in a room only by a join torn before. */
    method FinishCleanup(c: RoomConnection)
      requires Valid() && Knows(c) && Doing(c) == Cleaning({})
      modifies this, c
      ensures Valid() && st == Step(old(st), CleanEnd(c.id)) && objects == old(objects)
      ensures !c.locked && c.joinedRooms == {}
      ensures forall r :: Member(r, c.id) in members <==> r in st.conns[c.id].tornJoins
    {
      c.locked := false;
      ReachableStep(st, CleanEnd(c.id));
      st := Step(st, CleanEnd(c.id));
      ReachableAgrees(st, c.id);
    }
  }
}
