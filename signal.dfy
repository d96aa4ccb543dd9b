/**
  The signaling session of one connected device: the rooms its socket joins,
  and the relay of invites, offer requests, offers and signal data to other
  sessions' rooms. The transport is reduced to the set of rooms the socket
  has joined, the event names it listens to, and the sequence of
  `io.to(room).emit(event, payload)` calls the session has made.
*/
module Signaling {
  import opened Wrappers
  import opened Text
  import opened Users

  /** A device of a user, as it appears in relayed payloads. */
  datatype Peer = Peer(username: string, deviceId: string)

  /** The server-to-client events and their payloads. */
  datatype Event =
    | InviteEvent(invite: Invite)                                    // 'invite'
    | RequestOfferEvent(from: Peer)                                  // 'requestOffer' {username, deviceId}
    | OfferEvent(user: Peer, initiator: bool)                        // 'offer' {user, initiator}
    | SignalEvent(signal: string, signature: string, from: Peer)     // 'signal' {signal, signature, from}

  /** One `io.to(room).emit(...)` call. */
  datatype Emit = Emit(room: string, event: Event)

  /** The room of a single device: `${username}@${deviceId}`. */
  function Room(username: string, deviceId: string): (r: string)
    ensures |r| == |username| + 1 + |deviceId|
    ensures r[..|username|] == username && r[|username|] == '@' && r[|username| + 1..] == deviceId
  {
    username + "@" + deviceId
  }

  function DeviceRoom(p: Peer): string {
    Room(p.username, p.deviceId)
  }

  /** The client events a session relays. */
  const RelayEvents: seq<string> := ["sendInvite", "removeInvite", "requestOffers", "sendOffer", "sendSignal"]

  /** Every socket event a session listens to, in the order it registers them. */
  const SessionEvents: seq<string> := ["error", "disconnect"] + RelayEvents

  /** One 'invite' emit per invite, in list order, all to `room`. */
  function InviteEmits(invites: seq<Invite>, room: string): seq<Emit> {
    if invites == [] then []
    else InviteEmits(invites[..|invites| - 1], room) + [Emit(room, InviteEvent(invites[|invites| - 1]))]
  }

  /** One 'requestOffer' emit per listed name, in list order, each to the room of that name. */
  function OfferRequests(users: seq<string>, me: Peer): seq<Emit> {
    if users == [] then []
    else OfferRequests(users[..|users| - 1], me) + [Emit(users[|users| - 1], RequestOfferEvent(me))]
  }

  /** The two emits of `sendOffers(recipient, initiator)`. */
  function OfferPair(recipient: Peer, initiator: Peer): seq<Emit> {
    [ Emit(DeviceRoom(recipient), OfferEvent(initiator, false)),
      Emit(DeviceRoom(initiator), OfferEvent(recipient, true)) ]
  }

  /** The invite relayed on behalf of a user: `{signature}` extended with the user's public data. */
  function InvitePayload(signature: string, sender: PublicData): Invite {
    Invite(signature, sender.username, sender.fingerprint, sender.publicKey)
  }

  /** What `sendInvite` does with a target name: nothing, or look a name up and emit to a room. */
  datatype Route = NoRoute | Deliver(lookup: string, room: string)

  /**
    `sendInvite` as written: the self-invite check compares the raw name with
    the sender's stored name, the lookup is by the raw name (which the
    directory lower-cases) and the emit goes to the room of the raw name.
  */
  function InviteRouteAsWritten(me: string, target: string): Route {
    if target == me then NoRoute else Deliver(target, target)
  }

  /**
    `sendInvite` with the target name lower-cased once, before the self-invite
    check: a user never invites themselves, whatever the case of the name.
  */
  function InviteRoute(me: string, target: string): (r: Route)
    ensures r.NoRoute? <==> Lower(target) == me
    ensures r.Deliver? ==> r.lookup == Lower(target) && r.room == Lower(target)
    ensures r.Deliver? ==> Lower(r.lookup) != me && r.room == Lower(r.lookup) && IsLower(r.room)
  {
    var name := Lower(target);
    LowerIsLower(target);
    if name == me then NoRoute else Deliver(name, name)
  }

  /** A sender whose stored name is lower-case, as every stored name is, never invites itself by that name. */
  lemma ExactSelfInviteIsNoRoute(me: string)
    requires IsLower(me)
    ensures InviteRoute(me, me) == NoRoute
  {
    LowerFixesLower(me);
  }

  /**
    As written, a sender stored as "alice" who names "Alice" passes the
    self-invite check, the lookup finds the sender's own record, and the emit
    goes to a room no stored user joins, since stored names are lower-case.
    Lower-casing first, as InviteRoute does, makes the call a no-op.
  */
  lemma SelfInviteAsWritten(dir: Directory, sender: User)
    requires dir.Valid() && "alice" in dir.users && dir.users["alice"] == sender
    ensures InviteRouteAsWritten(sender.username, "Alice") == Deliver("Alice", "Alice")
    ensures dir.FindByName("Alice") == Some(sender)
    ensures "Alice" !in dir.users
    ensures InviteRoute(sender.username, "Alice") == NoRoute
  {
    assert Lower("Alice") == "alice";
    assert !IsLower("Alice") by {
      assert 'A' <= "Alice"[0] <= 'Z';
    }
  }

  class Signal {
    const user: User
    const directory: Directory
    const deviceId: string
    var rooms: set<string>
    var listening: seq<string>
    var outbox: seq<Emit>

    /** `mySocketRoom`. */
    function MySocketRoom(): string
      reads user`username
    {
      Room(user.username, deviceId)
    }

    /** The session's own device, as it is named in relayed payloads. */
    function Me(): (p: Peer)
      reads user`username
      ensures p.username == user.username && p.deviceId == deviceId
      ensures DeviceRoom(p) == MySocketRoom()
    {
      Peer(user.username, deviceId)
    }

    /**
      Binds a session to a connection whose handshake named `queryDeviceId`:
      joins the user's room and the device's room, listens to the session
      events, then relays the pending invites. The user is the stored user
      the handshake named.
    */
    constructor (user: User, directory: Directory, queryDeviceId: string)
      requires directory.Valid() && user in directory.users.Values
      ensures this.user == user && this.directory == directory
      ensures deviceId == Trim(queryDeviceId)
      ensures rooms == {user.username, Room(user.username, Trim(queryDeviceId))}
      ensures listening == SessionEvents
      ensures outbox == InviteEmits(user.pendingInvites, MySocketRoom())
    {
      this.user := user;
      this.directory := directory;
      deviceId := Trim(queryDeviceId);
      listening := ["error", "disconnect"];
      rooms := {user.username};
      rooms := rooms + {Room(user.username, Trim(queryDeviceId))};
      listening := listening + RelayEvents;
      outbox := [];
      new;
      SendPendingInvites();
    }

    /** `sendPendingInvites`: each pending invite, in order, to this device's room only. */
    method SendPendingInvites()
      modifies this`outbox
      ensures outbox == old(outbox) + InviteEmits(user.pendingInvites, MySocketRoom())
    {
      var invites := user.pendingInvites;
      var room := MySocketRoom();
      var i := 0;
      while i < |invites|
        invariant 0 <= i <= |invites|
        invariant outbox == old(outbox) + InviteEmits(invites[..i], room)
      {
        assert invites[..i + 1][..i] == invites[..i];
        outbox := outbox + [Emit(room, InviteEvent(invites[i]))];
        i := i + 1;
      }
      assert invites[..i] == invites;
    }

    /**
      `sendInvite`: unless the target is the sender, record the invite in the
      target's pending list and relay it to every device of the target; an
      unknown target is silently ignored.
    */
    method SendInvite(target: string, signature: string)
      requires directory.Valid() && user in directory.users.Values
      modifies this`outbox, directory.users.Values
      ensures directory.Valid()
      ensures unchanged(user)
      ensures var data := InvitePayload(signature, user.GetPublicData());
              match InviteRoute(user.username, target)
              case NoRoute => outbox == old(outbox)
              case Deliver(name, room) =>
                if name in directory.users then
                  && directory.users[name].pendingInvites == WithInvite(old(directory.users[name].pendingInvites), data)
                  && room == directory.users[name].username
                  && outbox == old(outbox) + [Emit(room, InviteEvent(data))]
                else outbox == old(outbox)
      ensures forall u :: u in directory.users.Values ==>
                u.username == old(u.username) && u.fingerprint == old(u.fingerprint) && u.publicKey == old(u.publicKey)
      ensures target == user.username ==>
                outbox == old(outbox) && forall u :: u in directory.users.Values ==> u.pendingInvites == old(u.pendingInvites)
      ensures forall u :: u in directory.users.Values && u.pendingInvites != old(u.pendingInvites) ==>
                InviteRoute(user.username, target).Deliver? && Some(u) == directory.FindByName(InviteRoute(user.username, target).lookup)
    {
      StoredUserIsFoundByName(directory, user);
      ExactSelfInviteIsNoRoute(user.username);
      var route := InviteRoute(user.username, target);
      if route.NoRoute? {
        return;
      }
      var data := InvitePayload(signature, user.GetPublicData());
      var found := directory.FindByName(route.lookup);
      LowerIsLower(target);
      if found.None? {
        return;
      }
      var invitee := found.value;
      invitee.AddInvite(data);
      outbox := outbox + [Emit(route.room, InviteEvent(data))];
    }

    /** `removeInvite`: withdraw a received invite from this user's own pending list. */
    method RemoveInvite(inviter: string)
      modifies user`pendingInvites
      ensures user.pendingInvites == WithoutInvite(old(user.pendingInvites), inviter)
    {
      user.RemoveInvite(inviter);
    }

    /** `requestOffers`: one request per listed name, in order, duplicates included. */
    method RequestOffers(users: seq<string>)
      modifies this`outbox
      ensures outbox == old(outbox) + OfferRequests(users, Me())
    {
      var me := Me();
      var i := 0;
      while i < |users|
        invariant 0 <= i <= |users|
        invariant outbox == old(outbox) + OfferRequests(users[..i], me)
      {
        assert users[..i + 1][..i] == users[..i];
        outbox := outbox + [Emit(users[i], RequestOfferEvent(me))];
        i := i + 1;
      }
      assert users[..i] == users;
    }

    /** `sendOffer`: offer this device to the named device, and tell this device to initiate. */
    method SendOffer(username: string, deviceId: string)
      modifies this`outbox
      ensures outbox == old(outbox) + OfferPair(Peer(username, deviceId), Me())
    {
      SendOffers(Peer(username, deviceId), Me());
    }

    /** `sendOffers(user1, user2)`: `user1` receives the offer, `user2` initiates. */
    method SendOffers(recipient: Peer, initiator: Peer)
      modifies this`outbox
      ensures outbox == old(outbox) + OfferPair(recipient, initiator)
    {
      outbox := outbox + [Emit(DeviceRoom(recipient), OfferEvent(initiator, false))];
      outbox := outbox + [Emit(DeviceRoom(initiator), OfferEvent(recipient, true))];
    }

    /** `sendSignal`: the signal data, signed, to the one named device. */
    method SendSignal(signal: string, signature: string, to: Peer)
      modifies this`outbox
      ensures outbox == old(outbox) + [Emit(DeviceRoom(to), SignalEvent(signal, signature, Me()))]
    {
      outbox := outbox + [Emit(DeviceRoom(to), SignalEvent(signal, signature, Me()))];
    }
  }

  /* ---------------------------------------------------------------------- */
  /* Properties of the relay                                                  */
  /* ---------------------------------------------------------------------- */

  /** Invite `k` of the list is the `k`-th emit, and every emit goes to the given room. */
  lemma {:induction false} InviteEmitsAt(invites: seq<Invite>, room: string)
    ensures |InviteEmits(invites, room)| == |invites|
    ensures forall k :: 0 <= k < |invites| ==> InviteEmits(invites, room)[k] == Emit(room, InviteEvent(invites[k]))
  {
    if invites != [] {
      InviteEmitsAt(invites[..|invites| - 1], room);
    }
  }

  /** Name `k` of the list receives the `k`-th request; nothing is deduplicated. */
  lemma {:induction false} OfferRequestsAt(users: seq<string>, me: Peer)
    ensures |OfferRequests(users, me)| == |users|
    ensures forall k :: 0 <= k < |users| ==> OfferRequests(users, me)[k] == Emit(users[k], RequestOfferEvent(me))
  {
    if users != [] {
      OfferRequestsAt(users[..|users| - 1], me);
    }
  }

  /** Each side of an offer is told about the other, and exactly one of them initiates. */
  lemma OfferPairIsSymmetric(a: Peer, b: Peer)
    ensures |OfferPair(a, b)| == 2
    ensures OfferPair(a, b)[0].event.user == b && OfferPair(a, b)[1].event.user == a
    ensures OfferPair(a, b)[0].room == DeviceRoom(a) && OfferPair(a, b)[1].room == DeviceRoom(b)
    ensures !OfferPair(a, b)[0].event.initiator && OfferPair(a, b)[1].event.initiator
  {
  }

  /** Device rooms of users whose names hold no '@' name exactly one (user, device) pair. */
  lemma DeviceRoomInjective(u1: string, d1: string, u2: string, d2: string)
    requires '@' !in u1 && '@' !in u2
    requires Room(u1, d1) == Room(u2, d2)
    ensures u1 == u2 && d1 == d2
  {
  }

  /** The room of a user whose name holds no '@' is never the room of a device. */
  lemma UserRoomIsNoDeviceRoom(u: string, v: string, d: string)
    requires '@' !in u
    ensures u != Room(v, d)
  {
  }

  /** Without that restriction two devices of different users share one room. */
  lemma DeviceRoomsCollide()
    ensures Room("a@b", "c") == Room("a", "b@c")
  {
  }
}
