/**
 * The server's room logic for order-status notifications: clients join the
 * room of one order or the shared admin room, status updates are re-emitted
 * to an order's room and to the admin room, new orders go to the admin room
 * only, and chat messages are echoed to their sender.
 *
 * socket.io's room storage is a map from room name to a set of client ids;
 * each connected client has an outbox, the sequence of events emitted to it
 * so far. Timestamps (`new Date().toISOString()`) are parameters.
 */
module SocketHub {

  type ClientId = string
  type Room = string
  type Timestamp = string

  /** The event payloads the server emits. */
  datatype Event =
    | OrderStatusUpdate(orderId: string, status: string, timestamp: Timestamp)
    | NewOrder(fields: map<string, string>)
    | Message(text: string, senderId: string, timestamp: Timestamp)

  const AdminRoom: Room := "admin"
  const SystemSender := "system"
  const WelcomeText := "Welcome to SmartDine WebSocket Server!"
  const EchoPrefix := "Echo: "

  /** The room a customer joins to follow one order. */
  function OrderRoom(orderId: string): (r: Room)
    ensures |r| == |orderId| + 6 && r[..6] == "order-" && r[6..] == orderId
  {
    "order-" + orderId
  }

  /** Distinct orders have distinct rooms, and no order room is the admin room. */
  lemma OrderRoomsDistinct(a: string, b: string)
    ensures OrderRoom(a) == OrderRoom(b) <==> a == b
    ensures OrderRoom(a) != AdminRoom
  {
    assert OrderRoom(a)[0] == 'o' != AdminRoom[0];
  }

  /** The members of a room; a room nobody joined has none. */
  function Members(rooms: map<Room, set<ClientId>>, room: Room): set<ClientId>
  {
    if room in rooms then rooms[room] else {}
  }

  /** The events emitted to a client so far; a client never seen has none. */
  function Inbox(outbox: map<ClientId, seq<Event>>, c: ClientId): seq<Event>
  {
    if c in outbox then outbox[c] else []
  }

  /** `socket.join(room)`: the client becomes a member of `room`; every other room keeps its members. */
  function Join(rooms: map<Room, set<ClientId>>, room: Room, c: ClientId): (r: map<Room, set<ClientId>>)
    ensures Members(r, room) == Members(rooms, room) + {c}
    ensures forall other :: other != room ==> Members(r, other) == Members(rooms, other)
  {
    rooms[room := Members(rooms, room) + {c}]
  }

  /** `io.to(room).emit(e)`: every member gets `e` appended to its outbox, exactly once; nobody else gets anything. */
  function Fanout(outbox: map<ClientId, seq<Event>>, members: set<ClientId>, e: Event): (r: map<ClientId, seq<Event>>)
    ensures r.Keys == outbox.Keys + members
    ensures forall c :: Inbox(r, c) == Inbox(outbox, c) + (if c in members then [e] else [])
  {
    map c | c in outbox.Keys + members :: Inbox(outbox, c) + (if c in members then [e] else [])
  }

  /** `socket.emit(e)`: only the emitting client gets `e`. */
  function SendTo(outbox: map<ClientId, seq<Event>>, c: ClientId, e: Event): (r: map<ClientId, seq<Event>>)
    ensures Inbox(r, c) == Inbox(outbox, c) + [e]
    ensures forall other :: other != c ==> Inbox(r, other) == Inbox(outbox, other)
  {
    outbox[c := Inbox(outbox, c) + [e]]
  }

  /**
   * The outboxes after an `updateOrderStatus` message: one `orderStatusUpdate`
   * to the order's room, then a separate one to the admin room. The status is
   * forwarded as received; nothing checks it.
   */
  function AfterStatusUpdate(rooms: map<Room, set<ClientId>>, outbox: map<ClientId, seq<Event>>,
                             orderId: string, status: string, t1: Timestamp, t2: Timestamp): (r: map<ClientId, seq<Event>>)
    ensures r.Keys == outbox.Keys + Members(rooms, OrderRoom(orderId)) + Members(rooms, AdminRoom)
    ensures forall c ::
      Inbox(r, c) == Inbox(outbox, c)
                     + (if c in Members(rooms, OrderRoom(orderId)) then [OrderStatusUpdate(orderId, status, t1)] else [])
                     + (if c in Members(rooms, AdminRoom) then [OrderStatusUpdate(orderId, status, t2)] else [])
  {
    var toOrder := Fanout(outbox, Members(rooms, OrderRoom(orderId)), OrderStatusUpdate(orderId, status, t1));
    Fanout(toOrder, Members(rooms, AdminRoom), OrderStatusUpdate(orderId, status, t2))
  }

  /** The `newOrder` payload: the received fields, with `timestamp` set by the server (overriding any sent one). */
  function Stamped(orderData: map<string, string>, t: Timestamp): (fields: map<string, string>)
    ensures fields.Keys == orderData.Keys + {"timestamp"} && fields["timestamp"] == t
    ensures forall k :: k in orderData && k != "timestamp" ==> fields[k] == orderData[k]
  {
    orderData["timestamp" := t]
  }

  /** The number of `orderStatusUpdate` events for `orderId` carrying `status` in `events`. */
  function CountUpdates(events: seq<Event>, orderId: string, status: string): nat
  {
    if events == [] then 0
    else
      var e := events[|events| - 1];
      CountUpdates(events[..|events| - 1], orderId, status)
      + (if e.OrderStatusUpdate? && e.orderId == orderId && e.status == status then 1 else 0)
  }

  lemma {:induction false} CountUpdatesAppend(a: seq<Event>, b: seq<Event>, orderId: string, status: string)
    ensures CountUpdates(a + b, orderId, status) == CountUpdates(a, orderId, status) + CountUpdates(b, orderId, status)
    decreases |b|
  {
    if b == [] {
      assert a + b == a;
    } else {
      assert (a + b)[..|a + b| - 1] == a + b[..|b| - 1];
      CountUpdatesAppend(a, b[..|b| - 1], orderId, status);
    }
  }

  /**
   * What one `updateOrderStatus{orderId, status}` delivers to a client: an
   * `orderStatusUpdate` carrying the received id and status if it is in the
   * order's room, then another if it is in the admin room, and nothing else.
   * So a client in neither room gets nothing and a client in both gets the
   * update twice.
   */
  lemma {:induction false} StatusUpdateDelivery(rooms: map<Room, set<ClientId>>, outbox: map<ClientId, seq<Event>>,
                                   orderId: string, status: string, t1: Timestamp, t2: Timestamp, c: ClientId)
    ensures var inOrder := c in Members(rooms, OrderRoom(orderId));
      var inAdmin := c in Members(rooms, AdminRoom);
      var after := Inbox(AfterStatusUpdate(rooms, outbox, orderId, status, t1, t2), c);
      && after == Inbox(outbox, c)
                  + (if inOrder then [OrderStatusUpdate(orderId, status, t1)] else [])
                  + (if inAdmin then [OrderStatusUpdate(orderId, status, t2)] else [])
      && CountUpdates(after, orderId, status)
         == CountUpdates(Inbox(outbox, c), orderId, status) + (if inOrder then 1 else 0) + (if inAdmin then 1 else 0)
  {
    var inOrder := c in Members(rooms, OrderRoom(orderId));
    var inAdmin := c in Members(rooms, AdminRoom);
    CountTwoUpdates(Inbox(outbox, c), orderId, status, t1, t2, inOrder, inAdmin);
  }

  /** Appending up to two updates of one order with one status raises its count by their number. */
  lemma CountTwoUpdates(before: seq<Event>, orderId: string, status: string, t1: Timestamp, t2: Timestamp,
                        inOrder: bool, inAdmin: bool)
    ensures CountUpdates(before
                         + (if inOrder then [OrderStatusUpdate(orderId, status, t1)] else [])
                         + (if inAdmin then [OrderStatusUpdate(orderId, status, t2)] else []), orderId, status)
         == CountUpdates(before, orderId, status) + (if inOrder then 1 else 0) + (if inAdmin then 1 else 0)
  {
    var e1: seq<Event> := if inOrder then [OrderStatusUpdate(orderId, status, t1)] else [];
    var e2: seq<Event> := if inAdmin then [OrderStatusUpdate(orderId, status, t2)] else [];
    CountUpdatesAppend(before, e1, orderId, status);
    CountUpdatesAppend(before + e1, e2, orderId, status);
    assert CountUpdates(e1, orderId, status) == (if inOrder then 1 else 0) by {
      if inOrder { assert e1[..0] == []; }
    }
    assert CountUpdates(e2, orderId, status) == (if inAdmin then 1 else 0) by {
      if inAdmin { assert e2[..0] == []; }
    }
  }

  /** Emitting only appends: every client's earlier events stay, in order, in front of the new ones. */
  lemma FanoutKeepsOrder(outbox: map<ClientId, seq<Event>>, members: set<ClientId>, e: Event, c: ClientId)
    ensures Inbox(outbox, c) <= Inbox(Fanout(outbox, members, e), c)
    ensures |Inbox(Fanout(outbox, members, e), c)| == |Inbox(outbox, c)| + (if c in members then 1 else 0)
  {
  }

  /**
   * A customer following order `o2` only hears nothing from an update of an
   * order `o3` other than `o2`.
   */
  lemma UnrelatedOrderSilent(rooms: map<Room, set<ClientId>>, outbox: map<ClientId, seq<Event>>,
                             o2: string, o3: string, status: string, t1: Timestamp, t2: Timestamp, c: ClientId)
    requires o2 != o3
    requires forall room :: c in Members(rooms, room) ==> room == OrderRoom(o2)
    ensures Inbox(AfterStatusUpdate(rooms, outbox, o3, status, t1, t2), c) == Inbox(outbox, c)
  {
    OrderRoomsDistinct(o2, o3);
    OrderRoomsDistinct(o2, o2);
    StatusUpdateDelivery(rooms, outbox, o3, status, t1, t2, c);
  }

  /**
   * The server. `rooms` is socket.io's room table and `outbox` holds, for each
   * connected client, the events emitted to it so far.
   */
  class Hub {
    var rooms: map<Room, set<ClientId>>
    var outbox: map<ClientId, seq<Event>>

    /** Only connected clients are room members. */
    ghost predicate Valid()
      reads this
    {
      forall room :: room in rooms ==> rooms[room] <= outbox.Keys
    }

    constructor ()
      ensures Valid() && rooms == map[] && outbox == map[]
    {
      rooms := map[];
      outbox := map[];
    }

    /** A new connection (socket.io ids are fresh) is greeted, alone, with the welcome message. */
    method Connect(c: ClientId, t: Timestamp)
      requires Valid() && c !in outbox
      modifies this
      ensures Valid() && rooms == old(rooms)
      ensures outbox == old(outbox)[c := [Message(WelcomeText, SystemSender, t)]]
    {
      outbox := outbox[c := [Message(WelcomeText, SystemSender, t)]];
    }

    /** `joinOrderRoom(orderId)`: the client joins `order-<orderId>`; nothing else changes. */
    method JoinOrderRoom(c: ClientId, orderId: string)
      requires Valid() && c in outbox
      modifies this
      ensures Valid() && outbox == old(outbox)
      ensures rooms == Join(old(rooms), OrderRoom(orderId), c)
      ensures c in Members(rooms, OrderRoom(orderId))
    {
      rooms := Join(rooms, OrderRoom(orderId), c);
    }

    /** `joinAdminRoom`: the client joins `admin`; nothing else changes. */
    method JoinAdminRoom(c: ClientId)
      requires Valid() && c in outbox
      modifies this
      ensures Valid() && outbox == old(outbox)
      ensures rooms == Join(old(rooms), AdminRoom, c)
      ensures c in Members(rooms, AdminRoom)
    {
      rooms := Join(rooms, AdminRoom, c);
    }

    /** `updateOrderStatus{orderId, status}`: two separate emits, to the order's room and to `admin`. */
    method UpdateOrderStatus(orderId: string, status: string, t1: Timestamp, t2: Timestamp)
      requires Valid()
      modifies this
      ensures Valid() && rooms == old(rooms)
      ensures outbox == AfterStatusUpdate(old(rooms), old(outbox), orderId, status, t1, t2)
      ensures outbox.Keys == old(outbox.Keys)
    {
      outbox := Fanout(outbox, Members(rooms, OrderRoom(orderId)), OrderStatusUpdate(orderId, status, t1));
      outbox := Fanout(outbox, Members(rooms, AdminRoom), OrderStatusUpdate(orderId, status, t2));
    }

    /** `newOrder`: the stamped payload goes to the admin room only. */
    method NotifyNewOrder(orderData: map<string, string>, t: Timestamp)
      requires Valid()
      modifies this
      ensures Valid() && rooms == old(rooms)
      ensures outbox == Fanout(old(outbox), Members(rooms, AdminRoom), NewOrder(Stamped(orderData, t)))
      ensures outbox.Keys == old(outbox.Keys)
    {
      outbox := Fanout(outbox, Members(rooms, AdminRoom), NewOrder(Stamped(orderData, t)));
    }

    /** `message{text}`: the sender alone gets `Echo: <text>` from `system`. */
    method Echo(c: ClientId, text: string, t: Timestamp)
      requires Valid() && c in outbox
      modifies this
      ensures Valid() && rooms == old(rooms)
      ensures outbox == SendTo(old(outbox), c, Message(EchoPrefix + text, SystemSender, t))
      ensures outbox.Keys == old(outbox.Keys)
    {
      outbox := SendTo(outbox, c, Message(EchoPrefix + text, SystemSender, t));
    }
  }
}
