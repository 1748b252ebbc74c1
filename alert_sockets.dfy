/** The `/alerts` real-time namespace (src/sockets/alerts.namespace.ts): connected
    sockets, their membership of `alerts:<type>` rooms, and who receives an emission. */
module AlertSockets {
  import opened AlertModel

  type SocketId = nat

  /** Where an emission goes: every socket of the namespace, or the members of one room. */
  datatype Target = Namespace | Room(name: string)

  /** One `emit(event, alert)` on the namespace or on a room of it. */
  datatype Emission = Emission(event: string, target: Target, alert: Alert)

  /** The room a socket joins to follow one alert type. */
  function RoomName(alertType: string): string {
    "alerts:" + alertType
  }

  /** Distinct alert types name distinct rooms. */
  lemma RoomNameInjective(t1: string, t2: string)
    ensures RoomName(t1) == RoomName(t2) ==> t1 == t2
  {
    if RoomName(t1) == RoomName(t2) {
      assert t1 == RoomName(t1)[7..];
      assert t2 == RoomName(t2)[7..];
    }
  }

  /** The namespace-wide update event that every listener receives. */
  function AlertUpdated(a: Alert): Emission {
    Emission("alertUpdated", Namespace, a)
  }

  /** `broadcastAlertUpdate(alert)`: `alertUpdated` to the whole namespace, then
      `alertTypeUpdated` to the room of the alert's type. */
  function BroadcastAlertUpdate(a: Alert): (r: seq<Emission>)
    ensures |r| == 2 && r[0] == AlertUpdated(a)
    ensures r[1].event == "alertTypeUpdated" && r[1].alert == a
    ensures r[1].target == Room("alerts:" + TypeName(a.alertType))
  {
    [AlertUpdated(a), Emission("alertTypeUpdated", Room(RoomName(TypeName(a.alertType))), a)]
  }

  class AlertsNamespace {
    /** The sockets currently connected to the namespace. */
    var connected: set<SocketId>
    /** Room membership: (socket, room) pairs. */
    var rooms: set<(SocketId, string)>

    /** Only connected sockets are members of rooms. */
    ghost predicate Valid()
      reads this
    {
      forall m :: m in rooms ==> m.0 in connected
    }

    constructor ()
      ensures Valid() && connected == {} && rooms == {}
    {
      connected := {};
      rooms := {};
    }

    /** A client connects: it is in the namespace and in no room yet. */
    method Connect(s: SocketId)
      requires Valid()
      modifies this
      ensures Valid()
      ensures connected == old(connected) + {s} && rooms == old(rooms)
    {
      connected := connected + {s};
    }

    /** A client disconnects. The source's `disconnect` handler only logs; the transport
        itself drops the socket from the namespace and from every room. */
    method Disconnect(s: SocketId)
      requires Valid()
      modifies this
      ensures Valid()
      ensures connected == old(connected) - {s}
      ensures rooms == set m | m in old(rooms) && m.0 != s
    {
      connected := connected - {s};
      rooms := set m | m in rooms && m.0 != s;
    }

    /** The `joinAlertType` handler: the socket joins room `alerts:<alertType>`. */
    method JoinAlertType(s: SocketId, alertType: string)
      requires Valid() && s in connected
      modifies this
      ensures Valid()
      ensures connected == old(connected)
      ensures rooms == old(rooms) + {(s, RoomName(alertType))}
    {
      rooms := rooms + {(s, RoomName(alertType))};
    }

    /** The `leaveAlertType` handler: the socket leaves room `alerts:<alertType>` and no other. */
    method LeaveAlertType(s: SocketId, alertType: string)
      requires Valid()
      modifies this
      ensures Valid()
      ensures connected == old(connected)
      ensures rooms == old(rooms) - {(s, RoomName(alertType))}
      ensures forall t :: t != alertType ==> ((s, RoomName(t)) in rooms <==> (s, RoomName(t)) in old(rooms))
    {
      rooms := rooms - {(s, RoomName(alertType))};
      forall t | t != alertType
        ensures (s, RoomName(t)) in rooms <==> (s, RoomName(t)) in old(rooms)
      {
        RoomNameInjective(t, alertType);
      }
    }

    /** The sockets an emission reaches. */
    function Recipients(target: Target): set<SocketId>
      reads this
    {
      match target
      case Namespace => connected
      case Room(name) => set m | m in rooms && m.1 == name :: m.0
    }

    /** Delivering `broadcastAlertUpdate(a)`: every connected socket gets `alertUpdated`,
        and exactly the members of the alert type's room get `alertTypeUpdated`. */
    function BroadcastDeliveries(a: Alert): (r: set<(SocketId, string)>)
      reads this
      requires Valid()
      ensures forall s :: (s, "alertUpdated") in r <==> s in connected
      ensures forall s :: (s, "alertTypeUpdated") in r <==> (s, RoomName(TypeName(a.alertType))) in rooms
    {
      var b := BroadcastAlertUpdate(a);
      var r := (set s | s in Recipients(b[0].target) :: (s, b[0].event))
             + (set s | s in Recipients(b[1].target) :: (s, b[1].event));
      assert forall s :: (s, RoomName(TypeName(a.alertType))) in rooms ==> s in Recipients(b[1].target);
      r
    }
  }

  /** Room membership is per room: after a leave, the socket's membership of any other
      type's room is what it was. */
  lemma LeaveKeepsOtherRooms(rooms: set<(SocketId, string)>, s: SocketId, left: string, other: string)
    requires left != other
    ensures (s, RoomName(other)) in rooms - {(s, RoomName(left))} <==> (s, RoomName(other)) in rooms
  {
    RoomNameInjective(left, other);
  }
}
