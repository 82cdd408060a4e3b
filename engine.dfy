/**
 * The AM43 client's session state as a value, and the transitions the
 * notification dispatcher, the polling tick and the connection hooks make
 * on it (src/AM43Client.cpp). These functions specify the methods of the
 * AM43Client class; the lemmas state what the protocol engine promises.
 */
module Engine {
  import opened Protocol
  import opened Commands

  /** A callback fired on the registered listener. */
  datatype Event =
    | OnPosition(level: bv8)
    | OnBatteryLevel(level: bv8)
    | OnLightLevel(level: bv8)
    | OnConnect
    | OnDisconnect

  /**
   * Every field of the client the engine reads or writes. `hasListener`
   * stands for "the listener pointer is not null"; `currentQuery` is the
   * polling cursor (1 = position, 2 = battery, 3 = light); `lastUpdate` is a
   * 32-bit millisecond timestamp.
   */
  datatype Session = Session(
    connected: bool,
    disconnected: bool,
    loggedIn: bool,
    pin: bv16,
    hasListener: bool,
    batteryPercent: bv8,
    openLevel: bv8,
    lightLevel: bv8,
    currentQuery: bv8,
    lastUpdate: U32)

  /** What one operation does: the new session, the commands sent, the callbacks fired. */
  datatype Effect = Effect(session: Session, sent: seq<Command>, events: seq<Event>)

  /* ---------------- Notification dispatcher ---------------- */

  /** The highest byte offset the dispatcher reads for a reply with this opcode. */
  function ReadIndex(op: bv8): nat
  {
    if op == CommandGetBattery then 7
    else if op == CommandGetPosition || op == CommandGetLight then 5
    else if op == NotifyPosition then 4
    else if op == CommandSetPosition || op == CommandLogin || op == CommandMove then 3
    else 1
  }

  /**
   * The buffer is long enough for every byte the dispatcher reads. The
   * source does not check this; the dispatcher assumes it.
   */
  predicate Readable(data: seq<bv8>)
  {
    |data| < 1 || data[0] != ReplyMarker || (|data| > 1 && ReadIndex(data[1]) < |data|)
  }

  /** The callback list a listener-guarded call produces. */
  function Report(s: Session, e: Event): seq<Event>
  {
    if s.hasListener then [e] else []
  }

  /** The timestamp a LOGIN ack stores, so that the next poll is due one second later. */
  function LoginAckTimestamp(now: U32, interval: U32): U32
  {
    Plus(Minus(now, interval), 1000)
  }

  /**
   * The dispatcher's effect on the session for an inbound notification: it
   * never writes a frame and fires at most one callback, only to a listener.
   */
  function Notify(s: Session, data: seq<bv8>, now: U32, interval: U32): (r: Effect)
    requires Readable(data)
    ensures r.sent == [] && |r.events| <= 1
    ensures r.events != [] ==> s.hasListener
  {
    if |data| < 1 || data[0] != ReplyMarker then Effect(s, [], [])
    else
      var op := data[1];
      if op == CommandGetBattery then
        Effect(s.(batteryPercent := data[7]), [], Report(s, OnBatteryLevel(data[7])))
      else if op == NotifyPosition then
        Effect(s.(openLevel := data[4]), [], Report(s, OnPosition(data[4])))
      else if op == CommandGetPosition then
        Effect(s.(openLevel := data[5]), [], Report(s, OnPosition(data[5])))
      else if op == CommandGetLight then
        Effect(s.(lightLevel := data[5]), [], Report(s, OnLightLevel(data[5])))
      else if op == CommandLogin && data[3] == ResponseAck then
        Effect(s.(loggedIn := true, lastUpdate := LoginAckTimestamp(now, interval)), [], [])
      else if op == CommandLogin && data[3] == ResponseNack then
        Effect(s.(loggedIn := false), [], [])
      else
        Effect(s, [], [])
  }

  /** An empty buffer, or one not starting with 0x9A, is dropped without effect. */
  lemma NotifyDropsInvalid(s: Session, data: seq<bv8>, now: U32, interval: U32)
    requires |data| < 1 || data[0] != ReplyMarker
    ensures Notify(s, data, now, interval) == Effect(s, [], [])
  {
  }

  /**
   * Replies to SET_POSITION and MOVE, the two unknown replies and any opcode
   * the dispatcher does not list are only logged.
   */
  lemma NotifyLogOnly(s: Session, data: seq<bv8>, now: U32, interval: U32)
    requires Readable(data) && |data| > 1 && data[0] == ReplyMarker
    requires data[1] != CommandGetBattery && data[1] != NotifyPosition
    requires data[1] != CommandGetPosition && data[1] != CommandGetLight
    requires data[1] != CommandLogin
    ensures Notify(s, data, now, interval) == Effect(s, [], [])
  {
  }

  /** A battery reply stores byte 7 and reports it once, if a listener is set. */
  lemma NotifyBatteryReply(s: Session, data: seq<bv8>, now: U32, interval: U32)
    requires |data| > 7 && data[0] == ReplyMarker && data[1] == CommandGetBattery
    ensures Readable(data)
    ensures var r := Notify(s, data, now, interval);
      && r.session == s.(batteryPercent := data[7])
      && r.sent == []
      && (r.events == if s.hasListener then [OnBatteryLevel(data[7])] else [])
  {
  }

  /** An unsolicited position notification stores byte 4 as the open level. */
  lemma NotifyPositionPush(s: Session, data: seq<bv8>, now: U32, interval: U32)
    requires |data| > 4 && data[0] == ReplyMarker && data[1] == NotifyPosition
    ensures Readable(data)
    ensures var r := Notify(s, data, now, interval);
      && r.session == s.(openLevel := data[4])
      && r.sent == []
      && (r.events == if s.hasListener then [OnPosition(data[4])] else [])
  {
  }

  /** A position reply stores byte 5 as the open level. */
  lemma NotifyPositionReply(s: Session, data: seq<bv8>, now: U32, interval: U32)
    requires |data| > 5 && data[0] == ReplyMarker && data[1] == CommandGetPosition
    ensures Readable(data)
    ensures var r := Notify(s, data, now, interval);
      && r.session == s.(openLevel := data[5])
      && r.sent == []
      && (r.events == if s.hasListener then [OnPosition(data[5])] else [])
  {
  }

  /** A light reply stores byte 5 as the light level. */
  lemma NotifyLightReply(s: Session, data: seq<bv8>, now: U32, interval: U32)
    requires |data| > 5 && data[0] == ReplyMarker && data[1] == CommandGetLight
    ensures Readable(data)
    ensures var r := Notify(s, data, now, interval);
      && r.session == s.(lightLevel := data[5])
      && r.sent == []
      && (r.events == if s.hasListener then [OnLightLevel(data[5])] else [])
  {
  }

  /**
   * A LOGIN reply: an ack logs in and moves the timestamp so that a poll is
   * due a second later, a nack logs out, any other byte 3 changes nothing.
   * No LOGIN reply fires a callback.
   */
  lemma NotifyLoginReply(s: Session, data: seq<bv8>, now: U32, interval: U32)
    requires |data| > 3 && data[0] == ReplyMarker && data[1] == CommandLogin
    ensures Readable(data)
    ensures var r := Notify(s, data, now, interval);
      && r.sent == [] && r.events == []
      && (data[3] == ResponseAck ==>
            r.session == s.(loggedIn := true, lastUpdate := Plus(Minus(now, interval), 1000)))
      && (data[3] == ResponseNack ==> r.session == s.(loggedIn := false))
      && (data[3] != ResponseAck && data[3] != ResponseNack ==> r.session == s)
  {
  }

  /** No notification ever writes a frame, or touches the cursor, the PIN or the connection flags. */
  lemma NotifyKeepsConfiguration(s: Session, data: seq<bv8>, now: U32, interval: U32)
    requires Readable(data)
    ensures var r := Notify(s, data, now, interval);
      && r.sent == []
      && |r.events| <= 1
      && r.session.currentQuery == s.currentQuery
      && r.session.pin == s.pin
      && r.session.connected == s.connected
      && r.session.disconnected == s.disconnected
      && r.session.hasListener == s.hasListener
  {
    if |data| >= 1 && data[0] == ReplyMarker {
      var op := data[1];
      if op == CommandGetBattery || op == NotifyPosition || op == CommandGetPosition || op == CommandGetLight {
        assert Notify(s, data, now, interval).session.currentQuery == s.currentQuery;
      }
    }
  }

  /* ---------------- Polling state machine ---------------- */

  /** A poll is due once strictly more than `interval` ms have passed, in 32-bit wrap-around time. */
  predicate Due(lastUpdate: U32, now: U32, interval: U32)
  {
    Minus(now, lastUpdate) > interval
  }

  /** The cursor value of the last query in the cycle (1 + 1 + 1). */
  const LastQuery: bv8 := UpdateBattery + UpdatePosition + UpdateLight

  /** The telemetry request the cursor selects: 1 position, 2 battery, 3 light, otherwise none. */
  function QueryCommands(cursor: bv8): seq<Command>
  {
    if cursor == UpdateBattery then [GetPosition]
    else if cursor == UpdateBattery + UpdatePosition then [GetBattery]
    else if cursor == LastQuery then [GetLight]
    else []
  }

  /**
   * The cursor after a poll. The source computes `cursor + 1 > 3` in `int`,
   * which for a byte is the same as `cursor >= 3`: no wrap-around at 255.
   */
  function NextQuery(cursor: bv8): (n: bv8)
    ensures 1 <= n <= LastQuery
    ensures cursor < LastQuery ==> n == cursor + 1
  {
    if cursor >= LastQuery then 1 else cursor + 1
  }

  /** The cursor runs 1 -> 2 -> 3 -> 1: three steps return to the start, through the two others. */
  lemma NextQueryCycle(c: bv8)
    requires 1 <= c <= LastQuery
    ensures NextQuery(c) != c && NextQuery(NextQuery(c)) != c
    ensures NextQuery(NextQuery(NextQuery(c))) == c
  {
  }

  /**
   * One call of the polling tick. The clock is read twice: `now` for the due
   * test, and `after` once the request has been written, which becomes the
   * new timestamp. A tick fires no callback, sends at most one command, and
   * sends only when due.
   */
  function Tick(s: Session, now: U32, after: U32, interval: U32): (r: Effect)
    ensures r.events == [] && |r.sent| <= 1
    ensures r.sent != [] ==> Due(s.lastUpdate, now, interval)
  {
    if !Due(s.lastUpdate, now, interval) then Effect(s, [], [])
    else if !s.loggedIn then Effect(s, [Login(s.pin)], [])
    else Effect(s.(currentQuery := NextQuery(s.currentQuery), lastUpdate := after),
                QueryCommands(s.currentQuery), [])
  }

  /** Before the interval has passed, a tick does nothing. */
  lemma TickNotDue(s: Session, now: U32, after: U32, interval: U32)
    requires !(Minus(now, s.lastUpdate) > interval)
    ensures Tick(s, now, after, interval) == Effect(s, [], [])
  {
  }

  /**
   * A due tick while logged out sends exactly one LOGIN frame and leaves the
   * whole session, timestamp and cursor included, unchanged.
   */
  lemma TickLoggedOut(s: Session, now: U32, after: U32, interval: U32)
    requires Minus(now, s.lastUpdate) > interval && !s.loggedIn
    ensures Tick(s, now, after, interval) == Effect(s, [Login(s.pin)], [])
  {
  }

  /**
   * A due tick while logged in sends the request the cursor selects, moves
   * the cursor on and restarts the interval at `after`, the time read once
   * the request is written.
   */
  lemma TickLoggedIn(s: Session, now: U32, after: U32, interval: U32)
    requires Minus(now, s.lastUpdate) > interval && s.loggedIn
    requires 1 <= s.currentQuery <= 3
    ensures var r := Tick(s, now, after, interval);
      && r.events == []
      && r.session == s.(currentQuery := r.session.currentQuery, lastUpdate := after)
      && 1 <= r.session.currentQuery <= 3
      && (s.currentQuery == 1 ==> r.sent == [GetPosition] && r.session.currentQuery == 2)
      && (s.currentQuery == 2 ==> r.sent == [GetBattery] && r.session.currentQuery == 3)
      && (s.currentQuery == 3 ==> r.sent == [GetLight] && r.session.currentQuery == 1)
  {
  }

  /** A tick keeps the cursor in 1..3 and never changes the login or connection state. */
  lemma TickPreservesInvariant(s: Session, now: U32, after: U32, interval: U32)
    requires 1 <= s.currentQuery <= 3
    ensures var r := Tick(s, now, after, interval).session;
      && 1 <= r.currentQuery <= 3
      && r.loggedIn == s.loggedIn && r.connected == s.connected
      && r.disconnected == s.disconnected && r.pin == s.pin
      && r.batteryPercent == s.batteryPercent && r.openLevel == s.openLevel
      && r.lightLevel == s.lightLevel && r.hasListener == s.hasListener
  {
  }

  /**
   * Ticks at each of `times` in order, with no notification in between; each
   * entry holds the two clock reads of one tick (due test, after the send).
   */
  function Run(s: Session, times: seq<(U32, U32)>, interval: U32): Effect
    decreases |times|
  {
    if times == [] then Effect(s, [], [])
    else
      var first := Tick(s, times[0].0, times[0].1, interval);
      var rest := Run(first.session, times[1..], interval);
      Effect(rest.session, first.sent + rest.sent, first.events + rest.events)
  }

  /**
   * Login gating: however many ticks run and whatever the times, while not
   * logged in the session (cursor and timestamp included) stays as it is and
   * every frame sent is the LOGIN frame.
   */
  lemma {:induction false} RunLoggedOut(s: Session, times: seq<(U32, U32)>, interval: U32)
    requires !s.loggedIn
    ensures var r := Run(s, times, interval);
      && r.session == s
      && r.events == []
      && |r.sent| <= |times|
      && forall i :: 0 <= i < |r.sent| ==> r.sent[i] == Login(s.pin)
  {
    if times != [] {
      RunLoggedOut(s, times[1..], interval);
    }
  }

  /**
   * Round robin: three due ticks in a row while logged in send each
   * telemetry request exactly once, in cursor order, and bring the cursor
   * back to where it was. Tick k tests at `tk` and stamps `ak`, so each
   * due test counts from the previous tick's stamp.
   */
  lemma RoundRobin(s: Session, t1: U32, a1: U32, t2: U32, a2: U32, t3: U32, a3: U32, interval: U32)
    requires s.loggedIn && 1 <= s.currentQuery <= 3
    requires Minus(t1, s.lastUpdate) > interval && Minus(t2, a1) > interval && Minus(t3, a2) > interval
    ensures var e1 := Tick(s, t1, a1, interval);
      var e2 := Tick(e1.session, t2, a2, interval);
      var e3 := Tick(e2.session, t3, a3, interval);
      var sent := e1.sent + e2.sent + e3.sent;
      && e3.session == s.(lastUpdate := a3)
      && multiset(sent) == multiset{GetPosition, GetBattery, GetLight}
      && (s.currentQuery == 1 ==> sent == [GetPosition, GetBattery, GetLight])
      && (s.currentQuery == 2 ==> sent == [GetBattery, GetLight, GetPosition])
      && (s.currentQuery == 3 ==> sent == [GetLight, GetPosition, GetBattery])
  {
    var c := s.currentQuery;
    TickDue(s, t1, a1, interval);
    var s1 := s.(currentQuery := NextQuery(c), lastUpdate := a1);
    TickDue(s1, t2, a2, interval);
    var s2 := s1.(currentQuery := NextQuery(NextQuery(c)), lastUpdate := a2);
    TickDue(s2, t3, a3, interval);
    NextQueryCycle(c);
    QueryRotation(c);
  }

  /** A due tick while logged in, in one piece. */
  lemma TickDue(s: Session, now: U32, after: U32, interval: U32)
    requires Minus(now, s.lastUpdate) > interval && s.loggedIn
    ensures Tick(s, now, after, interval)
      == Effect(s.(currentQuery := NextQuery(s.currentQuery), lastUpdate := after), QueryCommands(s.currentQuery), [])
  {
  }

  /** Three cursor steps from any start in 1..3 select each telemetry request once, in rotation. */
  lemma QueryRotation(c: bv8)
    requires 1 <= c <= LastQuery
    ensures var sent := QueryCommands(c) + QueryCommands(NextQuery(c)) + QueryCommands(NextQuery(NextQuery(c)));
      && multiset(sent) == multiset{GetPosition, GetBattery, GetLight}
      && (c == 1 ==> sent == [GetPosition, GetBattery, GetLight])
      && (c == 2 ==> sent == [GetBattery, GetLight, GetPosition])
      && (c == 3 ==> sent == [GetLight, GetPosition, GetBattery])
  {
    var sent := QueryCommands(c) + QueryCommands(NextQuery(c)) + QueryCommands(NextQuery(NextQuery(c)));
    if c == 1 {
      assert sent == [GetPosition, GetBattery, GetLight];
    } else if c == 2 {
      assert sent == [GetBattery, GetLight, GetPosition];
    } else {
      assert sent == [GetLight, GetPosition, GetBattery];
    }
    RotationsHoldEachQuery(sent);
  }

  /** Each rotation of the three telemetry requests holds each of them once. */
  lemma RotationsHoldEachQuery(sent: seq<Command>)
    requires sent == [GetPosition, GetBattery, GetLight]
      || sent == [GetBattery, GetLight, GetPosition]
      || sent == [GetLight, GetPosition, GetBattery]
    ensures multiset(sent) == multiset{GetPosition, GetBattery, GetLight}
  {
  }

  /**
   * After a LOGIN ack at `now`, with an interval of at least one second, the
   * next poll is due exactly when more than 1000 ms have passed and at most
   * 2^32 - 1 - (interval - 1000) ms; past that the wrapped difference passes
   * zero again and the test fails.
   */
  lemma LoginAckSchedulesPoll(now: U32, later: U32, interval: U32)
    requires 1000 <= interval
    ensures Due(LoginAckTimestamp(now, interval), later, interval)
      <==> 1000 < Minus(later, now) as int <= 0xFFFF_FFFF - (interval as int - 1000)
  {
  }

  /* ---------------- Connection hooks ---------------- */

  /** The connect hook: sets `connected` and reports to the listener; login is untouched. */
  function Connect(s: Session): (r: Effect)
    ensures r.session.connected && r.sent == []
    ensures r.session.loggedIn == s.loggedIn && r.session.disconnected == s.disconnected
    ensures r.session.currentQuery == s.currentQuery && r.session.lastUpdate == s.lastUpdate
    ensures r.events == (if s.hasListener then [OnConnect] else [])
  {
    Effect(s.(connected := true), [], Report(s, OnConnect))
  }

  /** The disconnect hook: clears `connected`, sets the sticky `disconnected`; login is untouched. */
  function Disconnect(s: Session): (r: Effect)
    ensures !r.session.connected && r.session.disconnected && r.sent == []
    ensures r.session.loggedIn == s.loggedIn
    ensures r.session.currentQuery == s.currentQuery && r.session.lastUpdate == s.lastUpdate
    ensures r.events == (if s.hasListener then [OnDisconnect] else [])
  {
    Effect(s.(connected := false, disconnected := true), [], Report(s, OnDisconnect))
  }

  /**
   * Neither hook changes the login state, the cursor or the timestamp, so a
   * session that drops while logged in and reconnects keeps polling without
   * sending the PIN again; and `disconnected` stays set through a reconnect.
   */
  lemma ReconnectKeepsLogin(s: Session)
    ensures var r := Connect(Disconnect(s).session).session;
      && r.connected && r.disconnected
      && r.loggedIn == s.loggedIn
      && r.currentQuery == s.currentQuery
      && r.lastUpdate == s.lastUpdate
    ensures Disconnect(s).session.loggedIn == s.loggedIn && !Disconnect(s).session.connected
  {
  }
}
