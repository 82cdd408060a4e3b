/**
 * The AM43 client object (src/AM43Client.cpp): connection flags, login
 * state, telemetry fields, the polling cursor and timestamp, updated in
 * place by the connection hooks, the notification callback and the polling
 * tick.
 *
 * The characteristic write is modelled by appending the frame to `sent`;
 * listener callbacks by appending to `events`, guarded by `hasListener`
 * (the listener pointer being set). The current time is a parameter.
 */
module Client {
  import opened Protocol
  import opened FrameCodec
  import opened Commands
  import opened Engine

  class AM43Client {
    var connected: bool
    /** Sticky: set by a disconnect, never cleared here. */
    var disconnected: bool
    var loggedIn: bool
    var pin: bv16
    var hasListener: bool
    var batteryPercent: bv8
    var openLevel: bv8
    var lightLevel: bv8
    /** Polling cursor: 1 = position, 2 = battery, 3 = light. */
    var currentQuery: bv8
    var lastUpdate: U32
    /** The poll interval in ms (30000 in the current header, 120000 in the older one). */
    const interval: U32

    /** Every frame written to the device's characteristic, oldest first. */
    var sent: seq<seq<bv8>>
    /** Every listener callback fired, oldest first. */
    var events: seq<Event>

    /** The client's fields as a session value. */
    function State(): Session
      reads this
    {
      Session(connected, disconnected, loggedIn, pin, hasListener,
              batteryPercent, openLevel, lightLevel, currentQuery, lastUpdate)
    }

    /** The polling cursor always names one of the three queries. */
    ghost predicate Valid()
      reads this
    {
      1 <= currentQuery <= LastQuery
    }

    /**
     * A client for a device with the given PIN. Open level, light level and
     * the last-update timestamp are left uninitialised, as in the source.
     */
    constructor (pin: bv16, interval: U32)
      ensures Valid()
      ensures !connected && !disconnected && !loggedIn && !hasListener
      ensures this.pin == pin && this.interval == interval
      ensures batteryPercent == 0xFF && currentQuery == 1
      ensures sent == [] && events == []
    {
      connected := false;
      disconnected := false;
      loggedIn := false;
      this.pin := pin;
      batteryPercent := 0xFF;
      hasListener := false;
      currentQuery := 1;
      this.interval := interval;
      sent := [];
      events := [];
    }

    /** A client with the default PIN 8888. */
    constructor WithDefaultPin(interval: U32)
      ensures Valid()
      ensures !connected && !disconnected && !loggedIn && !hasListener
      ensures pin == DefaultPin && this.interval == interval
      ensures batteryPercent == 0xFF && currentQuery == 1
      ensures sent == [] && events == []
    {
      connected := false;
      disconnected := false;
      loggedIn := false;
      pin := DefaultPin;
      batteryPercent := 0xFF;
      hasListener := false;
      currentQuery := 1;
      this.interval := interval;
      sent := [];
      events := [];
    }

    /** The transport's connect hook. */
    method OnConnect()
      modifies this
      ensures State() == Connect(old(State())).session
      ensures events == old(events) + Connect(old(State())).events
      ensures sent == old(sent)
      ensures old(Valid()) ==> Valid()
    {
      connected := true;
      if hasListener {
        events := events + [Event.OnConnect];
      }
    }

    /** The transport's disconnect hook. */
    method OnDisconnect()
      modifies this
      ensures State() == Disconnect(old(State())).session
      ensures events == old(events) + Disconnect(old(State())).events
      ensures sent == old(sent)
      ensures old(Valid()) ==> Valid()
    {
      connected := false;
      disconnected := true;
      if hasListener {
        events := events + [Event.OnDisconnect];
      }
    }

    /** Registers (`true`) or clears (`false`) the listener. */
    method SetClientCallbacks(listener: bool)
      modifies this
      ensures State() == old(State()).(hasListener := listener)
      ensures sent == old(sent) && events == old(events)
      ensures old(Valid()) ==> Valid()
    {
      hasListener := listener;
    }

    /**
     * Builds the frame for `command` and `data` and writes it: start packet,
     * opcode, length byte, payload, checksum.
     */
    method SendCommand(command: bv8, data: seq<bv8>)
      modifies this
      ensures sent == old(sent) + [Frame(command, data)]
      ensures State() == old(State()) && events == old(events)
    {
      var sendData: seq<bv8> := [];
      for i := 0 to |StartPacket|
        invariant sendData == StartPacket[..i]
      {
        sendData := sendData + [StartPacket[i]];
      }
      sendData := sendData + [command];
      sendData := sendData + [LengthByte(|data|)];
      sendData := sendData + data;
      assert sendData == Header(command, data);
      var c := Checksum(sendData);
      sendData := sendData + [c];
      sent := sent + [sendData];
    }

    method SendGetBatteryRequest()
      modifies this
      ensures sent == old(sent) + [Encode(GetBattery)]
      ensures State() == old(State()) && events == old(events)
    {
      SendCommand(CommandGetBattery, [0x01]);
    }

    method SendGetLightRequest()
      modifies this
      ensures sent == old(sent) + [Encode(GetLight)]
      ensures State() == old(State()) && events == old(events)
    {
      SendCommand(CommandGetLight, [0x01]);
    }

    method SendGetPositionRequest()
      modifies this
      ensures sent == old(sent) + [Encode(GetPosition)]
      ensures State() == old(State()) && events == old(events)
    {
      SendCommand(CommandGetPosition, [0x01]);
    }

    /** Sends the PIN, most significant byte first. */
    method SendPin()
      modifies this
      ensures sent == old(sent) + [Encode(Login(pin))]
      ensures State() == old(State()) && events == old(events)
    {
      SendCommand(CommandLogin, [((pin & 0xFF00) >> 8) as bv8, (pin & 0xFF) as bv8]);
    }

    method Open()
      modifies this
      ensures sent == old(sent) + [Encode(Command.Open)]
      ensures State() == old(State()) && events == old(events)
    {
      SendCommand(CommandMove, [MoveOpen]);
    }

    method Stop()
      modifies this
      ensures sent == old(sent) + [Encode(Command.Stop)]
      ensures State() == old(State()) && events == old(events)
    {
      SendCommand(CommandMove, [MoveStop]);
    }

    method Close()
      modifies this
      ensures sent == old(sent) + [Encode(Command.Close)]
      ensures State() == old(State()) && events == old(events)
    {
      SendCommand(CommandMove, [MoveClose]);
    }

    /** Sends SET_POSITION with `pos` as given; no range check. */
    method SetPosition(pos: bv8)
      modifies this
      ensures sent == old(sent) + [Encode(Command.SetPosition(pos))]
      ensures State() == old(State()) && events == old(events)
    {
      SendCommand(CommandSetPosition, [pos]);
    }

    /**
     * The notification callback: drops empty buffers and buffers that do
     * not start with 0x9A, otherwise acts on the reply opcode at byte 1.
     */
    method NotifyCallback(data: seq<bv8>, now: U32)
      requires Readable(data)
      modifies this
      ensures State() == Notify(old(State()), data, now, interval).session
      ensures events == old(events) + Notify(old(State()), data, now, interval).events
      ensures sent == old(sent)
      ensures old(Valid()) ==> Valid()
    {
      if |data| < 1 || data[0] != ReplyMarker {
        return;
      }
      var op := data[1];
      if op == CommandGetBattery {
        batteryPercent := data[7];
        if hasListener {
          events := events + [OnBatteryLevel(batteryPercent)];
        }
      } else if op == CommandSetPosition {
        // a nack is only logged
      } else if op == NotifyPosition {
        openLevel := data[4];
        if hasListener {
          events := events + [OnPosition(openLevel)];
        }
      } else if op == CommandGetPosition {
        openLevel := data[5];
        if hasListener {
          events := events + [OnPosition(openLevel)];
        }
      } else if op == CommandGetLight {
        lightLevel := data[5];
        if hasListener {
          events := events + [OnLightLevel(lightLevel)];
        }
      } else if op == CommandLogin {
        if data[3] == ResponseAck {
          loggedIn := true;
          // poll again one second from now
          lastUpdate := Plus(Minus(now, interval), 1000);
        } else if data[3] == ResponseNack {
          loggedIn := false;
        }
      } else if op == CommandMove || op == ReplyUnknown1 || op == ReplyUnknown2 {
        // move acks and nacks and the two unknown replies are only logged
      }
      // any other opcode is only logged
    }

    /**
     * The polling tick: once more than the interval has passed at `now`,
     * sends the PIN while logged out, otherwise the query the cursor selects,
     * then advances the cursor and restarts the interval at `after`, the
     * clock read again once the request is written.
     */
    method Update(now: U32, after: U32)
      modifies this
      ensures State() == Tick(old(State()), now, after, interval).session
      ensures sent == old(sent) + EncodeAll(Tick(old(State()), now, after, interval).sent)
      ensures events == old(events)
      ensures old(Valid()) ==> Valid()
    {
      ghost var e := Tick(State(), now, after, interval);
      if Minus(now, lastUpdate) > interval {
        if !loggedIn {
          assert e.sent == [Login(pin)];
          SendPin();
          return;
        }
        assert e.sent == QueryCommands(currentQuery);
        if currentQuery == UpdateBattery {
          assert EncodeAll(e.sent) == [Encode(GetPosition)];
          SendGetPositionRequest();
        } else if currentQuery == UpdateBattery + UpdatePosition {
          assert EncodeAll(e.sent) == [Encode(GetBattery)];
          SendGetBatteryRequest();
        } else if currentQuery == UpdateBattery + UpdatePosition + UpdateLight {
          assert EncodeAll(e.sent) == [Encode(GetLight)];
          SendGetLightRequest();
        } else {
          assert EncodeAll(e.sent) == [];
        }
        currentQuery := if currentQuery >= LastQuery then 1 else currentQuery + 1;
        lastUpdate := after;
      } else {
        assert EncodeAll(e.sent) == [];
      }
    }
  }

  /**
   * A session as a caller sees it, with either header's poll interval: log
   * in, then the first poll one second later asks for the position, the
   * interval restarts when the request has been written, and a position
   * reply reports 45.
   */
  method LoginThenPoll(t: U32, interval: U32)
    requires interval == UpdateInterval || interval == LegacyUpdateInterval
  {
    var c := new AM43Client.WithDefaultPin(interval);
    c.SetClientCallbacks(true);
    c.OnConnect();
    c.NotifyCallback([0x9A, CommandLogin, 0x00, ResponseAck], t);
    assert c.loggedIn && c.currentQuery == 1;
    var later := Plus(t, 1001);
    LoginAckSchedulesPoll(t, later, interval);
    var before := c.sent;
    var written := Plus(later, 15);
    c.Update(later, written);
    assert c.sent == before + [Encode(GetPosition)];
    assert c.currentQuery == 2 && c.lastUpdate == written;
    assert c.Valid();
    var reply: seq<bv8> := [0x9A, CommandGetPosition, 0x00, 0x00, 0x00, 0x2D];
    NotifyPositionReply(c.State(), reply, written, interval);
    var seen := c.events;
    c.NotifyCallback(reply, written);
    assert c.openLevel == 45;
    assert c.events == seen + [OnPosition(45)];
  }
}
