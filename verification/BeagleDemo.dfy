/** The demo server as the program it is: handlers and a main loop that update shared variables in place.
    Each method is proved to do what the transition system says. */
module BeagleDemo {
  import opened Wrappers
  import opened BeagleModel

  class DemoServer {
    // kept by the library
    var open: set<Client>
    var closing: set<Client>
    var slots: Trio<Slot>
    var dpSlot: Slot
    // globals of the program
    var automaticOperationMode: bool
    var controllingClient: Option<Client>
    var dpcState: nat
    // LEDs and data attributes
    var leds: Trio<Led>
    var led4: Led
    var status: Trio<Status>
    var dpStVal: nat
    var dpT: nat
    // locals of the main loop
    var ledStateValue: bool
    var nextLedToggleTime: nat

    function Abs(): Server
      reads this
    {
      Server(open, closing, automaticOperationMode, controllingClient, dpcState, slots, dpSlot, leds, led4,
             status, dpStVal, dpT, ledStateValue, nextLedToggleTime)
    }

    /** Process start up to the beginning of the main loop. */
    constructor (start: nat)
      ensures Abs() == Initial(start)
    {
      open, closing := {}, {};
      slots, dpSlot := Trio(Ready, Ready, Ready), Ready;
      automaticOperationMode, controllingClient, dpcState := true, None, 0;
      leds, led4 := Trio(Led(Steady, 0, 0, 0), Led(Steady, 0, 0, 0), Led(Steady, 0, 0, 0)), Led(Steady, 0, 0, 0);
      status := Trio(Status(false, 0, 0), Status(false, 0, 0), Status(false, 0, 0));
      dpStVal, dpT := 0, 0;
      ledStateValue, nextLedToggleTime := false, start + 1000;
      new;
      InitLEDs();
      dpStVal := 1;
    }

    // ---------- beaglebone_leds ----------

    /** The LED that belongs to a control object. */
    function LedOf(p: Point): Led
      reads this
    {
      match p
      case SP(n) => leds.Get(n)
      case DPCSO1 => led4
    }

    method WriteLed(p: Point, led: Led)
      modifies this`leds, this`led4
      ensures Abs() == match p
        case SP(n) => old(Abs()).(leds := old(leds).Set(n, led))
        case DPCSO1 => old(Abs()).(led4 := led)
    {
      match p {
        case SP(n) => leds := leds.Set(n, led);
        case DPCSO1 => led4 := led;
      }
    }

    method FlashLED(p: Point)
      modifies this`leds, this`led4
      ensures Abs() == match p
        case SP(n) => old(Abs()).(leds := old(leds).Set(n, Flashed(old(leds).Get(n))))
        case DPCSO1 => old(Abs()).(led4 := Flashed(old(led4)))
    {
      WriteLed(p, LedOf(p).(trigger := Timer));
      WriteLed(p, LedOf(p).(delayOn := 200));
      WriteLed(p, LedOf(p).(delayOff := 200));
    }

    method SwitchLED(p: Point, value: int)
      modifies this`leds, this`led4
      ensures Abs() == match p
        case SP(n) => old(Abs()).(leds := old(leds).Set(n, Switched(old(leds).Get(n), value)))
        case DPCSO1 => old(Abs()).(led4 := Switched(old(led4), value))
    {
      WriteLed(p, LedOf(p).(trigger := Steady));
      WriteLed(p, LedOf(p).(brightness := value));
    }

    method InitLEDs()
      modifies this`leds, this`led4
      ensures Abs() == old(Abs()).(
        leds := Trio(Switched(old(leds).first, 0), Switched(old(leds).second, 0), Switched(old(leds).third, 0)),
        led4 := Switched(old(led4), 0))
    {
      SwitchLED(SP(SPCSO1), 0);
      SwitchLED(SP(SPCSO2), 0);
      SwitchLED(SP(SPCSO3), 0);
      SwitchLED(DPCSO1, 0);
    }

    // ---------- handlers ----------

    method ConnectionIndicationHandler(connection: Client, connected: bool)
      modifies this`controllingClient, this`automaticOperationMode
      ensures Abs() == if connected then old(Abs()) else Released(old(Abs()), connection)
    {
      if !connected {
        if controllingClient == Some(connection) {
          controllingClient := None;
          automaticOperationMode := true;
        }
      }
    }

    method PerformCheckHandler(connection: Client) returns (r: CheckResult)
      modifies this`controllingClient, this`automaticOperationMode
      ensures (Abs(), r) == Checked(old(Abs()), connection)
    {
      if controllingClient == None {
        controllingClient := Some(connection);
        automaticOperationMode := false;
      }
      if controllingClient == Some(connection) {
        return ControlAccepted;
      } else {
        return TemporarilyUnavailable;
      }
    }

    /** updateLED1stVal, updateLED2stVal and updateLED3stVal. */
    method UpdateLEDstVal(n: Single, newLedState: bool, timeStamp: nat)
      modifies this`leds, this`led4, this`status
      ensures Abs() == UpdatedStVal(old(Abs()), n, newLedState, timeStamp)
    {
      SwitchLED(SP(n), if newLedState then 1 else 0);
      status := status.Set(n, status.Get(n).(stVal := newLedState));
      status := status.Set(n, status.Get(n).(q := QualityOf(n)));
      status := status.Set(n, status.Get(n).(t := timeStamp));
    }

    /** The control handler up to its sleep, or to its end; `sleeps` tells which. */
    method ControlHandlerForBinaryOutput(parameter: Point, value: CtlVal, test: bool, timeStamp: nat)
        returns (result: bool, sleeps: bool)
      modifies this`leds, this`led4, this`status, this`dpcState, this`dpStVal, this`dpT
      ensures result <==> test || value.Boolean?
      ensures sleeps <==> !test && value.Boolean? && parameter == DPCSO1
      ensures Abs() ==
        if test || value.OtherType? then old(Abs())
        else match parameter
          case SP(n) => UpdatedStVal(old(Abs()), n, value.b, timeStamp)
          case DPCSO1 => DpcBegun(old(Abs()), timeStamp)
    {
      if test { return true, false; }
      if value.OtherType? { return false, false; }
      var newState := value.b;
      if parameter == SP(SPCSO1) { UpdateLEDstVal(SPCSO1, newState, timeStamp); }
      if parameter == SP(SPCSO2) { UpdateLEDstVal(SPCSO2, newState, timeStamp); }
      if parameter == SP(SPCSO3) { UpdateLEDstVal(SPCSO3, newState, timeStamp); }
      if parameter == DPCSO1 {
        dpcState := 0;
        dpStVal := dpcState;
        dpT := timeStamp;
        FlashLED(DPCSO1);
        return true, true;
      }
      return true, false;
    }

    /** The rest of the double point handler, after its sleep. */
    method ControlHandlerAfterSleep(newState: bool, timeStamp: nat)
      modifies this`leds, this`led4, this`dpcState, this`dpStVal, this`dpT
      ensures Abs() == DpcEnded(old(Abs()), newState, timeStamp)
    {
      if newState {
        SwitchLED(DPCSO1, 1);
        dpcState := 2;
      } else {
        SwitchLED(DPCSO1, 0);
        dpcState := 1;
      }
      dpStVal := dpcState;
      dpT := timeStamp;
    }

    // ---------- the library's dispatcher ----------

    method SetSlot(p: Point, slot: Slot)
      modifies this`slots, this`dpSlot
      ensures Abs() == old(Abs()).WithSlot(p, slot)
    {
      match p {
        case SP(n) => slots := slots.Set(n, slot);
        case DPCSO1 => dpSlot := slot;
      }
    }

    /** An operate request; true is the positive response. */
    method OperateRequest(c: Client, p: Point, value: CtlVal, test: bool) returns (accepted: bool)
      modifies this`slots, this`dpSlot, this`controllingClient, this`automaticOperationMode
      ensures Abs() == Step(old(Abs()), Oper(c, p, value, test))
      ensures accepted <==> Accepts(old(Abs()), Oper(c, p, value, test))
    {
      if c !in open || Abs().SlotOf(p) != Ready { return false; }
      var r := PerformCheckHandler(c);
      if r == ControlAccepted {
        SetSlot(p, Accepted(Operation(c, value, test)));
        return true;
      }
      return false;
    }

    /** The control thread of the operation accepted for `p`. */
    method OperateThread(p: Point, now: nat)
      modifies this
      ensures Abs() == Step(old(Abs()), Execute(p, now))
    {
      var slot := Abs().SlotOf(p);
      if slot.Accepted? {
        var _, sleeps := ControlHandlerForBinaryOutput(p, slot.op.value, slot.op.test, now);
        SetSlot(p, if sleeps then Sleeping(slot.op, now) else Ready);
      }
    }

    /** The control thread of the double point object after the handler's sleep. */
    method OperateThreadAfterSleep()
      modifies this
      ensures Abs() == Step(old(Abs()), Finish)
    {
      if dpSlot.Sleeping? && dpSlot.op.value.Boolean? {
        ControlHandlerAfterSleep(dpSlot.op.value.b, dpSlot.time);
        SetSlot(DPCSO1, Ready);
      }
    }

    // ---------- the main loop ----------

    /** One pass of the main loop, with its clock sample. */
    method MainLoopPass(currentTime: nat)
      modifies this
      ensures Abs() == Step(old(Abs()), Tick(currentTime))
    {
      if automaticOperationMode {
        if nextLedToggleTime <= currentTime {
          nextLedToggleTime := currentTime + 1000;
          ledStateValue := !ledStateValue;
          UpdateLEDstVal(SPCSO1, ledStateValue, currentTime);
          UpdateLEDstVal(SPCSO2, ledStateValue, currentTime);
          UpdateLEDstVal(SPCSO3, ledStateValue, currentTime);
        }
      }
    }

    method Dispatch(e: Event)
      modifies this
      ensures Abs() == Step(old(Abs()), e)
    {
      match e {
        case Connect(c) =>
          if c !in open && c !in closing {
            open := open + {c};
            ConnectionIndicationHandler(c, true);
          }
        case Close(c) =>
          if c in open {
            ConnectionIndicationHandler(c, false);
            open, closing := open - {c}, closing + {c};
          }
        case Forget(c) =>
          if c in closing && !Abs().HasTask(c) { closing := closing - {c}; }
        case Oper(c, p, v, test) => var _ := OperateRequest(c, p, v, test);
        case Execute(p, now) => OperateThread(p, now);
        case Finish => OperateThreadAfterSleep();
        case Tick(now) => MainLoopPass(now);
      }
    }

    /** Other threads run for a while. */
    method Interfere(es: seq<Event>)
      modifies this
      ensures Abs() == Run(old(Abs()), es)
    {
      assert es[..0] == [];
      for i := 0 to |es|
        invariant Abs() == Run(old(Abs()), es[..i])
      {
        Dispatch(es[i]);
        assert es[..i + 1] == es[..i] + [es[i]];
        RunAppend(old(Abs()), es[..i], es[i]);
      }
      assert es[..|es|] == es;
    }
  }

  /** The events of a main loop that takes these clock samples, `others[k]` happening while pass `k` sleeps. */
  function LoopEvents(samples: seq<nat>, others: seq<seq<Event>>): seq<Event>
    requires |samples| == |others|
  {
    if samples == [] then []
    else
      var k := |samples| - 1;
      LoopEvents(samples[..k], others[..k]) + [Tick(samples[k])] + others[k]
  }

  /** The main loop while `running`, for any number of passes and any interleaving with the other threads. */
  method MainLoop(server: DemoServer, samples: seq<nat>, others: seq<seq<Event>>)
    requires |samples| == |others|
    modifies server
    ensures server.Abs() == Run(old(server.Abs()), LoopEvents(samples, others))
  {
    ghost var s := server.Abs();
    for k := 0 to |samples|
      invariant server.Abs() == Run(s, LoopEvents(samples[..k], others[..k]))
    {
      ghost var past := LoopEvents(samples[..k], others[..k]);
      server.MainLoopPass(samples[k]);
      server.Interfere(others[k]);
      assert samples[..k + 1][..k] == samples[..k] && others[..k + 1][..k] == others[..k];
      RunAppend(s, past, Tick(samples[k]));
      RunConcat(s, past + [Tick(samples[k])], others[k]);
    }
    assert samples[..|samples|] == samples && others[..|others|] == others;
  }
}
