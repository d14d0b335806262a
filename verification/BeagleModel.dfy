/** The BeagleBone demo server as a labelled transition system.

    The state holds the globals of the program, the locals of its main loop, the four LEDs, the data
    attributes the program writes, and one command slot per control object for the library's dispatcher.
    An event that cannot happen in a state leaves that state as it is, so every sequence of events is a run. */
module BeagleModel {
  import opened Wrappers

  /** A connection, as the address of the library's connection object; an address may be used again later. */
  type Client = nat

  /** The three single point objects SPCSO1..3, each driving LED1..3. */
  datatype Single = SPCSO1 | SPCSO2 | SPCSO3

  /** A control object: a single point or the double point DPCSO1, which drives LED4. */
  datatype Point = SP(n: Single) | DPCSO1

  datatype Trio<T> = Trio(first: T, second: T, third: T) {
    function Get(n: Single): T {
      match n
      case SPCSO1 => first
      case SPCSO2 => second
      case SPCSO3 => third
    }

    function Set(n: Single, x: T): Trio<T> {
      match n
      case SPCSO1 => this.(first := x)
      case SPCSO2 => this.(second := x)
      case SPCSO3 => this.(third := x)
    }
  }

  datatype Trigger = Steady | Timer

  /** The control files of one LED. */
  datatype Led = Led(trigger: Trigger, brightness: int, delayOn: int, delayOff: int)

  /** The data attributes stVal, q and t of a single point object. */
  datatype Status = Status(stVal: bool, q: nat, t: nat)

  /** The value an operate request carries; only its being a boolean matters to the handler. */
  datatype CtlVal = Boolean(b: bool) | OtherType

  datatype Operation = Operation(client: Client, value: CtlVal, test: bool) {
    /** The handler acts on the process. */
    predicate Effective() { !test && value.Boolean? }
  }

  /** The dispatcher's record of one control object: ready for a request, an accepted operation whose handler
      has not started, or the double point handler inside its sleep with the time stamp it took. */
  datatype Slot = Ready | Accepted(op: Operation) | Sleeping(op: Operation, time: nat)

  datatype CheckResult = ControlAccepted | TemporarilyUnavailable

  const QUALITY_VALIDITY_GOOD: nat := 0
  const QUALITY_VALIDITY_QUESTIONABLE: nat := 3
  const QUALITY_DETAIL_OSCILLATORY: nat := 32
  const QUALITY_SOURCE_SUBSTITUTED: nat := 1024

  const DPC_STATE_INTERMEDIATE: nat := 0
  const DPC_STATE_OFF: nat := 1
  const DPC_STATE_ON: nat := 2

  datatype Server = Server(
    open: set<Client>,              // connected, indication handler called with connected = true
    closing: set<Client>,           // closed, but the library still waits for their control threads
    automatic: bool,
    controlling: Option<Client>,
    dpcState: nat,
    slots: Trio<Slot>,
    dpSlot: Slot,
    leds: Trio<Led>,
    led4: Led,
    status: Trio<Status>,
    dpStVal: nat,
    dpT: nat,
    ledStateValue: bool,
    nextToggle: nat)
  {
    function SlotOf(p: Point): Slot {
      match p
      case SP(n) => slots.Get(n)
      case DPCSO1 => dpSlot
    }

    function WithSlot(p: Point, slot: Slot): Server {
      match p
      case SP(n) => this.(slots := slots.Set(n, slot))
      case DPCSO1 => this.(dpSlot := slot)
    }

    predicate InFlight(p: Point) { !SlotOf(p).Ready? }

    /** Some control thread of this client has not finished. */
    predicate HasTask(c: Client) {
      || (slots.first != Ready && slots.first.op.client == c)
      || (slots.second != Ready && slots.second.op.client == c)
      || (slots.third != Ready && slots.third.op.client == c)
      || (dpSlot != Ready && dpSlot.op.client == c)
    }
  }

  // ---------- LEDs ----------

  function Flashed(led: Led): Led {
    led.(trigger := Timer, delayOn := 200, delayOff := 200)
  }

  function Switched(led: Led, value: int): Led {
    led.(trigger := Steady, brightness := value)
  }

  function BoolToInt(b: bool): int { if b then 1 else 0 }

  // ---------- handlers ----------

  /** What connectionIndicationHandler does when `c` has gone. */
  function Released(s: Server, c: Client): Server {
    if s.controlling == Some(c) then s.(controlling := None, automatic := true) else s
  }

  /** performCheckHandler for a request from `c`. */
  function Checked(s: Server, c: Client): (Server, CheckResult) {
    var s' := if s.controlling == None then s.(controlling := Some(c), automatic := false) else s;
    (s', if s'.controlling == Some(c) then ControlAccepted else TemporarilyUnavailable)
  }

  function QualityOf(n: Single): nat {
    match n
    case SPCSO1 => QUALITY_VALIDITY_GOOD + QUALITY_SOURCE_SUBSTITUTED
    case SPCSO2 => QUALITY_VALIDITY_QUESTIONABLE + QUALITY_DETAIL_OSCILLATORY
    case SPCSO3 => QUALITY_VALIDITY_GOOD
  }

  /** updateLED1stVal, updateLED2stVal and updateLED3stVal. */
  function UpdatedStVal(s: Server, n: Single, value: bool, time: nat): Server {
    s.(leds := s.leds.Set(n, Switched(s.leds.Get(n), BoolToInt(value))),
       status := s.status.Set(n, Status(value, QualityOf(n), time)))
  }

  /** The double point command up to its sleep. */
  function DpcBegun(s: Server, time: nat): Server {
    s.(dpcState := DPC_STATE_INTERMEDIATE, dpStVal := DPC_STATE_INTERMEDIATE, dpT := time, led4 := Flashed(s.led4))
  }

  function DpcTarget(value: bool): nat { if value then DPC_STATE_ON else DPC_STATE_OFF }

  /** The double point command after its sleep. */
  function DpcEnded(s: Server, value: bool, time: nat): Server {
    s.(led4 := Switched(s.led4, BoolToInt(value)),
       dpcState := DpcTarget(value), dpStVal := DpcTarget(value), dpT := time)
  }

  /** controlHandlerForBinaryOutput up to its sleep or its end, and the slot the control object is left in. */
  function Handled(s: Server, p: Point, op: Operation, now: nat): Server {
    if !op.Effective() then s.WithSlot(p, Ready)
    else match p
      case SP(n) => UpdatedStVal(s, n, op.value.b, now).WithSlot(p, Ready)
      case DPCSO1 => DpcBegun(s, now).WithSlot(p, Sleeping(op, now))
  }

  /** The clock sample `now` makes the main loop toggle the LEDs. */
  predicate Toggles(s: Server, now: nat) { s.automatic && s.nextToggle <= now }

  /** One pass of the main loop. */
  function Ticked(s: Server, now: nat): Server {
    if Toggles(s, now) then
      var v := !s.ledStateValue;
      var s' := s.(nextToggle := now + 1000, ledStateValue := v);
      UpdatedStVal(UpdatedStVal(UpdatedStVal(s', SPCSO1, v, now), SPCSO2, v, now), SPCSO3, v, now)
    else s
  }

  // ---------- the transition system ----------

  datatype Event =
    | Connect(client: Client)
    | Close(client: Client)      // the indication that the connection has gone
    | Forget(client: Client)     // the library drops the closed connection, its control threads being finished
    | Oper(client: Client, p: Point, value: CtlVal, test: bool)
    | Execute(p: Point, now: nat) // the control thread of the accepted operation runs the handler
    | Finish                      // the double point handler goes on after its sleep
    | Tick(now: nat)

  /** An operate request reaches the check handler only if its control object is ready. */
  predicate ReachesCheck(s: Server, e: Event) {
    e.Oper? && e.client in s.open && s.SlotOf(e.p) == Ready
  }

  predicate Accepts(s: Server, e: Event) {
    ReachesCheck(s, e) && Checked(s, e.client).1 == ControlAccepted
  }

  function Step(s: Server, e: Event): Server {
    match e
    case Connect(c) =>
      if c in s.open || c in s.closing then s else s.(open := s.open + {c})
    case Close(c) =>
      if c in s.open then Released(s, c).(open := s.open - {c}, closing := s.closing + {c}) else s
    case Forget(c) =>
      if c in s.closing && !s.HasTask(c) then s.(closing := s.closing - {c}) else s
    case Oper(c, p, v, test) =>
      if !ReachesCheck(s, e) then s
      else
        var (s', r) := Checked(s, c);
        if r == ControlAccepted then s'.WithSlot(p, Accepted(Operation(c, v, test))) else s'
    case Execute(p, now) =>
      if s.SlotOf(p).Accepted? then Handled(s, p, s.SlotOf(p).op, now) else s
    case Finish =>
      if s.dpSlot.Sleeping? && s.dpSlot.op.value.Boolean? then
        DpcEnded(s, s.dpSlot.op.value.b, s.dpSlot.time).WithSlot(DPCSO1, Ready)
      else s
    case Tick(now) => Ticked(s, now)
  }

  function Run(s: Server, es: seq<Event>): Server {
    if es == [] then s else Step(Run(s, es[..|es| - 1]), es[|es| - 1])
  }

  /** The server when it starts to listen, at time `start`: all LEDs switched off once, DPCSO1 set to off. */
  function Initial(start: nat): Server {
    var off := Switched(Led(Steady, 0, 0, 0), 0);
    var unset := Status(false, 0, 0);
    Server({}, {}, true, None, 0, Trio(Ready, Ready, Ready), Ready, Trio(off, off, off), off,
           Trio(unset, unset, unset), DPC_STATE_OFF, 0, false, start + 1000)
  }

  lemma RunAppend(s: Server, es: seq<Event>, e: Event)
    ensures Run(s, es + [e]) == Step(Run(s, es), e)
  {
    assert (es + [e])[..|es|] == es;
  }

  lemma {:induction false} RunConcat(s: Server, es: seq<Event>, fs: seq<Event>)
    ensures Run(s, es + fs) == Run(Run(s, es), fs)
  {
    if fs == [] {
      assert es + fs == es;
    } else {
      var init := fs[..|fs| - 1];
      RunConcat(s, es, init);
      assert (es + fs)[..|es + fs| - 1] == es + init;
    }
  }
}
