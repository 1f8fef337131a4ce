/**
 * The gate controller of TCC.py: the body of the `while True` loop in
 * `capturar_e_ler_ao_vivo` with the camera, the window and the OCR engine
 * taken out.
 *
 * The loop keeps four variables: `porta_aberta`, `portao_fechando`,
 * `tempo_abertura` and `tempo_fechamento`. Each pass reads the clock; an
 * open gate starts closing after 10 seconds, a closing gate counts as closed
 * after 3 more, and only a gate that is neither open nor closing looks for a
 * plate. A plate of at least 7 characters on the authorised list opens the
 * gate, after a 3-second pause.
 */
module Gate {
  import opened PlateText

  datatype Option<T> = None | Some(value: T)

  /** `placas_autorizadas`. */
  const AuthorizedPlates: seq<string> := ["ABC1234", "XYZ9876", "JKS4567", "DMW6B16"]

  /** Seconds an open gate stays open before it starts closing. */
  const OpenSeconds: real := 10.0

  /** Seconds a closing gate takes before it counts as closed. */
  const ClosingSeconds: real := 3.0

  /** Seconds the loop sleeps between authorising a plate and opening. */
  const ConfirmSeconds: real := 3.0

  /** Shortest text that is checked against the list. */
  const MinPlateLength: nat := 7

  /** The four variables of the loop, as a value. */
  datatype GateState = GateState(doorOpen: bool, closing: bool, openedAt: real, closingAt: real)
  {
    /** Open and closing are never both set. */
    predicate Exclusive() {
      !(doorOpen && closing)
    }

    /** Neither open nor closing: the loop looks for plates. */
    predicate Idle() {
      !doorOpen && !closing
    }
  }

  /** The values the loop starts with (lines 72-77). */
  const Initial: GateState := GateState(false, false, 0.0, 0.0)

  /**
   * What one pass of the loop takes from outside: the clock reading at the
   * top of the pass (line 88), the reading taken when the gate starts closing
   * (line 99), the reading taken after the 3-second sleep (line 221), and the
   * raw OCR text of the box the detector found, `None` when it found none.
   */
  datatype Tick = Tick(now: real, closeClock: real, openClock: real, ocrText: Option<string>)
  {
    /** The clock does not run backwards within a pass, and the sleep lasts
        at least its 3 seconds. */
    predicate WellTimed() {
      closeClock >= now && openClock >= now + ConfirmSeconds
    }
  }

  /** Which branch of the loop a pass ended in, i.e. what it shows on screen. */
  datatype Outcome =
    | HeldOpen      // "PORTAO ABERTO - AGUARDE"
    | HeldClosing   // "PORTAO FECHANDO..."
    | NoPlate       // "AGUARDANDO PLACA...", the detector found no box
    | TooShort      // text read, shorter than 7 characters
    | Authorized    // "PLACA AUTORIZADA", the gate opens
    | Denied        // "ACESSO NEGADO"
  {
    /** The pass reached plate detection (line 168). */
    predicate Scanned() {
      !HeldOpen? && !HeldClosing?
    }
  }

  datatype StepResult = StepResult(state: GateState, outcome: Outcome)

  /**
   * Lines 168-232: plate detection, reached only with the gate idle. A text of
   * 7 or more characters on the list opens the gate with the time read after
   * the pause; anything else leaves the state as it is.
   */
  function Decide(g: GateState, t: Tick): (r: StepResult)
    requires g.Idle()
    ensures r.outcome.Scanned() && r.state.Exclusive()
    ensures r.state.doorOpen <==> r.outcome == Authorized
    ensures r.outcome != Authorized ==> r.state == g
    ensures r.outcome == Authorized ==>
              t.ocrText.Some? && |Normalize(t.ocrText.value)| >= MinPlateLength
              && Normalize(t.ocrText.value) in AuthorizedPlates
              && r.state.openedAt == t.openClock
    ensures (t.ocrText.Some? && |Normalize(t.ocrText.value)| >= MinPlateLength
             && Normalize(t.ocrText.value) in AuthorizedPlates) ==> r.outcome == Authorized
    ensures r.outcome == Authorized ==> r.state == g.(doorOpen := true, openedAt := t.openClock)
  {
    match t.ocrText
    case None => StepResult(g, NoPlate)
    case Some(raw) =>
      var plate := Normalize(raw);
      if |plate| < MinPlateLength then StepResult(g, TooShort)
      else if plate in AuthorizedPlates then StepResult(g.(doorOpen := true, openedAt := t.openClock), Authorized)
      else StepResult(g, Denied)
  }

  /**
   * One pass of the loop. The open check and the closing check fall through
   * into each other and into detection within the same pass.
   */
  function Transition(g: GateState, t: Tick): (r: StepResult)
    ensures g.Exclusive() ==> r.state.Exclusive()
    ensures r.outcome.Scanned() ==> !r.state.closing
    ensures g.doorOpen && t.now - g.openedAt < OpenSeconds <==> r.outcome == HeldOpen
  {
    if g.doorOpen && t.now - g.openedAt < OpenSeconds then StepResult(g, HeldOpen)
    else
      var g' := if g.doorOpen then g.(doorOpen := false, closing := true, closingAt := t.closeClock) else g;
      if g'.closing && t.now - g'.closingAt < ClosingSeconds then StepResult(g', HeldClosing)
      else Decide(g'.(closing := false), t)
  }

  /** The state and the outcomes after a run of passes. */
  datatype Trace = Trace(state: GateState, outcomes: seq<Outcome>)

  /** The passes of `ticks`, in order, from `g`. */
  function RunTicks(g: GateState, ticks: seq<Tick>): (r: Trace)
    ensures |r.outcomes| == |ticks|
  {
    if ticks == [] then Trace(g, [])
    else
      var before := RunTicks(g, ticks[..|ticks| - 1]);
      var last := Transition(before.state, ticks[|ticks| - 1]);
      Trace(last.state, before.outcomes + [last.outcome])
  }

  /** The loop variables of `capturar_e_ler_ao_vivo`. */
  class GateController {
    var doorOpen: bool   // porta_aberta
    var closing: bool    // portao_fechando
    var openedAt: real   // tempo_abertura
    var closingAt: real  // tempo_fechamento

    function State(): GateState
      reads this
    {
      GateState(doorOpen, closing, openedAt, closingAt)
    }

    ghost predicate Valid()
      reads this
    {
      State().Exclusive()
    }

    constructor ()
      ensures Valid() && State() == Initial
    {
      doorOpen, closing := false, false;
      openedAt, closingAt := 0.0, 0.0;
    }

    /** One pass of the `while True` loop (lines 80-238), without the I/O. */
    method Step(t: Tick) returns (outcome: Outcome)
      requires Valid()
      modifies this
      ensures Valid()
      ensures StepResult(State(), outcome) == Transition(old(State()), t)
    {
      if doorOpen {
        if t.now - openedAt >= OpenSeconds {
          doorOpen := false;
          closing := true;
          closingAt := t.closeClock;
        } else {
          return HeldOpen;
        }
      }
      if closing {
        if t.now - closingAt >= ClosingSeconds {
          closing := false;
        } else {
          return HeldClosing;
        }
      }
      match t.ocrText {
        case None =>
          outcome := NoPlate;
        case Some(raw) =>
          var plate := Normalize(raw);
          if |plate| >= MinPlateLength {
            if plate in AuthorizedPlates {
              doorOpen := true;
              openedAt := t.openClock;
              outcome := Authorized;
            } else {
              outcome := Denied;
            }
          } else {
            outcome := TooShort;
          }
      }
    }

    /** The loop itself, over the passes of `ticks`, until the program stops. */
    method Run(ticks: seq<Tick>) returns (outcomes: seq<Outcome>)
      requires Valid()
      modifies this
      ensures Valid()
      ensures RunTicks(old(State()), ticks) == Trace(State(), outcomes)
    {
      outcomes := [];
      var i := 0;
      while i < |ticks|
        invariant 0 <= i <= |ticks|
        invariant Valid()
        invariant RunTicks(old(State()), ticks[..i]) == Trace(State(), outcomes)
      {
        var outcome := Step(ticks[i]);
        assert ticks[..i + 1][..i] == ticks[..i];
        outcomes := outcomes + [outcome];
        i := i + 1;
      }
      assert ticks[..i] == ticks;
    }
  }

  // ---------------------------------------------------------------------
  // One pass
  // ---------------------------------------------------------------------

  /** Open, less than 10 seconds: nothing changes and no plate is read. */
  lemma OpenWaits(g: GateState, t: Tick)
    requires g.doorOpen && t.now - g.openedAt < OpenSeconds
    ensures Transition(g, t) == StepResult(g, HeldOpen)
  {
  }

  /**
   * Open, 10 seconds or more: the gate starts closing, stamped with the
   * clock read at that moment; that stamp is not earlier than the pass's own
   * reading, so the same pass stays closing and reads no plate.
   */
  lemma OpenStartsClosing(g: GateState, t: Tick)
    requires g.Exclusive() && g.doorOpen && t.now - g.openedAt >= OpenSeconds
    requires t.WellTimed()
    ensures Transition(g, t) == StepResult(GateState(false, true, g.openedAt, t.closeClock), HeldClosing)
  {
  }

  /** Closing, less than 3 seconds: nothing changes and no plate is read. */
  lemma ClosingWaits(g: GateState, t: Tick)
    requires g.Exclusive() && g.closing && t.now - g.closingAt < ClosingSeconds
    ensures Transition(g, t) == StepResult(g, HeldClosing)
  {
  }

  /** Closing, 3 seconds or more: the gate is idle and the same pass goes on to detection. */
  lemma ClosingEnds(g: GateState, t: Tick)
    requires g.Exclusive() && g.closing && t.now - g.closingAt >= ClosingSeconds
    ensures Transition(g, t) == Decide(g.(closing := false), t)
    ensures Transition(g, t).outcome.Scanned()
  {
  }

  /** Idle, an authorised plate of 7 or more characters: the gate opens, stamped
      with a clock reading at least 3 seconds after the pass began. */
  lemma IdleAuthorized(g: GateState, t: Tick, raw: string)
    requires g.Idle() && t.ocrText == Some(raw)
    requires |Normalize(raw)| >= MinPlateLength && Normalize(raw) in AuthorizedPlates
    ensures Transition(g, t) == StepResult(g.(doorOpen := true, openedAt := t.openClock), Authorized)
    ensures t.WellTimed() ==> Transition(g, t).state.openedAt >= t.now + ConfirmSeconds
  {
  }

  /** Idle, a text shorter than 7 characters: nothing changes, listed or not. */
  lemma IdleShortTextIgnored(g: GateState, t: Tick, raw: string)
    requires g.Idle() && t.ocrText == Some(raw)
    requires |Normalize(raw)| < MinPlateLength
    ensures Transition(g, t) == StepResult(g, TooShort)
  {
  }

  /** Idle, an unlisted plate of 7 or more characters: nothing changes. */
  lemma IdleDenied(g: GateState, t: Tick, raw: string)
    requires g.Idle() && t.ocrText == Some(raw)
    requires |Normalize(raw)| >= MinPlateLength && Normalize(raw) !in AuthorizedPlates
    ensures Transition(g, t) == StepResult(g, Denied)
  {
  }

  /** Idle, no box found: nothing changes. */
  lemma IdleNoPlate(g: GateState, t: Tick)
    requires g.Idle() && t.ocrText == None
    ensures Transition(g, t) == StepResult(g, NoPlate)
  {
  }

  // ---------------------------------------------------------------------
  // Runs of passes
  // ---------------------------------------------------------------------

  /** Open and closing are never both set, from the initial state on. */
  lemma {:induction false} RunKeepsExclusive(g: GateState, ticks: seq<Tick>)
    requires g.Exclusive()
    ensures RunTicks(g, ticks).state.Exclusive()
  {
    if ticks != [] {
      RunKeepsExclusive(g, ticks[..|ticks| - 1]);
    }
  }

  /**
   * While every pass comes less than 10 seconds after opening, the gate stays
   * open and nothing is read: no second authorisation can happen.
   */
  lemma {:induction false} OpenHoldsUntilDeadline(g: GateState, ticks: seq<Tick>)
    requires g.doorOpen
    requires forall i :: 0 <= i < |ticks| ==> ticks[i].now - g.openedAt < OpenSeconds
    ensures RunTicks(g, ticks).state == g
    ensures forall i :: 0 <= i < |ticks| ==> RunTicks(g, ticks).outcomes[i] == HeldOpen
  {
    if ticks != [] {
      var prefix := ticks[..|ticks| - 1];
      assert forall i :: 0 <= i < |prefix| ==> prefix[i] == ticks[i];
      OpenHoldsUntilDeadline(g, prefix);
    }
  }

  /** Running two stretches of passes one after the other is running them together. */
  lemma {:induction false} RunAppend(g: GateState, xs: seq<Tick>, ys: seq<Tick>)
    ensures var first := RunTicks(g, xs);
            var second := RunTicks(first.state, ys);
            RunTicks(g, xs + ys) == Trace(second.state, first.outcomes + second.outcomes)
  {
    if ys == [] {
      assert xs + ys == xs;
    } else {
      var init := ys[..|ys| - 1];
      var y := ys[|ys| - 1];
      assert ys == init + [y];
      assert xs + ys == (xs + init) + [y];
      RunAppend(g, xs, init);
      var first := RunTicks(g, xs);
      RunSnoc(g, xs + init, y);
      RunSnoc(first.state, init, y);
      var middle := RunTicks(first.state, init);
      var last := Transition(middle.state, y);
      assert (first.outcomes + middle.outcomes) + [last.outcome] == first.outcomes + (middle.outcomes + [last.outcome]);
    }
  }

  /** One more pass at the end of a run. */
  lemma RunSnoc(g: GateState, ticks: seq<Tick>, t: Tick)
    ensures var before := RunTicks(g, ticks);
            var last := Transition(before.state, t);
            RunTicks(g, ticks + [t]) == Trace(last.state, before.outcomes + [last.outcome])
  {
    assert (ticks + [t])[..|ticks|] == ticks;
  }

  /**
   * A full cycle: an idle gate authorises a plate, stays open until 10 seconds
   * after the opening stamp, starts closing, and is idle and reading plates
   * again once 3 seconds have passed since the closing stamp.
   */
  lemma GateCycle(g: GateState, a: Tick, waits: seq<Tick>, b: Tick, c: Tick)
    requires g.Idle() && a.ocrText.Some?
    requires |Normalize(a.ocrText.value)| >= MinPlateLength && Normalize(a.ocrText.value) in AuthorizedPlates
    requires forall i :: 0 <= i < |waits| ==> waits[i].now - a.openClock < OpenSeconds
    requires b.now - a.openClock >= OpenSeconds && b.WellTimed()
    requires c.now - b.closeClock >= ClosingSeconds
    ensures var run := RunTicks(g, [a] + waits + [b, c]);
            && run.outcomes[0] == Authorized
            && (forall i :: 1 <= i <= |waits| ==> run.outcomes[i] == HeldOpen)
            && run.outcomes[|waits| + 1] == HeldClosing
            && run.outcomes[|waits| + 2].Scanned()
            && run.state == Transition(GateState(false, false, a.openClock, b.closeClock), c).state
  {
    var closingState := GateState(false, true, a.openClock, b.closeClock);
    var last := Transition(closingState, c);
    var held := CycleTrace(g, a, waits, b, c);
    ClosingEnds(closingState, c);
    var run := RunTicks(g, [a] + waits + [b, c]);
    assert run.outcomes[|waits| + 2] == last.outcome;
    assert forall i :: 1 <= i <= |waits| ==> run.outcomes[i] == held[i - 1];
  }

  /** The trace of a full cycle, pass by pass, with the waiting passes held open. */
  lemma CycleTrace(g: GateState, a: Tick, waits: seq<Tick>, b: Tick, c: Tick) returns (held: seq<Outcome>)
    requires g.Idle() && a.ocrText.Some?
    requires |Normalize(a.ocrText.value)| >= MinPlateLength && Normalize(a.ocrText.value) in AuthorizedPlates
    requires forall i :: 0 <= i < |waits| ==> waits[i].now - a.openClock < OpenSeconds
    requires b.now - a.openClock >= OpenSeconds && b.WellTimed()
    ensures |held| == |waits| && forall i :: 0 <= i < |held| ==> held[i] == HeldOpen
    ensures var last := Transition(GateState(false, true, a.openClock, b.closeClock), c);
            RunTicks(g, [a] + waits + [b, c]) == Trace(last.state, [Authorized] + held + [HeldClosing, last.outcome])
  {
    var openState := g.(doorOpen := true, openedAt := a.openClock);
    IdleAuthorized(g, a, a.ocrText.value);
    RunOne(g, a);
    OpenHoldsUntilDeadline(openState, waits);
    held := RunTicks(openState, waits).outcomes;
    RunAppend(g, [a], waits);
    OpenStartsClosing(openState, b);
    RunTwo(openState, b, c);
    RunAppend(g, [a] + waits, [b, c]);
  }

  /** A run of one pass. */
  lemma RunOne(g: GateState, t: Tick)
    ensures RunTicks(g, [t]) == Trace(Transition(g, t).state, [Transition(g, t).outcome])
  {
    assert [t][..0] == [];
  }

  /** A run of two passes. */
  lemma RunTwo(g: GateState, t: Tick, u: Tick)
    ensures var first := Transition(g, t);
            var second := Transition(first.state, u);
            RunTicks(g, [t, u]) == Trace(second.state, [first.outcome, second.outcome])
  {
    assert [t, u][..1] == [t];
    RunOne(g, t);
  }

  // ---------------------------------------------------------------------
  // Worked examples
  // ---------------------------------------------------------------------

  /** "ABC1234" on the list opens an idle gate. */
  lemma AuthorizedExample(t: Tick)
    requires t.ocrText == Some("ABC1234")
    ensures Transition(Initial, t) == StepResult(Initial.(doorOpen := true, openedAt := t.openClock), Authorized)
  {
    var raw := "ABC1234";
    forall i | 0 <= i < |raw| ensures !IsSpace(raw[i]) {
    }
    NormalizeLeavesCleanText(raw);
    assert raw == AuthorizedPlates[0];
    IdleAuthorized(Initial, t, raw);
  }

  /** "AB123" is too short to be checked. */
  lemma ShortTextExample(t: Tick)
    requires t.ocrText == Some("AB123")
    ensures Transition(Initial, t) == StepResult(Initial, TooShort)
  {
    var raw := "AB123";
    forall i | 0 <= i < |raw| ensures !IsSpace(raw[i]) {
    }
    NormalizeLeavesCleanText(raw);
    IdleShortTextIgnored(Initial, t, raw);
  }

  /** Opened at 0, a pass at 10 starts closing, stamped 10. */
  lemma ClosingExample(t: Tick)
    requires t.now == 10.0 && t.closeClock == 10.0
    ensures Transition(GateState(true, false, 0.0, 0.0), t).state == GateState(false, true, 0.0, 10.0)
  {
  }
}
