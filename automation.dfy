/**
  * Keyboard and mouse automation (`Automation`) and the action-sequence dispatcher.
  *
  * Every input primitive the code issues (a `pyautogui`/`pynput` call, or the sleep of a
  * `wait` action) is recorded as a `Call` event in the object's trace, and every pause
  * between steps as a `Pause` event. Whether a primitive raises is decided by the
  * environment `fails`, which may depend on everything issued before (this covers the
  * pyautogui fail-safe, which raises once the pointer has been moved to a screen corner).
  * Action dicts are untyped decoded values; nothing in the dispatcher validates them.
  */
module InputAutomation {
  import opened Common
  import opened Json

  /** One call into the input layer, with the arguments it receives. */
  datatype Primitive =
    | Write(text: Json, interval: Json)                      // pyautogui.write
    | Press(key: Json)                                       // pyautogui.press
    | Combo(keys: seq<Json>)                                 // pyautogui.hotkey(*keys)
    | ClickAt(x: Json, y: Json, clicks: int, button: Json)   // pyautogui.click(x, y, ...)
    | ClickHere(clicks: int, button: Json)                   // pyautogui.click(...) at the pointer
    | MoveTo(x: Json, y: Json, duration: Json)               // pyautogui.moveTo
    | MoveRel(dx: Json, dy: Json, duration: Json)            // pyautogui.moveRel
    | Drag(dx: Json, dy: Json, duration: Json, button: Json) // pyautogui.drag
    | ScrollAt(amount: Json, x: Json, y: Json)               // pyautogui.scroll(amount, x, y)
    | ScrollHere(amount: Json)                               // pyautogui.scroll(amount)
    | Sleep(seconds: Json)                                   // the sleep of a `wait` action
    | TypeChar(c: char)                                      // pynput keyboard.type(char)

  datatype Event = Call(p: Primitive) | Pause(seconds: real)

  /** The pause after every action of a sequence, and after every Tab press. */
  const SettleSeconds: real := 0.1

  /** The environment: does primitive `p` raise, given the trace issued so far? */
  type Failures = (seq<Event>, Primitive) -> bool

  /** `click(x, y, button, clicks)`: positions the pointer only when both coordinates are given. */
  function ClickCall(x: Json, y: Json, button: Json, clicks: int): (p: Primitive)
    ensures p.ClickAt? <==> x != JNull && y != JNull
    ensures p.ClickAt? ==> p == ClickAt(x, y, clicks, button)
    ensures p.ClickHere? ==> p == ClickHere(clicks, button)
  {
    if x != JNull && y != JNull then ClickAt(x, y, clicks, button) else ClickHere(clicks, button)
  }

  /** `scroll(amount, x, y)`: scrolls at a position only when both coordinates are given. */
  function ScrollCall(amount: Json, x: Json, y: Json): (p: Primitive)
    ensures p.ScrollAt? <==> x != JNull && y != JNull
    ensures p.ScrollAt? ==> p == ScrollAt(amount, x, y)
    ensures p.ScrollHere? ==> p == ScrollHere(amount)
  {
    if x != JNull && y != JNull then ScrollAt(amount, x, y) else ScrollHere(amount)
  }

  // ----- the dispatcher, as a specification -----

  /** What the dispatcher does with one action: issue one primitive, skip it, or raise. */
  datatype Step = Issue(p: Primitive) | Skip | Raise(error: PyError)

  /** The action types the dispatcher recognises. */
  predicate Recognised(kind: Json) {
    kind in [JString("type"), JString("press"), JString("hotkey"), JString("click"),
             JString("move"), JString("wait"), JString("scroll")]
  }

  /**
    * One iteration of `execute_action_sequence`, with the per-field defaults it applies:
    * only a value that is not a dict raises AttributeError, and only a `hotkey` whose
    * keys cannot be unpacked raises anything else.
    */
  function Dispatch(action: Json): (s: Step)
    ensures s == Raise(AttributeError) <==> !action.JObject?
    ensures s.Raise? ==> s == Raise(AttributeError) || s == Raise(TypeError)
  {
    if !action.JObject? then Raise(AttributeError)
    else
      var kind := Get(action, "type", JNull);
      if kind == JString("type") then
        Issue(Write(Get(action, "text", JString("")), Get(action, "interval", JNumber(0.05))))
      else if kind == JString("press") then
        Issue(Press(Get(action, "key", JString("enter"))))
      else if kind == JString("hotkey") then
        match StarArgs(Get(action, "keys", JArray([])))
        case None => Raise(TypeError)
        case Some(keys) => Issue(Combo(keys))
      else if kind == JString("click") then
        Issue(ClickCall(Get(action, "x", JNull), Get(action, "y", JNull),
                        Get(action, "button", JString("left")), 1))
      else if kind == JString("move") then
        Issue(MoveTo(Get(action, "x", JNull), Get(action, "y", JNull),
                     Get(action, "duration", JNumber(0.5))))
      else if kind == JString("wait") then
        Issue(Sleep(Get(action, "seconds", JNumber(1.0))))
      else if kind == JString("scroll") then
        Issue(ScrollCall(Get(action, "amount", JNumber(0.0)), JNull, JNull))
      else
        Skip
  }

  /** A dict action raises only for a `hotkey` whose keys cannot be unpacked; an unknown type is skipped. */
  lemma DispatchOutcomes(action: Json)
    requires action.JObject?
    ensures Dispatch(action).Skip? <==> !Recognised(Get(action, "type", JNull))
    ensures Dispatch(action).Raise? <==>
              Get(action, "type", JNull) == JString("hotkey")
              && StarArgs(Get(action, "keys", JArray([]))).None?
  {
  }

  /** Each recognised type with a field left out uses that field's default. */
  lemma DispatchDefaults(action: Json)
    requires action.JObject?
    ensures var kind := Get(action, "type", JNull);
            && (kind == JString("type") && !Has(action, "text") ==>
                  Dispatch(action).Issue? && Dispatch(action).p.Write? && Dispatch(action).p.text == JString(""))
            && (kind == JString("type") && !Has(action, "interval") ==>
                  Dispatch(action).Issue? && Dispatch(action).p.Write?
                  && Dispatch(action).p.interval == JNumber(0.05))
            && (kind == JString("press") && !Has(action, "key") ==>
                  Dispatch(action) == Issue(Press(JString("enter"))))
            && (kind == JString("hotkey") && !Has(action, "keys") ==>
                  Dispatch(action) == Issue(Combo([])))
            && (kind == JString("click") && !Has(action, "button") ==>
                  Dispatch(action).Issue? && Dispatch(action).p.button == JString("left"))
            && (kind == JString("click") && !Has(action, "x") ==>
                  Dispatch(action).Issue? && Dispatch(action).p.ClickHere?)
            && (kind == JString("move") && !Has(action, "x") && !Has(action, "y") ==>
                  Dispatch(action).Issue? && Dispatch(action).p.MoveTo?
                  && Dispatch(action).p.x == JNull && Dispatch(action).p.y == JNull)
            && (kind == JString("move") && !Has(action, "duration") ==>
                  Dispatch(action).Issue? && Dispatch(action).p.MoveTo?
                  && Dispatch(action).p.duration == JNumber(0.5))
            && (kind == JString("wait") && !Has(action, "seconds") ==>
                  Dispatch(action) == Issue(Sleep(JNumber(1.0))))
            && (kind == JString("scroll") && !Has(action, "amount") ==>
                  Dispatch(action) == Issue(ScrollHere(JNumber(0.0))))
  {
  }

  /** A `scroll` action always scrolls at the pointer, whatever `x` and `y` it carries. */
  lemma ScrollIgnoresPosition(action: Json)
    requires action.JObject? && Get(action, "type", JNull) == JString("scroll")
    ensures Dispatch(action) == Issue(ScrollHere(Get(action, "amount", JNumber(0.0))))
  {
  }

  /** A `click` action is a single click, positioned only when both `x` and `y` are non-null. */
  lemma ClickIsSingle(action: Json)
    requires action.JObject? && Get(action, "type", JNull) == JString("click")
    ensures Dispatch(action).Issue?
    ensures var p := Dispatch(action).p;
            (p.ClickAt? || p.ClickHere?) && p.clicks == 1
            && (p.ClickAt? <==> Get(action, "x", JNull) != JNull && Get(action, "y", JNull) != JNull)
  {
  }

  /**
    * The dispatch of every action of a list, position by position. It is built by
    * appending the last action's dispatch to the steps of the prefix, rather than as a
    * `seq` comprehension: the comprehension's lambda makes the solver's work on
    * `ExecuteActionSequence` and `IssuedAreRecognised` markedly more expensive.
    */
  function Steps(actions: seq<Json>): (steps: seq<Step>)
    ensures |steps| == |actions|
    ensures forall i {:trigger Dispatch(actions[i])} | 0 <= i < |actions| :: steps[i] == Dispatch(actions[i])
  {
    if actions == [] then []
    else
      var n := |actions| - 1;
      var prefix := Steps(actions[..n]);
      assert forall i | 0 <= i < n :: actions[..n][i] == actions[i];
      prefix + [Dispatch(actions[n])]
  }

  // ----- loops over steps: the sequence dispatcher, press_tab and type_text_slow -----

  /** What attempting one step adds to the trace before its pause, and what it raises. */
  datatype Effect = Effect(events: seq<Event>, error: Option<PyError>)

  function Attempt(step: Step, fails: Failures, history: seq<Event>): (e: Effect)
    ensures step.Issue? ==> e.events == [Call(step.p)]
    ensures !step.Issue? ==> e.events == []
    ensures e.error.Some? <==> step.Raise? || (step.Issue? && fails(history, step.p))
  {
    match step
    case Raise(err) => Effect([], Some(err))
    case Skip => Effect([], None)
    case Issue(p) => Effect([Call(p)], if fails(history, p) then Some(InputFailed) else None)
  }

  datatype Status = Completed | Aborted(at: nat, error: PyError)

  datatype Run = Run(events: seq<Event>, status: Status)

  /**
    * The first `n` iterations of a loop over `steps` started on trace `start`: each step
    * is attempted and followed by a pause of `seconds`; nothing is caught, so the first
    * step that raises ends the loop.
    */
  function RunSteps(steps: seq<Step>, n: nat, seconds: real, fails: Failures, start: seq<Event>): Run
    requires n <= |steps|
  {
    if n == 0 then Run([], Completed)
    else
      var prev := RunSteps(steps, n - 1, seconds, fails, start);
      if prev.status.Aborted? then prev
      else
        var e := Attempt(steps[n - 1], fails, start + prev.events);
        if e.error.Some? then Run(prev.events + e.events, Aborted(n - 1, e.error.value))
        else Run(prev.events + e.events + [Pause(seconds)], Completed)
  }

  /** The events one step contributes to a loop that goes on past it. */
  function Block(step: Step, seconds: real): (b: seq<Event>)
    ensures !step.Raise? ==> |b| > 0 && b[|b| - 1] == Pause(seconds)
  {
    match step
    case Issue(p) => [Call(p), Pause(seconds)]
    case Skip => [Pause(seconds)]
    case Raise(_) => []
  }

  /** The events of the first `n` steps of a loop in which nothing raises, in list order. */
  function Blocks(steps: seq<Step>, n: nat, seconds: real): seq<Event>
    requires n <= |steps|
  {
    if n == 0 then [] else Blocks(steps, n - 1, seconds) + Block(steps[n - 1], seconds)
  }

  /** A loop whose first `n` iterations complete went through iteration `n - 1` without raising. */
  lemma CompletedStep(steps: seq<Step>, n: nat, seconds: real, fails: Failures, start: seq<Event>)
    requires 0 < n <= |steps| && RunSteps(steps, n, seconds, fails, start).status == Completed
    ensures RunSteps(steps, n - 1, seconds, fails, start).status == Completed
    ensures !steps[n - 1].Raise?
    ensures RunSteps(steps, n, seconds, fails, start).events
            == RunSteps(steps, n - 1, seconds, fails, start).events + Block(steps[n - 1], seconds)
  {
    var prev := RunSteps(steps, n - 1, seconds, fails, start);
    var e := Attempt(steps[n - 1], fails, start + prev.events);
    assert e.events + [Pause(seconds)] == Block(steps[n - 1], seconds);
  }

  /**
    * A loop that completes visits every step once, in list order: its events are the
    * blocks of the steps, concatenated, and none of the steps raised.
    */
  lemma {:induction false} CompletedRunIsBlocks(steps: seq<Step>, n: nat, seconds: real,
                                                fails: Failures, start: seq<Event>)
    requires n <= |steps| && RunSteps(steps, n, seconds, fails, start).status == Completed
    ensures RunSteps(steps, n, seconds, fails, start).events == Blocks(steps, n, seconds)
    ensures forall i | 0 <= i < n :: !steps[i].Raise?
  {
    if n > 0 {
      CompletedStep(steps, n, seconds, fails, start);
      CompletedRunIsBlocks(steps, n - 1, seconds, fails, start);
    }
  }

  /** One more iteration after `n` completed ones: the attempt's events, then a pause unless it raised. */
  lemma NextStep(steps: seq<Step>, n: nat, seconds: real, fails: Failures, start: seq<Event>)
    requires n < |steps| && RunSteps(steps, n, seconds, fails, start).status == Completed
    ensures var prev := RunSteps(steps, n, seconds, fails, start);
            var e := Attempt(steps[n], fails, start + prev.events);
            var next := RunSteps(steps, n + 1, seconds, fails, start);
            && (e.error.None? ==> next.status == Completed
                                  && start + next.events == start + prev.events + e.events + [Pause(seconds)])
            && (e.error.Some? ==> next.status == Aborted(n, e.error.value)
                                  && start + next.events == start + prev.events + e.events)
  {
    var prev := RunSteps(steps, n, seconds, fails, start);
    var e := Attempt(steps[n], fails, start + prev.events);
    assert start + (prev.events + e.events) == start + prev.events + e.events;
    assert start + (prev.events + e.events + [Pause(seconds)]) == start + prev.events + e.events + [Pause(seconds)];
  }

  /** Once the loop has aborted within its first `j` steps, the later steps are never looked at. */
  lemma {:induction false} AbortIsFinal(steps: seq<Step>, j: nat, n: nat, seconds: real,
                                        fails: Failures, start: seq<Event>)
    requires j <= n <= |steps|
    requires RunSteps(steps, j, seconds, fails, start).status.Aborted?
    ensures RunSteps(steps, n, seconds, fails, start) == RunSteps(steps, j, seconds, fails, start)
  {
    if j < n {
      AbortIsFinal(steps, j, n - 1, seconds, fails, start);
    }
  }

  /**
    * An aborted loop stops at step `k`: every step before `k` ran to completion, the
    * events are theirs plus, when a primitive raised, that primitive's call, and no later
    * step is attempted.
    */
  lemma {:induction false} AbortedRunStops(steps: seq<Step>, n: nat, seconds: real,
                                           fails: Failures, start: seq<Event>)
    requires n <= |steps| && RunSteps(steps, n, seconds, fails, start).status.Aborted?
    ensures var r := RunSteps(steps, n, seconds, fails, start);
            var k := r.status.at;
            && k < n
            && RunSteps(steps, k, seconds, fails, start).status == Completed
            && r == RunSteps(steps, k + 1, seconds, fails, start)
            && (steps[k].Issue? ==>
                  r.status.error == InputFailed
                  && fails(start + Blocks(steps, k, seconds), steps[k].p)
                  && r.events == Blocks(steps, k, seconds) + [Call(steps[k].p)])
            && (!steps[k].Issue? ==>
                  steps[k] == Raise(r.status.error) && r.events == Blocks(steps, k, seconds))
  {
    var prev := RunSteps(steps, n - 1, seconds, fails, start);
    if prev.status.Aborted? {
      AbortedRunStops(steps, n - 1, seconds, fails, start);
    } else {
      CompletedRunIsBlocks(steps, n - 1, seconds, fails, start);
      NextStep(steps, n - 1, seconds, fails, start);
    }
  }

  /** The number of pauses in a list of events. */
  function Pauses(events: seq<Event>): nat
  {
    if events == [] then 0 else (if events[0].Pause? then 1 else 0) + Pauses(events[1..])
  }

  /** The number of primitive calls in a list of events. */
  function Calls(events: seq<Event>): nat
  {
    if events == [] then 0 else (if events[0].Call? then 1 else 0) + Calls(events[1..])
  }

  /** The number of the first `n` steps that issue a primitive. */
  function Issued(steps: seq<Step>, n: nat): nat
    requires n <= |steps|
  {
    if n == 0 then 0 else Issued(steps, n - 1) + (if steps[n - 1].Issue? then 1 else 0)
  }

  lemma {:induction false} CountsAppend(a: seq<Event>, b: seq<Event>)
    ensures Pauses(a + b) == Pauses(a) + Pauses(b)
    ensures Calls(a + b) == Calls(a) + Calls(b)
  {
    if a != [] {
      assert (a + b)[1..] == a[1..] + b;
      CountsAppend(a[1..], b);
    } else {
      assert a + b == b;
    }
  }

  lemma BlockCounts(step: Step, seconds: real)
    ensures Pauses(Block(step, seconds)) == if step.Raise? then 0 else 1
    ensures Calls(Block(step, seconds)) == if step.Issue? then 1 else 0
  {
    match step
    case Issue(p) =>
      assert Block(step, seconds)[1..] == [Pause(seconds)];
      assert [Pause(seconds)][1..] == [];
      assert Calls([Pause(seconds)]) == 0 && Pauses([Pause(seconds)]) == 1;
    case Skip =>
      assert [Pause(seconds)][1..] == [];
    case Raise(_) =>
  }

  lemma {:induction false} BlocksCounts(steps: seq<Step>, n: nat, seconds: real)
    requires n <= |steps| && forall i | 0 <= i < n :: !steps[i].Raise?
    ensures Pauses(Blocks(steps, n, seconds)) == n
    ensures Calls(Blocks(steps, n, seconds)) == Issued(steps, n)
  {
    if n > 0 {
      BlocksCounts(steps, n - 1, seconds);
      var b := Block(steps[n - 1], seconds);
      CountsAppend(Blocks(steps, n - 1, seconds), b);
      BlockCounts(steps[n - 1], seconds);
    }
  }

  /**
    * A completed loop over n steps holds exactly n pauses, one after each step, and
    * exactly one primitive call per step that issues one.
    */
  lemma CompletedRunCounts(steps: seq<Step>, n: nat, seconds: real, fails: Failures, start: seq<Event>)
    requires n <= |steps| && RunSteps(steps, n, seconds, fails, start).status == Completed
    ensures Pauses(RunSteps(steps, n, seconds, fails, start).events) == n
    ensures Calls(RunSteps(steps, n, seconds, fails, start).events) == Issued(steps, n)
  {
    CompletedRunIsBlocks(steps, n, seconds, fails, start);
    BlocksCounts(steps, n, seconds);
  }

  /** `execute_action_sequence(actions)` started on trace `start`. */
  function RunActions(actions: seq<Json>, fails: Failures, start: seq<Event>): Run
  {
    RunSteps(Steps(actions), |actions|, SettleSeconds, fails, start)
  }

  /** The number of the first `n` actions that are dicts of a recognised type. */
  function CountRecognised(actions: seq<Json>, n: nat): nat
    requires n <= |actions|
  {
    if n == 0 then 0
    else CountRecognised(actions, n - 1)
         + (if actions[n - 1].JObject? && Recognised(Get(actions[n - 1], "type", JNull)) then 1 else 0)
  }

  lemma {:induction false} IssuedAreRecognised(actions: seq<Json>, n: nat)
    requires n <= |actions| && forall i | 0 <= i < n :: !Steps(actions)[i].Raise?
    ensures Issued(Steps(actions), n) == CountRecognised(actions, n)
  {
    if n > 0 {
      IssuedAreRecognised(actions, n - 1);
      assert Steps(actions)[n - 1] == Dispatch(actions[n - 1]);
      DispatchOutcomes(actions[n - 1]);
    }
  }

  /** A sequence that runs to the end held only dicts, none of them a `hotkey` with unusable keys. */
  lemma CompletedSequenceRaisesNowhere(actions: seq<Json>, fails: Failures, start: seq<Event>)
    requires RunActions(actions, fails, start).status == Completed
    ensures forall i | 0 <= i < |actions| :: actions[i].JObject? && !Dispatch(actions[i]).Raise?
  {
    var steps := Steps(actions);
    CompletedRunIsBlocks(steps, |actions|, SettleSeconds, fails, start);
    forall i | 0 <= i < |actions| ensures actions[i].JObject? && !Dispatch(actions[i]).Raise? {
      assert steps[i] == Dispatch(actions[i]);
    }
  }

  /**
    * A sequence that runs to the end issued exactly one primitive per action of a
    * recognised type and slept once after every action.
    */
  lemma CompletedSequenceCounts(actions: seq<Json>, fails: Failures, start: seq<Event>)
    requires RunActions(actions, fails, start).status == Completed
    ensures Pauses(RunActions(actions, fails, start).events) == |actions|
    ensures Calls(RunActions(actions, fails, start).events) == CountRecognised(actions, |actions|)
  {
    var steps := Steps(actions);
    CompletedRunCounts(steps, |actions|, SettleSeconds, fails, start);
    CompletedRunIsBlocks(steps, |actions|, SettleSeconds, fails, start);
    IssuedAreRecognised(actions, |actions|);
  }

  // ----- press_tab and type_text_slow -----

  /** A primitive per element, each one issued. */
  function Issues(ps: seq<Primitive>): (steps: seq<Step>)
    ensures |steps| == |ps|
    ensures forall i | 0 <= i < |ps| :: steps[i] == Issue(ps[i])
  {
    seq(|ps|, i requires 0 <= i < |ps| => Issue(ps[i]))
  }

  /** In a loop that only issues primitives, calls and pauses alternate. */
  lemma {:induction false} BlocksOfIssues(ps: seq<Primitive>, n: nat, seconds: real)
    requires n <= |ps|
    ensures |Blocks(Issues(ps), n, seconds)| == 2 * n
    ensures forall i | 0 <= i < n ::
              Blocks(Issues(ps), n, seconds)[2 * i] == Call(ps[i])
              && Blocks(Issues(ps), n, seconds)[2 * i + 1] == Pause(seconds)
  {
    if n > 0 {
      BlocksOfIssues(ps, n - 1, seconds);
      var prev := Blocks(Issues(ps), n - 1, seconds);
      assert Blocks(Issues(ps), n, seconds) == prev + [Call(ps[n - 1]), Pause(seconds)];
    }
  }

  /** `times` Tab presses (none for a non-positive count, as `range(times)` gives). */
  function TabPresses(times: int): (ps: seq<Primitive>)
    ensures |ps| == if times > 0 then times else 0
    ensures forall i | 0 <= i < |ps| :: ps[i] == Press(JString("tab"))
  {
    seq(if times > 0 then times else 0, _ => Press(JString("tab")))
  }

  /** The characters of `text`, each typed on its own. */
  function Keystrokes(text: string): (ps: seq<Primitive>)
    ensures |ps| == |text|
    ensures forall i | 0 <= i < |text| :: ps[i] == TypeChar(text[i])
  {
    seq(|text|, i requires 0 <= i < |text| => TypeChar(text[i]))
  }

  /** `press_tab(n)` that completes alternates n Tab presses with n settle pauses. */
  lemma PressTabEvents(times: int, fails: Failures, start: seq<Event>)
    requires var ps := TabPresses(times);
             RunSteps(Issues(ps), |ps|, SettleSeconds, fails, start).status == Completed
    ensures var ps := TabPresses(times);
            var events := RunSteps(Issues(ps), |ps|, SettleSeconds, fails, start).events;
            && |events| == 2 * (if times > 0 then times else 0)
            && forall i | 0 <= i < |events| / 2 ::
                 events[2 * i] == Call(Press(JString("tab"))) && events[2 * i + 1] == Pause(SettleSeconds)
  {
    var ps := TabPresses(times);
    CompletedRunIsBlocks(Issues(ps), |ps|, SettleSeconds, fails, start);
    BlocksOfIssues(ps, |ps|, SettleSeconds);
  }

  /** The input controller: the trace of everything issued through it so far. */
  class Automation {
    var trace: seq<Event>
    const fails: Failures
    const screenWidth: int
    const screenHeight: int

    /** `Automation()`: the screen size is read from the input layer. */
    constructor (screenWidth: int, screenHeight: int, fails: Failures)
      ensures trace == [] && this.fails == fails
      ensures this.screenWidth == screenWidth && this.screenHeight == screenHeight
    {
      trace := [];
      this.fails := fails;
      this.screenWidth := screenWidth;
      this.screenHeight := screenHeight;
    }

    /** Issue one primitive; `ok` is false when it raised. */
    method Perform(p: Primitive) returns (ok: bool)
      modifies this
      ensures trace == old(trace) + [Call(p)]
      ensures ok == !fails(old(trace), p)
    {
      ok := !fails(trace, p);
      trace := trace + [Call(p)];
    }

    /** `time.sleep(seconds)` between steps. */
    method Rest(seconds: real)
      modifies this
      ensures trace == old(trace) + [Pause(seconds)]
    {
      trace := trace + [Pause(seconds)];
    }

    method TypeText(text: Json, interval: Json) returns (ok: bool)
      modifies this
      ensures trace == old(trace) + [Call(Write(text, interval))]
      ensures ok == !fails(old(trace), Write(text, interval))
    {
      ok := Perform(Write(text, interval));
    }

    /** `type_text_slow`: one keystroke per character, each followed by `interval`. */
    method TypeTextSlow(text: string, interval: real) returns (ok: bool)
      modifies this
      ensures trace == old(trace) + RunSteps(Issues(Keystrokes(text)), |text|, interval, fails, old(trace)).events
      ensures ok <==> RunSteps(Issues(Keystrokes(text)), |text|, interval, fails, old(trace)).status == Completed
    {
      ok := PacedLoop(Keystrokes(text), interval);
    }

    method PressKey(key: Json) returns (ok: bool)
      modifies this
      ensures trace == old(trace) + [Call(Press(key))]
      ensures ok == !fails(old(trace), Press(key))
    {
      ok := Perform(Press(key));
    }

    method Hotkey(keys: seq<Json>) returns (ok: bool)
      modifies this
      ensures trace == old(trace) + [Call(Combo(keys))]
      ensures ok == !fails(old(trace), Combo(keys))
    {
      ok := Perform(Combo(keys));
    }

    method PressEnter() returns (ok: bool)
      modifies this
      ensures trace == old(trace) + [Call(Press(JString("enter")))]
      ensures ok == !fails(old(trace), Press(JString("enter")))
    {
      ok := PressKey(JString("enter"));
    }

    /** `press_tab(times)`: `max(times, 0)` Tab presses, each followed by the settle pause. */
    method PressTab(times: int) returns (ok: bool)
      modifies this
      ensures trace == old(trace) + RunSteps(Issues(TabPresses(times)), |TabPresses(times)|, SettleSeconds, fails, old(trace)).events
      ensures ok <==> RunSteps(Issues(TabPresses(times)), |TabPresses(times)|, SettleSeconds, fails, old(trace)).status == Completed
    {
      ok := PacedLoop(TabPresses(times), SettleSeconds);
    }

    /** The loop shared by `press_tab` and `type_text_slow`. */
    method PacedLoop(ps: seq<Primitive>, seconds: real) returns (ok: bool)
      modifies this
      ensures trace == old(trace) + RunSteps(Issues(ps), |ps|, seconds, fails, old(trace)).events
      ensures ok <==> RunSteps(Issues(ps), |ps|, seconds, fails, old(trace)).status == Completed
    {
      ghost var start := trace;
      ghost var steps := Issues(ps);
      var i := 0;
      ok := true;
      while i < |ps|
        invariant 0 <= i <= |ps|
        invariant RunSteps(steps, i, seconds, fails, start).status == Completed
        invariant trace == start + RunSteps(steps, i, seconds, fails, start).events
      {
        ok := Perform(ps[i]);
        NextStep(steps, i, seconds, fails, start);
        if !ok {
          AbortIsFinal(steps, i + 1, |ps|, seconds, fails, start);
          return;
        }
        Rest(seconds);
        i := i + 1;
      }
    }

    method CopyToClipboard() returns (ok: bool)
      modifies this
      ensures trace == old(trace) + [Call(Combo([JString("ctrl"), JString("c")]))]
      ensures ok == !fails(old(trace), Combo([JString("ctrl"), JString("c")]))
    {
      ok := Hotkey([JString("ctrl"), JString("c")]);
    }

    method PasteFromClipboard() returns (ok: bool)
      modifies this
      ensures trace == old(trace) + [Call(Combo([JString("ctrl"), JString("v")]))]
      ensures ok == !fails(old(trace), Combo([JString("ctrl"), JString("v")]))
    {
      ok := Hotkey([JString("ctrl"), JString("v")]);
    }

    method SelectAll() returns (ok: bool)
      modifies this
      ensures trace == old(trace) + [Call(Combo([JString("ctrl"), JString("a")]))]
      ensures ok == !fails(old(trace), Combo([JString("ctrl"), JString("a")]))
    {
      ok := Hotkey([JString("ctrl"), JString("a")]);
    }

    method Undo() returns (ok: bool)
      modifies this
      ensures trace == old(trace) + [Call(Combo([JString("ctrl"), JString("z")]))]
      ensures ok == !fails(old(trace), Combo([JString("ctrl"), JString("z")]))
    {
      ok := Hotkey([JString("ctrl"), JString("z")]);
    }

    method SaveFile() returns (ok: bool)
      modifies this
      ensures trace == old(trace) + [Call(Combo([JString("ctrl"), JString("s")]))]
      ensures ok == !fails(old(trace), Combo([JString("ctrl"), JString("s")]))
    {
      ok := Hotkey([JString("ctrl"), JString("s")]);
    }

    method MoveMouse(x: Json, y: Json, duration: Json) returns (ok: bool)
      modifies this
      ensures trace == old(trace) + [Call(MoveTo(x, y, duration))]
      ensures ok == !fails(old(trace), MoveTo(x, y, duration))
    {
      ok := Perform(MoveTo(x, y, duration));
    }

    method MoveMouseRelative(dx: Json, dy: Json, duration: Json) returns (ok: bool)
      modifies this
      ensures trace == old(trace) + [Call(MoveRel(dx, dy, duration))]
      ensures ok == !fails(old(trace), MoveRel(dx, dy, duration))
    {
      ok := Perform(MoveRel(dx, dy, duration));
    }

    /** `click(x, y, button, clicks)`: one click call, positioned only when both coordinates are given. */
    method Click(x: Json, y: Json, button: Json, clicks: int) returns (ok: bool)
      modifies this
      ensures trace == old(trace) + [Call(ClickCall(x, y, button, clicks))]
      ensures ok == !fails(old(trace), ClickCall(x, y, button, clicks))
    {
      if x != JNull && y != JNull {
        ok := Perform(ClickAt(x, y, clicks, button));
      } else {
        ok := Perform(ClickHere(clicks, button));
      }
    }

    /** `double_click(x, y)`: a left click with two clicks. */
    method DoubleClick(x: Json, y: Json) returns (ok: bool)
      modifies this
      ensures trace == old(trace) + [Call(ClickCall(x, y, JString("left"), 2))]
      ensures ok == !fails(old(trace), ClickCall(x, y, JString("left"), 2))
    {
      ok := Click(x, y, JString("left"), 2);
    }

    /** `right_click(x, y)`: a single click of the right button. */
    method RightClick(x: Json, y: Json) returns (ok: bool)
      modifies this
      ensures trace == old(trace) + [Call(ClickCall(x, y, JString("right"), 1))]
      ensures ok == !fails(old(trace), ClickCall(x, y, JString("right"), 1))
    {
      ok := Click(x, y, JString("right"), 1);
    }

    method DragTo(x: Json, y: Json, duration: Json, button: Json) returns (ok: bool)
      modifies this
      ensures trace == old(trace) + [Call(Drag(x, y, duration, button))]
      ensures ok == !fails(old(trace), Drag(x, y, duration, button))
    {
      ok := Perform(Drag(x, y, duration, button));
    }

    /** `scroll(amount, x, y)`: scrolls at (x, y) only when both are given. */
    method Scroll(amount: Json, x: Json, y: Json) returns (ok: bool)
      modifies this
      ensures trace == old(trace) + [Call(ScrollCall(amount, x, y))]
      ensures ok == !fails(old(trace), ScrollCall(amount, x, y))
    {
      if x != JNull && y != JNull {
        ok := Perform(ScrollAt(amount, x, y));
      } else {
        ok := Perform(ScrollHere(amount));
      }
    }

    method Wait(seconds: Json) returns (ok: bool)
      modifies this
      ensures trace == old(trace) + [Call(Sleep(seconds))]
      ensures ok == !fails(old(trace), Sleep(seconds))
    {
      ok := Perform(Sleep(seconds));
    }

    /** Iteration `i` of `execute_action_sequence`, up to its pause: the dispatch of `actions[i]`. */
    method Act(actions: seq<Json>, i: nat) returns (error: Option<PyError>)
      requires i < |actions|
      modifies this
      ensures trace == old(trace) + Attempt(Steps(actions)[i], fails, old(trace)).events
      ensures error == Attempt(Steps(actions)[i], fails, old(trace)).error
    {
      var action := actions[i];
      assert Steps(actions)[i] == Dispatch(action);
      if !action.JObject? {
        return Some(AttributeError);
      }
      var kind := Get(action, "type", JNull);
      var ok := true;
      if kind == JString("type") {
        ok := TypeText(Get(action, "text", JString("")), Get(action, "interval", JNumber(0.05)));
      } else if kind == JString("press") {
        ok := PressKey(Get(action, "key", JString("enter")));
      } else if kind == JString("hotkey") {
        var keys := StarArgs(Get(action, "keys", JArray([])));
        if keys.None? {
          return Some(TypeError);
        }
        ok := Hotkey(keys.value);
      } else if kind == JString("click") {
        ok := Click(Get(action, "x", JNull), Get(action, "y", JNull),
                    Get(action, "button", JString("left")), 1);
      } else if kind == JString("move") {
        ok := MoveMouse(Get(action, "x", JNull), Get(action, "y", JNull),
                        Get(action, "duration", JNumber(0.5)));
      } else if kind == JString("wait") {
        ok := Wait(Get(action, "seconds", JNumber(1.0)));
      } else if kind == JString("scroll") {
        ok := Scroll(Get(action, "amount", JNumber(0.0)), JNull, JNull);
      }
      error := if ok then None else Some(InputFailed);
    }

    /**
      * `execute_action_sequence(actions)`: the trace grows by exactly the events of the
      * run, and the run's status is returned (Python raises where it says Aborted).
      */
    method ExecuteActionSequence(actions: seq<Json>) returns (status: Status)
      modifies this
      ensures trace == old(trace) + RunActions(actions, fails, old(trace)).events
      ensures status == RunActions(actions, fails, old(trace)).status
    {
      ghost var start := trace;
      ghost var steps := Steps(actions);
      var i := 0;
      while i < |actions|
        invariant 0 <= i <= |actions|
        invariant RunSteps(steps, i, SettleSeconds, fails, start).status == Completed
        invariant trace == start + RunSteps(steps, i, SettleSeconds, fails, start).events
      {
        var error := Act(actions, i);
        NextStep(steps, i, SettleSeconds, fails, start);
        if error.Some? {
          status := Aborted(i, error.value);
          AbortIsFinal(steps, i + 1, |actions|, SettleSeconds, fails, start);
          return;
        }
        Rest(SettleSeconds);
        i := i + 1;
      }
      status := Completed;
    }
  }
}
