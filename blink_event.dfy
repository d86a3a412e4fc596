/** BlinkEvent: the colour watcher and the dark watcher. Each background
    loop is modelled by one poll of its body; sensor readings are
    parameters, raised events go to a log, and registered handlers are
    recorded by the event they listen for. */
module BlinkEvent {

  const EVENT_ID: int := 3100
  const EVENT_ID_DARK: int := 3101
  /** The pause after each colour poll and each dark poll, in milliseconds. */
  const COLOR_POLL_MS: int := 200
  const DARK_POLL_MS: int := 100

  datatype Color = Red | Green | Blue

  /** ColorEnum's values: Red = 1, Green = 2, Blue = 3. */
  function Code(c: Color): (v: int)
    ensures 1 <= v <= 3
  {
    match c
    case Red => 1
    case Green => 2
    case Blue => 3
  }

  /** detectColor on one sample: the strictly largest of red and green
      wins, and every other case, ties included, is Blue. */
  function DetectColor(r: int, g: int, b: int): (c: Color)
    ensures c == Red <==> r > g && r > b
    ensures c == Green <==> g > r && g > b
    ensures c == Blue <==> !(r > g && r > b) && !(g > r && g > b)
  {
    if r > g && r > b then Red
    else if g > r && g > b then Green
    else Blue
  }

  /** A raised event: control.raiseEvent(id, value). A registered handler is
      recorded by the same pair, the event it listens for. */
  datatype Event = Event(id: int, value: int)

  /** The events of one colour poll: one exactly when the colour changed. */
  function ColorPollEvents(last: int, current: int): seq<Event>
  {
    if current != last then [Event(EVENT_ID, current)] else []
  }

  /** The events of successive colour polls seeing `colors`, starting with
      `last` as the remembered colour. */
  function ColorEvents(last: int, colors: seq<Color>): seq<Event>
    decreases |colors|
  {
    if colors == [] then []
    else ColorPollEvents(last, Code(colors[0])) + ColorEvents(Code(colors[0]), colors[1..])
  }

  /** The value a watcher remembers after raising `ev`, starting from `last`. */
  function LastValue(last: int, ev: seq<Event>): int
  {
    if ev == [] then last else ev[|ev| - 1].value
  }

  /** The colour watcher raises at most one event per poll, each a colour
      event carrying a colour code. */
  lemma {:induction false} ColorEventsShape(last: int, colors: seq<Color>)
    ensures |ColorEvents(last, colors)| <= |colors|
    ensures forall e :: e in ColorEvents(last, colors) ==> e.id == EVENT_ID && 1 <= e.value <= 3
    decreases |colors|
  {
    if colors != [] {
      ColorEventsShape(Code(colors[0]), colors[1..]);
    }
  }

  /** No two successive events carry the same value. */
  predicate Alternates(ev: seq<Event>)
  {
    forall k :: 0 < k < |ev| ==> ev[k].value != ev[k - 1].value
  }

  lemma PrependAlternates(e: Event, rest: seq<Event>)
    requires Alternates(rest) && (rest != [] ==> rest[0].value != e.value)
    ensures Alternates([e] + rest)
  {
    var ev := [e] + rest;
    forall k | 0 < k < |ev|
      ensures ev[k].value != ev[k - 1].value
    {
      if k > 1 {
        assert ev[k] == rest[k - 1] && ev[k - 1] == rest[k - 2];
      }
    }
  }

  /** It never raises the colour it starts from nor the same colour twice in
      a row, and the remembered colour is always the one most recently
      seen. */
  lemma {:induction false} ColorEventsChanges(last: int, colors: seq<Color>)
    ensures var ev := ColorEvents(last, colors);
      && (ev != [] ==> ev[0].value != last)
      && Alternates(ev)
      && (colors != [] ==> LastValue(last, ev) == Code(colors[|colors| - 1]))
    decreases |colors|
  {
    if colors != [] {
      var c := Code(colors[0]);
      var rest := ColorEvents(c, colors[1..]);
      ColorEventsChanges(c, colors[1..]);
      if c != last {
        assert ColorEvents(last, colors) == [Event(EVENT_ID, c)] + rest;
        PrependAlternates(Event(EVENT_ID, c), rest);
      } else {
        assert ColorEvents(last, colors) == rest;
      }
      if colors[1..] == [] {
        assert rest == [];
      } else {
        assert colors[|colors| - 1] == colors[1..][|colors[1..]| - 1];
      }
    }
  }

  /** lastColor starts at 0, which is no colour: the first poll always raises. */
  lemma FirstColorPollRaises(colors: seq<Color>)
    requires colors != []
    ensures ColorEvents(0, colors) != []
    ensures ColorEvents(0, colors)[0] == Event(EVENT_ID, Code(colors[0]))
  {
    assert ColorEvents(0, colors) == [Event(EVENT_ID, Code(colors[0]))] + ColorEvents(Code(colors[0]), colors[1..]);
  }

  /** Seeing Red, Red, Green from the start raises Red once and then Green:
      a colour that stays the same raises nothing. */
  lemma ColorExample()
    ensures ColorEvents(0, [Red, Red, Green]) == [Event(EVENT_ID, 1), Event(EVENT_ID, 2)]
  {
    assert ColorEvents(2, []) == [];
    assert ColorEvents(1, [Green]) == [Event(EVENT_ID, 2)];
    assert ColorEvents(1, [Red, Green]) == [Event(EVENT_ID, 2)];
  }

  /** darkLastState after a poll: entry i is dark when the light is below
      its threshold. */
  function DarkStates(thresholds: seq<int>, light: int): (s: seq<bool>)
    ensures |s| == |thresholds|
    ensures forall i :: 0 <= i < |s| ==> s[i] == (light < thresholds[i])
  {
    seq(|thresholds|, i requires 0 <= i < |thresholds| => light < thresholds[i])
  }

  /** Whether entry i raises on this reading: it is dark now and was not. */
  predicate Raises(thresholds: seq<int>, last: seq<bool>, light: int, i: int)
    requires |thresholds| == |last| && 0 <= i < |thresholds|
  {
    light < thresholds[i] && !last[i]
  }

  /** The events of one dark poll, entry by entry in array order. */
  function DarkEvents(thresholds: seq<int>, last: seq<bool>, light: int): seq<Event>
    requires |thresholds| == |last|
  {
    if thresholds == [] then []
    else
      var n := |thresholds| - 1;
      DarkEvents(thresholds[..n], last[..n], light)
      + (if Raises(thresholds, last, light, n) then [Event(EVENT_ID_DARK, thresholds[n])] else [])
  }

  /** A dark poll raises at most one event per entry, each a dark event; the
      threshold t is raised exactly when some entry with threshold t has
      turned dark on this reading. */
  lemma {:induction false} DarkEventsExact(thresholds: seq<int>, last: seq<bool>, light: int)
    requires |thresholds| == |last|
    ensures |DarkEvents(thresholds, last, light)| <= |thresholds|
    ensures forall e :: e in DarkEvents(thresholds, last, light) ==> e.id == EVENT_ID_DARK
    ensures forall t :: Event(EVENT_ID_DARK, t) in DarkEvents(thresholds, last, light) <==>
      exists i :: 0 <= i < |thresholds| && thresholds[i] == t && Raises(thresholds, last, light, i)
  {
    if thresholds != [] {
      var n := |thresholds| - 1;
      var ths, ls := thresholds[..n], last[..n];
      DarkEventsExact(ths, ls, light);
      forall t
        ensures Event(EVENT_ID_DARK, t) in DarkEvents(thresholds, last, light) <==>
          exists i :: 0 <= i < |thresholds| && thresholds[i] == t && Raises(thresholds, last, light, i)
      {
        if exists i :: 0 <= i < |thresholds| && thresholds[i] == t && Raises(thresholds, last, light, i) {
          var i :| 0 <= i < |thresholds| && thresholds[i] == t && Raises(thresholds, last, light, i);
          if i < n {
            assert ths[i] == t && Raises(ths, ls, light, i);
          }
        }
        if Event(EVENT_ID_DARK, t) in DarkEvents(ths, ls, light) {
          var i :| 0 <= i < |ths| && ths[i] == t && Raises(ths, ls, light, i);
          assert thresholds[i] == t && Raises(thresholds, last, light, i);
        }
      }
    }
  }

  /** One more entry adds its own event, if any, at the end. */
  lemma DarkEventsSnoc(thresholds: seq<int>, last: seq<bool>, light: int, i: int)
    requires |thresholds| == |last| && 0 <= i < |thresholds|
    ensures DarkEvents(thresholds[..i + 1], last[..i + 1], light)
            == DarkEvents(thresholds[..i], last[..i], light)
               + (if Raises(thresholds, last, light, i) then [Event(EVENT_ID_DARK, thresholds[i])] else [])
  {
    assert thresholds[..i + 1][..i] == thresholds[..i];
    assert last[..i + 1][..i] == last[..i];
  }

  /** The loop over the entries of one dark poll, in array order: the new
      states and the events raised. */
  method DarkScan(thresholds: seq<int>, last: seq<bool>, light: int)
    returns (states: seq<bool>, raised: seq<Event>)
    requires |thresholds| == |last|
    ensures states == DarkStates(thresholds, light)
    ensures raised == DarkEvents(thresholds, last, light)
  {
    states := last;
    raised := [];
    var i := 0;
    while i < |thresholds|
      invariant 0 <= i <= |thresholds| == |states|
      invariant forall j :: 0 <= j < i ==> states[j] == (light < thresholds[j])
      invariant forall j :: i <= j < |states| ==> states[j] == last[j]
      invariant raised == DarkEvents(thresholds[..i], last[..i], light)
    {
      var th := thresholds[i];
      var isDark := light < th;
      DarkEventsSnoc(thresholds, last, light, i);
      if isDark && !states[i] {
        raised := raised + [Event(EVENT_ID_DARK, th)];
      }
      states := states[i := isDark];
      i := i + 1;
    }
    assert thresholds[..i] == thresholds && last[..i] == last;
  }

  /** The events of each of successive dark polls seeing `readings`. */
  function DarkTrace(thresholds: seq<int>, last: seq<bool>, readings: seq<int>): seq<seq<Event>>
    requires |thresholds| == |last|
    decreases |readings|
  {
    if readings == [] then []
    else [DarkEvents(thresholds, last, readings[0])]
         + DarkTrace(thresholds, DarkStates(thresholds, readings[0]), readings[1..])
  }

  /** The watcher is edge-triggered: poll k compares its reading with the
      states the previous reading left (the initial states for the first
      poll), so an entry raises at poll k exactly when the light dropped
      below its threshold between poll k - 1 and poll k. */
  lemma {:induction false} DarkTracePoll(thresholds: seq<int>, last: seq<bool>, readings: seq<int>, k: int)
    requires |thresholds| == |last| && 0 <= k < |readings|
    ensures |DarkTrace(thresholds, last, readings)| == |readings|
    ensures DarkTrace(thresholds, last, readings)[k]
            == DarkEvents(thresholds, if k == 0 then last else DarkStates(thresholds, readings[k - 1]), readings[k])
    decreases |readings|
  {
    var next := DarkStates(thresholds, readings[0]);
    var tr := DarkTrace(thresholds, last, readings);
    if k == 0 {
      if |readings| > 1 {
        DarkTracePoll(thresholds, next, readings[1..], 0);
      }
    } else {
      DarkTracePoll(thresholds, next, readings[1..], k - 1);
      assert tr == [DarkEvents(thresholds, last, readings[0])] + DarkTrace(thresholds, next, readings[1..]);
      if k > 1 {
        assert readings[1..][k - 2] == readings[k - 1];
      }
    }
  }

  /** With one threshold 50 and readings 60, 40, 40, 60, 30, the event fires
      at polls 1 and 4 only. */
  lemma DarkExample()
    ensures DarkTrace([50], [false], [60, 40, 40, 60, 30])
            == [[], [Event(EVENT_ID_DARK, 50)], [], [], [Event(EVENT_ID_DARK, 50)]]
  {
    var ths := [50];
    var dark, lit := [true], [false];
    assert DarkStates(ths, 60) == lit && DarkStates(ths, 40) == dark && DarkStates(ths, 30) == dark;
    assert DarkEvents(ths, lit, 60) == [];
    assert DarkEvents(ths, lit, 40) == [Event(EVENT_ID_DARK, 50)];
    assert DarkEvents(ths, dark, 40) == [];
    assert DarkEvents(ths, dark, 60) == [];
    assert DarkEvents(ths, lit, 30) == [Event(EVENT_ID_DARK, 50)];
    var readings := [60, 40, 40, 60, 30];
    assert DarkTrace(ths, dark, [30]) == [[]] by {
      assert DarkEvents(ths, dark, 30) == [];
    }
    assert DarkTrace(ths, lit, [30]) == [[Event(EVENT_ID_DARK, 50)]];
    assert DarkTrace(ths, dark, [60, 30]) == [[]] + DarkTrace(ths, lit, [30]);
    assert DarkTrace(ths, dark, [40, 60, 30]) == [[]] + DarkTrace(ths, dark, [60, 30]);
    assert DarkTrace(ths, lit, [40, 40, 60, 30]) == [[Event(EVENT_ID_DARK, 50)]] + DarkTrace(ths, dark, [40, 60, 30]);
    assert DarkTrace(ths, lit, readings) == [[]] + DarkTrace(ths, lit, readings[1..]);
    assert readings[1..] == [40, 40, 60, 30];
  }

  /** The state of the BlinkEvent namespace. */
  class Watchers {
    var lastColor: int
    var monitoringStarted: bool
    var darkWatcherStarted: bool
    var darkThresholds: seq<int>
    var darkLastState: seq<bool>
    /** How many colour and dark background loops have been started. */
    ghost var colorLoops: nat
    ghost var darkLoops: nat
    /** control.onEvent registrations, by the event each handler listens for. */
    ghost var handlers: seq<Event>
    /** control.raiseEvent calls, in order. */
    ghost var events: seq<Event>
    /** basic.pause calls of the poll bodies, in milliseconds. */
    ghost var pauses: seq<int>

    /** The two dark arrays stay parallel, and each background loop runs at
        most once, exactly when its flag is set. */
    ghost predicate Valid()
      reads this
    {
      |darkThresholds| == |darkLastState|
      && colorLoops == (if monitoringStarted then 1 else 0)
      && darkLoops == (if darkWatcherStarted then 1 else 0)
    }

    constructor ()
      ensures Valid()
      ensures lastColor == 0 && !monitoringStarted && !darkWatcherStarted
      ensures darkThresholds == [] && darkLastState == []
      ensures handlers == [] && events == [] && pauses == []
    {
      lastColor := 0;
      monitoringStarted := false;
      darkWatcherStarted := false;
      darkThresholds := [];
      darkLastState := [];
      colorLoops := 0;
      darkLoops := 0;
      handlers := [];
      events := [];
      pauses := [];
    }

    /** startColorMonitoring: starts the colour loop unless it is running. */
    method StartColorMonitoring()
      requires Valid()
      modifies this
      ensures Valid() && monitoringStarted
      ensures colorLoops == (if old(monitoringStarted) then old(colorLoops) else old(colorLoops) + 1)
      ensures lastColor == old(lastColor) && darkWatcherStarted == old(darkWatcherStarted)
      ensures darkThresholds == old(darkThresholds) && darkLastState == old(darkLastState)
      ensures darkLoops == old(darkLoops) && handlers == old(handlers)
      ensures events == old(events) && pauses == old(pauses)
    {
      if monitoringStarted {
        return;
      }
      monitoringStarted := true;
      colorLoops := colorLoops + 1;
    }

    /** onColorDetected: makes sure the colour loop runs, then registers the
        handler for the colour's event. */
    method OnColorDetected(color: Color)
      requires Valid()
      modifies this
      ensures Valid() && monitoringStarted && colorLoops == 1
      ensures handlers == old(handlers) + [Event(EVENT_ID, Code(color))]
      ensures lastColor == old(lastColor) && darkWatcherStarted == old(darkWatcherStarted)
      ensures darkThresholds == old(darkThresholds) && darkLastState == old(darkLastState)
      ensures darkLoops == old(darkLoops) && events == old(events) && pauses == old(pauses)
    {
      StartColorMonitoring();
      handlers := handlers + [Event(EVENT_ID, Code(color))];
    }

    /** One iteration of the colour loop, which only runs once started, on
        the sample (r, g, b): the event is raised exactly when the colour
        differs from the remembered one, which then becomes the current
        colour; then the loop pauses. */
    method ColorPoll(r: int, g: int, b: int)
      requires Valid() && monitoringStarted
      modifies this
      ensures Valid()
      ensures lastColor == Code(DetectColor(r, g, b))
      ensures events == old(events) + ColorEvents(old(lastColor), [DetectColor(r, g, b)])
      ensures events == old(events) + ColorPollEvents(old(lastColor), lastColor)
      ensures pauses == old(pauses) + [COLOR_POLL_MS]
      ensures monitoringStarted == old(monitoringStarted) && darkWatcherStarted == old(darkWatcherStarted)
      ensures darkThresholds == old(darkThresholds) && darkLastState == old(darkLastState)
      ensures colorLoops == old(colorLoops) && darkLoops == old(darkLoops) && handlers == old(handlers)
    {
      var current := Code(DetectColor(r, g, b));
      if current != lastColor {
        events := events + [Event(EVENT_ID, current)];
        lastColor := current;
      }
      pauses := pauses + [COLOR_POLL_MS];
      assert ColorEvents(old(lastColor), [DetectColor(r, g, b)])
             == ColorPollEvents(old(lastColor), current) + ColorEvents(current, []);
    }

    /** startDarkWatcher: starts the dark loop unless it is running. */
    method StartDarkWatcher()
      requires Valid()
      modifies this
      ensures Valid() && darkWatcherStarted
      ensures darkLoops == (if old(darkWatcherStarted) then old(darkLoops) else old(darkLoops) + 1)
      ensures lastColor == old(lastColor) && monitoringStarted == old(monitoringStarted)
      ensures darkThresholds == old(darkThresholds) && darkLastState == old(darkLastState)
      ensures colorLoops == old(colorLoops) && handlers == old(handlers)
      ensures events == old(events) && pauses == old(pauses)
    {
      if darkWatcherStarted {
        return;
      }
      darkWatcherStarted := true;
      darkLoops := darkLoops + 1;
    }

    /** onDark: appends the threshold and a "not dark" state to the two
        arrays, makes sure the dark loop runs, then registers the handler for
        the threshold's event. */
    method OnDark(threshold: int)
      requires Valid()
      modifies this
      ensures Valid() && darkWatcherStarted && darkLoops == 1
      ensures darkThresholds == old(darkThresholds) + [threshold]
      ensures darkLastState == old(darkLastState) + [false]
      ensures handlers == old(handlers) + [Event(EVENT_ID_DARK, threshold)]
      ensures lastColor == old(lastColor) && monitoringStarted == old(monitoringStarted)
      ensures colorLoops == old(colorLoops) && events == old(events) && pauses == old(pauses)
    {
      darkThresholds := darkThresholds + [threshold];
      darkLastState := darkLastState + [false];
      StartDarkWatcher();
      handlers := handlers + [Event(EVENT_ID_DARK, threshold)];
    }

    /** One iteration of the dark loop, which only runs once started, on the
        reading `light`: every entry, in array order, raises its threshold's
        event when it has just turned dark and records whether it is dark;
        then the loop pauses. */
    method DarkPoll(light: int)
      requires Valid() && darkWatcherStarted
      modifies this
      ensures Valid() && darkThresholds == old(darkThresholds)
      ensures darkLastState == DarkStates(darkThresholds, light)
      ensures events == old(events) + DarkEvents(darkThresholds, old(darkLastState), light)
      ensures pauses == old(pauses) + [DARK_POLL_MS]
      ensures lastColor == old(lastColor) && monitoringStarted == old(monitoringStarted)
      ensures darkWatcherStarted == old(darkWatcherStarted)
      ensures colorLoops == old(colorLoops) && darkLoops == old(darkLoops) && handlers == old(handlers)
    {
      var states, raised := DarkScan(darkThresholds, darkLastState, light);
      darkLastState := states;
      events := events + raised;
      pauses := pauses + [DARK_POLL_MS];
    }
  }
}
