/** Where the scanner's bytes go: bounded buffers for visible text, reasoning and tool payload. */
module ScannerSinks {
  import opened ScannerSpec
  import opened ScannerRefines

  const MAX_TOOL_JSON_BYTES := 4096
  const MAX_THINK_BYTES := 8192
  const SCANNER_OUT_BYTES := 8192
  const TAG_PENDING_BYTES := 32

  /** What outlives a call of Push: the two captures and the overflow flag. */
  datatype Store = Store(think: string, json: string, overflow: bool)

  /** `out` and `toolDone` describe one call of Push. */
  datatype Sinks = Sinks(out: string, toolDone: bool, store: Store)

  /** The events that concern reasoning and tool payload. */
  function Keep(k: Store, e: Event): Store {
    match e
    case Emit(StText, _) => k
    case Emit(StThink, b) =>
      if |k.think| >= MAX_THINK_BYTES then k.(overflow := true) else k.(think := k.think + [b])
    case Emit(StToolJSON, b) =>
      if |k.json| >= MAX_TOOL_JSON_BYTES then k.(overflow := true) else k.(json := k.json + [b])
    case Tag(ToolOpen) => k.(json := "")
    case Tag(ThinkOpen) => k.(think := "")
    case Tag(_) => k
  }

  function Route(k: Sinks, e: Event): Sinks {
    match e
    case Emit(StText, b) =>
      if |k.out| >= SCANNER_OUT_BYTES then k.(store := k.store.(overflow := true)) else k.(out := k.out + [b])
    case _ => Sinks(k.out, k.toolDone || e == Tag(ToolClose), Keep(k.store, e))
  }

  function KeepAll(k: Store, events: seq<Event>): Store {
    if events == [] then k else Keep(KeepAll(k, events[..|events| - 1]), events[|events| - 1])
  }

  function RouteAll(k: Sinks, events: seq<Event>): Sinks {
    if events == [] then k else Route(RouteAll(k, events[..|events| - 1]), events[|events| - 1])
  }

  /** The bytes of a stream the user sees. */
  function Visible(events: seq<Event>): string {
    if events == [] then ""
    else
      var e := events[|events| - 1];
      Visible(events[..|events| - 1]) + if e.Emit? && e.st == StText then [e.b] else ""
  }

  lemma RouteSnoc(k: Sinks, events: seq<Event>, e: Event)
    ensures RouteAll(k, events + [e]) == Route(RouteAll(k, events), e)
  {
    assert (events + [e])[..|events + [e]| - 1] == events;
  }

  lemma {:induction false} RouteAppend(k: Sinks, a: seq<Event>, b: seq<Event>)
    ensures RouteAll(k, a + b) == RouteAll(RouteAll(k, a), b)
    decreases |b|
  {
    hide Route;
    if b == [] {
      assert a + b == a;
    } else {
      RouteAppend(k, a, b[..|b| - 1]);
      assert (a + b)[..|a + b| - 1] == a + b[..|b| - 1];
    }
  }

  lemma {:induction false} KeepAppend(k: Store, a: seq<Event>, b: seq<Event>)
    ensures KeepAll(k, a + b) == KeepAll(KeepAll(k, a), b)
    decreases |b|
  {
    hide Keep;
    if b == [] {
      assert a + b == a;
    } else {
      KeepAppend(k, a, b[..|b| - 1]);
      assert (a + b)[..|a + b| - 1] == a + b[..|b| - 1];
    }
  }

  lemma {:induction false} VisibleAppend(a: seq<Event>, b: seq<Event>)
    ensures Visible(a + b) == Visible(a) + Visible(b)
    decreases |b|
  {
    if b == [] {
      assert a + b == a;
    } else {
      var c := b[..|b| - 1];
      VisibleAppend(a, c);
      assert (a + b)[..|a + b| - 1] == a + c;
      assert (a + b)[|a + b| - 1] == b[|b| - 1];
    }
  }

  /** While the visible text fits, one call of Push shows exactly it and keeps the rest. */
  lemma {:induction false} RouteFits(k: Sinks, events: seq<Event>)
    requires |k.out| + |Visible(events)| <= SCANNER_OUT_BYTES
    ensures RouteAll(k, events).out == k.out + Visible(events)
    ensures RouteAll(k, events).store == KeepAll(k.store, events)
    ensures RouteAll(k, events).toolDone == (k.toolDone || Tag(ToolClose) in events)
    decreases |events|
  {
    if events != [] {
      var a := events[..|events| - 1];
      RouteFits(k, a);
      assert events == a + [events[|events| - 1]];
    }
  }

  // ----- what the bounded captures hold -----

  /** The bytes routed to `st` since the tag that opens it, started from `c`, without any bound. */
  function Captured(c: string, st: ScanState, events: seq<Event>): string {
    if events == [] then c
    else
      var before := Captured(c, st, events[..|events| - 1]);
      match events[|events| - 1]
      case Emit(s, b) => if s == st then before + [b] else before
      case Tag(a) => if Target(a) == st then "" else before
  }

  function Truncate(c: string, cap: nat): string {
    if |c| <= cap then c else c[..cap]
  }

  predicate Overran(c: string, st: ScanState, cap: nat, events: seq<Event>) {
    exists n :: 0 <= n <= |events| && |Captured(c, st, events[..n])| > cap
  }

  lemma OverranSnoc(c: string, st: ScanState, cap: nat, events: seq<Event>)
    requires events != []
    ensures var before := events[..|events| - 1];
            Overran(c, st, cap, events) <==>
            Overran(c, st, cap, before) || |Captured(c, st, events)| > cap
  {
    hide Captured;
    var a := events[..|events| - 1];
    forall n | 0 <= n <= |a|
      ensures a[..n] == events[..n]
    {
    }
    assert events[..|events|] == events;
  }

  /** A capture first outgrows its capacity at a byte routed to it while it is full. */
  lemma OverranStep(st: ScanState, cap: nat, events: seq<Event>)
    requires events != []
    ensures var before, e := events[..|events| - 1], events[|events| - 1];
            Overran("", st, cap, events) <==>
            Overran("", st, cap, before)
            || (e.Emit? && e.st == st && |Truncate(Captured("", st, before), cap)| == cap)
  {
    OverranSnoc("", st, cap, events);
    var before := events[..|events| - 1];
    assert before[..|before|] == before;
    if |Captured("", st, before)| > cap {
      assert Overran("", st, cap, before);
    }
  }

  /** Each capture is the first bytes, up to its capacity, of what was routed to it since it was
      last opened; the flag is raised exactly when some capture outgrew its capacity. */
  lemma {:induction false} Captures(events: seq<Event>)
    ensures var k := KeepAll(Store("", "", false), events);
            && k.think == Truncate(Captured("", StThink, events), MAX_THINK_BYTES)
            && k.json == Truncate(Captured("", StToolJSON, events), MAX_TOOL_JSON_BYTES)
            && (k.overflow <==> Overran("", StThink, MAX_THINK_BYTES, events)
                                || Overran("", StToolJSON, MAX_TOOL_JSON_BYTES, events))
    decreases |events|
  {
    if events == [] {
      assert forall n :: 0 <= n <= |events| ==> events[..n] == [];
    } else {
      hide Overran, Captured, Truncate;
      Captures(events[..|events| - 1]);
      OverranStep(StThink, MAX_THINK_BYTES, events);
      OverranStep(StToolJSON, MAX_TOOL_JSON_BYTES, events);
      StepCapture(StThink, MAX_THINK_BYTES, events);
      StepCapture(StToolJSON, MAX_TOOL_JSON_BYTES, events);
    }
  }

  lemma StepCapture(st: ScanState, cap: nat, events: seq<Event>)
    requires events != []
    ensures var before, after := Captured("", st, events[..|events| - 1]), Captured("", st, events);
            Truncate(after, cap) ==
            match events[|events| - 1]
            case Emit(s, b) =>
              if s == st && |Truncate(before, cap)| < cap then Truncate(before, cap) + [b]
              else Truncate(before, cap)
            case Tag(a) => if Target(a) == st then "" else Truncate(before, cap)
  {
  }
}
