/** The scanner itself: fixed buffers, filled and shifted in place. */
module ToolScanner {
  import opened ScannerSpec
  import opened ScannerRefines
  import opened ScannerSinks
  import opened Scanner

  /** `Feed` as the code has it, with the byte it gives up when all of `pending` is taken. */
  function FeedBounded(st: ScanState, p: string, b: char): Outcome {
    if |p| < TAG_PENDING_BYTES then Feed(st, p, b)
    else
      var rest := Resolve(st, p[1..] + [b]);
      Outcome([Emit(st, p[0])] + rest.events, rest.st, rest.pending)
  }

  class ToolScanner {
    var state: ScanState
    const pending: array<char>
    var pendingLen: nat
    const jsonBuf: array<char>
    var jsonLen: nat
    const thinkBuf: array<char>
    var thinkLen: nat
    const out: array<char>
    var outLen: nat
    var toolDone: bool
    var overflow: bool

    /** The buffers are distinct and have their fixed sizes. */
    ghost predicate Shaped()
      reads this
    {
      && pending.Length == TAG_PENDING_BYTES && pendingLen <= TAG_PENDING_BYTES
      && jsonBuf.Length == MAX_TOOL_JSON_BYTES && jsonLen <= MAX_TOOL_JSON_BYTES
      && thinkBuf.Length == MAX_THINK_BYTES && thinkLen <= MAX_THINK_BYTES
      && out.Length == SCANNER_OUT_BYTES && outLen <= SCANNER_OUT_BYTES
      && pending != jsonBuf && pending != thinkBuf && pending != out
      && jsonBuf != thinkBuf && jsonBuf != out && thinkBuf != out
    }

    ghost function HeldBytes(): string
      reads this, pending
      requires Shaped()
    {
      pending[..pendingLen]
    }

    ghost function Routed(): Sinks
      reads this, jsonBuf, thinkBuf, out
      requires Shaped()
    {
      Sinks(out[..outLen], toolDone, Store(thinkBuf[..thinkLen], jsonBuf[..jsonLen], overflow))
    }

    ghost function Value(): View
      reads this, pending, jsonBuf, thinkBuf, out
      requires Shaped()
    {
      View(state, HeldBytes(), Routed())
    }

    /** Between two calls. */
    ghost predicate Valid()
      reads this, pending
    {
      Shaped() && Waiting(state, HeldBytes())
    }

    constructor ()
      ensures Valid() && Value() == FRESH
      ensures fresh(pending) && fresh(jsonBuf) && fresh(thinkBuf) && fresh(out)
    {
      state := StText;
      pending := new char[TAG_PENDING_BYTES];
      jsonBuf := new char[MAX_TOOL_JSON_BYTES];
      thinkBuf := new char[MAX_THINK_BYTES];
      out := new char[SCANNER_OUT_BYTES];
      pendingLen, jsonLen, thinkLen, outLen := 0, 0, 0, 0;
      toolDone, overflow := false, false;
      new;
      WaitingNothing();
    }

    method Reset()
      requires Shaped()
      modifies this
      ensures Valid() && Value() == FRESH
    {
      state := StText;
      pendingLen := 0;
      jsonLen := 0;
      thinkLen := 0;
      outLen := 0;
      toolDone := false;
      overflow := false;
      WaitingNothing();
    }

    // ----- bounded appends -----

    method AppendOut(b: char)
      requires Shaped()
      modifies this`outLen, this`overflow, out
      ensures Shaped() && Routed() == Route(old(Routed()), Emit(StText, b))
    {
      if outLen >= out.Length {
        overflow := true;
        return;
      }
      out[outLen] := b;
      outLen := outLen + 1;
    }

    method AppendThink(b: char)
      requires Shaped()
      modifies this`thinkLen, this`overflow, thinkBuf
      ensures Shaped() && Routed() == Route(old(Routed()), Emit(StThink, b))
    {
      if thinkLen >= thinkBuf.Length {
        overflow := true;
        return;
      }
      thinkBuf[thinkLen] := b;
      thinkLen := thinkLen + 1;
    }

    method AppendJSON(b: char)
      requires Shaped()
      modifies this`jsonLen, this`overflow, jsonBuf
      ensures Shaped() && Routed() == Route(old(Routed()), Emit(StToolJSON, b))
    {
      if jsonLen >= jsonBuf.Length {
        overflow := true;
        return;
      }
      jsonBuf[jsonLen] := b;
      jsonLen := jsonLen + 1;
    }

    // ----- the held bytes -----

    /** Routes the first held byte to the destination of the current state and shifts the rest. */
    method FlushPendingFront()
      requires Shaped()
      modifies this`pendingLen, this`outLen, this`thinkLen, this`jsonLen, this`overflow
      modifies pending, out, thinkBuf, jsonBuf
      ensures Shaped()
      ensures old(pendingLen) == 0 ==> Value() == old(Value())
      ensures old(pendingLen) > 0 ==>
                && Routed() == Route(old(Routed()), Emit(state, old(HeldBytes())[0]))
                && HeldBytes() == old(HeldBytes())[1..]
    {
      if pendingLen == 0 {
        return;
      }
      var b := pending[0];
      match state {
        case StThink => AppendThink(b);
        case StToolJSON => AppendJSON(b);
        case StText => AppendOut(b);
      }
      ShiftPending();
    }

    method ShiftPending()
      requires Shaped() && pendingLen > 0
      modifies this`pendingLen, pending
      ensures Shaped() && pendingLen == old(pendingLen) - 1
      ensures HeldBytes() == old(HeldBytes())[1..]
    {
      for i := 1 to pendingLen
        invariant pendingLen == old(pendingLen)
        invariant forall k :: 0 <= k < i - 1 ==> pending[k] == old(pending[k + 1])
        invariant forall k :: i - 1 <= k < pending.Length ==> pending[k] == old(pending[k])
      {
        pending[i - 1] := pending[i];
      }
      pendingLen := pendingLen - 1;
    }

    /** Makes room by giving up the first held byte if it must. */
    method PushPending(b: char)
      requires Shaped()
      modifies this`pendingLen, this`outLen, this`thinkLen, this`jsonLen, this`overflow
      modifies pending, out, thinkBuf, jsonBuf
      ensures Shaped()
      ensures old(pendingLen) < TAG_PENDING_BYTES ==>
                HeldBytes() == old(HeldBytes()) + [b] && Routed() == old(Routed())
      ensures old(pendingLen) == TAG_PENDING_BYTES ==>
                && HeldBytes() == old(HeldBytes())[1..] + [b]
                && Routed() == Route(old(Routed()), Emit(state, old(HeldBytes())[0]))
    {
      hide Route;
      if pendingLen >= pending.Length {
        FlushPendingFront();
      }
      HoldByte(b);
    }

    method HoldByte(b: char)
      requires Shaped() && pendingLen < TAG_PENDING_BYTES
      modifies this`pendingLen, pending
      ensures Shaped() && HeldBytes() == old(HeldBytes()) + [b] && Routed() == old(Routed())
    {
      pending[pendingLen] := b;
      pendingLen := pendingLen + 1;
    }

    // ----- tags -----

    /** Whether the held bytes are a prefix of `t`. */
    method HasPrefixBytes(t: string) returns (r: bool)
      requires Shaped()
      ensures r <==> HeldBytes() <= t
    {
      if pendingLen > |t| {
        return false;
      }
      for i := 0 to pendingLen
        invariant pending[..i] == t[..i]
      {
        if pending[i] != t[i] {
          return false;
        }
      }
      return true;
    }

    /** The tag the held bytes are, and whether they may still become one. */
    method ClassifyPending() returns (action: Action, isPrefix: bool)
      requires Shaped()
      ensures var p := HeldBytes();
              action == if |p| == |TagOf(Leading(state, p))| then Leading(state, p) else NoMatch
      ensures isPrefix <==> Prefix(state, HeldBytes())
    {
      ghost var p := HeldBytes();
      match state {
        case StText =>
          var tool := HasPrefixBytes(TOOL_OPEN);
          if tool {
            Classified(state, p, ToolOpen);
            return if pendingLen == |TOOL_OPEN| then ToolOpen else NoMatch, true;
          }
          var think := HasPrefixBytes(THINK_OPEN);
          if think {
            Classified(state, p, ThinkOpen);
            return if pendingLen == |THINK_OPEN| then ThinkOpen else NoMatch, true;
          }
        case StThink =>
          var close := HasPrefixBytes(THINK_CLOSE);
          if close {
            Classified(state, p, ThinkClose);
            return if pendingLen == |THINK_CLOSE| then ThinkClose else NoMatch, true;
          }
        case StToolJSON =>
          var close := HasPrefixBytes(TOOL_CLOSE);
          if close {
            Classified(state, p, ToolClose);
            return if pendingLen == |TOOL_CLOSE| then ToolClose else NoMatch, true;
          }
      }
      Unclassified(state, p);
      return NoMatch, false;
    }

    method ApplyAction(action: Action)
      requires Shaped()
      requires Admissible(state, action)
      modifies this`state, this`jsonLen, this`thinkLen, this`toolDone
      ensures Shaped() && state == Target(action)
      ensures Routed() == Route(old(Routed()), Tag(action))
    {
      match action {
        case ToolOpen =>
          jsonLen := 0;
          state := StToolJSON;
        case ThinkOpen =>
          thinkLen := 0;
          state := StThink;
        case ThinkClose =>
          state := StText;
        case ToolClose =>
          state := StText;
          toolDone := true;
      }
    }

    // ----- the byte-fed machine -----

    /** Until nothing is held, a tag is complete or may still become complete. */
    method ResolvePending()
      requires Shaped()
      modifies this, pending, out, thinkBuf, jsonBuf
      ensures Shaped()
      ensures var o := Resolve(old(state), old(HeldBytes()));
              state == o.st && HeldBytes() == o.pending && Routed() == RouteAll(old(Routed()), o.events)
    {
      hide Leading, Prefix, Admissible, Route, TagOf, Target, Resolve, RouteAll;
      RouteNothing(Routed());
      ResolveNothing(state);
      ghost var st, p := state, HeldBytes();
      ghost var flushed := [];
      while pendingLen > 0
        invariant Shaped() && state == st
        invariant Routed() == RouteAll(old(Routed()), flushed)
        invariant var rest := Resolve(st, HeldBytes());
                  Resolve(st, p) == Outcome(flushed + rest.events, rest.st, rest.pending)
        decreases pendingLen
      {
        ghost var q := HeldBytes();
        ghost var routed := Routed();
        var action, isPrefix := ClassifyPending();
        if action != NoMatch {
          LeadingTag(state, q);
          ResolveMatch(st, q);
          pendingLen := 0;
          ApplyAction(action);
          RouteSnoc(old(Routed()), flushed, Tag(action));
          return;
        }
        if isPrefix {
          MayResolve(st, q);
          assert flushed + [] == flushed;
          return;
        }
        FlushPendingFront();
        RouteSnoc(old(Routed()), flushed, Emit(st, q[0]));
        MayResolve(st, q);
        GaveUp(flushed, Emit(st, q[0]), Resolve(st, q[1..]).events);
        flushed := flushed + [Emit(st, q[0])];
      }
      assert flushed + [] == flushed;
    }

    method FeedByte(b: char)
      requires Shaped()
      modifies this, pending, out, thinkBuf, jsonBuf
      ensures Shaped()
      ensures var o := FeedBounded(old(state), old(HeldBytes()), b);
              state == o.st && HeldBytes() == o.pending && Routed() == RouteAll(old(Routed()), o.events)
    {
      hide Resolve, Route;
      ghost var st, p := state, HeldBytes();
      RouteOne(old(Routed()), Emit(st, b));
      match state {
        case StText =>
          if pendingLen == 0 && b != '<' {
            AppendOut(b);
            return;
          }
        case StThink =>
          if pendingLen == 0 && b != '<' {
            AppendThink(b);
            return;
          }
        case StToolJSON =>
          if pendingLen == 0 && b != '<' {
            AppendJSON(b);
            return;
          }
      }
      PushPending(b);
      if |p| == TAG_PENDING_BYTES {
        RouteOne(old(Routed()), Emit(st, p[0]));
        RouteAppend(old(Routed()), [Emit(st, p[0])], Resolve(st, p[1..] + [b]).events);
      }
      ResolvePending();
    }

    /** One fragment. The held bytes never come near their capacity, so the byte-by-byte machine
        is `Run`, which is the whole-string splitter. */
    method Push(piece: string) returns (done: bool, isTool: bool, cleanPiece: string)
      requires Valid()
      modifies this, pending, out, thinkBuf, jsonBuf
      ensures Valid()
      ensures Value() == Pushed(old(Value()), piece)
      ensures cleanPiece == Value().sinks.out && done == Value().sinks.toolDone
      ensures isTool == (done || Value().st == StToolJSON)
    {
      hide Waiting, Feed, Route;
      ghost var v := Value();
      outLen := 0;
      toolDone := false;
      ghost var start := Sinks("", false, v.sinks.store);
      assert Routed() == start;
      assert piece[..0] == "";
      for i := 0 to |piece|
        invariant Shaped() && Waiting(state, HeldBytes())
        invariant var o := Run(v.st, v.pending, piece[..i]);
                  state == o.st && HeldBytes() == o.pending && Routed() == RouteAll(start, o.events)
      {
        ghost var o := Run(v.st, v.pending, piece[..i]);
        WaitingBound(state, HeldBytes());
        FeedByte(piece[i]);
        assert piece[..i + 1][..i] == piece[..i];
        ghost var f := Feed(o.st, o.pending, piece[i]);
        RouteAppend(start, o.events, f.events);
        RunWaiting(v.st, v.pending, piece[..i + 1]);
      }
      assert piece[..|piece|] == piece;
      cleanPiece := "";
      if outLen > 0 {
        cleanPiece := out[..outLen];
      }
      return toolDone, state == StToolJSON || toolDone, cleanPiece;
    }
  }

  lemma Classified(st: ScanState, p: string, a: Action)
    requires a != NoMatch && Admissible(st, a) && p <= TagOf(a)
    ensures Leading(st, p) == if |p| == |TagOf(a)| then a else NoMatch
    ensures Prefix(st, p)
  {
    if |p| == |TagOf(a)| {
      LeadingUnique(st, p, a);
    } else if Leading(st, p) != NoMatch {
      LeadingTag(st, p);
      LeadingUnique(st, TagOf(a), a);
      LeadingUnique(st, TagOf(a), Leading(st, p));
      assert false;
    }
  }

  lemma Unclassified(st: ScanState, p: string)
    requires !Prefix(st, p)
    ensures |p| == |TagOf(Leading(st, p))| ==> Leading(st, p) == NoMatch
  {
    if |p| == |TagOf(Leading(st, p))| && Leading(st, p) != NoMatch {
      LeadingPrefix(st, p);
      assert false;
    }
  }

  lemma MayResolve(st: ScanState, q: string)
    requires q != "" && (|q| == |TagOf(Leading(st, q))| ==> Leading(st, q) == NoMatch)
    ensures Resolve(st, q) ==
            if Prefix(st, q) then Outcome([], st, q)
            else var rest := Resolve(st, q[1..]); Outcome([Emit(st, q[0])] + rest.events, rest.st, rest.pending)
  {
    hide Leading, Prefix, TagOf;
  }

  lemma ResolveMatch(st: ScanState, q: string)
    requires |q| == |TagOf(Leading(st, q))| && Leading(st, q) != NoMatch
    ensures Resolve(st, q) == Outcome([Tag(Leading(st, q))], Target(Leading(st, q)), "")
  {
    LeadingTag(st, q);
  }

  lemma ResolveNothing(st: ScanState)
    ensures Resolve(st, "") == Outcome([], st, "")
  {
  }

  lemma RouteNothing(k: Sinks)
    ensures RouteAll(k, []) == k
  {
  }

  lemma GaveUp(flushed: seq<Event>, e: Event, rest: seq<Event>)
    ensures flushed + ([e] + rest) == (flushed + [e]) + rest
  {
  }

  lemma RouteOne(k: Sinks, e: Event)
    ensures RouteAll(k, [e]) == Route(k, e)
  {
    assert [e] == [] + [e];
    RouteSnoc(k, [], e);
  }

  lemma RunWaiting(st: ScanState, p: string, s: string)
    requires Waiting(st, p)
    ensures Waiting(Run(st, p, s).st, Run(st, p, s).pending)
  {
    hide Waiting, Run, Split;
    Refine(st, p, s);
    HeldBack(st, p + s);
  }

  /** A stream in fragments through one scanner, as a caller drives it. */
  method Drain(pieces: seq<string>) returns (shown: string, s: ToolScanner)
    ensures fresh(s) && s.Valid()
    ensures s.Value() == PushAll(FRESH, pieces) && shown == Shown(FRESH, pieces)
    ensures VisibleFits(FRESH, pieces) ==>
              var o := Split(StText, Concat(pieces));
              s.state == o.st && s.HeldBytes() == o.pending && shown == Visible(o.events)
  {
    hide Waiting, Pushed, Split, Visible, VisibleFits, Concat;
    s := new ToolScanner();
    shown := "";
    assert pieces[..0] == [];
    for i := 0 to |pieces|
      invariant fresh(s) && fresh(s.pending) && fresh(s.out) && fresh(s.thinkBuf) && fresh(s.jsonBuf)
      invariant s.Valid()
      invariant s.Value() == PushAll(FRESH, pieces[..i]) && shown == Shown(FRESH, pieces[..i])
    {
      var _, _, clean := s.Push(pieces[i]);
      assert pieces[..i + 1][..i] == pieces[..i];
      shown := shown + clean;
    }
    assert pieces[..|pieces|] == pieces;
    if VisibleFits(FRESH, pieces) {
      FreshScanner(pieces);
    }
  }
}
