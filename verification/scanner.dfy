/** The tool scanner: a stream fed in arbitrary fragments through fixed buffers. */
module Scanner {
  import opened ScannerSpec
  import opened ScannerRefines
  import opened ScannerSinks

  /** The abstract value of a scanner. */
  datatype View = View(st: ScanState, pending: string, sinks: Sinks)

  const FRESH := View(StText, "", Sinks("", false, Store("", "", false)))

  /** One call of Push: the visible buffer and `toolDone` start afresh. */
  function Pushed(v: View, piece: string): View {
    var o := Run(v.st, v.pending, piece);
    View(o.st, o.pending, RouteAll(Sinks("", false, v.sinks.store), o.events))
  }

  function PushAll(v: View, pieces: seq<string>): View {
    if pieces == [] then v else Pushed(PushAll(v, pieces[..|pieces| - 1]), pieces[|pieces| - 1])
  }

  /** The visible texts the calls return, joined. */
  function Shown(v: View, pieces: seq<string>): string {
    if pieces == [] then "" else Shown(v, pieces[..|pieces| - 1]) + PushAll(v, pieces).sinks.out
  }

  /** Whether some call reports the end of a tool call. */
  function AnyDone(v: View, pieces: seq<string>): bool {
    pieces != [] && (AnyDone(v, pieces[..|pieces| - 1]) || PushAll(v, pieces).sinks.toolDone)
  }

  function Concat(pieces: seq<string>): string {
    if pieces == [] then "" else Concat(pieces[..|pieces| - 1]) + pieces[|pieces| - 1]
  }

  /** No call of Push routes more visible text than its buffer holds. */
  predicate VisibleFits(v: View, pieces: seq<string>) {
    pieces != [] ==>
      var before := PushAll(v, pieces[..|pieces| - 1]);
      && VisibleFits(v, pieces[..|pieces| - 1])
      && |Visible(Run(before.st, before.pending, pieces[|pieces| - 1]).events)| <= SCANNER_OUT_BYTES
  }

  /** However a stream is cut, a scanner ends where one pass over the whole stream ends. */
  lemma {:induction false} Fragments(v: View, pieces: seq<string>)
    requires VisibleFits(v, pieces)
    ensures var o, after := Run(v.st, v.pending, Concat(pieces)), PushAll(v, pieces);
            && after.st == o.st && after.pending == o.pending
            && after.sinks.store == KeepAll(v.sinks.store, o.events)
            && Shown(v, pieces) == Visible(o.events)
            && AnyDone(v, pieces) == (Tag(ToolClose) in o.events)
    decreases |pieces|
  {
    hide Run, RouteAll, KeepAll, Visible;
    if pieces == [] {
      RunNothing(v);
    } else {
      var front, piece := pieces[..|pieces| - 1], pieces[|pieces| - 1];
      Fragments(v, front);
      var before := PushAll(v, front);
      var first := Run(v.st, v.pending, Concat(front));
      var second := Run(before.st, before.pending, piece);
      RunAppend(v.st, v.pending, Concat(front), piece);
      RouteFits(Sinks("", false, before.sinks.store), second.events);
      KeepAppend(v.sinks.store, first.events, second.events);
      VisibleAppend(first.events, second.events);
    }
  }

  lemma RunNothing(v: View)
    ensures Run(v.st, v.pending, "") == Outcome([], v.st, v.pending)
    ensures KeepAll(v.sinks.store, []) == v.sinks.store && Visible([]) == ""
  {
  }

  /** Two cuttings of one stream that overflow no visible buffer are indistinguishable. */
  lemma FragmentationInvariance(v: View, one: seq<string>, two: seq<string>)
    requires Concat(one) == Concat(two)
    requires VisibleFits(v, one) && VisibleFits(v, two)
    ensures var a, b := PushAll(v, one), PushAll(v, two);
            && a.st == b.st && a.pending == b.pending && a.sinks.store == b.sinks.store
            && Shown(v, one) == Shown(v, two)
            && AnyDone(v, one) == AnyDone(v, two)
  {
    hide *;
    Fragments(v, one);
    Fragments(v, two);
  }

  /** A scanner in use: what it holds back may still become a tag. */
  predicate Settled(v: View) {
    Waiting(v.st, v.pending)
  }

  lemma PushSettled(v: View, piece: string)
    requires Settled(v)
    ensures Settled(Pushed(v, piece))
  {
    hide Waiting, RouteAll;
    Refine(v.st, v.pending, piece);
    HeldBack(v.st, v.pending + piece);
  }

  lemma {:induction false} PushAllSettled(v: View, pieces: seq<string>)
    requires Settled(v)
    ensures Settled(PushAll(v, pieces))
    decreases |pieces|
  {
    hide Settled, Pushed;
    if pieces != [] {
      PushAllSettled(v, pieces[..|pieces| - 1]);
      PushSettled(PushAll(v, pieces[..|pieces| - 1]), pieces[|pieces| - 1]);
    }
  }

  lemma {:induction false} VisibleWithin(events: seq<Event>)
    ensures |Visible(events)| <= |Render(events)|
    decreases |events|
  {
    hide TagOf;
    if events != [] {
      VisibleWithin(events[..|events| - 1]);
    }
  }

  /** A fragment and what was held back bound the visible text of one call. */
  lemma VisibleBound(st: ScanState, p: string, piece: string)
    requires Waiting(st, p)
    ensures |Visible(Run(st, p, piece).events)| <= |p| + |piece| <= 11 + |piece|
  {
    hide Waiting, Run, Split, Visible, Render;
    Refine(st, p, piece);
    Conserved(st, p + piece);
    VisibleWithin(Run(st, p, piece).events);
    WaitingBound(st, p);
  }

  /** Fragments of at most 8181 bytes never overflow the visible buffer. */
  lemma {:induction false} SmallFragmentsFit(v: View, pieces: seq<string>)
    requires Settled(v)
    requires forall i :: 0 <= i < |pieces| ==> |pieces[i]| + 11 <= SCANNER_OUT_BYTES
    ensures VisibleFits(v, pieces)
    decreases |pieces|
  {
    hide Waiting, Run, Visible, Pushed, PushAll;
    if pieces != [] {
      var front := pieces[..|pieces| - 1];
      SmallFragmentsFit(v, front);
      PushAllSettled(v, front);
      var before := PushAll(v, front);
      VisibleBound(before.st, before.pending, pieces[|pieces| - 1]);
    }
  }

  /** A fresh scanner, however it is fed, is the whole-string splitter. */
  lemma FreshScanner(pieces: seq<string>)
    requires VisibleFits(FRESH, pieces)
    ensures var o, after := Split(StText, Concat(pieces)), PushAll(FRESH, pieces);
            && after.st == o.st && after.pending == o.pending
            && Shown(FRESH, pieces) == Visible(o.events)
            && after.sinks.store.think == Truncate(Captured("", StThink, o.events), MAX_THINK_BYTES)
            && after.sinks.store.json == Truncate(Captured("", StToolJSON, o.events), MAX_TOOL_JSON_BYTES)
            && (after.sinks.store.overflow <==>
                Overran("", StThink, MAX_THINK_BYTES, o.events)
                || Overran("", StToolJSON, MAX_TOOL_JSON_BYTES, o.events))
            && AnyDone(FRESH, pieces) == (Tag(ToolClose) in o.events)
  {
    hide Run, Split, PushAll, Shown, AnyDone, Concat, VisibleFits, KeepAll, Visible, Truncate, Captured, Overran;
    var stream := Concat(pieces);
    Fragments(FRESH, pieces);
    WaitingNothing();
    Refine(StText, "", stream);
    assert "" + stream == stream;
    Captures(Split(StText, stream).events);
  }

  lemma WaitingNothing()
    ensures Waiting(StText, "")
  {
  }

  // ----- text up to a tag -----

  /** Behind text without a tag, the next tag is the one that ends that text. */
  lemma FirstTag(st: ScanState, t: string, a: Action, r: string)
    requires Leftmost(st, t) == |t| && a != NoMatch && Admissible(st, a)
    ensures Split(st, t + TagOf(a) + r) ==
            var rest := Split(Target(a), r);
            Outcome(Emits(st, t) + [Tag(a)] + rest.events, rest.st, rest.pending)
  {
    hide Leading, Split, Emits, Leftmost, Target, Admissible;
    var s := t + TagOf(a) + r;
    forall j | 0 <= j < |t|
      ensures Leading(st, s[j..]) == NoMatch
    {
      NoTagBefore(st, t, a, r, j);
    }
    assert s[|t|..] == TagOf(a) + r;
    TagsShaped(a);
    LeadingUnique(st, TagOf(a) + r, a);
    LeftmostIs(st, s, |t|);
    assert s[..|t|] == t && s[|t| + |TagOf(a)|..] == r;
    SplitFound(st, s, |t|, a, |TagOf(a)|);
  }

  lemma NoTagBefore(st: ScanState, t: string, a: Action, r: string, j: nat)
    requires Leftmost(st, t) == |t| && a != NoMatch && j < |t|
    ensures Leading(st, (t + TagOf(a) + r)[j..]) == NoMatch
  {
    hide Leading;
    var s := (t + TagOf(a) + r)[j..];
    var c := Leading(st, s);
    TagsShaped(a);
    assert s[|t| - j] == '<';
    if c != NoMatch {
      LeadingTag(st, s);
      TagsShaped(c);
      assert |TagOf(c)| <= |t| - j;
      assert TagOf(c) <= t[j..];
      LeadingUnique(st, t[j..], c);
      assert false;
    }
  }
}
