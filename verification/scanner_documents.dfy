/** Whole documents: text, reasoning blocks and tool calls, written out with their tags, fed to the
    scanner in any fragments, and read back. */
module ScannerDocuments {
  import opened ScannerSpec
  import opened ScannerRefines
  import opened ScannerSinks
  import opened Scanner
  import opened ToolScanner

  datatype Block = Thought(s: string) | Call(s: string)

  /** Some text and the block behind it. */
  datatype Turn = Turn(text: string, block: Block)

  function WrittenBlock(b: Block): string {
    match b
    case Thought(s) => "<think>" + s + "</think>"
    case Call(s) => "<tool_call>" + s + "</tool_call>"
  }

  /** The turns of a document, then its last text. */
  function Written(turns: seq<Turn>, last: string): string {
    if turns == [] then last
    else turns[0].text + WrittenBlock(turns[0].block) + Written(turns[1..], last)
  }

  // ----- what a reader should get -----

  function TextsOf(turns: seq<Turn>, last: string): string {
    if turns == [] then last else turns[0].text + TextsOf(turns[1..], last)
  }

  function First(s: string, n: nat): string {
    if |s| <= n then s else s[..n]
  }

  /** What is captured of a block. */
  function Fitting(b: Block): string {
    match b
    case Thought(s) => First(s, 8192)
    case Call(s) => First(s, 4096)
  }

  /** The last reasoning block, or `before` if there is none. */
  function LastThought(turns: seq<Turn>, before: string): string {
    if turns == [] then before
    else LastThought(turns[1..], if turns[0].block.Thought? then Fitting(turns[0].block) else before)
  }

  function LastCall(turns: seq<Turn>, before: string): string {
    if turns == [] then before
    else LastCall(turns[1..], if turns[0].block.Call? then Fitting(turns[0].block) else before)
  }

  predicate HasCall(turns: seq<Turn>) {
    exists i :: 0 <= i < |turns| && turns[i].block.Call?
  }

  /** Some block is longer than its buffer. */
  predicate HasLong(turns: seq<Turn>) {
    exists i :: 0 <= i < |turns| && turns[i].block.s != Fitting(turns[i].block)
  }

  // ----- which documents can be read back -----

  ghost predicate Without(s: string, tag: string) {
    forall i :: 0 <= i <= |s| ==> !(tag <= s[i..])
  }

  ghost predicate PlainText(s: string) {
    Without(s, "<think>") && Without(s, "<tool_call>")
  }

  /** The content does not close its block early. */
  ghost predicate Contained(b: Block) {
    match b
    case Thought(s) => Without(s, "</think>")
    case Call(s) => Without(s, "</tool_call>")
  }

  ghost predicate AllReadable(turns: seq<Turn>) {
    forall i :: 0 <= i < |turns| ==> PlainText(turns[i].text) && Contained(turns[i].block)
  }

  ghost predicate Readable(turns: seq<Turn>, last: string) {
    AllReadable(turns) && PlainText(last)
  }

  // ----- the splitter on a document -----

  function OpenTag(b: Block): Action {
    if b.Thought? then ThinkOpen else ToolOpen
  }

  function CloseTag(b: Block): Action {
    if b.Thought? then ThinkClose else ToolClose
  }

  function Inside(b: Block): ScanState {
    if b.Thought? then StThink else StToolJSON
  }

  lemma BlockTags(b: Block)
    ensures WrittenBlock(b) == TagOf(OpenTag(b)) + b.s + TagOf(CloseTag(b))
    ensures Admissible(StText, OpenTag(b)) && Target(OpenTag(b)) == Inside(b)
    ensures Admissible(Inside(b), CloseTag(b)) && Target(CloseTag(b)) == StText
    ensures OpenTag(b) != NoMatch && CloseTag(b) != NoMatch
  {
  }

  lemma NoTagIn(st: ScanState, s: string)
    requires forall a :: a != NoMatch && Admissible(st, a) ==> Without(s, TagOf(a))
    ensures Leftmost(st, s) == |s|
  {
    hide Leading, Leftmost, TagOf, Admissible;
    forall j | 0 <= j < |s|
      ensures Leading(st, s[j..]) == NoMatch
    {
      if Leading(st, s[j..]) != NoMatch {
        LeadingTag(st, s[j..]);
        assert false;
      }
    }
    LeftmostIs(st, s, |s|);
  }

  lemma PlainNoTag(s: string)
    requires PlainText(s)
    ensures Leftmost(StText, s) == |s|
  {
    hide Without, Leftmost;
    NoTagIn(StText, s);
  }

  lemma ContainedNoTag(b: Block)
    requires Contained(b)
    ensures Leftmost(Inside(b), b.s) == |b.s|
  {
    hide Without, Leftmost;
    NoTagIn(Inside(b), b.s);
  }

  function TurnEvents(t: Turn): seq<Event> {
    Emits(StText, t.text) + [Tag(OpenTag(t.block))] + (Emits(Inside(t.block), t.block.s) + [Tag(CloseTag(t.block))])
  }

  function EventsOf(turns: seq<Turn>): seq<Event> {
    if turns == [] then [] else TurnEvents(turns[0]) + EventsOf(turns[1..])
  }

  lemma TurnSplit(t: Turn, r: string)
    requires PlainText(t.text) && Contained(t.block)
    ensures Split(StText, t.text + WrittenBlock(t.block) + r) ==
            var rest := Split(StText, r); Outcome(TurnEvents(t) + rest.events, rest.st, rest.pending)
  {
    hide Split, Emits, Leftmost, WrittenBlock, OpenTag, CloseTag, Inside, TagOf, Target, Admissible, PlainText, Contained;
    var b := t.block;
    BlockTags(b);
    PlainNoTag(t.text);
    ContainedNoTag(b);
    var inner := b.s + TagOf(CloseTag(b)) + r;
    assert t.text + WrittenBlock(b) + r == t.text + TagOf(OpenTag(b)) + inner;
    FirstTag(StText, t.text, OpenTag(b), inner);
    FirstTag(Inside(b), b.s, CloseTag(b), r);
  }

  /** The turns split off, whatever is behind them. */
  lemma {:induction false} SplitTurns(turns: seq<Turn>, r: string)
    requires AllReadable(turns)
    ensures var o := Split(StText, r);
            Split(StText, Written(turns, r)) == Outcome(EventsOf(turns) + o.events, o.st, o.pending)
    decreases |turns|
  {
    hide Split, TurnEvents, PlainText, Contained, WrittenBlock;
    if turns == [] {
      assert [] + Split(StText, r).events == Split(StText, r).events;
    } else {
      SplitTurns(turns[1..], r);
      TurnSplit(turns[0], Written(turns[1..], r));
      AddTurn(TurnEvents(turns[0]), EventsOf(turns[1..]), Split(StText, r).events);
    }
  }

  lemma AddTurn(a: seq<Event>, b: seq<Event>, c: seq<Event>)
    ensures a + (b + c) == (a + b) + c
  {
  }

  lemma SplitWritten(turns: seq<Turn>, last: string)
    requires Readable(turns, last)
    ensures var k := Held(StText, last);
            Split(StText, Written(turns, last)) == Outcome(EventsOf(turns) + Emits(StText, last[..k]), StText, last[k..])
  {
    hide Split, Emits, Leftmost, Held, PlainText, AllReadable, EventsOf, Written;
    SplitTurns(turns, last);
    PlainNoTag(last);
    SplitNone(StText, last);
  }

  // ----- what becomes visible -----

  lemma {:induction false} EmitsVisible(st: ScanState, s: string)
    ensures Visible(Emits(st, s)) == if st == StText then s else ""
    decreases |s|
  {
    if s != "" {
      var t := s[..|s| - 1];
      EmitsVisible(st, t);
      assert Emits(st, s)[..|s| - 1] == Emits(st, t);
    }
  }

  lemma TagHidden(a: Action)
    ensures Visible([Tag(a)]) == ""
  {
    assert [Tag(a)][..0] == [];
  }

  lemma TurnVisible(t: Turn)
    ensures Visible(TurnEvents(t)) == t.text
  {
    hide Visible, Emits, OpenTag, CloseTag;
    var b := t.block;
    EmitsVisible(StText, t.text);
    EmitsVisible(Inside(b), b.s);
    TagHidden(OpenTag(b));
    TagHidden(CloseTag(b));
    VisibleAppend(Emits(StText, t.text), [Tag(OpenTag(b))]);
    VisibleAppend(Emits(Inside(b), b.s), [Tag(CloseTag(b))]);
    VisibleAppend(Emits(StText, t.text) + [Tag(OpenTag(b))], Emits(Inside(b), b.s) + [Tag(CloseTag(b))]);
  }

  lemma {:induction false} VisibleWritten(turns: seq<Turn>, last: string)
    ensures Visible(EventsOf(turns)) + last == TextsOf(turns, last)
    decreases |turns|
  {
    hide Visible, TurnEvents;
    if turns == [] {
      VisibleNothing();
    } else {
      VisibleWritten(turns[1..], last);
      TurnVisible(turns[0]);
      VisibleAppend(TurnEvents(turns[0]), EventsOf(turns[1..]));
    }
  }

  lemma VisibleNothing()
    ensures Visible([]) == ""
  {
  }

  // ----- what is captured -----

  lemma FirstMore(s: string, c: char, n: nat)
    ensures First(s + [c], n) == if |First(s, n)| < n then First(s, n) + [c] else First(s, n)
    ensures First("", n) == ""
  {
    if |s| >= n {
      assert (s + [c])[..n] == s[..n];
      assert |s| == n ==> s[..n] == s;
    }
  }

  lemma {:induction false} ThoughtKept(k: Store, s: string)
    requires k.think == ""
    ensures KeepAll(k, Emits(StThink, s)) == k.(think := First(s, 8192), overflow := k.overflow || |s| > 8192)
    decreases |s|
  {
    hide First;
    if s != "" {
      var t := s[..|s| - 1];
      ThoughtKept(k, t);
      assert Emits(StThink, s)[..|s| - 1] == Emits(StThink, t);
      FirstMore(t, s[|s| - 1], 8192);
      assert t + [s[|s| - 1]] == s;
      FirstLength(t, 8192);
    } else {
      FirstMore("", 'x', 8192);
    }
  }

  lemma FirstLength(s: string, n: nat)
    ensures |First(s, n)| == if |s| < n then |s| else n
    ensures First(s, n) == s <==> |s| <= n
  {
  }

  lemma {:induction false} CallKept(k: Store, s: string)
    requires k.json == ""
    ensures KeepAll(k, Emits(StToolJSON, s)) == k.(json := First(s, 4096), overflow := k.overflow || |s| > 4096)
    decreases |s|
  {
    hide First;
    if s != "" {
      var t := s[..|s| - 1];
      CallKept(k, t);
      assert Emits(StToolJSON, s)[..|s| - 1] == Emits(StToolJSON, t);
      FirstMore(t, s[|s| - 1], 4096);
      assert t + [s[|s| - 1]] == s;
      FirstLength(t, 4096);
    } else {
      FirstMore("", 'x', 4096);
    }
  }

  lemma {:induction false} TextKept(k: Store, s: string)
    ensures KeepAll(k, Emits(StText, s)) == k
    decreases |s|
  {
    if s != "" {
      var t := s[..|s| - 1];
      TextKept(k, t);
      assert Emits(StText, s)[..|s| - 1] == Emits(StText, t);
    }
  }

  lemma BlockKept(k: Store, b: Block)
    requires if b.Thought? then k.think == "" else k.json == ""
    ensures KeepAll(k, Emits(Inside(b), b.s)) ==
            var over := k.overflow || b.s != Fitting(b);
            if b.Thought? then k.(think := Fitting(b), overflow := over) else k.(json := Fitting(b), overflow := over)
  {
    hide KeepAll, Emits, First;
    FirstLength(b.s, 8192);
    FirstLength(b.s, 4096);
    if b.Thought? {
      ThoughtKept(k, b.s);
    } else {
      CallKept(k, b.s);
    }
  }

  lemma TagKept(k: Store, a: Action)
    ensures KeepAll(k, [Tag(a)]) == Keep(k, Tag(a))
  {
    assert [Tag(a)][..0] == [];
  }

  lemma TurnKept(k: Store, t: Turn)
    ensures KeepAll(k, TurnEvents(t)) ==
            var over := k.overflow || t.block.s != Fitting(t.block);
            if t.block.Thought? then k.(think := Fitting(t.block), overflow := over)
            else k.(json := Fitting(t.block), overflow := over)
  {
    hide KeepAll, Emits, Fitting;
    var b := t.block;
    var begun := Keep(k, Tag(OpenTag(b)));
    TextKept(k, t.text);
    TagKept(k, OpenTag(b));
    KeepAppend(k, Emits(StText, t.text), [Tag(OpenTag(b))]);
    BlockKept(begun, b);
    TagKept(KeepAll(begun, Emits(Inside(b), b.s)), CloseTag(b));
    KeepAppend(begun, Emits(Inside(b), b.s), [Tag(CloseTag(b))]);
    KeepAppend(k, Emits(StText, t.text) + [Tag(OpenTag(b))], Emits(Inside(b), b.s) + [Tag(CloseTag(b))]);
  }

  lemma {:induction false} KeptWritten(k: Store, turns: seq<Turn>)
    ensures KeepAll(k, EventsOf(turns)) ==
            Store(LastThought(turns, k.think), LastCall(turns, k.json), k.overflow || HasLong(turns))
    decreases |turns|
  {
    hide KeepAll, TurnEvents, Fitting;
    if turns == [] {
      KeptNothing(k);
    } else {
      TurnKept(k, turns[0]);
      KeptWritten(KeepAll(k, TurnEvents(turns[0])), turns[1..]);
      KeepAppend(k, TurnEvents(turns[0]), EventsOf(turns[1..]));
      LongFirst(turns);
    }
  }

  lemma LongFirst(turns: seq<Turn>)
    requires turns != []
    ensures HasLong(turns) <==> turns[0].block.s != Fitting(turns[0].block) || HasLong(turns[1..])
    ensures HasCall(turns) <==> turns[0].block.Call? || HasCall(turns[1..])
  {
    hide Fitting;
    if i :| 0 <= i < |turns| && turns[i].block.s != Fitting(turns[i].block) {
      assert i > 0 ==> turns[1..][i - 1] == turns[i];
    }
    if i :| 0 <= i < |turns| && turns[i].block.Call? {
      assert i > 0 ==> turns[1..][i - 1] == turns[i];
    }
    if i :| 0 <= i < |turns[1..]| && turns[1..][i].block.s != Fitting(turns[1..][i].block) {
      assert turns[i + 1] == turns[1..][i];
    }
    if i :| 0 <= i < |turns[1..]| && turns[1..][i].block.Call? {
      assert turns[i + 1] == turns[1..][i];
    }
  }

  lemma KeptNothing(k: Store)
    ensures KeepAll(k, []) == k
  {
  }

  lemma {:induction false} CallsReported(turns: seq<Turn>)
    ensures Tag(ToolClose) in EventsOf(turns) <==> HasCall(turns)
    decreases |turns|
  {
    if turns != [] {
      CallsReported(turns[1..]);
      TurnReported(turns[0]);
      LongFirst(turns);
    }
  }

  lemma TurnReported(t: Turn)
    ensures Tag(ToolClose) in TurnEvents(t) <==> t.block.Call?
  {
    var e := TurnEvents(t);
    assert e[|e| - 1] == Tag(CloseTag(t.block));
  }

  // ----- documents come back -----

  lemma OutcomeRead(turns: seq<Turn>, last: string)
    requires Readable(turns, last)
    ensures var o := Split(StText, Written(turns, last));
            && o.st == StText && Visible(o.events) + o.pending == TextsOf(turns, last)
            && (o.pending < "<think>" || o.pending < "<tool_call>")
            && KeepAll(Store("", "", false), o.events) == Store(LastThought(turns, ""), LastCall(turns, ""), HasLong(turns))
            && (Tag(ToolClose) in o.events <==> HasCall(turns))
  {
    hide Split, Visible, KeepAll, Emits, EventsOf, Written, PlainText, Contained, TextsOf, Held;
    var k := Held(StText, last);
    var u := last[..k];
    SplitWritten(turns, last);
    VisibleAppend(EventsOf(turns), Emits(StText, u));
    EmitsVisible(StText, u);
    VisibleWritten(turns, last);
    assert u + last[k..] == last;
    var none := Store("", "", false);
    KeptWritten(none, turns);
    TextKept(KeepAll(none, EventsOf(turns)), u);
    KeepAppend(none, EventsOf(turns), Emits(StText, u));
    CallsReported(turns);
    NoTagEmitted(u);
    HeldBack(StText, Written(turns, last));
    StartOfTag(last[k..]);
  }

  lemma StartOfTag(p: string)
    requires Waiting(StText, p)
    ensures p < "<think>" || p < "<tool_call>"
  {
    assert p <= "<think>" ==> p < "<think>" || p == "<think>";
    assert p <= "<tool_call>" ==> p < "<tool_call>" || p == "<tool_call>";
  }

  lemma NoTagEmitted(s: string)
    ensures Tag(ToolClose) !in Emits(StText, s)
  {
  }

  /** A document, however it is cut, is read back: its texts are shown (but for the start of a possible tag at
      the end), its last reasoning block and its last call are captured as far as they fit, overflow is set
      exactly if some block did not, a finished call is reported exactly if there is one, and the scanner is
      back in text. */
  lemma DocumentRead(pieces: seq<string>, turns: seq<Turn>, last: string)
    requires VisibleFits(FRESH, pieces) && Concat(pieces) == Written(turns, last) && Readable(turns, last)
    ensures var after := PushAll(FRESH, pieces);
            && after.st == StText
            && Shown(FRESH, pieces) + after.pending == TextsOf(turns, last)
            && (after.pending < "<think>" || after.pending < "<tool_call>")
            && after.sinks.store == Store(LastThought(turns, ""), LastCall(turns, ""), HasLong(turns))
            && (AnyDone(FRESH, pieces) <==> HasCall(turns))
  {
    hide *;
    FreshRun(pieces);
    OutcomeRead(turns, last);
  }

  lemma FreshRun(pieces: seq<string>)
    requires VisibleFits(FRESH, pieces)
    ensures var o, after := Split(StText, Concat(pieces)), PushAll(FRESH, pieces);
            && after.st == o.st && after.pending == o.pending
            && after.sinks.store == KeepAll(Store("", "", false), o.events)
            && Shown(FRESH, pieces) == Visible(o.events)
            && AnyDone(FRESH, pieces) == (Tag(ToolClose) in o.events)
  {
    hide Run, Split, PushAll, Shown, AnyDone, Concat, VisibleFits, KeepAll, Visible;
    Fragments(FRESH, pieces);
    WaitingNothing();
    Refine(StText, "", Concat(pieces));
    assert "" + Concat(pieces) == Concat(pieces);
  }

  /** The same for fragments of at most 8181 bytes, whatever the document. */
  lemma SmallFragmentsRead(pieces: seq<string>, turns: seq<Turn>, last: string)
    requires forall i :: 0 <= i < |pieces| ==> |pieces[i]| <= 8181
    requires Concat(pieces) == Written(turns, last) && Readable(turns, last)
    ensures var after := PushAll(FRESH, pieces);
            && after.st == StText
            && Shown(FRESH, pieces) + after.pending == TextsOf(turns, last)
            && (after.pending < "<think>" || after.pending < "<tool_call>")
            && after.sinks.store == Store(LastThought(turns, ""), LastCall(turns, ""), HasLong(turns))
            && (AnyDone(FRESH, pieces) <==> HasCall(turns))
  {
    hide Concat, Written, Readable, PushAll, Shown, AnyDone, TextsOf, LastThought, LastCall, HasCall, VisibleFits, Split, Waiting;
    WaitingNothing();
    SmallFragmentsFit(FRESH, pieces);
    DocumentRead(pieces, turns, last);
  }

  // ----- a document that stops inside a block -----

  function Opening(b: Block): string {
    match b
    case Thought(_) => "<think>"
    case Call(_) => "<tool_call>"
  }

  lemma UnfinishedSplit(turns: seq<Turn>, t: string, b: Block)
    requires AllReadable(turns) && PlainText(t) && Contained(b)
    ensures var k := Held(Inside(b), b.s);
            Split(StText, Written(turns, t + Opening(b) + b.s)) ==
            Outcome(EventsOf(turns) + (Emits(StText, t) + [Tag(OpenTag(b))] + Emits(Inside(b), b.s[..k])), Inside(b), b.s[k..])
  {
    hide Split, Emits, Leftmost, Held, PlainText, AllReadable, EventsOf, Written, Contained;
    SplitTurns(turns, t + Opening(b) + b.s);
    BlockTags(b);
    PlainNoTag(t);
    FirstTag(StText, t, OpenTag(b), b.s);
    ContainedNoTag(b);
    SplitNone(Inside(b), b.s);
    assert Opening(b) == TagOf(OpenTag(b));
  }

  lemma UnfinishedOutcome(turns: seq<Turn>, t: string, b: Block)
    requires AllReadable(turns) && PlainText(t) && Contained(b) && Fitting(b) == b.s
    ensures var o := Split(StText, Written(turns, t + Opening(b) + b.s));
            var kept := KeepAll(Store("", "", false), o.events);
            && o.st == (if b.Thought? then StThink else StToolJSON)
            && Visible(o.events) == TextsOf(turns, t)
            && (if b.Thought? then kept.think else kept.json) + o.pending == b.s
  {
    hide Split, Visible, KeepAll, Emits, EventsOf, Written, PlainText, Contained, TextsOf, Held, AllReadable, First, HasLong;
    var k := Held(Inside(b), b.s);
    var u, tag, none := b.s[..k], [Tag(OpenTag(b))], Store("", "", false);
    var before := EventsOf(turns) + Emits(StText, t) + tag;
    UnfinishedSplit(turns, t, b);
    assert EventsOf(turns) + (Emits(StText, t) + tag + Emits(Inside(b), u)) == before + Emits(Inside(b), u);
    VisibleAppend(before, Emits(Inside(b), u));
    VisibleAppend(EventsOf(turns) + Emits(StText, t), tag);
    VisibleAppend(EventsOf(turns), Emits(StText, t));
    EmitsVisible(StText, t);
    EmitsVisible(Inside(b), u);
    TagHidden(OpenTag(b));
    VisibleWritten(turns, t);
    KeepAppend(none, before, Emits(Inside(b), u));
    KeepAppend(none, EventsOf(turns) + Emits(StText, t), tag);
    TagKept(KeepAll(none, EventsOf(turns) + Emits(StText, t)), OpenTag(b));
    var part := if b.Thought? then Thought(u) else Call(u);
    BlockKept(KeepAll(none, before), part);
    FittingPart(b, part);
    assert u + b.s[k..] == b.s;
  }

  lemma FittingPart(b: Block, part: Block)
    requires Fitting(b) == b.s && part.s <= b.s && b.Thought? == part.Thought?
    ensures Fitting(part) == part.s
  {
  }

  /** While a block is open its content is captured and not shown, and the scanner is in its state. */
  lemma UnfinishedRead(pieces: seq<string>, turns: seq<Turn>, t: string, b: Block)
    requires VisibleFits(FRESH, pieces) && Concat(pieces) == Written(turns, t + Opening(b) + b.s)
    requires AllReadable(turns) && PlainText(t) && Contained(b) && Fitting(b) == b.s
    ensures var after := PushAll(FRESH, pieces);
            && after.st == (if b.Thought? then StThink else StToolJSON)
            && Shown(FRESH, pieces) == TextsOf(turns, t)
            && (if b.Thought? then after.sinks.store.think else after.sinks.store.json) + after.pending == b.s
  {
    hide *;
    FreshRun(pieces);
    UnfinishedOutcome(turns, t, b);
  }

  // ----- the class -----

  /** What the buffers of a scanner hold once a document has gone through it. */
  method ReadDocument(pieces: seq<string>, ghost turns: seq<Turn>, ghost last: string) returns (shown: string, s: ToolScanner)
    requires forall i :: 0 <= i < |pieces| ==> |pieces[i]| <= 8181
    requires Concat(pieces) == Written(turns, last) && Readable(turns, last)
    ensures fresh(s) && s.Valid() && s.state == StText
    ensures shown + s.pending[..s.pendingLen] == TextsOf(turns, last)
    ensures s.thinkBuf[..s.thinkLen] == LastThought(turns, "") && s.jsonBuf[..s.jsonLen] == LastCall(turns, "")
    ensures s.overflow == HasLong(turns)
  {
    hide Concat, Written, Readable, PushAll, Shown, AnyDone, TextsOf, LastThought, LastCall, HasCall, HasLong, VisibleFits, Split, Visible, Waiting;
    shown, s := Drain(pieces);
    SmallFragmentsRead(pieces, turns, last);
  }

  // ----- one block -----

  lemma OneTurn(t: string, b: Block, r: string)
    ensures Written([Turn(t, b)], r) == t + WrittenBlock(b) + r
    ensures TextsOf([Turn(t, b)], r) == t + r
  {
    var turns := [Turn(t, b)];
    assert turns[1..] == [];
  }

  /** A complete call in a stream, with a payload that fits, reaches the caller whole: the text
      around it is shown, the payload is in the JSON buffer, the end of the call is reported. */
  lemma ToolCallExtracted(pieces: seq<string>, t: string, payload: string, r: string)
    requires VisibleFits(FRESH, pieces)
    requires Concat(pieces) == t + "<tool_call>" + payload + "</tool_call>" + r
    requires PlainText(t) && PlainText(r) && Without(payload, "</tool_call>") && |payload| <= 4096
    ensures var after := PushAll(FRESH, pieces);
            && Shown(FRESH, pieces) + after.pending == t + r
            && after.sinks.store.json == payload && after.sinks.store.think == ""
            && after.st == StText && AnyDone(FRESH, pieces)
  {
    hide Concat, PushAll, Shown, AnyDone, VisibleFits, PlainText, Without, Written, TextsOf;
    var turns := [Turn(t, Call(payload))];
    OneTurn(t, Call(payload), r);
    assert t + WrittenBlock(Call(payload)) + r == t + "<tool_call>" + payload + "</tool_call>" + r;
    DocumentRead(pieces, turns, r);
    assert turns[1..] == [];
  }

  /** A complete reasoning block is hidden from the user and captured, and the answer behind it is shown. */
  lemma ThoughtHidden(pieces: seq<string>, t: string, thought: string, r: string)
    requires VisibleFits(FRESH, pieces)
    requires Concat(pieces) == t + "<think>" + thought + "</think>" + r
    requires PlainText(t) && PlainText(r) && Without(thought, "</think>") && |thought| <= 8192
    ensures var after := PushAll(FRESH, pieces);
            && Shown(FRESH, pieces) + after.pending == t + r
            && after.sinks.store.think == thought && after.sinks.store.json == ""
            && after.st == StText && !AnyDone(FRESH, pieces)
  {
    hide Concat, PushAll, Shown, AnyDone, VisibleFits, PlainText, Without, Written, TextsOf;
    var turns := [Turn(t, Thought(thought))];
    OneTurn(t, Thought(thought), r);
    assert t + WrittenBlock(Thought(thought)) + r == t + "<think>" + thought + "</think>" + r;
    DocumentRead(pieces, turns, r);
    assert turns[1..] == [];
  }
}
