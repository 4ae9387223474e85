/** Splitting a model's output into visible text, reasoning and tool payload, specified on
    whole strings, and the byte-at-a-time form that must agree with it. A Go string is
    a sequence of bytes; each `char` here is one byte. */
module ScannerSpec {

  datatype ScanState = StText | StThink | StToolJSON

  datatype Action = NoMatch | ToolOpen | ThinkOpen | ToolClose | ThinkClose

  const TOOL_OPEN := "<tool_call>"
  const TOOL_CLOSE := "</tool_call>"
  const THINK_OPEN := "<think>"
  const THINK_CLOSE := "</think>"

  function TagOf(a: Action): string {
    match a
    case NoMatch => ""
    case ToolOpen => TOOL_OPEN
    case ThinkOpen => THINK_OPEN
    case ToolClose => TOOL_CLOSE
    case ThinkClose => THINK_CLOSE
  }

  /** The tags a state looks for. */
  predicate Admissible(st: ScanState, a: Action) {
    match st
    case StText => a == ToolOpen || a == ThinkOpen
    case StThink => a == ThinkClose
    case StToolJSON => a == ToolClose
  }

  function Target(a: Action): ScanState {
    match a
    case ToolOpen => StToolJSON
    case ThinkOpen => StThink
    case _ => StText
  }

  /** What the scanner does: route a byte to the destination of a state, or cross a tag. */
  datatype Event = Emit(st: ScanState, b: char) | Tag(a: Action)

  datatype Outcome = Outcome(events: seq<Event>, st: ScanState, pending: string)

  // ----- the whole-string splitter -----

  predicate TagAt(st: ScanState, s: string, a: Action) {
    Admissible(st, a) && TagOf(a) <= s
  }

  /** The admissible tag `s` starts with, if any. */
  function Leading(st: ScanState, s: string): Action {
    if TagAt(st, s, ToolOpen) then ToolOpen
    else if TagAt(st, s, ThinkOpen) then ThinkOpen
    else if TagAt(st, s, ToolClose) then ToolClose
    else if TagAt(st, s, ThinkClose) then ThinkClose
    else NoMatch
  }

  /** The position of the leftmost admissible tag, or `|s|` if there is none. */
  function Leftmost(st: ScanState, s: string): (i: nat)
    ensures i <= |s|
    ensures forall j :: 0 <= j < i ==> Leading(st, s[j..]) == NoMatch
    ensures i < |s| ==> Leading(st, s[i..]) != NoMatch
  {
    if s == "" || Leading(st, s) != NoMatch then 0
    else
      var i := Leftmost(st, s[1..]);
      assert forall j :: 1 <= j <= |s| ==> s[j..] == s[1..][j - 1..];
      i + 1
  }

  /** `p` can still grow into (or is) an admissible tag. */
  predicate Prefix(st: ScanState, p: string) {
    match st
    case StText => p <= TOOL_OPEN || p <= THINK_OPEN
    case StThink => p <= THINK_CLOSE
    case StToolJSON => p <= TOOL_CLOSE
  }

  /** Where the longest suffix that may still become a tag starts. */
  function Held(st: ScanState, s: string): (k: nat)
    ensures k <= |s| && Prefix(st, s[k..])
    ensures forall j :: 0 <= j < k ==> !Prefix(st, s[j..])
  {
    if Prefix(st, s) then 0
    else
      var k := Held(st, s[1..]);
      assert forall j :: 1 <= j <= |s| ==> s[j..] == s[1..][j - 1..];
      k + 1
  }

  function Emits(st: ScanState, s: string): (e: seq<Event>)
    ensures |e| == |s|
  {
    seq(|s|, i requires 0 <= i < |s| => Emit(st, s[i]))
  }

  /** Cut at the leftmost admissible tag, continue behind it in the state it opens; at the
      end hold back what may still become a tag. */
  function Split(st: ScanState, s: string): Outcome
    decreases |s|
  {
    var i := Leftmost(st, s);
    if i < |s| then
      var a := Leading(st, s[i..]);
      LeadingTag(st, s[i..]);
      var rest := Split(Target(a), s[i + |TagOf(a)|..]);
      Outcome(Emits(st, s[..i]) + [Tag(a)] + rest.events, rest.st, rest.pending)
    else
      var k := Held(st, s);
      Outcome(Emits(st, s[..k]), st, s[k..])
  }

  // ----- one byte at a time -----

  /** `pending` holds `p`: wait, cross a tag, or give up the first byte and try again. */
  function Resolve(st: ScanState, p: string): Outcome {
    if p == "" then Outcome([], st, "")
    else if Leading(st, p) != NoMatch && |p| == |TagOf(Leading(st, p))| then
      Outcome([Tag(Leading(st, p))], Target(Leading(st, p)), "")
    else if Prefix(st, p) then Outcome([], st, p)
    else
      var rest := Resolve(st, p[1..]);
      Outcome([Emit(st, p[0])] + rest.events, rest.st, rest.pending)
  }

  function Feed(st: ScanState, p: string, b: char): Outcome {
    if p == "" && b != '<' then Outcome([Emit(st, b)], st, "")
    else Resolve(st, p + [b])
  }

  /** Feeding `s` byte by byte. */
  function Run(st: ScanState, p: string, s: string): Outcome {
    if s == "" then Outcome([], st, p)
    else
      var before := Run(st, p, s[..|s| - 1]);
      var last := Feed(before.st, before.pending, s[|s| - 1]);
      Outcome(before.events + last.events, last.st, last.pending)
  }

  // ----- the shape of the tags -----

  /** A tag starts with '<' and has no other '<'. */
  ghost predicate TagShaped(t: string) {
    1 < |t| <= 12 && t[0] == '<' && forall i :: 0 < i < |t| ==> t[i] != '<'
  }

  lemma TagsShaped(a: Action)
    requires a != NoMatch
    ensures TagShaped(TagOf(a))
  {
  }

  lemma LeadingTag(st: ScanState, s: string)
    requires Leading(st, s) != NoMatch
    ensures var a := Leading(st, s); Admissible(st, a) && TagOf(a) <= s && |TagOf(a)| > 1
  {
  }

  /** The two tags text looks for differ in their third byte, so at most one admissible tag fits. */
  lemma LeadingUnique(st: ScanState, s: string, a: Action)
    requires a != NoMatch && Admissible(st, a) && TagOf(a) <= s
    ensures Leading(st, s) == a
  {
    if st == StText {
      OpenTagsDiffer(s);
    }
  }

  lemma OpenTagsDiffer(s: string)
    ensures TOOL_OPEN <= s ==> !(THINK_OPEN <= s)
  {
    if TOOL_OPEN <= s {
      assert s[2] == TOOL_OPEN[2];
      assert THINK_OPEN[2] != s[2];
    }
  }

  /** Every non-empty prefix of a tag starts with '<' and has no other. */
  lemma PrefixShaped(st: ScanState, p: string)
    requires Prefix(st, p) && p != ""
    ensures p[0] == '<' && |p| <= 12 && forall i :: 0 < i < |p| ==> p[i] != '<'
  {
    TagsShaped(ToolOpen);
    TagsShaped(ThinkOpen);
    TagsShaped(ToolClose);
    TagsShaped(ThinkClose);
  }

  lemma PrefixClosed(st: ScanState, p: string, q: string)
    requires Prefix(st, p + q)
    ensures Prefix(st, p)
  {
  }

  lemma EmptyPrefix(st: ScanState)
    ensures Prefix(st, "")
  {
  }

  /** A tag is a prefix of itself. */
  lemma LeadingPrefix(st: ScanState, p: string)
    requires Leading(st, p) != NoMatch && |p| == |TagOf(Leading(st, p))|
    ensures Prefix(st, p) && p == TagOf(Leading(st, p))
  {
  }
}
