/** The byte-at-a-time scanner computes the whole-string split, however the stream is cut. */
module ScannerRefines {
  import opened ScannerSpec

  // ----- one more byte -----

  function Then(o: Outcome, b: char): Outcome {
    var f := Feed(o.st, o.pending, b);
    Outcome(o.events + f.events, f.st, f.pending)
  }

  lemma LeftmostIs(st: ScanState, s: string, i: nat)
    requires i <= |s|
    requires forall j :: 0 <= j < i ==> Leading(st, s[j..]) == NoMatch
    requires i < |s| ==> Leading(st, s[i..]) != NoMatch
    ensures Leftmost(st, s) == i
  {
    hide Leading;
  }

  lemma HeldIs(st: ScanState, s: string, k: nat)
    requires k <= |s| && Prefix(st, s[k..])
    requires forall j :: 0 <= j < k ==> !Prefix(st, s[j..])
    ensures Held(st, s) == k
  {
    hide Prefix;
  }

  /** A tag that needs the last byte is everything from its start on. */
  lemma TagGrows(st: ScanState, s: string, b: char)
    requires Leading(st, s + [b]) != NoMatch && Leading(st, s) == NoMatch
    ensures s + [b] == TagOf(Leading(st, s + [b]))
    ensures Prefix(st, s) && s != ""
  {
    var a := Leading(st, s + [b]);
    LeadingTag(st, s + [b]);
    if |TagOf(a)| <= |s| {
      assert TagOf(a) <= s;
      LeadingUnique(st, s, a);
    }
  }

  /** A tag found stays the tag found. */
  lemma TagStays(st: ScanState, s: string, t: string)
    requires Leading(st, s) != NoMatch
    ensures Leading(st, s + t) == Leading(st, s)
  {
    LeadingTag(st, s);
    LeadingUnique(st, s + t, Leading(st, s));
  }

  lemma EmitsNothing(st: ScanState)
    ensures Emits(st, "") == []
  {
  }

  lemma EmitsCons(st: ScanState, s: string)
    requires s != ""
    ensures Emits(st, s) == [Emit(st, s[0])] + Emits(st, s[1..])
  {
  }

  /** While the held bytes have no '<' inside, giving up gives up all of them. */
  lemma {:induction false} ResolvePlain(st: ScanState, q: string, b: char)
    requires forall i :: 0 <= i < |q| ==> q[i] != '<'
    ensures Resolve(st, q + [b]) ==
            if b == '<' then Outcome(Emits(st, q), st, [b]) else Outcome(Emits(st, q + [b]), st, "")
  {
    hide Leading, Prefix, Emits;
    NotPlain(st, q + [b]);
    EmitsCons(st, q + [b]);
    assert (q + [b])[1..] == if q == "" then "" else q[1..] + [b];
    if q == "" {
      EmitsNothing(st);
    } else {
      ResolvePlain(st, q[1..], b);
      EmitsCons(st, q);
    }
  }

  /** Bytes that do not start with '<' start no tag; "<" alone starts one and is none. */
  lemma NotPlain(st: ScanState, s: string)
    requires s != ""
    ensures s[0] != '<' ==> Leading(st, s) == NoMatch && !Prefix(st, s)
    ensures s == "<" ==> Leading(st, s) == NoMatch && Prefix(st, s)
  {
    if s[0] != '<' && Prefix(st, s) {
      PrefixShaped(st, s);
      assert false;
    }
    if Leading(st, s) != NoMatch {
      var a := Leading(st, s);
      LeadingTag(st, s);
      TagsShaped(a);
      assert s[0] == TagOf(a)[0];
    }
  }

  /** A further byte completes no tag ahead of the leftmost one: a tag has no second '<'. */
  lemma NoEarlierTag(st: ScanState, s: string, b: char, i: nat, j: nat)
    requires j < i < |s|
    requires Leading(st, s[j..]) == NoMatch && Leading(st, s[i..]) != NoMatch
    ensures Leading(st, (s + [b])[j..]) == NoMatch
  {
    hide Leading;
    assert (s + [b])[j..] == s[j..] + [b];
    var a := Leading(st, s[j..] + [b]);
    LeadingTag(st, s[i..]);
    TagsShaped(Leading(st, s[i..]));
    assert s[i..][0] == s[i] == (s[j..] + [b])[i - j] == '<';
    if a != NoMatch {
      TagGrows(st, s[j..], b);
      TagsShaped(a);
      assert false;
    }
  }

  lemma SplitFound(st: ScanState, s: string, i: nat, a: Action, n: nat)
    requires i == Leftmost(st, s) < |s| && a == Leading(st, s[i..]) && n == |TagOf(a)| && i + n <= |s|
    ensures Split(st, s) ==
            var rest := Split(Target(a), s[i + n..]);
            Outcome(Emits(st, s[..i]) + [Tag(a)] + rest.events, rest.st, rest.pending)
  {
    hide Leading, Leftmost, Target, Emits;
  }

  lemma SplitBehindTag(st: ScanState, s: string, b: char, i: nat, a: Action, n: nat)
    requires i == Leftmost(st, s) < |s| && a == Leading(st, s[i..]) && n == |TagOf(a)| && i + n <= |s|
    requires Split(Target(a), s[i + n..] + [b]) == Then(Split(Target(a), s[i + n..]), b)
    ensures Split(st, s + [b]) == Then(Split(st, s), b)
  {
    hide Leading, Feed, Target, Split, Leftmost, Emits, TagOf;
    forall j | 0 <= j < i
      ensures Leading(st, (s + [b])[j..]) == NoMatch
    {
      NoEarlierTag(st, s, b, i, j);
    }
    TagStays(st, s[i..], [b]);
    assert (s + [b])[i..] == s[i..] + [b];
    LeftmostIs(st, s + [b], i);
    assert (s + [b])[..i] == s[..i];
    assert (s + [b])[i + n..] == s[i + n..] + [b];
    SplitFound(st, s, i, a, n);
    SplitFound(st, s + [b], i, a, n);
    var rest := Split(Target(a), s[i + n..]);
    var f := Feed(rest.st, rest.pending, b);
    var front := Emits(st, s[..i]) + [Tag(a)];
    assert front + (rest.events + f.events) == (front + rest.events) + f.events;
  }

  /** With no tag in `s`, whatever the last byte completes starts in the held suffix. */
  lemma NothingAhead(st: ScanState, s: string, b: char, k: nat, j: nat)
    requires Leftmost(st, s) == |s| && k == Held(st, s) && j <= |s| && j != k
    requires Leading(st, s[k..]) == NoMatch
    ensures Leading(st, (s + [b])[j..]) == NoMatch
  {
    hide Leading;
    assert (s + [b])[j..] == s[j..] + [b];
    var a := Leading(st, s[j..] + [b]);
    if a != NoMatch {
      assert Leading(st, s[j..]) == NoMatch by {
        if j == |s| { NoTagInNothing(st, s[j..]); }
      }
      TagGrows(st, s[j..], b);
      assert k < j;
      PrefixShaped(st, s[k..]);
      PrefixShaped(st, s[j..]);
      assert false;
    }
  }

  lemma NoTagInNothing(st: ScanState, s: string)
    requires s == ""
    ensures Leading(st, s) == NoMatch
  {
  }

  lemma NoTagHeld(st: ScanState, s: string, k: nat)
    requires Leftmost(st, s) == |s| && k <= |s|
    ensures Leading(st, s[k..]) == NoMatch
  {
    hide Leading;
    if k == |s| { NoTagInNothing(st, s[k..]); }
  }

  /** The last byte completes a tag. */
  lemma SplitAtTag(st: ScanState, s: string, b: char, k: nat)
    requires Leftmost(st, s) == |s| && k == Held(st, s)
    requires Leading(st, s[k..] + [b]) != NoMatch
    ensures Split(st, s + [b]) == Then(Split(st, s), b)
  {
    hide Leading, Leftmost, Prefix, Held;
    NoTagHeld(st, s, k);
    forall j | 0 <= j < k
      ensures Leading(st, (s + [b])[j..]) == NoMatch
    {
      NothingAhead(st, s, b, k, j);
    }
    var a := Leading(st, s[k..] + [b]);
    TagGrows(st, s[k..], b);
    assert (s + [b])[k..] == s[k..] + [b];
    LeftmostIs(st, s + [b], k);
    assert (s + [b])[..k] == s[..k];
    assert (s + [b])[k + |TagOf(a)|..] == "";
    SplitNothing(Target(a));
    assert Feed(st, s[k..], b) == Outcome([Tag(a)], Target(a), "");
    assert Emits(st, s[..k]) + [Tag(a)] + [] == Emits(st, s[..k]) + [Tag(a)];
  }

  lemma SplitNothing(st: ScanState)
    ensures Split(st, "") == Outcome([], st, "")
  {
  }

  /** Where the held suffix starts after one more byte. */
  lemma HeldSnoc(st: ScanState, s: string, b: char, k: nat)
    requires k == Held(st, s)
    ensures Held(st, s + [b]) ==
            if Prefix(st, s[k..] + [b]) then k else if b == '<' then |s| else |s| + 1
  {
    hide Prefix, Leading;
    var h := if Prefix(st, s[k..] + [b]) then k else if b == '<' then |s| else |s| + 1;
    forall j | 0 <= j <= |s|
      ensures (s + [b])[j..] == s[j..] + [b]
    {
    }
    forall j | 0 <= j < h
      ensures !Prefix(st, (s + [b])[j..])
    {
      NotHeld(st, s, b, k, j);
    }
    assert (s + [b])[k..] == s[k..] + [b];
    if h == |s| {
      NotPlain(st, [b]);
      assert (s + [b])[h..] == [b];
    } else if h == |s| + 1 {
      EmptyPrefix(st);
      assert (s + [b])[h..] == "";
    }
    assert Prefix(st, (s + [b])[h..]);
    HeldIs(st, s + [b], h);
  }

  lemma NotHeld(st: ScanState, s: string, b: char, k: nat, j: nat)
    requires k == Held(st, s) && j <= |s|
    requires j == k ==> !Prefix(st, s[k..] + [b])
    requires j == |s| ==> j == k || b != '<'
    ensures !Prefix(st, (s + [b])[j..])
  {
    hide Leading, Prefix;
    assert (s + [b])[j..] == s[j..] + [b];
    if j < k && Prefix(st, s[j..] + [b]) {
      PrefixClosed(st, s[j..], [b]);
      assert false;
    }
    if k < j < |s| {
      PrefixShaped(st, s[k..]);
      assert s[k..][j - k] == s[j];
      NotPlain(st, s[j..] + [b]);
    }
    if j == |s| && j != k {
      NotPlain(st, s[j..] + [b]);
    }
  }

  lemma SplitWaits(st: ScanState, s: string, b: char, k: nat)
    requires Leftmost(st, s) == |s| && Leftmost(st, s + [b]) == |s + [b]|
    requires k == Held(st, s) == Held(st, s + [b])
    requires Leading(st, s[k..] + [b]) == NoMatch && Prefix(st, s[k..] + [b])
    ensures Split(st, s + [b]) == Then(Split(st, s), b)
  {
    hide Leading, Prefix, Leftmost, Held;
    assert (s + [b])[k..] == s[k..] + [b];
    assert (s + [b])[..k] == s[..k];
    if s[k..] == "" {
      PrefixShaped(st, [b]);
    }
    assert Feed(st, s[k..], b) == Outcome([], st, s[k..] + [b]);
    assert Emits(st, s[..k]) + [] == Emits(st, s[..k]);
  }

  lemma SplitGivesUp(st: ScanState, s: string, b: char, k: nat)
    requires Leftmost(st, s) == |s| && Leftmost(st, s + [b]) == |s + [b]|
    requires k == Held(st, s)
    requires Held(st, s + [b]) == if b == '<' then |s| else |s| + 1
    requires Leading(st, s[k..] + [b]) == NoMatch && !Prefix(st, s[k..] + [b])
    ensures Split(st, s + [b]) == Then(Split(st, s), b)
  {
    hide Leading, Prefix, Leftmost, Held, Emits, Feed;
    var p := s[k..];
    FeedGivesUp(st, p, b);
    var h := Held(st, s + [b]);
    assert (s + [b])[h..] == if b == '<' then [b] else "";
    assert s[..k] + p == s && s[..k] + (p + [b]) == s + [b];
    EmitsAppend(st, s[..k], p);
    EmitsAppend(st, s[..k], p + [b]);
    assert (s + [b])[..h] == if b == '<' then s else s + [b];
  }

  lemma EmitsAppend(st: ScanState, s: string, t: string)
    ensures Emits(st, s + t) == Emits(st, s) + Emits(st, t)
  {
  }

  lemma FeedGivesUp(st: ScanState, p: string, b: char)
    requires Prefix(st, p)
    requires Leading(st, p + [b]) == NoMatch && !Prefix(st, p + [b])
    ensures Feed(st, p, b) ==
            if b == '<' then Outcome(Emits(st, p), st, [b]) else Outcome(Emits(st, p + [b]), st, "")
  {
    hide Leading, Prefix, Emits;
    EmitsCons(st, p + [b]);
    assert (p + [b])[1..] == if p == "" then "" else p[1..] + [b];
    EmitsNothing(st);
    if p == "" {
      assert p + [b] == [b];
      NotPlain(st, [b]);
    } else {
      PrefixShaped(st, p);
      ResolvePlain(st, p[1..], b);
      EmitsCons(st, p);
    }
  }

  /** The last byte completes no tag: it is held back or set free. */
  lemma SplitNoTag(st: ScanState, s: string, b: char, k: nat)
    requires Leftmost(st, s) == |s| && k == Held(st, s)
    requires Leading(st, s[k..] + [b]) == NoMatch
    ensures Split(st, s + [b]) == Then(Split(st, s), b)
  {
    hide Leading, Prefix;
    NoTagHeld(st, s, k);
    assert (s + [b])[k..] == s[k..] + [b];
    forall j | 0 <= j < |s + [b]|
      ensures Leading(st, (s + [b])[j..]) == NoMatch
    {
      if j != k { NothingAhead(st, s, b, k, j); }
    }
    LeftmostIs(st, s + [b], |s + [b]|);
    HeldSnoc(st, s, b, k);
    if Prefix(st, s[k..] + [b]) {
      SplitWaits(st, s, b, k);
    } else {
      SplitGivesUp(st, s, b, k);
    }
  }

  /** The split of a longer string is the split of the shorter one, fed one more byte. */
  lemma {:induction false} SplitSnoc(st: ScanState, s: string, b: char)
    ensures Split(st, s + [b]) == Then(Split(st, s), b)
    decreases |s|
  {
    var i := Leftmost(st, s);
    if i < |s| {
      var a := Leading(st, s[i..]);
      LeadingTag(st, s[i..]);
      var n := |TagOf(a)|;
      SplitSnoc(Target(a), s[i + n..], b);
      SplitBehindTag(st, s, b, i, a, n);
    } else {
      var k := Held(st, s);
      if Leading(st, s[k..] + [b]) != NoMatch {
        SplitAtTag(st, s, b, k);
      } else {
        SplitNoTag(st, s, b, k);
      }
    }
  }

  // ----- the refinement -----

  /** What may be held back between two bytes: it can become a tag and is none yet. */
  predicate Waiting(st: ScanState, p: string) {
    Prefix(st, p) && Leading(st, p) == NoMatch
  }

  lemma SplitWaiting(st: ScanState, p: string)
    requires Waiting(st, p)
    ensures Split(st, p) == Outcome([], st, p)
  {
    hide Leading, Prefix;
    forall j | 0 <= j < |p|
      ensures Leading(st, p[j..]) == NoMatch
    {
      if j == 0 {
        assert p[j..] == p;
      } else {
        PrefixShaped(st, p);
        NotPlain(st, p[j..]);
      }
    }
    LeftmostIs(st, p, |p|);
    assert p[0..] == p;
    HeldIs(st, p, 0);
    assert p[..0] == "";
    EmitsNothing(st);
  }

  /** Feeding `s` byte by byte after holding `p` back cuts the stream `p + s` at its leftmost tags. */
  lemma {:induction false} Refine(st: ScanState, p: string, s: string)
    requires Waiting(st, p)
    ensures Run(st, p, s) == Split(st, p + s)
    decreases |s|
  {
    hide Waiting, Split, Feed;
    if s == "" {
      SplitWaiting(st, p);
      assert p + s == p;
    } else {
      var t, b := s[..|s| - 1], s[|s| - 1];
      Refine(st, p, t);
      SplitSnoc(st, p + t, b);
      assert (p + t) + [b] == p + s;
    }
  }

  /** What is held back at any time: empty or a proper start of an admissible tag, so at
      most eleven bytes of the 32 there is room for. */
  lemma {:induction false} HeldBack(st: ScanState, s: string)
    ensures Waiting(Split(st, s).st, Split(st, s).pending)
    decreases |s|
  {
    hide Leading, Prefix;
    var i := Leftmost(st, s);
    if i < |s| {
      var a := Leading(st, s[i..]);
      LeadingTag(st, s[i..]);
      HeldBack(Target(a), s[i + |TagOf(a)|..]);
    } else {
      NoTagHeld(st, s, Held(st, s));
    }
  }

  lemma WaitingBound(st: ScanState, p: string)
    requires Waiting(st, p)
    ensures |p| <= 11
  {
  }

  /** The text an outcome stands for. */
  function Render(events: seq<Event>): string {
    if events == [] then ""
    else Render(events[..|events| - 1]) + Source(events[|events| - 1])
  }

  function Source(e: Event): string {
    match e
    case Emit(_, b) => [b]
    case Tag(a) => TagOf(a)
  }

  lemma {:induction false} RenderAppend(a: seq<Event>, b: seq<Event>)
    ensures Render(a + b) == Render(a) + Render(b)
    decreases |b|
  {
    hide Source;
    if b == [] {
      assert a + b == a;
    } else {
      RenderAppend(a, b[..|b| - 1]);
      assert (a + b)[..|a + b| - 1] == a + b[..|b| - 1];
    }
  }

  lemma {:induction false} RenderEmits(st: ScanState, s: string)
    ensures Render(Emits(st, s)) == s
    decreases |s|
  {
    if s != "" {
      var t := s[..|s| - 1];
      RenderEmits(st, t);
      assert Emits(st, s)[..|s| - 1] == Emits(st, t);
    }
  }

  /** Nothing is lost, duplicated or reordered: the routed bytes, the tags crossed and the
      bytes held back are the stream. */
  lemma {:induction false} Conserved(st: ScanState, s: string)
    ensures Render(Split(st, s).events) + Split(st, s).pending == s
    decreases |s|
  {
    hide *;
    var i := Leftmost(st, s);
    if i < |s| {
      var a := Leading(st, s[i..]);
      LeadingTag(st, s[i..]);
      var t := TagOf(a);
      SplitFound(st, s, i, a, |t|);
      var rest := Split(Target(a), s[i + |t|..]);
      Conserved(Target(a), s[i + |t|..]);
      RenderEmits(st, s[..i]);
      RenderTag(a);
      RenderAppend(Emits(st, s[..i]), [Tag(a)]);
      RenderAppend(Emits(st, s[..i]) + [Tag(a)], rest.events);
      CutOut(s, i, t);
      Regroup(s[..i] + t, Render(rest.events), rest.pending);
    } else {
      SplitNone(st, s);
      RenderEmits(st, s[..Held(st, s)]);
    }
  }

  lemma Regroup(a: string, b: string, c: string)
    ensures (a + b) + c == a + (b + c)
  {
  }

  lemma CutOut(s: string, i: nat, t: string)
    requires i <= |s| && t <= s[i..]
    ensures s == (s[..i] + t) + s[i + |t|..]
  {
    assert s[i..][..|t|] == t;
  }

  lemma SplitNone(st: ScanState, s: string)
    requires Leftmost(st, s) == |s|
    ensures Split(st, s) == var k := Held(st, s); Outcome(Emits(st, s[..k]), st, s[k..])
  {
    hide Leftmost, Held, Emits;
  }

  lemma RenderTag(a: Action)
    ensures Render([Tag(a)]) == TagOf(a)
  {
    assert [Tag(a)][..0] == [];
  }

  /** Cutting a stream in two changes nothing. */
  lemma {:induction false} RunAppend(st: ScanState, p: string, s: string, t: string)
    ensures var first := Run(st, p, s);
            var second := Run(first.st, first.pending, t);
            Run(st, p, s + t) == Outcome(first.events + second.events, second.st, second.pending)
    decreases |t|
  {
    hide Feed;
    if t == "" {
      assert s + t == s;
      var first := Run(st, p, s);
      assert first.events + [] == first.events;
    } else {
      var u := t[..|t| - 1];
      RunAppend(st, p, s, u);
      assert (s + t)[..|s + t| - 1] == s + u;
    }
  }
}
