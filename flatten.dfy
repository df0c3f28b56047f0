/**
 * Flattening (src/util.rs): the depth-first walk that turns a `Text` tree
 * into calls on a `TextFlattener`, and `StackFlattener`, the flattener that
 * keeps a stack of cumulative styles and hands each piece of content, with
 * the style it resolves to, to a consumer.
 *
 * The protocol is stated once, as the sequence of calls `Events(t)`; each
 * flattener records the calls it receives in a ghost `received` trace, and
 * the walk is proved to produce exactly `Events(t)`.
 */
module Flattening {
  import opened Options
  import opened Styles
  import opened Texts

  /** One call on a `TextFlattener`. */
  datatype Event = PushEvent(style: TextStyle) | ContentEvent(content: string) | PopEvent(style: TextStyle)

  /** The calls `flatten` makes for `t`: push its style, its content, each child in order, pop its style. */
  function Events(t: Text): seq<Event>
    decreases t
  {
    [PushEvent(t.style), ContentEvent(t.content)] + EventsAll(t.children) + [PopEvent(t.style)]
  }

  function EventsAll(ts: seq<Text>): seq<Event>
    decreases ts
  {
    if ts == [] then [] else EventsAll(ts[..|ts| - 1]) + Events(ts[|ts| - 1])
  }

  /**
   * Each node costs exactly three calls; the walk of a node opens with its
   * own push and content and closes with its own pop.
   */
  lemma {:induction false} EventsShape(t: Text)
    ensures |Events(t)| == 3 * Size(t)
    ensures Events(t)[0] == PushEvent(t.style) && Events(t)[1] == ContentEvent(t.content)
    ensures Events(t)[|Events(t)| - 1] == PopEvent(t.style)
    decreases t
  {
    EventsAllLength(t.children);
  }

  lemma {:induction false} EventsAllLength(ts: seq<Text>)
    ensures |EventsAll(ts)| == 3 * SizeAll(ts)
    decreases ts
  {
    if ts != [] {
      EventsAllLength(ts[..|ts| - 1]);
      EventsShape(ts[|ts| - 1]);
    }
  }

  // Tallies of a call sequence.

  function Pushes(es: seq<Event>): nat {
    if es == [] then 0 else (if es[0].PushEvent? then 1 else 0) + Pushes(es[1..])
  }

  function Pops(es: seq<Event>): nat {
    if es == [] then 0 else (if es[0].PopEvent? then 1 else 0) + Pops(es[1..])
  }

  /** The contents passed to `content`, in call order. */
  function ContentsOf(es: seq<Event>): seq<string> {
    if es == [] then [] else (if es[0].ContentEvent? then [es[0].content] else []) + ContentsOf(es[1..])
  }

  lemma {:induction false} TallyAppend(a: seq<Event>, b: seq<Event>)
    ensures Pushes(a + b) == Pushes(a) + Pushes(b)
    ensures Pops(a + b) == Pops(a) + Pops(b)
    ensures ContentsOf(a + b) == ContentsOf(a) + ContentsOf(b)
  {
    if a == [] {
      assert a + b == b;
    } else {
      var e := a[0];
      assert (a + b)[0] == e && (a + b)[1..] == a[1..] + b;
      TallyAppend(a[1..], b);
      assert Pushes(a + b) == (if e.PushEvent? then 1 else 0) + Pushes(a[1..] + b);
      assert Pops(a + b) == (if e.PopEvent? then 1 else 0) + Pops(a[1..] + b);
      calc {
        ContentsOf(a + b);
        (if e.ContentEvent? then [e.content] else []) + ContentsOf(a[1..] + b);
        (if e.ContentEvent? then [e.content] else []) + (ContentsOf(a[1..]) + ContentsOf(b));
      }
    }
  }

  /**
   * Every node is entered once, shown once and exited once: as many pushes,
   * pops and contents as nodes, and the contents are the pre-order listing.
   */
  lemma {:induction false} EventTally(t: Text)
    ensures Pushes(Events(t)) == Size(t) && Pops(Events(t)) == Size(t)
    ensures ContentsOf(Events(t)) == PreOrder(t) && |ContentsOf(Events(t))| == Size(t)
    decreases t
  {
    var enter := [PushEvent(t.style), ContentEvent(t.content)];
    var inner := EventsAll(t.children);
    EventTallyAll(t.children);
    TallyAppend(enter, inner);
    TallyAppend(enter + inner, [PopEvent(t.style)]);
    assert Pushes(enter) == 1 && Pops(enter) == 0 && ContentsOf(enter) == [t.content] by {
      assert enter[1..] == [ContentEvent(t.content)];
    }
    PreOrderLength(t);
  }

  lemma {:induction false} EventTallyAll(ts: seq<Text>)
    ensures Pushes(EventsAll(ts)) == SizeAll(ts) && Pops(EventsAll(ts)) == SizeAll(ts)
    ensures ContentsOf(EventsAll(ts)) == PreOrderAll(ts)
    decreases ts
  {
    if ts != [] {
      EventTallyAll(ts[..|ts| - 1]);
      EventTally(ts[|ts| - 1]);
      TallyAppend(EventsAll(ts[..|ts| - 1]), Events(ts[|ts| - 1]));
    }
  }

  /**
   * A checker of the nesting: replays the calls on a stack of the styles
   * entered and not yet exited, and fails (`None`) at a pop that does not
   * exit the most recently entered style.
   */
  function Replay(open: seq<TextStyle>, es: seq<Event>): Option<seq<TextStyle>>
    decreases |es|
  {
    if es == [] then Some(open)
    else match es[0]
      case PushEvent(s) => Replay(open + [s], es[1..])
      case ContentEvent(_) => Replay(open, es[1..])
      case PopEvent(s) =>
        if open != [] && open[|open| - 1] == s then Replay(open[..|open| - 1], es[1..]) else None
  }

  lemma {:induction false} ReplayAppend(open: seq<TextStyle>, a: seq<Event>, b: seq<Event>)
    ensures Replay(open, a).None? ==> Replay(open, a + b).None?
    ensures Replay(open, a).Some? ==> Replay(open, a + b) == Replay(Replay(open, a).value, b)
    decreases |a|
  {
    if a == [] {
      assert a + b == b;
    } else {
      assert (a + b)[0] == a[0] && (a + b)[1..] == a[1..] + b;
      match a[0]
      case PushEvent(s) => ReplayAppend(open + [s], a[1..], b);
      case ContentEvent(_) => ReplayAppend(open, a[1..], b);
      case PopEvent(s) =>
        if open != [] && open[|open| - 1] == s {
          ReplayAppend(open[..|open| - 1], a[1..], b);
        }
    }
  }

  lemma {:induction false} EventsReturnToOpen(t: Text, open: seq<TextStyle>)
    ensures Replay(open, Events(t)) == Some(open)
    decreases t
  {
    var enter := [PushEvent(t.style), ContentEvent(t.content)];
    var inside := open + [t.style];
    assert Replay(open, enter) == Some(inside) by {
      assert enter[0] == PushEvent(t.style) && enter[1..] == [ContentEvent(t.content)];
      assert Replay(inside, [ContentEvent(t.content)]) == Replay(inside, []);
    }
    EventsAllReturnToOpen(t.children, inside);
    ReplayAppend(open, enter, EventsAll(t.children));
    ReplayAppend(open, enter + EventsAll(t.children), [PopEvent(t.style)]);
    assert inside[..|inside| - 1] == open;
  }

  lemma {:induction false} EventsAllReturnToOpen(ts: seq<Text>, open: seq<TextStyle>)
    ensures Replay(open, EventsAll(ts)) == Some(open)
    decreases ts
  {
    if ts != [] {
      EventsAllReturnToOpen(ts[..|ts| - 1], open);
      EventsReturnToOpen(ts[|ts| - 1], open);
      ReplayAppend(open, EventsAll(ts[..|ts| - 1]), Events(ts[|ts| - 1]));
    }
  }

  /**
   * The calls for a whole tree are properly nested: starting from nothing,
   * no prefix ever pops a style that is not the innermost one entered, and
   * at the end every entered style has been exited.
   */
  lemma ProperlyNested(t: Text)
    ensures Replay([], Events(t)) == Some([])
    ensures forall k :: 0 <= k <= |Events(t)| ==> Replay([], Events(t)[..k]).Some?
  {
    var es := Events(t);
    EventsReturnToOpen(t, []);
    forall k | 0 <= k <= |es|
      ensures Replay([], es[..k]).Some?
    {
      assert es[..k] + es[k..] == es;
      ReplayAppend([], es[..k], es[k..]);
    }
  }

  // What the StackFlattener's consumer sees.

  /** One call of the consumer: a content and the style it is shown in. */
  datatype Piece = Piece(content: string, style: TextStyle)

  /** The consumer calls for `t` when `base` is the style on top of the stack as `t` is entered. */
  function Resolved(t: Text, base: TextStyle): seq<Piece>
    decreases t
  {
    var own := base.MergedFrom(t.style);
    [Piece(t.content, own)] + ResolvedAll(t.children, own)
  }

  function ResolvedAll(ts: seq<Text>, base: TextStyle): seq<Piece>
    decreases ts
  {
    if ts == [] then [] else ResolvedAll(ts[..|ts| - 1], base) + Resolved(ts[|ts| - 1], base)
  }

  function PieceContents(ps: seq<Piece>): (r: seq<string>)
    ensures |r| == |ps|
  {
    if ps == [] then [] else [ps[0].content] + PieceContents(ps[1..])
  }

  lemma {:induction false} PieceContentsAppend(a: seq<Piece>, b: seq<Piece>)
    ensures PieceContents(a + b) == PieceContents(a) + PieceContents(b)
  {
    if a == [] {
      assert a + b == b;
    } else {
      calc {
        PieceContents(a + b);
        [(a + b)[0].content] + PieceContents((a + b)[1..]);
        { assert (a + b)[0] == a[0] && (a + b)[1..] == a[1..] + b; }
        [a[0].content] + PieceContents(a[1..] + b);
        { PieceContentsAppend(a[1..], b); }
        [a[0].content] + (PieceContents(a[1..]) + PieceContents(b));
      }
    }
  }

  /** The consumer is handed every node's content, in pre-order, whatever the styles. */
  lemma {:induction false} ResolvedContents(t: Text, base: TextStyle)
    ensures PieceContents(Resolved(t, base)) == PreOrder(t)
    decreases t
  {
    var own := base.MergedFrom(t.style);
    ResolvedAllContents(t.children, own);
    PieceContentsAppend([Piece(t.content, own)], ResolvedAll(t.children, own));
  }

  lemma {:induction false} ResolvedAllContents(ts: seq<Text>, base: TextStyle)
    ensures PieceContents(ResolvedAll(ts, base)) == PreOrderAll(ts)
    decreases ts
  {
    if ts != [] {
      ResolvedAllContents(ts[..|ts| - 1], base);
      ResolvedContents(ts[|ts| - 1], base);
      PieceContentsAppend(ResolvedAll(ts[..|ts| - 1], base), Resolved(ts[|ts| - 1], base));
    }
  }

  // The reference definition: a node's style is the fold of its root-to-node style chain.

  /** A node reached by the walk: its content and the own styles of the nodes from the root down to it. */
  datatype Visit = Visit(content: string, chain: seq<TextStyle>)

  /** The nodes of `t` in pre-order, each with its style chain; `above` is the chain of `t`'s ancestors. */
  function Visits(t: Text, above: seq<TextStyle>): seq<Visit>
    decreases t
  {
    var chain := above + [t.style];
    [Visit(t.content, chain)] + VisitsAll(t.children, chain)
  }

  function VisitsAll(ts: seq<Text>, above: seq<TextStyle>): seq<Visit>
    decreases ts
  {
    if ts == [] then [] else VisitsAll(ts[..|ts| - 1], above) + Visits(ts[|ts| - 1], above)
  }

  /** The left fold of `merged_from` over `chain`, starting from `acc`. */
  function FoldMerged(acc: TextStyle, chain: seq<TextStyle>): TextStyle
    decreases |chain|
  {
    if chain == [] then acc else FoldMerged(acc.MergedFrom(chain[0]), chain[1..])
  }

  /** The style a chain resolves to: root least important, last entry most important. */
  function Cumulative(chain: seq<TextStyle>): TextStyle {
    FoldMerged(TextStyle.Default(), chain)
  }

  /** Each visit paired with the fold of its chain. */
  function Styled(vs: seq<Visit>): (r: seq<Piece>)
    ensures |r| == |vs|
  {
    if vs == [] then [] else [Piece(vs[0].content, Cumulative(vs[0].chain))] + Styled(vs[1..])
  }

  lemma {:induction false} StyledAppend(a: seq<Visit>, b: seq<Visit>)
    ensures Styled(a + b) == Styled(a) + Styled(b)
  {
    if a == [] {
      assert a + b == b;
    } else {
      var p := Piece(a[0].content, Cumulative(a[0].chain));
      calc {
        Styled(a + b);
        { assert (a + b)[0] == a[0] && (a + b)[1..] == a[1..] + b; }
        [p] + Styled(a[1..] + b);
        { StyledAppend(a[1..], b); }
        [p] + (Styled(a[1..]) + Styled(b));
      }
    }
  }

  /** Extending a chain by one style merges that style on top of the chain's fold. */
  lemma {:induction false} FoldMergedSnoc(acc: TextStyle, chain: seq<TextStyle>, s: TextStyle)
    ensures FoldMerged(acc, chain + [s]) == FoldMerged(acc, chain).MergedFrom(s)
    decreases |chain|
  {
    if chain == [] {
      assert chain + [s] == [s];
    } else {
      assert (chain + [s])[0] == chain[0] && (chain + [s])[1..] == chain[1..] + [s];
      FoldMergedSnoc(acc.MergedFrom(chain[0]), chain[1..], s);
    }
  }

  /**
   * The stack discipline resolves each content to the fold of `merged_from`
   * over its root-to-node chain, starting from the default style.
   */
  lemma {:induction false} ResolvedIsChainFold(t: Text, above: seq<TextStyle>)
    ensures Resolved(t, Cumulative(above)) == Styled(Visits(t, above))
    decreases t
  {
    var chain := above + [t.style];
    FoldMergedSnoc(TextStyle.Default(), above, t.style);
    ResolvedAllIsChainFold(t.children, chain);
    StyledAppend([Visit(t.content, chain)], VisitsAll(t.children, chain));
  }

  lemma {:induction false} ResolvedAllIsChainFold(ts: seq<Text>, above: seq<TextStyle>)
    ensures ResolvedAll(ts, Cumulative(above)) == Styled(VisitsAll(ts, above))
    decreases ts
  {
    if ts != [] {
      ResolvedAllIsChainFold(ts[..|ts| - 1], above);
      ResolvedIsChainFold(ts[|ts| - 1], above);
      StyledAppend(VisitsAll(ts[..|ts| - 1], above), Visits(ts[|ts| - 1], above));
    }
  }

  // The StackFlattener.

  /** `style_stack.last().unwrap_or(&TextStyle::default())`. */
  function TopOrDefault(stack: seq<TextStyle>): (r: TextStyle)
    ensures stack == [] ==> r.IsDefault()
    ensures stack != [] ==> r == stack[|stack| - 1]
  {
    if stack == [] then TextStyle.Default() else stack[|stack| - 1]
  }

  /**
   * `StackFlattener`: a stack of cumulative styles, and the calls made so far
   * to its consumer closure (`consumed`), which is all the model keeps of the
   * closure.
   */
  class StackFlattener {
    var styleStack: seq<TextStyle>
    var consumed: seq<Piece>
    ghost var received: seq<Event>

    /** `StackFlattener::new`: an empty stack and a consumer not yet called. */
    constructor ()
      ensures styleStack == [] && consumed == [] && received == []
    {
      styleStack := [];
      consumed := [];
      received := [];
    }

    /** Pushes the current top (or the default style) merged with `style`; the entries below are kept. */
    method PushStyle(style: TextStyle)
      modifies this
      ensures styleStack == old(styleStack) + [TopOrDefault(old(styleStack)).MergedFrom(style)]
      ensures consumed == old(consumed)
      ensures received == old(received) + [PushEvent(style)]
    {
      var top := if |styleStack| > 0 then styleStack[|styleStack| - 1] else TextStyle.Default();
      styleStack := styleStack + [top.MergedFrom(style)];
      received := received + [PushEvent(style)];
    }

    /** Calls the consumer with `content` and the top style (or the default); the stack is not touched. */
    method Content(content: string)
      modifies this
      ensures styleStack == old(styleStack)
      ensures consumed == old(consumed) + [Piece(content, TopOrDefault(styleStack))]
      ensures received == old(received) + [ContentEvent(content)]
    {
      var top := if |styleStack| > 0 then styleStack[|styleStack| - 1] else TextStyle.Default();
      consumed := consumed + [Piece(content, top)];
      received := received + [ContentEvent(content)];
    }

    /** Drops the top entry, if there is one; the argument is not looked at. */
    method PopStyle(style: TextStyle)
      modifies this
      ensures styleStack == if old(styleStack) == [] then [] else old(styleStack)[..|old(styleStack)| - 1]
      ensures consumed == old(consumed)
      ensures received == old(received) + [PopEvent(style)]
    {
      if |styleStack| > 0 {
        styleStack := styleStack[..|styleStack| - 1];
      }
      received := received + [PopEvent(style)];
    }
  }

  /**
   * `Text::flatten` driving a `StackFlattener`: the flattener receives exactly
   * the protocol calls for `t`, its stack ends as it started, and its consumer
   * receives the contents of `t` resolved against the style on top at entry.
   */
  method Flatten(t: Text, f: StackFlattener)
    modifies f
    ensures f.styleStack == old(f.styleStack)
    ensures f.consumed == old(f.consumed) + Resolved(t, TopOrDefault(old(f.styleStack)))
    ensures f.received == old(f.received) + Events(t)
    decreases t
  {
    f.PushStyle(t.style);
    f.Content(t.content);
    ghost var own := TopOrDefault(f.styleStack);
    for i := 0 to |t.children|
      invariant f.styleStack == old(f.styleStack) + [own]
      invariant f.consumed == old(f.consumed) + [Piece(t.content, own)] + ResolvedAll(t.children[..i], own)
      invariant f.received == old(f.received) + [PushEvent(t.style), ContentEvent(t.content)] + EventsAll(t.children[..i])
    {
      assert t.children[..i + 1][..i] == t.children[..i];
      Flatten(t.children[i], f);
    }
    assert t.children[..|t.children|] == t.children;
    f.PopStyle(t.style);
  }

  /**
   * A fresh `StackFlattener` run over `t`, returning what its consumer
   * received: one piece per node, the contents in pre-order, and each style
   * the fold of the node's root-to-node chain.
   */
  method CollectPieces(t: Text) returns (pieces: seq<Piece>)
    ensures |pieces| == Size(t)
    ensures PieceContents(pieces) == PreOrder(t)
    ensures pieces == Styled(Visits(t, []))
  {
    var f := new StackFlattener();
    Flatten(t, f);
    pieces := f.consumed;
    assert pieces == Resolved(t, TextStyle.Default());
    ResolvedContents(t, TextStyle.Default());
    PreOrderLength(t);
    ResolvedIsChainFold(t, []);
  }

  // The examples in the documentation of util.rs and text.rs.

  /** The contents a consumer collects from the documented example tree. */
  lemma DocumentedContentOrder(red: Color32, blue: Color32)
    ensures var t := Text.New("Unstyled ")
                       .With(Text.New("red ").Color(red))
                       .With(Text.New("blue ").Color(blue))
                       .With(Text.New("italic ").Italic())
                       .With(Text.New("final"));
            PieceContents(Resolved(t, TextStyle.Default())) == ["Unstyled ", "red ", "blue ", "italic ", "final"]
  {
    var d := TextStyle.Default();
    var cs := [Text("red ", d.Color(red), []), Text("blue ", d.Color(blue), []),
               Text("italic ", d.Italic(), []), Text("final", d, [])];
    var t := Text("Unstyled ", d, cs);
    assert PreOrderAll(cs[..1]) == ["red "] by {
      assert cs[..1][..0] == [];
    }
    assert PreOrderAll(cs[..2]) == ["red ", "blue "] by {
      assert cs[..2][..1] == cs[..1] && cs[..2][1] == cs[1];
      assert PreOrder(cs[1]) == ["blue "];
    }
    assert PreOrderAll(cs[..3]) == ["red ", "blue ", "italic "] by {
      assert cs[..3][..2] == cs[..2] && cs[..3][2] == cs[2];
      assert PreOrder(cs[2]) == ["italic "];
    }
    assert PreOrderAll(cs) == ["red ", "blue ", "italic ", "final"] by {
      assert cs[..3] == cs[..|cs| - 1];
      assert PreOrder(cs[3]) == ["final"];
    }
    assert Text.New("Unstyled ")
             .With(Text.New("red ").Color(red))
             .With(Text.New("blue ").Color(blue))
             .With(Text.New("italic ").Italic())
             .With(Text.New("final")) == t;
    ResolvedContents(t, d);
  }

  /** Styling from child nodes takes priority over the parent's, field by field. */
  lemma ChildStylesOverrideParents(red: Color32, blue: Color32)
    ensures var t := Text.New("Red text, ").Color(red)
                       .With(Text.New("still red text, "))
                       .With(Text.New("red and italic, ").Italic())
                       .With(Text.New("blue and not italic").Color(blue));
            var redStyle := TextStyle.Default().Color(red);
            Resolved(t, TextStyle.Default())
              == [Piece("Red text, ", redStyle), Piece("still red text, ", redStyle),
                  Piece("red and italic, ", redStyle.Italic()),
                  Piece("blue and not italic", TextStyle.Default().Color(blue))]
  {
    var d := TextStyle.Default();
    var redStyle := d.Color(red);
    var cs := [Text("still red text, ", d, []), Text("red and italic, ", d.Italic(), []),
               Text("blue and not italic", d.Color(blue), [])];
    assert ResolvedAll(cs[..1], redStyle) == [Piece("still red text, ", redStyle)] by {
      assert cs[..1][..0] == [];
      assert redStyle.MergedFrom(d) == redStyle;
    }
    assert ResolvedAll(cs[..2], redStyle)
        == [Piece("still red text, ", redStyle), Piece("red and italic, ", redStyle.Italic())] by {
      assert cs[..2][..1] == cs[..1] && cs[..2][1] == cs[1];
      assert Resolved(cs[1], redStyle) == [Piece("red and italic, ", redStyle.Italic())];
    }
    assert ResolvedAll(cs, redStyle)
        == [Piece("still red text, ", redStyle), Piece("red and italic, ", redStyle.Italic()),
            Piece("blue and not italic", d.Color(blue))] by {
      assert cs[..2] == cs[..|cs| - 1];
      assert Resolved(cs[2], redStyle) == [Piece("blue and not italic", d.Color(blue))];
    }
    assert Text.New("Red text, ").Color(red)
             .With(Text.New("still red text, "))
             .With(Text.New("red and italic, ").Italic())
             .With(Text.New("blue and not italic").Color(blue)) == Text("Red text, ", redStyle, cs);
    assert redStyle.MergedFrom(d) == redStyle;
  }

  /** `no_italic` on a child switches off the italic its parent switched on. */
  lemma ExplicitOffOverridesInheritedOn()
    ensures var t := Text.New("Italic text, ").Italic().With(Text.New("not italic anymore").NoItalic());
            Resolved(t, TextStyle.Default())
              == [Piece("Italic text, ", TextStyle.Default().Italic()),
                  Piece("not italic anymore", TextStyle.Default().NoItalic())]
  {
  }
}
