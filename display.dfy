/**
 * `impl Display for Text` (src/text.rs): the raw-string output. A flattener
 * that ignores every style and appends each content to a string buffer.
 */
module Display {
  import opened Styles
  import opened Texts
  import Flattening

  /** The flattener inside `Display::fmt`: a string buffer, and (ghost) the protocol calls it received. */
  class PlainFlattener {
    var buf: string
    ghost var received: seq<Flattening.Event>

    constructor ()
      ensures buf == "" && received == []
    {
      buf := "";
      received := [];
    }

    method PushStyle(style: TextStyle)
      modifies this
      ensures buf == old(buf)
      ensures received == old(received) + [Flattening.PushEvent(style)]
    {
      received := received + [Flattening.PushEvent(style)];
    }

    method Content(content: string)
      modifies this
      ensures buf == old(buf) + content
      ensures received == old(received) + [Flattening.ContentEvent(content)]
    {
      buf := buf + content;
      received := received + [Flattening.ContentEvent(content)];
    }

    method PopStyle(style: TextStyle)
      modifies this
      ensures buf == old(buf)
      ensures received == old(received) + [Flattening.PopEvent(style)]
    {
      received := received + [Flattening.PopEvent(style)];
    }
  }

  /**
   * `Text::flatten` driving the plain flattener: it receives the protocol
   * calls for `t`, and its buffer grows by every content of `t` in pre-order.
   */
  method Flatten(t: Text, f: PlainFlattener)
    modifies f
    ensures f.buf == old(f.buf) + Concat(PreOrder(t))
    ensures f.received == old(f.received) + Flattening.Events(t)
    decreases t
  {
    f.PushStyle(t.style);
    f.Content(t.content);
    for i := 0 to |t.children|
      invariant f.buf == old(f.buf) + t.content + Concat(PreOrderAll(t.children[..i]))
      invariant f.received == old(f.received) + [Flattening.PushEvent(t.style), Flattening.ContentEvent(t.content)]
                                               + Flattening.EventsAll(t.children[..i])
    {
      assert t.children[..i + 1][..i] == t.children[..i];
      PlainTextOfPrefix(t.children, i);
      Flatten(t.children[i], f);
    }
    assert t.children[..|t.children|] == t.children;
    f.PopStyle(t.style);
    PlainTextOfNode(t);
  }

  lemma PlainTextOfNode(t: Text)
    ensures Concat(PreOrder(t)) == t.content + Concat(PreOrderAll(t.children))
  {
    ConcatAppend([t.content], PreOrderAll(t.children));
    assert Concat([t.content]) == t.content + Concat([]);
  }

  lemma PlainTextOfPrefix(ts: seq<Text>, i: nat)
    requires i < |ts|
    ensures Concat(PreOrderAll(ts[..i + 1])) == Concat(PreOrderAll(ts[..i])) + Concat(PreOrder(ts[i]))
  {
    assert ts[..i + 1][..i] == ts[..i];
    ConcatAppend(PreOrderAll(ts[..i]), PreOrder(ts[i]));
  }

  /**
   * `to_string()`: the contents of every node in pre-order, joined with no
   * separator; styles play no part.
   */
  method ToString(t: Text) returns (s: string)
    ensures s == Concat(PreOrder(t))
    ensures s == Concat(Flattening.ContentsOf(Flattening.Events(t)))
  {
    var f := new PlainFlattener();
    Flatten(t, f);
    s := f.buf;
    Flattening.EventTally(t);
  }

  /** The raw-string examples in the documentation of `Text`, rendered with `to_string()`. */
  method RawStringExamples(red: Color32) returns (hello: string, plain: string)
    ensures hello == "Hello, world!"
    ensures plain == "This ignores all styling"
  {
    var greeting := Text.New("Hello, ").With(Text.New("world!"));
    hello := ToString(greeting);
    assert PreOrderAll(greeting.children) == ["world!"] by {
      assert greeting.children[..0] == [];
    }
    ConcatAppend(["Hello, "], ["world!"]);

    var styled := Text.New("This ignores all styling").Color(red).Italic().Bold();
    plain := ToString(styled);
  }
}
