/**
 * `Text` (src/text.rs): a rich-text message as a tree. Each node holds its
 * content, the style it applies on its own, and an ordered list of children
 * owned by it. Styles are combined only when the tree is flattened, never
 * when it is built.
 *
 * The builder operations (`with`, the `Styleable` setters) take the node by
 * value, change the moved copy and hand it back; nothing else can see the old
 * value, so they are functions here.
 */
module Texts {
  import opened Options
  import opened Styles

  datatype Text = Text(content: string, style: TextStyle, children: seq<Text>)
  {
    /** `Text::new` (and the conversion from any string): a leaf with the default style. */
    static function New(content: string): (r: Text)
      ensures r.content == content && r.style.IsDefault() && r.children == []
    {
      Text(content, TextStyle.Default(), [])
    }

    /** The derived `Default`: an empty leaf with the default style. */
    static function Default(): (r: Text)
      ensures r.content == "" && r.style.IsDefault() && r.children == []
    {
      Text("", TextStyle.Default(), [])
    }

    /** `TextBuilder::with`: appends `child` after the existing children. */
    function With(child: Text): (r: Text)
      ensures r.content == content && r.style == style
      ensures |r.children| == |children| + 1
      ensures r.children[..|children|] == children && r.children[|children|] == child
    {
      this.(children := children + [child])
    }

    // Raw setters (`Styleable::with_*` for anything that converts into a `Text`):
    // each changes one field of this node's own style; content and children stay.

    function WithColor(c: Option<Color32>): (r: Text)
      ensures r.style == style.WithColor(c) && r.(style := style) == this
    {
      this.(style := style.(color := c))
    }

    function WithBold(state: Option<bool>): (r: Text)
      ensures r.style == style.WithBold(state) && r.(style := style) == this
    {
      this.(style := style.(bold := state))
    }

    function WithItalic(state: Option<bool>): (r: Text)
      ensures r.style == style.WithItalic(state) && r.(style := style) == this
    {
      this.(style := style.(italic := state))
    }

    function WithUnderline(state: Option<bool>): (r: Text)
      ensures r.style == style.WithUnderline(state) && r.(style := style) == this
    {
      this.(style := style.(underline := state))
    }

    function WithStrikethrough(state: Option<bool>): (r: Text)
      ensures r.style == style.WithStrikethrough(state) && r.(style := style) == this
    {
      this.(style := style.(strikethrough := state))
    }

    // Convenience setters (the provided methods of `Styleable`).

    function Color(c: Color32): (r: Text)
      ensures r.style == style.Color(c) && r.(style := style) == this
    {
      WithColor(Some(c))
    }

    function Bold(): (r: Text)
      ensures r.style == style.Bold() && r.(style := style) == this
    {
      WithBold(Some(true))
    }

    function NoBold(): (r: Text)
      ensures r.style == style.NoBold() && r.(style := style) == this
    {
      WithBold(Some(false))
    }

    function Italic(): (r: Text)
      ensures r.style == style.Italic() && r.(style := style) == this
    {
      WithItalic(Some(true))
    }

    function NoItalic(): (r: Text)
      ensures r.style == style.NoItalic() && r.(style := style) == this
    {
      WithItalic(Some(false))
    }

    function Underline(): (r: Text)
      ensures r.style == style.Underline() && r.(style := style) == this
    {
      WithUnderline(Some(true))
    }

    function NoUnderline(): (r: Text)
      ensures r.style == style.NoUnderline() && r.(style := style) == this
    {
      WithUnderline(Some(false))
    }

    function Strikethrough(): (r: Text)
      ensures r.style == style.Strikethrough() && r.(style := style) == this
    {
      WithStrikethrough(Some(true))
    }

    function NoStrikethrough(): (r: Text)
      ensures r.style == style.NoStrikethrough() && r.(style := style) == this
    {
      WithStrikethrough(Some(false))
    }
  }

  // Measures of a tree, used to state what flattening visits.

  /** The number of nodes of `t`. */
  function Size(t: Text): nat
    decreases t
  {
    1 + SizeAll(t.children)
  }

  function SizeAll(ts: seq<Text>): nat
    decreases ts
  {
    if ts == [] then 0 else SizeAll(ts[..|ts| - 1]) + Size(ts[|ts| - 1])
  }

  /** The contents of all nodes of `t`, parents before children, children left to right. */
  function PreOrder(t: Text): seq<string>
    decreases t
  {
    [t.content] + PreOrderAll(t.children)
  }

  function PreOrderAll(ts: seq<Text>): seq<string>
    decreases ts
  {
    if ts == [] then [] else PreOrderAll(ts[..|ts| - 1]) + PreOrder(ts[|ts| - 1])
  }

  /** Every node contributes exactly one entry to the pre-order listing. */
  lemma {:induction false} PreOrderLength(t: Text)
    ensures |PreOrder(t)| == Size(t)
    decreases t
  {
    PreOrderAllLength(t.children);
  }

  lemma {:induction false} PreOrderAllLength(ts: seq<Text>)
    ensures |PreOrderAll(ts)| == SizeAll(ts)
    decreases ts
  {
    if ts != [] {
      PreOrderAllLength(ts[..|ts| - 1]);
      PreOrderLength(ts[|ts| - 1]);
    }
  }

  /** Strings joined with no separator. */
  function Concat(ss: seq<string>): string {
    if ss == [] then "" else ss[0] + Concat(ss[1..])
  }

  lemma {:induction false} ConcatAppend(a: seq<string>, b: seq<string>)
    ensures Concat(a + b) == Concat(a) + Concat(b)
  {
    if a == [] {
      assert a + b == b;
    } else {
      calc {
        Concat(a + b);
        (a + b)[0] + Concat((a + b)[1..]);
        { assert (a + b)[1..] == a[1..] + b; }
        a[0] + Concat(a[1..] + b);
        { ConcatAppend(a[1..], b); }
        a[0] + (Concat(a[1..]) + Concat(b));
      }
    }
  }

  /** The unit test of `with`: successive calls append children in call order. */
  lemma WithAppendsInCallOrder()
    ensures Text.New("one").With(Text.New("two")).With(Text.New("three"))
         == Text("one", TextStyle.Default(), [Text.New("two"), Text.New("three")])
  {
  }
}
