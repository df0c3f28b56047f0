# Rich-text style inheritance and flattening, in Dafny

This project models the core of `expedition`, a format-agnostic rich-text
library: a message is a tree of `Text` nodes. Each node has a content string,
its own `TextStyle` and an ordered list of children. The builder API puts
trees together. `Text::flatten` walks a tree depth first and makes
`push_style` / `content` / `pop_style` calls on a `TextFlattener`.
`StackFlattener` is the flattener that keeps a stack of cumulative styles.
It hands each content, with the style it resolves to, to a consumer.

Files and modules:

- `options.dfy` (`Options`): `Option<T>` with Rust's `Option::or`.
- `text_style.dfy` (`Styles`): `TextStyle` and its merge algebra (`merged_from`
  as a function, `merge_from` as a method that overwrites the fields one after
  another), `is_default`, and the `Styleable` setters for styles.
- `text.dfy` (`Texts`): the `Text` tree, `Text::new`, `Default`, `with`, the
  `Styleable` setters for texts, and the pre-order listing of a tree.
- `flatten.dfy` (`Flattening`): the flattening protocol as the sequence of
  calls `Events(t)`, the `StackFlattener` class (a `styleStack` field, the
  consumer's calls as a `consumed` log), `Flatten` (a recursive walk with a
  loop over the children), and the reference definition of a resolved style
  (the left fold of `merged_from` over the root-to-node chain of styles).
- `display.dfy` (`Display`): the plain-string flattener behind
  `impl Display for Text` and `to_string`.

Every flattener records the protocol calls it receives in a ghost `received`
trace. Both walks are proved to make exactly the calls `Events(t)`. So the
protocol is defined once, and its properties (counts, nesting) are proved once
about `Events`. The StackFlattener walk leaves the stack as it found it. Its
consumer receives `Resolved(t, top)`, and `ResolvedIsChainFold` proves that
this is the fold of each node's root-to-node style chain from the default
style.

`src/lib.rs` re-exports a `StyleState` from the `text` module, and `src/term.rs`
compares the decoration fields with `StyleState::On`. `src/text.rs` defines no
such type: its decoration fields are `Option<bool>`, where `None` means no
opinion and the value is inherited. The model follows `src/text.rs`.

## Model

| member | source | states |
|---|---|---|
| `Styles.TextStyle.New` | src/text.rs:134-136 | `TextStyle::new` gives the default style |
| `Styles.TextStyle.IsDefault` | src/text.rs:141-143 | `is_default` holds exactly when all five fields are `None` |
| `Styles.TextStyle.MergeFrom` | src/text.rs:145-162 | overwriting the fields one by one, as `merge_from` does, gives `merged_from`; in each field the overlay's value wins when it is `Some`, otherwise the old value stays |
| `Styles.TextStyle.Default` | src/text.rs:99-104 | the derived default has every field `None`, and it is a left and right identity of `merged_from` |
| `Styles.TextStyle.MergedFrom` | src/text.rs:155-162 | every field of the result follows the override rule on its own: the value of `from` when it is `Some`, otherwise the value of `self` |
| `Styles.RightIdentityIsDefault` | src/text.rs:99-103 | a style that changes no style when merged in is the default style |
| `Styles.MergeIdempotent` | src/text.rs:147-153 | merging the same overlay twice equals merging it once |
| `Styles.MergeAssociative` | src/text.rs:147-153 | `a.merged_from(b).merged_from(c) == a.merged_from(b.merged_from(c))` |
| `Styles.SettingIsMergingAnOverlay` | src/text.rs:263-287 | setting a field to `Some(v)` equals merging in a default style with only that field set |
| `Styles.TextStyle.WithColor` | src/text.rs:263-266 | the colour becomes the argument; no other field changes |
| `Styles.TextStyle.WithBold` | src/text.rs:268-271 | bold becomes the argument; no other field changes |
| `Styles.TextStyle.WithItalic` | src/text.rs:273-276 | italic becomes the argument; no other field changes |
| `Styles.TextStyle.WithUnderline` | src/text.rs:278-281 | underline becomes the argument; no other field changes |
| `Styles.TextStyle.WithStrikethrough` | src/text.rs:283-286 | strikethrough becomes the argument; no other field changes |
| `Styles.TextStyle.Color` | src/text.rs:214-217 | the colour becomes `Some(c)`; no other field changes |
| `Styles.TextStyle.Bold` | src/text.rs:219-222 | bold becomes `Some(true)`; no other field changes |
| `Styles.TextStyle.NoBold` | src/text.rs:224-227 | bold becomes `Some(false)`; no other field changes |
| `Styles.TextStyle.Italic` | src/text.rs:229-232 | italic becomes `Some(true)`; no other field changes |
| `Styles.TextStyle.NoItalic` | src/text.rs:234-237 | italic becomes `Some(false)`; no other field changes |
| `Styles.TextStyle.Underline` | src/text.rs:239-242 | underline becomes `Some(true)`; no other field changes |
| `Styles.TextStyle.NoUnderline` | src/text.rs:244-247 | underline becomes `Some(false)`; no other field changes |
| `Styles.TextStyle.Strikethrough` | src/text.rs:249-252 | strikethrough becomes `Some(true)`; no other field changes |
| `Styles.TextStyle.NoStrikethrough` | src/text.rs:254-257 | strikethrough becomes `Some(false)`; no other field changes |
| `Texts.Text.New` | src/text.rs:123-129 | a leaf with the given content, a default style and no children |
| `Texts.Text.Default` | src/text.rs:409-425 | the derived default is an empty leaf whose style has every field `None` |
| `Texts.Text.With` | src/text.rs:173-177 | content and style are kept, the existing children stay in order, and the new child comes last |
| `Texts.WithAppendsInCallOrder` | src/text.rs:427-437 | `"one".with("two").with("three")` has children `["two", "three"]` |
| `Texts.Text.WithColor` | src/text.rs:292-296 | only the node's own style changes, as the style setter changes it; content and children stay |
| `Texts.Text.WithBold` | src/text.rs:298-302 | only the node's own style changes, as the style setter changes it; content and children stay |
| `Texts.Text.WithItalic` | src/text.rs:304-308 | only the node's own style changes, as the style setter changes it; content and children stay |
| `Texts.Text.WithUnderline` | src/text.rs:310-314 | only the node's own style changes, as the style setter changes it; content and children stay |
| `Texts.Text.WithStrikethrough` | src/text.rs:316-320 | only the node's own style changes, as the style setter changes it; content and children stay |
| `Texts.Text.Color` | src/text.rs:214-217 | the node's own colour becomes `Some(c)`; content and children stay |
| `Texts.Text.Bold` | src/text.rs:219-222 | the node's own bold becomes `Some(true)`; content and children stay |
| `Texts.Text.NoBold` | src/text.rs:224-227 | the node's own bold becomes `Some(false)`; content and children stay |
| `Texts.Text.Italic` | src/text.rs:229-232 | the node's own italic becomes `Some(true)`; content and children stay |
| `Texts.Text.NoItalic` | src/text.rs:234-237 | the node's own italic becomes `Some(false)`; content and children stay |
| `Texts.Text.Underline` | src/text.rs:239-242 | the node's own underline becomes `Some(true)`; content and children stay |
| `Texts.Text.NoUnderline` | src/text.rs:244-247 | the node's own underline becomes `Some(false)`; content and children stay |
| `Texts.Text.Strikethrough` | src/text.rs:249-252 | the node's own strikethrough becomes `Some(true)`; content and children stay |
| `Texts.Text.NoStrikethrough` | src/text.rs:254-257 | the node's own strikethrough becomes `Some(false)`; content and children stay |
| `Flattening.Flatten` | src/util.rs:19-28 | a StackFlattener receives exactly the calls `Events(t)` (push, content, children in order, pop); its stack ends as it started; its consumer receives `Resolved(t, top)` |
| `Flattening.EventsShape` | src/util.rs:19-28 | the walk of a node makes three calls per node of the tree; it starts with `push_style` of the node's own style and then `content` of its own content, and it ends with `pop_style` of its own style |
| `Flattening.TopOrDefault` | src/util.rs:96-108 | the style a push builds on, and the style content receives, is the top of the stack, or the default style when the stack is empty |
| `Flattening.EventTally` | src/util.rs:8-16 | `flatten` makes as many `push_style`, `pop_style` and `content` calls as the tree has nodes, and the contents come in pre-order |
| `Flattening.ProperlyNested` | src/util.rs:14-28 | the calls are properly nested: no prefix pops a style other than the innermost one entered, and the whole walk exits every style it entered |
| `Flattening.StackFlattener.constructor` | src/util.rs:84-89 | a new flattener has an empty stack and has called its consumer nothing |
| `Flattening.StackFlattener.PushStyle` | src/util.rs:96-103 | pushes the top (or the default style when empty) merged with the argument; the entries below are unchanged; the consumer is not called |
| `Flattening.StackFlattener.Content` | src/util.rs:105-109 | the consumer gets the content with the top style, or the default when the stack is empty; the stack is unchanged |
| `Flattening.StackFlattener.PopStyle` | src/util.rs:111-113 | removes the top entry and ignores its argument; an empty stack stays empty |
| `Flattening.ResolvedIsChainFold` | src/util.rs:43-50 | each content is handed the left fold of `merged_from` over the node's root-to-node style chain, starting from the default style |
| `Flattening.ResolvedContents` | src/util.rs:52-53 | the consumer receives every node's content exactly once, in pre-order |
| `Flattening.CollectPieces` | src/util.rs:57-72 | a fresh flattener run over a tree hands over one piece per node, contents in pre-order, each style the fold of its chain |
| `Flattening.DocumentedContentOrder` | src/util.rs:60-71 | the documented tree yields `["Unstyled ", "red ", "blue ", "italic ", "final"]` |
| `Flattening.ChildStylesOverrideParents` | src/text.rs:53-57 | children inherit the parent's colour, add italic on top of it, or replace the colour |
| `Flattening.ExplicitOffOverridesInheritedOn` | src/text.rs:59-61 | `no_italic` on a child turns off the italic its parent turned on |
| `Display.PlainFlattener.constructor` | src/text.rs:384-387 | the buffer starts empty |
| `Display.PlainFlattener.PushStyle` | src/text.rs:390 | the buffer is unchanged |
| `Display.PlainFlattener.Content` | src/text.rs:392-394 | the content is appended to the buffer |
| `Display.PlainFlattener.PopStyle` | src/text.rs:396 | the buffer is unchanged |
| `Display.Flatten` | src/text.rs:399-400 | the plain flattener receives exactly the calls `Events(t)`, and its buffer grows by the contents of `t` in pre-order |
| `Display.ToString` | src/text.rs:382-402 | `to_string()` is the pre-order contents joined with no separator, i.e. the concatenation of all `content` calls; styles play no part |
| `Display.RawStringExamples` | src/text.rs:74-79 | `to_string()` of `"Hello, ".with("world!")` is `"Hello, world!"`, and `to_string()` of a styled leaf is its content alone |

## Left out

- `src/egui.rs`: conversion to egui's `TextFormat`/`LayoutJob` uses foreign types and `f32` stroke widths. It is only another consumer of `StackFlattener`.
- `src/termcolor.rs`, `src/term.rs`: terminal output through the `termcolor` library is I/O. `term.rs` also uses `StyleState`, whose definition is not part of this model.
- `src/lib.rs`: module and prelude declarations only.
- The `fmt::Debug` impls of `Text` and `TextStyle`: presentation only. They rely on `Color32`'s own `Debug` output and on `itertools` `join`.
- `Color32`: an abstract type with equality. Its channels are never read by the core.
- serde and `Hash` derives, and the generic `Into<String>` / `Into<Text>` / `TextBuilder::into_text` conversions: a string becomes a text only through `Text.New`.
- `TextFlattener` is a trait over which `flatten` is generic. The model has no traits, so the walk is written once per flattener of the core (`Flattening.Flatten`, `Display.Flatten`). Both are proved to make the calls `Events(t)`.
- The consumer closure of `StackFlattener`: only the sequence of `(content, style)` pairs it receives is kept (`consumed`), not what it does with them.
- `Display.ToString`: the final `write!` into a `fmt::Formatter`, and the `fmt::Error` it could report, are not modelled. It returns the buffer.
- Call-stack depth of the recursive walk on very deep trees is not modelled.
