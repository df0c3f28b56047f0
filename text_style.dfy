/**
 * `TextStyle` (src/text.rs): the styling applied to one node of a rich-text
 * tree, its merge algebra and its builder-style setters.
 *
 * Every field is optional: `None` means "no opinion, inherit", so styles can
 * be layered on top of one another, and the style with every field `None` is
 * the identity of the merge.
 */
module Styles {
  import opened Options

  /** ecolor's `Color32`. Nothing in the core looks inside a colour, so only equality is modelled. */
  type Color32(==, !new)

  datatype TextStyle = TextStyle(
    color: Option<Color32>,
    bold: Option<bool>,
    italic: Option<bool>,
    underline: Option<bool>,
    strikethrough: Option<bool>)
  {
    /**
     * The derived `Default`: every field `None`. It is the "identity style":
     * merging it in, or merging anything into it, changes nothing.
     */
    static function Default(): (r: TextStyle)
      ensures r.color.None? && r.bold.None? && r.italic.None? && r.underline.None? && r.strikethrough.None?
      ensures forall s: TextStyle :: r.MergedFrom(s) == s && s.MergedFrom(r) == s
    {
      TextStyle(None, None, None, None, None)
    }

    /** `TextStyle::new`. */
    static function New(): (r: TextStyle)
      ensures r.IsDefault()
    {
      Default()
    }

    /** `is_default`: equal to the default style. */
    function IsDefault(): (b: bool)
      ensures b <==> color.None? && bold.None? && italic.None? && underline.None? && strikethrough.None?
    {
      this == Default()
    }

    /** `merged_from`: `from` laid over this style, field by field, with `from` winning where it has a value. */
    function MergedFrom(from: TextStyle): (r: TextStyle)
      ensures Overrides(r.color, color, from.color)
      ensures Overrides(r.bold, bold, from.bold)
      ensures Overrides(r.italic, italic, from.italic)
      ensures Overrides(r.underline, underline, from.underline)
      ensures Overrides(r.strikethrough, strikethrough, from.strikethrough)
    {
      TextStyle(
        from.color.Or(color),
        from.bold.Or(bold),
        from.italic.Or(italic),
        from.underline.Or(underline),
        from.strikethrough.Or(strikethrough))
    }

    /**
     * `merge_from`: overwrites the fields of `self` one after another. `self`
     * is the receiver; the updated value is returned as `updated`.
     */
    method MergeFrom(from: TextStyle) returns (updated: TextStyle)
      ensures updated == MergedFrom(from)
      ensures Overrides(updated.color, color, from.color)
      ensures Overrides(updated.bold, bold, from.bold)
      ensures Overrides(updated.italic, italic, from.italic)
      ensures Overrides(updated.underline, underline, from.underline)
      ensures Overrides(updated.strikethrough, strikethrough, from.strikethrough)
    {
      updated := this;
      updated := updated.(color := from.color.Or(updated.color));
      updated := updated.(bold := from.bold.Or(updated.bold));
      updated := updated.(italic := from.italic.Or(updated.italic));
      updated := updated.(underline := from.underline.Or(updated.underline));
      updated := updated.(strikethrough := from.strikethrough.Or(updated.strikethrough));
    }

    // Raw setters (`Styleable::with_*` for `TextStyle`): each replaces exactly one field.

    function WithColor(c: Option<Color32>): (r: TextStyle)
      ensures r.color == c && r.(color := color) == this
    {
      this.(color := c)
    }

    function WithBold(state: Option<bool>): (r: TextStyle)
      ensures r.bold == state && r.(bold := bold) == this
    {
      this.(bold := state)
    }

    function WithItalic(state: Option<bool>): (r: TextStyle)
      ensures r.italic == state && r.(italic := italic) == this
    {
      this.(italic := state)
    }

    function WithUnderline(state: Option<bool>): (r: TextStyle)
      ensures r.underline == state && r.(underline := underline) == this
    {
      this.(underline := state)
    }

    function WithStrikethrough(state: Option<bool>): (r: TextStyle)
      ensures r.strikethrough == state && r.(strikethrough := strikethrough) == this
    {
      this.(strikethrough := state)
    }

    // Convenience setters (the provided methods of `Styleable`).

    function Color(c: Color32): (r: TextStyle)
      ensures r.color == Some(c) && r.(color := color) == this
    {
      WithColor(Some(c))
    }

    function Bold(): (r: TextStyle)
      ensures r.bold == Some(true) && r.(bold := bold) == this
    {
      WithBold(Some(true))
    }

    function NoBold(): (r: TextStyle)
      ensures r.bold == Some(false) && r.(bold := bold) == this
    {
      WithBold(Some(false))
    }

    function Italic(): (r: TextStyle)
      ensures r.italic == Some(true) && r.(italic := italic) == this
    {
      WithItalic(Some(true))
    }

    function NoItalic(): (r: TextStyle)
      ensures r.italic == Some(false) && r.(italic := italic) == this
    {
      WithItalic(Some(false))
    }

    function Underline(): (r: TextStyle)
      ensures r.underline == Some(true) && r.(underline := underline) == this
    {
      WithUnderline(Some(true))
    }

    function NoUnderline(): (r: TextStyle)
      ensures r.underline == Some(false) && r.(underline := underline) == this
    {
      WithUnderline(Some(false))
    }

    function Strikethrough(): (r: TextStyle)
      ensures r.strikethrough == Some(true) && r.(strikethrough := strikethrough) == this
    {
      WithStrikethrough(Some(true))
    }

    function NoStrikethrough(): (r: TextStyle)
      ensures r.strikethrough == Some(false) && r.(strikethrough := strikethrough) == this
    {
      WithStrikethrough(Some(false))
    }
  }

  /** The per-field override rule: `merged` is the overlay's value if it has one, else the base's. */
  predicate Overrides<T(==)>(merged: Option<T>, base: Option<T>, overlay: Option<T>) {
    if overlay.Some? then merged == overlay else merged == base
  }

  // The merge algebra.

  /** And it is the only right identity: a style that changes nothing when merged in is the default. */
  lemma RightIdentityIsDefault(e: TextStyle)
    requires forall s: TextStyle :: s.MergedFrom(e) == s
    ensures e.IsDefault()
  {
    var d := TextStyle.Default();
    assert d.MergedFrom(e) == d;
  }

  /** Merging the same overlay twice is the same as merging it once. */
  lemma MergeIdempotent(a: TextStyle, b: TextStyle)
    ensures a.MergedFrom(b).MergedFrom(b) == a.MergedFrom(b)
  {
  }

  /** Layering overlays one after another equals layering their merge. */
  lemma MergeAssociative(a: TextStyle, b: TextStyle, c: TextStyle)
    ensures a.MergedFrom(b).MergedFrom(c) == a.MergedFrom(b.MergedFrom(c))
  {
  }

  /** Setting a field to a value is the same as merging in a default style that sets only that field. */
  lemma SettingIsMergingAnOverlay(s: TextStyle, c: Color32, state: bool)
    ensures s.WithColor(Some(c)) == s.MergedFrom(TextStyle.Default().WithColor(Some(c)))
    ensures s.WithBold(Some(state)) == s.MergedFrom(TextStyle.Default().WithBold(Some(state)))
    ensures s.WithItalic(Some(state)) == s.MergedFrom(TextStyle.Default().WithItalic(Some(state)))
    ensures s.WithUnderline(Some(state)) == s.MergedFrom(TextStyle.Default().WithUnderline(Some(state)))
    ensures s.WithStrikethrough(Some(state)) == s.MergedFrom(TextStyle.Default().WithStrikethrough(Some(state)))
  {
  }
}
