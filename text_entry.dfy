/**
 * The multi-line text entry widget (app/widgets/TextEntry.js): its hook
 * state, the style it recomputes on every render, the height it adopts when
 * the content grows or shrinks, and its keyboard choice.
 */
module TextEntry {
  import opened Wrappers
  import opened Js

  const Android := "android"
  const Ios := "ios"

  /** The initial height, in points. */
  const InitialHeight: real := 36.0

  /** `minHeight: Platform.OS == 'android' ? 45 : 28` */
  function MinHeight(os: string): (h: real)
    ensures h == 45.0 || h == 28.0
    ensures h == 45.0 <==> os == Android
  {
    if os == Android then 45.0 else 28.0
  }

  /** The parts of `newStyle` that depend on the platform and the focus. */
  datatype Style = Style(height: real, minHeight: real, maxHeight: Option<real>, underlined: bool)

  /**
   * The style of one render: on iOS a focused entry is capped at 100 points
   * and every entry is underlined; elsewhere neither happens.
   */
  method NewStyle(os: string, focused: bool, height: real) returns (style: Style)
    ensures style.height == height && style.minHeight == MinHeight(os)
    ensures style.maxHeight == (if os == Ios && focused then Some(100.0) else None)
    ensures style.underlined <==> os == Ios
  {
    style := Style(height, if os == Android then 45.0 else 28.0, None, false);
    if os == Ios {
      if focused {
        style := style.(maxHeight := Some(100.0));
      }
      style := style.(underlined := true);
    }
  }

  /**
   * The height after `updateHeight(contentHeight)`: unchanged unless the
   * content height differs from it and reaches the minimum; then the minimum
   * for an empty text and the content height otherwise, so never below the
   * minimum.
   */
  function HeightAfter(height: real, text: string, contentHeight: real, minHeight: real): (h: real)
    ensures !(contentHeight != height && contentHeight >= minHeight) ==> h == height
    ensures contentHeight != height && contentHeight >= minHeight ==>
      h >= minHeight && (h == if text == "" then minHeight else contentHeight)
  {
    if contentHeight != height && contentHeight >= minHeight then
      if text == "" then minHeight else contentHeight
    else height
  }

  /** Repeating a content-size event with the same height changes nothing more. */
  lemma HeightAfterSettles(height: real, text: string, contentHeight: real, minHeight: real)
    ensures var h := HeightAfter(height, text, contentHeight, minHeight);
      HeightAfter(h, text, contentHeight, minHeight) == h
  {
  }

  /** `valueType && valueType.includes('integer') ? 'numeric' : 'default'` */
  function KeyboardType(valueType: Option<string>): (k: string)
    ensures k == "numeric" || k == "default"
    ensures k == "numeric" <==> valueType.Some? && exists i: nat :: OccursAt(valueType.value, "integer", i)
  {
    if valueType.Some? && valueType.value != "" && Includes(valueType.value, "integer") then "numeric" else "default"
  }

  /** The hook state of one mounted text entry. */
  class TextEntryState {
    var text: string
    var height: real
    var focused: bool

    /** The text starts as the `value` prop (`''` by default), the height at 36, unfocused. */
    constructor(value: Option<string>)
      ensures text == (if value.Some? then value.value else "")
      ensures height == InitialHeight && !focused
    {
      text := if value.Some? then value.value else "";
      height := InitialHeight;
      focused := false;
    }

    /** `updateHeight`, run on a content-size change. */
    method UpdateHeight(os: string, contentHeight: real)
      modifies this
      ensures height == HeightAfter(old(height), text, contentHeight, MinHeight(os))
      ensures text == old(text) && focused == old(focused)
    {
      var minHeight := if os == Android then 45.0 else 28.0;
      if contentHeight != height && contentHeight >= minHeight {
        if text == "" {
          height := minHeight;
        } else {
          height := contentHeight;
        }
      }
    }

    /** `onChangeText={setText}` */
    method SetText(t: string)
      modifies this
      ensures text == t && height == old(height) && focused == old(focused)
    {
      text := t;
    }

    /** `onFocus` and `onBlur` */
    method SetFocused(f: bool)
      modifies this
      ensures focused == f && text == old(text) && height == old(height)
    {
      focused := f;
    }

    /** `onEndEditing`: returns what is passed to `onChange`, the current text. */
    method OnEndEditing() returns (sent: string)
      ensures sent == text
    {
      sent := text;
    }
  }
}
