/**
 * One screen of an activity (app/components/screen/index.js): whether an
 * answer counts as given, which widget renders the screen's input, and the
 * scroll lock that the slider and drawing widgets hold while pressed.
 */
module Screen {
  import opened Js

  /**
   * The parts of a screen the component inspects: the input type and the
   * values at `valueConstraints.multipleChoice`, `valueConstraints.itemList`
   * and `valueConstraints.image` (`undefined` when the path is missing).
   */
  datatype ScreenItem = ScreenItem(inputType: string, multipleChoice: Value, itemList: Value, image: Value)

  const MarkdownMessage := "markdown-message"

  /**
   * `Screen.isValid(answer, screen)`: a markdown message needs no answer;
   * any other screen is answered unless the answer is `null` or `undefined`.
   */
  function IsValid(answer: Value, screen: ScreenItem): (r: bool)
    ensures screen.inputType == MarkdownMessage ==> r
    ensures screen.inputType != MarkdownMessage ==> (r <==> !IsNullish(answer))
  {
    if screen.inputType == MarkdownMessage then true
    else !answer.Null? && !answer.Undefined?
  }

  /**
   * Validity is not truthiness: `0`, `''` and `false` are falsy answers that
   * still count as given.
   */
  lemma FalsyAnswersAreValid(screen: ScreenItem)
    ensures forall answer: Value :: !IsNullish(answer) ==> IsValid(answer, screen)
    ensures IsValid(Num(0.0), screen) && IsValid(Str(""), screen) && IsValid(Bool(false), screen)
    ensures !Truthy(Num(0.0)) && !Truthy(Str("")) && !Truthy(Bool(false))
    ensures screen.inputType != MarkdownMessage ==> !IsValid(Null, screen) && !IsValid(Undefined, screen)
  {
  }

  /** The element `renderWidget` returns; `NoWidget` is its `null`. */
  datatype Widget =
    | MultiSelect
    | Radio
    | Slider
    | TimeRange
    | DatePicker
    | Select
    | TextEntry
    | AudioRecord
    | AudioImageRecord
    | AudioStimulus
    | Camera(video: bool)
    | VisualStimulusResponse
    | Drawing
    | TableInput(freeEntry: bool)
    | NoWidget
    | WidgetError

  /**
   * `renderWidget`: the first test that matches chooses the widget; an input
   * type without a branch renders the error widget.
   */
  function WidgetFor(screen: ScreenItem): (w: Widget)
    ensures screen.inputType !in KnownInputTypes ==> w == WidgetError
  {
    var t := screen.inputType;
    if t == "radio" && screen.multipleChoice == Bool(true) then MultiSelect
    else if t == "radio" && Truthy(screen.itemList) then Radio
    else if t == "slider" then Slider
    else if t == "timeRange" then TimeRange
    else if t == "date" then DatePicker
    else if t == "select" && Truthy(screen.itemList) then Select
    else if t == "text" then TextEntry
    else if t == "audioRecord" || t == "audioPassageRecord" then AudioRecord
    else if t == "audioImageRecord" && Truthy(screen.image) then AudioImageRecord
    else if t == "audioStimulus" then AudioStimulus
    else if t == "photo" then Camera(false)
    else if t == "video" then Camera(true)
    else if t == "visual-stimulus-response" then VisualStimulusResponse
    else if t == "drawing" then Drawing
    else if t == "tableCounter" then TableInput(false)
    else if t == "tableText" then TableInput(true)
    else if t == MarkdownMessage then NoWidget
    else WidgetError
  }

  /** The input types `renderWidget` has a branch for. */
  const KnownInputTypes: set<string> := {
    "radio", "slider", "timeRange", "date", "select", "text", "audioRecord", "audioPassageRecord",
    "audioImageRecord", "audioStimulus", "photo", "video", "visual-stimulus-response", "drawing",
    "tableCounter", "tableText", MarkdownMessage }

  /**
   * A radio input with `multipleChoice === true` is a multi-select, whatever
   * its item list; otherwise it is a radio group if it has an item list, and
   * an error if it has none.
   */
  lemma RadioDispatch(screen: ScreenItem)
    requires screen.inputType == "radio"
    ensures WidgetFor(screen) == MultiSelect <==> screen.multipleChoice == Bool(true)
    ensures WidgetFor(screen) == Radio <==> screen.multipleChoice != Bool(true) && Truthy(screen.itemList)
    ensures WidgetFor(screen) == WidgetError <==> screen.multipleChoice != Bool(true) && !Truthy(screen.itemList)
  {
  }

  /** A select input needs an item list, an audio-image input needs an image; without it the result is an error. */
  lemma RequiredConstraints(screen: ScreenItem)
    ensures screen.inputType == "select" ==>
      (WidgetFor(screen) == Select <==> Truthy(screen.itemList)) &&
      (WidgetFor(screen) == WidgetError <==> !Truthy(screen.itemList))
    ensures screen.inputType == "audioImageRecord" ==>
      (WidgetFor(screen) == AudioImageRecord <==> Truthy(screen.image)) &&
      (WidgetFor(screen) == WidgetError <==> !Truthy(screen.image))
  {
  }

  /** The input types with a widget of their own, and no condition on the screen. */
  lemma DirectWidgets(screen: ScreenItem)
    ensures WidgetFor(screen) == Slider <==> screen.inputType == "slider"
    ensures WidgetFor(screen) == TimeRange <==> screen.inputType == "timeRange"
    ensures WidgetFor(screen) == DatePicker <==> screen.inputType == "date"
    ensures WidgetFor(screen) == TextEntry <==> screen.inputType == "text"
    ensures WidgetFor(screen) == AudioStimulus <==> screen.inputType == "audioStimulus"
    ensures WidgetFor(screen) == VisualStimulusResponse <==> screen.inputType == "visual-stimulus-response"
    ensures WidgetFor(screen) == Drawing <==> screen.inputType == "drawing"
  {
  }

  /** Both audio recordings, plain and passage, use the audio recorder. */
  lemma AudioRecordersShared(screen: ScreenItem)
    ensures WidgetFor(screen) == AudioRecord <==>
      screen.inputType == "audioRecord" || screen.inputType == "audioPassageRecord"
  {
  }

  /** Photo and video use the camera, with the video flag only for video. */
  lemma CameraShared(screen: ScreenItem)
    ensures WidgetFor(screen).Camera? <==> screen.inputType == "photo" || screen.inputType == "video"
    ensures WidgetFor(screen).Camera? ==> (WidgetFor(screen).video <==> screen.inputType == "video")
  {
  }

  /** Counter and text tables use the table input, with free entry only for text tables. */
  lemma TableInputShared(screen: ScreenItem)
    ensures WidgetFor(screen).TableInput? <==> screen.inputType == "tableCounter" || screen.inputType == "tableText"
    ensures WidgetFor(screen).TableInput? ==> (WidgetFor(screen).freeEntry <==> screen.inputType == "tableText")
  {
  }

  /**
   * A markdown message renders nothing, and the error widget appears exactly
   * for an unknown input type or a radio, select or audio-image input that
   * lacks what it needs.
   */
  lemma FallbackWidgets(screen: ScreenItem)
    ensures WidgetFor(screen) == NoWidget <==> screen.inputType == MarkdownMessage
    ensures WidgetFor(screen) == WidgetError <==>
      screen.inputType !in KnownInputTypes ||
      (screen.inputType == "radio" && screen.multipleChoice != Bool(true) && !Truthy(screen.itemList)) ||
      (screen.inputType == "select" && !Truthy(screen.itemList)) ||
      (screen.inputType == "audioImageRecord" && !Truthy(screen.image))
  {
  }

  /** The screens that need no answer are exactly those that render no widget. */
  lemma NoWidgetNeedsNoAnswer(screen: ScreenItem, answer: Value)
    requires WidgetFor(screen) == NoWidget
    ensures IsValid(answer, screen)
  {
    FallbackWidgets(screen);
  }

  /** The widgets given `onPress`/`onRelease` handlers that lock and unlock scrolling. */
  predicate LocksScroll(w: Widget) {
    w == Slider || w == Drawing
  }

  /** The component's state: whether its scroll view may scroll. */
  class ScreenView {
    var scrollEnabled: bool

    /** Scrolling starts enabled. */
    constructor()
      ensures scrollEnabled
    {
      scrollEnabled := true;
    }

    /** A press on the rendered widget: the slider and the drawing board disable scrolling. */
    method Press(widget: Widget)
      modifies this
      ensures scrollEnabled == (if LocksScroll(widget) then false else old(scrollEnabled))
    {
      if LocksScroll(widget) {
        scrollEnabled := false;
      }
    }

    /** A release on the rendered widget: the slider and the drawing board enable scrolling again. */
    method Release(widget: Widget)
      modifies this
      ensures scrollEnabled == (if LocksScroll(widget) then true else old(scrollEnabled))
    {
      if LocksScroll(widget) {
        scrollEnabled := true;
      }
    }
  }
}
