/** The chat widget's own state: the typing animation, the per-character delay, the
    draggable window and the conversation counter with the greeting it removes. */
module Widget {
  import opened Wrappers
  import opened Text
  import opened Formatting

  // ---------------------------------------------------------------------------------
  // Typing animation

  /** The blinking cursor shown after the text while it is being typed. */
  const Cursor: string := "<span class=\"typing-cursor\">|</span>"

  /** Default speeds, in milliseconds per character: `typeText`, `typeTextInElement`, a bot
      message in `addMessage`, and the summary/answer/tip and step sections. */
  const TypeTextSpeed: real := 20.0
  const TypeInElementSpeed: real := 15.0
  const BotMessageSpeed: real := 15.0
  const SectionSpeed: real := 12.0
  const StepSpeed: real := 10.0

  /** The pause after typing `c`: half the speed after a space, double after `.`, `!` or
      `?`, the speed itself otherwise. */
  function Delay(speed: real, c: char): (d: real)
    ensures speed >= 0.0 ==> speed * 0.5 <= d <= speed * 2.0
    ensures c != ' ' && c != '.' && c != '!' && c != '?' ==> d == speed
  {
    if c == ' ' then speed * 0.5
    else if c == '.' || c == '!' || c == '?' then speed * 2.0
    else speed
  }

  /** For a positive speed a space is quicker and sentence punctuation slower than any other
      character. */
  lemma {:induction false} DelayOrder(speed: real, c: char)
    requires speed > 0.0 && c != ' ' && c != '.' && c != '!' && c != '?'
    ensures Delay(speed, ' ') < Delay(speed, c) < Delay(speed, '.')
    ensures Delay(speed, '.') == Delay(speed, '!') == Delay(speed, '?') == 4.0 * Delay(speed, ' ')
  {
  }

  /** The pauses after each character of `text`, in order. */
  function Delays(speed: real, text: string): (ds: seq<real>)
    ensures |ds| == |text|
    decreases |text|
  {
    if text == [] then [] else Delays(speed, text[..|text| - 1]) + [Delay(speed, text[|text| - 1])]
  }

  /** The `k`-th pause is the one after the `k`-th character. */
  lemma {:induction false} DelayAfterEach(speed: real, text: string, k: nat)
    requires k < |text|
    ensures Delays(speed, text)[k] == Delay(speed, text[k])
    decreases |text|
  {
    var init := text[..|text| - 1];
    if k < |init| {
      DelayAfterEach(speed, init, k);
      assert init[k] == text[k];
    }
  }

  /** The time the whole animation of `text` waits, summed character by character. */
  function TotalDelay(speed: real, text: string): real
    decreases |text|
  {
    if text == [] then 0.0 else TotalDelay(speed, text[..|text| - 1]) + Delay(speed, text[|text| - 1])
  }

  /** The whole animation takes between half and twice the nominal time. */
  lemma {:induction false} TotalDelayBounds(speed: real, text: string)
    requires speed >= 0.0
    ensures (|text| as real) * speed * 0.5 <= TotalDelay(speed, text) <= (|text| as real) * speed * 2.0
    decreases |text|
  {
    if text != [] {
      var init := text[..|text| - 1];
      TotalDelayBounds(speed, init);
      assert (|text| as real) * speed == (|init| as real) * speed + speed;
    }
  }

  /** Typing one more character adds its pause to the list and to the total. */
  lemma {:induction false} DelaysStep(speed: real, text: string, n: nat)
    requires n < |text|
    ensures Delays(speed, text[..n + 1]) == Delays(speed, text[..n]) + [Delay(speed, text[n])]
    ensures TotalDelay(speed, text[..n + 1]) == TotalDelay(speed, text[..n]) + Delay(speed, text[n])
  {
    assert text[..n + 1][..n] == text[..n];
    assert text[..n + 1][n] == text[n];
  }

  /** The closure state of one `typeText` / `typeTextInElement` call: the position reached,
      the text typed so far and the element's content. */
  class Typewriter {
    const text: string
    const speed: real
    var currentIndex: nat
    var displayText: string
    var html: string
    var finished: bool

    /** What typed so far is a prefix of the text; the element shows it formatted with the
        cursor while typing, and the whole text formatted without cursor once finished. */
    ghost predicate Valid()
      reads this
    {
      && currentIndex <= |text|
      && displayText == text[..currentIndex]
      && (finished ==> currentIndex == |text| && html == FormatMessage(text))
      && (!finished && currentIndex > 0 ==> html == FormatMessage(displayText) + Cursor)
    }

    constructor (text: string, speed: real, html: string)
      ensures Valid() && this.text == text && this.speed == speed
      ensures currentIndex == 0 && displayText == [] && this.html == html && !finished
    {
      this.text := text;
      this.speed := speed;
      currentIndex := 0;
      displayText := [];
      this.html := html;
      finished := false;
    }

    /** One tick of `typeChar`: type the next character and return the pause before the next
        tick, or show the final text and return nothing once all is typed. */
    method TypeChar() returns (delay: Option<real>)
      requires Valid() && !finished
      modifies this
      ensures Valid()
      ensures old(currentIndex) < |text| ==>
        && currentIndex == old(currentIndex) + 1 && !finished
        && displayText == old(displayText) + [text[old(currentIndex)]]
        && html == FormatMessage(displayText) + Cursor
        && delay == Some(Delay(speed, text[old(currentIndex)]))
      ensures old(currentIndex) == |text| ==>
        && currentIndex == old(currentIndex) && displayText == old(displayText)
        && finished && html == FormatMessage(text) && delay == None
    {
      if currentIndex < |text| {
        assert text[..currentIndex + 1] == text[..currentIndex] + [text[currentIndex]];
        displayText := displayText + [text[currentIndex]];
        html := FormatMessage(displayText) + Cursor;
        currentIndex := currentIndex + 1;
        var c := text[currentIndex - 1];
        delay := Some(Delay(speed, c));
      } else {
        assert displayText == text;
        html := FormatMessage(text);
        finished := true;
        delay := None;
      }
    }
  }

  /** The contents shown while the first `n` characters are typed, one per tick. */
  function Frames(text: string, n: nat): (fs: seq<string>)
    requires n <= |text|
    ensures |fs| == n
  {
    if n == 0 then [] else Frames(text, n - 1) + [FormatMessage(text[..n]) + Cursor]
  }

  /** One more tick adds the frame showing one more character. */
  lemma {:induction false} FramesStep(text: string, n: nat, html: string)
    requires n < |text| && html == FormatMessage(text[..n + 1]) + Cursor
    ensures Frames(text, n + 1) == Frames(text, n) + [html]
  {
  }

  /** The `k`-th frame shows the first `k + 1` characters formatted, followed by the cursor. */
  lemma {:induction false} FrameShowsPrefix(text: string, n: nat, k: nat)
    requires k < n <= |text|
    ensures Frames(text, n)[k] == FormatMessage(text[..k + 1]) + Cursor
  {
    if k < n - 1 {
      FrameShowsPrefix(text, n - 1, k);
    } else {
      assert k == n - 1;
    }
  }

  /** A whole `typeText` run: the frames the element shows while typing (`Frames`), the
      pauses between them, their total, and the content left at the end. */
  method TypeText(text: string, speed: real, initial: string)
    returns (frames: seq<string>, delays: seq<real>, elapsed: real, final: string)
    ensures |frames| == |text| && |delays| == |text|
    ensures frames == Frames(text, |text|)
    ensures delays == Delays(speed, text)
    ensures elapsed == TotalDelay(speed, text)
    ensures final == FormatMessage(text)
  {
    var w := new Typewriter(text, speed, initial);
    frames, delays, elapsed := [], [], 0.0;
    while !w.finished
      invariant w.Valid() && w.text == text && w.speed == speed
      invariant frames == Frames(text, w.currentIndex)
      invariant delays == Delays(speed, text[..w.currentIndex])
      invariant elapsed == TotalDelay(speed, text[..w.currentIndex])
      decreases |text| - w.currentIndex + (if w.finished then 0 else 1)
    {
      ghost var n := w.currentIndex;
      var d := w.TypeChar();
      if d.Some? {
        assert w.currentIndex == n + 1 && w.html == FormatMessage(w.displayText) + Cursor;
        DelaysStep(speed, text, n);
        FramesStep(text, n, w.html);
        frames := frames + [w.html];
        delays := delays + [d.value];
        elapsed := elapsed + d.value;
      }
    }
    assert text[..|text|] == text;
    final := w.html;
  }

  // ---------------------------------------------------------------------------------
  // Dragging

  /** `Math.max(0, Math.min(v, viewport - size))`: a coordinate kept inside the viewport. */
  function Clamp(v: real, viewport: real, size: real): (r: real)
    ensures r >= 0.0
    ensures viewport - size >= 0.0 ==> r <= viewport - size
    ensures 0.0 <= v <= viewport - size ==> r == v
    ensures r == v || r == 0.0 || r == viewport - size
    // past either edge the nearer bound is taken; the left edge wins when the window
    // is wider than the viewport
    ensures v < 0.0 ==> r == 0.0
    ensures 0.0 <= viewport - size < v ==> r == viewport - size
    ensures viewport - size < 0.0 ==> r == 0.0
  {
    var m := if v <= viewport - size then v else viewport - size;
    if m >= 0.0 then m else 0.0
  }

  /** Clamping a clamped coordinate changes nothing. */
  lemma {:induction false} ClampIdempotent(v: real, viewport: real, size: real)
    ensures Clamp(Clamp(v, viewport, size), viewport, size) == Clamp(v, viewport, size)
  {
  }

  /** The new coordinate during a drag: the start position moved by the mouse's
      displacement, clamped. */
  function DragPosition(start: real, grabAt: real, mouse: real, viewport: real, size: real): real {
    Clamp(start + (mouse - grabAt), viewport, size)
  }

  /** Where there is room, the window follows the mouse exactly; bringing the mouse back
      to where the drag began puts the window back where it was. */
  lemma {:induction false} DragFollowsMouse(start: real, grabAt: real, mouse: real, viewport: real, size: real)
    requires 0.0 <= start + (mouse - grabAt) <= viewport - size
    ensures DragPosition(start, grabAt, mouse, viewport, size) - start == mouse - grabAt
  {
  }

  lemma {:induction false} DragBackToStart(start: real, grabAt: real, viewport: real, size: real)
    requires 0.0 <= start <= viewport - size
    ensures DragPosition(start, grabAt, grabAt, viewport, size) == start
  {
  }

  /** A mouse position, as a mouse event or the first touch gives it. */
  datatype Point = Point(clientX: real, clientY: real)

  /** The window's geometry at the time of an event: its size and the viewport's. */
  datatype Geometry = Geometry(width: real, height: real, innerWidth: real, innerHeight: real)

  /** The closure state of `enableDraggableChatWidget` together with the window's `left`
      and `top`; `pinned` says `right` and `bottom` have been set to `auto`. Mouse and touch
      share one `isDragging` flag, as they do in the page. */
  class DragController {
    var isDragging: bool
    var dragStartX: real
    var dragStartY: real
    var startLeft: real
    var startTop: real
    var left: real
    var top: real
    var pinned: bool

    constructor (left: real, top: real)
      ensures !isDragging && this.left == left && this.top == top && !pinned
      ensures dragStartX == 0.0 && dragStartY == 0.0 && startLeft == 0.0 && startTop == 0.0
    {
      isDragging := false;
      dragStartX, dragStartY, startLeft, startTop := 0.0, 0.0, 0.0, 0.0;
      this.left, this.top := left, top;
      pinned := false;
    }

    /** Start a drag at the mouse, remembering where the window was. */
    method Begin(p: Point, rectLeft: real, rectTop: real)
      modifies this
      ensures isDragging && dragStartX == p.clientX && dragStartY == p.clientY
      ensures startLeft == rectLeft && startTop == rectTop
      ensures left == old(left) && top == old(top) && pinned == old(pinned)
    {
      isDragging := true;
      dragStartX, dragStartY := p.clientX, p.clientY;
      startLeft, startTop := rectLeft, rectTop;
    }

    /** Move the window with the mouse, clamped to the viewport. */
    method Follow(p: Point, g: Geometry)
      requires isDragging
      modifies this
      ensures left == DragPosition(startLeft, dragStartX, p.clientX, g.innerWidth, g.width)
      ensures top == DragPosition(startTop, dragStartY, p.clientY, g.innerHeight, g.height)
      ensures 0.0 <= left && 0.0 <= top
      ensures g.innerWidth - g.width >= 0.0 ==> left <= g.innerWidth - g.width
      ensures g.innerHeight - g.height >= 0.0 ==> top <= g.innerHeight - g.height
      ensures pinned && isDragging
      ensures dragStartX == old(dragStartX) && dragStartY == old(dragStartY)
      ensures startLeft == old(startLeft) && startTop == old(startTop)
    {
      var newLeft := startLeft + (p.clientX - dragStartX);
      var newTop := startTop + (p.clientY - dragStartY);
      left := Clamp(newLeft, g.innerWidth, g.width);
      top := Clamp(newTop, g.innerHeight, g.height);
      pinned := true;
    }

    /** `onMouseDown`: only the main button starts a drag. */
    method MouseDown(button: int, p: Point, rectLeft: real, rectTop: real)
      modifies this
      ensures button != 0 ==> unchanged(this)
      ensures button == 0 ==>
        && isDragging && dragStartX == p.clientX && dragStartY == p.clientY
        && startLeft == rectLeft && startTop == rectTop
        && left == old(left) && top == old(top) && pinned == old(pinned)
    {
      if button != 0 {
        return;
      }
      Begin(p, rectLeft, rectTop);
    }

    /** `onMouseMove`: ignored unless a drag is in progress. */
    method MouseMove(p: Point, g: Geometry)
      modifies this
      ensures !old(isDragging) ==> unchanged(this)
      ensures old(isDragging) ==>
        && left == DragPosition(old(startLeft), old(dragStartX), p.clientX, g.innerWidth, g.width)
        && top == DragPosition(old(startTop), old(dragStartY), p.clientY, g.innerHeight, g.height)
        && pinned && isDragging
        && dragStartX == old(dragStartX) && dragStartY == old(dragStartY)
        && startLeft == old(startLeft) && startTop == old(startTop)
    {
      if !isDragging {
        return;
      }
      Follow(p, g);
    }

    /** `onMouseUp` and `onTouchEnd`: the drag ends and the window stays where it is. */
    method End()
      modifies this
      ensures !isDragging
      ensures left == old(left) && top == old(top) && pinned == old(pinned)
      ensures dragStartX == old(dragStartX) && dragStartY == old(dragStartY)
      ensures startLeft == old(startLeft) && startTop == old(startTop)
    {
      isDragging := false;
    }

    /** The `touchstart` handler: only a single touch starts a drag. */
    method TouchStart(touches: seq<Point>, rectLeft: real, rectTop: real)
      modifies this
      ensures |touches| != 1 ==> unchanged(this)
      ensures |touches| == 1 ==>
        && isDragging && dragStartX == touches[0].clientX && dragStartY == touches[0].clientY
        && startLeft == rectLeft && startTop == rectTop
        && left == old(left) && top == old(top) && pinned == old(pinned)
    {
      if |touches| != 1 {
        return;
      }
      Begin(touches[0], rectLeft, rectTop);
    }

    /** `onTouchMove`: ignored unless a drag is in progress with exactly one touch. */
    method TouchMove(touches: seq<Point>, g: Geometry)
      modifies this
      ensures !old(isDragging) || |touches| != 1 ==> unchanged(this)
      ensures old(isDragging) && |touches| == 1 ==>
        && left == DragPosition(old(startLeft), old(dragStartX), touches[0].clientX, g.innerWidth, g.width)
        && top == DragPosition(old(startTop), old(dragStartY), touches[0].clientY, g.innerHeight, g.height)
        && pinned && isDragging
        && dragStartX == old(dragStartX) && dragStartY == old(dragStartY)
        && startLeft == old(startLeft) && startTop == old(startTop)
    {
      if !isDragging || |touches| != 1 {
        return;
      }
      Follow(touches[0], g);
    }
  }

  // ---------------------------------------------------------------------------------
  // Conversation

  /** A message bubble: a plain message with its text, or a structured reply drawn by
      `addStructuredResponse`. */
  datatype Bubble = Plain(isUser: bool, text: string) | StructuredReply

  /** What a plain bubble shows: its text formatted (a typed bot message once its animation
      is over). */
  function Html(b: Bubble): string
    requires b.Plain?
  {
    FormatMessage(b.text)
  }

  /** What `fetch("/api")` gives `sendMessage`: an exception or a non-2xx status (both end in
      the catch block), or the decoded body's `success`, `error` and `answer` fields. */
  datatype Reply = Thrown | BadStatus(status: int) | Body(success: bool, error: Option<string>, answer: Option<string>)

  const FetchFailedText: string := "Unable to fetch response. Please try again."
  const ConnectionErrorText: string := "Connection error. Please check your connection and try again."

  /** JavaScript truthiness of an optional string: present and non-empty. */
  predicate Truthy(s: Option<string>) {
    s.Some? && s.value != ""
  }

  /** The bot text `sendMessage` shows when the reply is not a success:
      `data.error || data.answer || …`, or the connection message after an exception. */
  function FailureText(r: Reply): (t: string)
    requires !(r.Body? && r.success)
    ensures r.Body? && Truthy(r.error) ==> t == r.error.value
    ensures r.Body? && !Truthy(r.error) && Truthy(r.answer) ==> t == r.answer.value
    ensures r.Body? && !Truthy(r.error) && !Truthy(r.answer) ==> t == FetchFailedText
    ensures !r.Body? ==> t == ConnectionErrorText
    ensures t != ""
  {
    if !r.Body? then ConnectionErrorText
    else if Truthy(r.error) then r.error.value
    else if Truthy(r.answer) then r.answer.value
    else FetchFailedText
  }

  /** The bubble a reply ends in: the structured reply exactly on success, otherwise a
      bot bubble with a non-empty failure text. */
  function ReplyBubble(r: Reply): (b: Bubble)
    ensures b.StructuredReply? <==> r.Body? && r.success
    ensures b.Plain? ==> !b.isUser && b.text != ""
    ensures !r.Body? ==> b == Plain(false, ConnectionErrorText)
  {
    if r.Body? && r.success then StructuredReply else Plain(false, FailureText(r))
  }

  /** The chat page's state: `conversationCount`, whether the greeting and the quick prompts
      are still shown, the bubbles, the input box, `lastQuestion`, the loading indicator and
      the send button. */
  class Conversation {
    var count: nat
    var greetingShown: bool
    var promptsShown: bool
    var bubbles: seq<Bubble>
    var input: string
    var lastQuestion: string
    var loading: bool
    var sendDisabled: bool

    constructor ()
      ensures count == 0 && greetingShown && promptsShown && bubbles == []
      ensures input == [] && lastQuestion == [] && !loading && !sendDisabled
    {
      count := 0;
      greetingShown, promptsShown := true, true;
      bubbles := [];
      input, lastQuestion := [], [];
      loading, sendDisabled := false, false;
    }

    /** `addMessage`: a bot message while no user message has been counted removes the
        greeting and the quick prompts; the message is appended as a bubble showing
        `Html`; only a user message counts. */
    method AddMessage(text: string, isUser: bool, useTyping: bool)
      modifies this
      ensures count == old(count) + (if isUser then 1 else 0)
      ensures greetingShown == (old(greetingShown) && !(old(count) == 0 && !isUser))
      ensures promptsShown == (old(promptsShown) && !(old(count) == 0 && !isUser))
      ensures bubbles == old(bubbles) + [Plain(isUser, text)]
      ensures input == old(input) && lastQuestion == old(lastQuestion)
      ensures loading == old(loading) && sendDisabled == old(sendDisabled)
    {
      if count == 0 && !isUser {
        greetingShown := false;
        promptsShown := false;
      }
      bubbles := bubbles + [Plain(isUser, text)];
      if isUser {
        count := count + 1;
      }
    }

    /** `sendMessage` with the reply the request gets: a blank input does nothing; otherwise
        the trimmed question is submitted. */
    method SendMessage(reply: Reply)
      modifies this
      ensures AllSpace(old(input)) ==> unchanged(this)
      ensures !AllSpace(old(input)) ==>
        && lastQuestion == Strip(old(input)) && input == []
        && count == old(count) + 1
        && bubbles == old(bubbles) + [Plain(true, Strip(old(input))), ReplyBubble(reply)]
        && greetingShown == old(greetingShown) && promptsShown == old(promptsShown)
        && !loading && !sendDisabled
    {
      var question := Strip(input);
      StripEmpty(input);
      if question == [] {
        return;
      }
      Submit(question, reply);
    }

    /** The exchange for a non-blank question: it is shown as a user message, the input is
        cleared and the reply is shown once the loading indicator is gone. The question's own
        message is counted first, so the reply never removes the greeting. */
    method Submit(question: string, reply: Reply)
      requires question != []
      modifies this
      ensures lastQuestion == question && input == [] && count == old(count) + 1
      ensures bubbles == old(bubbles) + [Plain(true, question), ReplyBubble(reply)]
      ensures greetingShown == old(greetingShown) && promptsShown == old(promptsShown)
      ensures !loading && !sendDisabled
    {
      lastQuestion := question;
      AddMessage(question, true, false);
      input := [];
      loading := true;
      sendDisabled := true;
      loading := false;
      if reply.Body? && reply.success {
        bubbles := bubbles + [StructuredReply];
      } else {
        AddMessage(FailureText(reply), false, true);
      }
      sendDisabled := false;
    }
  }

  /** Looking at one more input adds one to the count of non-blank inputs exactly when that
      input is not blank. */
  lemma {:induction false} NonBlankStep(inputs: seq<string>, i: nat)
    requires i < |inputs|
    ensures |set j | 0 <= j < i + 1 && !AllSpace(inputs[j])|
         == |set j | 0 <= j < i && !AllSpace(inputs[j])| + (if AllSpace(inputs[i]) then 0 else 1)
  {
    var before := set j | 0 <= j < i && !AllSpace(inputs[j]);
    var after := set j | 0 <= j < i + 1 && !AllSpace(inputs[j]);
    if AllSpace(inputs[i]) {
      assert after == before;
    } else {
      assert after == before + {i};
    }
  }

  /** A fresh page keeps its greeting through any number of exchanges. */
  method GreetingSurvivesExchanges(inputs: seq<string>, replies: seq<Reply>) returns (c: Conversation)
    requires |inputs| == |replies|
    ensures c.greetingShown && c.promptsShown
    ensures c.count == |set i | 0 <= i < |inputs| && !AllSpace(inputs[i])|
  {
    c := new Conversation();
    var i := 0;
    while i < |inputs|
      invariant 0 <= i <= |inputs|
      invariant c.greetingShown && c.promptsShown
      invariant c.count == |set j | 0 <= j < i && !AllSpace(inputs[j])|
    {
      NonBlankStep(inputs, i);
      c.input := inputs[i];
      c.SendMessage(replies[i]);
      i := i + 1;
    }
  }
}
