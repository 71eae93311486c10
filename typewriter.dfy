/**
 * The typewriter text component: an interval that reveals the content one character per
 * tick and calls the completion callback when everything is shown. Timing (`speed`) only
 * spaces the ticks; the model counts ticks.
 */
module Typewriter {

  /**
   * The state of one run of the effect: the content, the tick counter, the shown text,
   * whether the interval is still set, and how many times the completion callback ran.
   */
  datatype TypeState = TypeState(content: string, idx: nat, displayed: string, ticking: bool, callbacks: nat)

  /** `s.slice(0, k)` for k >= 0: the first k characters, or all of them. */
  function Slice(s: string, k: nat): (r: string)
    ensures r <= s
    ensures |r| == if k <= |s| then k else |s|
  {
    if k <= |s| then s[..k] else s
  }

  /** A (re)started effect: counter 0, nothing shown, interval set. */
  function Begin(content: string): TypeState
  {
    TypeState(content, 0, "", true, 0)
  }

  /** One interval tick. */
  function Tick(s: TypeState, callbackIsFunction: bool): (t: TypeState)
    requires s.ticking
    ensures t.content == s.content && t.idx == s.idx + 1
    ensures t.displayed <= t.content
    ensures t.ticking <==> t.idx < |t.content|
  {
    var idx := s.idx + 1;
    var displayed := Slice(s.content, idx);
    if idx >= |s.content| then
      TypeState(s.content, idx, displayed, false, s.callbacks + if callbackIsFunction then 1 else 0)
    else
      TypeState(s.content, idx, displayed, true, s.callbacks)
  }

  /** The number of ticks a run takes: one per character, and one for empty content. */
  function Duration(content: string): (n: nat)
    ensures n >= 1
  {
    if |content| == 0 then 1 else |content|
  }

  /**
   * The state after `k` ticks of a run over `content`. Before completion the shown text is
   * the first k characters; the k-th tick with k = Duration completes, clears the interval
   * and runs the callback exactly once (if it is a function).
   */
  function AfterTicks(content: string, k: nat, callbackIsFunction: bool): (s: TypeState)
    requires k <= Duration(content)
    ensures s.content == content && s.idx == k
    ensures s.displayed == Slice(content, k)
    ensures s.ticking <==> k < Duration(content)
    ensures s.callbacks == if k == Duration(content) && callbackIsFunction then 1 else 0
  {
    if k == 0 then Begin(content)
    else Tick(AfterTicks(content, k - 1, callbackIsFunction), callbackIsFunction)
  }

  /** The shown text is always a prefix of the content and never longer than it. */
  lemma DisplayedIsPrefix(content: string, k: nat, callbackIsFunction: bool)
    requires k <= Duration(content)
    ensures AfterTicks(content, k, callbackIsFunction).displayed <= content
    ensures |AfterTicks(content, k, callbackIsFunction).displayed| <= |content|
  {
  }

  /** A finished run shows the whole content, and empty content finishes on the first tick. */
  lemma CompletedRunShowsAll(content: string, callbackIsFunction: bool)
    ensures var s := AfterTicks(content, Duration(content), callbackIsFunction);
      s.displayed == content && !s.ticking
    ensures content == "" ==> !AfterTicks(content, 1, callbackIsFunction).ticking
  {
  }

  class TypewriterText {
    var content: string
    var idx: nat
    var displayed: string
    var ticking: bool
    var callbacks: nat
    var callbackIsFunction: bool

    function State(): TypeState
      reads this
    {
      TypeState(content, idx, displayed, ticking, callbacks)
    }

    /** Mounting runs the effect for the first content. */
    constructor (content: string, speed: nat, callbackIsFunction: bool)
      ensures State() == Begin(content) && this.callbackIsFunction == callbackIsFunction
    {
      this.content := content;
      this.callbackIsFunction := callbackIsFunction;
      idx := 0;
      displayed := "";
      ticking := true;
      callbacks := 0;
    }

    /**
     * A new `content` or `speed` clears the old interval and restarts: counter 0, nothing
     * shown, a new interval set.
     */
    method Restart(newContent: string, speed: nat, newCallbackIsFunction: bool)
      modifies this
      ensures State() == Begin(newContent) && callbackIsFunction == newCallbackIsFunction
    {
      content := newContent;
      callbackIsFunction := newCallbackIsFunction;
      idx := 0;
      displayed := "";
      ticking := true;
      callbacks := 0;
    }

    /** The interval callback, which fires only while the interval is set. */
    method OnTick()
      requires ticking
      modifies this
      ensures State() == Tick(old(State()), callbackIsFunction)
      ensures callbackIsFunction == old(callbackIsFunction)
      ensures displayed <= content
    {
      idx := idx + 1;
      displayed := Slice(content, idx);
      if idx >= |content| {
        ticking := false;
        if callbackIsFunction {
          callbacks := callbacks + 1;
        }
      }
    }

    /** Unmounting clears the interval: no tick follows. */
    method Unmount()
      modifies this
      ensures !ticking
      ensures content == old(content) && idx == old(idx) && displayed == old(displayed)
      ensures callbacks == old(callbacks)
    {
      ticking := false;
    }
  }
}
