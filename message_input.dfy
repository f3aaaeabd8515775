/** The message composer's typing indicator: the text being written, the
    `isTyping` flag, the single stop-typing timer kept in
    `typingTimeoutRef.current`, and the callbacks the component makes to its
    parent. Timers are explicit: setting one arms it, clearing one disarms
    it, and `TimerFires` is the event loop running an armed one. */
module MessageInput {
  import opened JsText

  /** The stop-typing delay, in milliseconds. */
  const StopTypingDelayMs: nat := 1000

  type TimerId = nat

  /** A call the component makes to its parent. */
  datatype Call = OnTyping(isTyping: bool) | OnSendMessage(text: string)

  class Composer {
    /** The textarea's text. */
    var message: string
    var isTyping: bool
    /** `typingTimeoutRef.current`: the last timer set, until it fires. */
    var timeoutRef: Option<TimerId>
    /** Timers set by the component that have neither fired nor been cleared. */
    var armed: set<TimerId>
    /** The id the next `setTimeout` returns. */
    var nextTimer: TimerId

    /** Only the timer in the ref can be armed. */
    ghost predicate Valid()
      reads this
    {
      && (forall t :: t in armed ==> t < nextTimer)
      && (timeoutRef.Some? ==> timeoutRef.value < nextTimer)
      && armed <= (if timeoutRef.Some? then {timeoutRef.value} else {})
    }

    /** At most one stop-typing timer is ever armed. */
    lemma AtMostOneArmed()
      requires Valid()
      ensures |armed| <= 1
      ensures forall t :: t in armed ==> timeoutRef == Some(t)
    {
      if armed != {} {
        var t :| t in armed;
        assert armed == {t};
      }
    }

    constructor ()
      ensures Valid()
      ensures message == [] && !isTyping && timeoutRef.None? && armed == {}
    {
      message := [];
      isTyping := false;
      timeoutRef := None;
      armed := {};
      nextTimer := 1;
    }

    /** `handleChange`: takes the new text; announces typing once when the
        text is not blank and typing was not yet announced; then replaces
        any armed stop timer by a new one, due `StopTypingDelayMs` later. */
    method HandleChange(value: string) returns (calls: seq<Call>)
      requires Valid()
      modifies this
      ensures Valid()
      ensures message == value
      ensures !Blank(value) && !old(isTyping) ==> isTyping && calls == [OnTyping(true)]
      ensures Blank(value) || old(isTyping) ==> isTyping == old(isTyping) && calls == []
      ensures timeoutRef == Some(old(nextTimer)) && armed == {old(nextTimer)}
      ensures old(nextTimer) !in old(armed)
      ensures nextTimer == old(nextTimer) + 1
    {
      message := value;
      calls := [];
      if !Blank(value) && !isTyping {
        isTyping := true;
        calls := [OnTyping(true)];
      }
      if timeoutRef.Some? {
        armed := armed - {timeoutRef.value};
      }
      var t := nextTimer;
      nextTimer := nextTimer + 1;
      timeoutRef := Some(t);
      armed := armed + {t};
    }

    /** The stop timer `t` runs: typing stops, the parent is told, and the
        ref is emptied. */
    method TimerFires(t: TimerId) returns (calls: seq<Call>)
      requires Valid()
      requires t in armed
      modifies this
      ensures Valid()
      ensures !isTyping && calls == [OnTyping(false)]
      ensures timeoutRef.None? && armed == {}
      ensures message == old(message) && nextTimer == old(nextTimer)
    {
      AtMostOneArmed();
      isTyping := false;
      calls := [OnTyping(false)];
      timeoutRef := None;
      armed := armed - {t};
    }

    /** `handleSubmit`: a blank text does nothing; otherwise the text, as
        typed, goes to the parent, the textarea is emptied, typing stops and
        the stop timer is cleared (the ref keeps the cleared id). */
    method HandleSubmit() returns (calls: seq<Call>)
      requires Valid()
      modifies this
      ensures Valid()
      ensures Blank(old(message)) ==>
                && calls == []
                && message == old(message) && isTyping == old(isTyping)
                && timeoutRef == old(timeoutRef) && armed == old(armed)
      ensures !Blank(old(message)) ==>
                && calls == [OnSendMessage(old(message)), OnTyping(false)]
                && message == [] && !isTyping
                && timeoutRef == old(timeoutRef) && armed == {}
      ensures nextTimer == old(nextTimer)
    {
      calls := [];
      if !Blank(message) {
        calls := [OnSendMessage(message), OnTyping(false)];
        message := [];
        isTyping := false;
        if timeoutRef.Some? {
          armed := armed - {timeoutRef.value};
        }
      }
    }

    /** `handleKeyPress`: Enter without Shift submits; any other key does
        nothing here. */
    method HandleKeyPress(key: string, shiftKey: bool) returns (calls: seq<Call>)
      requires Valid()
      modifies this
      ensures Valid()
      ensures key != "Enter" || shiftKey ==>
                && calls == []
                && message == old(message) && isTyping == old(isTyping)
                && timeoutRef == old(timeoutRef) && armed == old(armed)
      ensures key == "Enter" && !shiftKey && Blank(old(message)) ==>
                && calls == []
                && message == old(message) && isTyping == old(isTyping)
                && timeoutRef == old(timeoutRef) && armed == old(armed)
      ensures key == "Enter" && !shiftKey && !Blank(old(message)) ==>
                && calls == [OnSendMessage(old(message)), OnTyping(false)]
                && message == [] && !isTyping
                && timeoutRef == old(timeoutRef) && armed == {}
      ensures nextTimer == old(nextTimer)
    {
      calls := [];
      if key == "Enter" && !shiftKey {
        calls := HandleSubmit();
      }
    }

    /** The unmount cleanup: clears the timer in the ref. */
    method Unmount()
      requires Valid()
      modifies this
      ensures Valid()
      ensures armed == {}
      ensures message == old(message) && isTyping == old(isTyping) && timeoutRef == old(timeoutRef)
      ensures nextTimer == old(nextTimer)
    {
      if timeoutRef.Some? {
        armed := armed - {timeoutRef.value};
      }
    }
  }
}
