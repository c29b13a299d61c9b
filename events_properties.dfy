/** The priority among timing fields in `get_duration`. */
module EventsProperties {
  import opened Wrappers
  import opened Events

  /** When `exec_time` is present it alone decides the duration; `duration` is ignored. */
  lemma ExecTimeWins(clock: Clock, e: Event, millis: Option<real>)
    requires e.TestStringTime? ==> e.execTime.Some?
    requires e.TestFloatTime? ==> e.execSeconds.Some?
    requires !e.Suite?
    ensures ChosenTimeField(e) ==
      if e.TestStringTime? then Some(ExecTimeText(e.execTime.value)) else Some(ExecTimeSeconds(e.execSeconds.value))
    ensures DurationNanos(clock, e.(duration := millis)) == DurationNanos(clock, e)
  {
  }

  /** Without `exec_time`, the milliseconds of `duration` are used, or zero when both are absent. */
  lemma MillisOtherwise(clock: Clock, e: Event)
    requires !e.Suite?
    requires e.TestStringTime? ==> e.execTime.None?
    requires e.TestFloatTime? ==> e.execSeconds.None?
    ensures e.duration.Some? ==> DurationNanos(clock, e) == Ok(clock.millisToNanos(e.duration.value))
    ensures e.duration.None? ==> DurationNanos(clock, e) == Ok(0)
  {
  }

  /** Only a string `exec_time` can fail: when it lacks the `s` suffix or its number does not parse. */
  lemma DurationFailsOnlyOnText(clock: Clock, e: Event)
    requires !e.Suite?
    ensures DurationNanos(clock, e).Err? <==>
      && e.TestStringTime? && e.execTime.Some?
      && var t := e.execTime.value;
         t == [] || t[|t| - 1] != 's' || clock.parseSeconds(t[..|t| - 1]).None?
  {
  }

  /** `"<x>s"` in the string shape gives the duration the number x gives in the numeric shape. */
  lemma SecondsShapesAgree(clock: Clock, t: TestEvent, millis: Option<real>, x: string, seconds: real)
    requires clock.parseSeconds(x) == Some(seconds)
    ensures DurationNanos(clock, TestStringTime(t, millis, Some(x + "s"))) ==
            DurationNanos(clock, TestFloatTime(t, millis, Some(seconds)))
  {
    assert (x + "s")[..|x|] == x;
  }

  /** With no `exec_time`, the two test shapes are timed alike. */
  lemma MillisShapesAgree(clock: Clock, t: TestEvent, millis: Option<real>)
    ensures DurationNanos(clock, TestStringTime(t, millis, None)) ==
            DurationNanos(clock, TestFloatTime(t, millis, None))
  {
  }
}
