/**
 * Value types shared by both background services: optional values, the
 * outcome of a call that can throw, and the clock.
 */
module Base {

  datatype Option<+T> = None | Some(value: T)

  /** The outcome of an awaited call: it returns a value, or it throws an error carrying a message. */
  datatype Result<+T> = Ok(value: T) | Err(message: string)

  /** A point in time, in milliseconds since the epoch (a JavaScript `Date`). */
  type Millis = int

  /** `xs` is `ys` with some elements left out, the rest in their order. */
  predicate IsSubsequence<T(==)>(xs: seq<T>, ys: seq<T>)
  {
    xs == [] ||
    (ys != [] && (IsSubsequence(xs, ys[1..]) || (xs[0] == ys[0] && IsSubsequence(xs[1..], ys[1..]))))
  }

  /** The error, if any, that an external call made for item `id` throws. */
  function ErrorFor<K>(errors: map<K, string>, id: K): (e: Option<string>)
    ensures e.Some? <==> id in errors
  {
    if id in errors then Some(errors[id]) else None
  }
}

/**
 * Recurring timers: a `node-cron` task and the `{ stop }` wrapper that the
 * token refresher puts around `setInterval`. A firing of the timer is a plain
 * call of the service's `Tick` method; nothing here runs concurrently.
 */
module Timers {

  const MinuteMs: int := 60 * 1000
  const HourMs: int := 60 * MinuteMs

  class Job {
    const periodMs: int
    /** False once `stop()` has been called: the timer fires no more. */
    var active: bool

    constructor (periodMs: int)
      ensures this.periodMs == periodMs && active
    {
      this.periodMs := periodMs;
      active := true;
    }

    /** `job.stop()` / `clearInterval(id)`; stopping a stopped job changes nothing. */
    method Stop()
      modifies this
      ensures !active
    {
      active := false;
    }
  }
}
