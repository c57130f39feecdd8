/** Log events as the rotation engine sees them, and the life cycle of a rolling sink. */
module Events {
  import opened Clock

  /** A log event: its UTC timestamp and the number of bytes the formatter writes for it. */
  datatype LogEvent = LogEvent(timestamp: DateTime, bytes: nat)

  /** A rolling sink holds a writer until it is disposed. The sinks keep `disposed` and
      `currentSink == null` in step, so one value stands for both. */
  datatype RollingState<+W> = Active(writer: W) | Disposed
}
