/** `BufferedLogger`: besides printing, every log call appends an entry to a
    bounded buffer kept per level, dropping the oldest entry of that level on
    overflow. The clock (`new Date()`) is a parameter `now`. */
module BufferLogger {
  import opened Wrappers

  datatype Level = Fatal | Error | Warn | Log | Verbose | Debug

  /** `defaultMaxSize`. */
  function MaxSize(level: Level): nat {
    match level
    case Fatal => 300
    case Error => 300
    case Warn => 300
    case Log => 500
    case Verbose => 100
    case Debug => 100
  }

  const UNKNOWN_CONTEXT: string := "UnknownContext"

  datatype LogEntry = LogEntry(level: Level, message: string, context: string, time: int)

  /** `context ?? UnknownContext`: only a missing context is replaced; an
      empty one is kept. */
  function ContextOr(context: Option<string>): (r: string)
    ensures context.Some? ==> r == context.value
    ensures context.None? ==> r == UNKNOWN_CONTEXT
  {
    match context
    case Some(c) => c
    case None => UNKNOWN_CONTEXT
  }

  /** The message of an error entry: the message, a space, and the trace or
      nothing. */
  function ErrorMessage(message: string, trace: Option<string>): (r: string)
    ensures |r| > |message|
    ensures r[..|message|] == message && r[|message|] == ' '
    ensures trace.Some? ==> r[|message| + 1..] == trace.value
    ensures trace.None? ==> |r| == |message| + 1
  {
    message + " " + (match trace case Some(t) => t case None => "")
  }

  /** A buffer after `push(item)` and, past `max`, one `shift()`. */
  function Pushed(buffer: seq<LogEntry>, item: LogEntry, max: nat): (r: seq<LogEntry>)
    requires 0 < max && |buffer| <= max
    ensures |r| <= max
    ensures r != [] && r[|r| - 1] == item
    ensures |buffer| < max ==> r == buffer + [item]
    ensures |buffer| == max ==> r == buffer[1..] + [item]
  {
    var grown := buffer + [item];
    if |grown| > max then grown[1..] else grown
  }

  /** The pushed buffer is a suffix of the old buffer followed by the item:
      the order is kept and at most the oldest entry is dropped. */
  lemma PushedKeepsOrder(buffer: seq<LogEntry>, item: LogEntry, max: nat)
    requires 0 < max && |buffer| <= max
    ensures var r := Pushed(buffer, item, max);
      && |r| <= max
      && |r| >= |buffer|
      && r == (buffer + [item])[|buffer| + 1 - |r|..]
  {
  }

  class BufferedLogger {
    var buffers: map<Level, seq<LogEntry>>

    /** Every level has a buffer, within its maximum, holding only entries
        of that level. */
    ghost predicate Valid()
      reads this
    {
      forall level :: level in buffers
        && |buffers[level]| <= MaxSize(level)
        && (forall e :: e in buffers[level] ==> e.level == level)
    }

    constructor()
      ensures Valid()
      ensures forall level :: level in buffers && buffers[level] == []
    {
      buffers := map[Fatal := [], Error := [], Warn := [], Log := [], Verbose := [], Debug := []];
      new;
      forall level: Level
        ensures level in buffers && buffers[level] == []
      {
        assert level == Fatal || level == Error || level == Warn || level == Log || level == Verbose || level == Debug;
      }
    }

    /** `addToBuffer(level, message, context)`. */
    method AddToBuffer(level: Level, message: string, context: string, now: int)
      requires Valid()
      modifies this
      ensures Valid()
      ensures buffers == old(buffers)[level := Pushed(old(buffers[level]), LogEntry(level, message, context, now), MaxSize(level))]
    {
      var item := LogEntry(level, message, context, now);
      var buffer := buffers[level] + [item];
      if |buffer| > MaxSize(level) {
        buffer := buffer[1..];
      }
      buffers := buffers[level := buffer];
    }

    method FatalLog(message: string, context: Option<string>, now: int)
      requires Valid()
      modifies this
      ensures Valid()
      ensures buffers == old(buffers)[Fatal := Pushed(old(buffers[Fatal]), LogEntry(Fatal, message, ContextOr(context), now), 300)]
    {
      AddToBuffer(Fatal, message, ContextOr(context), now);
    }

    method LogLog(message: string, context: Option<string>, now: int)
      requires Valid()
      modifies this
      ensures Valid()
      ensures buffers == old(buffers)[Log := Pushed(old(buffers[Log]), LogEntry(Log, message, ContextOr(context), now), 500)]
    {
      AddToBuffer(Log, message, ContextOr(context), now);
    }

    method ErrorLog(message: string, trace: Option<string>, context: Option<string>, now: int)
      requires Valid()
      modifies this
      ensures Valid()
      ensures buffers == old(buffers)[Error := Pushed(old(buffers[Error]),
        LogEntry(Error, ErrorMessage(message, trace), ContextOr(context), now), 300)]
    {
      AddToBuffer(Error, ErrorMessage(message, trace), ContextOr(context), now);
    }

    method WarnLog(message: string, context: Option<string>, now: int)
      requires Valid()
      modifies this
      ensures Valid()
      ensures buffers == old(buffers)[Warn := Pushed(old(buffers[Warn]), LogEntry(Warn, message, ContextOr(context), now), 300)]
    {
      AddToBuffer(Warn, message, ContextOr(context), now);
    }

    method DebugLog(message: string, context: Option<string>, now: int)
      requires Valid()
      modifies this
      ensures Valid()
      ensures buffers == old(buffers)[Debug := Pushed(old(buffers[Debug]), LogEntry(Debug, message, ContextOr(context), now), 100)]
    {
      AddToBuffer(Debug, message, ContextOr(context), now);
    }

    method VerboseLog(message: string, context: Option<string>, now: int)
      requires Valid()
      modifies this
      ensures Valid()
      ensures buffers == old(buffers)[Verbose := Pushed(old(buffers[Verbose]), LogEntry(Verbose, message, ContextOr(context), now), 100)]
    {
      AddToBuffer(Verbose, message, ContextOr(context), now);
    }

    /** Every buffered entry of every level, level by level. */
    function Entries(): seq<LogEntry>
      reads this
      requires Valid()
    {
      buffers[Fatal] + buffers[Error] + buffers[Warn] + buffers[Log] + buffers[Verbose] + buffers[Debug]
    }

    /** `getLogs()`: every buffered entry, no more and no fewer, at most 1600
        of them. */
    function GetLogs(): (r: seq<LogEntry>)
      reads this
      requires Valid()
      ensures forall e :: e in r <==> e in buffers[e.level]
      ensures |r| == |buffers[Fatal]| + |buffers[Error]| + |buffers[Warn]|
        + |buffers[Log]| + |buffers[Verbose]| + |buffers[Debug]|
      ensures multiset(r) == multiset(buffers[Fatal]) + multiset(buffers[Error]) + multiset(buffers[Warn])
        + multiset(buffers[Log]) + multiset(buffers[Verbose]) + multiset(buffers[Debug])
      ensures |r| <= 1600
    {
      Entries()
    }
  }
}
