/** The server's in-memory log store: every entry is kept newest first, at
    most `MaxLogs` of them, and broadcast to the socket clients and to the
    listeners inside the server. */
module ServerLogs {
  import opened Wrappers
  import opened LogBuffer

  /** One event sent both to every socket client (`io.emit`) and to the
      in-process listeners (`this.emit`); the two carry the same payload. */
  datatype Broadcast = NewLog(entry: LogEntry) | LogsCleared

  class LogController {
    var logs: seq<LogEntry>
    /** Every broadcast so far, oldest first. */
    var broadcasts: seq<Broadcast>

    ghost predicate Valid()
      reads this
    {
      |logs| <= MaxLogs
    }

    constructor()
      ensures Valid()
      ensures logs == [] && broadcasts == []
    {
      logs := [];
      broadcasts := [];
    }

    /** `addLog`: the clock's reading `now` becomes the timestamp. The entry
        goes in front, the oldest entry is dropped past `MaxLogs`, and the
        entry is broadcast as `clientLog` / `newLog`. */
    method AddLog(level: Level, message: string, source: Option<string>,
                  details: Option<string>, now: string)
      requires Valid()
      modifies this
      ensures Valid()
      ensures logs == NewestFirst(old(logs), LogEntry(now, level, message, source, details), MaxLogs)
      ensures |logs| >= 1 && logs[0] == LogEntry(now, level, message, source, details)
      ensures broadcasts == old(broadcasts) + [NewLog(LogEntry(now, level, message, source, details))]
    {
      var log := LogEntry(now, level, message, source, details);
      logs := [log] + logs;
      if |logs| > MaxLogs {
        logs := logs[..MaxLogs];
      }
      broadcasts := broadcasts + [NewLog(log)];
    }

    function GetLogs(): seq<LogEntry>
      reads this
    {
      logs
    }

    /** `clearLogs`: the store is emptied and `logsCleared` is broadcast. */
    method ClearLogs()
      requires Valid()
      modifies this
      ensures Valid()
      ensures logs == []
      ensures broadcasts == old(broadcasts) + [LogsCleared]
    {
      logs := [];
      broadcasts := broadcasts + [LogsCleared];
    }
  }
}
