/** The system-log page: the log list pushed over the socket, the level,
    source and text filters over it, the list of sources offered in the
    source filter, and the text download. `toLowerCase` is the parameter
    `lower`; `JSON.stringify(details, null, 2)` is the parameter `pretty`,
    applied to the entry's details. */
module SistemLoglari {
  import opened Wrappers
  import Strings
  import Lists
  import opened LogBuffer

  /** The socket events that change the list. */
  datatype Incoming = InitialLogs(logs: seq<LogEntry>) | ClientLog(entry: LogEntry) | LogsCleared

  /** The list after an event: the initial list replaces it, a new entry is
      put in front and the list cut to the newest 1000, and clearing
      empties it. */
  function Receive(logs: seq<LogEntry>, ev: Incoming): (r: seq<LogEntry>)
    ensures ev.InitialLogs? ==> r == ev.logs
    ensures ev.LogsCleared? ==> r == []
    ensures ev.ClientLog? ==> 0 < |r| <= MaxLogs && r[0] == ev.entry
  {
    match ev
    case InitialLogs(initial) => initial
    case ClientLog(e) => NewestFirst(logs, e, MaxLogs)
    case LogsCleared => []
  }

  /** A pushed entry lands at the top, the list never grows past 1000, and
      the entries behind it are the previous ones, newest first, of which
      only the oldest fall off. */
  lemma ClientLogSpec(logs: seq<LogEntry>, e: LogEntry)
    ensures var r := Receive(logs, ClientLog(e));
      && r[0] == e
      && |r| == Min(|logs| + 1, MaxLogs)
      && r[1..] == logs[..Min(|logs|, MaxLogs - 1)]
  {
    NewestFirstSpec(logs, e, MaxLogs);
  }

  function LevelName(l: Level): string {
    match l
    case Info => "info"
    case Warn => "warn"
    case Error => "error"
  }

  /** `level.toUpperCase()`. */
  function LevelUpper(l: Level): string {
    match l
    case Info => "INFO"
    case Warn => "WARN"
    case Error => "ERROR"
  }

  /** A source that JavaScript counts as true: present and non-empty. */
  predicate Truthy(source: Option<string>) {
    source.Some? && source.value != ""
  }

  /** The level filter is `all` or the entry's level; the source filter is
      `all` or the entry's source; the search text is empty or occurs,
      ignoring case, in the message or in a non-empty source. */
  predicate Keep(log: LogEntry, levelFilter: string, sourceFilter: string, searchText: string,
                 lower: string -> string) {
    (levelFilter == "all" || LevelName(log.level) == levelFilter)
    && (sourceFilter == "all" || log.source == Some(sourceFilter))
    && (searchText == ""
        || Strings.IncludesFolded(log.message, searchText, lower)
        || (Truthy(log.source) && Strings.IncludesFolded(log.source.value, searchText, lower)))
  }

  function KeepFn(levelFilter: string, sourceFilter: string, searchText: string,
                  lower: string -> string): LogEntry -> bool {
    (log: LogEntry) => Keep(log, levelFilter, sourceFilter, searchText, lower)
  }

  /** `filteredLogs`: the kept entries, in list order. */
  function FilteredLogs(logs: seq<LogEntry>, levelFilter: string, sourceFilter: string, searchText: string,
                        lower: string -> string): seq<LogEntry> {
    Lists.Filter(logs, KeepFn(levelFilter, sourceFilter, searchText, lower))
  }

  /** With every filter open the list is shown as it is; choosing a source
      hides every entry without that exact source. */
  lemma FilteredLogsSpec(logs: seq<LogEntry>, levelFilter: string, sourceFilter: string, searchText: string,
                         lower: string -> string)
    ensures FilteredLogs(logs, "all", "all", "", lower) == logs
    ensures sourceFilter != "all" ==>
      forall i :: 0 <= i < |FilteredLogs(logs, levelFilter, sourceFilter, searchText, lower)| ==>
        FilteredLogs(logs, levelFilter, sourceFilter, searchText, lower)[i].source == Some(sourceFilter)
  {
    Lists.FilterKeepsAll(logs, KeepFn("all", "all", "", lower));
  }

  /** `sources`: the distinct non-empty sources, in the order they first
      occur (a `Set` keeps insertion order). */
  function Sources(logs: seq<LogEntry>): (r: seq<string>)
    ensures forall i, j :: 0 <= i < j < |r| ==> r[i] != r[j]
    ensures forall i :: 0 <= i < |r| ==> r[i] != "" && exists k :: 0 <= k < |logs| && logs[k].source == Some(r[i])
    ensures forall k :: 0 <= k < |logs| && Truthy(logs[k].source) ==> logs[k].source.value in r
    decreases |logs|
  {
    if logs == [] then []
    else
      var prefix := logs[..|logs| - 1];
      var last := logs[|logs| - 1];
      var p := Sources(prefix);
      assert forall k :: 0 <= k < |prefix| ==> prefix[k] == logs[k];
      if Truthy(last.source) && last.source.value !in p then p + [last.source.value] else p
  }

  /** One downloaded entry: `[timestamp] [LEVEL] `, then `[source] ` when
      there is a non-empty source, then the message, then the details on
      the following lines when there are any. */
  function Line(log: LogEntry, pretty: string -> string): string {
    "[" + log.timestamp + "] [" + LevelUpper(log.level) + "] "
    + (if Truthy(log.source) then "[" + log.source.value + "] " else "")
    + log.message
    + (if log.details.Some? then "\nDetails: " + pretty(log.details.value) else "")
  }

  function Lines(logs: seq<LogEntry>, pretty: string -> string): (r: seq<string>)
    ensures |r| == |logs|
    ensures forall i :: 0 <= i < |logs| ==> r[i] == Line(logs[i], pretty)
  {
    seq(|logs|, i requires 0 <= i < |logs| => Line(logs[i], pretty))
  }

  /** `downloadLogs`: the shown entries' lines joined by line breaks. */
  function Download(logs: seq<LogEntry>, pretty: string -> string): string {
    Strings.Join(Lines(logs, pretty), "\n")
  }

  /** An entry with no line break in its fields and no details is one line. */
  predicate OneLine(log: LogEntry) {
    '\n' !in log.timestamp && '\n' !in log.message
    && (log.source.Some? ==> '\n' !in log.source.value)
    && log.details.None?
  }

  lemma LineNoBreak(log: LogEntry, pretty: string -> string)
    requires OneLine(log)
    ensures '\n' !in Line(log, pretty)
  {
  }

  /** Every line begins with the bracketed time and upper-case level. */
  lemma LineStart(log: LogEntry, pretty: string -> string)
    ensures Strings.StartsWith(Line(log, pretty), "[" + log.timestamp + "] [" + LevelUpper(log.level) + "] ")
  {
    var head := "[" + log.timestamp + "] [" + LevelUpper(log.level) + "] ";
    var rest := (if Truthy(log.source) then "[" + log.source.value + "] " else "")
      + log.message + (if log.details.Some? then "\nDetails: " + pretty(log.details.value) else "");
    assert Line(log, pretty) == head + rest;
    assert (head + rest)[..|head|] == head;
  }

  /** When every entry fits on one line, the download splits at line breaks
      back into exactly one line per shown entry, in order. */
  lemma DownloadLayout(logs: seq<LogEntry>, pretty: string -> string)
    requires |logs| >= 1
    requires forall i :: 0 <= i < |logs| ==> OneLine(logs[i])
    ensures Strings.Split(Download(logs, pretty), '\n') == Lines(logs, pretty)
  {
    var lines := Lines(logs, pretty);
    forall i | 0 <= i < |lines| ensures '\n' !in lines[i] {
      LineNoBreak(logs[i], pretty);
    }
    Strings.SplitJoin(lines, '\n');
  }
}
