/** The message log (log.ts): one line per message,
    `[<timestamp>] <client> - <message>` followed by a newline. The
    timestamp, `new Date().toISOString()` at the time of the call, is a
    parameter; the file append that writes the line is not modelled. */
module Log {
  import opened JsValues

  /** The `client` argument of `log`: a plain label, or an initial client
      record (`InitialClient` of repository.ts) whose host name is used. */
  datatype ClientRef = Label(name: string) | Initial(hostname: string)

  /** `typeof client === 'string' ? client : client.hostname`. */
  function ClientLabel(client: ClientRef): (name: string)
    ensures name == if client.Label? then client.name else client.hostname
  {
    match client
    case Label(name) => name
    case Initial(hostname) => hostname
  }

  /** `formatLogMessaage(client, message)` with the clock reading given. The
      line is the bracketed timestamp, a space, the client verbatim, " - "
      and the message verbatim: six characters of framing in all. */
  function FormatLogMessage(timestamp: string, client: string, message: string): (line: string)
    ensures |line| == |timestamp| + |client| + |message| + 6
    ensures line[0] == '[' && line[1..|timestamp| + 1] == timestamp
    ensures line[|timestamp| + 1..|timestamp| + 3] == "] "
    ensures line[|timestamp| + 3..|timestamp| + 3 + |client|] == client
    ensures line[|timestamp| + 3 + |client|..|line| - |message|] == " - "
    ensures line[|line| - |message|..] == message
  {
    "[" + timestamp + "] " + client + " - " + message
  }

  /** The line `log(client, message)` appends to the log file. */
  function LogLine(timestamp: string, client: ClientRef, message: string): (line: string)
    ensures |line| >= 1 && line[|line| - 1] == '\n'
    ensures line[..|line| - 1] == FormatLogMessage(timestamp, ClientLabel(client), message)
  {
    FormatLogMessage(timestamp, ClientLabel(client), message) + "\n"
  }

  /** The position of the first `c` in `s`, if any. */
  function IndexOf(s: string, c: char): (r: Option<nat>)
    ensures r.None? <==> c !in s
    ensures r.Some? ==> r.value < |s| && s[r.value] == c && c !in s[..r.value]
  {
    if s == [] then None
    else if s[0] == c then Some(0)
    else match IndexOf(s[1..], c)
      case None => None
      case Some(i) => Some(i + 1)
  }

  /** Reads a log line back into its timestamp and the rest after "] ": the
      read-back definition that FormatLogMessage is proved against. A split, when there
      is one, puts the line back together exactly. */
  function SplitLogLine(line: string): (r: Option<(string, string)>)
    ensures r.Some? ==> "[" + r.value.0 + "] " + r.value.1 == line && ']' !in r.value.0
  {
    if |line| < 1 || line[0] != '[' then None
    else match IndexOf(line[1..], ']')
      case None => None
      case Some(i) =>
        if i + 3 <= |line| && line[i + 2] == ' ' then Some((line[1..i + 1], line[i + 3..])) else None
  }

  /** A timestamp without ']' (as every ISO 8601 one is) is recovered from
      the line, and what follows "] " is the client, " - " and the message. */
  lemma SplitFormatted(timestamp: string, client: string, message: string)
    requires ']' !in timestamp
    ensures SplitLogLine(FormatLogMessage(timestamp, client, message)) == Some((timestamp, client + " - " + message))
  {
    var line := FormatLogMessage(timestamp, client, message);
    var body := line[1..];
    assert body == timestamp + "] " + client + " - " + message;
    assert body[..|timestamp|] == timestamp;
    assert body[|timestamp|] == ']';
    assert IndexOf(body, ']') == Some(|timestamp|);
    assert line[|timestamp| + 3..] == client + " - " + message;
  }

  /** A string label and an initial client record with that host name
      produce the same line. */
  lemma LabelOrHostname(timestamp: string, name: string, message: string)
    ensures LogLine(timestamp, Label(name), message) == LogLine(timestamp, Initial(name), message)
    ensures LogLine(timestamp, Initial(name), message)[|timestamp| + 3..|timestamp| + 3 + |name|] == name
  {
  }

  /** For a fixed timestamp, equal lines from clients of equal length have
      the same client and the same message. */
  lemma FormatInjective(timestamp: string, c1: string, c2: string, m1: string, m2: string)
    requires |c1| == |c2|
    requires FormatLogMessage(timestamp, c1, m1) == FormatLogMessage(timestamp, c2, m2)
    ensures c1 == c2 && m1 == m2
  {
  }

  /** When no part contains a newline, the written line holds exactly one,
      at its end: each call adds one record to the file. */
  lemma OneRecordPerLine(timestamp: string, client: ClientRef, message: string)
    requires '\n' !in timestamp && '\n' !in ClientLabel(client) && '\n' !in message
    ensures var line := LogLine(timestamp, client, message);
      '\n' !in line[..|line| - 1] && line[|line| - 1] == '\n'
  {
  }
}
