/** Syslog messages as the audit provider formats them: audit/syslog.go (`newSyslogSettings`,
    `formatMessage`, `getSyslogMsgId`). */
module SyslogFormat {
  import opened Wrappers
  import opened Text
  import opened Utf8
  import opened WhiteSpace

  // ----- Settings

  datatype Config = Config(host: string, port: int, protocol: string, facility: string, format: string)
  datatype Settings = Settings(network: string, host: string, port: int, facility: nat, format: string)

  const NETWORKS := map["UDP" := "udp", "TCP" := "tcp", "TLS" := "tls"]

  const FACILITIES: map<string, nat> := map[
    "kern" := 0, "user" := 1, "mail" := 2, "daemon" := 3, "auth" := 4, "syslog" := 5, "lpr" := 6, "news" := 7,
    "uucp" := 8, "cron" := 9, "authpriv" := 10, "ftp" := 11, "ntp" := 12, "security" := 13, "console" := 14,
    "solaris-cron" := 15, "local0" := 16, "local1" := 17, "local2" := 18, "local3" := 19, "local4" := 20,
    "local5" := 21, "local6" := 22, "local7" := 23]

  const FORMATS := {"RFC 5424", "RFC 3164"}

  function OrDefault(s: string, default: string): string {
    if s == "" then default else s
  }

  /** `newSyslogSettings`; `None` is a rejected configuration. */
  function NewSettings(c: Config): Option<Settings> {
    var host := TrimSpace(c.host);
    var protocol := OrDefault(c.protocol, "UDP");
    var facility := OrDefault(c.facility, "auth");
    var format := OrDefault(c.format, "RFC 5424");
    if host == "" || c.port <= 0 || c.port > 65535 then None
    else if protocol !in NETWORKS || facility !in FACILITIES || format !in FORMATS then None
    else Some(Settings(NETWORKS[protocol], host, c.port, FACILITIES[facility], format))
  }

  /** Settings that a configuration can produce. */
  predicate IsAccepted(s: Settings) {
    && s.host != "" && 0 < s.port <= 65535
    && s.network in {"udp", "tcp", "tls"}
    && s.facility <= 23
    && s.format in FORMATS
  }

  lemma FacilityRange(name: string)
    requires name in FACILITIES
    ensures FACILITIES[name] <= 23
  {
  }

  /** Every accepted configuration has a facility code of section 6.2.1 of RFC 5424. */
  lemma AcceptedSettings(c: Config)
    ensures NewSettings(c).Some? ==> IsAccepted(NewSettings(c).value)
  {
    var facility := OrDefault(c.facility, "auth");
    if facility in FACILITIES { FacilityRange(facility); }
  }

  // ----- Messages

  /** An audit event; its time is the text that the format's layout gives. */
  datatype AuditEvent = AuditEvent(severity: int, time: string, action: string, message: string)

  datatype Sender = Sender(settings: Settings, hostname: string, pid: nat)

  const UDP_MAX := 60000
  const MSG_ID_MAX := 32

  /** `strings.NewReplacer("\r", " ", "\n", " ").Replace` */
  function Flatten(s: string): string {
    seq(|s|, i requires 0 <= i < |s| => if s[i] in {'\r', '\n'} then ' ' else s[i])
  }

  predicate IsPrintable(c: char) {
    33 <= c as int <= 126
  }

  /** `strings.Map` over runes: a rune, or a byte that belongs to none, outside printable ASCII becomes one
      underscore. */
  function Underscored(s: string): string {
    if s == "" then ""
    else
      var n := RuneLength(s);
      if n <= 1 then [if IsPrintable(s[0]) then s[0] else '_'] + Underscored(s[1..]) else ['_'] + Underscored(s[n..])
  }

  /** `getSyslogMsgId` */
  function MsgId(action: string): string {
    var id := Underscored(action);
    var short := if |id| > MSG_ID_MAX then id[..MSG_ID_MAX] else id;
    if short == "" then "-" else short
  }

  function Priority(p: Sender, e: AuditEvent): int {
    p.settings.facility * 8 + e.severity
  }

  function Line5424(p: Sender, e: AuditEvent): string {
    "<" + Decimal(Priority(p, e)) + ">1 " + e.time + " " + p.hostname + " casdoor " + Itoa(p.pid) + " "
    + MsgId(e.action) + " - " + Flatten(e.message)
  }

  function Line3164(p: Sender, e: AuditEvent): string {
    "<" + Decimal(Priority(p, e)) + ">" + e.time + " " + p.hostname + " casdoor[" + Itoa(p.pid) + "]: "
    + Flatten(e.message)
  }

  function Line(p: Sender, e: AuditEvent): string {
    if p.settings.format == "RFC 3164" then Line3164(p, e) else Line5424(p, e)
  }

  /** `formatMessage` */
  function FormatMessage(p: Sender, e: AuditEvent): string {
    var line := Line(p, e);
    if p.settings.network == "udp" then
      if |line| > UDP_MAX then ToValid(line[..UDP_MAX]) else line
    else
      line + "\n"
  }

  // ----- The message id

  lemma {:induction false} UnderscoredIsPrintable(s: string)
    ensures forall i :: 0 <= i < |Underscored(s)| ==> IsPrintable(Underscored(s)[i])
    decreases |s|
  {
    hide RuneLength;
    if s != "" {
      var n := RuneLength(s);
      UnderscoredIsPrintable(if n <= 1 then s[1..] else s[n..]);
    }
  }

  lemma {:induction false} PrintableIsKept(s: string)
    requires forall i :: 0 <= i < |s| ==> IsPrintable(s[i])
    ensures Underscored(s) == s
  {
    if s != "" {
      assert RuneLength(s) == 1;
      PrintableIsKept(s[1..]);
    }
  }

  /** A MSGID is 1 to 32 printable ASCII characters (section 6.2.7 of RFC 5424), and an action that is one
      already stands unchanged. */
  lemma MsgIdIsWellFormed(action: string)
    ensures 1 <= |MsgId(action)| <= MSG_ID_MAX
    ensures forall i :: 0 <= i < |MsgId(action)| ==> IsPrintable(MsgId(action)[i])
    ensures MsgId(action) == action <==>
            1 <= |action| <= MSG_ID_MAX && forall i :: 0 <= i < |action| ==> IsPrintable(action[i])
  {
    UnderscoredIsPrintable(action);
    if forall i :: 0 <= i < |action| ==> IsPrintable(action[i]) { PrintableIsKept(action); }
  }

  // ----- Reading a line back

  /** A message read by a receiver. */
  datatype Message = Message(facility: nat, severity: nat, time: string, host: string, app: string, procId: string,
                             text: string)

  /** The priority between angle brackets, and what follows it. */
  function ParsePriority(line: string): Option<(nat, string)> {
    if line == "" || line[0] != '<' then None
    else
      var p := Cut(line[1..], '>');
      var n := ParseNat(p.before);
      if !p.found || n.None? || n.value > 191 then None else Some((n.value, p.after))
  }

  /** The grammar of section 6 of RFC 5424 for messages without structured data: space-separated header
      fields, then the rest.  The MSGID comes beside the message. */
  function Parse5424(line: string): Option<(Message, string)> {
    var pri := ParsePriority(line);
    if pri.None? then None
    else
      var version := Cut(pri.value.1, ' ');
      var time := Cut(version.after, ' ');
      var host := Cut(time.after, ' ');
      var app := Cut(host.after, ' ');
      var procId := Cut(app.after, ' ');
      var msgId := Cut(procId.after, ' ');
      var data := Cut(msgId.after, ' ');
      if version.before != "1" || !data.found || data.before != "-" then None
      else
        var n := pri.value.0;
        Some((Message(n / 8, n % 8, time.before, host.before, app.before, procId.before, data.after), msgId.before))
  }

  /** Section 4.1 of RFC 3164: a time of fifteen characters, a host, and a tag with a process id. */
  function Parse3164(line: string): Option<Message> {
    var pri := ParsePriority(line);
    if pri.None? || |pri.value.1| < 16 || pri.value.1[15] != ' ' then None
    else
      var host := Cut(pri.value.1[16..], ' ');
      var app := Cut(host.after, '[');
      var procId := Cut(app.after, ']');
      if |procId.after| < 2 || procId.after[..2] != ": " then None
      else
        Some(Message(pri.value.0 / 8, pri.value.0 % 8, pri.value.1[..15], host.before, app.before, procId.before,
                     procId.after[2..]))
  }

  /** What an event should read as. */
  function Expected(p: Sender, e: AuditEvent): Message
    requires e.severity >= 0
  {
    Message(p.settings.facility, e.severity, e.time, p.hostname, "casdoor", Itoa(p.pid), Flatten(e.message))
  }

  predicate IsSeverity(n: int) {
    0 <= n <= 7
  }

  lemma ItoaLacks(n: nat, c: char)
    requires !IsDigit(c)
    ensures c !in Itoa(n)
  {
  }

  /** The priority is a number of section 6.2.1 of RFC 5424 and is read back. */
  lemma PriorityIsRead(p: Sender, e: AuditEvent, rest: string)
    requires IsAccepted(p.settings) && IsSeverity(e.severity)
    ensures 0 <= Priority(p, e) <= 191
    ensures Priority(p, e) / 8 == p.settings.facility && Priority(p, e) % 8 == e.severity
    ensures ParsePriority("<" + Decimal(Priority(p, e)) + ">" + rest) == Some((Priority(p, e), rest))
  {
    var n := Priority(p, e);
    var line := "<" + Decimal(n) + ">" + rest;
    assert line[1..] == Itoa(n) + ">" + rest;
    ItoaLacks(n, '>');
    CutAt(Itoa(n), '>', rest);
    ParseItoa(n);
  }

  lemma FirstFields(time: string, tail: string)
    requires ' ' !in time
    ensures Cut("1 " + time + " " + tail, ' ') == Parts("1", time + " " + tail, true)
    ensures Cut(time + " " + tail, ' ') == Parts(time, tail, true)
  {
    hide Cut;
    assert "1 " + time + " " + tail == "1" + " " + (time + " " + tail);
    CutAt("1", ' ', time + " " + tail);
    CutAt(time, ' ', tail);
  }

  lemma MiddleFields(procId: string, last: string)
    requires ' ' !in procId
    ensures Cut("casdoor " + procId + " " + last, ' ') == Parts("casdoor", procId + " " + last, true)
    ensures Cut(procId + " " + last, ' ') == Parts(procId, last, true)
  {
    hide Cut;
    assert "casdoor " + procId + " " + last == "casdoor" + " " + (procId + " " + last);
    CutAt("casdoor", ' ', procId + " " + last);
    CutAt(procId, ' ', last);
  }

  lemma LastFields(msgId: string, text: string)
    requires ' ' !in msgId
    ensures Cut(msgId + " - " + text, ' ') == Parts(msgId, "- " + text, true)
    ensures Cut("- " + text, ' ') == Parts("-", text, true)
  {
    hide Cut;
    assert msgId + " - " + text == msgId + " " + ("- " + text);
    CutAt(msgId, ' ', "- " + text);
    assert "- " + text == "-" + " " + text;
    CutAt("-", ' ', text);
  }

  lemma Line5424Shape(p: Sender, e: AuditEvent)
    ensures Line5424(p, e) ==
            "<" + Decimal(Priority(p, e)) + ">"
            + ("1 " + e.time + " " + (p.hostname + " " + ("casdoor " + Itoa(p.pid) + " "
                                                          + (MsgId(e.action) + " - " + Flatten(e.message)))))
  {
    hide MsgId, Flatten, Decimal, Itoa;
  }

  /** A line read back gives every part of the event exactly when the host name has no space in it. */
  lemma Line5424IsReadExactly(p: Sender, e: AuditEvent)
    requires IsAccepted(p.settings) && IsSeverity(e.severity) && ' ' !in e.time
    ensures Parse5424(Line5424(p, e)) == Some((Expected(p, e), MsgId(e.action))) <==> ' ' !in p.hostname
  {
    hide Cut, ParsePriority, MsgId, Flatten, Decimal, IsAccepted, Line5424, Itoa;
    var procId, msgId, text := Itoa(p.pid), MsgId(e.action), Flatten(e.message);
    var last := msgId + " - " + text;
    var middle := "casdoor " + procId + " " + last;
    var rest := "1 " + e.time + " " + (p.hostname + " " + middle);
    Line5424Shape(p, e);
    PriorityIsRead(p, e, rest);
    ItoaLacks(p.pid, ' ');
    MsgIdIsWellFormed(e.action);
    FirstFields(e.time, p.hostname + " " + middle);
    MiddleFields(procId, last);
    LastFields(msgId, text);
    if ' ' !in p.hostname { CutAt(p.hostname, ' ', middle); }
  }

  lemma Fields3164(host: string, procId: string, text: string)
    requires ' ' !in host && ']' !in procId
    ensures var h := Cut(host + " casdoor[" + procId + "]: " + text, ' ');
            && h.before == host
            && Cut(h.after, '[') == Parts("casdoor", procId + "]: " + text, true)
            && Cut(procId + "]: " + text, ']') == Parts(procId, ": " + text, true)
  {
    hide Cut;
    var last := procId + "]: " + text;
    assert host + " casdoor[" + procId + "]: " + text == host + " " + ("casdoor" + "[" + last);
    CutAt(host, ' ', "casdoor" + "[" + last);
    CutAt("casdoor", '[', last);
    assert last == procId + "]" + (": " + text);
    CutAt(procId, ']', ": " + text);
  }

  /** The older format, whose time has fifteen characters, is read back under the same condition. */
  lemma Line3164IsReadExactly(p: Sender, e: AuditEvent)
    requires IsAccepted(p.settings) && IsSeverity(e.severity) && |e.time| == 15
    ensures Parse3164(Line3164(p, e)) == Some(Expected(p, e)) <==> ' ' !in p.hostname
  {
    hide Cut, ParsePriority, Flatten, Decimal, IsAccepted;
    var procId, text := Itoa(p.pid), Flatten(e.message);
    var tail := p.hostname + " casdoor[" + procId + "]: " + text;
    var rest := e.time + " " + tail;
    assert Line3164(p, e) == "<" + Decimal(Priority(p, e)) + ">" + rest;
    PriorityIsRead(p, e, rest);
    assert rest[..15] == e.time && rest[15] == ' ' && rest[16..] == tail;
    ItoaLacks(p.pid, ']');
    if ' ' !in p.hostname {
      Fields3164(p.hostname, procId, text);
      assert (": " + text)[..2] == ": " && (": " + text)[2..] == text;
    }
  }

  // ----- Framing

  predicate IsSingleLine(s: string) {
    '\n' !in s
  }

  /** One LF, at the end. */
  predicate IsFramed(m: string) {
    |m| > 0 && m[|m| - 1] == '\n' && IsSingleLine(m[..|m| - 1])
  }

  lemma SingleConcat(a: string, b: string)
    ensures IsSingleLine(a + b) <==> IsSingleLine(a) && IsSingleLine(b)
  {
  }

  /** The parts of a line whose text the provider makes. */
  lemma OwnPartsAreSingleLines(p: Sender, e: AuditEvent)
    ensures IsSingleLine("<" + Decimal(Priority(p, e)) + ">") && IsSingleLine(Itoa(p.pid))
    ensures IsSingleLine(MsgId(e.action)) && IsSingleLine(Flatten(e.message))
  {
    hide MsgId, Itoa;
    MsgIdIsWellFormed(e.action);
    ItoaLacks(p.pid, '\n');
    var n := Priority(p, e);
    ItoaLacks(if n < 0 then -n else n, '\n');
  }

  lemma LiteralsAreSingleLines()
    ensures forall s :: s in {"1 ", " ", " casdoor ", " casdoor[", "]: ", " - "} ==> IsSingleLine(s)
  {
  }

  lemma Line5424IsSingleExactly(p: Sender, e: AuditEvent)
    ensures IsSingleLine(Line5424(p, e)) <==> IsSingleLine(e.time) && IsSingleLine(p.hostname)
  {
    OwnPartsAreSingleLines(p, e);
    LiteralsAreSingleLines();
    hide IsSingleLine, MsgId, Flatten, Decimal, Itoa;
    var head, rest := "<" + Decimal(Priority(p, e)) + ">", " - " + Flatten(e.message);
    var ids := Itoa(p.pid) + " " + MsgId(e.action);
    assert Line5424(p, e) == head + "1 " + e.time + " " + p.hostname + " casdoor " + ids + rest;
    SingleConcat(Itoa(p.pid) + " ", MsgId(e.action));
    SingleConcat(Itoa(p.pid), " ");
    SingleConcat(" - ", Flatten(e.message));
    SingleConcat(head + "1 " + e.time + " " + p.hostname + " casdoor " + ids, rest);
    SingleConcat(head + "1 " + e.time + " " + p.hostname + " casdoor ", ids);
    SingleConcat(head + "1 " + e.time + " " + p.hostname, " casdoor ");
    SingleConcat(head + "1 " + e.time + " ", p.hostname);
    SingleConcat(head + "1 " + e.time, " ");
    SingleConcat(head + "1 ", e.time);
    SingleConcat(head, "1 ");
  }

  lemma Line3164IsSingleExactly(p: Sender, e: AuditEvent)
    ensures IsSingleLine(Line3164(p, e)) <==> IsSingleLine(e.time) && IsSingleLine(p.hostname)
  {
    OwnPartsAreSingleLines(p, e);
    LiteralsAreSingleLines();
    hide IsSingleLine, MsgId, Flatten, Decimal, Itoa;
    var head := "<" + Decimal(Priority(p, e)) + ">";
    SingleConcat(head + e.time + " " + p.hostname + " casdoor[" + Itoa(p.pid) + "]: ", Flatten(e.message));
    SingleConcat(head + e.time + " " + p.hostname + " casdoor[" + Itoa(p.pid), "]: ");
    SingleConcat(head + e.time + " " + p.hostname + " casdoor[", Itoa(p.pid));
    SingleConcat(head + e.time + " " + p.hostname, " casdoor[");
    SingleConcat(head + e.time + " ", p.hostname);
    SingleConcat(head + e.time, " ");
    SingleConcat(head, e.time);
  }

  /** On TCP and TLS a message is one LF-terminated line exactly when neither the time nor the host name has
      an LF in it. */
  lemma StreamMessageIsFramedExactly(p: Sender, e: AuditEvent)
    requires IsAccepted(p.settings) && p.settings.network != "udp"
    ensures IsFramed(FormatMessage(p, e)) <==> IsSingleLine(e.time) && IsSingleLine(p.hostname)
  {
    hide IsSingleLine, Line5424, Line3164, IsAccepted;
    var m := FormatMessage(p, e);
    assert m[..|m| - 1] == Line(p, e);
    Line5424IsSingleExactly(p, e);
    Line3164IsSingleExactly(p, e);
  }

  /** A datagram has at most 60000 bytes and is valid if the line is; a valid line that is too long loses at
      most three more bytes, off its end. */
  lemma DatagramIsBounded(p: Sender, e: AuditEvent)
    requires p.settings.network == "udp"
    ensures |FormatMessage(p, e)| <= 60000
    ensures |Line(p, e)| <= 60000 ==> FormatMessage(p, e) == Line(p, e)
    ensures |Line(p, e)| > 60000 ==> IsValid(FormatMessage(p, e))
    ensures |Line(p, e)| > 60000 && IsValid(Line(p, e)) ==>
            60000 - 3 <= |FormatMessage(p, e)| && FormatMessage(p, e) <= Line(p, e)
  {
    hide Line, IsValid;
    var line := Line(p, e);
    if |line| > UDP_MAX {
      ToValidIsValid(line[..UDP_MAX]);
      if IsValid(line) { var m := CutThenValid(line, UDP_MAX); }
    }
  }
}
