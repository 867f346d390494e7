/** What a receiver can tell from the provider's messages, and which configurations the provider takes, without
    reference to how a message is put together. */
module SyslogMeaning {
  import opened Wrappers
  import opened Text
  import opened Utf8
  import opened WhiteSpace
  import opened SyslogFormat

  // ----- Settings

  /** The names that the provider gives to the facility codes of section 6.2.1 of RFC 5424. */
  predicate IsFacility(name: string, code: nat) {
    match code
    case 0 => name == "kern"
    case 1 => name == "user"
    case 2 => name == "mail"
    case 3 => name == "daemon"
    case 4 => name == "auth"
    case 5 => name == "syslog"
    case 6 => name == "lpr"
    case 7 => name == "news"
    case 8 => name == "uucp"
    case 9 => name == "cron"
    case 10 => name == "authpriv"
    case 11 => name == "ftp"
    case 12 => name == "ntp"
    case 13 => name == "security"
    case 14 => name == "console"
    case 15 => name == "solaris-cron"
    case 16 => name == "local0"
    case 17 => name == "local1"
    case 18 => name == "local2"
    case 19 => name == "local3"
    case 20 => name == "local4"
    case 21 => name == "local5"
    case 22 => name == "local6"
    case 23 => name == "local7"
    case _ => false
  }

  lemma FacilityIs(name: string, code: nat)
    ensures name in FACILITIES && FACILITIES[name] == code <==> IsFacility(name, code)
  {
  }

  predicate IsNetwork(protocol: string, network: string) {
    || (protocol in {"", "UDP"} && network == "udp")
    || (protocol == "TCP" && network == "tcp")
    || (protocol == "TLS" && network == "tls")
  }

  /** The settings that a configuration asks for: the host without white space at its ends, a port from 1 to 65535, and
      a protocol, facility and format by name, with UDP, auth and RFC 5424 when they are left empty. */
  predicate AsksFor(c: Config, s: Settings) {
    && s.host == TrimSpace(c.host) != "" && s.port == c.port && 1 <= c.port <= 65535
    && IsNetwork(c.protocol, s.network)
    && IsFacility(if c.facility == "" then "auth" else c.facility, s.facility)
    && s.format == (if c.format == "" then "RFC 5424" else c.format) && s.format in {"RFC 5424", "RFC 3164"}
  }

  /** A configuration is accepted with some settings exactly when it asks for these. */
  lemma SettingsExactly(c: Config, s: Settings)
    ensures NewSettings(c) == Some(s) <==> AsksFor(c, s)
  {
    hide TrimSpace, FACILITIES, IsFacility;
    FacilityIs(OrDefault(c.facility, "auth"), s.facility);
  }

  // ----- The message text

  /** The text of a message: each CR or LF has become a space, and nothing else has changed. */
  predicate IsOneLineOf(text: string, message: string) {
    && |text| == |message|
    && forall i :: 0 <= i < |text| ==> text[i] == if message[i] in {'\r', '\n'} then ' ' else message[i]
  }

  /** The message id of an action: one character for each of its first 32 runes, the rune itself if it is printable
      ASCII and an underscore otherwise; a dash for an empty action. */
  predicate IsIdOf(id: string, action: string) {
    if action == "" then id == "-"
    else
      var runes := Runes(action);
      && |id| == (if |runes| > 32 then 32 else |runes|)
      && forall i :: 0 <= i < |id| ==>
           if |runes[i]| == 1 && 33 <= runes[i][0] as int <= 126 then id[i] == runes[i][0] else id[i] == '_'
  }

  lemma {:induction false} UnderscoredRunes(s: string)
    ensures |Underscored(s)| == |Runes(s)|
    ensures forall i :: 0 <= i < |Runes(s)| ==>
              && |Runes(s)[i]| > 0
              && Underscored(s)[i] == if |Runes(s)[i]| == 1 && IsPrintable(Runes(s)[i][0]) then Runes(s)[i][0] else '_'
  {
    hide RuneLength;
    if s != "" {
      var n := if RuneLength(s) == 0 then 1 else RuneLength(s);
      UnderscoredRunes(s[n..]);
      assert |s[..n]| == n && s[..n][0] == s[0];
    }
  }

  /** The message id is the one described. */
  lemma MsgIdIsExact(action: string)
    ensures IsIdOf(MsgId(action), action)
  {
    UnderscoredRunes(action);
    hide RuneLength;
  }

  // ----- A message as it is received

  /** What was sent in a message: a stream message without the LF that ends it, a datagram as it is. */
  function Payload(p: Sender, m: string): string {
    if p.settings.network != "udp" && m != "" then m[..|m| - 1] else m
  }

  /** The message says what the event was: facility, severity, time, host, program, process and text. */
  predicate Says(m: Message, p: Sender, e: AuditEvent) {
    && m.facility == p.settings.facility && m.severity == e.severity
    && m.time == e.time && m.host == p.hostname && m.app == "casdoor"
    && ParseNat(m.procId) == Some(p.pid) && IsOneLineOf(m.text, e.message)
  }

  lemma ExpectedSays(p: Sender, e: AuditEvent)
    requires IsSeverity(e.severity)
    ensures Says(Expected(p, e), p, e)
  {
    ParseItoa(p.pid);
  }

  lemma UncutPayload(p: Sender, e: AuditEvent)
    requires p.settings.network != "udp" || |Line(p, e)| <= 60000
    ensures Payload(p, FormatMessage(p, e)) == Line(p, e)
  {
    hide Line, ToValid;
    if p.settings.network != "udp" { assert (Line(p, e) + "\n")[..|Line(p, e)|] == Line(p, e); }
  }

  /** A message in the newer format that is not cut reads back as its event, with the event's message id, exactly when
      the host name has no space. */
  lemma MessageReadsExactly(p: Sender, e: AuditEvent)
    requires IsAccepted(p.settings) && p.settings.format == "RFC 5424" && IsSeverity(e.severity) && ' ' !in e.time
    requires p.settings.network != "udp" || |Line(p, e)| <= 60000
    ensures var read := Parse5424(Payload(p, FormatMessage(p, e)));
            (read.Some? && Says(read.value.0, p, e) && IsIdOf(read.value.1, e.action)) <==> ' ' !in p.hostname
  {
    hide Says, IsAccepted, Parse5424, MsgId, FormatMessage, Payload;
    UncutPayload(p, e);
    Line5424IsReadExactly(p, e);
    ExpectedSays(p, e);
    MsgIdIsExact(e.action);
    var read := Parse5424(Line5424(p, e));
    if ' ' in p.hostname && read.Some? { HostIsCut(p, e); }
  }

  /** A host that is read from a header field has no space. */
  lemma HostIsCut(p: Sender, e: AuditEvent)
    ensures var read := Parse5424(Line5424(p, e)); read.Some? ==> ' ' !in read.value.0.host
    ensures var read := Parse5424(Line5424(p, e)); ' ' in p.hostname && read.Some? ==> !Says(read.value.0, p, e)
  {
    hide Cut, ParsePriority, Line5424, Flatten;
  }

  /** The same in the older format, whose time has fifteen characters and which has no message id. */
  lemma OldMessageReadsExactly(p: Sender, e: AuditEvent)
    requires IsAccepted(p.settings) && p.settings.format == "RFC 3164" && IsSeverity(e.severity) && |e.time| == 15
    requires p.settings.network != "udp" || |Line(p, e)| <= 60000
    ensures var read := Parse3164(Payload(p, FormatMessage(p, e)));
            (read.Some? && Says(read.value, p, e)) <==> ' ' !in p.hostname
  {
    hide Says, IsAccepted, Parse3164, FormatMessage, Payload;
    UncutPayload(p, e);
    Line3164IsReadExactly(p, e);
    ExpectedSays(p, e);
    if ' ' in p.hostname { OldHostIsCut(p, e); }
  }

  lemma OldHostIsCut(p: Sender, e: AuditEvent)
    ensures var read := Parse3164(Line3164(p, e)); ' ' in p.hostname && read.Some? ==> !Says(read.value, p, e)
  {
    hide Cut, ParsePriority, Line3164, Flatten;
  }
}
