# Casdoor: a verified model of its protocol code

This project models the parts of Casdoor that keep protocol state, loop over it, or speak a text format, and proves
what those parts guarantee on every input and in every run.

| files | what they model |
|---|---|
| `DeviceAuthStore`, `DeviceAuthMachine`, `DeviceAuthInvariant`, `DeviceAuthHistory`, `DeviceAuthTheorems`, `DeviceAuthEnd`, `DeviceAuthCodes`, `DeviceAuthRace` | the device authorization grant (RFC 8628): five handlers racing on one shared map, one machine step per map operation, with a log of what happened; the map itself is a class with the four atomic operations of object/device_auth_store.go |
| `DeviceAuthSerial`, `DeviceAuthHandlers` | the same flow with one request at a time, and the handlers as methods on the map, each of which makes steps of the machine |
| `SigninSession`, `SigninRequests` | sign-in, pending second factor and quick sign-in in one browser session, and what each request must be like for what it causes |
| `SyslogFormat`, `SyslogMeaning`, `SyslogSender`, `SyslogProvider`, `SyslogProgress`, `Utf8` | the audit provider: settings, RFC 5424 and RFC 3164 lines, UDP truncation, the bounded queue, and the worker that retries and reconnects |
| `FormEncoding`, `UrlTemplate`, `BasicAuth` | form encoding, filled token URLs, client Basic credentials |
| `AlipaySign`, `AlipayContent`, `DjangoHash`, `McpKeys` | the Alipay signing string, Django password records, the key check of the MCP proxy |
| `RateLimit` | the per-IP e-mail limit with eviction |
| `UploadName`, `SqlLike` | the rename loop of uploads, and the database lookup it relies on |
| `Text`, `WhiteSpace`, `Wrappers` | the text functions of Go's standard library that these files use, and optional values |

Everything a handler asks of the outside (the clock, user and application lookups, credential and passcode
verification, token minting, dialing and writing, key derivation, signing) is an unrestricted input, so a statement
about all runs covers every way those calls can turn out.

Where a promise does not hold of the code, the model follows the code:

- The comment at controllers/token.go:415-417 promises that claiming a device code makes it single-use. The claim does
  not look at the status again, so an exchange that is overtaken between its first load and its claim yields a second
  token. `DeviceAuthRace.OvertakenClaimIssuesTwice` gives such a run for every flow,
  `DeviceAuthTheorems.OneTokenUnlessOvertaken` says exactly when there is at most one token, and
  `DeviceAuthSerial.OneTokenPerDeviceCode` proves it when requests do not overlap.
- When requests overlap, a cancelled flow can be approved (`DeviceAuthRace.CancelledFlowGoesOn`) and a device code can
  be completed twice (`DeviceAuthRace.TwoCompletions`). `DeviceAuthEnd.CancellationStopsExactly` and
  `DeviceAuthEnd.CompletionIsLastExactly` say exactly when neither can happen: when, at the moment the device code is
  deleted, no other request is past its last look at the entry.
- A start reports an error unless it finds a user code that is free, yet it stores the code only later. When requests
  overlap, two starts can be given the same code, and the second overwrites the link to the first
  (`DeviceAuthRace.TwoStartsShareACode`). `DeviceAuthCodes.StartOverwritesExactly` says exactly when a start overwrites
  an entry; when requests do not overlap none does (`DeviceAuthSerial.StartOverwritesNothing`).
- The upload lookup puts the key into a `LIKE` pattern as it is. It counts exactly the names that contain the key if
  and only if the key has no wildcard, no backslash where the backslash escapes (MySQL and PostgreSQL), and no character
  for which the database takes another one (`SqlLike.LookupMeansContainsExactly`). MySQL with the collation that
  object/ormer.go:251 gives it, and SQLite, ignore the case of letters, so there every key with a letter finds other
  names too (`SqlLike.CaseFolding`).
- Where the backslash escapes, a key with one can be in use and still be found free, so that the stored object is
  overwritten: `UploadName.StoredKeyIsFoundFree` is one such upload and `SqlLike.BackslashIsMissed` the family, on every
  database that takes a backslash for nothing else, whatever it does with case. `SqlLike.StoredKeyIsCountedExactly` says
  for every key exactly when a stored key is found, and `SqlLike.LiteralKeyIsCountedExactly` says it for keys without
  free wildcards in terms of the text they stand for. A free key without an escape character is a new one
  (`UploadName.FreePathIsFresh`).
- The lookup matches substrings, so the attempts of the rename loop are not bounded by the number of stored names
  (`UploadName.OneNameTakesTwo`). They are if no stored name takes two of the candidates in question
  (`UploadName.AttemptsWithinStoredNames`), and for one stored name only then (`UploadName.OneStoredNameExactly`).
- The rename loop takes the length of the extension off the whole path. If the path has an extension and ends in a
  slash, that cuts into the stem (`UploadName.NumberIsInsertedExactly`).
- An Alipay string can be read back into its fields only if no signed key holds a delimiter and no signed value an
  ampersand (`AlipayContent.StringToSignReadsExactly`).
- A Django record does not verify if its salt contains a dollar sign, and Basic credentials sent as they are do not
  resolve if the id contains a colon: both are proved as exact conditions.

## Model

| member | source | states |
|---|---|---|
| `DeviceAuthInvariant.NextKeepsInv` | controllers/token.go:336-457 | every step of every handler, and every eviction, keeps the invariant that ties entries, requests in progress and flows together |
| `DeviceAuthInvariant.LinkedOnce` | controllers/auth.go:1920-1932 | an entry linked to a flow is the flow's only user entry, stands under the user code the flow was offered with, and the flow is not approved yet |
| `DeviceAuthHistory.NextKeepsHistory` | controllers/token.go:336-457 | every step logs only events that the log before it justifies |
| `DeviceAuthHistory.RunIsSafe` | controllers/token.go:336-457 | both hold in every state of every interleaving |
| `DeviceAuthTheorems.ClaimIsExclusive` | controllers/token.go:415-457 | at most one exchange at a time holds the claim on a device code, and meanwhile the code is not in the map |
| `DeviceAuthTheorems.ClaimHasAnOrigin` | controllers/token.go:418-429 | a claim in progress goes back to one step that took the entry, and has been held ever since |
| `DeviceAuthTheorems.FailedClaimRestoresTheEntry` | controllers/token.go:441-453 | a claim whose exchange fails puts back exactly the entry it took, which was out of the map all the time in between |
| `DeviceAuthTheorems.StoredStatusOnlyMovesForward` | controllers/token.go:449-457 | between any two states of a run the stored status of a device code only moves pending, approved, token issued, and is never denied |
| `DeviceAuthTheorems.RefusedOnceMarked` | controllers/token.go:370-378 | no exchange whose first load follows the token-issued store of a device code is admitted |
| `DeviceAuthTheorems.ClaimIsOvertakenExactly` | controllers/token.go:415-429 | a claim finds the code already used if and only if another exchange marked it after this one's first load |
| `DeviceAuthTheorems.TokenComesFromItsFlow` | controllers/token.go:390-413 | a token carries the user of the one approval and the scope and resource of the one start of its device code, in that order, and goes to the client of that start |
| `DeviceAuthTheorems.DeviceEntryKeepsItsStart` | controllers/auth.go:1903-1918 | an entry under a device code expires exactly when its start's lifetime, or 120 seconds, has passed since, and keeps its start's application, client, scope and resource, whatever happened to it |
| `DeviceAuthTheorems.UserEntryKeepsItsStart` | controllers/auth.go:1920-1929 | an entry under a user code leads to the flow offered with it, expires as its start asked, and carries that start's cancel token |
| `DeviceAuthTheorems.CodesNeverMix` | controllers/auth.go:291-329 | approvals and cancellations only ever come from user codes, everything that leads to a token or a session only from device codes |
| `DeviceAuthTheorems.LaterTokensWereOvertaken` | controllers/token.go:415-457 | in an ordered log the first token of a device code was minted on an approved entry and every later one on an entry already marked |
| `DeviceAuthTheorems.AtMostOneTokenExactly` | controllers/token.go:415-457 | a device code yields at most one token if and only if none was minted on a claimed entry already marked as used |
| `DeviceAuthTheorems.TokenHasAClaim` | controllers/token.go:418-447 | every token was minted on a claim of its own request, the latest of the device code, with the status the token was minted on |
| `DeviceAuthTheorems.MintedOnMarkedExactly` | controllers/token.go:336-457 | a token was minted on an entry already used if and only if another exchange marked it between its request's first load and claim |
| `DeviceAuthTheorems.OneTokenUnlessOvertaken` | controllers/token.go:336-457 | a device code yields at most one token if and only if no exchange that minted one was overtaken by such a mark |
| `DeviceAuthEnd.EndedForGood` | controllers/token.go:336-429 | once a device code is out of the map and no request has its flow in hand, no later state of the run has another approval, token or completion of it |
| `DeviceAuthEnd.HolderGoesOn` | controllers/token.go:440-457 | a request that has the flow in hand can take it to one more stage in some continuation |
| `DeviceAuthEnd.FlowHasEndedExactly` | controllers/token.go:336-457 | a flow whose device code is out of the map reaches no further stage in any continuation if and only if no request has it in hand |
| `DeviceAuthEnd.CancellationStopsExactly` | controllers/auth.go:1974-1978 | under interleaving a cancelled flow stops if and only if no request has it in hand when the device code is deleted |
| `DeviceAuthEnd.CompletionIsLastExactly` | controllers/auth.go:1996-2062 | under interleaving a completion is the last one of its device code if and only if no request has the flow in hand when the code is deleted |
| `DeviceAuthCodes.StartHasProbed` | controllers/auth.go:1888-1895 | a start about to store goes back to its own probe, which found the user code free |
| `DeviceAuthCodes.StartOverwritesExactly` | controllers/auth.go:1888-1932 | under interleaving a start overwrites an entry under its user code if and only if another start stored under the same code since its probe and that entry is still there |
| `DeviceAuthRace.TwoStartsShareACode` | controllers/auth.go:1888-1932 | two starts that try the same user code first have an interleaving in which both are given it and nothing leads to the first device code any more |
| `DeviceAuthRace.CancelledFlowGoesOn` | controllers/auth.go:315-329 | every flow has an interleaving in which it is approved after it was cancelled |
| `DeviceAuthRace.TwoCompletions` | controllers/auth.go:1996-2062 | every approved flow has an interleaving in which its device code is completed twice |
| `DeviceAuthRace.OvertakenClaimIssuesTwice` | controllers/token.go:415-457 | every started and approved flow, and every exchange within its lifetime, has an interleaving in which its device code yields two tokens |
| `DeviceAuthRace.TwoTokensForOneDeviceCode` | controllers/token.go:415-457 | one such run with all its inputs written out |
| `DeviceAuthSerial.SerialRunIsSafe` | controllers/auth.go:1958-2067 | when requests do not overlap, the stronger invariant about cancelled, completed and exchanged flows holds in every state |
| `DeviceAuthSerial.StartOverwritesNothing` | controllers/auth.go:1888-1932 | when requests do not overlap, the user code a start found free is still free when it stores, and no entry is overwritten |
| `DeviceAuthSerial.OneTokenPerDeviceCode` | controllers/token.go:336-457 | when requests do not overlap, each device code yields at most one token |
| `DeviceAuthSerial.CompletionComesLast` | controllers/auth.go:1990-2067 | a browser completion is the only one of its device code, follows its token, the approval by the same user and the start, and outside login asks for no scope beyond a non-empty original one |
| `DeviceAuthSerial.CompletedOnce` | controllers/auth.go:1996-2062 | a device code is completed at most once |
| `DeviceAuthSerial.CancelledFlowStops` | controllers/auth.go:1958-1981 | a cancelled flow is never approved, exchanged or completed, before or after |
| `DeviceAuthHandlers.DeviceAuth` | controllers/auth.go:1887-1932 | stores the two linked entries, pending and with what was asked for, under the first free candidate, or fails when all five are taken, and extends the run by exactly that start |
| `DeviceAuthHandlers.ApproveDevice` | controllers/auth.go:291-329 | approves if and only if the user code is there, neither denied nor expired, its device entry is there and the user is a member; the user code is gone either way, and the device entry too if the code was denied or expired |
| `DeviceAuthHandlers.ApproveLinked` | controllers/auth.go:315-329 | the device entry becomes approved for the user, or nothing changes |
| `DeviceAuthHandlers.CancelDeviceAuth` | controllers/auth.go:1958-1981 | both entries go if and only if the cancel token is the entry's own non-empty one; otherwise nothing changes |
| `DeviceAuthHandlers.GetOAuthToken` | controllers/token.go:335-457 | each answer if and only if its own condition on the entry and the request holds, in the order of the checks: expired, denied or used, pending, wrong client, wrong resource, minting failed, token; a token marks the entry, an expired entry is dropped, anything else leaves it as it was |
| `DeviceAuthHandlers.ExchangeAdmitted` | controllers/token.go:411-457 | claim, mint, then mark or give back exactly the claimed entry |
| `DeviceAuthHandlers.DeviceAuthComplete` | controllers/auth.go:1990-2067 | signs the user in if and only if the entry is used and unexpired, application and user exist, and for anything but a login the client is the application's and the scopes are among a non-empty original one; the entry is then gone, and an expired one is dropped |
| `DeviceAuthHandlers.ScopeExceeds` | controllers/auth.go:2044-2059 | the two scope loops decide whether some requested scope is not an original one |
| `SigninSession.StepKeepsInv` | controllers/auth.go:1426-1566 | every sign-in request keeps the invariant about the pending user, the session user and the log |
| `SigninSession.RunIsSafe` | controllers/auth.go:768-1570 | the invariant holds after every sequence of sign-in requests |
| `SigninSession.LoggedFactorsAreNeverSkipped` | controllers/auth.go:627-649 | in the log of every run: if every first factor of a user left a second one due, a grant or prompt comes after a first factor and then a second one of another type or a recovery code |
| `SigninRequests.StepLogsExactly` | controllers/auth.go:768-1570 | a request logs a first factor, a second factor, a prompt or a grant if and only if it is such as to cause it: what it posts, what was verified, and the session it finds, written out |
| `SigninRequests.StepUserExactly` | controllers/base.go:285-289 | the session user after a request: the prompted one, the granted one if the sign-in sets it, none after an expired session, otherwise the one before |
| `SigninRequests.StepPendingExactly` | controllers/auth.go:627-649 | the pending user and the barred factor type after a request |
| `SigninRequests.EveryEventHasAnOrigin` | controllers/auth.go:768-1570 | every event of a run goes back to a request that was such as to cause it |
| `SigninRequests.SecondFactorIsNeverSkipped` | controllers/auth.go:1426-1519 | if a second factor was due in every first-factor request of a user, the user is granted, or given the session, only after a request that proved a first factor and a later one that answered for the pending user with an accepted recovery code or an accepted passcode of another, enabled type |
| `SigninSession.SessionUserWasIntroduced` | controllers/base.go:285-289 | the session never carries a user it did not get from a grant or a prompt that was not a quick sign-in |
| `SigninSession.Session.AllowedFactors` | controllers/auth.go:630-639 | the loop collects exactly the enabled factors other than the first factor's type |
| `SigninSession.Session.PromptMfaSetup` | controllers/auth.go:587-597 | the session gets the user exactly when a prompt is due |
| `SigninSession.Session.FinishFirstFactor` | controllers/auth.go:627-649 | the session after a first factor is the machine's |
| `SigninSession.Session.AnswerSecondFactor` | controllers/auth.go:1426-1519 | the session after a passcode or recovery code is the machine's |
| `SigninSession.Session.SignIn` | controllers/auth.go:768-1570 | one request makes one step of the machine |
| `SyslogFormat.AcceptedSettings` | audit/syslog.go:62-104 | every accepted configuration has a non-empty host, a valid port, a known network and format, and a facility of 0 to 23 |
| `SyslogFormat.MsgIdIsWellFormed` | audit/syslog.go:238-252 | a MSGID has 1 to 32 printable ASCII characters, and an action stays as it is if and only if it is one |
| `SyslogFormat.PriorityIsRead` | audit/syslog.go:218 | the priority lies in 0 to 191 and reads back to facility and severity |
| `SyslogFormat.Line5424IsReadExactly` | audit/syslog.go:218-226 | an RFC 5424 line parses back to facility, severity, time, host, process id, message id and flattened message if and only if the host name has no space |
| `SyslogFormat.Line3164IsReadExactly` | audit/syslog.go:218-224 | the same for an RFC 3164 line |
| `SyslogMeaning.SettingsExactly` | audit/syslog.go:37-104 | a configuration is accepted with some settings if and only if it asks for them: trimmed host, port, and protocol, facility and format by name, with their defaults |
| `SyslogMeaning.MsgIdIsExact` | audit/syslog.go:238-252 | the message id has one character for each of the first 32 runes of the action, the rune itself if printable ASCII and an underscore otherwise |
| `SyslogMeaning.MessageReadsExactly` | audit/syslog.go:212-236 | a message in the newer format, as received, reads back as its event, with CR and LF as spaces, if and only if the host name has no space |
| `SyslogMeaning.OldMessageReadsExactly` | audit/syslog.go:212-236 | the same in the older format |
| `SyslogFormat.StreamMessageIsFramedExactly` | audit/syslog.go:228-235 | a TCP or TLS message is one LF-terminated line if and only if time and host name have no LF |
| `SyslogFormat.DatagramIsBounded` | audit/syslog.go:229-233 | a datagram has at most 60000 bytes; a long line becomes valid UTF-8, and if it was valid, a prefix of it that lost at most three bytes to the cut |
| `Utf8.CutThenValid` | audit/syslog.go:230-232 | cutting valid UTF-8 anywhere and dropping invalid bytes leaves a valid prefix at most three bytes shorter |
| `Utf8.ToValidIsValid` | audit/syslog.go:231 | dropping invalid bytes leaves valid UTF-8 |
| `Utf8.ToValidKeepsRunes` | audit/syslog.go:231 | making text valid keeps exactly its well-formed sequences, in order |
| `Utf8.EncodedIsRune` | audit/syslog.go:239-244 | every code point is one sequence, whatever follows it |
| `Utf8.RuneIsEncoded` | audit/syslog.go:239-244 | every sequence that is recognised is the encoding of a code point |
| `WhiteSpace.TrimSpaceCuts` | audit/syslog.go:63 | only white space is cut off a host, and none is left at its ends |
| `WhiteSpace.FieldsSplitAtSpace` | controllers/auth.go:2049-2052 | white space anywhere divides the fields of a scope |
| `WhiteSpace.FieldsOfWord` | controllers/auth.go:2049-2052 | text without white space is one field |
| `SyslogSender.NextConserves` | audit/syslog.go:138-192 | every step keeps accepted equal to written, in flight, queued |
| `SyslogSender.NothingIsLostOrReordered` | audit/syslog.go:138-192 | in every reachable state accepted messages are the written ones, then at most one in flight, then the queued ones, and the queue is within 10000 |
| `SyslogSender.LinesAreAcceptedInOrder` | audit/syslog.go:155-210 | with writes failing after any prefix, the complete lines over all connections are a prefix of the accepted messages with only adjacent repeats, holding every written message and at most the one in flight besides |
| `SyslogSender.FormattedSendIsFramed` | audit/syslog.go:212-236 | the provider's own messages meet the framing that needs |
| `SyslogSender.NoMessageIsStuck` | audit/syslog.go:155-172 | every run whose worker has not left can go on, without any caller, to one where all accepted messages are written |
| `SyslogProvider.WorkIsSafe` | audit/syslog.go:155-192 | whatever callers and network do, the worker loses and reorders nothing, and its lines come in order with adjacent repeats only |
| `SyslogProgress.TurnDelivers` | audit/syslog.go:162-171 | a turn whose dial and write succeed writes exactly the message being retried, or else the first one queued |
| `SyslogProgress.TurnBreaks` | audit/syslog.go:174-192 | a turn whose dial or write fails writes nothing, drops the connection, and waits with the same message |
| `SyslogProgress.TurnLeaves` | audit/syslog.go:155-169 | a worker that finds the provider closed leaves, closes the connection and leaves its message unwritten |
| `SyslogProgress.WorkingTurnsDrain` | audit/syslog.go:155-172 | as many turns that succeed as there are messages unwritten write all of those in order, whatever callers send meanwhile |
| `SyslogProgress.QuietTurnsDrain` | audit/syslog.go:155-172 | left alone for as many such turns, the worker has written everything that was accepted |
| `SyslogProvider.Provider.Send` | audit/syslog.go:138-146 | a message is appended, or refused exactly when the queue is full |
| `SyslogProvider.Provider.Write` | audit/syslog.go:174-192 | succeeds if and only if there is or comes to be a connection and the write does not fail; a success puts the message on the connection, a failure closes it with the part that was sent |
| `SyslogProvider.Provider.Run` | audit/syslog.go:155-172 | the nested loops do, turn by turn, exactly what the machine's worker does |
| `FormEncoding.UnescapeEscape` | idp/custom.go:57 | decoding undoes encoding for every byte string |
| `FormEncoding.EscapeAlphabet` | idp/custom.go:57 | an encoded value holds only unreserved characters, plus and percent signs |
| `FormEncoding.UnescapeExactly` | controllers/token.go:801-802 | decoding gives a text exactly for its encodings: characters for themselves, plus for a space, percent with two hexadecimal digits of either case for a byte |
| `FormEncoding.EscapeKeepsExactly` | idp/custom.go:57 | text is its own encoding if and only if it has only unreserved characters |
| `UrlTemplate.IsUrlTemplateExactly` | idp/custom.go:51-53 | a URL is a template if and only if a placeholder stands somewhere in it |
| `UrlTemplate.PlaceholderIsFilled` | idp/custom.go:55-59 | a placeholder anywhere is filled with the encoded value of its name, an unknown one with nothing, and the text around it as if it stood alone |
| `UrlTemplate.PlaceholderAt` | idp/custom.go:49 | a placeholder is found wherever one is written |
| `UrlTemplate.FillPlain` | idp/custom.go:51-59 | a URL without placeholders is left as it is |
| `UrlTemplate.FillCommutesWithCut` | idp/custom.go:55-59 | filling commutes with cutting at any separator |
| `UrlTemplate.FillCommutesWithSplit` | idp/custom.go:55-59 | filling commutes with splitting at any separator |
| `UrlTemplate.PostedFieldsCarryTheValues` | idp/custom.go:99-109 | endpoint and body fields are the filled parts of the template, and a field `name={v}` decodes to exactly the value of v |
| `UrlTemplate.PostedStructureIsFixed` | idp/custom.go:99-109 | values change neither the number of fields nor an endpoint without placeholders |
| `BasicAuth.RawCredentialsResolveExactly` | controllers/token.go:795-812 | registered credentials sent as they are resolve to themselves if and only if the id has no colon |
| `BasicAuth.EncodedCredentialsResolveExactly` | controllers/token.go:795-812 | form-encoded credentials resolve to the original pair if and only if encoding changes nothing or the encoded pair is not itself registered |
| `BasicAuth.ResolveExactly` | controllers/token.go:795-812 | any payload resolves to nothing without a colon, and otherwise to its two sides decoded if both decode and are not registered as they are, else to its two sides |
| `AlipaySign.OrderDoesNotMatter` | idp/alipay.go:290-306 | the string is the same for every order in which the map is visited |
| `AlipaySign.SameFieldsSameString` | idp/alipay.go:290-306 | forms that sign the same fields with the same values sign the same string |
| `AlipaySign.PostParses` | idp/alipay.go:271 | parsing the posted body gives back the form |
| `AlipaySign.ReceiverRecomputesTheString` | idp/alipay.go:252-271 | a receiver that parses the body, signature included, recomputes exactly the string that was signed |
| `AlipaySign.CollectKeys` | idp/alipay.go:291-294 | the first loop visits every key once |
| `AlipaySign.AppendPairs` | idp/alipay.go:296-303 | the second loop appends the signed pairs in key order |
| `AlipaySign.GetStringToSign` | idp/alipay.go:290-306 | the two loops compute that string, whatever order the map was visited in |
| `AlipayContent.StringToSignIs` | idp/alipay.go:290-306 | the string is the non-empty fields but `sign`, in ascending byte order of their keys, as `key=value` joined by ampersands, with ampersands cut off its ends |
| `AlipayContent.StringToSignReadsExactly` | idp/alipay.go:290-306 | split at ampersands and equals signs it gives exactly the signed fields with their values, in order, if and only if no signed key has a delimiter and no signed value an ampersand |
| `AlipayContent.SameStringSameFields` | idp/alipay.go:290-306 | forms that can be read back and give the same string have the same signed fields with the same values |
| `DjangoHash.RecordAcceptsExactly` | cred/pbkdf2_django.go:35-67 | a record accepts a password if and only if its salt has no dollar sign and the key derived with that salt and 260000 iterations is the record's |
| `DjangoHash.AcceptedTextsExactly` | cred/pbkdf2_django.go:45-67 | any text is accepted if and only if it is the algorithm, a number of iterations, a salt and the base64 form of the key derived from the password with these |
| `DjangoHash.Base64RoundTrip` | cred/pbkdf2_django.go:41 | reading base64 undoes writing it, for all bytes |
| `DjangoHash.HashVerifiesExactly` | cred/pbkdf2_django.go:35-67 | a fresh record verifies against its password if and only if the salt has no dollar sign |
| `DjangoHash.DollarSaltNeverVerifies` | cred/pbkdf2_django.go:45-49 | with a dollar sign in the salt no password verifies |
| `DjangoHash.Base64HasNoDollar` | cred/pbkdf2_django.go:41 | base64 text has no dollar sign |
| `McpKeys.CheckKey` | controllers/mcp_server.go:162-169 | one key is flagged if and only if it folds to a listed name and differs from it, was seen, or the name is listed twice |
| `McpKeys.HasAmbiguousKeys` | controllers/mcp_server.go:144-177 | an object is ambiguous if and only if some listed name has a variant, a repetition or a double listing |
| `McpKeys.DecodersAgree` | controllers/mcp_server.go:137-177 | every decoder, first or last, exact or folded, reads the same value for a name that passes |
| `McpKeys.AmbiguousKeysCanDisagree` | controllers/mcp_server.go:144-177 | if a name does not pass, there are values for which two decoders disagree |
| `McpKeys.IsToolAllowed` | controllers/mcp_server.go:90-106 | the loop decides by the first listing of the tool |
| `McpKeys.ProxyServer` | controllers/mcp_server.go:43-107 | a request is forwarded if and only if it is unambiguous, decodes, and any tool call on a non-empty list is allowed |
| `McpKeys.ForwardedExactly` | controllers/mcp_server.go:43-107 | a request is forwarded if and only if any one decoder finds an object with sound method and parameter keys, a text as method, and for a tool call a sound name that is that of a tool whose first listing is allowed |
| `McpKeys.ForwardedCallIsAllowed` | controllers/mcp_server.go:49-107 | whatever decoders the upstream uses, a forwarded tool call names a tool whose first listing is allowed |
| `RateLimit.EvictionChangesNoAnswer` | controllers/service_ip_limit.go:37-57 | for non-decreasing times, evicting after 48 idle hours changes no answer, and both maps keep the same keys |
| `RateLimit.AllowedExactlyOncePerDay` | controllers/service_ip_limit.go:37-57 | a request is let through if and only if every earlier send from its address is at least 24 hours old |
| `RateLimit.RememberedExactly` | controllers/service_ip_limit.go:41-57 | after any requests both maps hold exactly the addresses that made one within the last 48 hours |
| `RateLimit.SendEmailLimiter.EvictStale` | controllers/service_ip_limit.go:41-47 | the loop removes exactly the stale addresses from both maps |
| `RateLimit.SendEmailLimiter.Allow` | controllers/service.go:91-97 | one request gives the answer and the state of the machine |
| `UploadName.FindFreePath` | controllers/resource.go:461-477 | the loop ends on the first candidate whose key no stored name matches, within one more attempt than there are taken keys, and than there are stored names if and only if one of so many candidates is free, which holds if no stored name takes two of them |
| `UploadName.TakenIsBounded` | object/ormer_session.go:40-44 | only finitely many candidates can be taken |
| `UploadName.CandidateKeysDiffer` | object/storage.go:98-125 | different candidates have different keys, escaped for COS or not |
| `UploadName.CandidateOfName` | controllers/resource.go:462-476 | a candidate of a name with a dot has its number before the last dot |
| `UploadName.CandidateOfPlainName` | controllers/resource.go:462-476 | a candidate of a name without a dot has its number at the end |
| `UploadName.NumberIsInsertedExactly` | controllers/resource.go:462-476 | the path is its stem and its extension, so that a number is put in and nothing lost, if and only if it has no extension or does not end in a slash |
| `UploadName.KeyOfCleanParts` | object/storage.go:98-99 | a key is the provider's path, its prefix and the upload's path, joined by single slashes |
| `UploadName.CosKeyIs` | object/storage.go:64-72 | a COS key has its last element, and nothing else, form-encoded |
| `UploadName.CosElementIsEncoded` | object/storage.go:64-72 | the last element of a COS key is the form-encoded one with its plus signs written as %20 |
| `UploadName.EscapeForCosIsInjective` | object/storage.go:64-72 | different keys stay different when they are escaped for COS |
| `UploadName.FreePathIsFresh` | controllers/resource.go:461-477 | the key of a free candidate is not stored if it has no escape character, and the candidate keeps the original stem and extension |
| `UploadName.StoredKeyIsFoundFree` | controllers/resource.go:465-471 | on every database where the backslash escapes, the path `resource/o/u/a\b.txt` is found free at once although its key is stored |
| `UploadName.AttemptsWithinStoredNames` | controllers/resource.go:464-477 | at most one attempt more than there are stored names, if none takes two of the first candidates |
| `UploadName.OneStoredNameExactly` | controllers/resource.go:464-477 | for one stored name that bound holds if and only if it does not take both of the first two candidates |
| `UploadName.OneNameTakesTwo` | object/ormer_session.go:40-44 | one stored name can take both of the first two candidates, and the loop then exceeds the bound |
| `SqlLike.ContainedIsCounted` | object/ormer_session.go:40-44 | every stored name that contains a key without an escape character is counted |
| `SqlLike.LikeMeansPlaced` | object/ormer_session.go:40-44 | a pattern matches a name if and only if its pieces, characters and wildcards, can be laid along the name from end to end |
| `SqlLike.LookupOfLiteral` | object/ormer_session.go:40-44 | a key whose wildcards are all escaped finds exactly the names that hold the text it stands for, as the database compares characters |
| `SqlLike.LookupMeansContainsExactly` | object/resource.go:43-46 | the lookup counts exactly the names that contain the key if and only if the key has no wildcard and no escape character and the database takes no other character for one of the key's |
| `SqlLike.CaseFolding` | object/ormer.go:251 | ignoring case leaves the backslash to itself and makes every key with a letter find names that do not contain it |
| `SqlLike.StoredKeyIsCountedExactly` | object/resource.go:43-46 | a stored key is always counted if and only if the pieces of its own pattern can be laid along it |
| `SqlLike.LiteralKeyIsCountedExactly` | object/resource.go:43-46 | a stored key whose wildcards are all escaped is always counted if and only if it does not end in an escape and the text it stands for occurs in it |
| `SqlLike.BackslashIsMissed` | object/ormer_session.go:40-44 | where the backslash escapes, a key with one inside is looked up without it and does not find itself, whatever the database does with case |
| `Text.SplitJoin` | cred/pbkdf2_django.go:46 | splitting undoes joining parts without the separator |
| `Text.JoinSplit` | cred/pbkdf2_django.go:46 | joining undoes splitting, and no part has the separator |
| `Text.AtoiSigned` | cred/pbkdf2_django.go:56 | a sign is read, and a number that does not fit in 64 bits is refused |
| `Text.ParseItoa` | cred/pbkdf2_django.go:56 | reading a decimal number undoes printing it |

## Left out

Of the modelled files:

- Device authorization: generated device codes are taken to be fresh 36-character strings and user codes 6-character strings, neither with a slash, and user ids to contain one; user codes need not be fresh.
- Device authorization: the periodic sweep and the expiry of Redis keys are removals of any entry at any time; a failing Redis is not modelled.
- Device authorization: an issued token stands for a minting call that got these arguments and succeeded; what minting does with them, and the other grant types, are not modelled. An application without a client id is bound to no client.
- SigninRequests.SecondFactorIsNeverSkipped: speaks of the requests of `Login`; other writers of the session user (WebAuthn, account pages, access tokens, impersonation) are not modelled.
- SigninSession.Session.SignIn: what `HandleLoggedIn` issues for each response type is not modelled, only whether it refuses and whether it sets the session user; session ids and authentication times are not modelled.
- SyslogSender.LinesAreAcceptedInOrder: a stream is what a connection's writes accepted; what the network loses after that is not modelled.
- SyslogProvider.Provider.Run: callers act before every step of the worker; what they do after it has left is in the machine only.
- SyslogFormat: the address text, dialing, TLS and deadlines are not modelled; times come as text, the fifteen characters of the older layout or one without spaces.
- UrlTemplate: the request after the split, and the use of templates for user information, are not modelled.
- BasicAuth: the base64 layer of the header is not modelled.
- AlipaySign: the signature is any byte string; semicolons in a posted body, which encoding never produces, are not treated apart.
- DjangoHash: key derivation is any function.
- McpKeys: bodies are parsed values whose other fields decode; case folding is any function; the lookup of the server and the forwarding itself are not modelled.
- RateLimit: tokens are real numbers, a new bucket starts full, and taking the limiter and asking it is one step.
- UploadName.FindFreePath: the truncation of long paths and lookup errors are not modelled.
- UploadName.AttemptsWithinStoredNames: the condition is sufficient for every set of stored names and exact for one; with more, one name may take two candidates while another candidate stays free.
- SqlLike.LikeMeansPlaced: names and keys are byte strings, compared byte by byte and with one byte for `_`; a database compares characters, so for names beyond ASCII its `_` and its folding of such letters are not modelled.

Of the repository:

- CRUD and list controllers, pagination, masking, dashboards, quotas, translations and the web console: plumbing that would only add easy members.
- Casbin enforcement, consent filtering, CAS, SAML, WebAuthn, Kerberos, payments and subscriptions.
- Identity providers other than the two above, captcha, e-mail, face and identity verification, certificates: network clients.
- Cryptography: hashing, RSA and TLS.
