# OCPP server helpers, modelled in Dafny

This project models four small pieces of an OCPP (Open Charge Point Protocol)
relay server written in TypeScript, and proves properties of each:

- **RPC error construction** (`util.ts`): `createRPCError` turns an OCPP
  CallError code into an error of the matching kind. A fixed table of
  fourteen codes is used, and every other code gives a generic error. The
  fourteen codes are those of OCPP-J 1.6 section 4.2.3, spelled as that
  edition spells them ("FormationViolation", "OccurenceConstraintViolation"),
  plus the four codes that the OCPP 2.0.1 JSON binding added. A missing
  message becomes `""`. Missing details become `{}`. Defaults are applied
  with `??`, so falsy details such as `0`, `""` or `false` are kept.
  Module `RpcErrors` (file `rpc_errors.dfy`); JavaScript values and the
  `??` operator are in `JsValues` (`js_values.dfy`).
- **Local timestamp** (`repository.ts`): `Repository.toIsoString` writes
  `year-MM-DDThh:mm:ss.000Z` from the local date and time fields, with the
  inner `pad` helper adding a leading zero below ten. The year is not
  padded. With a four-digit year the result has the shape of an RFC 3339
  section 5.6 `date-time`; other years do not (year 999 gives `999-…`,
  year -1 gives `-1-…`). The fields are local time, milliseconds are
  always `.000`, and the offset is always written `Z`. The timezone
  offset is read and then ignored. Module `Repository`
  (`repository.dfy`). JavaScript's number-to-string conversion of the year
  and of the padded fields is module `Decimal` (`decimal.dfy`); it is
  modelled for integers of magnitude below 10^21, which covers every year
  a `Date` can hold.
- **Event collector** (`event-buffer.ts`): `EventBuffer` subscribes to one
  event of an emitter and appends each emission's argument list to a buffer.
  `condense` unsubscribes and returns the buffer without clearing it.
  Module `EventBuffers` (`event_buffer.dfy`). It is a class with the
  buffer, the subscribed flag and a ghost record, `heard`, of every emission of
  the emitter made while subscribed, other events included.
  The pure function `Collected` specifies the buffer in terms of that record.
- **Message log line** (`log.ts`): `formatLogMessaage` builds
  `[<timestamp>] <client> - <message>`. `log` picks the client label (the
  string itself, or the record's `hostname`) and adds one newline. Module
  `Log` (`log.dfy`).

Each operation is proved against a read-back or reference definition. The
error lookup is proved against `CodeOf`, the code of each kind, in both
directions. The timestamp is proved against the read-back `ParseIsoString`.
The buffer is proved against `Collected` and the positions given by
`Matching`. The log line is proved against the read-back `SplitLogLine`.

## Model

| member | source | states |
|---|---|---|
| JsValues.Coalesce | util.ts:43 | `v ?? d` is `d` exactly when `v` is null or undefined, and `v` otherwise (the `message ?? ''` of line 42 is the `match` on the optional message inside CreateRpcError) |
| JsValues.CoalesceDiffersFromOr | util.ts:43 | for a fallback different from the value, `??` and `||` give different results exactly on the falsy values that are not nullish (`false`, `0`, `""`) |
| RpcErrors.ErrorTable | util.ts:4-19 | the fourteen code-to-kind entries of the table; its keys and entries are characterised by TableKeysAreCodes, LookupCodeOf and TableIsOcppCodeList |
| RpcErrors.LookupKind | util.ts:41 | total; for a code in the table the kind found is the one listed under that code, otherwise the generic kind |
| RpcErrors.CreateRpcError | util.ts:40-45 | total; the kind is the table's kind for the code; absent message becomes `""`, a given one is kept; nullish details become `{}`, any other details are kept |
| RpcErrors.TableKeysAreCodes | util.ts:4-19 | the table's keys are exactly the codes of the fourteen error kinds |
| RpcErrors.LookupCodeOf | util.ts:4-19 | each kind's code is a table key and looks up exactly that kind |
| RpcErrors.CodeOfInjective | util.ts:4-19 | distinct kinds have distinct codes, so the near-duplicate spellings are distinct keys with distinct kinds |
| RpcErrors.LookupKindIff | util.ts:41 | a code gives a non-generic kind iff it is that kind's code; it gives the generic kind iff it is "GenericError" or not a key |
| RpcErrors.UnknownCodeIsGeneric | util.ts:5 | a code outside the table gives the same kind as "GenericError" |
| RpcErrors.TableIsOcppCodeList | util.ts:4-19 | the keys are the OCPP-J 1.6 error codes plus the four OCPP 2.0.1 additions |
| RpcErrors.KindIgnoresMessageAndDetails | util.ts:41-43 | the kind depends on the code only, never on message or details |
| RpcErrors.FalsyDetailsKept | util.ts:43 | falsy non-nullish details are kept, where `||` would have replaced them by `{}` |
| Decimal.IntToString | repository.ts:23 | the year as the `+` with a string writes it: a leading '-' exactly for negative years, then digits with no leading zero (a leading '0' only for year 0) |
| Decimal.ParseIntToString | repository.ts:23 | the decimal rendering of the year reads back as the same integer, sign included |
| Decimal.IntToStringInjective | repository.ts:23 | distinct years render as distinct strings |
| Decimal.NatToStringLength | repository.ts:23 | a number between 10^(k-1) and 10^k renders with exactly k digits |
| Repository.Pad | repository.ts:19-21 | digits only; below 100 it is exactly the tens digit then the units digit (a '0' in front below 10); from 10 on, the plain decimal |
| Repository.ParseTwoDigits | repository.ts:19-21 | `ParseNat(Pad(n)) == n` below 100: a padded field reads back as the number it was written from |
| Repository.ToIsoString | repository.ts:16-31 | ends in ".000Z" and is the year plus the padded fields plus ten characters of separators and tail; its full layout is pinned by ToIsoStringLayout and its meaning by the read-back ParseToIsoString |
| Repository.ToIsoStringLayout | repository.ts:23-28 | the result is the year followed by the 20 characters `-MM-DDThh:mm:ss.000Z`, each field two digits |
| Repository.ParseSuffixOf | repository.ts:24-28 | the fixed-width part reads back as the 1-based month, day, hours, minutes and seconds |
| Repository.ParseToIsoString | repository.ts:16-31 | reading the result back gives the year, 1-based month, day, hours, minutes and seconds, for any year |
| Repository.ToIsoStringInjective | repository.ts:23-28 | in-range dates with the same result agree on all six rendered fields |
| Repository.FourDigitYearShape | repository.ts:23-28 | with a four-digit year the result is 24 characters, with '-', '-', 'T', ':', ':' at positions 4, 7, 10, 13, 16 and ".000Z" at the end |
| Repository.MonthIsOneBased | repository.ts:24 | the month field reads as monthIndex + 1; January is "01" and December "12" |
| Repository.IgnoresMillisecondsAndOffset | repository.ts:17-28 | the timezone offset read at lines 17-18 and the milliseconds (never read; `.000` is a literal at line 28) do not affect the result |
| EventBuffers.Matching | event-buffer.ts:12-14 | the positions of the watched event's emissions: ascending, all matching, none missed |
| EventBuffers.CollectedIsMatching | event-buffer.ts:12 | the buffer holds one entry per emission of the watched event, its argument list, in emission order |
| EventBuffers.CollectedGrowsAtEnd | event-buffer.ts:12 | later emissions only append; earlier entries stay unchanged and in place |
| EventBuffers.OtherEventsIgnored | event-buffer.ts:14 | emissions of other events add nothing |
| EventBuffers.EventBuffer.constructor | event-buffer.ts:9-15 | a new buffer is empty and subscribed to the given event |
| EventBuffers.EventBuffer.Emit | event-buffer.ts:12 | while subscribed, an emission of the watched event appends its argument list; otherwise the buffer is unchanged |
| EventBuffers.EventBuffer.Condense | event-buffer.ts:17-20 | unsubscribes and returns the whole buffer, which is kept |
| EventBuffers.CondenseTwice | event-buffer.ts:3-21 | other events are not collected, emissions after condense are ignored, and a second condense returns the same entries |
| Log.FormatLogMessage | log.ts:8-10 | the line is '[', the timestamp, "] ", the client, " - ", the message; length is the parts' lengths plus 6; the message is a verbatim suffix |
| Log.SplitFormatted | log.ts:9 | with a timestamp free of ']', splitting the line gives back the timestamp and the client, " - " and the message |
| Log.FormatInjective | log.ts:9 | for one timestamp, equal lines from equal-length clients have equal clients and equal messages |
| Log.ClientLabel | log.ts:5 | a string client is its own label; for a client record the label is its `hostname` |
| Log.LogLine | log.ts:4-6 | the written line is the formatted message followed by one '\n' |
| Log.LabelOrHostname | log.ts:5 | a string client and a record with that host name give the same line, with the name right after "] " |
| Log.OneRecordPerLine | log.ts:5 | if no part contains a newline, the written line has exactly one, at its end |

## Left out

- Error classes: the error classes of `./errors` are not part of this model. An error is a record of its kind, its constructor message and its `details` field.
- JavaScript prototype lookups: the table is exactly its fourteen own keys. Inherited property names such as `constructor` are not modelled.
- `getErrorPlainObject` (util.ts:21-34): it depends on JSON serialisation and host-object reflection.
- `getServerName` (util.ts:36-38): it reads `package.json` and the process platform.
- Clock and `Date` getters: `toIsoString` takes the local fields and the offset as a `LocalDate` value. Whether the fields are consistent with a real calendar (for example 31 February) is not modelled; only the ranges the getters guarantee are assumed, by the lemmas that need them.
- Invalid dates: on an invalid `Date` every getter returns NaN, and the source then returns `"NaN-NaN-NaNTNaN:NaN:NaN.000Z"` (`pad(NaN)` is `"NaN"`). `LocalDate` has integer fields only, so invalid dates are not modelled.
- `Repository.uuidv4` and the constructor: they use random UUIDs and hold a logger.
- Event emitter: Node's `EventEmitter` is not modelled. Every emission of the emitter is a call to `Emit`, which keeps only those of the watched event; registration is the `subscribed` flag.
- EventBuffers.EventBuffer.Condense: returns a copy of the buffer's value. In the source the caller gets the same array object, so changing it changes the buffer; that aliasing is not modelled.
- `log`'s file append and the clock reading: the timestamp is a parameter and the line is returned instead of appended to `./message.log`.
- `typedefs/`, `index.ts`, `server.ts`, `server-client.ts`: type declarations, process start-up, network connections and relaying through an external RPC library. The RPC session, handshake and call correlation live in `./client` and the external library, which are not part of this model.
