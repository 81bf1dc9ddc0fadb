# TAP3 loader and RAP builder: verified model of the core logic

This project models the checkable core of a loader for GSMA TD.57 (TAP3) roaming
files and a builder for GSMA TD.32 (RAP) return files. Everything it models works
in memory; none of the Oracle database work is modelled. It covers four pieces:

- **The RAP return batch under construction** (`RAPFile`), in `rap_file.dfy`.
  - It is a class with:
    - a header, filled from the outputs of the procedure that issues the RAP file number;
    - return details appended in place, with a running total and count;
    - an audit block that `Finalize` / `LoadToDB` fill in.
  - `OctetString_fromInt64` fills an 8-byte buffer in a countdown loop.
    - Its output is the minimal big-endian two's-complement content of an
      INTEGER, as in section 8.3.2 of ITU-T X.690.
    - `octets.dfy` specifies that content and its decoder.
- **The early TAP validator** (`TAPValidator`), in `tap_validator.dfy`.
  - Dispatch on the interchange kind.
  - The check for the five mandatory transfer-batch sections.
  - The one-entry fatal RAP it builds when the audit control section is missing.
- **The loader's pure helpers** (`TAP3.12c.cpp`):
  - BCD digit strings and the octet-string integer decoder, in `loader_codec.dfy`;
  - the integer option reader, also in `loader_codec.dfy`;
  - the UTC-offset and recording-entity lookups, in `loader_lookup.dfy`;
  - the audit reconciliation of the "00" charges against the audit control
    information, in `loader_audit.dfy`. It uses an unsigned 64-bit counter;
  - the joining of operator-specific information, in `loader_rap.dfy`;
  - the choice of the fatal-return error section, in `loader_rap.dfy`;
  - the short file name and the file classification of `main`, in `loader_main.dfy`.
- **The configuration file** (`Config`), in `config.dfy`.
  - `ReadConfigFile` is a loop over lines. It updates the parser's local
    variables and the object's fields.
  - The loop is proved against a specification that parses the file line by
    line (`Run`).
  - `GetFTPSetting` is a case-insensitive lookup that falls back to `OTHERS`.

The supporting modules are:

| module | contents |
|---|---|
| `Wrappers` | `Option` and `Result` |
| `Ascii` | upper-casing |
| `Decimal` | decimal text of numbers |
| `TapTypes`, `RapTypes` | the TAP and RAP records as datatypes, with optional fields as `Option` |
| `TapConstants` | result codes and the validator's constants |

Integers are unbounded, and the source's widths are written out where they matter:

- the decoder wraps 8-byte values to a signed 64-bit integer (`Wrap64`);
- the audit total is kept modulo 2^64, as the source's `uint64_t` counter is;
- `stoi` accepts only the `int` range.

Exceptions the source throws become `Failure` results. Examples are the
"8-byte integer overflow" and "e_wrong_rec_entity_code" exceptions.

Where a comment and the code disagree, the model follows the code:

- `TAPValidator.cpp:131` and `RAPFile.cpp:106` say that sender and recipient
  "switch their places". Both functions copy the sender into the sender slot
  and the recipient into the recipient slot, and so does the model.
- `assign_integer_option` stores the parsed number in `param` before it checks
  for trailing characters and for the range. The model's result pair therefore
  carries the new value even when the result code is -1.

## Model

| member | source | states |
|---|---|---|
| `RapFileModel.RapFile.constructor` | RAPFile.cpp:20-29 | a new RAP file has file id 0 (so `Created()` is false), no batch, no details, zero total and zero count |
| `RapFileModel.RapFile.Initialize` | RAPFile.cpp:70-136 | the issuer request carries test flag 1 exactly when a file type indicator is given; a negative file id returns TL_ORACLEERROR and builds no batch; otherwise TL_OK and a header whose sender/recipient are the arguments verbatim, whose two time stamps are both the issued stamp and offset, and whose file type indicator is present iff non-empty; `Created()` iff the issued id is > 0; totals untouched |
| `RapFileModel.RapFile.AddReturnDetail` | RAPFile.cpp:139-144 | appends exactly one detail at the end, earlier ones unchanged; the total grows by the charge and the count by one; the invariant count == number of details, total == sum of the charges passed, is kept |
| `RapFileModel.RapFile.Finalize` | RAPFile.cpp:147-151 | the audit block's count is the number of appended details and its total value is the minimal INTEGER content of the total, which decodes back to the sum of the charges passed |
| `RapFileModel.RapFile.LoadToDB` | RAPFile.cpp:181-186 | the same audit block as `Finalize`; the batch handed to the database is the header, the details in order and that audit block |
| `RapFileModel.OctetStringFromInt64` | RAPFile.cpp:38-61 | for 0 <= value < 2^63 the countdown loop over the 8-byte buffer yields exactly the minimal big-endian two's-complement content of value, and returns its length |
| `RapFileModel.SumConcat` | RAPFile.cpp:139-144 | the running total over two runs of appends is the sum of both runs |
| `RapFileModel.SumPermutation` | RAPFile.cpp:139-144 | the accumulated total does not depend on the order the details were appended in |
| `Octets.MinimalBytesShape` | RAPFile.cpp:43-47 | the significant bytes of a value are at least one byte, read back big-endian to the value, have no leading zero byte when longer than one, and are no longer than needed |
| `Octets.Int64ContentIsContent` | RAPFile.cpp:51-58 | the encoding is 1 to 8 bytes long, reads back to the value, starts below 0x80, and has a leading 0x00 only when the next byte is >= 0x80 |
| `Octets.Int64ContentUnique` | RAPFile.cpp:38-61 | any byte string with those properties is the encoding, so the encoding is the unique minimal one |
| `Octets.Wrap64` | TAP3.12c.cpp:162-165 | the result is a signed 64-bit value congruent to its argument modulo 2^64 |
| `Octets.Wrap64OfUnsigned` | TAP3.12c.cpp:162-165 | an unsigned 64-bit value below 2^63 is unchanged, and one at or above it becomes value - 2^64 |
| `Octets.Int64RoundTrip` | TAP3.12c.cpp:155-168 | decoding the encoder's output gives back every value in 0 .. 2^63-1 |
| `Octets.ShortDecodeIsUnsigned` | TAP3.12c.cpp:155-168 | fewer than 8 bytes always decode to their unsigned big-endian value, and the empty string to 0 |
| `Octets.EightBytesTopBitIsNegative` | TAP3.12c.cpp:155-168 | 8 bytes whose top bit is set decode to their unsigned value minus 2^64, which is negative |
| `LoaderCodec.OctetStr2Int64` | TAP3.12c.cpp:155-168 | more than 8 bytes fail with "8-byte integer overflow"; otherwise the shift-and-or loop yields the big-endian value wrapped to signed 64 bits |
| `LoaderCodec.ConvertNibbles` | TAP3.12c.cpp:128-150 | the in-place loop that rewrites digits and erases 0xF fillers turns the raw nibble text into the text of the nibbles: 0-9 as digits, A and B as '*', C as '#', D as 'a', E as 'b', F dropped |
| `LoaderCodec.BCDString` | TAP3.12c.cpp:112-153 | a null input gives ""; otherwise, per byte, high then low nibble (low then high when switching) mapped as above |
| `LoaderCodec.BcdTextLength` | TAP3.12c.cpp:116-150 | the output length is 2 x size minus the number of 0xF nibbles |
| `LoaderCodec.BcdSwitchIsSwap` | TAP3.12c.cpp:118-125 | decoding with digit switching equals decoding the bytes with their nibbles swapped |
| `LoaderCodec.NibblesSwitchIsSwap` | TAP3.12c.cpp:118-125 | the switched nibble order is the plain order of the nibble-swapped bytes |
| `LoaderCodec.BcdTextConcat` | TAP3.12c.cpp:117-150 | the text of concatenated bytes is the concatenation of their texts |
| `LoaderCodec.BcdRoundTrip` | TAP3.12c.cpp:112-153 | a digit string packed two digits per byte (with an F filler for odd length) decodes back to itself |
| `LoaderCodec.DigitCount` | TAP3.12c.cpp:88 | the digit run `stoi` reads is all digits and stops at the first non-digit |
| `LoaderCodec.AssignIntegerOption` | TAP3.12c.cpp:84-104 | the code is 0 or -1; 0 if and only if the whole string parses (leading white space, a sign and leading zeros included) and the value is in [minValid, maxValid] and in the int range; an unparsable value returns -1 and leaves param; a parsable one sets param even when -1 is returned |
| `LoaderCodec.AssignIntegerOptionAcceptsDecimal` | TAP3.12c.cpp:84-104 | the decimal text of any in-range int is accepted with code 0 and exactly that value |
| `LoaderLookup.GetUtcOffset` | TAP3.12c.cpp:175-190 | without an interchange: the decimal text of the code as unsigned; with one: the offset of the first entry with that code, or "???" when none has it |
| `LoaderLookup.UnsignedDecimalValue` | TAP3.12c.cpp:188 | the text read as a number is the code, or the code + 2^64 for a negative code |
| `LoaderLookup.RecEntityTypeName` | TAP3.12c.cpp:199-233 | type codes 1..11 have a (non-empty) name, and no other code has one |
| `LoaderLookup.GetRecordingEntity` | TAP3.12c.cpp:192-247 | without an interchange: "Code: " + the code, and an empty type; with one: the id of the first entry with that code, the type renamed for codes 1..11 and left as it was otherwise; no match is the "e_wrong_rec_entity_code" failure |
| `LoaderAudit.DecodeDetailCharge` | TAP3.12c.cpp:409-411 | a detail adds its decoded charge only when it has a charge and its type is "00", and nothing otherwise |
| `LoaderAudit.AddChargeDetails` | TAP3.12c.cpp:407-411 | the loop over the charge details leaves the counter at (total + the sum of the billable charges) mod 2^64, or the first decoding failure |
| `LoaderAudit.AddChargeInformation` | TAP3.12c.cpp:579-584 | the loop over the charge information of a service adds all their billable charges, mod 2^64, or stops at the first failure |
| `LoaderAudit.AddBasicServices` | TAP3.12c.cpp:545-585 | the loop over the basic services of a call adds all their billable charges, mod 2^64, or stops at the first failure |
| `LoaderAudit.AddEventCharge` | TAP3.12c.cpp:1149-1181 | originated and terminated calls add their services' charges, GPRS calls their charge information, other events nothing |
| `LoaderAudit.ChargeSumOnlyBillable` | TAP3.12c.cpp:407-411 | the charge sum over all details equals the sum over the billable ones alone |
| `LoaderAudit.ChargeSumAppend` | TAP3.12c.cpp:407-411 | one more detail adds exactly its charge to the sum |
| `LoaderAudit.TallyPrefixStops` | TAP3.12c.cpp:1147-1184 | once the event loop has returned, the events after that point do not matter |
| `LoaderAudit.FirstUnknownEventStops` | TAP3.12c.cpp:1175-1181 | outside debug mode the first event without a handler ends loading with its 1-based index (TL_NEWCOMPONENT) |
| `LoaderAudit.CheckAudit` | TAP3.12c.cpp:1188-1207 | the three checks, with the declared total decoded by `OctetStr2Int64`, give the reference outcome `CheckAuditControl`, whose cases `CheckAuditOutcomes` states |
| `LoaderAudit.CheckAuditOutcomes` | TAP3.12c.cpp:1188-1207 | for the checks taken on their own: TL_WRONGCODE iff a declared total charge or event count is missing; TL_AUDITFAULT iff both are present and the count differs, or outside debug mode the total differs modulo 2^64 from the decoded declared one; the overflow failure iff only the undecodable declared total (more than 8 bytes) is left to check; TL_OK iff the count matches and (outside debug mode) the totals agree modulo 2^64. Within `Reconcile` the overflow case is never reached, because the audit INSERT has already decoded the declared total |
| `LoaderAudit.DecodeDeclaredValues` | TAP3.12c.cpp:1094-1105 | the audit INSERT's decoding of the declared total, tax and discount values succeeds iff each present one has at most 8 bytes, and otherwise fails with "8-byte integer overflow" |
| `LoaderAudit.LoadCallEvents` | TAP3.12c.cpp:1094-1207 | the decoding of the declared total, tax and discount values for the audit INSERT, then the event loop and audit checks, with the counter starting at 0, give the reference reconciliation `Reconcile` over the modelled charges (see "## Left out" for the aborts it does not carry) |
| `LoaderAudit.ReconcileOk` | TAP3.12c.cpp:1094-1207 | reconciliation succeeds with TL_OK iff every present declared total, tax and discount value has at most 8 bytes, every event was processed, both audit values are present, the count equals the number of events, and (outside debug mode) the summed charges equal the declared total modulo 2^64 |
| `LoaderRap.Truncate` | TAP3.12c.cpp:1244-1245 | the result is a prefix of the text, at most n long, and the text itself when it already fits |
| `LoaderRap.OperatorSpecInfo` | TAP3.12c.cpp:1235-1246 | no list gives ""; otherwise the items joined with line breaks (an empty text so far takes no break) and cut to 1024 characters |
| `LoaderRap.JoinOperatorSpecNonEmpty` | TAP3.12c.cpp:1237-1243 | for non-empty items the join is the plain join with line breaks |
| `LoaderRap.JoinOperatorSpecSkipsLeadingEmpty` | TAP3.12c.cpp:1237-1243 | an empty item at the front leaves the join unchanged |
| `LoaderRap.JoinOperatorSpecLaterEmpty` | TAP3.12c.cpp:1237-1243 | an empty item after text has been written still adds a line break |
| `LoaderRap.JoinWithAppend` | TAP3.12c.cpp:1237-1243 | joining one more item appends the separator and the item |
| `LoaderRap.FatalErrorSection` | TAP3.12c.cpp:1344-1375 | there is no error section iff all seven error fields are absent |
| `LoaderRap.FatalErrorSectionIsFirstPresent` | TAP3.12c.cpp:1344-1375 | the chosen section is the first present one in the source's order, with its name and error details |
| `LoaderMain.ShortName` | TAP3.12c.cpp:1711-1715 | the short name is the suffix of the path after its last '\\' (the whole path when there is none), and contains no '\\' |
| `LoaderMain.ClassifyFile` | TAP3.12c.cpp:1736-1746 | an unknown prefix is TL_FILEERROR |
| `LoaderMain.ClassifyFileMatchesTable` | TAP3.12c.cpp:1736-1746 | a name is classified iff its first two characters, upper-cased, are CD/TD (TAP), RC/RT (RAP) or AC/AT (acknowledgement), and then with that entry's type |
| `LoaderMain.ClassifyFileIgnoresCase` | TAP3.12c.cpp:1736-1746 | names whose first two characters agree up to case are classified alike |
| `TapValidatorModel.FillReturnBatch` | TAPValidator.cpp:114-173 | exactly one return detail, count 1, total value the encoding of 0 (which decodes to 0); sender/recipient copied from the TAP batch; both time stamps the creation stamp; decimal places present iff not -1; the file type indicator present exactly when the TAP batch has one, with its value (the intended copy; see "## Left out" for what the memcpy at 160-161 does) |
| `TapValidatorModel.ValidateTransferBatch` | TAPValidator.cpp:176-217 | FATAL_ERROR iff one of the five mandatory sections is absent, TAP_VALID iff all are present; a RAP is built iff the audit control section is missing, with one fatal return holding error 36 and the batch's file sequence number, count 1, total value [0], the TAP sender and recipient, the RAP sequence number, equal creation and available stamps, decimal places present iff not -1, and the TAP file type indicator |
| `TapValidatorModel.ValidateNotification` | TAPValidator.cpp:220-223 | a notification is always valid |
| `TapValidatorModel.Validate` | TAPValidator.cpp:226-238 | a transfer batch gets `ValidateTransferBatch`'s verdict, a notification TAP_VALID, anything else VALIDATION_IMPOSSIBLE |
| `TapConstants.ValidationCode` | TAPValidator.h:16-21 | each validation outcome has its header code, one of 0, 1, 2, 3, 5, 6 |
| `Ascii.UpperString` | Tests/ConfigContainer.cpp:22 | upper-casing keeps the length and maps every character by `toupper` |
| `Ascii.UpperStringIdempotent` | Tests/ConfigContainer.cpp:93 | upper-casing an upper-cased hub name changes nothing, so lookup keys match stored keys |
| `ConfigContainer.FindFirst` | Tests/ConfigContainer.cpp:11-28 | the `find_first_of` / `find_first_not_of` search: the first matching index at or after the start, or the length (npos) when none |
| `ConfigContainer.CommentLineIsSkipped` | Tests/ConfigContainer.cpp:11-14 | a line whose first non-blank character is '#' changes nothing |
| `ConfigContainer.SplitFormatLine` | Tests/ConfigContainer.cpp:15-31 | a line "NAME = value" splits back into exactly that name and value |
| `ConfigContainer.SplitBareName` | Tests/ConfigContainer.cpp:17-26 | a line with no delimiter is all name and has an empty value |
| `ConfigContainer.OutputDirectoryAsWritten` | Tests/ConfigContainer.cpp:36-40 | the value as the source computes it is undefined exactly for the empty value |
| `ConfigContainer.OutputDirectoryWithoutValue` | Tests/ConfigContainer.cpp:36-40 | the line "OUTPUT_DIRECTORY" alone reaches that undefined case |
| `ConfigContainer.StripTrailingSeparator` | Tests/ConfigContainer.cpp:36-40 | the result is the value or the value without one trailing '\\' |
| `ConfigContainer.StripTrailingSeparatorCorrect` | Tests/ConfigContainer.cpp:36-40 | agrees with the source on every non-empty value, removes exactly one appended '\\', and leaves values without one unchanged |
| `ConfigContainer.Insert` | Tests/ConfigContainer.cpp:62 | `map::insert`: the key is present afterwards, an existing entry is kept, a new one stores the value, and other entries are unchanged |
| `ConfigContainer.RunStep` | Tests/ConfigContainer.cpp:9-73 | the effect of the first i+1 lines is that of the first i followed by line i |
| `ConfigContainer.RunLinesConcat` | Tests/ConfigContainer.cpp:9-73 | reading two runs of lines is reading the first and then the second |
| `ConfigContainer.FtpKeysIgnoredOutsideBlock` | Tests/ConfigContainer.cpp:50-72 | outside a block the FTP_* keys and END_FTP_SETTINGS change nothing |
| `ConfigContainer.OtherLinesKeepConnectString` | Tests/ConfigContainer.cpp:33-34 | lines other than CONNECT_STRING leave the connect string alone |
| `ConfigContainer.LastConnectStringWins` | Tests/ConfigContainer.cpp:33-34 | the stored connect string is the value of the last CONNECT_STRING line |
| `ConfigContainer.StepKeepsPendingCleared` | Tests/ConfigContainer.cpp:61-71 | outside a block the pending hub name and setting stay empty after any line |
| `ConfigContainer.RunKeepsPendingCleared` | Tests/ConfigContainer.cpp:61-71 | the same holds after any run of lines |
| `ConfigContainer.ApplyInBlock` | Tests/ConfigContainer.cpp:50-71 | inside a block each FTP_* key sets its own field; END_FTP_SETTINGS inserts the pending setting under the hub, closes the block and resets the pending hub name and all fields to "" |
| `ConfigContainer.BlockOpenRun` | Tests/ConfigContainer.cpp:42-48 | FTP_SETTINGS_FOR with a name opens a block keyed by the upper-cased name |
| `ConfigContainer.BlockHeadRun` | Tests/ConfigContainer.cpp:42-54 | the opening line, then server and user name, leave the block open with those two fields set |
| `ConfigContainer.BlockRun` | Tests/ConfigContainer.cpp:42-71 | a whole block from a clean state inserts its setting under the upper-cased hub and leaves the parser clean |
| `ConfigContainer.FtpBlockStoresSetting` | Tests/ConfigContainer.cpp:42-71 | the same for the text lines of a block: only the map changes, by `insert` of the setting |
| `ConfigContainer.FtpSettingFor` | Tests/ConfigContainer.cpp:91-107 | the upper-cased hub's entry, else the OTHERS entry, else the all-empty setting |
| `ConfigContainer.FtpBlockLookup` | Tests/ConfigContainer.cpp:91-107 | after reading a block for a new hub, looking up any name equal to the hub up to letter case gives the block's setting |
| `ConfigContainer.Config.constructor` | Tests/ConfigContainer.h:26 | a new configuration has an empty connect string, an empty output directory and no FTP settings |
| `ConfigContainer.Config.ReadConfigFile` | Tests/ConfigContainer.cpp:3-74 | the loop over lines leaves connect string, output directory and FTP map exactly as the line-by-line specification `Run` gives them from the previous values |
| `ConfigContainer.Config.GetConnectString` | Tests/ConfigContainer.cpp:81-84 | returns the stored connect string |
| `ConfigContainer.Config.GetOutputDirectory` | Tests/ConfigContainer.cpp:86-89 | returns the stored output directory |
| `ConfigContainer.Config.GetFTPSetting` | Tests/ConfigContainer.cpp:91-107 | the stored entry of the upper-cased hub, else the stored OTHERS entry, else the all-empty setting |

## Left out

- Database work is not modelled. This covers:
  - every OTL stream and INSERT;
  - the stored procedure call in `RAPFile::Initialize`. Its inputs are returned
    as an `IssueRequest`, and its outputs are the `issued` parameter;
  - `LoadReturnBatchToDB`, the `LoadRAP*` inserts, and `CallValidator::ValidateCallIOT`.
- ASN.1 BER/DER encoding and decoding is not modelled. This includes the
  asn1c type-descriptor walk in `LoadRAPErrorDetailList`. TAP and RAP values are
  datatypes instead.
- File and FTP transport, logging, `EncodeAndUpload`, resource cleanup, and
  `main`'s argument checks and file reading are not modelled.
- Floating point is not modelled: `GetTAPPower`, `GetExRate`, `GetTaxRate`,
  `GetDiscountRate`, and the divisions by the TAP power.
- The mandatory-structure checks of the call processors are not modelled. These
  are the TL_MISSINGSTRUCT returns, for example at TAP3.12c.cpp:325-336, 447-465
  and 548-552. Every call event is assumed to carry its lists.
- The early return of `LoadTAPFileToDB` after a fatal validation result is not
  modelled. It happens at TAP3.12c.cpp:1141-1144, after the audit INSERT and
  before the event loop. `LoadCallEvents` starts with the INSERT's decoding of
  the declared values (1094-1105) and then runs the loop.
- `LoaderAudit.LoadCallEvents` reports the "8-byte integer overflow" as a
  `Failure` result. In the source it is a thrown string literal; the model does
  not distinguish whether the catch at TAP3.12c.cpp:1222 or `main`'s catch-all
  receives it.
- The debug-mode outcomes of `LoaderAudit.LoadCallEvents`, `LoaderAudit.CheckAudit`,
  `LoaderAudit.CheckAuditOutcomes` and `LoaderAudit.ReconcileOk` describe no
  reachable run. `debugMode` starts at 0 (TAP3.12c.cpp:21) and its only
  assignment, at 1796, is commented out. The model keeps the flag as a parameter
  so that the branches at 1177 and 1202 are still modelled as written.
- The TL_* numeric values are not modelled. They are defined in a header that is
  not part of this model, so they are named constants only.
- The newer `TAPValidator` / `CallValidator` methods, whose bodies are not shown,
  are not modelled.
- `RapFileModel.OctetStringFromInt64` requires 0 <= value < 2^63. For a negative
  value the shifted value never reaches 0, so the loop ends with i == -1.
  RAPFile.cpp:51 then reads buf[-1], line 55 writes buf[-2] when that byte is
  >= 0x80, and line 58 copies 9 or 10 bytes from below the buffer. The copy at
  TAPValidator.cpp:88-111 behaves the same way. No caller passes a negative
  value.
- `RapFileModel.RapFile.Initialize` requires that no batch exists yet. A second
  successful call would replace the batch but keep the totals.
- `RapFileModel.RapFile.AddReturnDetail` does not model a 64-bit wrap of the
  running total. The total is an unbounded integer, so overflow of the `long long`
  is out of scope.
- `RapFileModel.RapFile.Finalize` and `RapFileModel.RapFile.LoadToDB` require
  0 <= total < 2^63. Outside that range, the encoder's behaviour is the excluded
  negative case above.
- `TapValidatorModel.ValidateTransferBatch` requires the sender, the recipient and
  the file sequence number when the audit section is missing. The source
  dereferences them without a check, at TAPValidator.cpp:132-135 and 202.
- The memcpy copies at TAPValidator.cpp:132-135, 160-161 and 202-203 are
  modelled as the intended value copies of the strings. The model does not
  capture what the calls actually write:
  - At 132-135 and 202-203 the destination is an embedded OCTET_STRING_t record
    and the source is the TAP record's address. Each call copies the first
    `size` bytes of that record itself (its `buf` pointer and part of its `size`
    field), not the characters, and the sizes are crossed between sender and
    recipient. Where the copy covers the pointer and the low byte of the size,
    the destination shares the source's characters; otherwise it holds a
    truncated record.
  - At 160-161 the destination is the RAP header's `fileTypeIndicator`, which is
    a pointer field (RAPFile.cpp:132-133 assigns it the record returned by
    `OCTET_STRING_new_fromBuf`). The call writes `size` bytes of the TAP record
    over that pointer slot. For the usual one-letter indicator that is one byte
    of the TAP record's `buf` pointer, over a slot that `calloc` left zero, so
    the RAP header ends up holding an invalid pointer rather than a copy of the
    indicator. With 8 or more bytes the slot holds the TAP's character buffer
    read as a record, and the bytes beyond it overwrite the fields that follow.
  - The later free of the return batch then acts on these shared or invalid
    pointers, which the model does not capture either.
- `TapValidatorModel.FillReturnBatch` takes the RAP header values as a parameter.
  The source uses fixed placeholders, which are given as `PlaceholderParams`.
- `LoaderAudit.LoadCallEvents` does not carry the aborts that come from fields
  a `CallEventDetail` here does not hold. A call with such a field ends loading
  in the source, but the model can return TL_OK for it. These aborts are:
  - "e_wrong_rec_entity_code" from `GetRecordingEntity`, raised at
    TAP3.12c.cpp:240 and reached from 517, 663, 857 and 869;
  - "e_wrong_ex_rate_code" from `GetExRate`, raised at 261 and reached from 352;
  - "8-byte integer overflow" from decoding the tax value (372), the discount
    (391), the chargeable and charged units (422, 427), the charging id (853) and
    the data volumes (904-905).
- `LoaderAudit.AddChargeDetails` does not model the INSERT-time decoding of
  every charge, at TAP3.12c.cpp:419. That decoding also runs for charges that
  are not "00", and for details without a charge. The model decodes billable
  charges only. So a non-"00" charge longer than 8 bytes, which the source
  rejects there, passes in the model.
- `LoaderCodec.AssignIntegerOption` models `std::stoi` in the C locale only.
  Its white space is space, tab, newline, vertical tab, form feed and carriage
  return, and its digits are ASCII digits.
- `LoaderMain.ClassifyFile`: the case-insensitive comparison is modelled for
  ASCII letters only.

## Findings

| source | as written | input that shows it | evidently intended | confidence | as-written member | corrected member |
|---|---|---|---|---|---|---|
| Tests/ConfigContainer.cpp:36-40 | the last character of the OUTPUT_DIRECTORY value is read before checking that the value is non-empty, so an empty value reads `option_value[-1]` | a configuration line `OUTPUT_DIRECTORY` with no value (or `OUTPUT_DIRECTORY =`) | remove one trailing '\\' when there is one, and store an empty value as empty | high (not executed) | `ConfigContainer.OutputDirectoryAsWritten` (`ConfigContainer.OutputDirectoryWithoutValue`) | `ConfigContainer.StripTrailingSeparator` (`ConfigContainer.StripTrailingSeparatorCorrect`) |
