# KeyPad-ESP32 device link, in Dafny

A model of the parts of the KeyPad-ESP32 macro keypad that move bytes between
the browser control panel, the ESP32 and the ATmega display controller, and of
the small state machines that turn key presses and encoder turns into HID
reports. Each source component is one Dafny module:

- `WebFraming`, `WebLink`, `WebOta`, `WebHelpers`, `WebProfiles`,
  `WebMessages`, `JsonText` — the browser panel, `public/scripts/main.js`: the
  serial reader's line framing with its carry buffer, the `DeviceLink`
  connection state with the BLE write path (800 ms throttle, FIFO job chain,
  20-byte chunks, lost-link handling), the USB write, the configuration and
  back-light send after connecting (400 ms debounce, 8 s poll pause), `disconnectFromESP32`, the
  status-poll gate, the OTA sender (256-byte chunks, base64, the 512-byte
  message ceiling, start/chunk/end order, progress), `compareVersions`,
  `formatKeyLabel`, `ensureProfiles`, `switchToNextProfile` and the inbound
  message routing.
- `PySerial`, `PyHid`, `PyKeypad` — the MicroPython firmware,
  `firmware/esp32_micropython/main.py`: USB-serial and per-connection BLE line
  reassembly, connection cleanup, the advertising payload, HID reports for
  `press`, LED brightness, the keymap update from the web page, the message
  dispatch with the OTA receiver's globals and replies, the matrix debounce and the encoder step counter.
- `AtmegaUart`, `AtmegaFormat`, `AtmegaDisplay` — the ATmega firmware,
  `firmware/atmega/atmega_light/main.cpp`: the UART receive interrupt, the
  command parser `processUartCommand` with its length-prefixed fields and
  image-chunk state, the decimal and hex printers, and the rectangle and
  progress-bar arithmetic of the ST7789 driver.
- `EspHid`, `EspEncoder`, `EspKeyMatrix` — the ESP32 C++ modules under
  `firmware/esp32/esp32_micropython/`: the symbol to keycode lookup on the
  Keyboard/Keypad usage page (page 0x07, section 10 of the USB HID Usage
  Tables 1.12), the repeat policy and report sequences, the Gray-code encoder
  with its noise filter and button debounce, and the key matrix scan with
  debounce and autorepeat.
- `Common` — bytes, fixed-width integers, UTF-8 encoding, decimal digits and
  splitting a stream at a separator.

Code that changes state step by step is modelled as classes and methods with
loops (`DeviceLink`, `BleKeyboard`, the ATmega `Controller`, `HidOutput`,
`Encoder`, `KeyMatrix`), each method proved against a specification function
whose properties are lemmas. Lookups and formatting are functions. Time is a
parameter: the browser clock is a `nat`, `millis()` on the ESP32 is 32 bits
wide with wrapping differences, and MicroPython's `ticks_ms` wraps at 2^30.
Pin readings are inputs, callbacks and transmitted bytes are recorded as
sequences, and `await`/`setTimeout` are sequential steps.

## Model

| member | source | states |
|---|---|---|
| `Common.ElapsedU32Wraps` | firmware/esp32/esp32_micropython/KeyMatrix.cpp:34 | the difference of two `unsigned long` stamps is `now - since` modulo 2^32, and adding it back to `since` gives `now` |
| `Common.Utf8CharRoundTrip` | public/scripts/main.js:2693 | the UTF-8 bytes `TextEncoder` gives for one character decode back to its code point |
| `Common.Utf8Append` | public/scripts/main.js:2693 | the UTF-8 encoding of two strings joined is the two encodings joined |
| `Common.Utf8Ascii` | public/scripts/main.js:2153 | an ASCII string encodes to one byte per character, each equal to the character code |
| `Common.DecimalRoundTrip` | firmware/atmega/atmega_light/main.cpp:142-155 | the decimal digits of n, read back, give n |
| `Common.DecimalLength` | firmware/atmega/atmega_light/main.cpp:142-155 | a number below 10^k has at most k digits |
| `Common.PiecesJoin` | public/scripts/main.js:985 | joining the pieces of a split with the separator gives back the input |
| `Common.PiecesAppend` | public/scripts/main.js:985-986 | splitting a buffer after more input arrives gives the lines closed so far, then the split of the carried rest with the new input |
| `Common.ChunksFlatten` | public/scripts/main.js:2139-2142 | the chunks of a file, put back together, are the file |
| `Common.ChunksCount` | public/scripts/main.js:2114 | a file of n bytes is cut into ceil(n / size) chunks |
| `Common.ChunkAt` | public/scripts/main.js:2140-2142 | chunk i is the bytes from `i * size` to `min(start + size, fileSize)` |
| `WebFraming.TrimStart` | public/scripts/main.js:989 | the result is a suffix of the line; every character dropped is ECMAScript white space or a line terminator, and the first one kept is not |
| `WebFraming.TrimEnd` | public/scripts/main.js:989 | the result is a prefix of the line; every character dropped from the end is trimmable, and the last one kept is not |
| `WebFraming.TrimEmptyIffBlank` | public/scripts/main.js:989 | `line.trim().length > 0` fails exactly when every character of the line is trimmable (both directions) |
| `WebFraming.DropCR` | public/scripts/main.js:985 | a piece of `split(/\r?\n/)` is the closed line with at most one trailing carriage return removed |
| `WebFraming.JsSplitLines` | public/scripts/main.js:985-986 | `split(/\r?\n/)` gives the closed lines (CR stripped) followed by the unterminated remainder, which `pop()` takes as the new buffer |
| `WebFraming.NonBlank` | public/scripts/main.js:988-989 | the lines handed on are at most the lines read, and none of them is blank |
| `WebFraming.NonBlankAppend` | public/scripts/main.js:988-989 | filtering blank lines commutes with concatenation, so lines keep their order |
| `WebFraming.FramesAppend` | public/scripts/main.js:981-986 | reading `x` then `y` delivers the frames of `x` followed by those of the carried tail plus `y`, and the final buffer is the tail of the whole text: carrying the buffer loses and duplicates nothing |
| `WebFraming.DataCount` | public/scripts/main.js:972-978 | the loop consumes exactly the leading data reads; the read after them, if any, is the end of the stream or a failure |
| `WebFraming.TakeLines` | public/scripts/main.js:981-1002 | one data read passes on exactly the non-blank closed lines of buffer plus text, in order, and leaves as buffer the text after the last line feed |
| `WebFraming.SerialReader` | public/scripts/main.js:965-1011 | the whole read loop delivers exactly the frames of the text received before the stream ended or a read failed, keeps its unterminated tail as buffer, and asks for a disconnect exactly when the failure is a `NetworkError` or `InvalidStateError` |
| `WebFraming.NoLineFeed` | public/scripts/main.js:985-986 | text without a line feed delivers no frame and is carried whole |
| `WebFraming.OneFrame` | public/scripts/main.js:985-989 | a single non-blank line ended by LF or CR LF yields exactly one frame, without the CR |
| `WebFraming.SplitLineDeliveredOnce` | public/scripts/main.js:981-989 | a line split across two reads delivers nothing after the first read and exactly one frame once its line feed arrives |
| `WebLink.BleSlices` | public/scripts/main.js:2694-2701 | a payload of at most 20 bytes is written whole, in one write; otherwise every slice is at most 20 bytes |
| `WebLink.BleSlicesShape` | public/scripts/main.js:2695-2701 | the slices concatenated in order are exactly the encoded payload, there are ceil(n/20) of them, and slice k is bytes [20k, min(20k+20, n)) |
| `WebLink.BleSliceAt` | public/scripts/main.js:2698-2700 | the loop offset i = 20k is inside the payload exactly while slice k exists, and `i + 20 < length` holds exactly when slice k is not the last one, which is when the 30 ms pause is taken |
| `WebLink.Payload` | public/scripts/main.js:2673-2693 | the bytes sent are the UTF-8 encoding of `data + '\n'`, so they are never empty and end in a line feed |
| `WebLink.RunSlices` | public/scripts/main.js:2695-2705 | a job makes at most one write request per slice, and time never goes backwards |
| `WebLink.RunSlicesWrites` | public/scripts/main.js:2695-2705 | a job with no rejection writes every slice in order, all accepted, and the bytes written concatenate to the payload; a rejected write ends the job after a prefix of the slices; every write is a BLE write made no earlier than the job's start |
| `WebLink.RunSlicesSpacing` | public/scripts/main.js:2699-2700 | consecutive slices of one job are separated by the earlier write's duration plus the 30 ms pause |
| `WebLink.BleWrites` | public/scripts/main.js:2693-2702 | the `for` loop over offsets 0, 20, 40, … makes exactly the writes of the slicing specification, with the pause between slices and none after the last |
| `WebLink.WriteWhole` | public/scripts/main.js:2695-2696 | a payload of at most 20 bytes is written in one request |
| `WebLink.WriteSlice` | public/scripts/main.js:2699-2700 | one loop iteration is one step of the slicing specification: the slice write, then the pause unless it was the last slice, and a rejection ends the job |
| `WebLink.LinkLostMeansDisconnected` | public/scripts/main.js:2708-2709 | the "lost link" test holds exactly when `message + name` contains "disconnected"; its second alternative adds nothing |
| `WebLink.GetLightPayload` | public/scripts/main.js:2774 | the poll request `{"type":"get_light"}` plus its line feed is 21 bytes |
| `WebLink.DeviceLink.constructor` | public/scripts/main.js:75-78 | the page starts disconnected, with an empty BLE chain, `lastBleWriteTime = 0` and no poll pause |
| `WebLink.DeviceLink.PauseStatusUpdatesUntil` | public/scripts/main.js:81-83 | the pause becomes max(old, t): it never moves earlier, and nothing else changes |
| `WebLink.DeviceLink.StartStatusUpdates` | public/scripts/main.js:2758-2762 | the poll interval is armed (re-armed if it was) and nothing else changes, the request log included |
| `WebLink.DeviceLink.Disconnect` | public/scripts/main.js:885-942 | whatever the start state, the link ends disconnected with no connection type, no port, no BLE device or characteristic, the light level cleared, the BLE chain reset and the poll interval cleared; time, the write log, the request log, `lastBleWriteTime`, the poll pause and the ambient-brightness flag are untouched, so a second call changes nothing and nothing is raised |
| `WebLink.DeviceLink.GattServerDisconnected` | public/scripts/main.js:740-753 | a drop signalled by the device leaves the link disconnected, the BLE fields and chain cleared and the poll interval stopped; the serial port, time, the write log, the request log and the poll pause are untouched |
| `WebLink.DeviceLink.SendUsb` | public/scripts/main.js:2670-2678 | with a writable port, exactly one write of `data + '\n'` is made; with none, nothing is written; a rejected write leaves the writer locked, after which no USB write is made; the request log is the caller's to extend |
| `WebLink.DeviceLink.BeginBleSend` | public/scripts/main.js:2680-2690 | nothing is queued without a characteristic and a connected GATT server; otherwise the caller first waits until 800 ms have passed since `lastBleWriteTime` and then appends its job at the end of the chain; the request log is untouched |
| `WebLink.DeviceLink.WriteBleSlices` | public/scripts/main.js:2693-2702 | the job's writes are appended to the device log exactly as the slicing specification says, and time advances to the end of the last write; the request log is untouched |
| `WebLink.DeviceLink.RunNextBleJob` | public/scripts/main.js:2690-2719 | the oldest job leaves the chain; a job that finds the link down writes nothing; otherwise it makes the specified writes, `lastBleWriteTime` moves to their end only when all were accepted, and a rejection mentioning "disconnected" marks the link down and stops the poll interval; the request log is untouched |
| `WebLink.DeviceLink.DrainBleQueue` | public/scripts/main.js:2690-2720 | the chain is run to the end in FIFO order; it can only take the link down, never up, and leaves the request log untouched |
| `WebLink.DeviceLink.ThrottledRun` | public/scripts/main.js:2684-2687 | a job started after the throttle wait makes no write earlier than 800 ms after the previous successful job |
| `WebLink.DeviceLink.SendBle` | public/scripts/main.js:2679-2720 | on an idle link the call's writes are its own job's slices, starting at the throttled time and none earlier than 800 ms after the last successful job; without a characteristic or GATT connection nothing is written; the awaited chain is empty afterwards; the request log is the caller's to extend |
| `WebLink.DeviceLink.Send` | public/scripts/main.js:2667-2734 | `sendDataToESP32` routes by connection type: one USB write, the throttled BLE job, or nothing with no connection type; it never raises and never brings the link up |
| `WebLink.DeviceLink.PollTick` | public/scripts/main.js:2762-2775 | a tick hands `get_light` to the send only when the poll is armed, the link is connected over a writable USB port, `envBrightness` is set and the pause is over, and then the request log gains it; with an unlocked writer that is one write at the current time, after which the clock moves by the write's duration and a rejected write leaves the writer locked; over BLE it never writes; the link, BLE, poll and pause state do not change |
| `WebLink.DeviceLink.Connect` | public/scripts/main.js:667-867 | on a live link the call disconnects instead; a successful opening sets the connection type and pauses polling for at least 10 s; a refused opening changes nothing; a GATT connection whose service lookup throws leaves the device recorded but the link down; after a successful opening, a link still connected at the end has requested the configuration and back-light messages in that order and holds the light-level poll off until at least 8 s after the back-light send; connecting never arms the poll interval |
| `WebLink.DeviceLink.SendConfiguration` | public/scripts/main.js:848-866 | `sendConfigToESP32` then `sendBacklightConfig`. On a page that is not connected, nothing is requested or written, no time passes and the poll pause stays. While it stays connected, both messages are requested in that order, and the light-level poll is held off until at least 8 s after the back-light send. The pause only ever moves to 8 s after the send, and the poll interval is never armed. Over USB with a writable, unlocked port, the device log gains the configuration write at once and then, unless that write was rejected, the back-light write 400 ms after the first one finished; with no such port nothing is written. On a BLE link ready to send whose configuration job succeeds, the log gains that job's slices and then the back-light job's, started 800 ms after the first job ended. The BLE device, characteristic, ambient-brightness flag and light level are kept |
| `WebLink.DeviceLink.SendBacklight` | public/scripts/main.js:2394-2417 | On a page that is not connected, nothing is requested or written and no time passes. Otherwise the message is requested once, after the 400 ms debounce, and the poll pause becomes the later of its old value and 8 s after the send. Over USB with a writable, unlocked port, the one write is made at the end of the debounce; with no such port nothing is written. On a BLE link ready to send, the job starts at the later of the debounce's end and 800 ms after the last BLE write time, and logs that job's slices. The BLE device, characteristic, ambient-brightness flag and light level are kept |
| `WebOta.B64Char` | public/scripts/main.js:2099 | a base64 digit is one plain ASCII character, never the padding `=` |
| `WebOta.B64CharValue` | public/scripts/main.js:2099 | every base64 digit character reads back as its value |
| `WebOta.B64Group` | public/scripts/main.js:2099 | one to three bytes encode to exactly four base64 characters |
| `WebOta.Base64` | public/scripts/main.js:2093-2100 | `btoa` of a chunk is 4·ceil(n/3) characters of ASCII base64 text |
| `WebOta.DecodeGroup3` | public/scripts/main.js:2099 | a full four-character group decodes to its three bytes, followed by the decoding of the rest |
| `WebOta.Base64RoundTrip` | public/scripts/main.js:2143-2148 | decoding the base64 text of any chunk gives back exactly the chunk's bytes |
| `WebOta.PlainLength` | public/scripts/main.js:2152 | base64 text serialises as a JSON string of its length plus the two quotes, in ASCII |
| `WebOta.ChunkTextAscii` | public/scripts/main.js:2152 | a serialised `ota_chunk` message is pure ASCII |
| `WebOta.ChunkTextSize` | public/scripts/main.js:2152-2153 | the UTF-8 length of a chunk message is 54 bytes of framing plus the decimal digits of the index plus the base64 text |
| `WebOta.ChunkFits` | public/scripts/main.js:2155 | a chunk of at most 256 bytes always gives a message within 512 bytes unless its index has more than 114 digits |
| `WebOta.FitCount` | public/scripts/main.js:2139-2157 | the number of chunk messages sent lies between the start index and the chunk count |
| `WebOta.Progress` | public/scripts/main.js:2161 | the progress is `round((i+1)·100/total)`: the integer nearest to it, halves rounding up |
| `WebOta.ProgressValues` | public/scripts/main.js:2161-2164 | one progress value per chunk sent, the k-th being the progress after chunk k |
| `WebOta.ChunkMessageOf` | public/scripts/main.js:2140-2152 | the message built for chunk i carries index i and the base64 of bytes [256i, min(256i+256, size)) |
| `WebOta.PerformOtaUpdate` | public/scripts/main.js:2103-2169 | the transfer sends `ota_start`, then chunk messages in index order up to the first one over 512 bytes, which is not sent and ends the transfer, then `ota_end` only if every chunk went out; one progress value per chunk sent; the link's request log gains exactly the messages returned, in that order |
| `WebOta.SendChunks` | public/scripts/main.js:2139-2167 | the chunk loop sends the chunk messages in index order up to the first one over 512 bytes, which is not sent; it completes exactly when every chunk fits, with one progress value per chunk sent; the link's request log gains exactly those chunk messages |
| `WebOta.OtaChunks` | public/scripts/main.js:2113-2142 | the chunks concatenate to the file, there are ceil(size/256) of them, chunk k is bytes [256k, min(256k+256, size)), and the last holds size − 256·(total−1) bytes |
| `WebOta.ChunkSlices` | public/scripts/main.js:2139-2142 | chunk i starts inside the file at byte 256·i and runs to min(256·i + 256, size) |
| `WebOta.LastChunkSize` | public/scripts/main.js:2113-2114 | there is at least one chunk for a non-empty file and the last holds size − 256·(total−1) bytes |
| `WebOta.OtaOrder` | public/scripts/main.js:2128-2169 | `ota_start` with the size and chunk count comes first, then the chunk messages by increasing index, and `ota_end` comes last exactly when the transfer completed, after all ceil(size/256) chunks |
| `WebOta.ChunkMessagesAt` | public/scripts/main.js:2139-2159 | the k-th chunk message sent is the message of chunk k |
| `WebOta.OtaNoOversize` | public/scripts/main.js:2153-2157 | every chunk message sent is at most 512 bytes, and where the transfer stops early the next message is over 512 |
| `WebOta.OtaCompletes` | public/scripts/main.js:2139-2169 | every file of fewer than 256·10^114 bytes is sent whole: the size guard never fires |
| `WebOta.ProgressAtMost100` | public/scripts/main.js:2161 | the progress shown never exceeds 100 |
| `WebOta.ProgressMonotone` | public/scripts/main.js:2161 | the progress shown never goes down from one chunk to the next |
| `WebOta.ProgressLast` | public/scripts/main.js:2161 | after the last chunk the progress is exactly 100 |
| `JsonText.EscapeChar` | public/scripts/main.js:2152 | `JSON.stringify` escapes exactly the quote, the backslash and the control characters, and leaves every other character as itself |
| `JsonText.QuoteRoundTrip` | public/scripts/main.js:2152 | the escaped body of any string reads back as that string, so no message text is lost in serialisation |
| `JsonText.QuotePlain` | public/scripts/main.js:2152 | plain ASCII text is quoted without any escape |
| `JsonText.MembersLength` | public/scripts/main.js:2152-2153 | the length of a serialised object is the sum of its braces, commas, colons, quoted keys and values |
| `WebHelpers.LeadingDigits` | public/scripts/main.js:2083 | the digits `parseInt` reads are the longest all-digit prefix of the part |
| `WebHelpers.VersionParts` | public/scripts/main.js:2083-2084 | splitting a version at dots always gives at least one part; an empty version reads as "0" |
| `WebHelpers.CompareFrom` | public/scripts/main.js:2085-2089 | the comparison from part i on is always −1, 0 or 1 |
| `WebHelpers.CompareVersions` | public/scripts/main.js:2082-2090 | the loop returns the sign of the first part where the two versions differ, a missing part counting as 0, and 0 when none differs |
| `WebHelpers.CompareAntisymmetric` | public/scripts/main.js:2085-2088 | swapping the two versions negates the result |
| `WebHelpers.CompareZeroIff` | public/scripts/main.js:2085-2089 | two versions compare equal exactly when they agree part by part once padded with zeros (both directions) |
| `WebHelpers.CompareTransitive` | public/scripts/main.js:2085-2088 | newer than newer is newer |
| `WebHelpers.TrailingZero` | public/scripts/main.js:2083-2089 | a trailing ".0" adds a zero part and compares equal: "1.2" and "1.2.0" are the same version |
| `WebHelpers.PartValue` | public/scripts/main.js:2083 | a part written in decimal parses as its value |
| `WebHelpers.DisplayNames` | public/scripts/main.js:519-520 | each modifier is shown by its display name (Ctrl, Shift, Alt, Win) or as itself, in order |
| `WebHelpers.ShownValue` | public/scripts/main.js:521 | a one-character value is capitalised and longer values are kept, so the length is unchanged |
| `WebHelpers.FormatKeyLabel` | public/scripts/main.js:515-525 | a key label is never empty |
| `WebHelpers.KeyLabelSplits` | public/scripts/main.js:518-522 | a key with modifiers and a value splits at its `+` signs back into the modifier display names, in order, followed by the shown value |
| `WebHelpers.KeyLabelCases` | public/scripts/main.js:516-524 | an unset key reads "Non configuré", a macro key "Macro", and a key without modifiers its value or "—" when the value is empty |
| `WebProfiles.Put` | public/scripts/main.js:89-91 | after `obj[k] = v` the member k holds v |
| `WebProfiles.PutOther` | public/scripts/main.js:89-91 | assigning one member leaves every other member as it was |
| `WebProfiles.PutNames` | public/scripts/main.js:89-90 | assigning an existing member keeps the enumeration order; a new member goes last |
| `WebProfiles.Remove` | public/scripts/main.js:95-99 | after `delete obj[k]` the member k is gone |
| `WebProfiles.RemoveOther` | public/scripts/main.js:95-99 | deleting one member leaves every other member as it was |
| `WebProfiles.AssignGet` | public/scripts/main.js:94 | after `Object.assign` a key of the old `Profil 2` overrides the `Configuration` key; every other key is the `Configuration` one |
| `WebProfiles.Prepared` | public/scripts/main.js:88-91 | the first repairs leave a non-empty table with a truthy `Configuration` profile that has keys |
| `WebProfiles.PreparedOther` | public/scripts/main.js:88-91 | on a non-empty table those repairs touch no profile other than `Configuration` |
| `WebProfiles.CleanedOther` | public/scripts/main.js:92-99 | the merge of `Profil 2` touches no profile other than `Configuration` and `Profil 2` |
| `WebProfiles.EnsuredShape` | public/scripts/main.js:87-103 | after `ensureProfiles` the table is a non-empty object; `Configuration` has keys and no `0-0`; `Profil 2` is gone; the active name is set and either names a truthy profile or is the first name (`Profil 1` when that is empty) |
| `WebProfiles.Ensured` | public/scripts/main.js:87-103 | `ensureProfiles` always leaves a non-empty profile table and a non-empty active name |
| `WebProfiles.EnsuredKeepsOthers` | public/scripts/main.js:87-103 | profiles other than `Configuration` and `Profil 2` come through unchanged |
| `WebProfiles.EnsuredMerge` | public/scripts/main.js:92-99 | every key but `0-0` of the repaired `Configuration` is the old `Profil 2` value if it had one, otherwise the old `Configuration` value |
| `WebProfiles.EnsuredKeepsActive` | public/scripts/main.js:96-102 | an active name that names a truthy profile other than `Profil 2` is kept |
| `WebProfiles.EnsuredRenamesActive` | public/scripts/main.js:96 | an active `Profil 2` that is merged away leaves `Configuration` active |
| `WebProfiles.PreparedClean` | public/scripts/main.js:88-91 | a table that already passes the first repairs is left as it is |
| `WebProfiles.CleanedClean` | public/scripts/main.js:92-99 | a table with no `Profil 2` and no `0-0` key is left as it is by the merge |
| `WebProfiles.EnsuredIdempotent` | public/scripts/main.js:87-103 | `ensureProfiles` is idempotent: a second call changes nothing |
| `WebProfiles.IndexOf` | public/scripts/main.js:2802 | `indexOf` returns the first position holding the active name, or −1 when no name is equal to it |
| `WebProfiles.SettledFixed` | public/scripts/main.js:87-103 | `ensureProfiles` leaves a settled table alone |
| `WebProfiles.SwitchSteps` | public/scripts/main.js:2798-2809 | on a settled table the profile key activates the next profile in enumeration order, wrapping from the last to the first; nothing else changes and the table stays settled |
| `WebProfiles.NextIndex` | public/scripts/main.js:2803 | `(i + 1) % n` is the next index, wrapping to 0 |
| `WebProfiles.ProfileBook.constructor` | public/scripts/main.js:87 | the page state starts with the given table and active name |
| `WebProfiles.ProfileBook.EnsureProfiles` | public/scripts/main.js:87-103 | the in-place repairs, one after the other, produce exactly the repaired table and active name of the specification |
| `WebProfiles.ProfileBook.SwitchToNextProfile` | public/scripts/main.js:2798-2809 | the switch is a repair, a step to the next name, then the repair done by `switchProfile` |
| `WebMessages.DisplayKeyIdShape` | public/scripts/main.js:1059-1060 | exactly the keys 2-3, 4-2 and 4-3 flash another grid key (both directions); the remap is idempotent and never yields one of those three ids |
| `WebMessages.SkipSpaces` | public/scripts/main.js:1086 | the regular expression's greedy `\s*` skips exactly the white space that follows |
| `WebMessages.LightMatchAt` | public/scripts/main.js:1086 | a match of `[LIGHT]\s*Level:\s*(\d+)` captures a non-empty run of decimal digits |
| `WebMessages.FindLevel` | public/scripts/main.js:1086-1087 | the leftmost match anywhere in the text captures a non-empty run of digits |
| `WebMessages.HandleKeepsLevel` | public/scripts/main.js:1050-1099 | only the `light` and `uart_log` cases change the remembered light level, and a message that throws leaves it alone |
| `WebMessages.LightRemembered` | public/scripts/main.js:1073-1078 | a `light` message with a level is always remembered; it is shown exactly when it is not strictly equal to the level remembered before |
| `WebMessages.LightDeduplicated` | public/scripts/main.js:1074 | the same number, string, boolean or null sent twice is shown once; an array or object is shown every time, because `!==` compares them by identity |
| `WebMessages.UartLevelBounded` | public/scripts/main.js:1080-1093 | a `uart_log` message always writes its monitor line first; a level it takes from the text is an integer in 0..1023 and is shown |
| `WebMessages.UartNonStringThrows` | public/scripts/main.js:1081-1086 | a truthy `msg` that is not a string reaches the monitor and then makes `msg.match` throw, with the remembered level unchanged |
| `WebMessages.LightLineMatches` | public/scripts/main.js:1086 | the firmware's debug line `[LIGHT] Level: NNN` is matched, and the captured digits are those of NNN |
| `WebMessages.UartLightLine` | public/scripts/main.js:1080-1093 | a `uart_log` message carrying `[LIGHT] Level: n` with n ≤ 1023 remembers and shows n |
| `WebMessages.KeypressFlashes` | public/scripts/main.js:1056-1066 | a key press flashes the grid key named `row-col`, after the remap, and changes nothing else |
| `WebMessages.NonObjectMessages` | public/scripts/main.js:1051-1097 | `null` throws on `data.type`; any other value that is not an object is logged as an unknown type |
| `WebMessages.Handle` | public/scripts/main.js:1050-1099 | a message produces at most two effects on the page; it throws exactly when it is `null`, and then has no effect |
| `PySerial.StripStartCut` | firmware/esp32_micropython/main.py:304-305 | the left cut of `strip()` drops a prefix made only of white space and keeps a suffix that is empty or starts with a character other than white space |
| `PySerial.StripEndCut` | firmware/esp32_micropython/main.py:304-305 | the right cut of `strip()` drops a suffix made only of white space and keeps a prefix that is empty or ends with a character other than white space |
| `PySerial.StripSlice` | firmware/esp32_micropython/main.py:304-305 | a stripped line is a slice of the line with only white space cut off at each end |
| `PySerial.StripCuts` | firmware/esp32_micropython/main.py:304-305 | cutting leading white space and then trailing white space leaves a slice with only white space outside it and non-blank characters at both of its ends |
| `PySerial.StripBlank` | firmware/esp32_micropython/main.py:304 | a line strips to nothing exactly when it is all white space (both directions) |
| `PySerial.StripIdempotent` | firmware/esp32_micropython/main.py:305 | stripping twice is stripping once |
| `PySerial.ClosedAppend` | firmware/esp32_micropython/main.py:299-302 | splitting the buffer plus new text closes the lines of the old text, then those of its tail followed by the new text; the tail is the tail of the whole |
| `PySerial.SerialMessages` | firmware/esp32_micropython/main.py:303-305 | at most one message per closed line |
| `PySerial.SerialMessagesAppend` | firmware/esp32_micropython/main.py:303-305 | the messages of two runs of lines are those of the first followed by those of the second: order is kept |
| `PySerial.UsbSerial.constructor` | firmware/esp32_micropython/main.py:280-286 | the serial buffer starts empty |
| `PySerial.UsbSerial.ReadSerial` | firmware/esp32_micropython/main.py:288-307 | without a poll object nothing happens; otherwise the buffer becomes the text after the last line feed and every closed non-blank line is processed, stripped, in order |
| `PySerial.ProcessLines` | firmware/esp32_micropython/main.py:303-305 | the messages processed from the closed lines are exactly the stripped non-blank lines, in order |
| `PySerial.SerialReadsCompose` | firmware/esp32_micropython/main.py:297-305 | two reads deliver what one read of both chunks would and leave the same buffer, so reading one character at a time loses nothing and duplicates nothing |
| `PySerial.SerialTail` | firmware/esp32_micropython/main.py:300-302 | the buffer never holds a line feed, and input without one processes nothing and is kept whole |
| `PySerial.Utf8OkChar` | firmware/esp32_micropython/main.py:536 | the UTF-8 encoding of one character passes the decoder's check |
| `PySerial.Utf8Encoded` | firmware/esp32_micropython/main.py:536 | any text the page encodes decodes without error |
| `PySerial.Utf8NoLineFeed` | firmware/esp32_micropython/main.py:532-533 | text without a line feed encodes without the byte 10, so a multi-byte character is never cut at a line boundary |
| `PySerial.StripStartBytesCut` | firmware/esp32_micropython/main.py:536 | the leading white space of a decoded line is cut off, only white space is cut, and the first other byte is kept |
| `PySerial.StripEndBytesCut` | firmware/esp32_micropython/main.py:536 | the trailing white space of a decoded line is cut off, only white space is cut, and the last other byte is kept |
| `PySerial.LineMessage` | firmware/esp32_micropython/main.py:534-538 | a closed line gives at most one message: none when it is empty or blank |
| `PySerial.BleMessages` | firmware/esp32_micropython/main.py:532-541 | at most one message per closed line |
| `PySerial.Kept` | firmware/esp32_micropython/main.py:535-541 | a non-empty line that fails to decode gives no message; any other line gives its stripped text unless blank |
| `PySerial.BleMessagesAppend` | firmware/esp32_micropython/main.py:532-538 | the messages of two runs of lines are those of the first followed by those of the second |
| `PySerial.FirstUndecodable` | firmware/esp32_micropython/main.py:532-541 | every line before the returned index is empty or decodes, and the line at it, if any, is non-empty and does not decode |
| `PySerial.BleKeyboard.constructor` | firmware/esp32_micropython/main.py:523-524 | no connection and no buffer at start |
| `PySerial.BleKeyboard.CentralConnect` | firmware/esp32_micropython/main.py:470-471 | a connection adds its handle to both the HID and the serial connection sets |
| `PySerial.BleKeyboard.CentralDisconnect` | firmware/esp32_micropython/main.py:494-500 | a disconnect removes that handle from `_conns`, `_serial_conns` and `_serial_buffer`, and leaves every other connection's buffer untouched |
| `PySerial.BleKeyboard.GattsWrite` | firmware/esp32_micropython/main.py:516-551 | as written: a write to another characteristic changes nothing; otherwise the bytes join that handle's buffer only, the closed lines are processed in order up to the first undecodable one, and the tail is stored only when no line failed |
| `PySerial.BleKeyboard.GattsWriteSkipping` | firmware/esp32_micropython/main.py:516-551 | corrected: the fragment joins that handle's buffer only, each closed non-empty line that decodes is processed once, stripped, in order, undecodable lines are skipped, and the remainder stays in that handle's buffer |
| `PySerial.WriteAsWritten` | firmware/esp32_micropython/main.py:527-547 | as written, a write either leaves the text after the last line feed as the buffer, or, when some non-empty closed line does not decode as UTF-8, keeps the whole buffered text |
| `PySerial.WriteSkipping` | firmware/esp32_micropython/main.py:527-547 | corrected: a write always leaves exactly the text after the last line feed as the buffer, which holds no line feed |
| `PySerial.SplitLines` | firmware/esp32_micropython/main.py:532-547 | the `while b'\n' in buffer` loop processes the decodable lines before the first undecodable one, reports a failure exactly when there is one, and otherwise leaves the text after the last line feed |
| `PySerial.SplitLinesSkipping` | firmware/esp32_micropython/main.py:532-547 | the loop with undecodable lines skipped processes the messages of every closed line and leaves the text after the last line feed |
| `PySerial.FragmentsCompose` | firmware/esp32_micropython/main.py:523-547 | two writes on one connection deliver what one write of both fragments would and leave the same buffer |
| `PySerial.ReassembledWhole` | firmware/esp32_micropython/main.py:523-547 | however a text is cut into writes, the connection delivers the lines of the whole text, each once and in order, and keeps its tail |
| `PySerial.PageMessageOverBle` | firmware/esp32_micropython/main.py:516-547 | a line the page sends over BLE, UTF-8 encoded and cut into 20-byte writes, is processed exactly once, stripped, and leaves the connection's buffer empty |
| `PySerial.OneLineWrite` | firmware/esp32_micropython/main.py:527-541 | one write holding a line and its line feed processes that line, stripped, and leaves the buffer empty |
| `PySerial.PageMessageDecodes` | firmware/esp32_micropython/main.py:532-547 | when the buffered bytes and the new line decode, the handler as written agrees with the corrected one |
| `PySerial.UndecodableLineReplays` | firmware/esp32_micropython/main.py:539-551 | counterexample: after the write `61 0A FF 0A` the handler as written keeps the whole buffer, so the line `a` is processed again by every later write, while the corrected handler processes it once and empties the buffer |
| `PyHid.AdvertisingPayloadShape` | firmware/esp32_micropython/main.py:605-632 | the payload exists exactly when the encoded name fits a length octet; it is well-formed advertising data of at most 31 octets holding the flags, the name (whole when it has at most 22 octets, else its first 22) and the HID service UUID |
| `PyHid.AdvertisingPayload` | firmware/esp32_micropython/main.py:605-632 | a payload exists exactly when the UTF-8 name is at most 254 octets; it is at most 31 octets and starts with the flags structure |
| `PyHid.CutNameMarkedComplete` | firmware/esp32_micropython/main.py:623-630 | as written, a name of more than 22 octets is cut but still carried as a Complete Local Name; the corrected payload carries the same cut as a Shortened Local Name |
| `PyHid.ShortenedNameMarked` | firmware/esp32_micropython/main.py:605-632 | the corrected payload is well-formed, at most 31 octets, marks the name complete exactly when it is whole, and equals the firmware's payload for a whole name |
| `PyHid.KeyboardReport` | firmware/esp32_micropython/main.py:634-639 | a keyboard input report is nine octets |
| `PyHid.Notifications` | firmware/esp32_micropython/main.py:634-648 | the report goes to exactly the connected HID centrals, none when there are none |
| `PyHid.PressReports` | firmware/esp32_micropython/main.py:684-699 | a symbol without a key code sends nothing; `+` and `*` hold Left Shift over the `=` and `8` keys; every other known symbol goes out unmodified in the first key slot, the other slots empty |
| `PyHid.KeyCodeDomain` | firmware/esp32_micropython/main.py:361-373 | exactly the sixteen keypad symbols have key codes, each between 0x1E and 0x38 |
| `PyHid.ConsumerReport` | firmware/esp32_micropython/main.py:664 | a consumer-control report is three octets starting with report id 2 |
| `PyHid.ConsumerReportRoundTrip` | firmware/esp32_micropython/main.py:659-682 | the usage reads back little-endian from its report, and the release that follows is the report of usage 0 |
| `PyKeypad.TicksDiff` | firmware/esp32_micropython/main.py:1194 | `time.ticks_diff` lies in [-2^29, 2^29) and equals the plain difference modulo the 2^30 tick period |
| `PyKeypad.TicksDiffElapsed` | firmware/esp32_micropython/main.py:1194 | across less than half a period the wrapped difference is the real elapsed time, also when the counter wrapped |
| `PyKeypad.PyInt` | firmware/esp32_micropython/main.py:808 | `int()` of a string succeeds only when the string holds a digit or an underscore, and, in a string without underscores, only when it holds a digit |
| `PyKeypad.PyIntDigitRun` | firmware/esp32_micropython/main.py:808 | a run of digits and underscores reads as the number its digits spell, the underscores skipped |
| `PyKeypad.PyIntUnderscored` | firmware/esp32_micropython/main.py:808 | `int("0_1")` is 1 |
| `PyKeypad.PyIntDecimal` | firmware/esp32_micropython/main.py:808 | a number written in decimal reads back as itself |
| `PyKeypad.InitialKeymap` | firmware/esp32_micropython/main.py:41-47 | the start-up keymap is five rows of four cells, every set cell truthy |
| `PyKeypad.KeyCell` | firmware/esp32_micropython/main.py:808-809 | a key id that is accepted names a cell inside the 5 x 4 matrix |
| `PyKeypad.KeyCellDigitRuns` | firmware/esp32_micropython/main.py:808-809 | a key id of two digit runs joined by `-` names the cell its digits spell when that cell is on the matrix, underscores skipped |
| `PyKeypad.ApplyEntryCell` | firmware/esp32_micropython/main.py:806-817 | one `keys` entry changes at most the cell its id names, setting it to the entry's truthy `value` or to `None` |
| `PyKeypad.LastSet` | firmware/esp32_micropython/main.py:806 | the last index whose flag is set, none exactly when no flag is set |
| `PyKeypad.ApplyKeysCell` | firmware/esp32_micropython/main.py:803-817 | after the loop each cell holds the value of the last entry that targets it, and is unchanged when none does |
| `PyKeypad.UniqueTargetCell` | firmware/esp32_micropython/main.py:806-814 | when every entry naming a cell is the same entry, the cell ends with that entry's value, wherever the entry comes in the loop |
| `PyKeypad.ApplyKeysOrderFree` | firmware/esp32_micropython/main.py:806-814 | when no two different entries name one cell, any two listings of the same entries give the same keymap: the loop does not depend on the dictionary's order |
| `PyKeypad.ApplyKeysTruthy` | firmware/esp32_micropython/main.py:810-814 | only truthy values ever enter the keymap |
| `PyKeypad.ApplyKeys` | firmware/esp32_micropython/main.py:806-817 | the `keys` loop keeps the keymap five rows of four cells |
| `PyKeypad.ConfigMessageKeys` | firmware/esp32_micropython/main.py:856-863 | the configuration message carries its entries under `keys` |
| `PyKeypad.IdTextCell` | firmware/esp32_micropython/main.py:808-809 | an id `f"{r}-{c}"` written for a cell of the matrix names that cell |
| `PyKeypad.ApplySentEntry` | firmware/esp32_micropython/main.py:806-817 | applying the entry sent for a set cell leaves the keymap as it was |
| `PyKeypad.ConfigRoundTrip` | firmware/esp32_micropython/main.py:799-865 | feeding back the configuration `send_config_to_web` sends leaves the keymap unchanged |
| `PyKeypad.ReapplySent` | firmware/esp32_micropython/main.py:847-853 | re-applying the entries sent for any number of leading rows leaves the keymap unchanged |
| `PyKeypad.Clamp` | firmware/esp32_micropython/main.py:104 | the level is clamped into 0..255: unchanged inside, 0 below, 255 above |
| `PyKeypad.DutyRange` | firmware/esp32_micropython/main.py:105-107 | the PWM duty is monotone in the level, 0 for level 0 and 1023 for level 255 |
| `PyKeypad.BacklightKeepsRange` | firmware/esp32_micropython/main.py:821-836 | the back-light handler keeps the brightness in 0..255 and the duty in 0..1023 |
| `PyKeypad.BacklightSwitch` | firmware/esp32_micropython/main.py:825-834 | switching off writes duty 0 and keeps the level, switching on restores the kept level's duty, and a numeric brightness in the same message wins over both |
| `PyKeypad.BacklightRejects` | firmware/esp32_micropython/main.py:833-836 | a brightness `min` cannot compare raises before the status message, after any `enabled` member took effect |
| `PyKeypad.BacklightUpdate` | firmware/esp32_micropython/main.py:821-836 | the handler stops early only when the message has a `brightness` member; a message with neither `enabled` nor `brightness` changes nothing and runs to its end |
| `PyKeypad.ScanIndexBelow` | firmware/esp32_micropython/main.py:1183-1189 | every cell has a place among the 20 visited by one scan |
| `PyKeypad.ScanIdempotent` | firmware/esp32_micropython/main.py:1180-1204 | a second scan at the same instant with the same readings reports nothing and changes nothing |
| `PyKeypad.NothingFires` | firmware/esp32_micropython/main.py:1193-1196 | when no cell both differs and is past its debounce time, the scan changes no state |
| `PyKeypad.NoEvents` | firmware/esp32_micropython/main.py:1193-1199 | when no cell fires, the scan calls `send_key` for none |
| `PyKeypad.DebounceHolds` | firmware/esp32_micropython/main.py:1193-1196 | a key that just changed takes its new state and keeps it for the next 30 ms whatever it reads |
| `PyKeypad.EncoderAccumulates` | firmware/esp32_micropython/main.py:1216-1238 | the step counter stays within -1..1 between calls; an edge moves it by +1 or -1 after DT, and reaching +2 or -2 triggers one volume step that way and resets it; without an edge nothing moves |
| `PyKeypad.EncoderDetent` | firmware/esp32_micropython/main.py:1216-1238 | two edges in one direction from rest make exactly one volume step, on the second edge |
| `PyKeypad.EncoderButton` | firmware/esp32_micropython/main.py:1241-1251 | the button mutes exactly on a LOW reading while released and more than 200 ms after the last mute; holding it mutes nothing more and a HIGH reading releases it |
| `PyKeypad.EncoderStep` | firmware/esp32_micropython/main.py:1208-1251 | a call changes the volume by at most one step, and when it does the count is back at 0; it toggles mute only with the button held, its press recorded at this call's time |
| `PyKeypad.RouteSelects` | firmware/esp32_micropython/main.py:755-787 | a handler runs exactly when the message has at least two characters, parses as a JSON object and its `type` is that handler's string |
| `PyKeypad.RouteOf` | firmware/esp32_micropython/main.py:755-787 | a message is ignored exactly when it is shorter than two characters; a handler is chosen only for a JSON object whose `type` member is that handler's type string |
| `PyKeypad.Get` | firmware/esp32_micropython/main.py:895-897 | `data.get(key, default)` gives the member when the object has it and the default otherwise |
| `PyKeypad.OtaStart` | firmware/esp32_micropython/main.py:890-935 | `handle_ota_start` sends one or two messages; during an update it keeps the update running with its chunk count |
| `PyKeypad.OtaStartReplies` | firmware/esp32_micropython/main.py:890-935 | the handler always answers, first with a status message; it records the announced size and chunk count in every case; during an update it answers `OTA already in progress` and changes nothing else; otherwise an update runs afterwards exactly when the file name is a string and the file opens, starting with no chunk counted and ending its reply with the `started` status |
| `PyKeypad.OtaEnd` | firmware/esp32_micropython/main.py:983-1067 | `handle_ota_end` sends one or two messages; the device resets only from a running update, with the globals unchanged, and otherwise no update runs afterwards |
| `PyKeypad.OtaEndReplies` | firmware/esp32_micropython/main.py:983-1067 | the handler always answers, first with a status message; without an update it says so and changes nothing; it resets exactly when an update runs, every announced chunk was counted, the file has the announced size and the rename succeeds; the counts and announced values are kept |
| `PyKeypad.ChunkedUpdateIncomplete` | firmware/esp32_micropython/main.py:937-1013 | because the chunk handler raises before counting, an update announcing at least one chunk never completes: its `ota_end` reports it incomplete with no chunk counted and does not reset |
| `PyKeypad.WebEffect` | firmware/esp32_micropython/main.py:773-797 | only the configuration route changes the keymap, only the back-light route the light, only the two OTA routes the OTA globals; only `ota_end` resets, from a running update; the ignored, invalid, unknown and `ota_chunk` routes change and send nothing |
| `PyKeypad.SettingReplies` | firmware/esp32_micropython/main.py:799-888 | a settings handler sends at most one message, and the display, configuration request, light and status routes always send one |
| `PyKeypad.OtaReplies` | firmware/esp32_micropython/main.py:890-1067 | both OTA handlers answer, with a status message first, and send at most two messages |
| `PyKeypad.ApplyKeysStep` | firmware/esp32_micropython/main.py:806 | the loop over the first i + 1 entries is the loop over the first i followed by entry i |
| `PyKeypad.ScannedStart` | firmware/esp32_micropython/main.py:1180-1183 | before any cell is visited the state is the old state |
| `PyKeypad.ScannedStep` | firmware/esp32_micropython/main.py:1189-1199 | visiting one cell updates only that cell, as the debounce rule says |
| `PyKeypad.ScannedAll` | firmware/esp32_micropython/main.py:1183-1199 | after visiting the first k cells the state is the k-cell scan of the old state |
| `PyKeypad.SetCell` | firmware/esp32_micropython/main.py:1195-1196 | setting one cell keeps the grid's shape |
| `PyKeypad.CollectKeys` | firmware/esp32_micropython/main.py:845-853 | the double loop collects the entries of the truthy cells, row by row |
| `PyKeypad.Keypad.constructor` | firmware/esp32_micropython/main.py:41-51 | the start-up globals: the initial keymap, all keys up at time 0, the encoder at rest, brightness 128 with the light enabled |
| `PyKeypad.Keypad.SetLedBrightness` | firmware/esp32_micropython/main.py:101-108 | the level is clamped and the PWM, when set up, gets the matching duty |
| `PyKeypad.Keypad.HandleBacklightMessage` | firmware/esp32_micropython/main.py:821-836 | the back-light globals become `BacklightUpdate` of the old ones and the status message is sent only when the handler did not raise |
| `PyKeypad.Keypad.ApplyEnabled` | firmware/esp32_micropython/main.py:825-830 | the `"enabled"` member is stored and the PWM switched off, or back to the kept level, as `BacklightEnable` says; the globals stay valid |
| `PyKeypad.Keypad.HandleConfigMessage` | firmware/esp32_micropython/main.py:799-819 | the keymap becomes the configured one, or stays when `keys` is not an object; the status message is sent only then |
| `PyKeypad.Keypad.ApplyConfigKeys` | firmware/esp32_micropython/main.py:806-817 | the loop leaves the keymap that `ApplyKeys` describes |
| `PyKeypad.Keypad.SendConfigToWeb` | firmware/esp32_micropython/main.py:844-865 | exactly one message is sent: the configuration holding the truthy cells |
| `PyKeypad.Keypad.ScanMatrix` | firmware/esp32_micropython/main.py:1180-1204 | the debounced states, change times and `send_key` calls are those of the scan specification, and every column is left HIGH |
| `PyKeypad.Keypad.ScanColumn` | firmware/esp32_micropython/main.py:1189-1199 | the row loop for one column visits its five cells and reports their events in row order |
| `PyKeypad.Keypad.HandleEncoder` | firmware/esp32_micropython/main.py:1208-1251 | the encoder globals and the triggered actions are those of `EncoderStep` |
| `PyKeypad.Keypad.TurnEncoder` | firmware/esp32_micropython/main.py:1214-1238 | the CLK globals, the count and the volume direction are those of the rotation half of `EncoderStep` (`EncoderRead`, then `EncoderVolume`) |
| `PyKeypad.Keypad.PressEncoder` | firmware/esp32_micropython/main.py:1240-1251 | the switch globals and whether mute is toggled are those of the button half of `EncoderStep` (`EncoderPress`) |
| `PyKeypad.Keypad.HandleOtaStart` | firmware/esp32_micropython/main.py:890-935 | the OTA globals and the messages sent are those of `OtaStart` |
| `PyKeypad.Keypad.HandleOtaEnd` | firmware/esp32_micropython/main.py:983-1067 | the OTA globals, the messages sent and whether the device resets are those of `OtaEnd` |
| `PyKeypad.Keypad.HandleOta` | firmware/esp32_micropython/main.py:786-791 | the OTA routes leave the globals, messages and reset that `WebEffect` gives |
| `PyKeypad.Keypad.ApplySetting` | firmware/esp32_micropython/main.py:773-785 | the settings routes leave the keymap, light and messages that `WebEffect` gives, and keep the globals valid |
| `PyKeypad.Keypad.ProcessWebMessage` | firmware/esp32_micropython/main.py:755-797 | the message is routed as `RouteOf` says, and the keymap, light, OTA globals, messages sent and reset are exactly those `WebEffect` gives for that route |
| `PyKeypad.Keypad.Dispatch` | firmware/esp32_micropython/main.py:773-797 | each route runs exactly its handler: the keymap, light, OTA globals, messages sent and reset are those `WebEffect` gives |
| `AtmegaUart.Store` | firmware/atmega/atmega_light/main.cpp:1180-1181 | `memcpy` then a NUL: the field starts with the copied bytes, a NUL follows, and its size is unchanged |
| `AtmegaUart.TextField` | firmware/atmega/atmega_light/main.cpp:1177-1184 | a text field keeps its declared size |
| `AtmegaUart.HeadFields` | firmware/atmega/atmega_light/main.cpp:1172-1202 | the first four display fields keep the text arrays at their sizes |
| `AtmegaUart.TailFields` | firmware/atmega/atmega_light/main.cpp:1203-1224 | the last four display fields keep the text arrays at their sizes |
| `AtmegaUart.ClampLevel` | firmware/atmega/atmega_light/main.cpp:1247 | the log level is at most 3, unchanged when at most 3 and 3 otherwise |
| `AtmegaUart.ParseDisplayShape` | firmware/atmega/atmega_light/main.cpp:1169-1231 | reading the display data keeps every text array at its size and NUL-terminated |
| `AtmegaUart.ParseDisplay` | firmware/atmega/atmega_light/main.cpp:1169-1231 | reading the display data keeps the text arrays at their sizes; a line with no argument changes nothing; otherwise the brightness is the first argument byte |
| `AtmegaUart.TextFieldKeeps` | firmware/atmega/atmega_light/main.cpp:1177-1184 | a text field is copied from inside the line only when its length is below the capacity and at least one byte follows it, and then reads back as the sent text; otherwise it is left exactly as it was; the cursor never passes the end of the line |
| `AtmegaUart.CStringAt` | firmware/atmega/atmega_light/main.cpp:1228 | the first NUL ends the C string `strcmp` compares |
| `AtmegaUart.CommandWellFormed` | firmware/atmega/atmega_light/main.cpp:1128-1296 | every command keeps the state well formed, the log level at most 3, and leaves the buffer empty |
| `AtmegaUart.DispatchWellFormed` | firmware/atmega/atmega_light/main.cpp:1137-1291 | each case of the switch keeps the state well formed |
| `AtmegaUart.Dispatch` | firmware/atmega/atmega_light/main.cpp:1137-1291 | a command leaves the buffered line alone and only adds to what was sent and drawn |
| `AtmegaUart.Command` | firmware/atmega/atmega_light/main.cpp:1128-1296 | processing a line empties the buffer and only adds to what was sent and drawn |
| `AtmegaUart.Receive` | firmware/atmega/atmega_light/main.cpp:1299-1317 | a received byte only adds to what was sent and drawn, and a line end leaves the buffer empty |
| `AtmegaUart.ReceiveWellFormed` | firmware/atmega/atmega_light/main.cpp:1299-1317 | the receive interrupt keeps the state well formed |
| `AtmegaUart.CommandOnEmpty` | firmware/atmega/atmega_light/main.cpp:1129 | `processUartCommand` on an empty buffer changes nothing |
| `AtmegaUart.ReadLightReply` | firmware/atmega/atmega_light/main.cpp:1138-1144 | `CMD_READ_LIGHT` sends the command log, then the reply `01 lo hi 0A` from which the light level reads back, and changes nothing else |
| `AtmegaUart.ShortCommandsOnlyLog` | firmware/atmega/atmega_light/main.cpp:1154-1249 | `CMD_SET_LED`, `CMD_SET_DISPLAY_DATA`, `CMD_SET_ATMEGA_DEBUG` and `CMD_SET_ATMEGA_LOG_LEVEL` without an argument byte only log the command and empty the buffer |
| `AtmegaUart.LogLevelClamped` | firmware/atmega/atmega_light/main.cpp:1243-1251 | `CMD_SET_ATMEGA_LOG_LEVEL` stores the requested level capped at 3 |
| `AtmegaUart.ImageChunkCounts` | firmware/atmega/atmega_light/main.cpp:1265-1291 | a chunk is drawn exactly when reception is on and its size is 1..64 with all bytes present; it then adds its size to the 16-bit received count, draws exactly its bytes, and stops reception once the count reaches the expected size; a refused chunk changes nothing but the log |
| `AtmegaUart.ImageChunk` | firmware/atmega/atmega_light/main.cpp:1265-1291 | a chunk changes neither the line, the display data nor the LED; reception is on afterwards only if it was before; at most one window is drawn and the sent bytes only grow |
| `AtmegaUart.ChunkRowInside` | firmware/atmega/atmega_light/main.cpp:1273-1282 | a chunk starts inside the 320-pixel row, on row `(index * 64 mod 65536) / 640`, and a chunk of two bytes or more ends inside the row |
| `AtmegaUart.StartImageResets` | firmware/atmega/atmega_light/main.cpp:1253-1262 | `CMD_SET_DISPLAY_IMAGE` restarts reception with the little-endian size and zero counts |
| `AtmegaUart.ReceiveBounded` | firmware/atmega/atmega_light/main.cpp:1299-1317 | the buffered line never exceeds 255 bytes; a byte that fits is appended, a byte into a full buffer drops the line, and a line end empties it |
| `AtmegaUart.ReceiveAll` | firmware/atmega/atmega_light/main.cpp:1299-1317 | a stream of received bytes keeps the state well formed |
| `AtmegaUart.ReceiveCollects` | firmware/atmega/atmega_light/main.cpp:1310-1312 | bytes without a line end only extend the buffered line while they fit |
| `AtmegaUart.LineRunsCommand` | firmware/atmega/atmega_light/main.cpp:1299-1317 | a command of at most 255 bytes followed by `\n` or `\r` is executed exactly once, as sent |
| `AtmegaUart.ReceiveEnd` | firmware/atmega/atmega_light/main.cpp:1303-1307 | a line end after a non-empty line runs it |
| `AtmegaUart.ReceiveSplit` | firmware/atmega/atmega_light/main.cpp:1299-1317 | receiving two runs of bytes is receiving the first, then the second |
| `AtmegaUart.OverlongLineDropped` | firmware/atmega/atmega_light/main.cpp:1310-1315 | a 256th byte without a line end discards the line, so nothing is executed |
| `AtmegaUart.CopyText` | firmware/atmega/atmega_light/main.cpp:1180-1181 | the copy loop leaves the destination as `Store` describes |
| `AtmegaUart.NewText` | firmware/atmega/atmega_light/main.cpp:98-103 | a char array initialised from a shorter text is that text padded with NULs |
| `AtmegaUart.Controller.constructor` | firmware/atmega/atmega_light/main.cpp:699-756 | the globals when interrupts are enabled: empty buffer, LED 255, the texts "data", "Profile 1" and "bluetooth", debugging off at level 2 |
| `AtmegaUart.Controller.SampleLight` | firmware/atmega/atmega_light/main.cpp:769 | a light sample changes only the light level |
| `AtmegaUart.Controller.Log` | firmware/atmega/atmega_light/main.cpp:159-161 | a log message is sent only with debugging on at that level |
| `AtmegaUart.Controller.ReceiveByte` | firmware/atmega/atmega_light/main.cpp:1299-1317 | the interrupt takes the globals along `Receive` and keeps them valid |
| `AtmegaUart.Controller.ProcessUartCommand` | firmware/atmega/atmega_light/main.cpp:1128-1296 | the command takes the globals along `Command` and keeps them valid |
| `AtmegaUart.Controller.RunCommand` | firmware/atmega/atmega_light/main.cpp:1137-1291 | the switch takes the globals along `Dispatch` |
| `AtmegaUart.Controller.LogCommand` | firmware/atmega/atmega_light/main.cpp:1133-1135 | the label at debug level, then the command byte in hexadecimal and CR LF whatever the level |
| `AtmegaUart.Controller.SendLightLevel` | firmware/atmega/atmega_light/main.cpp:1138-1144 | sends the light reply and changes nothing else |
| `AtmegaUart.Controller.SendLedLevel` | firmware/atmega/atmega_light/main.cpp:1146-1152 | sends the LED reply and changes nothing else |
| `AtmegaUart.Controller.ReceiveLed` | firmware/atmega/atmega_light/main.cpp:1154-1163 | with an argument byte: logs it in decimal, sets the LED and redraws |
| `AtmegaUart.Controller.ReceiveDebug` | firmware/atmega/atmega_light/main.cpp:1233-1241 | with an argument byte: sets the debug switch, then logs under the new setting |
| `AtmegaUart.Controller.ReceiveLogLevel` | firmware/atmega/atmega_light/main.cpp:1243-1251 | with an argument byte: stores the level capped at 3 and logs it |
| `AtmegaUart.Controller.ReceiveImageStart` | firmware/atmega/atmega_light/main.cpp:1253-1262 | with two size bytes: restarts reception and logs the size |
| `AtmegaUart.Controller.ReceiveDisplayData` | firmware/atmega/atmega_light/main.cpp:1169-1231 | reads the display fields and redraws only once a real configuration has arrived |
| `AtmegaUart.Controller.ReadDisplayFields` | firmware/atmega/atmega_light/main.cpp:1171-1224 | the fields in order from offset 1, changing only the display globals |
| `AtmegaUart.Controller.ReadHeadFields` | firmware/atmega/atmega_light/main.cpp:1171-1202 | brightness, mode, profile and output mode, and the cursor after them |
| `AtmegaUart.Controller.ReadTailFields` | firmware/atmega/atmega_light/main.cpp:1203-1224 | keys count, last key and the two back-light bytes |
| `AtmegaUart.Controller.ReadTextField` | firmware/atmega/atmega_light/main.cpp:1177-1184 | one length-prefixed text field, as `TextField` describes |
| `AtmegaUart.Controller.PlaceChunk` | firmware/atmega/atmega_light/main.cpp:1273-1282 | the window and bytes of one chunk, in 16-bit arithmetic |
| `AtmegaUart.Controller.ReceiveImageChunk` | firmware/atmega/atmega_light/main.cpp:1265-1291 | the chunk case takes the globals along `ImageChunk` |
| `AtmegaUart.Controller.CountImageChunk` | firmware/atmega/atmega_light/main.cpp:1282-1289 | counts a taken chunk in 16 bits and ends reception once the count reaches the expected size |
| `AtmegaFormat.HexValue` | firmware/atmega/atmega_light/main.cpp:135-139 | a digit of "0123456789ABCDEF" is worth less than 16 |
| `AtmegaFormat.DebugHex` | firmware/atmega/atmega_light/main.cpp:135-139 | `debug_print_hex` sends two upper-case hexadecimal digits |
| `AtmegaFormat.DebugHexRoundTrip` | firmware/atmega/atmega_light/main.cpp:135-139 | the two digits read back, high nibble first, as the byte |
| `AtmegaFormat.DebugHexInjective` | firmware/atmega/atmega_light/main.cpp:135-139 | different bytes are printed differently |
| `AtmegaFormat.DecimalBytes` | firmware/atmega/atmega_light/main.cpp:142-155 | a decimal spelling has at least one digit |
| `AtmegaFormat.DecimalBytesText` | firmware/atmega/atmega_light/main.cpp:142-155 | the bytes sent are the ASCII decimal text of the number |
| `AtmegaFormat.DecimalBytesFit` | firmware/atmega/atmega_light/main.cpp:148-151 | a uint16 has at most five digits, so the `i < 5` bound never cuts a number |
| `AtmegaFormat.DecimalBytesRoundTrip` | firmware/atmega/atmega_light/main.cpp:142-155 | the digits have no leading zero and read back as the number |
| `AtmegaFormat.Reverse` | firmware/atmega/atmega_light/main.cpp:152-154 | reversing keeps the length |
| `AtmegaFormat.ReverseSnoc` | firmware/atmega/atmega_light/main.cpp:152-154 | reversing a sequence with one more element puts it first |
| `AtmegaFormat.DecimalOut` | firmware/atmega/atmega_light/main.cpp:142-155 | the two digit loops send exactly the decimal spelling of the value, `0` for zero |
| `AtmegaFormat.CollectStep` | firmware/atmega/atmega_light/main.cpp:148-151 | taking the last digit off a non-zero value moves it from the pending digits to the end of the collected ones, and leaves one digit fewer pending |
| `AtmegaFormat.CollectDigits` | firmware/atmega/atmega_light/main.cpp:148-151 | the collecting loop stores at most five digits, least significant first, whose reverse is the decimal spelling of a non-zero value |
| `AtmegaFormat.SendDigits` | firmware/atmega/atmega_light/main.cpp:152-154 | the sending loop emits the collected digits last one first |
| `AtmegaFormat.DebugDec` | firmware/atmega/atmega_light/main.cpp:142-155 | `debug_print_dec` sends the decimal spelling of its value |
| `AtmegaFormat.AsciiText` | firmware/atmega/atmega_light/main.cpp:142-155 | the characters of ASCII bytes, one per byte |
| `AtmegaFormat.LightAscii` | firmware/atmega/atmega_light/main.cpp:820-843 | `uart_send_light_ascii` sends "LIGHT=", the decimal level and a line feed |
| `AtmegaFormat.LightLineRoundTrip` | firmware/atmega/atmega_light/main.cpp:820-843 | every light line reads back as the level it was sent for |
| `AtmegaFormat.SendResponse` | firmware/atmega/atmega_light/main.cpp:1117-1125 | a reply frame is the command byte, the first `len` data bytes and a line feed |
| `AtmegaFormat.LittleEndian` | firmware/atmega/atmega_light/main.cpp:1141 | the two reply bytes, low first, read back as the value |
| `AtmegaDisplay.FillRectAsWritten` | firmware/atmega/atmega_light/main.cpp:364-382 | as compiled for the AVR: the window and a pixel count computed in 16-bit `unsigned int`, so the count is always below 65536 |
| `AtmegaDisplay.ClipAsWritten` | firmware/atmega/atmega_light/main.cpp:365-366 | when the sum does not wrap, a clipped side never grows and ends at or before the limit |
| `AtmegaDisplay.FillRect` | firmware/atmega/atmega_light/main.cpp:364-382 | the window starts at the requested corner; a fill that writes pixels stays on the 320 x 210 panel and writes exactly the pixels of its window |
| `AtmegaDisplay.FillRectClips` | firmware/atmega/atmega_light/main.cpp:365-366 | when the sums do not wrap, the clipped rectangle never grows and ends inside the 320 x 210 panel |
| `AtmegaDisplay.FillRectSmallExact` | firmware/atmega/atmega_light/main.cpp:364-382 | a rectangle inside the panel with fewer than 65536 pixels is filled completely: exactly `w * h` pixels, the area of its window |
| `AtmegaDisplay.FullPanelFillShort` | firmware/atmega/atmega_light/main.cpp:735 | counterexample: the start-up full-panel fill sets a window of 67200 pixels but writes only 1664 |
| `AtmegaDisplay.Clip` | firmware/atmega/atmega_light/main.cpp:365-366 | the corrected clip never grows a side and, when not empty, ends at or before the panel edge |
| `AtmegaDisplay.FillRectExact` | firmware/atmega/atmega_light/main.cpp:364-382 | corrected: the fill writes exactly the pixels of its window, the window lies on the panel, the count is at most `w * h` and exactly `w * h` for a rectangle inside the panel |
| `AtmegaDisplay.MulMono` | firmware/atmega/atmega_light/main.cpp:377 | products are monotone in both factors |
| `AtmegaDisplay.FillRectAgrees` | firmware/atmega/atmega_light/main.cpp:364-382 | the corrected and as-written fills agree on rectangles inside the panel with fewer than 65536 pixels |
| `AtmegaDisplay.FilledWidth` | firmware/atmega/atmega_light/main.cpp:413-415 | the filled width exists exactly when `max_value` is not 0, and never exceeds `w` |
| `AtmegaDisplay.FilledWidthProportional` | firmware/atmega/atmega_light/main.cpp:413-415 | up to a full bar the filled width is `w * value / max_value`, rounded down, with no 16-bit truncation |
| `AtmegaDisplay.DivBelow` | firmware/atmega/atmega_light/main.cpp:414 | a quotient of at most `w * m` by `m` is at most `w` |
| `AtmegaDisplay.MulDiv` | firmware/atmega/atmega_light/main.cpp:414 | `w * m / m` is `w` |
| `AtmegaDisplay.FilledWidthEnds` | firmware/atmega/atmega_light/main.cpp:413-415 | a full bar is `w` wide and an empty one has no filled part |
| `AtmegaDisplay.ProgressBar` | firmware/atmega/atmega_light/main.cpp:408-421 | the bar draws its background first, then a filled part of at most `w` in the foreground colour when it is not empty; nothing defined for `max_value` 0 |
| `AtmegaDisplay.AccentRemapNeverApplies` | firmware/atmega/atmega_light/main.cpp:502-513 | with avr-gcc's signed `char`, the accent replacement never fires |
| `AtmegaDisplay.DrawCharFoldsCase` | firmware/atmega/atmega_light/main.cpp:497-500 | a lower-case letter is drawn from the same font row as its upper-case letter |
| `AtmegaDisplay.DrawCharRange` | firmware/atmega/atmega_light/main.cpp:488-535 | a glyph is drawn exactly for codes 33 to 90 and lower-case letters, from rows 1 to 58; only the space draws a blank |
| `AtmegaDisplay.DrawChar` | firmware/atmega/atmega_light/main.cpp:488-535 | a drawn glyph is always a row of the 59-row font table |
| `EspHid.FindSymbol` | firmware/esp32/esp32_micropython/HidOutput.cpp:131-144 | a table loop's hit is an entry of the table |
| `EspHid.FindFrom` | firmware/esp32/esp32_micropython/HidOutput.cpp:131-144 | a hit from position k on lies between k and the end of the table |
| `EspHid.GetKeycode` | firmware/esp32/esp32_micropython/HidOutput.cpp:119-123 | `getKeycode` gives 0 exactly when the symbol has no key |
| `EspHid.FindFromSpec` | firmware/esp32/esp32_micropython/HidOutput.cpp:131-144 | from position k on, the loop finds the first entry holding the symbol, and nothing exactly when none holds it |
| `EspHid.FindSymbolSpec` | firmware/esp32/esp32_micropython/HidOutput.cpp:131-144 | the loop finds the first entry holding the symbol, and nothing exactly when no entry holds it |
| `EspHid.FindSymbolAt` | firmware/esp32/esp32_micropython/HidOutput.cpp:131-144 | an entry holding the symbol with none before it is the one found |
| `EspHid.FindFromSameSymbols` | firmware/esp32/esp32_micropython/HidOutput.cpp:139-144 | tables with the same symbols find a symbol at the same place |
| `EspHid.ShiftEntries` | firmware/esp32/esp32_micropython/HidOutput.cpp:90-99 | every shifted symbol is one punctuation character, typed as a usage from 0x1E to 0x38 with Shift |
| `EspHid.NamedEntriesAsWritten` | firmware/esp32/esp32_micropython/HidOutput.cpp:76-87 | every entry of the firmware's named table is a usage from 0x04 to 0x57, and a digit's usage is its main-keyboard one |
| `EspHid.DigitsNamedAsWritten` | firmware/esp32/esp32_micropython/HidOutput.cpp:81-82 | the firmware's named table holds "1" to "9" and "0" at entries 11 to 20 |
| `EspHid.RenumberedFits` | firmware/esp32/esp32_micropython/HidOutput.cpp:76-87 | changing the usage of a multi-character name keeps a named table well formed |
| `EspHid.NamedEntries` | firmware/esp32/esp32_micropython/HidOutput.cpp:76-87 | the corrected named table is well formed and names every digit |
| `EspHid.NamedTablesAlike` | firmware/esp32/esp32_micropython/HidOutput.cpp:76-87 | the corrected table has the firmware's 34 symbols in order, and differs only in the usages of Up and Right |
| `EspHid.ShiftHit` | firmware/esp32/esp32_micropython/HidOutput.cpp:131-137 | a symbol in the shift table is typed with that entry's key and modifier |
| `EspHid.NamedHit` | firmware/esp32/esp32_micropython/HidOutput.cpp:139-144 | a symbol in the named table but not the shift table is typed with that usage and no modifier |
| `EspHid.TablesMiss` | firmware/esp32/esp32_micropython/HidOutput.cpp:146-167 | a symbol in neither table is looked up as a single character, or fails |
| `EspHid.ShiftMissesIn` | firmware/esp32/esp32_micropython/HidOutput.cpp:131-137 | only a punctuation character can be found in the shift table |
| `EspHid.NamedMissesIn` | firmware/esp32/esp32_micropython/HidOutput.cpp:139-144 | a single letter or space is in no named table |
| `EspHid.ShiftedExactlyIn` | firmware/esp32/esp32_micropython/HidOutput.cpp:125-168 | a symbol is typed with Shift exactly when it is in the shift table or is one upper-case letter |
| `EspHid.LetterLookupIn` | firmware/esp32/esp32_micropython/HidOutput.cpp:147-165 | a lower-case letter is its usage from 0x04, an upper-case one the same usage with Shift, a space the space bar |
| `EspHid.DigitLookupIn` | firmware/esp32/esp32_micropython/HidOutput.cpp:139-160 | a digit is found in the named table with the usage the digit branch would give |
| `EspHid.LookupFailsExactlyIn` | firmware/esp32/esp32_micropython/HidOutput.cpp:125-168 | the lookup fails exactly for the empty symbol and for symbols in neither table that are not one letter, digit or space |
| `EspHid.LookupRangeIn` | firmware/esp32/esp32_micropython/HidOutput.cpp:125-168 | every key found is a usage from 0x04 to 0x57 with no modifier or with Shift |
| `EspHid.ShiftMissesNames` | firmware/esp32/esp32_micropython/HidOutput.cpp:90-99 | no multi-character name is in the shift table |
| `EspHid.NamedEntry` | firmware/esp32/esp32_micropython/HidOutput.cpp:139-144 | a name that is the first holder of entry i is typed with that entry's usage |
| `EspHid.PunctuationEntry` | firmware/esp32/esp32_micropython/HidOutput.cpp:131-144 | a punctuation character missing from the shift table is typed with its named usage |
| `EspHid.ShiftEntry` | firmware/esp32/esp32_micropython/HidOutput.cpp:131-137 | a symbol that is the first holder of a shift entry is typed with that entry's key |
| `EspHid.NamedKeyEntries` | firmware/esp32/esp32_micropython/HidOutput.cpp:77-79 | Enter, Escape under both names and Delete stand where the table lists them, with their usages |
| `EspHid.PlusEntries` | firmware/esp32/esp32_micropython/HidOutput.cpp:84-99 | '+' is missing from the shift table and is named entry 25 with the keypad-plus usage |
| `EspHid.ShiftedEntries` | firmware/esp32/esp32_micropython/HidOutput.cpp:91-98 | '!' is the first shift entry and '?' the last |
| `EspHid.ArrowEntriesAsWritten` | firmware/esp32/esp32_micropython/HidOutput.cpp:62-65 | in the firmware's table Up is 0x53 and Right 0x52 |
| `EspHid.ArrowEntries` | firmware/esp32/esp32_micropython/HidOutput.cpp:79-80 | in the corrected table the four arrows have the usages 0x52, 0x51, 0x50 and 0x4F |
| `EspHid.EmptySymbolFails` | firmware/esp32/esp32_micropython/HidOutput.cpp:126 | the empty symbol has no key and `getKeycode` gives 0 |
| `EspHid.ShiftedExactly` | firmware/esp32/esp32_micropython/HidOutput.cpp:125-168 | a symbol is typed with Shift exactly when it is in the shift table or is one upper-case letter |
| `EspHid.NamedKeyExamples` | firmware/esp32/esp32_micropython/HidOutput.cpp:77-79 | Enter is 0x28, Delete 0x4C, and both names of Escape 0x29 |
| `EspHid.PlusIsKeypadPlus` | firmware/esp32/esp32_micropython/HidOutput.cpp:84 | '+' is typed as the unshifted keypad plus |
| `EspHid.ShiftedExamples` | firmware/esp32/esp32_micropython/HidOutput.cpp:91-98 | '!' is Shift with the key of 1, '?' Shift with the key of '/' |
| `EspHid.LetterLookup` | firmware/esp32/esp32_micropython/HidOutput.cpp:147-165 | a letter is its usage from 0x04, with Shift when upper-case; a space is the space bar |
| `EspHid.DigitBranchDead` | firmware/esp32/esp32_micropython/HidOutput.cpp:158-160 | digits are always found in the named table first, with the usage the digit branch would give, so that branch never runs |
| `EspHid.LookupFailsExactly` | firmware/esp32/esp32_micropython/HidOutput.cpp:125-168 | a symbol has no key exactly when it is in neither table and is not one letter, digit or space |
| `EspHid.LookupRange` | firmware/esp32/esp32_micropython/HidOutput.cpp:125-168 | every key found is a usage from 0x04 to 0x57, with no modifier or with Shift |
| `EspHid.ArrowCodesAsWritten` | firmware/esp32/esp32_micropython/HidOutput.cpp:62-65 | counterexample: the firmware's Right sends the Up Arrow usage and its Up the Keypad Num Lock usage, which is no arrow |
| `EspHid.ArrowCodes` | firmware/esp32/esp32_micropython/HidOutput.cpp:62-65 | corrected: the four arrows send the four arrow usages, each its own |
| `EspHid.AgreesIn` | firmware/esp32/esp32_micropython/HidOutput.cpp:125-168 | two named tables with the same symbols give the same key for any symbol whose usages agree |
| `EspHid.AsWrittenAgrees` | firmware/esp32/esp32_micropython/HidOutput.cpp:125-168 | apart from Up and Right, the firmware's lookup is the corrected one |
| `EspHid.FindEntry` | firmware/esp32/esp32_micropython/HidOutput.cpp:131-144 | one table loop finds the first entry holding the symbol, or none |
| `EspHid.GetKeycodeAndModifier` | firmware/esp32/esp32_micropython/HidOutput.cpp:125-168 | succeeds exactly when the symbol has a key, and then gives that key |
| `EspHid.KeycodeAndModifierAsWritten` | firmware/esp32/esp32_micropython/HidOutput.cpp:125-168 | as written, with the firmware's arrow usages: the empty symbol has no key |
| `EspHid.KeycodeAndModifier` | firmware/esp32/esp32_micropython/HidOutput.cpp:125-168 | corrected arrow usages: the empty symbol has no key |
| `EspHid.KeypadReport` | firmware/esp32/esp32_micropython/HidOutput.cpp:170-202 | a key sends at most five reports, and none exactly when neither BLE nor the USB keyboard is present |
| `EspHid.ConsumerReport` | firmware/esp32/esp32_micropython/HidOutput.cpp:204-233 | a consumer usage sends at most five reports; the time of the last volume step moves only over BLE, to now, when something is sent |
| `EspHid.SendKeyRoute` | firmware/esp32/esp32_micropython/HidOutput.cpp:235-265 | a symbol is sent as a keyboard key only when the firmware's lookup gives it a nonzero usage, and a media route is always one of the six consumer usages |
| `EspHid.KeypadReportBle` | firmware/esp32/esp32_micropython/HidOutput.cpp:173-187 | over BLE: five reports, an empty one, the key with its modifier, then three empty ones |
| `EspHid.KeypadReportBalanced` | firmware/esp32/esp32_micropython/HidOutput.cpp:188-201 | over USB a key leaves nothing held, and a shifted key is pressed while the left shift is down |
| `EspHid.UsbCodeRaw` | firmware/esp32/esp32_micropython/HidOutput.cpp:194 | every key the lookup gives reaches the Arduino keyboard as usage + 0x88, without 8-bit wrap |
| `EspHid.ConsumerReportEncodes` | firmware/esp32/esp32_micropython/HidOutput.cpp:219-227 | a consumer usage over BLE is one report carrying the usage low byte first, then the empty report |
| `EspHid.VolumeStepsSpaced` | firmware/esp32/esp32_micropython/HidOutput.cpp:211-216 | a second BLE volume step sooner than the step delay sends nothing and keeps the last step time |
| `EspHid.RepeatExactlyKeys` | firmware/esp32/esp32_micropython/HidOutput.cpp:114-117 | the keys that do not repeat are exactly the profile key and the media keys `sendKey` routes to consumer reports |
| `EspHid.RepeatingKeysTyped` | firmware/esp32/esp32_micropython/HidOutput.cpp:235-249 | a repeating symbol is sent as the key the lookup gives, and exactly when there is one |
| `EspHid.HidOutput.constructor` | firmware/esp32/esp32_micropython/HidOutput.h:34-37 | no USB device, no BLE link, nothing sent |
| `EspHid.HidOutput.Begin` | firmware/esp32/esp32_micropython/HidOutput.cpp:104-107 | records the USB devices and changes nothing else |
| `EspHid.HidOutput.SetBleState` | firmware/esp32/esp32_micropython/HidOutput.cpp:109-112 | records the BLE link and changes nothing else |
| `EspHid.HidOutput.SendKeypadReport` | firmware/esp32/esp32_micropython/HidOutput.cpp:170-202 | sends the reports `KeypadReport` gives for the current link |
| `EspHid.HidOutput.SendConsumerReport` | firmware/esp32/esp32_micropython/HidOutput.cpp:204-233 | sends what `ConsumerReport` gives and updates the last BLE volume time as it says |
| `EspHid.HidOutput.SendKey` | firmware/esp32/esp32_micropython/HidOutput.cpp:235-265 | the profile key and unknown symbols send nothing; media keys send their consumer report; every other key its keypad report |
| `EspEncoder.TableIsDelta` | firmware/esp32/esp32_micropython/Encoder.cpp:9-14 | each entry of the Gray-code table is the step between the two readings on the quadrature cycle 00, 10, 11, 01: +1 forward, -1 back, 0 otherwise |
| `EspEncoder.DeltaValues` | firmware/esp32/esp32_micropython/Encoder.cpp:9-14 | every step is -1, 0 or 1, and 0 when nothing changed or both pins changed |
| `EspEncoder.DeltaOneBit` | firmware/esp32/esp32_micropython/Encoder.cpp:9-14 | a change of exactly one pin always counts as a step |
| `EspEncoder.DeltaAntisymmetric` | firmware/esp32/esp32_micropython/Encoder.cpp:9-14 | turning back undoes turning forward |
| `EspEncoder.StepKeepsReading` | firmware/esp32/esp32_micropython/Encoder.cpp:26-77 | after an update the last reading is this update's reading, and the pending step is -1, 0 or 1 |
| `EspEncoder.Rotate` | firmware/esp32/esp32_micropython/Encoder.cpp:30-46 | the reading is stored, the pending step stays in -1..1, the count moves by at most one and only clears the pending step when it moves; the volume fields are untouched |
| `EspEncoder.IdleReset` | firmware/esp32/esp32_micropython/Encoder.cpp:49-53 | the state changes only more than 150 ms (32-bit wrap) after the last step, and then the count, reported count and pending step are all 0; the reading and the step time are kept |
| `EspEncoder.Volume` | firmware/esp32/esp32_micropython/Encoder.cpp:55-65 | the count is kept and its gap to the reported count closes by at most one step; at most one volume call is made, carrying exactly the nonzero change of the reported count |
| `EspEncoder.Button` | firmware/esp32/esp32_micropython/Encoder.cpp:68-76 | the raw reading is stored, and a press is reported only when the stable state turns pressed |
| `EspEncoder.Step` | firmware/esp32/esp32_micropython/Encoder.cpp:26-77 | an update stores its pin readings and makes at most one rotation call and one button call |
| `EspEncoder.VolumeKeeps` | firmware/esp32/esp32_micropython/Encoder.cpp:55-65 | the volume block changes only the reported count and the time of the last volume step |
| `EspEncoder.ButtonKeeps` | firmware/esp32/esp32_micropython/Encoder.cpp:68-76 | the button block changes only the three button fields |
| `EspEncoder.RotateFilter` | firmware/esp32/esp32_micropython/Encoder.cpp:30-46 | the count moves, by the step, exactly when a nonzero step repeats the pending one, which is then cleared; a zero step clears it; a new step becomes pending and stamps the time |
| `EspEncoder.TwoEqualSteps` | firmware/esp32/esp32_micropython/Encoder.cpp:35-43 | from nothing pending, the first of two equal steps leaves the count alone and the second moves it by that step |
| `EspEncoder.IdleResetClears` | firmware/esp32/esp32_micropython/Encoder.cpp:49-53 | more than 150 ms after the last step, with 32-bit wrap of the time, the count, the reported count and the pending step are 0; otherwise nothing changes |
| `EspEncoder.StepPositionBounded` | firmware/esp32/esp32_micropython/Encoder.cpp:26-77 | one update moves the count by at most one, unless it resets it to 0 |
| `EspEncoder.VolumeTowardsCount` | firmware/esp32/esp32_micropython/Encoder.cpp:55-65 | a volume step happens exactly when the block is built, the count differs from the reported one and the cooldown has passed; it moves the reported count one step towards the count without passing it, and the callback gets that direction |
| `EspEncoder.VolumeStepsSpaced` | firmware/esp32/esp32_micropython/Encoder.cpp:58-61 | two volume steps are at least the cooldown apart |
| `EspEncoder.VolumeCompiledOut` | firmware/esp32/esp32_micropython/Encoder.cpp:55-65 | as built, with the volume block compiled out, no rotation callback is ever called and the reported count changes only by the idle reset |
| `EspEncoder.ButtonDebounced` | firmware/esp32/esp32_micropython/Encoder.cpp:68-76 | the stable button state changes exactly when the reading has stayed the same, differs from it, and 25 ms have passed since its last change; the callback gets `true` exactly on a change to pressed |
| `EspEncoder.ButtonChangeWaits` | firmware/esp32/esp32_micropython/Encoder.cpp:69-72 | a changed reading restarts the debounce, so the stable state does not follow it in the same update |
| `EspEncoder.ShortPressIgnored` | firmware/esp32/esp32_micropython/Encoder.cpp:68-76 | a press released at the next update, before it is stable, is never reported |
| `EspEncoder.Encoder.constructor` | firmware/esp32/esp32_micropython/Encoder.h:22-34 | every field 0 or false and no callback set |
| `EspEncoder.Encoder.Begin` | firmware/esp32/esp32_micropython/Encoder.cpp:18-24 | the reading of the two pins and the time become the starting point, and nothing else changes |
| `EspEncoder.Encoder.SetRotateCallback` | firmware/esp32/esp32_micropython/Encoder.h:18 | records whether a rotation callback is set |
| `EspEncoder.Encoder.SetButtonCallback` | firmware/esp32/esp32_micropython/Encoder.h:19 | records whether a button callback is set |
| `EspEncoder.Encoder.RotateStep` | firmware/esp32/esp32_micropython/Encoder.cpp:30-46 | the table lookup and filter leave the state `Rotate` gives |
| `EspEncoder.Encoder.IdleStep` | firmware/esp32/esp32_micropython/Encoder.cpp:49-53 | leaves the state `IdleReset` gives |
| `EspEncoder.Encoder.VolumeStep` | firmware/esp32/esp32_micropython/Encoder.cpp:55-65 | leaves the state and the callback calls `Volume` gives |
| `EspEncoder.Encoder.ButtonStep` | firmware/esp32/esp32_micropython/Encoder.cpp:68-76 | leaves the state and the callback calls `Button` gives |
| `EspEncoder.Encoder.Update` | firmware/esp32/esp32_micropython/Encoder.cpp:26-77 | leaves the state and appends the callback calls that `Step` gives for the readings and the time |
| `EspKeyMatrix.StepAll` | firmware/esp32/esp32_micropython/KeyMatrix.cpp:24-52 | stepping every key once keeps the 5x4 shape |
| `EspKeyMatrix.DebounceFlips` | firmware/esp32/esp32_micropython/KeyMatrix.cpp:33-38 | a key's state changes exactly when the reading differs from it and more than the debounce time has passed since its last change, with 32-bit wrap; the change is stamped with now, and the repeat time is now for a press and 0 for a release |
| `EspKeyMatrix.PressReportedOnce` | firmware/esp32/esp32_micropython/KeyMatrix.cpp:39-41 | a debounced press calls the callback once as a first press; a debounced release calls nothing |
| `EspKeyMatrix.RepeatWhileHeld` | firmware/esp32/esp32_micropython/KeyMatrix.cpp:43-49 | a repeat is reported exactly for a held key with a callback set, 500 ms after its press and 50 ms after its last repeat, and it stamps only the repeat time |
| `EspKeyMatrix.OneEventPerKey` | firmware/esp32/esp32_micropython/KeyMatrix.cpp:30-51 | a key makes at most one call per scan, always a press naming itself, and none without a callback |
| `EspKeyMatrix.KeyStep` | firmware/esp32/esp32_micropython/KeyMatrix.cpp:31-50 | a key makes at most one call, a press naming itself and only with a callback; its state changes only to the reading, after more than the debounce time; a first press comes only with the state newly 1 |
| `EspKeyMatrix.BounceIgnored` | firmware/esp32/esp32_micropython/KeyMatrix.cpp:33-34 | after a change, the state changes again only more than the debounce time later |
| `EspKeyMatrix.RepeatsSpaced` | firmware/esp32/esp32_micropython/KeyMatrix.cpp:44-48 | two repeats are at least 50 ms apart and both at least 500 ms after the press |
| `EspKeyMatrix.StateStaysBit` | firmware/esp32/esp32_micropython/KeyMatrix.cpp:31-36 | every debounced state stays 0 or 1 |
| `EspKeyMatrix.ScanEventsInMatrix` | firmware/esp32/esp32_micropython/KeyMatrix.cpp:24-52 | every call of a scan is a press of a key on the matrix that the scan has already visited |
| `EspKeyMatrix.KeyMatrix.IsKeyPressed` | firmware/esp32/esp32_micropython/KeyMatrix.cpp:6-9 | false off the 5x4 matrix, and otherwise exactly whether the key's debounced state is nonzero |
| `EspKeyMatrix.KeyMatrix.Keys` | firmware/esp32/esp32_micropython/KeyMatrix.h:28-30 | the three per-key arrays read as a 5x4 table of cells |
| `EspKeyMatrix.ColumnPins.constructor` | firmware/esp32/esp32_micropython/KeyMatrix.cpp:11-15 | no column level written yet |
| `EspKeyMatrix.KeyMatrix.constructor` | firmware/esp32/esp32_micropython/KeyMatrix.h:25-30 | every cell 0, no callback, a 25 ms debounce |
| `EspKeyMatrix.KeyMatrix.Begin` | firmware/esp32/esp32_micropython/KeyMatrix.cpp:11-19 | every column is driven HIGH |
| `EspKeyMatrix.KeyMatrix.SetCallback` | firmware/esp32/esp32_micropython/KeyMatrix.h:21 | records whether a callback is set |
| `EspKeyMatrix.KeyMatrix.SetDebounceMs` | firmware/esp32/esp32_micropython/KeyMatrix.h:22 | sets the debounce time |
| `EspKeyMatrix.KeyMatrix.ScanKey` | firmware/esp32/esp32_micropython/KeyMatrix.cpp:31-50 | the key's cells become what `KeyStep` gives and its calls are appended; no other key changes |
| `EspKeyMatrix.KeyMatrix.DriveColumn` | firmware/esp32/esp32_micropython/KeyMatrix.cpp:25-27 | column c is LOW and every other column HIGH |
| `EspKeyMatrix.KeyMatrix.ScanNext` | firmware/esp32/esp32_micropython/KeyMatrix.cpp:30-51 | one more key in scan order is stepped and its calls follow those of the keys before it |
| `EspKeyMatrix.KeyMatrix.ScanColumn` | firmware/esp32/esp32_micropython/KeyMatrix.cpp:30-51 | the five keys of column c are stepped in row order |
| `EspKeyMatrix.KeyMatrix.Scan` | firmware/esp32/esp32_micropython/KeyMatrix.cpp:21-57 | every key is stepped once against its own row reading, the calls come column by column and row by row, and all columns end HIGH |
| `EspKeyMatrix.KeyMatrix.ScanColumns` | firmware/esp32/esp32_micropython/KeyMatrix.cpp:24-52 | after the column loop every key holds its cells stepped once against its own reading, and the calls made are those of every key in scan order |
| `EspKeyMatrix.KeyMatrix.AllStepped` | firmware/esp32/esp32_micropython/KeyMatrix.cpp:24-52 | once all 20 keys are visited in scan order, the table of cells is the stepped table |

## Left out

- Browser APIs (`navigator.serial`, `navigator.bluetooth`, GATT connect, `port.open`, the reader's `read()`, `writer.write`, `char.writeValue`): not modelled; their outcome is a parameter of the operation that calls them, such as the connection type set or a write accepted or rejected.
- The concurrency of the BLE throttle (public/scripts/main.js:2684): the elapsed-time test runs before the job is chained, so concurrent callers can read the same `lastBleWriteTime`. The model runs jobs in FIFO order with one wait per job, and does not claim a global spacing between writes.
- `TextDecoder` in the page (public/scripts/main.js:726, public/scripts/main.js:981): the text the page reads from the device is a parameter, so its decoding is not modelled.
- `bytes.decode` in main.py: only whether a line decodes is modelled. `PySerial.DecodesAsUtf8` states the lead- and continuation-byte rule MicroPython checks. The decoded characters are not modelled. UTF-8 encoding is modelled in full.
- `JSON.parse` and `json.loads`: modelled abstractly, as a parameter that gives a parsed value or fails. `JSON.stringify` is modelled only for the `ota_chunk` message, whose size matters.
- `btoa`: modelled as standard base64 (section 4 of RFC 4648) over the chunk's bytes; `String.fromCharCode` and the binary-string detour are not modelled.
- `Math.round` in the OTA progress: modelled in exact rational arithmetic, halves rounding up; floating-point rounding is not modelled.
- `toUpperCase` in `formatKeyLabel` (public/scripts/main.js:521): modelled for ASCII letters only. Unicode case mapping is not modelled.
- The keyboard capture of the key editor (public/scripts/main.js:530-542) is not modelled: it is UI.
- JavaScript object enumeration in `ensureProfiles` and `switchToNextProfile`: profiles are an ordered list of names and values. Integer-like keys sorting first, truthy non-object entries, inherited properties, a non-string `activeProfile` and profiles stored as an array are not modelled.
- The DOM and UI of the panel: grid rendering, forms, alerts, themes, the serial monitor, the fingerprint UI, localStorage, image and GIF conversion, `updateLightLevel` and the GitHub release fetch.
- The 3 s grace timer after an OTA upload and the inbound `ota_status` handling: UI only.
- The MicroPython OTA receiver (`handle_ota_start`, `handle_ota_chunk`, `handle_ota_end`) is modelled by its globals and its replies. What the file system gives is a parameter (`PyKeypad.OtaIo`): whether `open` succeeds, the size `os.stat` reports, whether `os.rename` succeeds, and the text of the exception caught. The bytes written, `f.close`, `os.remove` and the 1 s sleep are not modelled. `machine.reset` is modelled as a flag that ends the run. The chunk handler raises on its first statement (main.py:941, because main.py:978 assigns `ota_in_progress` locally), so it is modelled as changing nothing. Its base64 decoding and file write are therefore unreachable and not modelled.
- `send_display_update_to_atmega` in main.py: it rebinds the global `backlight_enabled` locally, so every call raises before it sends and the exception is swallowed. Not modelled.
- `send_key` and `main()` in main.py: the main loop, and the routing of a key to `press`, are not modelled. `scan_matrix` and `handle_encoder` record the calls they make.
- `send_report` exception handling in main.py: a failed notify discards the connection (main.py:649-657). Only the successful notify is modelled.
- main.py is indented four spaces at the top level; it is modelled as if dedented.
- `read_serial` reads one character per poll. The model takes any chunk of input at a time; `PySerial.SerialReadsCompose` states that this gives the same lines and buffer.
- `set_led_brightness` computes the PWM duty with a float, `int(b * 1023 / 255)`. It is modelled as the integer quotient, which is equal for every byte value.
- Hardware plumbing: pins, ADC, PWM and SPI registers, the ST7789 initialisation and drawing loops, `_delay_ms` and other delays, the BLE stack, the USB HID libraries and `sys.stdin`/`uselect` polling.
- The call of `processUartCommand` from the ATmega main loop (firmware/atmega/atmega_light/main.cpp:761): it races with the receive interrupt on a partly filled buffer. Only the interrupt path is modelled, with no scheduler.
- The accented-character remap in `st7789_draw_char`: it compares a signed `char` with values of 224 and above, so it never fires on the AVR. `AtmegaDisplay.AccentRemapNeverApplies` states this. The font bitmaps are not modelled.
- Macros that no header defines (`HID_KB_VOL_UP`, `HID_KB_VOL_DOWN`, `HID_KB_MUTE`, `BLE_VOLUME_STEP_DELAY_MS`, `ENC_VOLUME_COOLDOWN_MS`): model parameters.
- The encoder volume block of Encoder.cpp is under `#if ENABLE_ENCODER_VOLUME`, which nothing defines, so it is compiled out. It is modelled behind a parameter, and `EspEncoder.VolumeCompiledOut` states the build as shipped.
- Encoder.h declares fields that Encoder.cpp does not use, and not the ones it uses (`_lastState`, `_pendingDelta`, `_reportedPos`, `_lastDeltaTime`, `_btnStable`, `_btnLastChg`). The model follows Encoder.cpp.
- `_rotateCb(dir, 1)` passes two arguments to a one-argument callback type. It sits in the compiled-out block; the model records the direction.
- Auto-reconnect: only a stored setting, with no logic behind it.
- PyKeypad.ApplyKeysCell, PyKeypad.Keypad.HandleConfigMessage, PyKeypad.Keypad.SendConfigToWeb: a MicroPython `dict` is unordered. `json.loads` has already merged repeated member names, keeping the last value, and `keys.items()` and `json.dumps` (main.py:806, main.py:865) walk it in hash order. The model takes the members in the order of the message text, keeps repeated names, and sends the cells in the order the loop adds them. The order of the entries matters only when two different entries name one cell, for example "1-2" and "01-2"; then the source does not say which one wins. `PyKeypad.ApplyKeysOrderFree` states that otherwise the result does not depend on the order.
- PyKeypad.PyInt follows MicroPython's integer parser, which skips an underscore anywhere among the digits: "1__2" reads as 12, and "_" alone reads as 0. CPython's stricter rule, a single underscore only between digits, is not modelled. So the result promises a digit only for a string without underscores.
- WebProfiles.ProfileBook.SwitchToNextProfile stops after the repair that opens `switchProfile` (public/scripts/main.js:2807-2809). The rest of `switchProfile` is not modelled: the form reset, the grid redraw, `saveConfig` to localStorage, and the `sendConfigToESP32` made when connected, which puts the new profile's keys on the keypad. The send of a configuration message is modelled once, by `WebLink.DeviceLink.SendConfiguration`.
- Representation limits. `Common.Json` numbers are integers, so JSON fractions and exponents are not represented. A Dafny `char` cannot hold a lone surrogate, so the `\udxxx` escape `JSON.stringify` writes for one is not modelled. The `compareVersions` parts are exact integers, while `parseInt` rounds parts above 2^53.

## Findings

| source | as written | input that shows it | evidently intended | confidence | as-written member | corrected member |
|---|---|---|---|---|---|---|
| firmware/atmega/atmega_light/main.cpp:364-382 | `st7789_fill_rect` computes `w * h` in the AVR's 16-bit `int`, so the pixel count wraps modulo 65536 | the start-up fill of the whole 320x210 panel (main.cpp:735) sets a window of 67200 pixels and writes 1664 | write every pixel of the clipped window | not executed | `AtmegaDisplay.FillRectAsWritten`, `AtmegaDisplay.FullPanelFillShort` | `AtmegaDisplay.FillRect`, `AtmegaDisplay.FillRectExact` |
| firmware/esp32/esp32_micropython/HidOutput.cpp:62-65 | `HID_KB_RIGHT` is 0x52 and `HID_KB_UP` is 0x53 | the symbol `UP` sends usage 0x53, Keypad Num Lock; `RIGHT` sends 0x52, Up Arrow | Right Arrow 0x4F and Up Arrow 0x52 (section 10 of the USB HID Usage Tables 1.12) | not executed | `EspHid.KeycodeAndModifierAsWritten`, `EspHid.ArrowCodesAsWritten` | `EspHid.KeycodeAndModifier`, `EspHid.ArrowCodes` |
| firmware/esp32_micropython/main.py:532-547 | `except UnicodeDecodeError` names an exception MicroPython does not define, so an undecodable line raises `NameError`; the outer handler swallows it and the buffer is never cut | the BLE write `61 0A FF 0A`: `a` is processed, the buffer stays whole, and `a` is processed again on every later write | skip the undecodable line and keep reading | not executed | `PySerial.BleKeyboard.GattsWrite`, `PySerial.UndecodableLineReplays` | `PySerial.BleKeyboard.GattsWriteSkipping`, `PySerial.FragmentsCompose` |
| firmware/esp32_micropython/main.py:623-630 | a name cut to 22 octets is still sent as AD type 0x09, Complete Local Name | any device name of 23 octets or more | AD type 0x08, Shortened Local Name, for a cut name (section 1.2 of Part A of the Bluetooth Core Specification Supplement) | not executed | `PyHid.AdvertisingPayload`, `PyHid.CutNameMarkedComplete` | `PyHid.AdvertisingPayloadShortened`, `PyHid.ShortenedNameMarked` |
