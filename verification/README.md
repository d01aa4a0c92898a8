# Braille letter input: translation and read loop

This project models the browser side of the Wayv Braille-learning aid. A
fold-sensor device sends text over a serial port. The page reads the decoded
text chunk by chunk. Each chunk that is exactly one lower-case letter `a`–`z`
becomes the matching upper-case letter, which is written to the page's
output element and spoken aloud. Any other non-empty chunk clears the output
element and nothing is spoken. Empty chunks are skipped.

The model has three modules:

- `Letters` (`letters.dfy`): the 26-letter alphabet and the lower/upper case
  mapping. This is the reference the translation is measured against.
- `BrailleInput` (`braille_input.dfy`): `Translate`, the 26-branch
  exact-match chain of `handleBrailleInput`, written branch by branch as in
  the source. `HandleBrailleInput` adds its two effects. The page's output
  element and the speech sink are the two fields of a `Page` value: the
  current `display` string and the ordered list of `spoken` strings.
- `SerialRead` (`serial_read.dfy`): the `readSerialData` loop as a fold over
  a finite sequence of read results. A `Chunk(value)` is a read that returned
  text. `Done` is the end of the stream. Empty chunks are skipped, as in the
  source's truthiness test. Nothing after the first `Done` is looked at. The
  loop's result is related to independent reference definitions:
  `Delivered` (the chunks before the first `Done`), `Spoken` (their non-empty
  translations, in order) and `LastNonEmpty`.

The code does no trimming and no case folding. A chunk such as `"a\r\n"`,
`" a"` or `"A"` is rejected: the display is cleared and nothing is spoken
(`TranslateRejectsNearMisses`).

## Model

| member | source | states |
|---|---|---|
| BrailleInput.Translate | script.js:38-121 | The result is either "" or one upper-case letter. It is non-empty exactly when the chunk is one lower-case letter and nothing else. It is then that letter in upper case, and lower-casing it gives back the chunk. |
| BrailleInput.TranslateAlphabet | script.js:43-120 | Each of the 26 letters "a".."z" translates to its own letter "A".."Z", position for position. |
| BrailleInput.TranslateInjective | script.js:43-120 | Two chunks that are accepted and translate to the same letter are equal. |
| BrailleInput.TranslateRejectsNearMisses | script.js:42-121 | No trimming or case folding is done: "", "A", "Z", "ab", "a\r\n", "a\n", " a", "a " and "1" all translate to "". |
| BrailleInput.HandleBrailleInput | script.js:38-131 | For a letter chunk, the display becomes the upper-case letter and exactly that string is appended once to the spoken list. For any other chunk, the display is cleared to "" and the spoken list is unchanged. |
| BrailleInput.DisplayOverwritten | script.js:125 | The display after a call depends only on the chunk. Nothing of the previous display is kept. |
| BrailleInput.SpokenMatchesDisplay | script.js:43-131 | One call speaks at most once and keeps earlier speech as a prefix. It speaks exactly when the new display is non-empty, and what it speaks equals the display. |
| SerialRead.ReadSerialData | script.js:24-36 | The loop only appends to the spoken list: earlier speech is a prefix, and at most one letter is spoken per read. Every string it speaks is one upper-case letter. The final display is the old display, "" or one upper-case letter. |
| SerialRead.Delivered | script.js:26-34 | The chunks read before the first `Done`, empty ones included: the longest prefix of the reads that holds no `Done`. If a read follows them, that read is `Done`. |
| SerialRead.ReadSerialDataSpoken | script.js:24-36 | After the loop, the spoken list has grown by exactly the non-empty translations of the delivered chunks, in arrival order. |
| SerialRead.ReadSerialDataDisplay | script.js:24-36 | After the loop, the display is the translation of the last non-empty delivered chunk. If no non-empty chunk was delivered, the display is unchanged. |
| SerialRead.DoneStops | script.js:26-31 | Reads after the first `Done` have no effect on the display or the speech. |
| SerialRead.EmptyChunkSkipped | script.js:32-34 | An empty chunk anywhere in the reads leaves the outcome exactly as if it had not arrived. |
| SerialRead.ReadSerialDataExample | script.js:24-126 | Reads "h", "i\r\n", "", "i", then `Done`, then "x": the loop ends showing "I" after speaking "H" then "I". The line-ended chunk clears the display without speaking, and the late "x" is ignored. |

## Left out

- Web Serial connection setup (`requestPort`, `port.open` at 9600 baud, `TextDecoderStream` piping) and releasing the reader lock (script.js:6-22, 29): browser I/O. The reads are a parameter of the model.
- Awaiting the reader: the asynchronous, unbounded stream is modelled as a finite sequence of read results. A sequence that ends without `Done` stands for a loop still waiting for its next read.
- How the bytes are split into chunks by the serial transport and the text decoder: this is decided outside the code, so any chunking is allowed as input.
- `SpeechSynthesisUtterance` / `speechSynthesis.speak` (script.js:128-131) and the DOM write (script.js:125): modelled only as the `spoken` list and the `display` string of `Page`. Speech playback timing is not modelled.
- The `console.log`/`console.error` calls and the connection-failure catch branch (script.js:19-20, 28, 39): logging only, with no effect on display or speech.
- The feature check for the Web Serial API, the `alert`, and the button wiring (script.js:2, 133-135): environment checks with no logic.
- public/script.js: an Express server and a `serialport` line parser. It keeps the last trimmed line and serves it over HTTP. This is network and I/O wiring over libraries that are not part of this model, with no logic beyond trimming.
- Abnormal ends of the read loop: if `await reader.read()` rejects (script.js:26), for example when the device is unplugged, the async loop ends with an unhandled rejection and without `releaseLock`, since `readSerialData()` is not awaited inside the `try` (script.js:7-21). For display and speech this is the same as a `Done` at that point, or a read sequence that stops there. If the write to `#brailleOutput` throws (script.js:125), the loop also ends; that chunk's letter has already been spoken but the display keeps its old value. The model assumes the output element exists and has no error path for either case.
- Several loops: a second click on Connect starts another loop over the shared global `reader` (script.js:4, 15, 18, 133). The model has a single loop.
