# LabLex: a Dafny model of the vocabulary app's core

LabLex is a single-page React app for learning technical English vocabulary.
The user picks a level. They then give the app a text: an image, a PDF page
range of at most three pages, or typed text. A relay to a language model
returns the words in that text, grouped under level keys. The app shows them
as level tabs. A dialog for each word plays its pronunciation, which it
receives as raw 16-bit PCM and wraps into a WAV file. A multiple-choice quiz
runs over all the words found.

This project models the state and logic of that core in Dafny:

- `Types` (`types.dfy`): the word record, the vocabulary object and its
  lookup, the screens, and the quiz question. The vocabulary is an ordered
  list of (key, words) pairs, because the tab bar and the flattening of all
  words both follow JavaScript's key insertion order.
- `JsText` (`jstext.dfy`): the JavaScript string built-ins the core depends
  on:
  - `trim`, with the ECMAScript whitespace set;
  - `startsWith`;
  - `join`;
  - `toString` of a natural number;
  - `parseInt` without a radix.
- `WordModal` (`word_modal.dfy`):
  - the byte layout of the 44-byte RIFF/WAVE header;
  - the `DataView` writes of `pcmToWav` on an `array<byte>`, with wrap-around
    modulo 2^16 and 2^32 written out;
  - the `Uint8Array` copy of `base64ToArrayBuffer`;
  - the sample-rate pick from the MIME type;
  - the play button's loading flag.
- `Quiz` (`quiz.dfy`):
  - question generation;
  - a class for the quiz session (answer, advance, restart);
  - the score tally and the result percentage.

  A sort with a random comparator becomes `Shuffle(xs, picks)`: an explicit
  sequence of choices. It is proved to be a permutation, and every
  permutation is proved reachable.
- `GeminiService` (`gemini_service.dfy`): what the three relay calls make of
  the relay's reply: image text, the normalised vocabulary, and the speech
  clip.
- `PdfService` (`pdf_service.dfy`): page-range text extraction, written as a
  loop and proved against a specification function.
- `PdfPageModal` (`pdf_page_modal.dfy`): the page-range dialog's initial
  fields and its confirmation check.
- `ResultsDisplay` (`results_display.dfy`): the level tabs and their word
  counts, the active tab with its fallback, the word labels, and the quiz
  button's gate.
- `InputArea` (`input_area.dfy`): file choice, the process button, the text
  box, and the PDF dialog. Each handler returns the callbacks it fires, as a
  list of events.
- `App` (`app.dfy`): the screen state machine and its handlers.

What the model takes as inputs:

- I/O outcomes: the relay's reply, what `JSON.parse` returns, the
  `FileReader` result, pdf.js's pages and `atob`'s string.
- Randomness: pick sequences.

A few behaviours follow the code rather than its design text:

- The analyser stores its first level under "اختصاصی", while the selector
  offers "مقدماتی". The beginner tab is therefore always empty
  (`ResultsDisplay.BeginnerTabStaysEmpty`, `App.BeginnerLevelNeverFound`).
- The quiz does not make option texts distinct: two entries with the same
  definition give two options with the same text.
- A failure inside `startProcessing` calls `handleError` and then
  `handleReset` in the same batch, so the error message is cleared before it
  is shown.

## Model

| member | source | states |
|---|---|---|
| Types.Lookup | types.ts:11-15 | `vocabularyData[key]` is undefined exactly when no entry has that key; otherwise it is the list of an entry with that key |
| Types.LookupEntry | types.ts:11-15 | with distinct keys, looking up an entry's key returns that entry's list |
| Types.Keys | components/ResultsDisplay.tsx:52 | `Object.keys` lists the keys in entry order, one per entry |
| Types.AllWords | App.tsx:92 | the flattened word list holds every level's words with their multiplicities (as many words as all levels together, exactly the words of some level); one level flattens to its own list |
| Types.AllWordsConcat | App.tsx:92 | flattening keeps key order: the words of earlier levels come before those of later ones |
| JsText.TrimStart | components/InputArea.tsx:57 | removes exactly the leading run of whitespace: what remains is a suffix that does not start with whitespace |
| JsText.TrimEnd | components/InputArea.tsx:57 | removes exactly the trailing run of whitespace: what remains is a prefix that does not end with whitespace |
| JsText.BlankIffAllWhitespace | components/InputArea.tsx:57 | `!text.trim()` holds exactly when every character is whitespace |
| JsText.TrimIsSlice | components/ResultsDisplay.tsx:38 | `trim()` is a slice of the input with only whitespace cut off at both ends |
| JsText.TrimEnds | components/ResultsDisplay.tsx:38 | a trimmed string neither starts nor ends with whitespace |
| JsText.TrimPrefix | components/ResultsDisplay.tsx:38 | trimming the first n characters gives a slice of them with only whitespace cut off and no whitespace at either end |
| JsText.Join | services/pdfService.ts:20-23 | a one-element join is that element; the length is the parts' total plus one separator between neighbours |
| JsText.JoinSnoc | services/pdfService.ts:21-23 | pushing one more part appends the separator and that part to the join |
| JsText.DigitRun | components/PdfPageModal.tsx:22-23 | the digits `parseInt` reads: the longest prefix of digits in the radix, stopped by the first non-digit |
| JsText.DecimalString | components/PdfPageModal.tsx:13 | `n.toString()` is a non-empty string of decimal digits without a leading zero |
| JsText.DecimalStringValue | components/PdfPageModal.tsx:13 | reading the digits of `n.toString()` back gives `n` |
| JsText.DigitsUntouched | components/PdfPageModal.tsx:22-23 | a string of digits has nothing to trim and is its own digit run |
| JsText.DigitsParse | components/PdfPageModal.tsx:22-23 | `parseInt` of a string of decimal digits is the number they denote |
| JsText.DecimalStringParses | components/PdfPageModal.tsx:12-23 | `parseInt(n.toString()) == n`, so the dialog's initial fields parse back to their numbers |
| JsText.EmptyIsNaN | components/PdfPageModal.tsx:22-25 | an empty field, and a field holding one space, parse to NaN |
| JsText.Negated | components/PdfPageModal.tsx:22-23 | a minus turns a number read into its negation and leaves NaN as NaN |
| JsText.StartsWithDigit | components/PdfPageModal.tsx:22-23 | a string that starts with a digit has no whitespace or sign to skip, so `parseInt` reads it unsigned |
| JsText.TrimStartSkips | components/PdfPageModal.tsx:22-23 | `parseInt` skips exactly the leading whitespace, up to the first character that is not whitespace |
| JsText.DigitRunStops | components/PdfPageModal.tsx:22-23 | a run of digits of the radix is read up to the first character that is not one, and that character and all after it are ignored |
| JsText.SignTaken | components/PdfPageModal.tsx:22-23 | one '-' or '+' is taken; a minus negates what is read after it, and NaN stays NaN |
| JsText.ParseAfterWhitespace | components/PdfPageModal.tsx:22-23 | whitespace, at most one sign, then the rest: `parseInt` is the unsigned read of the rest, negated after a minus |
| JsText.ReadStartsWithDigit | components/PdfPageModal.tsx:22-23 | whatever reads as a number starts with a decimal digit, never with whitespace or a sign |
| JsText.ReadsDecimal | components/PdfPageModal.tsx:22-23 | decimal digits without a "0x" prefix are read in radix 10 up to the first non-digit |
| JsText.ReadsHex | components/PdfPageModal.tsx:22-23 | after "0x" or "0X" the digits are read in radix 16 up to the first character that is not a hexadecimal digit |
| JsText.DecimalReads | components/PdfPageModal.tsx:22-23 | the digits of `n.toString()`, followed by anything that does not continue them, read as `n` |
| JsText.ParseSignedDecimal | components/PdfPageModal.tsx:22-23 | whitespace, one optional sign, the digits of `n` and a non-digit tail parse to `n`, or to `-n` after a minus |
| JsText.ParseNoDigits | components/PdfPageModal.tsx:22-25 | whitespace and at most one sign followed by no digit parse to NaN |
| JsText.ParseDecimalExample | components/PdfPageModal.tsx:22-23 | `parseInt(" -42px")` is -42: whitespace is skipped, the sign taken, the unit ignored |
| JsText.ParseHexExample | components/PdfPageModal.tsx:22-23 | `parseInt(" -0x1F;")` is -31: the "0x" prefix switches to radix 16 |
| WordModal.ByteString | components/WordModal.tsx:42 | each character is stored as its code modulo 256, one byte per character |
| WordModal.Le16Reads | components/WordModal.tsx:49-50 | the two bytes `setUint16(…, true)` writes read back as the value modulo 2^16 |
| WordModal.Le32Reads | components/WordModal.tsx:45 | the four bytes `setUint32(…, true)` writes read back as the value modulo 2^32 |
| WordModal.Int16RoundTrip | components/WordModal.tsx:57 | a sample written by `setInt16(…, true)` reads back as the same signed 16-bit value |
| WordModal.DecodePcm | components/WordModal.tsx:68 | `new Int16Array(buffer)` accepts exactly the even-length buffers and yields half as many samples |
| WordModal.DecodePcmBytes | components/WordModal.tsx:68 | decoding the little-endian bytes of samples gives those samples back |
| WordModal.PcmBytesDecode | components/WordModal.tsx:68 | re-encoding the decoded samples of an even-length buffer gives the buffer back |
| WordModal.RiffFields | components/WordModal.tsx:44-46 | the descriptor reads as "RIFF", then 36 + 2n modulo 2^32, then "WAVE" |
| WordModal.FmtTagFields | components/WordModal.tsx:47-50 | the format chunk reads as "fmt ", then size 16, then format 1, then the channel count modulo 2^16 |
| WordModal.FmtRateFields | components/WordModal.tsx:51-54 | then the sample rate, the byte rate rate·channels·2, the block alignment channels·2 and 16 bits per sample, each wrapped to its field width |
| WordModal.DataFields | components/WordModal.tsx:55-56 | the data chunk header reads as "data", then 2n modulo 2^32 |
| WordModal.WavHeaderFields | components/WordModal.tsx:39-57 | every header field of the file, read at its offset, holds the value `pcmToWav` wrote there |
| WordModal.MonoHeaderExact | components/WordModal.tsx:67-69 | for the mono file the player builds, with a rate and length that fit, no field wraps and each holds its exact value |
| WordModal.WavSamplesRoundTrip | components/WordModal.tsx:57 | every sample reads back at offset 44 + 2i, and the data section decodes to the samples |
| WordModal.WavHeaderIgnoresSamples | components/WordModal.tsx:40-56 | the header depends on the number of samples, never on their values |
| WordModal.WriteString | components/WordModal.tsx:42 | `writeString` overwrites exactly the bytes at offset..offset+len with the characters' codes and leaves the rest |
| WordModal.SetUint16 | components/WordModal.tsx:49 | overwrites exactly two bytes with the little-endian value modulo 2^16 |
| WordModal.SetInt16 | components/WordModal.tsx:57 | overwrites exactly two bytes with the sample's two's-complement little-endian bytes |
| WordModal.SetUint32 | components/WordModal.tsx:45 | overwrites exactly four bytes with the little-endian value modulo 2^32 |
| WordModal.WriteRiffDescriptor | components/WordModal.tsx:44-46 | the three descriptor writes leave bytes 0..12 equal to the RIFF descriptor and the rest unchanged |
| WordModal.WriteFmtChunk | components/WordModal.tsx:47-54 | the eight format writes leave bytes 12..36 equal to the format chunk and the rest unchanged |
| WordModal.WriteDataChunkHeader | components/WordModal.tsx:55-56 | the two data-header writes leave bytes 36..44 equal to the data chunk header and the rest unchanged |
| WordModal.WriteWavHeader | components/WordModal.tsx:44-56 | the ten header writes, in order, leave the first 44 bytes equal to the WAV header |
| WordModal.WriteSample | components/WordModal.tsx:57 | one loop iteration extends the written prefix by one sample's two bytes |
| WordModal.PcmToWav | components/WordModal.tsx:39-59 | the buffer is exactly the WAV header followed by the samples' little-endian bytes |
| WordModal.Base64ToArrayBuffer | components/WordModal.tsx:29-37 | one byte per character, each its code modulo 256 (the code itself for a Latin-1 character) |
| WordModal.FirstRateMatch | components/WordModal.tsx:66 | the leftmost position where "rate=" is followed by a digit, or none |
| WordModal.SampleRate | components/WordModal.tsx:66-67 | the value of the digit run after the first "rate=<digit>" match, else 24000 |
| WordModal.ShouldPlayGate | components/WordModal.tsx:65 | a reply is played exactly when its data is non-empty and its type starts with "audio/"; the relay's PCM type qualifies, an empty payload or an octet stream does not |
| WordModal.PlaybackWav | components/WordModal.tsx:61-78 | a WAV is played exactly when the reply is audio with data and the decoded payload has even length; its format is 1 channel at the parsed rate, its data section is exactly the payload's bytes, with size 44 + payload |
| WordModal.PronunciationPlayer.constructor | components/WordModal.tsx:13 | the loading flag starts false |
| WordModal.PronunciationPlayer.BeginPlayback | components/WordModal.tsx:62 | a click sets the loading flag, which disables the button |
| WordModal.PronunciationPlayer.FinishPlayback | components/WordModal.tsx:63-77 | the handler's steps yield the file `PlaybackWav` specifies, and `finally` clears the flag on every path |
| Quiz.Shuffle | components/Quiz.tsx:20 | a random-comparator sort keeps the length |
| Quiz.ShufflePermutes | components/Quiz.tsx:20 | whatever the random choices, the result is a permutation of the input |
| Quiz.ShuffleReachesEvery | components/Quiz.tsx:20 | every permutation of the input is the result for some choice of picks |
| Quiz.PicksFor | components/Quiz.tsx:20 | constructs the picks that produce a given permutation |
| Quiz.ShuffleCount | components/Quiz.tsx:25 | rearranging keeps the number of elements with any property, so the one correct option stays one |
| Quiz.ShuffleMap | components/Quiz.tsx:20-26 | mapping after rearranging is rearranging after mapping with the same picks |
| Quiz.DifferentWord | components/Quiz.tsx:23 | the filter keeps exactly the entries whose word differs from the question's, and no more entries than there are words |
| Quiz.DifferentWordCounts | components/Quiz.tsx:23 | the filter keeps each entry with a different word as often as it occurs and drops every other entry, so its length is the number of entries with a different word |
| Quiz.GenerateQuiz | components/Quiz.tsx:19-29 | one question per word |
| Quiz.DistractorsChosen | components/Quiz.tsx:23 | min(3, others) distractors, drawn without repetition from the entries with a different word |
| Quiz.OneCorrectOption | components/Quiz.tsx:22-25 | after the options are rearranged, exactly one of them is correct |
| Quiz.OptionTexts | components/Quiz.tsx:22-26 | the correct option carries the entry's definition; each wrong one carries the definition of an entry with a different word |
| Quiz.MakeQuestion | components/Quiz.tsx:21-26 | the question keeps its entry's word and definition and offers the correct definition plus up to three distractors with other words |
| Quiz.MakeQuestionWellFormed | components/Quiz.tsx:21-27 | each question keeps its entry's word and definition, has 1 + min(3, others) options with exactly one correct, and its options are the pool rearranged |
| Quiz.GenerateQuizCovers | components/Quiz.tsx:19-29 | the (word, definition) pairs of the questions are a rearrangement of the entries' pairs, and every question is well formed |
| Quiz.CorrectOptionText | components/Quiz.tsx:76-80 | in a generated quiz, an option marked correct carries its question's definition |
| Quiz.RecordAnswer | components/Quiz.tsx:35-41 | one answer adds one to the score, or appends the current question to the missed list |
| Quiz.AnswerTally | components/Quiz.tsx:35-41 | the score plus the missed count equals the number of answers |
| Quiz.Percentage | components/Quiz.tsx:91 | `Math.round(score / total * 100)`: the nearest whole percent, with halves rounded up, and 0 with no questions |
| Quiz.PercentageBounds | components/Quiz.tsx:91 | the percentage is at most 100, and exactly 100 for a full score |
| Quiz.SelectStep | components/Quiz.tsx:35-41 | selecting an option of the current question keeps the session consistent, and a correct option's text is the definition |
| Quiz.QuizSession.constructor | components/Quiz.tsx:12-33 | empty state, then the questions the mount effect generates, as a consistent session |
| Quiz.QuizSession.SelectAnswer | components/Quiz.tsx:35-41 | records the selection, which disables the options; a correct answer scores one, a wrong one appends the question to the missed list; the session stays consistent |
| Quiz.QuizSession.Advance | components/Quiz.tsx:43-50 | the timer moves to the next question and clears the selection, or finishes the quiz on the last question; score and missed list are unchanged |
| Quiz.QuizSession.Restart | components/Quiz.tsx:53-60 | everything back to the start, with freshly generated questions |
| Quiz.QuizSession.ResultPercentage | components/Quiz.tsx:91 | the percentage shown on the results screen is at most 100 |
| Quiz.SessionTally | components/Quiz.tsx:107-126 | score plus missed answers equals the answers given, and equals the number of questions once the quiz is finished |
| GeminiService.ExtractTextFromImage | services/geminiService.ts:13-37 | a non-ok response gives the relay error; a rejected fetch or body keeps its own message; otherwise the reply's `text` field |
| GeminiService.Normalise | services/geminiService.ts:73-78 | exactly the three analyser keys, in order; each holds the parsed list when there is one, else an empty list; other keys are dropped |
| GeminiService.LookupNormalised | services/geminiService.ts:73-78 | looking up any key in the normalised object gives `parsed[key] \|\| []` for an analyser key, and nothing otherwise |
| GeminiService.NormaliseHasNoBeginner | services/geminiService.ts:74-78 | the selector's beginner level is never a key of the analysis result |
| GeminiService.AnalyzeText | services/geminiService.ts:55-85 | every failure on the way becomes the one analysis error; success means an ok reply whose trimmed text parses to an object, and gives the three keys |
| GeminiService.AnalysisCopiesLists | services/geminiService.ts:70-80 | a successful analysis holds the parsed list (or an empty one) under each analyser key |
| GeminiService.FirstInlineData | services/geminiService.ts:107 | the optional chain finds inline data exactly when each link of the path exists |
| GeminiService.GetTextToSpeech | services/geminiService.ts:91-122 | every failure becomes the one speech error; success means an ok reply whose first part of the first candidate has inline data |
| GeminiService.SpeechFromFirstPart | services/geminiService.ts:107-114 | the clip is the data and MIME type of that first part, whatever follows it |
| GeminiService.SpeechWithoutAudio | services/geminiService.ts:107-120 | no candidates, or a first part without inline data, gives the speech error |
| PdfService.PageTexts | services/pdfService.ts:16-22 | one text per page from start to end, in page order, each the page's items joined by spaces |
| PdfService.Extraction | services/pdfService.ts:2-32 | each failure maps to its own message (reader, empty result, pdf.js, range); it succeeds exactly when the document opens and 1 <= start <= end <= numPages |
| PdfService.ExtractTextFromPdf | services/pdfService.ts:2-32 | the loop's result equals `Extraction`; it visits pages start..end in ascending order, and none on an error |
| PdfService.ExtractionJoinsPages | services/pdfService.ts:16-23 | one page gives its text; each further page adds a blank line and its text |
| PdfService.NoLengthLimit | services/pdfService.ts:12-14 | the extractor itself accepts ranges longer than three pages |
| PdfPageModal.InitialFields | components/PdfPageModal.tsx:12-13 | the fields start as "1" and min(3, totalPages), and parse back to those numbers |
| PdfPageModal.HandleProcess | components/PdfPageModal.tsx:21-34 | `onProcess(start, end)` exactly when both fields parse, 1 <= start <= end <= totalPages and the range spans at most 3 pages; otherwise one of the two messages, and the bounds message exactly when the bounds fail |
| PdfPageModal.AcceptedRangeFits | components/PdfPageModal.tsx:25-33 | an accepted range lies inside the document and spans 1 to 3 pages |
| PdfPageModal.BoundsCheckedFirst | components/PdfPageModal.tsx:25-31 | a range that is both out of bounds and too long is reported as out of bounds |
| PdfPageModal.UnparsableRejected | components/PdfPageModal.tsx:22-27 | a field that is not a number gives the invalid-range message |
| PdfPageModal.DefaultRangeAccepted | components/PdfPageModal.tsx:12-33 | confirming the untouched fields of a non-empty document processes pages 1 to min(3, totalPages) |
| ResultsDisplay.FirstNonEmpty | components/ResultsDisplay.tsx:19 | the first key, in key order, whose list is non-empty; none when all are empty |
| ResultsDisplay.RenderLevel | components/ResultsDisplay.tsx:26-42 | the empty message exactly when the level has no list or an empty one; otherwise one button per word, labelled with `WordLabel` |
| ResultsDisplay.BeforeParen | components/ResultsDisplay.tsx:38 | `split('(')[0]` is the longest prefix without '(' |
| ResultsDisplay.WordLabel | components/ResultsDisplay.tsx:38 | the label is the text before the first '(' with the whitespace at both ends cut off: a slice of the word, with only whitespace around it up to the '(', and no '(' in it; a word without '(' is only trimmed |
| ResultsDisplay.LabelIsTrimmedPrefix | components/ResultsDisplay.tsx:38 | the trimmed text before the first '(' is such a slice |
| ResultsDisplay.ShowsQuizButton | components/ResultsDisplay.tsx:64 | the quiz button is shown exactly when all levels together hold at least four words |
| ResultsDisplay.TabLabels | components/ResultsDisplay.tsx:52-55 | one tab per key, in key order, each labelled with its key's list length |
| ResultsDisplay.LookupEveryEntry | components/ResultsDisplay.tsx:52-55 | with distinct keys, looking up every tab's key finds that entry's list |
| ResultsDisplay.ResultsView.constructor | components/ResultsDisplay.tsx:14 | the active tab starts as the initial level |
| ResultsDisplay.ResultsView.ApplyFallback | components/ResultsDisplay.tsx:16-22 | when the initial level's list exists and is empty, the tab moves to the first level with words, if there is one and its key is truthy (non-empty); otherwise it is unchanged |
| ResultsDisplay.ResultsView.SelectTab | components/ResultsDisplay.tsx:53 | a click makes that level active |
| ResultsDisplay.MountResults | components/ResultsDisplay.tsx:13-22 | after mounting and the effect, the active tab is `InitialTab` |
| ResultsDisplay.InitialTab | components/ResultsDisplay.tsx:16-22 | a level whose list is not empty, or that is absent, is kept; the tab only moves to a non-empty key whose list has words |
| ResultsDisplay.InitialTabHasWords | components/ResultsDisplay.tsx:16-22 | an absent initial level is kept, and so is an empty one when the first level with words has the empty key; with non-empty keys, an empty initial level gives way to a tab with words whenever a level has words |
| ResultsDisplay.FallbackHasWords | components/ResultsDisplay.tsx:19-21 | with non-empty keys, the fallback from an empty initial level lands on a tab that shows word buttons |
| ResultsDisplay.BeginnerTabStaysEmpty | components/ResultsDisplay.tsx:16-29 | for an analysis result, the beginner level stays the active tab and shows the empty message |
| InputArea.AcceptedTypes | components/InputArea.tsx:28 | a file is accepted exactly when its type starts with "image/" or is "application/pdf", compared case-sensitively and in full |
| InputArea.InputArea.constructor | components/InputArea.tsx:13-18 | no file, no name, no text, dialog closed |
| InputArea.InputArea.HandleFileChange | components/InputArea.tsx:21-34 | no file changes nothing; an image or PDF is kept and its name shown; any other type is reported and the selection cleared |
| InputArea.InputArea.EditText | components/InputArea.tsx:93 | typing replaces the text and nothing else |
| InputArea.InputArea.HandleProcessClick | components/InputArea.tsx:36-54 | no file is an error; an image is handed on; a PDF opens the page dialog with its page count, or reports a load failure |
| InputArea.InputArea.HandleProcessText | components/InputArea.tsx:56-62 | blank text is an error; otherwise the text goes on untrimmed |
| InputArea.InputArea.ConfirmPdfRange | components/InputArea.tsx:100-109 | the dialog's check decides; an accepted range hands the stored file on with that range and closes the dialog; an error leaves it open |
| InputArea.InputArea.ClosePdfModal | components/InputArea.tsx:103 | closing the dialog changes nothing else |
| App.ErrorText | App.tsx:49 | an Error's message, else the unknown-error text |
| App.AllWordsOf | App.tsx:92 | no vocabulary gives no words; otherwise the words of all levels, each as often as it occurs in them |
| App.NoTextIffWhitespace | App.tsx:40 | the extracted text counts as missing exactly when it is absent or every character is whitespace |
| App.App.constructor | App.tsx:17-22 | the initial state is the reset state |
| App.App.HandleError | App.tsx:24-29 | from the input or loading screen, shows the message and goes to the input screen; nothing else changes |
| App.App.HandleLevelSelect | App.tsx:31-34 | stores one of the three levels and goes to the input screen; with each processing flow settling before the next begins, every later screen has a level chosen |
| App.App.HandleReset | App.tsx:83-90 | back to level selection with everything cleared |
| App.App.FinishProcessing | App.tsx:38-51 | no text keeps the vocabulary and reports it; an analysed text puts the results screen on show (view, vocabulary and level all set); a rejection or analysis error ends in the reset state |
| App.App.AnalyseText | App.tsx:40-47 | blank or missing text is an error; otherwise the loading text changes and the analysis is shown on the results screen |
| App.App.ShowAnalysis | App.tsx:45-51 | a result is stored and the results screen is on show; an error is reported and then everything is reset |
| App.App.StartProcessing | App.tsx:36-52 | the loading screen never remains once the text and analysis have settled, and the outcome is one of the three above: the no-text error on the input screen, the results screen on show, or the reset state |
| App.App.HandleProcessText | App.tsx:54-57 | blank text ends on the input screen with the no-text error; otherwise the results screen is on show with the analysis, or an analysis error ends in the reset state |
| App.App.HandleProcessImage | App.tsx:59-68 | a read failure is reported; an image-to-text failure ends in the reset state; a missing or blank image text gives the no-text error on the input screen; otherwise the results screen shows the analysis, or an analysis error ends in the reset state |
| App.App.HandleProcessPdf | App.tsx:70-73 | an extraction error ends in the reset state; blank page text gives the no-text error on the input screen; otherwise the results screen shows the analysis, or an analysis error ends in the reset state |
| App.App.HandleStartQuiz | App.tsx:75-77 | moves to the quiz, which gets exactly the shown vocabulary's words |
| App.App.HandleQuizEnd | App.tsx:79-81 | back to the results screen |
| App.App.SelectWord | App.tsx:116-129 | opening or closing the word dialog changes only the selected word |
| App.LookupFindsKeys | App.tsx:110-113 | a key is found exactly when it is one of the object's keys |
| App.BeginnerLevelNeverFound | App.tsx:110-113 | whatever the app has analysed, the beginner level has no list and the specialist level has one |

## Left out

- Network I/O, `FileReader`, pdf.js, `atob`, `Blob`, `URL.createObjectURL` and `Audio` are not modelled. Their outcomes are parameters of the operations that use them.
- Timers are not modelled:
  - the 1.5 s quiz advance is the separate `Advance` call;
  - the 4 s clearing of the error message and the 300 ms closing delays of the dialogs are left out.
- JSX rendering, CSS classes, the results ring's geometry and the random motivational quote are not modelled. These are presentation only.
- The prompts sent to the relay are not modelled, and neither are the relay itself (`api/gemini.js`), `BackgroundEffects`, `Header`, `LevelSelector`, `ErrorMessage` or `constants.ts`. None of them takes part in the state logic.
- WordModal's visibility flag and the Escape-key listener are not modelled. They are presentation only.
- InputArea's file/text tab switch is not modelled. It only decides which controls are on screen.
- GeminiService.Normalise: a truthy value under a level key that is not an array is not represented. `JsonValue` distinguishes null, falsy values and word lists; a parsed reply that is a number, a string or an array is given as an object with no fields, which `x || []` treats the same way.
- PdfService.ExtractTextFromPdf: a failure of `getPage` or `getTextContent` for a page inside the range is not modelled. Opening the document is the only pdf.js failure represented, and it gives the same processing error.
- Quiz.Percentage: computed on rationals. Binary floating point in `(score / length) * 100` can round a value that is exactly a half differently, for example when the exact value is 57.5.
- Quiz.QuizSession.SelectAnswer: requires that no answer is selected yet. The source disables the options with `!!selectedAnswer`, so after an option whose text is empty another click is still possible; the model does not cover that second click.
- Quiz.Shuffle: it does not model the distribution of `sort(() => 0.5 - Math.random())`, only which arrangements are possible.
- Quiz.QuizSession: the questions are not regenerated when the parent re-renders. `allWords` is a new array on every render of the app, so the quiz's `generateQuiz` callback and its mount effect run again on any such render, for example when the 4 s timer clears an error message during a quiz. The index, score, missed list and selection are kept while the questions change, and the session invariant relating the missed list to the questions then no longer holds. The model generates questions only on mount and on restart.
- App.App.StartProcessing: each processing flow is one uninterrupted step from the loading screen to its settled outcome, so the model requires the input screen. Overlapping flows are not modelled. The process button stays enabled while a `FileReader` is pending (components/InputArea.tsx:83), and `startProcessing` runs only in `reader.onloadend` (App.tsx:62-64). A second flow can therefore start before the first settles, and a late result can then land in a state the first flow has already reset.
- App.App.HandleProcessImage: the flow is modelled as uninterrupted from the click to its outcome. Example trace the model does not capture: flow A fails and resets to level selection with no level chosen; flow B, started while A was pending, then succeeds and sets the results view. The guard at App.tsx:110 is false, so nothing is rendered, and `App.Valid`'s "a later screen has a level chosen" does not hold in that state.
- App.App.HandleProcessImage: `reader.result.split(',')[1]` is not modelled. The image data reaches the relay as the reply parameter.
