# Laban ASCII score converter, modelled in Dafny

The converter reads a movement score written as plain text and produces a list of
frames. A data line has a timestamp and six body-part columns: left arm, left leg,
trunk, right leg, right arm and head. The columns are separated by `|`. Each column
holds a five-character block `[mode][direction][level][flexion][rotation]`. The
block decoder (`parse_laban_block`) turns one block into a descriptor. It returns
`hold` for `.....` or five spaces and `neutral` for any block that starts with
`X`. Any other block is read position by position through fixed lookup tables.
The line loop of `convert_file` does the rest. It strips each line and skips
blank, `TIME`, `=` and `//` lines. It splits the line on `|`, strips every field
and skips lines with fewer than seven fields. For every other line it builds one
frame and appends it to the score.

The project has four modules:

- `PyStr` (`pystr.dfy`) models the Python string built-ins the code uses:
  `str.strip()`, `str.split('|')` and `str.startswith`. Strip is shown to be the
  unique trimmed infix left after removing whitespace from both ends. Split is
  shown to be the inverse of joining with the separator.
- `Laban` (`laban.dfy`) models the decoder: the enumerations, the descriptor
  datatype, the five lookup tables, and `ParseBlock`. A block that is neither a
  hold nor a neutral block and has fewer than five characters gives
  `Err(IndexOutOfRange(|block|))`. That is the `IndexError` Python raises.
- `Converter` (`converter.dfy`) models the line loop. `ReadLine` is one iteration.
  `Convert` is the specification of the whole loop. `ConvertLines` is the loop
  itself, appending to a local score and proved equal to `Convert`.
- `Examples` (`worked_example.dfy`) checks concrete lines: the line
  `00:01 | s8-v> | ..... | X---- | g4_!< | s8-v> | .....` and its frame, a header
  line, a comment line, a blank line and a line with only five fields. It also
  checks a four-line score (header, comment, blank line, data line), which
  converts to one frame.

The model follows the code, including where it is less forgiving than the
notation suggests:

- One could expect the empty block to decode to `hold`, or short blocks to fall
  back to the default for each field. In the code, a block shorter than five
  characters that is not `.....`, five spaces or `X…` raises `IndexError` at
  `block[len(block)]` (Laban_ASCII_JSON_converter.py:24-28). The exception escapes
  `convert_file`, so no score is produced. `Convert` returns the error of the first
  such line.
- Fields are stripped before they are decoded (line 42), so the five-space hold
  spelling at line 8 can never match when the decoder is called from the loop
  (`SpacesHoldUnreachable`). A column of spaces reaches the decoder as `""`, and
  the conversion fails (`BlankFieldFails`).
- The hold test compares the whole block. So `......` (six dots) is not a hold; it
  decodes to an `unknown` posture (`SixDotsNotHold`). Characters after position 4
  are ignored only in blocks that are not exactly a hold spelling (`TailIgnored`).

## Model

| member | source | states |
|---|---|---|
| `PyStr.Strip` | Laban_ASCII_JSON_converter.py:37 | the result is `s` with whitespace removed from both ends, neither starts nor ends with whitespace, and is empty exactly when `s` is all whitespace |
| `PyStr.StripUnique` | Laban_ASCII_JSON_converter.py:37 | any trimmed string obtained by removing whitespace from both ends of `s` is `Strip(s)`, so the contract of `Strip` determines it |
| `PyStr.StripIdempotent` | Laban_ASCII_JSON_converter.py:42 | stripping an already stripped string changes nothing |
| `PyStr.Split` | Laban_ASCII_JSON_converter.py:42 | `k` separators give `k + 1` fields, no field contains the separator, empty fields are kept, and joining the fields with the separator gives back the input |
| `PyStr.SplitJoin` | Laban_ASCII_JSON_converter.py:42 | splitting a join of separator-free fields gives back exactly those fields |
| `Laban.DecodeMode` | Laban_ASCII_JSON_converter.py:21-24 | `s` is support, `g` gesture, every other character unknown, and a recognised mode is read from exactly its own character |
| `Laban.DecodeDirection` | Laban_ASCII_JSON_converter.py:14-25 | the digits `0`-`9` and only they give a direction, each recognised direction comes from exactly one digit (one-to-one), everything else is `none` |
| `Laban.DecodeLevel` | Laban_ASCII_JSON_converter.py:20-26 | `^ - _` and only they give a level (high, middle, low), one character per level, everything else is `none` |
| `Laban.DecodeFlexion` | Laban_ASCII_JSON_converter.py:27 | `v` is flexed, `!` extended, and every other character natural |
| `Laban.DecodeRotation` | Laban_ASCII_JSON_converter.py:28 | `>` is outward, `<` inward, and every other character natural |
| `Laban.ParseBlock` | Laban_ASCII_JSON_converter.py:4-29 | hold exactly for `.....` and five spaces; neutral exactly for other blocks starting with `X`, whatever their length; an index error at position `len(block)` exactly for other blocks shorter than five; otherwise the posture whose five fields are the table lookups of characters 0-4, each unknown character giving its field's default |
| `Laban.Entries` | Laban_ASCII_JSON_converter.py:9-29 | the descriptor as a dictionary has one key (`action`) for hold and neutral, and the five keys in order for a posture |
| `Laban.ParseSpell` | Laban_ASCII_JSON_converter.py:14-28 | every descriptor is the decoding of its canonical spelling, so all 3 × 11 × 4 × 3 × 3 postures, hold and neutral are reachable |
| `Laban.FieldsArePositional` | Laban_ASCII_JSON_converter.py:23-28 | in two positional decodings, equal characters at position `i` give equal field `i`, whatever the other positions hold |
| `Laban.TailIgnored` | Laban_ASCII_JSON_converter.py:8-28 | appending characters to a five-character block that is not a hold spelling does not change its decoding |
| `Laban.SixDotsNotHold` | Laban_ASCII_JSON_converter.py:8 | `......` is not a hold; it decodes to an unknown posture with all defaults |
| `Converter.Parts` | Laban_ASCII_JSON_converter.py:42 | a line with `k` pipes gives `k + 1` parts; part `k` is field `k` of the split on the pipe, stripped, so it is trimmed and free of pipes |
| `Converter.BuildFrame` | Laban_ASCII_JSON_converter.py:48-56 | the frame exists exactly when parts 1-6 all decode; its timestamp is part 0 and its six body parts are the decodings of parts 1-6 in column order; otherwise the error is that of the first failing column |
| `Converter.ReadLine` | Laban_ASCII_JSON_converter.py:37-56 | a line contributes nothing exactly when, stripped, it is empty, starts with `TIME`, `=` or `//`, or has fewer than six pipes; any other line has at least seven parts and contributes the frame built from them, or the error of its first block that does not decode |
| `Converter.ConvertLines` | Laban_ASCII_JSON_converter.py:32-57 | the loop that appends each frame to the score computes `Convert`: the score, or the first decoding error |
| `Converter.CollectStopsAtCrash` | Laban_ASCII_JSON_converter.py:50-55 | once a prefix of the lines fails, later lines cannot change the result |
| `Converter.FramesAppend` | Laban_ASCII_JSON_converter.py:57 | the frames of two runs of lines are those of the first followed by those of the second, so input order is kept |
| `Converter.CollectWithoutCrash` | Laban_ASCII_JSON_converter.py:35-57 | when no line fails, the loop's result is exactly the emitted frames in order |
| `Converter.CollectFirstCrash` | Laban_ASCII_JSON_converter.py:50-55 | the conversion fails with the error of the first failing line |
| `Converter.OutcomesAppend` | Laban_ASCII_JSON_converter.py:35 | reading two runs of lines gives the outcomes of the first followed by those of the second |
| `Converter.ConvertWithoutCrash` | Laban_ASCII_JSON_converter.py:35-57 | when no block fails to decode, the score has one frame per accepted line, in input order |
| `Converter.EmittedFrame` | Laban_ASCII_JSON_converter.py:48-56 | an emitted frame's timestamp is stripped field 0, and its `left_arm, left_leg, trunk, right_leg, right_arm, head` are the decodings of stripped fields 1-6 |
| `Converter.ExtraFieldsIgnored` | Laban_ASCII_JSON_converter.py:44-56 | two accepted lines whose first seven fields agree contribute the same outcome |
| `Converter.BuildFrameReadsSeven` | Laban_ASCII_JSON_converter.py:48-56 | a frame depends on the first seven parts only |
| `Converter.BlankFieldFails` | Laban_ASCII_JSON_converter.py:8-24 | a field made only of whitespace is stripped to `""` and fails at position 0; it is not a hold |
| `Converter.SpacesHoldUnreachable` | Laban_ASCII_JSON_converter.py:42-55 | no field handed to the decoder equals five spaces |
| `Examples.ExampleSplit` | Laban_ASCII_JSON_converter.py:42 | the sample data line splits into its seven raw fields |
| `Examples.ExampleStripField` | Laban_ASCII_JSON_converter.py:42 | each raw field of the sample line strips to its code |
| `Examples.ExampleParts` | Laban_ASCII_JSON_converter.py:42 | the sample line's stripped parts are its seven codes |
| `Examples.ExampleClean` | Laban_ASCII_JSON_converter.py:37-38 | the sample line is already stripped and is not skipped |
| `Examples.ExampleFrame` | Laban_ASCII_JSON_converter.py:48-56 | the sample codes decode to support/forward/middle/flexed/outward, hold, neutral, gesture/left/low/extended/inward, the first posture again, and hold |
| `Examples.ExampleLine` | Laban_ASCII_JSON_converter.py:37-57 | the sample line yields that frame with timestamp `00:01` |
| `Examples.HeaderSkipped` | Laban_ASCII_JSON_converter.py:38-39 | a `TIME` header line contributes nothing |
| `Examples.CommentSkipped` | Laban_ASCII_JSON_converter.py:38-39 | a `//` comment line contributes nothing |
| `Examples.ShortLineSkipped` | Laban_ASCII_JSON_converter.py:44-45 | a data line of only five fields contributes nothing and raises no error |
| `Examples.BlankSkipped` | Laban_ASCII_JSON_converter.py:37-39 | a blank line contributes nothing |
| `Examples.ScoreOutcomes` | Laban_ASCII_JSON_converter.py:35-57 | in the four-line score (header, comment, blank line, data line) only the data line yields a frame |
| `Examples.CollectOneFrame` | Laban_ASCII_JSON_converter.py:50-57 | three skipped lines followed by one frame give a score of that frame alone |
| `Examples.ExampleScore` | Laban_ASCII_JSON_converter.py:32-57 | the four-line score converts to a score holding exactly the sample frame |

## Left out

- Opening and reading the input file, iterating over its lines and newline handling (Laban_ASCII_JSON_converter.py:34-35). The lines are an input `seq<string>`.
- Writing the score with `json.dump(..., indent=4)` (line 60). The model stops at the score value; `Laban.Entries` gives the keys and string values each descriptor is written with.
- The success message (line 61), because it is output only.
- `PyStr.Strip`: only ASCII whitespace is stripped (space, tab, line feed, vertical tab, form feed, carriage return, U+001C to U+001F). Python also strips non-ASCII whitespace such as U+0085 and U+00A0.
- `Laban.ParseBlock`: the `IndexError` is modelled as a value carrying the first index read out of range. Python's exception carries only a message.
