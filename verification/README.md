# mkpdh_defs: the PDH definitions generator, modelled in Dafny

`helpers/windows/pdh/mkpdh_defs.go` is a generator that is run by hand. It
works in five steps:

1. It runs the C preprocessor over `<pdhmsg.h>`, asking it to keep the
   macro definitions.
2. It scans the preprocessor's output line by line for `#define PDH_…`
   directives and collects each captured name, in order and with
   duplicates kept.
3. It executes a Go `text/template` over that list. For each name, the
   template writes a constant `NAME PdhErrno = C.NAME` and a key
   `NAME: struct{}{},` of the `pdhErrors` map. These blocks sit between
   fixed text: the file header, the cgo preamble, and the hand-written
   `PdhCounterFormat` constants.
4. It writes the result to the output file.
5. It runs `gofmt` on that file.

This project models steps 2 and 3 and the way they connect:

- `Words` (`words.dfy`) models the `\w` class of Go's RE2. It is ASCII
  letters, digits and `_`. `WordPrefix` is the longest run of word
  characters at the start of a string.
- `DefineScanner` (`scanner.dfy`) models the pattern
  `^#define (PDH_[\w_]+)`, in two forms:
  - a declarative description of a capture (`IsCapture`);
  - a function that computes the greedy match (`MatchDefine`).

  It also has `FindStringSubmatch` as `FindSubmatch`, and the scanning loop
  of `getErrorDefines` as the method `GetErrorDefines`. That method is
  proved equal to the specification function `Scan`.
- `DefsTemplate` (`template.dfy`) models executing `fileTemplate`. The
  `{{-` markers trim the newline before each range action, so each
  iteration of a range writes exactly one line. The rendered file is
  therefore a list of lines:
  - the fixed header;
  - one constant declaration per name;
  - the fixed middle;
  - one map entry per name;
  - the fixed trailer.

  The text is each of those lines preceded by a newline. The template
  starts with a newline and ends with `)` and a newline, so the last line
  is empty. A reader (`ReadBack`) parses a line list of that shape back
  into its two blocks of names. It is the partner of rendering.
- `MkPdhDefs` (`generator.dfy`) chains the scanner and the renderer. It
  also holds worked examples.

Two details of the code are kept as written:

- The pattern has one literal space after `#define`, not any whitespace.
  A tab or two spaces after `#define` do not match.
- A read error of the line scanner is not reported. The loop stops, and
  whatever was collected so far is returned with a nil error.

## Model

| member | source | states |
|---|---|---|
| Words.WordPrefix | helpers/windows/pdh/mkpdh_defs.go:102 | the `[\w_]+` run taken greedily: the longest prefix of word characters, so the character after it is not a word character |
| Words.WordPrefixOf | helpers/windows/pdh/mkpdh_defs.go:102 | a word followed by end of line or a non-word character is exactly the run that is taken |
| DefineScanner.IsCapture | helpers/windows/pdh/mkpdh_defs.go:102 | a capture of the anchored pattern: the line starts with `#define ` and then the name, which is `PDH_` plus at least one word character, with no word character after it; the whole match, group 0, is `#define ` + name and is a prefix of the line |
| DefineScanner.MatchDefine | helpers/windows/pdh/mkpdh_defs.go:102 | a returned name is a capture of the pattern: the line starts with `#define `, then the name, which is `PDH_` plus at least one word character, and the name is not followed by a word character |
| DefineScanner.MatchDefineExact | helpers/windows/pdh/mkpdh_defs.go:102 | a line yields name n if and only if n is a capture of the anchored, greedy pattern on that line, so a line has at most one capture |
| DefineScanner.CaptureOf | helpers/windows/pdh/mkpdh_defs.go:102 | `#define ` + a PDH name + end of line or a non-word character always yields that name |
| DefineScanner.BarePrefixSkipped | helpers/windows/pdh/mkpdh_defs.go:102 | `#define PDH_` with no word character after the prefix is skipped (the `+` needs at least one) |
| DefineScanner.FindSubmatch | helpers/windows/pdh/mkpdh_defs.go:139-140 | the submatch list is empty or has two entries; it has more than one exactly when the line matches; entry 1 is the captured name; entry 0 is `#define ` + name and is a prefix of the line |
| DefineScanner.Contribution | helpers/windows/pdh/mkpdh_defs.go:140-142 | one line adds at most one name: exactly one if the line matches, and then that name is the line's capture |
| DefineScanner.Scan | helpers/windows/pdh/mkpdh_defs.go:135-145 | the collected list is no longer than the input, and every entry is a PDH name |
| DefineScanner.GetErrorDefines | helpers/windows/pdh/mkpdh_defs.go:135-145 | the loop that appends `matches[1]` for each line with more than one submatch returns exactly `Scan` of the lines |
| DefineScanner.MatchingLines | helpers/windows/pdh/mkpdh_defs.go:137-142 | the positions of matching lines are positions of the input |
| DefineScanner.MatchingLinesExact | helpers/windows/pdh/mkpdh_defs.go:137-142 | those positions are strictly increasing; each is a matching line; every matching line is among them |
| DefineScanner.ScanIsMatchesInOrder | helpers/windows/pdh/mkpdh_defs.go:135-145 | the k-th collected name is the capture of the k-th matching line, so order is kept, duplicates are kept and nothing is synthesized |
| DefineScanner.ScanLength | helpers/windows/pdh/mkpdh_defs.go:135-145 | the number of collected names equals the number of matching lines |
| DefineScanner.ScanSnocLength | helpers/windows/pdh/mkpdh_defs.go:139-142 | one more line adds one name if it matches and none otherwise |
| DefineScanner.MatchSetSnoc | helpers/windows/pdh/mkpdh_defs.go:139-142 | one more line adds one to the count of matching lines if it matches and nothing otherwise |
| DefineScanner.ScanAppend | helpers/windows/pdh/mkpdh_defs.go:137-143 | scanning the concatenation of two outputs gives the two results concatenated (lines are judged one at a time) |
| DefineScanner.ScanEmpty | helpers/windows/pdh/mkpdh_defs.go:135-145 | the result is empty if and only if no line matches, and empty input gives an empty result |
| DefsTemplate.ConstDecl | helpers/windows/pdh/mkpdh_defs.go:65 | the declaration line is a tab, then the constant's name, and ends with the same name as the `C.` macro; its length is fixed by the name's length |
| DefsTemplate.MapEntry | helpers/windows/pdh/mkpdh_defs.go:71 | the map entry line is a tab, then the key's name; its length is fixed by the name's length |
| DefsTemplate.ConstDecls | helpers/windows/pdh/mkpdh_defs.go:64-66 | the first range writes one line per name |
| DefsTemplate.MapEntries | helpers/windows/pdh/mkpdh_defs.go:70-72 | the second range writes one line per name |
| DefsTemplate.RenderLines | helpers/windows/pdh/mkpdh_defs.go:45-97 | the rendered file has the fixed lines plus exactly two lines per name, one in each range |
| DefsTemplate.ConstDeclsAt | helpers/windows/pdh/mkpdh_defs.go:64-66 | the k-th line of the first range declares the k-th name bound to `C.` of the same name |
| DefsTemplate.MapEntriesAt | helpers/windows/pdh/mkpdh_defs.go:70-72 | the k-th line of the second range is the k-th name as a map key |
| DefsTemplate.RenderLayout | helpers/windows/pdh/mkpdh_defs.go:45-97 | the rendered lines are, at fixed positions, the fixed header, the n declarations in list order, the fixed middle, the n map entries in list order and the fixed trailer |
| DefsTemplate.RenderEmpty | helpers/windows/pdh/mkpdh_defs.go:45-97 | an empty list renders the fixed text alone, with an empty constant block and an empty map, and the counter-format block still present |
| DefsTemplate.UnlinesAppend | helpers/windows/pdh/mkpdh_defs.go:45-97 | the text of two runs of lines is the text of the first followed by the text of the second |
| DefsTemplate.Execute | helpers/windows/pdh/mkpdh_defs.go:156 | the executed text is the header text, the declaration text, the middle text, the map text and the trailer text, concatenated |
| DefsTemplate.ReadConstDecl | helpers/windows/pdh/mkpdh_defs.go:65 | a name read from a line is an identifier, and the line is exactly that name's constant declaration |
| DefsTemplate.ReadMapEntry | helpers/windows/pdh/mkpdh_defs.go:71 | a key read from a line is an identifier, and the line is exactly that key's map entry |
| DefsTemplate.ReadConstDeclOf | helpers/windows/pdh/mkpdh_defs.go:65 | the declaration line of any identifier reads back as that identifier |
| DefsTemplate.ReadMapEntryOf | helpers/windows/pdh/mkpdh_defs.go:71 | the map entry line of any identifier reads back as that identifier |
| DefsTemplate.ParseConstDecls | helpers/windows/pdh/mkpdh_defs.go:64-66 | the lines are the declaration block of the names read, followed by the lines left over |
| DefsTemplate.ParseMapEntries | helpers/windows/pdh/mkpdh_defs.go:70-72 | the lines are the map block of the keys read, followed by the lines left over |
| DefsTemplate.ParseConstDeclsOf | helpers/windows/pdh/mkpdh_defs.go:64-67 | a rendered declaration block followed by `)` (or any line that is not tab-indented) reads back as exactly its names |
| DefsTemplate.ParseMapEntriesOf | helpers/windows/pdh/mkpdh_defs.go:70-73 | a rendered map block followed by `}` (or any line that is not tab-indented) reads back as exactly its keys |
| DefsTemplate.ReadBackRender | helpers/windows/pdh/mkpdh_defs.go:45-97 | rendering a list of identifiers and reading it back gives that list as the declared constants and again as the map keys |
| DefsTemplate.ReadBackSound | helpers/windows/pdh/mkpdh_defs.go:45-97 | anything the reader accepts is the fixed text with the two blocks it reports in between |
| DefsTemplate.ReadBackAgreeing | helpers/windows/pdh/mkpdh_defs.go:45-97 | line lists of the generated shape whose two blocks name the same list are exactly the renderings of that list |
| DefsTemplate.RenderInjective | helpers/windows/pdh/mkpdh_defs.go:45-97 | any two lists of names that render to the same lines are the same list |
| DefsTemplate.ConstDeclInjective | helpers/windows/pdh/mkpdh_defs.go:65 | a declaration line determines the constant it declares |
| MkPdhDefs.Generate | helpers/windows/pdh/mkpdh_defs.go:106-116 | the generated file is the rendering of the scanned names, and it reads back as those names, both as constants and as map keys |
| MkPdhDefs.GeneratedDeclaresEveryMatch | helpers/windows/pdh/mkpdh_defs.go:135-145 | every matching line of the preprocessor output becomes one declared constant and one map key, in line order, and there are as many of each as matching lines |
| MkPdhDefs.SkippedLines | helpers/windows/pdh/mkpdh_defs.go:102 | `#define PDH_`, `#define PDH_ 1`, `#define UNRELATED 2` and ` #define PDH_X` are not captured |
| MkPdhDefs.ValidDataLine | helpers/windows/pdh/mkpdh_defs.go:102 | `#define PDH_CSTATUS_VALID_DATA 0` captures `PDH_CSTATUS_VALID_DATA` |
| MkPdhDefs.NewDataLine | helpers/windows/pdh/mkpdh_defs.go:102 | `#define PDH_CSTATUS_NEW_DATA 1` captures `PDH_CSTATUS_NEW_DATA` |
| MkPdhDefs.ScanExample | helpers/windows/pdh/mkpdh_defs.go:135-145 | on these two lines plus `#define UNRELATED 2`, the scan yields the two PDH names in order and drops the unrelated one |
| MkPdhDefs.RenderExample | helpers/windows/pdh/mkpdh_defs.go:63-73 | rendering those two names gives two declarations and two map entries, in order, between the fixed lines |

## Left out

- Running the C preprocessor (`gcc -E -dD -`) and its failure path (lines 127-133): this is an external process. The model takes its output as the list of lines to scan.
- Splitting the output into lines with `bufio.Scanner` (line 136): the model takes lines as given. Left out with it:
  - removal of a trailing `\r`;
  - the 64 KiB token limit;
  - the unchecked `s.Err()` after the loop, which ends the scan silently and returns the partial list.
- Go's nil slice versus an empty slice for `errors`: both render the same way. The model has one empty sequence.
- Creating, writing and closing the output file, and the `output` flag (lines 33-35, 148-160): this is file I/O. The model gives the rendered lines, and the text they make up (`DefsTemplate.Execute`).
- Running `gofmt -w` on the result (lines 162-165): this is an external process. The model describes the file as rendered, before reformatting.
- `main`'s error reporting and exit status (lines 105-125): this is process control.
- The general `regexp` and `text/template` engines: only this pattern and this template are modelled, by their meaning. `Must` cannot fail on these constants, and `Execute` cannot fail on a list of strings.
- Reading back the whole text, as opposed to the line list: the text is `Unlines` of the lines, and the round trip is proved at the line level. The proof that no line of the fixed text contains a newline is not part of the model.
- What cgo and the Go compiler make of the generated file, such as the values of `C.PDH_…` or duplicate constant declarations: these are outside the generator.
- `MkPdhDefs.Generate`: its result is the rendered line list, not the bytes written to the file.
