# Verification of the text and tensor algorithms around llama.cpp

A Dafny model of the self-contained algorithms in this Android app and the llama.cpp tree it carries: healing of
truncated JSON, the streaming chat parser, the algebra of low-rank (LoRA) weights, the re-layout of heads and experts,
and the classic algorithms with real loops. `dafny verify dfyconfig.toml` checks all of it.

## What is modelled

**Truncated JSON** (`Json*.dfy`). `JsonText` has values and their compact dump, `JsonReader` a reader that takes one
character at a time and whose state is the open containers with what has been read of them; it stands for the JSON
library's parser (sections 2 and 7 of RFC 8259, `\u` escapes and surrogate pairs included, with numbers kept as text).
`JsonLocator` and `JsonPartial` model the SAX handler, the error position and the cascade of probes that picks where a marker
goes. The main theorem is `TruncatedDumpRoundTrip`: a prefix of a dump that does not stop inside a `\u` escape is healed
without an error, and cutting the healed dump at the marker gives the prefix back. It is proved by giving the cascade a table,
`HealingPoint`, from reading states to insertions, and showing that the probes find that table's line for every truncated
text. `ProbesAreSound` needs no truncated text: it holds of every string and stack. `JsonErrors` takes text with an error in
it, and says exactly when healing it throws (`HealsExactly`); `JsonConsumed` says how much of a text is taken, and
`JsonLexemes` what escapes, whitespace and numbers are.

**Streaming chat parser** (`Chat*.dfy`). `ChatCleanup` has the recursive clean-up twice: as it runs, with one path for
all calls that is not popped on an early exit, and as it is meant, with the path passed down. `ChatMarked` proves that what
healing returns is marked in one place and that cleaning it raises the flag and leaves no trace of the marker, `ChatPaths`
when exactly the two passes agree, and `ChatFlag` when the flag is raised without healing. All this rests on what is decoded:
nothing of it may hold the marker. `ChatDecoded` proves that the parser's own check, that the marker does not occur in the raw
input, gives this where no `\u` escape is read; `ChatEscapes` has inputs with escapes for which it does not.
`ChatArguments` and `ChatConsumed` say what consuming JSON gives, `ChatReasoning` when reasoning that is held back while it
may begin the closing tag only grows, and `ChatAnswers` where the cursor is behind it.

**Low-rank weights** (`Tensors.dfy`, `Lora*.dfy`, `HeadPermute.dfy`). A tensor is a shape with entries; `Product` is B * A
with A's leading axes of length one repeated. Every operation on the factors is compared with the same operation on the
product. Entries are real numbers.

**Experts, byte-pair encoding** (`Experts.dfy`, `ExpertRuns.dfy`, `Bpe.dfy`), **longest common block** (`Lcs.dfy`),
**base64** (`Base64.dfy`, sections 4 and 5 of RFC 4648), **line wrapping** (`Wrap.dfy`), **line editor** (`Utf8.dfy`,
`LineEditor.dfy`) and **token buffering** (`TokenBuffer.dfy`).

Code that changes state is a class or a method with loops, proved against a function; the theorems are about the function.

## Where the code does not do what its documentation says

- The header promises the *only* occurrence of the marker. Cutting at the first one works if and only if the marker is
  unbordered (`UnborderedMarkersRoundTrip`); the parser's random decimal markers may have borders.
- Text that stops on a number or a literal is not brought back whole: it is cut back in front of the scalar.
- Text that stops inside a `\u` escape is not brought back (`BroughtBackExactly`): no probe succeeds, and cutting it back to
  a comma of its own string makes healing throw (`CutEscapeThrows`).
- At an unexpected token the library reports the token's last character, so the text is cut inside it and healing can
  throw (`UnexpectedTokenThrows`). `HealsExactly` says when: the error is inside the token, and the text up to the last `:`
  (in an array `[` or `,`) in front of its last character does not stop where a value may stand, in the same open containers.
- JSON with a string, a literal or a longer number directly behind it is refused as a whole, although text behind JSON is
  otherwise left for the caller: the error is reported at the end of that token (`DocumentThenToken`).
- A complete string consumed at the top with the empty path as content path comes back empty and is called partial,
  because an empty marker is found at once (`ContentStringAtTopIsLost`).
- With a start tag that ends as the end tag begins, reasoning already shown can be taken back (`OverlappingTagsTakeBack`);
  `TaggedReasoningGrows` says for which tags.
- The clean-up pass leaves its path behind when it breaks off, and breaks off at the marker although members may follow it:
  where a key is repeated, its first occurrence takes the healed value. `PassesAgreeExactly` says for which texts that is
  harmless, and `RepeatedKeyMisleads` gives one for which it is not; the result is free of the marker all the same.
- The parser makes sure that its marker does not occur in the raw input, and takes any string with it for a healed one. A
  `\u` escape can spell the marker: JSON that is complete is then cut and called partial (`CodedMarkerFound`; exactly when,
  `FlagFitsExactly`), and healed JSON can be consumed as complete (`CodedKeyHidesHealing`).
- Low-rank indexing by a single position on a matrix axis gives a wrong shape or an error (`IndexCommutes`,
  `BothPositionsMisfit`); an ellipsis in front of other indices is expanded by the wrong number of axes in general
  (`EllipsisExpansion`, `InnerEllipsisMisplaced`); a slice of the first axis of more than two can leave factors that do not
  fit together (`SliceCommutes`, `SecondPositionMisfits`); concatenation of more than two axes can do so too, or multiply
  rows of one piece with the A of another (`CatOfBatches`, `UnevenPiecesMix`).
- `common_lcs` is described as a longest common subsequence; it finds the longest common contiguous block
  (`BlocksAreNotSubsequences`).
- Putting a character beyond the last code point stores no bytes but a width, and erasing it then erases the character in
  front (`PoppedIffCodePoint`).
- `is_valid_utf8` accepts sequences that are not UTF-8 (`OverlongIsWhole`): those longer than their code point needs and
  those beyond the last code point, and no others (`TextIffWellFormed`, which takes surrogates for code points, as the
  program's own encoder does).

## Model

| member | source | states |
|---|---|---|
| `JsonDumped.ParseDump` | llama/src/main/cpp/llama.cpp/common/json-partial.cpp:245 | for every value with distinct keys, parsing its compact dump gives the value back: what the two JSON library calls of healing owe each other |
| `JsonDumped.ReadDump` | llama/src/main/cpp/llama.cpp/common/json-partial.cpp:115 | wherever a value is expected, in whatever open containers, reading a dump completes exactly that value |
| `JsonDumped.ReadControl` | llama/src/main/cpp/llama.cpp/vendor/nlohmann/json.hpp:19181-19195 | a control character without a short escape is read back from the `\u` escape that the dump writes for it |
| `JsonLexemes.HexIsSpelled` | llama/src/main/cpp/llama.cpp/vendor/nlohmann/json.hpp:7192-7224 | hexadecimal are exactly the sixteen digits in lower or upper case |
| `JsonLexemes.EscapeRead` | llama/src/main/cpp/llama.cpp/vendor/nlohmann/json.hpp:7341-7398 | four hexadecimal digits behind `\u`, in either case, are the character of that number; a second half of a surrogate pair alone is an error, a first half waits for the second |
| `JsonLexemes.PairRead` | llama/src/main/cpp/llama.cpp/vendor/nlohmann/json.hpp:7354-7385 | the two halves of a pair are the character they are halves of, and nothing but a second half may follow a first |
| `JsonLexemes.NoPair` | llama/src/main/cpp/llama.cpp/vendor/nlohmann/json.hpp:7354-7385 | nothing but the second half of a pair may follow a first half |
| `JsonLexemes.EveryPair` | llama/src/main/cpp/llama.cpp/vendor/nlohmann/json.hpp:7366-7373 | every character beyond the first sixteen bits has two such halves |
| `JsonLexemes.LetterRead` | llama/src/main/cpp/llama.cpp/vendor/nlohmann/json.hpp:7306-7340 | the eight other escapes, and no others |
| `JsonLexemes.NumbersAre` | llama/src/main/cpp/llama.cpp/vendor/nlohmann/json.hpp:7992-8330 | the number automaton accepts exactly a sign, a whole part without leading zeros, a fraction and an exponent |
| `JsonLexemes.SpaceSkipped` | llama/src/main/cpp/llama.cpp/vendor/nlohmann/json.hpp:8531-8538 | blanks, tabs and line ends between tokens make no difference to what is parsed |
| `JsonLexemes.ControlRefused` | llama/src/main/cpp/llama.cpp/vendor/nlohmann/json.hpp:8531-8538 | no other control character may stand anywhere |
| `JsonShape.RunText` | llama/src/main/cpp/llama.cpp/common/json-partial.cpp:115 | the state of the reader determines the text it has read, up to insignificant whitespace: no piece is lost or reordered |
| `JsonPartial.JsonErrorLocator.ParseError` | llama/src/main/cpp/llama.cpp/common/json-partial.cpp:48-54 | records the position one before the reported one and that there was an error |
| `JsonPartial.JsonErrorLocator.CloseTopValue` | llama/src/main/cpp/llama.cpp/common/json-partial.cpp:55-59 | a key on top of the stack goes once it has its value; nothing else does |
| `JsonPartial.JsonErrorLocator.OnScalar` | llama/src/main/cpp/llama.cpp/common/json-partial.cpp:60-87 | a scalar completes the value of the key on top |
| `JsonPartial.JsonErrorLocator.OnStartObject` | llama/src/main/cpp/llama.cpp/common/json-partial.cpp:88-91 | opens an object |
| `JsonPartial.JsonErrorLocator.OnEndObject` | llama/src/main/cpp/llama.cpp/common/json-partial.cpp:92-97 | closes the object that is on top, as the assertion demands, and completes the value of a key below it |
| `JsonPartial.JsonErrorLocator.OnKey` | llama/src/main/cpp/llama.cpp/common/json-partial.cpp:98-101 | puts a key on its object |
| `JsonPartial.JsonErrorLocator.OnStartArray` | llama/src/main/cpp/llama.cpp/common/json-partial.cpp:102-105 | opens an array |
| `JsonPartial.JsonErrorLocator.OnEndArray` | llama/src/main/cpp/llama.cpp/common/json-partial.cpp:106-111 | closes the array that is on top and completes the value of a key below it |
| `JsonPartial.SaxParse` | llama/src/main/cpp/llama.cpp/common/json-partial.cpp:113-115 | one reading of the text leaves in the handler exactly the error flag, the error position and the stack that the reader defines for that text |
| `JsonLocator.RunTracks` | llama/src/main/cpp/llama.cpp/common/json-partial.cpp:55-111 | over any text that the reader goes along with, neither assertion fails, the stack is exactly the open containers, and keys sit directly on objects |
| `JsonLocator.StreamPrefix` | llama/src/main/cpp/llama.cpp/common/json-partial.cpp:55-111 | over every prefix of the event stream of every value neither assertion fails and keys sit directly on objects; over the whole stream the stack comes back empty |
| `JsonConsumed.ErrorPosition` | llama/src/main/cpp/llama.cpp/common/json-partial.cpp:48-54 | an unexpected string, literal or number is reported at its last character, with the containers that are open on the stack |
| `JsonConsumed.CharPosition` | llama/src/main/cpp/llama.cpp/common/json-partial.cpp:48-54 | any other character that cannot go on is reported where it is |
| `JsonHealing.CloseAll` | llama/src/main/cpp/llama.cpp/common/json-partial.cpp:159-169 | behind a complete value the closing alone completes the document, with the value plugged into the open containers |
| `JsonHealing.ClosingCompletes` | llama/src/main/cpp/llama.cpp/common/json-partial.cpp:159-169 | after any text ending behind a complete value or a freshly opened container, text plus closing is valid JSON |
| `JsonPartial.CommonJsonParse` | llama/src/main/cpp/llama.cpp/common/json-partial.cpp:113-255 | the imperative parse, with its cascade of probes, computes the outcome that the theorems below are about: parsed, healed, refused or thrown |
| `JsonConsumed.ParsedIsLongest` | llama/src/main/cpp/llama.cpp/common/json-partial.cpp:117-127 | what is parsed, whole or up to an error, is JSON, is exactly as much of the text as is consumed, and no longer beginning of the text is JSON |
| `JsonConsumed.WholeIsTaken` | llama/src/main/cpp/llama.cpp/common/json-partial.cpp:113-115 | text that is JSON as a whole is parsed and consumed as a whole |
| `JsonConsumed.DocumentThenMore` | llama/src/main/cpp/llama.cpp/common/json-partial.cpp:117-127 | a document and a character that cannot go on behind it, whatever follows: the document is parsed and consumed up to that character if and only if it does not begin a longer token; else the text is refused |
| `JsonConsumed.DocumentThenToken` | llama/src/main/cpp/llama.cpp/common/json-partial.cpp:117-127 | behind a document a string or a literal, or a number of more than one character, refuses the text; a number of one digit does not |
| `JsonConsumed.RefusedIff` | llama/src/main/cpp/llama.cpp/common/json-partial.cpp:117-251 | refused is exactly text with an error up to which it is no JSON, with no container open there or with an empty marker |
| `JsonConsumed.NothingHealsEmpty` | llama/src/main/cpp/llama.cpp/common/json-partial.cpp:140-251 | with an empty marker nothing is healed and nothing thrown |
| `JsonHealing.ProbesAreSound` | llama/src/main/cpp/llama.cpp/common/json-partial.cpp:173-245 | for every text, every stack and every marker of characters that stand for themselves: if the branch taken was taken on a probe, what it builds is valid JSON and healing does not throw, so only the three cut-back branches can |
| `JsonRoundTrip.LocateTruncated` | llama/src/main/cpp/llama.cpp/common/json-partial.cpp:117-119 | text that stops inside a container is reported at its end, with the open containers on the stack |
| `JsonRoundTrip.ChoosesPoint` | llama/src/main/cpp/llama.cpp/common/json-partial.cpp:173-232 | on truncated text that does not stop on a scalar, the cascade inserts exactly what the reading state calls for: quote, colon, comma, bare marker or escaped backslash |
| `JsonRoundTrip.ScalarChooses` | llama/src/main/cpp/llama.cpp/common/json-partial.cpp:189-197 | on text that stops on a number or an unfinished literal every probe fails and the text is cut back |
| `JsonRoundTrip.ScalarKept` | llama/src/main/cpp/llama.cpp/common/json-partial.cpp:211-240 | the cut-back lands directly behind the `:`, `[` or `,` in front of the scalar, in the same open containers |
| `JsonRoundTrip.HealsTruncated` | llama/src/main/cpp/llama.cpp/common/json-partial.cpp:117-247 | healing truncated text that does not stop inside a `\u` escape never throws, and its result is the marker plugged into the open containers at the point the reading state names |
| `JsonRoundTrip.PlugText` | llama/src/main/cpp/llama.cpp/common/json-partial.cpp:244-245 | the dump of a value plugged into open containers is their text, the value and the closing |
| `JsonRoundTrip.PointCuts` | llama/src/main/cpp/llama.cpp/common/json-partial.cpp:171-240 | the dump marker is first found where it was put, so cutting the dump there gives the text read so far |
| `JsonRoundTrip.DumpPrefix` | llama/src/main/cpp/llama.cpp/common/json-partial.h:10 | every non-empty proper prefix of the dump of an object or array stops inside a container |
| `JsonRoundTrip.HealingRoundTrip` | llama/src/main/cpp/llama.cpp/common/json-partial.h:10 | the contract of the header for any text that stops inside a container and in no `\u` escape, whitespace included: the healed dump cut at the marker is the text without its insignificant whitespace |
| `JsonRoundTrip.TruncatedDumpRoundTrip` | llama/src/main/cpp/llama.cpp/common/json-partial.cpp:117-247 | for every object or array and every non-empty proper prefix of its dump that does not stop inside a `\u` escape, healing succeeds and the healed dump cut at the first dump marker is exactly the prefix, cut back to its last `:`, `[` or `,` when it stops on a scalar |
| `JsonRoundTrip.BorderedMarker` | llama/src/main/cpp/llama.cpp/common/json-partial.h:10 | a marker with a border has a document and a prefix, free of the marker, that it does not bring back |
| `JsonRoundTrip.UnborderedMarkersRoundTrip` | llama/src/main/cpp/llama.cpp/common/json-partial.h:10 | a plain marker brings back every prefix of every document it is absent from, but those that stop inside a `\u` escape, if and only if it is unbordered |
| `JsonErrors.BroughtBackExactly` | llama/src/main/cpp/llama.cpp/common/json-partial.h:10 | such a marker brings a prefix of a document back if and only if the prefix does not stop inside a `\u` escape |
| `JsonErrors.HealsExactly` | llama/src/main/cpp/llama.cpp/common/json-partial.cpp:117-247 | for every text with an error inside a container: healing throws if and only if the error, or the end of the text, is inside a token or a `\u` escape and cutting back in front of the reported position finds no place where a value may stand in the same open containers; where it heals, the result is the marker plugged in at the point of the text that is kept |
| `JsonErrors.HealsInFront` | llama/src/main/cpp/llama.cpp/common/json-partial.cpp:117-247 | an error at a single character, or at an end outside `\u` escapes, heals as the text in front of the error, without throwing |
| `JsonErrors.HealsCutOff` | llama/src/main/cpp/llama.cpp/common/json-partial.cpp:189-241 | an error inside a token, or a text cut inside a `\u` escape: no probe succeeds, the text is cut back, and whether that throws |
| `JsonErrors.CutParses` | llama/src/main/cpp/llama.cpp/common/json-partial.cpp:189-245 | the text built behind a cut is valid JSON if and only if a value may stand at the cut, in containers that the closing closes |
| `JsonErrors.NothingOpen` | llama/src/main/cpp/llama.cpp/common/json-partial.cpp:117-251 | with no container open nothing is thrown: the text is parsed up to its error or refused |
| `JsonErrors.UnexpectedTokenThrows` | llama/src/main/cpp/llama.cpp/common/json-partial.cpp:211-245 | a concrete text with an unexpected token is cut inside the token and healing throws |
| `JsonErrors.CutEscapeThrows` | llama/src/main/cpp/llama.cpp/common/json-partial.cpp:211-245 | a concrete text that stops inside a `\u` escape is cut back inside its string and healing throws, whatever the marker |
| `Text.Find` | llama/src/main/cpp/llama.cpp/common/common.cpp:440 | the index of the first occurrence from a position on |
| `Text.FindGlued` | llama/src/main/cpp/llama.cpp/common/json-partial.cpp:183-185 | an unbordered marker glued to text free of it is first found where it was glued |
| `CommonStrings.StringStrip` | llama/src/main/cpp/llama.cpp/common/common.cpp:404-414 | the loops strip spaces from both ends |
| `CommonStrings.StripIs` | llama/src/main/cpp/llama.cpp/common/common.cpp:404-414 | what is stripped are spaces at both ends, and what is left neither starts nor ends with one |
| `CommonStrings.StripMonotone` | llama/src/main/cpp/llama.cpp/common/common.cpp:404-414 | stripping an extension of a text gives an extension of the stripped text |
| `CommonStrings.StringFindPartialStop` | llama/src/main/cpp/llama.cpp/common/common.cpp:461-475 | the start of the longest suffix of the text that is a beginning of the stop word, whole word included, and none when there is no such suffix |
| `CommonStrings.StringJoin` | llama/src/main/cpp/llama.cpp/common/common.cpp:482-491 | the loop joins with separators between |
| `CommonStrings.StringSplit` | llama/src/main/cpp/llama.cpp/common/common.cpp:493-507 | the loop terminates and gives the parts between leftmost delimiters |
| `CommonStrings.JoinSplit` | llama/src/main/cpp/llama.cpp/common/common.cpp:482-507 | joining the parts with the delimiter gives the text back |
| `CommonStrings.SplitPartsFree` | llama/src/main/cpp/llama.cpp/common/common.cpp:493-507 | no part has the delimiter in it, and every delimiter is found at its leftmost place |
| `CommonStrings.StringReplaceAll` | llama/src/main/cpp/llama.cpp/common/common.cpp:432-447 | the loop terminates and equals joining the split parts with the replacement; an empty search leaves the text |
| `ChatParser.ChatMsgParser.constructor` | llama/src/main/cpp/llama.cpp/common/chat-parser.cpp:13-25 | starts at the beginning with a marker absent from the input |
| `ChatParser.ChatMsgParser.ConsumeSpaces` | llama/src/main/cpp/llama.cpp/common/chat-parser.cpp:84-92 | moves the cursor over all spaces and no further |
| `ChatParser.ChatMsgParser.TryConsumeLiteral` | llama/src/main/cpp/llama.cpp/common/chat-parser.cpp:94-107 | moves over the literal if and only if it stands at the cursor |
| `ChatParser.ChatMsgParser.TryFindLiteral` | llama/src/main/cpp/llama.cpp/common/chat-parser.cpp:109-131 | gives the text before the literal or, while input arrives, before the longest ending that may become it; the cursor moves accordingly |
| `ChatParser.ChatMsgParser.ConsumeRest` | llama/src/main/cpp/llama.cpp/common/chat-parser.cpp:176-180 | gives the rest and moves to the end |
| `ChatParser.ChatMsgParser.Handle` | llama/src/main/cpp/llama.cpp/common/chat-parser.cpp:140-154 | adds stripped reasoning to content, tagged, or to the reasoning content |
| `ChatParser.ChatMsgParser.ParseOpenReasoning` | llama/src/main/cpp/llama.cpp/common/chat-parser.cpp:157-170 | behind an opening tag: up to the closing tag, or all of the rest |
| `ChatParser.ChatMsgParser.TryParseReasoning` | llama/src/main/cpp/llama.cpp/common/chat-parser.cpp:139-174 | cursor, content and reasoning content afterwards, or nothing changed when there is no reasoning |
| `ChatParser.ParsedReasoning` | llama/src/main/cpp/llama.cpp/common/chat-parser.cpp:139-174 | reasoning that is not inlined is added to the reasoning content alone, stripped |
| `ChatAnswers.ReasoningThenAnswer` | llama/src/main/cpp/llama.cpp/common/chat-parser.cpp:139-164 | reasoning in which the closing tag does not begin, the tag, spaces and an answer: the cursor stops at the answer, all of it still to be parsed, and the stripped reasoning has gone to the reasoning content, or between tags to the content |
| `ChatAnswers.ReasoningUnfinished` | llama/src/main/cpp/llama.cpp/common/chat-parser.cpp:109-170 | without the closing tag the cursor is at the end and all the text is reasoning, but for the longest ending that may become the tag, held back while input arrives; inlined reasoning is closed where something is held back or the input is complete |
| `ChatAnswers.NoReasoning` | llama/src/main/cpp/llama.cpp/common/chat-parser.cpp:155-174 | there is none exactly where none is asked for or the start tag is not at the cursor |
| `ChatReasoning.RawReasoningGrows` | llama/src/main/cpp/llama.cpp/common/chat-parser.cpp:109-131 | reasoning before stripping is never cut before what the shorter input gave, where the held-back ending starts inside the reasoning or the closing tag is there |
| `ChatReasoning.ReasoningGrows` | llama/src/main/cpp/llama.cpp/common/chat-parser.cpp:139-174 | no continuation of an input, partial or final, takes back any of the stripped reasoning extracted from it if and only if the closing tag is in it, or the longest ending that may become the tag starts inside the reasoning, or every such ending inside the reasoning is all spaces |
| `ChatReasoning.ForcedOpenReasoningGrows` | llama/src/main/cpp/llama.cpp/common/chat-parser.cpp:155-170 | with thinking forced open none is ever taken back, for all inputs and end tags |
| `ChatReasoning.TaggedReasoningGrows` | llama/src/main/cpp/llama.cpp/common/chat-parser.cpp:155-170 | behind a start tag none is ever taken back, whatever the reasoning, if and only if the tags do not clash: the start tag ending as the end tag begins, and that beginning being followed in the end tag by another one that is not all spaces |
| `ChatReasoning.UsualTagsDoNotClash` | llama/src/main/cpp/llama.cpp/common/chat-parser.cpp:139 | the usual tags do not clash, nor do tags that overlap without such a repeat |
| `ChatReasoning.OverlappingTagsTakeBack` | llama/src/main/cpp/llama.cpp/common/chat-parser.cpp:119-128 | with clashing tags reasoning already shown is taken back: a concrete input |
| `ChatParser.StreamedReasoningGrows` | llama/src/main/cpp/llama.cpp/common/chat-parser.cpp:139-174 | the whole operation: the reasoning content gathered from a message only grows under every continuation, for every message, if and only if thinking is forced open or the tags do not clash |
| `ChatCleanup.FreeWalk` | llama/src/main/cpp/llama.cpp/common/chat-parser.cpp:304-381 | on JSON without the marker the recursive pass equals the pure clean-up and leaves the path as it found it |
| `ChatCleanupResult.CleanFree` | llama/src/main/cpp/llama.cpp/common/chat-parser.cpp:304-381 | cleaning JSON without the marker raises no flag |
| `ChatArguments.ParsedIsWell` | llama/src/main/cpp/llama.cpp/common/chat-parser.cpp:267-271 | whatever is parsed has distinct keys and proper numbers |
| `ChatArguments.UnhealedShown` | llama/src/main/cpp/llama.cpp/common/chat-parser.cpp:304-381 | on JSON that was not healed the pass puts each subtree at an argument path as a string that parses back to it, keeps everything else, and throws if and only if a content path leads to something other than a string |
| `ChatArguments.CleanShown` | llama/src/main/cpp/llama.cpp/common/chat-parser.cpp:304-381 | on healed JSON the clean-up puts each subtree at an argument path as its dump in front of the dump marker, nothing for a lone quote, cuts healed content in front of the marker, leaves out what else holds it and keeps the rest |
| `ChatDecoded.RunClear` | llama/src/main/cpp/llama.cpp/common/json-partial.cpp:117-247 | digits stand for themselves in JSON text without `\u` escapes: reading such text free of a digit marker decodes no key, string or number that holds it |
| `ChatMarked.ClearFromRaw` | llama/src/main/cpp/llama.cpp/common/chat-parser.cpp:18-24 | without `\u` escapes the check of the raw input is enough for the condition of the next rows, that nothing decoded of the text that healing builds on holds the marker |
| `ChatMarked.HealedIsMarkedOnce` | llama/src/main/cpp/llama.cpp/common/json-partial.cpp:171-247 | for every text that heals and of which nothing that holds the marker is decoded, repeated keys included: one place holds the marker, and every container around it shows the dump marker, free of the marker in front of it |
| `ChatMarked.WalkUnmarks` | llama/src/main/cpp/llama.cpp/common/chat-parser.cpp:304-381 | on anything marked so, and with any path left behind, the pass raises the flag and leaves no key, string or number with the marker |
| `ChatMarked.CleanUnmarks` | llama/src/main/cpp/llama.cpp/common/chat-parser.cpp:304-381 | so does the pass that carries its path down |
| `ChatMarked.HealedUnmarks` | llama/src/main/cpp/llama.cpp/common/chat-parser.cpp:302-388 | healing and clean-up together, for the same texts: the flag is raised and the result is free of the marker |
| `ChatPaths.LevelWalk` | llama/src/main/cpp/llama.cpp/common/chat-parser.cpp:332-379 | where the marker is in an item or in a key the pass, which breaks off without popping, equals the clean-up that carries the path down, for any argument and content paths |
| `ChatPaths.AheadWalk` | llama/src/main/cpp/llama.cpp/common/chat-parser.cpp:347-362 | so it does where the marker is in the last member of its object and only strings follow in the objects around, although one key is left on the path |
| `ChatPaths.DropsWalk` | llama/src/main/cpp/llama.cpp/common/chat-parser.cpp:347-358 | where members follow the marked one the two passes differ without any paths |
| `ChatPaths.StraysWalk` | llama/src/main/cpp/llama.cpp/common/chat-parser.cpp:347-362 | where a member other than a string follows in an object around, they differ with its path as the one argument path |
| `ChatPaths.PassesAgreeExactly` | llama/src/main/cpp/llama.cpp/common/chat-parser.cpp:304-381 | for every text that heals and of which nothing that holds the marker is decoded: the two passes agree for all argument and content paths if and only if healing puts the marker in an array or at a key, or at the value of a key that is new or last in its object with only strings behind the first occurrence of the pending key in every object around |
| `ChatPaths.RepeatedKeyMisleads` | llama/src/main/cpp/llama.cpp/common/chat-parser.cpp:347-362 | a concrete text with a repeated key, and any digit marker: it heals, and the pass misses an argument behind the first occurrence of the key |
| `ChatParser.HealingCleaner.Clean` | llama/src/main/cpp/llama.cpp/common/chat-parser.cpp:304-381 | the imperative pass with its shared path and flag is the recursive function of the refinement |
| `ChatParser.HealingCleaner.DumpArguments` | llama/src/main/cpp/llama.cpp/common/chat-parser.cpp:305-319 | a subtree as argument text, cut at the dump marker |
| `ChatParser.HealingCleaner.CleanObject` | llama/src/main/cpp/llama.cpp/common/chat-parser.cpp:332-363 | members in order, breaking off at the marker with the path left pushed |
| `ChatParser.HealingCleaner.CleanArray` | llama/src/main/cpp/llama.cpp/common/chat-parser.cpp:364-379 | items in order, breaking off at the marker |
| `ChatParser.ChatMsgParser.TryConsumeJsonWithDumpedArgs` | llama/src/main/cpp/llama.cpp/common/chat-parser.cpp:268-389 | the result and the cursor for every input, healed or not, refused or thrown: the cursor has moved past the JSON even where its content is refused or the message is complete |
| `ChatConsumed.UnhealedConsumed` | llama/src/main/cpp/llama.cpp/common/chat-parser.cpp:264-389 | JSON that parses, with the marker in no key and no string of a container: the cursor moves behind the longest JSON at it, each subtree at an argument path is text that parses back to it, nothing else changes and nothing is partial; or a content path leads to no string |
| `ChatConsumed.HealedConsumed` | llama/src/main/cpp/llama.cpp/common/chat-parser.cpp:264-389 | healed JSON, where the two passes agree: arguments are the beginnings of the dumps in front of the marker, content is cut there, what else holds it is left out, the rest unchanged; the flag is raised and the cursor at the error; or a content path leads to no string |
| `ChatConsumed.ArgumentsArrive` | llama/src/main/cpp/llama.cpp/common/chat-parser.cpp:305-319 | with the whole of the JSON as arguments, a prefix of a document comes out as that very prefix, up to the scalar it stops on, and partial |
| `ChatConsumed.ArgumentsComplete` | llama/src/main/cpp/llama.cpp/common/chat-parser.cpp:281-297 | a complete document comes out as its own text, whole and not partial, whatever follows it |
| `ChatConsumed.TopStringConsumed` | llama/src/main/cpp/llama.cpp/common/chat-parser.cpp:320-331 | a string at the very top that is content and no argument comes out empty and partial |
| `ChatConsumed.NotConsumed` | llama/src/main/cpp/llama.cpp/common/chat-parser.cpp:236-253 | nothing is taken exactly where parsing refuses, where healing throws, and of healed JSON in a complete message |
| `ChatFlag.UnhealedFlag` | llama/src/main/cpp/llama.cpp/common/chat-parser.cpp:304-381 | on JSON that was not healed, with the marker in no key and in no string of a container, the pass raises the flag only for a content string at the very top |
| `ChatParser.PartialExactlyWhenHealed` | llama/src/main/cpp/llama.cpp/common/chat-parser.cpp:283-388 | is_partial is raised if and only if healing happened, or the input is a whole string at the top with the empty path among the content paths and only other paths among the argument paths: for every input of which nothing that holds the marker is decoded |
| `ChatParser.FlagFitsExactly` | llama/src/main/cpp/llama.cpp/common/chat-parser.cpp:283-388 | for input parsed without healing that condition is exact: the flag is so for all paths if and only if no key and no string of a container holds the marker |
| `ChatParser.RawUnmarked` | llama/src/main/cpp/llama.cpp/common/chat-parser.cpp:18-24 | the check of the raw input gives the condition where no `\u` escape is read |
| `ChatEscapes.CodedMarkerFound` | llama/src/main/cpp/llama.cpp/common/chat-parser.cpp:346-358 | a concrete input, the marker written as a `\u` escape: it passes the check, is parsed without healing, loses its member and is called partial |
| `ChatEscapes.CodedKeyHidesHealing` | llama/src/main/cpp/llama.cpp/common/chat-parser.cpp:305-313 | a concrete input whose first key spells the marker with a `\u` escape: it passes the check and is healed, yet consumed as complete |
| `ChatParser.ConsumedIsUnmarked` | llama/src/main/cpp/llama.cpp/common/chat-parser.cpp:302-388 | no key, string or number that is consumed from healed input holds the marker, for every input of which nothing that holds it is decoded; the cursor stops at the error |
| `ChatParser.ContentStringAtTopIsLost` | llama/src/main/cpp/llama.cpp/common/chat-parser.cpp:320-331 | the exception on a concrete input: a whole string comes back empty and partial |
| `Tensors.FlattenBounds` | llama/src/main/cpp/llama.cpp/convert_lora_to_gguf.py:151-154 | row-major positions are in range and determine their entry: the meaning of reshape |
| `Tensors.UnflattenBounds` | llama/src/main/cpp/llama.cpp/convert_lora_to_gguf.py:151-154 | every row-major position is that of exactly one entry |
| `TensorLaws.ReshapedAt` | llama/src/main/cpp/llama.cpp/convert_lora_to_gguf.py:151-154 | entries at the same row-major position are the same entry |
| `HeadPermute.ThreeAxes` | llama/src/main/cpp/llama.cpp/convert_hf_to_gguf.py:2146 | row-major: the last axis runs fastest |
| `TensorLaws.PermutedAt` | llama/src/main/cpp/llama.cpp/convert_lora_to_gguf.py:163-174 | axis i of a permuted tensor is axis dims[i], a negative one counted from the back |
| `TensorLaws.SlicePicks` | llama/src/main/cpp/llama.cpp/convert_lora_to_gguf.py:59-77 | a slice picks the first position between its ends and from there every step-th one between them, in order, negative ends counting from the back |
| `TensorLaws.SlicePicked` | llama/src/main/cpp/llama.cpp/convert_lora_to_gguf.py:59-77 | and its entries are those of the positions picked |
| `TensorLaws.PositionPicks` | llama/src/main/cpp/llama.cpp/convert_lora_to_gguf.py:59-77 | a position is in range from the front or from the back, and picks that entry |
| `TensorLaws.CatEntries` | llama/src/main/cpp/llama.cpp/convert_lora_to_gguf.py:207-219 | row j of a piece lies below all the rows of the pieces in front of it |
| `TensorLaws.StackEntries` | llama/src/main/cpp/llama.cpp/convert_lora_to_gguf.py:199-206 | entry i of a stack is tensor i |
| `Tensors.TensorEqualIsSame` | llama/src/main/cpp/llama.cpp/convert_lora_to_gguf.py:215 | comparing size and elements one by one decides equality of tensors |
| `Lora.EntryFrom` | llama/src/main/cpp/llama.cpp/convert_lora_to_gguf.py:42-54 | entries of B * A depend on one row of B and one column of A alone |
| `Lora.RankOneEntry` | llama/src/main/cpp/llama.cpp/convert_lora_to_gguf.py:32-54 | with rank one an entry of B * A is the product of two entries |
| `Lora.IdentityRight` | llama/src/main/cpp/llama.cpp/convert_lora_to_gguf.py:32-54 | with the identity for A the product is B |
| `Lora.IdentityLeft` | llama/src/main/cpp/llama.cpp/convert_lora_to_gguf.py:32-54 | with the identity for B it is A |
| `LoraReshaping.ReshapeCommutes` | llama/src/main/cpp/llama.cpp/convert_lora_to_gguf.py:131-155 | whatever reshape is accepted, -1 included, the product of the reshaped factors is the reshaped product |
| `LoraReshaping.ReshapeAccepts` | llama/src/main/cpp/llama.cpp/convert_lora_to_gguf.py:131-155 | accepted are exactly the reshapes of the product that keep its last axis and leave two axes or more |
| `LoraReshaping.InferredLength` | llama/src/main/cpp/llama.cpp/convert_lora_to_gguf.py:140-145 | one length of -1 is the one that makes up all the elements, the others staying; it is refused exactly where there is none |
| `LoraReshaping.RankZeroAcceptsAll` | llama/src/main/cpp/llama.cpp/convert_lora_to_gguf.py:150-155 | with rank zero the element counts of the factors no longer tell, and every shape with the last axis kept is accepted |
| `LoraReshaping.RankZeroReshapes` | llama/src/main/cpp/llama.cpp/convert_lora_to_gguf.py:131-155 | with rank zero an accepted reshape gives the reshaped product if and only if the product has as many elements as the new shape |
| `LoraAxes.EveryAxisPlaced` | llama/src/main/cpp/llama.cpp/convert_lora_to_gguf.py:163-165 | axes without a repetition leave none out |
| `LoraAxes.PermuteCommutes` | llama/src/main/cpp/llama.cpp/convert_lora_to_gguf.py:163-174 | the product of the permuted factors is the permuted product: only B is permuted, or the factors of a matrix change places |
| `LoraAxes.SwappedEntry` | llama/src/main/cpp/llama.cpp/convert_lora_to_gguf.py:170-171 | the transposed product is the product of the transposed factors the other way round |
| `LoraAxes.PermuteAccepts` | llama/src/main/cpp/llama.cpp/convert_lora_to_gguf.py:163-174 | accepted are exactly the permutations of a matrix and those that fix the last axis |
| `LoraAxes.TransposeCommutes` | llama/src/main/cpp/llama.cpp/convert_lora_to_gguf.py:176-183 | swapping two axes, counted from either end: when it is accepted, and that the product is the swapped product |
| `LoraIndexed.FullRange` | llama/src/main/cpp/llama.cpp/convert_lora_to_gguf.py:88-113 | a tuple of indices is in range for the factors exactly when it is for the product |
| `LoraIndexed.SlicesCommute` | llama/src/main/cpp/llama.cpp/convert_lora_to_gguf.py:99-113 | with both matrix axes sliced, the product of the indexed factors is the indexed product |
| `LoraIndexed.PositionsMisfit` | llama/src/main/cpp/llama.cpp/convert_lora_to_gguf.py:99-113 | with a matrix axis at a single position the result, where there is one, has an axis too many |
| `LoraIndexed.IndexCommutes` | llama/src/main/cpp/llama.cpp/convert_lora_to_gguf.py:80-113 | indexing with one index for every axis is right if and only if neither matrix axis is at a single position |
| `LoraIndex.LeadingPicks` | llama/src/main/cpp/llama.cpp/convert_lora_to_gguf.py:99-113 | a position on a leading axis picks the same position of A as of B, or the only one that A has |
| `LoraIndexed.BothPositionsMisfit` | llama/src/main/cpp/llama.cpp/convert_lora_to_gguf.py:99-113 | a concrete shape with both matrix axes at a position: the result has an axis too many |
| `LoraIndexed.FrontIndices` | llama/src/main/cpp/llama.cpp/convert_lora_to_gguf.py:82-97 | fewer indices, with or without a trailing ellipsis, leave the other axes whole |
| `LoraIndexed.EllipsisExpansion` | llama/src/main/cpp/llama.cpp/convert_lora_to_gguf.py:84-97 | behind an ellipsis in front of other indices every axis gets an index that picks what it should, whatever the length of the axis, if and only if the axes are twice the other indices, or there are more and the indices after it are `:` or `0:` with step one |
| `LoraIndexed.WholeSliceIs` | llama/src/main/cpp/llama.cpp/convert_lora_to_gguf.py:84-97 | those two slices, and no other index, keep an axis whole whatever its length |
| `LoraIndexed.AlikeIndices` | llama/src/main/cpp/llama.cpp/convert_lora_to_gguf.py:84-97 | index lists that pick the same of every axis give the same tensor, or both an error |
| `LoraIndexed.InnerEllipsisMisplaced` | llama/src/main/cpp/llama.cpp/convert_lora_to_gguf.py:84-97 | a concrete ellipsis between two positions puts the second one on a wrong axis |
| `LoraBatches.ItemCommutes` | llama/src/main/cpp/llama.cpp/convert_lora_to_gguf.py:68-72 | a position of the first axis: accepted where both factors have it, and then the product at that position |
| `LoraBatches.SliceCommutes` | llama/src/main/cpp/llama.cpp/convert_lora_to_gguf.py:73-77 | a slice of the first axis: when the factors still fit together, and that it is then the slice of the product |
| `LoraBatches.SecondPositionMisfits` | llama/src/main/cpp/llama.cpp/convert_lora_to_gguf.py:73-77 | a concrete slice that leaves the product a position and A none |
| `LoraBatches.StackCommutes` | llama/src/main/cpp/llama.cpp/convert_lora_to_gguf.py:199-206 | the product of stacked factors is the stack of the products, on axis 0 alone |
| `LoraBatches.CatCommutes` | llama/src/main/cpp/llama.cpp/convert_lora_to_gguf.py:215-219 | concatenating matrices that share A concatenates the products |
| `LoraCats.CatMixes` | llama/src/main/cpp/llama.cpp/convert_lora_to_gguf.py:207-214 | with more axes both factors are concatenated: a row is made of the B of the piece it lies in and the A of the piece with its number |
| `LoraCats.CatOfBatches` | llama/src/main/cpp/llama.cpp/convert_lora_to_gguf.py:207-214 | so the factors fit together exactly when there is one piece or as many positions as pieces, and concatenate the products, whatever the entries, exactly when there is one piece, or every piece has one position, or they fit together and there is nothing to multiply |
| `LoraCats.UnevenPiecesMix` | llama/src/main/cpp/llama.cpp/convert_lora_to_gguf.py:207-214 | concrete shapes, pieces with no position and with two, that fit together and give a wrong product |
| `HeadPermute.RowsMove` | llama/src/main/cpp/llama.cpp/convert_hf_to_gguf.py:2143-2148 | row h*2m+s*m+t goes to row h*2m+2t+s, and is where that row comes from |
| `HeadPermute.RowsInverse` | llama/src/main/cpp/llama.cpp/convert_hf_to_gguf.py:2143-2148 | the two row maps are inverse to each other and stay within the rows |
| `HeadPermute.KeyValueHeadsDecide` | llama/src/main/cpp/llama.cpp/convert_hf_to_gguf.py:2143-2148 | the number of key-value heads, where there is one, decides the layout, else that of the heads; rows that it divides into halves are permuted without an error |
| `HeadPermute.KeyValueHeadsDecideLora` | llama/src/main/cpp/llama.cpp/convert_hf_to_gguf.py:2143-2148 | and so it does on low-rank factors |
| `HeadPermute.PermutesRows` | llama/src/main/cpp/llama.cpp/convert_hf_to_gguf.py:2146-2148 | row i of the result is the row that the inverse names, whatever the other axes |
| `HeadPermute.UnevenRowsRefused` | llama/src/main/cpp/llama.cpp/convert_hf_to_gguf.py:2146-2148 | accepted are exactly the row counts that the heads divide into halves |
| `HeadPermute.PermuteCommutes` | llama/src/main/cpp/llama.cpp/convert_hf_to_gguf.py:2143-2148 | run on low-rank factors, the permutation gives factors of the permuted product whenever it gives any |
| `HeadPermute.OnlyRowsMove` | llama/src/main/cpp/llama.cpp/convert_hf_to_gguf.py:2143-2148 | run on low-rank factors it leaves A as it was and permutes the rows of B |
| `Experts.NamesApart` | llama/src/main/cpp/llama.cpp/convert_hf_to_gguf.py:2207 | within a block different experts or weights have different names |
| `Experts.WeightsNamed` | llama/src/main/cpp/llama.cpp/convert_hf_to_gguf.py:2202-2214 | a weight and the weight merged from it are called w1, w2 or w3 alike |
| `Experts.MergedApart` | llama/src/main/cpp/llama.cpp/convert_hf_to_gguf.py:2214 | the merged names tell the block and the weight |
| `Experts.NamesBegin` | llama/src/main/cpp/llama.cpp/convert_hf_to_gguf.py:2207-2214 | how the names begin |
| `Experts.DecimalIs` | llama/src/main/cpp/llama.cpp/convert_hf_to_gguf.py:2207 | numbers in names are decimal, without leading zeros |
| `Experts.ExpertNamesRecognised` | llama/src/main/cpp/llama.cpp/convert_hf_to_gguf.py:2189 | every expert name takes the branch for experts |
| `Experts.ExpertMerger.ModifyTensors` | llama/src/main/cpp/llama.cpp/convert_hf_to_gguf.py:2188-2224 | the dictionaries and the tensors given back for one arrival, with its errors: no block number, no such block, a missing expert, unlike shapes; after an error too the dictionaries are what the merge has left of them |
| `Experts.ArriveLeft` | llama/src/main/cpp/llama.cpp/convert_hf_to_gguf.py:2197-2219 | without an error what is left of the dictionaries is what the arrival gives back |
| `Experts.ExpertMerger.CheckProcessed` | llama/src/main/cpp/llama.cpp/convert_hf_to_gguf.py:2254-2261 | the final check passes exactly when all dictionaries are empty |
| `ExpertRuns.MergesBlock` | llama/src/main/cpp/llama.cpp/convert_hf_to_gguf.py:2199-2219 | a complete dictionary gives its three merged weights in order and is left empty |
| `ExpertRuns.RunSettles` | llama/src/main/cpp/llama.cpp/convert_hf_to_gguf.py:2189-2222 | after any run over distinct expected names, in any interleaving: a complete block has given each weight once and holds nothing; any other holds what arrived and has given nothing |
| `ExpertRuns.SlicesAreExperts` | llama/src/main/cpp/llama.cpp/convert_hf_to_gguf.py:2206-2212 | slice xid of a merged weight is the tensor that expert xid sent |
| `ExpertRuns.OrderIrrelevant` | llama/src/main/cpp/llama.cpp/convert_hf_to_gguf.py:2189-2222 | two runs over the same arrivals give every block the same results and leave the same behind |
| `ExpertRuns.LeftOverIffPartial` | llama/src/main/cpp/llama.cpp/convert_hf_to_gguf.py:2254-2261 | the final check raises exactly when some block got some but not all of its experts |
| `ExpertRuns.FullCountMustBeExpected` | llama/src/main/cpp/llama.cpp/convert_hf_to_gguf.py:2199-2209 | the count alone starts a merge, so a full count that lacks an expected name is an error |
| `Bpe.LowestIsJoined` | llama/src/main/cpp/llama.cpp/convert_hf_to_gguf.py:2987-2998 | the first pair of lowest rank is joined before anything else, if its rank is allowed |
| `Bpe.NothingIsJoined` | llama/src/main/cpp/llama.cpp/convert_hf_to_gguf.py:2994-2995 | parts of which no pair may be joined stay as they are |
| `Bpe.LowestNotCut` | llama/src/main/cpp/llama.cpp/convert_hf_to_gguf.py:2984-2998 | no cut of the result falls between the two parts of the first pair of lowest rank |
| `Bpe.Encode` | llama/src/main/cpp/llama.cpp/convert_hf_to_gguf.py:2984-2998 | the loop terminates; the parts concatenate to the token; every part of several bytes has an allowed rank; no two neighbours can still be joined; the first pair of bytes of lowest rank is in one part; and the result is that of the greedy merges |
| `Bpe.EncodedIs` | llama/src/main/cpp/llama.cpp/convert_hf_to_gguf.py:2986-2998 | the same of the greedy merges from any parts |
| `Bpe.OwnRankSplits` | llama/src/main/cpp/llama.cpp/convert_hf_to_gguf.py:2994 | with its own rank as the limit a token of two bytes or more stays in two parts or more |
| `Bpe.LimitIsRestriction` | llama/src/main/cpp/llama.cpp/convert_hf_to_gguf.py:2994 | a limit on the rank is as good as a dictionary without the ranks from it on |
| `Lcs.SuffixIsLongest` | llama/src/main/cpp/llama.cpp/common/common.cpp:1254-1272 | the recurrence gives the longest common block ending at two positions |
| `Lcs.CommonLcs` | llama/src/main/cpp/llama.cpp/common/common.cpp:1231-1278 | two rolling rows give exactly the greatest length of a contiguous block common to both sequences |
| `Lcs.BlocksAreNotSubsequences` | llama/src/main/cpp/llama.cpp/common/common.cpp:1231-1278 | two sequences whose longest common subsequence is longer than any common block |
| `Base64.EncodedSize` | llama/src/main/cpp/llama.cpp/common/base64.hpp:338-341 | the encoding has exactly the required size |
| `Base64Letters.LetterIs` | llama/src/main/cpp/llama.cpp/common/base64.hpp:84-86 | the letters are those of the two tables, in their order |
| `Base64Letters.ValueIs` | llama/src/main/cpp/llama.cpp/common/base64.hpp:344-390 | a byte has a value exactly where it is a letter of the alphabet, or of one it may still turn out to be, and then its place in the table |
| `Base64Letters.EncodedIs` | llama/src/main/cpp/llama.cpp/common/base64.hpp:80-144 | an encoding is letters, whose number is that of the bytes followed by zero bits alone, and as many pads as the last group is short of |
| `Base64.Encode` | llama/src/main/cpp/llama.cpp/common/base64.hpp:80-144 | the loop writes the encoding, in the required size |
| `Base64.Decode` | llama/src/main/cpp/llama.cpp/common/base64.hpp:200-244 | the loop computes the decoding that the lemmas here are about, or throws, and stays within the maximal size |
| `Base64.DecodeInPlace` | llama/src/main/cpp/llama.cpp/common/base64.hpp:204-229 | decoding over the input equals decoding a copy: each write lands behind what has been read |
| `Base64.RoundTrip` | llama/src/main/cpp/llama.cpp/common/base64.hpp:80-244 | decoding an encoding gives the bytes back, with either alphabet given, with the alphabet detected, and in both behaviours |
| `Base64.DecodedIs` | llama/src/main/cpp/llama.cpp/common/base64.hpp:200-244 | decoding is accepted exactly for letters followed by nothing but padding, or by anything in the loose behaviour, and is a change of base: the number of the letters is that of the bytes and fewer than eight bits more |
| `Base64Letters.AcceptedIs` | llama/src/main/cpp/llama.cpp/common/base64.hpp:231-241 | behind the first pad the moderate behaviour lets nothing but pads pass, the loose one anything |
| `Base64.DetectionFrom` | llama/src/main/cpp/llama.cpp/common/base64.hpp:366-386 | detection accepts exactly what one of the two alphabets accepts, with the same result |
| `Wrap.BreakStrIntoLines` | llama/src/main/cpp/llama.cpp/common/arg.cpp:111-136 | the loops give each line wrapped, in order |
| `Wrap.AddLine` | llama/src/main/cpp/llama.cpp/common/arg.cpp:115-131 | a line over the limit becomes its words, greedily grouped |
| `Wrap.FilledIsGreedy` | llama/src/main/cpp/llama.cpp/common/arg.cpp:121-129 | the loop over words puts as many on each line as fit |
| `Wrap.WrappedKeepsWords` | llama/src/main/cpp/llama.cpp/common/arg.cpp:115-131 | the words read back from the lines are the words of the line, and each line is within the limit or one word |
| `Wrap.LinesWithinLimit` | llama/src/main/cpp/llama.cpp/common/arg.cpp:111-136 | every line of the whole result is within the limit or one word |
| `Wrap.FewestLines` | llama/src/main/cpp/llama.cpp/common/arg.cpp:121-129 | no other grouping of the words, in order, within the same rule takes fewer lines |
| `Wrap.WrappedIsShortest` | llama/src/main/cpp/llama.cpp/common/arg.cpp:115-131 | the lines made of an over-long line are as few as any such grouping needs |
| `Wrap.LinesAre` | llama/src/main/cpp/llama.cpp/common/arg.cpp:133-135 | the lines are the text cut at its line ends, blank ones included, and none for nothing behind the last |
| `Wrap.TextKeepsWords` | llama/src/main/cpp/llama.cpp/common/arg.cpp:111-136 | the words of the whole text, in order, are the words of the lines given back |
| `Wrap.ShortLinesStay` | llama/src/main/cpp/llama.cpp/common/arg.cpp:115-117 | lines within the limit are given back unchanged |
| `Utf8.AppendUtf8` | llama/src/main/cpp/llama.cpp/common/console.cpp:318-336 | appends the bytes of a code point, none beyond the last |
| `Utf8.EncodeShape` | llama/src/main/cpp/llama.cpp/common/console.cpp:318-336 | one to four bytes, the first not a continuation and the others continuations |
| `Utf8.EncodeValue` | llama/src/main/cpp/llama.cpp/common/console.cpp:318-336 | the bytes carry the code point beyond their marks, six bits to a byte, the highest first, in as many bytes as it needs |
| `Utf8.PopBackUtf8Char` | llama/src/main/cpp/llama.cpp/common/console.cpp:339-353 | the loop goes back to the byte that starts the last character, four bytes at most |
| `Utf8.PoppedIs` | llama/src/main/cpp/llama.cpp/common/console.cpp:339-353 | taking back the last character undoes putting it, whatever stands in front |
| `Utf8.PoppedIffCodePoint` | llama/src/main/cpp/llama.cpp/common/console.cpp:318-353 | behind a non-empty text it does so if and only if the character is a code point |
| `LineEditor.ErasedIs` | llama/src/main/cpp/llama.cpp/common/console.cpp:395-408 | a backspace removes the widthless characters at the end and at most one wider one |
| `LineEditor.Backspace` | llama/src/main/cpp/llama.cpp/common/console.cpp:395-408 | bytes and widths follow the characters through a backspace |
| `LineEditor.SkipEscape` | llama/src/main/cpp/llama.cpp/common/console.cpp:385-394 | an escape sequence is consumed to its end and nothing after it |
| `LineEditor.EditLine` | llama/src/main/cpp/llama.cpp/common/console.cpp:364-424 | for any keys a special last character is there whenever the flag says so; for code points the bytes are those of the characters that the keys leave |
| `LineEditor.ReadlineAdvanced` | llama/src/main/cpp/llama.cpp/common/console.cpp:355-457 | the line handed back and whether more follows, for every sequence of code points |
| `LineKeys.TypedKeys` | llama/src/main/cpp/llama.cpp/common/console.cpp:409-417 | keys put their characters one behind the other, with no width below zero |
| `LineKeys.LineEnds` | llama/src/main/cpp/llama.cpp/common/console.cpp:370-377 | what ends a line and what ends the input |
| `LineKeys.EraseUndoes` | llama/src/main/cpp/llama.cpp/common/console.cpp:395-408 | a backspace or delete undoes a character and the widthless ones typed behind it |
| `LineKeys.NothingToErase` | llama/src/main/cpp/llama.cpp/common/console.cpp:395-408 | erasing what is empty or widthless leaves nothing |
| `LineKeys.SequenceIgnored` | llama/src/main/cpp/llama.cpp/common/console.cpp:385-394 | an escape sequence up to a letter or a tilde changes nothing |
| `LineKeys.SequenceCutOff` | llama/src/main/cpp/llama.cpp/common/console.cpp:385-394 | so does one that the end of the input cuts off |
| `LineKeys.EscapedKeyIgnored` | llama/src/main/cpp/llama.cpp/common/console.cpp:385-394 | nor does any other key behind an escape |
| `LineKeys.EnteredLine` | llama/src/main/cpp/llama.cpp/common/console.cpp:427-453 | what is handed back for typed keys: a backslash at the end is replaced by a line end and turns the continuation round, a slash ends it and takes a lone blank with it, any other line has its line end unless the input ended |
| `LineKeys.EmptyLine` | llama/src/main/cpp/llama.cpp/common/console.cpp:427-453 | an empty line is a line end, or nothing at the end of the input |
| `TokenBuffer.IsValidUtf8` | llama/src/main/cpp/llama-android.cpp:38-73 | the loop accepts exactly the texts of whole characters |
| `TokenBuffer.WholeCharacter` | llama/src/main/cpp/llama-android.cpp:44-66 | which first bytes take none, one, two or three continuations |
| `TokenBuffer.WholeConcat` | llama/src/main/cpp/llama-android.cpp:38-73 | an accepted beginning of a text leaves a rest that is accepted exactly when the text is |
| `TokenBuffer.TextIsWhole` | llama/src/main/cpp/llama-android.cpp:38-73 | all UTF-8 text is accepted |
| `TokenBuffer.TextIffWellFormed` | llama/src/main/cpp/llama-android.cpp:38-73 | a text is the encoding of code points if and only if it is accepted and no character of it is longer than its code point needs or beyond the last code point |
| `TokenBuffer.OverlongIsWhole` | llama/src/main/cpp/llama-android.cpp:48-50 | two-byte sequences that encode no code point are accepted: concrete bytes |
| `TokenBuffer.RunIs` | llama/src/main/cpp/llama-android.cpp:424-434 | over all pieces without a zero byte: what was given out and what is held back are all the text in order, every chunk is accepted, and what is held back is empty or not accepted |
| `TokenBuffer.EmptyIffWhole` | llama/src/main/cpp/llama-android.cpp:424-434 | for such pieces nothing is held back in the end if and only if the whole stream is accepted |
| `TokenBuffer.CutsIrrelevant` | llama/src/main/cpp/llama-android.cpp:424-434 | for such pieces, once the text so far is accepted all of it has been given out, however it was cut into pieces |
| `TokenBuffer.Completion.CompletionLoop` | llama/src/main/cpp/llama-android.cpp:424-434 | one piece: cached, given out whole when accepted, and the cache cleared |

## Left out

- Texts cut inside a multi-byte character, byte order marks, NUL characters and numbers too large for the library: characters are whole, and numbers are kept as the text they were read from.
- JsonRoundTrip.TruncatedDumpRoundTrip: markers with quotes, backslashes, colons, commas or control characters are not covered; the program's own markers are digits.
- JsonErrors.HealsExactly: markers that start with a space, comma, colon or closing bracket, and those with quotes, backslashes or control characters, are not covered; the program's own markers are digits.
- ChatParser.PartialExactlyWhenHealed: exact for input parsed without healing (ChatParser.FlagFitsExactly); for healed input the condition on what is decoded is sufficient, not necessary, and ChatEscapes.CodedKeyHidesHealing shows that it cannot be dropped.
- ChatConsumed.HealedConsumed: where the two passes do not agree (ChatPaths.PassesAgreeExactly) the value is not described; that it is free of the marker is proved there too.
- ChatParser.ConsumedIsUnmarked: the condition on what is decoded is sufficient, not necessary.
- JsonErrors.BroughtBackExactly: markers that start with a space or a closing bracket are not covered.
- LineEditor.ReadlineAdvanced: says nothing of the line when a key is beyond the last code point; the flag's meaning is proved for all keys.
- LoraReshaping.ReshapeCommutes: assumes rank above zero (LoraReshaping.RankZeroReshapes says when it holds without) and leading axes of A of length one, which the program makes them.
- Base64.DecodeInPlace: says nothing of the buffer when decoding throws.
- CommonStrings.StringReplaceAll: gives the new text back instead of writing it over its argument.
- Choosing the healing marker at random: the marker is a parameter of the parser's constructor.
- Regular expressions in the chat parser, tool calls and the formats built on them.
- Index tensors in low-rank indexing, data types, lazy tensors and rounding.
- Multimodal and renamed tensors in `modify_tensors`, and `map_tensor_name`: the merged names are the ones handed to it.
- Terminal output, cursor movement and width queries: widths are part of the keys.
- Sampling, JNI strings and the rest of the app.
- Overflow of sizes: lengths and positions are unbounded.
