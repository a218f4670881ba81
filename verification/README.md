# Verified models of the ds4 agent and command-line client

ds4 is a local inference engine with a native coding agent. The agent runs a language model
in-process: it keeps an append-only token transcript and a live inference session, reads the
model's bytes through a streaming tool-call parser, edits files, and talks to its front-end
through a pipe. This project models those parts, and the small self-contained cores next to
them, and proves what they keep.

`dafny verify dfyconfig.toml` checks the whole project.

## What is modelled

* **Session and transcript** (`AgentSession`, `DecodeLoop`, `LoopExits`, `AssistantMessage`, `Compaction`,
  `AgentTurn`). The decode loop with speculative blocks, stop tokens inside a block, forced
  `[upto]` lines, mode-change rewinds and tool completion; context compaction with all its exits;
  and whole sessions made of messages, rounds and compactions. What the backend, the sampler and the
  tokenizer choose is a parameter of every theorem.
* **Tool calls** (`ToolParser`, `ParserObject`, `CloseDetector`, `ParserShift`, `DsmlRoundTrip`,
  `DsmlGrammar`, `GlmParser`, `GlmRoundTrip`, `GlmGrammar`). Both syntaxes, byte by byte, with printers to read
  back from and grammars that say, as text, what is accepted and what is rejected.
* **Stream router** (`ThinkTags`, `StreamRouter`, `MarkerDetector`, `RouterObject`, `RouterProse`,
  `ToolMessage`). Think tags, the start detector, blocks ignored inside thinking, the marker detectors, and the
  decision about whole messages: answered, executed, malformed or stopped.
* **Edit engine** (`EditEngine`), **wake handshake** (`WakeProtocol`), **tail ring** (`TailCapture`),
  **layer packer** (`LayerPack`).
* **Command-line client** (`TokenPrinter`, `ReplChat`, `Utf8Json`).

Code that updates a struct in place is a class, or a method with the loops of the original, proved
to compute a function; the theorems are about that function. Each class keeps its fields in one value
of the corresponding datatype, so a theorem about values applies to it directly. Bytes are `char`s,
or numbers below 256 where their value matters.

## What turned out to be false, and exactly when it holds

* "KV cache mismatch are impossible by construction" (ds4/README.md:1001) holds for every run of the
  decode loop, error exits included, if and only if the backend can rewind into a block, restores its
  state when it does, never commits more tokens than it was asked for, and fails cleanly
  (`DecodeLoop.TrueIffExact`). For the token timeline alone the condition on the state is not needed
  (`DecodeLoop.HeldIffFollows`), and for runs without an error the first and the third are the exact
  ones (`DecodeLoop.InStepIffExact`). Four runs show that each is needed:
  * `RefusedRewindDrifts`: the qwen4exp backend refuses partial rewinds (ds4/ds4.c:78221-78257).
  * `UnboundedBlockDrifts`: the GLM speculative cycle has no token limit among its parameters
    (ds4/ds4.c:66323-66380).
  * `FailedBlockStays`: the DSpark cycle can report a failure with the first token of the block already
    in a valid checkpoint, when a message to a tensor-parallel peer cannot be sent
    (ds4/ds4.c:71793-71799, 71824-71830, 72059-72067), and the loop then returns without invalidating
    the session (ds4/ds4_agent.c:9196-9200).
  * `LostStateStays`: a GLM-5.3 session cannot restore its recurrent state when a block of one token is
    rewound, as for a forced line; it cuts the timeline and marks the checkpoint invalid
    (ds4/ds4.c:66662-66668, 78255-78268), and the next evaluation marks it valid again
    (ds4/ds4.c:69676-69677).

  In the first three the next synchronisation repairs the session at the price of evaluating more than
  the suffix; in the last it does not (`AgentSession.MixedStays`). `AgentTurn` states its theorems for
  backends that meet the conditions.
* The GLM parser is stricter on a stream than on a complete buffer. For every text, streaming equals
  one parse if and only if no beginning of the text shows `</tool_call>` inside a key or a value that
  the text goes on to close (`GlmParser.FeedIsOneParseIff`). A printed stanza is always read back in
  one parse (`GlmRoundTrip.BatchRoundTrip`), and streamed if and only if no key and no value shows
  `</tool_call>` (`GlmRoundTrip.StreamRoundTripIff`).
* A DSML parameter is read back as printed if and only if its value spells no close tag and, for a
  string parameter, its name does not end in `string=` (`DsmlRoundTrip.ReadBackIff`);
  `FlagReadSwallowed` says what is read otherwise.

## Model

| member | source | states |
|---|---|---|
| `ToolParser.CloseTagBytes` | ds4/ds4_agent.c:1689-1706 | only the first byte of an accepted close tag is `<` and only its last is `>` |
| `ToolParser.CloseTagExtend` | ds4/ds4_agent.c:1689-1706 | appended bytes neither break, move nor create a close tag that ends inside the old buffer |
| `ToolParser.CloseTagSettled` | ds4/ds4_agent.c:1689-1706 | once a `>` has arrived, whether a close tag starts at an offset before it never changes again |
| `ToolParser.FindCloseTagExtend` | ds4/ds4_agent.c:1781-1788 | the first close tag found stays the first however the buffer grows |
| `ToolParser.StepExtend` | ds4/ds4_agent.c:1952-2033 | progress made by one pass of the parse loop is made unchanged on every longer buffer; a pass that waits has decided nothing |
| `ToolParser.ParseExtend` | ds4/ds4_agent.c:1952-2033 | parsing early and again after more bytes equals parsing once at the end, for every parser state and every input |
| `ToolParser.FeedIsOneParse` | ds4/ds4_agent.c:1952-2070 | feeding any bytes one at a time reaches exactly the parser (state, position, current call, calls, buffer) of one parse of the whole buffer |
| `ToolParser.FeedSplit` | ds4/ds4_agent.c:2044-2070 | feeding a concatenation is feeding its parts |
| `ToolParser.ChunkingIrrelevant` | ds4/ds4_agent.c:2044-2070 | any two ways of cutting a stream into feed calls end in the same parser, up to the raw bytes kept after DONE or ERROR |
| `ToolParser.TerminalAbsorbs` | ds4/ds4_agent.c:2044-2070 | DONE and ERROR absorb: further bytes change nothing but the raw buffer |
| `ToolParser.FinishedCalls` | ds4/ds4_agent.c:2044-2048 | feed calls on a finished parser return it untouched |
| `ToolParser.ParseCallsGrow` | ds4/ds4_agent.c:1952-2033 | a parse only appends to the call list |
| `ToolParser.CallsGrow` | ds4/ds4_agent.c:2044-2070 | feeding only appends to the call list |
| `ToolParser.SearchWindow` | ds4/ds4_agent.c:2052-2060 | while no start marker has been spelled, the search window is exactly the last bytes of the stream |
| `ToolParser.SearchFindsFirst` | ds4/ds4_agent.c:2044-2060 | the sliding window starts the parser exactly at the end of the first marker in the stream, overlaps and false starts included |
| `ToolParser.FeedText` | ds4/ds4_agent.c:2035-2070 | for every stream: without a marker the parser keeps searching, with one it ends where one parse of everything behind the first marker ends |
| `ToolParser.DsmlTagsShape` | ds4/ds4_agent.c:1952-2042 | the agent's own DSML tags satisfy the shape the theorems are stated for |
| `ParserShift.ParseRest` | ds4/ds4_agent.c:1952-2033 | what a parse decides depends only on the bytes not yet consumed |
| `ParserObject.ToolCallParser.constructor` | ds4/ds4_agent.c:1632-1635 | a reset parser is the empty searching parser with its flag clear |
| `ParserObject.ToolCallParser.FindClose` | ds4/ds4_agent.c:1781-1788 | the scanning loop finds the first close tag |
| `ParserObject.ToolCallParser.StructuralPass` | ds4/ds4_agent.c:1976-2031 | one structural pass of the loop on the mutable parser is one step of the specification |
| `ParserObject.ToolCallParser.ValuePass` | ds4/ds4_agent.c:1959-1974 | one parameter-value pass on the mutable parser is one step of the specification |
| `ParserObject.ToolCallParser.Parse` | ds4/ds4_agent.c:1952-2033 | the parse loop on the mutable parser computes the specified parse |
| `ParserObject.ToolCallParser.UpdateClosePrefix` | ds4/ds4_agent.c:1756-1775 | the flag is set exactly when the bytes since the value's last `<` can still become, and are not yet, the close tag, within 64 bytes |
| `ParserObject.ToolCallParser.SearchByte` | ds4/ds4_agent.c:2052-2060 | one byte of the start search on the mutable parser |
| `ParserObject.ToolCallParser.Feed` | ds4/ds4_agent.c:2044-2070 | the feed loop computes the specified feed and always leaves the close-prefix flag saying what it means |
| `CloseDetector.InPrefix` | ds4/ds4_agent.c:1708-1734 | a tail no longer than the tag's fixed part can be completed exactly when it spells its beginning |
| `CloseDetector.AfterBar` | ds4/ds4_agent.c:1708-1734 | behind the optional bar a tail can be completed exactly when only spaces, or spaces and one final `>`, follow |
| `CloseDetector.ParameterCloseTail` | ds4/ds4_agent.c:1708-1734 | accepts exactly the tails some continuation makes a close tag of the parser, and reports complete exactly those that are one |
| `CloseDetector.TagsInOrder` | ds4/ds4_agent.c:1689-1706 | close tags never overlap; they end in the order in which they start |
| `CloseDetector.FirstByEndIsFirst` | ds4/ds4_agent.c:1781-1788 | the tag that ends first is the tag the parser's search finds, and only that one |
| `CloseDetector.CompletedFirst` | ds4/ds4_agent.c:1756-1788 | on every beginning of a stream a tag is found exactly when the stream's first tag has ended in it, and it is that tag |
| `DsmlRoundTrip.DsmlVocabulary` | ds4/ds4_agent.c:1282-1288 | the agent's own tags and attribute patterns satisfy the vocabulary the round trip is stated for |
| `DsmlRoundTrip.FlagRead` | ds4/ds4_agent.c:1650-1659 | a printed `string` flag is read as true exactly when it is true and the parameter name does not end in `string=` |
| `DsmlRoundTrip.FlagReadSwallowed` | ds4/ds4_agent.c:1650-1659 | a name ending in `string=` swallows the attribute behind it; the exact wrong value |
| `DsmlRoundTrip.ValueEnds` | ds4/ds4_agent.c:1959-1974 | the value read back ends where the printed value ends if and only if no close tag is spelled in it |
| `DsmlRoundTrip.ReadArg` | ds4/ds4_agent.c:1952-2033 | a printed parameter is read back as exactly that argument and leaves the parser at the text behind it |
| `DsmlRoundTrip.ReadCall` | ds4/ds4_agent.c:1952-2033 | a printed call is read back as exactly that call |
| `DsmlRoundTrip.ReadBackIff` | ds4/ds4_agent.c:1952-2033 | a printed parameter with a quotable name comes back unchanged if and only if its value spells no close tag and a string parameter's name does not end in `string=` |
| `DsmlRoundTrip.StanzaParses` | ds4/ds4_agent.c:1952-2033 | one parse of a printed stanza, whatever follows it, is DONE at its last tag with exactly the printed calls |
| `DsmlRoundTrip.TextParses` | ds4/ds4_agent.c:1282-1288 | a stanza in the documented syntax, whatever follows it, fed from the start marker on, ends in DONE with exactly the printed calls in order |
| `DsmlRoundTrip.RoundTrip` | ds4/ds4_agent.c:1952-2070 | the same however the printed text is cut into feed calls |
| `DsmlGrammar.CloseTagIff` | ds4/ds4_agent.c:1689-1706 | the matcher accepts a text up to its first `>` exactly when it is the tag, spaces, perhaps one more bar, spaces and `>` |
| `DsmlGrammar.AttrIff` | ds4/ds4_agent.c:1650-1663 | an attribute is read exactly when its pattern is spelled and a quote follows; its value is what stands between the first spelling and the next quote |
| `DsmlGrammar.ReadStanza` | ds4/ds4_agent.c:1952-2033 | a stanza of the grammar in front of the parser, with anything behind it, is read to its end with exactly its calls; one that ends in a tag out of place is rejected there for that tag's reason |
| `DsmlGrammar.StanzaRead` | ds4/ds4_agent.c:1952-2033 | wherever the parser ends, a stanza of the grammar stands in front of it |
| `DsmlGrammar.ParsesStanzas` | ds4/ds4_agent.c:1952-2033 | for every text: the parser is DONE with these calls and this rest if and only if the text is a complete stanza of these calls and the rest; it is ERROR for a reason if and only if the first tag that has no place in a stanza is complete and that is its reason (an invoke without a name, a parameter without a name, any other tag, shown up to 80 bytes); otherwise it waits |
| `DsmlGrammar.OneReading` | ds4/ds4_agent.c:1952-2033 | no text is both accepted and rejected, and an accepted one has one list of calls and one rest |
| `GlmParser.GlmTagsShape` | ds4/ds4_agent.c:1801-1820 | the agent's own GLM tags satisfy the shape the theorems are stated for |
| `GlmParser.StepExtend` | ds4/ds4_agent.c:1801-1930 | progress of one GLM pass that is no error is made unchanged on every longer buffer |
| `GlmParser.ParseExtend` | ds4/ds4_agent.c:1801-1930 | parsing early, when that is no error, never changes what parsing later decides |
| `GlmParser.FeedIsOneParse` | ds4/ds4_agent.c:1801-1930 | byte by byte equals one parse for every text none of whose beginnings is an error |
| `GlmParser.ParseFails` | ds4/ds4_agent.c:1819-1836 | a failed parse stays the same failure on a longer buffer exactly when it did not give up on a key or value whose close tag the longer buffer holds |
| `GlmParser.FeedFails` | ds4/ds4_agent.c:2044-2070 | if any beginning of a text makes the parser give up, streaming the text ends in failure |
| `GlmParser.FeedIsOneParseIff` | ds4/ds4_agent.c:1801-1930 | for every text and every parser that has not failed: byte by byte equals one parse of the whole buffer if and only if no beginning shows the end of the call inside a key or value that the text goes on to close; for printed text `GlmRoundTrip.StreamRoundTripIff` says so of the keys and values alone |
| `GlmRoundTrip.ParseRest` | ds4/ds4_agent.c:1801-1930 | what a GLM parse decides depends only on the bytes not yet consumed |
| `GlmRoundTrip.ReadValue` | ds4/ds4_agent.c:1819-1836 | one parse reads a printed value back, whatever it shows but its own close tag |
| `GlmRoundTrip.StreamValue` | ds4/ds4_agent.c:1819-1836 | no beginning of a printed value that shows no end of the call makes the streaming parser give up |
| `GlmRoundTrip.ReadKey` | ds4/ds4_agent.c:1890-1928 | one parse reads a printed key back, trimmed to itself |
| `GlmRoundTrip.StreamKey` | ds4/ds4_agent.c:1890-1928 | no beginning of a printed key that shows no end of the call makes the streaming parser give up |
| `GlmRoundTrip.ReadCall` | ds4/ds4_agent.c:1801-1930 | one parse reads a printed GLM call back as exactly that call |
| `GlmRoundTrip.StreamCall` | ds4/ds4_agent.c:1801-1930 | no beginning of a printed call whose keys and values show no end of the call makes the parser give up |
| `GlmRoundTrip.CallsFail` | ds4/ds4_agent.c:1801-1930 | a printed stanza with any key or value that shows the end of the call has a beginning on which the parser gives up |
| `GlmRoundTrip.ValueStreamsIff` | ds4/ds4_agent.c:1819-1836 | streaming a value free of `</arg_value>` runs into no error if and only if it does not show `</tool_call>` |
| `GlmRoundTrip.KeyStreamsIff` | ds4/ds4_agent.c:1896-1901 | streaming a key free of `</arg_key>` runs into no error if and only if it does not show `</tool_call>` |
| `GlmRoundTrip.ShownCloseFails` | ds4/ds4_agent.c:1821-1823 | every value that shows `</tool_call>` makes the streaming parser fail |
| `GlmRoundTrip.ShownCloseInKeyFails` | ds4/ds4_agent.c:1896-1901 | every key that shows `</tool_call>` makes the streaming parser fail |
| `GlmRoundTrip.BatchAccepts` | ds4/ds4_agent.c:1819-1836 | one parse of the complete buffer accepts the same value unchanged |
| `GlmRoundTrip.BatchAcceptsKey` | ds4/ds4_agent.c:1890-1928 | one parse of the complete buffer accepts the same key unchanged |
| `GlmRoundTrip.BatchRoundTrip` | ds4/ds4_agent.c:1801-1946 | any non-empty list of calls whose keys and values end at their own close tags, printed in the documented syntax with or without spaces and line breaks behind it, parsed at once and finished, is DONE with exactly those calls |
| `GlmRoundTrip.StreamRoundTripIff` | ds4/ds4_agent.c:1801-1946 | the same text streamed byte by byte and finished is DONE with exactly those calls if and only if no key and no value shows `</tool_call>`; otherwise the parser fails |
| `GlmGrammar.ReadStanza` | ds4/ds4_agent.c:1801-1930 | a GLM stanza of the grammar in front of the parser is read to its end with exactly its calls, or rejected where it leaves the grammar, for the reason of that place |
| `GlmGrammar.StanzaRead` | ds4/ds4_agent.c:1801-1946 | wherever one parse of a finished message ends, a stanza of the grammar stands in front of it |
| `GlmGrammar.ParsesStanzas` | ds4/ds4_agent.c:1801-1946 | for every text, parsed at once and finished: DONE with these calls if and only if it is a complete stanza of them; ERROR for a reason if and only if something in it has no place in a stanza, for that reason (no name, no tag behind a name, neither key nor end in a call, a key or value cut off by the end of the call, an empty key, a key without value) |
| `GlmGrammar.CompleteHasCalls` | ds4/ds4_agent.c:1801-1946 | a complete GLM stanza has at least one call |
| `ThinkTags.DecidedAlike` | ds4/ds4_agent.c:3975-4005 | a think tag, or its absence, that is decided on a beginning of the text is decided the same on all of it |
| `StreamRouter.RunSplit` | ds4/ds4_agent.c:3954-4052 | resuming with the held-back bytes in front equals processing the uncut text, from every router state |
| `StreamRouter.TextSplit` | ds4/ds4_agent.c:3954-4052 | two text calls equal one with the concatenation |
| `StreamRouter.StreamIsOneShot` | ds4/ds4_agent.c:3954-4052 | for every message and every cutting into chunks: parser, calls, think flag, detectors and shown bytes after finish equal those of one call on the whole text |
| `StreamRouter.StartBlockSafe` | ds4/ds4_agent.c:3756-3766 | a block opened inside thinking is always recorded as detected inside thinking |
| `StreamRouter.BlockByteSafe` | ds4/ds4_agent.c:3713-3750 | inside a block every byte keeps the safety invariant, also when an ignored block ends |
| `StreamRouter.NormalByteSafe` | ds4/ds4_agent.c:3880-3947 | every byte outside a block keeps the safety invariant through start matching, false starts and flushes |
| `StreamRouter.WindowSees` | ds4/ds4_agent.c:3838-3858 | the 32-byte window misses no marker completed by the last byte |
| `MarkerDetector.ByteWindow.Push` | ds4/ds4_agent.c:3838-3845 | the buffer shifted in place holds the last bytes of everything pushed |
| `MarkerDetector.ByteWindow.EndsIn` | ds4/ds4_agent.c:3827-3831 | the byte comparison at the end of the buffer decides whether it ends in the needle |
| `MarkerDetector.ByteWindow.Feed` | ds4/ds4_agent.c:3838-3858 | one byte through the detector: the window moves on, and a hit means it ends in a marker |
| `MarkerDetector.Scan` | ds4/ds4_agent.c:3838-3858 | a detector run over a stream hits if and only if the stream spells a marker, and then at the first byte that completes one |
| `StreamRouter.RunSafe` | ds4/ds4_agent.c:3954-4052 | every run of the router keeps the safety invariant |
| `StreamRouter.SettleSafe` | ds4/ds4_agent.c:4022-4052 | finishing a message keeps it |
| `StreamRouter.ToolsOnlyOutsideThinking` | ds4/ds4_agent.c:9308-9373 | for every byte stream, chunking and loop flags: tools are executed only if every recognised block opened outside thinking and the thinking spelled no marker, and then exactly the parsed calls |
| `StreamRouter.AgentVocabularies` | ds4/ds4_agent.c:3785-3858 | the agent's own start forms and markers satisfy the vocabulary the theorems are stated for |
| `RouterProse.CalmByte` | ds4/ds4_agent.c:3880-3947 | a byte of prose, in or outside thinking, leaves everything shown but the ending that may still become a start form; outside thinking a shown marker fails the parser, inside it is recorded |
| `RouterProse.CalmRun` | ds4/ds4_agent.c:3954-4019 | so does prose of any length, up to the first marker |
| `RouterProse.HeldNext` | ds4/ds4_agent.c:3897-3941 | what is held after a byte is the longest ending of the text that begins a start form, across false starts |
| `ToolMessage.TextVerdict` | ds4/ds4_agent.c:9308-9373 | a message without start forms and think tags, however it is cut, is an answer and shown from beginning to end if it spells no marker; otherwise it is reported as a malformed call, in and outside thinking |
| `ToolMessage.LeadAnswers` | ds4/ds4_agent.c:9344-9348 | prose, or thinking, its close tag, spaces and prose, with nothing behind it, is an answer, and all of it but the tag and those spaces is shown |
| `ToolMessage.LeadRun` | ds4/ds4_agent.c:3954-4019 | such a lead leaves the router waiting for a start form, with the lead shown |
| `ToolMessage.ThinkingCalls` | ds4/ds4_agent.c:9308-9373 | a message whose thinking spells a start form or a marker is reported as malformed, whatever follows and whatever else went on, unless it was interrupted |
| `ToolMessage.StartRun` | ds4/ds4_agent.c:3880-3947 | any of the start forms behind a lead opens a block with the parser that form implies, and nothing but the lead is shown |
| `ToolMessage.StanzaMessage` | ds4/ds4_agent.c:9308-9373 | a lead and a start form with any text, of either syntax: what is decided depends only on what the parser makes of the text, fed byte by byte |
| `ToolMessage.DsmlMessage` | ds4/ds4_agent.c:9308-9373 | in DSML, on what one parse of it makes, behind an implied invoke opener where the form is a bare invoke; the lead is shown |
| `ToolMessage.DsmlMessageIff` | ds4/ds4_agent.c:9308-9373 | calls are executed if and only if the text is a complete stanza of the grammar with exactly these calls, and the message is reported as malformed if and only if it is no complete stanza |
| `ToolMessage.DsmlMessageExecutes` | ds4/ds4_agent.c:9308-9373 | a printed stanza behind any of the start forms, spaces before and behind it allowed, cut into any chunks: exactly the printed calls are executed |
| `ToolMessage.DsmlUnfinished` | ds4/ds4_agent.c:9308-9343 | a message that breaks off anywhere inside a printed stanza is reported as malformed |
| `ToolMessage.PreflightReported` | ds4/ds4_agent.c:9308-9343 | such a message is reported as a failed preflight when the preflight of its edit failed, and as stopped when the user interrupted, whatever the other flags say |
| `ToolMessage.GlmMessageIff` | ds4/ds4_agent.c:9308-9373 | a printed GLM stanza is executed with exactly its calls if and only if no key and no value shows the end of the call; otherwise it is reported as malformed |
| `ToolMessage.GlmStanzaIff` | ds4/ds4_agent.c:9308-9373 | any GLM text that the parser does not end early: calls are executed if and only if it is a complete stanza of the grammar with exactly these calls and the streaming parser never gives up too early; otherwise it is reported as malformed |
| `ToolMessage.GlmUnfinished` | ds4/ds4_agent.c:9308-9343 | a GLM message that breaks off inside a call is reported as malformed |
| `ToolMessage.DsmlSpeaks` | ds4/ds4_agent.c:3785-3858 | the agent's DSML start forms, think tags and markers are as the theorems assume |
| `ToolMessage.GlmSpeaks` | ds4/ds4_agent.c:3785-3858 | so are the GLM ones |
| `RouterObject.StreamRenderer.constructor` | ds4/ds4_agent.c:9132-9166 | the router of a new message, with two empty windows |
| `RouterObject.StreamRenderer.NoteThinkingByte` | ds4/ds4_agent.c:3860-3865 | a thinking byte through the window in place is the specified step of the router |
| `RouterObject.StreamRenderer.NotePlainByte` | ds4/ds4_agent.c:3867-3875 | a plain byte through the window in place is the specified step of the router |
| `RouterObject.StreamRenderer.Flush` | ds4/ds4_agent.c:3774-3783 | the loop that shows the held bytes computes the specified flush, stopping at a malformed marker |
| `RouterObject.StreamRenderer.OpenBlock` | ds4/ds4_agent.c:3756-3770 | opening a block, and feeding the invoke opener that a bare invoke implies, byte by byte |
| `RouterObject.StreamRenderer.FeedBlockByte` | ds4/ds4_agent.c:3713-3750 | a block byte, and what a finished, failed or ignored block leaves behind |
| `RouterObject.StreamRenderer.DetectByte` | ds4/ds4_agent.c:3897-3941 | the start detector with its loop over the start forms computes the specified step |
| `RouterObject.StreamRenderer.NormalOne` | ds4/ds4_agent.c:3880-3947 | a byte outside a block computes the specified step |
| `RouterObject.StreamRenderer.Pass` | ds4/ds4_agent.c:3972-4019 | one iteration on the mutable router eats or holds exactly what the specification says |
| `RouterObject.StreamRenderer.Loop` | ds4/ds4_agent.c:3971-4020 | the loop on the mutable router computes the specified run |
| `RouterObject.StreamRenderer.StreamText` | ds4/ds4_agent.c:3954-4052 | a text or finish call computes the specified state |
| `AgentSession.SyncHolds` | ds4/ds4.h:403-424 | whatever the backend replies, a failure that leaves part of the session or of the prompt included, a session that held a beginning of the prompt still does, and an intact state stays intact; success means exactly the prompt, below the context size |
| `AgentSession.HoldsMore` | ds4/ds4_agent.c:9069-9074 | a session that holds a beginning of the transcript needs only the suffix evaluated after anything is appended, unless a failed rewind marked it invalid |
| `AgentSession.MixedStays` | ds4/ds4.h:417-421 | a synchronisation that extends a state that is not its own keeps it so |
| `DecodeLoop.PassKeeps` | ds4/ds4_agent.c:9167-9306 | one pass: at the next loop head the session is the transcript again with fresh logits, at least one token was committed and the limit holds at every exit; an error of a cleanly failing backend leaves a beginning of the transcript |
| `DecodeLoop.ModeChangeEnds` | ds4/ds4_agent.c:9286-9302 | rewinding and re-evaluating the boundary token restores session and logits |
| `DecodeLoop.ReplaceTracks` | ds4/ds4_agent.c:9233-9257 | dropping a block for the forced line leaves the session equal to the transcript, or a beginning of it on error |
| `DecodeLoop.ForceTracks` | ds4/ds4_agent.c:8922-8946 | forced text is committed token by token in step with the session; an error invalidates the session |
| `DecodeLoop.SessionFollowsTranscript` | ds4/ds4_agent.c:9167-9306 | over every run: at each non-error exit the session equals the transcript if and only if nothing drifted, and nothing drifts with a backend that rewinds and bounds its blocks; if its failures are clean too, every exit leaves a beginning of the transcript |
| `DecodeLoop.LoopTerminates` | ds4/ds4_agent.c:9167-9306 | every continuing pass commits a token: after at most max_tokens passes the loop has ended by itself |
| `DecodeLoop.StaysInContext` | ds4/ds4_agent.c:9127-9130 | even with a whole speculative block evaluated the session stays below the context size |
| `DecodeLoop.RunStaysInContext` | ds4/ds4_agent.c:9127-9130 | over every run from a synchronised session and at every exit, errors included, session and transcript stay below the context size |
| `DecodeLoop.CommittedInMode` | ds4/ds4_agent.c:9263-9302 | over every run each committed token that was not forced was produced in the mode demanded by the parser state just before it |
| `LoopExits.CutUnique` | ds4/ds4_agent.c:9217-9303 | at most one place, and one reason, cuts a block short: a verdict on its last token, a change of mode, the end of the block or of the room, a stop token, the forced line |
| `LoopExits.PassCut` | ds4/ds4_agent.c:9167-9306 | a pass commits exactly the tokens of its block in front of that place, then the forced line as far as it can be evaluated, and leaves the loop for exactly that reason |
| `LoopExits.RunStopped` | ds4/ds4_agent.c:9217-9279 | over every run: no token is committed behind a sampled one on which the parser concluded something, and if the last one is such, the exit is exactly that verdict, and no other way round; no sampled stop token is committed; forced tokens are the forced line from its beginning to its end, unless an evaluation failed |
| `LoopExits.FreshStopped` | ds4/ds4_agent.c:9127-9166 | a new message meets the condition that every run keeps |
| `DecodeLoop.RefusedRewindDrifts` | ds4/ds4_agent.c:9220-9228 | a concrete run in which a backend that refuses rewinds keeps a token the transcript does not have |
| `DecodeLoop.UnboundedBlockDrifts` | ds4/ds4.h:516-525 | a concrete run in which a backend that ignores the token limit leaves the session past the transcript |
| `DecodeLoop.FailedBlockStays` | ds4/ds4_agent.c:9196-9200 | a concrete run in which a failed block leaves its first token in a valid session that the loop does not invalidate |
| `DecodeLoop.LostStateStays` | ds4/ds4_agent.c:9232-9257 | a concrete run in which the block is dropped for a forced line, the rewind does not restore the backend's state, and the session equals the transcript on a state that is not its own |
| `DecodeLoop.StateStaysIntact` | ds4/ds4_agent.c:9167-9306 | over every run with a backend that restores its state, that state is the one of the session's tokens at every exit |
| `DecodeLoop.InStepIffExact` | ds4/README.md:1001 | all error-free runs end with session equal to transcript if and only if the backend rewinds and bounds its blocks |
| `DecodeLoop.HeldIffFollows` | ds4/README.md:1001 | all runs, error exits included, end with the session a beginning of the transcript if and only if the backend rewinds, bounds its blocks and fails cleanly |
| `DecodeLoop.TrueIffExact` | ds4/README.md:1001 | all runs end so on a state that is the session's own if and only if the backend restores its state as well |
| `DecodeLoop.Worker.ForceText` | ds4/ds4_agent.c:8922-8946 | the forcing loop on the mutable turn computes the specified result, the room check included |
| `DecodeLoop.Worker.AbsorbBlock` | ds4/ds4_agent.c:9217-9303 | the loop over a block computes the specified result |
| `DecodeLoop.Worker.DecodeTurn` | ds4/ds4_agent.c:9167-9306 | the decode loop computes the specified run |
| `AssistantMessage.AfterIsText` | ds4/ds4_agent.c:8879-8909 | the router fed token by token stands where the tokens' text takes it |
| `AssistantMessage.MessageFollowsText` | ds4/ds4_agent.c:8963-8982 | over every run of the loop with the agent's own router: the router is that of the committed text, and each sampled token was produced under the greedy mode that the text committed before it demands |
| `AssistantMessage.MessageStops` | ds4/ds4_agent.c:9270-9279 | over every run with the agent's own router nothing is committed behind a sampled token whose text finished a tool call, failed the preflight of an edit or was malformed |
| `AssistantMessage.GreedyInProse` | ds4/ds4_agent.c:8963-8982 | in prose, inside or outside thinking, the next token is sampled greedily if and only if the text ends in two or more bytes that may still become a start form |
| `AssistantMessage.GreedyInStanza` | ds4/ds4_agent.c:8963-8982 | inside a DSML stanza sampling is greedy in structure, in a value exactly when its ending may still become the close tag, and not once the stanza has ended |
| `AssistantMessage.ExecutesCommittedText` | ds4/ds4_agent.c:9308-9373 | after every run, what is executed is what one parse of the committed text yields, and only from blocks outside thinking |
| `AssistantMessage.ExecutesPrintedDsml` | ds4/ds4_agent.c:9167-9373 | whenever the text a run of the loop committed is a lead and a printed DSML stanza behind any of the start forms, exactly its calls are executed |
| `AssistantMessage.ExecutesPrintedGlm` | ds4/ds4_agent.c:9167-9373 | the same for GLM, for calls that show no end of the call and an edit that passes its preflight |
| `Compaction.CompactTailStart` | ds4/ds4_agent.c:8576-8594 | the tail starts at the first user marker within the budget, or at the budget's edge when there is none |
| `Compaction.TailWithinBudget` | ds4/ds4_agent.c:8576-8594 | the tail is non-empty, behind the system prompt and within the budget |
| `Compaction.RelocateImages` | ds4/ds4_agent.c:8811-8824 | the relocation loop computes the specified image list |
| `Compaction.RelocateExact` | ds4/ds4_agent.c:8811-8824 | the new list holds exactly the images wholly inside the tail, each moved |
| `Compaction.MovedSlice` | ds4/ds4_agent.c:8816-8820 | a moved image stands for the same tokens |
| `Compaction.RelocatedFit` | ds4/ds4_agent.c:462-471 | the fit check before the rebuild cannot fail on relocated images |
| `Compaction.NoPrivateText` | ds4/ds4_agent.c:8631-8871 | every exit, success, failure or interrupt, leaves the session a beginning of the transcript |
| `Compaction.CompactedIff` | ds4/ds4_agent.c:8631-8871 | compaction succeeds if and only if there is something to compact, at least 256 tokens of room, a first synchronisation, a summary that ended and has text, images that can be copied, and a rebuilt transcript that synchronises; each refusal if and only if its own condition is the first to fail; every refusal behind the first two leaves the session invalid |
| `Compaction.RebuildIff` | ds4/ds4_agent.c:8793-8871 | the rebuild succeeds exactly when the rebuilt transcript fits the context and synchronises |
| `Compaction.FailureRestores` | ds4/ds4_agent.c:8631-8871 | every exit but success leaves transcript and images exactly as before |
| `Compaction.CompactIntact` | ds4/ds4_agent.c:8631-8871 | compaction never puts the session on a state that is not its own |
| `Compaction.SuccessShape` | ds4/ds4_agent.c:8793-8871 | success means system, summary, tail from a legal start and optional update; the session synchronised; exactly the tail's images, moved |
| `Compaction.ImagesKeepTheirTokens` | ds4/ds4_agent.c:8811-8824 | every surviving image stands for the token slice it stood for |
| `Compaction.ExchangeFits` | ds4/ds4_agent.c:8667-8752 | the private exchange stays below the context size throughout |
| `Compaction.Compactor.WriteSummary` | ds4/ds4_agent.c:8719-8768 | the summary loop evaluates exactly the summary tokens, up to the limit, and reports how it ended |
| `Compaction.Compactor.SwapIn` | ds4/ds4_agent.c:8793-8871 | swap, synchronise or put everything back |
| `Compaction.Compactor.Run` | ds4/ds4_agent.c:8631-8871 | compaction on the mutable agent computes the specified outcome |
| `AgentTurn.RoundHolds` | ds4/ds4_agent.c:9066-9306 | an assistant round keeps the session a beginning of the transcript |
| `AgentTurn.OpHolds` | ds4/ds4_agent.c:9066-9306 | so does every other operation: appends and compactions |
| `AgentTurn.RoundAppends` | ds4/ds4_agent.c:9066-9373 | a round appends its prefix, what the loop committed, and the end-of-turn token: always when the loop ended without a failure or the prompt was interrupted, never after an error |
| `AgentTurn.SessionNeverDiverges` | ds4/README.md:1001 | over every sequence of messages, rounds and compactions the session stays a beginning of the transcript, errors and interrupts included, with backends that rewind, bound their blocks and fail cleanly |
| `AgentTurn.StateNeverLost` | ds4/README.md:1001 | with backends that restore their state as well, it stays that of the session's tokens |
| `AgentTurn.OnlyTheSuffixIsEvaluated` | ds4/ds4_agent.c:9069-9074 | after any such sequence the next synchronisation evaluates exactly what the session does not hold yet, or everything after a failed rewind |
| `AgentTurn.AppendOnly` | ds4/ds4_agent.c:9066-9306 | without compaction the transcript only ever grows at its end |
| `EditEngine.SplitLines` | ds4/ds4_agent.c:6149-6167 | the splitting loop computes the lines of LF, CR and CRLF text |
| `EditEngine.SplitTiles` | ds4/ds4_agent.c:6149-6167 | the spans are the lines of the file, one behind the other from beginning to end; a line starts at the beginning, behind LF, or behind CR that no LF follows, and its break is LF, CR or CRLF |
| `EditEngine.LineOfCounts` | ds4/ds4_agent.c:6215-6221 | a byte's line number is one more than the number of line starts behind the beginning of the file, up to the byte |
| `EditEngine.SpansCount` | ds4/ds4_agent.c:6149-6167 | a file has exactly as many spans as line starts |
| `EditEngine.LineForOffset` | ds4/ds4_agent.c:6215-6221 | the scan finds the specified line |
| `EditEngine.LineFromEnd` | ds4/ds4_agent.c:6215-6221 | a byte's line number is the number of lines minus the lines that start behind it |
| `EditEngine.ShiftExact` | ds4/ds4_agent.c:6265-6269 | for every file, span and replacement each byte behind the span lies on old line plus the difference of the line counts, joins and CR meeting LF included |
| `EditEngine.LinesBeforeStay` | ds4/ds4_agent.c:7325-7338 | every byte before the span keeps its line |
| `EditEngine.MemMem` | ds4/ds4_agent.c:6564-6574 | finds the first occurrence |
| `EditEngine.FindUniqueFrom` | ds4/ds4_agent.c:6576-6638 | succeeds exactly on the one occurrence at or behind the start, overlaps counted, and names the right reason otherwise |
| `EditEngine.MarkerUnique` | ds4/ds4_agent.c:6748-6765 | the two searches for the marker find that there is exactly one |
| `EditEngine.FindAnchored` | ds4/ds4_agent.c:6766-6795 | the anchored span is found exactly when head and tail are each uniquely determined and the tail is not blank |
| `EditEngine.FindOldSpan` | ds4/ds4_agent.c:6741-6796 | a span is selected exactly when the selector determines it, and then that one |
| `EditEngine.LineEffect` | ds4/ds4_agent.c:6223-6244 | the reported first and last line and shift |
| `EditEngine.Edit` | ds4/ds4_agent.c:7363-7405 | an edit is made exactly when the span is determined; only that span changes; the reported lines and shift are exact |
| `WakeProtocol.NextInv` | ds4/ds4_agent.c:1388-1417 | every step of worker or front-end keeps the invariant of the wake handshake |
| `WakeProtocol.RunInv` | ds4/ds4_agent.c:11398-11447 | so does every interleaving |
| `WakeProtocol.NoLostWake` | ds4/ds4_agent.c:11398-11447 | in every run: when the front-end would block in poll, all output is consumed, the last status is seen and no drain request is unanswered |
| `WakeProtocol.DeliveredInOrder` | ds4/ds4_agent.c:9846-9861 | in every run what was consumed, followed by what is queued, is what was published |
| `WakeProtocol.RunRecords` | ds4/ds4_agent.c:1388-1450 | over every run the bytes published and the status are those the steps themselves name |
| `WakeProtocol.BlockedHasAll` | ds4/ds4_agent.c:11398-11447 | when the front-end would block, it has consumed exactly the texts the run published, in order, and seen the status last set |
| `WakeProtocol.BlockedHasAnswered` | ds4/ds4_agent.c:4725-4759 | when the front-end would block, every drain request of the run has been answered |
| `WakeProtocol.NeverStuck` | ds4/ds4_agent.c:4725-4759 | while a drain request is open the front-end does not block and has a step |
| `WakeProtocol.ComesCloser` | ds4/ds4_agent.c:4743-4759 | each of its steps answers the request or comes closer to answering it |
| `WakeProtocol.RequestAnswered` | ds4/ds4_agent.c:4725-4759 | every run in which the front-end makes enough steps answers the request, whatever interrupted polls and submitted commands come in between |
| `TailCapture.Ring.Append` | ds4/ds4_agent.c:2082-2118 | after an append of any size the ring holds the last cap bytes of what it held and the new bytes |
| `TailCapture.Ring.Fill` | ds4/ds4_agent.c:2096-2107 | filling the empty part, across the edge of the buffer |
| `TailCapture.Ring.Overwrite` | ds4/ds4_agent.c:2109-2117 | overwriting the oldest bytes, chunk by chunk |
| `TailCapture.Ring.Replace` | ds4/ds4_agent.c:2089-2094 | a chunk at least as large as the buffer |
| `TailCapture.Ring.Take` | ds4/ds4_agent.c:2120-2134 | reads out exactly the contents, in order, and resets the ring |
| `TailCapture.KeepsLastBytes` | ds4/ds4_agent.c:2082-2134 | after any sequence of appends the ring holds the last cap bytes of the whole stream |
| `LayerPack.ComputeLayerPlacement` | ds4/ds4_layer_pack.c:14-45 | the error codes; otherwise the placement is valid (monotone, within every budget) and pointwise least among all valid placements; nothing else is written |
| `LayerPack.Pack` | ds4/ds4_layer_pack.c:28-44 | the packing loop computes a least valid placement |
| `LayerPack.NextDevice` | ds4/ds4_layer_pack.c:32-34 | the cursor stops at the first device that fits, and no valid placement does better |
| `LayerPack.Advance` | ds4/ds4_layer_pack.c:32-34 | when an entry does not fit, no valid placement puts it on that device or an earlier one |
| `LayerPack.PlacePacked` | ds4/ds4_layer_pack.c:35-43 | placing an entry keeps the invariant of the loop |
| `LayerPack.LeastUnique` | ds4/ds4_layer_pack.c:14-45 | there is only one least placement |
| `LayerPack.LongestResidentPrefix` | ds4/ds4_layer_pack.c:38-43 | only a suffix is spilled to the CPU, and any prefix another valid placement keeps on GPUs is kept |
| `TokenPrinter.RunSplit` | ds4/ds4_cli.c:421-465 | resuming with the held bytes equals printing the uncut text |
| `TokenPrinter.FinishIsOneShot` | ds4/ds4_cli.c:421-473 | however a text was cut, the finished output equals that of one call |
| `TokenPrinter.ShowsFilteredText` | ds4/ds4_cli.c:421-473 | for every text and cutting, what the terminal shows, characters and greyness, is the think-tag filter of the text |
| `TokenPrinter.ShowsFilteredLines` | ds4/ds4_cli.c:467-483 | at the end of a generation the screen shows that text, with a line break behind it exactly when it does not end in one |
| `TokenPrinter.StreamPrinter.WriteText` | ds4/ds4_cli.c:485-493 | a write computes the specified state; without formatting it copies the bytes and notes whether they end a line |
| `TokenPrinter.StreamPrinter.Loop` | ds4/ds4_cli.c:421-465 | the loop computes the specified run |
| `TokenPrinter.StreamPrinter.Done` | ds4/ds4_cli.c:467-483 | finishing flushes what was held, resets the colour and ends the line |
| `Utf8Json.FirstIsEncoding` | ds4/ds4_cli.c:703-727 | an accepted sequence is the encoding of a scalar value |
| `Utf8Json.EncodingIsFirst` | ds4/ds4_cli.c:703-727 | every encoding of a scalar value is accepted as a whole |
| `Utf8Json.DecodeIffUtf8` | ds4/ds4_cli.c:703-727 | repeated acceptance succeeds exactly on concatenations of the well-formed sequences of section 4 of RFC 3629 |
| `Utf8Json.EncodingUnique` | ds4/ds4_cli.c:703-727 | a byte string is the encoding of at most one sequence of scalar values |
| `Utf8Json.Utf8Valid` | ds4/ds4_cli.c:703-727 | the validator accepts exactly UTF-8 |
| `Utf8Json.ReadsText` | ds4/ds4_cli.c:728-753 | the printed form of valid UTF-8 reads back, under section 7 of RFC 8259, as the text's code points |
| `Utf8Json.ReadsBytes` | ds4/ds4_cli.c:728-753 | the printed form of other bytes reads back as code points equal to the bytes |
| `Utf8Json.WriteString` | ds4/ds4_cli.c:728-753 | the printer emits such a string for every input |
| `ReplChat.Tokens.Insert` | ds4/ds4_cli.c:1390-1406 | inserts at the clamped position, growing and moving in place |
| `ReplChat.Tokens.Remove` | ds4/ds4_cli.c:1408-1414 | removes the clamped range, moving in place |
| `ReplChat.Surgery` | ds4/ds4_cli.c:1454-1456 | removing one prefix and inserting another replaces exactly it |
| `ReplChat.SwitchRefines` | ds4/ds4_cli.c:1438-1466 | a switch of the thinking mode changes the prefix of the document and nothing else; every image moves along |
| `ReplChat.TurnGrows` | ds4/ds4_cli.c:1515-1692 | a turn appends exactly its items, and one that is rolled back leaves no trace |
| `ReplChat.ChatIsLayout` | ds4/ds4_cli.c:1515-1692 | over every conversation of switches, turns and rollbacks the transcript and spans are BOS, current prefix and body, laid out |
| `ReplChat.BodyIgnoresSwitches` | ds4/ds4_cli.c:1438-1466 | the body depends on the turns alone, wherever switches stand between them |
| `ReplChat.ConversationKeepsImages` | ds4/ds4_cli.c:1459-1462 | from the first prompt on, after whatever is typed, every span covers the tokens its image was appended with |
| `ReplChat.SwitchBack` | ds4/ds4_cli.c:1438-1466 | switching back restores transcript and spans exactly |
| `ReplChat.Repl.constructor` | ds4/ds4_cli.c:1480-1489 | a new chat |
| `ReplChat.Repl.ApplyThinkPrefix` | ds4/ds4_cli.c:1438-1466 | the in-place surgery computes the specified switch; the session is invalidated exactly when the prefix changed |
| `ReplChat.Repl.RunChatTurn` | ds4/ds4_cli.c:1515-1692 | a turn on the mutable chat computes the specified one; it reports success exactly when image, prompt and decoding succeeded |

## Left out

- `DecodeLoop.SessionFollowsTranscript`: session equals transcript only for backends that rewind and bound their blocks; see above for the if-and-only-if.
- `AgentTurn.SessionNeverDiverges`: stated for rounds whose backend meets the conditions of the decode loop.
- `GlmParser.FeedIsOneParse`: only sufficient; `GlmParser.FeedIsOneParseIff` is the exact statement.
- `GlmRoundTrip.StreamRoundTripIff`: the GLM parser runs as functions, not as a class, and starts behind the start marker; `ToolMessage.GlmMessageIff` starts from a new message.
- `GlmGrammar.ParsesStanzas`: about one parse of the whole text; `GlmParser.FeedIsOneParseIff` says when streaming is the same.
- `ToolMessage.LeadRun`: prose behind a closing think tag begins, after spaces, with a byte other than `<`, because the router drops spaces inside a start form that it is still holding there.
- `ToolMessage.DsmlMessageIff`: nothing but spaces follows a complete stanza; what other text behind one does to the decision is not covered.
- `ToolMessage.GlmStanzaIff`: stanzas that other text ends, `GlmGrammar.Stop`, are covered by `GlmGrammar.ParsesStanzas` but not by the decision about the message.
- `RouterObject.StreamRenderer.DetectByte`: the held bytes of the start detector are a sequence, not an array.
- `WakeProtocol.RequestAnswered`: worker shutdown and the web approval handshake are not modelled.
- `AgentSession.SyncHolds`: a synchronisation is modelled by its reply and its effect; the prefill inside the backend is not.
- `LayerPack.ComputeLayerPlacement`: sizes are unbounded numbers; the log line that describes a placement is left out.
- `ReplChat.TurnGrows`: the decode loop of the command-line client is reduced to the tokens it pushes and how it ends; its session is not modelled.
- `Utf8Json.WriteString`: bytes are returned as a sequence instead of being written to a stream.
- Strings are byte sequences without a NUL byte, as the C string functions require; integer widths, overflow and failed allocations are not modelled, except a publish that is dropped and the images that compaction cannot copy.
- Error messages are reasons of an enumeration; their wording is left out.
- The decision of the `[upto]` forcer and the preflight of an edit are inputs of the decode loop, because they read files.
- History fields that the C structs do not have: the openings and thinking bytes of the router, the origins and the drift of a turn, the published and delivered bytes of the wake state. The theorems are stated with them; no branch reads them.
- Terminal rendering, colours, markdown and the tool visualizer: display only, a byte sink here.
- Bash jobs, web tools, file and directory access, signals, tracing, option parsing: plumbing.
- Reading files page by page: easy once lines are split.
- Engine, KV store, distributed and tensor-parallel execution, vision and CUDA: outside the modelled files, represented by their contracts.
- Floating-point sampling, timing and throughput.
