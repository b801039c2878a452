# Rivendell: models and proofs

Dafny models of five parts of the Rivendell radio automation system, with proofs of what
holds over all their inputs and runs. `dafny verify dfyconfig.toml` checks everything.

| files | part of the system |
|---|---|
| `JsMinLexemes`, `JsMinSqueeze`, `JsMinFilter`, `JsMin`, `JsMinLaws` | the JavaScript minifier |
| `CaeState`, `CaeInvariant`, `CaeRuns`, `CaeIsolation`, `CaeReuse`, `CaeLaws`, `CaeServer` | the Core Audio Engine's sessions, handles and streams |
| `CommandParser` | the engine's command parser |
| `JackStream`, `JackMix`, `JackRuns`, `JackLaws`, `JackRecord`, `RingBuffer`, `SeekPosition`, `Fade`, `FadeEnds`, `FadeDrivers` | audio through the JACK driver, and what the ALSA driver shares with it |
| `NexgenArchive`, `SoundExchange` | the NexGen archive reader and the SoundExchange report |
| `Options`, `Sequences`, `Arithmetic` | what the models share |

**The minifier.** `Lex` divides a text into lexemes without loss: it inverts writing out, on
exactly the canonical sequences. `Minify` keeps the significant lexemes and at most one
white-space character between two. The class `Minifier`, two characters of state and one of
lookahead like the filter, is proved to compute `Minify` on every input, errors included. About
`Minify`: content is preserved, the output is in normal form, alphanumerics stay apart, the
output is at most one character longer, and minifying again changes nothing exactly when the
input has no division slash with a slash or a star next. `JsMinLaws` says by character codes
alone which white space stays, which slashes begin a regular expression and where literals end.

**Sessions.** Handles, owners and the drivers' ring buffers are in one-to-one correspondence in
every reachable state. From that follow the end of every handle search, the isolation of
clients, the clean recycling of connection slots, the delivery of every message to a connected
client, and the distance between two issues of one handle number. The class `MainObject` has
the tables updated in place, each method proved against the pure step it performs; `CaeLaws`
says of every step, in fields and numbers, what it changes and answers, and that a client is
authenticated exactly while its last password was accepted. The branch for a stale stream
assignment is never taken. Isolation has three exceptions, each stated exactly: a PY by a
client that does not own the handle may overwrite the owner's stored length, speed and pitch
(`ParamsKeptExactly`), likewise an RD the stored length and threshold of a recording
(`RecordParamsKeptExactly`), and an SR stops anyone's recording (`RecordingKeptExactly`).

**The parser.** How bytes are split into chunks makes no difference; the commands dispatched
are the tokens of the texts between exclamation marks, up to the first DC; an echo is read back
as the command and its status. A command can be within the parser's limits and its echo too
long for the buffer that the echo is built in.

**JACK.** What was played, what the ring buffer holds and what is unread always make up the
file from the point last positioned to; a natural stop means that all from there on was played.
This holds of every stream of the driver, whatever the others do. One run of the callback adds,
at every port, every input and every stream at its level. A recording keeps everything captured
exactly when no callback overran the ring buffer. The ring buffer itself is proved to be a
bounded queue. A file that is loaded, started and heard is played from its first sample to its
last, and a file recorded without overrun holds each side of every frame heard where its mode
puts it. Positions read back are early by a bounded amount; but the byte offset that a file is
positioned by is an `int`, and from 2^31 on the file is read from its beginning, or from where
it was, while the position asked for is reported. Fades whose numbers fit their fields land on
their target, but for two families that never end: those with an increment rounded to zero, and
those to a target below the mute depth that is further from it than one increment. Where
numbers are truncated to sixteen bits a fade may also climb away from its target; it is stated
of all of them when they end, and when the ALSA driver, whose level wraps around in sixteen
bits, fades as the JACK driver does.

**The archive reader** misses one block of every payload whose length is a positive multiple of
the block size, and its loop counter wraps around on a payload near 2^32 bytes, for ever or
until more has been asked for than there is: which archives come back is stated exactly. **The
report** has one line for every cart exactly when each cart's rows are together, as the query's
order makes them.

## Model

| member | source | states |
|---|---|---|
| JsMinLexemes.LexSound | helpers/jsmin.c:86-119 | the lexemes of any text spell it in full, and are canonical |
| JsMinLexemes.LexComplete | helpers/jsmin.c:86-119 | every canonical sequence of lexemes is read back from its spelling |
| JsMinSqueeze.MinifyPreservesContent | helpers/jsmin.c:130-260 | the output is spelt by exactly the input's significant lexemes, in order, literals character for character, and otherwise only by spaces and linefeeds |
| JsMinSqueeze.NormalForm | helpers/jsmin.c:192-260 | outside literals a space stands between alphanumerics, a linefeed between a character that keeps it (or the start) and one that needs it (or a regular expression), and no two white-space characters meet |
| JsMinSqueeze.SqueezeBetween | helpers/jsmin.c:192-260 | what stands between any two neighbouring significant lexemes of the output, from what stood between them in the input |
| JsMinSqueeze.AlphanumericsStaySeparated | helpers/jsmin.c:192-260 | in the output, two alphanumerics that white space or a block comment parts have exactly one white-space character between them, a linefeed if there was one |
| JsMinSqueeze.MinifyLength | helpers/jsmin.c:192-260 | the output is at most one character longer than the input, less two for every comment |
| JsMinSqueeze.SlashPairsOfInput | helpers/jsmin.c:192-260 | the output has a division slash directly before a slash or star exactly when the input has, white space and comments aside |
| JsMinSqueeze.SlashPairReadsAsComment | helpers/jsmin.c:86-119 | such a pair, read again, loses characters to a comment or is an error |
| JsMinSqueeze.MinifyIdempotent | helpers/jsmin.c:86-260 | minifying twice is minifying once if and only if the input has no such pair |
| JsMinSqueeze.IdempotenceFails | helpers/jsmin.c:86-260 | an input that has one: minified twice, an operand and "/ /b" differs from minified once |
| JsMinFilter.RefillMeaning | helpers/jsmin.c:154-182 | fetching the next character, regular expressions copied, keeps what the whole run is to write |
| JsMinFilter.TurnMeaning | helpers/jsmin.c:192-260 | one turn of the main loop keeps what the whole run is to write |
| JsMinFilter.ActShrinks | helpers/jsmin.c:130-182 | every turn uses up input, so the loop ends |
| JsMinLaws.PartedInOutput | helpers/jsmin.c:192-260 | by character codes alone, what the output has between any two neighbouring significant lexemes of any readable input |
| JsMinLaws.WordsStayParted | helpers/jsmin.c:39-45 | two characters with codes 48-57, 65-90, 97-122, 95, 36, 92 or above 126 stay parted by exactly one white-space character; if either has another code, no space stands between them |
| JsMinLaws.SlashByCode | helpers/jsmin.c:155-164 | by character codes, which slashes begin a regular expression and which divide |
| JsMinLaws.KindsByCode | helpers/jsmin.c:135-152 | a string begins with code 34 or 39, and no character with these codes stands alone |
| JsMinLaws.DelimitedByCode | helpers/jsmin.c:135-181 | a literal ends at the first delimiter with an even number of backslashes before it, and is open if there is none |
| JsMinLaws.BlockByCode | helpers/jsmin.c:100-115 | a block comment ends at the first star and slash |
| JsMinLaws.TranslatedByCode | helpers/jsmin.c:53-69 | codes from 32 on stay, 10 and 13 are read as 10, all others as 32 |
| JsMin.Minifier.Get | helpers/jsmin.c:53-69 | the lookahead first, control characters translated |
| JsMin.Minifier.Next | helpers/jsmin.c:86-119 | the next character, comments skipped, or failure on one that does not end |
| JsMin.Minifier.CopyQuoted | helpers/jsmin.c:135-152 | writes a string literal up to its unescaped closing quote, or fails |
| JsMin.Minifier.CopyRegex | helpers/jsmin.c:155-181 | writes a regular expression up to its unescaped closing slash, or fails |
| JsMin.Minifier.Action | helpers/jsmin.c:130-182 | the three actions, falling through one into the next |
| JsMin.Minifier.Run | helpers/jsmin.c:192-260 | on every input the filter ends, succeeds exactly when every comment and literal ends, and then has written `Minify` of the input |
| CaeInvariant.OneToOne | cae/cae.cpp:713-839 | owner, ring buffer and handle of a stream come and go together; the handle is its only one and has the same owner, who is connected |
| CaeInvariant.EmptySlotOwnsNothing | cae/cae.cpp:1792-1857 | no handle, play stream or record stream belongs to an empty slot |
| CaeInvariant.LiveBound | cae/cae.cpp:759-770 | at most 8 x 16 handles are live: they name distinct streams |
| CaeInvariant.HandleAlwaysFree | cae/cae.cpp:1925-1935 | the search for a free handle ends, within one lap of the table, at a free one |
| CaeRuns.NoStaleHandle | cae/cae.cpp:759-765 | a stream newly allotted never has a handle yet: the branch for a stale assignment is never taken |
| CaeRuns.InvStep | cae/cae.cpp:713-839 | every event keeps the invariant |
| CaeRuns.InvUnloadPlayback | cae/cae.cpp:779-834 | an unload that finds its handle releases handle, owner and ring buffer together, for the owner only |
| CaeRuns.InvKill | cae/cae.cpp:1792-1857 | so does the end of a connection, for all it owned |
| CaeRuns.InvRun | cae/cae.cpp:368-385 | the invariant holds after any run |
| CaeRuns.ReachableOneToOne | cae/cae.cpp:713-839 | in every state reachable from start-up handles, owners and ring buffers correspond one to one, and a handle is free |
| CaeIsolation.ClientsIsolated | cae/cae.cpp:1792-1857 | no command or disconnection of one client changes another's handles, streams, ring buffers, ownership of record streams or connection |
| CaeIsolation.RecordingKeptExactly | cae/cae.cpp:1221-1258 | another client's recording goes on, or does not begin, with every event of a client but an authenticated SR that names its stream, and by that one it is stopped |
| CaeIsolation.KillGivesUpEverything | cae/cae.cpp:1792-1857 | a slot whose client is gone is unauthenticated, unmetered, with empty parsing state, and owns nothing |
| CaeIsolation.NewClientInheritsNothing | cae/cae.cpp:368-385 | a new client gets the first empty slot and nothing with it; only a full table refuses it |
| CaeIsolation.ParamsKeptExactly | cae/cae.cpp:903-935 | another client's stored length, speed and pitch are kept, but by an authenticated PY that names the stream's handle with different values, and by that one they are not |
| CaeIsolation.RecordParamsKeptExactly | cae/cae.cpp:1167-1181 | another client's stored record length and threshold are kept, but by an authenticated RD that names the stream with different values, and by that one they are not |
| CaeIsolation.MessagesReachClients | cae/cae.cpp:400-451 | every message goes to a connected client, names a handle or stream of that client with the values stored, and answers go to who asked |
| CaeReuse.IssueIsTold | cae/cae.cpp:759-776 | the handle number issued is the one the client is told; without one nothing changes and the client is told so |
| CaeReuse.ReuseDistance | cae/cae.cpp:1925-1935 | over any run at least 128 other handle numbers are issued between two issues of the same one |
| CaeLaws.AuthenticatedExactly | cae/cae.cpp:691-703 | after any run from start-up a client is authenticated if and only if its last password since it connected was accepted |
| CaeLaws.PasswordAnswered | cae/cae.cpp:691-703 | the answer to a password is what becomes of the client's authentication, and of no other's |
| CaeLaws.RefusedUntilTrusted | cae/cae.cpp:705-711 | until then LP, UP, PY, SP, LR, UR, RD, SR, OS and ME change nothing and are refused, after any run |
| CaeLaws.LoadTells | cae/cae.cpp:713-776 | LP takes the card's lowest stream without ring buffer and the first free handle at or after the cursor, and tells both; or says why not |
| CaeLaws.UnloadTells | cae/cae.cpp:779-839 | UP of the handle's owner frees handle, owner and ring buffer, any other changes nothing |
| CaeLaws.PlayTells | cae/cae.cpp:903-975 | PY stores length, speed and pitch as far as they can be read, whoever asks, and only the owner's starts the stream and is told so |
| CaeLaws.StopTells | cae/cae.cpp:977-1019 | SP of the owner stops the stream and is told so, any other is refused |
| CaeLaws.PlayStateTells | cae/cae.cpp:400-424 | state 1 is told as playing, with the stored length and speed, states 2 and 0 as stopped, to the handle's owner |
| CaeLaws.LoadRecordTells | cae/cae.cpp:1052-1117 | LR makes the client the owner of a record stream that has none, and of no other |
| CaeLaws.UnloadRecordTells | cae/cae.cpp:1119-1165 | UR of the owner, or of a stream without one, ends recording and ownership, and tells the whole milliseconds recorded |
| CaeLaws.RecordTells | cae/cae.cpp:1167-1219 | RD stores length and threshold as far as they can be read, whoever asks, and only the owner's begins to record |
| CaeLaws.StopRecordTells | cae/cae.cpp:1221-1258 | SR stops a recording under way, whoever owns it, and is refused if there is none |
| CaeLaws.RecordStateTells | cae/cae.cpp:427-451 | a report of a record stream goes to its owner only: ready with length and threshold, started, or stopped |
| CaeLaws.RecordTimerTells | cae/cae_jack.cpp:410-416 | at the end of its length a recording has stopped and its owner is told |
| CaeLaws.MeterTells | cae/cae.cpp:1716-1726 | ME is answered first; then each client with a meter port is told once of the status of each output of each card with a driver, and of nothing else |
| CaeLaws.StatusTells | cae/cae.cpp:1728-1742 | OS changes one flag, tells every client with a meter port once, and is answered last |
| CaeLaws.ManyTold | cae/cae.cpp:1860-1867 | a broadcast reaches every authenticated client exactly once, a meter update every metered one |
| CaeLaws.StartsEmpty | cae/cae.cpp:145-170 | at start-up nobody is connected, nothing owned, and every stored argument has its default |
| CaeLaws.GoneTells | cae/cae.cpp:1792-1857 | a client that goes takes along exactly the handles, streams and recordings that it owns, and their stored arguments are the defaults again |
| CaeServer.MainObject.NewConnection | cae/cae.cpp:368-385 | the first empty slot is taken; a full table changes nothing |
| CaeServer.MainObject.GetNextHandle | cae/cae.cpp:1925-1935 | the first free handle from the cursor on, which moves past it |
| CaeServer.MainObject.GetHandle | cae/cae.cpp:1958-1971 | the handle of a stream, or -1 when it has none |
| CaeServer.MainObject.GetOutputStream | cae/cae_alsa.cpp:1697-1706 | the first stream of a card without ring buffer, which it gets; -1 when all have one |
| CaeServer.MainObject.DriverLoad | cae/cae_alsa.cpp:812-866 | the driver allots a stream, and takes it back when the file cannot be played |
| CaeServer.MainObject.DriverUnload | cae/cae_jack.cpp:745-768 | the driver gives up the stream's ring buffer, if it has one |
| CaeServer.MainObject.PasswordCommand | cae/cae.cpp:691-703 | the new state and answer of PW, which `PasswordAnswered` gives |
| CaeServer.MainObject.LoadPlaybackCommand | cae/cae.cpp:713-776 | the whole new state and answer of LP |
| CaeServer.MainObject.UnloadPlaybackCommand | cae/cae.cpp:779-839 | the whole new state and answer of UP |
| CaeServer.MainObject.PlayCommand | cae/cae.cpp:903-975 | the whole new state and answers of PY, arguments stored before the owner is checked |
| CaeServer.MainObject.StopCommand | cae/cae.cpp:977-1019 | the answers of SP |
| CaeServer.MainObject.StatePlayUpdate | cae/cae.cpp:400-424 | a driver's report goes to the stream's owner with the owner's handle |
| CaeServer.MainObject.LoadRecordCommand | cae/cae.cpp:1052-1117 | the whole new state and answer of LR |
| CaeServer.MainObject.UnloadRecordCommand | cae/cae.cpp:1119-1165 | the whole new state and answer of UR, the recorded length in milliseconds included |
| CaeServer.MainObject.RecordCommand | cae/cae.cpp:1167-1219 | the whole new state and answers of RD, arguments stored before the owner is checked, and the start reported at once unless the input's level is waited for |
| CaeServer.MainObject.StopRecordCommand | cae/cae.cpp:1221-1258 | the whole new state and answer of SR, whoever owns the stream |
| CaeServer.MainObject.RecordTimerData | cae/cae_jack.cpp:410-416 | a recording whose length is over stops, and its owner is told |
| CaeServer.MainObject.StateRecordUpdate | cae/cae.cpp:427-451 | a driver's report goes to the record stream's owner, with the stored length and threshold when it begins |
| CaeServer.MainObject.MeterEnableCommand | cae/cae.cpp:1716-1726 | the new meter port, the answer, and the status messages that follow, for every card with a driver, port and stream |
| CaeServer.MainObject.OutputStatusCommand | cae/cae.cpp:1728-1742 | the new status flag, told to every metered client, and the answer of OS |
| CaeServer.MainObject.KillSocket | cae/cae.cpp:1792-1857 | nested loops over cards and streams give up exactly what the connection owned, stored arguments included, and nothing else |
| CaeIsolation.ToEachExactly | cae/cae.cpp:1860-1867 | what is sent to each of some clients goes to all of them and to no other |
| CaeServer.MainObject.BroadcastCommand | cae/cae.cpp:1860-1867 | one copy for every authenticated client, in order, all of whom are connected |
| CaeServer.MainObject.SendMeterUpdate | cae/cae.cpp:2258-2265 | one copy for every client with a meter port, in order |
| CommandParser.ChunksDoNotMatter | cae/cae.cpp:590-633 | reading the bytes in any chunks is reading them at once |
| CommandParser.FeedByCode | cae/cae.cpp:598-631 | code 32 ends a token, code 33 a command, codes 34 to 126 are taken into the token, all others ignored |
| CommandParser.TokenByCode | cae/cae.cpp:620-631 | a token's characters are exactly those with codes 34 to 126 |
| CommandParser.SplitJoins | cae/cae.cpp:598-616 | the pieces between separators hold none and join to the text |
| CommandParser.ParserHearsWhatIsSaid | cae/cae.cpp:590-633 | the commands dispatched are the tokens of the texts that exclamation marks end, in order, up to the first DC |
| CommandParser.WithinExactly | cae/cae.cpp:598-624 | the buffers have room throughout if and only if every text listened to has at most ten tokens of fewer than 256 characters |
| CommandParser.EchoReadsBack | cae/cae.cpp:1881-1896 | an echo is read back as the arguments and the status, empty ones included |
| CommandParser.EchoBufferExactly | cae/cae.cpp:1883-1894 | an echo fits the buffer that it is built in if and only if the arguments, with a space each, come to less than 256 characters |
| CommandParser.EchoOverruns | cae/cae.cpp:1883-1894 | a command within the parser's limits whose echo does not |
| CommandParser.EchoFitsExactly | cae/cae.cpp:1881-1896 | an echo can be built, and fits a parser's own buffers, if and only if moreover there are at most nine arguments |
| CommandParser.ParserKeepsTokens | cae/cae.cpp:620-623 | every dispatched token is made of printable characters other than the exclamation mark |
| CommandParser.Connection.EchoArgs | cae/cae.cpp:1881-1896 | appends, in a buffer of 258 characters, the arguments held, each with a space, and the status; no more than the buffer holds |
| CommandParser.Connection.Mark | cae/cae.cpp:611-619 | dispatches the strings in the buffers and empties the parsing state |
| CommandParser.Connection.ParseChunk | cae/cae.cpp:595-632 | one chunk of bytes takes the buffers where the parser's steps take it |
| CommandParser.Connection.ParseCommand | cae/cae.cpp:590-633 | so do all chunks, until the connection is dropped |
| JackStream.FillFits | cae/cae_jack.cpp:1436-1463 | no fill is cut short by the ring buffer, and each leaves it almost full or the file at its end |
| JackStream.PlayoutConserved | cae/cae_jack.cpp:1531-1534 | over any run: played since the last positioning, then ring buffer, then unread, is the file from there on |
| JackRuns.StreamsRunAlone | cae/cae_jack.cpp:80-270 | over any run of the driver, its callback, clock, loads, positionings, plays, stops and level changes in any order, every stream is where a run of its own has taken it since it was last loaded |
| JackRuns.DriverConserves | cae/cae_jack.cpp:1559-1570 | so the samples of each of its streams are conserved, whatever the others do |
| JackStream.RunValid | cae/cae_jack.cpp:1559-1570 | whole frames everywhere, and end of file only at its end, over any run |
| JackStream.NaturalStop | cae/cae_jack.cpp:231-267 | the callback stops a playing stream if and only if it is heard, the file is read and the ring buffer runs dry; then all from the last positioning on was played |
| JackStream.FailedSeekDropsRing | cae/cae_jack.cpp:771-804 | a positioning that fails still loses exactly what the ring buffer held |
| JackStream.PlaysToTheEnd | cae/cae_jack.cpp:199-270 | with a fill before every callback a stream plays on exactly as long as frames are left, and then has played them all |
| JackLaws.LoadedTells | cae/cae_jack.cpp:688-742 | a stream just loaded does not play, and its ring buffer holds the file's first samples, up to 65535 |
| JackLaws.PlayAndStop | cae/cae_jack.cpp:821-861 | a play starts a stream where it is and a stop stops it there |
| JackLaws.ProcessTells | cae/cae_jack.cpp:199-267 | a callback plays as many frames as it asks for, or all there are, from the front of a playing stream's ring buffer, and leaves any other as it is |
| JackLaws.TickTells | cae/cae_jack.cpp:1559-1571 | a clock tick has a stop reported, and reads on only while the stream plays |
| JackLaws.PositionTells | cae/cae_jack.cpp:771-818 | a positioning plays nothing and neither starts nor stops; the ring buffer is empty or holds what comes from there |
| JackLaws.PlaysItsFile | cae/cae_jack.cpp:1531-1534 | over any run each sample played is the file's next one over 32768, and so is each in the ring buffer |
| JackLaws.PlaysWholeFile | cae/cae_jack.cpp:199-270 | a file loaded, started and filled before every callback has, after k of them, played exactly the frames asked for from its first sample on, or all and no more |
| JackLaws.DriverPlaysWholeFile | cae/cae_jack.cpp:199-270 | so it is in the driver, whatever else it plays, if some port plays the stream above zero |
| JackLaws.DriverTells | cae/cae_jack.cpp:821-861 | each command of the driver changes its own stream as it should and no other |
| JackLaws.DriverStops | cae/cae_jack.cpp:231-267 | the callback stops a playing stream if and only if it has run dry at the end of its file and some port plays it above zero |
| JackLaws.OneStreamHeard | cae/cae_jack.cpp:231-267 | where one stream plays, every port has its samples at its level: mono on both sides, stereo left and right, then silence |
| JackLaws.OneInputHeard | cae/cae_jack.cpp:99-124 | where one input is not silent, every port has it at its passthrough level |
| JackMix.JackDriver.SetOutputVolume | cae/cae_jack.cpp:1072-1092 | one level changes, to nothing at or below the mute depth |
| JackMix.JackDriver.SetPassthroughLevel | cae/cae_jack.cpp:1292-1313 | likewise for a passthrough |
| JackMix.JackDriver.ProcessPassthroughs | cae/cae_jack.cpp:99-124 | every output sample is the sum of all inputs at their passthrough levels: skipping levels of zero changes nothing |
| JackMix.JackDriver.ProcessStream | cae/cae_jack.cpp:199-267 | one stream is added at every port at its level, though its playing flag may fall between two ports |
| JackMix.JackDriver.JackProcess | cae/cae_jack.cpp:99-267 | one callback: every output sample is the sum of the inputs and of the playing streams at their levels, and every stream moves on by one callback |
| JackMix.JackDriver.FillOutputStream | cae/cae_jack.cpp:1436-1463 | reads on into one stream's ring buffer and touches no other |
| JackMix.JackDriver.LoadPlayback | cae/cae_jack.cpp:688-742 | a new stream starts at its file's beginning, filled |
| JackMix.JackDriver.PlaybackPosition | cae/cae_jack.cpp:771-818 | positioning, when it is refused, and where the file then stands, its byte offset an int |
| JackMix.JackDriver.JackPlay | cae/cae_jack.cpp:821-844 | playing begins, unless it has, as `PlayAndStop` says |
| JackMix.JackDriver.JackStopPlayback | cae/cae_jack.cpp:847-861 | playing stops, if it was on |
| JackMix.JackDriver.JackClock | cae/cae_jack.cpp:1559-1571 | reports exactly the streams that stopped by themselves, and refills on every fourth tick |
| RingBuffer.StoredIsAppended | lib/rdringbuffer.cpp:161-195 | data copied around the end of the memory is appended to the queue |
| RingBuffer.AdvancedIsDropped | lib/rdringbuffer.cpp:124-158 | moving the read pointer drops from the queue's front |
| RingBuffer.RDRingBuffer.Write | lib/rdringbuffer.cpp:161-195 | appends as much as there is room for and says how much |
| RingBuffer.RDRingBuffer.Read | lib/rdringbuffer.cpp:124-158 | delivers as much as there is, in order, and drops it |
| JackRecord.MonoIsSumOfSides | cae/cae_jack.cpp:131-193 | in every input mode a mono recording is the sum of the sides of a stereo one |
| JackRecord.SwapExchanges | cae/cae_jack.cpp:158-185 | mode 1 exchanges the sides, which a mono recording does not show |
| JackRecord.CapturesHeard | cae/cae_jack.cpp:129-193 | over any run what is captured is what was heard while recording, each sample a product of volume and side as the mode of its frame says |
| JackRecord.WritesHeard | cae/cae_jack.cpp:986-1007 | without overrun the file's samples 2j and 2j+1, or j of a mono one, are those of frame j heard, left and right, alone, exchanged or summed as its mode says |
| JackRecord.OverrunsExactly | cae/cae_jack.cpp:129-193 | a callback overruns if and only if the ring buffer would hold more than 65535 samples |
| JackRecord.RunConservesExactly | cae/cae_jack.cpp:1372-1423 | over any run, everything captured is written or in the ring buffer, in order and counted, exactly when no callback overran it; otherwise something is lost for good |
| JackRecord.UnloadWritesAllExactly | cae/cae_jack.cpp:986-1007 | an unload leaves exactly what was captured in the file if and only if there was no overrun, and then reports its number of frames |
| JackRecord.JackInput.JackProcess | cae/cae_jack.cpp:129-193 | the callback's part, by channels and mode |
| JackRecord.JackInput.Encode | cae/cae_jack.cpp:1403-1423 | the encoder gets every frame once and in order, in chunks of 1152 and a last one that is never empty |
| JackRecord.JackInput.UnloadRecord | cae/cae_jack.cpp:986-1007 | drains the ring buffer before it reports, and leaves a count of zero |
| SeekPosition.PcmOffsetExact | cae/cae_jack.cpp:783-806 | the frame kept for a PCM file is the exact quotient |
| SeekPosition.PcmSeekReport | cae/cae_alsa.cpp:900-926 | a PCM position is read back at most one millisecond early for rates from 1000, and exactly when it falls on a frame; bytes and frames agree |
| SeekPosition.PcmInRangeExactly | cae/cae_alsa.cpp:901-907 | the byte offset fits the 32 bits that it is computed in if and only if the position is at most a last one that rate and block size give |
| SeekPosition.PcmSoughtExactly | lib/rdwavefile.cpp:1215-1225 | the bytes sought, with the start of the data added, fit an int if and only if the position is at most another one |
| SeekPosition.MpegSeekReport | cae/cae_alsa.cpp:909-918 | an MPEG position is read back early by less than one MPEG frame and a millisecond |
| SeekPosition.MpegInRangeExactly | cae/cae_alsa.cpp:909-926 | the frame offset and the bytes sought fit their fields if and only if the position is at most two last ones that rate and frame size give |
| SeekPosition.StreamSeekReport | cae/cae_jack.cpp:783-806 | the file is read on from the frame that is reported as long as the bytes sought fit, otherwise from its beginning or from where it was |
| SeekPosition.StreamSeekExactly | lib/rdwavefile.cpp:1215-1225 | it is read on from the very frame asked for if and only if the position is at most the last one that fits, or the file was there already |
| SeekPosition.LateSeekReadsBeginning | lib/rdwavefile.cpp:1217-1219 | one that is not: three hours into a long file the position asked for is reported, and the file read from its beginning |
| SeekPosition.PositionExactly | cae/cae_jack.cpp:1277-1288 | while a stream plays the position reported is the whole milliseconds at which the frame begins that is played next |
| SeekPosition.PositionAdvances | cae/cae_jack.cpp:269-270 | every callback moves it on by the frames played, a second of them by exactly 1000 |
| Fade.FadeInNumbers | cae/cae_jack.cpp:385-407 | after n ticks of a fade to a level not below -100 dB: the level is n steps on, or the target as soon as n steps reach it, and then the timer is off |
| Fade.ShortCuts | cae/cae_jack.cpp:1112-1117 | a number kept in sixteen bits differs from the number itself by a multiple of 65536 |
| Fade.FadeLands | cae/cae_jack.cpp:385-407 | a fade that can land goes an increment a tick, held at the mute depth, never passes its target, lands on it (or the mute depth, if that is higher) and stops after N ticks with length <= 100 N < 2 length + 100 |
| Fade.FadeNeverTurns | cae/cae_jack.cpp:385-407 | the level moves monotonically |
| FadeEnds.EndsExactly | cae/cae_jack.cpp:385-407 | from any sixteen-bit level, target and increment: when a fade ends |
| FadeEnds.FadeEndsExactly | cae/cae_jack.cpp:1095-1118 | the same of any fade asked for, as its numbers are truncated; one whose numbers fit ends if and only if there is nothing to fade, or the increment is not rounded to nothing and reaches a target below the mute depth from there |
| FadeEnds.FadeBelowMuteHangs | cae/cae_jack.cpp:1072-1088 | a fade that does not end: from 0 to -20000 in a second |
| FadeEnds.ClimbEndsExactly | cae/cae_jack.cpp:385-407 | a downward fade with an increment truncated to a negative number climbs and wraps around; it ends if and only if the first low level it comes to is at the target or beyond, or is not but the first one from the mute depth is |
| FadeEnds.ClimbEndsAboveMute | cae/cae_jack.cpp:385-407 | with a target not below the mute depth: if and only if the lowest level it comes by, which a greatest common divisor gives, is within an increment of the target |
| FadeEnds.ShortStepsEndExactly | cae/cae_jack.cpp:385-407 | with one below it and short steps: the two low levels in closed form |
| FadeEnds.LongStepsNeverEnd | cae/cae_jack.cpp:385-407 | with one below it and long steps: never |
| FadeEnds.ShortFadeHangs | cae/cae_jack.cpp:1115-1117 | one that climbs and does not end: from 0 to silence in 30 milliseconds |
| FadeDrivers.DriversFadeAlikeExactly | cae/cae_alsa.cpp:615-640 | from any sixteen-bit numbers the ALSA driver's fade is the JACK driver's, tick by tick, if and only if the levels computed fit in sixteen bits, or their truncation does no harm |
| Fade.FadeTimer.FadeOutputVolume | cae/cae_alsa.cpp:1169-1194 | a fade begins on one port, in place of one under way, and no level changes yet |
| Fade.FadeTimer.JackFadeTimerData | cae/cae_jack.cpp:385-407 | one tick changes the level of the fade's port only |
| Fade.FadeTimer.AlsaFadeTimerData | cae/cae_alsa.cpp:615-640 | likewise, in sixteen bits |
| NexgenArchive.HeaderSays | importers/nexgen_filter.cpp:285-295 | a header says the length and the name that it was written with |
| NexgenArchive.HeaderBytes | importers/nexgen_filter.cpp:285-295 | codes 70, 82, 58, then 97 bytes of name, then the length, least significant byte first |
| NexgenArchive.HeaderExactly | importers/nexgen_filter.cpp:285-295 | 104 bytes are a header if and only if they begin with these codes, and which bytes give the length |
| NexgenArchive.CopiedExactly | importers/nexgen_filter.cpp:304-309 | a payload is copied in full if and only if its length is no positive multiple of the block size; otherwise one block is missing |
| NexgenArchive.LoopEndsExactly | importers/nexgen_filter.cpp:304-307 | with the 32-bit counter the copy loop ends if and only if the length is at most 2^32 less the greatest common divisor with the block size, whatever that is |
| NexgenArchive.EveryByteOnce | importers/nexgen_filter.cpp:285-312 | whatever the file, its bytes are the headers and files written, in order, and what is left unread |
| NexgenArchive.AskedWithin | importers/nexgen_filter.cpp:304-309 | up to a bound the loop ends, having asked for what it would without wrapping around |
| NexgenArchive.AskedBeyond | importers/nexgen_filter.cpp:304-309 | beyond it a loop that ends has asked for more than the payload |
| NexgenArchive.RoundTripExactly | importers/nexgen_filter.cpp:285-311 | for any block size: the run over an archive ends and gives back exactly its members, ending where they end, if and only if every payload is whole, that is no positive multiple of the block size and within the bound, or the last, with nothing behind it, is beyond the bound and its loop ends |
| NexgenArchive.RoundTripOfDivisor | importers/nexgen_filter.cpp:285-311 | for a block size that divides 2^32: if and only if no length is a positive multiple of it, or within a block of 2^32 |
| NexgenArchive.LongPayloadHangs | importers/nexgen_filter.cpp:304-307 | one that does not end: 2^32 - 1 bytes in blocks of 4096 |
| NexgenArchive.MissedBlockIsNext | importers/nexgen_filter.cpp:285-311 | after a short member the missed block is taken for the next header: the members after it are lost unless it looks like one |
| NexgenArchive.Reader.CopyPayload | importers/nexgen_filter.cpp:304-309 | the loop, its counter wrapping around, copies as much as the file has of the bytes that `Asked` gives, and moves past them |
| NexgenArchive.Reader.ProcessArchive | importers/nexgen_filter.cpp:285-311 | the files written are those of `Unpack` |
| SoundExchange.PlaysAddUp | lib/export_soundex.cpp:86-145 | the plays of all lines add up to the rows of carts other than zero, in whatever order |
| SoundExchange.ListsExactlyTheCarts | lib/export_soundex.cpp:86-145 | a cart has a line if and only if it has a row and is not zero |
| SoundExchange.EveryLineTells | lib/export_soundex.cpp:86-145 | with each cart's rows together there is one line for each, with its number of rows and its first row's metadata |
| SoundExchange.OneLineEachExactly | lib/export_soundex.cpp:86-145 | there is one line for every cart if and only if each cart's rows are together |
| SoundExchange.SortedReport | lib/export_soundex.cpp:79-147 | of sorted rows: exactly one line per cart, in increasing order, with plays and metadata, all adding up |
| SoundExchange.ReportColumns | lib/export_soundex.cpp:92-144 | column by column: artist, title, isrc, album and imprint are each that column of the cart's first row, empty if null; service, category, hours and channel the station's; plays the number of the cart's rows |
| SoundExchange.ExportSoundEx | lib/export_soundex.cpp:79-147 | the one-pass loop writes the lines of the roll-up, with each cart's rows together column by column as the rows and the station say |

## Left out

- The HPI driver, a thin layer over a library that is not part of this model.
- Sockets, signals, real time, threads, SQL, and the encoders and decoders: their outcomes are parameters of events and methods. The callback, a fill and a clock tick are each one step.
- The command line of the minifier, which writes its arguments as comments.
- Meaning of the minified JavaScript: "a + ++b" is glued into something else.
- The commands PP, TS, volumes, levels, modes and patching in the session model.
- CaeServer.MainObject.LoadPlaybackCommand: card numbers below 8, as for all commands that take a card; the original does not check them.
- The state of a socket that EchoCommand looks at: a message is sent to every client that is connected.
- CommandParser.Connection.ParseChunk: a chunk of exactly 256 bytes, behind which the original writes a zero outside its buffer.
- CommandParser.Connection.ParseCommand: streams of bytes whose commands overrun the buffers, where the original writes outside them.
- CommandParser.Connection.EchoArgs: echoes that overrun its buffer, where the original writes outside it; `EchoBufferExactly` says which.
- The arguments that a short command leaves over from an earlier one.
- JackStream.PlayoutConserved: PCM files without timescaling; MPEG decoding and SoundTouch are not modelled, nor are timed stops.
- SeekPosition.PositionAdvances: files at the driver's own sample rate, where the count kept by the callback is that of the frames played.
- JackMix.JackDriver.JackProcess: samples and levels are real numbers without rounding; the callback's input part is in `JackRecord`, and meters are not modelled.
- The drivers' global arrays, one entry for each stream, are one record for each stream here; the ring buffer between clock and callback is a sequence of samples, and `RingBuffer` proves that the memory behind it is such a queue.
- SeekPosition.PcmSeekReport: the position as it is before 32 bits are considered; the floating-point quotient is taken as exact.
- SeekPosition.MpegSeekReport: likewise.
- SeekPosition.StreamSeekReport: PCM files; the stream model has no MPEG ones. A conversion beyond 32 bits, which the language leaves undefined, is taken to keep the low 32 bits.
- JackStream.FillFits: files within a fill of 2^32 bytes, where the sums of `readWave` wrap around.
- JackRecord.JackInput.Encode: the encoder's output and its errors. Counts of frames do not wrap around.
- The ALSA driver's callback mixing, capture, fill and meters; its handling of record buffers is that of the JACK driver.
- Fade.FadeLands: fades that begin at or above the mute depth with a target and an increment that fit in sixteen bits; of all others it is stated when they end.
- Fade.FadeTimer.FadeOutputVolume: lengths other than zero, by which the original divides, and differences that do not overflow an int when taken a hundred times.
- NexgenArchive.Reader.ProcessArchive: the block size is the same for all files, and two members with the same file name are two files here. The names themselves are bytes. Every copy loop of the run ends.
- NexgenArchive.Reader.CopyPayload: lengths for which the loop ends, which `LoopEndsExactly` characterises.
- NexgenArchive.MissedBlockIsNext: payloads for which the counter does not wrap around.
- SoundExchange.ExportSoundEx: lines are records; their quoting and number formats are not modelled.
- Other importers, report exporters, dialogs, translations and licence texts: input, output and formatting.
