# Tick journal recorder, loader and bar converter — a Dafny model

This project models the tick-journal core of a vn.py add-on with three parts:

- **Recorder** (`TickRecorder`, record_tick.py). It caches the futures contracts the CTP gateway reports and subscribes to each one. It appends every raw snapshot of a cached instrument to that instrument's journal file `{InstrumentID}.{ExchangeID}.txt`, first stamping the snapshot with the exchange code and the local time.
- **Loader** (`TickFileLoader`, load_tick_data.py). It replays one journal text and turns each line into a `TickData`.
- **Converter** (`TickToBarConverter`, transform_tick_data.py). It replays the night journal and then the day journal of one instrument. Every assembled tick goes to the bar generator. Every bar the generator completes and hands to `on_bar` becomes a table row, aligned to the table's eleven columns. The table is written to `{vt_symbol}.csv`.

The loader and the converter share two pieces of code. The Python carries two identical copies of each; the model defines each once:

- the **line decoder** (`Codec`): remove `{`, `}` and `''`, split at the full-width comma plus space, and keep each segment that splits at `": "` into exactly two parts, the last one winning for a repeated key;
- the **tick assembler** (`Assembler`): no tick without `UpdateTime`, the session-date rule for DCE and an empty `ActionDay`, the composed timestamp, the sentinel sanitizer applied to seven prices and to the eight depth prices, depth levels 2–5 only when level-2 volume is set, and `KeyError` or `ValueError` for a missing or unparseable field.

Module layout:

- `Wrappers`: `Option` and `Result`.
- `Text`: Python's `split`, `join`, `replace(pat, "")` and `not s.strip()`, with their laws.
- `Values`: snapshots, `Float` as an IEEE-754 bit pattern, the sentinel `sys.float_info.max`, `Exchange`, `TickData` and `_adjust_price`.
- `Codec`: the line decoder.
- `Assembler`: the tick assembler, as a specification function and as the imperative `DictToTick`.
- `JournalReader`: the common meaning of a replay.
- `Loader`: the loader.
- `Transformer`: the converter, as a class.
- `Recorder`: the recorder, as a class.

Every method is proved against a specification function. For example, `ProcessTotalData` returns exactly `Replay(Lines(text), Reader(...))`. The lemmas then state what that function promises: file order, stopping at the first exception, blank lines skipped, at most one tick per line, sound ticks, the night journal before the day journal, and so on.

Library behaviour the model does not define is passed in as functions:

- `float()` and `datetime.strptime` are the fields of `Platform`.
- `str(dict)` is the recorder's `render`.
- The bar generator is the converter's `feed`: the bars each new tick completes.
- The clock is the `now` parameter.
- The file system is a map from path to text.

Behaviours of the code that are easy to misread:

- The decoder splits a segment at every `": "` and drops a segment that does not give exactly two parts. It does not split at the first `": "` only.
- Depth levels are read only when `BidVolume2` or `AskVolume2` is non-empty. Any missing depth field then raises `KeyError`; a partial depth set is not treated as absent.
- The recorder writes `str(dict)`, which separates pairs with an ASCII comma and, through `repr`, puts every string key and string value in single quotes; numbers appear bare. The decoder reads the full-width comma and removes only `''`, not a single quote.
- The decoder's round trip (`Codec.DecodeEncode`) is therefore proved for the braced full-width format, whose keys and values may hold single quotes but no `''`. A line of that format whose keys are all quoted decodes to quoted keys only, so `UpdateTime` is never a key and the line yields no tick and no error (`JournalReader.QuotedLineYieldsNothing`).
- The bar generator calls `on_bar` from inside `update_tick`, so the table grows while the journals are replayed. The table is built with fixed columns, so `vt_symbol`, although `on_bar` leaves it in the bar's dictionary, never reaches the CSV.

## Model

| member | source | states |
|---|---|---|
| Text.Split | load_tick_data.py:70 | `str.split(sep)` always yields at least one piece |
| Text.SplitJoin | load_tick_data.py:70 | joining the pieces of a split with the separator gives back the text |
| Text.SplitHead | load_tick_data.py:95 | the first piece is the longest separator-free prefix, followed in the text by the separator when there are more pieces |
| Text.SplitPiecesFree | load_tick_data.py:70 | no piece of a split contains the separator |
| Text.SplitNoSep | load_tick_data.py:75 | a text without the separator splits into itself alone |
| Text.SplitCount | load_tick_data.py:75-76 | for a separator that cannot overlap itself, the number of pieces is the number of occurrences plus one |
| Text.SplitAround | load_tick_data.py:52 | splitting on a one-character separator around one occurrence splits both sides independently |
| Text.RemoveChar | load_tick_data.py:65-66 | `replace(c, '')` deletes exactly the occurrences of `c` |
| Text.WithoutEliminates | load_tick_data.py:65-66 | after deleting `c` no `c` is left and no character is added |
| Text.RemoveChars | load_tick_data.py:67 | `replace(pat, '')` introduces no character |
| Text.RemoveAbsent | load_tick_data.py:67 | removing a pattern that does not occur changes nothing |
| Text.SplitDoubleNoTrail | load_tick_data.py:67 | splitting at a doubled character leaves no piece but the last ending with that character |
| Text.JoinNoDouble | load_tick_data.py:67 | joining pieces free of a doubled character, no piece but the last ending with the character, gives a text free of it |
| Text.RemoveNoDouble | load_tick_data.py:67 | `replace(cc, '')` leaves no `cc` anywhere |
| Text.SplitJoinInverse | load_tick_data.py:70 | splitting a join of separator-free parts gives back the parts, for a two-character separator |
| Values.AdjustPrice | load_tick_data.py:153-160 | the sentinel becomes 0, every other value is unchanged, the result is never the sentinel |
| Values.Exchange.Value | record_tick.py:125 | an exchange code is non-empty and has no dot |
| Values.VtSymbolInjective | record_tick.py:136 | `symbol.exchange` determines the symbol and the exchange |
| Codec.ParseLineToDict | load_tick_data.py:65-77 | the decoding loop computes `ParseLine`; the same code is transform_tick_data.py:109-120 |
| Codec.CleanRemovesMarks | load_tick_data.py:65-67 | after cleaning no brace and no `''` is left anywhere in the line |
| Codec.EntryIffSingleSeparator | load_tick_data.py:75-76 | a segment enters the dictionary iff `": "` occurs in it exactly once |
| Codec.EntryParts | load_tick_data.py:75-77 | an entry's key and value are the text before and after the one `": "`, neither containing it |
| Codec.DictOfLastWins | load_tick_data.py:72-77 | a key is present iff some segment defines it, and its value comes from the last segment that does |
| Codec.DecodeEncode | load_tick_data.py:65-77 | decoding a line in the braced full-width-comma format, whose keys and values may hold single quotes but no `''`, gives back its entries, the last winning |
| Codec.QuotedKeysKept | load_tick_data.py:65-77 | in such a line whose keys all start with a quote, every decoded key still does, so `UpdateTime` is never a key |
| Assembler.ReadNumber | load_tick_data.py:108 | `float(data[key])` succeeds iff the key is present and parses; otherwise `KeyError` or `ValueError` |
| Assembler.ReadPrice | load_tick_data.py:111 | the same, with the value sanitized |
| Assembler.LocalDateMeaning | load_tick_data.py:95 | the local date is the text before the first space of `localtime` with every `-` removed |
| Assembler.SessionDate | load_tick_data.py:94-97 | non-DCE with a non-empty `ActionDay` gives `ActionDay`; otherwise the local date, or `KeyError('localtime')` |
| Assembler.BaseTick | load_tick_data.py:104-126 | `TickData(...)` succeeds iff the 14 scalar fields and `localtime` parse; its fields are those read, seven prices sanitized, depth zero |
| Assembler.ReadFour | load_tick_data.py:130-133 | four fields of one side and kind succeed iff all four read, with their values |
| Assembler.ReadDepth | load_tick_data.py:129-148 | the 16 depth fields succeed iff all read, prices sanitized, volumes as read |
| Assembler.BookSanitized | load_tick_data.py:118-138 | with the top of the book and the depth levels read as assembled, none of the five bid or ask prices is the sentinel |
| Assembler.Assemble | load_tick_data.py:87-148 | no `UpdateTime` iff no tick and no error; otherwise an error iff some step fails; a tick carries the composed timestamp, the fields read and depth only with level-2 volume; a `KeyError` names a missing key |
| Assembler.MissingKeyRaises | load_tick_data.py:95-148 | with `UpdateTime` set, a missing required field, or a missing depth field when level-2 volume is set, raises |
| Assembler.SetBidPrices | load_tick_data.py:130-133 | the four bid-price assignments agree with `ReadFour` |
| Assembler.SetAskPrices | load_tick_data.py:135-138 | the four ask-price assignments agree with `ReadFour` |
| Assembler.SetBidVolumes | load_tick_data.py:140-143 | the four bid-volume assignments agree with `ReadFour` |
| Assembler.SetAskVolumes | load_tick_data.py:145-148 | the four ask-volume assignments agree with `ReadFour` |
| Assembler.SetDepth | load_tick_data.py:129-148 | the sixteen assignments give `WithDepth` of `ReadDepth`, or its first error |
| Assembler.DictToTick | load_tick_data.py:82-148 | the step-by-step `_dict_to_tick` computes `Assemble`; the same code is transform_tick_data.py:124-185 |
| JournalReader.LineResult | load_tick_data.py:53-57 | a line yields nothing and no error iff it is blank or decodes without `UpdateTime` |
| JournalReader.Emits | transform_tick_data.py:187 | at most one tick per outcome, exactly when a tick was assembled |
| JournalReader.Raised | load_tick_data.py:57 | an outcome raises iff assembly failed |
| JournalReader.ReplayConcat | transform_tick_data.py:81-91 | replaying two texts in turn: the second runs only when the first did not raise |
| JournalReader.ReplaySucceeds | load_tick_data.py:52-57 | a replay ends without an exception iff no line raises, and then yields every line's tick in line order |
| JournalReader.ReplayStopsAtFirstFailure | load_tick_data.py:53-57 | a failed replay stops at the first raising line, with its error and the ticks of the lines before it |
| JournalReader.SilentLineSkipped | load_tick_data.py:54-56 | a line that yields nothing can be dropped anywhere without changing the replay |
| JournalReader.LineTickSound | load_tick_data.py:104-126 | a line's tick belongs to the instrument, has five levels, and none of its five sanitized scalar prices and none of its ten book prices is the sentinel |
| JournalReader.QuotedLineYieldsNothing | load_tick_data.py:53-77 | a braced full-width line whose keys all start with a quote yields no tick and no error |
| JournalReader.ReplayTicksWellFormed | load_tick_data.py:53-57 | every tick of a replay is sound |
| JournalReader.ReplayTickCount | load_tick_data.py:53-57 | a replay yields at most one tick per line |
| JournalReader.ReplayStopped | load_tick_data.py:57 | a replay stopped after a prefix is the replay of the whole text |
| Loader.ParseLineToTick | load_tick_data.py:59-80 | decoding then assembling a line computes `Assemble(ParseLine(line))` |
| Loader.ProcessTotalData | load_tick_data.py:46-57 | the loop over the lines computes `Replay(Lines(text), Reader(...))` |
| Transformer.Pop | transform_tick_data.py:65-66 | `pop(key, None)` removes exactly that key and is a no-op for an absent key |
| Transformer.BarRowKeys | transform_tick_data.py:58-66 | a row holds the twelve attributes left after dropping `gateway_name` and `extra` |
| Transformer.BarRowCodes | transform_tick_data.py:61-62 | a row stores the exchange and the interval as their codes; symbol, datetime and `vt_symbol` as carried |
| Transformer.BarRowNumbers | transform_tick_data.py:58 | a row stores volume, turnover, open interest and the four prices as the bar carries them |
| Transformer.OnBarEdits | transform_tick_data.py:58-66 | the edits `on_bar` makes to `bar.__dict__` give the bar's row |
| Transformer.CompletedConcat | transform_tick_data.py:187 | the bars completed over two stretches of ticks are those of the first followed by those of the second, fed after the first |
| Transformer.TableRowColumns | transform_tick_data.py:28-31 | a table row has exactly the eleven columns, each holding the bar's row value; `vt_symbol` is not among them |
| Transformer.TableConcat | transform_tick_data.py:187 | the table of two stretches of ticks is the table of the first followed by that of the second, fed after the first |
| Transformer.StartOrder | transform_tick_data.py:79-91 | the night journal's lines come before the day journal's; a missing or empty file adds none |
| Transformer.NightFailureSkipsDay | transform_tick_data.py:81-91 | an exception in the night journal means the day journal is never read |
| Transformer.FolderNext | transform_tick_data.py:81-91 | one more folder's replay extends the run while nothing has raised |
| Transformer.AllLinesStopped | transform_tick_data.py:81-91 | once a replay has raised, later folders do not change it |
| Transformer.TickToBarConverter.constructor | transform_tick_data.py:40-52 | no tick pushed, no row, nothing exported |
| Transformer.TickToBarConverter.OnBar | transform_tick_data.py:54-69 | exactly one row is appended: the bar's row aligned to the eleven columns |
| Transformer.TickToBarConverter.OnBars | transform_tick_data.py:49 | each bar handed to `on_bar` appends its row, in order |
| Transformer.TickToBarConverter.GenerateTick | transform_tick_data.py:124-187 | the tick pushed and the exception raised are those of `Assemble`; the rows grow by the rows of the bars that tick completes |
| Transformer.TickToBarConverter.Deliver | transform_tick_data.py:186-187 | a tick goes to the bar generator exactly once and the rows grow by the bars it completes; no tick pushes nothing and adds no row |
| Transformer.TickToBarConverter.ParseLineToTick | transform_tick_data.py:105-122 | the tick pushed, the rows added and the exception are those of the decoded line |
| Transformer.TickToBarConverter.ProcessLine | transform_tick_data.py:100-103 | a blank line changes nothing; any other pushes its tick, adds its bars' rows and raises its exception |
| Transformer.TickToBarConverter.ProcessTickString | transform_tick_data.py:95-103 | the ticks pushed and the exception are exactly the replay of the text, and the rows grow by the bars those ticks complete |
| Transformer.TickToBarConverter.ToCsv | transform_tick_data.py:189-194 | the rows are written under `{vt_symbol}.csv` |
| Transformer.TickToBarConverter.ProcessFolder | transform_tick_data.py:85-91 | a missing or empty journal pushes nothing and adds no row; any other pushes exactly its replay and adds those ticks' bars |
| Transformer.TickToBarConverter.ProcessFolders | transform_tick_data.py:81-91 | the ticks pushed and the exception are the replay of the folders' journals one after another; the rows grow by the bars those ticks complete |
| Transformer.TickToBarConverter.Start | transform_tick_data.py:71-93 | the ticks pushed are the replay of the night then the day journal, and the rows grow by the bars those ticks complete; the CSV, holding the final rows, is written only when nothing raised |
| Recorder.Cached | record_tick.py:97-102 | a non-futures contract changes nothing; a futures contract is stored under its symbol, replacing the earlier entry, other entries kept |
| Recorder.Accepted | record_tick.py:116-122 | a snapshot has a contract iff its `InstrumentID` is present and cached |
| Recorder.AcceptedFutures | record_tick.py:98-122 | a recorded snapshot's contract is a future of the snapshot's own symbol |
| Recorder.Inject | record_tick.py:124-126 | `ExchangeID` becomes the contract's code and `localtime` the local time; other fields are kept |
| Recorder.FileName | record_tick.py:136 | the name exists iff both fields are present; otherwise `KeyError` for the first one missing; its value for a recorded snapshot is stated by `Recorder.RecordedFileName` |
| Recorder.RecordedFileName | record_tick.py:125-136 | a recorded snapshot goes to `{vt_symbol}.txt` of its contract, the name the loader and converter read |
| Recorder.RecordedFilesDistinct | record_tick.py:136 | different instruments never share a journal file |
| Recorder.AppendOnly | record_tick.py:140-142 | appending never changes what a file already held |
| Recorder.AppendedLines | record_tick.py:142 | a file's lines are its original lines plus one line per record without a line break |
| Recorder.RecordedJournalReplay | record_tick.py:142 | replaying a journal the recorder created, whose first line is empty, is replaying its records |
| Recorder.JournaledAppend | record_tick.py:140-142 | one more append keeps every file equal to its original text followed by its records |
| Recorder.TickRecorder.constructor | record_tick.py:53-60 | empty cache, no subscription, the data directory as found |
| Recorder.TickRecorder.HandleContractEvent | record_tick.py:91-109 | the cache becomes `Cached`; exactly one request, with the symbol and exchange, for a future and none otherwise |
| Recorder.TickRecorder.AppendTickToFile | record_tick.py:131-142 | the named file becomes its old text (or nothing) plus a line break and the rendered snapshot; no other file changes; `KeyError` writes nothing |
| Recorder.TickRecorder.HandleOriginalTick | record_tick.py:111-129 | a snapshot without a cached contract writes nothing; any other is stamped and appended to `{vt_symbol}.txt` and recorded as that file's next record, and the append cannot fail |

## Left out

- The CTP gateway connection, the event engine, `register_handlers`, `connect_ctp`, `load_json` and `log_handler`'s `print` (record_tick.py:43-89) are left out. They are network and framework plumbing. A contract or snapshot event is a method call, and a subscription is a `SubscribeRequest` appended to `requests`.
- Real file I/O, `Path`, `mkdir`, `exists`, encodings and I/O errors are left out. A directory is a map from path to text, and a file exists when its path is a key.
- `read_data_txt` (load_tick_data.py:38-44) is modelled only as the text handed to `ProcessTotalData`. Its file-not-found error is not modelled.
- `float()`, `datetime.strptime` and `datetime.now` are not defined. The first two are opaque partial functions in `Platform`, and the formatted local time is a parameter.
- `str(dict)` is the opaque `render`; rendering a snapshot and reading it back is not modelled. Snapshot values are modelled as text, although the feed hands the recorder numbers as well.
- Recorder.TickRecorder.HandleOriginalTick: the Python stamps the event's own `o_tick` dictionary in place, so later handlers of the same event see the stamp. The model returns the stamped snapshot as a new value and does not model that sharing.
- `extract_vt_symbol` and the construction of a converter or loader from a `vt_symbol` text are left out. The model starts from the symbol and the exchange it yields.
- Loader.ProcessTotalData: the Python methods return `None` and drop the ticks they build. The model returns the replay's ticks and the exception, so that what the loader computes can be stated.
- Values.AdjustPrice: the Python returns the integer `0` for the sentinel. The model returns the float zero, `Float(0)`.
- `BarGenerator` (`bargenerator4record`) is not part of this model. It is the parameter `feed`: for the ticks received so far and the next tick, the bars that tick completes, in the order they go to `on_bar`. How it aggregates ticks into bars is not modelled, and no bar is completed other than by a tick.
- The pandas `DataFrame` and `to_csv` are left out, because they are library code. A table is a sequence of rows, each a map over the eleven `COLUMNS`; `df.loc[len(df)] = bar_dict` keeps the dictionary's value under each column. An exported file is the row sequence under its name; column order, the index and number formatting are not modelled.
- Python dictionary insertion order is not modelled. Dictionaries are maps.
- Transformer.Bar: vn.py's `interval` may be `None`. The model always has an interval, as the bar generator sets one.

## Findings

None.
