# Verified models of the flight stack's stateful core

Nine pieces of the repository keep state over long runs or compute something whose
correctness is not visible in one routine. Each is modelled here in Dafny and proved.

* **DataFlash logs** (`DataFlashFormat`, `DataFlashUnits`, `DataFlashLog`, `DataFlashCodes`, `DataFlashIndex`,
  `DataFlashLayouts`, `DataFlashReader`, `DataFlashExamples`). Flight logs describe their own record types: FMT records
  define later ones, and UNIT, MULT and FMTU records say more about them. The model covers struct
  packing and unpacking, the record writer, the resynchronising parser, the index that one pass over
  the file builds, and reading by type through it, each with the exceptions it does not catch. A
  well-formed log is defined once, as entries with noise in front of them, and everything about readers
  is proved for all of them.
* **Camera and lidar pairing** (`Pairing`). Two bounded queues whose heads are paired greedily
  within 50 ms.
* **Batched log writer** (`LogWriter`). Producers, a worker thread and shutdown, as interleaved
  steps between lock operations, waits and wake-ups.
* **Process supervisor** (`SupervisorModel`, `SupervisorChildren`, `SupervisorEffects`,
  `SupervisorHealth`, `SupervisorServices`, `SupervisorPolicy`, `SupervisorOrder`, `Supervisor`). A state machine per child process, with
  the operating system's view of children (unreaped, sent SIGKILL) as part of the state. Callbacks
  are atomic, as in the node's single-threaded executor. `SupervisorModel` gives every routine as a
  transition; the class in `Supervisor` runs the same routines as loops over fields and equals it.
* **MAVLink include flattening** (`Dialects`, `XmlFiles`). Loading the files a dialect includes
  and merging them bottom up in passes.
* **Flight recorder** (`StoragePath`, `SliceNames`, `RecorderModel`, `Recorder`). Arming,
  disarming, rotation, retry and disk checks, reclaiming disk space, names and the storage path.
* **Clock synchronisation statistics** (`ClockStatistics`). The sliding window, the trimmed mean
  and the median.
* **Magnetic field tables** (`MagneticField`) and **covariance resets** (`CovarianceReset`).

`Sorting` holds what these programs expect of their library's sort, `Wrappers` the type of optional values.

What the environment decides (clock readings, fork and waitpid, disk readings, whether a file
opens, when messages come) is an input of the model, so each theorem about runs holds for every
behaviour of the environment. Objects that the programs update in place are classes whose
methods are proved to take the state to a function of the old state; the theorems are about
those functions. History that no decision depends on (forks so far, pairs emitted, resets) is kept
in additional fields or ghost fields.

Where a promise does not hold for all inputs, the exact condition is proved instead:

* Reading a log by type agrees with filtering a linear scan if and only if it is not the case that FMT
  records are wanted, there are some, and none announces the name FMT (`DataFlashIndex.IndexAgreesWithScan`,
  and `DataFlashExamples.UnannouncedFmtIsMissed` for a log where it does not).
* On a well-formed log in which no FMTU record marks a column of FMT itself, the index pass ends normally if and only if
  no record raises (`DataFlashIndex.RaisesAt`): a UNIT or MULT record whose letter is no character, a FMTU record whose
  letters do not fit the type it is about, a FMTU record that is parsed and has the number of a known type in its first
  field, which the usual layout gives to the time stamp, and a FMT record that announces a type anew whose marked column
  has the name of a later one that cannot be an instance column. `DataFlashLayouts.UsualRaises` says so in terms of the
  fields of records; `DataFlashExamples.ShortUnitRaises` and `DataFlashExamples.RepeatedColumnRaises` are logs that kill
  the pass.
* Reading goes on to the end if and only if no FMTU record that is read has the number of a known type in its first field
  (`DataFlashUnits.FmtuRaises`; `DataFlashExamples.LateFmtuRaises` for a log that is indexed and cannot be read). A FMT
  record is returned by a reader if and only if the format it announces can be built over the old one
  (`DataFlashLog.ParseEntry`, `DataFlashReader.LostWhenRead`; `DataFlashExamples.MarkedFormatIsLost` for a log that is
  indexed and whose first record is then not returned).
* A FMT record's content is read back as it was written if and only if its strings fit their fields without NUL characters
  and the columns survive the comma list, which a column with a comma or a single empty column does not
  (`DataFlashFormat.FormatRoundTrip`, `DataFlashFormat.CommaColumnIsLost`).
* The first call of the log writer's shutdown flushes everything if and only if the file could be opened or there was
  nothing to write (`LogWriter.ShutdownFlushes`). A later or concurrent call returns at once, and then everything is in
  the file if and only if no byte is left in memory; it is if the file is open, the first call has returned and nothing
  was enqueued since that one took the lock (`LogWriter.LateShutdownFlushes`, `LogWriter.LateShutdownIsSafe`, and
  `LogWriter.SecondShutdownDoesNotWait` for a run where bytes are left).
* Starting a process by hand keeps its children accounted for if and only if the process is not still stopping, or its
  old child has been killed already and the new one starts (`SupervisorChildren.StartKeepsUnlessStopping`;
  `SupervisorChildren.HastyStartLosesChild` for a run that loses one).
* Merging dialects can only succeed if everything included has been loaded and no chain of includes is a cycle, so never
  with a file six includes away; it is sure to where chains have at most five (`XmlFiles.XMLFiles.Build`).
* The driver is killed for silence if and only if its present child has been heard and then not for longer than the timeout
  (`SupervisorHealth.SilentDriverIsKilled`, `SupervisorHealth.ArmedIsHeard`): one that never sends anything is left alone.
* The trimmed mean withstands outliers up to a tenth of the samples and the median up to just below half;
  one more is too many (`ClockStatistics.SmoothedBreaks`, `ClockStatistics.MedianBreaks`).

## Model

| member | source | states |
|---|---|---|
| DataFlashFormat.IntegerRoundTrip | src/acfly_mavros/mavlink-gbp-release/pymavlink/DFReader.py:1611-1615 | little-endian encoding of an integer in w bytes is undone by decoding, for every value below 256^w |
| DataFlashFormat.ItemRoundTrip | src/acfly_mavros/mavlink-gbp-release/pymavlink/DFReader.py:80-125 | unpacking one packed field gives what struct keeps of the value: integers in range and float bytes exactly, byte strings cut or NUL-padded to the field, an int16 array of those bytes |
| DataFlashFormat.PackUnpack | src/acfly_mavros/mavlink-gbp-release/pymavlink/DFReader.py:1530-1535 | unpacking a record body that struct packing accepted gives, field by field, what struct keeps of the packed values |
| DataFlashFormat.NumbersComeBack | src/acfly_mavros/mavlink-gbp-release/pymavlink/DFReader.py:1530-1535 | the k-th field of a packed record, if it is an integer or a float, is unpacked to the value given |
| DataFlashFormat.TextComesBack | src/acfly_mavros/mavlink-gbp-release/pymavlink/DFReader.py:197-204 | if it is a text, reading it up to the first NUL gives the text back if and only if it fits the field and has no NUL |
| DataFlashFormat.ShortsComeBack | src/acfly_mavros/mavlink-gbp-release/pymavlink/DFReader.py:402-428 | if it is an int16 array, 32 numbers in range written as get_msgbuf writes them come back |
| DataFlashFormat.ShortsRoundTrip | src/acfly_mavros/mavlink-gbp-release/pymavlink/DFReader.py:1549-1556 | the array transformation undoes tobytes for numbers in range |
| DataFlashFormat.UnpackTransforms | src/acfly_mavros/mavlink-gbp-release/pymavlink/DFReader.py:1530-1556 | unpacking with 64-byte strings and transforming the arrays afterwards is unpacking arrays |
| DataFlashFormat.UnpackPack | src/acfly_mavros/mavlink-gbp-release/pymavlink/DFReader.py:1611-1615 | packing what was unpacked from a body of the right size gives the same bytes, unless the format has an int16 array field, which struct cannot pack back |
| DataFlashFormat.NullTermIs | src/acfly_mavros/mavlink-gbp-release/pymavlink/DFReader.py:197-204 | null_term gives the longest front without a NUL |
| DataFlashFormat.FieldRoundTrip | src/acfly_mavros/mavlink-gbp-release/pymavlink/DFReader.py:197-204 | a string written to a NUL-padded field and read by null_term comes back if and only if it fits and holds no NUL |
| DataFlashFormat.JoinSplit | src/acfly_mavros/mavlink-gbp-release/pymavlink/DFReader.py:80-90 | joining the pieces of a comma list gives the list |
| DataFlashFormat.SplitJoin | src/acfly_mavros/mavlink-gbp-release/pymavlink/DFReader.py:1617-1625 | splitting joined names gives the names, if there are some and none holds a comma |
| DataFlashFormat.ColumnsRoundTrip | src/acfly_mavros/mavlink-gbp-release/pymavlink/DFReader.py:80-125 | column names come back from the comma list if and only if the list was not cut, no name holds a comma and they are not one empty name; the empty list is covered |
| DataFlashFormat.FormatIsWritable | src/acfly_mavros/mavlink-gbp-release/pymavlink/DFReader.py:1617-1625 | make_format_msgbuf raises exactly if type or length do not fit a byte or a string is not ASCII |
| DataFlashFormat.FormatRoundTrip | src/acfly_mavros/mavlink-gbp-release/pymavlink/DFReader.py:1617-1625 | the format read from a written FMT record has the type, name, format and columns given, with the length struct computes, if and only if each string fits its field without NUL and the columns survive the comma list |
| DataFlashFormat.CommaColumnIsLost | src/acfly_mavros/mavlink-gbp-release/pymavlink/DFReader.py:1617-1625 | a format that can be written and does not come back: its column name has a comma |
| DataFlashUnits.ColumnIndexIsLast | src/acfly_mavros/mavlink-gbp-release/pymavlink/DFReader.py:118-121 | of several columns of one name, the name leads to the last |
| DataFlashUnits.IntegerTextIsRead | src/acfly_mavros/mavlink-gbp-release/pymavlink/DFReader.py:1576-1579 | int() reads a decimal number with a sign or none and blanks around it as that number |
| DataFlashUnits.OnlyNumbersAreRead | src/acfly_mavros/mavlink-gbp-release/pymavlink/DFReader.py:1576-1579 | it reads nothing with other characters than digits, underscores, signs and blanks |
| DataFlashUnits.TruncatesTowardsZero | src/acfly_mavros/mavlink-gbp-release/pymavlink/DFReader.py:1576-1579 | of a floating-point number it keeps the sign and what is before the point; infinity and NaN raise |
| DataFlashUnits.PowersAddUp | src/acfly_mavros/mavlink-gbp-release/pymavlink/DFReader.py:1576-1579 | the powers in that law are the powers of two |
| DataFlashUnits.PowersOfTwo | src/acfly_mavros/mavlink-gbp-release/pymavlink/DFReader.py:40-54 | so that the three floating-point codes have exponents below 32, 256 and 2048 and fractions below 2^10, 2^23 and 2^52 |
| DataFlashUnits.MarkIsFound | src/acfly_mavros/mavlink-gbp-release/pymavlink/DFReader.py:127-145 | where no column name is repeated, building a format anew finds its instance column again |
| DataFlashUnits.KeepByMarks | src/acfly_mavros/mavlink-gbp-release/pymavlink/DFReader.py:127-131 | whether a format can be built over an old one depends on nothing but the names of the marked columns, and building it leaves them as they are |
| DataFlashUnits.KeepTwice | src/acfly_mavros/mavlink-gbp-release/pymavlink/DFReader.py:127-131 | announcing a format twice in a row is announcing it once |
| DataFlashUnits.NoteKeepsSettled | src/acfly_mavros/mavlink-gbp-release/pymavlink/DFReader.py:1234-1270 | so whatever UNIT, MULT and FMTU records note, every type can be announced again |
| DataFlashLog.FindHeaderIsFirst | src/acfly_mavros/mavlink-gbp-release/pymavlink/DFReader.py:1489-1519 | resynchronising passes over no header of a known type, whether it stops at one or for want of bytes |
| DataFlashLog.EnvIsSound | src/acfly_mavros/mavlink-gbp-release/pymavlink/DFReader.py:1558-1570 | along a well-formed log, known formats are sound, names and types stay one to one |
| DataFlashLog.EnvGrows | src/acfly_mavros/mavlink-gbp-release/pymavlink/DFReader.py:1558-1570 | a format once known is never lost or changed |
| DataFlashLog.Layout | src/acfly_mavros/mavlink-gbp-release/pymavlink/DFReader.py:1481-1574 | where each record's header and body lie in the bytes of a log |
| DataFlashLog.HeaderOfEntry | src/acfly_mavros/mavlink-gbp-release/pymavlink/DFReader.py:1489-1519 | from anywhere in the noise before a record the scanner finds that record's header |
| DataFlashLog.NoHeaderInTail | src/acfly_mavros/mavlink-gbp-release/pymavlink/DFReader.py:1489-1519 | behind the last record it finds none |
| DataFlashLog.ParseEntry | src/acfly_mavros/mavlink-gbp-release/pymavlink/DFReader.py:1481-1593 | parsing from the noise before record n, or from the record, stops right behind it, knowing what n + 1 records teach, and returns that record's message; it raises instead exactly if the record is a FMTU record whose first field is no integer or the number of a known type, or that has fewer than three fields; a FMT record whose format cannot be built over the old one is not returned |
| DataFlashLog.ParseTail | src/acfly_mavros/mavlink-gbp-release/pymavlink/DFReader.py:1489-1491 | parsing behind the last record returns nothing |
| DataFlashLog.WriterWritesRecords | src/acfly_mavros/mavlink-gbp-release/pymavlink/DFReader.py:1611-1615 | make_msgbuf writes exactly the bytes a log holds for a record |
| DataFlashLog.ParseWritten | src/acfly_mavros/mavlink-gbp-release/pymavlink/DFReader.py:1481-1615 | what the parser makes of a record make_msgbuf wrote, for every sound format and all values struct accepts: the message, all bytes consumed, and what a FMT record teaches; a FMTU record may raise, and a FMT record that announces nothing usable is skipped |
| DataFlashLog.ParseFormatWritten | src/acfly_mavros/mavlink-gbp-release/pymavlink/DFReader.py:1481-1625 | parsing what make_format_msgbuf wrote consumes the record and leaves that format, with the length struct computes, in the table if and only if its strings fit and its columns survive the comma list and, where an older format of the type had an instance column, the new one has it too |
| DataFlashLog.MessageFits | src/acfly_mavros/mavlink-gbp-release/pymavlink/DFReader.py:1521-1528 | a message returned lies within the data |
| DataFlashCodes.CodeHasWidth | src/acfly_mavros/mavlink-gbp-release/pymavlink/DFReader.py:36-58 | there are 21 codes: b, B and M take one byte, h, H, c, C and g two, i, I, e, E, L, f and n four, q, Q and d eight, N sixteen, Z and a sixty-four |
| DataFlashCodes.CodeMeans | src/acfly_mavros/mavlink-gbp-release/pymavlink/DFReader.py:36-58 | what the bytes of a field stand for: the positional sum, lowest byte first, for B, H, I, Q, C and E, and less 256^w if the top bit is set for b, h, i, q, c, e, L and M; the bytes themselves for floats and texts; 32 signed shorts for a |
| DataFlashCodes.PackAccepts | src/acfly_mavros/mavlink-gbp-release/pymavlink/DFReader.py:1611-1615 | which values struct packs: integers in the range of the field, floats of its width, byte strings of any length |
| DataFlashCodes.FieldsMean | src/acfly_mavros/mavlink-gbp-release/pymavlink/DFReader.py:1530-1556 | the k-th field of a body begins behind the widths of the fields before it, and its value is what those bytes stand for |
| DataFlashCodes.MessageMeans | src/acfly_mavros/mavlink-gbp-release/pymavlink/DFReader.py:1481-1593 | every message the parser returns, from any bytes, is that of a record 0xA3 0x95 with a known type, ends where the parser stops, and has for each field the value its bytes stand for |
| DataFlashCodes.FmtRecordMeans | src/acfly_mavros/mavlink-gbp-release/pymavlink/DFReader.py:1558-1570 | 0xA3 0x95 0x80 and 86 more bytes define the type of the next byte, with the length after it, a name of 4, a format of 16 and columns of 64 bytes, wherever each letter of the format is a code |
| DataFlashCodes.MisfitIsSkipped | src/acfly_mavros/mavlink-gbp-release/pymavlink/DFReader.py:1525-1548 | a record cut off by the end of the data ends reading; one whose length does not go with its format ends reading if fewer than 528 bytes follow its header, and otherwise the parser starts over behind it |
| DataFlashCodes.InstanceIsField | src/acfly_mavros/mavlink-gbp-release/pymavlink/DFReader.py:133-145 | set_instance_field raises exactly for a place without column or code and for the codes a, g, C, E, Z and M; the bytes it takes begin at the field or behind it, at it exactly if each field before it begins at a multiple of its alignment, and they are as many as the field's exactly for b, B, h, H, i, I, q, Q, f and d |
| DataFlashCodes.FmtuRecordRaises | src/acfly_mavros/mavlink-gbp-release/pymavlink/DFReader.py:1576-1584 | reading a FMTU record of a log raises exactly if its format has fewer than three codes, or its first field is no integer or the number of a known type |
| DataFlashIndex.OffsetsAreOrdered | src/acfly_mavros/mavlink-gbp-release/pymavlink/DFReader.py:1149-1284 | the offsets of one type increase strictly |
| DataFlashIndex.OffsetsPartition | src/acfly_mavros/mavlink-gbp-release/pymavlink/DFReader.py:1149-1284 | every record's offset is in the list of its type and in no other |
| DataFlashIndex.NextIsEarliest | src/acfly_mavros/mavlink-gbp-release/pymavlink/DFReader.py:1449-1479 | the next record of the wanted types is the one with the smallest next offset |
| DataFlashIndex.NothingBetween | src/acfly_mavros/mavlink-gbp-release/pymavlink/DFReader.py:1449-1479 | skipping to it passes over no wanted record |
| DataFlashIndex.NamesAgree | src/acfly_mavros/mavlink-gbp-release/pymavlink/DFReader.py:1210-1224 | the name table the index pass builds agrees with the formats known |
| DataFlashIndex.LastUnitCounts | src/acfly_mavros/mavlink-gbp-release/pymavlink/DFReader.py:1249-1255 | after any number of records a letter stands for a unit if and only if the last usable UNIT record for it gave it a text that is not empty |
| DataFlashIndex.UnmarkedFmtIsSteady | src/acfly_mavros/mavlink-gbp-release/pymavlink/DFReader.py:1185-1208 | where no FMTU record marks a column of FMT itself, every FMT record the pass parses announces a format that can be built, since it parses only the first |
| DataFlashIndex.DistinctColumnsAreRereadable | src/acfly_mavros/mavlink-gbp-release/pymavlink/DFReader.py:127-131 | on a log whose types each name their columns differently, announcing a type again finds its instance column, in the pass and when the log is read again |
| DataFlashIndex.FirstRaising | src/acfly_mavros/mavlink-gbp-release/pymavlink/DFReader.py:1576-1584 | the first record from some point on whose reading raises |
| DataFlashIndex.SelectedIsFiltered | src/acfly_mavros/mavlink-gbp-release/pymavlink/DFReader.py:1449-1479 | records selected by type id are those a scan would select by name, and fewer where FMT is wanted but unannounced |
| DataFlashIndex.IndexAgreesWithScan | src/acfly_mavros/mavlink-gbp-release/pymavlink/DFReader.py:1032-1050 | reading by index equals filtering the linear scan if and only if FMT is not wanted, announced, or absent |
| DataFlashLayouts.UsualRaises | src/acfly_mavros/mavlink-gbp-release/pymavlink/DFReader.py:1173-1272 | on logs with the usual layouts of UNIT, MULT and FMTU records, a record makes the pass raise exactly if it is a UNIT or MULT record with a negative letter, a FMTU record whose letters do not fit the type it is about, a FMTU record that is parsed and whose time is the number of a known type, or a FMT record that announces a type anew whose marked column cannot be one |
| DataFlashLayouts.UsualPassRaises | src/acfly_mavros/mavlink-gbp-release/pymavlink/DFReader.py:1173-1272 | so the fields of the records decide whether such a log can be indexed |
| DataFlashLayouts.LettersNoted | src/acfly_mavros/mavlink-gbp-release/pymavlink/DFReader.py:146-176 | set_unit_ids and set_mult_ids end normally exactly if the # stands at a column that can be an instance column, every column has a code, and every column whose letter has a unit and whose code has no multiplier has a multiplier letter |
| DataFlashLayouts.MarkedColumnCounts | src/acfly_mavros/mavlink-gbp-release/pymavlink/DFReader.py:127-145 | the instance column noted for a type is the one its last usable FMTU record marked with a #, however often the type has been announced since |
| DataFlashLayouts.LetterRecords | src/acfly_mavros/mavlink-gbp-release/pymavlink/DFReader.py:1249-1270 | whatever its layout, a UNIT record can be used exactly if its second field is an integer that is the number of a character and its third is bytes, and a MULT record exactly if the third is a number instead |
| DataFlashLayouts.FmtuRecords | src/acfly_mavros/mavlink-gbp-release/pymavlink/DFReader.py:1234-1246 | whatever its layout, a FMTU record raises in the pass if it has fewer than two fields or its second is no integer, and changes nothing if it is about an unknown type |
| DataFlashLayouts.InstanceBytes | src/acfly_mavros/mavlink-gbp-release/pymavlink/DFReader.py:1185-1208 | the bytes by which the pass tells instances apart are those of the marked field, where native mode has it at its place and with its size |
| DataFlashExamples.UnannouncedFmtIsMissed | src/acfly_mavros/mavlink-gbp-release/pymavlink/DFReader.py:1449-1479 | a log whose FMT record a scan returns and reading by type does not |
| DataFlashExamples.ShortUnitRaises | src/acfly_mavros/mavlink-gbp-release/pymavlink/DFReader.py:1249-1255 | a well-formed log with a UNIT record of one field, on which the index pass raises |
| DataFlashExamples.LateFmtuRaises | src/acfly_mavros/mavlink-gbp-release/pymavlink/DFReader.py:1576-1584 | a well-formed log that is indexed normally and whose second FMTU record raises when read |
| DataFlashExamples.RepeatedColumnRaises | src/acfly_mavros/mavlink-gbp-release/pymavlink/DFReader.py:127-145 | a well-formed log that announces a type with a repeated column name once more after marking that column, on which the pass raises |
| DataFlashExamples.MarkedFormatIsLost | src/acfly_mavros/mavlink-gbp-release/pymavlink/DFReader.py:127-145 | without that record the log is indexed normally, but the format of its first record cannot be built when the log is read |
| DataFlashExamples.MarkingExists | src/acfly_mavros/mavlink-gbp-release/pymavlink/DFReader.py:127-145 | there are logs of both kinds, with and without the last record |
| DataFlashReader.DFReaderBinary.ParseNext | src/acfly_mavros/mavlink-gbp-release/pymavlink/DFReader.py:1481-1593 | the parsing loop on any bytes whatever, on a stack that allows any number of re-entries, gives the message or exception, offset and tables of the reference parser; the values of a message are what the bytes of its fields stand for |
| DataFlashReader.DFReaderBinary.ParseRecordHere | src/acfly_mavros/mavlink-gbp-release/pymavlink/DFReader.py:1521-1591 | one record at a header: too short, unpackable, a format that cannot be built, a FMTU record that raises, or a message |
| DataFlashReader.DFReaderBinary.InitArrays | src/acfly_mavros/mavlink-gbp-release/pymavlink/DFReader.py:1149-1284 | on a well-formed log whose FMT records announce formats that can be built whenever the pass parses them, the index pass raises exactly if some record raises, FMT records announcing a type anew included, and otherwise ends with each type's offsets and counts complete |
| DataFlashReader.BodyIsRead | src/acfly_mavros/mavlink-gbp-release/pymavlink/DFReader.py:1211-1217 | the index pass finds a body cut off exactly if the record does not end within the data, and otherwise unpacks the bytes from behind the header to the record's end |
| DataFlashReader.StepOnLog | src/acfly_mavros/mavlink-gbp-release/pymavlink/DFReader.py:1173-1272 | one turn of the index loop at a header raises exactly if that record does, and otherwise indexes it: offset, count, length, names, units, instance columns and the instances seen |
| DataFlashReader.MeasuredOnLog | src/acfly_mavros/mavlink-gbp-release/pymavlink/DFReader.py:1185-1208 | a record is parsed by the pass exactly if it is the first of its type or of an instance not seen before |
| DataFlashReader.UnitsOnLog | src/acfly_mavros/mavlink-gbp-release/pymavlink/DFReader.py:1234-1270 | the FMTU, UNIT and MULT branches note what that record says, or raise |
| DataFlashReader.DFReaderBinary.RecordLength | src/acfly_mavros/mavlink-gbp-release/pymavlink/DFReader.py:1185-1208 | the first part of a turn, parsing included |
| DataFlashReader.DFReaderBinary.SetUnitIds | src/acfly_mavros/mavlink-gbp-release/pymavlink/DFReader.py:146-159 | the loop over the columns marks those with a known unit letter, and the column under the # |
| DataFlashReader.DFReaderBinary.SetMultIds | src/acfly_mavros/mavlink-gbp-release/pymavlink/DFReader.py:161-176 | the loop over the columns raises exactly if one with a unit has no multiplier letter or no format code |
| DataFlashReader.DFReaderBinary.NoteFmtu | src/acfly_mavros/mavlink-gbp-release/pymavlink/DFReader.py:1234-1246 | the FMTU branch, in place |
| DataFlashReader.DFReaderBinary.Rewind | src/acfly_mavros/mavlink-gbp-release/pymavlink/DFReader.py:1137-1147 | back at the start with no type selection, tables kept |
| DataFlashReader.DFReaderBinary.SelectTypes | src/acfly_mavros/mavlink-gbp-release/pymavlink/DFReader.py:1452-1463 | the ids of the wanted names that are known, each once |
| DataFlashReader.DFReaderBinary.Earliest | src/acfly_mavros/mavlink-gbp-release/pymavlink/DFReader.py:1464-1473 | the merging loop finds the list with the smallest next offset, or that all are used up |
| DataFlashReader.WantedAreChosen | src/acfly_mavros/mavlink-gbp-release/pymavlink/DFReader.py:1454-1463 | the types selected after a rewind are those asked for by name and, unless asked for strictly, those called MODE, MSG, PARM, STAT, ORGN and VER |
| DataFlashReader.DFReaderBinary.SkipToType | src/acfly_mavros/mavlink-gbp-release/pymavlink/DFReader.py:1449-1479 | moves to the next record of the wanted types, or to the end, and advances that list's cursor |
| DataFlashReader.DFReaderBinary.RecvMatch | src/acfly_mavros/mavlink-gbp-release/pymavlink/DFReader.py:1032-1050 | returns the next wanted message of the log in order, and none when there is none, strict or not; raises exactly if a record that raises comes before it; for FMT records, if their formats can be built |
| DataFlashReader.DFReaderBinary.ReadMatching | src/acfly_mavros/mavlink-gbp-release/pymavlink/DFReader.py:1074-1077 | repeated reading by type returns every wanted message before the first record that raises, once and in order, and raises exactly if there is one; otherwise it is the filtered scan, unless FMT is wanted and unannounced; FMT being wanted, if the formats of FMT records can be built |
| DataFlashReader.DFReaderBinary.ReadAll | src/acfly_mavros/mavlink-gbp-release/pymavlink/DFReader.py:1481-1593 | repeated parsing from the start returns every message before the first record that raises, in order, and raises exactly if there is one, if the formats of the FMT records on the way can be built |
| DataFlashReader.LostWhenRead | src/acfly_mavros/mavlink-gbp-release/pymavlink/DFReader.py:1558-1570 | on an indexed log, parsing at a FMT record whose format cannot be built, with what the whole log has marked, does not return that record |
| Pairing.MultiSensorPublisher.PushRgb | src/odin_ros_driver/include/host_sdk_sample.h:854-857 | a full queue of ten loses its oldest frame before the new one is added |
| Pairing.MultiSensorPublisher.PushPcd | src/odin_ros_driver/include/host_sdk_sample.h:746-762 | the same for clouds |
| Pairing.StampIsExact | src/odin_ros_driver/include/host_sdk_sample.h:187-193 | conversion through unsigned 64-bit nanoseconds is exact for every stamp, negative seconds included |
| Pairing.TimeDiff | src/odin_ros_driver/include/host_sdk_sample.h:411-415 | the signed difference is exact |
| Pairing.RunIsInOrder | src/odin_ros_driver/include/host_sdk_sample.h:383-452 | whatever the queues hold, the pairs of a call are in order in both queues and within 50 ms |
| Pairing.InOrderIsMatching | src/odin_ros_driver/include/host_sdk_sample.h:383-452 | such pairs are a matching of as many pairs |
| Pairing.ExchangeHeads | src/odin_ros_driver/include/host_sdk_sample.h:417-437 | on ordered queues, giving two close heads to each other costs any matching at most one pair |
| Pairing.RunIsOptimal | src/odin_ros_driver/include/host_sdk_sample.h:383-452 | on ordered queues no matching whatever has more pairs than a call makes |
| Pairing.RunDropsOnlyUnpairable | src/odin_ros_driver/include/host_sdk_sample.h:417-437 | a dropped frame is out of reach of every frame of the other queue that stayed unpaired |
| Pairing.RunResumes | src/odin_ros_driver/include/host_sdk_sample.h:407-409 | stopping at an empty queue and going on when frames arrive makes the same pairs as one call at the end |
| Pairing.MultiSensorPublisher.PairHeads | src/odin_ros_driver/include/host_sdk_sample.h:410-451 | one turn hands on heads at most 50 000 000 ns apart and otherwise drops the older one alone |
| Pairing.MultiSensorPublisher.TryProcessPair | src/odin_ros_driver/include/host_sdk_sample.h:383-452 | a call ends with a queue empty; if the two queues are in order on entry it emits a maximum matching of them, whatever went before; without evictions, all calls together emit one of both streams |
| LogWriter.StepKeepsInv | src/odin_ros_driver/include/data_logger.h:136-193 | every step of producers, worker or shutdown keeps the accounting of frames, wakes a worker that has work and keeps shutdown's phases in order |
| LogWriter.BatchesAreFull | src/odin_ros_driver/include/data_logger.h:136-168 | in every run, before shutdown each batch in the queue or in the worker's hands has exactly the batch size, and fewer frames are pending |
| LogWriter.OwedNotifications | src/odin_ros_driver/include/data_logger.h:136-146 | in every run each enqueue notifies once |
| LogWriter.EveryRunRefinesAppend | src/odin_ros_driver/include/data_logger.h:136-193 | in every interleaving, file, batch being written, queue and pending together are the old file and all frames in lock order |
| LogWriter.ShutdownFlushes | src/odin_ros_driver/include/data_logger.h:146-158 | when the first shutdown returns, the file holds every frame enqueued before it took the lock, if and only if the file is open or there was none |
| LogWriter.LateShutdownFlushes | src/odin_ros_driver/include/data_logger.h:146-149 | in every run, a shutdown that finds stop set changes nothing and returns with the whole log in the file if and only if no byte of it is still in memory |
| LogWriter.LateShutdownIsSafe | src/odin_ros_driver/include/data_logger.h:146-158 | which is so if the file is open, the first shutdown has returned and nothing was enqueued since it took the lock |
| LogWriter.InternalStepsDrain | src/odin_ros_driver/include/data_logger.h:166-193 | every step but a further enqueue or shutdown uses up work |
| LogWriter.NobodyIsStuck | src/odin_ros_driver/include/data_logger.h:166-193 | while a shutdown has not returned, some such step is possible |
| LogWriter.ShutdownTerminates | src/odin_ros_driver/include/data_logger.h:146-193 | a run without further calls that cannot go on has shutdown returned and the worker gone, after at most as many steps as there was work |
| LogWriter.SecondShutdownDoesNotWait | src/odin_ros_driver/include/data_logger.h:146-149 | a run in which a second shutdown returns while the first one's frames are not in the file |
| LogWriter.Writer.EnqueueLocked | src/odin_ros_driver/include/data_logger.h:136-143 | the critical section of enqueue |
| LogWriter.Writer.SwapPendingUnlocked | src/odin_ros_driver/include/data_logger.h:160-165 | pending frames become one batch at the back of the queue, none if there are none |
| LogWriter.Writer.ShutdownLocked | src/odin_ros_driver/include/data_logger.h:146-155 | the critical section of shutdown; the second caller returns early |
| LogWriter.Writer.TakeBatch | src/odin_ros_driver/include/data_logger.h:173-183 | the worker's critical section: the oldest batch, or leave when stopped with none |
| LogWriter.Writer.WriteBatch | src/odin_ros_driver/include/data_logger.h:184-191 | appends exactly the bytes of the batch's frames in order |
| SupervisorModel.Find | src/acfly_daemon/src/acfly_daemon_node.cpp:265-271 | the first entry of a name, if any |
| SupervisorChildren.StartKeeps | src/acfly_daemon/src/acfly_daemon_node.cpp:348-403 | starting a process without a child keeps every child accounted for, forked or not |
| SupervisorChildren.ReapKeeps | src/acfly_daemon/src/acfly_daemon_node.cpp:434-469 | so does reaping any children |
| SupervisorServices.ReapedExactly | src/acfly_daemon/src/acfly_daemon_node.cpp:434-468 | reaping takes exactly the reported children from the entries that track them, as a stop that was asked for or as a crash at that time |
| SupervisorServices.TimeoutsExactly | src/acfly_daemon/src/acfly_daemon_node.cpp:472-484 | exactly the processes that were asked to stop longer ago than their timeout are sent SIGKILL and stopped |
| SupervisorChildren.TickKeeps | src/acfly_daemon/src/acfly_daemon_node.cpp:617-641 | so does a whole timer callback |
| SupervisorChildren.ShutdownLeavesNoPid | src/acfly_daemon/src/acfly_daemon_node.cpp:692-733 | after shutdown_all no entry has a pid and every unreaped child has been sent SIGKILL, however the polling goes |
| SupervisorServices.RequestsExactly | src/acfly_daemon/src/acfly_daemon_node.cpp:692-708 | shutdown_all asks exactly the processes that are starting, running or about to be restarted to stop |
| SupervisorServices.ShutdownIsGraceful | src/acfly_daemon/src/acfly_daemon_node.cpp:692-733 | if everything has stopped by some poll before the deadline, nothing of it overdue, shutdown_all sends nobody SIGKILL |
| SupervisorChildren.StartKeepsUnlessStopping | src/acfly_daemon/src/acfly_daemon_node.cpp:736-765 | a manual start keeps children accounted for if and only if the process is not stopping, or its old child is killed and the fork succeeds |
| SupervisorServices.StartExactly | src/acfly_daemon/src/acfly_daemon_node.cpp:736-764 | a manual start is refused for an unknown name and a process that is starting or running; otherwise the process, and no other, has a new child or counts as crashed, with the first delay, and for the driver a cleared failure counter and automatic restarts |
| SupervisorServices.StopExactly | src/acfly_daemon/src/acfly_daemon_node.cpp:768-792 | a manual stop asks a process that is starting or running to stop and does nothing else |
| SupervisorChildren.RestartReturns | src/acfly_daemon/src/acfly_daemon_node.cpp:819-826 | the blocking restart ends once the stop timeout has passed |
| SupervisorChildren.RestartKeeps | src/acfly_daemon/src/acfly_daemon_node.cpp:795-837 | restarting one process or all keeps children accounted for |
| SupervisorServices.RestartAllExactly | src/acfly_daemon/src/acfly_daemon_node.cpp:795-813 | restarting everything leaves every entry waiting for its first start without a child and with the first delay, the daemon running and the failure counter cleared |
| SupervisorChildren.NoRunLosesChildren | src/acfly_daemon/src/acfly_daemon_node.cpp:348-483 | in every allowed run: a pid exactly while starting, running or stopping, live pids distinct, every unreaped child tracked or killed |
| SupervisorChildren.HastyStartLosesChild | src/acfly_daemon/src/acfly_daemon_node.cpp:736-765 | a run from the start that ends with a lost child: start, stop, and start again before the stop is over |
| SupervisorEffects.RestartsEffect | src/acfly_daemon/src/acfly_daemon_node.cpp:486-507 | handle_restarts attempts exactly the restarts that are due and changes no other entry |
| SupervisorEffects.PendingEffect | src/acfly_daemon/src/acfly_daemon_node.cpp:604-614 | handle_pending starts exactly the pending entries whose dependencies were running before the loop and whose topics exist |
| SupervisorEffects.UptimeEffect | src/acfly_daemon/src/acfly_daemon_node.cpp:528-536 | backoffs are reset for exactly the processes that have been up long enough |
| SupervisorEffects.OverdueStopsEnd | src/acfly_daemon/src/acfly_daemon_node.cpp:472-483 | after a tick past its stop timeout a stopping process is stopped and has no child |
| SupervisorPolicy.DelayIsCappedDoubling | src/acfly_daemon/src/acfly_daemon_node.cpp:501-505 | the delay after k attempts is min(initial * 2^k, max), provided initial <= max |
| SupervisorPolicy.EffectKeepsSchedule | src/acfly_daemon/src/acfly_daemon_node.cpp:486-537 | whatever happens to an entry, its delay fits its attempts and these have taken their time |
| SupervisorPolicy.HealthPolicy | src/acfly_daemon/src/acfly_daemon_node.cpp:551-601 | the health check keeps its counter within the limit, gives up there for good, and keeps every delay |
| SupervisorHealth.SilentDriverIsKilled | src/acfly_daemon/src/acfly_daemon_node.cpp:551-601 | in every run, a timer callback sends the driver SIGKILL and disarms it if and only if it is running, armed, has a child, and the clock is more than the timeout past its last odometry message; the counter then goes up by one below the limit, and at the limit automatic restarts go off and stopping on; otherwise the counter changes, to zero, if and only if it is positive, the driver is not silent and has been up for long enough |
| SupervisorHealth.ArmedIsHeard | src/acfly_daemon/src/acfly_daemon_node.cpp:397-403 | in every run the driver is armed only if its present child has been heard, and its uptime counts from when it got that child |
| SupervisorPolicy.StepPolicy | src/acfly_daemon/src/acfly_daemon_node.cpp:617-837 | every callback keeps schedule, counting and, unless a person intervenes on the driver, the give-up |
| SupervisorPolicy.BackoffLaw | src/acfly_daemon/src/acfly_daemon_node.cpp:486-537 | in every run the backoff is min(initial * 2^attempts, max) and, on a monotone clock, the attempts since the last reset took at least the sum of their delays |
| SupervisorPolicy.HealthRestartsAreBounded | src/acfly_daemon/src/acfly_daemon_node.cpp:551-601 | in every run, the timer callbacks in which the check killed the driver to have it restarted, since the failure counter was last lowered, are at most what the counter says, and the counter stays within its limit |
| SupervisorPolicy.KillIsCounted | src/acfly_daemon/src/acfly_daemon_node.cpp:592-600 | each such callback raises the counter by exactly one |
| SupervisorPolicy.GivingUpLasts | src/acfly_daemon/src/acfly_daemon_node.cpp:575-590 | after giving up, no run without manual intervention on the driver forks it again |
| SupervisorOrder.DependenciesStartFirst | src/acfly_daemon/src/acfly_daemon_node.cpp:274-283 | in runs without intervention, a process that ever started did so in a later tick than each of its dependencies |
| SupervisorOrder.CyclesNeverStart | src/acfly_daemon/src/acfly_daemon_node.cpp:604-614 | members of a dependency cycle, or waiting for something unknown or for such a process, never start |
| SupervisorOrder.SmoothTickInTime | src/acfly_daemon/src/acfly_daemon_node.cpp:617-641 | a tick in which nothing goes wrong brings every process one level further |
| SupervisorOrder.EveryoneRunsInTime | src/acfly_daemon/src/acfly_daemon_node.cpp:510-614 | with acyclic dependencies, topics present and nothing crashing, a process of depth k is running by tick k + 2 |
| Supervisor.AcflyDaemon.FindProcess | src/acfly_daemon/src/acfly_daemon_node.cpp:265-271 | the search loop finds the first entry of a name |
| Supervisor.AcflyDaemon.DependenciesRunning | src/acfly_daemon/src/acfly_daemon_node.cpp:274-283 | true exactly if every dependency exists and is running |
| Supervisor.AcflyDaemon.StartProcess | src/acfly_daemon/src/acfly_daemon_node.cpp:348-403 | a new child, or a failed fork counted as a crash |
| Supervisor.AcflyDaemon.RequestStop | src/acfly_daemon/src/acfly_daemon_node.cpp:406-417 | stopping, unless there is no child |
| Supervisor.AcflyDaemon.ForceKill | src/acfly_daemon/src/acfly_daemon_node.cpp:420-431 | killed and stopped, unless there is no child |
| Supervisor.AcflyDaemon.ReapChildren | src/acfly_daemon/src/acfly_daemon_node.cpp:434-469 | each reported child is dropped by the entry that tracks it, as a planned stop or a crash |
| Supervisor.AcflyDaemon.CheckStopTimeouts | src/acfly_daemon/src/acfly_daemon_node.cpp:472-483 | exactly the overdue stopping processes are killed |
| Supervisor.AcflyDaemon.HandleRestarts | src/acfly_daemon/src/acfly_daemon_node.cpp:486-507 | attempts in order of the entries |
| Supervisor.AcflyDaemon.CheckStarted | src/acfly_daemon/src/acfly_daemon_node.cpp:510-537 | confirmation, then backoff resets |
| Supervisor.AcflyDaemon.OdinHealthCb | src/acfly_daemon/src/acfly_daemon_node.cpp:542-546 | arms the check and notes the time; what every run keeps is kept |
| Supervisor.AcflyDaemon.CheckOdinHealth | src/acfly_daemon/src/acfly_daemon_node.cpp:551-601 | reset, kill or give up |
| Supervisor.AcflyDaemon.HandlePending | src/acfly_daemon/src/acfly_daemon_node.cpp:604-614 | starts in order of the entries |
| Supervisor.AcflyDaemon.OnTimer | src/acfly_daemon/src/acfly_daemon_node.cpp:617-641 | the six routines in their order; children stay accounted for, delays and counter in order, and a driver given up is not started |
| Supervisor.AcflyDaemon.ShutdownAll | src/acfly_daemon/src/acfly_daemon_node.cpp:692-733 | stop requests in reverse order, polling until quiet or the deadline, killing the rest; what every run keeps is kept |
| Supervisor.AcflyDaemon.HandleStart | src/acfly_daemon/src/acfly_daemon_node.cpp:736-765 | the new state, and success exactly if a child was started; what every run keeps is kept unless the process was still stopping or the daemon shut down |
| Supervisor.AcflyDaemon.HandleStop | src/acfly_daemon/src/acfly_daemon_node.cpp:768-793 | the new state, and success for all or for a live process; what every run keeps is kept |
| Supervisor.AcflyDaemon.HandleRestart | src/acfly_daemon/src/acfly_daemon_node.cpp:795-837 | the new state after stopping, waiting and starting again; what every run keeps is kept unless the daemon was shut down |
| Dialects.CollectGet | src/acfly_mavros/mavlink-gbp-release/doc/mavlink_xml_to_markdown.py:68-72 | of several definitions of a name in one file the last counts |
| Dialects.AddMissingGet | src/acfly_mavros/mavlink-gbp-release/doc/mavlink_xml_to_markdown.py:121-128 | merging adds what is missing and replaces nothing |
| Dialects.SortedGet | src/acfly_mavros/mavlink-gbp-release/doc/mavlink_xml_to_markdown.py:129-134 | sorting by key keeps what every name stands for |
| Dialects.MergeGet | src/acfly_mavros/mavlink-gbp-release/doc/mavlink_xml_to_markdown.py:117-150 | a merged table has ascending keys and, for a name, its own entry, otherwise the other's |
| Dialects.MergeOrder | src/acfly_mavros/mavlink-gbp-release/doc/mavlink_xml_to_markdown.py:117-150 | of entries with equal keys, own ones come first and then those of each merged table in turn, each name where it was defined first, in their order there |
| Dialects.IncludesAreNamed | src/acfly_mavros/mavlink-gbp-release/doc/mavlink_xml_to_markdown.py:62-67 | each include, in order, is the dialect its file name gives without the last four characters |
| Dialects.FlattenedIsLookup | src/acfly_mavros/mavlink-gbp-release/doc/mavlink_xml_to_markdown.py:1360-1439 | tables that are their own definitions before those of their includes, all the way down, are what recursive lookup finds |
| Dialects.LookupAnyDepth | src/acfly_mavros/mavlink-gbp-release/doc/mavlink_xml_to_markdown.py:1331-1439 | recursive lookup does not depend on the depth bound |
| Dialects.WithinIsReachable | src/acfly_mavros/mavlink-gbp-release/doc/mavlink_xml_to_markdown.py:1331-1358 | what following includes loads lies in every set of files around the roots that is closed under includes |
| Dialects.DepthBoundsDistance | src/acfly_mavros/mavlink-gbp-release/doc/mavlink_xml_to_markdown.py:1331-1358 | for include chains of at most m steps, m steps of following them reach everything |
| Dialects.CyclesAreNeverDone | src/acfly_mavros/mavlink-gbp-release/doc/mavlink_xml_to_markdown.py:1385-1394 | a dialect on an include cycle, or with an include that is not loaded, is never completed |
| XmlFiles.MAVXML.constructor | src/acfly_mavros/mavlink-gbp-release/doc/mavlink_xml_to_markdown.py:34-115 | includes, messages and commands of one file, ids and values ascending |
| XmlFiles.MAVXML.MergeIn | src/acfly_mavros/mavlink-gbp-release/doc/mavlink_xml_to_markdown.py:117-150 | merges messages and commands, ids and values ascending afterwards |
| XmlFiles.OneMoreDone | src/acfly_mavros/mavlink-gbp-release/doc/mavlink_xml_to_markdown.py:1396-1407 | merging all includes of a dialect completes it and leaves completed ones as they are |
| XmlFiles.XMLFiles.MergeAll | src/acfly_mavros/mavlink-gbp-release/doc/mavlink_xml_to_markdown.py:1396-1407 | the loop over a dialect's includes merges their tables in order, in place, and changes no other dialect |
| XmlFiles.NotAllWait | src/acfly_mavros/mavlink-gbp-release/doc/mavlink_xml_to_markdown.py:1430-1433 | where include chains are bounded, something unfinished can always be completed |
| XmlFiles.OnePassDeeper | src/acfly_mavros/mavlink-gbp-release/doc/mavlink_xml_to_markdown.py:1379-1439 | if dialects of depth k are done before a pass, those of depth k + 1 are done after it |
| XmlFiles.XMLFiles.ExpandOneIteration | src/acfly_mavros/mavlink-gbp-release/doc/mavlink_xml_to_markdown.py:1334-1354 | loads exactly the includes not loaded yet, in any order, and fails exactly if one has no file |
| XmlFiles.XMLFiles.ExpandIncludes | src/acfly_mavros/mavlink-gbp-release/doc/mavlink_xml_to_markdown.py:1331-1358 | loads exactly what is at most five includes away, and fails exactly if some of that has no file |
| XmlFiles.XMLFiles.Complete | src/acfly_mavros/mavlink-gbp-release/doc/mavlink_xml_to_markdown.py:1396-1407 | a dialect whose includes are done is flattened, in place, equal keys in the order of its includes |
| XmlFiles.MergedHasOrder | src/acfly_mavros/mavlink-gbp-release/doc/mavlink_xml_to_markdown.py:117-150 | in a completed dialect, entries of one key stand as in its own file and then as in each include in turn, each name where it is first defined |
| XmlFiles.AllDoneIsShallow | src/acfly_mavros/mavlink-gbp-release/doc/mavlink_xml_to_markdown.py:1360-1439 | if all loaded dialects are completed, they include nothing else and no chain of includes is longer than their number |
| XmlFiles.XMLFiles.UpdateOneIteration | src/acfly_mavros/mavlink-gbp-release/doc/mavlink_xml_to_markdown.py:1379-1434 | a pass completes at least what was ready before it and keeps everything completed flattened |
| XmlFiles.XMLFiles.UpdateIncludes | src/acfly_mavros/mavlink-gbp-release/doc/mavlink_xml_to_markdown.py:1360-1439 | succeeds exactly with every dialect completed, always does for chains of at most five includes, and never where an include is not loaded or a chain is a cycle |
| XmlFiles.XMLFiles.Build | src/acfly_mavros/mavlink-gbp-release/doc/mavlink_xml_to_markdown.py:1155-1178 | fails exactly if no dialect is asked for or a file within five includes is missing; on success everything included has been loaded, no chain of includes is a cycle, and every dialect, keys ascending, holds exactly what recursive lookup finds, entries of one key in the order of the dialect's file and then of its includes; chains of at most five includes always succeed |
| StoragePath.ValidateStoragePath | src/bag_logd/src/bag_logd_node.cpp:129-171 | the loops accept or refuse every path with the right reason |
| StoragePath.DenylistNeverMatches | src/bag_logd/src/bag_logd_node.cpp:155-167 | no path that reaches the list of system directories is on it |
| StoragePath.AcceptedPaths | src/bag_logd/src/bag_logd_node.cpp:129-171 | accepted exactly if absolute, without "..", with two components; stored as the joined components, which split into the same again |
| StoragePath.ValidationIsIdempotent | src/bag_logd/src/bag_logd_node.cpp:129-171 | validating the stored path changes nothing |
| StoragePath.NoiseIsIgnored | src/bag_logd/src/bag_logd_node.cpp:135-148 | extra slashes, "." components and a trailing slash change nothing about what is stored or why the path is refused |
| StoragePath.SameComponentsSamePath | src/bag_logd/src/bag_logd_node.cpp:150-170 | of two absolute paths with the same components, both are accepted and stored alike or both refused for the same reason |
| SliceNames.NameOrderIsTimeOrder | src/bag_logd/src/bag_logd_node.cpp:64-77 | lexicographic order of timestamps is order of times, before the year 10000 |
| SliceNames.CounterStaysWithinSecond | src/bag_logd/src/bag_logd_node.cpp:389-395 | a name with a counter lies between the bare name and every name of a later time |
| SliceNames.DecimalIsInjective | src/bag_logd/src/bag_logd_node.cpp:393-395 | different counters give different names |
| SliceNames.FreshName | src/bag_logd/src/bag_logd_node.cpp:389-395 | for any directory the collision loop ends, with the first name that is not taken |
| RecorderModel.StartIsConsistent | src/bag_logd/src/bag_logd_node.cpp:265-291 | the node starts consistent, with or without arm mode, bag opened or not |
| RecorderModel.StepKeepsConsistent | src/bag_logd/src/bag_logd_node.cpp:411-567 | every callback keeps: recording if and only if a writer is open if and only if a slice is named; only while wanted; a retry pending whenever wanted but not happening; rotation running while recording |
| RecorderModel.RunIsConsistent | src/bag_logd/src/bag_logd_node.cpp:411-646 | the same over every run |
| RecorderModel.RetryRecovers | src/bag_logd/src/bag_logd_node.cpp:486-521 | in every run, whenever recording is wanted and not happening, a retry brings it back, under a name that was not taken, if and only if the bag opens and the disk is not found too full; finding it so changes nothing |
| RecorderModel.RetryFails | src/bag_logd/src/bag_logd_node.cpp:486-521 | a retry with nothing to do stops its timer only; one that fails changes nothing but for a directory left behind |
| RecorderModel.ArmingCleans | src/bag_logd/src/bag_logd_node.cpp:525-566 | arming with cleanup leaves the new slice alone, without it adds the new slice to the others |
| RecorderModel.ArmingFails | src/bag_logd/src/bag_logd_node.cpp:525-566 | arming whose bag does not open is rolled back with a retry pending; disarming ends recording and rotation and keeps all slices |
| RecorderModel.StartIsIdle | src/bag_logd/src/bag_logd_node.cpp:265-291 | with arm mode nothing happens at the start; without it recording or a retry begins |
| RecorderModel.RotationKeepsSlices | src/bag_logd/src/bag_logd_node.cpp:448-472 | in every run, a rotation that works while recording leaves all slices and goes on in a new one |
| RecorderModel.NoSliceIsReopened | src/bag_logd/src/bag_logd_node.cpp:374-521 | in every run in which nothing is deleted, slices only come to be added, and the names of all slices opened differ from each other and from those there before |
| RecorderModel.InactiveSlices | src/bag_logd/src/bag_logd_node.cpp:589-617 | the sorted list holds exactly the slices but the active one |
| RecorderModel.ReclaimsOldestFirst | src/bag_logd/src/bag_logd_node.cpp:572-646 | for any disk readings: a disk check changes nothing unless it is recording and the first reading is from 0 to below the minimum; then the i-th oldest inactive slice goes if and only if every reading up to the one before it was so too; recording stops if the last reading still is; the active slice stays |
| RecorderModel.DeletesShortestPrefix | src/bag_logd/src/bag_logd_node.cpp:572-646 | where only deletions change the free space, a disk check with any first reading deletes exactly the fewest oldest slices that leave enough room, or all, provided it is recording and that reading is too low, and recording goes on unless all are not enough |
| RecorderModel.SlicesDisappear | src/bag_logd/src/bag_logd_node.cpp:525-646 | in every run a slice disappears only in a disk check that was recording, not of it, and whose first reading was too low, or by arming with cleanup |
| RecorderModel.DeletedAreOlder | src/bag_logd/src/bag_logd_node.cpp:616-628 | nothing deleted is from a later time than anything kept |
| FlightRecorder.BagRecorderNode.OpenNewBag | src/bag_logd/src/bag_logd_node.cpp:374-408 | a new slice under the first free name, or no writer and no name if opening throws |
| FlightRecorder.BagRecorderNode.CloseWriter | src/bag_logd/src/bag_logd_node.cpp:411-423 | no writer and no name |
| FlightRecorder.BagRecorderNode.RotateBag | src/bag_logd/src/bag_logd_node.cpp:448-472 | close and open, or a retry; keeps the node consistent |
| FlightRecorder.BagRecorderNode.RetryOpenBag | src/bag_logd/src/bag_logd_node.cpp:486-521 | done, not wanted, deferred for space, recovered or still failing; keeps the node consistent |
| FlightRecorder.BagRecorderNode.ArmStateCb | src/bag_logd/src/bag_logd_node.cpp:525-567 | arming, failed arming rolled back, disarming; keeps the node consistent |
| FlightRecorder.BagRecorderNode.DiskCheckCb | src/bag_logd/src/bag_logd_node.cpp:572-646 | listing in any order, sorting, deleting, stopping when space stays low; keeps the node consistent |
| FlightRecorder.BagRecorderNode.CleanupOldBags | src/bag_logd/src/bag_logd_node.cpp:650-679 | in automatic mode everything but the active slice goes |
| ClockStatistics.TimeSyncNode.TimeRefCb | src/timesync/src/time_sync_node.cpp:122-142 | each sample is the difference of the clocks, half the round trip added if that is plausible; the window is always the newest samples, as many as a positive window size allows |
| ClockStatistics.TimeSyncNode.GetSmoothedOffsetMs | src/timesync/src/time_sync_node.cpp:376-397 | below ten samples the result, times their number, is their sum; from ten on there is an ascending arrangement of the samples of which, without a tenth at each end, the same holds |
| ClockStatistics.SmoothedIsMean | src/timesync/src/time_sync_node.cpp:376-397 | the same of the function of the window |
| ClockStatistics.SumAddsUp | src/timesync/src/time_sync_node.cpp:382-396 | the sum of one sample is the sample, and sums of parts add up |
| ClockStatistics.TimeSyncNode.GetMedianOffsetNs | src/timesync/src/time_sync_node.cpp:400-408 | the middle, of two the larger, of an ascending arrangement of the samples |
| ClockStatistics.AtLeastFrom | src/timesync/src/time_sync_node.cpp:387-394 | with at most k samples below a value, the sorted sample at k is not below it |
| ClockStatistics.SmoothedIsRobust | src/timesync/src/time_sync_node.cpp:387-397 | with at most a tenth of ten or more samples outside a range, the trimmed mean is inside it |
| ClockStatistics.SmoothedBreaks | src/timesync/src/time_sync_node.cpp:387-397 | with more outliers it can be outside |
| ClockStatistics.MedianIsRobust | src/timesync/src/time_sync_node.cpp:400-408 | with fewer than half of the samples, rounded up, outside a range, the median is inside it |
| ClockStatistics.MedianBreaks | src/timesync/src/time_sync_node.cpp:400-408 | with as many or more it can be any larger value |
| MagneticField.InterpolateTable | src/acfly_mavros/mavlink-gbp-release/pymavlink/mavextra.py:1305-1326 | the value of the cell around the point, with all table accesses in bounds |
| MagneticField.IndicesFit | src/acfly_mavros/mavlink-gbp-release/pymavlink/mavextra.py:1307-1319 | for every point in bounds the indices fit a table of 19 by 37 and the point lies in that cell |
| MagneticField.WithinCorners | src/acfly_mavros/mavlink-gbp-release/pymavlink/mavextra.py:1315-1326 | the result lies between the smallest and the largest corner |
| MagneticField.ExactAtGrid | src/acfly_mavros/mavlink-gbp-release/pymavlink/mavextra.py:1305-1326 | at sampling points the result is the table's entry |
| MagneticField.CornersAreWeighted | src/acfly_mavros/mavlink-gbp-release/pymavlink/mavextra.py:1321-1325 | inside a cell each corner counts by how near the point is to it in latitude and in longitude |
| MagneticField.CellsAgreeOnEdges | src/acfly_mavros/mavlink-gbp-release/pymavlink/mavextra.py:1321-1325 | formulas of neighbouring cells agree on their common edge |
| MagneticField.FieldIsLipschitz | src/acfly_mavros/mavlink-gbp-release/pymavlink/mavextra.py:1305-1326 | over the whole range, the field changes by at most the largest step between neighbouring entries for each ten degrees |
| MagneticField.Tables.GetMagFieldEf | src/acfly_mavros/mavlink-gbp-release/pymavlink/mavextra.py:1335-1353 | all three values exactly for points in bounds, and the declination remembered |
| CovarianceReset.OdomGravityAlignNode.TimerCb | src/acfly_odometry/src/acfly_odometry_node.cpp:158-341 | skipping, counting, resetting, suppressing and publishing |
| CovarianceReset.StepIsPaid | src/acfly_odometry/src/acfly_odometry_node.cpp:203-231 | one callback keeps: resets times (bound + 1) plus the counter is at most the degraded frames counted |
| CovarianceReset.ResetsAreAmortised | src/acfly_odometry/src/acfly_odometry_node.cpp:181-340 | over every run: the same bound, resets further apart than the cooldown, published stamps strictly increasing |
| CovarianceReset.PublishesUnlessSuppressed | src/acfly_odometry/src/acfly_odometry_node.cpp:181-340 | in every run, a callback publishes its frame if and only if the frame is newer than what was published and more than a second has passed since every reset so far; the cooldown is not negative, or the clock does not go back |
| CovarianceReset.CountIsHighestBalance | src/acfly_odometry/src/acfly_odometry_node.cpp:196-212 | in every run the counter is the highest excess of bad over good frames of any stretch up to now since the last reset, where a frame is bad if one of three position or three attitude covariances is above its threshold |
| CovarianceReset.ResetsExactly | src/acfly_odometry/src/acfly_odometry_node.cpp:203-231 | in every run a callback triggers a reset if and only if it looks at its frame, some stretch since the last reset up to it has more than the bound more bad frames than good ones, the cooldown has passed and the file can be opened |
| Sorting.SortAscends | src/timesync/src/time_sync_node.cpp:388-389 | sorting orders |
| Sorting.SortPermutes | src/timesync/src/time_sync_node.cpp:388-389 | sorting loses and adds nothing |
| Sorting.SortIsStable | src/acfly_mavros/mavlink-gbp-release/doc/mavlink_xml_to_markdown.py:130-134 | elements that compare equal keep their order |

## Left out

DataFlash logs

- Float and double fields are kept as bytes. Of units, only whether a column has one is kept, since set_mult_ids depends on it; the names of units and the multipliers are not.
- DataFlashReader.DFReaderBinary.InitArrays: logs in which a FMTU record marks a column of FMT itself, if the pass then parses a FMT record whose format cannot be built; what it parses instead is in the parser's model but not predicted.
- DataFlashReader.DFReaderBinary.ReadMatching: what a reader finds in place of a FMT record that is wanted and whose format cannot be built; other types are read whatever FMT records announce.
- DataFlashReader.DFReaderBinary.ReadAll: what a scan finds in place of a FMT record whose format cannot be built, what it finds after it, and whether it ends.
- DataFlashLayouts.UsualRaises: the usual layouts are those of ArduPilot firmware, which is not part of this model; the general condition is DataFlashIndex.RaisesAt.
- How many re-entries of `_parse_next` the interpreter's stack allows is a parameter; it does not matter on well-formed logs.
- Native sizes in set_instance_field are those of a 64-bit Linux system, and strings are searched as Python 3 does, where bytes have no `find` for text.
- Text that is not ASCII: bytes and characters correspond one to one.
- The clock, the dictionary of latest messages, `condition` and `blocking` of `recv_match`, progress callbacks.
- `init_arrays_fast` and its compiled indexer, which take the place of `init_arrays` where they are built, and malformed logs for the index; the parser is modelled on all bytes.
- FMT records that give a length or type outside a byte count as an exception of the index pass, and in the parser as formats that cannot be built if one of the two is negative or no integer.
- DataFlashReader.DFReaderBinary.RecvMatch: the selected types stay fixed between rewinds, as the callers keep them.

Pairing

- Pairing.MultiSensorPublisher.TryProcessPair: frames do not arrive during a call; head comparison and removal are separate critical sections in the driver. Over several calls optimality is stated for sessions without evictions.
- Colouring, publishing and logging of a pair.

Log writer

- Write errors of an open file; file rotation and the image and cloud writers around it.

Supervisor

- SupervisorChildren.NoRunLosesChildren: runs in which a person starts a process that is still stopping are excluded; what such a start does is stated exactly by StartKeepsUnlessStopping.
- SupervisorPolicy.BackoffLaw: the sum of delays needs a clock that has not gone back; the delay itself does not.
- SupervisorOrder.DependenciesStartFirst: only runs of timer callbacks and odometry messages, since manual starts ignore dependencies.
- `kill_zombie`, log files, the child's side of fork, exit codes and reasons, published status.
- Each routine reads the clock once; several readings within one routine are taken to agree.
- After shutdown_all, processes that were waiting for a restart are still marked RESTARTING; only the absence of pids is claimed.

Includes

- Merging of enumerations, whose objects are shared between dialects.
- Commands without a value, which cannot be sorted with others.
- Dialect names that contain a slash, for which the file's base name differs from the dialect's key.
- XmlFiles.XMLFiles.UpdateIncludes: whether longer chains are merged within five passes, where everything is loaded and there are no cycles, depends on the order of the dictionary and is not predicted.
- Markdown generation.

Recorder

- `ensure_storage_dir`, the inside of `remove_dir`, symbolic links in the storage directory, and the choice between clock and directory time for a slice's name, which is an input.
- Callbacks that overlap; they share one thread.
- SliceNames.CounterStaysWithinSecond: nothing is said about the order of counters within a second, where 10 sorts before 2.
- Messages written to a bag, subscriptions and the configuration file.

Clock statistics, magnetic field and covariance

- Rounding of floating-point numbers, overflow of 64-bit sums and NaN.
- Clock stepping and slewing, status messages and the synchronisation state machine.
- Attitude fusion, transforms and the covariance diagnostics message.

The rest of the repository (drivers, launch files, user interfaces, code generators, plotting) is not part of this model.
