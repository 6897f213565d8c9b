# A Dafny model of mtop's logic

mtop is a terminal monitor for macOS. Around its curses screen and its Mach calls it has several cores of
plain logic, and these files model them and prove what they keep.

* **Snapshot output.** `JsonWriter` is a pushdown machine: an output text, a stack of "first" flags and an
  "expecting a value" flag. `Json.dfy` says what a JSON value is and which text the program writes for it,
  `JsonParser.dfy` is a reference parser written from RFC 8259 (sections 4 to 7), `JsonRoundTrip.dfy` proves
  that the parser undoes the text, `JsonUtf8.dfy` says when the text is well-formed UTF-8, and `JsonWriter.dfy`
  proves that the machine, in any legal state, appends exactly the text of each value tree. `Snapshot.dfy` and `SnapshotJson.dfy` carry this to the whole snapshot
  document, `SnapshotSession.dfy` to the JSON Lines output of whole runs, and `DocumentFields.dfy` says what a reader
  finds under each name.
* **The process table.** `ProcessOrder.dfy` is the comparator with its eight modes and two directions,
  `ProcessTree.dfy` the depth-first walk of tree mode with its sweep, `ProcessTreeFacts.dfy` what the rows are
  for any parent links and any collapsed pids, `ProcessView.dfy` the table around it: filter, paging, search,
  `SortedTable.dfy` which column the rows follow and from which end, and `ProcessAncestry.dfy` how depth relates to
  the true ancestors of a process.
* **powermetrics.** `Columns.dfy` splits a row and repairs merged numbers, `NumericFields.dfy` says which fields are
  numbers, `TaskTable.dfy` scans a whole task
  table and derives the core mix, `RootMetricsProtocol.dfy` is the thread that collects and the sampler that
  copies, as a state machine over all interleavings.
* **Terminal input.** `InputDecoder.dfy` decodes keys, ECMA-48 control sequences (section 5.4) and xterm mouse
  reports (mode 1006) from a stream with push-back; `InputConverse.dfy` proves that nothing else decodes to them.
* **AI workloads.** `WorkloadDetector.dfy` is the detection cascade, `WorkloadModel.dfy` the grouping,
  `WorkloadFacts.dfy` what grouping keeps, `WorkloadPartition.dfy` who belongs together, `AiProcessRows.dfy` the
  process list beside it.
* **History, configuration, memory.** `History.dfy` resamples a history and fills the plot, `Config.dfy` loads
  and persists the configuration file, `ConfigSettings.dfy` says what each line sets, `MemoryRiskModel.dfy` feeds memory pressure into memory risk.

`Text.dfy`, `Numbers.dfy`, `Arithmetic.dfy`, `Sequences.dfy`, `FiniteSets.dfy` and `Sorting.dfy` are shared.

A C++ string is a sequence of `char` values below 256, one for each byte. Doubles are reals with a sign,
infinities and not-a-number. 64-bit counters wrap around where the program adds them. Objects that the program
updates in place are classes; their methods are proved against functions, and the lemmas are about these.

Where the program does not do what one would expect of it, the model follows the program and says when it does:

* Collapsing a process in tree mode hides nothing. Its children are drawn at depth zero instead
  (`CollapsingHidesNothing`, `ChildrenOfCollapsedAtTop`).
* Depth in the tree is the number of ancestors that pass the filter exactly when none of them stands above an
  ancestor that the filter removed and none below that one is collapsed (`DepthCountsPassingAncestorsIff`); a hidden parent makes its child a root
  although its grandparent is shown (`HiddenParentCutsDepth`).
* The comparator can receive a not-a-number, although the Darwin sampler never makes one
  (src/platform/darwin_sampler.cpp:931-954). It then meets the requirement of `std::sort` exactly when all keys
  are numbers or at most one is (`WeakOrderIff`, with an input in `NaNBreaksTheOrder`); in the AI list exactly
  when no not-a-number stands in a band with two numbers (`AiWeakOrderIff`).
* A mouse report whose numbers fit an int is decoded exactly when its payload has at most 31 bytes
  (`DecodeMouseReport`).
* After an escape that the decoder makes nothing of, an unknown sequence or a malformed mouse report, the keys
  behind it are kept exactly when one of the next two reads is a pause (`KeysKeptIffPause`). Two unknown keys are
  swallowed (`EscapeSwallowsTwo`), and a malformed mouse report always loses keys.
* Escaping passes bytes from 0x80 up through, so the text is well-formed UTF-8 exactly when its strings are
  (`TextUtf8Iff`).
* Splitting alone recovers the columns of a row exactly when all gaps are wide (`SplitRecoversIffWide`).
* The two percentages of a core mix need not add up to 100; the exact condition is `PercentagesAddUpIff`.
* Resampling covers the window without overlap exactly when there are no more buckets than samples
  (`SlicesPartitionWindow`); a plot of one column that receives data is written past its end
  (`PopulateNvtopPlotData`).
* A persisted profile is the loaded one exactly when no later line sets another (`PersistedProfileLoaded`).
* An Ollama runner shares its manager's workload exactly when the manager's own parent is no detected Ollama
  manager with a smaller pid (`RunnerJoinsManager`).
* Memory risk is monotone while no 64-bit sum wraps around (`RiskMonotone`); with a wrapped sum it need not be
  (`OverflowBreaksMonotonicity`).

## Model

| member | source | states |
|---|---|---|
| `JsonRoundTrip.ParseTextOf` | src/snapshot_json.cpp:15-107 | RFC 8259 parsing reads every value tree of any depth back from the writer's text, with nothing left over |
| `JsonRoundTrip.ParseText` | src/snapshot_json.cpp:91-102 | The same with any following text that starts with a closing or separating token, which is left unread |
| `JsonRoundTrip.ParseEscaped` | src/snapshot_json.cpp:336-358 | Unescaping by RFC 8259 section 7 undoes the program's escaping for every byte string |
| `JsonRoundTrip.EscapeForms` | src/snapshot_json.cpp:336-358 | Which bytes take two characters, which six, and which stand as they are |
| `JsonRoundTrip.EscapeKeepsIff` | src/snapshot_json.cpp:336-358 | Escaping changes a text exactly when it holds a control character, a quotation mark or a reverse solidus |
| `JsonRoundTrip.ParseNumberText` | src/snapshot_json.cpp:55-75 | Written integers and three-decimal numbers parse back to sign, digits and exponent |
| `JsonRoundTrip.TextInjective` | src/snapshot_json.cpp:15-107 | Different values never have the same text |
| `Json.TextIsCompact` | src/snapshot_json.cpp:82-102 | No blank stands between tokens |
| `JsonWriting.CallsAttachValue` | src/snapshot_json.cpp:15-107 | In any legal writer state that takes a value, the calls for a tree add exactly that tree and return to the same containers |
| `JsonWriting.CallsAppendText` | src/snapshot_json.cpp:82-102 | Those calls append the needed comma and the tree's text and nothing else, and leave every open container marked non-empty |
| `JsonWriting.RenderAttach` | src/snapshot_json.cpp:82-102 | One attached value extends the text by its separator and text |
| `JsonWriting.RenderClose` | src/snapshot_json.cpp:17-37 | Closing a container completes the text of its value |
| `JsonWriting.DoubleOfIsClose` | src/snapshot_json.cpp:65-75 | A finite double is written within half a thousandth of its value and keeps its sign |
| `JsonWriting.JsonEscape` | src/snapshot_json.cpp:336-358 | The appending loop computes the escape that `ParseEscaped` inverts |
| `JsonWriting.JsonWriter.ValuePrefix` | src/snapshot_json.cpp:91-102 | Writes the comma exactly when the place needs one and clears the pending key |
| `JsonWriting.JsonWriter.BeginObject` | src/snapshot_json.cpp:17-21 | Takes the step of the abstract machine; text, flag stack and flag keep representing its state |
| `JsonWriting.JsonWriter.EndObject` | src/snapshot_json.cpp:23-26 | Likewise for closing an object |
| `JsonWriting.JsonWriter.BeginArray` | src/snapshot_json.cpp:28-32 | Likewise for opening an array |
| `JsonWriting.JsonWriter.EndArray` | src/snapshot_json.cpp:34-37 | Likewise for closing an array |
| `JsonWriting.JsonWriter.Key` | src/snapshot_json.cpp:39-43 | Likewise for a member name, with its comma |
| `JsonWriting.JsonWriter.StringValue` | src/snapshot_json.cpp:45-48 | Likewise for an escaped string |
| `JsonWriting.JsonWriter.DoubleValue` | src/snapshot_json.cpp:65-75 | Likewise for a double; a non-finite one is 0.000 |
| `JsonWriting.PlayCalls` | src/snapshot_json.cpp:15-107 | Every legal call sequence of the abstract machine is a run of the writer object, call by call |
| `JsonWriting.JsonWriter.ToString` | src/snapshot_json.cpp:77-79 | When everything is closed the text is the text of one value |
| `SnapshotJson.SnapshotToJson` | src/snapshot_json.cpp:360-453 | The document is the text of one value tree, member by member in the program's order |
| `SnapshotJson.WriteMembers` | src/snapshot_json.cpp:109-332 | Key and value calls for a list of members add exactly these members to the open object |
| `SnapshotJson.FinishedRunReadsBack` | src/snapshot_json.cpp:15-107 | Any legal call sequence on a fresh writer that closes what it opened leaves a text that parses to its value |
| `JsonUtf8.TextUtf8Iff` | src/snapshot_json.cpp:336-358 | A text is well-formed UTF-8, as section 8.1 of RFC 8259 asks, exactly when all its strings and names are |
| `JsonUtf8.EscapeUtf8` | src/snapshot_json.cpp:336-358 | Escaping neither makes nor breaks well-formed UTF-8 |
| `SnapshotJson.DocumentReadsBack` | src/snapshot_json.cpp:360-453 | Every snapshot document is one line and parses back to its tree |
| `DocumentFields.DocumentHolds` | src/snapshot_json.cpp:360-453 | The parsed document holds exactly the members of its head, its body and, when asked for, its tail |
| `DocumentFields.BodyFields` | src/snapshot_json.cpp:374-444 | Each section stands under its name; the process list has one item for each process, in order |
| `DocumentFields.HeadFields` | src/snapshot_json.cpp:363-373 | Schema version, profile and the two times |
| `DocumentFields.TailFields` | src/snapshot_json.cpp:445-448 | Risk and one item for each workload, in order |
| `DocumentFields.SubsectionFields` | src/snapshot_json.cpp:222-257 | The three parts of the I/O section, and the ANE section |
| `DocumentFields.CpuLists` | src/snapshot_json.cpp:120-162 | One item for each core and each cluster, in order |
| `DocumentFields.PidAndProcessLists` | src/snapshot_json.cpp:209-214 | One item for each active pid, and for each process of a workload, in order |
| `DocumentFields.MemoryFieldsA` | src/snapshot_json.cpp:164-196 | The first memory counts, each under its own name |
| `DocumentFields.MemoryFieldsB` | src/snapshot_json.cpp:164-196 | The next four |
| `DocumentFields.MemoryFieldsC` | src/snapshot_json.cpp:164-196 | The swap counts |
| `DocumentFields.MemoryFieldsD` | src/snapshot_json.cpp:164-196 | The pressure and its status |
| `DocumentFields.GpuFieldsA` | src/snapshot_json.cpp:198-220 | GPU use and memory |
| `DocumentFields.GpuFieldsB` | src/snapshot_json.cpp:198-220 | GPU power, frequency and status |
| `DocumentFields.RiskFieldsA` | src/snapshot_json.cpp:259-277 | Level, reason, headroom and reclaimable bytes |
| `DocumentFields.RiskFieldsB` | src/snapshot_json.cpp:259-277 | Compressed and swapped bytes and the swap rate |
| `DocumentFields.ProcessFieldsA` | src/snapshot_json.cpp:411-443 | Pids, name and command of a process |
| `DocumentFields.ProcessFieldsB` | src/snapshot_json.cpp:411-443 | User, state and percentages |
| `DocumentFields.ProcessFieldsC` | src/snapshot_json.cpp:411-443 | Bytes, GPU use and core mix |
| `DocumentFields.WorkloadFieldsA` | src/snapshot_json.cpp:279-332 | Id, name and kind of a workload |
| `DocumentFields.WorkloadFieldsB` | src/snapshot_json.cpp:279-332 | Hint, percentages and resident bytes |
| `DocumentFields.HostFields` | src/snapshot_json.cpp:374-386 | The host section |
| `DocumentFields.CapabilityFields` | src/snapshot_json.cpp:387-401 | The capability statuses |
| `DocumentFields.EventFields` | src/snapshot_session.cpp:16-39 | What the three events of a session hold |
| `DocumentFields.SessionIs` | src/snapshot_session.cpp:9-14 | A session is named after its start |
| `SnapshotSession.StartIsEvent` | src/snapshot_session.cpp:16-21 | The concatenated start text is the text of a start event object |
| `SnapshotSession.SnapshotIsEvent` | src/snapshot_session.cpp:23-29 | A document is wrapped as a value; a text that is no object becomes null |
| `SnapshotSession.EndIsEvent` | src/snapshot_session.cpp:31-39 | The end text is an end event whose duration is floored at zero |
| `SnapshotSession.RunSnapshotMode` | src/main.cpp:666-725 | The loop writes exactly the lines of a run with the right number of snapshots and returns the right exit code, for any interrupt |
| `SnapshotSession.OutputSplitsIntoEvents` | src/main.cpp:681-725 | Splitting the output on newlines gives the events of the run, each a complete JSON text |
| `SnapshotSession.InterruptionKeepsPrefix` | src/main.cpp:691-721 | An uninterrupted session has max(1, count) or one snapshot; an interrupted one is a prefix of it, closed by the same end event |
| `SnapshotSession.LaterInterruptOnlyAdds` | src/main.cpp:691-721 | The same for any two interrupts, also of a run without a limit |
| `Sorting.SortSorts` | src/process_sort.cpp:71-108 | What std::sort gives under a strict weak order |
| `Sorting.SortedUnique` | src/process_sort.cpp:71-108 | Under a strict total order there is one sorted permutation, so the algorithm does not matter |
| `ProcessOrder.Trichotomy` | src/process_sort.cpp:71-108 | Of two pids exactly one comes first, if and only if neither key is not-a-number |
| `ProcessOrder.Transitive` | src/process_sort.cpp:71-108 | The order is transitive in all modes and directions |
| `ProcessOrder.TotalOrderIff` | src/process_sort.cpp:71-108 | With distinct pids the comparator is a strict total order exactly when no key is not-a-number or there is at most one process |
| `ProcessOrder.WeakOrderIff` | src/process_sort.cpp:71-108 | With distinct pids it meets the requirement of std::sort exactly when all keys are numbers or at most one is |
| `ProcessOrder.NaNBreaksTheOrder` | src/process_sort.cpp:71-108 | A concrete list with one not-a-number on which it is not even a strict weak order |
| `ProcessOrder.MissingComesLast` | src/process_sort.cpp:34-59 | Missing and non-finite I/O and power values sort after finite ones in both directions |
| `ProcessOrder.OrderOfSamplesIrrelevant` | src/main.cpp:933-945 | The sorted list does not depend on the order of the samples |
| `SortedTable.LessIffColumnOrder` | src/process_sort.cpp:71-108 | For all eight modes: the comparator puts one process before another exactly when the named field is smaller for a positive direction, larger otherwise, or equal with a smaller pid; missing cells come last |
| `SortedTable.FlatTableInColumnOrder` | src/main.cpp:937-945 | Any two rows of the flat table stand in this order |
| `SortedTable.TreeSiblingsInColumnOrder` | src/main.cpp:953-969 | So do siblings of the tree, and the roots |
| `Text.StringLessIsAlphabetical` | src/process_sort.cpp:61-67 | Texts are compared by the first different byte, a prefix coming first |
| `ProcessTree.Visit` | src/main.cpp:970-988 | The walk ends for any links; its measure is the set of pids not yet visited |
| `ProcessTree.TreeBuilder.Dfs` | src/main.cpp:970-988 | The recursive walk over rows and visited set appends exactly the specified rows |
| `ProcessTree.BuildTreeRows` | src/main.cpp:947-996 | The tree branch computes the specified rows, roots first, then the sweep |
| `ProcessTreeFacts.EveryPidOnce` | src/main.cpp:947-996 | Every filtered pid is shown exactly once, for cycles, self-parents, missing parents and any collapsed set |
| `ProcessTreeFacts.EveryProcessOnce` | src/main.cpp:947-996 | With distinct pids the rows are a permutation of the filtered processes |
| `ProcessTreeFacts.RowsArePreorder` | src/main.cpp:970-988 | Every indented row has its parent row above it, one level up, with nothing shallower between |
| `ProcessTreeFacts.RowFlags` | src/main.cpp:975-981 | A row has children exactly when some filtered process names it as parent, and is collapsed exactly when it also stands in the collapsed set |
| `ProcessTreeFacts.SiblingsInTableOrder` | src/main.cpp:953-969 | Rows under one parent stand in the table's order, and so do the roots |
| `ProcessTreeFacts.DrawnAsRootIff` | src/main.cpp:959-968 | With positive pids the rows that the roots draw at depth zero are exactly the processes without a shown parent |
| `ProcessTreeFacts.RootsInTableOrder` | src/main.cpp:959-968 | For any pids a process without a parent is drawn by the roots' walk, and no depth-zero row above it belongs behind it |
| `ProcessTreeFacts.DepthIsPassingChainIff` | src/main.cpp:953-996 | With acyclic links and positive distinct pids, depth is at most the length of the unbroken chain of passing parents, and equal exactly when none of them is collapsed |
| `ProcessAncestry.DepthCountsPassingAncestorsIff` | src/main.cpp:953-996 | For any collapsed set, depth is the number of all ancestors that pass the filter exactly when none stands above a filtered-out one and none below it is collapsed |
| `ProcessAncestry.HiddenParentCutsDepth` | src/main.cpp:961-964 | Three generations of which the filter removes the middle one: the row has depth zero and one ancestor that passes |
| `ProcessAncestry.ThirdGenerationIsShown` | src/main.cpp:990-996 | And there is such a row |
| `ProcessTreeFacts.NothingBelowCollapsed` | src/main.cpp:978-981 | No row is indented under a process of the collapsed set |
| `ProcessTreeFacts.CollapsingHidesNothing` | src/main.cpp:978-996 | The pids shown do not depend on what is collapsed |
| `ProcessTreeFacts.ChildrenOfCollapsedAtTop` | src/main.cpp:990-996 | Children of a process of the collapsed set are drawn at depth zero |
| `ProcessView.BuildProcessRows` | src/main.cpp:924-998 | Filter, then tree rows or the sorted flat rows |
| `ProcessView.MatchesIff` | src/main.cpp:880-888 | A process passes the filter exactly when the query stands, in any case, in its user, name or command |
| `ProcessView.BothModesShowTheSame` | src/main.cpp:924-998 | Tree and flat mode show the same processes, once each |
| `ProcessView.FlatTableIgnoresSampleOrder` | src/main.cpp:933-945 | The flat table is the same for every order of the samples |
| `ProcessView.TreeSiblingsInSortOrder` | src/main.cpp:953-969 | Siblings, and the rows at depth zero drawn from the roots, are ordered by the chosen sort mode |
| `ProcessView.UiState.SelectedProcessIndex` | src/main.cpp:1021-1031 | The first row of the selected pid, or -1 |
| `ProcessView.UiState.CalculateProcessMetrics` | src/main.cpp:1095-1116 | The page is in range, shows the selected row, and moves only when it must |
| `ProcessView.UiState.ApplySearchRequest` | src/main.cpp:1054-1073 | Selects the cyclically next match, the current row last; without a match the selection stays and a message is set |
| `ProcessView.SameDistance` | src/main.cpp:1065-1071 | No row is probed twice |
| `Columns.SplitMultiSpace` | src/root_metrics_parser.cpp:26-50 | The character loop computes the specified split |
| `Columns.SplitNumericSubfields` | src/root_metrics_parser.cpp:94-108 | A field splits exactly when it has at least two words and all are numeric, and then into its words |
| `Columns.SplitMergedNumericFields` | src/root_metrics_parser.cpp:110-131 | The repair loop ends and computes the specified repair |
| `ColumnFacts.SplitKeepsWords` | src/root_metrics_parser.cpp:26-50 | The words of the fields, in order, are the words of the line |
| `ColumnFacts.RepairKeepsWords` | src/root_metrics_parser.cpp:110-131 | Repairing loses no word and stops at the width or when nothing is splittable |
| `ColumnFacts.RecoveryKeepsWords` | src/root_metrics_parser.cpp:110-131 | Both stages are lossless for any line and any width |
| `ColumnFacts.RepairExpands` | src/root_metrics_parser.cpp:110-131 | Asked for the width of the full expansion, the repair yields exactly it and never overshoots |
| `ColumnFacts.SplitRecoversIffWide` | src/root_metrics_parser.cpp:26-50 | Splitting alone recovers the columns exactly when every gap has two spaces or more |
| `ColumnFacts.RecoveryYieldsColumns` | src/root_metrics_parser.cpp:94-131 | When one-space gaps stand only between numbers and no column is a list of numbers, recovery yields exactly the columns |
| `NumericFields.NumericIffNotForeign` | src/root_metrics_parser.cpp:74-92 | A word is a number exactly when it has digits, points, signs and exponent letters only, and a digit |
| `NumericFields.SplitIffNumbers` | src/root_metrics_parser.cpp:94-108 | A field is split exactly when it has two words or more and each is such a number |
| `NumericFields.DecimalIsNumber` | src/root_metrics_parser.cpp:74-92 | Every decimal text, with sign, point and exponent, is one |
| `NumericFields.DecimalRowsAreRecovered` | src/root_metrics_parser.cpp:94-131 | Rows whose one-space gaps stand only between decimal texts are recovered exactly |
| `TaskTable.ExpandAmpHeader` | src/root_metrics_parser.cpp:133-153 | The loop computes the columns that the header fields name |
| `TaskTable.MergedPercentColumnSplits` | src/root_metrics_parser.cpp:142-149 | Two header columns merged by one space are told apart when the second is a percentage |
| `TaskTable.ListedColumns` | src/root_metrics_parser.cpp:133-149 | The fields that list columns in parentheses become those columns; a field without a percent sign is one |
| `TaskTable.ParseAmpData` | src/root_metrics_parser.cpp:157-245 | The line loop gives every pid the core mix of the tasks that the scan finds |
| `TaskTable.PercentagesAddUpIff` | src/root_metrics_parser.cpp:238-245 | Exactly when the two rounded percentages of a core mix, fitting an int, add up to 100 |
| `TaskTableFacts.StepReadsRow` | src/root_metrics_parser.cpp:185-201 | A readable row is accepted with its cells in place |
| `TaskTableFacts.TableReadsBack` | src/root_metrics_parser.cpp:163-201 | A whole report, with anything before the marker and after the end line, reads back to exactly the tasks of its rows |
| `TaskTableFacts.CellUnderName` | src/root_metrics_parser.cpp:190-193 | With distinct names every cell is the column under its name |
| `TaskTableFacts.LastRowWins` | src/root_metrics_parser.cpp:245 | A pid's core mix comes from its last row |
| `TaskTableFacts.TaskIff` | src/root_metrics_parser.cpp:194-201 | A row of the right width is a task exactly when its ID, or else its PID, starts like a positive number |
| `TaskTableFacts.MixSource` | src/root_metrics_parser.cpp:203-245 | Which cells the share comes from, the labels, and both percentages as nearest integers |
| `TaskTableFacts.SpecialLines` | src/root_metrics_parser.cpp:164-181 | The lines that open and name a table |
| `InputDecoder.Decode` | src/input_parser.cpp:79-136 | A call always makes progress and takes at most 35 keys |
| `InputDecoder.CollectPayload` | src/input_parser.cpp:97-109 | The guarded loop collects the specified payload from the stream |
| `InputDecoder.ReadDefinedEscapeSequence` | src/input_parser.cpp:11-57 | Reads and names a control sequence as specified |
| `InputDecoder.ReadInputEvent` | src/input_parser.cpp:79-136 | The program's reads and push-back compute the specified event and remaining stream |
| `InputRoundTrip.DecodeInvertsEncode` | src/input_parser.cpp:79-136 | Each encoded event, a mouse report with numbers that fit an int and at most 31 payload bytes, decodes to itself and its own keys are consumed, no others |
| `InputRoundTrip.DecodeAllInvertsEncodeAll` | src/input_parser.cpp:79-136 | Over a whole stream of encoded events the decoder returns exactly the list |
| `InputRoundTrip.DecodeMouseReport` | src/input_parser.cpp:97-131 | A mouse report whose numbers fit an int decodes to its cell exactly when its payload has at most 31 bytes, and what a longer one leaves |
| `InputConverse.EscapeDecodesIff` | src/input_parser.cpp:11-136 | On bytes and pauses an escape gives a function key, back-tab or a mouse event exactly when the stream begins with an encoding of it, no key exactly for an opened report that is not accepted, and otherwise the escape key |
| `InputConverse.ScanReportIff` | src/input_parser.cpp:111-119 | Which report texts are accepted: three numbers, a semicolon right behind the first two, no digit behind the third |
| `InputRoundTrip.KeysKeptIffPause` | src/input_parser.cpp:79-136 | After an unrecognised escape or malformed mouse report every later key is kept, in order, exactly when one of the next two reads is a pause; otherwise at least two are lost |
| `InputRoundTrip.EscapeSwallowsTwo` | src/input_parser.cpp:11-57 | Two unknown keys after an escape are lost; one followed by a pause is given back |
| `WorkloadDetector.SplitWords` | src/workload_detector.cpp:32-49 | The loop computes the whitespace-separated words |
| `WorkloadDetector.DetectionIsProducible` | src/workload_detector.cpp:141-217 | Within a kind the cascade produces only certain pairs of role and confidence |
| `WorkloadDetector.ModelHintIs` | src/workload_detector.cpp:51-99 | The model hint is the last part of the word behind --model, or else behind -m |
| `WorkloadPartition.OllamaIff` | src/workload_detector.cpp:141-165 | Which processes are Ollama managers and runners |
| `WorkloadModel.BuildWorkloads` | src/workload_model.cpp:83-164 | The loops give one workload for each key that occurs, built from its members in order, sorted by size and name |
| `WorkloadModel.GroupItems` | src/workload_model.cpp:98-143 | The map holds exactly the occurring keys, each with the group of its members |
| `WorkloadModel.WorkloadLessIsWeak` | src/workload_model.cpp:158-163 | The final comparator meets the requirement of std::sort |
| `WorkloadFacts.KeyTextInjective` | src/workload_model.cpp:17-44 | The key string determines kind, tag and payload, even with colons in model hints |
| `WorkloadFacts.SameKeySameKind` | src/workload_model.cpp:17-44 | Members of one group share their kind |
| `WorkloadFacts.RunnerJoinsManager` | src/workload_model.cpp:17-44 | A runner shares its parent manager's group exactly when the manager's parent is no detected Ollama manager with a smaller pid |
| `WorkloadPartition.SameKeyIffTogether` | src/workload_model.cpp:17-44 | With distinct pids two items share a key exactly when they have one first manager or, away from managers, one kind and one parent of that kind or, without such parents, one non-empty hint, or are the same |
| `WorkloadPartition.ShareIffTogether` | src/workload_model.cpp:83-164 | And exactly then they share a workload of the finished list |
| `WorkloadFacts.BetterIsMoreConfident` | src/workload_model.cpp:46-58 | On what the detector produces, the role rules never disagree with the confidences |
| `WorkloadFacts.RepresentativeIsFirstBest` | src/workload_model.cpp:111-143 | The representative is the first member with the highest confidence; it names the workload; the hint is its hint when it has one, and some member's hint exactly when one has any |
| `WorkloadFacts.GroupConserves` | src/workload_model.cpp:126-135 | A group carries exactly the totals of its members |
| `WorkloadFacts.GroupingConserves` | src/workload_model.cpp:83-164 | Over all workloads members, resident and virtual bytes (modulo 2^64) and GPU use equal those of the detected processes |
| `WorkloadFacts.EachItemOnce` | src/workload_model.cpp:83-143 | With distinct pids every detected item counts once in the totals of all items |
| `WorkloadFacts.DetectedIffInOneWorkload` | src/workload_model.cpp:83-164 | With distinct pids a process detected at 0.60 or more is a member of exactly one workload, once, and the pid of any other process is in none |
| `WorkloadFacts.WorkloadIsOneGroup` | src/workload_model.cpp:145-157 | Each finished workload is one non-empty group of one kind with its representative and totals |
| `WorkloadPartition.LargestFirst` | src/workload_model.cpp:158-163 | Larger workloads come first, equally large ones by name |
| `WorkloadPartition.MembersByPid` | src/workload_model.cpp:68-79 | Members stand by pid, and the id is the kind with the hint or else the smallest pid |
| `WorkloadPartition.GroupSignals` | src/workload_model.cpp:60-66 | I/O and power texts are those of the first member that has any |
| `WorkloadPartition.GroupReasons` | src/workload_model.cpp:111-143 | The reason starts with the representative's and mentions every later member's; the core mix is the first one there is |
| `WorkloadPartition.GroupPercentages` | src/workload_model.cpp:130-131 | Finite percentages add up, apart from rounding |
| `AiProcessRows.BuildAiProcessRows` | src/workload_model.cpp:166-194 | One row for every process, sorted by the AI-first comparator |
| `AiProcessRows.AiOrderIff` | src/workload_model.cpp:181-192 | The comparator is a strict total order exactly when no not-a-number meets another row of its band |
| `AiProcessRows.AiWeakOrderIff` | src/workload_model.cpp:181-192 | It meets the requirement of std::sort exactly when no not-a-number stands in a band with two numbers |
| `AiProcessRows.AiRowsComeFirst` | src/workload_model.cpp:181-192 | Whenever the comparator meets that requirement, recognised processes come before all others |
| `AiProcessRows.AiListInOrder` | src/workload_model.cpp:181-192 | Recognised processes by size, then all by CPU use from the top, then by pid |
| `AiProcessRows.AiListIgnoresSampleOrder` | src/workload_model.cpp:166-194 | The list does not depend on the order of the samples |
| `AiProcessRows.AiRowsAreWorkloadItems` | src/workload_model.cpp:166-180 | The rows marked as AI are exactly the items that the workloads group |
| `History.ResampleHistory` | src/main.cpp:1195-1219 | The loops compute the bucket means |
| `History.SlicesPartitionWindow` | src/main.cpp:1205-1211 | The slices start at the window's start, end at its end, and are contiguous exactly when there are no more buckets than samples |
| `History.SliceInWindow` | src/main.cpp:1205-1211 | Every slice is non-empty and within the window |
| `History.SingleSampleBuckets` | src/main.cpp:1205-1211 | With more buckets than samples every bucket repeats one sample |
| `History.ResamplingConserves` | src/main.cpp:1195-1219 | The length-weighted means add up to the sum of the window |
| `History.ResampledConserves` | src/main.cpp:1195-1219 | For the returned list: its length-weighted values add up to the newest samples, as many as are to be visible |
| `History.SliceStartIs` | src/main.cpp:1205-1207 | A bucket starts at the floor of its share of the window |
| `History.MeansStayInRange` | src/main.cpp:1195-1219 | Every mean lies between any bounds of the window |
| `History.PlotFits` | src/main.cpp:1328-1345 | The pairs of lines fit into the plot exactly when it does not have one column |
| `History.RawSamplesAre` | src/main.cpp:1342-1344 | As many samples as both histories have, up to a minute of them |
| `History.VisibleSecondsAre` | src/main.cpp:1345 | The whole seconds covered, between one and sixty |
| `History.PopulateNvtopPlotData` | src/main.cpp:1328-1358 | Writes fill the newest end of the plot with the resampled values and leave the rest zero; they stay in bounds exactly when no data goes to a plot of one column |
| `Config.ConfigLoader.ReadLine` | src/config.cpp:97-131 | One line changes the configuration as specified |
| `Config.LoadConfig` | src/config.cpp:135-148 | Loading folds the lines over the defaults |
| `Config.PersistViewProfile` | src/config.cpp:154-227 | Rewrites the first active profile line or appends one, and leaves the others |
| `ConfigSettings.ParseIntIff` | src/config.cpp:40-56 | A value is a number exactly when it is one, fits an int, and only white space follows |
| `ConfigSettings.NumberLine` | src/config.cpp:108-119 | A last line with a number sets it, moved into its range |
| `ConfigSettings.NoNumberLine` | src/config.cpp:108-119 | A last line whose value is no number changes nothing |
| `ConfigSettings.SwitchLine` | src/config.cpp:58-67 | Theme, and the words for yes and no |
| `ConfigSettings.SortLine` | src/config.cpp:77-88 | The words for the sort modes, each with its direction |
| `ConfigSettings.DirectionLine` | src/config.cpp:90-95 | The words for the directions |
| `ConfigSettings.ViewLine` | src/config.cpp:69-75 | The words for the views |
| `ConfigSettings.ProfileLine` | src/config.cpp:128-130 | Any profile word but beta means Alpha |
| `ConfigSettings.IgnoredLine` | src/config.cpp:97-105 | Blank lines, comments and lines without an equals sign change nothing |
| `ConfigFacts.LoadedInRange` | src/config.cpp:97-148 | Any file loads with every numeric setting in its range and the direction 1 or -1 |
| `ConfigFacts.PersistKeepsOthers` | src/config.cpp:178-197 | Persisting changes no other loaded setting |
| `ConfigFacts.PersistedProfileLoaded` | src/config.cpp:178-197 | The persisted profile is loaded exactly when no later line sets another |
| `ConfigFacts.SingleProfileLineLoaded` | src/config.cpp:178-197 | So with at most one active profile line |
| `ConfigFacts.PersistTwice` | src/config.cpp:178-197 | A second persist overrides the first as if done alone |
| `RootMetricsProtocol.SharedReflectsHistory` | src/platform/darwin_sampler.cpp:1198-1219 | In every interleaving the published value is available iff a collection succeeded, holds the latest success and nothing else, and is stale iff the latest failed |
| `RootMetricsProtocol.CachedReflectsHistory` | src/platform/darwin_sampler.cpp:995-999 | The sampler's copy is a whole published value of a prefix of the history |
| `RootMetricsProtocol.ReasonsNeverEmpty` | src/platform/darwin_sampler.cpp:1002-1038 | Every reported status has a reason |
| `RootMetricsProtocol.StatusTellsHistory` | src/platform/darwin_sampler.cpp:1002-1038 | The process status tells success, staleness and waiting apart |
| `RootMetricsProtocol.ReportShowsLatest` | src/platform/darwin_sampler.cpp:1002-1022 | The reported texts are those of the latest success; while stale, the statuses give the latest failure's reason |
| `RootMetricsProtocol.ReportWithoutSuccess` | src/platform/darwin_sampler.cpp:1022-1038 | Without a success nothing is shown, and the statuses give kind and text of the latest failure |
| `RootMetricsProtocol.ObserverNeverGoesBack` | src/platform/darwin_sampler.cpp:983-1038 | After available data the root-process status is never Waiting or Unavailable again |
| `RootMetricsProtocol.RootMetricsSampler.MergeCollection` | src/platform/darwin_sampler.cpp:1201-1210 | The producer's merge is the collect step of the protocol |
| `RootMetricsProtocol.RootMetricsSampler.SampleRootMetrics` | src/platform/darwin_sampler.cpp:983-1000 | The sampler's copy is the copy step, and the report follows from it |
| `MemoryRiskModel.WorkloadRssTotal` | src/memory_risk_model.cpp:12-18 | The loop sums modulo 2^64 |
| `MemoryRiskModel.DeriveMemoryRisk` | src/memory_risk_model.cpp:58-122 | The level is the greatest severity over all conditions that fire, with the reason of one of them |
| `MemoryRiskModel.RiskLevelUnique` | src/memory_risk_model.cpp:58-122 | That description has one solution |
| `MemoryRiskModel.RiskInNumbers` | src/memory_risk_model.cpp:58-122 | The level in plain numbers while no sum wraps around |
| `MemoryRiskModel.PressureInNumbers` | src/metrics.cpp:20-46 | The pressure in plain numbers while no sum wraps around |
| `MemoryRiskModel.PressureMonotone` | src/metrics.cpp:20-46 | More strain never lowers the pressure |
| `MemoryRiskModel.HeadroomMonotone` | src/memory_risk_model.cpp:77-83 | More strain never raises the headroom |
| `MemoryRiskModel.RiskMonotone` | src/memory_risk_model.cpp:58-122 | Pressure fed into risk: more strain never lowers the level, while no sum wraps around |
| `MemoryRiskModel.OverflowBreaksMonotonicity` | src/memory_risk_model.cpp:78-83 | A concrete pair of samples on which a wrapped sum lowers the level |

## Left out

- `WorkloadDetector.DetectWorkloadProcess`: which texts mark the families other than Ollama, and the labels and reasons they give, are taken over as the program lists them.
- `MemoryRiskModel.ReasonOf`, `Snapshots.KindName` and the other tables of texts: taken over as the program lists them.
- `JsonWriting.JsonWriter.BeginObject`: as for its other methods, only calls that keep the document well-formed are modelled; the program does not check its caller, and `SnapshotToJson` makes only such calls.
- `JsonWriting.DoubleOfIsClose`: rounding is to the nearest thousandth of a real number; the IEEE rounding of `%.3f`, its locale and its buffer size are not modelled.
- `JsonParser.Parse`: RFC 8259 grammar over bytes; the parser does not check that strings are well-formed UTF-8, and duplicate member names are kept.
- `SnapshotSession.RunSnapshotMode`: only runs that end, so a run without a limit needs an interrupt; samples, clocks, workloads and risk of each snapshot are arbitrary inputs, the wait between snapshots and write errors are not modelled.
- `ProcessOrder.ProcessSortLess`: `strtod` is any function from strings to doubles.
- `Sorting.Sort`: `std::sort` is an insertion sort. Under a strict total order every sort gives the same list (`Sorting.SortedUnique`), and workloads of equal size and name may stand in any order; with a not-a-number in the sort column `std::sort` promises nothing, and the model's row order is then one of several.
- `TaskTable.ParseAmpData`: `atof` is any function to finite numbers, a pid or percentage that does not fit an int, on which `atoi` and the conversion are undefined, is an unbounded number, a core mix is its labels and numbers before formatting, and the I/O and energy cells of a task, formatted sums and single values of the same cells, are not modelled.
- `InputDecoder.ScanReport`: a number that does not fit an int, on which `sscanf` is undefined, is read as an unbounded number; the results about mouse reports ask for numbers that fit.
- `Config.ParseInt`: a number beyond the range of an int keeps the current value, as the program's check does; file-system errors and directory creation are not modelled.
- `WorkloadFacts.GroupConserves`: CPU and memory percentages are summed too, but their sums depend on rounding and are not claimed to be conserved.
- `RootMetricsProtocol.Next`: a locked section is one step, memory is sequentially consistent, and what a collection measures is any value that is sampled, not stale and, when it failed, has a reason.
- `History.PopulateNvtopPlotData`: the write past the end of a plot of one column is reported instead of performed, because the program's behaviour there is undefined; its callers pass at least two columns.
- `SnapshotJson.SnapshotToJson`: the field lists of the program's writing routines are stated once, as lists of members, and written by one routine; the program spells out the same calls.
- `History.ResampleHistory`: sums and means are over real numbers; `int` overflow of sizes is not modelled.
- `ProcessView.UiState.CalculateProcessMetrics`: `int` overflow of sizes and pages is not modelled.
- The search and paging of the alpha view repeat those of the process table on another list and are left out.
- curses drawing, colours, popups, mouse hit-testing, key bindings, flags and demo data: no deep invariant.
- Mach, IOKit, libproc, sysctl, process spawning and the Metal probe: foreign calls whose results are arbitrary inputs here.
- Rates of memory paging and system I/O: they depend on elapsed time and failure resets, and have no clean conservation law.
