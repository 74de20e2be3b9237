# Orange: schema document, sieve diagram ranking, example access

This project models three pieces of the Orange data-mining system in Dafny
and proves properties of the model.

- **The Orange Canvas schema document** (`orngDoc.py`, class `SchemaDoc`). It holds:
  - the widgets placed on the canvas;
  - the lines that connect them;
  - the signal manager's links that each line stands for.

  The model covers how widgets are added and get a unique caption, and how
  lines and links are added, reset and removed. It also covers how a widget
  or the whole document is removed, the bulk enabling of lines, the caption
  sanitiser used when a schema is exported as an application, and the
  record order of saving and loading. The document is a class whose
  `widgets` and `lines` are sequences of records; its `links` field is a set
  of link tuples that stands for the signal manager. The invariant
  `SchemaDoc.Valid` states:
  - widget identities and captions are unique;
  - there is at most one line per ordered pair of widgets;
  - lines only join widgets of the document;
  - a line exists exactly where the signal manager has a link.

  Every state-changing method keeps it. The signal manager's `existsPath`
  is reachability over the links (module `SignalGraph`), proved to agree with
  a path definition, and `addLine` is proved to keep the link graph acyclic.
- **The sieve diagram widget** (`OWSieveDiagram.py`). The model covers:
  - the enumeration of attribute pairs;
  - the chi-square of a pair's contingency counts;
  - the sorted insertion into the ranking, which can be cancelled part-way;
  - the choice of the shown attributes;
  - the colour and line density of a cell from its Pearson residual.
- **Example access in the Python binding of the C++ core** (`cls_example.cpp`).
  The model covers:
  - negative-index normalisation;
  - the conversion of a Python list into an example, written slot by slot
    into the example's value array;
  - the weight and meta-id rules, on a `map<int, Value>` of meta values;
  - the native list or tuple form of an example;
  - the `repr` string builder.

Modules:
- `Wrappers`: Option, Result, Outcome.
- `Text`: the decimal rendering of integers, as `str(i)` and `%i` produce it.
- `SignalGraph`: the link set and reachability.
- `ResetSignals`: the removal pass of `resetActiveSignals`.
- `ExportNames`: the caption sanitiser.
- `SchemaDocument`: the document.
- `SieveDiagram`: the sieve diagram.
- `OrangeExample`: the example.

Some things are parameters rather than code of the model:
- the answers of the GUI, namely dialog outcomes, and whether a widget can
  be instantiated;
- the signal manager's verdicts, namely single-input displacement and the
  acceptance of a link;
- the library's contingency tables;
- `str2val`, `val2str` and `%.2f` formatting;
- the iteration order of the meta-value container.

## Model

| member | source | states |
|---|---|---|
| SchemaDocument.SchemaDoc.constructor | orange/OrangeCanvas/orngDoc.py:17-45 | a new document is empty, valid and has nothing to save |
| SchemaDocument.SchemaDoc.GetWidgetByCaption | orange/OrangeCanvas/orngDoc.py:356-360 | finds a widget exactly when some widget has that caption, and the one found has it |
| SchemaDocument.NodeByCaption | orange/OrangeCanvas/orngDoc.py:356-360 | the caption lookup on a widget sequence: found iff the caption is among the widgets' captions |
| SchemaDocument.SchemaDoc.FindWidgetFromInstance | orange/OrangeCanvas/orngDoc.py:379-383 | finds a widget exactly when the instance belongs to the document, and the one found is that instance |
| SchemaDocument.SchemaDoc.GetLine | orange/OrangeCanvas/orngDoc.py:371-375 | finds a line exactly when one joins the ordered pair, and it is a line of the document with those endpoints |
| SchemaDocument.SchemaDoc.InLines | orange/OrangeCanvas/orngDoc.py:205 | a widget's incoming lines are exactly the document's lines that end at it |
| SchemaDocument.SchemaDoc.OutLines | orange/OrangeCanvas/orngDoc.py:203 | a widget's outgoing lines are exactly the document's lines that start at it |
| SchemaDocument.SchemaDoc.PlaceNewWidget | orange/OrangeCanvas/orngDoc.py:271-276 | the default position: y is 150; x is the view's left edge plus 10 on an empty canvas, otherwise a multiple of 10 (integer coordinates) at least 101 right of every widget |
| SchemaDocument.SchemaDoc.UniqueCaption | orange/OrangeCanvas/orngDoc.py:281-286 | the caption itself when it is free, otherwise the caption with the suffix " (i)" for the smallest i >= 2 that is free; the result is never taken |
| SchemaDocument.SuffixedInjective | orange/OrangeCanvas/orngDoc.py:285-286 | different counters give different suffixed captions |
| SchemaDocument.SchemaDoc.AddWidget | orange/OrangeCanvas/orngDoc.py:258-313 | a widget that cannot be instantiated changes nothing; otherwise the new widget is appended with a fresh identity, the chosen unique caption and the given or default position, and the document stays valid |
| SchemaDocument.SchemaDoc.AddWidgetByFileName | orange/OrangeCanvas/orngDoc.py:349-353 | an unregistered file name adds nothing; a registered one adds a widget of that kind, captioned from the registry entry when no caption is given |
| SchemaDocument.SchemaDoc.AddLink | orange/OrangeCanvas/orngDoc.py:182-216 | returns 1 exactly when the manager accepts; the only link added is the requested one; the only links dropped are it or the displaced single-input link; the only line added is the new (out, in) line; a plain accepted link adds the line only when none existed |
| SchemaDocument.SchemaDoc.DropSingleInputLinks | orange/OrangeCanvas/orngDoc.py:185-194 | removes exactly the displaced widget's links into the single input, and its line only when no other link joins that pair |
| SchemaDocument.SchemaDoc.EnsureLine | orange/OrangeCanvas/orngDoc.py:197-208 | appends the line (out, in) with the given flag exactly when no line joins the pair, and changes nothing else |
| SchemaDocument.SchemaDoc.RecordLink | orange/OrangeCanvas/orngDoc.py:210 | adds the accepted link to the manager's set and keeps the invariant |
| SchemaDocument.SchemaDoc.RemoveLink | orange/OrangeCanvas/orngDoc.py:220-232 | removes the one link, and removes the line exactly when no remaining link joins the pair |
| SchemaDocument.SchemaDoc.RemoveLine1 | orange/OrangeCanvas/orngDoc.py:236-247 | unlinks every signal of the line, removes the line from the document and from both widgets' line lists, and leaves every other line and link |
| SchemaDocument.SchemaDoc.RemoveLine | orange/OrangeCanvas/orngDoc.py:251-254 | removes the line joining the pair and its links, or changes nothing when there is none |
| SchemaDocument.SchemaDoc.RemoveWidget | orange/OrangeCanvas/orngDoc.py:317-326 | no widget changes nothing; otherwise the widget leaves the document, together with exactly the lines and links that touch it |
| SchemaDocument.SchemaDoc.DropInLines | orange/OrangeCanvas/orngDoc.py:320 | the incoming-lines loop removes exactly the lines and links ending at the widget |
| SchemaDocument.SchemaDoc.DropOutLines | orange/OrangeCanvas/orngDoc.py:321 | the outgoing-lines loop removes exactly the lines and links starting at the widget |
| SchemaDocument.SchemaDoc.DropNode | orange/OrangeCanvas/orngDoc.py:323-324 | a widget without lines is removed from the widget list and from the identities, and lines and links are untouched |
| SchemaDocument.SchemaDoc.Clear | orange/OrangeCanvas/orngDoc.py:328-330 | removing the widgets last to first leaves no widgets, lines or links, and the document can be saved when it had widgets |
| SchemaDocument.SchemaDoc.EmptyDocument | orange/OrangeCanvas/orngDoc.py:328-330 | a valid document without widgets has no lines and no links |
| SchemaDocument.SchemaDoc.SetAllLinesEnabled | orange/OrangeCanvas/orngDoc.py:332-346 | every line keeps its place and endpoints and gets the flag; widgets and links are unchanged |
| SchemaDocument.SchemaDoc.EnableAllLines | orange/OrangeCanvas/orngDoc.py:332-338 | every line is enabled and nothing else changes except that the document can be saved |
| SchemaDocument.SchemaDoc.DisableAllLines | orange/OrangeCanvas/orngDoc.py:340-346 | every line is disabled and nothing else changes except that the document can be saved |
| SchemaDocument.SchemaDoc.SignalList | orange/OrangeCanvas/orngDoc.py:237 | a line's signal list holds each signal pair joining its widgets exactly once |
| SchemaDocument.SchemaDoc.UnlinkSignals | orange/OrangeCanvas/orngDoc.py:163-165 | unlinks exactly the listed pairs between the two widgets |
| SchemaDocument.SchemaDoc.LinkChosen | orange/OrangeCanvas/orngDoc.py:168-172 | adds only links between the two widgets for chosen pairs; with plain requests the pair's signals become the old ones plus the chosen ones |
| SchemaDocument.SchemaDoc.ResetActiveSignals | orange/OrangeCanvas/orngDoc.py:143-178 | a refused dialog changes nothing; otherwise no signal that was not chosen survives, new links join only the two widgets, and with plain requests the line's signals are exactly the chosen ones |
| SchemaDocument.SchemaDoc.AddLine | orange/OrangeCanvas/orngDoc.py:91-139 | an existing line yields none; a path back from in to out refuses the line and changes nothing; an acyclic link graph stays acyclic; a plain non-empty choice yields the new line |
| SchemaDocument.SchemaDoc.Save | orange/OrangeCanvas/orngDoc.py:409-443 | one widget record per widget in document order, one channel record per line in line order naming its widgets by caption with the line's flag and exactly its signals; the document is unchanged and has nothing to save |
| SchemaDocument.SchemaDoc.WidgetRecords | orange/OrangeCanvas/orngDoc.py:425-432 | the widget records are the widgets' positions, captions and kinds, in order |
| SchemaDocument.SchemaDoc.ChannelRecords | orange/OrangeCanvas/orngDoc.py:435-441 | each channel record describes the line at the same position |
| SchemaDocument.SchemaDoc.LoadWidgets | orange/OrangeCanvas/orngDoc.py:499-508 | widgets are only appended; records with free captions, registered kinds and explicit positions come back as widgets with exactly those records, in order |
| SchemaDocument.SchemaDoc.LoadChannel | orange/OrangeCanvas/orngDoc.py:512-526 | the links added are exactly the channel's signals between the widgets its captions name, and none when a caption is unknown; the channel's line, with its flag, is appended when both captions are known, it lists a signal and no line joins the pair yet, and the lines are unchanged otherwise |
| SchemaDocument.SchemaDoc.LoadChannels | orange/OrangeCanvas/orngDoc.py:511-526 | the links added are the union of the channels' links, and the lines are those the channels draw one after another |
| SchemaDocument.SchemaDoc.LoadDocument | orange/OrangeCanvas/orngDoc.py:473-534 | loading keeps the invariant, appends the recorded widgets, adds exactly the recorded links and the lines the channels draw, and leaves nothing to save |
| SchemaDocument.SaveLoadRoundTrip | orange/OrangeCanvas/orngDoc.py:409-534 | loading what save wrote into a new document gives the same widget records in the same order, the same links between captions, and the same lines in the same order with the same flags between widgets of the same captions |
| SchemaDocument.SavedThenLoaded | orange/OrangeCanvas/orngDoc.py:409-534 | widget lists, lines and links of a valid document, saved and then loaded into an empty document, give equal widget records, the same links by caption, and one line per saved line with the same flag between widgets of the same captions |
| SchemaDocument.RoundTripRecords | orange/OrangeCanvas/orngDoc.py:435-441 | the channel records of a valid document, loaded over widgets with the saved captions, restore its links by caption and one matching line per saved line |
| SchemaDocument.RoundTripLines | orange/OrangeCanvas/orngDoc.py:435-441 | the channel records of a valid document, loaded into a document whose widgets carry the saved captions in order, draw one line per saved line, in order, with its flag and between the widgets of its captions |
| SchemaDocument.RoundTripLineStep | orange/OrangeCanvas/orngDoc.py:512-526 | after lines matching the earlier saved lines, the next channel record appends a line matching the next saved line, since its pair is not joined yet |
| SchemaDocument.ChannelRestoresLine | orange/OrangeCanvas/orngDoc.py:517-525 | the channel record of a saved line names widgets that exist after loading and draws a line with the saved flag between the widgets of the saved captions |
| SchemaDocument.SavedLineHasSignal | orange/OrangeCanvas/orngDoc.py:437-440 | the channel record of a line of a valid document lists at least one signal |
| SchemaDocument.SameLinesSamePair | orange/OrangeCanvas/orngDoc.py:517-518 | two loaded lines between the same widgets stand for saved lines between the same widgets |
| SchemaDocument.CaptionNamesOne | orange/OrangeCanvas/orngDoc.py:362-367 | with unique captions, two document widgets with the same caption are the same widget |
| SchemaDocument.LoadedLinesSnoc | orange/OrangeCanvas/orngDoc.py:511-526 | loading one more channel record takes one more loading step |
| SchemaDocument.UnjoinedPair | orange/OrangeCanvas/orngDoc.py:517-525 | a loaded line matching the next saved line joins a pair that no earlier loaded line joins, so addLink draws it |
| SchemaDocument.LinesMatchSnoc | orange/OrangeCanvas/orngDoc.py:511-526 | loaded lines matching the saved ones place by place still do after the next matching line |
| SchemaDocument.IndexOfPresentId | orange/OrangeCanvas/orngDoc.py:362-367 | a widget of the document is found by its instance |
| SchemaDocument.LoadStepResolved | orange/OrangeCanvas/orngDoc.py:517-525 | a channel whose captions both name widgets draws its line, with its flag, unless it lists no signal or the pair is already joined |
| SchemaDocument.LoadStepUnresolved | orange/OrangeCanvas/orngDoc.py:519-520 | a channel with an unknown caption draws no line |
| SchemaDocument.SchemaDoc.LoadSignals | orange/OrangeCanvas/orngDoc.py:523-525 | linking a channel's signals in turn adds exactly their links between the two widgets, and appends the line with the channel's flag exactly when there is a signal and the pair had no line |
| SchemaDocument.SchemaDoc.LoadSignal | orange/OrangeCanvas/orngDoc.py:524-525 | one accepted signal adds its link, and the line with the channel's flag if the pair had none |
| SchemaDocument.RoundTripLinks | orange/OrangeCanvas/orngDoc.py:435-441 | the links named by captions in the channel records are exactly the document's links named by captions |
| SchemaDocument.RoundTripKeepsLink | orange/OrangeCanvas/orngDoc.py:435-441 | every link of the saved document is recreated by loading its channel records |
| SchemaDocument.RoundTripAddsNoLink | orange/OrangeCanvas/orngDoc.py:512-526 | every link recreated from the channel records was a link of the saved document |
| SchemaDocument.RemoveAtPairs | orange/OrangeCanvas/orngDoc.py:240 | removing a line keeps the ordered pairs distinct and removes exactly its pair |
| SchemaDocument.AppendPairs | orange/OrangeCanvas/orngDoc.py:200 | appending a line for a new pair keeps the pairs distinct and adds exactly that pair |
| SchemaDocument.UpdatePairs | orange/OrangeCanvas/orngDoc.py:335 | changing a line's flag keeps the set of pairs |
| SchemaDocument.RemoveAtIds | orange/OrangeCanvas/orngDoc.py:324 | removing a widget keeps identities and captions distinct and removes exactly its identity |
| SchemaDocument.DropNodeCore | orange/OrangeCanvas/orngDoc.py:320-324 | a widget without lines can be removed without breaking the invariant |
| SchemaDocument.CaptionOfIn | orange/OrangeCanvas/orngDoc.py:362-367 | the caption of a document widget, or "" for an unknown instance; a lookup by id that stands for the endpoint captions `save` reads, and gives what `getWidgetCaption` gives |
| SchemaDocument.ChannelLinksResolved | orange/OrangeCanvas/orngDoc.py:517-525 | when both captions name widgets, a channel's links are its signals between those widgets |
| SchemaDocument.SameCaptionLookup | orange/OrangeCanvas/orngDoc.py:517-518 | in a document whose widgets carry the saved captions in order, a saved caption finds the widget at the same position |
| SchemaDocument.FirstIndex | orange/OrangeCanvas/orngDoc.py:356-360 | the first position that satisfies the test, or the length when none does |
| SchemaDocument.RemoveAt | orange/OrangeCanvas/orngDoc.py:324 | list.remove at a found position: the elements before it stay, those after it shift down by one |
| SignalGraph.Edges | orange/OrangeCanvas/orngDoc.py:225-228 | the widget pairs joined by at least one link, and nothing else |
| SignalGraph.EdgesWithoutPair | orange/OrangeCanvas/orngDoc.py:236-238 | dropping every link of a pair drops exactly that pair from the joined pairs |
| SignalGraph.EdgesWith | orange/OrangeCanvas/orngDoc.py:210 | adding a link adds exactly its pair |
| SignalGraph.Closure | orange/OrangeCanvas/orngDoc.py:98 | the reachability closure contains its start set, lies within the link targets and is closed under successors |
| SignalGraph.ExistsPathIsPath | orange/OrangeCanvas/orngDoc.py:98 | existsPath holds exactly when a path of one or more links leads from the first widget to the second |
| SignalGraph.ClosureSound | orange/OrangeCanvas/orngDoc.py:98 | everything in the closure is reachable |
| SignalGraph.ClosureComplete | orange/OrangeCanvas/orngDoc.py:98 | everything reachable is in the closure |
| SignalGraph.WalkConcat | orange/OrangeCanvas/orngDoc.py:98 | two walks that meet join into one walk |
| SignalGraph.AddEdgeKeepsAcyclic | orange/OrangeCanvas/orngDoc.py:98-100 | adding the edge out -> in when no path leads from in back to out keeps the link graph acyclic |
| SignalGraph.SubgraphAcyclic | orange/OrangeCanvas/orngDoc.py:220-222 | removing links keeps the link graph acyclic |
| SignalGraph.WalkWithEdge | orange/OrangeCanvas/orngDoc.py:98-100 | a walk in the graph with a new edge either avoids it or passes through it |
| ResetSignals.RemovalPassAsWritten | orange/OrangeCanvas/orngDoc.py:163-166 | the removal loop as it runs on a Python list that shrinks under its iterator |
| ResetSignals.AsWrittenSkipsNeighbour | orange/OrangeCanvas/orngDoc.py:163-166 | with two unwanted signals in a row the loop unlinks only the first and keeps the second |
| ResetSignals.RemovalPass | orange/OrangeCanvas/orngDoc.py:163-166 | the intended pass: the unlinked signals are exactly those not chosen, the kept ones exactly those chosen, and together they account for every signal |
| ResetSignals.Unwanted | orange/OrangeCanvas/orngDoc.py:164 | the signals not in the new choice |
| ResetSignals.Wanted | orange/OrangeCanvas/orngDoc.py:170 | the signals in the new choice |
| ResetSignals.SplitSizes | orange/OrangeCanvas/orngDoc.py:163-166 | every signal is either unlinked or kept |
| ExportNames.ReplaceChar | orange/OrangeCanvas/orngDoc.py:607 | replace of one character by another, position by position |
| ExportNames.DeleteChar | orange/OrangeCanvas/orngDoc.py:607 | deletion of one character: the result keeps every other character and never contains it |
| ExportNames.DeleteCharCounts | orange/OrangeCanvas/orngDoc.py:607 | deletion keeps every other character exactly as often as the input has it, and none of the deleted one |
| ExportNames.DeleteCharSplit | orange/OrangeCanvas/orngDoc.py:607 | deleting a character from a concatenation deletes it from each part |
| ExportNames.ReplaceCharSplit | orange/OrangeCanvas/orngDoc.py:607 | replacing a character in a concatenation replaces it in each part |
| ExportNames.SanitizeSplit | orange/OrangeCanvas/orngDoc.py:607 | the replace chain applied to a concatenation is the concatenation of the chains |
| ExportNames.SanitizeOne | orange/OrangeCanvas/orngDoc.py:607 | a single space becomes "_", a single ( ) . - or + becomes "", any other single character stays |
| ExportNames.SanitizeByCharacter | orange/OrangeCanvas/orngDoc.py:607 | the sanitised name is the caption with each space turned into "_", each ( ) . - + dropped and every other character kept, in order |
| ExportNames.Sanitize | orange/OrangeCanvas/orngDoc.py:607 | the sanitised name is never longer than the caption |
| ExportNames.SanitizeSafe | orange/OrangeCanvas/orngDoc.py:639 | the name contains none of space ( ) . - +, contains every other character of the caption, and contains an underscore when the caption has a space |
| ExportNames.SanitizeIdempotent | orange/OrangeCanvas/orngDoc.py:655-657 | sanitising twice gives the same name as once |
| ExportNames.ReplaceCharAbsent | orange/OrangeCanvas/orngDoc.py:607 | a replace of an absent character changes nothing |
| ExportNames.DeleteCharAbsent | orange/OrangeCanvas/orngDoc.py:607 | a deletion of an absent character changes nothing |
| Text.NatStr | orange/OrangeCanvas/orngDoc.py:285 | str of a natural number: at least one character, all of them digits |
| Text.IntStr | source/orange/cls_example.cpp:578 | %i: at least one character, and a leading minus exactly for negative numbers |
| Text.ParseNatStr | orange/OrangeCanvas/orngDoc.py:427-428 | reading the digits of str(n) gives n back |
| Text.NatStrInjective | orange/OrangeCanvas/orngDoc.py:285 | different numbers render differently |
| SieveDiagram.NamesWhere | orange/OrangeWidgets/Visualize/OWSieveDiagram.py:147-149 | the names of exactly the attributes of the selected kind, no more of them than attributes |
| SieveDiagram.AttributeNames | orange/OrangeWidgets/Visualize/OWSieveDiagram.py:147-149 | the loop collects the names of the attributes of the selected kind, in domain order |
| SieveDiagram.Names | orange/OrangeWidgets/Visualize/OWSieveDiagram.py:122 | the names of all attributes, position by position |
| SieveDiagram.RowEntries | orange/OrangeWidgets/Visualize/OWSieveDiagram.py:163-164 | the k-th pair of row a is (a, a+1+k): the pairs for b from a+1 up to the last attribute, in order |
| SieveDiagram.PairsExactlyOnce | orange/OrangeWidgets/Visualize/OWSieveDiagram.py:159-165 | the pairs visited are exactly those with a < b < n, in strictly increasing lexicographic order, each once |
| SieveDiagram.RowsBelowMembers | orange/OrangeWidgets/Visualize/OWSieveDiagram.py:159-164 | the first rows hold exactly the pairs whose first index is below the row count |
| SieveDiagram.RowsBelowOrdered | orange/OrangeWidgets/Visualize/OWSieveDiagram.py:159-164 | the first rows are in strictly increasing lexicographic order |
| SieveDiagram.RowsBelowPrefix | orange/OrangeWidgets/Visualize/OWSieveDiagram.py:159-164 | fewer rows are a prefix of more rows |
| SieveDiagram.PairsAt | orange/OrangeWidgets/Visualize/OWSieveDiagram.py:165 | the visit counter locates the pair (a, b) in the enumeration |
| SieveDiagram.TermNonNegative | orange/OrangeWidgets/Visualize/OWSieveDiagram.py:199-202 | a cell's term is skipped when its expected count is 0 and is otherwise (actual - expected)^2 / expected >= 0 |
| SieveDiagram.RowChiNonNegative | orange/OrangeWidgets/Visualize/OWSieveDiagram.py:190-202 | the sum over one row of cells is >= 0 |
| SieveDiagram.ChiNonNegative | orange/OrangeWidgets/Visualize/OWSieveDiagram.py:188-202 | the sum over the first rows is >= 0 |
| SieveDiagram.ChiSquareNonNegative | orange/OrangeWidgets/Visualize/OWSieveDiagram.py:187-202 | the chi-square of counts is >= 0 |
| SieveDiagram.ProbsRowFiles | orange/OrangeWidgets/Visualize/OWSieveDiagram.py:318-326 | when no two cells share a key, a row's writes file each of its cells under its own key and keep the other cells' entries |
| SieveDiagram.ProbsRowsFiles | orange/OrangeWidgets/Visualize/OWSieveDiagram.py:315-326 | when no two cells share a key, after the filling loop every cell is found under its own key |
| SieveDiagram.KeyedRowChiAgrees | orange/OrangeWidgets/Visualize/OWSieveDiagram.py:346-352 | when every cell is filed under its own key, a row read back by key adds the same terms as the row read by position |
| SieveDiagram.KeyedChiAgrees | orange/OrangeWidgets/Visualize/OWSieveDiagram.py:345-352 | when every cell is filed under its own key, the rows read back by key add up to the chi-square by position |
| SieveDiagram.DistinctKeysChiSquare | orange/OrangeWidgets/Visualize/OWSieveDiagram.py:315-352 | when no two cells share a key, the chi-square as updateData reads it by key equals the chi-square of the table |
| SieveDiagram.CollidingFiling | orange/OrangeWidgets/Visualize/OWSieveDiagram.py:315-326 | X names "a-b", "a" and Y names "c", "b-c" give two cells the same key, and cell (0, 0)'s key then holds cell (1, 1) |
| SieveDiagram.KeyCollisionMiscounts | orange/OrangeWidgets/Visualize/OWSieveDiagram.py:345-352 | under those names, a table that data can give (4 examples, X and Y counts [1, 3], joint counts [[1, 0], [0, 3]], rows and columns adding up to the counts) has chi-square 4 but is reported as 2 when read back by key |
| SieveDiagram.AccumulateChiSquare | orange/OrangeWidgets/Visualize/OWSieveDiagram.py:187-202 | the nested loop computes the chi-square of the counts, which is >= 0 for counts |
| SieveDiagram.AccumulateRow | orange/OrangeWidgets/Visualize/OWSieveDiagram.py:190-202 | the inner loop adds the terms of every cell of one row |
| SieveDiagram.AddCell | orange/OrangeWidgets/Visualize/OWSieveDiagram.py:191-202 | one cell adds (actual - expected)^2 / expected, or nothing when its expected count is 0 |
| SieveDiagram.InsertPositionSplits | orange/OrangeWidgets/Visualize/OWSieveDiagram.py:204 | every entry before the insertion index scores higher than the new score, and the entry at it (if any) does not |
| SieveDiagram.FindInsertPosition | orange/OrangeWidgets/Visualize/OWSieveDiagram.py:204 | the `while` scan stops at that insertion index: every earlier entry scores higher, the one it stops at does not |
| SieveDiagram.InsertKeepsSorted | orange/OrangeWidgets/Visualize/OWSieveDiagram.py:204-205 | inserting there keeps the ranking non-increasing, ahead of entries with equal score |
| SieveDiagram.InsertAddsEntry | orange/OrangeWidgets/Visualize/OWSieveDiagram.py:205 | the insertion gains exactly the new entry and loses none |
| SieveDiagram.RankingOfSorted | orange/OrangeWidgets/Visualize/OWSieveDiagram.py:159-205 | a ranking built by inserting entries one after the other this way is sorted by non-increasing score |
| SieveDiagram.RankingOfPermutes | orange/OrangeWidgets/Visualize/OWSieveDiagram.py:159-205 | such a ranking holds exactly the entries inserted, each as often as it was inserted |
| SieveDiagram.SieveWidget.constructor | orange/OrangeWidgets/Visualize/OWSieveDiagram.py:38-48 | a new widget has no data, an empty shown pair, no condition, no selection list, an empty ranking and a lowered stop flag |
| SieveDiagram.SieveWidget.InsertRanked | orange/OrangeWidgets/Visualize/OWSieveDiagram.py:204-205 | the entry is spliced in at the first position whose score is not above it, the index the scan finds |
| SieveDiagram.SieveWidget.ScorePair | orange/OrangeWidgets/Visualize/OWSieveDiagram.py:172-205 | one more pair visited: the ranking becomes the insertion, one after the other, of the entries of the pairs visited so far; a pair with empty data adds none |
| SieveDiagram.SieveWidget.VisitPair | orange/OrangeWidgets/Visualize/OWSieveDiagram.py:165-172 | the counter moves past the k-th pair; the stop flag is raised exactly when the stop comes after k pairs, and otherwise the pair is scored |
| SieveDiagram.SieveWidget.ScoreRow | orange/OrangeWidgets/Visualize/OWSieveDiagram.py:163-210 | the inner loop keeps the ranking equal to the insertion of the entries of the pairs visited so far, and returns at once when the stop flag is raised |
| SieveDiagram.SieveWidget.RankPairs | orange/OrangeWidgets/Visualize/OWSieveDiagram.py:159-214 | the outer loop leaves the insertion of the entries of the pairs visited before a stop; the stop flag is set iff the loop stopped early |
| SieveDiagram.SieveWidget.CalculatePairs | orange/OrangeWidgets/Visualize/OWSieveDiagram.py:138-214 | no data gives an empty ranking; otherwise the ranking is the insertion, in visiting order, of the chi-square entries of the non-empty pairs of discrete attributes visited before the stop, so it is sorted and holds exactly those entries; the stop flag says whether the stop came early |
| SieveDiagram.SieveWidget.SetShownAttributes | orange/OrangeWidgets/Visualize/OWSieveDiagram.py:119-126 | the shown pair becomes the first two names exactly when there is data, at least two names and both are attributes; otherwise it stays |
| SieveDiagram.SieveWidget.InitCombos | orange/OrangeWidgets/Visualize/OWSieveDiagram.py:251-268 | without data nothing changes; otherwise the condition becomes "(None)", X the first non-continuous attribute and Y the second, or the first when there is only one |
| SieveDiagram.SieveWidget.SetData | orange/OrangeWidgets/Visualize/OWSieveDiagram.py:99-116 | the new data replaces the old and the ranking stays; the attribute choice is rebuilt as initCombos does unless both tables exist with the same domain checksum; then the selection list, when it applies, sets the shown pair |
| SieveDiagram.SieveWidget.UpdateData | orange/OrangeWidgets/Visualize/OWSieveDiagram.py:281-352 | a chi-square exactly when there is data, both attributes are set and the conditional data is not empty; it is that data's chi-square with every cell read once by position, as the source reads it by key when no two cells share a key (see Findings), and >= 0 |
| SieveDiagram.CellColour | orange/OrangeWidgets/Visualize/OWSieveDiagram.py:392-408 | positive residual: blue 255, red = green = max(255 - 20 floor p, 55); negative: red 255, blue = green = max(255 + 20 ceil p, 55); zero: white; every channel in [55, 255] |
| SieveDiagram.CellColourSymmetric | orange/OrangeWidgets/Visualize/OWSieveDiagram.py:392-407 | the colour of -p is the colour of p with red and blue swapped |
| SieveDiagram.CellColourMonotone | orange/OrangeWidgets/Visualize/OWSieveDiagram.py:392-397 | a larger positive residual never gives a lighter red channel |
| SieveDiagram.Kvoc | orange/OrangeWidgets/Visualize/OWSieveDiagram.py:421-426 | for p > 0 the density factor lies in [0.2, 1); otherwise in [1, 5]; it is 0.2 from p = 10 up and 5 from p = -10 down |
| SieveDiagram.KvocNonIncreasing | orange/OrangeWidgets/Visualize/OWSieveDiagram.py:421-426 | a larger residual never gives a larger density factor |
| OrangeExample.Variables | source/orange/cls_example.cpp:430 | the variables are the attributes followed by the class variable, if any |
| OrangeExample.Int32 | source/orange/cls_example.cpp:398 | the C int cast: a value in the 32-bit range congruent to its argument modulo 2^32, and the argument itself when it fits |
| OrangeExample.ExampleIndex | source/orange/cls_example.cpp:428-438 | an index in [-n, -1] becomes ind + n, one in [0, n) stays, every other one gives -1; the result is -1 or in [0, n) |
| OrangeExample.ExampleIndexModulo | source/orange/cls_example.cpp:428-438 | on [-n, n) the normalisation is Python's modulo |
| OrangeExample.GetAttributeIndexInt | source/orange/cls_example.cpp:397-405 | the int branch of getAttributeIndex: the same normalisation applied to the value cast to a C int |
| OrangeExample.AttributeIndexAgrees | source/orange/cls_example.cpp:397-405 | for an int that fits a C int, getAttributeIndex and exampleIndex agree |
| OrangeExample.ConvertItem | source/orange/cls_example.cpp:67-97 | a Value bound to a variable is accepted iff it is bound to this one; an unbound Value is accepted only with this variable's type; failures are the three type errors at this position |
| OrangeExample.ConvertItemAsWritten | source/orange/cls_example.cpp:67-73 | the check as compiled: an unbound Value is refused only for a variable of type 0, and is otherwise stored with its type overwritten by 0 |
| OrangeExample.UnboundValueTypeUnchecked | source/orange/cls_example.cpp:68 | an unbound integer Value for a continuous attribute is accepted as written and refused as intended |
| OrangeExample.FirstFailure | source/orange/cls_example.cpp:60-98 | the first item that is refused, with every earlier one accepted |
| OrangeExample.Example.ConvertFromPythonExisting | source/orange/cls_example.cpp:46-101 | a non-list, or a list of the wrong length, fails and changes nothing; otherwise the items before the first refused one are written into their slots in order, later slots keep their values, and the call succeeds iff none is refused |
| OrangeExample.Example.constructor | source/orange/cls_example.cpp:148-170 | a new example over a domain has one slot per variable and no metas |
| OrangeExample.ToValue | source/orange/cls_example.cpp:499-507 | nativity -1 gives an int for an integer value and a float otherwise; 0 gives the native form; any other gives a Value object |
| OrangeExample.NativeRoundTrip | source/orange/cls_example.cpp:79-89 | a number written into a slot by the list conversion comes back as the same number with nativity -1 (continuous values as exact reals) |
| OrangeExample.Example.ConvertToPythonNative | source/orange/cls_example.cpp:509-524 | one entry per attribute in order, then the class value; with tuples the pair (attributes, class) instead |
| OrangeExample.Weight | source/orange/cls_example.cpp:200-217 | a non-int id is an error; id 0 weighs 1.0 without looking at the metas; any other id weighs its meta value iff that is a known non-special float |
| OrangeExample.SetThenGetWeight | source/orange/cls_example.cpp:207-230 | after setting weight w under a positive id, getweight of that id gives w |
| OrangeExample.RemoveThenGetWeight | source/orange/cls_example.cpp:207-247 | after removing an id its weight is an error, and other ids are unaffected |
| OrangeExample.SetWeightFrame | source/orange/cls_example.cpp:207-230 | setting one id's weight leaves every other id's weight as it was |
| OrangeExample.Example.SetWeight | source/orange/cls_example.cpp:220-234 | an id <= 0 fails and changes nothing; otherwise that id's meta becomes the continuous weight |
| OrangeExample.Example.RemoveWeight | source/orange/cls_example.cpp:237-250 | a non-int id or one <= 0 fails and changes nothing; otherwise that id's meta is removed |
| OrangeExample.MetaById | source/orange/cls_example.cpp:176 | a descriptor with the id, found iff one exists |
| OrangeExample.MetaByName | source/orange/cls_example.cpp:180 | a descriptor with the name, found iff one exists |
| OrangeExample.MetaByVariable | source/orange/cls_example.cpp:190 | a descriptor for the variable, found iff one exists |
| OrangeExample.MetaId | source/orange/cls_example.cpp:173-197 | an int is the id itself, with its variable if one is known; a name or a variable object must belong to a meta descriptor, else it is an error, and a variable object is returned as the variable; anything else is an error |
| OrangeExample.MetaIdLookupsAgree | source/orange/cls_example.cpp:173-194 | the id, the name and the variable of a meta descriptor all give its id and variable |
| OrangeExample.MetaUnique | source/orange/cls_example.cpp:180-190 | with distinct descriptors, a shared id, name or variable picks out the same descriptor |
| OrangeExample.AddValue | source/orange/cls_example.cpp:548-553 | a continuous value's text is bare; any other value's text is in single quotes |
| OrangeExample.ValueTexts | source/orange/cls_example.cpp:559-563 | the text of each value with its own variable, position by position |
| OrangeExample.MetaTexts | source/orange/cls_example.cpp:567-583 | for an iteration order that visits every meta id once, one entry text per position of the order, and every meta id has its entry |
| OrangeExample.MetaTextsCover | source/orange/cls_example.cpp:567-583 | every meta has its entry text at the place where the order visits its id |
| OrangeExample.NoMetasNoOrder | source/orange/cls_example.cpp:566-585 | an iteration order visiting every meta id once is empty exactly when there are no metas |
| OrangeExample.JoinSnoc | source/orange/cls_example.cpp:560-562 | appending a part adds ", " before it unless it is the first |
| OrangeExample.ReprShape | source/orange/cls_example.cpp:555-588 | the repr starts with the bracketed values; it ends with "]" iff there are no metas, and otherwise continues with ", {" and ends with "}" |
| OrangeExample.Example.ValuesRepr | source/orange/cls_example.cpp:557-564 | the loop builds "[" + the value texts joined with ", " + "]" |
| OrangeExample.Example.MetasRepr | source/orange/cls_example.cpp:566-585 | the loop builds nothing without metas, otherwise ", {" + the meta entries joined with ", " + "}" |
| OrangeExample.Example.Repr | source/orange/cls_example.cpp:555-588 | the repr is the values part followed by the metas part, every meta visited once |

## Left out

- Qt, including windows, message boxes, canvas items, tooltips, cursors and the signal dialog. Dialog outcomes and whether a widget can be instantiated are inputs.
- The signal manager's internals: orngSignalManager is not part of this model. It is reduced to its set of (out, in, output signal, input signal) links. A single-input displacement (`removeExistingSingleLink`) and the acceptance of a link are inputs. The per-link enabled flag of the manager is not modelled; the line's flag is.
- SignalGraph.ExistsPath: a path of one or more links. A widget linked to itself is therefore not refused by `addLine`, so the acyclicity result of SchemaDocument.SchemaDoc.AddLine assumes distinct widgets.
- SchemaDocument.SchemaDoc.AddLine: states the line it returns only for plain requests (no displacement, every link accepted). The retry after rebuilding the widget registry (orngDoc.py:105-110) is not modelled; its outcome is part of the dialog input.
- SchemaDocument.SchemaDoc.ResetActiveSignals: uses the corrected removal pass (see Findings), and states the exact final signal set only for plain requests.
- SchemaDocument.SchemaDoc.LoadDocument: covers the records after parsing. XML, `eval` of the signal list, settings dictionaries, file access, the window caption and `processNewSignals` are not modelled. Every widget record is taken to be instantiable, and every link is taken to be accepted without displacement.
- SchemaDocument.SaveLoadRoundTrip: states widget records, caption-level links and caption-level lines with their flags. It requires registered widget kinds, non-empty captions and explicit positions, since a position of -1 is replaced by the default placement when loading. The flag is carried as a boolean: the source writes `str(line.getEnabled())` and reads it back with `int(...)`, and since the canvas line class is not part of this model, the flag's round trip holds in the source only if `getEnabled` yields an integer.
- `saveDocumentAsApp` code generation, apart from the caption sanitiser; `synchronizeContexts`, `closeEvent` and widget settings.
- SchemaDocument.SchemaDoc.PlaceNewWidget: canvas coordinates are modelled as integers and `x/10*10` as integer division. A Qt canvas item's `x()` is a floating-point number, which Python 2 divides exactly, so the rounding to a multiple of 10 that the model proves holds in the source only for integer coordinates.
- SchemaDocument.SchemaDoc.InLines: a widget's `inLines` list is modelled as a view of the document's lines, not as a separate list that the widget keeps.
- SchemaDocument.SchemaDoc.OutLines: a widget's `outLines` list is modelled as a view of the document's lines, not as a separate list that the widget keeps.
- SchemaDocument.SchemaDoc.RemoveLine1: removal from the two widgets' line lists follows from the removal from the document's lines, since those lists are views. A line missing from a widget's list is not modelled.
- SchemaDocument.CaptionOfIn: `save` reads the endpoint captions straight from the line's two widgets. The model finds the widget by id instead, since a line holds ids. For a widget of the document this gives the same caption, and it is also what `getWidgetCaption` returns. Its error print is not modelled.
- SieveDiagram.SieveWidget.CalculatePairs: the stop button is an input counting the pairs visited before it takes effect. Progress bars and `processEvents` are not modelled. The `interestingList` display mirrors `chisquares` and is not modelled.
- The contingency tables of the data-mining library (`ContingencyAttrAttr`, `FeatureByCartesianProduct`, `select`, `getConditionalData`) are inputs reduced to counts. A missing joint cell counts 0, as the `except` branch does.
- SieveDiagram.SieveWidget.UpdateData: covers only the chi-square computation. Drawing, `sqrt`, the random case dots and the pixel layout are not modelled. The expected count uses the table's example count as `sum`. It reads the cells by position, which is the corrected behaviour. The source files each cell in `probs` under the key `"x-y"` built from the two value names, and reads it back by that key. When value names contain `-`, two cells can share a key. SieveDiagram.KeyedChiSquare models that reading (see Findings). The joint counts, which the source also looks up by such a key, stay inputs.
- SieveDiagram.Kvoc and SieveDiagram.CellColour: compute over exact reals, not floating point.
- `showSelectedPair`, `updateConditionAttr` and `saveToFileCanvas` are GUI plumbing and are not modelled. In SieveDiagram.SieveWidget.SetData, `discretizeDomain` and the domain checksum belong to the library: the discretised table and the checksum comparison are inputs, and the information messages are not modelled.
- The `updateData` redraws that `setShownAttributes` triggers are not modelled.
- Python truthiness of the data table is taken as "present and not empty".
- Python C-API plumbing: reference counting, `Example_dealloc`, `Example_traverse`, `Example_clear`, object wrapping, argument parsing, `compatible` and comparison.
- `str2val`, `val2str` and the `%.2f` formatting are parameters of the model.
- OrangeExample.Example.Repr: the iteration order of the meta-value container is an input, taken to visit every meta id exactly once.
- OrangeExample.Example.RemoveWeight: the meta container's `removeValue` is not part of this model. Removing an id without a meta value is taken to change nothing and succeed.
- OrangeExample.Weight: a missing meta id is an error; the container's behaviour for unknown ids is not part of this model.
- Weights are exact reals, not C floats.
- OrangeExample.NativeRoundTrip: continuous values are exact reals, not the C `float` the source stores (`TValue(PyNumber_AsFloat(...))`, read back widened to `double`). In the source the round trip of a continuous value holds only up to single-precision rounding. For example, 0.1 comes back as 0.100000001490116… and 16777217 as 16777216.0.
- OrangeExample.ConvertItem: stores a number for a continuous attribute as an exact real, not rounded to a C `float`.
- OrangeExample.Example.ConvertToPythonNative: takes `TExample::getClass` to be the last slot of the example.
- OrangeExample.Example.ConvertFromPythonExisting: uses the corrected type check (see Findings). The change `=!` makes to the Python Value object itself is not modelled. A list item that cannot be read (the `SystemError` branch) does not arise for a sequence.
- `getmeta`, `setmeta`, `removemeta`, `getclass`, `setclass`, item access through `getitem` and the attribute-name branch of `getAttributeIndex` are not modelled; only the int branch is.
- source/orange/dist_clustering.hpp holds only declarations and is not part of this model.

## Findings

| source | as written | input that shows it | evidently intended | confidence | as-written member | corrected member |
|---|---|---|---|---|---|---|
| orange/OrangeCanvas/orngDoc.py:163-166 | the loop removes the current signal from the list it iterates over, so the signal after each removed one is never examined | an existing line with signals [p, q] and a new choice without p and q: only p is unlinked, q stays | every signal not in the new choice is unlinked | not executed | ResetSignals.AsWrittenSkipsNeighbour | ResetSignals.RemovalPass |
| orange/OrangeWidgets/Visualize/OWSieveDiagram.py:326-348 | each cell is filed in `probs` under the key `'%s-%s'` of its X and Y value names, and the chi-square loop reads it back by that key. Distinct cells can share a key, and then the later write replaces the earlier one | X values "a-b" and "a", Y values "c" and "b-c": cells (0, 0) and (1, 1) both get the key "a-b-c". For 4 examples with X and Y counts [1, 3] and joint counts [[1, 0], [0, 3]], the terms by position are 2.25, 0.75, 0.75 and 0.25, so the chi-square is 4. Read back by key, the 0.25 of cell (1, 1) counts twice and the 2.25 of cell (0, 0) never, so the loop reports 2 | every cell of the table is read once, under a key of its own | not executed | SieveDiagram.KeyCollisionMiscounts | SieveDiagram.SieveWidget.UpdateData |
| source/orange/cls_example.cpp:68 | `varType=!(*vi)->varType` assigns instead of comparing: an unbound Value is refused only for a variable of type 0, and is otherwise stored with its type set to 0 | an unbound integer Value 3 given for a continuous attribute is accepted and stored with type 0 | an unbound Value is accepted only when its type equals the variable's type | not executed | OrangeExample.UnboundValueTypeUnchecked | OrangeExample.ConvertItem |
