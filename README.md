# SENUSA dashboard core, modelled in Dafny

The dashboard page of SENUSA lets a user upload a VCF file. It turns each variant line
into a short descriptor string and sends the descriptors in batches of 200 to a
variant-effect annotation web service. It then shows the annotated variants as a
table whose rows can be selected. This project models the logic of that page
(`src/components/Dashboard.tsx`) and proves what it does:

- `Vcf`: the VCF line extractor (`parseVCFToJson`). It splits the text on line feeds,
  skips lines starting with `#`, keeps lines with more than one tab-separated field,
  and joins their first eight fields with single spaces. `Text` supplies JavaScript's
  `split`, `join`, `startsWith` and integer-to-text conversion, with their round trips.
- `Chunker`: `chunkArray`, the loop that cuts the descriptor list into batches.
- `Batch`: what the sequential request loop of `postToApi` makes of the per-request
  outcomes. Either every batch succeeds, or the first failure discards everything.
- `Annotation`: the annotation record, with JavaScript `undefined`/`null`/falsy values
  made explicit, and the twelve column extractors of `headers`.
- `Selection`: the row selection. It is a JavaScript `Set`, modelled as a duplicate-free
  sequence in insertion order, with toggle, select-all and the selected-data mapping.
- `Dashboard`: the component state (`apiResponse`, `selectedRows`, `loading`, `error`)
  as a class. Its methods are the upload handler, `postToApi`, the selection handlers
  and the report and summary actions.

The HTTP call is replaced by a sequence with one outcome per batch. `None` means
the request threw: a network error, an error status or an unusable body.
`Some(results)` is the result array the service returned. The file read hands over
only its text.

Three behaviours of the code are easy to misread, and the model keeps them as written:

- After a failed submission, `apiResponse` keeps the results of the previous upload.
  It is not emptied. The table is hidden only because `error` is set
  (Dashboard.tsx lines 87-89 and 154).
- The selection is not cleared when a new upload replaces `apiResponse`. It may then
  name rows that no longer exist. Those give `undefined` entries in the report data.
- The report and summary data follow the `Set`'s insertion order, not ascending row
  order (`Array.from(selectedRows)`, lines 107 and 113).

## Model

| member | source | states |
|---|---|---|
| `Text.Split` | src/components/Dashboard.tsx:54 | `split` on one character always gives at least one piece, and no piece contains the separator |
| `Text.JoinSplit` | src/components/Dashboard.tsx:54 | joining the split pieces with the separator gives back the original text, so splitting loses nothing |
| `Text.SplitJoin` | src/components/Dashboard.tsx:62 | splitting a join of separator-free pieces gives back exactly those pieces |
| `Text.SplitMoreThanOne` | src/components/Dashboard.tsx:60-61 | a line splits into more than one field exactly when it contains the separator |
| `Text.IntToString` | src/components/Dashboard.tsx:14 | the decimal text of an integer inside a template literal is non-empty, made of digits, starts with '-' exactly for negative numbers, and has no leading zero (as `${n}` writes it) |
| `Text.NatToStringValue` | src/components/Dashboard.tsx:14 | the digits written for a natural number denote that number |
| `Text.IntToStringValue` | src/components/Dashboard.tsx:14 | the text written for an integer reads back as that integer (round trip) |
| `Vcf.ParseVcfToJson` | src/components/Dashboard.tsx:53-68 | the `forEach` loop returns exactly the descriptor list of the file's lines |
| `Vcf.ExtractLinesAppend` | src/components/Dashboard.tsx:57-65 | extraction works line by line: the descriptors of two blocks of lines are those of the first block followed by those of the second, so file order is kept (`Vcf.ExtractLines` is the `forEach` of lines 57-65 as a function) |
| `Vcf.ExtractLine` | src/components/Dashboard.tsx:58-64 | one line gives its descriptor if it is a record, and nothing otherwise |
| `Vcf.ExtractLinesMember` | src/components/Dashboard.tsx:57-65 | a string is among the descriptors exactly when some record line of the input has it as its descriptor |
| `Vcf.RecordIffTab` | src/components/Dashboard.tsx:58-61 | a line is a record exactly when it does not start with '#' and contains a tab |
| `Vcf.DescriptorFields` | src/components/Dashboard.tsx:60-62 | when no field contains a space, a descriptor splits on spaces into exactly the first min(8, n) fields of its line, so fields 9 and later are dropped (`Vcf.Descriptor` is `columns.slice(0, 8).join(" ")`) |
| `Vcf.DescriptorOfFields` | src/components/Dashboard.tsx:60-62 | a line of two to eight tab-free fields is a record unless it is a comment, and its descriptor is the space-join of all its fields |
| `Vcf.RecordLine` | src/components/Dashboard.tsx:60-63 | a non-comment line built from two or more tab-free fields yields the space-join of its first eight fields |
| `Vcf.SkippedLine` | src/components/Dashboard.tsx:58-61 | a comment line, or a line without a tab, yields no descriptor |
| `Vcf.ExtractExample` | src/components/Dashboard.tsx:53-68 | a file of a header line, an 8-field record, a 9-field record and a tab-free line yields exactly two descriptors: all eight fields of the first record and the first eight of the second |
| `Chunker.ChunkArray` | src/components/Dashboard.tsx:27-33 | the loop returns batches whose concatenation is the input. Every batch holds between 1 and `chunkSize` items, all but the last exactly `chunkSize`, and there are ceil(n / `chunkSize`) of them |
| `Chunker.FlattenChunks` | src/components/Dashboard.tsx:27-33 | concatenating the batches in order reproduces the input exactly (`Chunker.Chunks` is the batches of lines 29-30 as a function) |
| `Chunker.ChunkSizes` | src/components/Dashboard.tsx:29-30 | every batch is non-empty with at most `chunkSize` items; all but the last have exactly `chunkSize` |
| `Chunker.ChunkCount` | src/components/Dashboard.tsx:29 | the number of batches is ceil(n / `chunkSize`) |
| `Chunker.ChunkExample` | src/components/Dashboard.tsx:72 | 450 descriptors are sent as three requests of 200, 200 and 50 |
| `Batch.FirstFailure` | src/components/Dashboard.tsx:78-89 | the index of the first failed request: every earlier request succeeded. It is absent exactly when all requests succeed |
| `Batch.AccumulateSucceeds` | src/components/Dashboard.tsx:77-87 | the loop produces a result list exactly when every request succeeds, that is, when there is no first failure (`Batch.Accumulate` is what the loop of lines 77-87 accumulates) |
| `Batch.AccumulateFails` | src/components/Dashboard.tsx:88-89 | one failed request, at any position, discards every result, including those of earlier successful requests |
| `Batch.AccumulateLength` | src/components/Dashboard.tsx:85 | when all requests succeed, the number of results is the sum of the per-request result counts |
| `Batch.AccumulateOrder` | src/components/Dashboard.tsx:78-86 | when all requests succeed, request k's results appear in the service's order, right after those of requests 0 to k-1 |
| `Batch.AccumulateExample` | src/components/Dashboard.tsx:78-89 | with three requests where the third fails after two succeed, no results are kept and the failure is at index 2 |
| `Annotation.OrDash` | src/components/Dashboard.tsx:196 | `v \|\| "-"` is the value itself when it is truthy and "-" otherwise, so the result is always truthy |
| `Annotation.Row` | src/components/Dashboard.tsx:192-197 | a table row has one cell per column, in header order, each computed by that column's extractor (`Annotation.Cell`) |
| `Annotation.LabelsDistinct` | src/components/Dashboard.tsx:12-25 | there are twelve columns with pairwise distinct labels (the labels are React keys) |
| `Annotation.CellNeverBlank` | src/components/Dashboard.tsx:12-25 | every column of every result shows a truthy value |
| `Annotation.LocationShape` | src/components/Dashboard.tsx:14 | Location has no fallback: it is the region name's text, then ':', then start and end. With all three absent it reads "undefined:undefined-undefined" (`Annotation.LocationColumn`, with `Annotation.TemplateText` for `${…}`) |
| `Annotation.TranscriptColumnSpec` | src/components/Dashboard.tsx:17-23 | a transcript column shows the field of the first transcript consequence when that exists and is truthy, and "-" otherwise (in both directions) (`Annotation.TranscriptColumn`) |
| `Annotation.TranscriptColumnReadsFirstOnly` | src/components/Dashboard.tsx:17-23 | transcript consequences after the first never affect a transcript column |
| `Annotation.PhenotypesReadsSecondEntry` | src/components/Dashboard.tsx:24 | PHENOTYPES shows the second colocated variant's `phenotype_or_disease` (or "-"), and "-" when there are fewer than two (`Annotation.PhenotypesColumn`) |
| `Annotation.PhenotypesIgnoresFirstEntry` | src/components/Dashboard.tsx:24 | replacing the first colocated variant never changes PHENOTYPES |
| `Selection.Remove` | src/components/Dashboard.tsx:99 | `delete` removes exactly the given index, keeps the others, keeps the selection duplicate-free, and leaves it unchanged when the index is absent |
| `Selection.RemoveAt` | src/components/Dashboard.tsx:99 | `delete` of the entry at position i leaves the other entries in their insertion order |
| `Selection.Toggle` | src/components/Dashboard.tsx:96-104 | toggling flips the given index's membership and leaves every other index as it was. A newly selected index goes last in insertion order; a selected one is deleted. The selection stays duplicate-free |
| `Selection.RemoveAppended` | src/components/Dashboard.tsx:99-101 | deleting an index that was just added restores the selection exactly |
| `Selection.ToggleTwice` | src/components/Dashboard.tsx:96-104 | toggling the same index twice restores the selected set, and restores the exact sequence when the index was not selected |
| `Selection.AllIndices` | src/components/Dashboard.tsx:164 | select-all gives the indices 0 .. n-1 in row order, each once |
| `Selection.AllIndicesMembers` | src/components/Dashboard.tsx:164 | select-all selects exactly the indices 0 .. n-1 |
| `Selection.SelectAllCount` | src/components/Dashboard.tsx:164 | select-all selects each of the n rows exactly once |
| `Selection.SelectedData` | src/components/Dashboard.tsx:107 | the selected data has one entry per selected index |
| `Selection.SelectedDataAt` | src/components/Dashboard.tsx:107 | an entry is the result at the selected index when that index is a row, and undefined when it is not |
| `Selection.SelectAllData` | src/components/Dashboard.tsx:164 | after select-all, the report data is the whole result list in row order |
| `Dashboard.DashboardState.constructor` | src/components/Dashboard.tsx:6-9 | the state starts with no results, no selection, not loading and no error |
| `Dashboard.DashboardState.PostToApi` | src/components/Dashboard.tsx:70-94 | requests go out in batch order and stop after the first failure. If all succeed, `apiResponse` is all results in order and `error` is null. If one fails, `apiResponse` keeps its earlier value, `error` is set and the table is hidden. `loading` ends false and the selection is untouched (`TableVisible` is the condition of line 154) |
| `Dashboard.DashboardState.HandleFileText` | src/components/Dashboard.tsx:39-48 | a file with no descriptors raises the alert, sends nothing and changes no state. Otherwise the descriptors are submitted as `PostToApi` describes: all batches are sent, covering every descriptor, when none fails; exactly k+1 are sent when batch k fails; the final state is as `PostToApi` states |
| `Dashboard.DashboardState.ToggleRowSelection` | src/components/Dashboard.tsx:96-104 | the selection becomes the toggle of the old one: only the given index changes membership |
| `Dashboard.DashboardState.SelectAllChanged` | src/components/Dashboard.tsx:162-167 | checking selects exactly the rows 0 .. n-1 of the current results; clearing empties the selection |
| `Dashboard.DashboardState.GenerateReport` | src/components/Dashboard.tsx:106-110 | the report receives, for each selected index in selection order, that result, or undefined when the index is not a row |
| `Dashboard.DashboardState.GenerateSummarize` | src/components/Dashboard.tsx:112-116 | the summary receives, for each selected index in selection order, that result, or undefined when the index is not a row: the same data as the report |

## Left out

- Reading the file (`FileReader`, `readAsText`, the `if (file)` check): only the text it delivers is modelled.
- The HTTP request (`axios.post`, its URL and headers): each request is one outcome in an input sequence. `HandleFileText` and `PostToApi` require one outcome per batch.
- A request that never settles: axios is called without a timeout, so such a request leaves `loading` true forever. The model assumes every request settles, with results or with an error, so `PostToApi` always returns with `loading` false.
- `alert` and the console output: `HandleFileText` returns `alerted` instead of showing the alert. Console logging is not modelled.
- Overlapping uploads: a second upload can start while an earlier one is still waiting. This concurrency is not modelled. React's deferred state updates are modelled as immediate assignments.
- The intermediate `loading == true` state, while requests are waiting, is not visible after the call. It is stated only as a loop invariant of `PostToApi`.
- JSX rendering, styling, the spinner and navigation (`useNavigate`). React's display of a cell value is also left out: a cell is the JavaScript value the extractor returns, and React shows `true` as nothing.
- `Annotation.Scalar`: numbers are integers. NaN (which is falsy) and fractional numbers are not modelled. `Text.IntToString` always writes plain decimal digits; JavaScript writes integers of magnitude 10^21 or more in exponent form (`1e+21`), which is not modelled.
- Every result in the service's response is an object. A `null` entry would make the Location extractor (`data.seq_region_name`) throw during rendering; the model cannot express that. A `transcript_consequences` or `colocated_variants` entry is always an object, never `null`. A non-array value in those properties is treated like an absent one.
- Route table (`src/App.tsx`): it holds no logic.
