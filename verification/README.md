# RAG over procedure manuals — a verified model of its core

The system answers questions about a folder of Word and PDF procedure
manuals. An ingestion script (`main.py`) converts every `.docx`/`.pdf` file
of the folder into chunks. It stores each chunk's text with a
`{"source": file name}` metadata dict. It stops with exit status 1 when no
chunk was produced. A web service (`app.py`) keeps a process-wide
conversation log. For each question it shows the model the last four log
entries. It answers from the retrieved chunks and appends the question and
the answer to the log. It lists the distinct source files of the retrieved
chunks under the answer. The service can also export the log and report
how many chunks each source file has.

This Dafny project models those pieces of sequential logic. Every library
is an input to the model: the vector store, the language model, the
document converter, the chunker and the PDF writer.

- `common.dfy` (`Common`): `Option`/`Result`, `metadata.get("source", "Unknown")`,
  de-duplication, occurrence counts, `str.join` and an order-preserving
  concatenation of per-element pieces.
- `conversation.dfy` (`Conversation`): the `conversation_history` list as
  the class `ConversationLog`, with append, clear and the history
  formatter. `format_history` is specified by `History`.
- `response.dfy` (`Response`): `format_docs`, the source list, the response
  text and `query_documents`.
- `export.dfy` (`Export`): the decisions of `export_to_pdf`, the plain-text
  record layout and the 500-character truncation of the styled export.
- `statistics.dfy` (`Statistics`): the counting loop, the sort by count and
  the report lines of `get_document_statistics`.
- `ingestion.dfy` (`Ingestion`): the loop of `main.py` over the folder, with
  `all_chunks`/`chunk_metadatas` as the class `ChunkStore`.

Inputs that stand for the outside world:
- `retrieved`: what the chain's retriever returns, or the exception it raises.
- `generate`: the language model applied to the filled prompt, as a function
  of (context, history, question).
- `retrievedAgain`: the second retrieval that lists the sources.
- `pdfAvailable`: whether reportlab could be imported.
- `sinkFails`: whether writing or rendering the export raises: the file
  cannot be opened or written, reportlab rejects a paragraph's markup, or
  the document cannot be built.
- `date`: the export's wall-clock date.
- `ids`/`mds`: what `vector_db.get()` returns.
- `files`: the folder listing in glob order.
- `chunkFile`: Docling's conversion followed by the hybrid chunker, giving
  the chunk texts or `None` when either raises.

## Model

| member | source | states |
|---|---|---|
| Common.SourceLabel | app.py:264 | defines a record's label: its `source` entry, or "Unknown" when the key is missing |
| Common.Join | app.py:87 | defines `sep.join(parts)`: the parts in order with one separator between neighbours; its layout is stated by `JoinPlacesPart`, `JoinPlacesSeparator` and `JoinLength` |
| Common.Distinct | app.py:139 | the de-duplicated labels contain no element twice and contain exactly the elements of the input |
| Common.CountPositiveIffIn | app.py:265 | a label has a positive count exactly when it occurs among the labels |
| Conversation.Window | app.py:96 | `log[-4:]`: the last min(4, length) entries, oldest first, each equal to the log entry at the same position from the end |
| Conversation.Line | app.py:97-100 | defines one history line: `role: content` and a newline for a dict entry, nothing for any other entry |
| Conversation.History | app.py:90-101 | defines `format_history`: the placeholder for an empty log, else the lines of the last four entries; its properties are the lemmas below |
| Conversation.HistoryIsPlaceholderIffEmpty | app.py:92-93 | the history is "Aucune conversation précédente." if and only if the log is empty |
| Conversation.HistoryShowsLastFour | app.py:94-101 | with at least four entries the history is exactly the lines of the last four entries, oldest first, each `role: content\n` |
| Conversation.HistoryIgnoresOlder | app.py:96 | entries before the last four never change the history |
| Conversation.LinesSkipNonDict | app.py:97-100 | an entry that is not a dict adds nothing to the history |
| Conversation.LinesEndInNewline | app.py:100 | the rendered lines are empty or end with a newline |
| Conversation.LinesAppend | app.py:96-100 | the lines of two consecutive windows are the lines of the first followed by those of the second |
| Conversation.WindowStartsWithQuestion | app.py:134-135 | in a log built from question/answer pairs the window starts with a user turn and holds whole pairs |
| Conversation.ConversationLog.constructor | app.py:29 | the log starts empty, which is a well-formed log |
| Conversation.ConversationLog.Record | app.py:134-135 | the log gains exactly ("Utilisateur", question) then ("Assistant", answer), earlier entries unchanged, and stays made of question/answer pairs |
| Conversation.ConversationLog.Reset | app.py:326-329 | the log is empty afterwards and both text boxes are cleared |
| Conversation.ConversationLog.FormatHistory | app.py:90-101 | the loop's text equals `History` of the log, and it is the placeholder exactly when the log is empty |
| Response.FormatDocs | app.py:85-87 | no documents give "", a single document gives its content unchanged |
| Response.FormatDocsPlacesChunk | app.py:87 | each chunk text appears unchanged at its offset, in retrieval order, followed by exactly "\n\n" when another chunk follows |
| Response.FormatDocsLength | app.py:87 | the context block is the chunk texts plus one two-character separator between neighbours |
| Response.Sources | app.py:139 | defines the source list: the distinct labels of the retrieved chunks, at first occurrence; `SourcesAreTheDistinctSources` states what it holds |
| Response.Bullet | app.py:144 | defines a source's bullet line; `BulletInjective` states that the source is recoverable from it |
| Response.RagAnswer | app.py:104-131 | defines the chain's result: the retriever's exception, or the model's answer on the context block of the retrieved chunks, the history and the question |
| Response.SourcesAreTheDistinctSources | app.py:139 | the source list has no duplicates, names exactly the retrieved sources ("Unknown" for a missing key) and is as long as that set |
| Response.OneBulletPerSource | app.py:139-144 | for any duplicate-free listing of the retrieved sources there is one bullet line per distinct source, none twice, and a bullet exactly for each retrieved source |
| Response.BulletInjective | app.py:144 | two sources with the same bullet line are the same source |
| Response.FormatResponse | app.py:142-144 | the response is the answer, the sources header and the bullet lines in list order, so it starts with the answer |
| Response.QueryDocuments | app.py:119-148 | on an exception from the chain the log is unchanged and the result is "Erreur: " and the message; otherwise the log gains the two turns, and the result is the answer with the bullets of the second retrieval's sources, or "Erreur: " and the message if that retrieval raises; a well-formed log stays well formed |
| Export.Truncate | app.py:236 | up to 500 characters the content is kept; beyond, the first 500 characters followed by "...", 503 characters in all |
| Export.RecordHeader | app.py:173-174 | the record header is the role line and a 40-dash line, 44 characters longer than the role |
| Export.TextRecordKeepsContent | app.py:173-176 | the text record holds the whole content between its header and a final newline |
| Export.TextRecordsKeepEveryTurn | app.py:170-176 | the text export holds every turn's record in full and in log order |
| Export.TextBanner | app.py:165-168 | defines the text export's banner: two 80-character `=` rules around the title and the date line |
| Export.TextRecord | app.py:173-176 | defines one turn's text record: the role line, a 40-dash line, the content and a newline; `RecordHeader` and `TextRecordKeepsContent` state its layout |
| Export.TextRecords | app.py:170-176 | defines the records of the whole log, in order; `TextRecordsKeepEveryTurn` states that each turn's record is there in full |
| Export.PdfTurns | app.py:210-238 | one styled turn per log entry, in order, with the entry's role, the user style exactly for "Utilisateur", and its content kept up to 500 characters, beyond that its first 500 characters followed by "..." |
| Export.ExportLog | app.py:151-245 | nothing to export exactly for an empty log; an error exactly when an entry is not a dict or writing/rendering fails; otherwise the text file exactly when reportlab is missing, holding the banner and every turn's record, and the styled document exactly when it is present, holding `PdfTurns` of the log |
| Export.WellFormedLogExports | app.py:155-245 | for a non-empty log built by the service the export fails exactly when writing or rendering fails; otherwise it is the styled turns of the log, or the text file without reportlab |
| Export.ResetThenExport | app.py:155-157 | after a reset the export answers that there is nothing to export |
| Statistics.TallyTotal | app.py:263-265 | the per-source counts add up to the number of metadata records |
| Statistics.InsertByCount | app.py:273 | inserting one item keeps every item (a multiset union) and the total count |
| Statistics.InsertKeepsOrder | app.py:273 | inserting into a list in non-increasing count order keeps that order |
| Statistics.SortByCount | app.py:273 | the sorted items are a permutation of the dict items in non-increasing count order |
| Statistics.PermutedTally | app.py:273 | any reordering of the dict items names exactly the keys, each with its own count |
| Statistics.SortedTallyCoversLabels | app.py:260-273 | the sorted items are one per distinct source, each with its record count, adding up to all records |
| Statistics.SumSharesRatio | app.py:274 | the shares of the lines add up to the counted records over the total |
| Statistics.StatisticsReport | app.py:268-273 | the total is the number of ids, the number of sources is the number of distinct labels and of lines, and the lines are in non-increasing count order |
| Statistics.StatisticsRowPerSource | app.py:263-275 | there is a line exactly for each source, holding that source's number of records |
| Statistics.StatisticsShares | app.py:274 | each share is count / total, and the shares add up to 1 when every id has its record |
| Statistics.CountSources | app.py:260-265 | the loop fails exactly when a record has no metadata dict; otherwise the dict's keys are the distinct labels in first-seen order and each count is the label's number of records |
| Statistics.ReportRows | app.py:273-275 | the loop builds exactly the report lines of the sorted items |
| Statistics.DictSize | app.py:270 | the number of sources reported is the number of keys of the dict |
| Statistics.Statistics | app.py:248-280 | no documents exactly when there are no ids; an error exactly when there are ids and a record has no metadata dict; otherwise a report whose total is the number of ids and with one line per counted source |
| Statistics.GetDocumentStatistics | app.py:248-280 | the method's result is the report specified by `Statistics`: nothing for no ids, an error for a missing metadata dict, otherwise the report |
| Ingestion.RFind | main.py:35 | the index of the last dot, or -1: a dot sits there and none after it |
| Ingestion.Suffix | main.py:35 | a non-empty suffix is a proper tail of the name that starts with its only dot and has at least one more character |
| Ingestion.SuffixEmptyIff | main.py:35 | the suffix is empty exactly when no dot strictly inside the name is the last dot |
| Ingestion.Lower | main.py:35 | defines `str.lower()` on ASCII letters; `LowerChars` states it character by character |
| Ingestion.SuffixFilter | main.py:35 | defines the loop's test: the lowercased suffix is ".docx" or ".pdf"; `SuffixFilterIffSupported` states which names pass |
| Ingestion.SuffixFilterIffSupported | main.py:35-36 | the lowercased-suffix test accepts exactly the names ending in .docx or .pdf, in any case, after a non-empty stem |
| Ingestion.CheckExtension | main.py:35-36 | the loop's test keeps a file exactly when it is supported |
| Ingestion.Contribution | main.py:40-55 | a skipped file or one whose conversion raises contributes nothing; otherwise as many chunks as the chunker gave |
| Ingestion.ContributionChunks | main.py:45-51 | a converted file contributes its chunk texts unchanged, in chunker order, each tagged with the file name |
| Ingestion.Produced | main.py:34-51 | defines the chunks the loop produces: each file's contribution, in listing order; the lemmas below state their grouping, count and sources |
| Ingestion.ProducedAppend | main.py:34 | the chunks of two consecutive listings are those of the first followed by those of the second |
| Ingestion.ProducedGroupsByFile | main.py:34-51 | the chunks are grouped by file in listing order: those before file i, file i's own, those after |
| Ingestion.ProducedCount | main.py:45-57 | the total number of chunks is the sum of the chunk counts of the files that passed the filter and converted |
| Ingestion.NothingProducedIff | main.py:60 | nothing is produced exactly when no file of the listing yields a chunk |
| Ingestion.ProducedSources | main.py:49-51 | every chunk's source is a file of the listing that passed the filter and converted |
| Ingestion.SourceTag | main.py:51 | a chunk's metadata dict gives back the file name as its source |
| Ingestion.StoreStep | main.py:49-51 | a converted file extends the text list by its chunk texts and the metadata list by one source tag per text |
| Ingestion.ChunkStore.constructor | main.py:30-31 | both lists start empty and of equal length |
| Ingestion.ChunkStore.AddChunks | main.py:49-51 | the texts are appended to all_chunks and one source tag per text to chunk_metadatas, so the two lists keep equal length |
| Ingestion.Ingest | main.py:30-79 | exit status 1 exactly when no chunk was produced; otherwise the texts and metadata dicts handed to the store are the produced chunks' texts and source tags, in order and of equal length |

## Left out

- The Gradio interface and its event wiring are UI.
- The LangChain chain, the prompt template and the Ollama models and embeddings are library calls. The chain's answer and both retrievals are inputs.
- The Chroma vector store, both opening it and `from_texts`, is external storage. `Ingest` ends with the texts and dicts that would be handed to it.
- Docling's conversion and the hybrid chunker are opaque libraries. They are the input `chunkFile`, which returns `None` when either raises.
- The folder listing is an input sequence. Its glob order is whatever the file system gives.
- Export omits the PDF rendering, header, colours, fonts and spacers. It also omits writing the files, the `exports` directory and the partially written file when writing fails. An export is described by what it would contain.
- The timestamps in file names and headers, and the status messages that name the written file, are not modelled. The date is a parameter.
- The console prints and tracebacks of `main.py` are not modelled.
- The text rendering of the statistics report (the header lines and the decimal counts) is not modelled. The report is kept as data.
- Statistics.StatisticsShares: the percentage is an exact ratio count / total instead of the floating-point `count / total * 100` printed with one decimal.
- Response.Sources: `list(set(...))` has no specified order. The model lists each source at its first occurrence. `OneBulletPerSource` is stated for every duplicate-free listing of the same set.
- Statistics.SortByCount: Python's sort is stable. The model's insertion sort keeps equal counts in dict order, but that stability is not stated as a property.
- Ingestion.Supported: `str.lower()` is modelled on ASCII letters only. The suffix is compared against ".docx" and ".pdf", and no non-ASCII character lowercases to one of their letters, so the filter is unaffected.
- Export.ExportLog, Export.WellFormedLogExports: every exception caught by the export's handler (a non-dict entry, an unwritable file, markup reportlab rejects, a failing `doc.build`) ends in the same `ExportFailed`; the input `sinkFails` stands for all causes outside the log, without modelling which paragraph or byte triggers them or the error text.
- Statistics.Statistics: an exception raised by `vector_db.get()` itself, or a collection that is not a dict, is not modelled; the ids and metadata records are taken as already fetched. Only a missing metadata dict leads to `StatsFailed`.
- The `.get("role", "Unknown")` and `.get("content", "")` defaults in the export are not modelled. They are never taken, because the log only ever stores dicts with both keys.
