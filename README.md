# Medical laboratory assistant: a verified model of its retrieval core

The system answers French questions about a clinical laboratory. It has two retrieval-augmented
pipelines and a small web layer:

- `RAGSystem` (rag_system.py) reads markdown documents. It cuts each one into overlapping token
  windows of 500 tokens, 50 shared between neighbours. Each chunk is titled by the document's first
  `# ` heading and keyed `<filename>_<i>`. Chunks are embedded and stored ten at a time. A question
  retrieves the five nearest chunks, which go to a chat model; the answer cites every retrieved chunk.
- `CompendiumRAG` (compendium_rag.py) reads the Belgian laboratories' JSON catalogues. The laboratory
  comes from the file name. Each item is normalised into one record: nested blocks are read first,
  then flat keys override them, and items without a title or a link are dropped. Each record is
  indexed by a line-per-field search text, fifty at a time, keyed `<laboratoire>_<titre>_<position>`.
  A question retrieves the ten nearest analyses; the answer cites the first five, with long fields cut.
- The Flask layer (app.py) checks the `/api/ask` request body before asking the pipeline. Its
  `/api/sources` endpoint groups the stored chunk metadata by file.

Modules:

- `Strings`: Python's `strip`, `split`, `join`, `lower`, `in` and integer formatting.
- `Chunking`: the `range(0, n, step)` windows.
- `Store`: the vector collection as a class over a map, and the batched build both pipelines share.
- `Json`: the JSON values the loaders look into.
- `Rag`, `Compendium` and `App`: the three source files.

The foreign services are function-valued fields of the pipeline classes, set by their constructors.
They are the tokenizer, the embedding provider, the index's nearest-neighbour query, the chat model,
and `round(x, 3)` / `:.3f`. Tokenizing returns `None` where tiktoken raises, as on text holding a
special token. An embedding call returns `[]` when it fails; the contract `ValidEmbedder` says it
otherwise returns one vector per text. A failed query is `None`; the contract `ValidIndex` says a
successful one returns at most `n` hits, each a stored entry. A failed completion is a `Failure`
carrying the message of the exception. File reading is an input: a markdown file's
`content`, or a catalogue's `data`, is `None` when it could not be read or parsed.

## Model

| member | source | states |
|---|---|---|
| Chunking.Coverage | rag_system.py:68-71 | every token lies in window number `j / step` of the chunking, at offset `j - k*step`, and that window exists |
| Chunking.Overlap | rag_system.py:68-70 | a full window's last `overlap` tokens are the next window's first `overlap` tokens |
| Chunking.RangeCountZero | rag_system.py:68 | no tokens gives no chunk; some tokens give at least one |
| Chunking.RangeCountIsCeiling | rag_system.py:68 | the number of windows is the least `c` with `c * step >= len(tokens)`, the ceiling of `len / step` |
| Rag.RagSystem.ChunkText | rag_system.py:53-73 | `chunk_text` fails exactly when encoding fails; otherwise it returns ceil(len(tokens)/(max-overlap)) chunks, chunk `k` the decoded window of up to `max` tokens at `k*(max-overlap)` |
| Chunking.WindowShape | rag_system.py:69 | a window `tokens[i:i+max]` of a non-empty rest holds `min(max, n - i)` tokens, the ones from position `i` on |
| Rag.Chunks | rag_system.py:65-73 | defines what `chunk_text` returns, `None` when `encode` raises |
| Rag.ExtractTitle | rag_system.py:112-126 | defines `_extract_title` over the text's lines |
| Rag.ChunkId | rag_system.py:103 | defines the chunk id `f"{filename}_{i}"` |
| Rag.ExtractTitleFirst | rag_system.py:122-125 | the title is the stripped rest of the first line starting with `# ` |
| Rag.ExtractTitleUntitled | rag_system.py:126 | a text without such a line is titled `Document sans titre` |
| Rag.ExtractTitleIgnoresRest | rag_system.py:123-125 | once a heading line exists, appended lines never change the title |
| Rag.ExtractTitleFirstLine | rag_system.py:122-125 | a text whose first line is a heading is titled by it whatever follows |
| Rag.ExtractTitleExample | rag_system.py:112-126 | `# Interactions médicamenteuses`, then a newline and any further lines, is titled `Interactions médicamenteuses` |
| Rag.ChunkIdInjective | rag_system.py:103 | `f"{filename}_{i}"` determines both the file name and the index, even for names with underscores |
| Rag.RagSystem.LoadDocuments | rag_system.py:75-110 | the documents are `DocumentsOf(files)`: every file's chunks in file order, each with the file's title and id `<name>_<i>` |
| Rag.RagSystem.LoadFile | rag_system.py:88-108 | one turn of the file loop appends exactly that file's documents, none when reading or encoding raises |
| Rag.FileDocuments | rag_system.py:88-108 | defines one file's documents: one per chunk, none when the `try` body raises |
| Rag.DocumentsOf | rag_system.py:84-110 | defines the documents of all files, file after file |
| Rag.DocumentsOfConcat | rag_system.py:87-110 | loading two groups of files is loading each, in order |
| Rag.FailingFileAddsNothing | rag_system.py:107-108 | a file that cannot be read or whose text the tokenizer refuses contributes nothing, and the other files' documents are unchanged |
| Rag.DocumentsShape | rag_system.py:98-104 | every document carries the name of one of the files and a chunk id made from that name |
| Rag.DocumentIdsDistinct | rag_system.py:98-104 | files with distinct names yield pairwise distinct chunk ids |
| Rag.RagSystem.BuildDatabase | rag_system.py:148-197 | no document leaves the collection untouched; otherwise a fresh collection holds exactly the batches of ten whose embedding succeeded |
| Rag.RagSystem.IndexDocuments | rag_system.py:159-193 | the collection is replaced by a fresh one that ends up holding exactly the entries of every embedded batch of ten |
| Rag.RagSystem.AddBatch | rag_system.py:175-193 | one loop turn takes the collection from the entries of the first `b` batches to those of the first `b + 1` |
| Rag.BuildStep | rag_system.py:175-193 | the slice `documents[i:i+10]` is batch `b`; its ids are distinct, new to the collection, and what it adds is exactly its entries or nothing |
| Rag.BuildStoresDocuments | rag_system.py:174-193 | after a build, chunk `j` is stored iff its batch was embedded, with its text and `{filename, title, chunk_id}` |
| Rag.BuildStoresNothingElse | rag_system.py:184-193 | after a build, every stored key is some document's chunk id |
| Store.Collection.Add | rag_system.py:184-193 | `add` with fresh distinct ids keeps the old entries, adds exactly the new ones, and the count grows by their number |
| Store.EntriesAt | compendium_rag.py:256-271 | with distinct ids the added map holds exactly the ids, each with its own embedding, document and metadata |
| Store.Built | rag_system.py:174-193 | defines the collection after the first `b` batches: each batch `items[b*size:b*size+size]` adds its entries when its embedding call returned something |
| Store.BuiltContents | compendium_rag.py:246-271 | after the whole batched build, position `jj` of batch `b` is stored under its id iff batch `b` was embedded, with its vector, text and metadata, and no other key is stored |
| Rag.RagSystem.SearchDocuments | rag_system.py:199-235 | one result per hit in the index's order with `score = 1 - distance`; a failed embedding or query gives `[]`; with a valid index there are at most `n` results, each a stored chunk's text, file name and title |
| Rag.Retrieval | rag_system.py:223-228 | defines one formatted result: the hit's text, file name and title, with `score = 1 - distance` |
| Rag.ContextHasEveryDocument | rag_system.py:255-258 | every context document's `Document: <title>` block reaches the chat model |
| Rag.ContextText | rag_system.py:255-258 | defines the context: the `Document: <title>` blocks joined by blank lines |
| Rag.RagSystem.GenerateAnswer | rag_system.py:237-311 | no context gives the fixed apology; an answer cites one `{title, filename, round(score,3)}` per document in order; a failure gives the error text and no sources |
| Rag.RagSystem.AskQuestion | rag_system.py:313-339 | the query is echoed; nothing retrieved gives the fixed answer, and so does an empty collection under a valid index; otherwise `generate_answer` on the five nearest chunks |
| Compendium.LabName | compendium_rag.py:79-89 | defines the laboratory if-chain on the lower-cased file name |
| Compendium.LabNameIsFirstMatch | compendium_rag.py:79-89 | the laboratory if-chain is the marker table `lhub, uza, citadelle, chu_ulg` read in order on the lower-cased name |
| Compendium.FirstMatchAt | compendium_rag.py:79-89 | the first marker that occurs decides, whatever later ones say |
| Compendium.FirstMatchNone | compendium_rag.py:88-89 | no marker gives `Laboratoire inconnu` |
| Compendium.LabNameIgnoresCase | compendium_rag.py:79-87 | attribution does not depend on the case of the file name |
| Compendium.LabNameRange | compendium_rag.py:79-89 | the laboratory is one of the four names or the unknown one |
| Compendium.CompendiumRag.NestedFields | compendium_rag.py:106-126 | the nested `analyse`, `pre_analytique`, `analytique`, `post_analytique` objects give description, sampling, technique and reference |
| Compendium.CompendiumRag.NormaliseItem | compendium_rag.py:95-150 | an item is kept iff its `titre` and `lien` are non-empty, and then becomes the record of its fields |
| Compendium.ItemAnalysis | compendium_rag.py:95-148 | defines the record an item normalises to |
| Compendium.FlatKeysOverride | compendium_rag.py:128-136 | a flat `description`, `indication`, `methode` or `types_echantillons` key replaces what the nested blocks gave |
| Compendium.ReferenceOnlyFromPost | compendium_rag.py:123-126 | the reference value depends on the `post_analytique` key alone |
| Compendium.SamplingFallback | compendium_rag.py:113-116 | the sample type is the appropriate sample type, or the container when that is empty |
| Compendium.AnalyseDescription | compendium_rag.py:107-111 | an `analyse` object contributes exactly its `Service:` and `Matrice:` lines |
| Compendium.EmptyItem | compendium_rag.py:95-104 | an item with none of the keys that set the optional fields gets an empty code, description, indication, sample type, technique and reference; an empty item is dropped |
| Compendium.TitleAndLinkOnly | compendium_rag.py:79-104 | an item of `lhub_analyses.json` with only `titre` and `lien` becomes an LHUB-ULB analysis with every other field empty |
| Compendium.AdmitOne | compendium_rag.py:92-150 | one item yields an analysis iff it is an object with non-empty `titre` and `lien` |
| Compendium.Admit | compendium_rag.py:92-150 | defines one file's analyses: each object item that passes `if titre and lien`, normalised, in order |
| Compendium.AdmitConcat | compendium_rag.py:92-150 | items are admitted one by one: the analyses of `a + b` are those of `a` then those of `b` |
| Compendium.AdmitValid | compendium_rag.py:138-150 | every admitted analysis has a title, a link and the file's laboratory, and there are at most as many as items |
| Compendium.CompendiumRag.LoadLabData | compendium_rag.py:62-155 | `load_lab_data` returns the file's admitted items in order, or nothing for an unreadable file |
| Compendium.FileAnalyses | compendium_rag.py:62-155 | defines what `load_lab_data` returns, `[]` for an unreadable file |
| Compendium.AllAnalyses | compendium_rag.py:157-175 | defines what `load_all_analyses` returns: the files' analyses, file after file |
| Compendium.CompendiumRag.LoadAllAnalyses | compendium_rag.py:157-175 | `load_all_analyses` concatenates the files' analyses in order |
| Compendium.AllAnalysesConcat | compendium_rag.py:169-172 | loading two groups of files is loading each, in order |
| Compendium.AllAnalysesValid | compendium_rag.py:138-150 | every analysis loaded from any file has a non-empty `titre` and `lien` |
| Compendium.SearchText | compendium_rag.py:177-198 | defines `create_search_text`: the non-empty labelled lines joined by newlines |
| Compendium.SearchLines | compendium_rag.py:187-198 | the search text's lines are `Titre:` and `Laboratoire:` always, and each other line exactly when its field is non-empty, in fixed order |
| Compendium.SearchTextHasKeyLines | compendium_rag.py:187-198 | the search text contains the title line, the laboratory line, and the code line when there is a code |
| Compendium.NonEmptyConcat | compendium_rag.py:198 | the `if part` filter works part by part |
| Compendium.AnalysisId | compendium_rag.py:270 | defines the id `f"{laboratoire}_{titre}_{i+j}"` |
| Compendium.AnalysisIdPosition | compendium_rag.py:270 | an id `<lab>_<titre>_<i+j>` determines its global position |
| Compendium.AnalysisIdsDistinct | compendium_rag.py:270 | the ids of any list of analyses are pairwise distinct, repeated titles included |
| Compendium.CompendiumRag.BuildDatabase | compendium_rag.py:220-275 | no analysis leaves the collection untouched; otherwise a fresh collection holds exactly the batches of fifty whose embedding succeeded |
| Compendium.CompendiumRag.IndexAnalyses | compendium_rag.py:231-271 | the collection is replaced by a fresh one that ends up holding exactly the entries of every embedded batch of fifty |
| Compendium.CompendiumRag.AddBatch | compendium_rag.py:247-271 | one loop turn takes the collection from the entries of the first `b` batches to those of the first `b + 1` |
| Compendium.BuildStep | compendium_rag.py:247-271 | the slice `analyses[i:i+50]` is batch `b`; its ids are distinct, new to the collection, and it adds exactly its entries or nothing |
| Compendium.BuildStoresAnalyses | compendium_rag.py:246-271 | after a build, analysis `j` is stored under its positional id iff its batch was embedded, with its search text and its full record |
| Compendium.BuildStoresNothingElse | compendium_rag.py:256-271 | after a build, every stored key is the id of some analysis at its position |
| Compendium.BuiltAdmitsOnlyValid | compendium_rag.py:138-150 | no stored record lacks a `titre` or a `lien`, whatever the embedding calls did |
| Compendium.CompendiumRag.SearchAnalyses | compendium_rag.py:277-320 | one result per hit in the index's order carrying the stored record and `score = 1 - distance`; a failure gives `[]`; with a valid index there are at most `n` results, each a stored record |
| Compendium.ContextHasFirstFive | compendium_rag.py:340-353 | each of the first five analyses' numbered `=== ANALYSE k ===` blocks reaches the chat model |
| Compendium.ContextText | compendium_rag.py:340-353 | defines the context: the numbered blocks of the first five analyses joined by blank lines |
| Compendium.Truncate | compendium_rag.py:405-407 | defines `s[:n] + "..."` for a field longer than `n` |
| Compendium.TruncateShape | compendium_rag.py:406-408 | a cut field keeps its first `n` characters, grows by at most three, and a short field is unchanged |
| Compendium.CitationTitle | compendium_rag.py:396-398 | defines the cited title, `titre` with ` (code)` when there is a code |
| Compendium.CitationTitleShape | compendium_rag.py:397-399 | the cited title starts with the title and equals it exactly when there is no code |
| Compendium.Cite | compendium_rag.py:396-410 | defines one source entry: the cited title, laboratory, link, code, the fields cut to 100/50/50 and the rounded score |
| Compendium.CompendiumRag.GenerateResponse | compendium_rag.py:322-422 | nothing found gives the fixed apology; an answer cites the first five analyses in order, titled with their code, fields cut to 100/50/50; a failure gives the error and no sources |
| Compendium.CompendiumRag.AskCompendium | compendium_rag.py:424-450 | the query is echoed; nothing found gives the fixed answer, and so does an empty collection under a valid index; otherwise the response for the ten nearest analyses |
| App.Listing | app.py:107-122 | defines the listing: one entry per file name in first-seen order |
| App.NamesSpec | app.py:107-117 | the listed file names are distinct, are exactly the files with a chunk, and come in the order of their first chunks |
| App.ListingSpec | app.py:107-121 | one entry per file with chunks, with the title of its first chunk and its positive chunk count, in first-seen order |
| App.ListingTotal | app.py:107-121 | the chunk counts of the listing add up to the number of stored chunks |
| App.GetSources | app.py:99-122 | the loop over the metadata, with its dictionary and insertion order, returns exactly the listing |
| App.AddChunk | app.py:109-117 | one loop turn registers a new file with its title and counts one more chunk of it |
| App.Validate | app.py:43-57 | defines the request checks of `ask_question` |
| App.ValidateAccepts | app.py:43-57 | a question is accepted iff the body is an object with a string `question` that is not blank; what is accepted is non-empty, stripped, and the slice of the input with only white space around it |
| App.ValidateRejects | app.py:43-74 | a body that is not JSON or a non-string `question` gets 500; no body or no `question` gets 400 `Question manquante`; a blank one gets 400 `Question vide` |
| App.ValidateIdempotent | app.py:51 | submitting an accepted question as it was accepted gets it accepted unchanged |
| App.Ask | app.py:38-74 | a rejected body gets 400 or 500 with its error; an accepted one gets the pipeline's answer, sources and echoed query for the stripped question |

## Left out

- Printing, the Flask routing, JSON encoding, the `/api/health` and error-handler routes, and the HTTP server are not modelled.
- Globbing the data directories and reading files are inputs: `MarkdownFile.content` and `LabFile.data` are `None` for an unreadable file. The order of the files is the order given.
- The tokenizer, the embedding provider, the nearest-neighbour ranking, the chat model and the float rounding/formatting are foreign. They are parameters, and the proofs rely on nothing about them beyond `ValidEmbedder` and `ValidIndex`.
- Rag.RagSystem.ChunkText: requires `overlap < max_tokens`. With `overlap == max_tokens` Python's `range` raises, and with a larger overlap it yields nothing. Only the defaults 500/50 are used.
- Rag.RagSystem.BuildDatabase: requires distinct file names. The files come from one directory's glob, so their base names are distinct.
- Store.Collection.Add: requires fresh, distinct ids. The index's behaviour on a duplicate id is not modelled; both builds prove their ids fresh and distinct.
- Deleting the old collection is modelled as replacing the `collection` object with a new, empty one.
- JSON leaves that are not strings (numbers, `null`, lists) read as `""`. The source behaves differently. It keeps the raw value of a flat key, such as `"code": 1234`, where the model blanks the field; a truthy non-string `titre` or `lien` keeps the record, which the model drops. The f-strings of the nested blocks render a non-string as its `str`, as in `Service: None`, where the model writes `Service: `.
- A catalogue whose top level is an object, not an array, is given as `None` or as the list of its keys. Python iterates the keys, none of them an object, so both the source and the model yield no analyses.
- A request body that is JSON but not an object is not modelled.
- App.Ask: the 500 reply carries the fixed prefix `Erreur serveur: ` without the exception's text, which belongs to the Python runtime.
- Strings.Lower: lower-cases ASCII letters only. Python's `str.lower` also folds other alphabets; the laboratory markers are ASCII.
- `collection.get()` is modelled as the stored metadata in some order. App.GetSources takes that sequence as its input.
- A metadata record without `filename` or `title` (a `KeyError`, hence a 500) cannot arise: the build always writes both keys.
- A chat reply whose content is `None` is not modelled; the answer is a string.
