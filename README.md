# Sponsorytics backend, modelled in Dafny

Sponsorytics is a small Flask service with two server variants.

- **Ranking server** (`backend/app1.py`):
  - `/upload` takes the two spreadsheets `Companies_in_Milwaukee.xlsx` and `Affiliated_Program_Industry_Features.xlsx` and writes each into the blob container its name selects;
  - `/calculate_similarity` embeds texts submitted in the request, scores each against three reference companies whose embeddings are cached at start-up, and returns the subjects ranked by average score.
- **Spreadsheet server** (`backend/app.py`): `/calculate_similarity` reads both spreadsheets back from storage, takes their "Company Name" columns, joins each into one text, embeds both and scores them against each other.

Both variants share `get_embedding`: at most three attempts, a retry only after a rate-limit failure, and a sleep of 2^attempt seconds between attempts.

The model keeps the deterministic control flow and states what it guarantees. The foreign services are parameters:

- the embedding service is a scripted oracle `(text, attempt) -> Reply`;
- cosine similarity is a score oracle;
- blob download and spreadsheet parsing are oracles returning a value or an error;
- `secure_filename` is an uninterpreted function on names;
- the blob store the upload writes is a class holding a `map` from (container, name) to bytes;
- sleeps are recorded as a list of requested delays.

Files:

- `base.dfy`: `Option`, `Result` and `Bytes` (module `Base`); `Join` and substring containment (module `Text`).
- `storage.dfy`: the configuration, the fixed file names, routing and the `BlobStore` class.
- `embedding.dfy`: the retry loop, as a recursive reference definition and as the loop itself.
- `reference_cache.dfy`: the reference table and the start-up loop that fills the embedding cache.
- `upload.dfy`: `/upload`, as a specification function and as a method over the store.
- `ranking.dfy`: the ranking `/calculate_similarity` with its stable descending sort.
- `company_similarity.dfy`: the spreadsheet-server pipeline.

Behaviour of the code that the model keeps:

- The code sleeps 1 s and then 2 s. It never sleeps after the third attempt.
- The final rate-limit failure is re-raised as it is.
- `dropna()` drops the cells the parser marks missing. `read_excel` already marks empty cells, and strings such as 'NA' or 'null', as missing. The parser oracle stands for that.
- Cosine similarity has no zero-norm guard in the code. It is not modelled (see below).

Some functions are reference definitions with no row of their own. Each works behind the rows that state what it guarantees:

- `Storage.ContainerFor` (backend/app1.py:100) is behind `Storage.RequiredFilesRouting`.
- `Storage.BlobUrl` (backend/app1.py:105) is behind `Upload.SuccessfulUpload`.
- `Upload.StoreLoop` (backend/app1.py:88-110) is behind `Upload.LoopStopsAt` and `Upload.LoopCompletes`.
- `Upload.UploadSpec` (backend/app1.py:70-110) is behind `Upload.UploadFiles` and the lemmas after it.
- `Upload.Names` (backend/app1.py:82) and `ReferenceCache.EmptyCache` (backend/app1.py:41) are plain comprehensions.
- `ReferenceCache.Refs` (backend/app1.py:134) is `reference_embeddings.items()` in table order.

## Model

| member | source | states |
|---|---|---|
| `Embedding.RetryFrom` | backend/app1.py:52-60 | entered at attempt a: ends after at most 3 calls, with the reply to its last call; every earlier reply from a on was a rate limit; a rate limit ends it only on attempt 2; one delay 2^k for each failed attempt k before the last |
| `Embedding.Embed` | backend/app1.py:50-60 | 1 to 3 calls; the outcome is the reply to the last call, so no call follows a success and the function never ends without a value or an exception; all earlier replies were rate limits, so other errors are not retried; a rate limit is raised only on the third attempt; delays are exactly [2^0, ..., 2^(calls-2)] |
| `Embedding.EmbedIsDetermined` | backend/app1.py:51-60 | the contract of `Embed` determines the run uniquely |
| `Embedding.RetryIsTransparent` | backend/app.py:46-56 | two rate limits then a success returns the vector after 3 calls and sleeps [1, 2] |
| `Embedding.ThirdRateLimitIsRaised` | backend/app.py:52-56 | three rate limits: the third is raised, after sleeps [1, 2], with no sleep after it |
| `Embedding.OtherFailureIsNotRetried` | backend/app.py:49-52 | a non-rate-limit failure on attempt 0 propagates after one call and no sleep |
| `Embedding.GetEmbedding` | backend/app1.py:50-60 | the `for attempt in range(retries)` loop returns exactly the reply, call count and delays of `Embed` |
| `ReferenceCache.ReferenceNamesDistinct` | backend/app1.py:34-38 | the three reference names are distinct |
| `ReferenceCache.FillFrom` | backend/app1.py:64-66 | the precompute loop keeps the cache's key set |
| `ReferenceCache.FillFrame` | backend/app1.py:64-66 | an entry that is already set, or whose name is not in the rest of the table, is never recomputed or changed |
| `ReferenceCache.FillSucceedsIff` | backend/app1.py:64-66 | start-up succeeds if and only if every unset entry's description embeds successfully |
| `ReferenceCache.FillSuccess` | backend/app1.py:64-66 | on success every entry is set: unset ones to the embedding of their own description, set ones unchanged; exactly the unset descriptions were sent, in table order |
| `ReferenceCache.FillFailure` | backend/app1.py:64-66 | the first failing unset entry aborts start-up with its reply, after the unset descriptions up to and including it were sent |
| `ReferenceCache.FailureKeepsRest` | backend/app1.py:64-66 | an aborted start-up leaves the failing entry and every later entry as they were |
| `ReferenceCache.FillFromEmpty` | backend/app1.py:41-66 | from the all-None cache of a table with distinct names, start-up succeeds iff every description embeds; then the keys are the table's names, each with its own description's embedding |
| `ReferenceCache.Precompute` | backend/app1.py:64-66 | the loop over `reference_companies.items()` computes exactly `Fill` |
| `ReferenceCache.Initialize` | backend/app1.py:34-66 | for the three reference companies, start-up succeeds iff all three descriptions embed; then the keys are the reference names, each with its own description's embedding, and `reference_embeddings.items()` is those three pairs in table order |
| `Storage.RequiredFilesRouting` | backend/app1.py:100 | `Companies_in_Milwaukee.xlsx` goes to the first container and the other accepted name to the second |
| `Storage.BlobStore.Upload` | backend/app1.py:104 | a write either stores/overwrites the blob or fails with the service's error and leaves the store unchanged |
| `Upload.Missing` | backend/app1.py:83 | a name is missing iff it is required and not among the uploaded names |
| `Upload.MissingInRequiredOrder` | backend/app1.py:83 | the missing names are listed in `required_files` order |
| `Upload.ValidationFailuresWriteNothing` | backend/app1.py:76-86 | no `files` field gives 400 "No files provided"; a missing required name gives 400 listing the missing names; the store is unchanged in both cases |
| `Upload.OnlyMilwaukeeUploaded` | backend/app1.py:83-86 | uploading only the Milwaukee file gives 400 "Missing files: Affiliated_Program_Industry_Features.xlsx" and writes nothing |
| `Upload.LoopStopsAt` | backend/app1.py:90-108 | the loop stops at the first file with a bad name or a failed write, with that file's error; all earlier files are written and no later file is touched |
| `Upload.UnexpectedNameStopsUpload` | backend/app1.py:90-94 | an unexpected name reached in the loop gives 400 naming that file; the store holds exactly the earlier files' writes |
| `Upload.StorageFailureStopsUpload` | backend/app1.py:103-108 | a failed write gives 500 "Upload failed for <name>: <cause>"; the store holds exactly the earlier files' writes |
| `Upload.LoopCompletes` | backend/app1.py:88-110 | when every file passes, all files are written in order and one URL is recorded per distinct name |
| `Upload.SuccessfulUpload` | backend/app1.py:100-110 | success gives 200 with `uploads` keyed by exactly the distinct uploaded names, each URL built from account, container and name, and the store after writing every file |
| `Upload.WrittenFrame` | backend/app1.py:101-104 | writing changes the store only at the keys of the written files |
| `Upload.LastWriteWins` | backend/app1.py:104-106 | the last file written under a key determines its content, so a duplicate name overwrites the earlier write |
| `Upload.UploadFiles` | backend/app1.py:70-110 | the endpoint's reply and new store are exactly those of `UploadSpec` for the old store |
| `Ranking.InsertPermutes` | backend/app1.py:143 | inserting adds exactly the inserted entry |
| `Ranking.InsertKeepsOrder` | backend/app1.py:143 | inserting into a non-increasing list keeps it non-increasing |
| `Ranking.SortByAverage` | backend/app1.py:143 | the sorted list is a permutation of the input, non-increasing by average |
| `Ranking.InsertIsStable` | backend/app1.py:143 | inserting keeps the relative order of the entries of each average, with the new entry ahead of them |
| `Ranking.SortIsStable` | backend/app1.py:143 | for every average, the entries with it keep their input order |
| `Ranking.DescendingFiltersDetermine` | backend/app1.py:143 | two non-increasing lists with the same entries per average, in the same order, are equal |
| `Ranking.StableSortIsUnique` | backend/app1.py:143 | any non-increasing list that is stable with respect to the input equals `SortByAverage` of it, so the model is exactly Python's stable `sorted(..., reverse=True)` |
| `Ranking.EmbedAll` | backend/app1.py:125-127 | every text is embedded in order; the first failure propagates with its message, after requests for exactly the texts up to it |
| `Ranking.ScoreAll` | backend/app1.py:130-141 | one result per subject, in order, with its per-reference scores and their sum divided by the number of references; no references divides by zero |
| `Ranking.CalculateSimilarity` | backend/app1.py:115-148 | `refs` is `reference_embeddings.items()`; after a successful start-up it has three entries (`ReferenceCache.Initialize`), so the division-by-zero case cannot arise in the running server. 400 iff no texts were given, with no embedding request; otherwise the first embedding failure gives 500 with its message; no references gives 500 "division by zero"; otherwise the answer is the stable descending sort of the scored results |
| `Text.Join` | backend/app.py:107-108 | a non-empty list of n elements joins to the total length of the elements plus n-1 separators |
| `Text.JoinShortLists` | backend/app.py:107-108 | a single element is returned unchanged; the empty list gives "" |
| `Text.JoinAppend` | backend/app.py:107-108 | appending an element adds exactly one separator, between the old text and the new element |
| `CompanySimilarity.FetchBlobContent` | backend/app.py:59-68 | returns the blob's bytes, or an error whose message contains the blob name, the container name and the underlying message |
| `CompanySimilarity.DropMissing` | backend/app.py:78 | keeps exactly the present cells and is no longer than the column |
| `CompanySimilarity.DropMissingAppend` | backend/app.py:78 | dropping distributes over concatenation, so row order is preserved |
| `CompanySimilarity.DropMissingEmpty` | backend/app.py:78 | the list is empty iff every cell of the column is missing |
| `CompanySimilarity.DropMissingExample` | backend/app.py:78 | rows Acme, missing, Beta give ["Acme", "Beta"] |
| `CompanySimilarity.ExtractCompanyNames` | backend/app.py:74-80 | success iff the bytes parse and the column exists, giving the present cells in order; otherwise "Error reading Excel file: " with the parser's message or the quoted column name |
| `CompanySimilarity.CalculateSimilarity` | backend/app.py:84-126 | the Milwaukee file comes from the first container and the other from the second; both are fetched before either is parsed; the first fetch or parse failure gives 500 with its message; an empty list gives 400 "No company names found in one or both files"; no embedding is requested in any of these cases; otherwise the two joined texts are embedded in order, a failure gives 500, and success echoes both names, both lists and the score |

## Left out

- Cosine similarity (`cosine_similarity` in both files) is a score oracle. It is numpy floating point with a square root, and a zero-norm vector divides by zero unguarded. Floating-point behaviour, NaN and the range [-1, 1] are not modelled.
- Reals stand for floats throughout: averages and sums are exact, with no rounding.
- The OpenAI call is a scripted oracle, and so is the parsing of its response (`response.data[0].embedding`).
  - The oracle is keyed by text and attempt number. Two requests for the same text therefore see the same scripted replies, and rate limiting that depends on time is not captured.
  - The `except openai.error.RateLimitError` clause is modelled as the intended "rate-limit reply" class. Whether `openai.error` resolves with the v1-style `openai.embeddings.create` client depends on the library version.
- `time.sleep` is not modelled as time. The requested delays are returned as a list.
- The Azure SDK is not modelled.
  - Downloads are an oracle.
  - Writes go to the `BlobStore` map, and a fixed map of faulty keys decides which writes fail and with what message.
- `secure_filename` is an uninterpreted function.
- `pd.read_excel` is an oracle giving columns of optional strings.
  - Cells that are numbers or other non-string values are not modelled. With such cells `", ".join` would raise a type error.
- The HTTP layer is not modelled: Flask routing, JSON parsing and serialization, CORS, dotenv loading and the environment-variable check at start-up.
  - Replies are datatypes carrying the status and the message.
  - The ranking endpoint's `file_texts` is taken as the already-parsed list of (name, text) pairs, with an absent field read as empty. A body that is not JSON at all is not modelled.
- The React front end (`src/`) is not modelled. It renders charts and maps, and its check that both files were chosen only gates navigation.
- `ReferenceCache.Precompute`: start-up happens at import time in the source. A failure there stops the process. The model returns the failing reply instead.
