# Plagiarism detection engine of `rxsht/ad`, modelled in Dafny

This project models the part of the `rxsht/ad` Django application that decides
how original an uploaded thesis is. It covers:

- **the shingle library** (`sim_cos.py`): hashed word windows, their Jaccard
  coefficient, and the originality of a text against a corpus;
- **the production detector** (`detectors/advanced_detector.py`):
  - text preprocessing and the composite similarity score;
  - candidate retrieval: vector search through the Redis cache, or the
    text-based fallback;
  - the verdict tree: file-name duplicates, error and warning exits, minimum
    per-source originality, citations, risk band, plagiarism flag;
- **the Redis cache helpers** (`utils_cache.py`): the once-only connection, the
  `redis://host:port/db` URL parser, and the vector and similarity keys with
  their time to live;
- **the processing state machines**:
  - the Celery task `process_document_plagiarism` with its retries, and
    `batch_process_documents`;
  - the synchronous `process_document_sync`;
  - `Document.calculate_originality` and its post-save trigger;
  - the `reprocess_documents` command;
- **the string helpers**:
  - chapter pairing and sentence splitting (`vector.py`);
  - DOCX text assembly (`docx_extractor.py`);
- **the two legacy detectors** (`advanced_plagiarism_detector.py`,
  `plagiarism_detector.py`) and their report statistics.

How the model is built:

- Every operation whose source changes state is a Dafny `method`:
  - the cache is the class `Cache.RedisCache`;
  - the database is the class `Database.Db`, which records every
    `save(update_fields=...)` in a journal;
  - the Celery broker is the class `Database.Broker`.
- Each such method is proved equal to a function of the old state. The
  properties the code promises are proved about those functions as lemmas.
- Loops that build a list (reading the candidate texts, scoring the pool,
  assembling DOCX lines, resetting documents) are `while` loops. Their
  invariants tie each loop to a left fold over the prefix already seen.
- Scores are exact `real`s.
- The following are taken as parameters, bundled in `Documents.Oracles`, so
  every lemma holds for any choice of them:
  - MD5 of a word window;
  - the cosine similarity of two vectors;
  - the pgvector distance;
  - `calculate_similarity_by_source` and `detect_citations`, which are
    imported but not defined in the code the model covers;
  - Python's `round(x, 2)`.
- The file system is a map from the `txt_file` name to the file's text, or to
  the error that reading it raises.

Two code-level behaviours are kept as the code has them:

- The text-based fallback runs only when the document has no vector
  (advanced_detector.py:203-205). An empty vector search does not trigger it
  (`AdvancedDetector.FallbackOnlyWithoutVector`).
- Per-source scores are paired with `similar_docs` by position
  (advanced_detector.py:251-256). When an earlier candidate has no readable
  text, a later candidate's scores are reported under the earlier candidate's
  id (`AdvancedDetector.MispairedSource`).

## Model

| member | source | states |
|---|---|---|
| SimCos.Windows | Folder/documents/sim_cos.py:7-8 | there are `n-k+1` windows for `n >= k` tokens, and none otherwise; window `i` is tokens `i..i+k` joined by one space |
| SimCos.HashAllSize | Folder/documents/sim_cos.py:9 | hashing the windows into a set gives at most one hash per window |
| SimCos.ShinglesCount | Folder/documents/sim_cos.py:3-10 | a text of `n` tokens has at most `max(0, n-k+1)` shingles, and none when `n < k` |
| SimCos.ShinglesIgnoreSpacing | Folder/documents/sim_cos.py:7-9 | collapsing and stripping whitespace does not change the shingle set |
| SimCos.Coef | Folder/documents/sim_cos.py:12-18 | the coefficient lies in [0,1]; it is 0 for an empty union and otherwise times the union size equals the intersection size |
| SimCos.CoefSymmetric | Folder/documents/sim_cos.py:12-18 | the coefficient is symmetric |
| SimCos.CoefOne | Folder/documents/sim_cos.py:12-18 | the coefficient is 1 exactly when both sets are equal and non-empty |
| SimCos.CoefZero | Folder/documents/sim_cos.py:12-18 | the coefficient is 0 exactly when the sets are disjoint |
| SimCos.UnionAllMember | Folder/documents/sim_cos.py:28-32 | a hash is in the union of the corpus sets exactly when some set holds it |
| SimCos.ShingleSets | Folder/documents/sim_cos.py:30-31 | one shingle set per corpus text, in order |
| SimCos.CorpusShinglesMember | Folder/documents/sim_cos.py:28-32 | a hash is in the corpus shingles exactly when some corpus text produces it |
| SimCos.CorpusShinglesBySet | Folder/documents/sim_cos.py:28-32 | the corpus shingles depend only on the set of corpus texts, not on their order or duplicates |
| SimCos.OriginalityOf | Folder/documents/sim_cos.py:34-36 | originality lies in [-0.01, 99.99] and is 99.99 when nothing is shared |
| SimCos.CalculateOriginalityLargeTexts | Folder/documents/sim_cos.py:20-38 | the loop over the corpus computes the originality of the union and stays in [-0.01, 99.99] |
| SimCos.OriginalityMeaning | Folder/documents/sim_cos.py:34-36 | `(99.99 - originality)` times the union size equals `100` times the shared size |
| SimCos.OriginalityNoOverlap | Folder/documents/sim_cos.py:20-38 | with an empty corpus or a user text shorter than `k` tokens, originality is exactly 99.99 |
| SimCos.OriginalityBySet | Folder/documents/sim_cos.py:28-36 | originality does not depend on the order of, or duplicates among, the corpus texts |
| SimCos.OriginalitySelf | Folder/documents/sim_cos.py:20-38 | a text of at least `k` tokens compared with itself has originality -0.01 |
| SimCos.CorpusOfOne | Folder/documents/sim_cos.py:28-32 | a one-text corpus has exactly that text's shingles |
| Text.Lower | Folder/documents/detectors/advanced_detector.py:37 | lower-casing keeps the length and maps each character on its own (ASCII, Latin-1 and Cyrillic capitals only) |
| Text.LowerIsLower | Folder/documents/detectors/advanced_detector.py:37 | the result of lower-casing is lower case |
| Text.LowerOfLower | Folder/documents/detectors/advanced_detector.py:37 | lower-casing a lower-case text changes nothing |
| Text.LeadingSpaces | Folder/documents/detectors/advanced_detector.py:42 | the longest run of whitespace at the start |
| Text.TrailingSpaces | Folder/documents/detectors/advanced_detector.py:42 | the longest run of whitespace at the end |
| Text.Strip | Folder/documents/detectors/advanced_detector.py:42 | the stripped text neither starts nor ends with whitespace and is no longer than the input |
| Text.StripIsSlice | Folder/documents/detectors/advanced_detector.py:42 | the stripped text is a contiguous slice of the input |
| Text.StripNoEdgeSpaces | Folder/documents/detectors/advanced_detector.py:42 | a text without whitespace at either end is its own strip |
| Text.Collapse | Folder/documents/detectors/advanced_detector.py:40 | after the substitution no two whitespace characters are adjacent, and the only whitespace left is ' ' |
| Text.CollapseFixed | Folder/documents/detectors/advanced_detector.py:40 | a text that already has single plain spaces is unchanged |
| Text.WordLength | Folder/documents/sim_cos.py:7 | the longest run of non-whitespace at the start |
| Text.Split | Folder/documents/sim_cos.py:7 | every token is non-empty and contains no whitespace |
| Text.SplitCollapse | Folder/documents/sim_cos.py:7 | collapsing whitespace runs does not change the tokens |
| Text.SplitStrip | Folder/documents/sim_cos.py:7 | stripping does not change the tokens |
| Text.SplitSpacesThen | Folder/documents/sim_cos.py:7 | leading whitespace does not change the tokens |
| Text.SplitWord | Folder/documents/sim_cos.py:7 | a text without whitespace is one token, or none when empty |
| Text.SplitWordThen | Folder/documents/sim_cos.py:7 | a word followed by whitespace or the end is the first token |
| Text.SplitAllSpaces | Folder/documents/sim_cos.py:7 | a text of whitespace only has no tokens |
| Text.SplitTrailingSpaces | Folder/documents/sim_cos.py:7 | trailing whitespace does not change the tokens |
| Text.IndexFrom | Folder/documents/vector.py:18 | the first occurrence of the separator at or after `k`, or none when there is none |
| Text.SplitOn | Folder/documents/vector.py:18 | `str.split(sep)` gives at least one piece |
| Text.JoinSplitOn | Folder/documents/vector.py:18 | joining the pieces with the separator gives the text back |
| Text.SplitOnJoin | Folder/documents/management/commands/reprocess_documents.py:37 | splitting on a character undoes joining with it when no piece contains it |
| Text.Decimal | Folder/documents/management/commands/reprocess_documents.py:37 | the decimal numeral of `n` is non-empty, all digits, and has value `n` |
| Text.BaseNameShape | Folder/documents/detectors/advanced_detector.py:137 | the base name is the longest suffix without '/', and what precedes it is a '/' |
| Similarity.PreprocessShape | Folder/documents/detectors/advanced_detector.py:34-42 | preprocessed text is lower case, has no whitespace at either end, has single plain spaces only |
| Similarity.PreprocessIdempotent | Folder/documents/detectors/advanced_detector.py:34-42 | preprocessing twice is the same as preprocessing once |
| Similarity.PreprocessTokens | Folder/documents/detectors/advanced_detector.py:34-42 | preprocessing keeps the tokens of the lower-cased text |
| Similarity.ShingleScore | Folder/documents/detectors/advanced_detector.py:53-59 | a shingle score exists exactly when both shingle sets are non-empty, and then it is their coefficient |
| Similarity.WordScore | Folder/documents/detectors/advanced_detector.py:62-68 | the word score exists exactly when both word sets are non-empty, and it is their Jaccard coefficient |
| Similarity.CharScore | Folder/documents/detectors/advanced_detector.py:71-76 | the character score lies in [0,1] |
| Similarity.SplitSentences | Folder/documents/detectors/advanced_detector.py:80 | at least one piece, none containing a sentence end |
| Similarity.StrippedNonEmpty | Folder/documents/detectors/advanced_detector.py:80 | the kept sentences are stripped and non-empty |
| Similarity.RowScores | Folder/documents/detectors/advanced_detector.py:83-88 | every pair score lies in [0,1] |
| Similarity.PairScores | Folder/documents/detectors/advanced_detector.py:82-89 | every pair score lies in [0,1] |
| Similarity.Mean | Folder/documents/detectors/advanced_detector.py:90-91 | the mean of scores in [0,1] lies in [0,1] |
| Similarity.OverallIsWeightedMean | Folder/documents/detectors/advanced_detector.py:96-111 | the overall score is the 0.3/0.4/0.2/0.1 weighted mean over the computed signals only, and 0 when none is computed |
| Similarity.OverallBounds | Folder/documents/detectors/advanced_detector.py:96-111 | with all signals in [0,1] the overall score lies in [0,1] |
| Similarity.OverallOfEqualScores | Folder/documents/detectors/advanced_detector.py:96-111 | when every computed signal equals `x`, the overall score is `x` |
| Similarity.TextSimBounds | Folder/documents/detectors/advanced_detector.py:44-113 | the overall similarity of two texts lies in [0,1] |
| Similarity.TextSimSelf | Folder/documents/detectors/advanced_detector.py:44-113 | a text with at least one token has overall similarity 1 with itself |
| Similarity.CalculateTextSimilarity | Folder/documents/detectors/advanced_detector.py:44-113 | the method computes the similarity record, with the overall score in [0,1] |
| Similarity.SentencePairScores | Folder/documents/detectors/advanced_detector.py:82-89 | the nested loop collects the score of every sentence pair, row by row |
| Similarity.SentenceRowScores | Folder/documents/detectors/advanced_detector.py:83-88 | the inner loop collects the scores of one sentence against all others |
| Similarity.ShingleLoop | Folder/documents/detectors/advanced_detector.py:53-59 | the loop over sizes 1, 3 and 5 stores exactly the computable shingle scores |
| Similarity.WeightedOverall | Folder/documents/detectors/advanced_detector.py:96-111 | the weighting loop gives the weighted sum over the total weight, or 0 |
| Similarity.FullResultsLookups | Folder/documents/detectors/advanced_detector.py:53-68 | the results map holds each shingle score and the word score under its key, and the weighting reads exactly those four |
| Similarity.ExtendedLookups | Folder/documents/detectors/advanced_detector.py:68-93 | adding the char and sentence scores does not change what the weighting reads |
| Similarity.ShingleLookups | Folder/documents/detectors/advanced_detector.py:53-59 | after the shingle loop only the three shingle keys are present, each holding its score |
| Similarity.ShingleResultsGet | Folder/documents/detectors/advanced_detector.py:53-59 | the entry for size `k` is that size's score (absent when not computable) when `k` was tried, and absent otherwise |
| Similarity.ShingleResultsKeys | Folder/documents/detectors/advanced_detector.py:53-59 | every key present belongs to a tried size |
| AdvancedDetector.VectorPool | Folder/documents/detectors/advanced_detector.py:383-385 | the pool is exactly the other on-defense documents that have a vector |
| AdvancedDetector.VectorScan | Folder/documents/detectors/advanced_detector.py:387-408 | the scan keeps only pool documents with score above 0.6, at most one per pool entry, and keeps the cache coherent |
| AdvancedDetector.FindSimilarSound | Folder/documents/detectors/advanced_detector.py:362-415 | without a vector nothing is found and the cache is untouched; otherwise the list is sorted descending and holds only other on-defense documents with a vector and score above 0.6 |
| AdvancedDetector.VectorScanComplete | Folder/documents/detectors/advanced_detector.py:387-408 | every pool document whose score (cached, else the cosine) is above 0.6 is kept with that score |
| AdvancedDetector.PoolScoreOfPrefix | Folder/documents/detectors/advanced_detector.py:387-408 | a pool document's score depends only on the documents scanned before it |
| AdvancedDetector.VectorScanSound | Folder/documents/detectors/advanced_detector.py:387-408 | every kept candidate is a pool document paired with the score the loop gave it, above 0.6 |
| AdvancedDetector.FindSimilarExact | Folder/documents/detectors/advanced_detector.py:362-415 | a candidate is returned if and only if it is a pool document with its score and that score is above 0.6 |
| AdvancedDetector.CachedScoreUsed | Folder/documents/detectors/advanced_detector.py:389-393 | a cached score is the pool document's score as it is, and scoring it writes nothing to the store |
| AdvancedDetector.FindSimilar | Folder/documents/detectors/advanced_detector.py:362-415 | the vector search keeps the cache coherent |
| AdvancedDetector.FindSimilarDocuments | Folder/documents/detectors/advanced_detector.py:362-415 | the method's result and cache state equal the vector-search function of the old cache state |
| AdvancedDetector.CachedVector | Folder/documents/detectors/advanced_detector.py:371-376 | the method returns the vector-lookup function's vector and new cache state |
| AdvancedDetector.VectorOf | Folder/documents/detectors/advanced_detector.py:371-376 | looking up the document's vector (cache first, stored vector cached on a miss) keeps the cache coherent |
| AdvancedDetector.ScoreCandidate | Folder/documents/detectors/advanced_detector.py:389-408 | the method returns the scoring-step function's score and new cache state |
| AdvancedDetector.ScoreStep | Folder/documents/detectors/advanced_detector.py:389-408 | scoring one pool document (cached score, else cosine then cached) keeps the cache coherent |
| AdvancedDetector.TextPool | Folder/documents/detectors/advanced_detector.py:437-440 | at most 50 documents, each another on-defense document with a text file |
| AdvancedDetector.Kept | Folder/documents/detectors/advanced_detector.py:466-472 | a document is kept only with its own score, and only when that score exceeds 0.6 |
| AdvancedDetector.TextScan | Folder/documents/detectors/advanced_detector.py:442-472 | the scan keeps only pool documents whose score exists and exceeds 0.6, with that score |
| AdvancedDetector.FindSimilarTextSound | Folder/documents/detectors/advanced_detector.py:417-482 | at most 10 results, sorted descending; each is a pool document whose readable text has at least 100 characters, scored above 0.6 by the text similarity |
| AdvancedDetector.TextScanComplete | Folder/documents/detectors/advanced_detector.py:442-472 | every pool document with a score above 0.6 is kept with that score |
| AdvancedDetector.FindSimilarTextComplete | Folder/documents/detectors/advanced_detector.py:417-482 | every one of the first 50 pool documents with a readable text of at least 100 characters scoring above 0.6 is returned with its score, unless 10 results each scoring at least as high fill the list |
| AdvancedDetector.TextScoreOf | Folder/documents/detectors/advanced_detector.py:443-471 | a readable text of at least 100 characters scores its overall similarity with the document's text |
| AdvancedDetector.TextSimOfPreprocessed | Folder/documents/detectors/advanced_detector.py:445-460 | preprocessing both texts first does not change their similarity |
| AdvancedDetector.FindSimilarDocumentsTextBased | Folder/documents/detectors/advanced_detector.py:417-482 | the method returns the text-fallback function's result |
| AdvancedDetector.ScanPool | Folder/documents/detectors/advanced_detector.py:442-472 | the loop over the pool returns the scan function's result |
| AdvancedDetector.ScoreText | Folder/documents/detectors/advanced_detector.py:445-466 | one document's text score, or none when it is skipped |
| AdvancedDetector.SameBaseName | Folder/documents/detectors/advanced_detector.py:141-145 | exactly the pool documents whose upload has the given base name |
| AdvancedDetector.NameDuplicates | Folder/documents/detectors/advanced_detector.py:137-145 | exactly the other on-defense documents whose upload has the same base name |
| AdvancedDetector.NamePool | Folder/documents/detectors/advanced_detector.py:139-141 | exactly the other on-defense documents |
| AdvancedDetector.NameMatches | Folder/documents/detectors/advanced_detector.py:150-160 | one source entry per duplicate, in order |
| AdvancedDetector.FindNameDuplicates | Folder/documents/detectors/advanced_detector.py:137-145 | the loop returns exactly the name duplicates |
| AdvancedDetector.ReadOne | Folder/documents/detectors/advanced_detector.py:216-246 | a compared candidate's similarity lies in [0,1] |
| AdvancedDetector.ReadAll | Folder/documents/detectors/advanced_detector.py:216-246 | the three lists grow together, are no longer than the candidates, and every similarity lies in [0,1] |
| AdvancedDetector.ReadSimilarTexts | Folder/documents/detectors/advanced_detector.py:216-246 | the reading loop returns the reading function's result, stopping at the first exception |
| AdvancedDetector.ReadCandidate | Folder/documents/detectors/advanced_detector.py:218-246 | one candidate is skipped, compared or raises as the reading function says |
| AdvancedDetector.ReadAllErr | Folder/documents/detectors/advanced_detector.py:216-246 | once a read raises, later candidates do not change the outcome |
| AdvancedDetector.SourceScores | Folder/documents/detectors/advanced_detector.py:251-286 | one originality and one source entry per readable text |
| AdvancedDetector.SourceScoresAt | Folder/documents/detectors/advanced_detector.py:251-286 | entry `i` is text `i`'s originality and source entry |
| AdvancedDetector.ScoreSources | Folder/documents/detectors/advanced_detector.py:251-286 | the loop over the texts returns the per-source scores |
| AdvancedDetector.ScoreSource | Folder/documents/detectors/advanced_detector.py:253-286 | one text's originality and source entry |
| AdvancedDetector.MinOf | Folder/documents/detectors/advanced_detector.py:289-290 | the minimum is an element and no element is smaller |
| AdvancedDetector.MaxOf | Folder/documents/detectors/advanced_detector.py:306 | the maximum is an element and no element is larger |
| AdvancedDetector.Clamp | Folder/documents/detectors/advanced_detector.py:290 | the clamped value lies in [0,100] and equals the input when that does |
| AdvancedDetector.RiskOf | Folder/documents/detectors/advanced_detector.py:308-318 | each risk band holds exactly for its similarity range: >0.9, >0.8, >0.7, >0.5, otherwise |
| AdvancedDetector.Detect | Folder/documents/detectors/advanced_detector.py:115-360 | detection keeps the cache coherent |
| AdvancedDetector.Candidates | Folder/documents/detectors/advanced_detector.py:200-205 | choosing the candidates keeps the cache coherent |
| AdvancedDetector.Analyse | Folder/documents/detectors/advanced_detector.py:200-345 | the analysis keeps the cache coherent |
| AdvancedDetector.FindUnique | Folder/documents/detectors/advanced_detector.py:118 | with unique ids, looking up a document's id finds its own position |
| AdvancedDetector.DetectPlagiarism | Folder/documents/detectors/advanced_detector.py:115-360 | the method's result and cache state equal the detection function of the old cache state |
| AdvancedDetector.AnalyseText | Folder/documents/detectors/advanced_detector.py:200-345 | the analysis after the text checks equals the analysis function |
| AdvancedDetector.DetectNotFound | Folder/documents/detectors/advanced_detector.py:349-360 | an unknown id gives the not-found error and leaves the cache alone |
| AdvancedDetector.DetectSameFileName | Folder/documents/detectors/advanced_detector.py:133-171 | a base-name duplicate gives originality 0, similarity 100, flag set, risk very high, every duplicate listed and nothing else, before any file is read |
| AdvancedDetector.NameMatchesExact | Folder/documents/detectors/advanced_detector.py:137-160 | the listed entries are exactly the duplicates |
| AdvancedDetector.DetectEarlyExits | Folder/documents/detectors/advanced_detector.py:173-198 | no text file or a missing one gives an error; a text under 100 characters gives a warning with originality 0 and no detail |
| AdvancedDetector.AnalyseNoSources | Folder/documents/detectors/advanced_detector.py:207-213 | no candidates or no readable text gives originality 100, similarity 0, citations 0, risk very low, not flagged |
| AdvancedDetector.FallbackOnlyWithoutVector | Folder/documents/detectors/advanced_detector.py:200-205 | the text fallback is used exactly when the document has no vector |
| AdvancedDetector.ConcludeOriginality | Folder/documents/detectors/advanced_detector.py:251-293 | originality is the minimum of the clamped per-source originalities and similarity is 100 minus it |
| AdvancedDetector.ConcludeMatches | Folder/documents/detectors/advanced_detector.py:251-286 | source entry `i` pairs candidate `i` with text `i`'s rounded scores |
| AdvancedDetector.ConcludeCitations | Folder/documents/detectors/advanced_detector.py:295-303 | citations are the rounded minimum of the largest per-source citation percentage and the similarity |
| AdvancedDetector.ConcludeRisk | Folder/documents/detectors/advanced_detector.py:306-333 | the risk band follows the maximum similarity; the flag holds exactly when originality is under 85 or that maximum exceeds 0.8 |
| AdvancedDetector.ReadSkipsFirst | Folder/documents/detectors/advanced_detector.py:218-230 | a first candidate without a text file is skipped and only the second one's text is read |
| AdvancedDetector.MispairedSource | Folder/documents/detectors/advanced_detector.py:251-256 | the second candidate's scores are reported under the first candidate's id |
| Cache.HostLength | Folder/documents/utils_cache.py:29-36 | the host part runs up to the first ':' |
| Cache.DigitRun | Folder/documents/utils_cache.py:29-36 | the digit run is the longest prefix of digits |
| Cache.ParseHost | Folder/documents/utils_cache.py:31-35 | parsing from the host on gives the default endpoint or a non-empty host without ':' |
| Cache.ParsePort | Folder/documents/utils_cache.py:31-35 | parsing from the port on gives the default endpoint or a non-empty host without ':' |
| Cache.ParseDb | Folder/documents/utils_cache.py:31-35 | parsing the database number gives the default endpoint or a non-empty host without ':' |
| Cache.ParseBrokerUrl | Folder/documents/utils_cache.py:29-36 | the parse is the default endpoint or has a non-empty host without ':' |
| Cache.ParseBrokerUrlRoundTrip | Folder/documents/utils_cache.py:29-36 | parsing a printed `redis://host:port/db` URL gives the endpoint back |
| Cache.ParseBrokerUrlOtherScheme | Folder/documents/utils_cache.py:29-36 | a URL not starting with `redis://` falls back to localhost, 6379, 0 |
| Cache.SimilarityKeyOf | Folder/documents/utils_cache.py:139 | the key holds the pair's smaller id first and the larger id second |
| Cache.Connect | Folder/documents/utils_cache.py:19-55 | a connection attempt records availability and touches nothing but the availability and the client |
| Cache.ConnectOnce | Folder/documents/utils_cache.py:23-24 | a second connection attempt changes nothing |
| Cache.ConnectFirst | Folder/documents/utils_cache.py:29-53 | the first attempt yields the parsed endpoint when the server answers, and no client otherwise |
| Cache.UnavailableForever | Folder/documents/utils_cache.py:23-24 | after a failed attempt there is never a client, reads give nothing and writes change nothing, whatever the server does later |
| Cache.ClientReused | Folder/documents/utils_cache.py:23-24 | once a client exists every operation keeps it |
| Cache.NotLiveNoEffect | Folder/documents/utils_cache.py:68-70 | without a live connection, reads give nothing and writes leave the store as it was |
| Cache.VectorRoundTrip | Folder/documents/utils_cache.py:58-105 | a cached vector is read back until 3600 seconds pass |
| Cache.SimilarityRoundTrip | Folder/documents/utils_cache.py:125-168 | a score cached for (a, b) is read back for (b, a) until 7200 seconds pass |
| Cache.SimilaritySymmetric | Folder/documents/utils_cache.py:139 | reads and writes of a pair's score do not depend on the order of the pair |
| Cache.VectorReadAfterInvalidate | Folder/documents/utils_cache.py:107-122 | after invalidation the vector is not read back |
| Cache.PutVectorOthers | Folder/documents/utils_cache.py:86-105 | caching a vector leaves every other key as it was |
| Cache.RedisCache.constructor | Folder/documents/utils_cache.py:16-17 | a fresh process has not tried to connect and holds no client |
| Cache.RedisCache.Advance | Folder/documents/utils_cache.py:86-102 | the logical clock moves forward by `dt` seconds and nothing else changes |
| Cache.RedisCache.SetServerUp | Folder/documents/utils_cache.py:47 | only whether the server answers a ping changes |
| Cache.RedisCache.GetRedisClient | Folder/documents/utils_cache.py:19-55 | the method performs the connection step and returns the client |
| Cache.RedisCache.GetCachedVector | Folder/documents/utils_cache.py:58-84 | the method returns the vector read and connects |
| Cache.RedisCache.CacheVector | Folder/documents/utils_cache.py:86-105 | the new state is the store with the vector written |
| Cache.RedisCache.InvalidateVectorCache | Folder/documents/utils_cache.py:107-122 | the new state is the store without the vector |
| Cache.RedisCache.CacheSimilarityResult | Folder/documents/utils_cache.py:125-142 | the new state is the store with the score written |
| Cache.RedisCache.GetCachedSimilarity | Folder/documents/utils_cache.py:145-168 | the method returns the score read and connects |
| Documents.Initial | Folder/documents/detectors/advanced_detector.py:120-131 | the initial report has status success, originality 0 and no flag |
| Documents.Where | Folder/documents/detectors/advanced_detector.py:139-141 | a filter keeps exactly the documents that satisfy it, in order |
| Documents.ById | advanced_plagiarism_detector.py:315 | `order_by('id')` holds the same records in ascending order of id |
| Documents.Find | Folder/documents/detectors/advanced_detector.py:118 | the position found holds the id, and no position holds it when none is found |
| Database.WriteChanged | Folder/documents/tasks.py:31-33 | saving exactly the changed fields reproduces the local object |
| Database.SaveRow | Folder/documents/tasks.py:31-33 | a save keeps the ids and the files and adds one journal entry |
| Database.FindByIds | Folder/documents/tasks.py:28 | lookups by id agree between two tables with the same ids in the same order |
| Database.Db.Get | Folder/documents/tasks.py:28 | `objects.get` finds the row with the id |
| Database.Db.SaveObject | Folder/documents/tasks.py:31-33 | the new state is the state with the row saved |
| Database.Db.WriteFile | Folder/documents/tasks.py:45-48 | the new state holds the written text under the file name |
| Database.Broker.Delay | Folder/documents/tasks.py:150 | one message per call, appended in order, with its position as task id |
| Sorting.Insert | Folder/documents/detectors/advanced_detector.py:410 | inserting adds exactly the one element |
| Sorting.SortDesc | Folder/documents/detectors/advanced_detector.py:410 | the result is sorted descending by score and is a permutation of the input |
| Sorting.InsertSorted | Folder/documents/detectors/advanced_detector.py:410 | inserting into a sorted list keeps it sorted |
| Sorting.SortDescMembers | Folder/documents/detectors/advanced_detector.py:410 | sorting keeps exactly the same elements |
| Sorting.InsertWithKey | Folder/documents/detectors/advanced_detector.py:410 | inserting into a descending list places the element after every element with the same key |
| Sorting.SortDescStable | Folder/documents/detectors/advanced_detector.py:410 | the sort is stable: the elements with any one key keep their input order |
| Sorting.Take | Folder/documents/detectors/advanced_detector.py:477 | the first `n` elements, or all of them when there are fewer |
| Sorting.TakeSorted | Folder/documents/detectors/advanced_detector.py:475-477 | a prefix of a sorted list is sorted |
| Sorting.TakeSortedMember | Folder/documents/detectors/advanced_detector.py:475-477 | an element of a descending list is among its first `n`, or those `n` all have a key at least as large |
| LegacySearch.Pool | plagiarism_detector.py:157 | the pool is exactly the other documents with a vector (the query has no on-defense filter) |
| LegacySearch.Above | plagiarism_detector.py:159-164 | at most one result per pool document |
| LegacySearch.AboveExact | plagiarism_detector.py:159-164 | a candidate is kept exactly when it is a pool document scored by cosine above the threshold |
| LegacySearch.CosineSearch | plagiarism_detector.py:144-172 | the result is sorted descending and empty when the document has no vector |
| LegacySearch.CosineSearchExact | plagiarism_detector.py:144-172 | the result holds exactly the other documents with a vector whose cosine score exceeds the threshold |
| LegacySearch.SearchSimilarDocuments | plagiarism_detector.py:144-172 | the loop returns the search function's result |
| LegacyAdvanced.DetectPlagiarism | advanced_plagiarism_detector.py:127-267 | the method returns the detection function's result |
| LegacyAdvanced.CompareText | advanced_plagiarism_detector.py:166-252 | the comparison after the text checks equals the comparison function |
| LegacyAdvanced.JudgeText | advanced_plagiarism_detector.py:203-242 | the verdict over the read texts equals the judging function |
| LegacyAdvanced.DetectExits | advanced_plagiarism_detector.py:145-164 | no text file, a missing or unreadable file, and a short text each give their own error or warning |
| LegacyAdvanced.CompareNothing | advanced_plagiarism_detector.py:169-173 | no candidates or no readable text gives originality 100, similarity 0, risk very low, and keeps the initial status and flag |
| LegacyAdvanced.CompareUnion | advanced_plagiarism_detector.py:203-233 | originality is the union originality floored at 0; risk and flag (originality under 85 or maximum above 0.8) follow |
| LegacyAdvanced.CountStatus | advanced_plagiarism_detector.py:325-329 | a status count never exceeds the number of results |
| LegacyAdvanced.CountPlagiarized | advanced_plagiarism_detector.py:325-329 | flagged results are among the successful ones |
| LegacyAdvanced.SuccessOriginalities | advanced_plagiarism_detector.py:340 | one originality per successful result |
| LegacyAdvanced.StatusPartition | advanced_plagiarism_detector.py:325-329 | success, error and warning counts add up to the total |
| LegacyAdvanced.RiskCountsTotal | advanced_plagiarism_detector.py:332-338 | the five risk counts add up to the successful count |
| LegacyAdvanced.RateBounds | advanced_plagiarism_detector.py:350 | the plagiarism rate lies in [0,100] and is flagged over successful times 100 |
| LegacyAdvanced.Percent | advanced_plagiarism_detector.py:350 | a part over a positive whole, times 100, lies in [0,100] |
| LegacyAdvanced.GenerateDetailedReport | advanced_plagiarism_detector.py:311-356 | one result per document, in ascending order of id as `order_by('id')`, and the statistics of exactly those results |
| LegacyBasic.Initial | plagiarism_detector.py:53-62 | the initial report has status success, no flag and no similar documents |
| LegacyBasic.ReadTexts | plagiarism_detector.py:90-96 | no more texts than candidates |
| LegacyBasic.ReadTextsExact | plagiarism_detector.py:90-96 | reading fails exactly when some candidate's file is unreadable; otherwise every text read comes from a readable candidate, and none is read exactly when no candidate is readable |
| LegacyBasic.DetectPlagiarism | plagiarism_detector.py:39-142 | the method returns the detection function's result |
| LegacyBasic.CompareText | plagiarism_detector.py:77-127 | the comparison after the text checks equals the comparison function |
| LegacyBasic.JudgeText | plagiarism_detector.py:98-118 | the verdict over the read texts equals the judging function |
| LegacyBasic.ReadSimilarTexts | plagiarism_detector.py:90-96 | the reading loop returns the reading function's result |
| LegacyBasic.ReadTextsStops | plagiarism_detector.py:90-96 | once a read raises, later candidates do not change the outcome |
| LegacyBasic.ListSimilar | plagiarism_detector.py:109-115 | one listing per candidate, in order |
| LegacyBasic.CompareOutcome | plagiarism_detector.py:77-118 | nothing to compare gives originality 100 and no flag; otherwise originality is the union originality floored at 0, every candidate is listed, and the flag holds exactly below 80 |
| LegacyBasic.FlaggedSucceeded | plagiarism_detector.py:118 | a flagged result is a successful one |
| LegacyBasic.CountFlagged | plagiarism_detector.py:207-209 | the flagged count never exceeds the number of results |
| LegacyBasic.CountErrors | plagiarism_detector.py:207-209 | the error count never exceeds the number of results |
| LegacyBasic.RateBounds | plagiarism_detector.py:218 | the plagiarism rate lies in [0,100] and is flagged over total times 100 |
| LegacyBasic.FlaggedAndErrors | plagiarism_detector.py:207-209 | flagged and failed results together never exceed the total |
| LegacyBasic.GetPlagiarismReport | plagiarism_detector.py:188-222 | one result per document, in ascending order of id as `order_by('id')`, the statistics of exactly those, and flagged plus errors at most the total |
| OriginalityModel.Others | Folder/documents/models.py:101-109 | exactly the other documents the query may return |
| OriginalityModel.Nearest | Folder/documents/models.py:101-109 | the documents with a vector, in order of growing distance |
| OriginalityModel.Neighbours | Folder/documents/models.py:101-109 | at most 5 neighbours, each another document |
| OriginalityModel.NeighbourTexts | Folder/documents/models.py:118-124 | reading succeeds exactly when every neighbour's file can be read, and then text `k` is neighbour `k`'s file text |
| OriginalityModel.CalculateOriginalityOf | Folder/documents/models.py:92-136 | the method's outcome and database state equal the calculation function of the old state |
| OriginalityModel.ReadNeighbourTexts | Folder/documents/models.py:118-124 | the reading loop returns the reading function's result |
| OriginalityModel.NeighbourTextsStops | Folder/documents/models.py:118-124 | the first unreadable neighbour file ends the reading with its name |
| OriginalityModel.NeighbourTextsPrefix | Folder/documents/models.py:118-124 | once a read fails, later neighbours do not change the outcome |
| OriginalityModel.Idempotent | Folder/documents/models.py:95-100 | a stored result or a missing vector makes the call a no-op, so a second call after a stored result changes nothing |
| OriginalityModel.StoredResult | Folder/documents/models.py:111-126 | with no neighbours the result is 100; otherwise it is the shingle-1 originality of the document's own file text against its at most 5 neighbours' file texts, in [-0.01, 99.99] |
| OriginalityModel.StoredSaves | Folder/documents/models.py:111-132 | a stored result changes only this row's result and status (to 2) and saves those two fields |
| OriginalityModel.OriginalityBounds | Folder/documents/models.py:126 | the stored originality lies in [-0.01, 99.99] |
| OriginalityModel.FileErrorSavesNothing | Folder/documents/models.py:118-136 | the state changes exactly when a result is stored |
| OriginalityModel.NeighbourOrder | Folder/documents/models.py:101-109 | neighbours come in order of growing distance |
| OriginalityModel.TriggerCondition | Folder/documents/models.py:158-161 | the save hook calculates only for a newly created document with a non-empty vector |
| Tasks.ProcessDocumentPlagiarism | Folder/documents/tasks.py:15-121 | the Celery task's outcome, database and cache equal the Celery task function of the old state |
| Tasks.AnalyseStored | Folder/documents/tasks.py:67-100 | the analysis step equals the analysis function |
| Tasks.MarkFailed | Folder/documents/tasks.py:102-121 | the failure step saves the failure and decides retry or give-up |
| Tasks.SaveFailure | Folder/documents/tasks.py:102-111 | the new state is the row marked failed with the error and completion time |
| Tasks.BatchProcessDocuments | Folder/documents/tasks.py:135-153 | exactly one task per id is sent, in input order, and one entry per id is returned |
| Tasks.StartStore | Folder/documents/tasks.py:30-62 | start, text file and vector change only this row, in three saves, and the text is written |
| Tasks.StartPersistedFirst | Folder/documents/tasks.py:30-33 | the first save of the Celery task is the 'processing' status with its start time |
| Tasks.ExtractionFailure | Folder/documents/tasks.py:36-52 | an extraction failure skips vectorisation and analysis and ends failed with the PDF error text |
| Tasks.VectorisationNonFatal | Folder/documents/tasks.py:55-62 | a vectorisation failure acts as a missing vector |
| Tasks.AnalysisOutcome | Folder/documents/tasks.py:67-100 | only success completes the row with result and error cleared; other statuses fail it and keep the result; the status key is never touched |
| Tasks.RetryPolicy | Folder/documents/tasks.py:113-121 | a failed task retries while fewer than 3 retries were made and gives up afterwards |
| Tasks.OtherRowsUnchanged | Folder/documents/tasks.py:15-121 | the Celery task changes no other row and never the status key |
| Tasks.AnalysedRows | Folder/documents/tasks.py:65-100 | the analysis changes only this row |
| Tasks.ProcessTextStoresNoVector | Folder/documents/vector.py:44-50 | with `process_text` as written the stored vector is always absent |
| Processing.ProcessDocumentSync | Folder/documents/processing.py:13-91 | the outcome, database and cache equal the synchronous run function of the old state |
| Processing.SyncAnalyseStored | Folder/documents/processing.py:53-79 | the analysis step equals the analysis function |
| Processing.SyncMatchesTask | Folder/documents/processing.py:53-91 | the synchronous analysis succeeds exactly when the Celery task's does, with the same originality; it differs only in setting status 2 or in the stored error text |
| Processing.SyncMatchesTaskSuccess | Folder/documents/processing.py:56-77 | on success both paths store the same row, except that the synchronous one sets status 2 |
| Processing.SyncMatchesTaskFailure | Folder/documents/processing.py:78-91 | on failure both paths fail the row; the synchronous one stores the bare message and raises |
| Processing.SyncExtractionFailure | Folder/documents/processing.py:26-37 | an extraction failure raises its own text and marks the row failed, skipping the rest |
| Processing.SyncMissing | Folder/documents/processing.py:19 | an unknown id raises and changes nothing |
| Reprocess.DigitsOf | Folder/documents/management/commands/reprocess_documents.py:37 | the digits of a numeral, underscores removed |
| Reprocess.ParsePieces | Folder/documents/management/commands/reprocess_documents.py:37 | one id per piece when every piece parses |
| Reprocess.Numerals | Folder/documents/management/commands/reprocess_documents.py:37 | one decimal numeral per number, in order |
| Reprocess.ParseIntDecimal | Folder/documents/management/commands/reprocess_documents.py:37 | `int` reads back the decimal numeral of every non-negative number |
| Reprocess.ParseIntNegative | Folder/documents/management/commands/reprocess_documents.py:37 | `int` reads back a minus sign and a numeral as the negative number |
| Reprocess.IdsRoundTrip | Folder/documents/management/commands/reprocess_documents.py:37 | parsing comma-joined numerals gives the ids back |
| Reprocess.PiecesRoundTrip | Folder/documents/management/commands/reprocess_documents.py:37 | parsing the numerals gives the numbers back |
| Reprocess.EmptyPieceFails | Folder/documents/management/commands/reprocess_documents.py:37 | an empty or blank piece makes the parse fail |
| Reprocess.PiecesParsed | Folder/documents/management/commands/reprocess_documents.py:37 | a successful parse holds the value of each piece at its position |
| Reprocess.PositionsUpTo | Folder/documents/management/commands/reprocess_documents.py:31-41 | the selected positions are increasing and are exactly the matching rows below `n` |
| Reprocess.Positions | Folder/documents/management/commands/reprocess_documents.py:31-41 | the selected positions are increasing row positions |
| Reprocess.PositionsExact | Folder/documents/management/commands/reprocess_documents.py:31-41 | a row is selected exactly when it matches the filter |
| Reprocess.ResetRows | Folder/documents/management/commands/reprocess_documents.py:47-52 | the reset keeps the number of rows, their ids and the files |
| Reprocess.IdsAt | Folder/documents/management/commands/reprocess_documents.py:55 | the ids of the selected rows, in order |
| Reprocess.Handle | Folder/documents/management/commands/reprocess_documents.py:30-59 | the command's outcome, database and sent tasks equal the command function of the old state |
| Reprocess.ResetAndSend | Folder/documents/management/commands/reprocess_documents.py:46-59 | each selected row is reset and its id sent, in order, and the count is the number sent |
| Reprocess.ResetRowsEffect | Folder/documents/management/commands/reprocess_documents.py:49-52 | a selected row gets status 'queue', no error and no result; other rows are unchanged |
| Reprocess.ResetRowsJournal | Folder/documents/management/commands/reprocess_documents.py:52 | one save of the three reset fields per selected row, in order |
| Reprocess.CommandOutcome | Folder/documents/management/commands/reprocess_documents.py:30-59 | on success the count is the number of ids sent and every matching row is reset; otherwise nothing changes |
| Reprocess.Precedence | Folder/documents/management/commands/reprocess_documents.py:33-44 | `--failed` wins over `--ids`, which wins over `--all`; with none, the usage error |
| Vectors.ExtractChaptersFromText | Folder/documents/vector.py:9-33 | the loop returns the chapter-pairing function's result |
| Vectors.PairsFromKeys | Folder/documents/vector.py:22-28 | a title is present exactly when it was there before or is a stored stripped title |
| Vectors.KeptKeys | Folder/documents/vector.py:22-28 | every title present was there before or is a stored stripped title |
| Vectors.OldKeys | Folder/documents/vector.py:22-28 | titles already present stay |
| Vectors.NewKeys | Folder/documents/vector.py:22-28 | every stored title is present |
| Vectors.PairsFromLast | Folder/documents/vector.py:22-28 | a title maps to the content after its last occurrence |
| Vectors.PairsFromUnchanged | Folder/documents/vector.py:22-28 | a title not stored again keeps its content |
| Vectors.ChaptersNonEmpty | Folder/documents/vector.py:30-31 | there is always at least one chapter |
| Vectors.ChaptersExact | Folder/documents/vector.py:18-31 | the titles are exactly the stored stripped titles, or the fallback title maps to the whole text |
| Vectors.ChapterContent | Folder/documents/vector.py:22-28 | a title's last occurrence determines its content |
| Vectors.TitlesStripped | Folder/documents/vector.py:24-28 | every title is non-empty and stripped |
| Vectors.FirstSplit | Folder/documents/vector.py:40 | the first place after a '.' where whitespace starts, or none |
| Vectors.Sentences | Folder/documents/vector.py:35-42 | there is always at least one piece |
| Vectors.SentencesShape | Folder/documents/vector.py:40 | every piece but the last ends with '.', and no piece contains a split point |
| Vectors.NoSplitOneSentence | Folder/documents/vector.py:40 | a text without a split point is one sentence |
| Docx.Kept | Folder/documents/docx_extractor.py:22-26 | no more lines than inputs |
| Docx.TableLines | Folder/documents/docx_extractor.py:29-38 | at most one line per row |
| Docx.ExtractTextFromDocx | Folder/documents/docx_extractor.py:8-49 | the method returns the assembled text or the prefixed error |
| Docx.RowLines | Folder/documents/docx_extractor.py:30-38 | the loop over the rows returns the table's lines |
| Docx.KeepNonEmpty | Folder/documents/docx_extractor.py:22-26 | the loop keeps exactly the stripped non-empty strings |
| Docx.KeptAt | Folder/documents/docx_extractor.py:22-26 | each kept line is the stripped input at its recorded position |
| Docx.KeptInOrder | Folder/documents/docx_extractor.py:22-26 | kept lines keep the input order |
| Docx.KeptMembers | Folder/documents/docx_extractor.py:22-26 | every kept line is non-empty, and every non-blank input is kept stripped |
| Docx.KeptClean | Folder/documents/docx_extractor.py:22-26 | already clean lines are kept as they are |
| Docx.RowContributes | Folder/documents/docx_extractor.py:31-36 | a row gives a line exactly when some cell is not blank |
| Docx.TablesSection | Folder/documents/docx_extractor.py:43-44 | there are no table lines exactly when every table is blank |
| Docx.TableSection | Folder/documents/docx_extractor.py:29-38 | a table gives no lines exactly when it is blank |
| Docx.NoTablesText | Folder/documents/docx_extractor.py:41-44 | with blank tables the text is the paragraphs joined by newlines |
| Docx.TablesText | Folder/documents/docx_extractor.py:41-44 | with a non-blank table the text is the paragraphs, then the tables heading, then more |
| Docx.AllLinesNonEmpty | Folder/documents/docx_extractor.py:29-38 | every table line is non-empty |
| Docx.TableLinesNonEmpty | Folder/documents/docx_extractor.py:31-36 | every line of a table is non-empty |
| Docx.ParagraphLines | Folder/documents/docx_extractor.py:22-41 | splitting the text on newlines gives the kept paragraphs back when none contains one |
| Docx.FailurePrefixed | Folder/documents/docx_extractor.py:48-49 | an extraction error is the fixed prefix followed by the cause |

## Left out

- I/O: reading and writing files, PDF extraction, DOCX parsing and logging are not modelled. Their outcomes are inputs: the file map, the `Extraction` and `Vectorisation` values, and the opened DOCX document.
- Calls whose code is not part of this model are parameters in `Documents.Oracles`: MD5, the cosine of two vectors, the pgvector `<->` distance, `calculate_similarity_by_source`, `detect_citations` and `round(x, 2)`.
- Timestamps (`timezone.now()`) are inputs. The cache's clock is a logical clock advanced by `Cache.RedisCache.Advance`.
- Concurrency is not modelled: Celery workers, scheduling of `retry(countdown=60)`, and races between processes sharing Redis or the database. A retry is an outcome value.
- Floating point is not modelled: scores are exact reals, and numpy's `float` conversions are the identity.
- `OriginalityModel.CalculateOriginality`, `Tasks.Analyse`, `Processing.SyncAnalyse`: `Document.result` is a `DecimalField(4, 2)` (models.py:63), and the model stores the real value without rounding or overflow. Such a column cannot hold 100.00. Depending on the Django version and the database, saving 100 raises: Django's decimal adaptation raises before 5.0, and PostgreSQL raises "numeric field overflow" from 5.0. `calculate_originality` stores 100 when there are no neighbours (models.py:112-115). The Celery task and the synchronous run save an originality of 100 on success (tasks.py:74-86, processing.py:57-71), which is the case of `AdvancedDetector.AnalyseNoSources`. With such a backend these saves raise, and the first document uploaded would end `failed` after three retries; the model records a success instead.
- `vector_models.py` and `text_clining.py` are not part of this model. `process_text` is modelled as written: it returns `None`.
- The `Document` class's `get_vector_array` / `set_vector_array`, and the columns added by the migrations, are fields of the record. Migration code is not modelled.
- The raw SQL of `calculate_originality` is modelled by its meaning: the other documents, those with a vector by growing distance, then those without (NULLs sort last), at most 5. pgvector's order among equal distances is taken to be the stored order.
- `Vectors.ExtractChaptersFromText`: the chapters are a `map`, so the insertion order of Python's `dict` is not modelled.
- `Reprocess.ParseInt` accepts ASCII digits only. Python's `int` also accepts other Unicode decimal digits.
- `Cache.DigitRun`, and so `Cache.ParseBrokerUrl`, accept ASCII digits only. The regex `\d` and `int()` of utils_cache.py:32-35 also accept other Unicode decimal digits.
- `Text.Lower` lowers only the ASCII capitals, the Latin-1 capitals and the Cyrillic capitals U+0400-U+042F, one character to one. Python's `str.lower` lowers every script (Greek, for instance), can lengthen a text ('İ' becomes two characters) and lowers a final sigma by context; those cases are not modelled, so for such texts the model's similarity can differ from the source's.
- `Sorting.SortDesc` is a stable descending insertion sort. Python's `sort(reverse=True)` is stable too, so equal scores keep their order.
- The text of the messages written to stdout, and the Russian wording of stored messages, are modelled as message constructors, not strings.
- `create_text_document` and the views that call the detectors are outside the core.
- The Django instance in memory and its database row are one value. Changes to the instance that are not saved do not survive.
