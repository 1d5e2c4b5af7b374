# Q&A test framework: verified model of its evaluation core

This project models the core of a question-answering test framework in Dafny, and proves properties of that model.
The framework sends test queries to a document search service and scores what comes back.

The core has five parts:

- **Information-retrieval metrics** (`ir_metrics.dfy`, module `IrMetrics`).
  - A ranked list of retrieved documents, which may contain duplicates, is scored against a set of relevant documents.
  - The scores are precision, recall, F1, first-hit reciprocal rank, nDCG and average precision.
  - The loops of the last three are methods. Each is proved equal to a recursive definition, and the properties are proved about those definitions.
- **Title normalisation and the top-3 rule** of the discovery test script (`discovery_test.dfy`, module `VodafoneDiscoveryTest`).
  - It covers `replace_after_pipe` with the exact semantics of Python's `re` for `\|.*$`, tab and space deletion, and ASCII lower-casing.
  - It covers the Y/N decision "expected FAQ among the top three titles".
  - It covers the cells that one query appends to the three output lists, and the length check after the loop.
- **Result-field extraction** of the search connector (`elasticsearch_connector.dfy`, module `ElasticsearchConnector`).
  - A stored answer (its `results` list) is mapped to one value per result.
  - A missing key gives a placeholder string.
  - A non-object metadata entry gives an error.
- **Path and file-name rules** of the file handler (`files_handler.dfy`, module `FilesHandler`).
  - These are the extension guards, the folders, the config-path rule and the names of the saved CSV and JSON files.
- **Timestamp sanitising** (`timestamps.dfy`, module `Timestamps`).
  - This is the replacement chain applied to the text of the current time.

`wrappers.dfy` holds the `Option` and `Result` types. A `Result` carries either a value or the exception the Python code would raise.

The nDCG discount `1/log2(i+2)` is a parameter `discount: nat -> real`. Where a property needs it, a lemma requires the discount to be positive, or non-increasing, or both.

## Model

| member | source | states |
|---|---|---|
| IrMetrics.InformationRetrievalMetrics.constructor | modules/information_retrieval_metrics.py:23-32 | the ranked list is kept as given (duplicates included) and the relevant documents become a set |
| IrMetrics.RetrievedRelevant | modules/information_retrieval_metrics.py:36 | every hit is a retrieved and relevant document, every relevant retrieved document is a hit, and the hit list is empty iff no position is relevant and as long as the ranking iff every position is; the count per document is stated by RetrievedRelevantCounts |
| IrMetrics.RetrievedRelevantCounts | modules/information_retrieval_metrics.py:36 | the hits count positions: a relevant document occurs among the hits exactly as often as in the ranking, an irrelevant one never |
| IrMetrics.InformationRetrievalMetrics.Precision | modules/information_retrieval_metrics.py:34-39 | 0 for an empty ranking; always within [0,1]; 0 iff no retrieved document is relevant; 1 iff the ranking is non-empty and every retrieved document is relevant |
| IrMetrics.InformationRetrievalMetrics.Recall | modules/information_retrieval_metrics.py:41-46 | 0 when nothing is relevant; never negative; 0 iff no retrieved document is relevant |
| IrMetrics.RecallAtMostOne | modules/information_retrieval_metrics.py:41-46 | a ranking without duplicates has recall at most 1 |
| IrMetrics.RecallCanExceedOne | modules/information_retrieval_metrics.py:43-46 | hits count positions, so ["doc1","doc1"] against {"doc1"} has recall 2 |
| IrMetrics.RecallOneWhenAllRetrieved | modules/information_retrieval_metrics.py:41-46 | without duplicates, recall is exactly 1 when every relevant document was retrieved |
| IrMetrics.HitsCardinality | modules/information_retrieval_metrics.py:36 | without duplicates, the number of hits is the size of the intersection of the retrieved and relevant sets |
| IrMetrics.HitsAtMostRelevant | modules/information_retrieval_metrics.py:43-46 | without duplicates, there are no more hits than relevant documents |
| IrMetrics.F1 | modules/information_retrieval_metrics.py:48-54 | 0 when precision or recall is 0, non-negative for non-negative inputs, positive when both are positive, at most 1 when both lie in [0,1] |
| IrMetrics.F1Bounds | modules/information_retrieval_metrics.py:54 | the harmonic-mean expression 2pr/(p+r) obeys the bounds above whenever p+r is not 0 |
| IrMetrics.F1Symmetric | modules/information_retrieval_metrics.py:48-54 | F1 does not depend on the order of precision and recall |
| IrMetrics.InformationRetrievalMetrics.F1Score | modules/information_retrieval_metrics.py:48-54 | never negative, and 0 iff no retrieved document is relevant |
| IrMetrics.F1ScoreAtMostOne | modules/information_retrieval_metrics.py:48-54 | without duplicates, F1 lies within [0,1] |
| IrMetrics.FirstHit | modules/information_retrieval_metrics.py:58-60 | the index of the first relevant retrieved document: every earlier position misses, and the index itself is a hit unless it is the length |
| IrMetrics.ReciprocalRank | modules/information_retrieval_metrics.py:56-61 | 0 iff there is no hit; within [0,1]; 1 iff the top document is relevant; 1/(i+1) for the first hit i |
| IrMetrics.InformationRetrievalMetrics.MeanReciprocalRank | modules/information_retrieval_metrics.py:56-61 | the early-exit loop returns the reciprocal rank of the first hit |
| IrMetrics.DiscountSum | modules/information_retrieval_metrics.py:70 | the ideal gain: the discount summed over the first n positions (a reference definition; its properties are DiscountSumPositive and DiscountSumMonotone) |
| IrMetrics.Dcg | modules/information_retrieval_metrics.py:66-69 | the discounted gain: the discount of every position whose document is relevant, summed in rank order (a reference definition; its properties are DcgNoHits, DcgNonNegative, DcgAtMostIdeal and DcgTopRanks) |
| IrMetrics.NdcgOf | modules/information_retrieval_metrics.py:70-73 | 0 when nothing is relevant (the ideal gain is 0) |
| IrMetrics.InformationRetrievalMetrics.Ndcg | modules/information_retrieval_metrics.py:63-73 | the accumulating loop returns the discounted gain of the hits over the ideal gain of as many top positions as there are relevant documents |
| IrMetrics.DcgNoHits | modules/information_retrieval_metrics.py:66-69 | a ranking without hits has discounted gain 0 |
| IrMetrics.DcgNonNegative | modules/information_retrieval_metrics.py:66-69 | with a positive discount the discounted gain is never negative |
| IrMetrics.DiscountSumPositive | modules/information_retrieval_metrics.py:70 | with a positive discount the ideal gain is never negative, and 0 iff there are no relevant documents |
| IrMetrics.DiscountSumMonotone | modules/information_retrieval_metrics.py:70 | the ideal gain grows with the number of relevant documents |
| IrMetrics.DcgAtMostIdeal | modules/information_retrieval_metrics.py:66-70 | with a non-increasing discount, the gain of h hits is at most the ideal gain of h top positions |
| IrMetrics.NdcgIsRatio | modules/information_retrieval_metrics.py:70-73 | with relevant documents and a positive discount, the ideal gain is positive and nDCG is the gain over it |
| IrMetrics.NdcgInUnitInterval | modules/information_retrieval_metrics.py:63-73 | without duplicates, and with a positive non-increasing discount, nDCG lies within [0,1] |
| IrMetrics.DcgTopRanks | modules/information_retrieval_metrics.py:66-69 | when exactly the first k positions are hits, the gain is the discount summed over the first min(k, n) positions |
| IrMetrics.NdcgPerfectRanking | modules/information_retrieval_metrics.py:63-73 | a ranking whose hits are exactly its first k positions, k the number of relevant documents, scores 1 |
| IrMetrics.NdcgCanExceedOne | modules/information_retrieval_metrics.py:66-73 | a duplicated hit is counted twice, so ["doc1","doc1"] against {"doc1"} scores above 1 |
| IrMetrics.HitCount | modules/information_retrieval_metrics.py:78-81 | the `relevant_retrieved` counter of average precision: one per ranked position whose document is relevant, never more than the positions; HitCountIsHits ties it to the hit list |
| IrMetrics.HitCountIsHits | modules/information_retrieval_metrics.py:78-81 | the counter average precision keeps (one per ranked position whose document is relevant) equals the length of the hit list that precision and recall build |
| IrMetrics.ApSum | modules/information_retrieval_metrics.py:79-82 | the cumulative precision: at every hit, the hits so far over the positions so far, summed (a reference definition; its properties are ApSumSign and ApSumAtMostHits) |
| IrMetrics.AveragePrecisionOf | modules/information_retrieval_metrics.py:75-85 | never negative, and 0 iff no retrieved document is relevant (a hit makes the relevant set non-empty, so the division is defined) |
| IrMetrics.InformationRetrievalMetrics.AveragePrecision | modules/information_retrieval_metrics.py:75-85 | the loop keeps its hit counter equal to the hits so far (at most the positions seen), and its sum equal to the precision at each hit so far |
| IrMetrics.ApSumSign | modules/information_retrieval_metrics.py:79-82 | the cumulative precision is never negative, and positive once there is a hit |
| IrMetrics.ApSumAtMostHits | modules/information_retrieval_metrics.py:79-82 | each term of the cumulative precision is at most 1, so the sum is at most the number of hits |
| IrMetrics.AveragePrecisionAtMostOne | modules/information_retrieval_metrics.py:75-85 | without duplicates, average precision is at most 1 |
| IrMetrics.DisjointScoresZero | modules/information_retrieval_metrics.py:34-85 | when no retrieved document is relevant, all six scores are 0 |
| IrMetrics.ModuleExampleSetScores | modules/information_retrieval_metrics.py:96-102 | doc1..doc5 against {doc1, doc3, doc6, doc7} scores precision 2/5, recall 1/2 and F1 4/9 |
| IrMetrics.ModuleExampleRankScores | modules/information_retrieval_metrics.py:96-104 | the same example has reciprocal rank 1 and average precision 5/12, and its nDCG is (d0+d2)/(d0+d1+d2+d3) |
| VodafoneDiscoveryTest.PipeMatchAt | scripts/run_vodafone_discovery_test.py:13 | where `\|.*$` can start: a '\|', with no newline after it other than one that ends the text |
| VodafoneDiscoveryTest.PipeMatchEnd | scripts/run_vodafone_discovery_test.py:13 | where every match ends: just before a final newline, otherwise at the end of the text |
| VodafoneDiscoveryTest.FirstPipeMatch | scripts/run_vodafone_discovery_test.py:13-17 | the leftmost position where `\|.*$` matches: a '\|' with no newline after it except a final one |
| VodafoneDiscoveryTest.ReplaceAfterPipe | scripts/run_vodafone_discovery_test.py:11-18 | never longer than the input; no '\|' means no change; for newline-free text the result is the prefix before the first '\|' (it contains no '\|', and the next input character is '\|') |
| VodafoneDiscoveryTest.ReplaceAfterPipeIdempotent | scripts/run_vodafone_discovery_test.py:11-18 | on newline-free text a second application changes nothing |
| VodafoneDiscoveryTest.ReplaceAfterPipeNotIdempotentAcrossNewline | scripts/run_vodafone_discovery_test.py:13-17 | with a newline it does change: "a\|\n\|b" becomes "a\|\n", and that becomes "a\n" |
| VodafoneDiscoveryTest.DeleteChar | scripts/run_vodafone_discovery_test.py:21-23 | the character is gone, every other character keeps its number of occurrences, and text without it is unchanged |
| VodafoneDiscoveryTest.DeleteCharConcat | scripts/run_vodafone_discovery_test.py:21-23 | deletion distributes over concatenation, so the kept characters stay in input order |
| VodafoneDiscoveryTest.ReplaceSpecialPatterns | scripts/run_vodafone_discovery_test.py:20-24 | every tab is deleted and every other character is kept with its multiplicity |
| VodafoneDiscoveryTest.Lower | scripts/run_vodafone_discovery_test.py:29 | same length, no upper-case ASCII letter remains, other characters are unchanged in place, and each upper-case letter becomes its lower-case partner |
| VodafoneDiscoveryTest.CustomPreprocess | scripts/run_vodafone_discovery_test.py:26-30 | the result has no space and no upper-case ASCII letter; for newline-free text it also has no '\|' and no newline |
| VodafoneDiscoveryTest.CustomPreprocessIdempotent | scripts/run_vodafone_discovery_test.py:26-30 | on newline-free text preprocessing twice equals preprocessing once |
| VodafoneDiscoveryTest.CustomPreprocessAfterPipeCut | scripts/run_vodafone_discovery_test.py:68-75 | on newline-free titles the cut at :68 before preprocessing at :75 makes no difference |
| VodafoneDiscoveryTest.CustomPreprocessKeepsPipeBeforeInnerNewline | scripts/run_vodafone_discovery_test.py:26-30 | with a newline, "a\|b\n " preprocesses to "a\|b\n", keeping the '\|' … |
| VodafoneDiscoveryTest.CustomPreprocessCutsPipeBeforeFinalNewline | scripts/run_vodafone_discovery_test.py:26-30 | … which a second pass removes ("a\|b\n" becomes "a\n"), so preprocessing is not idempotent there |
| VodafoneDiscoveryTest.Take | scripts/run_vodafone_discovery_test.py:67 | the slice `[:n]`, used with n = 3 here and at :84: a prefix of the list, of length n, or the whole list when it is shorter |
| VodafoneDiscoveryTest.CutTitles | scripts/run_vodafone_discovery_test.py:68 | one entry per title, in order, each the title cut at its pipe |
| VodafoneDiscoveryTest.PreprocessAll | scripts/run_vodafone_discovery_test.py:75 | one entry per title, in order, each the title preprocessed |
| VodafoneDiscoveryTest.TitleMatches | scripts/run_vodafone_discovery_test.py:68-78 | a title, cut at its pipe and preprocessed, equals the preprocessed expected FAQ (a definition; Top3FlagMeaning states the flag through it) |
| VodafoneDiscoveryTest.Top3Flag | scripts/run_vodafone_discovery_test.py:78-81 | the flag is "Y" or "N" |
| VodafoneDiscoveryTest.Top3FlagMeaning | scripts/run_vodafone_discovery_test.py:67-81 | "Y" iff one of the first min(3, n) titles, cut at the pipe and preprocessed, equals the preprocessed expected FAQ |
| VodafoneDiscoveryTest.Top3FlagNewlineFree | scripts/run_vodafone_discovery_test.py:67-81 | for newline-free titles, "Y" iff one of the first three titles preprocesses to the same text as the expected FAQ |
| VodafoneDiscoveryTest.Top3FlagIgnoresLowerRanks | scripts/run_vodafone_discovery_test.py:67 | titles ranked below the third do not affect the flag |
| VodafoneDiscoveryTest.TitleConfidence | scripts/run_vodafone_discovery_test.py:85-90 | the keys are exactly the titles, and the last title maps to the last score |
| VodafoneDiscoveryTest.TitleConfidenceUnique | scripts/run_vodafone_discovery_test.py:86-90 | a title that does not occur again later maps to the score at its own index (a later duplicate overwrites) |
| VodafoneDiscoveryTest.ConfidenceByTitle | scripts/run_vodafone_discovery_test.py:85-90 | the loop builds the title-to-score map, and raises IndexError when there are fewer scores than titles |
| VodafoneDiscoveryTest.ConfidenceStep | scripts/run_vodafone_discovery_test.py:84-90 | succeeds iff the confidences were obtained and the top three of them cover the cut titles; a failure of get_result_confidence is passed on unchanged |
| VodafoneDiscoveryTest.ErrorMessage | scripts/run_vodafone_discovery_test.py:95 | the cell written for a caught exception: "ERROR: " followed by the exception's text |
| VodafoneDiscoveryTest.RecordedCells | scripts/run_vodafone_discovery_test.py:66-98 | an empty title list gives "ERROR: list index out of range" in all three lists; otherwise the first cells are the top title cut at the pipe and the flag, and a second cell is added iff the confidence step fails; the third list's cell is the title-to-confidence map when the step succeeds, and otherwise the step's error message, which is also the second cell of the first two lists |
| VodafoneDiscoveryTest.RecordedCellsMisaligned | scripts/run_vodafone_discovery_test.py:71-98 | a failing confidence step appends two cells to the first two lists and one to the third |
| VodafoneDiscoveryTest.AlignedCells | scripts/run_vodafone_discovery_test.py:66-98 | the corrected body adds exactly one cell to each list, and agrees with the original for an empty title list |
| VodafoneDiscoveryTest.AlignedCellsAgree | scripts/run_vodafone_discovery_test.py:66-98 | whenever the confidence step succeeds, the corrected body records exactly what the original records |
| VodafoneDiscoveryTest.LengthCheckAsWritten | scripts/run_vodafone_discovery_test.py:102 | the chained `!=` as Python evaluates it: every two neighbouring lengths differ |
| VodafoneDiscoveryTest.LengthsDiffer | scripts/run_vodafone_discovery_test.py:102 | the intended test: not all six lengths are equal |
| VodafoneDiscoveryTest.LengthCheckNeverFires | scripts/run_vodafone_discovery_test.py:102-103 | after a misaligned query the chained check is false, although the intended check is true |
| VodafoneDiscoveryTest.LengthsDifferDetects | scripts/run_vodafone_discovery_test.py:102-103 | the intended check holds exactly when a recorded list's length differs from the number of queries |
| VodafoneDiscoveryTest.DiscoveryTestRun.constructor | scripts/run_vodafone_discovery_test.py:44-47 | the three output lists start empty (and aligned) |
| VodafoneDiscoveryTest.DiscoveryTestRun.RecordQuery | scripts/run_vodafone_discovery_test.py:66-98 | the loop body appends, to each list, the cells recorded for the query |
| VodafoneDiscoveryTest.DiscoveryTestRun.RecordQueryAligned | scripts/run_vodafone_discovery_test.py:66-98 | the corrected body appends one cell per list, so aligned lists stay aligned |
| ElasticsearchConnector.WatsonDiscoveryV2Connector.constructor | connectors/elasticsearch_connector.py:40 | no answer is stored before the first query |
| ElasticsearchConnector.WatsonDiscoveryV2Connector.QueryResponse | connectors/elasticsearch_connector.py:42-54 | the stored answer is replaced by the new one and nothing else changes |
| ElasticsearchConnector.WatsonDiscoveryV2Connector.GetResults | connectors/elasticsearch_connector.py:56-62 | the assertion fails while no answer is stored; otherwise the stored results come back |
| ElasticsearchConnector.NoKeyForData | connectors/elasticsearch_connector.py:83 | the placeholder text "THERE IS NO {key} FOR THIS DATA" (a definition; ResultColumn and GetKvFromResult state where it is stored) |
| ElasticsearchConnector.NoKeyInMetadata | connectors/elasticsearch_connector.py:106 | the placeholder text "THERE IS NO {key} IN RESULTS METADATA" (a definition; MetadataColumn and GetKvFromResultMetadata state where it is stored) |
| ElasticsearchConnector.FieldOrPlaceholder | connectors/elasticsearch_connector.py:79-83 | one result's entry: the key's value, or "THERE IS NO {key} FOR THIS DATA" when the KeyError is caught |
| ElasticsearchConnector.ResultColumn | connectors/elasticsearch_connector.py:73-85 | one value per result, in the results' order: the key's value when present, else "THERE IS NO {key} FOR THIS DATA" |
| ElasticsearchConnector.WatsonDiscoveryV2Connector.GetKvFromResult | connectors/elasticsearch_connector.py:64-85 | the loop returns that column, or the missing-answer error |
| ElasticsearchConnector.WatsonDiscoveryV2Connector.GetResultMetadata | connectors/elasticsearch_connector.py:87-93 | the column of the key 'result_metadata' |
| ElasticsearchConnector.MetadataColumn | connectors/elasticsearch_connector.py:95-108 | succeeds iff every entry is an object, and then gives one value per entry, in order, with "THERE IS NO {key} IN RESULTS METADATA" for a missing key; otherwise it fails at the first non-object entry |
| ElasticsearchConnector.MetadataFailureExtends | connectors/elasticsearch_connector.py:102-106 | once a prefix of the metadata list fails, the whole list fails with the same error |
| ElasticsearchConnector.WatsonDiscoveryV2Connector.GetKvFromResultMetadata | connectors/elasticsearch_connector.py:95-108 | the early-exit loop returns exactly the metadata column of the stored results |
| ElasticsearchConnector.ConfidenceNeedsMetadata | connectors/elasticsearch_connector.py:87-108 | a result without 'result_metadata' makes the confidence column fail, because the placeholder string is indexed by 'confidence' |
| ElasticsearchConnector.ConfidenceColumnValues | connectors/elasticsearch_connector.py:120-126 | when every result has a metadata object with a confidence, the column lists those confidences in rank order |
| ElasticsearchConnector.WatsonDiscoveryV2Connector.GetDocumentIds | connectors/elasticsearch_connector.py:111-117 | the result column of 'document_id' |
| ElasticsearchConnector.WatsonDiscoveryV2Connector.GetResultConfidence | connectors/elasticsearch_connector.py:120-126 | the metadata column of 'confidence' |
| ElasticsearchConnector.WatsonDiscoveryV2Connector.GetTitle | connectors/elasticsearch_connector.py:128-134 | the result column of 'title' |
| ElasticsearchConnector.WatsonDiscoveryV2Connector.GetSubtitle | connectors/elasticsearch_connector.py:136-142 | the result column of 'subtitle' |
| ElasticsearchConnector.WatsonDiscoveryV2Connector.GetDocumentPassages | connectors/elasticsearch_connector.py:144-150 | the result column of 'document_passages' |
| ElasticsearchConnector.WatsonDiscoveryV2Connector.GetText | connectors/elasticsearch_connector.py:152-158 | the result column of 'text' |
| ElasticsearchConnector.WatsonDiscoveryV2Connector.GetTable | connectors/elasticsearch_connector.py:160-166 | the result column of 'table' |
| FilesHandler.ConfigFilePath | utils/files_handler.py:157-162 | the path starts with 'configs/' followed by the name, always contains '.yaml', equals 'configs/' + name iff the name already contains '.yaml', and otherwise is exactly 'configs/' + name + '.yaml' (that prefix, the '.yaml' suffix and their combined length); write_config (:175-180) uses the same rule |
| FilesHandler.ConfigFilePathDefault | utils/files_handler.py:157 | the default name 'models_config.yaml' gives 'configs/models_config.yaml' |
| FilesHandler.ConfigFilePathBareName | connectors/elasticsearch_connector.py:30 | the bare name 'elasticsearch_config' passed here gives 'configs/elasticsearch_config.yaml', the constant at utils/files_handler.py:27 |
| FilesHandler.Contains | utils/files_handler.py:49 | Python's `sub in s`: the pattern occurs at some index; it is the test of every extension guard (:49, :67, :87, :117, :159, :177) |
| FilesHandler.PromptFilePath | utils/files_handler.py:41-52 | succeeds iff the name contains '.txt', giving 'prompts/prompt_templates/' + name; otherwise the assertion fails |
| FilesHandler.QueriesFilePath | utils/files_handler.py:59-70 | succeeds iff the name contains '.json', giving 'data/queries/input/' + name; otherwise the assertion fails |
| FilesHandler.DataFilePath | utils/files_handler.py:81-102 | without '.csv' the assertion fails; otherwise the file under 'data/input/' is used when it exists, else the one under 'data/output/', and the read fails when neither exists |
| FilesHandler.ExtensionGuardIsSubstringTest | utils/files_handler.py:49-67 | the guards test for a substring: 'notes.txt.bak' and 'q.json.old' pass, while 'notes' fails |
| FilesHandler.RemoveAll | utils/files_handler.py:118 | never longer than the input; strictly shorter iff the pattern occurs; a text without the pattern is unchanged |
| FilesHandler.RemoveAllAtFirstOccurrence | utils/files_handler.py:118 | at the leftmost occurrence, the text before it is kept as it stands, the occurrence is dropped and the rest is processed the same way, so every non-overlapping occurrence is removed left to right and the other characters stay in order |
| FilesHandler.CsvOutputPath | utils/files_handler.py:106-122 | 'data/output/' + the name with every '.csv' removed + '_' + stamp + '.csv', and the name itself when it has no '.csv' (so the guard at :117 is redundant) |
| FilesHandler.CsvExtensionCanSurvive | utils/files_handler.py:117-118 | removing every '.csv' can create a new one: 'a.c.csvsv' becomes 'a.csv' |
| FilesHandler.JsonOutputPath | utils/files_handler.py:125-132 | 'data/output/' + name, then the stamp with no separator, then '.json' |
| Timestamps.ReplaceChar | utils/timestamps.py:7 | same length, each occurrence of the character replaced, every other position unchanged |
| Timestamps.GetStamp | utils/timestamps.py:5-8 | same length as the time text; no ':', '.' or ' ' remains; those become '-', and every other character is unchanged in place |
| Timestamps.GetStampIdempotent | utils/timestamps.py:7 | sanitising a stamp again changes nothing |

## Left out

- `precision_at_k` and `recall_at_k` (modules/information_retrieval_metrics.py:87-93) slice a number, so they always raise a TypeError. They define no top-k behaviour to model.
- The example prints at modules/information_retrieval_metrics.py:95-104 are not modelled. Their values appear only as the two example lemmas.
- Floating point is not modelled: every score is an exact `real`.
  - `math.log2` does not exist here, so the nDCG discount is a parameter.
  - The confidence scores are opaque JSON values.
- IrMetrics.RecallAtMostOne, IrMetrics.NdcgInUnitInterval, IrMetrics.AveragePrecisionAtMostOne and IrMetrics.F1ScoreAtMostOne require a ranking without duplicates.
  - The code counts hits by position, so with a repeated document recall, F1 and nDCG can exceed 1, although the docstrings call precision and recall proportions.
  - The [0,1] bounds are therefore proved only for rankings without duplicates. RecallCanExceedOne and NdcgCanExceedOne give inputs where the bounds fail.
- VodafoneDiscoveryTest.Lower lower-cases ASCII letters only, because Python's Unicode case mapping is not modelled.
- VodafoneDiscoveryTest.ReplaceAfterPipeIdempotent, VodafoneDiscoveryTest.CustomPreprocessIdempotent and VodafoneDiscoveryTest.Top3FlagNewlineFree require newline-free text.
  - Those properties fail with newlines, as the two counterexample lemmas show.
  - ReplaceAfterPipe itself follows the full regex semantics, newlines included.
- Titles are taken as strings. A non-string `title` value would make `replace_after_pipe` raise a TypeError, and that is not modelled.
- The expected FAQ is taken as a string. A missing (NaN) cell of the input table is not modelled.
- VodafoneDiscoveryTest.ConfidenceCell keeps the title-to-confidence dict of scripts/run_vodafone_discovery_test.py:85-90 as a Dafny `map`. Python's dict keeps insertion order, and that order shows in the written cell; the map does not model it. VodafoneDiscoveryTest.TitleConfidence states only which score each title ends up with.
- The exception texts of the confidence step are given as strings. The only text fixed here is that of the IndexError.
- The connector stores only the answer's `results` list. An answer without `results` (a KeyError) is not modelled.
- Not modelled in the connector:
  - authentication;
  - environment loading;
  - the configuration read;
  - the network `query` call, whose answer is a parameter of `QueryResponse`.
- The file handler's reads and writes are not modelled (pandas, chardet, yaml, json). This also covers:
  - the `CONFIG_PATH` environment fallback of `get_config` and `write_config`;
  - the stored fields `prompt`, `queries_json`, `data` and `config`.
  - Whether a file exists is the parameter of `DataFilePath`.
- `datetime.now()` is not modelled: its text is the parameter of `GetStamp`.
- The `log_time` decorator (wall clock and log-file append) is not modelled.
- The rest of the script is not modelled: reading the test table, tqdm, building the output DataFrame and saving it. The loop's state is the class `DiscoveryTestRun`, which records one query per call.
- utils/embedding_funcs.py, scripts/generate_data.py, answer_similarity.py, main.py, run_tests.py and the tests are not part of this model. They are wrappers over embedding, evaluation and random-data libraries, or entry points that need the live service.

## Findings

| source | as written | input that shows it | evidently intended | confidence | as-written member | corrected member |
|---|---|---|---|---|---|---|
| scripts/run_vodafone_discovery_test.py:71-98 | the top title and the flag are appended before the confidence step; when that step raises, the error message is appended to all three lists, so the first two lists get two cells for the query and the third gets one; the output table built from the unequal columns at :106-114 then raises a ValueError, and the save at :117 is never reached | any query with at least one title where a result lacks `result_metadata`, so `get_result_confidence` raises a TypeError (ConfidenceNeedsMetadata) | one cell per list per query, so that the output columns stay row-aligned | high; not executed | VodafoneDiscoveryTest.RecordedCellsMisaligned | VodafoneDiscoveryTest.AlignedCells |
| scripts/run_vodafone_discovery_test.py:102 | `a != b != c != d != e != f` is a chain of neighbour comparisons; `a == b` always holds because both lists are columns of one table, so the check never fires | one query as above: lengths 1, 1, 2, 2, 1, 1 | stop when any of the six lengths differs | high; not executed | VodafoneDiscoveryTest.LengthCheckNeverFires | VodafoneDiscoveryTest.LengthsDifferDetects |
