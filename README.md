# Recruitment dashboard: a Dafny model of its backend rules and two client views

The system is a small recruitment dashboard. A FastAPI backend accepts
resumes and job descriptions and stores each file in Azure Blob storage. A
language model turns each file into a record, which is kept in Firestore
under `users/<uid>/...`. Candidates are matched against job descriptions by
shared skills. The top-score table gets a weighted score per candidate and
job description. Two React views sit on top: the resume upload view and the
scoring-weight editor.

This project models the rules that lie between the foreign services:

- Firestore is a class holding a map from document path to record, plus a log of the operations performed on it (`DocStore`).
- The blob container is a class holding a map from blob name to blob (`AzureStorage`).
- The language model, the scorer, token verification, the PDF extractor and the random ids are parameters. They are given as functions or as per-file "run" values.
- The routers are methods over those two classes. Their loops keep the invariants that tie each result to specification functions.
- The pure parts are functions with lemmas: overlap test, filters, weighted score, ranking, string handling, and the upsert as a map transformer.

| module | models |
|---|---|
| `Values` | JSON-like values, records, `Option`/`Result`/`Outcome`, HTTP errors, Python truthiness and `dict.get` |
| `PyStr` | `str.strip`, `split`, `join`, `startswith`/`endswith`, `lstrip(chars)`, `lower` |
| `WeightSum` | the sum of a map's values (`sum(weights.values())`, `Object.values(...).reduce`) |
| `DocStore` | the Firestore client: get, set, update, delete, stream |
| `AzureStorage` | backend/storage/azure.py and the `urlparse`/`lstrip` blob-path recovery |
| `FirebaseConfig` | backend/firebase_config.py |
| `CorsOrigins` | the origin list of backend/main.py |
| `DocxParser` | backend/services/parser.py |
| `Uploads` | the uploaded file and how both upload routers hand it to the model |
| `Filtering`, `SkillOverlap` | `has_skill_overlap` and the filter loops built on it |
| `Scoring` | backend/services/scoring.py |
| `ScoreWeights` | backend/routers/score_weights.py |
| `TopScore` | backend/routers/topscore.py, with `list.sort` as a stable insertion sort |
| `TopScoreStore` | backend/storage/firestore.py |
| `CandidatesRouter` | backend/routers/candidates.py |
| `JobDescriptionRouter` | backend/routers/job_description.py |
| `Analyzer` | backend/routers/analyzer.py |
| `WeightEditor` | client/src/pages/WeightEditor/WeightEditor.jsx |
| `CandidatesPage` | client/src/pages/CandidatesPage/CandidatesPage.jsx |

Several behaviours of the code as written are modelled faithfully and
proved as properties, rather than corrected:

- An error entry in the resume upload carries the model reply of an earlier file (`CandidatesRouter.LatestReplyLeaks`).
- The job-description upload returns a fixed text as soon as one job description matches no stored candidate. That drops the results gathered so far and leaves the later files unread. The reply is the fixed text exactly when some file's job description is stored and shares no skill with any stored candidate, and the loop stops at the first such file. Whether a file stops does not depend on the order in which the candidates stream (`JobDescriptionRouter.UploadMultipleJds`, `JobDescriptionRouter.ProcessJds`, `JobDescriptionRouter.ListingMatchesNone`).
- A 404 raised inside a `try` reaches the client as a 500.
- `lstrip("/<container>/")` strips a set of characters, not a prefix (`AzureStorage.StripRecoversNameIff`, `AzureStorage.DeletePathDropsUidHead`).

## Model

| member | source | states |
|---|---|---|
| ScoreWeights.ValidateTotal | backend/routers/score_weights.py:10-13 | passes exactly when the weights sum to 100, otherwise fails with a 400 "Weights must sum up to 100."; an empty map is rejected |
| ScoreWeights.CollectWeightsFails | backend/routers/score_weights.py:23-28 | assembling the role map raises exactly when some kept document (truthy role and weights) has an unhashable role |
| ScoreWeights.CollectWeightsKeys | backend/routers/score_weights.py:22-28 | a role is in the result exactly when some document with a truthy role and truthy weights carries it, so a role with an empty weights map is omitted |
| ScoreWeights.CollectWeightsLastWins | backend/routers/score_weights.py:23-28 | when several documents carry the same role, the weights of the last one in stream order win |
| ScoreWeights.CollectWeightsPrefixFails | backend/routers/score_weights.py:23-28 | once a prefix of the stream raises, the whole collection raises |
| ScoreWeights.GetUserWeights | backend/routers/score_weights.py:15-31 | authenticates first; then streams the user's score_weights collection once, changes no document, and replies `{"weights": …}` holding the role map assembled from that listing |
| ScoreWeights.UpdateUserWeights | backend/routers/score_weights.py:36-46 | authentication, then the sum check, then one read: a bad sum gives a 400 with no store access; an existing role gets only its `weights` field replaced and the "Updated weights" message; a missing role writes nothing and returns the `error` dict |
| WeightSum.SumValuesRemove | backend/routers/score_weights.py:11 | the sum of a map's values is any one entry plus the sum of the rest |
| WeightSum.SumValuesUpdate | client/src/pages/WeightEditor/WeightEditor.jsx:48-54 | setting one key changes the sum by the new value minus the old one (0 if absent) |
| WeightSum.Total | client/src/pages/WeightEditor/WeightEditor.jsx:57-60 | the loop's total equals the sum of the map's values |
| WeightEditor.Editor.constructor | client/src/pages/WeightEditor/WeightEditor.jsx:17-21 | initial state: no weights, role "fresher", loading, no message |
| WeightEditor.Editor.LoadWeights | client/src/pages/WeightEditor/WeightEditor.jsx:23-39 | fetches once; on success the data is `response.weights` or `{}`, the role is "fresher" and the current weights are the fresher map or `{}`; on failure the error message is set; `loading` ends false either way |
| WeightEditor.Editor.HandleRoleChange | client/src/pages/WeightEditor/WeightEditor.jsx:41-46 | selects the role, loads its stored map (or `{}`), clears the message, leaves the stored data alone |
| WeightEditor.Editor.HandleWeightChange | client/src/pages/WeightEditor/WeightEditor.jsx:48-54 | only the named field changes, to `parseInt(value, 10) \|\| 0`; the total moves by exactly that change; the message is cleared |
| WeightEditor.Editor.HandleUpdate | client/src/pages/WeightEditor/WeightEditor.jsx:56-74 | a total other than 100 sets the sum error with no service call and no data change; otherwise one update call, and success replaces only `weightsData[selectedRole]` while failure keeps the data and sets the failure message |
| WeightEditor.ParseIntOrZero | client/src/pages/WeightEditor/WeightEditor.jsx:51 | a non-zero result needs at least one digit after the optional spaces and sign |
| WeightEditor.ParseIntText | client/src/pages/WeightEditor/WeightEditor.jsx:51 | every integer written in decimal parses back to itself |
| WeightEditor.DigitsValueNatText | client/src/pages/WeightEditor/WeightEditor.jsx:51 | the digit string of a natural number evaluates back to it |
| WeightEditor.NoDigitsIsZero | client/src/pages/WeightEditor/WeightEditor.jsx:51 | input with no leading digits (after spaces and sign) gives 0 |
| WeightEditor.TrailingTextIgnored | client/src/pages/WeightEditor/WeightEditor.jsx:51 | digits followed by non-digit text parse as the digits alone |
| WeightEditor.ReplaceFirstShape | client/src/pages/WeightEditor/WeightEditor.jsx:105 | `replace("_", " ")` changes only the first underscore |
| WeightEditor.RoleLabel | client/src/pages/WeightEditor/WeightEditor.jsx:104-106 | the role label has the role's length, one character per character |
| WeightEditor.TwoWordRoleLabel | client/src/pages/WeightEditor/WeightEditor.jsx:104-106 | a role such as "senior_engineer" is shown as "Senior Engineer": the underscore becomes a space and both words are capitalised |
| WeightEditor.CapitalizeTwoWords | client/src/pages/WeightEditor/WeightEditor.jsx:104-106 | capitalising two lower-case words separated by a space upper-cases the first letter of each word and keeps every other character |
| WeightEditor.SecondUnderscoreKept | client/src/pages/WeightEditor/WeightEditor.jsx:104-106 | a second underscore stays an underscore and the letter after it is not capitalised, since `_` is a word character |
| WeightEditor.FieldLabelStable | client/src/pages/WeightEditor/WeightEditor.jsx:118 | a field label is stable under relabelling, and a field that does not start with a lower-case letter is shown unchanged |
| Scoring.WeightProfiles | backend/services/scoring.py:3-22 | three profiles, each with non-negative weights summing to 1, experience weighted senior > mid > fresher |
| Scoring.SelectWeights | backend/services/scoring.py:26-27 | weights are found exactly when "senior_engineer" is a profile and the profile type is hashable; a known type picks its own profile, anything else the senior_engineer one |
| Scoring.UnknownProfileIsSenior | backend/services/scoring.py:26-27 | a missing or unknown `profile_type` gets the senior_engineer weights |
| Scoring.MidLevelLabelGetsSeniorWeights | backend/services/scoring.py:10-27 | the label "mid-level professional" is not the key "mid_professional", so it gets the senior weights, which differ from the mid-level ones |
| Scoring.CalculateTotalScore | backend/services/scoring.py:25-34 | defined exactly when weights are found and each of the four scores is missing or a number (a boolean counting as 0 or 1); then it is the weighted sum of the four scores |
| Scoring.MissingScoreCountsAsZero | backend/services/scoring.py:29-34 | a missing category score gives the same total as a score of 0 |
| Scoring.WeightedInRange | backend/services/scoring.py:29-34 | with weights that are non-negative and sum to 1 and scores in [0,100], the weighted sum is in [0,100] |
| Scoring.TotalInRange | backend/services/scoring.py:25-34 | with any table of normalised profiles that has the senior-engineer default, such as `WEIGHT_PROFILES`, and every present score in [0,100], the total is defined and in [0,100] |
| Scoring.WeightedMonotone | backend/services/scoring.py:29-34 | with non-negative weights, raising any category score never lowers the weighted sum |
| Scoring.TotalMonotone | backend/services/scoring.py:29-34 | with any table of normalised profiles, raising one category score of a candidate never lowers its total |
| Scoring.SameWeights | backend/services/scoring.py:26-27 | changing a score field does not change which profile is used |
| Scoring.RaisedScores | backend/services/scoring.py:29-33 | raising one score field leaves the four scores present and raises them componentwise |
| TopScore.InsertPerm | backend/routers/topscore.py:30 | inserting into the sorted prefix is a permutation step |
| TopScore.InsertDescending | backend/routers/topscore.py:30 | insertion keeps the list non-increasing by `total_score` |
| TopScore.InsertWithKey | backend/routers/topscore.py:30 | an inserted record goes in front of the already placed records with an equal score; the sort inserts from the back, so this keeps equal scores in input order |
| TopScore.SortDescPerm | backend/routers/topscore.py:30 | the sort is a permutation of its input |
| TopScore.SortDescDescending | backend/routers/topscore.py:30 | the sorted list is non-increasing by `total_score`, a missing score counting as 0 |
| TopScore.SortDescStable | backend/routers/topscore.py:30 | records with equal scores keep their stream order |
| TopScore.GetTopScoreCandidates | backend/routers/topscore.py:7-41 | an auth error passes through and a falsy uid gives 401, both before any read; otherwise one stream, `candidate_id` set to each document id, sorted descending, stable and a permutation of the listing; an empty result is a 404 turned into a 500; the reply echoes `jd_id` |
| TopScore.EmptyCollectionIsError | backend/routers/topscore.py:32-33 | the result is empty exactly when the collection has no documents |
| TopScoreStore.SaveResultsFails | backend/storage/firestore.py:4-20 | the batch save fails exactly when some entry has a truthy non-string `candidate_id`, and then with the bad-id error |
| TopScoreStore.SaveResultsStops | backend/storage/firestore.py:4-20 | entries after the failing one are never written |
| TopScoreStore.SaveResultsLastWins | backend/storage/firestore.py:4-20 | each saved entry is stored whole at users/uid/top_score/jd_id/candidates/cid, and for a duplicate id the last entry wins |
| TopScoreStore.SaveResultsElsewhere | backend/storage/firestore.py:9-20 | no document outside the saved candidates' paths changes; entries without an id are skipped |
| TopScoreStore.SaveTopscoreResults | backend/storage/firestore.py:3-20 | the loop leaves the store as the batch-save function says and performs only set operations |
| TopScoreStore.RefreshFields | backend/storage/firestore.py:50-60 | the update touches exactly the eight score and identity fields plus `updated_at` |
| TopScoreStore.SaveCandidateTopscore | backend/storage/firestore.py:23-66 | no `candidate_id` means no read or write; otherwise the parent document is created only if absent and the candidate is upserted |
| TopScoreStore.UpsertElsewhere | backend/storage/firestore.py:28-66 | the upsert changes no document besides the parent and the candidate |
| TopScoreStore.UpsertKeepsJd | backend/storage/firestore.py:35-43 | an existing parent document is untouched |
| TopScoreStore.UpsertRefreshesOnly | backend/storage/firestore.py:48-60 | an existing candidate document gets only the score and identity fields refreshed; fields such as `score_breakdown` keep their old values |
| TopScoreStore.UpsertCreatesWhole | backend/storage/firestore.py:61-66 | a new candidate document is the whole candidate plus `created_at` |
| TopScoreStore.UpsertRepeat | backend/storage/firestore.py:48-66 | repeating the upsert with a candidate that has all score fields leaves every document and field except `updated_at` as after the first call |
| TopScoreStore.UpsertRepeatAddsNull | backend/storage/firestore.py:48-66 | without the all-fields condition the repeat does differ: a score field missing from the candidate is absent after the first call and null after the second |
| DocStore.Firestore.Get | backend/storage/firestore.py:35 | reading returns the stored record or none, and changes no document |
| DocStore.Firestore.Set | backend/storage/firestore.py:20 | writes the whole record at the path, nothing else |
| DocStore.Firestore.Update | backend/storage/firestore.py:50-60 | merges the fields into an existing document; a missing document fails and is unchanged |
| DocStore.Firestore.Delete | backend/routers/candidates.py:232 | removes the path only |
| DocStore.Firestore.Stream | backend/routers/candidates.py:190 | returns each document of the collection exactly once, changing nothing |
| DocStore.Tagged | backend/routers/candidates.py:192-196 | each listed record gets the field set to its document id, in stream order, overriding a stored value |
| DocStore.WithIds | backend/routers/job_description.py:204-208 | the listing loop computes the tagged records |
| DocStore.ListingIds | backend/routers/topscore.py:21-27 | a listing holds a document id exactly when that document exists |
| DocStore.TaggedIds | backend/routers/topscore.py:24-27 | a tagged record carries an id exactly when the document with that id exists |
| DocStore.ListingOfSame | backend/routers/candidates.py:144-145 | a stream taken after writes that left the collection alone is a stream of the collection as it was before them |
| FirebaseConfig.BearerTokenIsFirstPiece | backend/firebase_config.py:41 | the token is the text after "Bearer ", cut at the next "Bearer " |
| FirebaseConfig.VerifyFirebaseToken | backend/firebase_config.py:35-51 | a missing or empty header, or one not starting with the exact "Bearer ", is a 401; any verification failure is a 401; success returns the verified uid |
| FirebaseConfig.ChooseCredential | backend/firebase_config.py:17-25 | non-empty raw JSON wins; otherwise the file path must be set and exist, else an error |
| FirebaseConfig.FirebaseAdmin.InitializeFirebase | backend/firebase_config.py:9-27 | does nothing when an app exists; otherwise initialises with the chosen credential, or leaves no app and reports the error: the choice's error, or the one raised when the credential cannot be decoded, turned into a certificate or used to initialise the app |
| AzureStorage.ContentTypeOrDefault | backend/storage/azure.py:22 | a missing or empty content type becomes "application/octet-stream" |
| AzureStorage.BlobContainer.UploadResumeToAzure | backend/storage/azure.py:14-29 | stores the blob at `uid/id/filename`, overwriting, and returns `https://<account>.blob.core.windows.net/<container>/<blob>`; a failure is wrapped as "Failed to upload resume to Azure: ..." |
| AzureStorage.BlobContainer.DeleteResumeFromAzure | backend/storage/azure.py:31-38 | removes an existing blob; a missing one gives "Blob not found: ...", another failure "Failed to delete blob: ..." |
| AzureStorage.HttpsUrlPath | backend/routers/candidates.py:228 | `urlparse(url).path` of an https URL is the text from the first slash after the host |
| AzureStorage.BlobUrlPath | backend/storage/azure.py:26 | the path of a blob URL is "/container/blob name" |
| AzureStorage.StripRecoversNameIff | backend/routers/candidates.py:229 | `lstrip("/<container>/")` gives back the blob name exactly when the name is empty or its first character is outside the stripped set |
| AzureStorage.DeletePathMatchesUpload | backend/routers/candidates.py:228-230 | the recovered blob path equals the uploaded blob name exactly when the uid's first character is outside the stripped set |
| AzureStorage.DeletePathDropsUidHead | backend/routers/candidates.py:229 | a uid whose first character occurs in the container name loses that character, so the delete targets another blob |
| CorsOrigins.Origins | backend/main.py:13-14 | an unset variable gives no origins; there are at most commas + 1 of them |
| CorsOrigins.OriginsShape | backend/main.py:14 | every origin is non-empty, equals its own strip and contains no comma |
| CorsOrigins.OriginsInOrder | backend/main.py:14 | origins keep their input order |
| PyStr.StripShape | backend/main.py:14 | `strip()` is empty exactly for all-whitespace text and otherwise has no whitespace at either end |
| PyStr.StripIdempotent | backend/main.py:14 | stripping twice is stripping once |
| PyStr.SplitJoin | backend/main.py:14 | joining the pieces of a split with the separator gives back the text |
| PyStr.SplitOnCharShape | backend/main.py:14 | splitting on a character gives one more piece than occurrences, none containing it |
| PyStr.FirstPieceIsPrefix | backend/firebase_config.py:41 | the first piece of a split is the longest prefix free of the separator |
| PyStr.LStripCharsPrefix | backend/routers/candidates.py:229 | `lstrip(chars)` removes every leading character of the set, however many |
| PyStr.JoinThenSplit | backend/services/parser.py:7 | splitting a join on a separator absent from the parts gives back the parts |
| DocxParser.ExtractTextFromDocx | backend/services/parser.py:5-7 | the text is empty exactly when every paragraph is blank, and never starts or ends with whitespace |
| DocxParser.ExtractInOrder | backend/services/parser.py:7 | paragraphs contribute in document order, joined by a newline |
| DocxParser.BlankParagraphOmitted | backend/services/parser.py:7 | a whitespace-only paragraph contributes nothing |
| DocxParser.ExtractSplitsBack | backend/services/parser.py:7 | splitting the text on newlines gives exactly the stripped non-blank paragraphs |
| Uploads.ContentTypeOrPdf | backend/routers/candidates.py:66 | a missing or empty content type becomes "application/pdf" |
| Uploads.UpperCaseDocxIsDocx | backend/routers/candidates.py:68 | a name ending ".DOCX" is treated as a Word document, since the name is lower-cased first |
| Uploads.FilePart | backend/routers/candidates.py:68-76 | a Word document becomes the extracted text (failing when unreadable); anything else is the raw bytes with its content type |
| Filtering.FilterLast | backend/routers/job_description.py:155-159 | one loop iteration: the element is appended exactly when the test holds, and a failing test raises |
| Filtering.FilterFails | backend/routers/candidates.py:149-155 | the filter raises exactly when the test raises on some element |
| Filtering.FilterMembers | backend/routers/job_description.py:155-159 | the result holds exactly the elements that pass the test |
| Filtering.FilterAppend | backend/routers/candidates.py:146-155 | filtering keeps stream order: the filter of a concatenation is the concatenation of the filters |
| Filtering.FilterPrefixFails | backend/routers/candidates.py:149-155 | once the loop raises, later elements do not matter |
| Filtering.FilterAppendFails | backend/routers/job_description.py:156-159 | a raising prefix makes the whole filter raise the same error |
| Filtering.FilterNothing | backend/routers/job_description.py:155-163 | the filter is empty exactly when every element fails the test without raising |
| Filtering.FilterLoop | backend/routers/job_description.py:155-159 | the loop that tests each element once, in order, and appends the accepted ones computes exactly the filter, stopping at the first error the test raises |
| Filtering.FilterSameTest | backend/routers/job_description.py:157 | the filter depends only on the test's answers for the elements at hand, so calling the overlap test with its arguments in either order gives the same result |
| SkillOverlap.OverlapOneIff | backend/routers/candidates.py:154 | with `min_overlap=1` the test holds exactly when the two sets share an element |
| SkillOverlap.OverlapOneLists | backend/routers/job_description.py:158 | for two lists of skill names, overlap means a name in common |
| SkillOverlap.OverlapSymmetric | backend/routers/job_description.py:147-148 | the test does not depend on argument order |
| SkillOverlap.MissingSkillsNeverMatch | backend/routers/candidates.py:151-152 | a missing skill field counts as an empty list and matches nothing |
| SkillOverlap.OverlapsWithSwapped | backend/routers/job_description.py:157-158 | testing a candidate against the job's skills equals the router's call with the job's skills first |
| Values.Stamped | backend/routers/candidates.py:132-136 | the stored record is the parsed fields plus `uid` and the id and URL fields (`candidate_id`/`resume_url` here, `jd_id`/`jd_url` in the job-description router), those three overriding parsed values and every other field kept |
| CandidatesRouter.MatchingJds | backend/routers/candidates.py:144-155 | the matching loop returns exactly the job descriptions that share a skill with the candidate, in stream order, or the first overlap error |
| CandidatesRouter.ScoreAgainstJds | backend/routers/candidates.py:144-165 | streams the job descriptions once and writes none of them; reports exactly the first failure for that stream: the overlap error, else the first scoring error or bad `candidate_id` in match order, none when all succeed; the stored candidate document is kept |
| CandidatesRouter.SaveJdScores | backend/routers/candidates.py:164-165 | fails exactly when some scored entry has a bad `candidate_id`, with the bad-id error; writes no job description and keeps the stored candidate document |
| CandidatesRouter.WritesKeepJds | backend/routers/candidates.py:138-165 | writing the candidate, a top-score parent document or a top-score candidate document leaves every job description as it was |
| CandidatesRouter.ProcessResume | backend/routers/candidates.py:59-165 | one file: before the candidate is stored, the error is the first failing step's (the wrapped upload fault, the file part, the model call, the undecodable reply) and nothing is stored; once stored, the result is the record exactly when matching, scoring and saving against the job descriptions as found succeed, else their first error; the reply text is reported whenever the model answered |
| CandidatesRouter.LatestReplyLeaks | backend/routers/candidates.py:174-179 | an error entry whose file failed before its own reply carries the most recent earlier file's reply |
| CandidatesRouter.ResumeEntryOf | backend/routers/candidates.py:58-179 | one file's entry, exactly: the success entry with the stored record when every step succeeds, otherwise an error entry with the filename, the first failing step's text and the latest reply |
| CandidatesRouter.ProcessResumes | backend/routers/candidates.py:58-179 | exactly one entry per file, in upload order, each the exact entry of one iteration matched against the job descriptions as the request found them |
| CandidatesRouter.CandidateResumes | backend/routers/candidates.py:49-181 | authentication and weight initialisation first; then a "completed" reply with exactly one entry per file in upload order, each carrying its file's record or the exact error of its first failing step |
| CandidatesRouter.GetCandidateResumes | backend/routers/candidates.py:184-205 | one stream; each record gets `id` = document id, in stream order; an auth error becomes a 500 |
| CandidatesRouter.DeleteCandidateResume | backend/routers/candidates.py:212-240 | a missing candidate is a 404 re-raised as a 500; the blob is deleted only when `resume_url` is truthy, at the path `lstrip` recovers; the document is deleted only when there is no URL or the blob delete succeeds |
| JobDescriptionRouter.FilterCandidates | backend/routers/job_description.py:151-159 | the loop returns exactly the candidates sharing a skill with the job description, in stream order, or the first overlap error |
| JobDescriptionRouter.Contents | backend/routers/job_description.py:141-144 | the candidate list is the streamed documents' data, in order |
| JobDescriptionRouter.StoreJd | backend/routers/job_description.py:53-131 | the job description is stored exactly when the upload, the file part, the model call and the decoding all succeed; the stored record is the decoded reply with its bookkeeping fields, set before any matching. Otherwise the error is the first failing step's (a model error re-raised as a 500) and nothing is stored |
| JobDescriptionRouter.MatchAndScore | backend/routers/job_description.py:139-176 | streams the candidates once; reports no match exactly when no stored candidate shares a skill with the job description; otherwise reports exactly the first failure of the overlap test, the scoring and the batch save, none when all succeed; the store afterwards is the batch save of the scores, or unchanged when nothing was scored; neither the candidates nor the stored job description change |
| JobDescriptionRouter.MatchStoredJd | backend/routers/job_description.py:133-185 | after the store: the stored record's entry, followed by an error entry exactly when matching, scoring or saving fails, with that failure's text; a single entry when nothing matches |
| JobDescriptionRouter.ListingMatchesNone | backend/routers/job_description.py:139-163 | for any order of the streamed candidates, the filtered list is empty exactly when every stored candidate is tested and rejected without error |
| JobDescriptionRouter.SetJdKeepsCandidates | backend/routers/job_description.py:131 | storing a job description leaves every candidate document as it was |
| JobDescriptionRouter.SaveKeepsCandidates | backend/routers/job_description.py:173 | saving the top scores leaves every candidate document as it was |
| JobDescriptionRouter.ProcessJd | backend/routers/job_description.py:51-185 | one file's entries, exactly: the error of the step that stopped it before the store; or the stored record (`parsed_data`), followed by an error entry exactly when matching, scoring or saving against the candidates as found fails, with that failure's text. It ends the request exactly when the job description is stored and matches no candidate; candidates are never written |
| JobDescriptionRouter.ProcessJds | backend/routers/job_description.py:51-185 | entries for each handled file in order; it stops right after the first file whose job description matches no candidate of the store as the request found it, and otherwise handles every file |
| JobDescriptionRouter.UploadMultipleJds | backend/routers/job_description.py:42-191 | authentication and weight initialisation first. Then either the fixed text, exactly when a handled file matches no candidate, that file being the last handled and the only such file; or a "completed" reply with every file's entries in order, each entry carrying its record or its exact error |
| JobDescriptionRouter.GetJobDescriptions | backend/routers/job_description.py:196-217 | one stream; each record gets `id` = document id, in stream order; an auth error becomes a 500 |
| JobDescriptionRouter.DeleteJobDescription | backend/routers/job_description.py:222-251 | a missing job description ends as a 500; the file is deleted only when `jd_url` is truthy; the document is deleted only when there is no URL or the file delete succeeds |
| Analyzer.UpperCaseRejected | backend/routers/analyzer.py:17-19 | the extension test is case-sensitive, so ".PDF" and ".DOCX" are refused |
| Analyzer.KindAccepted | backend/routers/analyzer.py:17-30 | exactly names ending ".pdf" or ".docx" are accepted |
| Analyzer.ExtractFile | backend/routers/analyzer.py:17-30 | ".pdf" goes to the PDF extractor, ".docx" to the paragraph extractor, anything else is a 400 naming the file's role |
| Analyzer.AnalyzeResumeAndJd | backend/routers/analyzer.py:7-39 | authentication first; the resume is checked before the job description; both texts on success; any failure becomes a 500 "Extraction failed: ..." |
| Analyzer.UnsupportedResumeIs500 | backend/routers/analyzer.py:17-39 | an unsupported resume ends as a 500 carrying the 400's message |
| Analyzer.UnsupportedJdIs500 | backend/routers/analyzer.py:25-39 | an unsupported job description after a good resume ends as a 500 carrying its 400's message |
| CandidatesPage.Page.constructor | client/src/pages/CandidatesPage/CandidatesPage.jsx:58-60 | initial state: no file, not uploading, no result |
| CandidatesPage.Page.HandleFileChange | client/src/pages/CandidatesPage/CandidatesPage.jsx:65-69 | keeps only the first picked file and clears the result |
| CandidatesPage.Page.HandleSubmit | client/src/pages/CandidatesPage/CandidatesPage.jsx:71-92 | no file: a warning, no call, `uploading` unchanged; with a file: one call made while Submit is disabled, `uploading` false afterwards on every outcome, the result set on success and kept on failure with the matching toasts |

## Left out

- The language model calls (prompts, schemas, `generate_content`) and the scoring model are parameters; their outputs are arbitrary.
- The Firestore, Azure Blob and Firebase Admin SDKs are replaced by the map-backed classes; network behaviour, SDK exception texts other than those the code formats, and `SERVER_TIMESTAMP` values (a fixed marker value here) are not modelled.
- `round(total_score, 2)` and floating point: the total is the exact weighted sum over reals.
- async/await and concurrent requests: every handler runs sequentially.
- `calculate_total_score(s, uid)` with `["total_score"]`/`["breakdown"]` in both upload routers does not match the function shown; together with the scoring model it is one per-file scoring oracle that yields the records to save or fails.
- `initialize_user_weights` is not defined in the scoring service; it is a parameter that passes or fails, and a failure is an internal error before any file is read.
- `extract_text_from_pdf` is not defined in the parser; the analyzer takes it as a parameter.
- The .docx reader itself is not modelled: an uploaded file carries the paragraph texts the reader would find, or none when the content is not a Word document.
- The client services module is not part of this model: the editor's fetch/update calls and the resume upload call are parameters (their outcomes), so its field name `resume` against the server's `resumes` and its no-user error are not modelled.
- `uuid.uuid4()` ids are given per file and assumed fresh; collisions are not modelled.
- Dict ordering: records are maps, so the key order of replies is not modelled.
- Unicode: `str.lower`, `toUpperCase` and `\w` are modelled on ASCII letters only; `str.strip` uses Python's whitespace set.
- `urlparse` is modelled for https URLs of the form the upload produces (scheme, host, path up to `;`, `?` or `#`), not in general.
- Document ids containing `/` and Firestore's own path validation are not modelled.
- `parseInt` is modelled on integers; JavaScript number precision for very long digit strings is not.
- Loaded weights are assumed to be integers; non-numeric stored values in the editor are not modelled.
- TopScore.GetTopScoreCandidates: with two or more records, any score that is not a number or boolean makes the sort fail as incomparable, even when all scores are strings, which Python could still order among themselves; the error text is not Python's exact message.
- CORS middleware options and the FastAPI app wiring beyond the origin list; the rendering-only client pages.
- Python's own exception texts are stand-ins: the overlap test's "object is not iterable" error, the JSON decoding error of a reply that is not an object, and the `urlparse` error on a non-string `jd_url` use fixed texts, not the exact `str(e)` Python would produce (for example "'NoneType' object is not iterable" or "unhashable type: 'list'").
- Python's equality of `True`, `1` and `1.0` as set members and dict keys is not modelled: `set()` of skills and the role map treat a boolean and a number as different values.
- CandidatesRouter.ScoreAgainstJds: states the failure it reports and the documents it keeps, not which top-score documents are written; each of those writes is specified by `TopScoreStore.SaveCandidateTopscore`.
- CandidatesRouter.SaveJdScores: likewise states its failure and the documents it keeps, not the top-score documents written; each write is specified by `TopScoreStore.SaveCandidateTopscore`.
- CandidatesRouter.DeleteCandidateResume: when the blob delete fails, states only that the reply is a 500 and nothing changes, not the message text.
- JobDescriptionRouter.DeleteJobDescription: when the file delete fails, states only that the reply is a 500 and nothing changes, not the message text.
- CandidatesRouter.CandidateResumes: does not state the final top-score documents; the store is stated through what each entry says about its own file and the job descriptions, which are never written.
- JobDescriptionRouter.UploadMultipleJds: does not state the final store contents beyond the blobs, the unchanged candidates and what each entry says about its own file.
