# Automated Interview System — a Dafny model of its bookkeeping and string logic

The Automated Interview System is an AI-assisted mock-interview platform. It has five parts:

- **Resume scanner.** It tags resumes with skill categories taken from a category CSV file. It also matches and ranks jobs by skill overlap, and does an exact case-insensitive category lookup.
- **Flask back end.** It allocates interview sessions, serves their questions, and records and scores answers. It summarises results and keeps a facial-analysis session per candidate. That session holds a frame counter, a capped alert list and capped attention and emotion histories.
- **Facial-analysis helpers.** These are an alert rate limiter, an interview report summary and a duration formatter.
- **React front end.** This covers speech-transcript and fullscreen hooks, two generations of the interview screen and of the results screen, a resume-upload card, two mock interview pages and the page router.
- **Shared library semantics.** These are modelled once: ASCII case folding, Python `strip` and JavaScript `trim`, `str.split` on one character, `Counter`, `Math.round`, `{:02d}` padding and `padStart`.

Each source file of the core becomes one Dafny module in the form the source takes:

- **Stateful parts are classes** whose methods update fields. These are the alert system, the back end's session stores, the hooks and the screens. Each method's `ensures` gives the new state.
- **Loops are methods** with invariants, proved against specification functions. Examples are reading categories, scanning a resume, merging folder matches, ranking jobs, collecting dominant emotions and reading speech results.
- **Pure folds and formulas are functions with lemmas.** Examples are keyword extraction, the metrics reducer, grouping, `format_duration` and `_convert_to_serializable`.

Several things are inputs or parameters to the model:

- server replies to the front end;
- the text extracted from a resume;
- the vision helpers' readings;
- the clock;
- the random "time spent" of the live interview.

Scores are exact `real`s. `Math.round(x)` is `Floor(x + 0.5)`.

## Model

| member | source | states |
|---|---|---|
| ResumeScanner.FirstCategory | ResumeScanner_AI/resume_scanner.py:28-31 | a row yields its first cell that is non-blank, stripped, or nothing when every cell is blank |
| ResumeScanner.CategoriesOfRows | ResumeScanner_AI/resume_scanner.py:27-31 | data rows give at most one category each, every one non-empty and stripped |
| ResumeScanner.BlankRowsIgnored | ResumeScanner_AI/resume_scanner.py:27-31 | rows whose cells are all blank contribute no category |
| ResumeScanner.RowCategory | ResumeScanner_AI/resume_scanner.py:28-31 | the inner cell loop returns exactly the row's first non-blank cell, stripped |
| ResumeScanner.ReadAllCategories | ResumeScanner_AI/resume_scanner.py:14-32 | the reading loop yields the categories of the file: none for a missing or empty file, header skipped when a cell mentions "category" in any case |
| ResumeScanner.StripParens | ResumeScanner_AI/resume_scanner.py:37 | removing parenthesised groups never lengthens the text |
| ResumeScanner.StripParensNoOpen | ResumeScanner_AI/resume_scanner.py:37 | text with no '(' is left unchanged |
| ResumeScanner.StripParensDropsGroup | ResumeScanner_AI/resume_scanner.py:37 | `pre(inner)post` with no parenthesis in `pre` or `inner` becomes `pre` plus the cleaned `post` |
| ResumeScanner.SplitCategory | ResumeScanner_AI/resume_scanner.py:43 | splitting at '/', '&', ',' and the word "and" gives at least one part, and no part contains a separator character |
| ResumeScanner.SplitCategoryNoSeparator | ResumeScanner_AI/resume_scanner.py:43 | a single run of letters that is not "and" stays one part |
| ResumeScanner.SplitLetters | ResumeScanner_AI/resume_scanner.py:43 | after a word character a run of letters is never split, since "and" is not a whole word there |
| ResumeScanner.WordRunLength | ResumeScanner_AI/resume_scanner.py:46 | the leading run of word characters is maximal: the character after it is not a word character |
| ResumeScanner.LetterWords | ResumeScanner_AI/resume_scanner.py:46 | every word found has three or more ASCII letters |
| ResumeScanner.WordsOfParts | ResumeScanner_AI/resume_scanner.py:44-47 | all words gathered over the parts have three or more letters |
| ResumeScanner.Keywords | ResumeScanner_AI/resume_scanner.py:34-53 | every keyword is lower-case, consists of three or more letters, and is not one of the six common words; the result is a set |
| ResumeScanner.KeywordsIgnoreParenthesised | ResumeScanner_AI/resume_scanner.py:37-53 | a parenthesised remark contributes no keyword: the keywords equal those of the text without it |
| ResumeScanner.KeywordsOfOneWord | ResumeScanner_AI/resume_scanner.py:43-53 | a single uncommon word of three or more letters yields exactly its lower-cased self |
| ResumeScanner.Extension | ResumeScanner_AI/resume_scanner.py:57 | the extension is empty or starts with '.', is a suffix of the path, holds no '/' and no further '.' |
| ResumeScanner.ExtensionOfName | ResumeScanner_AI/resume_scanner.py:57 | a name `stem.ext` with a plain non-empty stem has extension ".ext" |
| ResumeScanner.DotPdfMatchesNothing | ResumeScanner_AI/resume_scanner.py:57-70 | a file named ".pdf" passes the folder filter of line 126 but has no extension, so no text is read and nothing matches |
| ResumeScanner.MatchingCategories | ResumeScanner_AI/resume_scanner.py:79-91 | no more categories are reported than listed |
| ResumeScanner.MatchingCategoriesIff | ResumeScanner_AI/resume_scanner.py:79-91 | a category is reported exactly when it is listed and one of its keywords occurs in the lower-cased text |
| ResumeScanner.MatchingCategoriesOrdered | ResumeScanner_AI/resume_scanner.py:79-91 | the report is a subsequence of the category list |
| ResumeScanner.CountMatching | ResumeScanner_AI/resume_scanner.py:83-86 | the counter equals the number of keywords occurring in the text, and is at least 1 exactly when some keyword occurs |
| ResumeScanner.ScanSingleResume | ResumeScanner_AI/resume_scanner.py:55-94 | the scan returns the specified result: nothing for an unreadable type or empty text, else the matching categories |
| ResumeScanner.OutputRows | ResumeScanner_AI/resume_scanner.py:134-139 | the CSV is a "Category" header followed by one single-cell row per matched category |
| ResumeScanner.MergeNew | ResumeScanner_AI/resume_scanner.py:130-132 | merging keeps what was there as a prefix, adds exactly the new elements, and keeps the list free of duplicates |
| ResumeScanner.FolderResults | ResumeScanner_AI/resume_scanner.py:121-129 | one result per directory entry, each the entry's scan or nothing for a non-file or an unaccepted name |
| ResumeScanner.MergeAllDistinct | ResumeScanner_AI/resume_scanner.py:130-132 | the merged report names no category twice |
| ResumeScanner.MergeAllIff | ResumeScanner_AI/resume_scanner.py:130-132 | the merged report holds exactly the categories some list holds |
| ResumeScanner.FolderMatchesSpec | ResumeScanner_AI/resume_scanner.py:119-132 | the folder report has no duplicates and names exactly the categories some scanned resume matched |
| ResumeScanner.MergeInto | ResumeScanner_AI/resume_scanner.py:130-132 | the merge loop computes the first-seen merge |
| ResumeScanner.ScanFolder | ResumeScanner_AI/resume_scanner.py:119-132 | the folder loop computes the merged matches of all entries in listing order |
| ResumeScanner.WriteRows | ResumeScanner_AI/resume_scanner.py:135-139 | the writing loop produces the output rows |
| ResumeScanner.Run | ResumeScanner_AI/resume_scanner.py:96-142 | no report when no category loads; otherwise the named resume's matches (none when it is missing) or the folder's matches, written as rows |
| Matcher.SplitSkills | ResumeScanner_AI/modules/matcher.py:9 | the skills cell splits into at least one piece, each stripped and free of ',' |
| Matcher.OneSkill | ResumeScanner_AI/modules/matcher.py:9 | a cell without commas is one stripped skill |
| Matcher.SplitSkillsJoin | ResumeScanner_AI/modules/matcher.py:9 | trimmed skills without commas are recovered from their comma-joined cell |
| Matcher.JobsOf | ResumeScanner_AI/modules/matcher.py:4-11 | jobs load exactly when every row has a skills column, one job per row |
| Matcher.LoadJobs | ResumeScanner_AI/modules/matcher.py:4-11 | the loading loop yields the specified jobs, each with its row's skills split |
| Matcher.JobsOfElements | ResumeScanner_AI/modules/matcher.py:8-10 | each loaded job keeps its row's other columns and splits its skills cell |
| Matcher.MatchSkills | ResumeScanner_AI/modules/matcher.py:13-17 | the score lies in [0, 1] and is 0 for a job listing no skills |
| Matcher.SetOfSize | ResumeScanner_AI/modules/matcher.py:16-17 | a list has as many distinct entries as entries exactly when none repeats |
| Matcher.MatchSkillsFull | ResumeScanner_AI/modules/matcher.py:13-17 | the score is 1 exactly when the job lists each skill once and the candidate has all of them |
| Matcher.RepeatedSkillHalvesScore | ResumeScanner_AI/modules/matcher.py:16-17 | a job skill listed twice counts twice in the denominator |
| Matcher.ScoreAll | ResumeScanner_AI/modules/matcher.py:21-23 | one scored copy per job, in input order, carrying the job and its score |
| Matcher.Insert | ResumeScanner_AI/modules/matcher.py:24 | insertion adds exactly one element |
| Matcher.InsertSorted | ResumeScanner_AI/modules/matcher.py:24 | insertion keeps a list sorted by descending score |
| Matcher.SortDesc | ResumeScanner_AI/modules/matcher.py:24 | the sort is a permutation sorted by descending score |
| Matcher.SortDescStable | ResumeScanner_AI/modules/matcher.py:24 | jobs with equal scores keep their input order |
| Matcher.Take | ResumeScanner_AI/modules/matcher.py:25 | `s[:n]` is a prefix: min(n, length) entries, or all but the last -n entries for negative n |
| Matcher.RankJobs | ResumeScanner_AI/modules/matcher.py:19-25 | the ranking is the top-n prefix of the stable descending sort, sorted, of length min(n, jobs) |
| Matcher.SortedPrefix | ResumeScanner_AI/modules/matcher.py:25 | a prefix of a sorted ranking is sorted |
| Matcher.RankedFromJobs | ResumeScanner_AI/modules/matcher.py:21-25 | every ranked entry is an input job with its own score |
| NlpExtractor.CategoriesOf | ResumeScanner_AI/modules/nlp_extractor.py:11-13 | at most one category per row, each non-empty and stripped |
| NlpExtractor.RowCategory | ResumeScanner_AI/modules/nlp_extractor.py:12-13 | a row contributes at most one stripped, non-empty name |
| NlpExtractor.ReadCategories | ResumeScanner_AI/modules/nlp_extractor.py:7-13 | the reading loop gives the category rows' stripped first cells, none without a file |
| NlpExtractor.Found | ResumeScanner_AI/modules/nlp_extractor.py:19-22 | no more results than categories |
| NlpExtractor.ExtractSkills | ResumeScanner_AI/modules/nlp_extractor.py:4-24 | the result is the specified match of the file's categories against the lower-cased text, empty without a file |
| NlpExtractor.FoundIff | ResumeScanner_AI/modules/nlp_extractor.py:19-22 | a category is reported exactly when listed and its lower-cased name occurs in the text |
| NlpExtractor.FoundOrdered | ResumeScanner_AI/modules/nlp_extractor.py:19-24 | the result is a subsequence of the category list |
| NlpExtractor.FoundRepeats | ResumeScanner_AI/modules/nlp_extractor.py:19-24 | a category listed k times is reported k times when it matches, else never |
| Backend.CheckUpload | my-interview-app/backend/app.py:162-176 | an upload is accepted exactly when a named file part has a lower-cased extension among .pdf, .docx, .txt; rejections are status 400 |
| Backend.UploadByExtension | my-interview-app/backend/app.py:172-175 | `stem.ext` with a plain non-empty stem is accepted exactly when ext in any case is pdf, docx or txt |
| Backend.BareExtensionRejected | my-interview-app/backend/app.py:172-176 | a file called ".pdf" is refused with the extension message |
| Backend.NewInterview | my-interview-app/backend/app.py:261-267 | a new interview has no answers, a zero total and satisfies the store invariant |
| Backend.NextIndex | my-interview-app/backend/app.py:343-350 | completion holds exactly when index + 1 reaches the question count; otherwise the next index is index + 1 |
| Backend.Answered | my-interview-app/backend/app.py:321-340 | answering appends one record and one score, and the total stays the sum of the scores |
| Backend.CountCorrect | my-interview-app/backend/app.py:373 | the correct count is at most the answer count |
| Backend.CountCorrectBounds | my-interview-app/backend/app.py:373 | all answers count exactly when all are flagged correct, none exactly when none is |
| Backend.EmotionCounts | my-interview-app/backend/app.py:401-402 | one capitalized entry per distinct emotion, in first-seen order, with its number of occurrences |
| Backend.EmotionCountsTotal | my-interview-app/backend/app.py:401-402 | the chart's counts add up to the number of recorded emotions |
| Backend.DemoEmotionsTotal | my-interview-app/backend/app.py:415-420 | the demo emotion counts add up to 100 |
| Backend.ChartOf | my-interview-app/backend/app.py:397-423 | a session's own attention, alerts, frames and emotion counts (`EmotionCounts`), or the demo attention cut to the answer count, the demo emotions and 25 frames per answer |
| Backend.ResultRows | my-interview-app/backend/app.py:379-390 | one row per answer, numbered from 1 and paired with the question at the same position |
| Backend.CompletionOf | my-interview-app/backend/app.py:442-448 | fully completed exactly when every question is answered; otherwise the positive number remaining and the message |
| Backend.Summarize | my-interview-app/backend/app.py:372-448 | correct count, correctness percentage in [0, 100], mean similarity, score ten times it, "completed" exactly when all are answered, otherwise "partial"; the fixed attention 0.82 and emotion "focused" |
| Backend.ResultsOf | my-interview-app/backend/app.py:363-455 | no answers give 400; more answers than questions fail; otherwise the summary |
| Backend.ResultsScoreBounds | my-interview-app/backend/app.py:374-376 | similarities in [0, 1] give a score in [0, 10] |
| Backend.NewFacial | my-interview-app/backend/app.py:716-724 | a new facial session is active with no frames and satisfies the store invariant |
| Backend.FrameAlert | my-interview-app/backend/app.py:768-779 | an alert is raised exactly for a decoded frame with a face count other than 1 |
| Backend.Push | my-interview-app/backend/app.py:781-787 | a capped history appends the entry and keeps the latest `cap` entries |
| Backend.PushAlert | my-interview-app/backend/app.py:776-785 | a new alert goes in front and the list is cut to `cap`; without one the list is only cut |
| Backend.FrameStep | my-interview-app/backend/app.py:761-794 | one frame adds exactly one to the frame count; an undecodable frame counts as attention 0.7, "neutral", no face; histories and alerts are capped at 100, 200 and 20 |
| Backend.FrameStepKeepsOk | my-interview-app/backend/app.py:780-787 | a frame keeps the session invariant: no more alerts than frames and at most 20; min(frames, 100) attention and min(frames, 200) emotion entries |
| Backend.FreshFrom | my-interview-app/backend/app.py:714 | the fresh id is the least unused id at or above the start |
| Backend.FreshIdAfterContiguous | my-interview-app/backend/app.py:714 | with ids 1..n in use the fresh id is n + 1, the id the handler takes |
| Backend.StartFacialAsWritten | my-interview-app/backend/app.py:714-724 | as written, the id is the store size plus one and its session is replaced by a new one |
| Backend.FacialIdCollision | my-interview-app/backend/app.py:714 | a session that `process_frame` created under an unknown id can be overwritten by a later start |
| Backend.FacialIdNoCollision | my-interview-app/backend/app.py:714 | against sessions that `process_frame` created, a fresh id leaves the existing session alone |
| Backend.FacialDataAsWritten | my-interview-app/backend/app.py:799-813 | as written, a session without emotions makes the handler fail |
| Backend.FacialData | my-interview-app/backend/app.py:799-813 | 404 for an unknown session; otherwise at most the 5 newest alerts, the last attention or 0, the last emotion or "neutral" |
| Backend.FacialDataOnFreshSession | my-interview-app/backend/app.py:802-812 | polling a just-started session fails as written and answers "neutral" when corrected |
| Backend.SummaryOf | my-interview-app/backend/app.py:829-834 | frames, alert count (at most 20 and at most the frames), last emotion or "neutral", mean attention |
| Backend.SummaryAttentionBounds | my-interview-app/backend/app.py:833 | the mean attention is 0 with no scores, else within the scores' bounds |
| Backend.TruncateAnswer | my-interview-app/backend/app.py:654-656 | answers up to 150 characters are kept; longer ones become their first 147 characters plus "...", exactly 150 |
| Backend.Server.constructor | my-interview-app/backend/app.py:95-96 | both stores start empty |
| Backend.Server.StartInterview | my-interview-app/backend/app.py:251-276 | no questions give 400; otherwise a new session with id len + 1 holding the questions, and the first question is returned |
| Backend.Server.GetQuestion | my-interview-app/backend/app.py:278-298 | 404 for an unknown session, 400 outside [0, len); otherwise the question with its 1-based number and the total |
| Backend.Server.SubmitAnswer | my-interview-app/backend/app.py:300-354 | 400 for missing or falsy fields, 404 for an unknown session, 400 for a bad index; a submission passing all three checks always succeeds, records one answer and returns the completion flag and next index; failures change nothing |
| Backend.Server.GetInterviewResults | my-interview-app/backend/app.py:356-455 | 404 with the session id for an unknown session; otherwise the results with the facial session of the same id |
| Backend.Server.StartFacialAnalysis | my-interview-app/backend/app.py:710-744 | corrected id: a new session under the least unused id from len + 1, so no session is overwritten; reported as simulation without the module and as failure when the module does not start |
| Backend.Server.ProcessFrame | my-interview-app/backend/app.py:746-797 | a missing session is created, then the frame step is applied to it and nothing else changes |
| Backend.Server.GetFacialData | my-interview-app/backend/app.py:799-813 | corrected default: the facial view of `Backend.FacialData`, with at most 5 alerts and "neutral" for a session without emotions |
| Backend.Server.StopFacialAnalysis | my-interview-app/backend/app.py:815-837 | 404 for an unknown session; otherwise the session is marked inactive and its summary returned |
| Backend.NextIndexIsServed | my-interview-app/backend/app.py:343-350 | the next index a submit proposes is one the question handler serves |
| Backend.AnsweringTwiceBreaksResults | my-interview-app/backend/app.py:318-340 | answering the only question twice leaves more answers than questions, so results fail |
| AlertSystem.Decide | facial-analysis-module/core/alert_system.py:7-18 | allowed exactly for a first alert or one more than the cooldown after the last; allowed alerts stamp the time; refused ones change nothing; other types are untouched |
| AlertSystem.AlertsSpacedOut | facial-analysis-module/core/alert_system.py:7-18 | successive allowed alerts of a type are more than the cooldown apart, and the table holds the latest time |
| AlertSystem.TypesIndependent | facial-analysis-module/core/alert_system.py:7-18 | requests of other types never change what happens to a type |
| AlertSystem.OfKind | facial-analysis-module/core/alert_system.py:7-18 | the filtered requests all have the given type |
| AlertSystem.NoticeText | facial-analysis-module/core/alert_system.py:20-28 | the no-face and multiple-faces alerts print fixed lines |
| AlertSystem.AlertSystem.constructor | facial-analysis-module/core/alert_system.py:4-5 | no alert type has a recorded time |
| AlertSystem.AlertSystem.CanAlert | facial-analysis-module/core/alert_system.py:7-18 | the decision and the new table are those of `Decide` |
| AlertSystem.AlertSystem.Raise | facial-analysis-module/core/alert_system.py:20-38 | an alert prints exactly when allowed under the default cooldown of 10 |
| AlertSystem.AlertSystem.NoFaceAlert | facial-analysis-module/core/alert_system.py:20-23 | prints the no-face notice exactly when type "no_face" is allowed |
| AlertSystem.AlertSystem.MultipleFacesAlert | facial-analysis-module/core/alert_system.py:25-28 | prints the face count exactly when type "multiple_faces" is allowed |
| AlertSystem.AlertSystem.LowBrightnessAlert | facial-analysis-module/core/alert_system.py:30-33 | prints the brightness exactly when type "low_brightness" is allowed |
| AlertSystem.AlertSystem.PoorAttentionAlert | facial-analysis-module/core/alert_system.py:35-38 | prints the score exactly when type "poor_attention" is allowed |
| ReportGenerator.ArgMax | facial-analysis-module/core/report_generator.py:28 | the first entry holding the largest score |
| ReportGenerator.Dominants | facial-analysis-module/core/report_generator.py:24-29 | at most one dominant emotion per frame |
| ReportGenerator.DominantsCount | facial-analysis-module/core/report_generator.py:26-29 | every usable frame contributes exactly one emotion |
| ReportGenerator.DominantsEmpty | facial-analysis-module/core/report_generator.py:26-32 | there is no dominant emotion exactly when no frame has a non-empty emotion map |
| ReportGenerator.CollectDominants | facial-analysis-module/core/report_generator.py:24-29 | the loop collects each usable frame's strongest emotion in frame order |
| ReportGenerator.GenerateReport | facial-analysis-module/core/report_generator.py:12-50 | mean attention (0 with none), the most common dominant emotion (on a tie the first seen) or "unknown", the list counts and the metadata |
| ReportGenerator.AverageAttentionBounds | facial-analysis-module/core/report_generator.py:18-22 | attention scores in [0, 1] average within [0, 1] |
| ReportGenerator.Convert | facial-analysis-module/core/report_generator.py:62-73 | the result holds no numpy scalar, keeps every key and list length, and changes nothing already native |
| Counter.Bump | facial-analysis-module/core/report_generator.py:31 | counting one more element raises its count by one, or opens it at the end with count 1 |
| Counter.Counts | facial-analysis-module/core/report_generator.py:31 | distinct keys, each with its number of occurrences, exactly the elements of the list, in the order of their first occurrences |
| Counter.CountsTotal | facial-analysis-module/core/report_generator.py:31 | the counts add up to the list length |
| Counter.BumpTotal | facial-analysis-module/core/report_generator.py:31 | one more element adds one to the total |
| Counter.FirstMax | facial-analysis-module/core/report_generator.py:32 | the first position holding the largest count |
| Counter.MostCommon | facial-analysis-module/core/report_generator.py:32 | none exactly for no elements; otherwise an element occurring at least as often as any other, and on a tie the one whose first occurrence comes earliest |
| Helpers.SplitDuration | facial-analysis-module/utils/helpers.py:10-12 | minutes and seconds in [0, 59] and hours·3600 + minutes·60 + seconds = s |
| Helpers.ParseDuration | facial-analysis-module/utils/helpers.py:13 | reading "HH:MM:SS" back gives a non-negative duration |
| Helpers.FormatDurationRoundTrip | facial-analysis-module/utils/helpers.py:8-13 | below 100 hours the text has 8 characters and reads back as the duration |
| Helpers.NegativeDuration | facial-analysis-module/utils/helpers.py:10-13 | a negative duration prints a signed hour field |
| Decimal.Digits | facial-analysis-module/utils/helpers.py:13 | the numeral is all digits, one digit exactly below 10 |
| Decimal.ValueOfDigits | facial-analysis-module/utils/helpers.py:13 | reading a printed number back gives the number |
| Decimal.PadStart | my-interview-app/frontend/src/components/LiveInterviewPage.tsx:79 | padding reaches the width and keeps a digit string a digit string |
| Decimal.Format02dSpec | facial-analysis-module/utils/helpers.py:13 | a field in [0, 100) takes two digits and reads back as itself; a negative one starts with '-' |
| Numeric.Round | my-interview-app/frontend/src/components/InterviewEaseResults.tsx:178 | `Math.round` is the integer within half of x, halves rounding up |
| Numeric.Percent | my-interview-app/frontend/src/components/InterviewEaseResults.tsx:205 | `Math.round(correct / total * 100)` lies in [0, 100] when correct ≤ total, is 100 when all are correct and 0 when none is |
| Numeric.RoundRatioPercent | my-interview-app/frontend/src/components/InterviewEaseResults.tsx:205 | a rounded percentage of a ratio correct/total lies in [0, 100] |
| Numeric.RatioAtMostOne | my-interview-app/frontend/src/components/InterviewEaseResults.tsx:205 | a ratio a/b with a ≤ b lies in [0, 1] and is 1 exactly when a = b |
| Numeric.MeanBetween | facial-analysis-module/core/report_generator.py:20 | a mean of values within bounds lies within them |
| Numeric.Round3 | my-interview-app/backend/app.py:781 | rounding to 3 decimals moves a value by at most 0.0005 |
| Text.Lower | ResumeScanner_AI/modules/nlp_extractor.py:16 | lower-casing keeps the length and lowers each letter |
| Text.Capitalize | my-interview-app/backend/app.py:402 | the first character upper case, the rest lower case, same letters |
| Text.Strip | ResumeScanner_AI/resume_scanner.py:29-30 | the result is a slice of the text after a blank prefix and before a blank suffix; it has no whitespace at either end and is empty exactly for blank text |
| Text.SplitOn | ResumeScanner_AI/modules/matcher.py:9 | at least one piece, none containing the separator |
| Text.JoinSplitOn | ResumeScanner_AI/modules/matcher.py:9 | joining the pieces gives back the text |
| Text.SplitOnJoin | ResumeScanner_AI/modules/matcher.py:9 | separator-free pieces are recovered by splitting their join |
| Text.LastIndexOf | my-interview-app/frontend/src/components/ResumeUpload.tsx:37 | the last position of the character, or -1 when absent |
| Text.FirstN | my-interview-app/backend/app.py:785 | `s[:n]` is the prefix of length min(n, len) |
| Text.LastN | my-interview-app/backend/app.py:786-787 | `s[-n:]` is the suffix of length min(n, len) |
| SpeechRecognition.FinalTextEmpty | my-interview-app/frontend/src/hooks/useSpeechRecognition.ts:71-80 | a batch adds text exactly when it has a final result |
| SpeechRecognition.FinalTextAppend | my-interview-app/frontend/src/hooks/useSpeechRecognition.ts:69-80 | two batches in turn add the final text of both |
| SpeechRecognition.FinalTextLength | my-interview-app/frontend/src/hooks/useSpeechRecognition.ts:71-72 | each final result adds its text and one space |
| SpeechRecognition.Recognizer.constructor | my-interview-app/frontend/src/hooks/useSpeechRecognition.ts:37-50 | empty transcripts, not listening, an error exactly without support |
| SpeechRecognition.Recognizer.OnResult | my-interview-app/frontend/src/hooks/useSpeechRecognition.ts:65-82 | the transcript grows by the final texts from `resultIndex` on; the interim transcript becomes the batch's non-final texts |
| SpeechRecognition.Recognizer.OnStart | my-interview-app/frontend/src/hooks/useSpeechRecognition.ts:59-63 | listening and no error, transcripts unchanged |
| SpeechRecognition.Recognizer.OnError | my-interview-app/frontend/src/hooks/useSpeechRecognition.ts:84-88 | not listening, the error names the code |
| SpeechRecognition.Recognizer.OnEnd | my-interview-app/frontend/src/hooks/useSpeechRecognition.ts:90-93 | not listening, nothing else changes |
| SpeechRecognition.Recognizer.StartListening | my-interview-app/frontend/src/hooks/useSpeechRecognition.ts:102-114 | starts exactly with support; without it, or when start throws, records the error |
| SpeechRecognition.Recognizer.ResetTranscript | my-interview-app/frontend/src/hooks/useSpeechRecognition.ts:124-127 | both transcripts become empty |
| Fullscreen.ExitsNeedEntries | my-interview-app/frontend/src/hooks/useFullscreen.ts:35-40 | every counted exit follows an entry, or the initial fullscreen state |
| Fullscreen.FullscreenHook.constructor | my-interview-app/frontend/src/hooks/useFullscreen.ts:13-19 | not fullscreen, no exits counted |
| Fullscreen.FullscreenHook.OnFullscreenChange | my-interview-app/frontend/src/hooks/useFullscreen.ts:23-52 | with support the state follows the element and the count grows by one exactly on leaving fullscreen; without support nothing changes |
| Fullscreen.FullscreenHook.OnFullscreenChanges | my-interview-app/frontend/src/hooks/useFullscreen.ts:26-41 | a run of events adds exactly its exits to the count and leaves the last event's state |
| Fullscreen.FullscreenHook.ToggleFullscreen | my-interview-app/frontend/src/hooks/useFullscreen.ts:54-101 | exit when fullscreen, enter otherwise, nothing without support |
| Fullscreen.ToggleExitIsCounted | my-interview-app/frontend/src/hooks/useFullscreen.ts:35-38 | leaving through the hook's own toggle is counted like a user's exit |
| FileType.ClientExtension | my-interview-app/frontend/src/components/InterviewEaseInterview.tsx:448 | the lower-cased suffix from the last '.', or at most one character without a '.' |
| FileType.NoDotRejected | my-interview-app/frontend/src/components/InterviewEaseInterview.tsx:447-453 | a name without '.' is never accepted |
| FileType.AcceptedByLastExtension | my-interview-app/frontend/src/components/ResumeUpload.tsx:36-42 | `stem.ext` is accepted exactly when ext in any case is pdf, docx or txt |
| FileType.BareExtensionSentThenRefused | my-interview-app/frontend/src/components/ResumeUpload.tsx:36-42 | the client sends a file named ".pdf" that the server then refuses |
| InterviewScreen.SyncDraft | my-interview-app/frontend/src/components/InterviewEaseInterview.tsx:188-196 | the draft is kept as a prefix and ends with a non-empty transcript; unchanged when it already ends with it |
| InterviewScreen.SyncDraftIdempotent | my-interview-app/frontend/src/components/InterviewEaseInterview.tsx:188-196 | re-running the sync with the same transcript changes nothing |
| InterviewScreen.RunLength | my-interview-app/frontend/src/components/InterviewEaseInterview.tsx:647 | the leading non-whitespace run is maximal |
| InterviewScreen.Words | my-interview-app/frontend/src/components/InterviewEaseInterview.tsx:647 | every token is a non-empty run without whitespace |
| InterviewScreen.WordCountZero | my-interview-app/frontend/src/components/InterviewEaseInterview.tsx:647 | the count is 0 exactly for a blank draft |
| InterviewScreen.WordsOfUnwords | my-interview-app/frontend/src/components/InterviewEaseInterview.tsx:647 | words joined by spaces split back into the same words |
| InterviewScreen.WordsOfWord | my-interview-app/frontend/src/components/InterviewEaseInterview.tsx:647 | a word followed by whitespace is split off first |
| InterviewScreen.AttentionColor | my-interview-app/frontend/src/components/InterviewEaseInterview.tsx:650-654 | green from 0.7, yellow from 0.5, red below |
| InterviewScreen.MergeAlerts | my-interview-app/frontend/src/components/InterviewEaseInterview.tsx:377-380 | new messages go in front and the list is cut to 5; nothing new leaves it unchanged |
| InterviewScreen.EnterNeverSubmits | my-interview-app/frontend/src/components/InterviewEaseInterview.tsx:611 | in the enabled answer box the written Enter guard is never true |
| InterviewScreen.EnterSubmitsWhenEnabled | my-interview-app/frontend/src/components/InterviewEaseInterview.tsx:611 | with the Submit button's guard, Enter submits exactly a non-blank draft in the enabled box |
| InterviewScreen.Screen.constructor | my-interview-app/frontend/src/components/InterviewEaseInterview.tsx:46-63 | no session, questions, scores, draft, alerts, error or storage; index 0; no current score yet (`null`); not finished |
| InterviewScreen.Screen.ChooseFile | my-interview-app/frontend/src/components/InterviewEaseInterview.tsx:442-456 | sent exactly for an accepted name; the error is set for a refused name and cleared for an accepted one; every other field is unchanged |
| InterviewScreen.Screen.OnTranscript | my-interview-app/frontend/src/components/InterviewEaseInterview.tsx:188-196 | the draft becomes the synced draft; every other field is unchanged |
| InterviewScreen.Screen.OnFacialData | my-interview-app/frontend/src/components/InterviewEaseInterview.tsx:366-381 | the alert list becomes the merged list; every other field is unchanged |
| InterviewScreen.Screen.SubmitAnswer | my-interview-app/frontend/src/components/InterviewEaseInterview.tsx:538-607 | nothing without a session or past the loaded questions; otherwise, per reply, the score appended and the current score set to the server's total, the next question appended and moved to with the draft cleared, or the session id stored and the screen finished |
| InterviewScreen.Screen.EndInterviewEarly | my-interview-app/frontend/src/components/InterviewEaseInterview.tsx:619-642 | a session id, if any, is stored under "session_id" and the screen hands over; every other field is unchanged |
| InterviewScreen.Screen.OnEnterKey | my-interview-app/frontend/src/components/InterviewEaseInterview.tsx:609-616 | with the corrected guard it submits exactly for a non-blank draft on an unanswered question with no submit running, and then reaches the state `SubmitAnswer` gives for the reply; otherwise nothing changes |
| InterviewResults.CountCorrect | my-interview-app/frontend/src/components/InterviewEaseResults.tsx:160 | the correct count is at most the question count |
| InterviewResults.Tally | my-interview-app/frontend/src/components/InterviewEaseResults.tsx:164-170 | the step keeps categories distinct and opens a new one at the end |
| InterviewResults.TallyStats | my-interview-app/frontend/src/components/InterviewEaseResults.tsx:165-168 | the step counts the question in its own category only, a new one starting from zero |
| InterviewResults.Tallies | my-interview-app/frontend/src/components/InterviewEaseResults.tsx:164-170 | the reduce keeps categories distinct |
| InterviewResults.CategoryPerformance | my-interview-app/frontend/src/components/InterviewEaseResults.tsx:164-170 | the per-category tallies have distinct categories |
| InterviewResults.TalliesAbsent | my-interview-app/frontend/src/components/InterviewEaseResults.tsx:164-170 | a category without a tally has no questions |
| InterviewResults.TalliesCount | my-interview-app/frontend/src/components/InterviewEaseResults.tsx:164-170 | each category's tally counts exactly its questions and its correct ones |
| InterviewResults.TallySums | my-interview-app/frontend/src/components/InterviewEaseResults.tsx:167-168 | a step adds one to the totals and the correctness to the correct counts |
| InterviewResults.TalliesSums | my-interview-app/frontend/src/components/InterviewEaseResults.tsx:164-170 | totals add up to the number of marks, correct counts to the correct marks |
| InterviewResults.PerformanceSums | my-interview-app/frontend/src/components/InterviewEaseResults.tsx:160-170 | category totals sum to the question count and correct counts to `correctAnswers` |
| InterviewResults.MarksCorrect | my-interview-app/frontend/src/components/InterviewEaseResults.tsx:160-168 | the correct marks are the correct answers |
| InterviewResults.CalculateEnhancedMetrics | my-interview-app/frontend/src/components/InterviewEaseResults.tsx:142-183 | null without a list; zeros and "Needs Improvement" for an empty one; else the counts, accuracy the rounded percentage correct (in [0, 100]), the tallies, the rounded mean time and the grade by fifths |
| InterviewResults.GradeThresholds | my-interview-app/frontend/src/components/InterviewEaseResults.tsx:181 | accuracy 80 and 60 are four and three fifths of the questions |
| InterviewResults.CategoryChart | my-interview-app/frontend/src/components/InterviewEaseResults.tsx:203-206 | one bar per category in order, each its category's rounded percentage correct, in [0, 100], 100 when all are correct and 0 when none is |
| InterviewResults.MarkedRowsAgree | my-interview-app/frontend/src/components/InterviewEaseResults.tsx:452-453 | the table marks as many rows correct as the metrics count |
| InterviewResults.ScoreColor | my-interview-app/frontend/src/components/InterviewEaseResults.tsx:211-215 | green from 60, yellow from 50, red below |
| InterviewResults.ScoreBadgeVariant | my-interview-app/frontend/src/components/InterviewEaseResults.tsx:217-221 | default from 60, secondary from 50, destructive below |
| InterviewResults.ColorMatchesBadge | my-interview-app/frontend/src/components/InterviewEaseResults.tsx:211-221 | colour and badge always name the same band |
| ResumeUpload.TileLabel | my-interview-app/frontend/src/components/ResumeUpload.tsx:158 | the skill, else the category, else "Unknown Skill"; never empty |
| ResumeUpload.AddToGroup | my-interview-app/frontend/src/components/ResumeUpload.tsx:174-178 | the step keeps categories distinct and opens a new one at the end |
| ResumeUpload.AddToGroupNames | my-interview-app/frontend/src/components/ResumeUpload.tsx:176-177 | the step extends only its category's group, or opens it with the one name |
| ResumeUpload.Group | my-interview-app/frontend/src/components/ResumeUpload.tsx:173-179 | the groups have distinct categories |
| ResumeUpload.GroupKeys | my-interview-app/frontend/src/components/ResumeUpload.tsx:173-179 | exactly the skills' categories ("Other" when missing) get a group |
| ResumeUpload.GroupNames | my-interview-app/frontend/src/components/ResumeUpload.tsx:173-179 | each group lists its skills' names ("Unknown" when missing) in input order |
| ResumeUpload.NamesInAbsent | my-interview-app/frontend/src/components/ResumeUpload.tsx:173-179 | a category without a group has no skills |
| ResumeUpload.GroupSize | my-interview-app/frontend/src/components/ResumeUpload.tsx:173-179 | the group sizes add up to the skill count |
| ResumeUpload.UploadCard.constructor | my-interview-app/frontend/src/components/ResumeUpload.tsx:27-29 | not uploading, no result, no error |
| ResumeUpload.UploadCard.ChooseFile | my-interview-app/frontend/src/components/ResumeUpload.tsx:31-46 | a refused name only sets the error; an accepted one clears result and error and starts uploading |
| ResumeUpload.UploadCard.OnUploadDone | my-interview-app/frontend/src/components/ResumeUpload.tsx:57-67 | uploading ends; success stores the reply, failure the server's error or "Upload failed" |
| ResumeUpload.UploadCard.HandleFileUpload | my-interview-app/frontend/src/components/ResumeUpload.tsx:31-69 | no file changes nothing; a refused one sets the error; an accepted one ends not uploading with the reply or the error |
| InterviewDraft.Ids | InterviewEase/components/InterviewEaseInterview.tsx:113 | the ids of the loaded questions |
| InterviewDraft.AddQuestion | InterviewEase/components/InterviewEaseInterview.tsx:112-116 | a question with a known id is dropped, else appended; ids stay unique and order is kept |
| InterviewDraft.AddQuestionIdempotent | InterviewEase/components/InterviewEaseInterview.tsx:112-116 | loading the same question again changes nothing |
| InterviewDraft.DraftScreen.constructor | InterviewEase/components/InterviewEaseInterview.tsx:20-29 | no session, questions or answers, index 0 |
| InterviewDraft.DraftScreen.Current | InterviewEase/components/InterviewEaseInterview.tsx:164 | the question at the index, absent past the end |
| InterviewDraft.DraftScreen.IsAnswered | InterviewEase/components/InterviewEaseInterview.tsx:165 | answered exactly when a question is at the index and its id is marked |
| InterviewDraft.DraftScreen.OnNextQuestion | InterviewEase/components/InterviewEaseInterview.tsx:105-121 | done hands over; a question is added once per id; an error is recorded; every other field is unchanged |
| InterviewDraft.DraftScreen.SubmitAnswer | InterviewEase/components/InterviewEaseInterview.tsx:123-142 | sent exactly with a current question and a session; unsent changes nothing; a failure sets the error and keeps questions, marks, draft and hand-over; success clears the draft, marks the id and applies the next-question reply as `OnNextQuestion` does; marks only grow |
| InterviewDraft.DraftScreen.NextQuestion | InterviewEase/components/InterviewEaseInterview.tsx:144-151 | moves by exactly one only from an answered question, then, with a session, applies the next-question reply as `OnNextQuestion` does; otherwise nothing changes |
| InterviewDraft.DraftScreen.OnEnterKey | InterviewEase/components/InterviewEaseInterview.tsx:153-162 | submits exactly for a non-blank draft on an unanswered question with no submit running and a session, reaching the state `SubmitAnswer` gives; otherwise nothing changes |
| InterviewDraft.AnswerThenMoveOn | InterviewEase/components/InterviewEaseInterview.tsx:123-151 | an unanswered question blocks moving on until it is answered |
| ResultsDraft.CategoryScores | InterviewEase/components/InterviewEaseResults.tsx:79-89 | empty for no results; otherwise one score per category in first-seen order, each the rounded percentage of that category's results flagged correct, in [0, 100] |
| ResultsDraft.TotalScore | InterviewEase/components/InterviewEaseResults.tsx:64 | the score rounded, 0 before results arrive |
| ResultsDraft.ScoreColor | InterviewEase/components/InterviewEaseResults.tsx:66-70 | green from 85, yellow from 70, red below |
| ResultsDraft.ScoreBadgeVariant | InterviewEase/components/InterviewEaseResults.tsx:72-76 | default from 85, secondary from 70, destructive below |
| ResultsDraft.BadgeLabel | InterviewEase/components/InterviewEaseResults.tsx:120-121 | Excellent, Good, then "Needs Improvement" only with results, else Loading or No Data |
| ResultsDraft.NoResultsBadge | InterviewEase/components/InterviewEaseResults.tsx:120-121 | before results the badge is destructive and reads Loading or No Data |
| ResultsDraft.BadgeAgreesWithLabel | InterviewEase/components/InterviewEaseResults.tsx:72-76 | the default badge comes exactly with "Excellent", the secondary exactly with "Good" |
| InterviewPage.Seconds | my-interview-app/frontend/src/components/InterviewPage.tsx:69 | elapsed milliseconds divided by 1000, rounded down |
| InterviewPage.Progress | my-interview-app/frontend/src/components/InterviewPage.tsx:61 | progress lies in (0, 100] and is 100 exactly on the last question |
| InterviewPage.TypeColor | my-interview-app/frontend/src/components/InterviewPage.tsx:92-99 | every type has its own colour, never the default grey |
| InterviewPage.Page.constructor | my-interview-app/frontend/src/components/InterviewPage.tsx:54-58 | first question, empty answer, no responses, clock at the start time |
| InterviewPage.Page.HandleNextQuestion | my-interview-app/frontend/src/components/InterviewPage.tsx:64-85 | one response appended with the question's id, answer and seconds spent; the last question completes with the updated list; otherwise the index moves on and the answer clears |
| InterviewPage.Page.PreviousQuestion | my-interview-app/frontend/src/components/InterviewPage.tsx:164-170 | back one with a cleared answer only above index 0; responses unchanged |
| InterviewPage.Page.ToggleRecording | my-interview-app/frontend/src/components/InterviewPage.tsx:87-90 | flips recording, nothing else |
| InterviewPage.AnswerTwice | my-interview-app/frontend/src/components/InterviewPage.tsx:164-170 | answering again after going back records the question twice |
| LiveInterview.ParseTime | my-interview-app/frontend/src/components/LiveInterviewPage.tsx:76-80 | only "MM:SS" shapes read back |
| LiveInterview.FormatTimeRoundTrip | my-interview-app/frontend/src/components/LiveInterviewPage.tsx:76-80 | below 100 minutes the clock reads "MM:SS" and reads back as the seconds |
| LiveInterview.Page.constructor | my-interview-app/frontend/src/components/LiveInterviewPage.tsx:41-50 | not started, not recording, first question, no messages or responses, clock 0 |
| LiveInterview.Page.StartInterview | my-interview-app/frontend/src/components/LiveInterviewPage.tsx:82-85 | started and recording; every other field is unchanged |
| LiveInterview.Page.PauseInterview | my-interview-app/frontend/src/components/LiveInterviewPage.tsx:87-89 | flips recording, nothing else |
| LiveInterview.Page.Tick | my-interview-app/frontend/src/components/LiveInterviewPage.tsx:51-59 | the clock advances only while started; every other field is unchanged |
| LiveInterview.Page.AskQuestion | my-interview-app/frontend/src/components/LiveInterviewPage.tsx:61-74 | while started, the current question is posted as an AI message; every other field is unchanged |
| LiveInterview.Page.EndInterview | my-interview-app/frontend/src/components/LiveInterviewPage.tsx:119-123 | stops and hands over the responses |
| LiveInterview.Page.SubmitResponseAsWritten | my-interview-app/frontend/src/components/LiveInterviewPage.tsx:91-123 | as written, the last submit hands over the list from before it |
| LiveInterview.Page.SubmitResponse | my-interview-app/frontend/src/components/LiveInterviewPage.tsx:91-117 | blank input is ignored; otherwise one message and one response for index + 1, input cleared, then the next question or the end with the updated list |
| LiveInterview.LastAnswerLostAsWritten | my-interview-app/frontend/src/components/LiveInterviewPage.tsx:109-122 | as written, the last answer is recorded but not handed over |
| LiveInterview.LastAnswerKept | my-interview-app/frontend/src/components/LiveInterviewPage.tsx:109-122 | corrected, the last response handed over is the last answer |
| App.Target | my-interview-app/frontend/src/App.tsx:17-36 | start and retake go to "interview", complete to "results", the others to "home" |
| App.RenderPage | my-interview-app/frontend/src/App.tsx:38-63 | "interview" and "results" have their screens; any other page shows home |
| App.CallbacksOf | my-interview-app/frontend/src/App.tsx:41-61 | every screen receives some callback |
| App.InterviewLeadsToResults | my-interview-app/frontend/src/App.tsx:48 | the interview screen's only callback leads to the results screen |
| App.CallbacksLandOnKnownPages | my-interview-app/frontend/src/App.tsx:17-63 | no callback reaches a screen through the fallback |
| App.Router.constructor | my-interview-app/frontend/src/App.tsx:11 | the router starts at "home" |
| App.Router.Navigate | my-interview-app/frontend/src/App.tsx:13-15 | stores any string unchecked |
| App.Router.Handle | my-interview-app/frontend/src/App.tsx:17-36 | the page becomes the callback's target, always a page rendered as itself |

## Left out

- **ASCII only.** Case folding, letters and `\w` are modelled on ASCII. `\s` and `str.isspace` use the ASCII blanks plus the few Unicode spaces listed in the Text module. Non-ASCII case mappings are not captured.
- **Floating point.** Scores and attention are exact reals. `round(x, n)` is modelled only within half a unit (`Round3`), and the back end's rounding of the score, percentage and similarity to 2, 1 and 4 decimals is not modelled. `similarity_score * 100 > 50` is treated as the same test as `similarity_score > 0.5`.
- Backend.Summarize: the results are given without the decimal rounding of score, percentage and similarity.
- Backend.Server.StartFacialAnalysis: the server takes the corrected fresh id (`Backend.FreshFrom`), not `len(facial_sessions) + 1`; the as-written id and the overwrite it causes are modelled by `Backend.StartFacialAsWritten` and `Backend.FacialIdCollision`.
- Backend.Server.GetFacialData: the server answers "neutral" for a session without emotions, where the handler as written fails with a server error; that failure is modelled by `Backend.FacialDataAsWritten`.
- **I/O.** Text extraction (PDF, docx), CSV parsing, file writing, the subprocess call to the scanner, `os.path.exists` and directory listings are inputs. The ReportLab PDF layout and SMTP email are left out; only the answer truncation is kept.
- **Vision, randomness and clocks.** Frame decoding, face detection, attention estimation, the random emotion pick, the random live-interview time and wall-clock timestamps are parameters. The live page's random time is not restricted to its range 30..149.
- **Network.** Every `fetch` in the front end is an outcome passed to the handler.
- **Dictionary order.** `Object.entries` lists integer-like keys first in JavaScript. The model keeps insertion order for every category name.
- **Keyword order.** `list(set(keywords))` has no defined order, so keywords are a set.
- **`generate_report`:** the report file, its name and the generation timestamp are left out. Disturbances and cheating attempts are given as their counts. `ReportGenerator.GenerateReport` reads the data as given: `Convert` is stated separately and not applied first, which changes no value the summary reads.
- **InterviewEase draft.** The resume upload and interview start handlers of the draft interview screen are not modelled: they only forward server replies.
- **Screen side effects.** Camera, speech, facial-analysis start and stop, fullscreen exits and console logging in the interview screens are not modelled. Neither are the emotion and attention chart data of the results screen.
- **Fullscreen.** The handler is assumed re-registered after every render, so it sees the current `isFullscreen`.
- **InterviewPage.Page.HandleNextQuestion:** the Next button's disabled state for a blank answer is not part of the method's precondition; the method models the handler itself.

## Findings

| source | as written | input that shows it | evidently intended | confidence | as-written member | corrected member |
|---|---|---|---|---|---|---|
| my-interview-app/frontend/src/components/InterviewEaseInterview.tsx:611 | Enter submits only when `currentQuestionIndex < scores.length`, which is `isAnswered`, the condition that disables the textarea (line 905) | any key press in the enabled answer box: index 0, no scores, non-blank draft | submit on an unanswered question, like the Submit button (line 948) | not executed | InterviewScreen.EnterNeverSubmits | InterviewScreen.EnterSubmitsWhenEnabled |
| my-interview-app/frontend/src/components/LiveInterviewPage.tsx:109-122 | `endInterview` hands over the render's `responses`, which lacks the response `submitResponse` just queued | answering the fifth question with "done" | the handed-over list ends with the last answer | not executed | LiveInterview.LastAnswerLostAsWritten | LiveInterview.LastAnswerKept |
| my-interview-app/backend/app.py:714 | a new facial session takes id `len(facial_sessions) + 1`, while `process_frame` (lines 750-760) creates sessions under any posted id | a frame posted for session 2 on an empty store, then a start | a fresh id that leaves existing sessions intact | not executed | Backend.FacialIdCollision | Backend.FacialIdNoCollision |
| my-interview-app/backend/app.py:812 | the last emotion is read as `fac.get('emotions', ['neutral'])[-1]`; the key always exists, so an empty list raises | polling a session right after `start_facial_analysis` | "neutral" when no emotion is recorded | not executed | Backend.FacialDataAsWritten | Backend.FacialDataOnFreshSession |
