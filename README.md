# Lead outreach front end: import pipeline, lead lifecycle and list rules

This project models the logic core of a React front end for lead outreach.

- **Import.** A CSV file is read, parsed into headers and rows, and auto-mapped onto lead fields. The user edits the mapping and confirms it behind a required-fields gate. Rows are validated and normalised into lead candidates, which are sent to the entity store in batches of ten.
- **Campaign lifecycle.** A campaign page shows the campaign's leads and their counts. It drafts an email for every lead without one, through a language model that may fail. Drafts are approved or edited, and approved leads are sent while the campaign counters are updated.
- **List rules.** The all-leads page searches, sorts and deletes. The dashboard shows status counters and recent campaigns. The lead preview shows a valid/invalid partition and a ten-item window. The upload zone applies the CSV acceptance rule and tracks drag state.

The remote entity store is modelled by `Store.LeadStore`. It is a class holding the lead and campaign lists, and every call takes a boolean saying whether the remote call succeeds. The language model, the current-user lookup and the clock become parameters: an oracle `llm: nat -> Option<Email>`, `userOk`, and `now`. Page state lives in classes whose methods update the fields the components keep in React state:

- `ImportLeads.ImportPage`
- `ColumnMapper.Mapper`
- `CampaignDetails.CampaignPage`
- `AllLeads.AllLeadsPage`
- `FileUploadZone.UploadZone`

The pure rules are functions. Their properties are lemmas about them.

Modules:

- `Text`: JavaScript `trim`, `toLowerCase`, `includes` and the `<` order on strings.
- `Seqs`: filter, take, flatten, and the first failing step.
- `Reals`: cancelling a positive factor, used by the percentage bounds.
- `Csv`: `parseCSV`.
- `CsvRoundTrip`: quoted records, and whole written tables, parse back to their fields.
- `Leads`: records, patches and status counters.
- `Store`: the entity store.
- `ColumnMapper`, `Validation`, `ImportLeads`: the import steps.
- `CampaignDetails`, `AllLeads`, `Dashboard`, `LeadPreview`, `FileUploadZone`: the pages and components.

The pages compute what the code computes, bugs included: the dashboard's response rate, the field reads of the validation step and the campaign reload are the as-written versions. Each of these has a corrected version beside it, with its intended property proved and a lemma relating the two (see "## Findings"). Generation progress is set only after a lead is stored, so the final value is 100 only when the last lead's draft was stored (`CampaignDetails.ProgressFull`).

## Model

| member | source | states |
|---|---|---|
| Text.TrimSpec | src/pages/ImportLeads.jsx:50 | `trim` returns the slice left after cutting whitespace-only ends; the result neither starts nor ends with whitespace |
| Text.TrimIdempotent | src/pages/ImportLeads.jsx:62 | trimming twice is trimming once |
| Text.TrimEmpty | src/pages/ImportLeads.jsx:51 | a string trims to empty exactly when every character is whitespace |
| Text.ToLower | src/components/import/ColumnMapper.jsx:44 | lowercasing keeps the length and maps each character on its own |
| Text.ToLowerIdempotent | src/pages/AllLeads.jsx:90 | lowercasing twice is lowercasing once |
| Text.ContainsAt | src/components/import/ColumnMapper.jsx:47 | `includes` holds exactly when the substring occurs at some position |
| Text.LessIrreflexive | src/pages/AllLeads.jsx:96 | no string is below itself under `<` |
| Text.LessTransitive | src/pages/AllLeads.jsx:96-99 | `<` on strings is transitive |
| Text.LessTotal | src/pages/AllLeads.jsx:96-102 | two different strings are ordered one way or the other |
| Seqs.Filter | src/components/import/LeadPreview.jsx:17 | the filter keeps exactly the elements satisfying the predicate |
| Seqs.FilterConcat | src/pages/CampaignDetails.jsx:71-73 | filtering preserves order: filtering a concatenation concatenates the filtered parts |
| Seqs.FilterPartition | src/components/import/LeadPreview.jsx:17-18 | a predicate and its negation split the list: the two counts add up to its length |
| Seqs.FirstFailure | src/pages/ImportLeads.jsx:201-226 | every step before the returned index succeeds, and the step at it fails unless it is the end |
| Seqs.Take | src/pages/Dashboard.jsx:403 | `slice(0, n)` is the prefix of length min(n, length) |
| Csv.SplitLines | src/pages/ImportLeads.jsx:50 | splitting on CRLF, CR or LF gives at least one line and no line contains a line break |
| Csv.SplitCommasJoin | src/pages/ImportLeads.jsx:66 | the plain and the quote-aware comma split lose nothing: joining the pieces with commas gives the line back |
| Csv.UnDouble | src/pages/ImportLeads.jsx:77 | replacing `""` by `"` never lengthens a value |
| Csv.BuildRowKeys | src/pages/ImportLeads.jsx:68-80 | a kept row has a key for every header and no other key |
| Csv.BuildRowAt | src/pages/ImportLeads.jsx:70-78 | with distinct headers, the value under header j is the cleaned field j |
| Csv.Rows | src/pages/ImportLeads.jsx:61-84 | there are at most as many rows as lines after the header |
| Csv.RowsConcat | src/pages/ImportLeads.jsx:61-84 | rows keep file order: the rows of two line ranges are the rows of each, concatenated |
| Csv.RowsKeys | src/pages/ImportLeads.jsx:66-80 | every kept row has exactly the headers as keys |
| Csv.ParseHeadersIff | src/pages/ImportLeads.jsx:50-53 | there are no headers exactly when the text is blank after trimming, and then there are no rows |
| Csv.ParseCsv | src/pages/ImportLeads.jsx:48-87 | the loop computes the parsed table; no headers iff blank text; every row keyed by exactly the headers; fewer rows than lines |
| Csv.FillRow | src/pages/ImportLeads.jsx:69-79 | the header-by-header loop builds the row whose keys are exactly the headers |
| CsvRoundTrip.UnDoubleEscape | src/pages/ImportLeads.jsx:77 | un-doubling an escaped value gives the value back |
| CsvRoundTrip.CleanQuote | src/pages/ImportLeads.jsx:72-77 | cleaning a quoted, escaped field gives the field back |
| CsvRoundTrip.SplitJoinQuoted | src/pages/ImportLeads.jsx:66 | the quote-aware split of a line of quoted, escaped fields yields those quoted fields, even when they hold commas |
| CsvRoundTrip.BuildRowQuoted | src/pages/ImportLeads.jsx:68-80 | a row built from quoted fields maps each header to its original field |
| CsvRoundTrip.RecordRoundTrip | src/pages/ImportLeads.jsx:61-84 | a data line written as quoted, escaped fields parses back to exactly the original record |
| CsvRoundTrip.TableRoundTrip | src/pages/ImportLeads.jsx:48-87 | a table written as a header line of plain names (no comma, no line break, no space or quote at either end) and one line of quoted, escaped fields per record parses back to those headers and, in order, one row per record mapping each header to its field; fields may hold commas, quotes and spaces but no line breaks |
| CsvRoundTrip.HeaderLine | src/pages/ImportLeads.jsx:53 | plain header names joined with commas give back exactly those names as headers |
| CsvRoundTrip.PlainHeaderClean | src/pages/ImportLeads.jsx:53 | cleaning a plain header name (no surrounding space or quote) leaves it unchanged |
| CsvRoundTrip.RowsOfRecords | src/pages/ImportLeads.jsx:61-84 | the written record lines give one row per record, in order |
| CsvRoundTrip.SplitLinesJoin | src/pages/ImportLeads.jsx:50 | lines without line breaks joined with line feeds split back into those lines |
| CsvRoundTrip.SplitCommasJoinPlain | src/pages/ImportLeads.jsx:53 | comma-free names joined with commas split back into those names |
| Leads.StatusNameInjective | src/pages/Dashboard.jsx:94-96 | distinct statuses have distinct names, so the status filters do not overlap |
| Leads.CountStatus | src/pages/Dashboard.jsx:95 | a status count is at most the number of leads |
| Leads.CountGenerated | src/pages/Dashboard.jsx:94 | the generated count is at most the number of leads |
| Leads.Create | src/pages/ImportLeads.jsx:170-180 | a created record carries the candidate's fields, the given id and date, and no draft and no campaign |
| Leads.ApplyPatch | src/pages/CampaignDetails.jsx:150-155 | an update sets the patched fields and leaves every other field as it was |
| Leads.ApplyPatchIdempotent | src/pages/CampaignDetails.jsx:183 | applying the same update twice is applying it once |
| Leads.ApplyEmptyPatch | src/pages/CampaignDetails.jsx:150-155 | an empty update changes nothing |
| Leads.EmailsSent | src/pages/CampaignDetails.jsx:219 | a missing `emails_sent` counts as 0 |
| Leads.PatchWhere | src/pages/CampaignDetails.jsx:150-155 | updating by id patches exactly the records with that id, in place |
| Leads.PatchWhereIds | src/pages/CampaignDetails.jsx:150-155 | updating by id keeps the ids, and so their distinctness |
| Leads.RemoveId | src/pages/AllLeads.jsx:70 | the filter keeps exactly the leads whose id differs |
| Leads.RemoveIdConcat | src/pages/AllLeads.jsx:70 | removing by id keeps order |
| Leads.RemoveIdAbsent | src/pages/AllLeads.jsx:70 | removing an id no lead has changes nothing |
| Leads.RemoveIdOnce | src/pages/AllLeads.jsx:70 | with distinct ids, removing a lead's id removes exactly that position |
| Store.CreateAll | src/pages/ImportLeads.jsx:209 | `bulkCreate` makes one record per candidate, in order, numbered from the next id |
| Store.SetCounters | src/pages/CampaignDetails.jsx:218-221 | the campaign update sets `emails_sent` and `total_leads` on the campaign with that id only |
| Store.FindCampaign | src/pages/CampaignDetails.jsx:60 | the lookup fails exactly when no campaign has the id, and otherwise returns one with that id |
| Store.LeadStore.constructor | src/pages/CampaignDetails.jsx:59 | a store starts from given leads and campaigns with distinct ids below the next id |
| Store.LeadStore.List | src/pages/AllLeads.jsx:59 | `Lead.list(..., limit)` returns the first records, at most `limit` |
| Store.LeadStore.BulkCreate | src/pages/ImportLeads.jsx:209 | a stored batch is appended with fresh ids; a refused one changes nothing |
| Store.LeadStore.Update | src/pages/CampaignDetails.jsx:183 | the update succeeds iff accepted and the id exists, and then patches that lead only |
| Store.LeadStore.Delete | src/pages/AllLeads.jsx:69 | a delete removes exactly the leads with that id, or changes nothing when refused |
| Store.LeadStore.UpdateCampaign | src/pages/CampaignDetails.jsx:218-221 | the campaign update touches only the campaign counters |
| Store.RemoveIdDistinct | src/pages/AllLeads.jsx:69 | deleting keeps lead ids distinct |
| ColumnMapper.FieldIndex | src/components/import/ColumnMapper.jsx:8-22 | every field appears in the field table |
| ColumnMapper.FieldTables | src/components/import/ColumnMapper.jsx:8-22 | the table lists each field once, and exactly email and first name are required |
| ColumnMapper.MapByLastWins | src/components/import/ColumnMapper.jsx:43-66 | a field is mapped iff some header matches it, and then to the last header that does |
| ColumnMapper.AutoMappingLastWins | src/components/import/ColumnMapper.jsx:43-66 | auto-mapping maps a field iff some header's rule chain picks it; the value is the last such header, one of the headers |
| ColumnMapper.CompanySizeHeader | src/components/import/ColumnMapper.jsx:55-62 | "Company Size" maps to `company`, not `company_size`, because the company rule comes first |
| ColumnMapper.AutoMap | src/components/import/ColumnMapper.jsx:41-70 | the `forEach` loop computes the auto-mapping, and every mapped value is a header the rule picks for that field |
| ColumnMapper.ChangeMapping | src/components/import/ColumnMapper.jsx:72-86 | "ignore" or "" removes the field, any other choice sets it, and no other field changes |
| ColumnMapper.ChangeThenIgnore | src/components/import/ColumnMapper.jsx:72-86 | setting a field and then ignoring it leaves the mapping without that field |
| ColumnMapper.ConfirmErrors | src/components/import/ColumnMapper.jsx:88-107 | no errors iff email and first name are mapped; one error per missing field, email's first |
| ColumnMapper.ContinueDisabledIff | src/components/import/ColumnMapper.jsx:244 | the Continue button is disabled exactly when confirming would report errors |
| ColumnMapper.Mapper.constructor | src/components/import/ColumnMapper.jsx:25-26 | the mapper starts with no mapping and no errors |
| ColumnMapper.Mapper.OnHeadersChanged | src/components/import/ColumnMapper.jsx:33-70 | empty headers leave the mapping alone; otherwise it becomes the auto-mapping |
| ColumnMapper.Mapper.HandleMappingChange | src/components/import/ColumnMapper.jsx:72-86 | the mapping changes as `ChangeMapping` says and errors are cleared |
| ColumnMapper.Mapper.HandleConfirm | src/components/import/ColumnMapper.jsx:88-107 | `onConfirm` gets the mapping iff there are no errors; otherwise the errors are shown and nothing is confirmed |
| Validation.EmailShapeIff | src/pages/ImportLeads.jsx:155 | the direct email-shape check agrees with the unanchored regex test |
| Validation.NoAtNoEmail | src/pages/ImportLeads.jsx:155-157 | a value without `@` is never an email |
| Validation.UnanchoredMatch | src/pages/ImportLeads.jsx:155 | the regex is unanchored: any text put before and after a value that passes still passes |
| Validation.MappedValue | src/pages/ImportLeads.jsx:174-179 | a mapped value is trimmed; an unmapped field gives "", a mapped one the trimmed cell |
| Validation.MappedValueAsWritten | src/pages/ImportLeads.jsx:174-179 | as written, a read is trimmed: a mapped field gives the trimmed cell of its column; an unmapped one gives the trimmed cell of the column named "undefined", or "" when there is none |
| Validation.UndefinedColumnLeaks | src/pages/ImportLeads.jsx:174-179 | as written, an unmapped field reads the column literally named "undefined" |
| Validation.MappedValueAgrees | src/pages/ImportLeads.jsx:174-179 | the corrected and as-written lookups agree unless a field is unmapped and an "undefined" column exists |
| Validation.NormalizeRowSpec | src/pages/ImportLeads.jsx:146-183 | with the as-written reads: a row is kept iff its email read has the shape and its first-name read is non-empty, the email check first; a kept record holds each of the eight reads and status `new` |
| Validation.NormalizeOne | src/pages/ImportLeads.jsx:146-183 | the per-row checks, step by step, compute `NormalizeRow` |
| Validation.NormalizeRowCorrected | src/pages/ImportLeads.jsx:146-183 | without a column named "undefined" the as-written reads are the corrected ones: a row is kept iff the corrected email has the shape and the corrected first name is non-empty, and holds every corrected read |
| Validation.CleanRows | src/pages/ImportLeads.jsx:146-187 | the rows normalised with the as-written reads give no more candidates than rows |
| Validation.CleanRowsCount | src/pages/ImportLeads.jsx:146-187 | valid leads plus skipped rows equals the number of rows |
| Validation.CleanRowsConcat | src/pages/ImportLeads.jsx:146-187 | validation keeps input order |
| Validation.CleanRowsWellFormed | src/pages/ImportLeads.jsx:170-180 | every candidate is well formed and comes from some input row |
| Validation.CleanData | src/pages/ImportLeads.jsx:146-187 | the map with its `skippedRows` counter computes the kept candidates and the skipped count |
| ImportLeads.ProcessTextSpec | src/pages/ImportLeads.jsx:110-125 | blank text fails with "No column headers"; headers without rows fail with "No data rows"; otherwise the parsed table, every row keyed by the headers |
| ImportLeads.ReadTable | src/pages/ImportLeads.jsx:110-125 | parsing plus the two checks gives the table or the thrown message |
| ImportLeads.Batch | src/pages/ImportLeads.jsx:205-207 | every batch holds between 1 and 10 candidates |
| ImportLeads.Batches | src/pages/ImportLeads.jsx:201-207 | call i sends batch i |
| ImportLeads.BatchesFlatten | src/pages/ImportLeads.jsx:201-207 | the first k batches concatenate to the first min(10k, n) candidates |
| ImportLeads.AllBatches | src/pages/ImportLeads.jsx:201-207 | all ceil(n/10) batches together are exactly the extracted leads |
| ImportLeads.CreatedStep | src/pages/ImportLeads.jsx:204-209 | storing one more batch appends its records, numbered on from the earlier ones |
| ImportLeads.CreateAllConcat | src/pages/ImportLeads.jsx:209 | creating two batches one after the other creates their concatenation |
| ImportLeads.StoreBatches | src/pages/ImportLeads.jsx:201-216 | the loop stores batches in order and stops at the first refusal; the store gains exactly the records of the stored batches |
| ImportLeads.ImportProgress | src/pages/ImportLeads.jsx:211-212 | the bar's value after the stored batches is between 0 and 100, 0 iff none was stored, 100 iff all were, and otherwise stored/total·100 |
| ImportLeads.ImportPage.constructor | src/pages/ImportLeads.jsx:25-34 | the page starts empty, idle and without error |
| ImportLeads.ImportPage.ProcessFile | src/pages/ImportLeads.jsx:89-137 | a read failure or a thrown parse error becomes the page error and keeps the table; success shows the mapping step with the parsed headers and rows |
| ImportLeads.ImportPage.ShowOutcome | src/pages/ImportLeads.jsx:113-135 | a table goes to the mapping step at 100 %; a thrown message becomes the error at 75 % |
| ImportLeads.ImportPage.HandleFileSelect | src/pages/ImportLeads.jsx:36-46 | earlier state is cleared; success fills headers and rows at 100 %; a read failure gives "Failed to read file" at 25 %, a parse failure its message at 75 %, both with empty headers and rows; processing ends and the import flag is kept |
| ImportLeads.ImportPage.HandleMappingComplete | src/pages/ImportLeads.jsx:140-194 | the candidates read as written replace the extracted leads, or, when none survive, the error is set and they stay as they were; progress and the processing and importing flags are kept |
| ImportLeads.ImportPage.HandleImport | src/pages/ImportLeads.jsx:196-229 | the store gains the records of the batches before the first refusal; the bar ends at `ImportProgress` of the stored batches; success only when all were stored; a failure sets the error and leaves success as it was; headers, mapping step and processing flag are kept |
| LeadPreview.ValidLeads | src/components/import/LeadPreview.jsx:17 | the valid leads are exactly those with a first name and an email |
| LeadPreview.InvalidCountSpec | src/components/import/LeadPreview.jsx:18 | the invalid count is the number of leads failing the check, between 0 and the total |
| LeadPreview.ValidLeadsConcat | src/components/import/LeadPreview.jsx:17 | the valid leads keep input order |
| LeadPreview.Window | src/components/import/LeadPreview.jsx:73 | the window is the first min(10, valid) valid leads |
| LeadPreview.MoreLine | src/components/import/LeadPreview.jsx:106-108 | the "and N more" line appears iff there are more than 10 valid leads, with N = valid − 10 |
| LeadPreview.WithCompany | src/components/import/LeadPreview.jsx:59 | the with-company count is at most the valid count |
| LeadPreview.WithTitle | src/components/import/LeadPreview.jsx:65 | the with-title count is at most the valid count |
| LeadPreview.ImportDisabledIff | src/components/import/LeadPreview.jsx:126 | import is disabled iff no lead is valid |
| LeadPreview.CleanedLeadsAllValid | src/components/import/LeadPreview.jsx:17-18 | every candidate the validation step produces passes the preview's check |
| FileUploadZone.Accept | src/components/import/FileUploadZone.jsx:38-49 | a file is accepted iff its type is `text/csv` or its lowercased name ends in `.csv`, and it is passed on unchanged |
| FileUploadZone.CsvExtensionAccepted | src/components/import/FileUploadZone.jsx:41 | a name ending in `.csv` in any letter case is accepted |
| FileUploadZone.OtherFileRejected | src/components/import/FileUploadZone.jsx:40-46 | a non-CSV type with a name not ending in v is rejected |
| FileUploadZone.UploadZone.constructor | src/components/import/FileUploadZone.jsx:8 | the zone starts inactive with nothing selected |
| FileUploadZone.UploadZone.HandleDrag | src/components/import/FileUploadZone.jsx:10-18 | dragenter/dragover activate, dragleave deactivates, other events change nothing |
| FileUploadZone.UploadZone.HandleFile | src/components/import/FileUploadZone.jsx:38-49 | an accepted file reaches `onFileSelect`; a rejected one only raises the alert |
| FileUploadZone.UploadZone.HandleDrop | src/components/import/FileUploadZone.jsx:20-29 | a drop deactivates and handles only the first file; an empty drop selects nothing |
| FileUploadZone.UploadZone.HandleFileInput | src/components/import/FileUploadZone.jsx:31-36 | the input handles only the first file; an empty list does nothing |
| Dashboard.ResponseRateAsWrittenExceeds | src/pages/Dashboard.jsx:97 | as written, two responses after one send give a 200 % rate |
| Dashboard.ResponseRate | src/pages/Dashboard.jsx:97 | the corrected rate lies between 0 and 100, is 0 without sends or responses, and is positive with a response |
| Dashboard.ResponseRateAsWritten | src/pages/Dashboard.jsx:97 | as written: 0 without sends, otherwise responses/sent·100; never negative, and at most 100 when responses do not exceed sends |
| Dashboard.StatsBounds | src/pages/Dashboard.jsx:92-97 | total is the lead count; sent ≤ generated ≤ total; generated plus responses ≤ total; the rate is 0 without sends and responses·100/sent otherwise, at most 100 when responses do not exceed sends |
| Dashboard.CountersOrdered | src/pages/Dashboard.jsx:93-96 | sent ≤ generated ≤ total and generated plus responses ≤ total |
| Dashboard.GetStatsCorrected | src/pages/Dashboard.jsx:92-97 | corrected: the same counters as the page, and a rate between 0 and 100 that is 0 with no sends or responses, positive with a response, and never above the as-written rate |
| Dashboard.CorrectedRateBelow | src/pages/Dashboard.jsx:97 | once an email was sent, the corrected rate is at most the as-written one |
| Dashboard.RespondShiftsCounts | src/pages/Dashboard.jsx:94-96 | a sent lead that responds leaves sent and generated and joins responses |
| Dashboard.RecentCampaigns | src/pages/Dashboard.jsx:403 | the panel shows the first min(5, n) campaigns |
| CampaignDetails.CampaignLeads | src/pages/CampaignDetails.jsx:71-73 | a lead is shown iff it belongs to the campaign or has status `new` |
| CampaignDetails.CampaignLeadsConcat | src/pages/CampaignDetails.jsx:71-73 | the campaign filter keeps order |
| CampaignDetails.CampaignStatsOrdered | src/pages/CampaignDetails.jsx:265-270 | approved ≤ generated, sent ≤ generated ≤ total, approved plus sent ≤ generated |
| CampaignDetails.FindById | src/pages/CampaignDetails.jsx:60 | no id finds nothing; a found campaign is in the list and has the id |
| CampaignDetails.ScreenOf | src/pages/CampaignDetails.jsx:232-263 | spinner iff loading; details iff loaded without error and with a campaign; otherwise "Campaign not found" when there is no error |
| CampaignDetails.LoadOutcome | src/pages/CampaignDetails.jsx:55-81 | a list failure sets the load error; a missing campaign sets "Campaign not found"; otherwise the campaign and its filtered first 1000 leads |
| CampaignDetails.LoadedScreen | src/pages/CampaignDetails.jsx:55-81 | after loading, details show iff both loads succeed, the campaign exists and there was no earlier error |
| CampaignDetails.ToGenerate | src/pages/CampaignDetails.jsx:91 | generation selects exactly the leads without a draft |
| CampaignDetails.GenerateOne | src/pages/CampaignDetails.jsx:149-155 | generation never changes a lead's id |
| CampaignDetails.Generated | src/pages/CampaignDetails.jsx:96-168 | the store after k steps holds each lead as its own steps left it, in place |
| CampaignDetails.GeneratedStep | src/pages/CampaignDetails.jsx:149-167 | a step stores the draft on its lead when the model answers and the update is accepted, and otherwise changes nothing |
| CampaignDetails.GenerationStoresEmail | src/pages/CampaignDetails.jsx:149-155 | a selected lead ends with its draft, subject, `email_generated` and the campaign id exactly when its step succeeded |
| CampaignDetails.GenerationSkipsGenerated | src/pages/CampaignDetails.jsx:91-97 | a lead that already has a draft is never updated |
| CampaignDetails.GenerationLeavesOthers | src/pages/CampaignDetails.jsx:96-168 | a lead not selected for generation is unchanged |
| CampaignDetails.ProgressAfter | src/pages/CampaignDetails.jsx:157-159 | progress stays in 0..100 and moves to (i+1)/total·100 only after a stored draft |
| CampaignDetails.ProgressFull | src/pages/CampaignDetails.jsx:157-159 | final progress is 100 iff the last selected lead's draft was stored |
| CampaignDetails.ProgressBelow | src/pages/CampaignDetails.jsx:157-159 | before the last step, progress is below 100 |
| CampaignDetails.ApprovedLeads | src/pages/CampaignDetails.jsx:204 | the send list is exactly the approved leads |
| CampaignDetails.MarkSent | src/pages/CampaignDetails.jsx:213-215 | a lead is sent after k steps iff one of the first k approved leads has its id |
| CampaignDetails.SentUpTo | src/pages/CampaignDetails.jsx:213-215 | the store after k sends holds each lead marked as its sends left it |
| CampaignDetails.SentStep | src/pages/CampaignDetails.jsx:213-215 | one more send marks the next approved lead's id as sent |
| CampaignDetails.SendStopSpec | src/pages/CampaignDetails.jsx:211-229 | sending stops at the first refused update; all earlier ones were accepted |
| CampaignDetails.MarkApproved | src/pages/CampaignDetails.jsx:213-215 | sending all turns exactly the approved leads into sent ones |
| CampaignDetails.SendAllMarksApproved | src/pages/CampaignDetails.jsx:204-215 | with distinct ids, sending the whole approved list is `MarkApproved` |
| CampaignDetails.SendAllCounts | src/pages/CampaignDetails.jsx:265-270 | after a full send: no approved leads left, sent grows by the approved count, generated and total unchanged |
| CampaignDetails.GenerateAll | src/pages/CampaignDetails.jsx:96-168 | the loop leaves the store as `Generated` and progress as `ProgressAfter` |
| CampaignDetails.SendApproved | src/pages/CampaignDetails.jsx:213-215 | the loop marks the approved leads sent up to the first refusal |
| CampaignDetails.SendAndCount | src/pages/CampaignDetails.jsx:211-221 | the counters are updated, `emails_sent` plus the approved count and `total_leads`, iff every send was accepted |
| CampaignDetails.CampaignPage.constructor | src/pages/CampaignDetails.jsx:35-44 | the page starts loading with no campaign, no leads and no error |
| CampaignDetails.CampaignPage.LoadCampaignDataAsWritten | src/pages/CampaignDetails.jsx:55-81 | as written, a missing campaign leaves `isLoading` true, so the spinner shows for good |
| CampaignDetails.CampaignPage.LoadCampaignData | src/pages/CampaignDetails.jsx:55-81 | corrected: loading always ends, and a missing campaign shows "Campaign not found" |
| CampaignDetails.CampaignPage.Mount | src/pages/CampaignDetails.jsx:46-53 | without an id the page shows "No campaign ID provided" and stops loading; with one it loads as written, and keeps loading iff the campaign list loads but lacks the id; the generation state is kept |
| CampaignDetails.CampaignPage.GenerateEmailsForLeads | src/pages/CampaignDetails.jsx:83-179 | nothing happens without a campaign or leads; a user-lookup failure sets the error and keeps the loading flag; otherwise drafts are stored as `Generated` says and the page reloads as written, loading for good iff the campaign is missing |
| CampaignDetails.CampaignPage.HandleApproveEmail | src/pages/CampaignDetails.jsx:181-188 | an accepted approve marks that lead approved and reloads as written, loading for good iff the campaign is missing; a failure changes nothing |
| CampaignDetails.CampaignPage.HandleEditEmail | src/pages/CampaignDetails.jsx:190-201 | an accepted edit sets content, subject and `approved` on that lead and reloads as written, loading for good iff the campaign is missing |
| CampaignDetails.CampaignPage.HandleSendEmails | src/pages/CampaignDetails.jsx:203-230 | no approved leads: an alert and no change; otherwise sends up to the first refusal, and counters plus the success alert and the as-written reload only when every call succeeded |
| CampaignDetails.CampaignPage.ReportSent | src/pages/CampaignDetails.jsx:223-224 | the success alert with the sent count, then the as-written reload |
| AllLeads.RequestSort | src/pages/AllLeads.jsx:76-82 | the key is set; the direction is `desc` iff the same key was ascending |
| AllLeads.RequestSortAlternates | src/pages/AllLeads.jsx:76-82 | clicking the same column alternates the direction; from the initial `created_date` descending a click gives ascending |
| AllLeads.Values | src/pages/AllLeads.jsx:89 | a lead's searchable values include its email, names, company, status and id |
| AllLeads.Search | src/pages/AllLeads.jsx:87-93 | an empty term keeps every lead; otherwise a lead is kept iff some value contains the term, ignoring case |
| AllLeads.SearchIgnoresCase | src/pages/AllLeads.jsx:90 | a term and its lowercase form find the same leads |
| AllLeads.SearchFindsEmail | src/pages/AllLeads.jsx:88-91 | a lead whose email contains the term is found |
| AllLeads.SearchConcat | src/pages/AllLeads.jsx:87-93 | the search keeps order |
| AllLeads.InOrderTotal | src/pages/AllLeads.jsx:95-103 | the comparator orders any two leads one way or the other |
| AllLeads.InOrderTransitive | src/pages/AllLeads.jsx:95-103 | the comparator's order is transitive |
| AllLeads.AdjacentSortedIsSorted | src/pages/AllLeads.jsx:95-103 | neighbours in order means every pair in order |
| AllLeads.SortBy | src/pages/AllLeads.jsx:95-103 | the in-place sort leaves the array ordered by the comparison and a permutation of its input |
| AllLeads.SinkBy | src/pages/AllLeads.jsx:95-103 | one insertion step extends the ordered prefix by one element and keeps the elements |
| AllLeads.SortedAndFiltered | src/pages/AllLeads.jsx:84-106 | the shown list is a permutation of the searched leads, sorted by the chosen key and direction |
| AllLeads.AllLeadsPage.constructor | src/pages/AllLeads.jsx:47-50 | the page starts loading, with no search and sorted by `created_date` descending |
| AllLeads.AllLeadsPage.LoadLeads | src/pages/AllLeads.jsx:56-65 | the first 1000 stored leads replace the list, or it stays on failure; loading ends |
| AllLeads.AllLeadsPage.HandleDelete | src/pages/AllLeads.jsx:67-74 | a successful delete removes exactly the leads with that id from the store and the page; a failure changes neither |
| AllLeads.AllLeadsPage.HandleSortClick | src/pages/AllLeads.jsx:109 | a header click sets the sort as `RequestSort` says |
| AllLeads.AllLeadsPage.HandleSearch | src/pages/AllLeads.jsx:148 | typing sets the search term and nothing else |
| AllLeads.AllLeadsPage.Rows | src/pages/AllLeads.jsx:84-106 | the rows are the page's searched leads, sorted, computed on a copy without reordering the state |
| AllLeads.DeleteKeepsOthers | src/pages/AllLeads.jsx:70 | with distinct ids, deleting a lead removes exactly its position and keeps the rest in order |

## Left out

- Rendering, styling, animation and navigation; `setTimeout` pacing delays; `Promise.all` on the dashboard. These are timing and presentation, not behaviour.
- The language-model prompt text and the current user's signature: the model's answer is an oracle `llm(i)`, and the user lookup is a boolean.
- `FileReader`: the file's text is a parameter, and `None` stands for a read error.
- The sample-CSV download.
- Date parsing and formatting: the dashboard's "this week" count, the recent-activity feed, and date display in the lead table.
- Authentication, the settings page and the campaigns list page.
- `console.warn` for skipped rows, since it only logs.
- Text.ToLower: lowercases ASCII letters only; JavaScript's full Unicode case mapping is not modelled.
- Text.LessTotal: compares strings by character code, as JavaScript's `<` compares UTF-16 code units; surrogate pairs are not distinguished from other characters.
- Leads.CountStatus: a status is a datatype, so the string comparison `status === 'sent'` becomes a constructor test; values outside the five statuses cannot arise in the model.
- Store.LeadStore.List: returns the first stored records; the store's ordering by `-created_date` is not modelled.
- Csv.ParseCsv: a header literally named `__proto__`, and duplicate headers (where the later one overwrites the earlier), follow the model's map rather than JavaScript object semantics.
- Validation.NormalizeRow: the `!item || typeof item !== 'object'` guard is not modelled, because parsed rows are always objects.
- Validation.MappedValue: a cell is a string; the `String(...)` conversion of non-string cells does not arise.
- ImportLeads.ImportPage.HandleImport: the progress values shown during the loop are not kept, only the final one (`ImportProgress` of the stored batches); the redirect after success is left out.
- CampaignDetails.CampaignPage.GenerateEmailsForLeads: only the final progress value is kept; the values shown during the loop are not.
- ImportLeads.ImportPage.ProcessFile: progress is a `real`; the values 0, 25, 50 and 75 set during processing are modelled, but not their display.
- CampaignDetails.CampaignPage.Mount: campaign ids are natural numbers rather than the URL's strings, so `c.id === campaignId` is a comparison of numbers.
- Dashboard.ResponseRate: `toFixed(1)` rounding and the string it returns are not modelled; the rate is an exact rational.
- AllLeads.SortedAndFiltered: the sort is stated as ordered and a permutation; the stability of `Array.prototype.sort` (leads with equal keys keep their order) is not promised.
- AllLeads.Values: campaign ids and lead ids are written in decimal; `generated_email` and other string fields are included, but fields the store adds beyond those in the lead record are not.
- AllLeads.InOrder: a missing key compares as the empty string, whereas JavaScript compares `undefined` as false both ways.
- ColumnMapper.Mapper.HandleMappingChange: a header literally named "ignore" can never be chosen, as in the code.
- ColumnMapper.Mapper.HandleConfirm: `onConfirm` is recorded as the list of confirmed mappings rather than a callback.

## Findings

| source | as written | input that shows it | evidently intended | confidence | as-written member | corrected member |
|---|---|---|---|---|---|---|
| src/pages/ImportLeads.jsx:174-179 | an unmapped optional field reads `item[undefined]`, which is the column named "undefined" | a CSV with a column "undefined" holding "x", and `last_name` unmapped: every lead gets last name "x" | an unmapped field is "" | high, not executed | Validation.UndefinedColumnLeaks | Validation.MappedValue |
| src/pages/Dashboard.jsx:97 | the rate divides responses by `emailsSent`, but a responding lead leaves the sent count | one lead sent and two responded: the rate reads 200 % | responses over all contacted leads, at most 100 % | medium, not executed | Dashboard.ResponseRateAsWrittenExceeds | Dashboard.GetStatsCorrected |
| src/pages/CampaignDetails.jsx:62-65 | the "Campaign not found" branch returns before `setIsLoading(false)` | a campaign id no campaign has: the spinner stays for good and the error is never shown | loading ends and the not-found panel shows | high, not executed | CampaignDetails.CampaignPage.LoadCampaignDataAsWritten | CampaignDetails.CampaignPage.LoadCampaignData |
