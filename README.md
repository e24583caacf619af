# Purchase: a verified model of the procurement-documentation pipeline

This project models, in Dafny, the checkable core of the Purchase system. Purchase reads tender documentation and helps a supplier assemble the package of documents the tender requires. The pipeline it models:

- turns noisy language-model output into a bounded, duplicate-free list of required documents;
- matches that list against the documents a supplier holds and scores how complete the package is;
- builds the package manifest and a readiness report;
- gates the package through four approval stages: automatic, legal, financial and final;
- keeps the document registry, the template library index, the forms extracted from tender text and the procurement reports.

Each core source file is one Dafny module. Code that updates objects in place becomes a `class` with `modifies` clauses. Examples are the stages and the controller, the registry and the report generator. Loops become methods with invariants, proved against specification functions. The pure rules become functions, with lemmas stating what the source promises.

Shared modules:

- `Wrappers`: `Option`.
- `Text`: the character classes and string operations of Python the core relies on, such as `str.lower`, `str.strip`, `str.find`, `str.split` and string comparison.
- `Sequences`: sequence helpers: subsequences, comprehension filters and first-wins de-duplication.
- `Tally`: dictionary counters that keep the insertion order.
- `Ranking`: the stable `sorted(..., reverse=True)[:n]`.
- `Percentages`: the completeness arithmetic.

What lies outside the core becomes a parameter of the operation that uses it:

- clocks, uuids and generated ids;
- the file-system facts, namely whether a file exists and its size;
- `json.loads`, as a parse function; for the backend analyzer it also says whether the value decoded is a dict the analysis can read;
- `difflib.SequenceMatcher.ratio`, as an uninterpreted function into [0, 1];
- the regular-expression scans that find forms, sections and fields, which arrive as their matches.

## Model

| member | source | states |
|---|---|---|
| FormsExtractor.DetectFieldType | src/forms_extractor.py:264-277 | a field's type is always one of date, number, text, checkbox |
| FormsExtractor.DetectFieldTypeMeaning | src/forms_extractor.py:264-277 | the keyword groups are tried in order on the lower-cased name: date iff a date keyword occurs; number iff no date keyword and a number keyword; checkbox iff no date, number or address/e-mail/phone keyword and a checkbox keyword; text in every other case |
| FormsExtractor.DetectFieldTypeIgnoresCase | src/forms_extractor.py:266 | lower-casing a name first does not change its type |
| FormsExtractor.Window | src/forms_extractor.py:286 | the text searched for optional markers spans at most 50 characters on each side of the name |
| FormsExtractor.IsFieldMandatory | src/forms_extractor.py:279-290 | the decision of `_is_field_mandatory`; its properties are stated by WindowHoldsName and MarkerFreeMandatory |
| FormsExtractor.MandatoryMeaning | src/forms_extractor.py:279-290 | the decision spelled out: a name that does not occur in the form text (ignoring case) is mandatory; one that occurs is mandatory exactly when no optional marker occurs in the window around its first occurrence, which is an occurrence |
| FormsExtractor.WindowHoldsName | src/forms_extractor.py:282-286 | the window always contains the name's first occurrence |
| FormsExtractor.MarkerFreeMandatory | src/forms_extractor.py:279-290 | in a form text without any optional marker every field is mandatory |
| FormsExtractor.FieldCandidatesMeaning | src/forms_extractor.py:225-248 | every field a match yields has a name of 3 to 100 characters, the type of that name and the mandatory flag of that name in the form text |
| FormsExtractor.FormFields | src/forms_extractor.py:219-258 | the candidates de-duplicated by lower-cased name and cut to 50; what they are is stated by FormFieldsMeaning and FormFieldsFirstWins |
| FormsExtractor.FormFieldsMeaning | src/forms_extractor.py:219-258 | the structure holds at most 50 fields, each valid as above, no two names equal ignoring case, in match order |
| FormsExtractor.FormFieldsFirstWins | src/forms_extractor.py:250-252 | of the fields whose names agree ignoring case the first one matched is kept; below the cap of 50 every name matched is represented |
| FormsExtractor.ParseFields | src/forms_extractor.py:219-258 | the de-duplicating loop followed by `[:50]` yields exactly the specified field list |
| FormsExtractor.ParseFormStructure | src/forms_extractor.py:209-262 | the structure holds that field list with the table count and the signature and date flags |
| FormsExtractor.FindFormsInSection | src/forms_extractor.py:130-169 | the loop keeps exactly the first form of each name, in match order |
| FormsExtractor.SectionForms | src/forms_extractor.py:130-169 | the first form of each name among the matches; what the forms are is stated by SectionFormsMeaning |
| FormsExtractor.SectionFormsMeaning | src/forms_extractor.py:155-167 | the forms of a section have distinct names; every name matched is represented by its first match; each form has at most 2000 characters of text, a non-empty section ("Не определено" when none is given) and no template match |
| FormsExtractor.NameFromLines | src/forms_extractor.py:178-188 | a form's name has at most 100 characters |
| FormsExtractor.NameFromLinesFallback | src/forms_extractor.py:188 | when no line of the context gives a name the name is "Форма без названия" |
| FormsExtractor.NameFromLinesFirst | src/forms_extractor.py:180-186 | the first line that mentions a form and is not emptied by removing the form number decides the name, whatever follows |
| FormsExtractor.ExtractFormName | src/forms_extractor.py:171-188 | the loop returns the name the lines of `text[max(0, start-50):min(len, end+200)]` give, at most 100 characters |
| FormsExtractor.GroupBySection | src/forms_extractor.py:368-374 | the loop counts the forms per section in first-occurrence order, a missing section under "Не определено" |
| FormsExtractor.GetFormsSummary | src/forms_extractor.py:343-366 | the summary holds the number of forms, the sum of their field-list lengths, the forms with a non-empty template match, the others and the per-section counts |
| FormsExtractor.SummaryCounts | src/forms_extractor.py:358-374 | the forms without a template are between 0 and all forms; the section counts add up to the number of forms, each section is counted once, with the number of its forms |
| FormsExtractor.TotalFieldsAppend | src/forms_extractor.py:353-356 | the field total over two lists of forms is the sum of their totals |
| FormsExtractor.SummaryExample | tests/test_new_modules.py:168-179 | forms of three fields and of two fields with a template match give five fields, one form with a template and one without |
| Reports.FilterByDateMeaning | src/reports.py:116-123 | without a start and an end the items come back unchanged; the result is always the comprehension, so it keeps in order exactly the items whose `created_at` (default "") is at or after the start and at or before the end as strings |
| Reports.CountByField | src/reports.py:125-130 | the loop counts the items per value of the field in first-occurrence order, an absent field under "Неизвестно" |
| Reports.CountByFieldMeaning | src/reports.py:125-130 | the counts add up to the number of items; each value appears once with its number of items; an item without the field makes "Неизвестно" count at least one |
| Reports.RejectionRateMeaning | src/reports.py:61 | the rejection rate lies in [0, 1]; it is 0 exactly when nothing is rejected, including when there are no procurements, and 1 exactly when everything is |
| Reports.RejectedReasonsMeaning | src/reports.py:52-57 | the rejected records are exactly those with status "rejected"; their reason counts add up to their number |
| Reports.CountReasons | src/reports.py:53-57 | the loop counts the rejected records per reason, an absent reason under "Неизвестна" |
| Reports.CountMissing | src/reports.py:81-86 | the nested loop counts every missing entry of every package under its document name ("Неизвестный" when absent) |
| Reports.MissingCountsTotal | src/reports.py:83-86 | the counts add up to the number of missing entries over all packages |
| Reports.TopMissingSorted | src/reports.py:88 | the report lists at most ten documents, exactly ten when that many are missing, most often missing first |
| Reports.TopMissingBest | src/reports.py:88 | no document left out of the report is missing more often than one listed |
| Reports.TopMissingCounts | src/reports.py:86-94 | each document listed is missing, with the number of missing entries of its name |
| Reports.TopMissingDistinct | src/reports.py:86-94 | no document is listed twice |
| Reports.ReportGenerator.constructor | src/reports.py:24-26 | both stores start empty |
| Reports.ReportGenerator.AddProcurementData | src/reports.py:28-29 | appends exactly the record and leaves the packages alone |
| Reports.ReportGenerator.AddPackageData | src/reports.py:31-32 | appends exactly the package and leaves the procurements alone |
| Reports.ReportGenerator.GenerateProcurementReport | src/reports.py:34-48 | the period bounds default to "N/A"; the total is the number of records the date filter keeps; status and legal-basis counts are taken over those records |
| Reports.ReportGenerator.GenerateRejectionReport | src/reports.py:50-64 | the number rejected is the count of records with status "rejected"; the rate is that count over all records, 0 without records; the reasons are counted over the rejected records |
| Reports.ReportGenerator.GenerateMissingDocumentsReport | src/reports.py:79-96 | the report lists the ten most often missing documents of all packages |
| TemplateLibrary.FirstTypeInMeaning | src/template_library.py:140-148 | the type detected is that of the first row of the keyword table one of whose keywords occurs in the lower-cased file name; when no row matches it is "other" |
| TemplateLibrary.DetectDocumentType | src/template_library.py:140-148 | the keyword-table lookup on the lower-cased file name; what it returns is stated by FirstTypeInMeaning |
| TemplateLibrary.BaseName | src/template_library.py:153 | the name of a POSIX path holds no '/', is never ".", and is no longer than the path |
| TemplateLibrary.BaseNamePlain | src/template_library.py:153 | a name without '/' other than "." is its own name |
| TemplateLibrary.BaseNameLast | src/template_library.py:153 | only the part after the last '/' is the name, whatever comes before it |
| TemplateLibrary.BaseNameTrailingSlash | src/template_library.py:153 | a trailing '/' does not change the name |
| TemplateLibrary.Stem | src/template_library.py:153 | the stem holds no '/'; it is the path's name, or the part of the name before its last dot when that dot is neither its first nor its last character |
| TemplateLibrary.RunsOccur | src/template_library.py:155 | every word split off the name occurs in it |
| TemplateLibrary.RunsLowerCase | src/template_library.py:155 | a lower-case name splits into lower-case words |
| TemplateLibrary.ExtractKeywords | src/template_library.py:150-157 | the words of the lower-cased stem longer than two characters; what they are is stated by KeywordsMeaning |
| TemplateLibrary.KeywordsOfLastComponent | src/template_library.py:150-157 | the directories of a path contribute no keywords: a path gives the keywords of its last component |
| TemplateLibrary.KeywordsMeaning | src/template_library.py:150-157 | each keyword is longer than two characters, holds no space, underscore, hyphen or dot, is lower-case and occurs in the lower-cased stem of the file name |
| TemplateLibrary.KwKey | src/template_library.py:177 | a keyword key starts with "kw:" followed by the keyword |
| TemplateLibrary.TypeKey | src/template_library.py:185 | a type key starts with "type:" followed by the type |
| TemplateLibrary.Put | src/template_library.py:173 | dictionary assignment: a new key goes last, an existing key keeps its place; only that key's value changes |
| TemplateLibrary.IndexKeys | src/template_library.py:176-189 | a template is filed under one keyword key per keyword, then under its type key ("other" when it has no type) |
| TemplateLibrary.IndexOf | src/template_library.py:159-191 | the index built by filing each template in turn from an empty one; what it holds is stated by IndexOfMeaning |
| TemplateLibrary.NoClashMeaning | src/template_library.py:171-173 | the condition the index lemmas assume holds exactly when the template ids are distinct and none looks like a keyword or type key |
| TemplateLibrary.AddIdsTemplates | src/template_library.py:176-181 | filing an id under keys changes no stored template, keeps the old keys in place and adds only keys that hold no template |
| TemplateLibrary.AddIdsLists | src/template_library.py:176-181 | filing an id under keys appends it to each key's list once per occurrence of the key |
| TemplateLibrary.IndexOfTemplates | src/template_library.py:171-173 | after indexing, each key holds the last template whose id it is |
| TemplateLibrary.IndexOfWellFormed | src/template_library.py:169-189 | the index keeps its keys and its dictionary in step |
| TemplateLibrary.AddTemplateLists | src/template_library.py:171-189 | adding a template with a fresh id appends its id once per occurrence of each of its keys |
| TemplateLibrary.IndexOfLists | src/template_library.py:169-189 | with distinct ids, each key lists the ids of the templates carrying it, in template order |
| TemplateLibrary.AddTemplateAppends | src/template_library.py:171-173 | a template added under a fresh id is read back after those already there |
| TemplateLibrary.IndexOfAll | src/template_library.py:169-173 | with distinct ids, the templates read back from the index are exactly the list indexed, in order |
| TemplateLibrary.IndexOfAppends | src/template_library.py:171-173 | indexing one more template with a fresh id reads it back last |
| TemplateLibrary.TemplateForIds | src/template_library.py:171-173 | a stored template sits under its own id, which is no index key |
| TemplateLibrary.TemplateForAbsent | src/template_library.py:171-173 | an id no template carries holds nothing |
| TemplateLibrary.IdsForIndexKeys | src/template_library.py:176-189 | only keyword and type keys receive ids |
| TemplateLibrary.IndexOfMeaning | src/template_library.py:159-189 | for templates with distinct ids that look like no index key, every template is stored under its id, every key lists the ids of the templates carrying it in order, and reading the templates back gives the list indexed |
| TemplateLibrary.TypeKeyLists | src/template_library.py:183-189 | a type key lists, in order, the ids of exactly the templates of that type |
| TemplateLibrary.Score | src/template_library.py:224-244 | the score of one template, from the name lower-cased and split into keywords before the loop, lies in [0, 1] |
| TemplateLibrary.Confidence | src/template_library.py:214-244 | a template's confidence for a document name lies in [0, 1] |
| TemplateLibrary.Collected | src/template_library.py:224-250 | every result the loop collects reaches the threshold, is at most 1 and scores a template of the list |
| TemplateLibrary.Candidates | src/template_library.py:224-250 | every result collected comes from the index, reaches the threshold and is at most 1 |
| TemplateLibrary.TopTenBounds | src/template_library.py:246-255 | the ten results returned each come from the index and have a confidence between the threshold and 1 |
| TemplateLibrary.StatisticsCounts | src/template_library.py:322-333 | the counts by type and by extension each add up to the number of templates; each type or extension appears once, with its number of templates |
| TemplateLibrary.TemplatesOf | src/template_library.py:309-312 | the loop keeps, in key order, exactly the values of the index that are templates |
| TemplateLibrary.CountTemplates | src/template_library.py:322-333 | the loop counts templates per type ("other" when absent) and per extension ("unknown" when absent) in first-occurrence order and sums the sizes |
| TemplateLibrary.CollectCandidates | src/template_library.py:214-250 | with the name lower-cased and split into keywords once before it, the loop keeps, in index order, each template whose confidence reaches the threshold, with that confidence |
| TemplateLibrary.Library.constructor | src/template_library.py:62-64 | the index starts empty and unstamped |
| TemplateLibrary.Library.IndexDocuments | src/template_library.py:159-191 | the index is rebuilt from nothing out of the documents given, and stamped |
| TemplateLibrary.Library.EnsureIndexed | src/template_library.py:211-212 | an empty index is built from the catalogue scan; a non-empty one is left as it is |
| TemplateLibrary.Library.GetAllTemplates | src/template_library.py:304-312 | after indexing if the index was empty, returns the templates stored in the index in key order |
| TemplateLibrary.Library.GetStatistics | src/template_library.py:318-343 | after indexing and stamping if the index was empty (index and stamp otherwise unchanged), the statistics hold the number of templates, the per-type and per-extension counts, the total size and the index stamp |
| TemplateLibrary.Library.SearchTemplate | src/template_library.py:194-255 | after indexing and stamping if the index was empty (index and stamp otherwise unchanged), the results are the ten best-scored templates reaching the threshold, highest confidence first, ties in index order |
| Ranking.TopSorted | src/template_library.py:253-255 | the top `n` have length `min(n, len)` and come highest rank first |
| Ranking.TopSplit | src/template_library.py:253-255 | the top `n` and the rest together are a permutation of the input |
| Ranking.TopBest | src/template_library.py:253-255 | nothing left out ranks above anything kept |
| Ranking.TopMembers | src/template_library.py:253-255 | everything kept comes from the input |
| Ranking.SortDescSorted | src/template_library.py:253 | the sort orders best first |
| Ranking.SortDescCounts | src/template_library.py:253 | the sort keeps every element as often as it occurs |
| DocumentRegistry.DocId | src/document_registry.py:39 | an id is "doc_" followed by at least four digits |
| DocumentRegistry.DocIdInjective | src/document_registry.py:39 | different positions give different ids |
| DocumentRegistry.DaysLeft | src/document_registry.py:56 | the floor division of the time left by a day, as `timedelta.days` gives it; its bounds are stated by DaysLeftBounds |
| DocumentRegistry.DaysLeftBounds | src/document_registry.py:56 | the day count is the exact time left rounded down to whole days |
| DocumentRegistry.CalculateStatus | src/document_registry.py:48-67 | the status is one of valid, expired, expiring_soon_7d, expiring_soon_30d, unknown |
| DocumentRegistry.StatusMeaning | src/document_registry.py:48-67 | without an expiry date a document is valid; an unreadable date gives unknown; otherwise expired iff the expiry is before now, expiring within 7 days iff less than 8 days remain, within 30 iff 8 to 30 days remain, valid iff 31 days or more remain |
| DocumentRegistry.Expiring | src/document_registry.py:69-83 | the comprehension of `get_expiring_documents`; what it keeps is stated by ExpiringMeaning |
| DocumentRegistry.ExpiringMeaning | src/document_registry.py:69-83 | the listing keeps registry order and holds exactly the documents with a readable expiry after now and at most `days` days ahead |
| DocumentRegistry.ExpiringAreFlagged | src/document_registry.py:56-83 | listing and status agree: listed within at most 7 days means the 7-day status, within at most 30 days one of the two expiring statuses |
| DocumentRegistry.FilterWhen | src/document_registry.py:95-115 | a comprehension applied only when its argument is given is a comprehension whose test passes when it is skipped |
| DocumentRegistry.FilterChain | src/document_registry.py:93-117 | four optional comprehensions in a row select what one comprehension with the conjunction of the applied tests selects |
| DocumentRegistry.SearchDocuments | src/document_registry.py:85-117 | the four optional comprehensions of `search_documents` in their order; what they keep is stated by SearchIsOneFilter and SearchMeaning |
| DocumentRegistry.SearchIsOneFilter | src/document_registry.py:85-117 | the filter chain keeps exactly the documents passing every given filter |
| DocumentRegistry.SearchMeaning | src/document_registry.py:85-117 | the search keeps registry order and returns exactly the documents whose name contains the query ignoring case, whose category, status and tags match when given; with no filter given it returns every document |
| DocumentRegistry.QueryIgnoresCase | src/document_registry.py:95-100 | lower-casing the query first selects the same documents |
| DocumentRegistry.SequentialIdsSnoc | src/document_registry.py:37-46 | appending a document under the next id keeps the ids sequential |
| DocumentRegistry.SequentialIdsDistinct | src/document_registry.py:37-46 | ids handed out one after another are pairwise distinct |
| DocumentRegistry.Registry.constructor | src/document_registry.py:30-35 | no documents and no requisites |
| DocumentRegistry.Registry.AddDocument | src/document_registry.py:37-46 | the document is stamped with the next id, the time and its status and appended; the ids stay sequential and the requisites are unchanged |
| DocumentRegistry.Registry.GetExpiringDocuments | src/document_registry.py:69-83 | the loop returns exactly the specified listing |
| DocumentRegistry.Registry.Search | src/document_registry.py:85-117 | the search over the registry keeps order and returns exactly the documents passing every given filter |
| DocumentRegistry.Registry.SetRequisites | src/document_registry.py:119-133 | the requisites become current with version 1 when none was given and the time as start; the previous current, closed at that time, is appended to the history, which exists from the first call on; documents are unchanged |
| DocumentRegistry.Registry.GetCurrentRequisites | src/document_registry.py:135-136 | the current requisites, or the empty ones before any were set |
| ReadinessReport.ReadinessCounts | src/readiness_report.py:123-135 | every item is mandatory or optional; the provided mandatory and provided optional items are the provided items; each provided count is at most its total |
| ReadinessReport.ReadinessMeaning | src/readiness_report.py:104-157 | the mandatory and optional totals add up to the items; the requirements covered are the provided items; the completeness lies in [0, 100] and is 100 exactly when every mandatory item is provided, also when there is none |
| ReadinessReport.MandatoryProvidedAll | src/readiness_report.py:127-141 | the provided-mandatory count equals the mandatory count exactly when every mandatory item is provided |
| ReadinessReport.ItemProblems | src/readiness_report.py:177-216 | an item gives at most one problem in the first loop, since "missing" and "not_prepared" exclude each other |
| ReadinessReport.ExpiryProblems | src/readiness_report.py:218-228 | an item gives one expiring_soon problem exactly when its validity mentions "дней" ignoring case or "30" |
| ReadinessReport.IdentifyProblems | src/readiness_report.py:159-230 | the two loops yield the per-item problems followed by the expiring_soon problems |
| ReadinessReport.AddItemProblems | src/readiness_report.py:177-216 | the first loop collects each item's problems in item order |
| ReadinessReport.AddExpiryProblems | src/readiness_report.py:218-228 | the second loop appends one problem per item with limited validity, in item order |
| ReadinessReport.ItemProblemCounts | src/readiness_report.py:183-216 | one item gives a missing_mandatory problem, and a high-priority one, exactly when it is "missing" with its mandatory flag true or absent, and never an expiring_soon problem |
| ReadinessReport.ExpiryProblemCounts | src/readiness_report.py:218-228 | the second loop gives only medium-priority expiring_soon problems |
| ReadinessReport.ProblemCounts | src/readiness_report.py:159-230 | there is one missing_mandatory problem and one high-priority problem per missing item whose mandatory flag is true or absent, and one expiring_soon problem per item with limited validity |
| ReadinessReport.PerItemCounts | src/readiness_report.py:177-216 | the first loop's problem counts by kind and priority, item by item |
| ReadinessReport.ExpiringCounts | src/readiness_report.py:218-228 | the second loop's problems are all expiring_soon, one per item with limited validity |
| ReadinessReport.ExpiringComeLast | src/readiness_report.py:218-230 | the expiring_soon problems follow all per-item problems |
| ReadinessReport.OfKind | src/readiness_report.py:250-269 | the comprehension keeps, in order, only problems of the kind asked |
| ReadinessReport.OfKindCount | src/readiness_report.py:250-269 | the comprehension keeps every problem of the kind asked |
| ReadinessReport.UrgentAdviceFirst | src/readiness_report.py:250-258 | with missing_mandatory problems the first recommendation gives their number and names the first five of them |
| ReadinessReport.CompletenessAdviceRules | src/readiness_report.py:276-298 | the completeness advice comes just before the closing catalogue advice, which is given exactly when no item comes from the template library: low below 50, almost ready from 50 to below 80, ready at 100 or more without problems |
| ReadinessReport.DetermineStatus | src/readiness_report.py:302-316 | not_started iff the completeness is 0; incomplete iff it is not and a mandatory document is missing; with_risks iff neither and some problem exists; ready iff the completeness is not 0 and there is no problem |
| ReadinessReport.SummarizeProblems | src/readiness_report.py:328-334 | the loop counts the problems per type in first-occurrence order, a problem without a type under "unknown" |
| ReadinessReport.SummaryCounts | src/readiness_report.py:328-334 | the counts add up to the number of problems; each type appears once, and exactly the types of the problems appear |
| ReadinessReport.Checklist | src/readiness_report.py:336-379 | the checklist holds three checks |
| ReadinessReport.ChecklistMeaning | src/readiness_report.py:336-379 | the checks hold exactly when every item is provided, when every mandatory item is provided, and when no problem has high priority |
| ReadinessReport.NoCriticalProblemsMeaning | src/readiness_report.py:159-230 | on the problems found, the third check holds exactly when no item is "missing" with its mandatory flag true or absent |
| PackageManifest.FirstRelated | src/package_manifest.py:135-144 | the position found is the first document whose lower-cased name contains the requirement's lower-cased name or is contained in it; no earlier document is related |
| PackageManifest.FindMatchingDocument | src/package_manifest.py:135-144 | the loop returns the first related document, or nothing when none is related |
| PackageManifest.MatchingDocumentIsFirst | src/package_manifest.py:135-144 | there is no match exactly when no document is related; a match is a related document with no related document before it |
| PackageManifest.UnnamedMatchesFirst | src/package_manifest.py:137-142 | a requirement without a name looks for "", which every name contains, so the first document matches |
| PackageManifest.CompletionStatus | src/package_manifest.py:91-99 | a matched document without its own source type is "provided"; without a match (or with an empty dict) the status is "missing" exactly for a mandatory requirement and "not_prepared" exactly for an optional one |
| PackageManifest.SourceType | src/package_manifest.py:146-160 | "not_found" without a match; the document's own source type when it has one; never empty |
| PackageManifest.SourceTypeFlags | src/package_manifest.py:152-160 | without its own source type a document is "template_library" iff from_template is set, "user_provided" iff only user_uploaded is set, "from_KD" iff neither |
| PackageManifest.NoteList | src/package_manifest.py:162-177 | an unmatched requirement gets one note, a matched document at most two |
| PackageManifest.NotesCases | src/package_manifest.py:162-177 | an unmatched requirement gets the mandatory note only when "mandatory" is present and true, else the optional note; a matched document gets the template note and the expiry note, in that order, for the flags that are set, joined with "; " |
| PackageManifest.AbsentMandatoryDisagrees | src/package_manifest.py:87-169 | an unmatched requirement without "mandatory" is "missing" by its status yet gets the optional note |
| PackageManifest.ManifestItems | src/package_manifest.py:83-118 | one item per requirement |
| PackageManifest.BuildItem | src/package_manifest.py:84-116 | the loop body builds exactly the specified item for the requirement at its position |
| PackageManifest.BuildItems | src/package_manifest.py:80-118 | the loop yields the item of requirement k at position k + 1, for every k |
| PackageManifest.CreateManifest | src/package_manifest.py:60-133 | the manifest holds the given id and time, the procurement info or an empty one, the items, their metrics and their number |
| PackageManifest.ManifestShape | src/package_manifest.py:83-116 | one item per requirement in order at positions 1..n; each links exactly its own id, the requirement's id or "REQ-" with the three-digit position; its name defaults to "Неизвестный документ" and its mandatory flag to true |
| PackageManifest.ItemIdAt | src/package_manifest.py:85-103 | item k carries the id of requirement k at position k + 1 |
| PackageManifest.DefaultIdInjective | src/package_manifest.py:85 | default ids of different positions differ |
| PackageManifest.DefaultIdsDistinct | src/package_manifest.py:83-118 | requirements without ids get pairwise distinct item ids |
| PackageManifest.ItemCounts | src/package_manifest.py:182-184 | mandatory items split into provided and missing ones; all items split into mandatory, provided optional and missing optional ones |
| PackageManifest.MetricsMeaning | src/package_manifest.py:179-196 | missing_mandatory counts the mandatory items not provided and missing_optional the optional items not provided, so neither is negative; the completeness lies in [0, 100] and is 100 exactly when no mandatory item is missing |
| PackageBuilder.FirstUsable | src/package_builder.py:39-44 | the position found holds a document related to the requirement's name and not expired, and no earlier document is both |
| PackageBuilder.FindAvailable | src/package_builder.py:37-44 | the inner loop stops at the first related, non-expired document, or finds nothing when there is none |
| PackageBuilder.MatchDocuments | src/package_builder.py:30-51 | the two loops yield exactly the specified matching |
| PackageBuilder.MandatoryMissing | src/package_builder.py:57 | the count of mandatory missing entries is at most the missing entries and is 0 exactly when none of them is mandatory |
| PackageBuilder.CompletenessOf | src/package_builder.py:53-64 | total and matched count the entries; the completeness is at most 100 and is 100 exactly when something is required and nothing is missing; ready exactly when no missing entry is mandatory |
| PackageBuilder.FoundFilterMembers | src/package_builder.py:46-49 | the requirements filtered by the lookup's outcome are exactly those in the input with that outcome |
| PackageBuilder.MatchWithPartition | src/package_builder.py:35-49 | for any lookup, the matched entries are the requirements found and the missing ones those not found, each in input order |
| PackageBuilder.MatchWithEntries | src/package_builder.py:46-49 | each matched entry holds what the lookup found for it; each missing entry found nothing and carries its mandatory flag |
| PackageBuilder.MatchedPartition | src/package_builder.py:30-51 | every requirement lands in exactly one of the two lists, in `matched` iff a document was found, each list in input order |
| PackageBuilder.FoundFilterLength | src/package_builder.py:35-49 | the two filtered lists together are as long as the input |
| PackageBuilder.FoundIsFirstUsable | src/package_builder.py:39-46 | a document found is related to the requirement, not expired and not the empty dict, and comes before every other usable document |
| PackageBuilder.MatchedAreFound | src/package_builder.py:46-47 | each matched entry holds the document found for its requirement |
| PackageBuilder.MissingAreNotFound | src/package_builder.py:48-49 | each missing entry is a requirement with nothing found and records its mandatory flag, true when absent |
| PackageBuilder.LeadingEmptyDictHidesAll | src/package_builder.py:39-49 | an empty dict first among the documents on hand matches every requirement and counts as not found, so every requirement is missing |
| PackageBuilder.NothingFound | src/package_builder.py:35-49 | a lookup that never finds anything leaves every requirement missing, in order |
| PackageBuilder.ReadyIffMandatoryMatched | src/package_builder.py:30-64 | the package is ready exactly when a document was found for every mandatory requirement |
| UtilsDeduplicator.KeepWordChars | src/utils/deduplicator.py:100 | only word characters and whitespace are kept |
| UtilsDeduplicator.DropStopWords | src/utils/deduplicator.py:103-105 | the words kept come from the input and none is a stop word |
| UtilsDeduplicator.NormalizeDocumentName | src/utils/deduplicator.py:83-107 | a normalised name consists of lower-case word characters separated by single blanks, with no blank at either end |
| UtilsDeduplicator.KeepWordCharsLower | src/utils/deduplicator.py:94-100 | removing special characters keeps a lower-case name lower-case |
| UtilsDeduplicator.TakeWordChars | src/utils/deduplicator.py:104 | the first word of such a string consists of lower-case word characters |
| UtilsDeduplicator.WordsAreTokens | src/utils/deduplicator.py:104 | splitting a string of lower-case word characters and whitespace gives non-empty lower-case words of word characters |
| UtilsDeduplicator.TokensShape | src/utils/deduplicator.py:94-105 | every word left after normalisation is such a word and no stop word |
| UtilsDeduplicator.JoinNormalForm | src/utils/deduplicator.py:107 | joining such words with one blank gives a normal form, non-empty when there is a word |
| UtilsDeduplicator.NormalFormLower | src/utils/deduplicator.py:94 | lower-casing leaves a normal form alone |
| UtilsDeduplicator.NormalFormStrip | src/utils/deduplicator.py:94 | stripping leaves a normal form alone |
| UtilsDeduplicator.CollapseSingleBlanks | src/utils/deduplicator.py:97 | collapsing whitespace leaves a string of single blanks alone |
| UtilsDeduplicator.KeepWordCharsIdentity | src/utils/deduplicator.py:100 | removing special characters leaves a string without any alone |
| UtilsDeduplicator.TakeWordOf | src/utils/deduplicator.py:104 | the first word of a word followed by whitespace is that word |
| UtilsDeduplicator.WordsOfJoin | src/utils/deduplicator.py:104-107 | splitting words joined with one blank gives the words back |
| UtilsDeduplicator.DropNoStopWords | src/utils/deduplicator.py:105 | words without stop words pass the filter unchanged |
| UtilsDeduplicator.NormalFormFixed | src/utils/deduplicator.py:94-100 | the character-level steps leave a normal form unchanged |
| UtilsDeduplicator.JoinedTokensFixed | src/utils/deduplicator.py:104-107 | the word-level steps give joined stop-word-free words back |
| UtilsDeduplicator.NormalizeIdempotent | src/utils/deduplicator.py:83-107 | normalising a normalised name changes nothing |
| UtilsDeduplicator.NormalizedWords | src/utils/deduplicator.py:83-107 | the words of a normalised name are the words kept, none a stop word |
| UtilsDeduplicator.AnySimilarIff | src/utils/deduplicator.py:55-71 | the inner loop's test holds exactly when some kept document is at least as similar as the threshold |
| UtilsDeduplicator.AnySimilarSnoc | src/utils/deduplicator.py:55-71 | keeping one more document keeps a similar one similar |
| UtilsDeduplicator.DeduplicatedSnoc | src/utils/deduplicator.py:43-75 | the outer loop's state after one more document is one more step |
| UtilsDeduplicator.FindSimilar | src/utils/deduplicator.py:55-71 | the inner loop, breaking at the first similar kept name, reports exactly whether any kept name is similar enough |
| UtilsDeduplicator.Deduplicate | src/utils/deduplicator.py:27-81 | the loop returns exactly the documents the specified pass keeps; no documents give none |
| UtilsDeduplicator.DedupKeys | src/utils/deduplicator.py:73-75 | the seen names are the normalised names of the kept documents, one each |
| UtilsDeduplicator.DedupSubsequence | src/utils/deduplicator.py:43-81 | the output keeps input documents unchanged and in their order |
| UtilsDeduplicator.DedupKeepsFirst | src/utils/deduplicator.py:43-75 | the first document is always kept, even one without a name |
| UtilsDeduplicator.DedupDistinct | src/utils/deduplicator.py:49-52 | no two kept documents share a normalised name |
| UtilsDeduplicator.DedupNotSimilar | src/utils/deduplicator.py:54-74 | every kept name is less similar than the threshold to every name kept before it |
| UtilsDeduplicator.DedupCovers | src/utils/deduplicator.py:43-75 | every input document was kept, or dropped because its name was seen or is similar to a kept one |
| UtilsDeduplicator.FirstWithKey | src/utils/deduplicator.py:49-52 | the position found is the first document with that normalised name |
| UtilsDeduplicator.FirstWithKeySnoc | src/utils/deduplicator.py:49-52 | appending a document moves the first position only when the name was absent |
| UtilsDeduplicator.DedupFirstWins | src/utils/deduplicator.py:49-52 | of all documents with one normalised name, the first one is the one kept |
| Analyzer.JsonSlice | src/analyzer.py:140-147 | extraction fails, with the message of the source, exactly when there is no '{' or the last '}' comes before it; otherwise the slice starts with '{' and ends with '}' |
| Analyzer.JsonSliceCut | src/analyzer.py:140-144 | the slice is the answer with a prefix free of '{' and a suffix free of '}' removed |
| Analyzer.CutBetween | src/analyzer.py:140-144 | cutting where the first opening and the last closing character sit leaves a prefix and a suffix without them |
| Analyzer.AnalyzeAnswer | src/analyzer.py:139-153 | the analysis succeeds exactly when a slice is found and it decodes, and then returns the decoded value |
| Analyzer.AnalyzeBareObject | src/analyzer.py:140-145 | an answer that is one JSON object with no braces inside or around is decoded whole |
| Analyzer.AnyRelatedIff | src/analyzer.py:186 | the `any(...)` test holds exactly when some description contains the name or is contained in it |
| Analyzer.Normalized | src/analyzer.py:173 | each description lower-cased, in order |
| Analyzer.Tally | src/analyzer.py:177-200 | every mandatory requirement is matched or listed as critical; every requirement lands in exactly one of the three lists |
| Analyzer.FindRelated | src/analyzer.py:186 | the generator, stopping at the first related description, reports exactly whether any is related |
| Analyzer.VerifyDocuments | src/analyzer.py:155-208 | the loop yields exactly the specified verification |
| Analyzer.TallySnoc | src/analyzer.py:177-200 | one more requirement is one more step of the loop body |
| Analyzer.ProvidedDocsSnoc | src/analyzer.py:188-193 | a matched requirement appends its id and name to the provided list |
| Analyzer.MissingIdsSnoc | src/analyzer.py:196-200 | an unmatched requirement appends its id to the list of its mandatory flag |
| Analyzer.MandatoryCountSnoc | src/analyzer.py:182-183 | a mandatory requirement adds one to the total |
| Analyzer.TallyLists | src/analyzer.py:177-200 | the provided list holds the matched requirements, the critical list the unmatched mandatory ones and the optional list the unmatched optional ones, each in input order; the total counts the mandatory requirements |
| Analyzer.VerifiedLists | src/analyzer.py:155-208 | the three lists are the input filtered by match and mandatory flag, and together as long as the input |
| Analyzer.VerifiedScore | src/analyzer.py:202-206 | the score lies in 0..100 and is 100 exactly when no mandatory requirement is missing |
| Analyzer.TallyScore | src/analyzer.py:202-206 | the same for any matching test |
| Analyzer.NoMandatoryScore | src/analyzer.py:205-206 | with no mandatory requirement the score is 100 |
| Analyzer.MandatoryNone | src/analyzer.py:182-183 | with no mandatory requirement the total is 0 |
| Analyzer.OptionalKeepsScore | src/analyzer.py:182-206 | an optional requirement never changes the score, matched or not |
| Analyzer.EmptyNameProvided | src/analyzer.py:178-186 | a requirement named "" counts as provided as soon as any description is supplied |
| Analyzer.ProvidedIgnoresCase | src/analyzer.py:173-178 | matching ignores the case of the name |
| BackendAnalyzer.NormalizeName | backend/analyzer.py:210-211 | a normalised name is lower-case with single blanks as its only whitespace, and is empty exactly when the name is all whitespace |
| BackendAnalyzer.NormalizeNameIgnoresCase | backend/analyzer.py:210 | lower-casing a name first does not change its normalised form |
| BackendAnalyzer.Candidate | backend/analyzer.py:206-214 | an entry the loop considers is a dict with a name that is non-empty once normalised |
| BackendAnalyzer.FindSimilarName | backend/analyzer.py:221-231 | the inner loop, breaking at the first similar key, reports exactly whether some key seen is more than 0.85 similar |
| BackendAnalyzer.DedupStepIs | backend/analyzer.py:205-236 | one turn either keeps the entry, recording its name, or leaves the state alone, as the loop's tests decide |
| BackendAnalyzer.DeduplicateDocuments | backend/analyzer.py:192-238 | the loop returns exactly the entries the specified pass keeps |
| BackendAnalyzer.DedupKeys | backend/analyzer.py:234-236 | the keys seen are the normalised names of the kept entries, one each, in order |
| BackendAnalyzer.DedupKeepsNamedDicts | backend/analyzer.py:206-214 | only dicts with a name that is non-empty once normalised are kept |
| BackendAnalyzer.DedupSubsequence | backend/analyzer.py:205-238 | the output keeps input entries unchanged and in their order |
| BackendAnalyzer.DedupDistinct | backend/analyzer.py:216-219 | no two kept entries share a normalised name |
| BackendAnalyzer.DedupNotSimilar | backend/analyzer.py:221-236 | every kept name is at most 0.85 similar to every name kept before it |
| BackendAnalyzer.ExplainedGrows | backend/analyzer.py:216-236 | a reason to drop a name stays a reason once more names are seen |
| BackendAnalyzer.DedupCovers | backend/analyzer.py:205-236 | every entry with a usable name was kept, or dropped for a kept name equal or more than 0.85 similar to its own |
| BackendAnalyzer.FirstWithKey | backend/analyzer.py:216-219 | the position found is the first entry with that normalised name |
| BackendAnalyzer.FirstWithKeySnoc | backend/analyzer.py:216-219 | appending an entry moves the first position only when the name was absent |
| BackendAnalyzer.DedupFirstWins | backend/analyzer.py:216-236 | of all entries with one normalised name, the first is the one kept, so case and whitespace variants collapse to their first occurrence |
| BackendAnalyzer.ContainsChar | backend/analyzer.py:376-381 | a line holding a key holds each of its characters, so the split at ":" is safe |
| BackendAnalyzer.AfterFirstColon | backend/analyzer.py:377-381 | the value after the first colon is shorter than the line |
| BackendAnalyzer.InfoUpdate | backend/analyzer.py:376-381 | the first of "Номер:", "Заказчик:", "Тип процедуры:" that occurs decides the one field set; the others are kept, and a line with none changes nothing |
| BackendAnalyzer.Cells | backend/analyzer.py:385 | one stripped cell per piece of the line split at `|` |
| BackendAnalyzer.TableLineHasTwoCells | backend/analyzer.py:384-386 | a line with a `|` splits into at least two cells, so the length test always passes |
| BackendAnalyzer.IsNumber | backend/analyzer.py:389 | `str.isdigit` for ASCII digits: a non-empty string of digits 0-9 |
| BackendAnalyzer.RowRecord | backend/analyzer.py:390-397 | an accepted row gives id doc_{n}, the name from the second cell, mandatory when there is no third cell or it contains "да", the format "Копия", no validity and the source "Не указано" when those cells are missing |
| BackendAnalyzer.RowOf | backend/analyzer.py:384-397 | a line gives a document exactly when it is a table line whose first cell, without "№", is a number; its id counts on from the documents already listed |
| BackendAnalyzer.RowEntries | backend/analyzer.py:384-397 | a line adds at most one document, numbered after those already listed |
| BackendAnalyzer.ScanOnce | backend/analyzer.py:372-404 | one turn of the loop applies the step and stops after a line holding the marker |
| BackendAnalyzer.LineStepParts | backend/analyzer.py:373-401 | the step on a stripped line updates the info and appends its row, if any |
| BackendAnalyzer.ParseTextOutput | backend/analyzer.py:358-409 | the loop returns exactly the specified parse of the lines |
| BackendAnalyzer.ScanStops | backend/analyzer.py:403-404 | nothing after the first stopping line is read |
| BackendAnalyzer.ParseStopsAtMarker | backend/analyzer.py:403-404 | text after the line holding "КОНЕЦ СПИСКА" does not change the parse |
| BackendAnalyzer.ScanRows | backend/analyzer.py:372-404 | the scan keeps the documents it started with and appends, for each position k, the row of one of the lines, numbered doc_{k+1} |
| BackendAnalyzer.LineStepAddsRows | backend/analyzer.py:373-401 | the line step appends the rows of its line and nothing else |
| BackendAnalyzer.RowEntryOf | backend/analyzer.py:389-397 | a document a line adds is that line's row record |
| BackendAnalyzer.ParsedText | backend/analyzer.py:358-409 | the scan of the lines from the empty parse; its documents are stated by ParsedRows and its end by ParseStopsAtMarker |
| BackendAnalyzer.ParsedRows | backend/analyzer.py:358-409 | every document of a text parse is the row of one of the lines, and they are numbered doc_1, doc_2, ... in order |
| BackendAnalyzer.FencedJsonAtStart | backend/analyzer.py:426 | a fenced json block at the start of the text is found, stripped, whatever follows |
| BackendAnalyzer.FencedJson | backend/analyzer.py:426-429 | the stripped text between the first "```json" and the next "```", if both occur; FencedJsonAtStart states a case |
| BackendAnalyzer.TruncatedJson | backend/analyzer.py:434-436 | the text up to and including its last `"}`, closed with `]}`, when `"}` occurs |
| BackendAnalyzer.Fallback | backend/analyzer.py:421-446 | text that decodes directly is the result, whatever JSON value it decodes to |
| BackendAnalyzer.ParseJsonOutput | backend/analyzer.py:411-446 | the chain raises no decode error, and text that decodes directly is the result, whatever JSON value it decodes to |
| BackendAnalyzer.AttemptList | backend/analyzer.py:421-440 | one to three attempts are made, the text itself first |
| BackendAnalyzer.FirstDecodedCons | backend/analyzer.py:421-440 | the first attempt that decodes wins |
| BackendAnalyzer.FirstDecoded | backend/analyzer.py:421-440 | the decoding of the first attempt the decoder accepts, if any |
| BackendAnalyzer.FallbackFirst | backend/analyzer.py:421-446 | the chain returns the decoding of the first of the text, the fenced block and the truncated text that decodes, else the empty analysis |
| BackendAnalyzer.ParseJsonOutputFirstAttempt | backend/analyzer.py:411-446 | the same, for the block and truncation found in the text |
| BackendAnalyzer.ParseOutput | backend/analyzer.py:116-124 | the text path always gives the dict of the text parser; the JSON path gives whatever the output decodes to directly, when it does |
| BackendAnalyzer.Capped | backend/analyzer.py:134-139 | at most 50 documents, the first ones, in order |
| BackendAnalyzer.Finish | backend/analyzer.py:128-145 | a completed analysis counts exactly its at most 50 documents and keeps the parse's info |
| BackendAnalyzer.AnalyzeDocumentation | backend/analyzer.py:87-169 | blank input gives the empty analysis; the analysis fails exactly when the text is not blank and either generation produced no output or the output decodes to JSON the analysis cannot read (not a dict, or `required_documents` null, a number or a boolean); "timeout" on a time-out and "analysis_failed" with the exception's message otherwise; a completed one counts its at most 50 documents |
| BackendAnalyzer.AnalyzedDocuments | backend/analyzer.py:116-145 | with output that parses to a readable dict, the analysis lists the first 50 documents of the deduplicated parse, in order, with the parse's info |
| BackendAnalyzer.TextPathCompletes | backend/analyzer.py:116-145 | on the text path generated output always gives a completed analysis |
| BackendAnalyzer.DedupPrefixShape | backend/analyzer.py:128-139 | any prefix of the deduplicated list holds only dicts with usable names, pairwise distinct once normalised |
| BackendAnalyzer.AnalyzedDocumentsShape | backend/analyzer.py:87-169 | whatever the outcome, `required_documents` lists at most 50 dicts with usable names, no two with the same normalised name |
| BackendAnalyzer.RequiredDocuments | backend/analyzer.py:128-169 | the `required_documents` of the returned dict: the documents of a completed analysis, and the empty list of an error dict |
| BackendDeduplication.DropPunctuation | src/backend/utils/deduplication.py:57 | only word characters, whitespace, '-' and '/' remain, nothing is added, and a string holding only those is unchanged |
| BackendDeduplication.SpaceRun | src/backend/utils/deduplication.py:61-64 | a greedy run of whitespace never goes past the end |
| BackendDeduplication.MatchAt | src/backend/utils/deduplication.py:61-64 | a match of a rule covers its first word and more, within the text |
| BackendDeduplication.NormalizeName | src/backend/utils/deduplication.py:37-70 | an empty name normalises to "" |
| BackendDeduplication.DropPunctuationNorm | src/backend/utils/deduplication.py:51-57 | dropping punctuation from a lower-case string with single blanks leaves only normal characters |
| BackendDeduplication.AllNormSuffix | src/backend/utils/deduplication.py:67-68 | a suffix of a normal string is normal |
| BackendDeduplication.AllNormConcat | src/backend/utils/deduplication.py:67-68 | joining normal strings gives a normal string |
| BackendDeduplication.SubNorm | src/backend/utils/deduplication.py:67-68 | a replacement rule keeps a normal string normal |
| BackendDeduplication.NormalizeNameChars | src/backend/utils/deduplication.py:37-70 | a normalised name is lower-case and holds only word characters, blanks, '-' and '/' |
| BackendDeduplication.CleanedNorm | src/backend/utils/deduplication.py:51-57 | the first stages leave only normal characters |
| BackendDeduplication.ReplacementsNorm | src/backend/utils/deduplication.py:60-65 | the four canonical forms are normal |
| BackendDeduplication.ReplacePhrasesNorm | src/backend/utils/deduplication.py:67-68 | the four rules in order keep a normal string normal and lower-case |
| BackendDeduplication.PhrasesWellFormed | src/backend/utils/deduplication.py:60-65 | no word of a rule is empty or starts with whitespace |
| BackendDeduplication.SpaceRunOne | src/backend/utils/deduplication.py:61-64 | one blank before a non-blank is a run of one |
| BackendDeduplication.StartsWithPrefix | src/backend/utils/deduplication.py:61-64 | a word begins a text that starts with it |
| BackendDeduplication.MatchSingleBlanks | src/backend/utils/deduplication.py:61-64 | a phrase written with single blanks matches in full |
| BackendDeduplication.PhraseCanonical | src/backend/utils/deduplication.py:60-68 | a phrase at a word boundary, written with single blanks, becomes its canonical form and the scan goes on after it |
| BackendDeduplication.SubAtMatch | src/backend/utils/deduplication.py:67-68 | where the rule matches, the match is replaced and the scan resumes after it |
| BackendDeduplication.ContainsTail | src/backend/utils/deduplication.py:67-68 | what the tail contains the text contains |
| BackendDeduplication.SubWithoutWord | src/backend/utils/deduplication.py:67-68 | text in which a rule's first word does not occur is left as it is |
| BackendDeduplication.SimilaritySymmetric | src/backend/utils/deduplication.py:73-94 | the coefficient does not depend on the order of its arguments |
| BackendDeduplication.Similarity | src/backend/utils/deduplication.py:73-94 | the Jaccard coefficient of the token sets, 0 when either name is empty; its bounds are stated by SimilarityBounds and its symmetry by SimilaritySymmetric |
| BackendDeduplication.IntersectionWithinUnion | src/backend/utils/deduplication.py:91-92 | the intersection is no larger than the union, and as large only for equal sets |
| BackendDeduplication.JaccardBounds | src/backend/utils/deduplication.py:90-94 | the Jaccard coefficient lies in [0, 1] and is 1 exactly for equal non-empty sets |
| BackendDeduplication.SimilarityBounds | src/backend/utils/deduplication.py:73-94 | the similarity lies in [0, 1] and is 1 exactly when both strings are non-empty with the same non-empty token set |
| BackendDeduplication.SelfSimilarity | src/backend/utils/deduplication.py:73-94 | a string with a token is fully similar to itself |
| BackendDeduplication.IsDuplicateSymmetric | src/backend/utils/deduplication.py:96-115 | the duplicate test does not depend on the order of the documents |
| BackendDeduplication.IsDuplicate | src/backend/utils/deduplication.py:96-115 | equal normalised names, or a similarity reaching the threshold; its symmetry is stated by IsDuplicateSymmetric |
| BackendDeduplication.SameTokensDuplicate | src/backend/utils/deduplication.py:96-115 | with a threshold of at most 1, names with the same non-empty token set are duplicates |
| BackendDeduplication.NamesAppend | src/backend/utils/deduplication.py:167-169 | accepting a document adds its name to the names seen |
| BackendDeduplication.NamesMember | src/backend/utils/deduplication.py:153-168 | a name is seen exactly when an accepted document has it |
| BackendDeduplication.StepConsistent | src/backend/utils/deduplication.py:146-169 | one step keeps the seen names equal to the accepted names, none empty, and no accepted document a duplicate of an earlier one |
| BackendDeduplication.StepShape | src/backend/utils/deduplication.py:146-169 | a step accepts the document or leaves the list alone |
| BackendDeduplication.Consumed | src/backend/utils/deduplication.py:136-144 | the loop looks at no more documents than there are |
| BackendDeduplication.RunGrows | src/backend/utils/deduplication.py:136-169 | nothing accepted is evicted, and the cap of 50 is never exceeded |
| BackendDeduplication.Run | src/backend/utils/deduplication.py:136-169 | the pass over the documents up to the cap; what it keeps is stated by RunSubsequence, RunConsistent, RunAccounting and RunTruncation |
| BackendDeduplication.RunSubsequence | src/backend/utils/deduplication.py:136-169 | what the pass accepts is a subsequence of the input in order |
| BackendDeduplication.RunConsistent | src/backend/utils/deduplication.py:136-169 | the whole pass keeps the accepted list consistent |
| BackendDeduplication.RunAccounting | src/backend/utils/deduplication.py:136-169 | every document looked at is accepted, counted as a duplicate or skipped for its empty name |
| BackendDeduplication.RunTruncation | src/backend/utils/deduplication.py:137-144 | the flag is set exactly when a document is reached with the cap full; the list is then full and later documents change nothing |
| BackendDeduplication.Renumbered | src/backend/utils/deduplication.py:172-173 | each accepted document gets the id doc_{k} of its position k, counting from 1, and nothing else changes |
| BackendDeduplication.FindSimilar | src/backend/utils/deduplication.py:159-165 | the inner loop reports exactly whether the document is a duplicate of some accepted one |
| BackendDeduplication.DeduplicationLoop | src/backend/utils/deduplication.py:136-169 | the loop yields exactly the specified pass, counters included |
| BackendDeduplication.Renumber | src/backend/utils/deduplication.py:172-173 | the renumbering loop yields exactly the renumbered list |
| BackendDeduplication.Deduplicator.constructor | src/backend/utils/deduplication.py:23-34 | the threshold as given and all statistics zero |
| BackendDeduplication.Deduplicator.Deduplicate | src/backend/utils/deduplication.py:117-186 | the input count is set; an analysis without documents comes back as it is; otherwise its list becomes the accepted documents renumbered, the removed count and the truncation flag carry on from earlier calls, and a copy of the statistics is attached |
| BackendDeduplication.DuplicateTestSymmetric | src/backend/utils/deduplication.py:96-115 | the duplicate test of any threshold is symmetric |
| BackendDeduplication.ConsistentPairs | src/backend/utils/deduplication.py:136-169 | a consistent list with a symmetric test has no duplicate pair in either order |
| BackendDeduplication.DeduplicatedShape | src/backend/utils/deduplication.py:117-186 | the documents kept are a subsequence of the input, at most 50, none with an empty name, no two with the same name or duplicates of each other |
| BackendDeduplication.FixIncompleteJson | src/backend/utils/deduplication.py:189-228 | well-formed input comes back unchanged; the result is "" or well-formed; without `"},` a broken input gives ""; a repair cuts after the last `"}`, closes the list when "required_documents" occurs and appends the fixed fields |
| BackendDeduplication.RepairKeepsCompleteDocument | src/backend/utils/deduplication.py:207-218 | a repair keeps the input up to and including the last complete document |
| Control.Template | src/control.py:135-188 | each stage's checklist is its fixed list of items, of the stated length |
| Control.FirstWithId | src/control.py:117-118 | the index of the first item with the id, or -1 when no item has it |
| Control.UpdateItems | src/control.py:109-127 | only the first item with the id changes; with no such item nothing changes |
| Control.UpdateFirstMatch | src/control.py:109-127 | checking marks the first item with the id as checked by the user with the comment; unchecking clears its mark, user and time |
| Control.MarkIfMonotone | src/control.py:256-262 | automatic marking never unchecks an item, never changes an item with another id and keeps every id in place |
| Control.Unchecked | src/control.py:326 | exactly the unchecked items are kept |
| Control.CountChecked | src/control.py:102 | no more items are checked than there are |
| Control.Completion | src/control.py:98-103 | the completion lies in [0, 100] and is 100 exactly when every item is checked |
| Control.PercentBounds | src/control.py:102 | a share of checked items, as a percentage, lies in [0, 100] and reaches 100 only for all of them |
| Control.FlagsMeaning | src/control.py:204-238 | the format flag holds iff every file is found; the size flag iff no found file exceeds 50 MiB; the validity flag iff no found file is expired |
| Control.ResolveCases | src/control.py:248-253 | a stage fails iff a blocker was found, warns iff a critical issue and no blocker, and passes otherwise |
| Control.HasSeverityAppend | src/control.py:248-253 | an issue of a severity is in two lists together iff it is in one of them |
| Control.DocIssuesSeverities | src/control.py:209-236 | a document gives a blocker iff it is found and expired, and a critical issue iff it is missing |
| Control.DocsIssuesSeverities | src/control.py:208-236 | the documents give a blocker iff one found document is expired, and a critical issue iff one is missing |
| Control.AutomaticOutcome | src/control.py:190-254 | the automatic stage fails iff documents are short or one is expired, warns iff otherwise some file is missing, and passes otherwise; oversize files alone leave it passed |
| Control.AutoItemsMonotone | src/control.py:238-243 | an automatic check never unchecks an item, keeps ids in place and leaves alone items it does not mark (auto_07 among them) |
| Control.MarkFlagsMonotone | src/control.py:238-243 | marking by the flags never unchecks and leaves unmarked ids alone |
| Control.MarkIfKeeps | src/control.py:256-262 | marking an automatic id keeps every other item and every checked item |
| Control.KeepsTrans | src/control.py:238-243 | keeping items carries over through successive markings |
| Control.FirstWithIdSameIds | src/control.py:258-260 | lists with the same ids in the same places find the same first item |
| Control.MarkIfGrows | src/control.py:256-262 | marking keeps the ids and never unchecks |
| Control.MarkedStays | src/control.py:256-262 | an item marked checked stays checked through later markings |
| Control.GrowsTrans | src/control.py:238-243 | never-unchecking composes |
| Control.MarkedThenGrown | src/control.py:238-243 | an item marked at one step is still checked at the end |
| Control.AutoAlwaysMarked | src/control.py:241-243 | after an automatic check the items auto_05, auto_06 and auto_08 are checked |
| Control.ManualOutcome | src/control.py:320-465 | a manual stage keeps its checklist, is pending with one info issue iff some item is unchecked, and passes with no issue otherwise |
| Control.ManualNeverFails | src/control.py:320-345 | a legal, financial or final check never fails: its critical_failed branch cannot be reached |
| Control.CheckSpec | src/control.py:190-465 | the `check` of each stage kind; that the manual ones never fail is stated by ManualNeverFails |
| Control.Overall | src/control.py:575-582 | the overall status is passed or one of the stage statuses, and is the worst of them in the order failed, warning, pending, passed |
| Control.Statuses | src/control.py:576-582 | one status per stage result, in order |
| Control.ChecklistItem.constructor | src/control.py:27-39 | a new item has the given fields |
| Control.ChecklistItem.MarkChecked | src/control.py:41-46 | the item becomes checked by the user, at the time, with the comment |
| Control.ChecklistItem.Uncheck | src/control.py:123-125 | the item is unchecked and loses its user and time, keeping its comment |
| Control.NewItems | src/control.py:135-188 | one fresh, distinct object per item view, each with that view |
| Control.ControlStage.Items | src/control.py:105-107 | the checklist as values, one per item in order |
| Control.ControlStage.constructor | src/control.py:73-79 | a new stage is pending, without issues or check time, with its fixed checklist as fresh objects |
| Control.ControlStage.FindItem | src/control.py:117-118 | the loop finds the first item with the id |
| Control.ControlStage.UpdateChecklistItem | src/control.py:109-127 | reports whether an item has the id, and updates exactly the first such item |
| Control.ControlStage.MarkChecklistItem | src/control.py:256-262 | marks the first item with the id when the flag is set and otherwise changes nothing |
| Control.ControlStage.Check | src/control.py:190-465 | the stage's new state is its kind's check applied to its old state |
| Control.ControlStage.CheckAutomatic | src/control.py:190-254 | the automatic check marks the items by the flags, records the issues found, resolves the status from them and stamps the time |
| Control.ControlStage.MarkAutomatic | src/control.py:238-243 | the checklist is marked by the flags in the fixed order |
| Control.ControlStage.CheckManual | src/control.py:320-465 | a manual check sets the state its specification gives |
| Control.FilterStage | src/control.py:504-509 | without a stage name (or with an empty one) every entry; otherwise exactly the entries of that stage |
| Control.StageNames | src/control.py:521-522 | the stage name of each entry in order |
| Control.Actions | src/control.py:521-523 | the action of each entry in order |
| Control.StatisticsCounts | src/control.py:511-530 | per-stage and per-action counts add up to the number of entries and count exactly the matching entries |
| Control.StatisticsStep | src/control.py:515-523 | one more entry adds its minutes to the total and one to its stage and to its action |
| Control.ControlHistory.constructor | src/control.py:472-475 | a new history is empty |
| Control.ControlHistory.AddEntry | src/control.py:477-502 | the new entry carries the given fields and an id from the stamp, and is appended at the end |
| Control.ControlHistory.GetStatistics | src/control.py:511-530 | the loop yields the statistics of the entries: zero entries alone, or the totals, average and tallies |
| Control.MultiStageController.States | src/control.py:543-550 | the four stage states in order |
| Control.MultiStageController.constructor | src/control.py:543-550 | four fresh stages, automatic, legal, financial and final, in their initial state, and an empty history |
| Control.MultiStageController.CheckStage | src/control.py:556-557 | checks stage i and no other |
| Control.MultiStageController.RunStage | src/control.py:555-557 | checks stage i and no other, leaving the history alone |
| Control.MultiStageController.Log | src/control.py:560-568 | appends one entry and changes no stage |
| Control.MultiStageController.ExecuteFullControl | src/control.py:552-589 | stages and history become those of the specified run; the overall status is the worst of the results; the report stamps the time and counts the history |
| Control.MultiStageController.SetStatus | src/control.py:641-676 | only the status of stage i changes |
| Control.MultiStageController.UpdateItem | src/control.py:606-607 | only the checklist of stage i changes, as the stage update specifies |
| Control.MultiStageController.UpdateChecklistItem | src/control.py:597-623 | succeeds iff the index is valid and the stage has an item with the id; updates only that stage's checklist; logs a checklist_update entry with unchanged status exactly on success |
| Control.MultiStageController.ApproveStage | src/control.py:625-659 | succeeds iff the index is valid and no critical item is unchecked; then the stage passes and an approve entry is logged; otherwise nothing changes |
| Control.MultiStageController.RejectStage | src/control.py:661-685 | succeeds iff the index is valid; then the stage fails and a reject entry is logged; otherwise nothing changes |
| Control.UpdateAt | src/control.py:552-589 | a state list equal to another except at i is that list updated at i |
| Control.RunLoopStep | src/control.py:554-573 | one turn of the loop checks the stage, records its result and logs a check entry, and stops when the stage fails |
| Control.RunLoop | src/control.py:554-573 | the loop of `execute_full_control` from one stage on; one turn is stated by RunLoopStep and whole runs by LoopToEnd and FullRunStops |
| Control.LoopToEnd | src/control.py:554-573 | when no stage fails the loop checks every remaining stage from its own state |
| Control.ResultsAt | src/control.py:558 | the k-th collected result is that of stage i + k |
| Control.EntriesAt | src/control.py:560-568 | the k-th logged entry is the check entry of stage i + k |
| Control.ChecksFromAgree | src/control.py:554-573 | the remaining results and entries depend only on the remaining stages |
| Control.LoopToEndResults | src/control.py:558 | a loop that runs to the end collects one result per remaining stage |
| Control.LoopToEndEntries | src/control.py:560-568 | a loop that runs to the end logs one entry per remaining stage |
| Control.ManualStagesPass | src/control.py:320-465 | no manual stage check fails |
| Control.NoStageFails | src/control.py:570-572 | when the automatic stage does not fail, no stage stops the loop |
| Control.FullRunStops | src/control.py:570-572 | when the automatic stage fails, only it is checked, with one result and one check entry |
| Control.FullRunCompletes | src/control.py:554-573 | when the automatic stage does not fail, every stage is checked once from its own state |
| Control.FullRunResults | src/control.py:558 | ... and result j is stage j's |
| Control.FullRunEntries | src/control.py:560-568 | ... and entry j is stage j's check entry, with its status before and after |
| Control.ScanStep | src/control.py:208-236 | one more document adds its issues and its flags |
| Control.AutomaticFindings | src/control.py:193-236 | the loop finds exactly the specified issues and flags |
| Control.ScanDocument | src/control.py:209-236 | a missing file gives one critical issue and clears the format flag; a found one is checked for size and expiry |
| Control.ScanDocuments | src/control.py:208-236 | the loop over the documents yields exactly the specified issues and flags |
| Percentages.FloorPercent | src/package_builder.py:62 | the truncated percentage of a part of a non-empty whole is at most 100, and 100 only for the whole |
| Percentages.QuotientBounds | src/analyzer.py:204 | the floor of part * 100 / total is at most 100, and 100 only when part equals total |
| Percentages.ExactPercentRange | src/package_manifest.py:190-193 | the exact share of a part lies in [0, 100] and is 100 only for the whole |
| Percentages.Fraction | src/readiness_report.py:138-140 | a count over a non-empty total lies in [0, 1], at 0 exactly for none and at 1 exactly for all |

## Left out

- Analyzer.VerifiedScore: the score is the exact floor of matched * 100 / total. The source computes `int(matched / total * 100)` in floating point, which can come out one lower: for 29 of 50 Python gives 57, the model 58.
- PackageBuilder.CompletenessOf: the same floor model of `int(matched / total * 100)`, with the same divergence from floating point.
- Analyzer.VerifyDocuments: a requirement always has a name. The source raises `KeyError` when a requirement without "name" is matched; that error path is not modelled.
- Control.Completion: the checklist completion is the exact percentage. The source rounds it to one decimal.
- Control.ControlHistory.GetStatistics: the average time per entry is exact. The source rounds it to one decimal.
- PackageManifest.MetricsMeaning: the completeness percentage is exact. The source rounds it to one decimal.
- ReadinessReport.ReadinessMeaning: the completeness percentage is exact. The source rounds it to one decimal before the status and advice read it, so a value that rounds to 0.0 or 100.0 is not modelled.
- TemplateLibrary.Library.SearchTemplate: confidences are exact. The source tests the threshold on the exact value but stores and sorts the value rounded to two decimals. Templates whose confidences differ only beyond two decimals keep input order in the source; the model orders them by the exact value.
- Reports.RejectionRateMeaning: the rejection rate is an exact rational rather than a float.
- TemplateLibrary.Library.GetStatistics: leaves out the size in megabytes rounded to two decimals and the catalogue path.
- TemplateLibrary.IndexOfTemplates: with duplicate template ids, the later template overwrites the earlier one while the key keeps its first place. The lemmas about the index assume distinct ids that look like no index key (`NoClash`).
- Ranking.TopSorted: the sort is stable by construction (ties are inserted behind equals), but stability is not stated as a lemma.
- Character classes: `str.lower` is modelled for ASCII and Cyrillic letters only, and `\w` as ASCII letters, digits, `_` and the basic Cyrillic block; other Unicode letters are not modelled.
- Clocks, uuids and generated ids are parameters, one reading per operation. `get_expiring_documents` reads the clock twice in the source; the model uses one instant.
- `difflib.SequenceMatcher.ratio` is an uninterpreted function into [0, 1]; no symmetry is assumed.
- `json.loads` and `datetime.fromisoformat` are parameters, so JSON well-formedness and date parsing are not modelled.
- Aliasing with caller data is not modelled. `set_requisites` stamps the dict it was given, `add_document` stamps the caller's document, and `deduplicate` rewrites the ids of the input dicts in place. The model returns the new values instead.
- Language-model calls, prompts, generation parameters and the SIGALRM timeout are left out. A generation outcome (text, timeout or error) is an input. Also left out are `get_anti_loop_generation_params` and `get_anti_loop_prompt_addition`, which only return constants and prompt text.
- The file system, exporting and archiving are left out: `ControlHistory.save`, the manifest exports (JSON, CSV, XLSX), `create_package_structure`, `copy_files_to_package`, `create_zip_archive`, `build_complete_package` and `build_package`. Whether a file exists and its size are per-document inputs.
- `ReadinessReport.generate_report` is not modelled as a whole; its parts are. Also left out: `export_report`, the HTML rendering and the status descriptions.
- Template library: `scan_catalog`, `copy_template` and the file hashing are left out. The scanned templates are an input.
- Forms extraction: the regular-expression scans are inputs (the matches they give). These are `extract_forms`, `_split_into_sections`, `_extract_form_text`, `_extract_tables`, `_match_with_template`, the signature and date patterns, and `FIELD_PATTERNS` and `FORM_PATTERNS`. Removing a form number with `re.sub` is a parameter.
- Reports: `generate_timing_report`, `generate_analytics_dashboard` and `export_to_json` are left out. Procurement records are dictionaries of strings, so non-string values are not modelled.
- Backend analyzer: the mock output and document names that are not strings are not modelled.
- BackendAnalyzer.RowOf: `str.isdigit` is modelled as the ASCII digits 0-9 (`IsNumber`). Python also accepts other Unicode digits, such as '²' or the full-width '１', so a row numbered with them gives a document in the source and none in the model.
- BackendAnalyzer.IsNumber: ASCII digits only, as in the line above.
- A `"mandatory"` value that is JSON null or not a boolean is not representable: the flag is an optional boolean whose absence means mandatory (`GetOr(true)`). In the source `req.get("mandatory", True)` returns such a value as it is, and null, 0 or "" make the item optional. This concerns Analyzer.IsMandatory, PackageBuilder.IsMandatory, PackageManifest.IsMandatory and the backend analyzer's records.
- File-format parsers, the cache manager, the LLM clients and the HTTP layer are not part of this model.
