# Weekly-lights dashboard: report store, upload list and department view

This project models the three pieces of sequential logic inside the
LiquiDonate weekly-lights dashboard (a React single-page app) and proves what
they do.

- **The report store** (`DataContext`) holds the uploaded report records in
  upload order. `ReportStore` appends and removes them by id. Two read-outs
  are computed from it:
  - the six headline metric cards, a left fold over the records with a fixed
    baseline for the empty store and three hard-coded placeholder cards;
  - a department's weekly entries, filtered by a lower-cased key and mapped
    to entries, or null when no record holds anything under that key. A key
    naming a member every object inherits ("constructor", "__proto__") is
    truthy on every record, so it lists every record with empty lists.
- **The upload panel** (`PdfUpload`) keeps the list of uploaded files.
  `HandleFileUpload` enters each PDF of a batch as "processing".
  `CompleteProcessing` is what the simulated processing timer does.
  `RemoveFile` removes by id.
- **The period scanner** (`TimePeriod`) reads the reporting period from a
  file name. It finds the leftmost substring of the shape
  `<word> <day>, <year> - <word> <day>, <year>`, or it returns
  "Unknown period".
  - The pattern's meaning as a regular language is `Matches`.
  - The position-by-position greedy matcher `Greedy` is proved sound and
    complete against it.
  - So `ExtractTimePeriod` is proved to return the leftmost, longest match,
    which is what the JavaScript engine returns.
- **The department page** (`DepartmentView`) turns the department name into
  a key and looks the key up in its sample table, which only has "ops" and
  "bd". Because the table is a plain object, the keys "constructor" and
  "__proto__" find a member every object inherits instead of nothing. It also keeps the list of expanded weekly updates (`ExpandedWeeks`).

Two shared modules model the JavaScript built-ins the code relies on:

- `Lists`: `filter`, and removal by key.
- `Text`: `toLowerCase`, `indexOf`, the first-occurrence `replace` of a
  string pattern, and `String(n)`.

The model follows the code where the code is surprising:

- The department key loses only its first space.
- The report slot `businessDev` can never be reached through a lower-cased key.
- On the department page, no label of the dashboard's department list finds
  sample data. "Business Development" loses its space before the
  "business development" to "bd" replacement is tried, so it becomes
  "businessdevelopment".

## Model

| member | source | states |
|---|---|---|
| DataContext.ReportStore.constructor | src/context/DataContext.tsx:80 | The store starts with no records. |
| DataContext.ReportStore.AddPdfData | src/context/DataContext.tsx:82-84 | The new list is the old list followed by the record; earlier records are unchanged and in order. |
| DataContext.ReportStore.RemovePdfData | src/context/DataContext.tsx:86-88 | The new list keeps exactly the old records whose id differs, in their order. |
| Lists.RemoveAll | src/context/DataContext.tsx:87 | A record survives removal exactly when it was present and its id differs, and the list never grows. |
| Lists.Filter | src/context/DataContext.tsx:130 | The filter keeps exactly the elements satisfying the predicate, and the list never grows. |
| Lists.FilterConcat | src/context/DataContext.tsx:87 | Filtering a concatenation filters each part, so the relative order of survivors is kept. |
| Lists.RemoveAllConcat | src/context/DataContext.tsx:87 | Removal by id distributes over concatenation. |
| Lists.RemoveAllAbsent | src/context/DataContext.tsx:87 | Removing an id that no record carries leaves the list unchanged. |
| Lists.RemoveAllIdempotent | src/context/DataContext.tsx:87 | Removing the same id twice is the same as removing it once. |
| Lists.RemoveAllUndoesAppend | src/context/DataContext.tsx:82-88 | Appending an entry with a fresh key and then removing that key restores the list. |
| DataContext.AddThenRemoveRestores | src/context/DataContext.tsx:82-88 | Adding a record with a new id, then removing that id, gives back the old store. |
| DataContext.RemoveKeepsSurroundings | src/context/DataContext.tsx:86-88 | Removing an id passes the id-free records before and after the affected block through unchanged and in place. |
| DataContext.Contribution | src/context/DataContext.tsx:105-107 | A figure contributes its value when it is present and non-zero, and 0 otherwise (JavaScript truthiness of a number). |
| DataContext.Step | src/context/DataContext.tsx:104-108 | One step of the fold adds each record's three contributions to the running sums and leaves the three fixed figures alone. |
| DataContext.Reduce | src/context/DataContext.tsx:103-116 | The left fold from the first record to the last, starting from 0, 0, 0, 67, 23, 89. |
| DataContext.AggregatedMetrics | src/context/DataContext.tsx:90-126 | The fixed baseline for the empty store; otherwise the three folded sums rendered symbolically, the literal "67%", "23" and "89%", and the six fixed annotations. |
| DataContext.ReduceSums | src/context/DataContext.tsx:103-116 | The fold adds to each of the three summed figures its sum over all records (present, non-zero values only), and leaves the other three figures at their start values. |
| DataContext.SumOfAppend | src/context/DataContext.tsx:103-107 | Appending a record adds its own present, non-zero figure to each sum; an absent figure adds 0. |
| DataContext.SumOfSwap | src/context/DataContext.tsx:103-116 | The sums do not depend on the order in which two records were added. |
| DataContext.SummedCards | src/context/DataContext.tsx:103-121 | With at least one record, the items, FMV and revenue cards show the sums over all records. |
| DataContext.Baseline | src/context/DataContext.tsx:92-99 | The figures of the empty store: "125,430", "$2.4M", "$340K", "67%", "23", "89%", with changes 12.5, 8.3, -15.2, 5.8, 2 and -3.1. |
| DataContext.EmptyStoreShowsBaseline | src/context/DataContext.tsx:91-95 | The empty store shows "125,430", "$2.4M" and "$340K". |
| DataContext.PlaceholdersAreFixed | src/context/DataContext.tsx:90-125 | The progress, retailers and reach cards are always "67%", "23" and "89%", whatever the store holds. |
| DataContext.AnnotationsAreFixed | src/context/DataContext.tsx:90-125 | Every card's change and trend are 12.5 up, 8.3 up, -15.2 down, 5.8 up, 2 up and -3.1 down, in both branches. |
| Text.DecimalString | src/context/DataContext.tsx:122-124 | `String(n)` is non-empty, all decimal digits, and has no leading zero. |
| Text.DecimalRoundTrip | src/context/DataContext.tsx:122-124 | Reading back the decimal rendering of n gives n. |
| Text.LowerChar | src/context/DataContext.tsx:129 | A lower-cased character is never upper case; A to Z move by 32 and every other character stays as it is. |
| Text.ToLower | src/context/DataContext.tsx:129 | `toLowerCase` keeps the length, lowers each character in place, and leaves no upper-case letter. |
| Text.IndexOfFrom | src/context/DataContext.tsx:129 | Scanning from a position finds the first occurrence at or after it, or reports that there is none. |
| Text.IndexOf | src/context/DataContext.tsx:129 | `indexOf` returns the first position where the pattern occurs, or none exactly when it occurs nowhere. |
| Text.ReplaceFirst | src/context/DataContext.tsx:129 | `replace` introduces no character that is in neither the string nor the replacement. |
| Text.ReplaceFirstAbsent | src/context/DataContext.tsx:129 | Without an occurrence, `replace` returns the string unchanged. |
| Text.ReplaceFirstAt | src/context/DataContext.tsx:129 | With an occurrence, exactly the first one is replaced. |
| Text.ReplaceFirstCharAt | src/context/DataContext.tsx:129 | Replacing a character replaces its first occurrence only. |
| Text.ReplaceFirstMissingChar | src/components/DepartmentView.tsx:72 | A pattern holding a character the string lacks is not replaced. |
| Text.DeleteOnlyChar | src/context/DataContext.tsx:129 | Deleting the first space of a name with at most one space leaves no space. |
| DataContext.DepartmentKey | src/context/DataContext.tsx:129 | The lower-cased name with its first space removed. |
| DataContext.SectionFor | src/context/DataContext.tsx:130 | The section a record holds under one of the four slot names; any other key finds none. |
| Text.IsInheritedKey | src/context/DataContext.tsx:130 | The lower-case keys "constructor" and "__proto__", which name members every object inherits. |
| DataContext.Holds | src/context/DataContext.tsx:130 | `pdf.departmentData[key]` is truthy: the record fills the slot, or the key names an inherited member. |
| DataContext.EntryFor | src/context/DataContext.tsx:136-142 | A record's entry: its period as the week, its upload date, and the section's three lists, each empty (the `|| []` fallback) when there is no section, as for an inherited member. |
| DataContext.GetDepartmentData | src/context/DataContext.tsx:128-143 | Null when no record holds anything under the key; otherwise the entries of those records, in store order. |
| DataContext.DepartmentDataSpec | src/context/DataContext.tsx:128-143 | The read-out is null exactly when no record holds anything under the key (a section or an inherited member). Otherwise it is one entry per such record, in store order, with its period, date and lists. |
| DataContext.MapEntries | src/context/DataContext.tsx:136-142 | The `.map` over the kept records: one entry per record, position by position. |
| DataContext.MapEntriesFilter | src/context/DataContext.tsx:130-142 | Filtering then mapping equals the record-by-record reference definition of the entries. |
| DataContext.EntriesForEmpty | src/context/DataContext.tsx:130-134 | There are no entries exactly when no record holds anything under the key. |
| DataContext.EntriesForAppend | src/context/DataContext.tsx:128-143 | A newly added record contributes its entry at the end of the read-out, if it holds anything under the key. |
| DataContext.NoUpperInKey | src/context/DataContext.tsx:129 | The key holds no upper-case letter. |
| DataContext.DepartmentKeyNotBusinessDev | src/context/DataContext.tsx:129 | No department name yields the key "businessDev". |
| DataContext.BusinessDevUnreachable | src/context/DataContext.tsx:28-37 | A store whose records hold only business-development sections reads out null for every name whose key is not an inherited member, and empty lists for the rest. |
| DataContext.InheritedKeyListsEveryRecord | src/context/DataContext.tsx:128-143 | A key naming an inherited member reads out null exactly for the empty store, and otherwise one entry per record, in order, with its period, date and empty lists. |
| DataContext.ConstructorKeyIsInherited | src/context/DataContext.tsx:129-130 | The name "Constructor" keys as "constructor", an inherited member. |
| TimePeriod.IsJsWhitespace | src/components/PdfUpload.tsx:23 | The ECMAScript WhiteSpace and LineTerminator code points, the members of `\s`. |
| TimePeriod.InClass | src/components/PdfUpload.tsx:23 | Membership in `\w` (ASCII letters, digits and `_`), `\d` (ASCII digits) and `\s`. |
| TimePeriod.PeriodPattern | src/components/PdfUpload.tsx:23 | The regular expression as a list of fifteen tokens: `\w+ \s+ \d+ , \s+ \d+ \s+ - \s+` and then the first six again. |
| TimePeriod.PeriodMatch | src/components/PdfUpload.tsx:24 | `filename.match(datePattern)`: the start and end of the match, if any, and both lie within the name. |
| TimePeriod.Matches | src/components/PdfUpload.tsx:23 | The regular language of the token list: which slices of a string the pattern accepts. |
| TimePeriod.Greedy | src/components/PdfUpload.tsx:23-24 | The matcher that gives each `+` its longest run; the end of the match, if any, lies within the string. |
| TimePeriod.FindFrom | src/components/PdfUpload.tsx:24 | The scan for the first start position, from left to right, where the greedy matcher succeeds; the result is a slice of the name. |
| TimePeriod.ExtractTimePeriod | src/components/PdfUpload.tsx:21-26 | The slice the scan finds, or "Unknown period". |
| TimePeriod.RunEnd | src/components/PdfUpload.tsx:23 | The run of a `+` ends after the longest stretch of the class's characters. |
| TimePeriod.GreedySound | src/components/PdfUpload.tsx:23-24 | Whatever the greedy matcher finds matches the pattern. |
| TimePeriod.MatchStartsWithFirstToken | src/components/PdfUpload.tsx:23 | A match of a non-empty pattern is non-empty and starts with a character its first token accepts. |
| TimePeriod.GreedyComplete | src/components/PdfUpload.tsx:23-24 | Where any match starts, the greedy matcher succeeds and ends no earlier than it. |
| TimePeriod.PeriodPatternWellFormed | src/components/PdfUpload.tsx:23 | In the period pattern, each `+` run is followed by a token whose first character it cannot contain. |
| TimePeriod.FindFromLeftmostLongest | src/components/PdfUpload.tsx:24 | The scan returns the leftmost match and, from that start, the longest; when it returns nothing, nothing matches. |
| TimePeriod.ExtractTimePeriodLeftmostLongest | src/components/PdfUpload.tsx:21-26 | The returned period is the leftmost matching slice of the name, ending as late as a match from there can. |
| TimePeriod.ExtractTimePeriodUnknown | src/components/PdfUpload.tsx:23-25 | "Unknown period" is returned exactly when no slice of the name matches. |
| TimePeriod.PeriodIsNotFallback | src/components/PdfUpload.tsx:23-25 | A found period is a match, and it differs from "Unknown period". |
| TimePeriod.NoPeriodMeansNoMatch | src/components/PdfUpload.tsx:23-25 | When the scan finds nothing, no slice of the name matches. |
| TimePeriod.MatchContainsLiteral | src/components/PdfUpload.tsx:23 | Every match contains each literal of the pattern. |
| TimePeriod.MatchIsNotText | src/components/PdfUpload.tsx:23-25 | A match differs from any text lacking one of the pattern's literals. |
| TimePeriod.NameWithoutCommaHasNoPeriod | src/components/PdfUpload.tsx:23-25 | A name without a comma yields "Unknown period". |
| TimePeriod.ExtractFromDecoratedName | src/components/PdfUpload.tsx:21-26 | A period written piece by piece after a digit-free prefix is extracted exactly. |
| TimePeriod.ExtractDates | src/components/PdfUpload.tsx:21-26 | A name `<prefix><m1> <d1>, <y1> - <m2> <d2>, <y2><rest>` yields exactly the period, for any digit-free prefix ending outside a word and any rest not continuing the year. |
| TimePeriod.ExtractFromExampleName | src/components/PdfUpload.tsx:22 | "[COMPANY LIGHTS] June 14, 2025 - June 20, 2025" yields "June 14, 2025 - June 20, 2025". |
| TimePeriod.ExtractFromNameWithExtension | src/components/PdfUpload.tsx:96 | "[X] June 14, 2025 - June 20, 2025.pdf" yields "June 14, 2025 - June 20, 2025". |
| TimePeriod.ExtractFromNameWithoutPeriod | src/components/PdfUpload.tsx:25 | "report.pdf" yields "Unknown period". |
| PdfUpload.UploadPanel.constructor | src/components/PdfUpload.tsx:17 | The panel starts with no files. |
| PdfUpload.UploadPanel.HandleFileUpload | src/components/PdfUpload.tsx:28-43 | No file list leaves the panel unchanged. Otherwise the panel's list becomes the old list followed by the batch's entries, and no entry is in the error state. |
| PdfUpload.NewUpload | src/components/PdfUpload.tsx:33-40 | The entry for a file: the stamp's id and date, the file's name and size, the period extracted from the name, status "processing". |
| PdfUpload.Admitted | src/components/PdfUpload.tsx:31-42 | The entries of a batch: one per file whose type is exactly "application/pdf", in batch order. |
| PdfUpload.AdmittedFromPdfs | src/components/PdfUpload.tsx:31-40 | Each new entry comes from a PDF file of the batch, with status "processing" and the period extracted from its name. |
| PdfUpload.AdmittedKeepsPdfs | src/components/PdfUpload.tsx:31-42 | Every PDF file of the batch gets its entry. |
| PdfUpload.AdmittedNoPdf | src/components/PdfUpload.tsx:32 | A batch without PDF files adds nothing. |
| PdfUpload.AdmittedConcat | src/components/PdfUpload.tsx:31-42 | Entries are added in batch order: two batches in a row give the first batch's entries, then the second's. |
| PdfUpload.UploadPanel.CompleteProcessing | src/components/PdfUpload.tsx:45-53 | The timer's update replaces the list by its completed version and keeps every entry out of the error state. |
| PdfUpload.CompleteIf | src/components/PdfUpload.tsx:47-51 | An entry with the id gets status "completed"; any other entry is returned as it is. |
| PdfUpload.CompletedById | src/components/PdfUpload.tsx:46-52 | Completion keeps the length of the list. |
| PdfUpload.CompletedOnlyChangesStatus | src/components/PdfUpload.tsx:46-52 | Completion marks the entries with the id "completed" and changes no other entry and no other field. |
| PdfUpload.CompletedIdempotent | src/components/PdfUpload.tsx:46-52 | Completing twice is the same as completing once. |
| PdfUpload.CompletedConcat | src/components/PdfUpload.tsx:46-52 | Completion works entry by entry over a concatenation. |
| PdfUpload.CompletedAbsent | src/components/PdfUpload.tsx:46-52 | Completing an id no entry has changes nothing. |
| PdfUpload.CompletedKeepsNoErrors | src/components/PdfUpload.tsx:46-52 | Completion never puts an entry in the error state. |
| PdfUpload.UploadPanel.RemoveFile | src/components/PdfUpload.tsx:74-76 | The list keeps exactly the entries whose id differs, in their order. |
| PdfUpload.CompleteRemoveCommute | src/components/PdfUpload.tsx:45-76 | Completion and removal commute. |
| PdfUpload.CompleteAfterRemoveIsNoop | src/components/PdfUpload.tsx:45-76 | A timer that fires after its entry was removed changes nothing. |
| PdfUpload.RemoveUndoesUpload | src/components/PdfUpload.tsx:42-75 | Removing a freshly added entry restores the list it was added to. |
| DepartmentView.DepartmentKey | src/components/DepartmentView.tsx:72 | Lower case, then the first space removed, then the first "business development" replaced by "bd". |
| DepartmentView.MockDataFor | src/components/DepartmentView.tsx:30-67 | The sample table: "ops" and "bd" find their tables, "constructor" and "__proto__" find an inherited member, and every other key finds nothing. |
| DepartmentView.DataFor | src/components/DepartmentView.tsx:73 | The lookup of the name's key in the sample table. |
| DepartmentView.DataForSpec | src/components/DepartmentView.tsx:72-81 | Data is found exactly when the key is "ops" or "bd", and it is that key's sample table. An inherited member is found exactly for the keys "constructor" and "__proto__". Every other key gets the no-data page. |
| DepartmentView.ToLowerSpaces | src/components/DepartmentView.tsx:72 | Lower-casing keeps every space where it is and creates none. |
| DepartmentView.OneSpaceKey | src/components/DepartmentView.tsx:72 | For a name with at most one space, the "business development" replacement never applies, and the key has no space. |
| DepartmentView.NoSpaceKey | src/components/DepartmentView.tsx:72 | A name without spaces keys as its lower-cased self. |
| DepartmentView.BusinessDevelopmentKey | src/components/DepartmentView.tsx:72-81 | "Business Development" keys as "businessdevelopment" and finds no data. |
| DepartmentView.OneWordLabelsHaveNoData | src/components/DepartmentView.tsx:72-81 | "Operations", "Marketing" and "Product" key as their lower-cased selves and find no data. |
| DepartmentView.LeadingSpaceReachesBd | src/components/DepartmentView.tsx:72-73 | " Business Development" loses its leading space, so the inner one survives, the key becomes "bd" and the bd table is found. |
| DepartmentView.InheritedNamesAreNotMissing | src/components/DepartmentView.tsx:72-81 | "Constructor" and "__proto__" key as "constructor" and "__proto__", whose lookup finds an inherited member, so the page does not show its no-data text. |
| DepartmentView.Toggled | src/components/DepartmentView.tsx:83-89 | A listed week is removed with all its copies, the rest in order; an unlisted week is appended. |
| DepartmentView.ToggledMembership | src/components/DepartmentView.tsx:83-89 | Toggling flips whether the week is listed and leaves every other week's membership as it was. |
| DepartmentView.ToggleTwiceRestores | src/components/DepartmentView.tsx:83-89 | Toggling an unlisted week twice gives back the list exactly. |
| DepartmentView.ToggleTwiceMovesToEnd | src/components/DepartmentView.tsx:83-89 | Toggling a listed week twice removes its copies and puts it once at the end. |
| DepartmentView.ToggledDistinct | src/components/DepartmentView.tsx:83-89 | Toggling keeps the list free of repeats. |
| Lists.FilterKeepsNone | src/context/DataContext.tsx:130-134 | A filter that keeps nothing returns the empty list. |
| Lists.FilterKeepsAll | src/components/DepartmentView.tsx:86 | A filter that rejects nothing returns its input. |
| Lists.FilterDistinct | src/components/DepartmentView.tsx:86 | Filtering a list without repeats gives a list without repeats. |
| DepartmentView.ExpandedWeeks.constructor | src/components/DepartmentView.tsx:70 | The page opens with exactly `InitialExpandedWeeks`, the list ["Week 23"], expanded. |
| DepartmentView.ExpandedWeeks.ToggleWeek | src/components/DepartmentView.tsx:83-89 | A listed week is removed (every copy, the others in order). An unlisted week is appended. The list stays free of repeats. |
| DepartmentView.FirstWeekExpanded | src/components/DepartmentView.tsx:37-70 | The initial list of expanded weeks that the constructor installs holds exactly the first weekly update of both sample tables. |

## Left out

- Rendering: JSX, CSS classes, icons, the drag-and-drop and file-input
  handlers, and the React context plumbing (`createContext`, the provider,
  and the error thrown by `useData` outside one).
- The clock and the random source. An entry's id and its locale date come
  with each file as a `Stamp` parameter.
- The two-second delay of the processing timer. Its effect is the separate
  `CompleteProcessing` call, made with the entry's id.
- Locale and floating-point formatting. `toLocaleString` and the `toFixed`
  scaling of the FMV and revenue sums are kept symbolic as
  `Formatted(format, amount)`. `formatFileSize`, `getProgressColor` and the
  progress-bar widths are left out.
- Metric values are integers. Fractions, `NaN` and negative-zero inputs are
  not modelled; `Contribution` treats only 0 and an absent value as falsy.
  JavaScript numbers are doubles, so a sum above 2^53 would be rounded
  there; here every sum is exact.
- Text.LowerChar / Text.ToLower: only A to Z are lower-cased. JavaScript's
  full Unicode case mapping is not modelled.
- DepartmentView.MockDataFor / DataForSpec: an inherited member found for the
  key "constructor" or "__proto__" is the result `Inherited`. The page then
  renders it and fails when it maps over its missing OKR list. That failure
  and the rendering are not modelled further.
- Text.IsInheritedKey: only the inherited members whose names are all lower
  case ("constructor", "__proto__") are modelled, since a lower-cased key
  can spell no other. Their contents are not modelled; the read-out uses
  only their truthiness and the empty-list fallbacks.
- Text extraction from the PDF and the parsing of metrics and department
  sections from that text. The upload panel only simulates processing, so
  no extractor is part of this model.
- The overview dashboard, the layout, the metric card and the dashboard's
  navigation are presentational. They are left out, except for the
  department labels, which are used in the `DepartmentView` lemmas.
