# Find a Grave memorial scraper, modelled in Dafny

`scrape_memorial.py` fetches one Find a Grave memorial page and builds a
one-row spreadsheet from it. This project models the part of the script that
is logic rather than library glue, and proves its properties:

- **Step 3, isolating the object literal.** The script element chosen is the
  first one whose text declares `var\s+findagrave\s*=`. The regular
  expression `var\s+findagrave\s*=\s*({.*?});\s*var\s+htmlSnippets` (DOTALL)
  captures the literal from that text. The captured literal is then wrapped
  into the code handed to the JavaScript evaluator. `ScriptExtraction` has a
  hand-written matcher (`DeclEnd`, `TerminatorAt`, `MatchAt`, `Search`). It
  is proved equal to a declarative reading of the pattern (`DeclSpec`,
  `TerminatorSpec`, `RegexMatch`), where `re.search` gives the leftmost start
  and, at that start, the shortest group. This step has two distinct errors:
  `Missing` (no script declares the variable) and `NotExtracted` (the
  declaring script has no match).
- **Step 4, the `main_fields` literal** (`FieldNormalizer`). Its 27 keys come
  in a fixed order. `full_name` is the cleaned name. Every other key copies
  one named field of the evaluated payload.
- **Steps 5 to 7, in-place completion of the record.**
  - `Assembly.MemorialRecord` is the insertion-ordered dict. Its `Set` method
    is `main_fields[key] = v`.
  - The methods `ExtractBiography`, `ExtractPlot`, `ExtractInscription` and
    `ExtractFamily` update it key by key. Each is proved against a step
    function on the record's value.
  - The page's markup is given by what each lookup finds (`MarkupSections.Page`).
    From there the model fixes the `""` defaults and the `", "` join of the
    family links. `CollectFamily` is the loop that fills `family_links`.
- **Step 10, the projection** (`Records.Drop`). The four internal columns are
  dropped. Absent columns are ignored. Everything else is kept, unchanged and
  in order.

`Assembly.Scrape` runs steps 3 to 10 with the evaluator and the name cleaning
given as functions. Its result is the output row or the reason the script
stops.

Keys are the `Columns.Column` enumeration, and `Columns.Name` gives each
key's column header. A record (`Records.Row`) is its keys in insertion order
together with a value for each key, which matches how a Python dict and
`pd.DataFrame([d])` order columns.

A failure in step 4 leaves no partial record. The literal is then never
bound to `main_fields`:
- step 5's `NameError` is caught and logged;
- the handler of step 5.1 assigns `main_fields["Plot"]` again
  (`scrape_memorial.py:108`), and that raises a `NameError` nobody catches.

So nothing is written, and the model gives `MainFieldsFailed` for this case.
Step 4 fails when the payload's `fullName` is not a string, because it cannot
be parsed as markup. It also fails when the markup parser rejects the string;
the name cleaning is a given partial function whose None stands for that
rejection.

## Model

| member | source | states |
|---|---|---|
| Columns.Name | scrape_memorial.py:58-133 | the string key each column is stored under in `main_fields`, which is also its header in the written table |
| Columns.NameInjective | scrape_memorial.py:58-133 | distinct columns have distinct string keys, so the enumeration merges no two keys of the dict |
| ScriptExtraction.SkipSpaces | scrape_memorial.py:38 | a greedy `\s*` ends a whitespace run at a non-whitespace character or at the end |
| ScriptExtraction.SpaceRunIsGreedy | scrape_memorial.py:38 | a whitespace run followed by a non-whitespace character is the only way `\s*` can match there |
| ScriptExtraction.DeclEndMatchesSpec | scrape_memorial.py:33 | the anchored scan for `var\s+findagrave\s*=` ends at q exactly when the pattern, with any split of its runs, matches s[p..q] |
| ScriptExtraction.DeclaresIsDecided | scrape_memorial.py:33 | the scan over every start accepts a script text exactly when `re.compile(r"var\s+findagrave\s*=")` occurs in it |
| ScriptExtraction.TerminatorAtMatchesSpec | scrape_memorial.py:38 | the terminator check accepts position i exactly when `;\s*var\s+htmlSnippets` matches there |
| ScriptExtraction.FirstClose | scrape_memorial.py:38 | finds the first `}` at or after a position that the terminator follows, and reports none only when there is no such `}` |
| ScriptExtraction.RegexMatchIsFound | scrape_memorial.py:38 | every match anchored at p is found by the matcher, with the same opening brace and a closing brace no later than its own |
| ScriptExtraction.MatchAtIsShortestMatch | scrape_memorial.py:38 | the anchored matcher fails only where no match starts, and otherwise returns a real match whose group is the shortest |
| ScriptExtraction.FirstFound | scrape_memorial.py:38 | returns the first present entry at or after p, with all earlier entries absent, and returns none only when all of them are absent |
| ScriptExtraction.SearchIsLeftmost | scrape_memorial.py:38 | the search stops at the first start where the anchored matcher succeeds |
| ScriptExtraction.SearchFailsIffNoMatch | scrape_memorial.py:38-40 | the search fails exactly when the pattern matches at no start |
| ScriptExtraction.SearchIsReSearch | scrape_memorial.py:38-40 | the search fails exactly when there is no match, and otherwise returns the leftmost start and, there, the shortest group |
| ScriptExtraction.SearchResultUnique | scrape_memorial.py:38 | there is at most one leftmost-shortest result |
| ScriptExtraction.SearchFindsResult | scrape_memorial.py:38 | the search returns exactly the leftmost-shortest result whenever one exists |
| ScriptExtraction.IsSpace | scrape_memorial.py:38 | `\s` of a Python str pattern: the characters for which `str.isspace()` holds; used by SkipSpaces and SpaceRunIsGreedy |
| ScriptExtraction.DeclEnd | scrape_memorial.py:33 | the anchored matcher for `var\s+findagrave\s*=`; its meaning is DeclEndMatchesSpec |
| ScriptExtraction.DeclaresFrom | scrape_memorial.py:33 | `re.search` of the declaration pattern from a start onwards; its meaning is DeclaresIsDecided |
| ScriptExtraction.TerminatorAt | scrape_memorial.py:38 | the matcher for `;\s*var\s+htmlSnippets`; its meaning is TerminatorAtMatchesSpec |
| ScriptExtraction.CloseAt | scrape_memorial.py:38 | a `}` where the lazy group may stop, because the terminator follows it; the other side of FirstClose |
| ScriptExtraction.MatchAt | scrape_memorial.py:38 | the whole pattern anchored at one start; its meaning is RegexMatchIsFound and MatchAtIsShortestMatch |
| ScriptExtraction.Anchored | scrape_memorial.py:38 | the anchored attempts `re.search` makes at every start from 0 to the length of the text; its meaning is SearchIsLeftmost and SearchIsReSearch |
| ScriptExtraction.Search | scrape_memorial.py:38 | `re.search` with DOTALL; the group it reports lies inside the text; its meaning is SearchIsReSearch and SearchFindsResult |
| ScriptExtraction.FirstDeclaringFrom | scrape_memorial.py:33 | `soup.find("script", string=...)`: the index it returns holds a script text; its meaning is FirstDeclaringFromSpec |
| ScriptExtraction.Captured | scrape_memorial.py:33-40 | `match.group(1)` on the script found, or `Missing` or `NotExtracted`; its meaning is CapturedIsSearchedGroup and CapturedShape |
| ScriptExtraction.JsCode | scrape_memorial.py:33-42 | the code step 3 hands to the evaluator, or the error; its meaning is MissingIffNoScriptDeclares, NotExtractedIffNoMatch and SnippetWrapsSearchedLiteral |
| ScriptExtraction.EvalSnippet | scrape_memorial.py:42 | `"var findagrave = " + literal + "; findagrave;"`, used by SnippetWrapsSearchedLiteral |
| ScriptExtraction.FirstDeclaringFromSpec | scrape_memorial.py:33 | the script scan returns the first script whose text declares the variable, or none when none does |
| ScriptExtraction.MissingIffNoScriptDeclares | scrape_memorial.py:33-35 | the error is `Missing` exactly when no script element declares the variable |
| ScriptExtraction.FirstDeclaringIsFound | scrape_memorial.py:33 | the scan returns the element `soup.find` returns |
| ScriptExtraction.NotExtractedIffNoMatch | scrape_memorial.py:37-40 | with the declaring script found, the error is `NotExtracted` exactly when the pattern matches nowhere in its text |
| ScriptExtraction.CapturedIsSearchedGroup | scrape_memorial.py:33-38 | given the `re.search` result on the first declaring script, the capture is exactly `match.group(1)` |
| ScriptExtraction.SnippetWrapsSearchedLiteral | scrape_memorial.py:42 | the evaluated code is exactly `var findagrave = ` + group + `; findagrave;` |
| ScriptExtraction.SearchResultIsShortestLiteral | scrape_memorial.py:38 | the group starts with `{` and ends with `}`, is followed by `;\s*var\s+htmlSnippets`, and no earlier `}` inside it is followed by that terminator |
| ScriptExtraction.CapturedShape | scrape_memorial.py:33-40 | any capture comes from the first declaring script and is the group of the `re.search` result on its text |
| ScriptExtraction.SnippetShape | scrape_memorial.py:33-42 | any code produced wraps the group of the `re.search` result on the first declaring script |
| FieldNormalizer.Field | scrape_memorial.py:59-84 | attribute access `data.x` on the evaluated object, None for a missing field; used by MainFieldsTable |
| FieldNormalizer.CopyInto | scrape_memorial.py:59-84 | evaluating the copied entries of the literal left to right keeps the record well formed and its keys present; its meaning is CopyIntoColumns, CopyIntoKeeps and CopyIntoValue |
| FieldNormalizer.MainFields | scrape_memorial.py:57-85 | the `main_fields` literal for a cleaned name is a well-formed record; its content is MainFieldsTable |
| FieldNormalizer.NormalizeFields | scrape_memorial.py:49-87 | step 4 as a whole gives a well-formed record when it succeeds; its outcome is NormalizeFieldsOutcome |
| FieldNormalizer.MainKeysDistinct | scrape_memorial.py:57-85 | the literal's 27 keys are distinct, so by Columns.NameInjective its 27 string keys are too |
| FieldNormalizer.TableLengths | scrape_memorial.py:57-85 | the renaming table has 27 entries on both sides |
| FieldNormalizer.CopyIntoColumns | scrape_memorial.py:59-84 | evaluating copied entries with fresh, distinct keys appends those keys in order |
| FieldNormalizer.CopyIntoKeeps | scrape_memorial.py:59-84 | copying leaves every key that is not copied again unchanged |
| FieldNormalizer.CopyIntoValue | scrape_memorial.py:59-84 | each copied key holds its payload field |
| FieldNormalizer.TableRecord | scrape_memorial.py:57-85 | a literal with a computed first entry and copied other entries, whose keys are distinct, gives those keys in order, with the computed value first and the payload fields after it |
| FieldNormalizer.MainFieldsTable | scrape_memorial.py:57-85 | `main_fields` has exactly the 27 keys in order; `full_name` is the cleaned name; every other key holds its named payload field unchanged, with a missing field read as None |
| FieldNormalizer.RenamedFields | scrape_memorial.py:58-84 | sample renamings: `full_name`←`fullName`, `cemetery_city`←`cemeteryCityName`, `memorial_url`←`linkToShare`, `cemetery_id`←`memorialCemeteryId` |
| FieldNormalizer.NormalizeFieldsOutcome | scrape_memorial.py:49-87 | step 4 fails exactly when `fullName` is not a string or the cleaning rejects it, and otherwise gives the `main_fields` literal for the cleaned name, whose content MainFieldsTable states |
| MarkupSections.BiographyText | scrape_memorial.py:91-92 | the value of `biography`; its defaults are MarkupDefaults |
| MarkupSections.BioByText | scrape_memorial.py:94-98 | the value of `bio_by`; its defaults are MarkupDefaults |
| MarkupSections.PlotText | scrape_memorial.py:104-105 | the value of `Plot`; its defaults are MarkupDefaults |
| MarkupSections.InscriptionText | scrape_memorial.py:112-113 | the value of `inscription`; its defaults are MarkupDefaults |
| MarkupSections.RelationLinks | scrape_memorial.py:120-127 | one category's link texts, [] without the section or the block; the specification that CollectFamily meets |
| MarkupSections.Join | scrape_memorial.py:130-132 | `", ".join`; its meaning is JoinAppend, and SplitJoin shows it loses nothing |
| MarkupSections.NextSep | scrape_memorial.py:130-132 | finds the first `", "` at or after a position, or reports the end when there is none |
| MarkupSections.Split | scrape_memorial.py:130-132 | `str.split(", ")`, the inverse SplitJoin relates the join to |
| MarkupSections.MarkupDefaults | scrape_memorial.py:91-113 | `biography`, `Plot` and `inscription` are the found text, or `""` without their element; `bio_by` is the link text, or `""` without the paragraph or without its link |
| MarkupSections.CollectFamily | scrape_memorial.py:119-127 | `family_links` keeps exactly its three keys, and each holds that category's link texts in document order, or [] without the section or its block |
| MarkupSections.JoinAppend | scrape_memorial.py:130-132 | `", ".join` adds the separator and then the next part, left to right |
| MarkupSections.NextSepIs | scrape_memorial.py:130-132 | the separator scan finds the first `", "` |
| MarkupSections.NextSepAfterPart | scrape_memorial.py:130-132 | in a join, the first separator comes right after the first part when that part has no `", "` in it |
| MarkupSections.SplitJoin | scrape_memorial.py:130-132 | splitting the joined links on `", "` gives back the links in order when none contains `", "`, so the join loses neither links nor order |
| Records.Put | scrape_memorial.py:92 | `d[key] = v` stores v under key and leaves every other key and its value alone; a new key goes last and an existing key keeps its place |
| Records.Without | scrape_memorial.py:141 | the kept keys are exactly those that are not dropped |
| Records.WithoutAppend | scrape_memorial.py:141 | filtering keeps the relative order of the kept keys |
| Records.WithoutKeepsDistinct | scrape_memorial.py:141 | filtering keeps the columns distinct |
| Records.WithoutAbsent | scrape_memorial.py:141 | filtering out keys that are not present changes nothing |
| Records.WithoutAll | scrape_memorial.py:141 | filtering out every key leaves no column |
| Records.WithoutOnlyPresent | scrape_memorial.py:141 | only the dropped keys that are present affect the filter |
| Records.Drop | scrape_memorial.py:139-141 | the frame keeps the record's keys in order minus the dropped ones, with values unchanged |
| Records.DropIgnoresAbsentKeys | scrape_memorial.py:141 | `errors='ignore'`: naming absent columns drops nothing more |
| Records.DropIsIdempotent | scrape_memorial.py:141 | dropping the same columns twice is dropping them once |
| Assembly.MemorialRecord.constructor | scrape_memorial.py:57 | binding `main_fields` to the literal's record |
| Assembly.MemorialRecord.Set | scrape_memorial.py:92 | `main_fields[key] = v` changes the record as Put does |
| Assembly.BiographyStep | scrape_memorial.py:89-98 | step 5 keeps the record well formed |
| Assembly.PlotStep | scrape_memorial.py:103-105 | step 5.1 keeps the record well formed |
| Assembly.InscriptionStep | scrape_memorial.py:111-113 | step 6 keeps the record well formed |
| Assembly.FamilyStep | scrape_memorial.py:129-133 | step 7 keeps the record well formed |
| Assembly.Assembled | scrape_memorial.py:89-135 | steps 5 to 7 keep the record well formed |
| Assembly.ExtractBiography | scrape_memorial.py:90-98 | the in-place updates of step 5 give the record of the step function, with the record still well formed |
| Assembly.ExtractPlot | scrape_memorial.py:104-105 | the in-place update of step 5.1 gives the step function's record |
| Assembly.ExtractInscription | scrape_memorial.py:112-113 | the in-place update of step 6 gives the step function's record |
| Assembly.ExtractFamily | scrape_memorial.py:118-133 | the loop and the `update` of step 7 give the step function's record |
| Assembly.FromPayload | scrape_memorial.py:43-141 | steps 4 to 10 once the evaluator has answered; its outcomes are PayloadOutcomes, and its output is OutputColumns, OutputFullName, OutputMarkupCells and OutputCopiedCells |
| Assembly.ScrapeResult | scrape_memorial.py:32-141 | steps 3 to 10; its outcomes are MissingReported, NotExtractedReported and ScrapeEvaluatesSnippet, and Scrape computes it in place |
| Assembly.Scrape | scrape_memorial.py:32-141 | the in-place run from step 3 to step 10 returns exactly the functional result or error |
| Assembly.MissingReported | scrape_memorial.py:33-35 | the run stops with `Missing` exactly when no script declares the variable |
| Assembly.NotExtractedReported | scrape_memorial.py:37-40 | the run stops with `NotExtracted` exactly when the declaring script has no match |
| Assembly.ScrapeEvaluatesSnippet | scrape_memorial.py:42-43 | once the literal is found, the evaluator receives exactly its snippet, and the evaluator's answer decides the rest |
| Assembly.PayloadOutcomes | scrape_memorial.py:43-87 | a rejected snippet is a JS parsing failure; step 4 fails exactly when `fullName` is not a string or its markup is rejected |
| Assembly.BiographyStepForm | scrape_memorial.py:92-98 | on a record without the keys, step 5 appends `biography` and then `bio_by` with their texts |
| Assembly.FamilyStepForm | scrape_memorial.py:129-133 | on a record without the keys, step 7 appends the three family keys in the literal's order with the joined links |
| Assembly.AssembledForm | scrape_memorial.py:89-135 | steps 5 to 7 on the record of step 4 append the seven keys in order with their values |
| Assembly.AssembledColumns | scrape_memorial.py:89-135 | steps 5 to 7 append their keys, in order, after the record's own keys |
| Assembly.AssembledMarkupCells | scrape_memorial.py:92-113 | steps 5, 5.1 and 6 store the four markup texts |
| Assembly.AssembledFamilyCells | scrape_memorial.py:129-133 | step 7 stores each category's links joined with `", "` |
| Assembly.AssembledKeeps | scrape_memorial.py:89-135 | steps 5 to 7 leave every key of step 4 unchanged |
| Assembly.StepKeysFresh | scrape_memorial.py:57-133 | no key added by steps 5 to 7 is a key of the step-4 literal, and by Columns.NameInjective no such string key either |
| Assembly.MainKeysKept | scrape_memorial.py:140 | none of the literal's keys is dropped |
| Assembly.StepKeysProjected | scrape_memorial.py:140-141 | of the keys added by steps 5 to 7, exactly `inscription` and the three family keys are dropped |
| Assembly.MainFieldsLackStepKeys | scrape_memorial.py:57-85 | the step-4 record has none of the later keys |
| Assembly.OutputColumns | scrape_memorial.py:139-141 | the output columns are the 27 table keys followed by `biography`, `bio_by` and `Plot`, with no dropped column left |
| Assembly.KeptNotDropped | scrape_memorial.py:140 | `full_name`, `biography`, `bio_by` and `Plot` are not dropped |
| Assembly.OutputFullName | scrape_memorial.py:55-58 | the output `full_name` is the cleaned name |
| Assembly.OutputMarkupCells | scrape_memorial.py:92-105 | the output `biography`, `bio_by` and `Plot` are the texts found, with their defaults |
| Assembly.OutputCopiedCells | scrape_memorial.py:59-84 | every other output column holds its payload field, unchanged |

## Left out

- Fetching the page with `requests` and the `SystemExit` on failure (`scrape_memorial.py:17-26`) are network I/O. The model starts from the page.
- HTML parsing and every BeautifulSoup query (`find`, `find_all`, `get_text(strip=True)`, `.string`) are library semantics (`scrape_memorial.py:29, 33, 91-127`). A page is given by what each lookup finds (`MarkupSections.Page`); `soup.find("script", string=...)` is modelled as the pattern test on each script's `.string`.
- Removing `span.prefix` from the full name (`scrape_memorial.py:52-55`) is markup handling. The name cleaning is a partial function parameter: None means BeautifulSoup raised on the markup. Nothing is proved about what the cleaning keeps.
- `js2py.eval_js` (`scrape_memorial.py:43`) is a foreign interpreter. It is a function parameter from code to an optional payload; None means it raised. A payload's values are scalars (strings, numbers, booleans, None); nested objects are not modelled.
- Writing the spreadsheet with pandas and xlsxwriter (`scrape_memorial.py:143-147`) and the error log `log_error` (`scrape_memorial.py:13-15`) are file I/O. The model returns the row that would be written.
- Only the exit at `scrape_memorial.py:46` is modelled, as `JsParsingFailed`; the exits at 26 and 150 belong to the fetch and the save, which are left out.
- No partial record is recovered after a step-4 failure. The run ends in `MainFieldsFailed`, because the code crashes at `scrape_memorial.py:108`.
- Exceptions inside steps 5 to 7 other than the unbound `main_fields` are not modelled. With the lookups given as values, those steps cannot fail.
- `\s` is the fixed set of characters for which Python's `str.isspace()` holds. Unicode database versions are not modelled.
- Column headers are the `Column` enumeration with `Columns.Name` as each key's header, not arbitrary strings. The dict `family_links` keeps string keys.
- The header strings of the written row are not stated as one list; OutputColumns states the row's keys, and `Columns.Name` gives each key's header.
