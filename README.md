# Oil and gas filing scrapers, modelled in Dafny

This project models two web scrapers for state oil and gas regulators and
proves properties of them.

- `RccTexasScraper` (`webapps-rrc-texas.py`) searches the Texas Railroad
  Commission's completion-packet site for one filing operator and date range.
  It reads the packet links of the results grid and fetches the detail page of
  a record, which gives the operator name and the list of attachments. It then
  downloads every attachment to `downloads/<api-no>/<operator-name>/<form>`.
  A numeric suffix taken from the attachment URL tells apart attachments that
  share a name, and an existing file is skipped.
- `OcdImageScraper` (`scraper.py`) posts the ASP.NET criteria form of the New
  Mexico OCD imaging site for compulsory-pooling cases filed after a date. It
  follows the `Next` postback links through all result pages, collects one
  record per anchor of the result list, and writes the records as CSV rows.

The parsed HTML is given as the element lists the scrapers' selectors return
(`Html`). HTTP is a function from request to parsed page (`Http`). A Python
exception that the scrapers' own code raises (a missing key, an attribute of
None, an index out of range, a `format` error) is an `Err` carrying a
`PyError` (`Wrappers`), so each of those error paths is a result the model can
state facts about. Exceptions from the transport or the file system are not
modelled.

Each scraper has two layers:

- A pure specification: `RrcNaming`, `RrcRewrite`, `RrcDownload` and
  `RrcExtract` for the Texas scraper; `OcdPostBack` and `OcdExtract` for the
  New Mexico one. `FormState`, `Collect` and `Text` are shared.
- Classes whose methods run the source's loops and in-place updates, and are
  proved to agree with that specification: `RrcScraper` and `OcdScraper`. The
  Texas scraper object overwrites its `search_params`. `get_record_details`
  mutates a record dict, which is modelled as class `Record`. The download loop
  writes to a `Disk`.

Behaviour of the code as written that the model keeps, and proves:

- `get_records` of the Texas scraper reads only the first results page.
- `scrape` fetches details for the first record only. A run with two or more
  records therefore fails, because the second record has no `operator-name`
  (`Scrape`, `NoDetailsNoDownload`).
- `submit_search` formats the template stored in `self.search_params` and
  writes the result back. A second search on the same object therefore sends
  the first search's criteria (`SecondSearchRepeatsFirst`).
- `goto_next_page` deletes `btnReturn` before it looks for `Next`. A page
  without that button is therefore an error even when it is the last page.

## Model

| member | source | states |
|---|---|---|
| Text.StripSpec | webapps-rrc-texas.py:99 | `str.strip()` keeps a contiguous middle part of its input: everything removed on either side is white space, and the result neither starts nor ends with white space |
| FormState.HarvestKeys | webapps-rrc-texas.py:136-146 | after the harvesting loop the dict's keys are the keys it had before plus exactly the names of the controls the loop stores |
| FormState.HarvestUntouched | scraper.py:48-54 | a key that no stored control carries keeps its presence and its value |
| FormState.HarvestLastWins | scraper.py:48-54 | of several stored controls with the same name, the last one's value is in the dict |
| Collect.FirstFailure | webapps-rrc-texas.py:177-186 | the index of the first element whose conversion raises: all earlier elements convert, and that one fails |
| Collect.CollectAllSpec | webapps-rrc-texas.py:177-186 | an append loop that stops at the first exception leaves what it had before, then one converted item per element before the failure, in order, and ends with that failure's error or with success |
| Collect.CollectAllPasses | webapps-rrc-texas.py:107-116 | such a loop gets through the whole list exactly when every element converts, and then it has appended one item per element |
| Collect.CollectAllAcc | scraper.py:94-112 | what was already collected is carried along untouched: starting from a non-empty list is starting from an empty one and putting that list in front |
| Collect.Filter | webapps-rrc-texas.py:177 | a selector keeps only elements that satisfy its condition, and keeps every such element |
| Collect.FilterAppend | webapps-rrc-texas.py:177 | selection keeps document order: selecting from two consecutive parts in turn is selecting from the whole |
| Collect.FilterOne | webapps-rrc-texas.py:107 | a single element is kept exactly when it satisfies the condition |
| RrcNaming.TrailingDigits | webapps-rrc-texas.py:72 | the longest run of digits at the end of a string |
| RrcNaming.Core | webapps-rrc-texas.py:72 | `$` matches at the end of the URL or just before one final newline |
| RrcNaming.ExtractId | webapps-rrc-texas.py:72-73 | a captured id is a non-empty run of digits |
| RrcNaming.ExtractIdSound | webapps-rrc-texas.py:72-73 | a captured id is one the pattern `dpimages/r/(\d+)$` matches with that group |
| RrcNaming.ExtractIdComplete | webapps-rrc-texas.py:72-73 | whenever the pattern matches with a group, that group is captured |
| RrcNaming.ExtractIdMatches | webapps-rrc-texas.py:72-73 | capture and match are equivalent, in both directions |
| RrcNaming.FileNameCases | webapps-rrc-texas.py:75-78 | the file name is `name-<id><ext>` when the URL matches and `name<ext>` otherwise, where a missing extension renders as `None` |
| RrcNaming.DistinctIdsDistinctFileNames | webapps-rrc-texas.py:69-76 | two forms with the same name whose URLs end in different ids get different file names |
| RrcNaming.OtherExample | webapps-rrc-texas.py:76 | a form `Other` at `.../dpimages/r/4821` with extension `.pdf` is saved as `Other-4821.pdf` |
| RrcRewrite.SkipToQuerySplit | webapps-rrc-texas.py:183 | `[^?]*` consumes exactly the text before the first `?` |
| RrcRewrite.StripSessionRemovesAll | webapps-rrc-texas.py:183 | a rewritten href never contains `;jsessionid=` |
| RrcRewrite.StripSessionIdentity | webapps-rrc-texas.py:183 | an href without `;jsessionid=` passes through unchanged |
| RrcRewrite.StripSessionIdempotent | webapps-rrc-texas.py:183 | rewriting twice is rewriting once |
| RrcRewrite.StripSessionSegment | webapps-rrc-texas.py:183 | the first session segment is dropped up to the next `?` or the end, and the text before it is kept |
| RrcRewrite.FormatTemplate | webapps-rrc-texas.py:36 | formatting the initial template gives the criteria string: the from date in field 0, the to date in field 1, the operator in field 5, and `N` in fields 17, 18, 19 and 21, whatever the arguments |
| RrcRewrite.FormatBraceFree | webapps-rrc-texas.py:122 | `format` returns text without braces unchanged |
| RrcRewrite.FormatKeepsCriteria | webapps-rrc-texas.py:122 | formatting an already formatted criteria string (with brace-free first criteria) gives it back unchanged |
| RrcDownload.Paths | webapps-rrc-texas.py:65-80 | the paths the loop reaches are, in order, the targets of the forms before the first one whose response lacks `Content-Type` |
| RrcDownload.DistinctIdsDistinctTargets | webapps-rrc-texas.py:67-80 | two forms of the same name with different URL ids are saved to different paths |
| RrcDownload.DownloadOutcome | webapps-rrc-texas.py:65-67 | whether a run fails depends only on the forms, never on the disk or the flag, and it fails exactly when some form is not reached |
| RrcDownload.DownloadKeys | webapps-rrc-texas.py:80-88 | a run deletes nothing and creates nothing but the paths it reaches |
| RrcDownload.DownloadUntouched | webapps-rrc-texas.py:80-88 | a path that no reached form maps to keeps its contents, or stays absent |
| RrcDownload.CheckedKeepsExisting | webapps-rrc-texas.py:81-83 | with the check on, an existing file is never changed |
| RrcDownload.CheckedFirstWins | webapps-rrc-texas.py:81-88 | with the check on, of several forms mapping to one new path the first one's body is written |
| RrcDownload.UncheckedLastWins | webapps-rrc-texas.py:80-88 | with the check off, of several forms mapping to one path the last one's body is what the file holds |
| RrcDownload.CheckedSettled | webapps-rrc-texas.py:81-83 | with the check on and every reached path present, a run leaves the disk as it was |
| RrcDownload.CheckedIdempotent | webapps-rrc-texas.py:65-88 | with the check on, a second run over the same forms writes nothing and ends the same way |
| RrcDownload.Disk.Write | webapps-rrc-texas.py:86-88 | writing a path sets that path's contents and changes no other file |
| RrcExtract.SearchParams | webapps-rrc-texas.py:122 | the new `search_params` has the same keys, still holds a string template, and differs from the old one at most in `searchArgs.paramValue` |
| RrcExtract.InitialTemplate | webapps-rrc-texas.py:32-40 | the constructor's `search_params` holds the criteria template as a string |
| RrcExtract.FirstSearch | webapps-rrc-texas.py:122 | a fresh scraper's first search sends the criteria string built from its arguments and changes nothing else |
| RrcExtract.SecondSearchRepeatsFirst | webapps-rrc-texas.py:122 | because the template is overwritten in place, a second search sends the first search's criteria again, whatever it is asked for |
| RrcExtract.PostFieldsSpec | webapps-rrc-texas.py:136-162 | the POST field set exists exactly when a stored control is named `searchArgs.excludeStatusAndApprovedDtHndlr.booleanValue`, and otherwise the error is a KeyError on that name; its keys are the stored names without that one plus the four criteria keys, which carry the dates, the operator and `search` |
| RrcExtract.OtherButtonsOmitted | webapps-rrc-texas.py:136-142 | a name that only non-`Search` buttons carry is not posted |
| RrcExtract.PostFieldsInputValue | webapps-rrc-texas.py:136-142 | an input that is not a skipped button is posted with its own value when no later input and no select shares its name |
| RrcExtract.PostFieldsLastControlWins | webapps-rrc-texas.py:144-146 | a select overrides an input of the same name, and the last select of a name wins |
| RrcExtract.ListingsSpec | webapps-rrc-texas.py:177-186 | one record per packet link, in document order: the stripped anchor text, `self.url` followed by the cleaned href, and the stripped fourth cell; extraction fails exactly when a selected row is missing or has fewer than four cells, with the first such row's error |
| RrcExtract.ListingUrlsClean | webapps-rrc-texas.py:183 | every record URL is `self.url` followed by a path free of `;jsessionid=` |
| RrcExtract.FormsCollected | webapps-rrc-texas.py:107-116 | one form per `View` anchor, in order: the stripped first cell and the joined href |
| RrcExtract.DetailsSpecForms | webapps-rrc-texas.py:97-116 | on a well-formed detail page the record gets the stripped operator name and exactly the forms of its `View` anchors, whatever forms it held before |
| RrcExtract.NoDetailsNoDownload | webapps-rrc-texas.py:61 | downloading a record without `operator-name` is a KeyError |
| RrcScraper.RecordsFromPage | webapps-rrc-texas.py:177-186 | the loop creates distinct new records whose entries are the specified ones and which have neither `operator-name` nor `forms`; otherwise it returns the specified error |
| RrcScraper.Record.constructor | webapps-rrc-texas.py:181-184 | a new record holds exactly `tracking-no`, `url` and `api-no` |
| RrcScraper.RccTexasScraper.constructor | webapps-rrc-texas.py:25-40 | the new scraper's `search_params` are the initial ones, with the criteria template |
| RrcScraper.RccTexasScraper.SubmitSearch | webapps-rrc-texas.py:118-124 | `search_params` is updated as specified and the GET carries it; when `format` raises, nothing changes |
| RrcScraper.RccTexasScraper.SubmitSearchPost | webapps-rrc-texas.py:126-167 | the POST sent is the specified one: the harvested fields sent to the form's joined action, or the specified error |
| RrcScraper.RccTexasScraper.GetRecords | webapps-rrc-texas.py:169-202 | the search, then new records for the first results page, as specified |
| RrcScraper.RccTexasScraper.GetRecordDetails | webapps-rrc-texas.py:92-116 | the record's `operator-name` and `forms` become the specified ones, its other entries are unchanged, and the outcome is the specified one |
| RrcScraper.RccTexasScraper.DownloadForms | webapps-rrc-texas.py:56-90 | the disk and the outcome are those of the specified run; a record without `operator-name` or `forms` fails with the disk unchanged |
| RrcScraper.RccTexasScraper.Scrape | webapps-rrc-texas.py:204-214 | a failed search leaves the disk unchanged, and a successful run had at most one record |
| OcdPostBack.UpToQuote | scraper.py:84 | the greedy `[^']+` consumes the longest prefix without a quote |
| OcdPostBack.MatchHereCall | scraper.py:84-85 | a postback call matches at its own start, with its target as the group |
| OcdPostBack.PostBackRoundTrip | scraper.py:84-85 | an href holding `__doPostBack('T','')` with no quote before it, where `T` is non-empty and has no quote, yields `T` |
| OcdPostBack.PostBackSound | scraper.py:84-85 | a target that is found is non-empty, has no quote, and the href contains the postback call built from it |
| OcdExtract.SearchFieldsSpec | scraper.py:43-65 | the search fields exist exactly when the form names all three buttons, and otherwise the first missing one is the KeyError; they are the event fields, the harvested names and the three criteria, minus the buttons, with `CP`, `GreaterThan` and the filing date |
| OcdExtract.SearchEventFieldsDefault | scraper.py:43-54 | an event field stays None unless a control of the form carries its name |
| OcdExtract.NextRequestEnds | scraper.py:71-82 | pagination ends exactly on a page whose form names `btnReturn` and that has no `Next` anchor |
| OcdExtract.NextRequestPostBack | scraper.py:71-90 | a matching `Next` href posts back the named inputs without `btnReturn`, with `__EVENTTARGET` set to the target and `__EVENTARGUMENT` set to None |
| OcdExtract.NextRequestOmitsSelects | scraper.py:72-76 | the next-page request posts no name that only a select carries |
| OcdExtract.NextRequestUnmatched | scraper.py:84-87 | a `Next` href that the pattern does not match is an error, not the end of pagination |
| OcdExtract.RecordFields | scraper.py:101-110 | a row is read exactly when it has an href and four cells, and then gives the joined URL and the four cells, unstripped |
| OcdExtract.PageRecordsSpec | scraper.py:101-112 | a page adds one record per list anchor, in order, after those collected before, and fails exactly when a row cannot be read |
| OcdExtract.CrawlAccumulates | scraper.py:94-116 | records accumulate page by page in order: the records found earlier come first |
| OcdExtract.CrawlFuel | scraper.py:98-114 | the result of a crawl that finishes does not depend on the page bound |
| OcdExtract.Row | scraper.py:28-34 | a CSV row holds the five columns in header order, with `''` for a missing key |
| OcdExtract.RowOfRecord | scraper.py:28-34 | a scraped record's row is its four cells followed by its URL |
| OcdScraper.HarvestNamed | scraper.py:48-54 | the harvesting loop computes the specified field set |
| OcdScraper.OcdImageScraper.CsvSave | scraper.py:14-36 | the header, then one row per record, in order |
| OcdScraper.OcdImageScraper.SubmitSearch | scraper.py:38-68 | the POST sent is the specified search request, or the specified error |
| OcdScraper.OcdImageScraper.GotoNextPage | scraper.py:70-91 | the request sent is the specified next-page request, None on the last page, or the specified error |
| OcdScraper.OcdImageScraper.GetRecords | scraper.py:93-116 | the records are those of the specified crawl over every page, or its error |
| OcdScraper.OcdImageScraper.Scrape | scraper.py:118-120 | the CSV rows of the crawled records, or the crawl's error |

## Left out

- HTTP (`requests.Session`, headers, cookies, streaming) is not modelled. The
  server is a function from request to parsed page, and each download response
  is a content type and a body.
- HTML parsing and CSS selection (BeautifulSoup) are not modelled. A page is
  the lists of forms, controls and anchors that the selectors return.
  `get_record_details`' search for the `Operator Name:` cell and the
  `Form/Attachment` header is reduced to the shapes the code can meet: absent,
  present without the expected child, or present.
- `urllib.parse.urljoin` and `mimetypes.guess_extension` are function
  parameters, taken as given.
- The file system is a map from path to contents. The following are not
  modelled:
  - `os.path.realpath` normalisation of the path;
  - `os.makedirs`;
  - the directory relative to the script;
  - I/O errors.
- The order of the fields in a posted or queried dict is not modelled. The
  source sends them in dict insertion order; the model uses unordered maps.
- `requests` leaves out None-valued fields, such as `__EVENTARGUMENT`, when
  it encodes a body or query. The model keeps them as None entries of the
  field set, as the dict the source builds holds them.
- The `csv` module's quoting and encoding are not modelled. `CsvSave` returns
  the rows instead of writing `records.csv`.
- `\d` in `dpimages/r/(\d+)$` is modelled as the ASCII digits. Python also
  accepts other Unicode decimal digits.
- `str.format` is modelled for `{{`, `}}`, `{0}`, `{1}` and `{2}`. Any other
  replacement field is a ValueError in the model. Python would accept some of
  them, such as format specs and attribute access.
- The operator number is taken as a string. The command line passes an `int`,
  which `format` renders as its decimal digits.
- Logging, the argparse command line, `is_valid_date` (library date parsing)
  and the empty stub `is_already_downloaded` are not modelled.
- The next-page code after the unconditional `break` in the Texas
  `get_records` is unreachable and is not modelled.
- OcdScraper.OcdImageScraper.GetRecords: the source loops for as long as the
  site offers a `Next` page. The model takes a ghost bound on the number of
  pages and requires the crawl to end within it. It says nothing about a site
  whose pages never end.
- RrcScraper.RccTexasScraper.Scrape: states only the error path of the search
  and the bound of one record on a successful run. The disk effects of the
  downloads are stated per record by `DownloadForms`.
