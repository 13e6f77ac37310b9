# NBTC cellular device monitor — a Dafny model

The nbtc-cellular-scraper tools watch the equipment register of Thailand's National
Broadcasting and Telecommunications Commission (NBTC) for newly approved cellular devices.
They report new devices through a Telegram bot. This project models the decision logic of
three scripts and proves properties about it:

- **nbtc_monitor.py**, the page-text monitor, in modules `ModelCode`, `NbtcParse` and
  `NbtcMonitor`:
  - how a page's visible text is cut into lines;
  - how each line is matched against the model-code regex;
  - how a brand is guessed from the text around the code;
  - how records are de-duplicated by id on one page and across pages;
  - which records count as new against the saved ids;
  - which Telegram text is composed, and when;
  - what one run of `main` writes and saves.
- **scrape.py**, the API poller, in module `Scrape`:
  - the page loop over `fetch_devices` (up to five pages of twenty records);
  - the choice of key (`id`, else `certificate_no`);
  - the new-device filter;
  - the Telegram text;
  - the ids saved.
- **scrape_devices.py**, the table scraper, in module `ScrapeDevices`:
  - the row loop over the rows each result page lists (the `tr` rows of every table on it);
  - the six-column check;
  - the "not specified" date test and the cellular type test;
  - the records produced.

Two shared modules support them. `Text` models Python's `str.strip`, `split('\n')`, `split()[0]`,
`lower`, `in` and decimal formatting; `isalpha` is the letter test of `NbtcParse.IsBrandWord`. `Wrappers` holds Option and a filter-map.

Every loop of the source is a `method` with a `while` or `for` loop. Each method is proved
equal to a specification function. The properties the scripts rely on are lemmas about those
functions:
- the regex group is the leftmost-longest occurrence of the pattern;
- de-duplication keeps first occurrences, in order, with distinct ids;
- a notification is sent exactly when the source sends one;
- re-running with the saved ids reports nothing.

A first run that extracts nothing sends no message and saves no ids: `main` returns as soon
as the extraction comes back empty (nbtc_monitor.py:182-184), before the first-run test is
consulted. The model follows this.

## Model

| member | source | states |
|---|---|---|
| Text.SplitLines | nbtc_monitor.py:23 | `text.split('\n')` gives at least one piece, no piece holds a newline, and joining the pieces with newlines gives the text back |
| Text.SplitJoinLines | nbtc_monitor.py:23 | splitting a newline-joined list of newline-free lines gives the lines back |
| Text.Strip | nbtc_monitor.py:25 | `str.strip()` gives a string with no whitespace at either end, the text between the leading and the trailing whitespace; it is empty exactly when the text is all whitespace |
| Text.FirstWord | nbtc_monitor.py:39 | `part.strip().split()[0]` is the non-empty, whitespace-free prefix of the stripped part that ends at whitespace or at the end |
| Text.DecimalString | nbtc_monitor.py:139-143 | number formatting gives decimal digits without leading zeros, whose value is the number |
| Text.ContainsAt | scrape_devices.py:39-40 | `sub in s` holds exactly when sub starts at some position of s |
| ModelCode.FindCodeIsLeftmostLongest | nbtc_monitor.py:29-31 | group 2 of the line regex is absent exactly when no substring matches `[A-Z]{1,5}\d{3,}[A-Z0-9\-]*` (ignoring case); otherwise it starts at the leftmost occurrence and is the longest one there |
| ModelCode.FindCodeFromIsLeftmostLongest | nbtc_monitor.py:29-31 | the scan from position p finds the first start at or after p of an occurrence of the pattern, or none when no occurrence starts at or after p |
| ModelCode.StartsCodeIsPattern | nbtc_monitor.py:30 | the scanner's local test (1 to 5 letters, then at least 3 digits) holds at p exactly when an occurrence of the pattern starts at p; the maximal code-character run from p is the longest one |
| ModelCode.RunIsLongest | nbtc_monitor.py:30 | a run of one character class from i contains every stretch of that class from i |
| ModelCode.KeywordAtIsFirstMatch | nbtc_monitor.py:30 | the keyword group takes the first alternative, in the order written and ignoring ASCII case, that the text starts with; it is absent exactly when none does |
| ModelCode.MatchLine | nbtc_monitor.py:29-33 | a match exists exactly when a model code occurs; `before` is the text up to the code, `between` is empty, and what follows the code and its spaces splits into the keyword the alternation takes there (if any) and `after`, the remainder |
| ModelCode.MatchLineKeyword | nbtc_monitor.py:30-33 | group 4 is absent exactly when no alternative starts the text after the code and its spaces, and `after` is then that whole text; otherwise group 4 is the first alternative in written order that matches there, and `after` is what follows it |
| ModelCode.GroupsHaveWords | nbtc_monitor.py:37-39 | on a stripped line every non-empty group has a first word, so `part.strip().split()[0]` never fails |
| NbtcParse.BrandGuessIsFirstQualifying | nbtc_monitor.py:36-44 | the brand is the first word of the first part that is non-empty and whose first word is alphabetic and longer than two characters; it is "Unknown" when no part qualifies |
| NbtcParse.BrandGuessIsBrandWord | nbtc_monitor.py:36-44 | the guessed brand is alphabetic and longer than two characters, "Unknown" included |
| NbtcParse.GuessBrand | nbtc_monitor.py:36-44 | the `for part in [before, between, after]` loop with `break` computes the brand guess |
| NbtcParse.ParseLine | nbtc_monitor.py:24-52 | a stripped line under five characters yields nothing; a record's description is the stripped line, its id, model and certificate are the same code of at least four characters, its subtype is "Cellular Mobile" and its brand is a brand word |
| NbtcParse.ParseLineIsLeftmostCode | nbtc_monitor.py:25-34 | a line yields a record exactly when its stripped text has at least five characters and contains the pattern; the record's id is the leftmost-longest occurrence |
| NbtcParse.FirstByIdUnique | nbtc_monitor.py:22-53 | de-duplication by `found_ids` leaves pairwise distinct ids, none of them already taken |
| NbtcParse.FirstByIdIds | nbtc_monitor.py:22-53 | the ids kept are exactly the input's ids minus those already taken |
| NbtcParse.FirstByIdKeepsFirst | nbtc_monitor.py:34-53 | every record kept is the first record of the input with its id |
| NbtcParse.FirstByIdIsKeepFirst | nbtc_monitor.py:34-53 | the loop's de-duplication equals the reference "keep a record when no earlier record has its id", so order is preserved |
| NbtcParse.FirstByIdSnoc | nbtc_monitor.py:34-53 | one more line's record is appended exactly when its id is new |
| NbtcParse.ParseDevicesFromText | nbtc_monitor.py:16-54 | the line loop returns the records of the lines in order, keeping the first record for each model code |
| NbtcParse.ExtractAllDevices | nbtc_monitor.py:77-83 | the page loop returns the first record per id across all pages, in page order |
| NbtcParse.AddNewDevices | nbtc_monitor.py:79-83 | the inner loop appends exactly the records of one page whose ids were not seen, and the seen set becomes the ids of the accumulated list |
| NbtcParse.FirstByIdAppend | nbtc_monitor.py:77-83 | merging page after page is de-duplicating every page together: the second page starts from the ids of the first |
| NbtcParse.MergedPages | nbtc_monitor.py:77-83 | the merged list has distinct ids, its ids are those of every page together, each record is the first across the pages with its id, and the order is kept |
| NbtcParse.ExtractedIdsNonEmpty | nbtc_monitor.py:34-46 | every extracted record has an id of at least four characters |
| NbtcMonitor.FindNewDevices | nbtc_monitor.py:123-131 | the loop returns the records with a non-empty unseen id, in input order |
| NbtcMonitor.NewDevicesMembers | nbtc_monitor.py:125-128 | a record is reported exactly when it is a current record with a non-empty id that was not seen |
| NbtcMonitor.NewDevicesAppend | nbtc_monitor.py:125-128 | the filter works record by record: reporting two lists in sequence is reporting them joined |
| NbtcMonitor.AllNewReported | nbtc_monitor.py:125-128 | when every record is new, all of them are reported, duplicates included |
| NbtcMonitor.NewIdsAreUnseenCurrentIds | nbtc_monitor.py:123-192 | the ids reported are the current ids minus the seen ones |
| NbtcMonitor.SavedIdsSilenceRepeat | nbtc_monitor.py:192-194 | after the current ids are saved, the same records are no longer new |
| NbtcMonitor.ComposeNotice | nbtc_monitor.py:137-160 | a message exists exactly on a first run or when something is new; a first run reports the count and the first three devices; a later run reports the count, the first five devices and how many more, and "more" is positive exactly past five |
| NbtcMonitor.NotificationPolicy | nbtc_monitor.py:133-160 | text is posted exactly when the credentials are set and this is a first run or something is new; a later report with more than five devices contains the "...and N more devices!" line |
| NbtcMonitor.SendNewDeviceNotification | nbtc_monitor.py:133-160 | the text posted is the rendered notice under the credentials test, and nothing when nothing is to be said |
| NbtcMonitor.SetupMessage | nbtc_monitor.py:138-144 | the first-run text built with `+=` is the rendered setup notice |
| NbtcMonitor.ReportMessage | nbtc_monitor.py:145-158 | the later-run text built with `+=` is the rendered report notice, whose items show the description only when it is non-empty and differs from the model |
| NbtcMonitor.MonitorRunSaves | nbtc_monitor.py:182-194 | a run that extracts nothing does nothing; otherwise it saves a superset of the old ids that holds every current id, so every reported id |
| NbtcMonitor.MonitorRunNotifies | nbtc_monitor.py:180-189 | a message is posted exactly when something was extracted, the credentials are set, and the seen set was empty or a new record turned up; new_devices.json is written in the same cases whatever the credentials |
| NbtcMonitor.RerunIsQuiet | nbtc_monitor.py:177-194 | a second run over the same pages with the saved ids posts nothing, writes nothing and saves the same set |
| NbtcMonitor.RunMonitor | nbtc_monitor.py:177-194 | the control logic of main computes the run outcome over the extracted records |
| Scrape.RequestedPages | scrape.py:6-16 | fetch_devices is called for pages 1, 2, ... in order, at most five times, always with per_page 20; every page but the last was full, and the last was short or empty unless it was page 5 |
| Scrape.FetchedFromRequests | scrape.py:6-10 | the devices examined are exactly those of the pages requested, page after page |
| Scrape.NewOfMembers | scrape.py:10-13 | a device is reported exactly when it was fetched and its key (id, else certificate_no) is non-empty and not among the loaded ids |
| Scrape.NewOfAppend | scrape.py:10-14 | only the loaded ids are consulted, so filtering page by page is filtering all pages together, and a device repeated across pages is reported each time |
| Scrape.NewKeys | scrape.py:11-14 | the collected keys are the non-empty fetched keys that were not loaded |
| Scrape.KnownKeysSilence | scrape.py:12 | when every fetched key is already loaded, nothing is reported |
| Scrape.Compose | scrape.py:25-34 | the message names the count, lists the first five devices, and counts the rest, which is positive exactly past five |
| Scrape.MessagePolicy | scrape.py:18-35 | a message is sent exactly when something new was found; it ends with "...and N more." exactly past five devices, otherwise with a newline |
| Scrape.BuildMessage | scrape.py:25-34 | the text built with `+=` is the rendered notice |
| Scrape.NewFromIsNewOfFetched | scrape.py:6-16 | the page-by-page filter equals the filter over every fetched device |
| Scrape.PollPages | scrape.py:3-16 | the page loop makes the requests described by RequestedPages, reports the new devices in order, and collects their keys |
| Scrape.CollectNew | scrape.py:10-14 | one page's inner loop appends its new devices and adds their keys |
| Scrape.ScrapeMain | scrape.py:1-40 | main makes the requests RequestedPages describes, reports exactly the new fetched devices in fetch order, sends a message exactly when one is new, and saves the loaded ids plus the reported keys |
| Scrape.SavedIds | scrape.py:39-40 | the saved set keeps the loaded ids and adds exactly the non-empty fetched keys; polling the same pages again with it reports nothing |
| ScrapeDevices.ScrapeNewCellularDevices | scrape_devices.py:21-56 | the page loop returns every page's records, in page order |
| ScrapeDevices.ReadTable | scrape_devices.py:25-48 | the row loop skips the first row and yields the records of the other rows in order |
| ScrapeDevices.ReadRow | scrape_devices.py:26-48 | one row's body: skip it under six cells, strip six cells, keep it when the date says "ไม่ระบุ" and the type says "เซลลูลาร์" or "cellular" in any case |
| ScrapeDevices.RowRecordFields | scrape_devices.py:28-48 | a row yields a record exactly when it has six cells and passes both tests; the record's fields are the first six cells, stripped, in column order |
| ScrapeDevices.HeaderIgnored | scrape_devices.py:25 | whatever the first row a page lists holds, the page's records are the same |
| ScrapeDevices.ExtraCellsIgnored | scrape_devices.py:32-37 | cells past the sixth do not affect a row's record |
| ScrapeDevices.TableRecordsMembers | scrape_devices.py:25-48 | a record is produced from a page exactly when some row after its first yields it |
| ScrapeDevices.RecordsQualify | scrape_devices.py:32-40 | every record's date says "not specified", its type says cellular, and all six of its fields are stripped |
| ScrapeDevices.AllRecordsAppend | scrape_devices.py:21-56 | records follow page order and are not de-duplicated: reading more pages only appends |

## Left out

- The browser automation is not modelled. This covers Playwright, navigation, waits, scrolling, form filling, clicking "next" and closing. Page texts (nbtc_monitor.py) and row lists (scrape_devices.py) are inputs, one per page, in the order the pages were reached.
- Whether a "next" button exists or can be clicked is not modelled. It only decides how many pages the input holds.
- The debug output is not modelled: every `print`, and the page text and HTML samples.
- File I/O is not modelled: loading and saving the seen ids, and writing new_devices.json. Loaded ids are a parameter; what would be written is part of the result.
- The HTTP calls are not modelled: the Telegram POST and its status handling. The model returns the text that would be posted.
- The Telegram credentials are modelled as a boolean `hasCredentials`, the result of the test at nbtc_monitor.py:134.
- scrape.py calls `fetch_devices`, `load_seen_ids`, `save_seen_ids` and `send_telegram_message`, whose definitions are not part of this model. `fetch_devices` is a function parameter from (page, per_page) to the records returned.
- The `new_this_page` counter of nbtc_monitor.py:78-84 is not modelled. It only feeds a print.
- Text is approximated:
  - letters, digits and case are ASCII only, both for the regex under `re.IGNORECASE` and for `isalpha` and `lower`;
  - whitespace is the ASCII and Latin-1 subset of what `str.isspace` accepts;
  - strings are sequences of code points and are never encoded.
- The regex is not modelled as a general matcher. The model computes the groups directly, and the proofs relate them to a declarative pattern predicate.
- JSON values other than strings and missing keys are not modelled in scrape.py. In the model a missing or null field is `None`, and the message renders `None` as `""`.
- Scrape.Compose: the formatting of non-string JSON values inside the message (where Python would print `None`) is not modelled; such fields appear as "".
