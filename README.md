# realt.by scraper — verified model

This project models the core of `realt.by.py`, a scraper for rental listings
on realt.by. Its driver `get_products` walks a category's index pages
1, 2, … up to the last page number shown in the paging list. `parse_products`
turns each index page's `listing-item` containers into Products by following
each container's link through `get_product`. That function reads one detail
page into a Product with the following fields:

- the listing id, taken from the URL;
- the publication date;
- the title and the price;
- an Agent: name, phone numbers and email from the contact links;
- a Location: map coordinates, plus region, locality, district, direction and
  address from the "Местоположение" table;
- the object type.

`save_to_csv` then writes one 15-column row per Product after a header row.

Modules:

- `Wrappers`: Option and Result.
- `Text`: Python's `str.strip`/`rstrip`/`lstrip` (over Python's 29 `isspace`
  code points), `startswith`/`removeprefix`, substring `in`, `split(sep)[-1]`,
  and a split at the first separator.
- `Listing`: Location, Agent and Product as datatypes.
- `Fields`: the pieces of `get_product`. This covers the id derivation, the
  `published` slice, the contact-link fold (`FoldContacts`) and the
  location-table fold (`FoldLocation`). The id and the slice are plain
  functions whose contracts pin their results; the two folds are loops proved
  against specification functions.
- `Extract`: `get_product` as a whole (`GetProduct`), proved equal to the
  function `Scrape`. The fetched page is an oracle argument. It records what
  each HTML lookup of the source finds: `Missing` when the outer lookup finds
  nothing, `Malformed` when a nested lookup raises, `Found` otherwise.
- `Crawl`: `parse_products` (`ParseProducts`) and the pagination loop
  (`GetProducts`), with index pages and detail pages given as oracles.
- `Csv`: the header and data rows handed to the CSV writer (`SaveToCsv`), and
  reading a row back.

`Fields.Published` follows `published_string[13:]` (realt.by.py:69), which
does not strip: the space after the colon and any trailing whitespace are kept.

## Model

| member | source | states |
|---|---|---|
| Fields.ListingId | realt.by.py:65 | the id contains no '/', is a suffix of the URL with trailing slashes removed, and is either that whole path or preceded in it by a '/' |
| Fields.ListingIdIgnoresTrailingSlashes | realt.by.py:65 | any run of trailing slashes added to the URL leaves the id unchanged |
| Fields.ListingIdOfPath | realt.by.py:65 | for a URL `base/id` followed by any slashes, the id is exactly the last path segment |
| Fields.Published | realt.by.py:68-69 | the date is the matched text without its first 13 characters, or empty when the text is no longer than 13 |
| Fields.PublishedAfterLabel | realt.by.py:68-69 | "Опубликовано: d" gives " d": the 13-character offset drops the label and colon but keeps the space, with no trimming |
| Fields.FoldContacts | realt.by.py:80-86 | the loop over contact hrefs yields the agent with the "tel:" numbers appended in order and the email set by the last "mailto:" href |
| Fields.TelNumbersAppend | realt.by.py:81-84 | phone numbers are collected href by href: two runs of hrefs give their numbers concatenated |
| Fields.TelNumbersOfTelHrefs | realt.by.py:83-84 | hrefs "tel:" + n give back exactly the numbers n, in order, duplicates kept |
| Fields.LastMailtoAt | realt.by.py:85-86 | the email is the last href that is a mailto: (and not also a tel:) with its prefix removed: the last writer wins |
| Fields.LastMailtoNone | realt.by.py:85-86 | the email is left untouched exactly when no href is a mailto: that is not also a tel: |
| Fields.LastMailtoAppend | realt.by.py:85-86 | over two runs of hrefs, a mailto: in the later run overrides any in the earlier |
| Fields.OtherHrefIgnored | realt.by.py:81-86 | an href that starts with neither prefix can be inserted anywhere without changing the agent |
| Fields.Classify | realt.by.py:99-108 | a selected field's label occurs in the first-cell text (`ClassifyFirstMatch` gives the full first-match order) |
| Fields.ClassifyFirstMatch | realt.by.py:98-108 | a first-cell text is assigned field f exactly when it contains f's label and no label earlier in the chain Область, Населенный пункт, Адрес, Район, Направление; it is ignored exactly when it contains none |
| Fields.Set | realt.by.py:99-108 | writing one location field changes that field alone and never the coordinates |
| Fields.FoldLocation | realt.by.py:93-108 | the loop over table rows yields the location with every two-cell row applied in order |
| Fields.ApplyRowsAppend | realt.by.py:95-108 | the table fold works row by row: folding a+b is folding b after a |
| Fields.LastWriterWins | realt.by.py:95-108 | a field holds the stripped second cell of the last row that writes it |
| Fields.UnwrittenKept | realt.by.py:95-108 | a field no row writes keeps its previous value |
| Fields.CoordinatesKept | realt.by.py:95-108 | the table never overwrites the coordinates read from the map |
| Fields.IgnoredRow | realt.by.py:96-97 | a row without exactly two cells, or whose first cell matches no label, can be inserted anywhere without effect |
| Text.Strip | realt.by.py:72 | the stripped text is no longer than the input and neither starts nor ends with whitespace |
| Text.StripSurrounded | realt.by.py:72 | stripping removes exactly the surrounding whitespace from a text that has none at its ends |
| Text.StripIdempotent | realt.by.py:72 | stripping twice is stripping once |
| Text.TrimEnd | realt.by.py:65 | rstrip returns a prefix of the input whose last character is not stripped, and only stripped characters were removed |
| Text.TrimEndAppend | realt.by.py:65 | rstrip removes any appended run of stripped characters |
| Text.AfterLast | realt.by.py:65 | `split(sep)[-1]` is a suffix without sep, preceded by sep unless it is the whole string |
| Text.Contains | realt.by.py:99 | Python's substring test holds exactly when the text occurs at some position |
| Text.RemovePrefix | realt.by.py:84 | removeprefix gives the rest after the prefix when it is there, and the input unchanged otherwise |
| Extract.GetProduct | realt.by.py:55-115 | the step-by-step extraction returns exactly Scrape: a fetch failure or the first raising lookup in source order, or else the Product whose fields are each given by ProductOf |
| Extract.ReadAgent | realt.by.py:77-86 | a malformed agent block fails before the contacts; otherwise the agent is the stripped name with the contacts folded in |
| Extract.ReadLocation | realt.by.py:88-108 | a malformed map fails before the table; otherwise the location is the map's coordinates with the table rows folded in |
| Extract.ScrapeSucceeds | realt.by.py:74-108 | a page yields a Product exactly when no nested lookup raises: price amount, agent name, contact href, map data and location table; so a missing contacts block or map never makes extraction fail |
| Extract.ScrapeDefaults | realt.by.py:61-91 | on a page that yields a Product, no contacts block means no phones and an empty email, and no map means empty coordinates |
| Extract.ScrapeLocationLastWriter | realt.by.py:93-108 | the Product's location field is the stripped second cell of the last table row that writes it |
| Extract.ScrapeLocationUnwritten | realt.by.py:93-108 | a location field no row writes stays empty in the Product |
| Extract.ScrapeIgnoresRow | realt.by.py:96-97 | inserting an irrelevant table row anywhere does not change what get_product returns |
| Extract.ScrapeIdIgnoresTrailingSlash | realt.by.py:65 | the same page at the URL with a trailing slash gives the same id |
| Crawl.ParseProducts | realt.by.py:118-136 | the loop over containers returns Survivors: containers without a link are skipped, those whose get_product raises are dropped, and the rest are kept in document order |
| Crawl.SurvivorsAppend | realt.by.py:121-129 | the filter works container by container: two runs of containers give their Products concatenated |
| Crawl.SurvivorsOmit | realt.by.py:122-134 | a container that yields nothing disappears from the result wherever it stands |
| Crawl.SurvivorsKeep | realt.by.py:127-129 | a container that yields contributes exactly its Product, between its neighbours' Products |
| Crawl.SurvivorsAtMost | realt.by.py:121-129 | each container contributes at most one Product |
| Crawl.SurvivorsAllYield | realt.by.py:121-129 | when every container yields, the list has one Product per container, in container order |
| Crawl.GetProducts | realt.by.py:147-162 | pages 1..k are requested in order, with k never above the last page number and at least 1 when there is a page; each page's list is what parse_products gives for it; the result is those lists concatenated; no page before k ends the crawl, and k is below the last page only if its list was empty or brought the total to count |
| Crawl.ParsedPagesAt | realt.by.py:151-154 | the i-th list the crawl holds is parse_products of index page i + 1 |
| Crawl.HaltsExtend | realt.by.py:155-160 | reading one more page keeps the earlier pages' verdicts, and the new page ends the crawl exactly when it is empty or brings the total to count |
| Crawl.JoinAppend | realt.by.py:158 | a page's list is appended after everything collected so far |
| Crawl.JoinPrefix | realt.by.py:158 | the list collected after an earlier page is a prefix of the final list |
| Crawl.JoinPageAt | realt.by.py:158 | every page read appears whole and in page order in the result, duplicates kept |
| Crawl.Overshoot | realt.by.py:155-160 | when more than one page was read, the list before the last page was still short of count, so only the last page can take it past count |
| Csv.HeaderRow | realt.by.py:180-196 | the header row has the 15 column titles, in order |
| Csv.Row | realt.by.py:198-205 | a data row has one cell per header, opens with the id and closes with the URL |
| Csv.RowShape | realt.by.py:180-205 | under their headers, column 1 is the id, column 8 is latitude + ", " + longitude, column 15 is the URL |
| Csv.TrailingCommaAddsNoSeparator | realt.by.py:201 | a ',' appended to a latitude never completes a ", ", so splitting the coordinates column at its first ", " needs only a latitude free of ", " |
| Csv.SaveToCsv | realt.by.py:177-205 | the writer gets the header row first, then one row per Product in list order |
| Csv.RowRoundTrip | realt.by.py:197-205 | a row read back column by column gives the Product it came from, provided the latitude holds no ", " |
| Csv.RowRoundTripNeedsSeparatorFreeLatitude | realt.by.py:201 | with latitude "1, 2" the coordinates column cannot be split back: the round trip's condition is needed |
| Text.SplitJoin | realt.by.py:201 | splitting a + ", " + b at its first separator gives back a and b when a holds no separator |

## Left out

- HTTP (`get_html`, `requests`): index pages and detail pages are oracle arguments. A failed detail fetch is `FetchFailed`. A failed index fetch crashes the program and is not modelled.
- HTML parsing (BeautifulSoup, lxml) and the regular-expression text searches. A page is given as what each lookup finds.
- `parse_last_page_number`: its `int()` parse of the paging list is not modelled. `GetProducts` takes the last page number as an argument.
- The JSON decoding of the map's `data-center`. The coordinates are given as strings, and a decoding failure or a missing child div is `Malformed`.
- Contact anchors without an href: `href.startswith` on None raises, and the model folds this into a `Malformed` contacts block rather than locating the anchor.
- `save_to_json`: serialization of the Products is not modelled.
- Writing the CSV file: the cp1251 encoding, the ';' delimiter, csv quoting, and Python's `str()` rendering of the phone-number list and of the 0.0 price. `SaveToCsv` returns the rows handed to the writer.
- Progress printing and `traceback.print_exc()` are not modelled.
- `main`, the unused `multiprocessing` import, and the category URL construction with `urljoin`.
- Python's mutable default arguments (`phone_numbers=list()`, `agent=Agent()`): `get_product` replaces both with fresh objects before use (realt.by.py:62-64), so they do not affect the result.
- Product ids: the source's `int()` default for `id` is never observed, since the id is always overwritten with a string.
