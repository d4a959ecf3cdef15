# Target product-page scraper: a verified model of its record logic

The program is a small Streamlit page. A user pastes Target product
identifiers (TCINs), one per line. On a button press the page fetches each
product page and pulls one record per product out of it: the title, the
regular and sale prices, up to three image URLs, the review count and the
star rating. The records become a table that can be downloaded.

This project models the two parts of that program that hold logic:

- `fetch_product_data` after the HTTP request (module `Product`). A
  failed request gives a two-key error record. Otherwise the record is
  built one dict write at a time from two JSON documents embedded in the
  page:
  - the JSON-LD block (title, prices, images);
  - the `window.__PRELOADED_STATE__` blob (review count and star rating).

  Either try block can raise partway through. The keys it wrote before
  that stay, and the except branch fills only the rating keys still
  missing. The method `FetchProductData` follows the source statement by
  statement. Each try block is a labelled block, left with `break` at the
  first expression that raises. It is proved equal to the stage-by-stage
  reference function `ProductRecord`. The properties of the record are
  lemmas about that function.
- The identifier intake and the scraping loop of `main`:
  - module `Intake` writes out Python's `str.strip`, `str.splitlines` and
    the set comprehension that turns the pasted text into identifiers;
  - module `Scraper` models the early return for blank input and the loop
    that appends one record per identifier.

Two support modules model the Python semantics the code relies on:

- `PyJson`: parsed JSON values, `dict.get`, which raises on anything but a
  dict, truthiness, `a or b` returning an operand, and `xs[:n]`;
- `PyDict`: an insertion-ordered dict. The table's columns follow key
  order, so "`tcin` is written last" can be stated.

Inputs the code gets from outside are parameters of the model:

- the outcome of the HTTP request;
- what the HTML and regular-expression lookups plus `json.loads` yield for
  each embedded document: not found, unparsable, or a parsed value;
- a function `fetch` from identifier to that page outcome;
- the iteration order of the identifier `set`. Python leaves this order
  open, so the model takes any list that holds each identifier exactly
  once.
- whether the button was pressed.

One place where the code is more precise than a plain reading of its
comments suggests. The except branch is commented `# If unavailable, defaults`
(app.py:45), which reads as "when the state step fails, both rating keys are
None". That is only true when it fails before line 42 writes `review_count`. If only line
43 raises (for example `ratings.reviewsCount` is truthy, `ratings.averageRating`
is falsy or absent, and `reviews` is None, so line 43 calls `reviews.get`),
`setdefault` keeps the review count already written. The model
follows the code. See `RatingsDefaultWhenStateFails`,
`SetDefaultKeepsReviewCount` and `ReviewsNullAfterCount`.

## Model

| member | source | states |
|---|---|---|
| PyJson.OrIsOperand | app.py:42-43 | when `a or b` does not raise, it yields one of its operands, and it is truthy exactly when `a` is truthy or `b` succeeds and is truthy |
| PyJson.Take | app.py:29 | `xs[:n]` has `min(n, len(xs))` elements, the leading ones of `xs` |
| PyDict.Dict.Set | app.py:25-29 | `d[k] = v` updates the entry; a new key goes to the end of the key order, an existing key keeps its place |
| PyDict.Dict.SetDefault | app.py:46-47 | `setdefault` leaves a dict that has the key unchanged, and otherwise writes it; no existing entry changes |
| PyDict.SetKeepsValid | app.py:25-29 | a dict write keeps each key listed once and exactly the keys listed |
| Product.ImageList | app.py:29 | a list image gives its first `min(3, n)` elements in order; a truthy non-list gives a one-element list; an absent or falsy image gives `[]`; never more than 3 |
| Product.ColumnInjective | app.py:25-49 | no two keys of the model are written as the same string key |
| Product.LdObjectFields | app.py:25-29 | on a dict `data`, the JSON-LD block always writes `title` as `data.get('name')`; it writes only `title` when `offers` is a truthy non-dict, and otherwise all four JSON-LD keys in order; it writes no other key |
| Product.LdObjectValues | app.py:26-29 | when `offers` does not raise, both prices are `offers.get('price')` for a truthy dict `offers` and None for a falsy one, and `image_urls` is the image list |
| Product.JsonLdFields | app.py:21-31 | after the JSON-LD try block the record holds exactly the first `LdProgress` JSON-LD keys, in write order |
| Product.RatingDefaults | app.py:44-47 | the except branch makes both rating keys present, keeps every value already there, and adds only None rating keys |
| Product.RatingFields | app.py:34-47 | after the state try block both rating keys are present; every other key and its value is unchanged; on a record without rating keys they are appended in order |
| Product.ProductRecord | app.py:8-50 | the record always maps `tcin` to the identifier; it has `error` exactly when the request failed; a failed request gives exactly `{tcin, error}`; otherwise the key order is the JSON-LD keys written, then the two rating keys, then `tcin` |
| Product.FetchProductData | app.py:17-50 | the statement-by-statement procedure, with each try block left at its first raising expression, returns exactly ProductRecord |
| Product.RecordIsValid | app.py:20-50 | every record lists each key once and lists exactly its keys |
| Product.RatingFieldsValues | app.py:34-47 | on a record without rating keys, the state stage writes the two values Ratings reads off the blob, whichever statement raises |
| Product.RatingsOfPage | app.py:34-49 | the rating keys of a fetched page's record hold Ratings(state) |
| Product.ImageUrlsField | app.py:29 | `image_urls` is present exactly when the JSON-LD block ran to its end, and then holds the image list of at most 3 entries |
| Product.SalePriceMirrorsRegular | app.py:27-28 | `sale_price` is present exactly when `regular_price` is, with the same value |
| Product.PriceFromOffers | app.py:26-28 | when `offers` is falsy or a dict, `regular_price` is written: None for a falsy `offers`, otherwise `offers.get('price')` |
| Product.NonDictOffersKeepTitle | app.py:25-27 | a truthy non-dict `offers` keeps the title already written and leaves out both prices and the images |
| Product.TitleIsName | app.py:25 | whenever the JSON-LD block parsed to a dict, the record's `title` is `data.get('name')`, however the rest of the block ends |
| Product.TitleNeedsJsonLdObject | app.py:21-31 | `title` is present exactly when the JSON-LD block parsed to a dict; otherwise none of the four JSON-LD keys is present |
| Product.LdFieldsUntouchedByState | app.py:34-47 | whatever the state blob holds, the JSON-LD keys and values of the record are those the JSON-LD block wrote |
| Product.RatingsIgnoreJsonLd | app.py:34-43 | the two rating values depend on the state blob alone |
| Product.RatingsFallBack | app.py:42-47 | with a dict `ratings`, each rating is the `ratings` value when that is truthy; otherwise the `reviews` value if `reviews` is a dict, and None if it is not (the `reviews.get` raises); a raise on line 42 also leaves the star rating None |
| Product.ZeroReviewCountFallsThrough | app.py:42 | a review count of 0 under `ratings` falls through to `reviews.totalReviewCount` |
| Product.RatingsDefaultWhenStateFails | app.py:44-47 | when the state block raises before line 42 is written, both rating keys are None |
| Product.SetDefaultKeepsReviewCount | app.py:42-47 | when only line 43 raises, the review count computed on line 42 survives and the star rating is None |
| Product.ReviewsNullAfterCount | app.py:42-47 | a concrete blob (`reviewsCount` 5, `reviews` None) gives review count 5 and a None star rating |
| Product.EmptyPageRecord | app.py:44-50 | a page without either embedded document gives exactly `{review_count: None, star_rating: None, tcin}` in that order |
| Intake.TrimStart | app.py:60 | `lstrip` drops a prefix made only of whitespace, and what remains does not start with whitespace |
| Intake.TrimEnd | app.py:60 | `rstrip` drops a suffix made only of whitespace, and what remains does not end with whitespace |
| Intake.Strip | app.py:56 | `strip` yields a string that is empty or starts and ends with a non-space |
| Intake.StripRemovesEdges | app.py:56-60 | `s` is a whitespace prefix, then `s.strip()`, then a whitespace suffix: strip removes edge whitespace and nothing else |
| Intake.StripAt | app.py:60 | character `j` of `s.strip()` is a character of `s`, at a fixed offset |
| Intake.StripEmptyIffBlank | app.py:56 | `s.strip()` is empty exactly when `s` is whitespace only |
| Intake.StripIdempotent | app.py:60 | stripping twice is stripping once |
| Intake.LineEnd | app.py:60 | the first line ends at the first line break, or at the end of the text |
| Intake.SplitLines | app.py:60 | no line that `splitlines` yields contains a line break |
| Intake.SplitLinesRoundTrip | app.py:60 | putting each line's ending back gives the text again; each ending is `\r\n` or one line-break character, with `\r\n` never split; only a last non-empty line may have no ending, so a final break starts no empty line |
| Intake.SplitLinesExample | app.py:60 | `"a\r\nb\n"` splits into `["a", "b"]` with endings `\r\n` and `\n` |
| Intake.SplitLinesKeepsText | app.py:60 | the lines, joined with nothing between them, are the text with its line-break characters removed |
| Intake.TokensAreTrimmedLines | app.py:60 | every identifier is non-empty and already trimmed, and every non-blank line contributes its trimmed text |
| Intake.TokensHaveNoLineBreak | app.py:60 | no identifier contains a line break |
| Intake.BlankIffNoTokens | app.py:56-60 | the input is whitespace only exactly when it yields no identifiers |
| Scraper.EnumerationLength | app.py:60 | `list(s)` has `len(s)` elements |
| Scraper.IdentifierList | app.py:60 | for non-blank input the identifier list is non-empty, as long as the identifier set, and holds only trimmed, non-empty strings |
| Scraper.Records | app.py:62-66 | `results` has one record per identifier, and its i-th entry is the record fetched for the i-th identifier |
| Scraper.ScrapeAll | app.py:62-66 | the loop that fetches each identifier in turn and appends its record builds exactly Records |
| Scraper.RunScraper | app.py:55-66 | blank input only prompts; otherwise the identifiers are the set's iteration order, all trimmed and non-empty; with the button pressed the results are Records, one per distinct identifier, each carrying its own `tcin` |
| Scraper.RecordsIndependentOfOrder | app.py:60-66 | for one fixed answer per identifier (`fetch`), any two iteration orders of the identifier set give the same records, up to row order |
| Scraper.DistinctTcinColumn | app.py:60-66 | no two rows of the results share a `tcin` |

## Left out

- The HTTP request (app.py:9-13): the URL, headers, timeout and `raise_for_status` are network I/O. The model takes the outcome as input, and the exception text as an opaque string.
- BeautifulSoup's `find` and `find_all` and the `window.__PRELOADED_STATE__` regular expression, with its non-greedy capture (app.py:17, 22, 35-36). These are foreign HTML and regex libraries. Their outcome is part of the `Embedded` input. A missing `<script>` tag, an empty `find_all` result (IndexError) or a non-matching regex (`None.group`) count as not found or unparsable, which lead to the same except branch.
- `json.loads` (app.py:24, 37): the model takes the parsed value, or a parse failure.
- JSON numbers are modelled as integers and exact reals. NaN and Infinity, which `json.loads` accepts, are not modelled.
- Keys are the eight key names of the record, as an enumeration. Each has its column string (`Product.Column`), and no two share one (`Product.ColumnInjective`). Records are not keyed by arbitrary Python strings.
- The Streamlit UI (title, text area, info message, button, dataframe, download buttons, warning) and the progress bar (app.py:53-58, 61, 63, 67, 69-78). The model keeps only the branch structure: prompt, waiting for the button, scraped.
- The pandas DataFrame and the CSV and Excel export (app.py:68-77): a foreign library. The model stops at the list of records.
- The iteration order of Python's `set` is not computed. It is any order that lists each identifier once.
