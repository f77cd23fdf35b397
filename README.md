# pyweb scraping core in Dafny

This project models the two pieces of sequential logic in the pyweb scraper.

- **`Scraper.scrape_website` (scraper.py)**, a cache-first scraper of a single page.
  - A `Scraper` object keeps a cache keyed by `(url, selector)` that holds at most `cache_size` entries.
  - A hit returns the stored result without touching the network.
  - A miss does the following:
    - fetches the page and rejects an error status;
    - parses the page;
    - builds either the stripped texts of the selected elements (truthy selector) or the `href` of every anchor (no selector or an empty one);
    - stores the result only when it is a success.
  - Any `Exception` becomes an `{"error": ...}` result. Its prefix only tells an `aiohttp.ClientError` apart from every other `Exception`.
- **`scrape_all_urls` / `scrape_all_urls_h3` (rust_scraper/src/lib.rs)**, the Rust batch scrapers.
  - Each builds its client or endpoint, then parses the CSS selector once, then starts one task per URL.
  - It folds the joined outcomes in input order into two index-aligned vectors (element texts and latencies) or into the exception of the first task that failed.
  - The HTTP/3 path derives each task's socket address by parsing `host:port`. The port is 443 when the URL gives none.

Modules:
- `Wrappers`: `Option` and `Result`.
- `Markup`: the shape of a parsed document.
  - A document is a sequence of elements in document order.
  - Each element has a tag, attributes and the text pieces of its descendants.
- `PyText`: Python's `str.strip()`.
- `PyScraper`: `scraper.py`.
  - The class `Scraper` has a `cache` map field and a ghost log of network requests.
  - The miss path is the pure function `Retrieve`.
- `NetAddr`: `format!("{}:{}", host, port)` and `SocketAddr::from_str`.
  - The IPv4 form is parsed as the Rust standard library parses it.
  - The bracketed IPv6 form goes to an oracle.
- `RustScraper`: `lib.rs`.
  - The aggregation loop is the method `CollectTaskResults`, proved against the predicate `AggregatedFrom`.
  - The two entry points are methods.

The outside world is passed in as values with function-typed fields, in the datatypes `Web`, `Http1World` and `H3World`. These hold:
- the network;
- BeautifulSoup and the `scraper` crate;
- `Selector::parse` and `Url::parse`;
- the clock and task panics.

## Model

| member | source | states |
|---|---|---|
| Markup.Concat | rust_scraper/src/lib.rs:48 | joining no pieces gives the empty text; a non-empty join starts with its first piece |
| Markup.ConcatAppend | rust_scraper/src/lib.rs:48 | joining two runs of pieces is joining each and concatenating |
| PyText.TrimStart | scraper.py:30 | `lstrip()` gives a suffix, drops only white space, and leaves no leading white space |
| PyText.TrimEnd | scraper.py:30 | `rstrip()` gives a prefix, drops only white space, and leaves no trailing white space |
| PyText.LeadingSpace | scraper.py:30 | the leading run counted from a position is all white space and stops at a non-space character or at the end |
| PyText.TrailingSpace | scraper.py:30 | the trailing run counted back from a position is all white space and stops at a non-space character or at the start |
| PyText.Strip | scraper.py:30 | stripping never lengthens the text |
| PyText.StripCutsSpace | scraper.py:30 | `strip()` is a contiguous slice with only white space cut on either side and no white space at either end |
| PyText.StripIdempotent | scraper.py:30 | stripping twice equals stripping once |
| PyText.StripKeepsTrimmed | scraper.py:30 | text with no white space at either end is unchanged by stripping |
| PyScraper.Truthy | scraper.py:29 | `None` and `""` are false and every non-empty selector is true, as in Python's `if selector:` |
| PyScraper.RaisesForStatus | scraper.py:25 | every client or server error status (400-599) raises and no success or redirect status (200-399) does |
| PyScraper.Failed | scraper.py:38-41 | the result is an error whose message starts with "An error occurred: " exactly for a client error and with "An unexpected error occurred: " exactly for any other exception, and the exception's description follows the prefix |
| PyScraper.StrippedTexts | scraper.py:30 | one entry per matched element, in match order, each the stripped text of that element |
| PyScraper.Hrefs | scraper.py:33 | there are no more links than elements |
| PyScraper.HrefsFromAnchors | scraper.py:33 | every link is the `href` of some anchor that has one |
| PyScraper.HrefsAppend | scraper.py:33 | the links of two concatenated documents are the links of each, in order, duplicates kept |
| PyScraper.HrefsAt | scraper.py:33 | each anchor with an `href` contributes its value exactly at its document position; other elements contribute nothing |
| PyScraper.Retrieve | scraper.py:22-41 | a miss either fails with one of the two error prefixes or succeeds with the result shape its key's selector calls for, carrying the key's URL and selector |
| PyScraper.RetrieveFails | scraper.py:24-41 | the miss fails if and only if fetching, the status check, reading the text, parsing the markup or the selector engine raised. An error status gives "An error occurred: " plus the status error. A failed request, a failure to read the text, markup the parser rejects, or a selector the selector engine rejects each gives the error result of that exception: "An error occurred: " for an `aiohttp.ClientError` and "An unexpected error occurred: " for any other. |
| PyScraper.RetrieveElements | scraper.py:29-31 | with a truthy selector, a successful miss yields `{url, selector, elements}` with one stripped text per match, in match order |
| PyScraper.RetrieveLinks | scraper.py:32-34 | with no selector or the empty one, a successful miss yields `{url, links}` over the parsed page, without consulting the selector engine |
| PyScraper.NoneAndEmptySelector | scraper.py:16-29 | `None` and `""` produce the same result but are distinct cache keys |
| PyScraper.Scraper.constructor | scraper.py:12-13 | the cache starts empty with the given capacity (default 100) and time to live (default 600), satisfying the cache invariant |
| PyScraper.Scraper.ScrapeWebsite | scraper.py:15-41 | see the list below the table |
| PyScraper.ScrapeTwice | scraper.py:16-37 | two calls with one key: when the first is served from the cache, or fetches and succeeds, the second returns the same value and makes no request |
| PyScraper.ScrapeNoneThenEmpty | scraper.py:16-29 | after a call without a selector, a call with `""` for the same URL still goes to the network |
| NetAddr.Decimal | rust_scraper/src/lib.rs:254 | `format!("{}", port)` gives at least one character; its digits and value are stated by `DecimalDigits` and `DecimalRoundTrip` |
| NetAddr.DecimalDigits | rust_scraper/src/lib.rs:254 | `{}` of a port is all digits, with a leading `0` only for zero |
| NetAddr.DecimalRoundTrip | rust_scraper/src/lib.rs:254 | reading back the decimal text of a number gives that number |
| NetAddr.DecimalShort | rust_scraper/src/lib.rs:254 | a number below 1000 prints in at most three digits |
| NetAddr.DigitRun | rust_scraper/src/lib.rs:254 | the digit run stays inside the text and stops at a non-digit or at the end |
| NetAddr.ReadNumber | rust_scraper/src/lib.rs:254 | a number read by `read_number` ends after its start and never exceeds the type's limit |
| NetAddr.ReadOctets | rust_scraper/src/lib.rs:254 | reading dotted octets never moves the cursor backwards or past the end |
| NetAddr.ReadOctetsRange | rust_scraper/src/lib.rs:254 | the octets read are as many as asked for, each at most 255 |
| NetAddr.DecimalOfDigits | rust_scraper/src/lib.rs:254 | digits without a leading zero, or a lone digit, are the `{}` text of the number they denote |
| NetAddr.ReadOctetText | rust_scraper/src/lib.rs:254 | an octet `read_number` accepts is written exactly as the `{}` text of its value |
| NetAddr.ReadOctetsText | rust_scraper/src/lib.rs:254 | the text `read_ipv4_addr` consumes is exactly the dotted text of the octets it answers |
| NetAddr.ReadDecimalAt | rust_scraper/src/lib.rs:254 | `read_number` reads back the decimal text of any number within the limit and the digit bound, when a non-digit or the end follows |
| NetAddr.DottedLayout | rust_scraper/src/lib.rs:252-254 | the dotted text of an address lays out each octet followed by a dot, ending where the text ends |
| NetAddr.ReadOctetsAt | rust_scraper/src/lib.rs:252-254 | octets laid out in dotted decimal, followed by neither a digit nor a dot, are read back exactly |
| NetAddr.ParseV4 | rust_scraper/src/lib.rs:254 | a text that parses as an IPv4 socket address gives four octets, each at most 255, and a port at most 65535 |
| NetAddr.ParseSocketAddr | rust_scraper/src/lib.rs:254 | a rejected text gives "invalid socket address syntax"; an IPv4 result has four octets of at most 255 and a port of at most 65535; an IPv6 result comes only from a text starting with `[` |
| NetAddr.ParseHostPort | rust_scraper/src/lib.rs:252-254 | when `host:port` parses as an IPv4 socket address, the host is the dotted text of its octets and its port is the one formatted |
| NetAddr.ParseV4RoundTrip | rust_scraper/src/lib.rs:254 | parsing the text of an IPv4 address, a colon and a port gives back that address and port |
| NetAddr.TargetAddress | rust_scraper/src/lib.rs:252-254 | a failure always carries "invalid socket address syntax"; an IPv4 result has four octets of at most 255 and a port of at most 65535; an IPv6 result comes only from a host starting with `[` |
| NetAddr.TargetAddressOfIpv4 | rust_scraper/src/lib.rs:252-254 | a host written as an IPv4 address yields that address, on the explicit port or on 443 |
| NetAddr.TargetAddressNeedsIpHost | rust_scraper/src/lib.rs:252-254 | only a host that is the dotted text of an IPv4 address, or that starts with `[`, yields an address; a missing host or any other host (`example.com`, `163.com`, `1.2.3.4.5`) yields "invalid socket address syntax"; an IPv4 result is the host's own octets, on the explicit port or 443 |
| NetAddr.DigitLedHostRejected | rust_scraper/src/lib.rs:252-254 | a host that starts with digits followed by anything but a dot and a digit (`163.com`, `1password.com`) yields "invalid socket address syntax" |
| RustScraper.LatencyMillis | rust_scraper/src/lib.rs:104 | the latency is below 2^64, never more than the whole milliseconds, and equal to them when they fit in a `u64` |
| RustScraper.ErrorOf | rust_scraper/src/lib.rs:106-107 | a join failure becomes a `RuntimeError` and a failed task a `ConnectionError`, exactly, each carrying that failure's text (the arms at lines 285-286 are the same) |
| RustScraper.CollectTaskResults | rust_scraper/src/lib.rs:97-111 | see the list below the table (the loop at lines 276-290 is the same) |
| RustScraper.FirstFailureUnique | rust_scraper/src/lib.rs:100-108 | there is at most one first failing task |
| RustScraper.AggregatedOkIffAllSucceeded | rust_scraper/src/lib.rs:100-111 | the batch succeeds if and only if every task succeeded |
| RustScraper.AggregationDeterministic | rust_scraper/src/lib.rs:100-111 | the fold's specification admits one outcome for given task outcomes |
| RustScraper.FirstErrorWins | rust_scraper/src/lib.rs:100-108 | when task `k` is the first to fail in input order, the batch error is task `k`'s, whatever later tasks did |
| RustScraper.EmptyBatch | rust_scraper/src/lib.rs:94-111 | no URLs give `Ok` with two empty vectors |
| RustScraper.ExtractTexts | rust_scraper/src/lib.rs:46-49 | one entry per match, in match order, each the untrimmed concatenation of the element's text pieces (the same chain is at lines 142-146) |
| RustScraper.FetchAndParse | rust_scraper/src/lib.rs:37-53 | fails exactly when the fetch fails, with the fetch's error text; otherwise one untrimmed text per match of the selector in the body, in match order |
| RustScraper.Http1Task | rust_scraper/src/lib.rs:88-91 | the task succeeds exactly when it neither panics nor fails to fetch; a panic becomes `RuntimeError` and a fetch failure `ConnectionError`, each with its text |
| RustScraper.ScrapeAllUrls | rust_scraper/src/lib.rs:70-112 | see the list below the table |
| RustScraper.H3Fetch | rust_scraper/src/lib.rs:249-270 | a URL that does not parse fails with the parser's text; a host that gives no socket address fails with "invalid socket address syntax" before any exchange; otherwise the task succeeds exactly when the exchange with that address succeeds; a failed exchange fails with the exchange's own text; a success holds one untrimmed concatenated text per match of the selector in the body, in match order |
| RustScraper.H3Task | rust_scraper/src/lib.rs:249-271 | the task succeeds exactly when it neither panics nor fails; a panic becomes `RuntimeError` and any other failure `ConnectionError`, each with its text |
| RustScraper.ScrapeAllUrlsH3 | rust_scraper/src/lib.rs:215-291 | see the list below the table |
| RustScraper.H3FetchFromIpv4Host | rust_scraper/src/lib.rs:251-254 | a URL with an IPv4 host is exchanged with that address, on its explicit port or 443 |
| RustScraper.H3FetchNeedsIpHost | rust_scraper/src/lib.rs:251-254 | a task succeeds only for a URL whose host is the dotted text of an IPv4 address or starts with `[`; a URL with no host or any other host fails its task with "invalid socket address syntax" before any connection |
| RustScraper.H3DomainHostAbortsBatch | rust_scraper/src/lib.rs:251-254 | when the first task to fail has no host or a host that is not an IP address, the whole batch fails with `ConnectionError("invalid socket address syntax")` |

Contracts too long for a table cell:

- `PyScraper.Scraper.ScrapeWebsite`:
  - It keeps the cache invariant: the entry count stays within capacity, and only results of the key's shape are stored.
  - A hit returns the stored value. It leaves the cache unchanged and makes no request.
  - A miss logs one request for the URL.
  - A failure returns the error and leaves the cache unchanged.
  - A success with capacity below 1 returns "An unexpected error occurred: value too large".
  - Any other success returns the result and stores it under exactly `(url, selector)`. Other entries are unchanged. When the cache was full, exactly one old entry is evicted; otherwise none is.
- `RustScraper.CollectTaskResults` establishes `AggregatedFrom`:
  - `Ok` with vectors of the batch's length, whose entry `i` is task `i`'s elements and its latency, when every task succeeded;
  - otherwise the error of the first failing task in input order. A failed fetch becomes `ConnectionError(text)`. A join failure becomes `RuntimeError(text)`.
- `RustScraper.ScrapeAllUrls`:
  - A client build failure gives `ValueError(text)`.
  - Otherwise an invalid selector gives `ValueError("Invalid CSS selector: " + error)`.
  - Either of these comes with no task spawned.
  - Otherwise one task is spawned per URL, and the result is the fold of their outcomes in input order.
- `RustScraper.ScrapeAllUrlsH3`: as for `ScrapeAllUrls`, with the endpoint failure in place of the client failure. Each task's outcome derives from its URL, address and exchange.

## Left out

- Network I/O is not modelled. The `aiohttp` session and request, the `reqwest` client, and the QUIC connection, HTTP/3 handshake and driver are oracles in `Web`, `Http1World` and `H3World`. The reqwest client settings are setup details: HTTP/1.1 only, no Nagle, 500 ms and 250 ms timeouts.
- The certificate-skipping TLS verifier and the QUIC transport configuration (rust_scraper/src/lib.rs:164-236) are foreign security configuration. The `unwrap` calls there are not modelled.
- Concurrency is not modelled. This covers `tokio::spawn`, the semaphore bounding concurrency, `spawn_blocking` and `join_all`. Only their observable consequence is kept: joined outcomes arrive in input order. A task that panics (including the `unwrap` after `spawn_blocking`) or is cancelled appears as a join failure chosen by the world.
- The `concurrency` argument is not a parameter of the model. With a concurrency of 0 the semaphore never grants a permit. The real call then never completes when the client or endpoint is built, the selector parses and there is at least one URL. It still returns when `urls` is empty (the fold of no outcomes is `Ok`), and when building the client or endpoint or parsing the selector fails, because those return before any permit is asked for (rust_scraper/src/lib.rs:77-80 and 234-240).
- PyScraper.Scraper.ScrapeWebsite: only `Exception`s are caught (scraper.py:38-41). Cancellation (`asyncio.CancelledError`, for instance while awaiting at scraper.py:23-26) and any other `BaseException` escape uncaught, with no result and the cache unchanged; that outcome is not modelled.
- PyScraper.Scraper.ScrapeWebsite: the model treats each call as running alone. `scrape_website` awaits the request, the response and the body (scraper.py:23-26) between its membership test (line 17) and its store (line 36). Calls that overlap on one event loop can interleave there, and the "other entries unchanged" frame holds only for calls that do not overlap.
- HTML parsing, CSS selector matching and lossy UTF-8 decoding are oracles, on both the Python and the Rust side.
- `Url::parse` is an oracle. The port the model uses is whatever `port()` reports. That value is absent for the scheme's default port, so such a URL is connected on 443.
- Parsing of the bracketed IPv6 socket address form is an oracle.
- PyScraper.Scraper.ScrapeWebsite: the cache's TTL expiry and LRU eviction order are not modelled. The model makes these simplifications:
  - an entry never expires;
  - when a store finds the cache full, one arbitrary entry is evicted.
- Clocks are not modelled. Elapsed durations are oracle values.
- The logging in `scrape_website` is not modelled.
- These are outside the model: the `run_scrape` wrapper with the module-level `Scraper` instance (scraper.py:43-46), the PyO3 bindings and module registration (rust_scraper/src/lib.rs:293-323), `cli.py`, `main.py`, the benchmarks and the tests.
- PyScraper.RaisesForStatus: `raise_for_status()` raises for statuses from 400 on, which is aiohttp's rule. It does not raise for every status outside 2xx, so a final 1xx or 3xx response is treated as a page.
- Batch errors: a failing URL aborts the whole Rust batch with one exception. No item is isolated.
- Error texts carry only the two Python prefixes, or the Python exception class in Rust. There is no tagged error taxonomy.
- Rust element texts are not trimmed, while the Python texts are.
