/** The Rust core `rust_scraper`: `scrape_all_urls` over HTTP/1.1 and
    `scrape_all_urls_h3` over HTTP/3. Each sets up its client, parses the CSS
    selector once, starts one task per URL and folds the joined task outcomes,
    in input order, into two index-aligned vectors or the first error.

    Everything outside the fold is an oracle held in a "world" value: client
    and endpoint setup, `Selector::parse`, `Url::parse`, the network exchange,
    `Html::parse_document` with `select`, the clock and task panics. Oracles
    for one task are asked with the task's index and URL, so two tasks for the
    same URL may see different answers. */
module RustScraper {
  import opened Wrappers
  import opened Markup
  import opened NetAddr

  /** The prefix `format!("Invalid CSS selector: {:?}", e)` puts before the
      parser's error. */
  const InvalidSelectorPrefix := "Invalid CSS selector: "

  const U64Modulus := 0x1_0000_0000_0000_0000

  /** The Python exceptions the module raises. */
  datatype PyErr = ValueError(message: string) | ConnectionError(message: string) | RuntimeError(message: string)

  /** A `std::time::Duration`: whole seconds and the nanoseconds of the last,
      unfinished second. */
  datatype Duration = Duration(secs: nat, nanos: nat)

  /** `duration.as_millis() as u64`: the whole milliseconds, a `u128`, cast to
      a `u64`, which keeps the low 64 bits. */
  function LatencyMillis(d: Duration): (ms: nat)
    ensures ms < U64Modulus
    ensures ms <= d.secs * 1000 + d.nanos / 1_000_000
    ensures d.secs * 1000 + d.nanos / 1_000_000 < U64Modulus ==> ms == d.secs * 1000 + d.nanos / 1_000_000
  {
    (d.secs * 1000 + d.nanos / 1_000_000) % U64Modulus
  }

  /** What a joined task hands back: `Ok(Ok((elements, elapsed)))`,
      `Ok(Err(text))` when fetching failed, or `Err(join_error)` when the task
      panicked or was cancelled. */
  datatype TaskOutcome =
    | Joined(outcome: Result<(seq<string>, Duration), string>)
    | JoinFailed(joinError: string)

  predicate Succeeded(t: TaskOutcome)
  {
    t.Joined? && t.outcome.Ok?
  }

  function Elements(t: TaskOutcome): seq<string>
    requires Succeeded(t)
  {
    t.outcome.value.0
  }

  function Latency(t: TaskOutcome): nat
    requires Succeeded(t)
  {
    LatencyMillis(t.outcome.value.1)
  }

  /** The exception a failed task becomes: a fetch error a `ConnectionError`
      carrying its text, a join error a `RuntimeError` carrying its text. */
  function ErrorOf(t: TaskOutcome): (e: PyErr)
    requires !Succeeded(t)
    ensures e.RuntimeError? <==> t.JoinFailed?
    ensures e.ConnectionError? <==> t.Joined?
    ensures e.message == if t.JoinFailed? then t.joinError else t.outcome.error
  {
    if t.JoinFailed? then RuntimeError(t.joinError) else ConnectionError(t.outcome.error)
  }

  /** `k` is the first task, in input order, that did not succeed. */
  predicate FirstFailure(tasks: seq<TaskOutcome>, k: int)
  {
    0 <= k < |tasks| && !Succeeded(tasks[k]) && forall j | 0 <= j < k :: Succeeded(tasks[j])
  }

  /** The results and the latencies, one of each per URL. */
  type Batch = (seq<seq<string>>, seq<nat>)

  /** What the fold promises: when every task succeeded, the element lists and
      the latencies of the tasks in input order; otherwise the exception of the
      first task that failed, and no partial vectors. */
  predicate AggregatedFrom(tasks: seq<TaskOutcome>, r: Result<Batch, PyErr>)
  {
    match r
    case Ok((results, latencies)) =>
      |results| == |tasks| && |latencies| == |tasks| &&
      forall i | 0 <= i < |tasks| ::
        Succeeded(tasks[i]) && results[i] == Elements(tasks[i]) && latencies[i] == Latency(tasks[i])
    case Err(e) =>
      exists k | 0 <= k < |tasks| :: FirstFailure(tasks, k) && e == ErrorOf(tasks[k])
  }

  /** The loop over the joined task outcomes: push the elements and the
      latency of each success, and return at the first failure. */
  method CollectTaskResults(tasks: seq<TaskOutcome>) returns (r: Result<Batch, PyErr>)
    ensures AggregatedFrom(tasks, r)
  {
    var finalResults: seq<seq<string>> := [];
    var latenciesMs: seq<nat> := [];
    for i := 0 to |tasks|
      invariant |finalResults| == i && |latenciesMs| == i
      invariant forall j | 0 <= j < i ::
        Succeeded(tasks[j]) && finalResults[j] == Elements(tasks[j]) && latenciesMs[j] == Latency(tasks[j])
    {
      match tasks[i]
      case Joined(Ok((elements, duration))) =>
        finalResults := finalResults + [elements];
        latenciesMs := latenciesMs + [LatencyMillis(duration)];
      case Joined(Err(e)) =>
        assert FirstFailure(tasks, i);
        return Err(ConnectionError(e));
      case JoinFailed(e) =>
        assert FirstFailure(tasks, i);
        return Err(RuntimeError(e));
    }
    r := Ok((finalResults, latenciesMs));
  }

  /** At most one first failure. */
  lemma FirstFailureUnique(tasks: seq<TaskOutcome>, k: int, m: int)
    requires FirstFailure(tasks, k) && FirstFailure(tasks, m)
    ensures k == m
  {
  }

  /** The batch succeeds exactly when every task succeeded. */
  lemma AggregatedOkIffAllSucceeded(tasks: seq<TaskOutcome>, r: Result<Batch, PyErr>)
    requires AggregatedFrom(tasks, r)
    ensures r.Ok? <==> forall i | 0 <= i < |tasks| :: Succeeded(tasks[i])
  {
    if r.Err? {
      var k :| 0 <= k < |tasks| && FirstFailure(tasks, k) && r.error == ErrorOf(tasks[k]);
      assert !Succeeded(tasks[k]);
    }
  }

  /** The fold's outcome is determined by the task outcomes. */
  lemma AggregationDeterministic(tasks: seq<TaskOutcome>, r1: Result<Batch, PyErr>, r2: Result<Batch, PyErr>)
    requires AggregatedFrom(tasks, r1) && AggregatedFrom(tasks, r2)
    ensures r1 == r2
  {
    AggregatedOkIffAllSucceeded(tasks, r1);
    AggregatedOkIffAllSucceeded(tasks, r2);
    if r1.Ok? {
      assert r1.value.0 == r2.value.0;
      assert r1.value.1 == r2.value.1;
    } else {
      var k :| 0 <= k < |tasks| && FirstFailure(tasks, k) && r1.error == ErrorOf(tasks[k]);
      var m :| 0 <= m < |tasks| && FirstFailure(tasks, m) && r2.error == ErrorOf(tasks[m]);
      FirstFailureUnique(tasks, k, m);
    }
  }

  /** Whatever comes after it, the first failing task decides the error. */
  lemma FirstErrorWins(tasks: seq<TaskOutcome>, k: nat, r: Result<Batch, PyErr>)
    requires FirstFailure(tasks, k) && AggregatedFrom(tasks, r)
    ensures r == Err(ErrorOf(tasks[k]))
  {
    AggregationDeterministic(tasks, r, Err(ErrorOf(tasks[k])));
  }

  /** An empty batch gives two empty vectors. */
  lemma EmptyBatch(r: Result<Batch, PyErr>)
    requires AggregatedFrom([], r)
    ensures r == Ok(([], []))
  {
    AggregationDeterministic([], r, Ok(([], [])));
  }

  /** `element.text().collect::<String>()` for each match: the text pieces of
      the element joined as they are, neither trimmed nor normalised, one
      entry per match in match order. */
  function ExtractTexts(matched: seq<Element>): (r: seq<string>)
    ensures |r| == |matched|
    ensures forall i | 0 <= i < |matched| :: r[i] == Concat(matched[i].pieces)
    decreases |matched|
  {
    if |matched| == 0 then [] else [Text(matched[0])] + ExtractTexts(matched[1..])
  }

  /** The outside world of `scrape_all_urls`. */
  datatype Http1World = Http1World(
    /** `reqwest::Client::builder()...build()` failing, with the error's text. */
    clientError: Option<string>,
    /** `Selector::parse` failing, with the `Debug` text of its error. */
    selectorError: string -> Option<string>,
    /** The request and the reading of the body: the body decoded as lossy
        UTF-8, or the error's text. */
    fetch: (nat, string) -> Result<string, string>,
    /** `Html::parse_document` of a body and `select` with a selector: the
        matching elements in document order. */
    select: (string, string) -> seq<Element>,
    /** The time the task took. */
    elapsed: (nat, string) -> Duration,
    /** The task panicking or being cancelled, with the join error's text. */
    joinError: (nat, string) -> Option<string>)

  /** `fetch_and_parse`: fetch, then the text of every match. It fails
      exactly when the fetch fails, with the fetch's error text; otherwise it
      answers one untrimmed text per match, in match order, and the elapsed
      time. */
  function FetchAndParse(world: Http1World, selector: string, i: nat, url: string): (r: Result<(seq<string>, Duration), string>)
    ensures r.Ok? <==> world.fetch(i, url).Ok?
    ensures r.Err? ==> r.error == world.fetch(i, url).error
    ensures r.Ok? ==> var matched := world.select(world.fetch(i, url).value, selector);
      |r.value.0| == |matched| && forall k | 0 <= k < |matched| :: r.value.0[k] == Concat(matched[k].pieces)
  {
    match world.fetch(i, url)
    case Err(e) => Err(e)
    case Ok(body) => Ok((ExtractTexts(world.select(body, selector)), world.elapsed(i, url)))
  }

  /** What joining the task spawned for `urls[i]` gives. The task succeeds
      exactly when it neither panics nor fails to fetch; a panic surfaces as a
      `RuntimeError` and a fetch failure as a `ConnectionError`, each carrying
      its text. */
  function Http1Task(world: Http1World, selector: string, i: nat, url: string): (t: TaskOutcome)
    ensures Succeeded(t) <==> world.joinError(i, url).None? && world.fetch(i, url).Ok?
    ensures world.joinError(i, url).Some? ==> ErrorOf(t) == RuntimeError(world.joinError(i, url).value)
    ensures world.joinError(i, url).None? && world.fetch(i, url).Err? ==>
      ErrorOf(t) == ConnectionError(world.fetch(i, url).error)
  {
    if world.joinError(i, url).Some? then JoinFailed(world.joinError(i, url).value)
    else Joined(FetchAndParse(world, selector, i, url))
  }

  /** The joined outcomes of all tasks, in input order (`join_all`). */
  function Http1Tasks(world: Http1World, selector: string, urls: seq<string>): (tasks: seq<TaskOutcome>)
    ensures |tasks| == |urls|
    ensures forall i | 0 <= i < |urls| :: tasks[i] == Http1Task(world, selector, i, urls[i])
  {
    seq(|urls|, i requires 0 <= i < |urls| => Http1Task(world, selector, i, urls[i]))
  }

  /** `scrape_all_urls`. `spawned` lists the URLs a task was started for. A
      client that cannot be built, then a selector that does not parse, fail
      the call with a `ValueError` before any task starts; otherwise one task
      runs per URL and the outcomes are folded in input order. */
  method ScrapeAllUrls(urls: seq<string>, selector: string, world: Http1World)
    returns (r: Result<Batch, PyErr>, ghost spawned: seq<string>)
    ensures world.clientError.Some? ==> r == Err(ValueError(world.clientError.value)) && spawned == []
    ensures world.clientError.None? && world.selectorError(selector).Some? ==>
      r == Err(ValueError(InvalidSelectorPrefix + world.selectorError(selector).value)) && spawned == []
    ensures world.clientError.None? && world.selectorError(selector).None? ==>
      spawned == urls && AggregatedFrom(Http1Tasks(world, selector, urls), r)
  {
    spawned := [];
    if world.clientError.Some? {
      return Err(ValueError(world.clientError.value)), spawned;
    }
    var selectorError := world.selectorError(selector);
    if selectorError.Some? {
      return Err(ValueError(InvalidSelectorPrefix + selectorError.value)), spawned;
    }
    var tasks := Http1Tasks(world, selector, urls);
    spawned := urls;
    r := CollectTaskResults(tasks);
  }

  /** What `Url::parse` gives: `host_str()`, `port()` (absent when it is the
      scheme's default) and `path()`. */
  datatype Url = Url(host: Option<string>, port: Option<nat>, path: string)

  /** The outside world of `scrape_all_urls_h3`. */
  datatype H3World = H3World(
    /** `quinn::Endpoint::client` failing, with the error's text. */
    endpointError: Option<string>,
    selectorError: string -> Option<string>,
    /** `Url::parse`, or the text of its error. */
    parseUrl: string -> Result<Url, string>,
    /** The bracketed IPv6 form of a socket address: the address and port. */
    v6: string -> Option<(string, nat)>,
    /** Connecting to an address, the HTTP/3 handshake, the request for the
        URL's path and the reading of the body: the body decoded as lossy
        UTF-8, or the first error's text. */
    exchange: (nat, SocketAddr, Url) -> Result<string, string>,
    select: (string, string) -> seq<Element>,
    elapsed: (nat, string) -> Duration,
    joinError: (nat, string) -> Option<string>)

  /** The body of one HTTP/3 task: parse the URL, derive the socket address
      from its host and port (443 by default), then exchange and extract. It
      succeeds exactly when the URL parses, `host:port` parses as a socket
      address and the exchange with that address succeeds; a host that gives
      no address fails with the address parser's message, before any
      exchange, and a failed exchange with its own text. A success holds one
      untrimmed text per match of the selector in the body. */
  function H3Fetch(world: H3World, selector: string, i: nat, url: string): (r: Result<(seq<string>, Duration), string>)
    ensures world.parseUrl(url).Err? ==> r == Err(world.parseUrl(url).error)
    ensures world.parseUrl(url).Ok? ==>
      var u := world.parseUrl(url).value;
      var a := TargetAddress(u.host, u.port, world.v6);
      (a.Err? ==> r == Err(AddrParseErrorText)) && (r.Ok? <==> a.Ok? && world.exchange(i, a.value, u).Ok?)
      && (a.Ok? && world.exchange(i, a.value, u).Err? ==> r == Err(world.exchange(i, a.value, u).error))
      && (r.Ok? ==>
            var matched := world.select(world.exchange(i, a.value, u).value, selector);
            |r.value.0| == |matched| && forall k | 0 <= k < |matched| :: r.value.0[k] == Concat(matched[k].pieces))
  {
    match world.parseUrl(url)
    case Err(e) => Err(e)
    case Ok(u) =>
      match TargetAddress(u.host, u.port, world.v6)
      case Err(e) => Err(e)
      case Ok(addr) =>
        match world.exchange(i, addr, u)
        case Err(e) => Err(e)
        case Ok(body) => Ok((ExtractTexts(world.select(body, selector)), world.elapsed(i, url)))
  }

  /** What joining the HTTP/3 task for `urls[i]` gives: it succeeds exactly
      when it neither panics nor fails; a panic surfaces as a `RuntimeError`
      and any other failure as a `ConnectionError`, each carrying its text. */
  function H3Task(world: H3World, selector: string, i: nat, url: string): (t: TaskOutcome)
    ensures Succeeded(t) <==> world.joinError(i, url).None? && H3Fetch(world, selector, i, url).Ok?
    ensures world.joinError(i, url).Some? ==> ErrorOf(t) == RuntimeError(world.joinError(i, url).value)
    ensures world.joinError(i, url).None? && H3Fetch(world, selector, i, url).Err? ==>
      ErrorOf(t) == ConnectionError(H3Fetch(world, selector, i, url).error)
  {
    if world.joinError(i, url).Some? then JoinFailed(world.joinError(i, url).value)
    else Joined(H3Fetch(world, selector, i, url))
  }

  function H3Tasks(world: H3World, selector: string, urls: seq<string>): (tasks: seq<TaskOutcome>)
    ensures |tasks| == |urls|
    ensures forall i | 0 <= i < |urls| :: tasks[i] == H3Task(world, selector, i, urls[i])
  {
    seq(|urls|, i requires 0 <= i < |urls| => H3Task(world, selector, i, urls[i]))
  }

  /** `scrape_all_urls_h3`: the endpoint, then the selector, then one task per
      URL, folded as on the HTTP/1.1 path. */
  method ScrapeAllUrlsH3(urls: seq<string>, selector: string, world: H3World)
    returns (r: Result<Batch, PyErr>, ghost spawned: seq<string>)
    ensures world.endpointError.Some? ==> r == Err(ValueError(world.endpointError.value)) && spawned == []
    ensures world.endpointError.None? && world.selectorError(selector).Some? ==>
      r == Err(ValueError(InvalidSelectorPrefix + world.selectorError(selector).value)) && spawned == []
    ensures world.endpointError.None? && world.selectorError(selector).None? ==>
      spawned == urls && AggregatedFrom(H3Tasks(world, selector, urls), r)
  {
    spawned := [];
    if world.endpointError.Some? {
      return Err(ValueError(world.endpointError.value)), spawned;
    }
    var selectorError := world.selectorError(selector);
    if selectorError.Some? {
      return Err(ValueError(InvalidSelectorPrefix + selectorError.value)), spawned;
    }
    var tasks := H3Tasks(world, selector, urls);
    spawned := urls;
    r := CollectTaskResults(tasks);
  }

  /** A URL whose host is an IPv4 address is fetched from that address, on
      the URL's explicit port or on 443. */
  lemma H3FetchFromIpv4Host(world: H3World, selector: string, i: nat, url: string, ip: seq<nat>)
    requires IsIpv4(ip)
    requires world.parseUrl(url).Ok? && world.parseUrl(url).value.host == Some(Dotted(ip))
    requires world.parseUrl(url).value.port.Some? ==> world.parseUrl(url).value.port.value <= MaxPort
    ensures var u := world.parseUrl(url).value;
      H3Fetch(world, selector, i, url) ==
        match world.exchange(i, V4(ip, if u.port.Some? then u.port.value else DefaultPort), u)
        case Err(e) => Err(e)
        case Ok(body) => Ok((ExtractTexts(world.select(body, selector)), world.elapsed(i, url)))
  {
    var u := world.parseUrl(url).value;
    TargetAddressOfIpv4(ip, u.port, world.v6);
  }

  /** Only an IP host can be fetched: a task succeeds only for a URL whose
      host is the text of an IPv4 address or a bracketed IPv6 form. A URL
      with no host, or with a domain name as its host (`example.com`,
      `163.com`), fails its task with the address parser's message before any
      connection is attempted. */
  lemma H3FetchNeedsIpHost(world: H3World, selector: string, i: nat, url: string)
    requires world.parseUrl(url).Ok?
    ensures var h := world.parseUrl(url).value.host;
      H3Fetch(world, selector, i, url).Ok? ==> h.Some? && IsIpHost(h.value)
    ensures var h := world.parseUrl(url).value.host;
      h.None? || !IsIpHost(h.value) ==> H3Fetch(world, selector, i, url) == Err(AddrParseErrorText)
  {
    var u := world.parseUrl(url).value;
    TargetAddressNeedsIpHost(u.host, u.port, world.v6);
  }

  /** The first URL, in input order, that fails has no IP host: the whole
      batch fails with a `ConnectionError` carrying the address parser's
      message, whatever the later tasks do. */
  lemma H3DomainHostAbortsBatch(world: H3World, selector: string, urls: seq<string>, k: nat, r: Result<Batch, PyErr>)
    requires k < |urls| && world.joinError(k, urls[k]).None?
    requires world.parseUrl(urls[k]).Ok?
    requires var h := world.parseUrl(urls[k]).value.host;
      h.None? || !IsIpHost(h.value)
    requires forall j | 0 <= j < k :: Succeeded(H3Task(world, selector, j, urls[j]))
    requires AggregatedFrom(H3Tasks(world, selector, urls), r)
    ensures r == Err(ConnectionError(AddrParseErrorText))
  {
    var tasks := H3Tasks(world, selector, urls);
    H3FetchNeedsIpHost(world, selector, k, urls[k]);
    assert FirstFailure(tasks, k);
    FirstErrorWins(tasks, k, r);
  }
}
