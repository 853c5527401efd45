/** The body of `main` after loading: build the candidates, classify each one
    with the WHOIS answer it gets, and emit one status line per candidate. Printing
    is appending to the returned list of lines. */
module Reporter {
  import opened Dates
  import opened Classifier
  import opened Candidates

  const AvailableText := "AVAILABLE"
  const ExpiresText := "REGISTERED (Expires on "
  const NoDateText := "REGISTERED (Expiration date not found)"

  /** What follows "<domain>: " on the line for an outcome. */
  function StatusText(outcome: Outcome): string {
    match outcome
    case Available => AvailableText
    case RegisteredWithExpiry(date) => ExpiresText + FormatDate(date) + ")"
    case RegisteredUnknownExpiry => NoDateText
  }

  /** The line printed for a candidate with a given outcome. */
  function StatusLine(domain: string, outcome: Outcome): string {
    domain + ": " + StatusText(outcome)
  }

  /** Every line starts with its domain and ": "; the three kinds of line have
      different lengths, and a dated line holds the formatted date at a fixed offset. */
  lemma StatusLineShape(domain: string, outcome: Outcome)
    ensures var line := StatusLine(domain, outcome);
      |line| > |domain| + 2 && line[..|domain| + 2] == domain + ": " &&
      (outcome == Available ==> |line| == |domain| + 11) &&
      (outcome == RegisteredUnknownExpiry ==> |line| == |domain| + 40) &&
      (outcome.RegisteredWithExpiry? ==>
        |line| == |domain| + 36 && line[|domain| + 25..|domain| + 35] == FormatDate(outcome.date))
  {
    var prefix, text := domain + ": ", StatusText(outcome);
    var line := prefix + text;
    assert line[..|prefix|] == prefix;
    match outcome
    case Available =>
      assert |text| == 9;
    case RegisteredUnknownExpiry =>
      assert |text| == 38;
    case RegisteredWithExpiry(date) =>
      var formatted := FormatDate(date);
      FormatDateFields(date);
      assert text == ExpiresText + formatted + ")";
      assert text[23..33] == formatted;
      assert line[|prefix| + 23..|prefix| + 33] == text[23..33];
  }

  /** A line tells its outcome apart from every other outcome, down to the
      expiration date. */
  lemma StatusLineInjective(domain: string, o1: Outcome, o2: Outcome)
    ensures StatusLine(domain, o1) == StatusLine(domain, o2) ==> o1 == o2
  {
    StatusLineShape(domain, o1);
    StatusLineShape(domain, o2);
    if o1.RegisteredWithExpiry? && o2.RegisteredWithExpiry? {
      FormatDateInjective(o1.date, o2.date);
    }
  }

  /** The line for candidate `d` when the WHOIS query for it answers `lookup(d)`. */
  function LineFor(d: string, lookup: string -> WhoisAnswer): string {
    StatusLine(d, Classify(lookup(d)))
  }

  /** One step of the reporting loop: classify the candidate's WHOIS answer and
      pick the line from the flag and the truthiness of the expiration value. */
  method ReportOne(d: string, answer: WhoisAnswer) returns (line: string)
    ensures line == StatusLine(d, Classify(answer))
  {
    var result := CheckDomain(answer);
    InterpretCheckDomain(answer);
    if result.isAvailable {
      line := d + ": " + AvailableText;
    } else if Truthy(result.expiration) {
      line := d + ": " + (ExpiresText + FormatDate(result.expiration.date) + ")");
    } else {
      line := d + ": " + NoDateText;
    }
  }

  /** The reporting loop of `main`, run over the candidates built from the two
      lists; `lookup` stands for the WHOIS query made for each candidate. */
  method CheckDomains(domains: seq<string>, extensions: seq<string>, lookup: string -> WhoisAnswer)
    returns (output: seq<string>)
    ensures |output| == |domains| * |extensions|
    ensures domains == [] || extensions == [] ==> output == []
    ensures forall k :: 0 <= k < |output| ==> output[k] == LineFor(FullDomains(domains, extensions)[k], lookup)
  {
    var fullDomains := FullDomains(domains, extensions);
    output := [];
    for n := 0 to |fullDomains|
      invariant |output| == n
      invariant forall k :: 0 <= k < n ==> output[k] == LineFor(fullDomains[k], lookup)
    {
      var d := fullDomains[n];
      var line := ReportOne(d, lookup(d));
      output := output + [line];
    }
    FullDomainsEmpty(domains, extensions);
  }

  /** In a report that follows the candidate list, the line for base name `i`
      with extension `j` sits at position `i * |extensions| + j`. */
  lemma ReportedAt(domains: seq<string>, extensions: seq<string>, lookup: string -> WhoisAnswer,
                   output: seq<string>, i: nat, j: nat)
    requires |output| == |FullDomains(domains, extensions)|
    requires forall k :: 0 <= k < |output| ==> output[k] == LineFor(FullDomains(domains, extensions)[k], lookup)
    requires i < |domains| && j < |extensions|
    ensures 0 <= i * |extensions| + j < |output|
    ensures output[i * |extensions| + j] == LineFor(Candidate(domains[i], extensions[j]), lookup)
  {
    FullDomainsAt(domains, extensions, i, j);
  }

  function ScenarioLookup(domain: string): WhoisAnswer {
    if domain == "foo.com" then NotFound
    else Record(true, NScalar(domain), EScalar(CalendarDate(2025, 6, 15)))
  }

  /** The candidates of the scenario below. */
  lemma ScenarioCandidates()
    ensures FullDomains(["foo"], ["com", "net"]) == ["foo.com", "foo.net"]
  {
    var row := WithExtensions("foo", ["com", "net"]);
    assert ["foo"][1..] == [];
    assert FullDomains(["foo"], ["com", "net"]) == row + [];
    assert row[0] == Candidate("foo", "com") == "foo.com";
    assert row[1] == Candidate("foo", "net") == "foo.net";
  }

  /** The lines of the scenario below, from the classifier and formatter alone. */
  lemma ScenarioLines()
    ensures LineFor("foo.com", ScenarioLookup) == "foo.com" + ": " + "AVAILABLE"
    ensures LineFor("foo.net", ScenarioLookup) == "foo.net" + ": " + ("REGISTERED (Expires on " + "2025-06-15" + ")")
  {
    assert ScenarioLookup("foo.com") == NotFound;
    assert "foo.net"[4] != "foo.com"[4];
    assert Classify(ScenarioLookup("foo.net")) == RegisteredWithExpiry(CalendarDate(2025, 6, 15));
    FormatDateExample();
  }

  /** One base name, two extensions: the first candidate is not found, the
      second is registered until 15 June 2025. */
  method Scenario() returns (output: seq<string>)
    ensures output == ["foo.com" + ": " + "AVAILABLE", "foo.net" + ": " + ("REGISTERED (Expires on " + "2025-06-15" + ")")]
  {
    output := CheckDomains(["foo"], ["com", "net"], ScenarioLookup);
    ScenarioCandidates();
    ScenarioLines();
    assert output[0] == LineFor("foo.com", ScenarioLookup);
    assert output[1] == LineFor("foo.net", ScenarioLookup);
  }
}
