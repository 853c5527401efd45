# Domain status checker, modelled in Dafny

The checker reads a list of base names and a list of extensions. It builds every
candidate `name.extension`, asks WHOIS about each candidate, and prints one line
per candidate. The line says whether the domain is available or registered, and
for a registered domain it gives the expiration date when the WHOIS record has one.

The model covers the three pieces of `check_domains.py` that decide what is printed:

- **Candidates** (`candidates.dfy`). This is the comprehension
  `[f"{d}.{ext}" for d in domains for ext in extensions]`, written as pure
  recursive functions. It comes with the length law, the row/column index law,
  its converse and the emptiness law.
- **Classifier** (`classifier.dfy`). This is `check_domain`, with the WHOIS
  lookup replaced by its answer, which is an input value: `NotFound` (the
  parser's not-found error), `OtherFailure` (any other exception) or
  `Record(present, domainName, expiration)`. The two dynamically typed record
  fields are tagged unions: `NNone | NList | NScalar` and `ENone | EList | EScalar`.
  The function returns the pair `(isAvailable, expiration)`. `Classify` states
  the three outcomes the output distinguishes (available, registered with a
  date, registered without a date) directly on the answer. `InterpretCheckDomain`
  shows that the pair, read the way the reporting loop reads it, gives exactly
  that outcome.
- **Dates** (`dates.dfy`). A `datetime` is reduced to a valid calendar date,
  and `strftime("%Y-%m-%d")` to zero-padded digit groups. Each group is proved
  to read back as its field.
- **Reporter** (`reporter.dfy`). This is the `for d in full_domains` loop of
  `main`. It is a method that appends one line per candidate to an output
  sequence. `print` becomes that append, and the WHOIS query becomes the
  parameter `lookup: string -> WhoisAnswer`.

`check_domain` returns an empty expiration list unchanged as the expiration
value (`check_domains.py:31-34`). Only the truthiness test of the reporting loop
(`check_domains.py:60`) makes such a candidate print "Expiration date not found".
The model follows the code: `CheckDomain` returns `EList([])`, and
`InterpretCheckDomain` proves that the printed outcome is the same as for a
record without an expiration date.

## Model

| member | source | states |
|---|---|---|
| `Candidates.Candidate` | check_domains.py:52 | one candidate is the base name, ".", then the extension; its law is stated by `Candidates.CandidateParts` |
| `Candidates.CandidateParts` | check_domains.py:52 | a candidate is the base name at positions `0..|base|`, a dot after it, then the extension, and its length is the sum of the three parts |
| `Candidates.WithExtensions` | check_domains.py:52 | the inner loop: one base name paired with every extension, in extension order, one candidate per extension |
| `Candidates.FullDomains` | check_domains.py:52 | the candidate list has exactly `|domains| * |extensions|` elements |
| `Candidates.FullDomainsAt` | check_domains.py:52 | element `i * |extensions| + j` is `domains[i] + "." + extensions[j]`, so base names are the outer loop and extensions the inner loop |
| `Candidates.FullDomainsIndex` | check_domains.py:52 | conversely, every element `k` is base name `k / n` joined with extension `k % n`, where `n` is the number of extensions, so no candidate comes from anywhere else |
| `Candidates.FullDomainsEmpty` | check_domains.py:52 | the candidate list is empty if and only if the base-name list or the extension list is empty |
| `Classifier.CheckDomain` | check_domains.py:10-41 | available exactly for a not-found error, a falsy record, or a `domain_name` that is None or an empty list (an empty string counts as registered); an available result has no expiration; any other failure gives `(False, None)`; for a registered record, a non-empty expiration list gives its first date and anything else (None, one date, an empty list) is passed through unchanged; the only truthy expiration returned is a single date |
| `Classifier.Truthy` | check_domains.py:60 | the `if expiration_date:` test: an expiration value is truthy exactly when it carries at least one date (None and an empty list are falsy) |
| `Classifier.LooksUnregistered` | check_domains.py:24 | the availability test on a returned record: a falsy record always passes; a `domain_name` of None means available; a single name, even the empty string, means registered; a list of names means registered exactly when it is non-empty |
| `Classifier.Classify` | check_domains.py:20-65 | the intended outcome of a WHOIS answer: available exactly for not-found or an unregistered-looking record; a reported date is the first date the record carries; registered without a date exactly for any other failure or a registered record that carries no date |
| `Classifier.Interpret` | check_domains.py:56-65 | the loop reports "available" exactly when the flag is set, reports a date exactly when the domain is registered and the expiration value is truthy, and the date it reports is that expiration value's date |
| `Classifier.InterpretCheckDomain` | check_domains.py:20-41 | the pair returned by `check_domain`, read as the loop reads it, is the intended outcome `Classify` gives for every WHOIS answer (not found or no name means available, the first or only date when there is one, and registered without a date for a failure, None or an empty list) |
| `Dates.Padded` | check_domains.py:62 | a number below `10^width` printed as exactly `width` decimal digits, which read back as the number |
| `Dates.FormatDate` | check_domains.py:62 | `strftime("%Y-%m-%d")` on the date; its laws are stated by `Dates.FormatDateFields` (layout and read-back), `Dates.FormatDateInjective` and `Dates.FormatDateExample` |
| `Dates.FormatDateFields` | check_domains.py:62 | `%Y-%m-%d` is ten characters with dashes at positions 4 and 7, and its three digit groups read back as the year, month and day |
| `Dates.FormatDateInjective` | check_domains.py:62 | two different dates never print the same text |
| `Dates.FormatDateExample` | check_domains.py:62 | 15 June 2025 prints as `2025-06-15` |
| `Reporter.StatusText` | check_domains.py:57-65 | the text after "<domain>: " for each outcome: `AVAILABLE`, `REGISTERED (Expires on <date>)` or `REGISTERED (Expiration date not found)`; its laws are stated by `Reporter.StatusLineShape` and `Reporter.StatusLineInjective` |
| `Reporter.StatusLine` | check_domains.py:57-65 | the three f-strings of lines 58, 63 and 65: the domain, ": " and the status text; its laws are stated by `Reporter.StatusLineShape` and `Reporter.StatusLineInjective` |
| `Reporter.StatusLineShape` | check_domains.py:57-65 | every line starts with the domain followed by ": "; the available, dated and undated lines have different lengths; a dated line holds the formatted date at a fixed offset |
| `Reporter.StatusLineInjective` | check_domains.py:57-65 | for one domain, the line determines the outcome, including the expiration date |
| `Reporter.ReportOne` | check_domains.py:56-65 | one loop step: the line chosen from the flag and the truthiness of the expiration value is the status line of `Classify` of the answer |
| `Reporter.CheckDomains` | check_domains.py:52-65 | one line per candidate, `|domains| * |extensions|` lines in all, in candidate order; line `k` is the status line of candidate `k` for the WHOIS answer about that candidate; no lines when either input list is empty |
| `Reporter.ReportedAt` | check_domains.py:52-65 | in such a report, the line for base name `i` with extension `j` is at position `i * |extensions| + j` |
| `Reporter.ScenarioCandidates` | check_domains.py:52 | base name `foo` with extensions `com`, `net` gives `foo.com` then `foo.net` |
| `Reporter.ScenarioLines` | check_domains.py:56-65 | a not-found `foo.com` prints `foo.com: AVAILABLE`; a `foo.net` registered until 2025-06-15 prints `foo.net: REGISTERED (Expires on 2025-06-15)` |
| `Reporter.Scenario` | check_domains.py:52-65 | the whole loop on that input prints exactly those two lines, in that order |

## Left out

- Loading `domains.json` and `extensions.json` (`load_json_file` and the `.get(..., [])` defaults). This is file I/O and JSON parsing. The two lists are inputs of `CheckDomains`.
- The `whois.whois(domain)` network call. It is a foreign library doing network I/O. Its result is the input `lookup(d)`. Because `lookup` is a function, a candidate that occurs twice gets the same answer both times, whereas two real queries could be answered differently.
- Exceptions raised while the record's attributes are read, inside the `try`. The source catches them like a failing lookup, so they are covered by `OtherFailure`.
- Writing to standard output. Each `print` is an append to the returned `seq<string>`.
- The `str(expiration_date)` fallback for an expiration value that is not a `datetime`. It depends on Python's object stringification. The model's expiration field holds only dates. `CheckDomain` never returns a non-empty list, so the reporting loop never meets one.
- Python truthiness of arbitrary record objects. It is reduced to the `present` flag of `Record`. List entries that are not strings or dates are not modelled.
- The time-of-day part of a `datetime`. Only the date is printed.
- `Dates.FormatDate`: always pads the year to four digits. Some C libraries print a year below 1000 without leading zeros.
- The `if __name__ == "__main__"` entry point.
