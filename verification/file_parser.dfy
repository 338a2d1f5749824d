/**
 * Statement ingestion, after src/lib/fileParser.ts: the bank layout catalogue, column-layout
 * detection, amount and date normalisation, row conversion with per-row errors, the Excel
 * grid-to-rows step, and the composition of the final result for a CSV or Excel upload.
 *
 * The CSV tokeniser and the workbook decoder are foreign libraries: their output (headers,
 * row maps and reader errors, or the first sheet's string grid) is taken as input.
 */
module FileParser {
  import opened Wrappers
  import opened JsText
  import opened Types

  // ---------------------------------------------------------------------------------------
  // The layout catalogue
  // ---------------------------------------------------------------------------------------

  /** The columns one institution's export uses; the raw-description column is optional. */
  datatype FormatColumns = FormatColumns(
    date: string,
    description: string,
    amount: string,
    rawDescription: Option<string>)

  datatype BankFormat = BankFormat(key: string, name: string, columns: FormatColumns)

  /** `bankFormats`, in the order `Object.entries` lists it. */
  const BankFormats: seq<BankFormat> := [
    BankFormat("chase", "Chase Bank", FormatColumns("Transaction Date", "Description", "Amount", None)),
    BankFormat("bankOfAmerica", "Bank of America", FormatColumns("Date", "Description", "Amount", None)),
    BankFormat("citibank", "Citibank", FormatColumns("Date", "Description", "Debit", None)),
    BankFormat("wellsFargo", "Wells Fargo", FormatColumns("Date", "Description", "Amount", None)),
    BankFormat("capitalOne", "Capital One", FormatColumns("Transaction Date", "Description", "Transaction Amount", None)),
    BankFormat("amex", "American Express", FormatColumns("Date", "Description", "Amount", None)),
    BankFormat("usBank", "US Bank", FormatColumns("Date", "Description", "Amount", None)),
    BankFormat("pnc", "PNC Bank", FormatColumns("Date", "Description", "Withdrawals", None)),
    BankFormat("tdBank", "TD Bank", FormatColumns("Date", "Description", "Amount", None)),
    BankFormat("monarch", "Monarch/Generic", FormatColumns("Date", "Merchant", "Amount", Some("Original Statement"))),
    BankFormat("generic", "Generic CSV", FormatColumns("Date", "Description", "Amount", None))
  ]

  // ---------------------------------------------------------------------------------------
  // Layout detection
  // ---------------------------------------------------------------------------------------

  /** `headers.map(h => h.toLowerCase())`. */
  function LowerAll(headers: seq<string>): (lower: seq<string>)
    ensures |lower| == |headers|
    ensures forall i :: 0 <= i < |headers| ==> lower[i] == Lower(headers[i])
  {
    seq(|headers|, i requires 0 <= i < |headers| => Lower(headers[i]))
  }

  /** The optional raw-description column, when it is set and not `''`. */
  function RawColumn(cols: FormatColumns): Option<string> {
    if cols.rawDescription.Some? && cols.rawDescription.value != "" then cols.rawDescription else None
  }

  /** How many of the three required columns occur among the lower-cased headers. */
  function RequiredFound(cols: FormatColumns, lowerHeaders: seq<string>): nat {
    (if Lower(cols.date) in lowerHeaders then 1 else 0)
    + (if Lower(cols.description) in lowerHeaders then 1 else 0)
    + (if Lower(cols.amount) in lowerHeaders then 1 else 0)
  }

  /**
   * One catalogue entry's score: 3 for each required column found case-insensitively, and 1
   * more when its raw-description column is found. The acceptance threshold of 6 is reached
   * exactly when two of the three required columns are present.
   */
  function Score(cols: FormatColumns, lowerHeaders: seq<string>): (score: nat)
    ensures score == 3 * RequiredFound(cols, lowerHeaders)
                     + (if RawColumn(cols).Some? && Lower(RawColumn(cols).value) in lowerHeaders then 1 else 0)
    ensures score >= 6 <==> RequiredFound(cols, lowerHeaders) >= 2
    ensures score <= 10
  {
    (if Lower(cols.date) in lowerHeaders then 3 else 0)
    + (if Lower(cols.description) in lowerHeaders then 3 else 0)
    + (if Lower(cols.amount) in lowerHeaders then 3 else 0)
    + (if RawColumn(cols).Some? && Lower(RawColumn(cols).value) in lowerHeaders then 1 else 0)
  }

  /** The `scores` dictionary, one entry per catalogue entry in catalogue order. */
  function Scores(formats: seq<BankFormat>, lowerHeaders: seq<string>): (scores: seq<nat>)
    ensures |scores| == |formats|
  {
    seq(|formats|, i requires 0 <= i < |formats| => Score(formats[i].columns, lowerHeaders))
  }

  /** The `forEach` over the catalogue that fills `scores`. */
  method ScoreFormats(formats: seq<BankFormat>, lowerHeaders: seq<string>) returns (scores: seq<nat>)
    ensures |scores| == |formats|
    ensures forall i :: 0 <= i < |formats| ==> scores[i] == Score(formats[i].columns, lowerHeaders)
    ensures scores == Scores(formats, lowerHeaders)
  {
    scores := [];
    for i := 0 to |formats|
      invariant |scores| == i
      invariant forall j :: 0 <= j < i ==> scores[j] == Score(formats[j].columns, lowerHeaders)
    {
      scores := scores + [Score(formats[i].columns, lowerHeaders)];
    }
  }

  /**
   * The `reduce` that picks the best entry: it keeps the earlier entry only when its score is
   * strictly greater, so the result is a top-scoring index with every later index scoring
   * strictly less, i.e. the LAST of the top-scoring entries.
   */
  function BestIndex(scores: seq<nat>): (best: nat)
    requires |scores| > 0
    ensures best < |scores|
    ensures forall j :: 0 <= j < |scores| ==> scores[j] <= scores[best]
    ensures forall j :: best < j < |scores| ==> scores[j] < scores[best]
  {
    if |scores| == 1 then 0
    else
      var a := BestIndex(scores[..|scores| - 1]);
      var last := |scores| - 1;
      if scores[a] > scores[last] then a else last
  }

  /** Index of the first element satisfying `p`, or `|xs|` when none does: what both
      `find(p)` and `filter(p)[0]` select. */
  function FirstWhere(xs: seq<string>, p: string -> bool): (k: nat)
    ensures k <= |xs|
    ensures k < |xs| ==> p(xs[k])
    ensures forall j :: 0 <= j < k ==> !p(xs[j])
  {
    if xs == [] then 0 else if p(xs[0]) then 0 else 1 + FirstWhere(xs[1..], p)
  }

  /** `h` is the first header whose lower-case form equals that of `name`. */
  predicate FirstMatchingHeader(headers: seq<string>, name: string, h: string) {
    exists k :: 0 <= k < |headers| && headers[k] == h && Lower(h) == Lower(name)
                && forall j :: 0 <= j < k ==> Lower(headers[j]) != Lower(name)
  }

  /** `headers.find(h => h.toLowerCase() === name.toLowerCase())`. */
  function FindHeader(headers: seq<string>, name: string): (r: Option<string>)
    ensures r.Some? ==> r.value in headers && FirstMatchingHeader(headers, name, r.value)
    ensures r.None? <==> Lower(name) !in LowerAll(headers)
  {
    var k := FirstWhere(headers, h => Lower(h) == Lower(name));
    if k < |headers| then
      assert forall j :: 0 <= j < k ==> Lower(headers[j]) != Lower(name);
      Some(headers[k])
    else
      assert forall i :: 0 <= i < |headers| ==> LowerAll(headers)[i] != Lower(name);
      None
  }

  /** `headers.find(...) || name`: the header spelled like the catalogue name, else that name. */
  function ResolveColumn(headers: seq<string>, name: string): (r: string)
    ensures Lower(r) == Lower(name)
    ensures Lower(name) in LowerAll(headers) ==> r in headers && FirstMatchingHeader(headers, name, r)
    ensures Lower(name) !in LowerAll(headers) ==> r == name
  {
    match FindHeader(headers, name)
    case Some(h) =>
      if h != "" then h
      else
        assert |name| == |Lower(name)| == |Lower(h)| == 0;
        name
    case None => name
  }

  /** The mapping returned for an accepted catalogue entry, in the file's own spelling. */
  function CatalogueMapping(headers: seq<string>, cols: FormatColumns): (m: CsvMapping)
    ensures Lower(cols.date) in LowerAll(headers) ==> FirstMatchingHeader(headers, cols.date, m.dateColumn)
    ensures Lower(cols.date) !in LowerAll(headers) ==> m.dateColumn == cols.date
    ensures Lower(cols.description) in LowerAll(headers) ==>
              FirstMatchingHeader(headers, cols.description, m.descriptionColumn)
    ensures Lower(cols.description) !in LowerAll(headers) ==> m.descriptionColumn == cols.description
    ensures Lower(cols.amount) in LowerAll(headers) ==> FirstMatchingHeader(headers, cols.amount, m.amountColumn)
    ensures Lower(cols.amount) !in LowerAll(headers) ==> m.amountColumn == cols.amount
    ensures m.rawDescriptionColumn.Some? <==>
              RawColumn(cols).Some? && Lower(RawColumn(cols).value) in LowerAll(headers)
    ensures m.rawDescriptionColumn.Some? ==>
              m.rawDescriptionColumn.value in headers
              && FirstMatchingHeader(headers, RawColumn(cols).value, m.rawDescriptionColumn.value)
  {
    CsvMapping(
      ResolveColumn(headers, cols.date),
      ResolveColumn(headers, cols.description),
      ResolveColumn(headers, cols.amount),
      if RawColumn(cols).Some? then FindHeader(headers, RawColumn(cols).value) else None)
  }

  /** `/date|posted|transaction.*date/i` (the third alternative only matches text the first does). */
  predicate IsDateHeader(h: string) {
    var l := Lower(h);
    Includes(l, "date") || Includes(l, "posted")
  }

  /** `/description|merchant|payee|details|name/i` and not `/original/i`. */
  predicate IsDescriptionHeader(h: string) {
    var l := Lower(h);
    (Includes(l, "description") || Includes(l, "merchant") || Includes(l, "payee")
     || Includes(l, "details") || Includes(l, "name"))
    && !Includes(l, "original")
  }

  /** `/amount|debit|credit|withdrawal|deposit|charge/i`. */
  predicate IsAmountHeader(h: string) {
    var l := Lower(h);
    Includes(l, "amount") || Includes(l, "debit") || Includes(l, "credit")
    || Includes(l, "withdrawal") || Includes(l, "deposit") || Includes(l, "charge")
  }

  /** The three keyword tests carry the `i` flag: a header and its lower-cased form agree. */
  lemma KeywordTestsIgnoreCase(h: string)
    ensures IsDateHeader(h) == IsDateHeader(Lower(h))
    ensures IsDescriptionHeader(h) == IsDescriptionHeader(Lower(h))
    ensures IsAmountHeader(h) == IsAmountHeader(Lower(h))
  {
    LowerIdempotent(h);
  }

  /**
   * The keyword fallback: each role takes the first header matching its keywords; there is
   * no raw-description column; and there is no mapping when some role has no candidate.
   */
  function KeywordMapping(headers: seq<string>): (r: Option<CsvMapping>)
    ensures r.Some? <==>
      (exists i :: 0 <= i < |headers| && IsDateHeader(headers[i]))
      && (exists i :: 0 <= i < |headers| && IsDescriptionHeader(headers[i]))
      && (exists i :: 0 <= i < |headers| && IsAmountHeader(headers[i]))
    ensures r.Some? ==>
      && r.value.rawDescriptionColumn.None?
      && r.value.dateColumn == headers[FirstWhere(headers, IsDateHeader)]
      && r.value.descriptionColumn == headers[FirstWhere(headers, IsDescriptionHeader)]
      && r.value.amountColumn == headers[FirstWhere(headers, IsAmountHeader)]
  {
    var d := FirstWhere(headers, IsDateHeader);
    var s := FirstWhere(headers, IsDescriptionHeader);
    var a := FirstWhere(headers, IsAmountHeader);
    if d < |headers| && s < |headers| && a < |headers| then
      Some(CsvMapping(headers[d], headers[s], headers[a], None))
    else
      None
  }

  /** No catalogue entry finds two of its required columns among the lower-cased headers. */
  predicate NoEntryAccepts(formats: seq<BankFormat>, lowerHeaders: seq<string>) {
    forall i :: 0 <= i < |formats| ==> RequiredFound(formats[i].columns, lowerHeaders) < 2
  }

  /** Detection against a catalogue: the best-scoring entry when it reaches 6, else the keywords. */
  function Detect(formats: seq<BankFormat>, headers: seq<string>): (r: Option<CsvMapping>)
    requires |formats| > 0
    ensures r.None? <==> NoEntryAccepts(formats, LowerAll(headers)) && KeywordMapping(headers).None?
  {
    var scores := Scores(formats, LowerAll(headers));
    var best := BestIndex(scores);
    assert forall j :: 0 <= j < |formats| ==> scores[j] == Score(formats[j].columns, LowerAll(headers));
    if scores[best] >= 6 then Some(CatalogueMapping(headers, formats[best].columns))
    else KeywordMapping(headers)
  }

  /** What `detectCSVFormat` returns for a header list. */
  function DetectFormat(headers: seq<string>): (r: Option<CsvMapping>)
    ensures r.Some? ==> PresentRoles(r.value, headers) >= 2
    ensures r.Some? && r.value.rawDescriptionColumn.Some? ==> r.value.rawDescriptionColumn.value in headers
  {
    var r := Detect(BankFormats, headers);
    if r.Some? then
      DetectedColumnsPresent(BankFormats, headers);
      r
    else r
  }

  /** The entry `BestIndex` picks from the scores of a catalogue tops them all, and every entry
      after it scores strictly less. */
  lemma BestEntryScores(formats: seq<BankFormat>, lower: seq<string>)
    requires |formats| > 0
    ensures var b := BestIndex(Scores(formats, lower));
      && b < |formats|
      && (forall j :: 0 <= j < |formats| ==> Score(formats[j].columns, lower) <= Score(formats[b].columns, lower))
      && (forall j :: b < j < |formats| ==> Score(formats[j].columns, lower) < Score(formats[b].columns, lower))
  {
    var scores := Scores(formats, lower);
    assert forall j :: 0 <= j < |formats| ==> scores[j] == Score(formats[j].columns, lower);
  }

  /**
   * The selection rule when some entry finds two of its required columns: the mapping comes
   * from the entry `b` that tops all scores and after which every entry scores strictly less,
   * i.e. the last of the top-scoring entries, and that entry found at least two required columns.
   */
  lemma DetectionAccepts(formats: seq<BankFormat>, headers: seq<string>, i: nat)
    requires i < |formats| && RequiredFound(formats[i].columns, LowerAll(headers)) >= 2
    ensures var b := BestIndex(Scores(formats, LowerAll(headers)));
      && b < |formats|
      && RequiredFound(formats[b].columns, LowerAll(headers)) >= 2
      && (forall j :: 0 <= j < |formats| ==>
            Score(formats[j].columns, LowerAll(headers)) <= Score(formats[b].columns, LowerAll(headers)))
      && (forall j :: b < j < |formats| ==>
            Score(formats[j].columns, LowerAll(headers)) < Score(formats[b].columns, LowerAll(headers)))
      && Detect(formats, headers) == Some(CatalogueMapping(headers, formats[b].columns))
  {
    var lower := LowerAll(headers);
    var b := BestIndex(Scores(formats, lower));
    BestEntryScores(formats, lower);
    assert Scores(formats, lower)[b] == Score(formats[b].columns, lower);
    assert Score(formats[b].columns, lower) >= Score(formats[i].columns, lower) >= 6;
  }

  /** When no entry finds two of its required columns, the keyword fallback decides. */
  lemma DetectionFallsBack(formats: seq<BankFormat>, headers: seq<string>)
    requires |formats| > 0
    requires forall i :: 0 <= i < |formats| ==> RequiredFound(formats[i].columns, LowerAll(headers)) < 2
    ensures Detect(formats, headers) == KeywordMapping(headers)
  {
    var lower := LowerAll(headers);
    var best := BestIndex(Scores(formats, lower));
    assert Scores(formats, lower)[best] == Score(formats[best].columns, lower);
  }

  /** `detectCSVFormat`: scores the catalogue, then selects or falls back. */
  method DetectCSVFormat(headers: seq<string>) returns (mapping: Option<CsvMapping>)
    ensures mapping == DetectFormat(headers)
  {
    var lowerHeaders := LowerAll(headers);
    var scores := ScoreFormats(BankFormats, lowerHeaders);
    var best := BestIndex(scores);
    if scores[best] >= 6 {
      mapping := Some(CatalogueMapping(headers, BankFormats[best].columns));
    } else {
      mapping := KeywordMapping(headers);
    }
  }

  /** How many of a mapping's three role columns are actual headers. */
  function PresentRoles(m: CsvMapping, headers: seq<string>): nat {
    (if m.dateColumn in headers then 1 else 0)
    + (if m.descriptionColumn in headers then 1 else 0)
    + (if m.amountColumn in headers then 1 else 0)
  }

  /**
   * A detected mapping names real headers for at least two of its three roles (all three when
   * it comes from the keyword fallback), and its raw-description column, when set, is a header.
   */
  lemma DetectedColumnsPresent(formats: seq<BankFormat>, headers: seq<string>)
    requires |formats| > 0 && Detect(formats, headers).Some?
    ensures PresentRoles(Detect(formats, headers).value, headers) >= 2
    ensures Detect(formats, headers).value.rawDescriptionColumn.Some? ==>
              Detect(formats, headers).value.rawDescriptionColumn.value in headers
  {
    var lower := LowerAll(headers);
    var scores := Scores(formats, lower);
    var best := BestIndex(scores);
    if scores[best] >= 6 {
      var cols := formats[best].columns;
      assert Score(cols, lower) >= 6;
      CatalogueColumnsPresent(headers, cols);
    } else {
      KeywordColumnsPresent(headers);
    }
  }

  /** The keyword fallback only ever names real headers. */
  lemma KeywordColumnsPresent(headers: seq<string>)
    requires KeywordMapping(headers).Some?
    ensures PresentRoles(KeywordMapping(headers).value, headers) == 3
  {
  }

  /** An accepted catalogue entry resolves each required column it found to a real header. */
  lemma CatalogueColumnsPresent(headers: seq<string>, cols: FormatColumns)
    requires RequiredFound(cols, LowerAll(headers)) >= 2
    ensures PresentRoles(CatalogueMapping(headers, cols), headers) >= 2
  {
  }

  // ---------------------------------------------------------------------------------------
  // Field normalisation
  // ---------------------------------------------------------------------------------------

  /** The characters `/[$,\s]/g` removes. */
  predicate IsAmountNoise(c: char) {
    c == '$' || c == ',' || IsSpace(c)
  }

  predicate IsParen(c: char) {
    c == '(' || c == ')'
  }

  /** The amount text with currency signs, separators and whitespace removed. */
  function CleanAmount(text: string): (cleaned: string)
    ensures forall c :: c in cleaned <==> c in text && !IsAmountNoise(c)
  {
    Without(text, IsAmountNoise)
  }

  /** The text handed to `parseFloat`: the cleaned amount without its parentheses. */
  function AmountNumberText(text: string): (digits: string)
    ensures forall c :: c in digits <==> c in text && !IsAmountNoise(c) && !IsParen(c)
  {
    Without(CleanAmount(text), IsParen)
  }

  /** Accounting notation: the cleaned text holds both an opening and a closing parenthesis. */
  predicate MarkedNegative(text: string) {
    var cleaned := CleanAmount(text);
    '(' in cleaned && ')' in cleaned
  }

  function AbsReal(x: real): (r: real)
    ensures r >= 0.0 && (r == x || r == -x)
  {
    if x < 0.0 then -x else x
  }

  /**
   * `parseAmount`. Blank text is 0. Otherwise the number `parseFloat` reads from the cleaned
   * digits, negated to -|x| under accounting parentheses; an unreadable number is an error
   * that quotes the original text.
   */
  function ParseAmount(text: string, parseFloat: string -> Option<real>): (r: Result<real, string>)
    ensures IsBlank(text) ==> r == Ok(0.0)
    ensures r.Err? <==> !IsBlank(text) && parseFloat(AmountNumberText(text)).None?
    ensures r.Err? ==> r.error == "Invalid amount format: " + text
    ensures r.Ok? && !IsBlank(text) ==>
      var x := parseFloat(AmountNumberText(text)).value;
      if MarkedNegative(text) then r.value == -AbsReal(x) && r.value <= 0.0 else r.value == x
  {
    TrimEmptyIffBlank(text);
    if text == "" || Trim(text) == "" then Ok(0.0)
    else
      var isNegative := MarkedNegative(text);
      match parseFloat(AmountNumberText(text))
      case None => Err("Invalid amount format: " + text)
      case Some(amount) => Ok(if isNegative then -AbsReal(amount) else amount)
  }

  /** Parenthesised digits keep every character through the noise removal. */
  lemma CleanParenthesised(digits: string)
    requires forall i :: 0 <= i < |digits| ==> !IsAmountNoise(digits[i])
    ensures CleanAmount("(" + digits + ")") == "(" + digits + ")"
  {
    WithoutKeepsEnclosed('(', digits, ')', IsAmountNoise);
  }

  /** Parenthesised digits lose their parentheses and nothing else on the way to `parseFloat`. */
  lemma ParenthesisedText(digits: string)
    requires forall i :: 0 <= i < |digits| ==> !IsAmountNoise(digits[i]) && !IsParen(digits[i])
    ensures AmountNumberText("(" + digits + ")") == digits
    ensures MarkedNegative("(" + digits + ")") && !IsBlank("(" + digits + ")")
  {
    var text := "(" + digits + ")";
    CleanParenthesised(digits);
    assert text[0] == '(' && text[|text| - 1] == ')';
    WithoutAppend("(" + digits, ")", IsParen);
    WithoutAppend("(", digits, IsParen);
    WithoutKeeps(digits, IsParen);
  }

  /**
   * Accounting notation: `(` digits `)` reads as the negative of the digits, whatever sign
   * `parseFloat` gives them.
   */
  lemma AccountingNegative(digits: string, parseFloat: string -> Option<real>)
    requires forall i :: 0 <= i < |digits| ==> !IsAmountNoise(digits[i]) && !IsParen(digits[i])
    requires parseFloat(digits).Some?
    ensures ParseAmount("(" + digits + ")", parseFloat) == Ok(-AbsReal(parseFloat(digits).value))
  {
    ParenthesisedText(digits);
  }

  /**
   * The capture groups of `/^(\d{1,2})\/(\d{1,2})\/(\d{4})$/` read as integers
   * (month, day, year), when the text matches.
   */
  function MatchSlashDate(text: string): (r: Option<(nat, nat, nat)>)
    ensures r.Some? ==>
      var parts := Split(text, '/');
      && |parts| == 3
      && text == parts[0] + "/" + parts[1] + "/" + parts[2]
      && 1 <= |parts[0]| <= 2 && 1 <= |parts[1]| <= 2 && |parts[2]| == 4
      && AllDigits(parts[0]) && AllDigits(parts[1]) && AllDigits(parts[2])
  {
    var parts := Split(text, '/');
    if |parts| == 3 && 1 <= |parts[0]| <= 2 && 1 <= |parts[1]| <= 2 && |parts[2]| == 4
       && AllDigits(parts[0]) && AllDigits(parts[1]) && AllDigits(parts[2])
    then
      JoinSplit(text, '/');
      assert parts == [parts[0], parts[1], parts[2]];
      JoinThree(parts[0], parts[1], parts[2], '/');
      Some((FromRadix(parts[0], 10), FromRadix(parts[1], 10), FromRadix(parts[2], 10)))
    else None
  }

  /** Every `M/D/YYYY`-shaped text is matched, with its three digit groups read back. */
  lemma {:induction false} SlashDateMatches(m: string, d: string, y: string)
    requires 1 <= |m| <= 2 && 1 <= |d| <= 2 && |y| == 4
    requires AllDigits(m) && AllDigits(d) && AllDigits(y)
    ensures MatchSlashDate(m + "/" + d + "/" + y) == Some((FromRadix(m, 10), FromRadix(d, 10), FromRadix(y, 10)))
  {
    var parts := [m, d, y];
    assert forall i :: 0 <= i < 3 ==> '/' !in parts[i];
    SplitJoin(parts, '/');
    JoinThree(m, d, y, '/');
  }

  /**
   * `parseDate`: the engine's own parse of the text, else the `M/D/YYYY` fallback built with
   * `new Date(year, month - 1, day)`; an invalid result is an error quoting the text.
   */
  function ParseDate(text: string, engine: Engine): (r: Result<Date, string>)
    ensures r.Ok? ==> r.value.Date?
    ensures r.Err? ==> r.error == "Invalid date format: " + text
    ensures engine.newDate(text).Date? ==> r == Ok(engine.newDate(text))
    ensures engine.newDate(text).InvalidDate? && MatchSlashDate(text).None? ==> r.Err?
    ensures engine.newDate(text).InvalidDate? && MatchSlashDate(text).Some? ==>
      var (month, day, year) := MatchSlashDate(text).value;
      && (r.Ok? <==> engine.dateFromParts(year, month - 1, day).Date?)
      && (r.Ok? ==> r.value == engine.dateFromParts(year, month - 1, day))
  {
    var direct := engine.newDate(text);
    if direct.Date? then Ok(direct)
    else
      match MatchSlashDate(text)
      case Some((month, day, year)) =>
        var built := engine.dateFromParts(year, month - 1, day);
        if built.Date? then Ok(built) else Err("Invalid date format: " + text)
      case None => Err("Invalid date format: " + text)
  }

  // ---------------------------------------------------------------------------------------
  // Row conversion
  // ---------------------------------------------------------------------------------------

  /** `!value` is false: the key exists and the cell is not `''`. */
  predicate HasValue(row: Row, column: string) {
    column in row && row[column] != ""
  }

  /** The prefix of every row error: `Row {index + 2}: `. */
  function RowLabel(index: nat): string {
    "Row " + IntToString(index + 2) + ": "
  }

  /** `mapping.rawDescriptionColumn ? row[column] : undefined`. */
  function RawDescriptionOf(row: Row, mapping: CsvMapping): Option<string> {
    match mapping.rawDescriptionColumn
    case Some(column) => if column != "" && column in row then Some(row[column]) else None
    case None => None
  }

  /** All three mapped cells hold text. */
  predicate RowComplete(row: Row, mapping: CsvMapping) {
    HasValue(row, mapping.dateColumn) && HasValue(row, mapping.descriptionColumn)
    && HasValue(row, mapping.amountColumn)
  }

  /**
   * The outcome of one row (the body of the `forEach`): a missing cell, then a date failure,
   * then an amount failure each give one labelled error; otherwise one candidate with a
   * trimmed description, the optional raw description and the whole row kept.
   */
  function ConvertRow(row: Row, index: nat, mapping: CsvMapping, engine: Engine): (r: Result<Candidate, string>)
    ensures r.Err? ==> RowLabel(index) <= r.error
    ensures !RowComplete(row, mapping) ==> r == Err(RowLabel(index) + "Missing required data")
    ensures RowComplete(row, mapping) && ParseDate(row[mapping.dateColumn], engine).Err? ==>
              r == Err(RowLabel(index) + ParseDate(row[mapping.dateColumn], engine).error)
    ensures RowComplete(row, mapping) && ParseDate(row[mapping.dateColumn], engine).Ok?
            && ParseAmount(row[mapping.amountColumn], engine.parseFloat).Err? ==>
              r == Err(RowLabel(index) + ParseAmount(row[mapping.amountColumn], engine.parseFloat).error)
    ensures r.Ok? <==>
      RowComplete(row, mapping)
      && ParseDate(row[mapping.dateColumn], engine).Ok?
      && ParseAmount(row[mapping.amountColumn], engine.parseFloat).Ok?
    ensures r.Ok? ==>
      && r.value.date.Date?
      && r.value.date == ParseDate(row[mapping.dateColumn], engine).value
      && r.value.amount == ParseAmount(row[mapping.amountColumn], engine.parseFloat).value
      && r.value.description == Trim(row[mapping.descriptionColumn])
      && r.value.rawDescription == RawDescriptionOf(row, mapping)
      && r.value.originalData == row
  {
    if !RowComplete(row, mapping) then Err(RowLabel(index) + "Missing required data")
    else
      match ParseDate(row[mapping.dateColumn], engine)
      case Err(e) => Err(RowLabel(index) + e)
      case Ok(date) =>
        match ParseAmount(row[mapping.amountColumn], engine.parseFloat)
        case Err(e) => Err(RowLabel(index) + e)
        case Ok(amount) =>
          Ok(Candidate(date, Trim(row[mapping.descriptionColumn]), amount, RawDescriptionOf(row, mapping), row))
  }

  /** A whitespace-only description passes the missing-data check and is kept as `''`. */
  lemma BlankDescriptionKept(row: Row, index: nat, mapping: CsvMapping, engine: Engine)
    requires RowComplete(row, mapping) && IsBlank(row[mapping.descriptionColumn])
    requires ParseDate(row[mapping.dateColumn], engine).Ok?
    requires ParseAmount(row[mapping.amountColumn], engine.parseFloat).Ok?
    ensures ConvertRow(row, index, mapping, engine).Ok?
    ensures ConvertRow(row, index, mapping, engine).value.description == ""
  {
    TrimEmptyIffBlank(row[mapping.descriptionColumn]);
  }

  /**
   * A whitespace-only amount cell is not empty, so it passes the missing-data check
   * (`RowComplete`), and it converts to an amount of 0.
   */
  lemma BlankAmountIsZero(row: Row, index: nat, mapping: CsvMapping, engine: Engine)
    requires RowComplete(row, mapping) && IsBlank(row[mapping.amountColumn])
    requires ParseDate(row[mapping.dateColumn], engine).Ok?
    ensures ConvertRow(row, index, mapping, engine).Ok?
    ensures ConvertRow(row, index, mapping, engine).value.amount == 0.0
  {
  }

  /** One outcome per row, in row order, each computed from its own row and index alone. */
  function RowOutcomes(rows: seq<Row>, mapping: CsvMapping, engine: Engine): (outcomes: seq<Result<Candidate, string>>)
    ensures |outcomes| == |rows|
  {
    if rows == [] then []
    else RowOutcomes(rows[..|rows| - 1], mapping, engine) + [ConvertRow(rows[|rows| - 1], |rows| - 1, mapping, engine)]
  }

  /** The outcome of row `i` is that row converted on its own, under its own index. */
  lemma {:induction false} RowOutcomeAt(rows: seq<Row>, i: nat, mapping: CsvMapping, engine: Engine)
    requires i < |rows|
    ensures RowOutcomes(rows, mapping, engine)[i] == ConvertRow(rows[i], i, mapping, engine)
  {
    var init := rows[..|rows| - 1];
    var earlier := RowOutcomes(init, mapping, engine);
    var last := ConvertRow(rows[|rows| - 1], |rows| - 1, mapping, engine);
    assert RowOutcomes(rows, mapping, engine) == earlier + [last];
    if i < |rows| - 1 {
      assert init[i] == rows[i];
      RowOutcomeAt(init, i, mapping, engine);
      assert (earlier + [last])[i] == earlier[i];
    } else {
      assert (earlier + [last])[i] == last;
    }
  }

  /** Converting one more row adds its outcome to exactly one of the two lists. */
  lemma OutcomesStep(rows: seq<Row>, index: nat, mapping: CsvMapping, engine: Engine)
    requires index < |rows|
    ensures var c := ConvertRow(rows[index], index, mapping, engine);
      && Successes(RowOutcomes(rows[..index + 1], mapping, engine))
         == Successes(RowOutcomes(rows[..index], mapping, engine)) + (if c.Ok? then [c.value] else [])
      && Failures(RowOutcomes(rows[..index + 1], mapping, engine))
         == Failures(RowOutcomes(rows[..index], mapping, engine)) + (if c.Err? then [c.error] else [])
  {
    assert rows[..index + 1][..index] == rows[..index];
  }

  /** The candidates of the successful outcomes, in order. */
  function Successes(outcomes: seq<Result<Candidate, string>>): seq<Candidate> {
    if outcomes == [] then []
    else
      var last := outcomes[|outcomes| - 1];
      Successes(outcomes[..|outcomes| - 1]) + (if last.Ok? then [last.value] else [])
  }

  /** The messages of the failed outcomes, in order. */
  function Failures(outcomes: seq<Result<Candidate, string>>): seq<string> {
    if outcomes == [] then []
    else
      var last := outcomes[|outcomes| - 1];
      Failures(outcomes[..|outcomes| - 1]) + (if last.Err? then [last.error] else [])
  }

  /** Every outcome is either a candidate or an error, never both and never neither. */
  lemma {:induction false} OutcomeCount(outcomes: seq<Result<Candidate, string>>)
    ensures |Successes(outcomes)| + |Failures(outcomes)| == |outcomes|
  {
    if outcomes != [] {
      OutcomeCount(outcomes[..|outcomes| - 1]);
    }
  }

  /** Both lists keep batch order: converting two batches one after the other concatenates. */
  lemma {:induction false} OutcomesConcatenate(a: seq<Result<Candidate, string>>, b: seq<Result<Candidate, string>>)
    ensures Successes(a + b) == Successes(a) + Successes(b)
    ensures Failures(a + b) == Failures(a) + Failures(b)
    decreases |b|
  {
    if b == [] {
      assert a + b == a;
    } else {
      var b' := b[..|b| - 1];
      assert (a + b)[..|a + b| - 1] == a + b';
      assert (a + b)[|a + b| - 1] == b[|b| - 1];
      OutcomesConcatenate(a, b');
    }
  }

  /** `convertRowsToTransactions`: the candidates and the errors of all rows. */
  function ConvertRows(rows: seq<Row>, mapping: CsvMapping, engine: Engine): (r: (seq<Candidate>, seq<string>))
    ensures |r.0| + |r.1| == |rows|
  {
    var outcomes := RowOutcomes(rows, mapping, engine);
    OutcomeCount(outcomes);
    (Successes(outcomes), Failures(outcomes))
  }

  /** The row loop of `convertRowsToTransactions`, pushing into `transactions` or `errors`. */
  method ConvertRowsToTransactions(rows: seq<Row>, mapping: CsvMapping, engine: Engine)
    returns (transactions: seq<Candidate>, errors: seq<string>)
    ensures (transactions, errors) == ConvertRows(rows, mapping, engine)
    ensures |transactions| + |errors| == |rows|
  {
    transactions, errors := [], [];
    for index := 0 to |rows|
      invariant transactions == Successes(RowOutcomes(rows[..index], mapping, engine))
      invariant errors == Failures(RowOutcomes(rows[..index], mapping, engine))
    {
      var row := rows[index];
      OutcomesStep(rows, index, mapping, engine);
      if !HasValue(row, mapping.dateColumn) || !HasValue(row, mapping.descriptionColumn)
         || !HasValue(row, mapping.amountColumn) {
        errors := errors + [RowLabel(index) + "Missing required data"];
        continue;
      }
      var date := ParseDate(row[mapping.dateColumn], engine);
      if date.Err? {
        errors := errors + [RowLabel(index) + date.error];
        continue;
      }
      var amount := ParseAmount(row[mapping.amountColumn], engine.parseFloat);
      if amount.Err? {
        errors := errors + [RowLabel(index) + amount.error];
        continue;
      }
      var rawDescription := RawDescriptionOf(row, mapping);
      transactions := transactions + [Candidate(date.value, Trim(row[mapping.descriptionColumn]), amount.value, rawDescription, row)];
    }
    assert rows[..|rows|] == rows;
    OutcomeCount(RowOutcomes(rows, mapping, engine));
  }

  // ---------------------------------------------------------------------------------------
  // Excel grid to rows
  // ---------------------------------------------------------------------------------------

  /** `row[index] || ''`: the cell under column `i`, `''` past the end of a short row. */
  function CellAt(cells: seq<string>, i: nat): string {
    if i < |cells| then cells[i] else ""
  }

  /** The row object built by assigning each header its cell, left to right. */
  function RowFromCells(headers: seq<string>, cells: seq<string>): (row: Row)
    ensures row.Keys == set h | h in headers
  {
    if headers == [] then map[]
    else RowFromCells(headers[..|headers| - 1], cells)[headers[|headers| - 1] := CellAt(cells, |headers| - 1)]
  }

  /** The last column carrying a header name. */
  function LastIndexOf(headers: seq<string>, h: string): (k: nat)
    requires h in headers
    ensures k < |headers| && headers[k] == h
    ensures forall j :: k < j < |headers| ==> headers[j] != h
  {
    if headers[|headers| - 1] == h then |headers| - 1 else LastIndexOf(headers[..|headers| - 1], h)
  }

  /** Each header reads the cell of its LAST column: a repeated header keeps the later value. */
  lemma {:induction false} RowFromCellsValue(headers: seq<string>, cells: seq<string>, h: string)
    requires h in headers
    ensures RowFromCells(headers, cells)[h] == CellAt(cells, LastIndexOf(headers, h))
  {
    if headers[|headers| - 1] != h {
      assert h in headers[..|headers| - 1];
      RowFromCellsValue(headers[..|headers| - 1], cells, h);
    }
  }

  /** The `headers.forEach` that fills one row object. */
  method BuildRow(headers: seq<string>, cells: seq<string>) returns (row: Row)
    ensures row == RowFromCells(headers, cells)
    ensures row.Keys == set h | h in headers
    ensures forall h :: h in row ==> row[h] == CellAt(cells, LastIndexOf(headers, h))
  {
    row := map[];
    for index := 0 to |headers|
      invariant row == RowFromCells(headers[..index], cells)
    {
      assert headers[..index + 1][..index] == headers[..index];
      row := row[headers[index] := CellAt(cells, index)];
    }
    assert headers[..|headers|] == headers;
    forall h | h in row ensures row[h] == CellAt(cells, LastIndexOf(headers, h)) {
      RowFromCellsValue(headers, cells, h);
    }
  }

  /** `Object.values(row).some(value => value && value.toString().trim() !== '')`. */
  predicate NonBlankRow(row: Row) {
    exists h :: h in row && Trim(row[h]) != ""
  }

  /** The `filter` that drops rows whose every value is blank. */
  function KeepNonBlank(rows: seq<Row>): (kept: seq<Row>)
    ensures |kept| <= |rows|
    ensures forall r :: r in kept <==> r in rows && NonBlankRow(r)
  {
    if rows == [] then []
    else KeepNonBlank(rows[..|rows| - 1]) + (if NonBlankRow(rows[|rows| - 1]) then [rows[|rows| - 1]] else [])
  }

  /** The filter keeps order and multiplicity: filtering two batches in turn concatenates. */
  lemma {:induction false} KeepNonBlankAppend(a: seq<Row>, b: seq<Row>)
    ensures KeepNonBlank(a + b) == KeepNonBlank(a) + KeepNonBlank(b)
    decreases |b|
  {
    if b == [] {
      assert a + b == a;
    } else {
      var last := b[|b| - 1];
      assert (a + b)[..|a + b| - 1] == a + b[..|b| - 1];
      assert (a + b)[|a + b| - 1] == last;
      KeepNonBlankAppend(a, b[..|b| - 1]);
    }
  }

  /** The rows built from the grid's data rows, one per data row, in grid order. */
  function BuiltRows(grid: seq<seq<string>>): (built: seq<Row>)
    requires |grid| > 0
    ensures |built| == |grid| - 1
    ensures forall i :: 1 <= i < |grid| ==> built[i - 1] == RowFromCells(grid[0], grid[i])
  {
    seq(|grid| - 1, i requires 0 <= i < |grid| - 1 => RowFromCells(grid[0], grid[i + 1]))
  }

  /** What the CSV reader produced: the header fields, row maps and its error messages. */
  datatype ReaderOutput = ReaderOutput(headers: seq<string>, data: seq<Row>, errors: seq<string>)

  /** The first sheet's grid: the header row, then each data row built, blank rows dropped. */
  function GridToRows(grid: seq<seq<string>>): (r: Result<ReaderOutput, string>)
    ensures |grid| == 0 <==> r.Err?
    ensures r.Err? ==> r.error == "Excel worksheet contains no data"
    ensures r.Ok? ==> r.value.headers == grid[0] && r.value.errors == []
    ensures r.Ok? ==> r.value.data == KeepNonBlank(BuiltRows(grid))
  {
    if |grid| == 0 then Err("Excel worksheet contains no data")
    else Ok(ReaderOutput(grid[0], KeepNonBlank(BuiltRows(grid)), []))
  }

  /**
   * The data rows of a sheet: fewer than the grid's rows, each non-blank and keyed by the
   * header row, and every non-blank data row of the grid among them.
   */
  lemma GridRowsKept(grid: seq<seq<string>>)
    requires |grid| > 0
    ensures var data := GridToRows(grid).value.data;
      && |data| < |grid|
      && (forall row :: row in data ==> NonBlankRow(row) && row.Keys == set h | h in grid[0])
      && (forall i :: 1 <= i < |grid| && NonBlankRow(RowFromCells(grid[0], grid[i])) ==>
            RowFromCells(grid[0], grid[i]) in data)
  {
    var built := BuiltRows(grid);
    var data := GridToRows(grid).value.data;
    assert data == KeepNonBlank(built);
    forall row | row in data
      ensures NonBlankRow(row) && row.Keys == set h | h in grid[0]
    {
      var k :| 0 <= k < |built| && built[k] == row;
      assert row == RowFromCells(grid[0], grid[k + 1]);
    }
    forall i | 1 <= i < |grid| && NonBlankRow(RowFromCells(grid[0], grid[i]))
      ensures RowFromCells(grid[0], grid[i]) in data
    {
      assert built[i - 1] in built;
    }
  }

  // ---------------------------------------------------------------------------------------
  // Readers and result composition
  // ---------------------------------------------------------------------------------------

  /** The CSV tokeniser's completion (`meta.fields` may be missing) or its failure message. */
  datatype CsvRead = CsvParsed(fields: Option<seq<string>>, data: seq<Row>, errorMessages: seq<string>)
                   | CsvFailed(message: string)

  /** The workbook reader: the file could not be read, the decoder threw, or the decoded
      workbook with its first sheet's grid (`None` when there is no sheet). */
  datatype WorkbookRead = FileReadFailed | DecodeFailed(message: string)
                        | Decoded(firstSheet: Option<seq<seq<string>>>)

  /** An uploaded statement: its name and what each reader yields for its bytes. */
  datatype UploadedFile = UploadedFile(name: string, csv: CsvRead, workbook: WorkbookRead)

  /** `{ transactions, mapping, headers, errors }`. */
  datatype ProcessResult = ProcessResult(
    transactions: seq<Candidate>,
    mapping: Option<CsvMapping>,
    headers: seq<string>,
    errors: seq<string>)

  /** `parseCSVFile`. */
  function ParseCsvFile(read: CsvRead): (r: Result<ReaderOutput, string>)
    ensures read.CsvFailed? <==> r.Err?
    ensures r.Err? ==> r.error == "CSV parsing failed: " + read.message
    ensures r.Ok? ==> r.value.data == read.data && r.value.errors == read.errorMessages
    ensures r.Ok? && read.fields.None? ==> r.value.headers == []
  {
    match read
    case CsvFailed(message) => Err("CSV parsing failed: " + message)
    case CsvParsed(fields, data, messages) =>
      Ok(ReaderOutput(if fields.Some? then fields.value else [], data, messages))
  }

  /** `parseXLSXFile`, from what the workbook reader yields. */
  function ParseXlsxFile(read: WorkbookRead): (r: Result<ReaderOutput, string>)
    ensures read.FileReadFailed? ==> r == Err("Failed to read Excel file")
    ensures read.DecodeFailed? ==> r == Err("Excel parsing failed: " + read.message)
    ensures read.Decoded? && read.firstSheet.None? ==> r == Err("Excel file contains no worksheets")
    ensures read.Decoded? && read.firstSheet.Some? ==> r == GridToRows(read.firstSheet.value)
  {
    match read
    case FileReadFailed => Err("Failed to read Excel file")
    case DecodeFailed(message) => Err("Excel parsing failed: " + message)
    case Decoded(None) => Err("Excel file contains no worksheets")
    case Decoded(Some(grid)) => GridToRows(grid)
  }

  /**
   * The post-parse logic shared by `processCSVFile` and `processXLSXFile`: no data rows is an
   * error; no mapping gives no transactions and the reader errors plus one notice; otherwise
   * the reader errors come first, then the conversion errors, and every data row yields
   * exactly one transaction or one conversion error.
   */
  function ComposeResult(out: ReaderOutput, noData: string, noMapping: string, engine: Engine)
    : (r: Result<ProcessResult, string>)
    ensures |out.data| == 0 <==> r.Err?
    ensures r.Err? ==> r.error == noData
    ensures r.Ok? ==> r.value.headers == out.headers && r.value.mapping == DetectFormat(out.headers)
    ensures r.Ok? && r.value.mapping.None? ==> r.value.transactions == [] && r.value.errors == out.errors + [noMapping]
    ensures r.Ok? && r.value.mapping.Some? ==>
      var conversion := ConvertRows(out.data, r.value.mapping.value, engine);
      && r.value.transactions == conversion.0
      && r.value.errors == out.errors + conversion.1
      && |r.value.transactions| + |r.value.errors| == |out.errors| + |out.data|
  {
    if |out.data| == 0 then Err(noData)
    else
      match DetectFormat(out.headers)
      case None => Ok(ProcessResult([], None, out.headers, out.errors + [noMapping]))
      case Some(mapping) =>
        var conversion := ConvertRows(out.data, mapping, engine);
        Ok(ProcessResult(conversion.0, Some(mapping), out.headers, out.errors + conversion.1))
  }

  /** A failure message, prefixed the way a `catch` that rethrows wraps it. */
  function Wrap(prefix: string, r: Result<ProcessResult, string>): (w: Result<ProcessResult, string>)
    ensures w.Ok? <==> r.Ok?
    ensures w.Ok? ==> w == r
    ensures w.Err? ==> w.error == prefix + r.error
  {
    match r
    case Ok(v) => Ok(v)
    case Err(e) => Err(prefix + e)
  }

  const CsvNoMapping := "Could not automatically detect CSV format. Please map columns manually."
  const ExcelNoMapping := "Could not automatically detect Excel format. Please map columns manually."

  /** `processCSVFile`. */
  function ProcessCsvFile(read: CsvRead, engine: Engine): (r: Result<ProcessResult, string>)
    ensures r.Err? ==> "Failed to process CSV: " <= r.error
    ensures read.CsvFailed? ==> r == Err("Failed to process CSV: " + ("CSV parsing failed: " + read.message))
    ensures read.CsvParsed? && |read.data| == 0 ==> r == Err("Failed to process CSV: " + "CSV file contains no data")
    ensures read.CsvParsed? && |read.data| > 0 ==>
      r == ComposeResult(ParseCsvFile(read).value, "CSV file contains no data",
        CsvNoMapping, engine)
  {
    match ParseCsvFile(read)
    case Err(e) => Err("Failed to process CSV: " + e)
    case Ok(out) =>
      Wrap("Failed to process CSV: ", ComposeResult(out, "CSV file contains no data",
        CsvNoMapping, engine))
  }

  /** `processXLSXFile`. */
  function ProcessXlsxFile(read: WorkbookRead, engine: Engine): (r: Result<ProcessResult, string>)
    ensures r.Err? ==> "Failed to process Excel file: " <= r.error
    ensures ParseXlsxFile(read).Err? ==> r == Err("Failed to process Excel file: " + ParseXlsxFile(read).error)
    ensures ParseXlsxFile(read).Ok? && |ParseXlsxFile(read).value.data| == 0 ==>
      r == Err("Failed to process Excel file: " + "Excel file contains no data")
    ensures ParseXlsxFile(read).Ok? && |ParseXlsxFile(read).value.data| > 0 ==>
      r == ComposeResult(ParseXlsxFile(read).value, "Excel file contains no data",
        ExcelNoMapping, engine)
  {
    match ParseXlsxFile(read)
    case Err(e) => Err("Failed to process Excel file: " + e)
    case Ok(out) =>
      Wrap("Failed to process Excel file: ", ComposeResult(out, "Excel file contains no data",
        ExcelNoMapping, engine))
  }

  const UnsupportedFormat := "Unsupported file format. Please upload a CSV or Excel (.xlsx) file."

  /** `processFile`: dispatch on the lower-cased file name. */
  function ProcessFile(file: UploadedFile, engine: Engine): (r: Result<ProcessResult, string>)
    ensures EndsWith(Lower(file.name), ".csv") ==> r == ProcessCsvFile(file.csv, engine)
    ensures !EndsWith(Lower(file.name), ".csv")
            && (EndsWith(Lower(file.name), ".xlsx") || EndsWith(Lower(file.name), ".xls"))
            ==> r == ProcessXlsxFile(file.workbook, engine)
    ensures (!EndsWith(Lower(file.name), ".csv") && !EndsWith(Lower(file.name), ".xlsx")
             && !EndsWith(Lower(file.name), ".xls")) ==> r == Err(UnsupportedFormat)
  {
    var fileName := Lower(file.name);
    if EndsWith(fileName, ".csv") then ProcessCsvFile(file.csv, engine)
    else if EndsWith(fileName, ".xlsx") || EndsWith(fileName, ".xls") then ProcessXlsxFile(file.workbook, engine)
    else Err(UnsupportedFormat)
  }
}
