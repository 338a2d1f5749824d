/**
 * Transaction identity and storage logic, after src/lib/firestore.ts: the index-error
 * predicate, the content-derived transaction identifier, write-time validation and the
 * storage path, the year-by-month partition scan behind `getRecentTransactions`, the
 * duplicate filter and the grouping by category.
 *
 * The document store is a value passed in: for each partition (a year and a month) it records
 * what the ordered query and the plain query return, or the error they throw.
 */
module Firestore {
  import opened Wrappers
  import opened JsText
  import opened Types

  // ---------------------------------------------------------------------------------------
  // Index-error predicate
  // ---------------------------------------------------------------------------------------

  /** A thrown store error: its `message` and `code`, either of which may be missing. */
  datatype StoreError = StoreError(message: Option<string>, code: Option<string>)

  const IndexErrorPatterns: seq<string> := [
    "requires an index",
    "index is not ready",
    "composite index",
    "failed-precondition",
    "index creation is in progress"
  ]

  /** `error?.message || ''` (and likewise for `code`). */
  function TextOf(field: Option<string>): string {
    if field.Some? then field.value else ""
  }

  /** Whether the text contains the pattern, case-insensitively on the text's side. */
  predicate Mentions(text: string, pattern: string) {
    Includes(Lower(text), pattern)
  }

  /** `patterns.some(p => message.toLowerCase().includes(p) || code.toLowerCase().includes(p))`. */
  function AnyPatternIn(patterns: seq<string>, message: string, code: string): (r: bool)
    ensures r <==> exists i :: 0 <= i < |patterns| && (Mentions(message, patterns[i]) || Mentions(code, patterns[i]))
  {
    if patterns == [] then false
    else
      assert forall i :: 1 <= i < |patterns| ==> patterns[1..][i - 1] == patterns[i];
      Mentions(message, patterns[0]) || Mentions(code, patterns[0]) || AnyPatternIn(patterns[1..], message, code)
  }

  /** `isFirestoreIndexError`: one of the five patterns occurs in the message or the code. */
  function IsFirestoreIndexError(error: StoreError): (r: bool)
    ensures r <==> exists i :: 0 <= i < |IndexErrorPatterns|
                     && (Mentions(TextOf(error.message), IndexErrorPatterns[i])
                         || Mentions(TextOf(error.code), IndexErrorPatterns[i]))
  {
    AnyPatternIn(IndexErrorPatterns, TextOf(error.message), TextOf(error.code))
  }

  /** An error with neither a message nor a code is never an index error. */
  lemma BareErrorIsNotIndexError()
    ensures !IsFirestoreIndexError(StoreError(None, None))
  {
    forall i | 0 <= i < |IndexErrorPatterns| ensures !Includes("", IndexErrorPatterns[i]) {
      assert IndexErrorPatterns[i] != [];
    }
  }

  /** The predicate ignores the letter case of the message and of the code. */
  lemma IndexErrorIgnoresCase(message: string, code: string)
    ensures IsFirestoreIndexError(StoreError(Some(message), Some(code)))
         == IsFirestoreIndexError(StoreError(Some(Lower(message)), Some(Lower(code))))
  {
    LowerIdempotent(message);
    LowerIdempotent(code);
  }

  // ---------------------------------------------------------------------------------------
  // 32-bit arithmetic and the rolling hash
  // ---------------------------------------------------------------------------------------

  const Two32: int := 0x1_0000_0000
  const Two31: int := 0x8000_0000

  predicate IsInt32(x: int) {
    -Two31 <= x < Two31
  }

  /** ToInt32 (ECMA-262 section 7.1.6) on an integer: the int32 congruent to it modulo 2^32. */
  function ToInt32(x: int): (r: int)
    ensures IsInt32(r)
    ensures (x - r) % Two32 == 0
    ensures IsInt32(x) ==> r == x
  {
    var m := x % Two32;
    if m >= Two31 then m - Two32 else m
  }

  /** ToInt32 sees its argument only modulo 2^32. */
  lemma Congruent(a: int, b: int)
    requires (a - b) % Two32 == 0
    ensures ToInt32(a) == ToInt32(b)
  {
    var ra, rb := ToInt32(a), ToInt32(b);
    assert a - ra == ((a - ra) / Two32) * Two32;
    assert b - rb == ((b - rb) / Two32) * Two32;
    assert a - b == ((a - b) / Two32) * Two32;
    var k := (a - b) / Two32 - (a - ra) / Two32 + (b - rb) / Two32;
    assert ra - rb == k * Two32;
  }

  /** Values a whole number of 2^32 apart have the same ToInt32. */
  lemma CongruentBy(a: int, b: int, k: int)
    requires a - b == k * Two32
    ensures ToInt32(a) == ToInt32(b)
  {
    assert (k * Two32) % Two32 == 0;
    Congruent(a, b);
  }

  /** One loop step: `hash = ((hash << 5) - hash) + char; hash = hash & hash`. */
  function HashStep(h: int, c: int): int {
    ToInt32(ToInt32(h * 32) - h + c)
  }

  /** The step is the 31-multiplier recurrence truncated to 32 bits. */
  lemma HashStepMul31(h: int, c: int)
    ensures HashStep(h, c) == ToInt32(31 * h + c)
  {
    var s := ToInt32(h * 32);
    assert h * 32 - s == ((h * 32 - s) / Two32) * Two32;
    Congruent(s - h + c, 31 * h + c);
  }

  /** Truncating the running value before the next step changes nothing. */
  lemma StepOfTruncated(y: int, c: int)
    ensures ToInt32(31 * ToInt32(y) + c) == ToInt32(31 * y + c)
  {
    var t := ToInt32(y);
    var q := (y - t) / Two32;
    assert y - t == q * Two32;
    assert (31 * t + c) - (31 * y + c) == -31 * (q * Two32);
    assert -31 * (q * Two32) == (-31 * q) * Two32;
    CongruentBy(31 * t + c, 31 * y + c, -31 * q);
  }

  /** The hash after consuming `units`, starting from `h`. */
  function HashFrom(h: int, units: seq<int>): (r: int)
    ensures units != [] ==> IsInt32(r)
  {
    if units == [] then h else HashStep(HashFrom(h, units[..|units| - 1]), units[|units| - 1])
  }

  /** The hash of a code-unit sequence: start at 0, one step per unit; always an int32. */
  function Hash(units: seq<int>): (r: int)
    ensures IsInt32(r)
  {
    HashFrom(0, units)
  }

  /** One more unit is one more step. */
  lemma HashFromSnoc(h: int, units: seq<int>, u: int)
    ensures HashFrom(h, units + [u]) == HashStep(HashFrom(h, units), u)
  {
    assert (units + [u])[..|units|] == units;
  }

  /** Hashing a concatenation is hashing the second part from the first part's hash. */
  lemma {:induction false} HashFromAppend(h: int, u: seq<int>, v: seq<int>)
    ensures HashFrom(h, u + v) == HashFrom(HashFrom(h, u), v)
    decreases |v|
  {
    if v == [] {
      assert u + v == u;
    } else {
      assert (u + v)[..|u + v| - 1] == u + v[..|v| - 1];
      assert (u + v)[|u + v| - 1] == v[|v| - 1];
      HashFromAppend(h, u, v[..|v| - 1]);
    }
  }

  lemma TwoSteps(h: int, a: int, b: int)
    ensures HashFrom(h, [a, b]) == HashStep(HashStep(h, a), b)
  {
    var s := [a, b];
    assert s[..1] == [a] && [a][..0] == [];
    assert HashFrom(h, [a]) == HashStep(h, a);
    assert HashFrom(h, s) == HashStep(HashFrom(h, [a]), b);
  }

  /** The code units of `Aa` and of `BB` drive the hash to the same value from any start. */
  lemma PairCollides(h: int)
    ensures HashFrom(h, [65, 97]) == HashFrom(h, [66, 66])
  {
    TwoSteps(h, 65, 97);
    TwoSteps(h, 66, 66);
    HashStepMul31(h, 65);
    HashStepMul31(h, 66);
    HashStepMul31(HashStep(h, 65), 97);
    HashStepMul31(HashStep(h, 66), 66);
    StepOfTruncated(31 * h + 65, 97);
    StepOfTruncated(31 * h + 66, 66);
    assert 31 * (31 * h + 65) + 97 == 31 * (31 * h + 66) + 66;
  }

  // ---------------------------------------------------------------------------------------
  // The transaction identifier
  // ---------------------------------------------------------------------------------------

  /** `date.toISOString().split('T')[0]`: the date key of a valid date. */
  function DateKey(date: Date): (key: string)
    requires date.Date?
    ensures key <= date.iso && 'T' !in key
  {
    BeforeFirst(date.iso, 'T')
  }

  /** `${amount}`: the engine's rendering of a finite amount, or `NaN`. */
  function NumberText(amount: Number, engine: Engine): string {
    match amount
    case Finite(x) => engine.numberToString(x)
    case NaN => "NaN"
  }

  /** The text that is hashed: date key, description and amount text joined by `-`. */
  function IdText(date: Date, description: string, amount: Number, engine: Engine): string
    requires date.Date?
  {
    DateKey(date) + "-" + description + "-" + NumberText(amount, engine)
  }

  function Abs(x: int): (r: nat)
    ensures r == x || r == -x
  {
    if x < 0 then -x else x
  }

  /** What an identifier looks like: one to six base-36 digits, with no sign. */
  predicate IdShape(id: string) {
    1 <= |id| <= 6 && forall i :: 0 <= i < |id| ==> IsRadixDigit(id[i])
  }

  /** `Math.abs(hash).toString(36)` for an int32 hash; reading it back in base 36 gives |hash|. */
  function IdFromHash(h: int): (id: string)
    requires IsInt32(h)
    ensures IdShape(id)
    ensures FromRadix(id, 36) == Abs(h)
  {
    assert Pow(36, 6) == 2176782336 by {
      assert Pow(36, 2) == 1296;
      assert Pow(36, 4) == 1296 * Pow(36, 2);
    }
    ToRadixLength(Abs(h), 36, 6);
    FromToRadix(Abs(h), 36);
    ToRadix(Abs(h), 36)
  }

  /** What `generateTransactionId` returns or throws. */
  function TransactionId(date: Date, description: string, amount: Number, engine: Engine): (r: Result<string, string>)
    ensures r.Err? <==> date.InvalidDate?
    ensures r.Err? ==> r.error == "Invalid date provided for transaction ID generation"
    ensures r.Ok? ==> IdShape(r.value)
    ensures r.Ok? ==> FromRadix(r.value, 36) == Abs(Hash(CodeUnits(IdText(date, description, amount, engine))))
  {
    if date.InvalidDate? then Err("Invalid date provided for transaction ID generation")
    else Ok(IdFromHash(Hash(CodeUnits(IdText(date, description, amount, engine)))))
  }

  /** `generateTransactionId`: derive the text, hash its code units, render the hash. */
  method GenerateTransactionId(date: Date, description: string, amount: Number, engine: Engine)
    returns (r: Result<string, string>)
    ensures r == TransactionId(date, description, amount, engine)
    ensures r.Ok? ==> IdShape(r.value)
  {
    if date.InvalidDate? {
      return Err("Invalid date provided for transaction ID generation");
    }
    var hash := HashLoop(CodeUnits(IdText(date, description, amount, engine)));
    return Ok(IdFromHash(hash));
  }

  /** The loop of `generateTransactionId`: `hash = ((hash << 5) - hash) + char; hash = hash & hash`. */
  method HashLoop(data: seq<int>) returns (hash: int)
    ensures hash == Hash(data)
  {
    hash := 0;
    for i := 0 to |data|
      invariant hash == HashFrom(0, data[..i])
    {
      assert data[..i + 1] == data[..i] + [data[i]];
      HashFromSnoc(0, data[..i], data[i]);
      hash := ToInt32(ToInt32(hash * 32) - hash + data[i]);
    }
    assert data[..|data|] == data;
  }

  /** The hashed text around a piece of the description. */
  lemma IdTextAround(date: Date, prefix: string, middle: string, suffix: string, amount: Number, engine: Engine)
    requires date.Date?
    ensures IdText(date, prefix + middle + suffix, amount, engine)
         == (DateKey(date) + "-" + prefix) + middle + (suffix + "-" + NumberText(amount, engine))
  {
  }

  /** The hash of a text with a middle piece, from the hash of what precedes it. */
  lemma HashAround(head: string, middle: string, tail: string)
    ensures Hash(CodeUnits(head + middle + tail))
         == HashFrom(HashFrom(Hash(CodeUnits(head)), CodeUnits(middle)), CodeUnits(tail))
  {
    CodeUnitsAppend(head + middle, tail);
    CodeUnitsAppend(head, middle);
    HashFromAppend(0, CodeUnits(head) + CodeUnits(middle), CodeUnits(tail));
    HashFromAppend(0, CodeUnits(head), CodeUnits(middle));
  }

  /**
   * Distinct transactions can share an identifier: on the same date and amount, descriptions
   * that differ only by `Aa` against `BB` at the same place hash alike.
   */
  lemma DescriptionsCollide(date: Date, prefix: string, suffix: string, amount: Number, engine: Engine)
    requires date.Date?
    ensures prefix + "Aa" + suffix != prefix + "BB" + suffix
    ensures TransactionId(date, prefix + "Aa" + suffix, amount, engine)
         == TransactionId(date, prefix + "BB" + suffix, amount, engine)
  {
    assert (prefix + "Aa" + suffix)[|prefix|] == 'A';
    assert (prefix + "BB" + suffix)[|prefix|] == 'B';
    var head := DateKey(date) + "-" + prefix;
    var tail := suffix + "-" + NumberText(amount, engine);
    IdTextAround(date, prefix, "Aa", suffix, amount, engine);
    IdTextAround(date, prefix, "BB", suffix, amount, engine);
    assert Hash(CodeUnits(head + "Aa" + tail)) == Hash(CodeUnits(head + "BB" + tail)) by {
      HashAround(head, "Aa", tail);
      HashAround(head, "BB", tail);
      CollidingPairUnits();
      PairCollides(Hash(CodeUnits(head)));
    }
  }

  lemma CollidingPairUnits()
    ensures CodeUnits("Aa") == [65, 97] && CodeUnits("BB") == [66, 66]
  {
  }

  // ---------------------------------------------------------------------------------------
  // Write-time validation and the storage path
  // ---------------------------------------------------------------------------------------

  /** `month.toString().padStart(2, '0')`. */
  function MonthSegment(month: nat): string {
    PadStart(IntToString(month), 2, '0')
  }

  /** The segment of a calendar month is two decimal digits that read back as the month. */
  lemma MonthSegmentValue(month: nat)
    requires 1 <= month <= 12
    ensures var segment := MonthSegment(month);
      |segment| == 2 && AllDigits(segment) && FromRadix(segment, 10) == month
  {
    var digits := ToRadix(month, 10);
    assert Pow(10, 2) == 100;
    ToRadixLength(month, 10, 2);
    FromToRadix(month, 10);
    var segment := PadStart(digits, 2, '0');
    if |digits| == 1 {
      assert segment == "0" + digits;
      assert segment[..1] == "0";
    } else {
      assert segment == digits;
    }
  }

  const InvalidDateMessage := "Transaction must have a valid date"
  const InvalidDescriptionMessage := "Transaction must have a valid description"
  const InvalidAmountMessage := "Transaction must have a valid amount"

  /** Where `createTransaction` writes, and under which identifier. */
  datatype WritePlan = WritePlan(
    id: string,
    yearSegment: string,
    monthSegment: string,
    segments: seq<string>,
    path: string)

  /** The logged path `users/${userId}/transactions/${year}/months/${monthStr}/items/${id}`. */
  function PathText(userId: string, yearSegment: string, monthSegment: string, id: string): string {
    "users" + "/" + userId + "/" + "transactions" + "/" + yearSegment + "/" + "months" + "/" + monthSegment
      + "/" + "items" + "/" + id
  }

  /** The document reference's segments. */
  function DocSegments(userId: string, yearSegment: string, monthSegment: string, id: string): (segments: seq<string>)
    ensures |segments| == 8
  {
    ["users", userId, "transactions", yearSegment, "months", monthSegment, "items", id]
  }

  /**
   * The validation and path construction of `createTransaction`: an invalid date, then an
   * empty description, then a NaN amount are rejected, all before the identifier is derived;
   * otherwise the document lives under the date's year and its two-digit month.
   */
  function PlanTransactionWrite(userId: string, draft: Draft, engine: Engine): (r: Result<WritePlan, string>)
    ensures draft.date.InvalidDate? ==> r == Err(InvalidDateMessage)
    ensures draft.date.Date? && draft.description == "" ==> r == Err(InvalidDescriptionMessage)
    ensures draft.date.Date? && draft.description != "" && draft.amount.NaN? ==>
              r == Err(InvalidAmountMessage)
    ensures r.Ok? <==> draft.date.Date? && draft.description != "" && draft.amount.Finite?
    ensures r.Ok? ==>
      && r.value.id == TransactionId(draft.date, draft.description, draft.amount, engine).value
      && IdShape(r.value.id)
      && r.value.yearSegment == IntToString(draft.date.fullYear)
      && r.value.monthSegment == MonthSegment(draft.date.month + 1)
      && r.value.segments == DocSegments(userId, r.value.yearSegment, r.value.monthSegment, r.value.id)
      && r.value.path == Join(r.value.segments, '/')
  {
    if draft.date.InvalidDate? then Err(InvalidDateMessage)
    else if draft.description == "" then Err(InvalidDescriptionMessage)
    else if draft.amount.NaN? then Err(InvalidAmountMessage)
    else
      var id := TransactionId(draft.date, draft.description, draft.amount, engine).value;
      var year := IntToString(draft.date.fullYear);
      var monthStr := MonthSegment(draft.date.month + 1);
      PathJoinsSegments(userId, year, monthStr, id);
      Ok(WritePlan(id, year, monthStr, DocSegments(userId, year, monthStr, id), PathText(userId, year, monthStr, id)))
  }

  /** The logged path is the document's segments joined by `/`. */
  lemma PathJoinsSegments(userId: string, yearSegment: string, monthSegment: string, id: string)
    ensures PathText(userId, yearSegment, monthSegment, id) == Join(DocSegments(userId, yearSegment, monthSegment, id), '/')
  {
    JoinEight("users", userId, "transactions", yearSegment, "months", monthSegment, "items", id, '/');
  }

  /** Joining eight segments puts the separator between each neighbouring pair. */
  lemma JoinEight(a: string, b: string, c: string, d: string, e: string, f: string, g: string, h: string, sep: char)
    ensures Join([a, b, c, d, e, f, g, h], sep)
      == a + [sep] + b + [sep] + c + [sep] + d + [sep] + e + [sep] + f + [sep] + g + [sep] + h
  {
    var s := [a, b, c, d, e, f, g, h];
    JoinThree(f, g, h, sep);
    assert s[5..] == [f, g, h];
    assert s[4..][1..] == s[5..];
    assert s[3..][1..] == s[4..];
    assert s[2..][1..] == s[3..];
    assert s[1..][1..] == s[2..];
    var j5 := f + [sep] + g + [sep] + h;
    var j4 := e + [sep] + j5;
    var j3 := d + [sep] + j4;
    var j2 := c + [sep] + j3;
    var j1 := b + [sep] + j2;
    assert Join(s[4..], sep) == j4;
    assert Join(s[3..], sep) == j3;
    assert Join(s[2..], sep) == j2;
    assert Join(s[1..], sep) == j1;
    assert Join(s, sep) == a + [sep] + j1;
  }

  /**
   * The logged path names the same document as the reference: when the user id has no `/`,
   * splitting the path at `/` gives back exactly the reference's segments.
   */
  lemma WritePathSegments(userId: string, draft: Draft, engine: Engine, plan: WritePlan)
    requires '/' !in userId
    requires PlanTransactionWrite(userId, draft, engine) == Ok(plan)
    ensures Split(plan.path, '/') == plan.segments
  {
    PlanSplitsBack(userId, plan, draft.date.fullYear, draft.date.month + 1);
  }

  lemma PlanSplitsBack(userId: string, plan: WritePlan, year: int, month: nat)
    requires '/' !in userId && 1 <= month <= 12
    requires plan.yearSegment == IntToString(year) && plan.monthSegment == MonthSegment(month)
    requires IdShape(plan.id)
    requires plan.segments == DocSegments(userId, plan.yearSegment, plan.monthSegment, plan.id)
    requires plan.path == Join(plan.segments, '/')
    ensures Split(plan.path, '/') == plan.segments
  {
    assert '/' !in plan.yearSegment by {
      YearSegmentHasNoSlash(year);
    }
    assert '/' !in plan.monthSegment by {
      MonthSegmentValue(month);
      DigitsHaveNoSlash(plan.monthSegment);
    }
    assert '/' !in plan.id;
    SegmentsSplitBack(userId, plan.yearSegment, plan.monthSegment, plan.id);
  }

  /** Segments free of `/` are recovered by splitting their join. */
  lemma SegmentsSplitBack(userId: string, yearSegment: string, monthSegment: string, id: string)
    requires '/' !in userId && '/' !in yearSegment && '/' !in monthSegment && '/' !in id
    ensures Split(Join(DocSegments(userId, yearSegment, monthSegment, id), '/'), '/')
      == DocSegments(userId, yearSegment, monthSegment, id)
  {
    var s := DocSegments(userId, yearSegment, monthSegment, id);
    assert forall k :: 0 <= k < 8 ==> '/' !in s[k];
    SplitJoin(s, '/');
  }

  lemma DigitsHaveNoSlash(s: string)
    requires AllDigits(s)
    ensures '/' !in s
  {
  }

  lemma YearSegmentHasNoSlash(year: int)
    ensures '/' !in IntToString(year)
  {
  }

  // ---------------------------------------------------------------------------------------
  // The partition scan
  // ---------------------------------------------------------------------------------------

  /** What one partition's two queries return: the ordered query, then the plain fallback. */
  datatype Partition = Partition(
    ordered: Result<seq<Transaction>, StoreError>,
    plain: Result<seq<Transaction>, StoreError>)

  /**
   * The user's partitions, keyed by year and 1-based month: the partition of (year, month) is
   * the collection named by `IntToString(year)` and `MonthSegment(month)`, and
   * `PartitionNamesDistinct` shows that distinct keys name distinct collections. A key that is
   * absent is a collection that does not exist: both queries succeed with no documents.
   */
  type Store = map<(int, int), Partition>

  /** Two calendar months name the same collection only when they are the same month. */
  lemma PartitionNamesDistinct(year: int, month: int, year': int, month': int)
    requires 1 <= month <= 12 && 1 <= month' <= 12
    requires IntToString(year) == IntToString(year') && MonthSegment(month) == MonthSegment(month')
    ensures year == year' && month == month'
  {
    IntToStringInjective(year, year');
    MonthSegmentValue(month);
    MonthSegmentValue(month');
  }

  /** The documents one partition contributes, or `None` when both queries fail. */
  function PartitionDocs(store: Store, year: int, month: nat): Option<seq<Transaction>> {
    var key := (year, month as int);
    if key !in store then Some([])
    else
      var partition := store[key];
      if partition.ordered.Ok? then Some(partition.ordered.value)
      else if partition.plain.Ok? then Some(partition.plain.value)
      else None
  }

  /** `[currentYear, currentYear - 1, ..., currentYear - 4]`. */
  function SearchYears(currentYear: int): (years: seq<int>)
    ensures |years| == 5
    ensures forall i :: 0 <= i < 5 ==> years[i] == currentYear - i
  {
    [currentYear, currentYear - 1, currentYear - 2, currentYear - 3, currentYear - 4]
  }

  /** The month loop for one year from `month` down to 1: a failed partition is skipped, and the
      loop stops after the first partition that brings the count to the limit. */
  function ScanMonths(store: Store, year: int, month: nat, acc: seq<Transaction>, limit: nat): (r: seq<Transaction>)
    ensures acc <= r
    decreases month
  {
    if month == 0 then acc
    else
      match PartitionDocs(store, year, month)
      case None => ScanMonths(store, year, month - 1, acc, limit)
      case Some(docs) =>
        PrefixOfAppend(acc, docs);
        if |acc + docs| >= limit then acc + docs
        else
          var r := ScanMonths(store, year, month - 1, acc + docs, limit);
          PrefixTransitive(acc, acc + docs, r);
          r
  }

  /** The year loop: each year's month loop from month `first` down (the code starts every year at
      12), stopping once the count has reached the limit. */
  function ScanYears(store: Store, years: seq<int>, acc: seq<Transaction>, limit: nat, first: nat): (r: seq<Transaction>)
    ensures acc <= r
    decreases |years|
  {
    if years == [] then acc
    else
      var acc' := ScanMonths(store, years[0], first, acc, limit);
      if |acc'| >= limit then acc'
      else
        var r := ScanYears(store, years[1..], acc', limit, first);
        PrefixTransitive(acc, acc', r);
        r
  }

  /**
   * What the nested loops collect, before sorting. The scan reads the grid in visiting order and
   * checks its count after each readable partition's push and at the end of each year; it stops
   * at the first of those check points whose count has reached `limit`, and otherwise reads the
   * whole grid. What it collects is therefore a prefix of all readable documents, shorter than
   * all of them only once it holds at least `limit` documents.
   */
  function Collected(store: Store, currentYear: int, limit: nat): (r: seq<Transaction>)
    ensures r <= AllDocs(store, currentYear)
    ensures |r| < |AllDocs(store, currentYear)| ==> |r| >= limit
  {
    ScanYearsPrefix(store, SearchYears(currentYear), [], limit, 12);
    assert [] + AllDocs(store, currentYear) == AllDocs(store, currentYear);
    ScanYears(store, SearchYears(currentYear), [], limit, 12)
  }

  /** The scan ends exactly at its first check point whose count has reached `limit`, or after the
      whole grid when no check point reaches it. */
  lemma CollectedStops(store: Store, currentYear: int, limit: nat)
    ensures |Collected(store, currentYear, limit)|
      == StopCount(Checkpoints(store, currentYear), limit, |AllDocs(store, currentYear)|)
  {
    ScanYearsStops(store, SearchYears(currentYear), [], limit, 12);
  }

  /** Every readable document of a year, from `month` down to 1, in visiting order. */
  function AllMonths(store: Store, year: int, month: nat): seq<Transaction>
    decreases month
  {
    if month == 0 then []
    else
      (match PartitionDocs(store, year, month) case None => [] case Some(docs) => docs)
      + AllMonths(store, year, month - 1)
  }

  /** Every readable document of the listed years, in visiting order. */
  function AllYears(store: Store, years: seq<int>, first: nat): seq<Transaction>
    decreases |years|
  {
    if years == [] then [] else AllMonths(store, years[0], first) + AllYears(store, years[1..], first)
  }

  /** Every readable document of the five-year grid, in visiting order. */
  function AllDocs(store: Store, currentYear: int): seq<Transaction> {
    AllYears(store, SearchYears(currentYear), 12)
  }

  /**
   * The scan's check points for the months of one year, from `month` down to 1, when `base`
   * documents were collected before: the running count after each readable partition's push,
   * in visiting order (`src/lib/firestore.ts:370`). No stopping here: every partition counts.
   */
  function MonthPoints(store: Store, year: int, month: nat, base: nat): seq<nat>
    decreases month
  {
    if month == 0 then []
    else
      match PartitionDocs(store, year, month)
      case None => MonthPoints(store, year, month - 1, base)
      case Some(docs) => [base + |docs|] + MonthPoints(store, year, month - 1, base + |docs|)
  }

  /** The check points of the listed years, each scanned from month `first` down: each year's
      month points, then the check at the end of that year (`src/lib/firestore.ts:380`). */
  function YearPoints(store: Store, years: seq<int>, base: nat, first: nat): seq<nat>
    decreases |years|
  {
    if years == [] then []
    else
      var end := YearEnd(store, years[0], base, first);
      MonthPoints(store, years[0], first, base) + ([end] + YearPoints(store, years[1..], end, first))
  }

  /** The count at the end of a year whose month loop read everything, `base` documents before it. */
  function YearEnd(store: Store, year: int, base: nat, first: nat): nat {
    base + |AllMonths(store, year, first)|
  }

  /** The check points of the five-year grid, months 12 down to 1, from an empty collection. */
  function Checkpoints(store: Store, currentYear: int): seq<nat> {
    YearPoints(store, SearchYears(currentYear), 0, 12)
  }

  /** The first check point whose count has reached the limit, or the number of points when none has. */
  function FirstReach(points: seq<nat>, limit: nat): (p: nat)
    ensures p <= |points|
    ensures p < |points| ==> points[p] >= limit
    ensures forall q :: 0 <= q < p ==> points[q] < limit
  {
    if points == [] then 0
    else if points[0] >= limit then 0
    else 1 + FirstReach(points[1..], limit)
  }

  /** How many documents a scan with these check points holds when it stops: the count at the
      first point that reaches the limit, or `end` when no point does. */
  function StopCount(points: seq<nat>, limit: nat, end: nat): nat {
    var p := FirstReach(points, limit);
    if p < |points| then points[p] else end
  }

  /** A point below the limit is passed over. */
  lemma StopCountCons(c: nat, rest: seq<nat>, limit: nat, end: nat)
    requires c < limit
    ensures StopCount([c] + rest, limit, end) == StopCount(rest, limit, end)
  {
    assert ([c] + rest)[1..] == rest;
  }

  /** A point that reaches the limit stops the scan there. */
  lemma StopCountHead(c: nat, rest: seq<nat>, limit: nat, end: nat)
    requires c >= limit
    ensures StopCount([c] + rest, limit, end) == c
  {
    assert ([c] + rest)[0] == c;
  }

  /** Check points in two stretches: the first stretch decides when one of its points reaches
      the limit, otherwise the second does. */
  lemma {:induction false} StopCountAppend(a: seq<nat>, b: seq<nat>, limit: nat, end: nat)
    ensures StopCount(a + b, limit, end)
            == if FirstReach(a, limit) < |a| then a[FirstReach(a, limit)] else StopCount(b, limit, end)
  {
    if a != [] {
      assert (a + b)[0] == a[0];
      if a[0] < limit {
        assert (a + b)[1..] == a[1..] + b;
        StopCountAppend(a[1..], b, limit, end);
      }
    } else {
      assert a + b == b;
    }
  }

  /** The month loop stops exactly at its first check point that reaches the limit, and otherwise
      runs through every month. */
  lemma {:induction false} ScanMonthsStops(store: Store, year: int, month: nat, acc: seq<Transaction>, limit: nat)
    ensures MonthStopsAt(store, year, month, acc, limit)
    decreases month
  {
    if month == 0 {
      assert ScanMonths(store, year, 0, acc, limit) == acc;
    } else {
      match PartitionDocs(store, year, month)
      case None =>
        ScanMonthsStops(store, year, month - 1, acc, limit);
        SkippedMonthStops(store, year, month, acc, limit);
      case Some(docs) =>
        if |acc + docs| < limit {
          ScanMonthsStops(store, year, month - 1, acc + docs, limit);
        }
        ReadMonthStops(store, year, month, acc, limit);
    }
  }

  /** The count the month loop ends with is the count where its check points stop it. */
  predicate MonthStopsAt(store: Store, year: int, month: nat, acc: seq<Transaction>, limit: nat) {
    |ScanMonths(store, year, month, acc, limit)|
    == StopCount(MonthPoints(store, year, month, |acc|), limit, |acc| + |AllMonths(store, year, month)|)
  }

  /** A failed partition adds no check point and no document. */
  lemma SkippedMonthStops(store: Store, year: int, month: nat, acc: seq<Transaction>, limit: nat)
    requires month > 0 && PartitionDocs(store, year, month).None?
    requires MonthStopsAt(store, year, month - 1, acc, limit)
    ensures MonthStopsAt(store, year, month, acc, limit)
  {
    assert ScanMonths(store, year, month, acc, limit) == ScanMonths(store, year, month - 1, acc, limit);
    assert MonthPoints(store, year, month, |acc|) == MonthPoints(store, year, month - 1, |acc|);
    assert AllMonths(store, year, month) == AllMonths(store, year, month - 1);
  }

  /** A readable partition adds its documents and one check point; the loop stops there when that
      point reaches the limit and goes on otherwise. */
  lemma ReadMonthStops(store: Store, year: int, month: nat, acc: seq<Transaction>, limit: nat)
    requires month > 0 && PartitionDocs(store, year, month).Some?
    requires var docs := PartitionDocs(store, year, month).value;
      |acc + docs| < limit ==> MonthStopsAt(store, year, month - 1, acc + docs, limit)
    ensures MonthStopsAt(store, year, month, acc, limit)
  {
    var docs := PartitionDocs(store, year, month).value;
    var r := ScanMonths(store, year, month, acc, limit);
    var points := MonthPoints(store, year, month - 1, |acc + docs|);
    var total := |acc| + |AllMonths(store, year, month)|;
    assert MonthPoints(store, year, month, |acc|) == [|acc + docs|] + points;
    assert total == |acc + docs| + |AllMonths(store, year, month - 1)|;
    if |acc + docs| >= limit {
      assert r == acc + docs;
      StopCountHead(|acc + docs|, points, limit, total);
    } else {
      assert r == ScanMonths(store, year, month - 1, acc + docs, limit);
      StopCountCons(|acc + docs|, points, limit, total);
    }
  }

  /** The count the year loop ends with is the count where its check points stop it. */
  predicate YearsStopAt(store: Store, years: seq<int>, acc: seq<Transaction>, limit: nat, first: nat) {
    |ScanYears(store, years, acc, limit, first)|
    == StopCount(YearPoints(store, years, |acc|, first), limit, |acc| + |AllYears(store, years, first)|)
  }

  /** The year loop stops exactly at the first check point, of a month or of a year's end, that
      reaches the limit, and otherwise runs through every year. */
  lemma {:induction false} ScanYearsStops(store: Store, years: seq<int>, acc: seq<Transaction>, limit: nat, first: nat)
    ensures YearsStopAt(store, years, acc, limit, first)
    decreases |years|
  {
    if years == [] {
      assert ScanYears(store, years, acc, limit, first) == acc;
    } else {
      var acc' := ScanMonths(store, years[0], first, acc, limit);
      ScanMonthsStops(store, years[0], first, acc, limit);
      if |acc'| < limit {
        ScanYearsStops(store, years[1..], acc', limit, first);
      }
      YearStops(store, years, acc, limit, first);
    }
  }

  /** One year: its month loop, then the check at the year's end, then the remaining years. */
  lemma YearStops(store: Store, years: seq<int>, acc: seq<Transaction>, limit: nat, first: nat)
    requires years != []
    requires MonthStopsAt(store, years[0], first, acc, limit)
    requires var acc' := ScanMonths(store, years[0], first, acc, limit);
      |acc'| < limit ==> YearsStopAt(store, years[1..], acc', limit, first)
    ensures YearsStopAt(store, years, acc, limit, first)
  {
    var base := |acc|;
    var end := YearEnd(store, years[0], base, first);
    assert |AllYears(store, years, first)| == |AllMonths(store, years[0], first)| + |AllYears(store, years[1..], first)|;
    YearStep(YearPoints(store, years, base, first), MonthPoints(store, years[0], first, base), end,
             YearPoints(store, years[1..], end, first), limit, base + |AllYears(store, years, first)|,
             |ScanMonths(store, years[0], first, acc, limit)|, |ScanYears(store, years, acc, limit, first)|);
  }

  /** The year step on counts alone: `here` is where the month loop stopped, `final` where the
      year loop stops. */
  lemma YearStep(points: seq<nat>, months: seq<nat>, end: nat, later: seq<nat>, limit: nat, total: nat,
                 here: nat, final: nat)
    requires points == months + ([end] + later)
    requires here == StopCount(months, limit, end)
    requires here >= limit ==> final == here
    requires here < limit ==> here == end ==> final == StopCount(later, limit, total)
    ensures final == StopCount(points, limit, total)
  {
    StopCountAppend(months, [end] + later, limit, total);
    if FirstReach(months, limit) == |months| {
      if end < limit {
        StopCountCons(end, later, limit, total);
      } else {
        StopCountHead(end, later, limit, total);
      }
    }
  }

  lemma PrefixOfAppend<T>(a: seq<T>, b: seq<T>)
    ensures a <= a + b
  {
    assert (a + b)[..|a|] == a;
  }

  lemma PrefixTransitive<T>(a: seq<T>, b: seq<T>, c: seq<T>)
    requires a <= b && b <= c
    ensures a <= c
  {
    assert c[..|a|] == b[..|a|];
  }

  /** `r` extends `acc` by a prefix of `all`, and it stops short of all of it only at the limit. */
  predicate ScannedPrefix(acc: seq<Transaction>, r: seq<Transaction>, all: seq<Transaction>, limit: nat) {
    acc <= r && r <= acc + all && (|r| < |acc + all| ==> |r| >= limit)
  }

  /** Appending one batch, then either stopping at the limit or scanning the rest. */
  lemma ScannedBatch(acc: seq<Transaction>, docs: seq<Transaction>, rest: seq<Transaction>, r: seq<Transaction>, limit: nat)
    requires |acc + docs| >= limit ==> r == acc + docs
    requires |acc + docs| < limit ==> ScannedPrefix(acc + docs, r, rest, limit)
    ensures ScannedPrefix(acc, r, docs + rest, limit)
  {
    assert acc + (docs + rest) == (acc + docs) + rest;
    PrefixOfAppend(acc, docs);
    if |acc + docs| >= limit {
      PrefixOfAppend(acc + docs, rest);
    } else {
      PrefixTransitive(acc, acc + docs, r);
    }
  }

  lemma {:induction false} ScanMonthsPrefix(store: Store, year: int, month: nat, acc: seq<Transaction>, limit: nat)
    ensures ScannedPrefix(acc, ScanMonths(store, year, month, acc, limit), AllMonths(store, year, month), limit)
    decreases month
  {
    if month == 0 {
      PrefixOfAppend(acc, []);
    } else {
      var r := ScanMonths(store, year, month, acc, limit);
      var rest := AllMonths(store, year, month - 1);
      match PartitionDocs(store, year, month)
      case None =>
        assert r == ScanMonths(store, year, month - 1, acc, limit);
        assert AllMonths(store, year, month) == rest;
        ScanMonthsPrefix(store, year, month - 1, acc, limit);
      case Some(docs) =>
        assert AllMonths(store, year, month) == docs + rest;
        if |acc + docs| >= limit {
          assert r == acc + docs;
        } else {
          assert r == ScanMonths(store, year, month - 1, acc + docs, limit);
          ScanMonthsPrefix(store, year, month - 1, acc + docs, limit);
        }
        ScannedBatch(acc, docs, rest, r, limit);
    }
  }

  lemma {:induction false} ScanYearsPrefix(store: Store, years: seq<int>, acc: seq<Transaction>, limit: nat, first: nat)
    ensures ScannedPrefix(acc, ScanYears(store, years, acc, limit, first), AllYears(store, years, first), limit)
    decreases |years|
  {
    if years == [] {
      PrefixOfAppend(acc, []);
    } else {
      var acc' := ScanMonths(store, years[0], first, acc, limit);
      var months := AllMonths(store, years[0], first);
      var rest := AllYears(store, years[1..], first);
      ScanMonthsPrefix(store, years[0], first, acc, limit);
      if |acc'| < limit {
        ScanYearsPrefix(store, years[1..], acc', limit, first);
      }
      ScannedYear(acc, acc', months, rest, ScanYears(store, years, acc, limit, first), limit);
    }
  }

  /** One year's month loop followed by the remaining years. */
  lemma ScannedYear(acc: seq<Transaction>, acc': seq<Transaction>, months: seq<Transaction>, rest: seq<Transaction>,
                    r: seq<Transaction>, limit: nat)
    requires ScannedPrefix(acc, acc', months, limit)
    requires |acc'| >= limit ==> r == acc'
    requires |acc'| < limit ==> ScannedPrefix(acc', r, rest, limit)
    ensures ScannedPrefix(acc, r, months + rest, limit)
  {
    assert acc + (months + rest) == (acc + months) + rest;
    PrefixOfAppend(acc + months, rest);
    if |acc'| >= limit {
      PrefixTransitive(acc', acc + months, acc + (months + rest));
    } else {
      assert acc' == acc + months;
      PrefixTransitive(acc, acc', r);
    }
  }

  /** The ordering key: `date.getTime()` (stored dates are valid timestamps; an invalid one
      reads as 0). */
  function Time(t: Transaction): int {
    if t.date.Date? then t.date.time else 0
  }

  predicate SortedByDateDesc(s: seq<Transaction>) {
    forall i, j :: 0 <= i < j < |s| ==> Time(s[i]) >= Time(s[j])
  }

  /** Every transaction of `s` is at least as recent as `time`. */
  predicate NotOlderThan(s: seq<Transaction>, time: int) {
    forall i :: 0 <= i < |s| ==> Time(s[i]) >= time
  }

  /** Rearranging a sequence keeps its transactions' dates. */
  lemma NotOlderPermutation(a: seq<Transaction>, b: seq<Transaction>, time: int)
    requires multiset(a) == multiset(b) && NotOlderThan(a, time)
    ensures NotOlderThan(b, time)
  {
    forall i | 0 <= i < |b| ensures Time(b[i]) >= time {
      assert b[i] in multiset(a);
    }
  }

  /** Inserts after every element that is not older, which keeps equal dates in arrival order. */
  function InsertByDate(sorted: seq<Transaction>, t: Transaction): (r: seq<Transaction>)
    ensures multiset(r) == multiset(sorted) + multiset{t}
    decreases |sorted|
  {
    if sorted == [] || Time(sorted[|sorted| - 1]) >= Time(t) then sorted + [t]
    else
      var last := sorted[|sorted| - 1];
      var init := sorted[..|sorted| - 1];
      assert sorted == init + [last];
      InsertByDate(init, t) + [last]
  }

  /** Appending a transaction no newer than any before it keeps the order. */
  lemma SortedAppend(s: seq<Transaction>, t: Transaction)
    requires SortedByDateDesc(s) && NotOlderThan(s, Time(t))
    ensures SortedByDateDesc(s + [t])
  {
  }

  /** Insertion into a sequence sorted newest first keeps it sorted. */
  lemma {:induction false} InsertKeepsOrder(sorted: seq<Transaction>, t: Transaction)
    requires SortedByDateDesc(sorted)
    ensures SortedByDateDesc(InsertByDate(sorted, t))
    decreases |sorted|
  {
    if sorted == [] || Time(sorted[|sorted| - 1]) >= Time(t) {
      SortedAppend(sorted, t);
    } else {
      var last := sorted[|sorted| - 1];
      var init := sorted[..|sorted| - 1];
      var r' := InsertByDate(init, t);
      InsertKeepsOrder(init, t);
      assert NotOlderThan(init + [t], Time(last));
      NotOlderPermutation(init + [t], r', Time(last));
      SortedAppend(r', last);
    }
  }

  /** `transactions.sort((a, b) => b.date.getTime() - a.date.getTime())`, a stable sort. */
  function SortByDateDesc(s: seq<Transaction>): (r: seq<Transaction>)
    ensures SortedByDateDesc(r)
    ensures multiset(r) == multiset(s)
  {
    if s == [] then []
    else
      assert s == s[..|s| - 1] + [s[|s| - 1]];
      InsertKeepsOrder(SortByDateDesc(s[..|s| - 1]), s[|s| - 1]);
      InsertByDate(SortByDateDesc(s[..|s| - 1]), s[|s| - 1])
  }

  /** `slice(0, limit)`. */
  function Take(s: seq<Transaction>, limit: nat): (r: seq<Transaction>)
    ensures r <= s
    ensures |r| == if |s| <= limit then |s| else limit
    ensures multiset(r) <= multiset(s)
  {
    if |s| <= limit then s
    else
      assert s == s[..limit] + s[limit..];
      s[..limit]
  }

  /** `.sort(...).slice(0, limit)`: the `limit` newest transactions, newest first. */
  function NewestFirst(c: seq<Transaction>, limit: nat): (r: seq<Transaction>)
    ensures |r| == if |c| <= limit then |c| else limit
    ensures SortedByDateDesc(r)
    ensures multiset(r) <= multiset(c)
  {
    var sorted := SortByDateDesc(c);
    assert |sorted| == |multiset(sorted)| == |c|;
    Take(sorted, limit)
  }

  /** Within the limit the slice drops nothing. */
  lemma NewestFirstUnderLimit(c: seq<Transaction>, limit: nat)
    requires |c| <= limit
    ensures multiset(NewestFirst(c, limit)) == multiset(c)
  {
    var sorted := SortByDateDesc(c);
    assert |sorted| == |multiset(sorted)| == |c|;
    assert NewestFirst(c, limit) == sorted;
  }

  /** The slice keeps the newest: a transaction it drops is no newer than any it keeps. */
  lemma NewestFirstKeepsNewest(c: seq<Transaction>, limit: nat, t: Transaction)
    requires t in c && t !in NewestFirst(c, limit)
    ensures NotOlderThan(NewestFirst(c, limit), Time(t))
  {
    var sorted := SortByDateDesc(c);
    var r := NewestFirst(c, limit);
    assert t in multiset(sorted);
    var j :| 0 <= j < |sorted| && sorted[j] == t;
    assert r == sorted[..|r|];
    forall i | 0 <= i < |r|
      ensures Time(r[i]) >= Time(t)
    {
      assert r[i] == sorted[i];
    }
  }

  /** What `getRecentTransactions` returns. */
  function RecentTransactions(store: Store, currentYear: int, limit: nat): (r: seq<Transaction>)
    ensures |r| == if |Collected(store, currentYear, limit)| <= limit then |Collected(store, currentYear, limit)| else limit
    ensures SortedByDateDesc(r)
    ensures multiset(r) <= multiset(Collected(store, currentYear, limit))
  {
    NewestFirst(Collected(store, currentYear, limit), limit)
  }

  /** Below the limit nothing is lost: the result is every readable document, newest first. */
  lemma RecentIsEverythingUnderLimit(store: Store, currentYear: int, limit: nat)
    requires |AllDocs(store, currentYear)| <= limit
    ensures multiset(RecentTransactions(store, currentYear, limit)) == multiset(AllDocs(store, currentYear))
  {
    var c := Collected(store, currentYear, limit);
    assert c == AllDocs(store, currentYear);
    NewestFirstUnderLimit(c, limit);
  }

  /** The slice keeps the newest documents: anything collected but not returned is no newer than what is. */
  lemma RecentAreNewest(store: Store, currentYear: int, limit: nat, t: Transaction)
    requires t in Collected(store, currentYear, limit)
    requires t !in RecentTransactions(store, currentYear, limit)
    ensures NotOlderThan(RecentTransactions(store, currentYear, limit), Time(t))
  {
    NewestFirstKeepsNewest(Collected(store, currentYear, limit), limit, t);
  }

  /** One month's queries: the ordered query, on failure the plain one, on failure nothing. */
  method ReadPartition(store: Store, year: int, month: nat) returns (snapshot: Option<seq<Transaction>>)
    ensures snapshot == PartitionDocs(store, year, month)
  {
    var key := (year, month as int);
    var partition := if key in store then store[key] else Partition(Ok([]), Ok([]));
    if partition.ordered.Ok? {
      snapshot := Some(partition.ordered.value);
    } else if partition.plain.Ok? {
      snapshot := Some(partition.plain.value);
    } else {
      snapshot := None;
    }
  }

  /** One step of the year loop: the first year's month loop, then the rest unless the limit is reached. */
  lemma ScanYearsUnfold(store: Store, years: seq<int>, acc: seq<Transaction>, limit: nat, first: nat)
    requires years != []
    ensures var acc' := ScanMonths(store, years[0], first, acc, limit);
      ScanYears(store, years, acc, limit, first)
      == if |acc'| >= limit then acc' else ScanYears(store, years[1..], acc', limit, first)
  {
  }

  /** The month loop of one year, months 12 down to 1, appending to `transactions`. */
  method ScanYear(store: Store, year: int, transactions: seq<Transaction>, limit: nat)
    returns (collected: seq<Transaction>)
    ensures collected == ScanMonths(store, year, 12, transactions, limit)
  {
    collected := transactions;
    var month := 12;
    while month >= 1
      invariant 0 <= month <= 12
      invariant ScanMonths(store, year, month, collected, limit) == ScanMonths(store, year, 12, transactions, limit)
      decreases month
    {
      var snapshot := ReadPartition(store, year, month);
      if snapshot.None? {
        month := month - 1;
        continue;
      }
      collected := collected + snapshot.value;
      if |collected| >= limit {
        break;
      }
      month := month - 1;
    }
  }

  /** `getRecentTransactions`: the year loop over the month loops, then sort and truncate. */
  method GetRecentTransactions(store: Store, currentYear: int, limit: nat) returns (result: seq<Transaction>)
    ensures result == RecentTransactions(store, currentYear, limit)
    ensures |result| <= limit && SortedByDateDesc(result)
  {
    var transactions: seq<Transaction> := [];
    var searchYears := SearchYears(currentYear);
    ghost var collected := Collected(store, currentYear, limit);
    var y := 0;
    while y < |searchYears|
      invariant 0 <= y <= |searchYears|
      invariant ScanYears(store, searchYears[y..], transactions, limit, 12) == collected
      decreases |searchYears| - y
    {
      ScanYearsUnfold(store, searchYears[y..], transactions, limit, 12);
      transactions := ScanYear(store, searchYears[y], transactions, limit);
      assert searchYears[y..][1..] == searchYears[y + 1..];
      if |transactions| >= limit {
        break;
      }
      y := y + 1;
    }
    assert transactions == collected;
    result := Take(SortByDateDesc(transactions), limit);
  }

  // ---------------------------------------------------------------------------------------
  // The duplicate filter
  // ---------------------------------------------------------------------------------------

  /** The identifier a parsed candidate would be stored under. */
  function CandidateId(c: Candidate, engine: Engine): (r: Result<string, string>)
    ensures r.Err? <==> c.date.InvalidDate?
    ensures r.Ok? ==> IdShape(r.value)
  {
    TransactionId(c.date, c.description, Finite(c.amount), engine)
  }

  /** The filter's test: keep a candidate whose id is not stored, or whose id cannot be derived. */
  predicate IsNew(c: Candidate, existingIds: set<string>, engine: Engine) {
    var id := CandidateId(c, engine);
    id.Err? || id.value !in existingIds
  }

  /** `newTransactions.filter(...)`: the candidates judged new, in their original order. */
  function KeepNew(candidates: seq<Candidate>, existingIds: set<string>, engine: Engine): (kept: seq<Candidate>)
    ensures |kept| <= |candidates|
  {
    if candidates == [] then []
    else
      var last := candidates[|candidates| - 1];
      KeepNew(candidates[..|candidates| - 1], existingIds, engine) + (if IsNew(last, existingIds, engine) then [last] else [])
  }

  /** The kept candidates are exactly the input's candidates that the test judges new. */
  lemma {:induction false} KeepNewMembers(candidates: seq<Candidate>, existingIds: set<string>, engine: Engine)
    ensures forall c :: c in KeepNew(candidates, existingIds, engine) <==> c in candidates && IsNew(c, existingIds, engine)
  {
    if candidates != [] {
      var init := candidates[..|candidates| - 1];
      assert candidates == init + [candidates[|candidates| - 1]];
      KeepNewMembers(init, existingIds, engine);
    }
  }

  /** Fail-open: a candidate whose identifier cannot be derived (its date is invalid) is never
      filtered out. */
  lemma InvalidDateKept(candidates: seq<Candidate>, existingIds: set<string>, engine: Engine, c: Candidate)
    requires c in candidates && c.date.InvalidDate?
    ensures c in KeepNew(candidates, existingIds, engine)
  {
    KeepNewMembers(candidates, existingIds, engine);
  }

  /** The filter preserves order: filtering two batches in turn concatenates their results. */
  lemma {:induction false} KeepNewAppend(a: seq<Candidate>, b: seq<Candidate>, existingIds: set<string>, engine: Engine)
    ensures KeepNew(a + b, existingIds, engine) == KeepNew(a, existingIds, engine) + KeepNew(b, existingIds, engine)
    decreases |b|
  {
    if b == [] {
      assert a + b == a;
    } else {
      var b', x := b[..|b| - 1], b[|b| - 1];
      var tail := if IsNew(x, existingIds, engine) then [x] else [];
      assert (a + b)[..|a + b| - 1] == a + b';
      assert (a + b)[|a + b| - 1] == x;
      assert KeepNew(a + b, existingIds, engine) == KeepNew(a + b', existingIds, engine) + tail;
      assert KeepNew(b, existingIds, engine) == KeepNew(b', existingIds, engine) + tail;
      KeepNewAppend(a, b', existingIds, engine);
      AppendAssociates(KeepNew(a, existingIds, engine), KeepNew(b', existingIds, engine), tail);
    }
  }

  lemma AppendAssociates<T>(x: seq<T>, y: seq<T>, z: seq<T>)
    ensures (x + y) + z == x + (y + z)
  {
  }

  /** The identifiers of stored transactions. */
  function IdsOf(txs: seq<Transaction>): (ids: set<string>)
    ensures forall i :: 0 <= i < |txs| ==> txs[i].id in ids
    ensures forall id :: id in ids ==> exists i :: 0 <= i < |txs| && txs[i].id == id
  {
    if txs == [] then {} else IdsOf(txs[..|txs| - 1]) + {txs[|txs| - 1].id}
  }

  /** The result of `getUncategorizedTransactions`. */
  datatype DuplicateCheck = DuplicateCheck(
    uncategorizedTransactions: seq<Candidate>,
    existingCount: int,
    newCount: int)

  /**
   * `getUncategorizedTransactions`: read up to 10000 stored transactions, collect their ids,
   * keep the candidates judged new; the two counts split the batch.
   */
  method GetUncategorizedTransactions(store: Store, currentYear: int, newTransactions: seq<Candidate>, engine: Engine)
    returns (r: DuplicateCheck)
    ensures r.uncategorizedTransactions
            == KeepNew(newTransactions, IdsOf(RecentTransactions(store, currentYear, 10000)), engine)
    ensures r.newCount == |r.uncategorizedTransactions|
    ensures r.existingCount == |newTransactions| - r.newCount && r.existingCount >= 0
  {
    var existingTransactions := GetRecentTransactions(store, currentYear, 10000);
    var existingIds := CollectIds(existingTransactions);
    var uncategorized := KeepNew(newTransactions, existingIds, engine);
    r := DuplicateCheck(uncategorized, |newTransactions| - |uncategorized|, |uncategorized|);
  }

  /** `existingTransactions.forEach(tx => existingIds.add(tx.id))`. */
  method CollectIds(txs: seq<Transaction>) returns (existingIds: set<string>)
    ensures existingIds == IdsOf(txs)
  {
    existingIds := {};
    for i := 0 to |txs|
      invariant existingIds == IdsOf(txs[..i])
    {
      assert txs[..i + 1][..i] == txs[..i];
      existingIds := existingIds + {txs[i].id};
    }
    assert txs[..|txs|] == txs;
  }

  /** The draft `createTransaction` receives for a candidate and a chosen category. */
  function DraftOf(c: Candidate, categoryId: Option<string>): Draft {
    Draft(c.date, c.description, Finite(c.amount), categoryId, c.rawDescription)
  }

  /**
   * Saving and deduplication agree on identity: once a candidate has been written, a later
   * batch that reads its identifier back drops every copy of that candidate.
   */
  lemma SavedCandidateIsDuplicate(c: Candidate, categoryId: Option<string>, userId: string,
                                  batch: seq<Candidate>, existingIds: set<string>, engine: Engine)
    requires PlanTransactionWrite(userId, DraftOf(c, categoryId), engine).Ok?
    requires PlanTransactionWrite(userId, DraftOf(c, categoryId), engine).value.id in existingIds
    ensures c !in KeepNew(batch, existingIds, engine)
  {
    KeepNewMembers(batch, existingIds, engine);
  }

  // ---------------------------------------------------------------------------------------
  // Grouping by category
  // ---------------------------------------------------------------------------------------

  /** `transaction.categoryId || 'uncategorized'`. */
  function CategoryKey(t: Transaction): (key: string)
    ensures key == "uncategorized" || (t.categoryId == Some(key) && key != "")
    ensures t.categoryId.None? || t.categoryId == Some("") ==> key == "uncategorized"
  {
    if t.categoryId.Some? && t.categoryId.value != "" then t.categoryId.value else "uncategorized"
  }

  /** The transactions of one group, in input order. */
  function InCategory(txs: seq<Transaction>, key: string): (group: seq<Transaction>)
    ensures |group| <= |txs|
  {
    if txs == [] then []
    else
      var last := txs[|txs| - 1];
      InCategory(txs[..|txs| - 1], key) + (if CategoryKey(last) == key then [last] else [])
  }

  /** A group holds exactly the transactions with its key; a key nobody has gets no group. */
  lemma {:induction false} InCategoryMembers(txs: seq<Transaction>, key: string)
    ensures forall t :: t in InCategory(txs, key) <==> t in txs && CategoryKey(t) == key
    ensures (forall t :: t in txs ==> CategoryKey(t) != key) ==> InCategory(txs, key) == []
  {
    if txs != [] {
      var init := txs[..|txs| - 1];
      assert txs == init + [txs[|txs| - 1]];
      InCategoryMembers(init, key);
    }
  }

  /** Group keys in order of first appearance: the key order of the `grouped` object. */
  function KeyOrder(txs: seq<Transaction>): (keys: seq<string>)
    ensures |keys| <= |txs|
  {
    if txs == [] then []
    else
      var prior := KeyOrder(txs[..|txs| - 1]);
      var key := CategoryKey(txs[|txs| - 1]);
      if key in prior then prior else prior + [key]
  }

  /** No key is listed twice. */
  lemma {:induction false} KeyOrderDistinct(txs: seq<Transaction>)
    ensures forall i, j :: 0 <= i < j < |KeyOrder(txs)| ==> KeyOrder(txs)[i] != KeyOrder(txs)[j]
  {
    if txs != [] {
      KeyOrderDistinct(txs[..|txs| - 1]);
    }
  }

  /** The listed keys are exactly the keys of the input's transactions. */
  lemma {:induction false} KeyOrderMembers(txs: seq<Transaction>)
    ensures forall t :: t in txs ==> CategoryKey(t) in KeyOrder(txs)
    ensures forall k :: k in KeyOrder(txs) ==> exists t :: t in txs && CategoryKey(t) == k
  {
    if txs != [] {
      var init := txs[..|txs| - 1];
      var last := txs[|txs| - 1];
      assert txs == init + [last];
      KeyOrderMembers(init);
      var prior := KeyOrder(init);
      assert forall k :: k in prior ==> k in KeyOrder(txs);
      forall t | t in txs
        ensures CategoryKey(t) in KeyOrder(txs)
      {
        if t != last {
          assert t in init;
        }
      }
      forall k | k in KeyOrder(txs)
        ensures exists t :: t in txs && CategoryKey(t) == k
      {
        if k in prior {
          var t :| t in init && CategoryKey(t) == k;
          assert t in txs;
        } else {
          assert last in txs && CategoryKey(last) == k;
        }
      }
    }
  }

  /** The sum of the sizes of the listed groups. */
  function GroupSizes(txs: seq<Transaction>, keys: seq<string>): nat {
    if keys == [] then 0 else |InCategory(txs, keys[0])| + GroupSizes(txs, keys[1..])
  }

  /** Adding one transaction grows exactly its own group among distinct keys. */
  lemma {:induction false} GroupSizesGrow(txs: seq<Transaction>, t: Transaction, keys: seq<string>)
    requires forall i, j :: 0 <= i < j < |keys| ==> keys[i] != keys[j]
    ensures GroupSizes(txs + [t], keys) == GroupSizes(txs, keys) + (if CategoryKey(t) in keys then 1 else 0)
  {
    if keys != [] {
      assert (txs + [t])[..|txs + [t]| - 1] == txs;
      assert CategoryKey(t) in keys[1..] ==> CategoryKey(t) != keys[0];
      GroupSizesGrow(txs, t, keys[1..]);
    }
  }

  /** A key that has not appeared yet has an empty group. */
  lemma GroupSizesNewKey(txs: seq<Transaction>, keys: seq<string>, key: string)
    requires key !in keys
    requires InCategory(txs, key) == []
    ensures GroupSizes(txs, keys + [key]) == GroupSizes(txs, keys)
    decreases |keys|
  {
    if keys != [] {
      assert (keys + [key])[1..] == keys[1..] + [key];
      GroupSizesNewKey(txs, keys[1..], key);
    } else {
      assert ([key])[1..] == [];
    }
  }

  /** Every transaction lands in exactly one group: the group sizes add up to the input length. */
  lemma {:induction false} GroupsPartition(txs: seq<Transaction>)
    ensures GroupSizes(txs, KeyOrder(txs)) == |txs|
  {
    if txs != [] {
      var init := txs[..|txs| - 1];
      var t := txs[|txs| - 1];
      assert txs == init + [t];
      GroupsPartition(init);
      var prior := KeyOrder(init);
      KeyOrderDistinct(init);
      KeyOrderMembers(init);
      GroupSizesGrow(init, t, prior);
      if CategoryKey(t) !in prior {
        InCategoryMembers(init, CategoryKey(t));
        assert prior + [CategoryKey(t)] == KeyOrder(txs);
        GroupSizesGrow(init, t, prior + [CategoryKey(t)]);
        GroupSizesNewKey(init, prior, CategoryKey(t));
      }
    }
  }

  /** Groups keep input order: grouping two batches in turn concatenates each group. */
  lemma {:induction false} InCategoryAppend(a: seq<Transaction>, b: seq<Transaction>, key: string)
    ensures InCategory(a + b, key) == InCategory(a, key) + InCategory(b, key)
    decreases |b|
  {
    if b == [] {
      assert a + b == a;
    } else {
      assert (a + b)[..|a + b| - 1] == a + b[..|b| - 1];
      assert (a + b)[|a + b| - 1] == b[|b| - 1];
      InCategoryAppend(a, b[..|b| - 1], key);
    }
  }

  /**
   * `getTransactionsGroupedByCategory`: read up to 1000 transactions, then group them by
   * category key.
   */
  method GetTransactionsGroupedByCategory(store: Store, currentYear: int)
    returns (grouped: map<string, seq<Transaction>>, order: seq<string>)
    ensures var txs := RecentTransactions(store, currentYear, 1000);
      && order == KeyOrder(txs)
      && (forall k :: k in grouped <==> k in order)
      && (forall k :: k in grouped ==> grouped[k] == InCategory(txs, k))
  {
    var transactions := GetRecentTransactions(store, currentYear, 1000);
    grouped, order := GroupByCategory(transactions);
  }

  /** The `forEach` that buckets transactions, creating a bucket the first time its key appears. */
  method GroupByCategory(transactions: seq<Transaction>)
    returns (grouped: map<string, seq<Transaction>>, order: seq<string>)
    ensures order == KeyOrder(transactions)
    ensures forall k :: k in grouped <==> k in order
    ensures forall k :: k in grouped ==> grouped[k] == InCategory(transactions, k)
  {
    grouped, order := map[], [];
    for i := 0 to |transactions|
      invariant order == KeyOrder(transactions[..i])
      invariant forall k :: k in grouped <==> k in order
      invariant forall k :: k in grouped ==> grouped[k] == InCategory(transactions[..i], k)
    {
      ghost var seen := transactions[..i];
      assert transactions[..i + 1] == seen + [transactions[i]];
      var transaction := transactions[i];
      var categoryId := CategoryKey(transaction);
      if categoryId !in grouped {
        KeyOrderMembers(seen);
        InCategoryMembers(seen, categoryId);
        grouped := grouped[categoryId := []];
        order := order + [categoryId];
      }
      grouped := grouped[categoryId := grouped[categoryId] + [transaction]];
    }
    assert transactions[..|transactions|] == transactions;
  }
}
