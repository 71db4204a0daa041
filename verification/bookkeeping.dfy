/**
 * The pure helpers of the bookkeeping front end: the e-mail, description, amount and
 * import-data validators, the row-by-row import into the backend, and the search
 * filters over expenses, miles and hours.
 */
module Bookkeeping {
  import opened Wrappers
  import opened Text
  import opened Csv

  // ----------------------------------------------------------------- e-mail

  /** `[^\s@]`: neither whitespace nor `@`. */
  predicate AddressChar(c: char) {
    !IsSpace(c) && c != '@'
  }

  predicate AddressChars(s: string) {
    forall k :: 0 <= k < |s| ==> AddressChar(s[k])
  }

  /** `[^\s@]+\.[^\s@]+`: address characters with a dot that is neither first nor last. */
  predicate DomainShape(d: string) {
    AddressChars(d) && exists j :: 0 < j < |d| - 1 && d[j] == '.'
  }

  /** What `/^[^\s@]+@[^\s@]+\.[^\s@]+$/` matches: a non-empty local part, an `@`, a domain. */
  predicate EmailShape(s: string) {
    exists i :: 0 < i < |s| && s[i] == '@' && AddressChars(s[..i]) && DomainShape(s[i + 1..])
  }

  /** A dot strictly inside the domain, found by looking at its inner characters. */
  function HasInnerDot(d: string): bool {
    |d| >= 3 && Find(d[1..|d| - 1], '.') >= 0
  }

  /** `isValidEmail`: the part before the first `@` and the part after it are checked separately. */
  function IsValidEmail(email: string): (ok: bool)
    ensures ok ==> 5 <= |email|
  {
    var at := Find(email, '@');
    at > 0 && AddressChars(email[..at]) && AddressChars(email[at + 1..]) && HasInnerDot(email[at + 1..])
  }

  lemma InnerDot(d: string)
    ensures HasInnerDot(d) <==> exists j :: 0 < j < |d| - 1 && d[j] == '.'
  {
    if exists j :: 0 < j < |d| - 1 && d[j] == '.' {
      var j :| 0 < j < |d| - 1 && d[j] == '.';
      assert d[1..|d| - 1][j - 1] == '.';
    }
    if HasInnerDot(d) {
      var k := Find(d[1..|d| - 1], '.');
      assert d[k + 1] == '.';
    }
  }

  /** In a string of the shape, the `@` after the local part is the first one. */
  lemma FirstAt(s: string, i: nat)
    requires 0 < i < |s| && s[i] == '@' && AddressChars(s[..i])
    ensures Find(s, '@') == i
  {
    var at := Find(s, '@');
    assert forall k :: 0 <= k < i ==> s[k] != '@' by {
      assert forall k :: 0 <= k < i ==> s[..i][k] == s[k];
    }
    assert forall k :: 0 <= k < at ==> s[k] != '@' by {
      assert forall k :: 0 <= k < at ==> s[..at][k] == s[k];
    }
  }

  /** The regular expression and the computed check accept the same strings. */
  lemma ValidEmailIffShape(email: string)
    ensures IsValidEmail(email) <==> EmailShape(email)
  {
    var at := Find(email, '@');
    if EmailShape(email) {
      var i :| 0 < i < |email| && email[i] == '@' && AddressChars(email[..i]) && DomainShape(email[i + 1..]);
      FirstAt(email, i);
      InnerDot(email[i + 1..]);
    }
    if IsValidEmail(email) {
      InnerDot(email[at + 1..]);
      assert 0 < at < |email| && email[at] == '@' && AddressChars(email[..at]) && DomainShape(email[at + 1..]);
    }
  }

  /** An address the check accepts. */
  lemma EmailAccepted()
    ensures IsValidEmail("a@b.co")
  {
    ValidEmailIffShape("a@b.co");
    assert "a@b.co"[1] == '@' && "a@b.co"[..1] == "a" && "a@b.co"[2..] == "b.co";
    assert "b.co"[1] == '.';
  }

  /** A second `@` is refused, even inside an otherwise well-formed domain. */
  lemma EmailTwoAts()
    ensures !IsValidEmail("a@b@c.co")
  {
    FirstAt("a@b@c.co", 1);
    assert !AddressChar("a@b@c.co"[2..][1]);
  }

  /** A domain without an inner dot is refused. */
  lemma EmailNoDot()
    ensures !IsValidEmail("a@b") && !IsValidEmail("a@.co")
  {
    FirstAt("a@b", 1);
    FirstAt("a@.co", 1);
    InnerDot("a@.co"[2..]);
    assert "a@.co"[2..] == ".co";
  }

  // ------------------------------------------------------------ description

  /** `description && description.trim().length >= 3 && description.trim().length <= 200`,
      with None for undefined or null; `length` counts UTF-16 code units. */
  function ValidateDescription(description: Option<string>): (ok: bool)
    ensures ok ==> description.Some? && 2 <= |description.value|
  {
    description.Some? && description.value != "" && 3 <= Utf16Length(Trim(description.value)) <= 200
  }

  /**
   * Between 3 and 200 characters below U+10000 pass once trimmed; characters above it
   * count twice, so two emoji already pass and 101 of them are too long.
   */
  lemma DescriptionLength(description: string)
    requires Trim(description) == description
    ensures (forall k :: 0 <= k < |description| ==> description[k] as int <= 0xFFFF) ==>
              (ValidateDescription(Some(description)) <==> 3 <= |description| <= 200)
    ensures (forall k :: 0 <= k < |description| ==> description[k] as int > 0xFFFF) ==>
              (ValidateDescription(Some(description)) <==> 2 <= |description| <= 100)
  {
    if forall k :: 0 <= k < |description| ==> description[k] as int <= 0xFFFF {
      Utf16LengthBasic(description);
    }
    if forall k :: 0 <= k < |description| ==> description[k] as int > 0xFFFF {
      Utf16LengthAstral(description);
    }
  }

  /** Two emoji (U+1F600) make a valid description. */
  lemma TwoEmojiDescription()
    ensures ValidateDescription(Some("\U{1F600}\U{1F600}"))
  {
    var d := "\U{1F600}\U{1F600}";
    TrimUnchanged(d);
    DescriptionLength(d);
  }

  /** The form handlers trim the description first; that changes nothing. */
  lemma DescriptionOfTrimmed(description: string)
    ensures ValidateDescription(Some(Trim(description))) == ValidateDescription(Some(description))
  {
    TrimUnchanged(Trim(description));
  }

  /** Whitespace alone is never a description. */
  lemma BlankDescription(description: string)
    requires forall k :: 0 <= k < |description| ==> IsSpace(description[k])
    ensures !ValidateDescription(Some(description))
  {
    TrimEmpty(description);
  }

  // ----------------------------------------------------------------- amount

  /** `validateAmount` on the number `parseFloat` gave, with None for NaN. */
  function ValidateAmount(parsed: Option<real>): (ok: bool)
    ensures ok ==> parsed.Some? && parsed.value > 0.0
  {
    parsed.Some? && parsed.value > 0.0 && parsed.value <= 1000000.0
  }

  /** The accepted amounts form one interval: anything between two accepted amounts is accepted. */
  lemma AmountInterval(low: real, mid: real, high: real)
    requires ValidateAmount(Some(low)) && ValidateAmount(Some(high)) && low <= mid <= high
    ensures ValidateAmount(Some(mid))
  {
  }

  /** Its ends: a million is accepted, zero and NaN are not. */
  lemma AmountEnds()
    ensures ValidateAmount(Some(1000000.0)) && !ValidateAmount(Some(1000000.01))
    ensures !ValidateAmount(Some(0.0)) && !ValidateAmount(None)
  {
  }

  // ------------------------------------------------------------ import data

  /** What `validateImportData` is given: something that is not an array, or rows. */
  datatype ImportData = NotArray | Rows(rows: seq<Record>)

  /** `requiredFields[dataType]` */
  function RequiredFields(dataType: string): (fields: Option<seq<string>>)
    ensures fields.Some? <==> dataType in {"expenses", "miles", "hours"}
    ensures fields.Some? ==> "description" in fields.value
  {
    if dataType == "expenses" then Some(["description", "amount"])
    else if dataType == "miles" then Some(["description", "miles", "rate"])
    else if dataType == "hours" then Some(["description", "hours", "rate"])
    else None
  }

  /** `validateImportData`: a non-empty array whose first row has every required field. */
  function ValidateImportData(data: ImportData, dataType: string): (ok: bool)
    ensures ok ==> data.Rows? && data.rows != [] && RequiredFields(dataType).Some?
    ensures ok ==> "description" in Keys(data.rows[0])
  {
    data.Rows? && data.rows != [] && RequiredFields(dataType).Some?
    && var fields := RequiredFields(dataType).value;
    forall k :: 0 <= k < |fields| ==> fields[k] in Keys(data.rows[0])
  }

  /** Only the first row is looked at. */
  lemma ImportChecksFirstRow(first: Record, rest: seq<Record>, other: seq<Record>, dataType: string)
    ensures ValidateImportData(Rows([first] + rest), dataType) == ValidateImportData(Rows([first] + other), dataType)
  {
    assert ([first] + rest)[0] == first && ([first] + other)[0] == first;
  }

  /**
   * Rows parsed from a CSV file pass exactly when every required field is one of the
   * lower-cased header cells.
   */
  lemma ImportOfParsedCsv(text: string, dataType: string)
    requires ParseCsv(text).Success? && ParseCsv(text).value != []
    requires RequiredFields(dataType).Some?
    ensures var headers := LineCells(NonBlank(Split(text, '\n'))[0]);
      var fields := RequiredFields(dataType).value;
      ValidateImportData(Rows(ParseCsv(text).value), dataType) <==>
        forall k :: 0 <= k < |fields| ==> NamesHeader(fields[k], headers)
  {
    var rows := ParseCsv(text).value;
    var headers := LineCells(NonBlank(Split(text, '\n'))[0]);
    var fields := RequiredFields(dataType).value;
    ParsedRowKeys(text, 0);
    ImportChecksKeys(rows, dataType, HeaderKeys(headers, |headers|));
    FieldsAmongHeaders(fields, headers);
  }

  lemma ImportChecksKeys(rows: seq<Record>, dataType: string, keys: seq<string>)
    requires rows != [] && Keys(rows[0]) == keys && RequiredFields(dataType).Some?
    ensures var fields := RequiredFields(dataType).value;
      ValidateImportData(Rows(rows), dataType) <==> forall k :: 0 <= k < |fields| ==> fields[k] in keys
  {
  }

  lemma FieldsAmongHeaders(fields: seq<string>, headers: seq<string>)
    ensures (forall k :: 0 <= k < |fields| ==> fields[k] in HeaderKeys(headers, |headers|)) <==>
      forall k :: 0 <= k < |fields| ==> NamesHeader(fields[k], headers)
  {
    HeaderKeysExact(headers, |headers|);
  }

  /** The field is one of the headers, lower-cased. */
  predicate NamesHeader(field: string, headers: seq<string>) {
    exists j :: 0 <= j < |headers| && field == Lower(headers[j])
  }

  // ---------------------------------------------------------------- import

  /** The types that make a backend call; any other type makes none. */
  predicate KnownType(dataType: string) {
    dataType == "expenses" || dataType == "miles" || dataType == "hours"
  }

  /**
   * How the call for row `i` ended, as the backend decides it: None when it resolved,
   * the error's message when it threw.
   */
  type Backend = nat -> Option<string>

  /** What happened to row `i`: an unknown type makes no call, so nothing can fail. */
  function RowFailure(dataType: string, backend: Backend, i: nat): Option<string> {
    if KnownType(dataType) then backend(i) else None
  }

  /** `Row ${i + 1}: Success` or `Row ${i + 1}: ${error.message}` */
  function RowDetail(i: nat, failure: Option<string>): string {
    "Row " + NatToString(i + 1) + ": " + (if failure.None? then "Success" else failure.value)
  }

  datatype ImportResults = ImportResults(success: nat, errors: nat, details: seq<string>)

  /** The results after the first `n` rows. */
  function Tally(dataType: string, backend: Backend, n: nat): (r: ImportResults)
    ensures r.success + r.errors == n && |r.details| == n
  {
    if n == 0 then ImportResults(0, 0, [])
    else
      var before := Tally(dataType, backend, n - 1);
      var failure := RowFailure(dataType, backend, n - 1);
      var details := before.details + [RowDetail(n - 1, failure)];
      if failure.None? then ImportResults(before.success + 1, before.errors, details)
      else ImportResults(before.success, before.errors + 1, details)
  }

  /** The detail of each row is that row's, in row order. */
  lemma {:induction false} TallyDetail(dataType: string, backend: Backend, n: nat, i: nat)
    requires i < n
    ensures Tally(dataType, backend, n).details[i] == RowDetail(i, RowFailure(dataType, backend, i))
  {
    if i < n - 1 {
      TallyDetail(dataType, backend, n - 1, i);
    }
  }

  /** With an unknown type every row counts as a success. */
  lemma {:induction false} UnknownTypeSucceeds(dataType: string, backend: Backend, n: nat)
    requires !KnownType(dataType)
    ensures Tally(dataType, backend, n).success == n && Tally(dataType, backend, n).errors == 0
  {
    if n > 0 {
      UnknownTypeSucceeds(dataType, backend, n - 1);
    }
  }

  /** The rows, among the first `n`, whose call threw. */
  function FailedRows(dataType: string, backend: Backend, n: nat): set<nat> {
    set i: nat | i < n && RowFailure(dataType, backend, i).Some?
  }

  lemma FailedRowsStep(dataType: string, backend: Backend, n: nat)
    requires n > 0
    ensures FailedRows(dataType, backend, n) ==
      FailedRows(dataType, backend, n - 1) + (if RowFailure(dataType, backend, n - 1).Some? then {n - 1} else {})
    ensures n - 1 !in FailedRows(dataType, backend, n - 1)
  {
  }

  /** The error count is the number of rows whose call threw. */
  lemma {:induction false} TallyErrors(dataType: string, backend: Backend, n: nat)
    ensures Tally(dataType, backend, n).errors == |FailedRows(dataType, backend, n)|
  {
    if n > 0 {
      TallyErrors(dataType, backend, n - 1);
      FailedRowsStep(dataType, backend, n);
    } else {
      assert FailedRows(dataType, backend, n) == {};
    }
  }

  /** `importDataToBackend`: one call per row, in order, counting successes and errors. */
  method ImportDataToBackend(data: seq<Record>, dataType: string, backend: Backend) returns (results: ImportResults)
    ensures results == Tally(dataType, backend, |data|)
    ensures results.success + results.errors == |data| && |results.details| == |data|
  {
    results := ImportResults(0, 0, []);
    for i := 0 to |data|
      invariant results == Tally(dataType, backend, i)
    {
      var failure := RowFailure(dataType, backend, i);
      if failure.None? {
        results := results.(success := results.success + 1);
      } else {
        results := results.(errors := results.errors + 1);
      }
      results := results.(details := results.details + [RowDetail(i, failure)]);
    }
  }

  // ---------------------------------------------------------------- filters

  /**
   * An expense, mile or hour entry as the search sees it: its description, and its
   * amount, miles or hours as `toString` renders them.
   */
  datatype Listing = Listing(description: string, figure: string)

  /** The test of `filterExpenses`, `filterMiles` and `filterHours`. */
  predicate Matches(item: Listing, term: string) {
    Contains(Lower(item.description), Lower(term)) || Contains(item.figure, term)
  }

  /** `items.filter(item => ...)` */
  function Filter(items: seq<Listing>, term: string): (kept: seq<Listing>)
    ensures |kept| <= |items|
  {
    if items == [] then []
    else (if Matches(items[0], term) then [items[0]] else []) + Filter(items[1..], term)
  }

  /** An entry is kept exactly when it is listed and matches. */
  lemma {:induction false} FilterMembers(items: seq<Listing>, term: string, x: Listing)
    ensures x in Filter(items, term) <==> x in items && Matches(x, term)
  {
    if items != [] {
      FilterMembers(items[1..], term, x);
      assert items == [items[0]] + items[1..];
    }
  }

  /** Filtering keeps the order: it works part by part. */
  lemma {:induction false} FilterConcat(a: seq<Listing>, b: seq<Listing>, term: string)
    ensures Filter(a + b, term) == Filter(a, term) + Filter(b, term)
  {
    if a == [] {
      assert a + b == b;
    } else {
      var head := if Matches(a[0], term) then [a[0]] else [];
      assert (a + b)[0] == a[0] && (a + b)[1..] == a[1..] + b;
      assert Filter(a + b, term) == head + Filter(a[1..] + b, term);
      assert Filter(a, term) == head + Filter(a[1..], term);
      FilterConcat(a[1..], b, term);
    }
  }

  /** The empty search term keeps every entry. */
  lemma {:induction false} FilterEmptyTerm(items: seq<Listing>)
    ensures Filter(items, "") == items
  {
    if items != [] {
      assert StartsAt(Lower(items[0].description), 0, Lower(""));
      FilterEmptyTerm(items[1..]);
    }
  }

  /** Filtering again with the same term changes nothing. */
  lemma {:induction false} FilterIdempotent(items: seq<Listing>, term: string)
    ensures Filter(Filter(items, term), term) == Filter(items, term)
  {
    if items != [] {
      var head := if Matches(items[0], term) then [items[0]] else [];
      FilterIdempotent(items[1..], term);
      FilterConcat(head, Filter(items[1..], term), term);
      if Matches(items[0], term) {
        assert Filter(head, term) == head by {
          assert head[1..] == [];
        }
      }
    }
  }
}
