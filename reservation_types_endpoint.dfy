/**
 * The reservation-types endpoint: it reads the catalog sheet, skips the
 * header row, parses each remaining row by column position, and keeps the
 * active rows that have a label and a value. When the sheet has rows but
 * none is kept, or the read fails, it serves one built-in type; when the
 * sheet has no rows at all it answers 404.
 *
 * `decimal.TryParse` is the parameter `parseDecimal`.
 */
module ReservationTypesEndpoint {
  import opened Wrappers
  import opened Text
  import opened Http
  import opened ReservationTypeModels

  /** A spreadsheet cell: None is a null cell. */
  type Cell = Option<string>

  /** A spreadsheet row: None is a null row. */
  type SheetRow = Option<seq<Cell>>

  /** The sheet read: it threw, or it returned the rows (None for a null result). */
  datatype SheetFetch = FetchThrew | Fetched(data: Option<seq<SheetRow>>)

  // ------------------------------------------------------------ cells

  /** The text has no white space at either end. */
  predicate Trimmed(s: string) {
    s != [] ==> !IsDotNetWhiteSpace(s[0]) && !IsDotNetWhiteSpace(s[|s| - 1])
  }

  /** The trimmed text of column `k`: "" when the row is shorter or the cell is null. */
  function CellText(row: seq<Cell>, k: nat): (r: string)
    ensures k >= |row| || row[k].None? ==> r == ""
    ensures r != [] ==> k < |row| && row[k].Some?
    ensures Trimmed(r)
  {
    if k < |row| && row[k].Some? then DotNetTrim(row[k].value) else ""
  }

  /** The characters `bool.TryParse` strips from either end: white space and NUL. */
  predicate IsWhiteSpaceOrNull(c: char) {
    IsDotNetWhiteSpace(c) || c == '\0'
  }

  /** The text `bool.TryParse` compares: white space and NUL characters trimmed from either end. */
  function BoolKey(s: string): string {
    Lower(Trim(s, IsWhiteSpaceOrNull))
  }

  /**
   * `bool.TryParse`: "true" or "false" in any letter case, once white space
   * and NUL characters are trimmed from either end.
   */
  function ParseBool(s: string): (r: Option<bool>)
    ensures r == Some(true) <==> BoolKey(s) == "true"
    ensures r == Some(false) <==> BoolKey(s) == "false"
    ensures r.None? <==> BoolKey(s) != "true" && BoolKey(s) != "false"
  {
    var key := BoolKey(s);
    if key == "true" then Some(true)
    else if key == "false" then Some(false)
    else None
  }

  /** A text with nothing to trim is compared as it is. */
  lemma ParseTrimmedBool(s: string)
    requires s != [] ==> !IsWhiteSpaceOrNull(s[0]) && !IsWhiteSpaceOrNull(s[|s| - 1])
    ensures ParseBool(s) == if Lower(s) == "true" then Some(true) else if Lower(s) == "false" then Some(false) else None
  {
    TrimmedUnchanged(s, IsWhiteSpaceOrNull);
  }

  /** NUL characters at either end are dropped before the comparison, as white space is. */
  lemma ParseBoolTrimsNull(s: string)
    requires s != [] ==> !IsWhiteSpaceOrNull(s[0]) && !IsWhiteSpaceOrNull(s[|s| - 1])
    ensures ParseBool(s + "\0") == ParseBool(s) && ParseBool("\0" + s) == ParseBool(s)
  {
    TrimDropsLast(s, '\0', IsWhiteSpaceOrNull);
    TrimDropsFirst(s, '\0', IsWhiteSpaceOrNull);
    assert BoolKey(s + "\0") == BoolKey(s) == BoolKey("\0" + s);
  }

  /** The words are read in any letter case. */
  lemma ParseBoolUpperTrue()
    ensures ParseBool("TRUE") == Some(true)
  {
    ParseTrimmedBool("TRUE");
    assert Lower("TRUE") == "true";
  }

  lemma ParseBoolMixedFalse()
    ensures ParseBool("False") == Some(false)
  {
    ParseTrimmedBool("False");
    assert Lower("False") == "false";
  }

  /** A text shorter than "true" with nothing to trim is not a boolean. */
  lemma ParseBoolRejectsShort(s: string)
    requires s != [] ==> !IsWhiteSpaceOrNull(s[0]) && !IsWhiteSpaceOrNull(s[|s| - 1])
    requires |s| < 4
    ensures ParseBool(s) == None
  {
    TrimmedUnchanged(s, IsWhiteSpaceOrNull);
  }

  /** Other words, numbers and the empty text are not booleans. */
  lemma ParseBoolRejectsOthers(s: string)
    requires s == "yes" || s == "1" || s == ""
    ensures ParseBool(s) == None
  {
    ParseBoolRejectsShort(s);
  }

  /** A spelling of "false" starts and ends with a letter, so there is nothing to trim. */
  lemma FalseWordTrimmed(w: string)
    requires Lower(w) == "false"
    ensures |w| == 5 && w[0] in "fF" && w[4] in "eE"
  {
    assert Lower(w)[0] == 'f' && Lower(w)[4] == 'e';
  }

  /**
   * "false" in any letter case followed by a NUL reads as false, and
   * `String.Trim` keeps the NUL, so a flag cell holding it reaches the
   * parser with the NUL and still marks the type inactive.
   */
  lemma NullPaddedFalse(w: string)
    requires Lower(w) == "false"
    ensures ParseBool(w + "\0") == Some(false)
    ensures DotNetTrim(w + "\0") == w + "\0"
  {
    FalseWordTrimmed(w);
    TrimDropsLast(w, '\0', IsWhiteSpaceOrNull);
    assert BoolKey(w + "\0") == "false";
    var t := w + "\0";
    assert t[0] == w[0] && t[|t| - 1] == '\0';
    TrimmedUnchanged(t, IsDotNetWhiteSpace);
  }

  /**
   * Parse one non-empty row by position: label, value, description, deposit,
   * active flag. A missing or unreadable deposit is 0; a missing or
   * unreadable flag is true.
   */
  function ParseRow(row: seq<Cell>, parseDecimal: string -> Option<real>): ReservationType {
    var deposit := if 3 < |row| && row[3].Some? then parseDecimal(DotNetTrim(row[3].value)).GetOr(0.0) else 0.0;
    var active := if 4 < |row| && row[4].Some? then ParseBool(DotNetTrim(row[4].value)).GetOr(true) else true;
    ReservationType(CellText(row, 0), CellText(row, 1), CellText(row, 2), deposit, active)
  }

  /**
   * The columns of a parsed row: the texts are the trimmed cells (no white
   * space at either end), the deposit is 0 unless a fourth cell parses, and
   * the type is active unless a fifth cell reads "false".
   */
  lemma ParseRowColumns(row: seq<Cell>, parseDecimal: string -> Option<real>)
    ensures
      var t := ParseRow(row, parseDecimal);
      && Trimmed(t.typeLabel) && Trimmed(t.value) && Trimmed(t.description)
      && (t.typeLabel != "" ==> 0 < |row| && row[0].Some? && t.typeLabel == DotNetTrim(row[0].value))
      && (t.value != "" ==> 1 < |row| && row[1].Some? && t.value == DotNetTrim(row[1].value))
      && (|row| <= 2 || row[2].None? ==> t.description == "")
      && (|row| <= 3 || row[3].None? ==> t.depositAmount == 0.0)
      && (3 < |row| && row[3].Some? ==> t.depositAmount == parseDecimal(DotNetTrim(row[3].value)).GetOr(0.0))
      && (|row| <= 4 || row[4].None? ==> t.isActive)
  {
  }

  /**
   * A row's type is inactive exactly when its fifth cell reads "false" in
   * some letter case, around which white space and NUL characters may stand.
   */
  lemma InactiveIff(row: seq<Cell>, parseDecimal: string -> Option<real>)
    ensures !ParseRow(row, parseDecimal).isActive <==> 4 < |row| && row[4].Some? && BoolKey(DotNetTrim(row[4].value)) == "false"
  {
  }

  /** The type is served: it is active and has a label and a value. */
  predicate Keep(t: ReservationType) {
    t.isActive && t.typeLabel != "" && t.value != ""
  }

  /** The row is a non-empty row that parses to `t`, and `t` is kept. */
  predicate ParsesTo(row: SheetRow, parseDecimal: string -> Option<real>, t: ReservationType) {
    row.Some? && row.value != [] && t == ParseRow(row.value, parseDecimal) && Keep(t)
  }

  /** A kept type whose label and value carry no surrounding white space. */
  predicate Served(t: ReservationType) {
    Keep(t) && Trimmed(t.typeLabel) && Trimmed(t.value)
  }

  /** What one data row contributes: nothing for a null or empty row or a type that is not kept. */
  function RowTypes(row: SheetRow, parseDecimal: string -> Option<real>): (r: seq<ReservationType>)
    ensures |r| <= 1
    ensures r != [] ==> row.Some? && row.value != [] && r == [ParseRow(row.value, parseDecimal)] && Keep(r[0])
  {
    if row.None? || row.value == [] then []
    else
      var t := ParseRow(row.value, parseDecimal);
      if Keep(t) then [t] else []
  }

  /** A row contributes `t` exactly when it is non-empty, parses to `t`, and `t` is kept. */
  lemma RowTypesMembership(row: SheetRow, parseDecimal: string -> Option<real>, t: ReservationType)
    ensures t in RowTypes(row, parseDecimal) <==> ParsesTo(row, parseDecimal, t)
  {
  }

  /** The results of `f` on each element of `xs`, concatenated in order. */
  function Collect<A, B>(xs: seq<A>, f: A -> seq<B>): seq<B>
    decreases |xs|
  {
    if xs == [] then [] else Collect(xs[..|xs| - 1], f) + f(xs[|xs| - 1])
  }

  /** What each data row contributes, as a function value. */
  function RowContribution(parseDecimal: string -> Option<real>): SheetRow -> seq<ReservationType> {
    row => RowTypes(row, parseDecimal)
  }

  /** The types kept from `rows`, in sheet order. */
  function KeptTypes(rows: seq<SheetRow>, parseDecimal: string -> Option<real>): seq<ReservationType> {
    Collect(rows, RowContribution(parseDecimal))
  }

  /** The built-in catalog: regular dining, no deposit. */
  function DefaultReservationTypes(): (r: seq<ReservationType>)
    ensures |r| == 1 && Keep(r[0])
    ensures r[0] == ReservationType("Regular Dining", "regular", "No deposit required", 0.0, true)
  {
    [ReservationType("Regular Dining", "regular", "No deposit required", 0.0, true)]
  }

  /**
   * The catalog the endpoint serves: the default when the read throws, empty
   * when it returns no rows, and otherwise the kept types of every row but
   * the first, or the default when none is kept.
   */
  function CatalogTypes(fetch: SheetFetch, parseDecimal: string -> Option<real>): seq<ReservationType> {
    match fetch
    case FetchThrew => DefaultReservationTypes()
    case Fetched(None) => []
    case Fetched(Some(data)) =>
      if data == [] then []
      else
        var kept := KeptTypes(data[1..], parseDecimal);
        if kept == [] then DefaultReservationTypes() else kept
  }

  // --------------------------------------------------------- the loop

  /** Read and parse the catalog sheet, in the handler's own loop. */
  method RetrieveReservationTypesFromSpreadsheet(fetch: SheetFetch, parseDecimal: string -> Option<real>)
    returns (types: seq<ReservationType>)
    ensures types == CatalogTypes(fetch, parseDecimal)
  {
    if fetch.FetchThrew? {
      return DefaultReservationTypes();
    }
    if fetch.data.None? || fetch.data.value == [] {
      return [];
    }
    var data := fetch.data.value;
    types := [];
    for i := 1 to |data|
      invariant types == KeptTypes(data[1..i], parseDecimal)
    {
      var row := data[i];
      KeptTypesStep(data, i, parseDecimal);
      if row.None? || row.value == [] {
        continue;
      }
      var reservationType := ParseRow(row.value, parseDecimal);
      if Keep(reservationType) {
        types := types + [reservationType];
      }
    }
    assert data[1..|data|] == data[1..];
    if types == [] {
      return DefaultReservationTypes();
    }
  }

  /** Handle one request to the reservation-types endpoint. */
  method GetReservationTypes(httpMethod: string, fetch: SheetFetch, parseDecimal: string -> Option<real>)
    returns (response: Response<seq<ReservationType>>)
    ensures IsPreflight(httpMethod) ==> response == Response(200, NoContent)
    ensures !IsPreflight(httpMethod) && CatalogTypes(fetch, parseDecimal) == [] ==>
      response == Response(404, Error("No reservation types found", "No reservation types are currently configured"))
    ensures !IsPreflight(httpMethod) && CatalogTypes(fetch, parseDecimal) != [] ==>
      response == Response(200, Ok(CatalogTypes(fetch, parseDecimal)))
  {
    if IsPreflight(httpMethod) {
      return Response(200, NoContent);
    }
    var reservationTypes := RetrieveReservationTypesFromSpreadsheet(fetch, parseDecimal);
    if reservationTypes == [] {
      return Response(404, Error("No reservation types found", "No reservation types are currently configured"));
    }
    return Response(200, Ok(reservationTypes));
  }

  // ----------------------------------------------------------- lemmas

  /** Extending a slice by one element. */
  lemma SliceStep<A>(s: seq<A>, lo: nat, hi: nat)
    requires lo <= hi < |s|
    ensures s[lo..hi + 1][..hi - lo] == s[lo..hi] && s[lo..hi + 1][hi - lo] == s[hi]
  {
  }

  /** Collecting over a slice extended by one element. */
  lemma CollectStep<A, B>(s: seq<A>, lo: nat, hi: nat, f: A -> seq<B>)
    requires lo <= hi < |s|
    ensures Collect(s[lo..hi + 1], f) == Collect(s[lo..hi], f) + f(s[hi])
  {
    SliceStep(s, lo, hi);
  }

  /** The loop's step: the rows up to `i` inclusive keep what the earlier rows keep, then row `i`'s type. */
  lemma KeptTypesStep(data: seq<SheetRow>, i: nat, parseDecimal: string -> Option<real>)
    requires 1 <= i < |data|
    ensures KeptTypes(data[1..i + 1], parseDecimal) == KeptTypes(data[1..i], parseDecimal) + RowTypes(data[i], parseDecimal)
  {
    CollectStep(data, 1, i, RowContribution(parseDecimal));
  }

  /** Collecting over one element is that element's result. */
  lemma CollectSingle<A, B>(x: A, f: A -> seq<B>)
    ensures Collect([x], f) == f(x)
  {
    assert [x][..0] == [];
  }

  /** Collecting over two blocks is collecting over each, in order. */
  lemma {:induction false} CollectAppend<A, B>(a: seq<A>, b: seq<A>, f: A -> seq<B>)
    ensures Collect(a + b, f) == Collect(a, f) + Collect(b, f)
    decreases |b|
  {
    if b == [] {
      assert a + b == a;
    } else {
      var b' := b[..|b| - 1];
      assert (a + b)[..|a + b| - 1] == a + b';
      assert (a + b)[|a + b| - 1] == b[|b| - 1];
      CollectAppend(a, b', f);
    }
  }

  /** Every collected value comes from some element: the index of that element. */
  lemma {:induction false} CollectSource<A, B>(xs: seq<A>, f: A -> seq<B>, y: B) returns (i: nat)
    requires y in Collect(xs, f)
    ensures i < |xs| && y in f(xs[i])
    decreases |xs|
  {
    var init := xs[..|xs| - 1];
    if y in Collect(init, f) {
      i := CollectSource(init, f, y);
      assert xs[i] == init[i];
    } else {
      i := |xs| - 1;
    }
  }

  /** Whatever any element yields is collected. */
  lemma {:induction false} CollectIncludes<A, B>(xs: seq<A>, f: A -> seq<B>, i: nat, y: B)
    requires i < |xs| && y in f(xs[i])
    ensures y in Collect(xs, f)
    decreases |xs|
  {
    var init := xs[..|xs| - 1];
    if i < |init| {
      assert init[i] == xs[i];
      CollectIncludes(init, f, i, y);
    }
  }

  /** Parsing row by row composes: the types of two blocks of rows are the two results in order. */
  lemma KeptTypesAppend(a: seq<SheetRow>, b: seq<SheetRow>, parseDecimal: string -> Option<real>)
    ensures KeptTypes(a + b, parseDecimal) == KeptTypes(a, parseDecimal) + KeptTypes(b, parseDecimal)
  {
    CollectAppend(a, b, RowContribution(parseDecimal));
  }

  /** A type is served from `rows` exactly when some row contributes it. */
  lemma KeptTypesMembership(rows: seq<SheetRow>, parseDecimal: string -> Option<real>, t: ReservationType)
    ensures t in KeptTypes(rows, parseDecimal) <==> exists i :: 0 <= i < |rows| && t in RowTypes(rows[i], parseDecimal)
  {
    var f := RowContribution(parseDecimal);
    if t in KeptTypes(rows, parseDecimal) {
      var i := CollectSource(rows, f, t);
      assert t in RowTypes(rows[i], parseDecimal);
    }
    if exists i :: 0 <= i < |rows| && t in RowTypes(rows[i], parseDecimal) {
      var i :| 0 <= i < |rows| && t in RowTypes(rows[i], parseDecimal);
      CollectIncludes(rows, f, i, t);
    }
  }

  /** A type is served exactly when some non-empty row parses to it and it is kept. */
  lemma KeptTypesFromRows(rows: seq<SheetRow>, parseDecimal: string -> Option<real>, t: ReservationType)
    ensures t in KeptTypes(rows, parseDecimal) <==> exists i :: 0 <= i < |rows| && ParsesTo(rows[i], parseDecimal, t)
  {
    KeptTypesMembership(rows, parseDecimal, t);
    forall i | 0 <= i < |rows|
      ensures t in RowTypes(rows[i], parseDecimal) <==> ParsesTo(rows[i], parseDecimal, t)
    {
      RowTypesMembership(rows[i], parseDecimal, t);
    }
  }

  /** Every served type is kept, and its label and value carry no surrounding white space. */
  lemma KeptTypesValid(rows: seq<SheetRow>, parseDecimal: string -> Option<real>)
    ensures forall t :: t in KeptTypes(rows, parseDecimal) ==> Served(t)
  {
    forall t | t in KeptTypes(rows, parseDecimal)
      ensures Served(t)
    {
      var i := CollectSource(rows, RowContribution(parseDecimal), t);
      var row := rows[i];
      assert t in RowTypes(row, parseDecimal);
      ParseRowColumns(row.value, parseDecimal);
    }
  }

  /** A null or empty row leaves the other rows' results unchanged. */
  lemma SkippedRowIgnored(a: seq<SheetRow>, row: SheetRow, b: seq<SheetRow>, parseDecimal: string -> Option<real>)
    requires row.None? || row.value == []
    ensures KeptTypes(a + [row] + b, parseDecimal) == KeptTypes(a + b, parseDecimal)
  {
    var f := RowContribution(parseDecimal);
    CollectAppend(a + [row], b, f);
    CollectAppend(a, [row], f);
    CollectAppend(a, b, f);
    CollectSingle(row, f);
    assert f(row) == [];
    calc {
      Collect(a + [row] + b, f);
      Collect(a + [row], f) + Collect(b, f);
      Collect(a, f) + f(row) + Collect(b, f);
      { assert Collect(a, f) + f(row) == Collect(a, f); }
      Collect(a, f) + Collect(b, f);
      Collect(a + b, f);
    }
  }

  /** The first row is never parsed: replacing it changes nothing. */
  lemma HeaderIgnored(header: SheetRow, other: SheetRow, rest: seq<SheetRow>, parseDecimal: string -> Option<real>)
    ensures CatalogTypes(Fetched(Some([header] + rest)), parseDecimal) == CatalogTypes(Fetched(Some([other] + rest)), parseDecimal)
  {
    assert ([header] + rest)[1..] == rest;
    assert ([other] + rest)[1..] == rest;
  }

  /** A sheet holding only its header serves the built-in catalog. */
  lemma HeaderOnlyGivesDefault(header: SheetRow, parseDecimal: string -> Option<real>)
    ensures CatalogTypes(Fetched(Some([header])), parseDecimal) == DefaultReservationTypes()
  {
    assert [header][1..] == [];
  }

  /** The catalog is empty (and the endpoint answers 404) exactly when the read returned no rows. */
  lemma CatalogEmptyIff(fetch: SheetFetch, parseDecimal: string -> Option<real>)
    ensures CatalogTypes(fetch, parseDecimal) == [] <==> fetch == Fetched(None) || fetch == Fetched(Some([]))
  {
    assert DefaultReservationTypes() != [];
  }

  /**
   * A non-empty catalog is either the built-in one or exactly the kept rows
   * after the header, in sheet order.
   */
  lemma CatalogIsKeptRowsOrDefault(data: seq<SheetRow>, parseDecimal: string -> Option<real>)
    requires data != []
    ensures
      var served := CatalogTypes(Fetched(Some(data)), parseDecimal);
      served == DefaultReservationTypes() || served == KeptTypes(data[1..], parseDecimal)
    ensures KeptTypes(data[1..], parseDecimal) == [] ==> CatalogTypes(Fetched(Some(data)), parseDecimal) == DefaultReservationTypes()
    ensures forall t :: t in CatalogTypes(Fetched(Some(data)), parseDecimal) ==> Served(t)
  {
    KeptTypesValid(data[1..], parseDecimal);
  }

  /** A row of label and value only is an active type with no description and no deposit. */
  lemma ShortRowDefaults(labelCell: string, valueCell: string, parseDecimal: string -> Option<real>)
    ensures ParseRow([Some(labelCell), Some(valueCell)], parseDecimal)
         == ReservationType(DotNetTrim(labelCell), DotNetTrim(valueCell), "", 0.0, true)
  {
  }
}
