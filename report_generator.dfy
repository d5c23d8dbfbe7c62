/**
  The report: counting the vulnerable findings of the four checkers, the rows
  of the findings table shown on the console and written to the HTML file,
  the choice between that table and the "no vulnerabilities" section, and the
  record written as JSON.
 */
module Report {
  import opened Common
  import Discovery

  /**
    One finding of a checker: its `vulnerable` entry (None when the key is
    absent) and its text entries (`url`, `details`, `version`, `host`, `share`).
   */
  datatype Finding = Finding(vulnerable: Option<bool>, fields: map<string, string>)

  /** One value of the scan's `results` dictionary. */
  datatype ResultValue =
    | HostList(hosts: seq<string>)
    | PortTable(ports: map<string, seq<Discovery.PortRecord>>)
    | ServiceList(services: seq<Discovery.WebService>)
    | FindingList(findings: seq<Finding>)

  type Results = map<string, ResultValue>

  /** One row of the findings table: kind, target, details. */
  datatype Row = Row(kind: string, target: string, details: string)

  /** Either the findings table or the "no vulnerabilities found" message. */
  datatype Section = FindingsTable(rows: seq<Row>) | NoFindings

  /**
    What the console shows and the HTML file holds: the summary lines
    (target, scan time, duration, number of vulnerabilities) and the section.
   */
  datatype Summary = Summary(target: string, scanTime: string, duration: real, vulnCount: nat, section: Section)

  /** A value of the JSON record. */
  datatype JsonValue =
    | JText(text: string)
    | JCount(count: nat)
    | JSeconds(seconds: real)  // the duration, written with two decimals and " seconds"
    | JResults(results: Results)

  /** The categories the report reads, in the order it lists them. */
  const Categories: seq<string> := ["wordpress", "craftcms", "smb", "zyxel"]

  /** The keys of the JSON record. */
  const JsonKeys: set<string> := {"target", "scan_time", "duration", "vuln_count", "results"}

  /** `vuln.get('vulnerable', False)`: a missing flag counts as not vulnerable. */
  predicate IsVulnerable(f: Finding) {
    f.vulnerable == Some(true)
  }

  /** `results.get(category, [])`. */
  function CategoryFindings(results: Results, category: string): seq<Finding>
  {
    if category in results && results[category].FindingList? then results[category].findings else []
  }

  // ---------------------------------------------------------------------
  // Counting (`_count_vulnerabilities`)
  // ---------------------------------------------------------------------

  /** The number of vulnerable findings in `fs`. */
  function CountVulnerable(fs: seq<Finding>): nat
  {
    if fs == [] then 0
    else CountVulnerable(fs[..|fs| - 1]) + (if IsVulnerable(fs[|fs| - 1]) then 1 else 0)
  }

  /** The vulnerable findings of the listed categories. */
  function CountIn(results: Results, categories: seq<string>): nat
  {
    if categories == [] then 0
    else
      CountIn(results, categories[..|categories| - 1])
        + CountVulnerable(CategoryFindings(results, categories[|categories| - 1]))
  }

  /** `vuln_count`. */
  function VulnCount(results: Results): nat
  {
    CountIn(results, Categories)
  }

  /** The positions of the vulnerable findings. */
  function VulnerableIndices(fs: seq<Finding>): set<nat>
  {
    set i: nat | i < |fs| && IsVulnerable(fs[i])
  }

  /** The count is the number of positions holding a vulnerable finding. */
  lemma {:induction false} CountIsVulnerableIndices(fs: seq<Finding>)
    ensures CountVulnerable(fs) == |VulnerableIndices(fs)|
  {
    if fs != [] {
      var init := fs[..|fs| - 1];
      CountIsVulnerableIndices(init);
      var last: nat := |fs| - 1;
      if IsVulnerable(fs[last]) {
        assert VulnerableIndices(fs) == VulnerableIndices(init) + {last};
      } else {
        assert VulnerableIndices(fs) == VulnerableIndices(init);
      }
    }
  }

  lemma {:induction false} CountInOtherKey(results: Results, categories: seq<string>, k: string, v: ResultValue)
    requires k !in categories
    ensures CountIn(results[k := v], categories) == CountIn(results, categories)
  {
    if categories != [] {
      CountInOtherKey(results, categories[..|categories| - 1], k, v);
    }
  }

  /** Keys other than the four categories never change the count. */
  lemma OtherKeysIgnored(results: Results, k: string, v: ResultValue)
    requires k !in Categories
    ensures VulnCount(results[k := v]) == VulnCount(results)
  {
    CountInOtherKey(results, Categories, k, v);
  }

  lemma {:induction false} CountInAbsent(results: Results, categories: seq<string>)
    requires forall c :: c in categories ==> c !in results
    ensures CountIn(results, categories) == 0
  {
    if categories != [] {
      CountInAbsent(results, categories[..|categories| - 1]);
    }
  }

  /** Results without any of the four categories count no vulnerabilities. */
  lemma MissingCategoriesCountZero(results: Results)
    requires forall c :: c in Categories ==> c !in results
    ensures VulnCount(results) == 0
  {
    CountInAbsent(results, Categories);
  }

  /** The count is zero exactly when no finding has a true `vulnerable` flag. */
  lemma {:induction false} ZeroCountNoneVulnerable(fs: seq<Finding>)
    ensures CountVulnerable(fs) == 0 <==> forall i :: 0 <= i < |fs| ==> !IsVulnerable(fs[i])
  {
    if fs != [] {
      var init := fs[..|fs| - 1];
      ZeroCountNoneVulnerable(init);
      assert forall i :: 0 <= i < |init| ==> init[i] == fs[i];
    }
  }

  // ---------------------------------------------------------------------
  // Rows (`display_console_report`, `save_html_report`)
  // ---------------------------------------------------------------------

  /** The heading of a category's rows. */
  function Label(category: string): string
  {
    match category
    case "wordpress" => "WordPress"
    case "craftcms" => "Craft CMS"
    case "smb" => "SMB"
    case _ => "Zyxel"
  }

  /** The entries a category's row reads from a finding. */
  function RequiredFields(category: string): set<string>
  {
    match category
    case "craftcms" => {"url", "details", "version"}
    case "smb" => {"host", "share", "details"}
    case _ => {"url", "details"}
  }

  /** The row of a vulnerable finding, or None when an entry it reads is missing (`KeyError`). */
  function FormatRow(category: string, f: Finding): (r: Option<Row>)
    ensures r.Some? <==> RequiredFields(category) <= f.fields.Keys
    ensures r.Some? ==> r.value.kind == Label(category)
  {
    var m := f.fields;
    match category
    case "craftcms" =>
      if "url" in m && "details" in m && "version" in m
      then Some(Row("Craft CMS", m["url"], m["details"] + " (الإصدار " + m["version"] + ")"))
      else None
    case "smb" =>
      if "host" in m && "share" in m && "details" in m
      then Some(Row("SMB", m["host"] + " (" + m["share"] + ")", m["details"]))
      else None
    case _ =>
      if "url" in m && "details" in m
      then Some(Row(Label(category), m["url"], m["details"]))
      else None
  }

  /** The rows of one category's findings, or None when a vulnerable one cannot be formatted. */
  function CategoryRows(category: string, fs: seq<Finding>): Option<seq<Row>>
  {
    if fs == [] then Some([])
    else
      match CategoryRows(category, fs[..|fs| - 1])
      case None => None
      case Some(rows) =>
        var f := fs[|fs| - 1];
        if !IsVulnerable(f) then Some(rows)
        else
          match FormatRow(category, f)
          case None => None
          case Some(row) => Some(rows + [row])
  }

  /** The rows of the listed categories, one category after the other. */
  function RowsIn(results: Results, categories: seq<string>): Option<seq<Row>>
  {
    if categories == [] then Some([])
    else
      match RowsIn(results, categories[..|categories| - 1])
      case None => None
      case Some(rows) =>
        match CategoryRows(categories[|categories| - 1], CategoryFindings(results, categories[|categories| - 1]))
        case None => None
        case Some(more) => Some(rows + more)
  }

  /** The table rows, or None when building them raises `KeyError`. */
  function ReportRows(results: Results): Option<seq<Row>>
  {
    RowsIn(results, Categories)
  }

  /** Every vulnerable finding of the category has the entries its row reads. */
  predicate Formattable(category: string, fs: seq<Finding>)
  {
    forall i :: 0 <= i < |fs| && IsVulnerable(fs[i]) ==> RequiredFields(category) <= fs[i].fields.Keys
  }

  /** A category yields rows iff its vulnerable findings are formattable; then one row per such finding. */
  lemma {:induction false} CategoryRowsSpec(category: string, fs: seq<Finding>)
    ensures CategoryRows(category, fs).Some? <==> Formattable(category, fs)
    ensures CategoryRows(category, fs).Some? ==> |CategoryRows(category, fs).value| == CountVulnerable(fs)
  {
    if fs != [] {
      var init := fs[..|fs| - 1];
      CategoryRowsSpec(category, init);
      assert forall i :: 0 <= i < |init| ==> init[i] == fs[i];
    }
  }

  /** `row` is the formatted row of some vulnerable finding among `fs`. */
  predicate RowFrom(category: string, fs: seq<Finding>, row: Row)
  {
    exists i :: 0 <= i < |fs| && IsVulnerable(fs[i]) && FormatRow(category, fs[i]) == Some(row)
  }

  /** Each row is the formatted row of a vulnerable finding of the category. */
  lemma {:induction false} CategoryRowsOrigin(category: string, fs: seq<Finding>)
    requires CategoryRows(category, fs).Some?
    ensures var rows := CategoryRows(category, fs).value;
      forall j :: 0 <= j < |rows| ==> RowFrom(category, fs, rows[j])
  {
    if fs != [] {
      var init := fs[..|fs| - 1];
      CategoryRowsOrigin(category, init);
      var rows := CategoryRows(category, fs).value;
      var before := CategoryRows(category, init).value;
      var last := |fs| - 1;
      if IsVulnerable(fs[last]) {
        assert rows == before + [FormatRow(category, fs[last]).value];
        assert RowFrom(category, fs, rows[|before|]);
      } else {
        assert rows == before;
      }
      forall j | 0 <= j < |before|
        ensures RowFrom(category, fs, rows[j])
      {
        assert rows[j] == before[j];
        var i :| 0 <= i < |init| && IsVulnerable(init[i]) && FormatRow(category, init[i]) == Some(before[j]);
        assert fs[i] == init[i];
      }
    }
  }

  /**
    Where each vulnerable finding's row sits: after one row per vulnerable
    finding before it. So every vulnerable finding has its row, and the rows
    follow the order of the findings.
   */
  lemma {:induction false} CategoryRowsAt(category: string, fs: seq<Finding>)
    requires CategoryRows(category, fs).Some?
    ensures var rows := CategoryRows(category, fs).value;
      forall i :: 0 <= i < |fs| && IsVulnerable(fs[i]) ==>
        CountVulnerable(fs[..i]) < |rows| && FormatRow(category, fs[i]) == Some(rows[CountVulnerable(fs[..i])])
  {
    if fs != [] {
      var n := |fs| - 1;
      var init := fs[..n];
      CategoryRowsAt(category, init);
      CategoryRowsSpec(category, init);
      var rows := CategoryRows(category, fs).value;
      var before := CategoryRows(category, init).value;
      assert |before| == CountVulnerable(init);
      if IsVulnerable(fs[n]) {
        assert rows == before + [FormatRow(category, fs[n]).value];
      } else {
        assert rows == before;
      }
      forall i | 0 <= i < |fs| && IsVulnerable(fs[i])
        ensures CountVulnerable(fs[..i]) < |rows| && FormatRow(category, fs[i]) == Some(rows[CountVulnerable(fs[..i])])
      {
        if i < n {
          assert fs[..i] == init[..i] && fs[i] == init[i];
        } else {
          assert fs[..i] == init;
        }
      }
    }
  }

  /** Every vulnerable finding's row is in the table. */
  lemma CategoryRowsComplete(category: string, fs: seq<Finding>)
    requires CategoryRows(category, fs).Some?
    ensures forall i :: 0 <= i < |fs| && IsVulnerable(fs[i]) ==>
      FormatRow(category, fs[i]).Some? && FormatRow(category, fs[i]).value in CategoryRows(category, fs).value
  {
    CategoryRowsAt(category, fs);
  }

  /** A vulnerable finding adds to the count of every longer prefix. */
  lemma {:induction false} CountPrefixGrows(fs: seq<Finding>, i: nat, j: nat)
    requires i < j <= |fs| && IsVulnerable(fs[i])
    ensures CountVulnerable(fs[..i]) < CountVulnerable(fs[..j])
    decreases j
  {
    assert fs[..j][..j - 1] == fs[..j - 1];
    if j > i + 1 {
      CountPrefixGrows(fs, i, j - 1);
    }
  }

  /** The row of an earlier vulnerable finding comes before the row of a later one. */
  lemma CategoryRowsOrder(category: string, fs: seq<Finding>, i: nat, j: nat)
    requires CategoryRows(category, fs).Some?
    requires i < j < |fs| && IsVulnerable(fs[i]) && IsVulnerable(fs[j])
    ensures var rows := CategoryRows(category, fs).value;
      exists p, q :: 0 <= p < q < |rows| && FormatRow(category, fs[i]) == Some(rows[p]) && FormatRow(category, fs[j]) == Some(rows[q])
  {
    CategoryRowsAt(category, fs);
    CountPrefixGrows(fs, i, j);
    var rows := CategoryRows(category, fs).value;
    var p, q := CountVulnerable(fs[..i]), CountVulnerable(fs[..j]);
    assert FormatRow(category, fs[i]) == Some(rows[p]) && FormatRow(category, fs[j]) == Some(rows[q]);
  }

  /** Every row of a category carries that category's label. */
  lemma CategoryRowsKind(category: string, fs: seq<Finding>)
    requires CategoryRows(category, fs).Some?
    ensures forall r :: r in CategoryRows(category, fs).value ==> r.kind == Label(category)
  {
    CategoryRowsOrigin(category, fs);
    var rows := CategoryRows(category, fs).value;
    forall r | r in rows
      ensures r.kind == Label(category)
    {
      var j :| 0 <= j < |rows| && rows[j] == r;
      var i :| 0 <= i < |fs| && IsVulnerable(fs[i]) && FormatRow(category, fs[i]) == Some(rows[j]);
    }
  }

  /** All vulnerable findings of the listed categories are formattable. */
  predicate AllFormattable(results: Results, categories: seq<string>)
  {
    forall c :: c in categories ==> Formattable(c, CategoryFindings(results, c))
  }

  lemma {:induction false} RowsInSpec(results: Results, categories: seq<string>)
    ensures RowsIn(results, categories).Some? <==> AllFormattable(results, categories)
    ensures RowsIn(results, categories).Some? ==> |RowsIn(results, categories).value| == CountIn(results, categories)
  {
    if categories != [] {
      var init := categories[..|categories| - 1];
      var last := categories[|categories| - 1];
      RowsInSpec(results, init);
      CategoryRowsSpec(last, CategoryFindings(results, last));
      assert categories == init + [last];
    }
  }

  /**
    The table can be built iff every vulnerable finding has the entries its
    row reads, and then it has exactly `vuln_count` rows.
   */
  lemma RowsMatchCount(results: Results)
    ensures ReportRows(results).Some? <==> AllFormattable(results, Categories)
    ensures ReportRows(results).Some? ==> |ReportRows(results).value| == VulnCount(results)
  {
    RowsInSpec(results, Categories);
  }

  lemma {:induction false} ZeroCountFormattable(results: Results, categories: seq<string>)
    requires CountIn(results, categories) == 0
    ensures AllFormattable(results, categories)
  {
    if categories != [] {
      var init := categories[..|categories| - 1];
      var last := categories[|categories| - 1];
      ZeroCountFormattable(results, init);
      ZeroCountNoneVulnerable(CategoryFindings(results, last));
      assert categories == init + [last];
    }
  }

  /** With nothing vulnerable there are no rows, and nothing can raise. */
  lemma NoVulnerabilitiesNoRows(results: Results)
    requires VulnCount(results) == 0
    ensures ReportRows(results) == Some([])
  {
    ZeroCountFormattable(results, Categories);
    RowsInSpec(results, Categories);
  }

  /** The position of a label in the table's category order. */
  function Rank(kind: string): nat
  {
    if kind == "WordPress" then 0 else if kind == "Craft CMS" then 1 else if kind == "SMB" then 2 else 3
  }

  lemma {:induction false} RowsInOrdered(results: Results, categories: seq<string>)
    requires categories <= Categories
    requires RowsIn(results, categories).Some?
    ensures var rows := RowsIn(results, categories).value;
      && (forall r :: r in rows ==> Rank(r.kind) < |categories|)
      && (forall i, j :: 0 <= i < j < |rows| ==> Rank(rows[i].kind) <= Rank(rows[j].kind))
  {
    if categories != [] {
      var n := |categories| - 1;
      var init := categories[..n];
      var last := categories[n];
      assert init <= Categories;
      RowsInOrdered(results, init);
      var before := RowsIn(results, init).value;
      var more := CategoryRows(last, CategoryFindings(results, last)).value;
      CategoryRowsKind(last, CategoryFindings(results, last));
      assert last == Categories[n];
      assert Rank(Label(last)) == n;
      var rows := RowsIn(results, categories).value;
      assert rows == before + more;
      forall i, j | 0 <= i < j < |rows|
        ensures Rank(rows[i].kind) <= Rank(rows[j].kind)
      {
        if j >= |before| {
          assert rows[j] in more;
          if i >= |before| {
            assert rows[i] in more;
          } else {
            assert rows[i] in before;
          }
        }
      }
      forall r | r in rows
        ensures Rank(r.kind) < |categories|
      {
        if r in more {
        } else {
          assert r in before;
        }
      }
    }
  }

  /**
    The rows come grouped by category: WordPress first, then Craft CMS, then
    SMB, then Zyxel.
   */
  lemma RowsOrdered(results: Results)
    requires ReportRows(results).Some?
    ensures var rows := ReportRows(results).value;
      forall i, j :: 0 <= i < j < |rows| ==> Rank(rows[i].kind) <= Rank(rows[j].kind)
  {
    RowsInOrdered(results, Categories);
  }

  /** The section shown: the table iff something is vulnerable; None when building the table raises. */
  function ReportSection(results: Results): Option<Section>
  {
    if VulnCount(results) > 0 then
      match ReportRows(results)
      case Some(rows) => Some(FindingsTable(rows))
      case None => None
    else Some(NoFindings)
  }

  /**
    The table appears iff `vuln_count > 0`, with one row per vulnerable
    finding; otherwise the no-vulnerabilities section. Only a table can fail.
   */
  lemma SectionChoice(results: Results)
    ensures ReportSection(results).Some? <==> AllFormattable(results, Categories)
    ensures ReportSection(results) == Some(NoFindings) <==> VulnCount(results) == 0
    ensures ReportSection(results).Some? && ReportSection(results).value.FindingsTable? ==>
      |ReportSection(results).value.rows| == VulnCount(results) > 0
  {
    RowsMatchCount(results);
    if VulnCount(results) == 0 {
      NoVulnerabilitiesNoRows(results);
    }
  }

  /** The JSON record: exactly these five keys. */
  function Payload(target: string, scanTime: string, duration: real, vulnCount: nat, results: Results): (p: map<string, JsonValue>)
    ensures p.Keys == JsonKeys
  {
    map["target" := JText(target), "scan_time" := JText(scanTime), "duration" := JSeconds(duration),
        "vuln_count" := JCount(vulnCount), "results" := JResults(results)]
  }

  // ---------------------------------------------------------------------
  // Methods
  // ---------------------------------------------------------------------

  /** `_count_vulnerabilities`: one counting loop per category, in report order. */
  method CountVulnerabilities(results: Results) returns (count: nat)
    ensures count == VulnCount(results)
  {
    count := 0;
    for c := 0 to |Categories|
      invariant count == CountIn(results, Categories[..c])
    {
      var category := Categories[c];
      var fs := CategoryFindings(results, category);
      assert Categories[..c + 1][..c] == Categories[..c];
      ghost var before := count;
      for i := 0 to |fs|
        invariant count == before + CountVulnerable(fs[..i])
      {
        assert fs[..i + 1][..i] == fs[..i];
        if IsVulnerable(fs[i]) {
          count := count + 1;
        }
      }
      assert fs[..|fs|] == fs;
    }
    assert Categories[..|Categories|] == Categories;
  }

  /** The loop of one category: its rows after `table`, or None at the first `KeyError`. */
  method AddCategoryRows(table: seq<Row>, category: string, fs: seq<Finding>) returns (r: Option<seq<Row>>)
    ensures r == match CategoryRows(category, fs)
                 case Some(rows) => Some(table + rows)
                 case None => None
  {
    var acc := table;
    ghost var added: seq<Row> := [];
    for i := 0 to |fs|
      invariant acc == table + added
      invariant CategoryRows(category, fs[..i]) == Some(added)
    {
      assert fs[..i + 1][..i] == fs[..i];
      var f := fs[i];
      if IsVulnerable(f) {
        var row := FormatRow(category, f);
        if row.None? {
          KeyErrorPersists(category, fs, i + 1);
          return None;
        }
        assert table + added + [row.value] == table + (added + [row.value]);
        acc := acc + [row.value];
        added := added + [row.value];
      }
    }
    assert fs[..|fs|] == fs;
    r := Some(acc);
  }

  /** Once a prefix of the findings raises, the whole category raises. */
  lemma {:induction false} KeyErrorPersists(category: string, fs: seq<Finding>, n: nat)
    requires n <= |fs| && CategoryRows(category, fs[..n]).None?
    ensures CategoryRows(category, fs).None?
    decreases |fs| - n
  {
    if n < |fs| {
      assert fs[..n + 1][..n] == fs[..n];
      KeyErrorPersists(category, fs, n + 1);
    } else {
      assert fs[..n] == fs;
    }
  }

  /** The rows of all four categories, or None when one raises. */
  method BuildRows(results: Results) returns (r: Option<seq<Row>>)
    ensures r == ReportRows(results)
  {
    var table: seq<Row> := [];
    for c := 0 to |Categories|
      invariant RowsIn(results, Categories[..c]) == Some(table)
    {
      var category := Categories[c];
      assert Categories[..c + 1][..c] == Categories[..c];
      var next := AddCategoryRows(table, category, CategoryFindings(results, category));
      if next.None? {
        RowsPersistNone(results, c + 1);
        return None;
      }
      table := next.value;
    }
    assert Categories[..|Categories|] == Categories;
    r := Some(table);
  }

  lemma {:induction false} RowsPersistNone(results: Results, n: nat)
    requires n <= |Categories| && RowsIn(results, Categories[..n]).None?
    ensures ReportRows(results).None?
    decreases |Categories| - n
  {
    if n < |Categories| {
      assert Categories[..n + 1][..n] == Categories[..n];
      RowsPersistNone(results, n + 1);
    } else {
      assert Categories[..n] == Categories;
    }
  }

  /** The report of one scan; every field is set once, when it is made. */
  class ReportGenerator {
    const target: string
    const results: Results
    const scanTime: string
    const duration: real
    const vulnCount: nat

    constructor (target: string, results: Results, scanTime: string, duration: real)
      ensures this.target == target && this.results == results
      ensures this.scanTime == scanTime && this.duration == duration
      ensures vulnCount == VulnCount(results)
    {
      this.target := target;
      this.results := results;
      this.scanTime := scanTime;
      this.duration := duration;
      var count := CountVulnerabilities(results);
      vulnCount := count;
    }

    /** The summary with the given section. */
    function WithSection(section: Section): Summary
    {
      Summary(target, scanTime, duration, vulnCount, section)
    }

    /**
      `display_console_report`: the summary, then the table iff
      `vuln_count > 0`; a vulnerable finding missing an entry raises `KeyError`.
     */
    method DisplayConsoleReport() returns (r: Result<Summary, Exception>)
      requires vulnCount == VulnCount(results)
      ensures r == match ReportSection(results)
                   case Some(section) => Ok(WithSection(section))
                   case None => Raised(KeyError)
    {
      if vulnCount > 0 {
        var rows := BuildRows(results);
        if rows.None? {
          return Raised(KeyError);
        }
        r := Ok(WithSection(FindingsTable(rows.value)));
      } else {
        r := Ok(WithSection(NoFindings));
      }
    }

    /**
      `save_json_report`: the five-key record is written when the file can be
      written; the result says whether it was.
     */
    method SaveJsonReport(outputFile: string, canWrite: bool) returns (ok: bool, written: Option<map<string, JsonValue>>)
      ensures ok == canWrite
      ensures written == if canWrite then Some(Payload(target, scanTime, duration, vulnCount, results)) else None
    {
      var outputData := Payload(target, scanTime, duration, vulnCount, results);
      if !canWrite {
        return false, None;
      }
      return true, Some(outputData);
    }

    /**
      `save_html_report`: the same summary and section as the console, written
      when it can be built and the file can be written; any exception,
      `KeyError` included, makes it return false.
     */
    method SaveHtmlReport(outputFile: string, canWrite: bool) returns (ok: bool, written: Option<Summary>)
      requires vulnCount == VulnCount(results)
      ensures ok <==> written.Some?
      ensures written == if canWrite && ReportSection(results).Some?
                         then Some(WithSection(ReportSection(results).value)) else None
    {
      var section: Section;
      if vulnCount > 0 {
        var rows := BuildRows(results);
        if rows.None? {
          return false, None;
        }
        section := FindingsTable(rows.value);
      } else {
        section := NoFindings;
      }
      if !canWrite {
        return false, None;
      }
      return true, Some(WithSection(section));
    }
  }
}
