/** The text every report tool returns: the optional annotation lines, a blank
    line, the header line, a rule of 50 characters and one line per data row,
    built by one routine from an adapter's configuration. */
module Report {
  import opened Text
  import opened Html
  import opened Extract

  /** The sentence a per-item page puts around the green-font subject name. */
  datatype Subject = Subject(before: string, after: string)

  /** What distinguishes one report tool from another: where each field of a
      row comes from, the header labels, the rule character and, for the two
      per-item pages, the subject sentence. */
  datatype Adapter = Adapter(columns: seq<Column>, header: seq<string>, rule: char, subject: Option<Subject>)

  const UpdatedPrefix: string := "This information was last updated on: "

  /** Width of the rule under the header line. */
  const RuleWidth: nat := 50

  /** The "last updated" line, when the page has the annotation. */
  function UpdatedLines(info: Option<string>): seq<string>
  {
    match info
    case Some(s) => [UpdatedPrefix + s]
    case None => []
  }

  /** The subject line, for an adapter that has one on a page that has a
      green-font element. */
  function SubjectLines(a: Adapter, page: Page): seq<string>
  {
    if a.subject.Some? && page.greenFont.Some? then
      [a.subject.value.before + Strip(page.greenFont.value) + a.subject.value.after]
    else []
  }

  /** The lines before the blank line: updated-on first, then the subject. */
  function PreambleLines(a: Adapter, page: Page): seq<string>
  {
    UpdatedLines(UpdatedOn(page.paragraphs)) + SubjectLines(a, page)
  }

  /** Each extracted row as the fields joined into one line. */
  function RowStrings(rs: seq<seq<string>>): (lines: seq<string>)
    ensures |lines| == |rs|
  {
    if rs == [] then [] else [JoinFields(rs[0])] + RowStrings(rs[1..])
  }

  lemma {:induction false} RowStringsAt(rs: seq<seq<string>>, i: nat)
    requires i < |rs|
    ensures RowStrings(rs)[i] == JoinFields(rs[i])
  {
    if i > 0 {
      RowStringsAt(rs[1..], i - 1);
    }
  }

  /** Every line of a successful report, in order, without terminators. */
  function ReportLines(a: Adapter, page: Page, rs: seq<seq<string>>): seq<string>
  {
    PreambleLines(a, page) + ["", JoinFields(a.header), Repeat(a.rule, RuleWidth)] + RowStrings(rs)
  }

  /** The report text of a page, or the reason it cannot be produced. */
  function Render(a: Adapter, page: Page, base: string): Result<string>
  {
    match page.table
    case None => Err(MissingTable)
    case Some(rows) =>
      match ExtractTable(a.columns, rows, base)
      case Err(e) => Err(e)
      case Ok(rs) => Ok(Lines(ReportLines(a, page, rs)))
  }

  lemma {:induction false} LinesSnoc(ls: seq<string>, l: string)
    ensures Lines(ls + [l]) == Lines(ls) + (l + "\n")
  {
    LinesAppend(ls, [l]);
    assert Lines([l]) == l + "\n";
  }

  lemma {:induction false} RowStringsSnoc(rs: seq<seq<string>>, r: seq<string>)
    ensures RowStrings(rs + [r]) == RowStrings(rs) + [JoinFields(r)]
  {
    if rs != [] {
      assert (rs + [r])[1..] == rs[1..] + [r];
      RowStringsSnoc(rs[1..], r);
    } else {
      assert rs + [r] == [r];
    }
  }

  lemma BannerLines(pre: seq<string>, header: string, rule: string)
    ensures Lines(pre + ["", header, rule]) == Lines(pre) + "\n" + header + "\n" + rule + "\n"
  {
    var banner := ["", header, rule];
    assert Lines(banner[2..]) == rule + "\n";
    assert Lines(banner[1..]) == header + "\n" + rule + "\n";
    assert Lines(banner) == "\n" + header + "\n" + rule + "\n";
    LinesAppend(pre, banner);
  }

  /** The annotation lines as the source writes them: the updated-on line
      (assigned), then the subject line (appended). */
  method WritePreamble(a: Adapter, page: Page) returns (output: string)
    ensures output == Lines(PreambleLines(a, page))
  {
    output := "";
    var info := FindUpdatedOn(page.paragraphs);
    if info.Some? {
      output := UpdatedPrefix + info.value + "\n";
    }
    if a.subject.Some? && page.greenFont.Some? {
      output := output + a.subject.value.before + Strip(page.greenFont.value) + a.subject.value.after + "\n";
    }
    LinesAppend(UpdatedLines(info), SubjectLines(a, page));
  }

  /** The formatting step as the source writes it: a blank line and the
      header line, the rule, then a loop appending one line per row. */
  method WriteTable(a: Adapter, rs: seq<seq<string>>) returns (output: string)
    ensures output == Lines(["", JoinFields(a.header), Repeat(a.rule, RuleWidth)] + RowStrings(rs))
  {
    ghost var banner := ["", JoinFields(a.header), Repeat(a.rule, RuleWidth)];
    output := "\n" + JoinFields(a.header) + "\n";
    output := output + (Repeat(a.rule, RuleWidth) + "\n");
    BannerLines([], JoinFields(a.header), Repeat(a.rule, RuleWidth));
    assert [] + banner == banner && banner + RowStrings(rs[..0]) == banner;
    var i := 0;
    while i < |rs|
      invariant 0 <= i <= |rs|
      invariant output == Lines(banner + RowStrings(rs[..i]))
    {
      ghost var done := banner + RowStrings(rs[..i]);
      LinesSnoc(done, JoinFields(rs[i]));
      RowStringsSnoc(rs[..i], rs[i]);
      assert rs[..i + 1] == rs[..i] + [rs[i]];
      assert done + [JoinFields(rs[i])] == banner + RowStrings(rs[..i + 1]);
      output := output + (JoinFields(rs[i]) + "\n");
      i := i + 1;
    }
    assert rs[..|rs|] == rs;
  }

  /** One report tool end to end, as the source runs it: the annotations,
      the table lookup, the row loop, then the formatted table. Nothing is
      returned when the table is missing or a row is short. */
  method RunAdapter(a: Adapter, page: Page, base: string) returns (r: Result<string>)
    ensures r == Render(a, page, base)
  {
    var output := WritePreamble(a, page);
    if page.table.None? {
      return Err(MissingTable);
    }
    var extracted := ExtractRows(a.columns, page.table.value, base);
    if extracted.Err? {
      return Err(extracted.error);
    }
    var table := WriteTable(a, extracted.value);
    LinesAppend(PreambleLines(a, page), ["", JoinFields(a.header), Repeat(a.rule, RuleWidth)] + RowStrings(extracted.value));
    assert PreambleLines(a, page) + (["", JoinFields(a.header), Repeat(a.rule, RuleWidth)] + RowStrings(extracted.value))
        == ReportLines(a, page, extracted.value);
    r := Ok(output + table);
  }

  // ---------------------------------------------------------------------
  // What a report looks like
  // ---------------------------------------------------------------------

  /** No text that ends up on a line of the report contains a newline. */
  predicate SingleLines(a: Adapter, page: Page, rs: seq<seq<string>>)
  {
    (forall i :: 0 <= i < |a.header| ==> LineFree(a.header[i])) &&
    a.rule != '\n' &&
    (forall l :: l in PreambleLines(a, page) ==> LineFree(l)) &&
    (forall i, j :: 0 <= i < |rs| && 0 <= j < |rs[i]| ==> LineFree(rs[i][j]))
  }

  lemma {:induction false} JoinLineFree(fs: seq<string>)
    requires forall j :: 0 <= j < |fs| ==> LineFree(fs[j])
    ensures LineFree(JoinFields(fs))
  {
    if |fs| > 1 {
      JoinLineFree(fs[1..]);
    }
  }

  /** The shape of a successful report: cut at its newlines, it is the
      preamble lines, an empty line, the header line, the rule, then exactly
      one line per data row of the table, in table order, each line being that
      row's fields joined by "\t\t". The text ends with a newline. */
  lemma ReportShape(a: Adapter, page: Page, base: string)
    requires Render(a, page, base).Ok?
    ensures page.table.Some? && ExtractTable(a.columns, page.table.value, base).Ok?
    ensures var out := Render(a, page, base).value;
      var rs := ExtractTable(a.columns, page.table.value, base).value;
      SingleLines(a, page, rs) ==>
        SplitLines(out) == PreambleLines(a, page) + ["", JoinFields(a.header), Repeat(a.rule, RuleWidth)] + RowStrings(rs)
    ensures Render(a, page, base).value[|Render(a, page, base).value| - 1] == '\n'
  {
    var rs := ExtractTable(a.columns, page.table.value, base).value;
    var ls := ReportLines(a, page, rs);
    if SingleLines(a, page, rs) {
      forall k | 0 <= k < |ls| ensures LineFree(ls[k]) {
        var pre := PreambleLines(a, page);
        if k < |pre| {
          assert ls[k] in pre;
        } else if k == |pre| + 1 {
          JoinLineFree(a.header);
        } else if k == |pre| + 2 {
          assert forall c :: c in Repeat(a.rule, RuleWidth) ==> c == a.rule;
        } else if k >= |pre| + 3 {
          var i := k - |pre| - 3;
          RowStringsAt(rs, i);
          assert ls[k] == JoinFields(rs[i]);
          JoinLineFree(rs[i]);
        }
      }
      SplitLinesOfLines(ls);
    }
    LinesEndInNewline(ls);
  }

  /** Every row line of a report splits back into the row's fields, as
      many as the adapter has columns, when no field holds a tab. */
  lemma RowLineFields(a: Adapter, page: Page, base: string, i: nat)
    requires page.table.Some? && ExtractTable(a.columns, page.table.value, base).Ok?
    requires i < |ExtractTable(a.columns, page.table.value, base).value|
    requires var row := ExtractTable(a.columns, page.table.value, base).value[i];
      forall j :: 0 <= j < |row| ==> TabFree(row[j])
    requires a.columns != []
    ensures var rs := ExtractTable(a.columns, page.table.value, base).value;
      |SplitFields(RowStrings(rs)[i])| == |a.columns| && SplitFields(RowStrings(rs)[i]) == rs[i]
  {
    var rows := page.table.value;
    var rs := ExtractTable(a.columns, rows, base).value;
    ExtractTableMeaning(a.columns, rows, base);
    assert rs[i] == ExtractRow(a.columns, rows[i + 1], base);
    RowStringsAt(rs, i);
    SplitJoinFields(rs[i]);
  }

  lemma {:induction false} LinesEndInNewline(ls: seq<string>)
    requires ls != []
    ensures |Lines(ls)| > 0 && Lines(ls)[|Lines(ls)| - 1] == '\n'
  {
    if |ls| > 1 {
      LinesEndInNewline(ls[1..]);
    }
  }

  /** When a report is produced and when not: it fails with MissingTable
      exactly when the page has no data table, fails at the first data row
      that lacks a cell the adapter reads, and otherwise succeeds with one
      row line per table row after the header. */
  lemma ReportOutcome(a: Adapter, page: Page, base: string)
    ensures Render(a, page, base) == Err(MissingTable) <==> page.table.None?
    ensures Render(a, page, base).Ok? <==>
      page.table.Some? && forall j :: 1 <= j < |page.table.value| ==> Fits(a.columns, page.table.value[j])
    ensures Render(a, page, base).Err? && page.table.Some? ==>
      var rows := page.table.value;
      var e := Render(a, page, base).error;
      e.ShortRow? && 1 <= e.index < |rows| && !Fits(a.columns, rows[e.index]) &&
      forall j :: 1 <= j < e.index ==> Fits(a.columns, rows[j])
    ensures Render(a, page, base).Ok? ==>
      var rows := page.table.value;
      var rs := ExtractTable(a.columns, rows, base).value;
      |rs| == (if |rows| > 0 then |rows| - 1 else 0) &&
      forall i :: 0 <= i < |rs| ==> Fits(a.columns, rows[i + 1]) && rs[i] == ExtractRow(a.columns, rows[i + 1], base)
  {
    if page.table.Some? {
      ExtractTableMeaning(a.columns, page.table.value, base);
    }
  }
}
