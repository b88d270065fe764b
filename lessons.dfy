/**
 * The lesson table of the platebook generator: a published spreadsheet
 * exported as CSV text, one lesson per line after a header line, with the
 * plate number, the date and the title in the first three columns.
 */
module Lessons {
  import opened Wrappers
  import opened Text

  datatype Lesson = Lesson(plateNumber: int, date: string, title: string)

  /** `int()` raised on the first column of a record line. */
  datatype CsvError = NotAnInteger(field: string)

  /** `csv_text.strip().split('\n')`: the header line first, then the data lines. */
  function Lines(csvText: string): seq<string> {
    Split(Strip(csvText), '\n')
  }

  /** A line that is empty or white space only. */
  predicate IsBlank(line: string) {
    Strip(line) == []
  }

  /** A line that yields a lesson (or aborts the parse): not blank and at least three comma-separated fields. */
  predicate IsRecord(line: string) {
    !IsBlank(line) && |Split(line, ',')| >= 3
  }

  /** A date or title column: stripped, then every double quote removed. */
  function Cleaned(field: string): (r: string)
    ensures '"' !in r
    ensures |r| <= |field|
  {
    RemoveAll(Strip(field), '"')
  }

  /** The lesson of the fields of one record line; fields after the third are ignored. */
  function LessonOfFields(parts: seq<string>): Result<Lesson, CsvError>
    requires |parts| >= 3
  {
    match ParseInt(Strip(parts[0]))
    case None => Failure(NotAnInteger(parts[0]))
    case Some(n) => Success(Lesson(n, Cleaned(parts[1]), Cleaned(parts[2])))
  }

  /** What one data line contributes: nothing (blank or short line), or its lesson, or the error that aborts the parse. */
  function LineOutcome(line: string): Option<Result<Lesson, CsvError>> {
    if IsRecord(line) then Some(LessonOfFields(Split(line, ','))) else None
  }

  function Outcomes(lines: seq<string>): (r: seq<Option<Result<Lesson, CsvError>>>)
    ensures |r| == |lines|
    ensures forall k :: 0 <= k < |r| ==> r[k] == LineOutcome(lines[k])
  {
    seq(|lines|, k requires 0 <= k < |lines| => LineOutcome(lines[k]))
  }

  /** An outcome that aborts the parse. */
  predicate Aborts(o: Option<Result<Lesson, CsvError>>) {
    o.Some? && o.value.Failure?
  }

  /** The outcomes of the data lines taken in order: lessons are appended, the first error aborts everything. */
  function Collect(outs: seq<Option<Result<Lesson, CsvError>>>): Result<seq<Lesson>, CsvError> {
    if outs == [] then Success([])
    else
      match outs[0]
      case None => Collect(outs[1..])
      case Some(Failure(e)) => Failure(e)
      case Some(Success(l)) => Prepend([l], Collect(outs[1..]))
  }

  /** Puts `pre` in front of a successful result; an error is passed on. */
  function Prepend(pre: seq<Lesson>, r: Result<seq<Lesson>, CsvError>): Result<seq<Lesson>, CsvError> {
    match r
    case Failure(e) => Failure(e)
    case Success(rest) => Success(pre + rest)
  }

  lemma PrependTwice(a: seq<Lesson>, b: seq<Lesson>, r: Result<seq<Lesson>, CsvError>)
    ensures Prepend(a, Prepend(b, r)) == Prepend(a + b, r)
  {
    if r.Success? {
      assert a + (b + r.value) == (a + b) + r.value;
    }
  }

  /** The lessons of the successful outcomes, in order. */
  function Kept(outs: seq<Option<Result<Lesson, CsvError>>>): (r: seq<Lesson>)
    ensures |r| <= |outs|
    ensures forall l :: l in r ==> Some(Success(l)) in outs
  {
    if outs == [] then []
    else
      var rest := Kept(outs[1..]);
      assert forall o :: o in outs[1..] ==> o in outs;
      if outs[0].Some? && outs[0].value.Success? then [outs[0].value.value] + rest else rest
  }

  /** What `parse_csv_to_lessons(csv_text)` returns or raises. */
  function ParseCsv(csvText: string): Result<seq<Lesson>, CsvError> {
    Collect(Outcomes(Lines(csvText)[1..]))
  }

  /** `parse_csv_to_lessons`: a loop over the data lines that appends one lesson per record line. */
  method ParseCsvToLessons(csvText: string) returns (r: Result<seq<Lesson>, CsvError>)
    ensures r == ParseCsv(csvText)
  {
    var lines := Split(Strip(csvText), '\n');
    ghost var outs := Outcomes(lines[1..]);
    var lessons: seq<Lesson> := [];
    var i := 1;
    assert Prepend([], Collect(outs)) == Collect(outs) by {
      assert forall x: seq<Lesson> :: [] + x == x;
    }
    while i < |lines|
      invariant 1 <= i <= |lines|
      invariant Collect(outs) == Prepend(lessons, Collect(outs[i - 1..]))
    {
      var line := lines[i];
      assert outs[i - 1] == LineOutcome(line);
      assert outs[i - 1..][1..] == outs[i..];
      if Strip(line) != [] {
        var parts := Split(line, ',');
        if |parts| >= 3 {
          var n := ParseInt(Strip(parts[0]));
          if n.None? {
            return Failure(NotAnInteger(parts[0]));
          }
          var lesson := Lesson(n.value, RemoveAll(Strip(parts[1]), '"'), RemoveAll(Strip(parts[2]), '"'));
          assert outs[i - 1] == Some(Success(lesson));
          PrependTwice(lessons, [lesson], Collect(outs[i..]));
          lessons := lessons + [lesson];
        }
      }
      i := i + 1;
    }
    assert outs[i - 1..] == [];
    assert lessons + [] == lessons;
    r := Success(lessons);
  }

  // ---------------------------------------------------------------------
  // What the parse promises
  // ---------------------------------------------------------------------

  /** Collecting succeeds exactly when no outcome aborts, and then yields the kept lessons in order. */
  lemma {:induction false} CollectSucceeds(outs: seq<Option<Result<Lesson, CsvError>>>)
    ensures Collect(outs).Success? <==> forall k :: 0 <= k < |outs| ==> !Aborts(outs[k])
    ensures Collect(outs).Success? ==> Collect(outs).value == Kept(outs)
  {
    if outs != [] {
      var tail := outs[1..];
      CollectSucceeds(tail);
      if !Aborts(outs[0]) && exists k :: 0 <= k < |tail| && Aborts(tail[k]) {
        var k :| 0 <= k < |tail| && Aborts(tail[k]);
        assert outs[k + 1] == tail[k];
      }
    }
  }

  /** A failed collection carries the error of the first outcome that aborts. */
  lemma {:induction false} CollectFails(outs: seq<Option<Result<Lesson, CsvError>>>)
    requires Collect(outs).Failure?
    ensures exists k :: 0 <= k < |outs| && outs[k] == Some(Failure(Collect(outs).error))
                        && forall j :: 0 <= j < k ==> !Aborts(outs[j])
  {
    var tail := outs[1..];
    if Aborts(outs[0]) {
      assert outs[0] == Some(Failure(Collect(outs).error));
    } else {
      assert Collect(tail) == Failure(Collect(outs).error);
      CollectFails(tail);
      var k :| 0 <= k < |tail| && tail[k] == Some(Failure(Collect(outs).error))
               && forall j :: 0 <= j < k ==> !Aborts(tail[j]);
      assert outs[k + 1] == tail[k];
      assert forall j :: 1 <= j < k + 1 ==> outs[j] == tail[j - 1];
    }
  }

  /** Removing an outcome that contributes nothing changes nothing. */
  lemma {:induction false} CollectSkipsNone(a: seq<Option<Result<Lesson, CsvError>>>, b: seq<Option<Result<Lesson, CsvError>>>)
    ensures Collect(a + [None] + b) == Collect(a + b)
  {
    if a == [] {
      assert a + [None] + b == [None] + b;
      assert ([None] + b)[1..] == b;
      assert a + b == b;
    } else {
      CollectSkipsNone(a[1..], b);
      assert (a + [None] + b)[1..] == a[1..] + [None] + b;
      assert (a + b)[1..] == a[1..] + b;
    }
  }

  /** When every outcome is a lesson, collecting yields exactly those lessons. */
  lemma {:induction false} CollectAllLessons(outs: seq<Option<Result<Lesson, CsvError>>>, lessons: seq<Lesson>)
    requires |outs| == |lessons|
    requires forall k :: 0 <= k < |outs| ==> outs[k] == Some(Success(lessons[k]))
    ensures Collect(outs) == Success(lessons)
  {
    if outs != [] {
      CollectAllLessons(outs[1..], lessons[1..]);
      assert lessons == [lessons[0]] + lessons[1..];
    }
  }

  lemma OutcomesAppend(a: seq<string>, b: seq<string>)
    ensures Outcomes(a + b) == Outcomes(a) + Outcomes(b)
  {
    assert forall k :: 0 <= k < |a| ==> (a + b)[k] == a[k];
    assert forall k :: |a| <= k < |a| + |b| ==> (a + b)[k] == b[k - |a|];
  }

  /**
   * The parse succeeds exactly when no data line aborts it (a record line
   * whose plate number is not an integer), and then the lessons are those
   * of the record lines, in order.
   */
  lemma ParseSucceeds(csvText: string)
    ensures var data := Lines(csvText)[1..];
      ParseCsv(csvText).Success? <==> forall k :: 0 <= k < |data| ==> !Aborts(LineOutcome(data[k]))
    ensures ParseCsv(csvText).Success? ==> ParseCsv(csvText).value == Kept(Outcomes(Lines(csvText)[1..]))
  {
    CollectSucceeds(Outcomes(Lines(csvText)[1..]));
  }

  /** A failed parse reports the plate field of the first data line that aborts. */
  lemma ParseFails(csvText: string)
    requires ParseCsv(csvText).Failure?
    ensures var data := Lines(csvText)[1..];
      exists k :: 0 <= k < |data| && LineOutcome(data[k]) == Some(Failure(ParseCsv(csvText).error))
                  && forall j :: 0 <= j < k ==> !Aborts(LineOutcome(data[j]))
  {
    CollectFails(Outcomes(Lines(csvText)[1..]));
  }

  /** A record line aborts exactly when its first field is not an integer, and the error carries that field. */
  lemma AbortingLine(line: string)
    ensures Aborts(LineOutcome(line)) <==>
              IsRecord(line) && ParseInt(Strip(Split(line, ',')[0])) == None
    ensures Aborts(LineOutcome(line)) ==>
              LineOutcome(line) == Some(Failure(NotAnInteger(Split(line, ',')[0])))
  {
  }

  /** A line before which nothing aborts and whose plate number is not an integer fails the whole parse, whatever follows. */
  lemma {:induction false} FirstBadLineFails(before: seq<Option<Result<Lesson, CsvError>>>, e: CsvError, after: seq<Option<Result<Lesson, CsvError>>>)
    requires forall k :: 0 <= k < |before| ==> !Aborts(before[k])
    ensures Collect(before + [Some(Failure(e))] + after) == Failure(e)
  {
    var s := before + [Some(Failure(e))] + after;
    if before == [] {
      assert s[0] == Some(Failure(e));
    } else {
      FirstBadLineFails(before[1..], e, after);
      assert s[1..] == before[1..] + [Some(Failure(e))] + after;
      assert !Aborts(before[0]);
    }
  }

  /** No date and no title contains a double quote. */
  lemma NoQuotesInLessons(csvText: string)
    ensures ParseCsv(csvText).Success? ==>
              forall l :: l in ParseCsv(csvText).value ==> '"' !in l.date && '"' !in l.title
  {
    var data := Lines(csvText)[1..];
    var outs := Outcomes(data);
    CollectSucceeds(outs);
    if Collect(outs).Success? {
      forall l | l in Kept(outs) ensures '"' !in l.date && '"' !in l.title {
        var k :| 0 <= k < |outs| && outs[k] == Some(Success(l));
        assert LineOutcome(data[k]) == Some(Success(l));
      }
    }
  }

  /** At most one lesson per line after the header. */
  lemma AtMostOneLessonPerLine(csvText: string)
    ensures ParseCsv(csvText).Success? ==> |ParseCsv(csvText).value| <= |Lines(csvText)| - 1
  {
    CollectSucceeds(Outcomes(Lines(csvText)[1..]));
  }

  /**
   * Text whose stripped form is one line at most (in particular empty or
   * white-space-only text) is all header and yields no lessons.
   */
  lemma HeaderOnlyYieldsNothing(csvText: string)
    requires '\n' !in Strip(csvText)
    ensures ParseCsv(csvText) == Success([])
  {
    SplitWithoutSeparator(Strip(csvText), '\n');
  }

  /** A data line that is not a record may be removed without changing the outcome. */
  lemma NonRecordIgnored(before: seq<string>, line: string, after: seq<string>)
    requires !IsRecord(line)
    ensures Collect(Outcomes(before + [line] + after)) == Collect(Outcomes(before + after))
  {
    OutcomesAppend(before + [line], after);
    OutcomesAppend(before, [line]);
    OutcomesAppend(before, after);
    assert Outcomes([line]) == [None];
    CollectSkipsNone(Outcomes(before), Outcomes(after));
  }

  /** Columns after the third never matter. */
  lemma ExtraFieldsIgnored(line: string, extra: string)
    requires IsRecord(line)
    ensures LineOutcome(line + [','] + extra) == LineOutcome(line)
  {
    SplitAppend(line, ',', extra);
    LongerRecord(line, extra);
  }

  lemma LongerRecord(line: string, extra: string)
    requires IsRecord(line)
    ensures IsRecord(line + [','] + extra)
  {
    SplitAppend(line, ',', extra);
    var longer := line + [','] + extra;
    assert !AllSpace(longer) by {
      assert !IsSpace(longer[|line|]);
    }
  }

  // ---------------------------------------------------------------------
  // Writing lessons back as CSV, and reading them again
  // ---------------------------------------------------------------------

  /** A date or title that survives `strip()` and quote removal and does not break a line or a column. */
  predicate IsPlainField(f: string) {
    IsTrimmed(f) && '"' !in f && ',' !in f && '\n' !in f
  }

  /** One CSV line for a lesson: plate number, date, title. */
  function FormatLine(l: Lesson): string {
    Join([ShowInt(l.plateNumber), l.date, l.title], ',')
  }

  function FormatLines(lessons: seq<Lesson>): (r: seq<string>)
    ensures |r| == |lessons|
    ensures forall k :: 0 <= k < |r| ==> r[k] == FormatLine(lessons[k])
  {
    if lessons == [] then [] else [FormatLine(lessons[0])] + FormatLines(lessons[1..])
  }

  /** A whole CSV text: the header line, then one line per lesson. */
  function FormatCsv(header: string, lessons: seq<Lesson>): string {
    Join([header] + FormatLines(lessons), '\n')
  }

  lemma ShowIntPlain(n: int)
    ensures ',' !in ShowInt(n) && '\n' !in ShowInt(n) && '"' !in ShowInt(n)
    ensures IsTrimmed(ShowInt(n)) && ShowInt(n) != []
  {
    var m: nat := if n < 0 then -n else n;
    var ds := ShowNat(m);
    assert forall i :: 0 <= i < |ds| ==> IsDigit(ds[i]);
    assert IsDigit(ds[0]) && IsDigit(ds[|ds| - 1]);
    if n < 0 {
      assert ShowInt(n) == ['-'] + ds;
    }
  }

  lemma {:induction false} JoinEnds(parts: seq<string>, sep: char)
    requires |parts| >= 1 && forall k :: 0 <= k < |parts| ==> parts[k] != []
    ensures var j := Join(parts, sep);
      j != [] && j[0] == parts[0][0] && j[|j| - 1] == parts[|parts| - 1][|parts[|parts| - 1]| - 1]
  {
    if |parts| > 1 {
      JoinEnds(parts[1..], sep);
    }
  }

  /** The fields of a formatted line are the plate number as printed, the date and the title. */
  lemma FormattedFields(l: Lesson)
    requires IsPlainField(l.date) && IsPlainField(l.title)
    ensures Split(FormatLine(l), ',') == [ShowInt(l.plateNumber), l.date, l.title]
    ensures FormatLine(l) == ShowInt(l.plateNumber) + [','] + l.date + [','] + l.title
  {
    ShowIntPlain(l.plateNumber);
    SplitJoin([ShowInt(l.plateNumber), l.date, l.title], ',');
    JoinThree(ShowInt(l.plateNumber), l.date, l.title, ',');
  }

  /** Those fields convert back to the lesson. */
  lemma FieldsRoundTrip(l: Lesson)
    requires IsPlainField(l.date) && IsPlainField(l.title)
    ensures LessonOfFields([ShowInt(l.plateNumber), l.date, l.title]) == Success(l)
  {
    ShowIntPlain(l.plateNumber);
    StripTrimmed(ShowInt(l.plateNumber));
    ParseShowInt(l.plateNumber);
    StripTrimmed(l.date);
    StripTrimmed(l.title);
  }

  /** A formatted lesson line is a record line on one line, with no white space at either end. */
  lemma FormattedLineShape(l: Lesson)
    requires IsPlainField(l.date) && IsPlainField(l.title)
    ensures IsRecord(FormatLine(l)) && '\n' !in FormatLine(l)
    ensures FormatLine(l) != [] && !IsSpace(FormatLine(l)[0]) && !IsSpace(FormatLine(l)[|FormatLine(l)| - 1])
  {
    var num := ShowInt(l.plateNumber);
    ShowIntPlain(l.plateNumber);
    FormattedFields(l);
    var line := FormatLine(l);
    assert line[0] == num[0];
    assert !AllSpace(line);
    assert !IsSpace(line[|line| - 1]) by {
      if l.title == [] {
        assert line[|line| - 1] == ',';
      } else {
        assert line[|line| - 1] == l.title[|l.title| - 1];
      }
    }
  }

  /** A formatted lesson line reads back as the same lesson. */
  lemma LineRoundTrip(l: Lesson)
    requires IsPlainField(l.date) && IsPlainField(l.title)
    ensures LineOutcome(FormatLine(l)) == Some(Success(l))
  {
    FormattedLineShape(l);
    FormattedFields(l);
    FieldsRoundTrip(l);
  }

  lemma LinesRoundTrip(lessons: seq<Lesson>)
    requires forall l :: l in lessons ==> IsPlainField(l.date) && IsPlainField(l.title)
    ensures Collect(Outcomes(FormatLines(lessons))) == Success(lessons)
  {
    var outs := Outcomes(FormatLines(lessons));
    forall k | 0 <= k < |outs| ensures outs[k] == Some(Success(lessons[k])) {
      assert lessons[k] in lessons;
      LineRoundTrip(lessons[k]);
    }
    CollectAllLessons(outs, lessons);
  }

  /** The data lines of a formatted table are the formatted lessons. */
  lemma FormattedDataLines(header: string, lessons: seq<Lesson>)
    requires header != [] && IsTrimmed(header) && '\n' !in header
    requires forall l :: l in lessons ==> IsPlainField(l.date) && IsPlainField(l.title)
    ensures Lines(FormatCsv(header, lessons))[1..] == FormatLines(lessons)
  {
    var lines := FormatLines(lessons);
    var parts := [header] + lines;
    var text := FormatCsv(header, lessons);
    forall k | 0 <= k < |lines| ensures '\n' !in lines[k] && lines[k] != [] && !IsSpace(lines[k][|lines[k]| - 1]) {
      assert lessons[k] in lessons;
      FormattedLineShape(lessons[k]);
    }
    assert forall k :: 0 <= k < |parts| ==> '\n' !in parts[k] && parts[k] != [] by {
      forall k | 0 <= k < |parts| ensures '\n' !in parts[k] && parts[k] != [] {
        if k > 0 { assert parts[k] == lines[k - 1]; }
      }
    }
    JoinEnds(parts, '\n');
    assert IsTrimmed(text) by {
      if lines != [] {
        assert parts[|parts| - 1] == lines[|lines| - 1];
      }
    }
    StripTrimmed(text);
    SplitJoin(parts, '\n');
  }

  /**
   * Reading back a formatted table gives the lessons that were written, for
   * any non-blank one-line header, whatever it says.
   */
  lemma CsvRoundTrip(header: string, lessons: seq<Lesson>)
    requires header != [] && IsTrimmed(header) && '\n' !in header
    requires forall l :: l in lessons ==> IsPlainField(l.date) && IsPlainField(l.title)
    ensures ParseCsv(FormatCsv(header, lessons)) == Success(lessons)
  {
    FormattedDataLines(header, lessons);
    LinesRoundTrip(lessons);
  }
}
