/** Importing questions into the queue: checking the rows of a file, warning about
    duplicates, and confirming a selection. */
module QueueImport {
  import opened Wrappers
  import Matrix
  import MatrixPublication

  // ---- rows ----

  /** A cell of the file: absent, text, or some other value. */
  datatype Cell = Missing | Text(text: string) | Other

  /** The cells of one line of the file. */
  datatype Line = Line(question: Cell, sheet: Cell, grade: Cell)

  datatype ParsedRow = ParsedRow(number: int, question: Cell, sheet: Cell, grade: Cell)

  datatype Params = Params(question: string, sheet: Option<string>, grade: Option<string>)

  datatype Issue =
    | QuestionNotText | QuestionBlank | QuestionTooLong | SheetNotText | GradeNotText | GradeInvalid
    | DuplicateInFile(firstRow: int) | DuplicateInQueue

  datatype PreviewRow = PreviewRow(number: int, params: Option<Params>, issues: seq<Issue>)

  const GRADES := {"Junior", "Junior+", "Middle", "Middle+", "Senior"}

  /** str.replace with a one-character replacement, for a non-empty pattern. */
  function Replace(s: string, pattern: string, c: char): string
    requires pattern != ""
    decreases |s|
  {
    if s == "" then ""
    else if pattern <= s then [c] + Replace(s[|pattern|..], pattern, c)
    else [s[0]] + Replace(s[1..], pattern, c)
  }

  function Normalized(s: string): string {
    Matrix.Strip(Replace(Replace(Replace(s, "\r\n", ' '), "\n", ' '), "\r", ' '))
  }

  lemma {:induction false} ReplaceChars(s: string, pattern: string, c: char, x: char)
    requires pattern != "" && x in Replace(s, pattern, c)
    ensures x == c || x in s
    decreases |s|
  {
    if pattern <= s {
      if x != c { ReplaceChars(s[|pattern|..], pattern, c, x); }
    } else if x != s[0] {
      ReplaceChars(s[1..], pattern, c, x);
    }
  }

  lemma {:induction false} ReplaceRemoves(s: string, p: char, c: char)
    requires p != c
    ensures p !in Replace(s, [p], c)
    decreases |s|
  {
    if s != "" { ReplaceRemoves(s[1..], p, c); }
  }

  lemma {:induction false} StripChars(s: string, x: char)
    requires x in Matrix.Strip(s)
    ensures x in s
    decreases |s|
  {
    if s != "" && Matrix.IsSpace(s[0]) { StripChars(s[1..], x); }
    else if s != "" && Matrix.IsSpace(s[|s| - 1]) { StripChars(s[..|s| - 1], x); }
  }

  /** Imported text is on one line, however the file wrote its line ends. */
  lemma NormalizedOneLine(s: string)
    ensures '\n' !in Normalized(s) && '\r' !in Normalized(s)
  {
    var a := Replace(s, "\r\n", ' ');
    var b := Replace(a, "\n", ' ');
    var c := Replace(b, "\r", ' ');
    ReplaceRemoves(a, '\n', ' ');
    ReplaceRemoves(b, '\r', ' ');
    if '\n' in Matrix.Strip(c) {
      StripChars(c, '\n');
      ReplaceChars(b, "\r", ' ', '\n');
    }
    if '\r' in Matrix.Strip(c) { StripChars(c, '\r'); }
  }

  /** One pass over the text: every line break, of one or two characters, becomes one blank. */
  function OneLine(s: string): string
    decreases |s|
  {
    if s == "" then ""
    else if s[0] == '\r' && |s| > 1 && s[1] == '\n' then " " + OneLine(s[2..])
    else if s[0] == '\r' || s[0] == '\n' then " " + OneLine(s[1..])
    else [s[0]] + OneLine(s[1..])
  }

  /** The three replacements are that one pass. */
  lemma {:induction false} ReplacedIsOneLine(s: string)
    ensures Replace(Replace(Replace(s, "\r\n", ' '), "\n", ' '), "\r", ' ') == OneLine(s)
    decreases |s|
  {
    if s != "" {
      if "\r\n" <= s {
        ReplacedIsOneLine(s[2..]);
      } else {
        ReplacedIsOneLine(s[1..]);
      }
    }
  }

  /** A cell is imported with each line break turned into one blank and without the blanks at
      its ends. */
  lemma NormalizedIs(s: string) returns (left: nat, right: nat)
    ensures left <= right <= |OneLine(s)| && Normalized(s) == OneLine(s)[left..right]
    ensures forall i :: 0 <= i < left || right <= i < |OneLine(s)| ==> Matrix.IsSpace(OneLine(s)[i])
    ensures left < right ==> !Matrix.IsSpace(OneLine(s)[left]) && !Matrix.IsSpace(OneLine(s)[right - 1])
  {
    hide Matrix.IsSpace;
    ReplacedIsOneLine(s);
    left, right := MatrixPublication.StripTrims(OneLine(s));
  }

  function OptionalText(cell: Cell): Option<string> {
    if cell.Text? && Normalized(cell.text) != "" then Some(Normalized(cell.text)) else None
  }

  /** What is wrong with a row, whatever the other rows say. */
  predicate Wrong(row: ParsedRow, maxLength: nat, issue: Issue) {
    match issue
    case QuestionNotText => !row.question.Text?
    case QuestionBlank => row.question.Text? && Normalized(row.question.text) == ""
    case QuestionTooLong => row.question.Text? && |Normalized(row.question.text)| > maxLength
    case SheetNotText => row.sheet.Other?
    case GradeNotText => row.grade.Other?
    case GradeInvalid => OptionalText(row.grade).Some? && OptionalText(row.grade).value !in GRADES
    case DuplicateInFile(_) => false
    case DuplicateInQueue => false
  }

  /** A row that can be imported, with the normalised contents of its cells. */
  ghost predicate IsPreviewOf(p: PreviewRow, row: ParsedRow, maxLength: nat) {
    && p.number == row.number
    && (forall issue :: issue in p.issues <==> Wrong(row, maxLength, issue))
    && var question := if row.question.Text? then Normalized(row.question.text) else "";
       p.params == if (exists issue :: Wrong(row, maxLength, issue)) then None
                   else Some(Params(question, OptionalText(row.sheet), OptionalText(row.grade)))
  }

  /** Blank cells are those without a character that is not whitespace. */
  lemma {:induction false} OneLineText(s: string)
    ensures MatrixPublication.HasText(OneLine(s)) <==> MatrixPublication.HasText(s)
    decreases |s|
  {
    if s != "" {
      var n := if s[0] == '\r' && |s| > 1 && s[1] == '\n' then 2 else 1;
      OneLineText(s[n..]);
      TextParts(s[..n], s[n..]);
      TextParts(OneLine(s)[..1], OneLine(s)[1..]);
      assert s == s[..n] + s[n..] && OneLine(s) == OneLine(s)[..1] + OneLine(s)[1..];
      assert OneLine(s)[1..] == OneLine(s[n..]);
      if n == 2 || s[0] == '\r' || s[0] == '\n' {
        assert OneLine(s)[..1] == " ";
        assert forall c :: c in s[..n] ==> c == '\r' || c == '\n';
      } else {
        assert OneLine(s)[..1] == s[..1];
      }
    }
  }

  lemma TextParts(a: string, b: string)
    ensures MatrixPublication.HasText(a + b) <==> MatrixPublication.HasText(a) || MatrixPublication.HasText(b)
  {
    hide Matrix.IsSpace;
    forall i | 0 <= i < |a| ensures (a + b)[i] == a[i] {}
    forall i | 0 <= i < |b| ensures (a + b)[|a| + i] == b[i] {}
  }

  lemma BlankCell(s: string)
    ensures Normalized(s) == "" <==> !MatrixPublication.HasText(s)
  {
    ReplacedIsOneLine(s);
    MatrixPublication.BlankIsStripped(OneLine(s));
    OneLineText(s);
  }

  method PreviewOne(row: ParsedRow, maxLength: nat) returns (p: PreviewRow)
    ensures IsPreviewOf(p, row, maxLength)
  {
    var issues: seq<Issue> := [];
    var question := "";
    if !row.question.Text? {
      issues := issues + [QuestionNotText];
    } else {
      question := Normalized(row.question.text);
      if question == "" {
        issues := issues + [QuestionBlank];
      } else if |question| > maxLength {
        issues := issues + [QuestionTooLong];
      }
    }
    if row.sheet.Other? {
      issues := issues + [SheetNotText];
    }
    if row.grade.Other? {
      issues := issues + [GradeNotText];
    } else if row.grade.Text? && Normalized(row.grade.text) != "" && Normalized(row.grade.text) !in GRADES {
      issues := issues + [GradeInvalid];
    }
    assert forall issue :: issue in issues <==> Wrong(row, maxLength, issue);
    var params := None;
    if issues == [] {
      params := Some(Params(question, OptionalText(row.sheet), OptionalText(row.grade)));
    } else {
      assert Wrong(row, maxLength, issues[0]);
    }
    p := PreviewRow(row.number, params, issues);
  }

  predicate TextWithin(cell: Cell, texts: set<string>) {
    cell.Text? && Normalized(cell.text) in texts
  }

  predicate BlankText(cell: Cell) {
    cell.Text? && !MatrixPublication.HasText(cell.text)
  }

  /** What a preview reports and imports, said over the cells: the question must be text, not blank
      and short enough, the sheet no other value, the grade absent, blank or one of the five. */
  lemma PreviewExactly(p: PreviewRow, row: ParsedRow, maxLength: nat)
    requires IsPreviewOf(p, row, maxLength)
    ensures QuestionNotText in p.issues <==> !row.question.Text?
    ensures QuestionBlank in p.issues <==> BlankText(row.question)
    ensures QuestionTooLong in p.issues <==> row.question.Text? && |Normalized(row.question.text)| > maxLength
    ensures SheetNotText in p.issues <==> row.sheet.Other?
    ensures GradeNotText in p.issues <==> row.grade.Other?
    ensures GradeInvalid in p.issues
       <==> (&& row.grade.Text? && !BlankText(row.grade)
             && !TextWithin(row.grade, {"Junior", "Junior+", "Middle", "Middle+", "Senior"}))
    ensures p.params.Some?
       <==> (&& row.question.Text? && !BlankText(row.question) && |Normalized(row.question.text)| <= maxLength
             && !row.sheet.Other? && !row.grade.Other?
             && (row.grade.Text? && !BlankText(row.grade) ==>
                   TextWithin(row.grade, {"Junior", "Junior+", "Middle", "Middle+", "Senior"})))
    ensures p.params.Some? ==>
      && p.params.value.question == Normalized(row.question.text)
      && p.params.value.sheet == OptionalText(row.sheet) && p.params.value.grade == OptionalText(row.grade)
    ensures OptionalText(row.sheet)
         == if row.sheet.Text? && !BlankText(row.sheet) then Some(Normalized(row.sheet.text)) else None
  {
    hide Normalized;
    hide MatrixPublication.HasText;
    if row.question.Text? { BlankCell(row.question.text); }
    if row.sheet.Text? { BlankCell(row.sheet.text); }
    if row.grade.Text? { BlankCell(row.grade.text); }
    if p.params.None? {
      var issue :| Wrong(row, maxLength, issue);
      assert issue in p.issues;
    }
  }

  /** A row comes out of the parser with its parameters or with issues, never with both. */
  predicate Clean(rows: seq<PreviewRow>) {
    forall i :: 0 <= i < |rows| ==> (rows[i].params.Some? <==> rows[i].issues == [])
  }

  predicate NumbersDistinct(rows: seq<PreviewRow>) {
    forall i, j :: 0 <= i < j < |rows| ==> rows[i].number != rows[j].number
  }

  /** `enumerate(lines, start)`: text files start at 1, CSV files at 2 after their header, and
      spreadsheets at 1 or, with a header, at 2. */
  function Numbered(lines: seq<Line>, start: int): seq<ParsedRow> {
    seq(|lines|, i requires 0 <= i < |lines| => ParsedRow(start + i, lines[i].question, lines[i].sheet, lines[i].grade))
  }

  /** The preview of a file: one checked row for each line, numbered in file order. */
  method Preview(lines: seq<Line>, start: int, maxLength: nat) returns (preview: seq<PreviewRow>)
    ensures |preview| == |lines|
    ensures forall i ::
      0 <= i < |lines| ==> IsPreviewOf(preview[i], Numbered(lines, start)[i], maxLength)
    ensures Clean(preview) && NumbersDistinct(preview)
  {
    hide IsPreviewOf;
    var rows := Numbered(lines, start);
    preview := [];
    for k := 0 to |rows|
      invariant |preview| == k
      invariant forall i :: 0 <= i < k ==> preview[i].number == start + i && IsPreviewOf(preview[i], rows[i], maxLength)
    {
      var p := PreviewOne(rows[k], maxLength);
      CleanRow(p, rows[k], maxLength);
      preview := preview + [p];
    }
    forall i | 0 <= i < |rows| ensures preview[i].params.Some? <==> preview[i].issues == [] {
      CleanRow(preview[i], rows[i], maxLength);
    }
  }

  lemma CleanRow(p: PreviewRow, row: ParsedRow, maxLength: nat)
    requires IsPreviewOf(p, row, maxLength)
    ensures p.number == row.number && (p.params.Some? <==> p.issues == [])
  {
    if p.issues != [] { assert p.issues[0] in p.issues; }
  }

  // ---- duplicates ----

  datatype Key = Key(sheet: Option<string>, fingerprint: string)

  datatype QueuedQuestion = QueuedQuestion(question: string, sheet: Option<string>)

  function ParamsKey(p: Params, fingerprint: string -> string): Key {
    Key(p.sheet, fingerprint(p.question))
  }

  function QueueKeys(queue: seq<QueuedQuestion>, fingerprint: string -> string): set<Key> {
    set q | q in queue :: Key(q.sheet, fingerprint(q.question))
  }

  predicate HasKey(row: PreviewRow, key: Key, fingerprint: string -> string) {
    row.params.Some? && ParamsKey(row.params.value, fingerprint) == key
  }

  /** Row `i` is the first row of the file with its key. */
  predicate First(rows: seq<PreviewRow>, i: int, fingerprint: string -> string)
    requires 0 <= i < |rows| && rows[i].params.Some?
  {
    forall j :: 0 <= j < i ==> !HasKey(rows[j], ParamsKey(rows[i].params.value, fingerprint), fingerprint)
  }

  /** `row` is row `i` with its duplicate warnings: one that names the first row with the same
      key if that row came earlier, one if the queue has the key. */
  ghost predicate IsWarned(rows: seq<PreviewRow>, i: int, row: PreviewRow, queued: set<Key>,
                           fingerprint: string -> string)
    requires 0 <= i < |rows|
  {
    if rows[i].params.None? then row == rows[i]
    else
      var key := ParamsKey(rows[i].params.value, fingerprint);
      exists inFile: seq<Issue> ::
        && row == rows[i].(issues := rows[i].issues + inFile + if key in queued then [DuplicateInQueue] else [])
        && if First(rows, i, fingerprint) then inFile == []
           else exists j :: 0 <= j < i && HasKey(rows[j], key, fingerprint) && First(rows, j, fingerprint)
                            && inFile == [DuplicateInFile(rows[j].number)]
  }

  /** What the dictionary of first rows holds after `n` rows. */
  ghost predicate FirstRows(rows: seq<PreviewRow>, n: int, firsts: map<Key, int>, fingerprint: string -> string)
    requires 0 <= n <= |rows|
  {
    && (forall j :: 0 <= j < n && rows[j].params.Some? ==> ParamsKey(rows[j].params.value, fingerprint) in firsts)
    && (forall key :: key in firsts ==>
          exists j ::
            0 <= j < n && HasKey(rows[j], key, fingerprint) && First(rows, j, fingerprint)
              && firsts[key] == rows[j].number)
  }

  method WithDuplicateWarnings(rows: seq<PreviewRow>, queue: seq<QueuedQuestion>, fingerprint: string -> string)
    returns (out: seq<PreviewRow>)
    ensures |out| == |rows|
    ensures forall i :: 0 <= i < |rows| ==> IsWarned(rows, i, out[i], QueueKeys(queue, fingerprint), fingerprint)
  {
    hide IsWarned;
    hide FirstRows;
    hide First;
    var queued := QueueKeys(queue, fingerprint);
    var firsts: map<Key, int> := map[];
    out := [];
    NoKeys(rows, fingerprint);
    for k := 0 to |rows|
      invariant |out| == k && FirstRows(rows, k, firsts, fingerprint)
      invariant forall i :: 0 <= i < k ==> IsWarned(rows, i, out[i], queued, fingerprint)
    {
      var row := rows[k];
      if row.params.None? {
        SkipRow(rows, k, firsts, queued, fingerprint);
      } else {
        var key := ParamsKey(row.params.value, fingerprint);
        ghost var inFile: seq<Issue> := [];
        if key !in firsts {
          NewKey(rows, k, firsts, fingerprint);
          firsts := firsts[key := row.number];
        } else {
          OldKey(rows, k, firsts, fingerprint);
          inFile := [DuplicateInFile(firsts[key])];
          row := row.(issues := row.issues + [DuplicateInFile(firsts[key])]);
        }
        if key in queued {
          row := row.(issues := row.issues + [DuplicateInQueue]);
        }
        assert row.issues == rows[k].issues + inFile + if key in queued then [DuplicateInQueue] else [];
        WarnRow(rows, k, row, inFile, queued, fingerprint);
      }
      out := out + [row];
    }
  }

  lemma NoKeys(rows: seq<PreviewRow>, fingerprint: string -> string)
    ensures FirstRows(rows, 0, map[], fingerprint)
  {
  }

  lemma SkipRow(rows: seq<PreviewRow>, k: int, firsts: map<Key, int>, queued: set<Key>, fingerprint: string -> string)
    requires 0 <= k < |rows| && FirstRows(rows, k, firsts, fingerprint) && rows[k].params.None?
    ensures FirstRows(rows, k + 1, firsts, fingerprint) && IsWarned(rows, k, rows[k], queued, fingerprint)
  {
    forall x | x in firsts
      ensures exists j ::
        0 <= j < k + 1 && HasKey(rows[j], x, fingerprint) && First(rows, j, fingerprint) && firsts[x] == rows[j].number
    {
      var j :| 0 <= j < k && HasKey(rows[j], x, fingerprint) && First(rows, j, fingerprint)
        && firsts[x] == rows[j].number;
    }
  }

  lemma WarnRow(rows: seq<PreviewRow>, k: int, row: PreviewRow, inFile: seq<Issue>, queued: set<Key>,
                fingerprint: string -> string)
    requires 0 <= k < |rows| && rows[k].params.Some?
    requires row == rows[k].(issues := rows[k].issues + inFile
                                       + if ParamsKey(rows[k].params.value, fingerprint) in queued
                                         then [DuplicateInQueue] else [])
    requires if First(rows, k, fingerprint) then inFile == []
             else exists j :: 0 <= j < k && HasKey(rows[j], ParamsKey(rows[k].params.value, fingerprint), fingerprint)
                              && First(rows, j, fingerprint) && inFile == [DuplicateInFile(rows[j].number)]
    ensures IsWarned(rows, k, row, queued, fingerprint)
  {
  }

  lemma NewKey(rows: seq<PreviewRow>, k: int, firsts: map<Key, int>, fingerprint: string -> string)
    requires 0 <= k < |rows| && FirstRows(rows, k, firsts, fingerprint) && rows[k].params.Some?
    requires ParamsKey(rows[k].params.value, fingerprint) !in firsts
    ensures First(rows, k, fingerprint)
    ensures FirstRows(rows, k + 1, firsts[ParamsKey(rows[k].params.value, fingerprint) := rows[k].number], fingerprint)
  {
    var key := ParamsKey(rows[k].params.value, fingerprint);
    var firsts' := firsts[key := rows[k].number];
    forall x | x in firsts'
      ensures exists j ::
        0 <= j < k + 1 && HasKey(rows[j], x, fingerprint) && First(rows, j, fingerprint) && firsts'[x] == rows[j].number
    {
      if x == key {
        assert HasKey(rows[k], x, fingerprint) && First(rows, k, fingerprint) && firsts'[x] == rows[k].number;
      } else {
        var j :| 0 <= j < k && HasKey(rows[j], x, fingerprint) && First(rows, j, fingerprint)
          && firsts[x] == rows[j].number;
      }
    }
  }

  lemma OldKey(rows: seq<PreviewRow>, k: int, firsts: map<Key, int>, fingerprint: string -> string)
    requires 0 <= k < |rows| && FirstRows(rows, k, firsts, fingerprint) && rows[k].params.Some?
    requires ParamsKey(rows[k].params.value, fingerprint) in firsts
    ensures !First(rows, k, fingerprint) && FirstRows(rows, k + 1, firsts, fingerprint)
    ensures
      var key := ParamsKey(rows[k].params.value, fingerprint);
      exists j ::
        0 <= j < k && HasKey(rows[j], key, fingerprint) && First(rows, j, fingerprint) && firsts[key] == rows[j].number
  {
    forall x | x in firsts
      ensures exists j ::
        0 <= j < k + 1 && HasKey(rows[j], x, fingerprint) && First(rows, j, fingerprint) && firsts[x] == rows[j].number
    {
      var j :| 0 <= j < k && HasKey(rows[j], x, fingerprint) && First(rows, j, fingerprint)
        && firsts[x] == rows[j].number;
    }
  }

  // ---- the default selection ----

  predicate SelectedByDefault(row: PreviewRow) {
    row.params.Some? && row.issues == []
  }

  /** A previewed row is selected by default exactly when it can be imported, is the first
      row with its key, and the queue does not have the key. */
  lemma SelectedExactly(rows: seq<PreviewRow>, i: int, row: PreviewRow, queued: set<Key>, fingerprint: string -> string)
    requires Clean(rows) && 0 <= i < |rows| && IsWarned(rows, i, row, queued, fingerprint)
    ensures SelectedByDefault(row)
       <==> (&& rows[i].params.Some? && First(rows, i, fingerprint)
             && ParamsKey(rows[i].params.value, fingerprint) !in queued)
  {
  }

  /** The preview of `rows` against a queue with the keys `queued`. */
  ghost predicate IsPreview(rows: seq<PreviewRow>, out: seq<PreviewRow>, queued: set<Key>,
                            fingerprint: string -> string) {
    |out| == |rows| && forall i :: 0 <= i < |rows| ==> IsWarned(rows, i, out[i], queued, fingerprint)
  }

  /** The same question for the same sheet. */
  predicate Alike(p: Params, question: string, sheet: Option<string>, fingerprint: string -> string) {
    p.sheet == sheet && fingerprint(p.question) == fingerprint(question)
  }

  lemma QueuedAlike(queue: seq<QueuedQuestion>, p: Params, fingerprint: string -> string)
    ensures ParamsKey(p, fingerprint) in QueueKeys(queue, fingerprint)
       <==> exists q :: q in queue && Alike(p, q.question, q.sheet, fingerprint)
  {
  }

  /** The default selection is sound: no two of its questions are alike, and none is like one in
      the queue. */
  lemma DefaultSelectionSound(rows: seq<PreviewRow>, out: seq<PreviewRow>, queue: seq<QueuedQuestion>,
                              fingerprint: string -> string, i: int, j: int)
    requires Clean(rows) && IsPreview(rows, out, QueueKeys(queue, fingerprint), fingerprint)
    requires 0 <= i < j < |out| && SelectedByDefault(out[i]) && SelectedByDefault(out[j])
    ensures !Alike(out[i].params.value, out[j].params.value.question, out[j].params.value.sheet, fingerprint)
    ensures forall q :: q in queue ==> !Alike(out[i].params.value, q.question, q.sheet, fingerprint)
    ensures forall q :: q in queue ==> !Alike(out[j].params.value, q.question, q.sheet, fingerprint)
  {
    var queued := QueueKeys(queue, fingerprint);
    QueuedAlike(queue, out[i].params.value, fingerprint);
    QueuedAlike(queue, out[j].params.value, fingerprint);
    SelectedExactly(rows, i, out[i], queued, fingerprint);
    SelectedExactly(rows, j, out[j], queued, fingerprint);
    assert !HasKey(rows[i], ParamsKey(rows[j].params.value, fingerprint), fingerprint);
  }

  lemma {:induction false} FirstOfKey(rows: seq<PreviewRow>, i: int, fingerprint: string -> string) returns (first: int)
    requires 0 <= i < |rows| && rows[i].params.Some?
    ensures 0 <= first <= i && rows[first].params.Some? && First(rows, first, fingerprint)
    ensures ParamsKey(rows[first].params.value, fingerprint) == ParamsKey(rows[i].params.value, fingerprint)
    decreases i
  {
    if First(rows, i, fingerprint) {
      first := i;
    } else {
      var j :| 0 <= j < i && HasKey(rows[j], ParamsKey(rows[i].params.value, fingerprint), fingerprint);
      first := FirstOfKey(rows, j, fingerprint);
    }
  }

  /** It is also complete: every row that can be imported is like a question in the queue or is
      represented in the selection by the first row like it. */
  lemma DefaultSelectionComplete(rows: seq<PreviewRow>, out: seq<PreviewRow>, queue: seq<QueuedQuestion>,
                                 fingerprint: string -> string, i: int)
    returns (j: int)
    requires Clean(rows) && IsPreview(rows, out, QueueKeys(queue, fingerprint), fingerprint)
    requires 0 <= i < |rows| && rows[i].params.Some?
    requires forall q :: q in queue ==> !Alike(rows[i].params.value, q.question, q.sheet, fingerprint)
    ensures 0 <= j <= i && SelectedByDefault(out[j])
    ensures Alike(out[j].params.value, rows[i].params.value.question, rows[i].params.value.sheet, fingerprint)
  {
    var queued := QueueKeys(queue, fingerprint);
    QueuedAlike(queue, rows[i].params.value, fingerprint);
    j := FirstOfKey(rows, i, fingerprint);
    SelectedExactly(rows, j, out[j], queued, fingerprint);
  }

  // ---- confirming a selection ----

  /** Why a selection is refused. */
  datatype Refusal = NothingSelected | RepeatedNumbers | NoSuchRow(number: int) | InvalidRow(number: int)

  datatype Confirmation = Imported(questions: seq<Params>) | Refused(refusals: seq<Refusal>)

  function RowsByNumber(rows: seq<PreviewRow>): map<int, PreviewRow> {
    if rows == [] then map[]
    else RowsByNumber(rows[..|rows| - 1])[rows[|rows| - 1].number := rows[|rows| - 1]]
  }

  predicate Repeats(numbers: seq<int>) {
    exists i, j :: 0 <= i < j < |numbers| && numbers[i] == numbers[j]
  }

  predicate Objection(rows: seq<PreviewRow>, numbers: seq<int>, refusal: Refusal) {
    match refusal
    case NothingSelected => numbers == []
    case RepeatedNumbers => Repeats(numbers)
    case NoSuchRow(n) => n in numbers && n !in RowsByNumber(rows)
    case InvalidRow(n) => n in numbers && n in RowsByNumber(rows) && RowsByNumber(rows)[n].params.None?
  }

  /** The parameters of the importable rows whose number is chosen, in file order. */
  function Chosen(rows: seq<PreviewRow>, numbers: set<int>): seq<Params> {
    if rows == [] then []
    else
      var last := rows[|rows| - 1];
      Chosen(rows[..|rows| - 1], numbers)
      + if last.number in numbers && last.params.Some? then [last.params.value] else []
  }

  /** Some numbers, none twice, each of a row that can be imported. */
  predicate Importable(rows: seq<PreviewRow>, numbers: seq<int>) {
    && numbers != [] && (forall i, j :: 0 <= i < j < |numbers| ==> numbers[i] != numbers[j])
    && forall n :: n in numbers ==> exists i :: 0 <= i < |rows| && rows[i].number == n && rows[i].params.Some?
  }

  lemma {:induction false} RowOfNumber(rows: seq<PreviewRow>, n: int)
    requires n in RowsByNumber(rows)
    ensures exists i :: 0 <= i < |rows| && rows[i].number == n && rows[i] == RowsByNumber(rows)[n]
  {
    var last := |rows| - 1;
    if rows[last].number != n {
      RowOfNumber(rows[..last], n);
      var i :| 0 <= i < last && rows[..last][i].number == n && rows[..last][i] == RowsByNumber(rows[..last])[n];
      assert rows[i].number == n && rows[i] == RowsByNumber(rows)[n];
    }
  }

  lemma UnobjectionableIsImportable(rows: seq<PreviewRow>, numbers: seq<int>)
    requires NumbersDistinct(rows)
    ensures Importable(rows, numbers) <==> forall refusal :: !Objection(rows, numbers, refusal)
  {
    if Importable(rows, numbers) {
      forall n | n in numbers ensures n in RowsByNumber(rows) && RowsByNumber(rows)[n].params.Some? {
        var i :| 0 <= i < |rows| && rows[i].number == n && rows[i].params.Some?;
        LookupRow(rows, i);
      }
    }
    if forall refusal :: !Objection(rows, numbers, refusal) {
      assert !Objection(rows, numbers, NothingSelected) && !Objection(rows, numbers, RepeatedNumbers);
      forall n | n in numbers ensures exists i :: 0 <= i < |rows| && rows[i].number == n && rows[i].params.Some? {
        assert !Objection(rows, numbers, NoSuchRow(n)) && !Objection(rows, numbers, InvalidRow(n));
        RowOfNumber(rows, n);
      }
    }
  }

  method SelectedQuestions(rows: seq<PreviewRow>, numbers: seq<int>) returns (r: Confirmation)
    ensures r.Refused? <==> exists refusal :: Objection(rows, numbers, refusal)
    ensures r.Refused? ==> forall refusal :: refusal in r.refusals <==> Objection(rows, numbers, refusal)
    ensures r.Imported? ==> r.questions == Chosen(rows, set n | n in numbers)
    ensures NumbersDistinct(rows) ==> (r.Imported? <==> Importable(rows, numbers))
  {
    if NumbersDistinct(rows) { UnobjectionableIsImportable(rows, numbers); }
    var refusals: seq<Refusal> := [];
    if numbers == [] { refusals := refusals + [NothingSelected]; }
    if exists i, j :: 0 <= i < j < |numbers| && numbers[i] == numbers[j] { refusals := refusals + [RepeatedNumbers]; }
    var byNumber := RowsByNumber(rows);
    var seen: set<int> := {};
    for k := 0 to |numbers|
      invariant seen == set n | n in numbers[..k]
      invariant forall refusal :: refusal in refusals <==>
        match refusal
        case NothingSelected => numbers == []
        case RepeatedNumbers => Repeats(numbers)
        case NoSuchRow(n) => n in seen && n !in byNumber
        case InvalidRow(n) => n in seen && n in byNumber && byNumber[n].params.None?
    {
      var n := numbers[k];
      assert numbers[..k + 1] == numbers[..k] + [n];
      if n !in seen {
        if n !in byNumber {
          refusals := refusals + [NoSuchRow(n)];
        } else if byNumber[n].params.None? {
          refusals := refusals + [InvalidRow(n)];
        }
        seen := seen + {n};
      }
    }
    assert numbers[..|numbers|] == numbers;
    assert forall refusal :: refusal in refusals <==> Objection(rows, numbers, refusal);
    if refusals != [] {
      assert refusals[0] in refusals;
      return Refused(refusals);
    }
    var questions: seq<Params> := [];
    for k := 0 to |rows|
      invariant questions == Chosen(rows[..k], seen)
    {
      assert rows[..k + 1][..k] == rows[..k];
      if rows[k].number in seen && rows[k].params.Some? {
        questions := questions + [rows[k].params.value];
      }
    }
    assert rows[..|rows|] == rows;
    r := Imported(questions);
  }

  // ---- confirming the default selection, and previewing again ----

  function DefaultNumbers(out: seq<PreviewRow>): set<int> {
    set i | 0 <= i < |out| && SelectedByDefault(out[i]) :: out[i].number
  }

  /** `numbers` lists the default selection, in any order. */
  predicate ListsDefault(out: seq<PreviewRow>, numbers: seq<int>) {
    (set n | n in numbers) == DefaultNumbers(out) && !Repeats(numbers)
  }

  lemma {:induction false} LookupRow(rows: seq<PreviewRow>, i: int)
    requires NumbersDistinct(rows) && 0 <= i < |rows|
    ensures rows[i].number in RowsByNumber(rows) && RowsByNumber(rows)[rows[i].number] == rows[i]
    decreases |rows|
  {
    var n := |rows| - 1;
    if i < n {
      assert rows[..n][i] == rows[i];
      LookupRow(rows[..n], i);
    }
  }

  /** Confirming a non-empty default selection is never refused. */
  lemma DefaultAccepted(rows: seq<PreviewRow>, out: seq<PreviewRow>, queued: set<Key>, fingerprint: string -> string,
                        numbers: seq<int>, refusal: Refusal)
    requires Clean(rows) && NumbersDistinct(rows) && IsPreview(rows, out, queued, fingerprint)
    requires ListsDefault(out, numbers) && numbers != []
    ensures !Objection(rows, numbers, refusal)
  {
    if refusal.NoSuchRow? || refusal.InvalidRow? {
      if refusal.number in numbers {
        assert refusal.number in DefaultNumbers(out);
        var i :| 0 <= i < |out| && SelectedByDefault(out[i]) && out[i].number == refusal.number;
        SelectedExactly(rows, i, out[i], queued, fingerprint);
        LookupRow(rows, i);
      }
    }
  }

  /** The default rows up to `n`, in file order. */
  function DefaultQuestions(out: seq<PreviewRow>): seq<Params> {
    if out == [] then []
    else
      var last := out[|out| - 1];
      DefaultQuestions(out[..|out| - 1]) + if SelectedByDefault(last) then [last.params.value] else []
  }

  /** The confirmation imports exactly the questions selected by default, in file order. */
  lemma {:induction false} DefaultImported(rows: seq<PreviewRow>, out: seq<PreviewRow>, all: set<int>)
    requires |rows| == |out|
    requires forall i ::
      0 <= i < |rows| ==> out[i].params == rows[i].params && (rows[i].number in all <==> SelectedByDefault(out[i]))
    ensures Chosen(rows, all) == DefaultQuestions(out)
    decreases |rows|
  {
    if rows != [] {
      var n := |rows| - 1;
      DefaultImported(rows[..n], out[..n], all);
    }
  }

  lemma ConfirmDefault(rows: seq<PreviewRow>, out: seq<PreviewRow>, queued: set<Key>, fingerprint: string -> string,
                       numbers: seq<int>)
    requires Clean(rows) && NumbersDistinct(rows) && IsPreview(rows, out, queued, fingerprint)
    requires ListsDefault(out, numbers)
    ensures Chosen(rows, set n | n in numbers) == DefaultQuestions(out)
  {
    forall i | 0 <= i < |rows|
      ensures out[i].params == rows[i].params && (rows[i].number in DefaultNumbers(out) <==> SelectedByDefault(out[i]))
    {
      SameNumber(rows, out, queued, fingerprint, i);
    }
    DefaultImported(rows, out, DefaultNumbers(out));
  }

  lemma SameNumber(rows: seq<PreviewRow>, out: seq<PreviewRow>, queued: set<Key>, fingerprint: string -> string, i: int)
    requires Clean(rows) && NumbersDistinct(rows) && IsPreview(rows, out, queued, fingerprint) && 0 <= i < |rows|
    ensures out[i].params == rows[i].params && (rows[i].number in DefaultNumbers(out) <==> SelectedByDefault(out[i]))
  {
    assert forall j :: 0 <= j < |rows| ==> out[j].number == rows[j].number && out[j].params == rows[j].params by {
      forall j | 0 <= j < |rows| ensures out[j].number == rows[j].number && out[j].params == rows[j].params {
        assert IsWarned(rows, j, out[j], queued, fingerprint);
      }
    }
    if rows[i].number in DefaultNumbers(out) {
      var j :| 0 <= j < |out| && SelectedByDefault(out[j]) && out[j].number == rows[i].number;
      assert i == j;
    }
  }

  /** The queue after an import: the rows keep their question and sheet. */
  function Enqueued(queue: seq<QueuedQuestion>, questions: seq<Params>): seq<QueuedQuestion> {
    if questions == [] then queue
    else
      var last := questions[|questions| - 1];
      Enqueued(queue, questions[..|questions| - 1]) + [QueuedQuestion(last.question, last.sheet)]
  }

  lemma {:induction false} EnqueuedKeys(queue: seq<QueuedQuestion>, questions: seq<Params>,
                                        fingerprint: string -> string, key: Key)
    ensures key in QueueKeys(Enqueued(queue, questions), fingerprint)
       <==> key in QueueKeys(queue, fingerprint) || exists p :: p in questions && ParamsKey(p, fingerprint) == key
    decreases |questions|
  {
    if questions != [] {
      var n := |questions| - 1;
      var before, last := Enqueued(queue, questions[..n]), questions[n];
      EnqueuedKeys(queue, questions[..n], fingerprint, key);
      assert questions == questions[..n] + [last];
      var added := QueuedQuestion(last.question, last.sheet);
      assert forall q :: q in before + [added] <==> q in before || q == added;
      assert key in QueueKeys(before + [added], fingerprint)
        <==> key in QueueKeys(before, fingerprint) || key == ParamsKey(last, fingerprint);
    }
  }

  /** Previewing the same file after importing `questions` selects exactly the rows that were
      selected before and whose key was not imported. */
  lemma SelectedAfterImport(rows: seq<PreviewRow>, queue: seq<QueuedQuestion>, questions: seq<Params>,
                            fingerprint: string -> string, i: int, before: PreviewRow, after: PreviewRow)
    requires Clean(rows) && 0 <= i < |rows|
    requires IsWarned(rows, i, before, QueueKeys(queue, fingerprint), fingerprint)
    requires IsWarned(rows, i, after, QueueKeys(Enqueued(queue, questions), fingerprint), fingerprint)
    ensures SelectedByDefault(after)
       <==> (&& SelectedByDefault(before)
             && forall p :: p in questions ==> !HasKey(before, ParamsKey(p, fingerprint), fingerprint))
  {
    SelectedExactly(rows, i, before, QueueKeys(queue, fingerprint), fingerprint);
    SelectedExactly(rows, i, after, QueueKeys(Enqueued(queue, questions), fingerprint), fingerprint);
    if rows[i].params.Some? {
      EnqueuedKeys(queue, questions, fingerprint, ParamsKey(rows[i].params.value, fingerprint));
    }
  }

  lemma {:induction false} DefaultQuestionsHold(out: seq<PreviewRow>, i: int)
    requires 0 <= i < |out| && SelectedByDefault(out[i])
    ensures out[i].params.value in DefaultQuestions(out)
    decreases |out|
  {
    var n := |out| - 1;
    if i < n {
      assert out[..n][i] == out[i];
      DefaultQuestionsHold(out[..n], i);
    }
  }

  /** Importing is idempotent: after the default selection is confirmed, previewing the same
      file again selects nothing by default. */
  lemma SecondPreviewSelectsNothing(rows: seq<PreviewRow>, queue: seq<QueuedQuestion>, fingerprint: string -> string,
                                    out: seq<PreviewRow>, again: seq<PreviewRow>, i: int)
    requires Clean(rows) && IsPreview(rows, out, QueueKeys(queue, fingerprint), fingerprint)
    requires IsPreview(rows, again, QueueKeys(Enqueued(queue, DefaultQuestions(out)), fingerprint), fingerprint)
    requires 0 <= i < |again|
    ensures !SelectedByDefault(again[i])
  {
    SelectedAfterImport(rows, queue, DefaultQuestions(out), fingerprint, i, out[i], again[i]);
    if SelectedByDefault(out[i]) { DefaultQuestionsHold(out, i); }
  }
}
