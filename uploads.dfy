/** The two upload handlers of main.py that hold parsing logic:
    `upload_participants` (a CSV of participants) and `upload_submissions`
    (a ZIP of prompt files named after an assignment and a participant).
    The uploaded bytes arrive here already decoded; the rows a handler
    would insert are returned instead of written to the database. */
module Uploads {
  import opened Wrappers
  import opened PyText

  /** An `HTTPException`: status code and detail. */
  datatype HttpError = HttpError(status: nat, detail: string)

  const CompetitionNotFound := HttpError(404, "Competition not found")
  const CsvEmpty := HttpError(400, "CSV file is empty")

  function MissingColumn(column: string): HttpError {
    HttpError(400, "Missing required column: " + column)
  }

  // ---------------------------------------------------------------------
  // Participants
  // ---------------------------------------------------------------------

  datatype Participant = Participant(name: string, email: string, department: string, position: string)

  /** What `upload_participants` answers: an error, or the success message
      and the rows inserted, in file order. */
  datatype ParticipantUpload = ParticipantsRejected(error: HttpError) | ParticipantsAdded(message: string, rows: seq<Participant>)

  /** The position of the last occurrence of `key`, or -1. */
  function LastPosition(xs: seq<string>, key: string): (i: int)
    ensures -1 <= i < |xs|
    ensures i >= 0 ==> xs[i] == key
    ensures forall k :: i < k < |xs| ==> xs[k] != key
    ensures i == -1 <==> key !in xs
    decreases |xs|
  {
    if |xs| == 0 then -1
    else if xs[|xs| - 1] == key then |xs| - 1
    else LastPosition(xs[..|xs| - 1], key)
  }

  /** `dict(zip(header, values)).get(key, "")` when there are at least as
      many values as columns: a repeated column takes the value of its last
      occurrence. */
  function Field(header: seq<string>, values: seq<string>, key: string): (v: string)
    requires |values| >= |header|
    ensures key !in header ==> v == ""
    ensures key in header ==> exists k :: 0 <= k < |header| && header[k] == key && values[k] == v
  {
    var i := LastPosition(header, key);
    if i < 0 then "" else values[i]
  }

  /** The participant a data line yields, or None when the line is skipped:
      a blank line, or one with fewer fields than the header. */
  function ParseRow(header: seq<string>, line: string): Option<Participant>
  {
    if AllSpace(line) then None
    else
      var values := Split(Strip(line), ',');
      if |values| < |header| then None
      else Some(Participant(Field(header, values, "name"), Field(header, values, "email"),
                            Field(header, values, "department"), Field(header, values, "position")))
  }

  /** A data line is skipped exactly when it is blank or has fewer fields
      than the header; otherwise its fields are read by column name. */
  lemma ParseRowSkips(header: seq<string>, line: string)
    ensures ParseRow(header, line).None? <==> AllSpace(line) || |Split(Strip(line), ',')| < |header|
    ensures ParseRow(header, line).Some? ==>
      var values := Split(Strip(line), ',');
      && ParseRow(header, line).value.name == Field(header, values, "name")
      && ParseRow(header, line).value.email == Field(header, values, "email")
  {
  }

  /** The rows the data lines yield, in order. */
  function ParticipantRows(header: seq<string>, lines: seq<string>): (rows: seq<Participant>)
    ensures |rows| <= |lines|
    decreases |lines|
  {
    if |lines| == 0 then []
    else
      var front := ParticipantRows(header, lines[..|lines| - 1]);
      match ParseRow(header, lines[|lines| - 1])
      case None => front
      case Some(p) => front + [p]
  }

  function ParticipantsMessage(added: nat): string {
    NatToString(added) + " participants added successfully"
  }

  /** `upload_participants` on the decoded file: the competition must
      exist, the stripped text must have a header line and at least one
      more line, and the header must name both `name` and `email`
      (`name` is checked first). */
  function UploadParticipantsOutcome(competitionExists: bool, csvText: string): ParticipantUpload
  {
    if !competitionExists then ParticipantsRejected(CompetitionNotFound)
    else
      var lines := Split(Strip(csvText), '\n');
      if |lines| < 2 then ParticipantsRejected(CsvEmpty)
      else
        var header := Split(Strip(lines[0]), ',');
        if "name" !in header then ParticipantsRejected(MissingColumn("name"))
        else if "email" !in header then ParticipantsRejected(MissingColumn("email"))
        else
          var rows := ParticipantRows(header, lines[1..]);
          ParticipantsAdded(ParticipantsMessage(|rows|), rows)
  }

  /** `upload_participants`: one pass over the data lines counting the
      rows it inserts. */
  method UploadParticipants(competitionExists: bool, csvText: string) returns (r: ParticipantUpload)
    ensures r == UploadParticipantsOutcome(competitionExists, csvText)
    ensures r.ParticipantsAdded? ==> r.message == ParticipantsMessage(|r.rows|)
  {
    if !competitionExists {
      return ParticipantsRejected(CompetitionNotFound);
    }
    var lines := Split(Strip(csvText), '\n');
    if |lines| < 2 {
      return ParticipantsRejected(CsvEmpty);
    }
    var header := Split(Strip(lines[0]), ',');
    if "name" !in header {
      return ParticipantsRejected(MissingColumn("name"));
    }
    if "email" !in header {
      return ParticipantsRejected(MissingColumn("email"));
    }
    var rows, added := InsertParticipantRows(header, lines);
    r := ParticipantsAdded(ParticipantsMessage(added), rows);
  }

  /** The loop of `upload_participants` over the data lines: blank lines
      and lines with too few fields are skipped, every other one is read
      by column name and counted. */
  method InsertParticipantRows(header: seq<string>, lines: seq<string>) returns (rows: seq<Participant>, added: nat)
    requires |lines| >= 1
    ensures rows == ParticipantRows(header, lines[1..])
    ensures added == |rows|
  {
    added := 0;
    rows := [];
    for i := 1 to |lines|
      invariant rows == ParticipantRows(header, lines[1..i])
      invariant added == |rows|
    {
      ParticipantRowsStep(header, lines, i);
      if AllSpace(lines[i]) {
        continue;
      }
      var values := Split(Strip(lines[i]), ',');
      if |values| < |header| {
        continue;
      }
      var row := Participant(Field(header, values, "name"), Field(header, values, "email"),
                             Field(header, values, "department"), Field(header, values, "position"));
      assert ParseRow(header, lines[i]) == Some(row);
      rows := rows + [row];
      added := added + 1;
    }
    assert lines[1..|lines|] == lines[1..];
  }

  /** One more data line adds the row it reads as, if any. */
  lemma ParticipantRowsStep(header: seq<string>, lines: seq<string>, i: nat)
    requires 1 <= i < |lines|
    ensures ParticipantRows(header, lines[1..i + 1])
         == ParticipantRows(header, lines[1..i]) + (match ParseRow(header, lines[i])
                                                   case None => []
                                                   case Some(p) => [p])
  {
    assert lines[1..i + 1][..i - 1] == lines[1..i];
    assert lines[1..i + 1][i - 1] == lines[i];
  }

  /** The positions of the lines that yield a row, in file order. */
  ghost function RowLines(header: seq<string>, lines: seq<string>): seq<nat>
  {
    if |lines| == 0 then []
    else
      var n := |lines| - 1;
      RowLines(header, lines[..n]) + (if ParseRow(header, lines[n]).Some? then [n] else [])
  }

  lemma {:induction false} RowLinesCount(header: seq<string>, lines: seq<string>)
    ensures |RowLines(header, lines)| == |ParticipantRows(header, lines)|
  {
    if |lines| > 0 {
      RowLinesCount(header, lines[..|lines| - 1]);
      ParticipantRowsLast(header, lines);
    }
  }

  lemma {:induction false} RowLinesBelow(header: seq<string>, lines: seq<string>)
    ensures forall i :: 0 <= i < |RowLines(header, lines)| ==> RowLines(header, lines)[i] < |lines|
    ensures forall i, j :: 0 <= i < j < |RowLines(header, lines)| ==> RowLines(header, lines)[i] < RowLines(header, lines)[j]
  {
    if |lines| > 0 {
      RowLinesBelow(header, lines[..|lines| - 1]);
    }
  }

  lemma {:induction false} RowLinesRead(header: seq<string>, lines: seq<string>, i: nat)
    requires i < |RowLines(header, lines)|
    ensures |RowLines(header, lines)| == |ParticipantRows(header, lines)|
    ensures RowLines(header, lines)[i] < |lines|
    ensures ParseRow(header, lines[RowLines(header, lines)[i]]) == Some(ParticipantRows(header, lines)[i])
  {
    var n := |lines| - 1;
    var front := RowLines(header, lines[..n]);
    var frontRows := ParticipantRows(header, lines[..n]);
    RowLinesCount(header, lines);
    RowLinesCount(header, lines[..n]);
    RowLinesBelow(header, lines);
    ParticipantRowsLast(header, lines);
    if i < |front| {
      RowLinesRead(header, lines[..n], i);
      assert ParticipantRows(header, lines)[i] == frontRows[i];
      assert RowLines(header, lines)[i] == front[i];
      assert lines[..n][front[i]] == lines[front[i]];
    } else {
      assert RowLines(header, lines)[i] == n;
    }
  }

  /** Every row comes from its own accepted data line, in file order. */
  lemma ParticipantRowsTrace(header: seq<string>, lines: seq<string>) returns (idx: seq<nat>)
    ensures |idx| == |ParticipantRows(header, lines)|
    ensures forall i :: 0 <= i < |idx| ==>
      idx[i] < |lines| && ParseRow(header, lines[idx[i]]) == Some(ParticipantRows(header, lines)[i])
    ensures forall i, j :: 0 <= i < j < |idx| ==> idx[i] < idx[j]
  {
    idx := RowLines(header, lines);
    RowLinesCount(header, lines);
    RowLinesBelow(header, lines);
    forall i | 0 <= i < |idx|
      ensures ParseRow(header, lines[idx[i]]) == Some(ParticipantRows(header, lines)[i])
    {
      RowLinesRead(header, lines, i);
    }
  }

  /** The rows of some lines: those of all but the last, then the last
      line's row if it has one. */
  lemma ParticipantRowsLast(header: seq<string>, lines: seq<string>)
    requires |lines| > 0
    ensures ParticipantRows(header, lines)
         == ParticipantRows(header, lines[..|lines| - 1]) + (match ParseRow(header, lines[|lines| - 1])
                                                            case None => []
                                                            case Some(p) => [p])
  {
  }

  /** No accepted data line is lost: the participant it yields is among
      the rows. */
  lemma {:induction false} ParticipantRowsComplete(header: seq<string>, lines: seq<string>, k: nat)
    requires k < |lines| && ParseRow(header, lines[k]).Some?
    ensures ParseRow(header, lines[k]).value in ParticipantRows(header, lines)
  {
    var n := |lines| - 1;
    var rows := ParticipantRows(header, lines);
    if k == n {
      assert rows == ParticipantRows(header, lines[..n]) + [ParseRow(header, lines[n]).value];
    } else {
      assert lines[..n][k] == lines[k];
      ParticipantRowsComplete(header, lines[..n], k);
      var last := ParseRow(header, lines[n]);
      if last.Some? {
        assert rows == ParticipantRows(header, lines[..n]) + [last.value];
      } else {
        assert rows == ParticipantRows(header, lines[..n]);
      }
    }
  }

  /** A field that survives the CSV format unchanged: no comma, no line
      break, and no whitespace at either end. */
  predicate CleanField(f: string) {
    ',' !in f && '\n' !in f && (f == [] || (!IsSpace(f[0]) && !IsSpace(f[|f| - 1])))
  }

  predicate CleanParticipant(p: Participant) {
    p.name != [] && CleanField(p.name) && CleanField(p.email) && CleanField(p.department) && CleanField(p.position)
  }

  /** The four columns, in the order the CSV below lists them. */
  const Columns: seq<string> := ["name", "email", "department", "position"]

  function CsvHeader(): string {
    Join(Columns, ",")
  }

  function CsvLine(p: Participant): string {
    Join([p.name, p.email, p.department, p.position], ",")
  }

  function CsvLines(ps: seq<Participant>): seq<string> {
    seq(|ps|, i requires 0 <= i < |ps| => CsvLine(ps[i]))
  }

  /** The CSV file listing `ps` under the four-column header. */
  function Csv(ps: seq<Participant>): string {
    Join([CsvHeader()] + CsvLines(ps), "\n")
  }

  lemma HeaderEnds()
    ensures CsvHeader() != [] && CsvHeader()[0] == 'n' && CsvHeader()[|CsvHeader()| - 1] == 'n'
  {
    assert CsvHeader() == "name" + "," + Join(Columns[1..], ",");
    JoinLast(Columns, ",");
  }

  lemma HeaderOneLine()
    ensures '\n' !in CsvHeader()
  {
    assert forall k :: 0 <= k < |Columns| ==> '\n' !in Columns[k];
    NotInJoin(Columns, ",", '\n');
  }

  /** The header line reads back as the four columns. */
  lemma HeaderColumns()
    ensures Split(Strip(CsvHeader()), ',') == Columns
  {
    assert Columns[0][0] == 'n' && Columns[3][7] == 'n';
    assert forall k :: 0 <= k < |Columns| ==> ',' !in Columns[k];
    SplitStripJoin(Columns, ',');
  }

  /** A clean participant's line is one line without padding. */
  lemma CsvLineShape(p: Participant)
    requires CleanParticipant(p)
    ensures '\n' !in CsvLine(p)
    ensures CsvLine(p) != [] && !IsSpace(CsvLine(p)[0]) && !IsSpace(CsvLine(p)[|CsvLine(p)| - 1])
  {
    var fields := [p.name, p.email, p.department, p.position];
    var line := CsvLine(p);
    NotInJoin(fields, ",", '\n');
    assert fields[1..] == [p.email, p.department, p.position];
    assert fields[1..][1..] == [p.department, p.position];
    assert fields[1..][1..][1..] == [p.position];
    assert Join(fields[1..][1..], ",") == p.department + "," + p.position;
    assert Join(fields[1..], ",") == p.email + "," + (p.department + "," + p.position);
    assert line == p.name + "," + (p.email + "," + (p.department + "," + p.position));
    assert line[0] == p.name[0];
    if p.position == [] {
      assert line[|line| - 1] == ',';
    } else {
      assert line[|line| - 1] == p.position[|p.position| - 1];
    }
  }

  /** A clean participant's line splits back into its four fields. */
  lemma CsvLineFields(p: Participant)
    requires CleanParticipant(p)
    ensures Split(Strip(CsvLine(p)), ',') == [p.name, p.email, p.department, p.position]
  {
    CsvLineShape(p);
    StripUnpadded(CsvLine(p));
    SplitJoin([p.name, p.email, p.department, p.position], ',');
  }

  /** A clean participant's line reads back as that participant. */
  lemma ParseCsvLine(p: Participant)
    requires CleanParticipant(p)
    ensures ParseRow(Columns, CsvLine(p)) == Some(p)
  {
    CsvLineShape(p);
    CsvLineFields(p);
    ColumnPositions();
    ParseRowOfFields(Columns, CsvLine(p), [p.name, p.email, p.department, p.position]);
  }

  /** Where each column sits in the written header. */
  lemma ColumnPositions()
    ensures LastPosition(Columns, "name") == 0 && LastPosition(Columns, "email") == 1
    ensures LastPosition(Columns, "department") == 2 && LastPosition(Columns, "position") == 3
  {
  }

  /** A non-blank line with enough fields reads as the participant its
      fields name. */
  lemma ParseRowOfFields(header: seq<string>, line: string, values: seq<string>)
    requires line != [] && !IsSpace(line[0])
    requires Split(Strip(line), ',') == values && |values| >= |header|
    ensures ParseRow(header, line) == Some(Participant(Field(header, values, "name"), Field(header, values, "email"),
                                                       Field(header, values, "department"), Field(header, values, "position")))
  {
    assert !AllSpace(line);
  }

  /** The data lines of a clean file read back as its participants. */
  lemma ParticipantRowsOfCsvLines(ps: seq<Participant>)
    requires forall i :: 0 <= i < |ps| ==> CleanParticipant(ps[i])
    ensures ParticipantRows(Columns, CsvLines(ps)) == ps
  {
    var lines := CsvLines(ps);
    forall i | 0 <= i < |ps|
      ensures ParseRow(Columns, lines[i]) == Some(ps[i])
    {
      ParseCsvLine(ps[i]);
    }
    ParticipantRowsOfReadLines(Columns, lines, ps);
  }

  /** Lines that each read as a row yield exactly those rows. */
  lemma {:induction false} ParticipantRowsOfReadLines(header: seq<string>, lines: seq<string>, ps: seq<Participant>)
    requires |lines| == |ps|
    requires forall i :: 0 <= i < |ps| ==> ParseRow(header, lines[i]) == Some(ps[i])
    ensures ParticipantRows(header, lines) == ps
  {
    if |ps| > 0 {
      var n := |ps| - 1;
      forall i | 0 <= i < n
        ensures ParseRow(header, lines[..n][i]) == Some(ps[..n][i])
      {
        assert lines[..n][i] == lines[i];
      }
      ParticipantRowsOfReadLines(header, lines[..n], ps[..n]);
      var front := ParticipantRows(header, lines[..n]);
      assert ParseRow(header, lines[n]) == Some(ps[n]);
      assert ParticipantRows(header, lines) == front + [ps[n]];
      assert ps == ps[..n] + [ps[n]];
    }
  }

  /** No line of a clean file holds a line break. */
  lemma CsvLinesAreLines(ps: seq<Participant>)
    requires forall i :: 0 <= i < |ps| ==> CleanParticipant(ps[i])
    ensures forall k :: 0 <= k < |[CsvHeader()] + CsvLines(ps)| ==> '\n' !in ([CsvHeader()] + CsvLines(ps))[k]
  {
    var lines := [CsvHeader()] + CsvLines(ps);
    HeaderOneLine();
    forall k | 0 <= k < |lines|
      ensures '\n' !in lines[k]
    {
      if k > 0 {
        assert lines[k] == CsvLine(ps[k - 1]);
        CsvLineShape(ps[k - 1]);
      }
    }
  }

  /** A clean file splits back into its header and its data lines. */
  lemma CsvSplitsIntoLines(ps: seq<Participant>)
    requires forall i :: 0 <= i < |ps| ==> CleanParticipant(ps[i])
    ensures Split(Strip(Csv(ps)), '\n') == [CsvHeader()] + CsvLines(ps)
  {
    var lines := [CsvHeader()] + CsvLines(ps);
    CsvLinesAreLines(ps);
    HeaderEnds();
    if |ps| > 0 {
      assert lines[|lines| - 1] == CsvLine(ps[|ps| - 1]);
      CsvLineShape(ps[|ps| - 1]);
    }
    SplitStripJoin(lines, '\n');
  }

  /** Uploading the CSV of clean participants adds exactly those
      participants, in order; with no participant the file is reported
      empty. */
  lemma UploadCsvRoundTrip(ps: seq<Participant>)
    requires forall i :: 0 <= i < |ps| ==> CleanParticipant(ps[i])
    ensures |ps| >= 1 ==> UploadParticipantsOutcome(true, Csv(ps)) == ParticipantsAdded(ParticipantsMessage(|ps|), ps)
    ensures |ps| == 0 ==> UploadParticipantsOutcome(true, Csv(ps)) == ParticipantsRejected(CsvEmpty)
  {
    var lines := [CsvHeader()] + CsvLines(ps);
    CsvSplitsIntoLines(ps);
    HeaderColumns();
    assert "name" in Columns && "email" in Columns by {
      assert Columns[0] == "name" && Columns[1] == "email";
    }
    assert lines[0] == CsvHeader() && lines[1..] == CsvLines(ps);
    ParticipantRowsOfCsvLines(ps);
  }

  /** A header without a `name` column is refused before any row is read,
      and so is one without `email`; `name` is reported first. */
  lemma MissingColumnsRefused(competitionExists: bool, csvText: string)
    requires competitionExists
    requires |Split(Strip(csvText), '\n')| >= 2
    ensures var header := Split(Strip(Split(Strip(csvText), '\n')[0]), ',');
      && ("name" !in header ==> UploadParticipantsOutcome(competitionExists, csvText) == ParticipantsRejected(MissingColumn("name")))
      && ("name" in header && "email" !in header ==>
            UploadParticipantsOutcome(competitionExists, csvText) == ParticipantsRejected(MissingColumn("email")))
  {
  }

  // ---------------------------------------------------------------------
  // Submissions
  // ---------------------------------------------------------------------

  /** An entry of the uploaded archive: its name, and its bytes decoded as
      UTF-8 or the message of the decoding error. */
  datatype ZipEntry = ZipEntry(name: string, text: Result<string, string>)

  /** A submission row to insert with status "pending". */
  datatype SubmissionRow = SubmissionRow(participantId: int, assignmentId: int, promptText: string)

  /** What `upload_submissions` answers: an error, or the success message,
      the rows inserted in archive order and the skipped-entry notes (the
      `skipped` key is present exactly when this list is non-empty). */
  datatype SubmissionUpload =
    | SubmissionsRejected(error: HttpError)
    | SubmissionsUploaded(message: string, rows: seq<SubmissionRow>, skipped: seq<string>)

  /** How an entry name reads: not a prompt file (no ".txt" ending), no
      underscore in the base name, a participant part `int()` refuses, or
      an assignment name and a participant id. */
  datatype EntryName = NotPrompt | InvalidFormat | BadNumber(digits: string) | Named(assignment: string, participantId: int)

  /** The name convention `{Assignment}-Prompt_P{id}.txt`: the base name is
      split at '_'; the assignment is the text of the first part before its
      first '-', and the id is the second part with every 'P' removed, read
      by `int()`. */
  function ParseEntryName(name: string): EntryName
  {
    if !EndsWith(name, ".txt") then NotPrompt
    else
      var parts := Split(SplitExt(name).0, '_');
      if |parts| < 2 then InvalidFormat
      else
        var digits := RemoveChar(parts[1], 'P');
        match ParseInt(digits)
        case None => BadNumber(digits)
        case Some(id) => Named(Split(parts[0], '-')[0], id)
  }

  /** The `ValueError` text of `int()` on a string it refuses. */
  function IntError(digits: string): string {
    "invalid literal for int() with base 10: '" + digits + "'"
  }

  /** What one entry does: nothing, a note in the skipped list, or a row. */
  datatype EntryOutcome = Ignored | Skipped(note: string) | Inserted(row: SubmissionRow)

  /** One entry against the competition's assignments (name to id) and
      participant ids: the number is read before the assignment is looked
      up, the assignment before the participant, and the text is decoded
      last. */
  function ClassifyEntry(assignments: map<string, int>, participants: set<int>, e: ZipEntry): EntryOutcome
  {
    match ParseEntryName(e.name)
    case NotPrompt => Ignored
    case InvalidFormat => Skipped(e.name + " (invalid format)")
    case BadNumber(digits) => Skipped(e.name + " (error: " + IntError(digits) + ")")
    case Named(a, id) =>
      if a !in assignments then Skipped(e.name + " (assignment not found: " + a + ")")
      else if id !in participants then Skipped(e.name + " (participant not found: " + IntToString(id) + ")")
      else
        match e.text
        case Failure(message) => Skipped(e.name + " (error: " + message + ")")
        case Success(text) => Inserted(SubmissionRow(id, assignments[a], text))
  }

  /** The rows and skipped notes of the entries, in archive order. */
  function EntryOutcomes(assignments: map<string, int>, participants: set<int>, entries: seq<ZipEntry>)
    : (seq<SubmissionRow>, seq<string>)
    decreases |entries|
  {
    if |entries| == 0 then ([], [])
    else
      var (rows, skipped) := EntryOutcomes(assignments, participants, entries[..|entries| - 1]);
      match ClassifyEntry(assignments, participants, entries[|entries| - 1])
      case Ignored => (rows, skipped)
      case Skipped(note) => (rows, skipped + [note])
      case Inserted(row) => (rows + [row], skipped)
  }

  /** The assignments dictionary keyed by name: a name shared by several
      assignments of the competition maps to the last of them. */
  function AssignmentIndex(assignmentRows: seq<(string, int)>): (m: map<string, int>)
    ensures forall i :: 0 <= i < |assignmentRows| ==> assignmentRows[i].0 in m
    ensures forall name :: name in m ==> exists i :: 0 <= i < |assignmentRows| && assignmentRows[i] == (name, m[name])
    decreases |assignmentRows|
  {
    if |assignmentRows| == 0 then map[]
    else
      var n := |assignmentRows| - 1;
      var front := AssignmentIndex(assignmentRows[..n]);
      assert forall i :: 0 <= i < n ==> assignmentRows[..n][i] == assignmentRows[i];
      front[assignmentRows[n].0 := assignmentRows[n].1]
  }

  function SubmissionsMessage(added: nat): string {
    NatToString(added) + " submissions uploaded successfully"
  }

  /** `upload_submissions` once the archive has been opened (a corrupt
      archive raises before this point), given the competition's
      assignments as (name, id) rows and its participant ids. */
  function UploadSubmissionsOutcome(competitionExists: bool, assignmentRows: seq<(string, int)>,
                                    participants: set<int>, entries: seq<ZipEntry>): SubmissionUpload
  {
    if !competitionExists then SubmissionsRejected(CompetitionNotFound)
    else
      var (rows, skipped) := EntryOutcomes(AssignmentIndex(assignmentRows), participants, entries);
      SubmissionsUploaded(SubmissionsMessage(|rows|), rows, skipped)
  }

  /** `upload_submissions`: one pass over the archive's entries, counting
      the rows inserted and collecting the notes of the skipped ones. */
  method UploadSubmissions(competitionExists: bool, assignmentRows: seq<(string, int)>, participants: set<int>,
                           entries: seq<ZipEntry>)
    returns (r: SubmissionUpload)
    ensures r == UploadSubmissionsOutcome(competitionExists, assignmentRows, participants, entries)
    ensures r.SubmissionsUploaded? ==> r.message == SubmissionsMessage(|r.rows|)
  {
    if !competitionExists {
      return SubmissionsRejected(CompetitionNotFound);
    }
    var assignments := AssignmentIndex(assignmentRows);
    var added := 0;
    var rows: seq<SubmissionRow> := [];
    var skipped: seq<string> := [];
    for i := 0 to |entries|
      invariant (rows, skipped) == EntryOutcomes(assignments, participants, entries[..i])
      invariant added == |rows|
    {
      EntryOutcomesStep(assignments, participants, entries, i);
      var e := entries[i];
      ghost var outcome := ClassifyEntry(assignments, participants, e);
      match ParseEntryName(e.name)
      case NotPrompt =>
        assert outcome == Ignored;
      case InvalidFormat =>
        assert outcome == Skipped(e.name + " (invalid format)");
        skipped := skipped + [e.name + " (invalid format)"];
      case BadNumber(digits) =>
        assert outcome == Skipped(e.name + " (error: " + IntError(digits) + ")");
        skipped := skipped + [e.name + " (error: " + IntError(digits) + ")"];
      case Named(a, id) =>
        if a !in assignments {
          assert outcome == Skipped(e.name + " (assignment not found: " + a + ")");
          skipped := skipped + [e.name + " (assignment not found: " + a + ")"];
        } else if id !in participants {
          assert outcome == Skipped(e.name + " (participant not found: " + IntToString(id) + ")");
          skipped := skipped + [e.name + " (participant not found: " + IntToString(id) + ")"];
        } else if e.text.Failure? {
          assert outcome == Skipped(e.name + " (error: " + e.text.error + ")");
          skipped := skipped + [e.name + " (error: " + e.text.error + ")"];
        } else {
          assert outcome == Inserted(SubmissionRow(id, assignments[a], e.text.value));
          rows := rows + [SubmissionRow(id, assignments[a], e.text.value)];
          added := added + 1;
        }
    }
    assert entries[..|entries|] == entries;
    r := SubmissionsUploaded(SubmissionsMessage(added), rows, skipped);
  }

  /** One more entry adds what it comes to. */
  lemma EntryOutcomesStep(assignments: map<string, int>, participants: set<int>, entries: seq<ZipEntry>, i: nat)
    requires i < |entries|
    ensures var (rows, skipped) := EntryOutcomes(assignments, participants, entries[..i]);
      EntryOutcomes(assignments, participants, entries[..i + 1])
        == match ClassifyEntry(assignments, participants, entries[i])
           case Ignored => (rows, skipped)
           case Skipped(note) => (rows, skipped + [note])
           case Inserted(row) => (rows + [row], skipped)
  {
    assert entries[..i + 1][..i] == entries[..i];
    assert entries[..i + 1][i] == entries[i];
  }

  /** The number of entries whose name ends with ".txt". */
  function PromptFileCount(entries: seq<ZipEntry>): nat
    decreases |entries|
  {
    if |entries| == 0 then 0
    else PromptFileCount(entries[..|entries| - 1]) + (if EndsWith(entries[|entries| - 1].name, ".txt") then 1 else 0)
  }

  /** An entry is ignored exactly when its name does not end with ".txt". */
  lemma IgnoredExactlyNonPrompt(assignments: map<string, int>, participants: set<int>, e: ZipEntry)
    ensures ClassifyEntry(assignments, participants, e).Ignored? <==> !EndsWith(e.name, ".txt")
  {
  }

  /** A ".txt" entry whose base name holds no '_' is skipped as having an
      invalid format. */
  lemma NoUnderscoreIsInvalidFormat(assignments: map<string, int>, participants: set<int>, e: ZipEntry)
    requires EndsWith(e.name, ".txt") && '_' !in SplitExt(e.name).0
    ensures ParseEntryName(e.name) == InvalidFormat
    ensures ClassifyEntry(assignments, participants, e) == Skipped(e.name + " (invalid format)")
  {
    var stem := SplitExt(e.name).0;
    SplitJoin([stem], '_');
    assert Join([stem], "_") == stem;
  }

  /** Every ".txt" entry is either inserted or noted as skipped, and every
      other entry is silently ignored. */
  lemma {:induction false} EveryPromptFileAccounted(assignments: map<string, int>, participants: set<int>,
                                                    entries: seq<ZipEntry>)
    ensures |EntryOutcomes(assignments, participants, entries).0| + |EntryOutcomes(assignments, participants, entries).1|
         == PromptFileCount(entries)
  {
    if |entries| > 0 {
      var n := |entries| - 1;
      EveryPromptFileAccounted(assignments, participants, entries[..n]);
      IgnoredExactlyNonPrompt(assignments, participants, entries[n]);
      var front := EntryOutcomes(assignments, participants, entries[..n]);
      var all := EntryOutcomes(assignments, participants, entries);
      match ClassifyEntry(assignments, participants, entries[n])
      case Ignored => assert all == front;
      case Skipped(note) => assert all == (front.0, front.1 + [note]);
      case Inserted(row) => assert all == (front.0 + [row], front.1);
    }
  }

  /** The base name of a conventional name, split at '_'. */
  lemma ConventionalNameParts(assignment: string, digits: string)
    requires '_' !in assignment && IsDecimal(digits)
    ensures var name := assignment + "-Prompt_P" + digits + ".txt";
      EndsWith(name, ".txt") && Split(SplitExt(name).0, '_') == [assignment + "-Prompt", "P" + digits]
  {
    var stem := assignment + "-Prompt" + "_" + ("P" + digits);
    var name := assignment + "-Prompt_P" + digits + ".txt";
    assert name == stem + ".txt";
    assert name[|name| - 4..] == ".txt";
    assert stem[|stem| - 1] == digits[|digits| - 1];
    assert IsDigit(digits[|digits| - 1]);
    SplitExtOfStem(stem, ".txt");
    SplitPair(assignment + "-Prompt", '_', "P" + digits);
  }

  /** How `ParseEntryName` reads a ".txt" name whose base name splits into
      two parts at '_'. */
  lemma NameFromParts(name: string, first: string, second: string, assignment: string, id: int)
    requires EndsWith(name, ".txt") && Split(SplitExt(name).0, '_') == [first, second]
    requires ParseInt(RemoveChar(second, 'P')) == Some(id)
    requires Split(first, '-')[0] == assignment
    ensures ParseEntryName(name) == Named(assignment, id)
  {
  }

  /** The participant part "P<digits>" reads as the digits' value. */
  lemma ParticipantPartValue(digits: string)
    requires IsDecimal(digits)
    ensures ParseInt(RemoveChar("P" + digits, 'P')) == Some(DigitsValue(digits) as int)
  {
    RemoveMarker(digits);
    ParseIntOfDecimal(digits);
  }

  lemma RemoveMarker(digits: string)
    requires IsDecimal(digits)
    ensures RemoveChar("P" + digits, 'P') == digits
  {
    assert ("P" + digits)[1..] == digits;
    assert 'P' !in digits by {
      forall k | 0 <= k < |digits|
        ensures digits[k] != 'P'
      {
        assert IsDigit(digits[k]);
      }
    }
  }

  /** The assignment part "<assignment>-Prompt" reads as the assignment. */
  lemma AssignmentPartName(assignment: string)
    requires '-' !in assignment
    ensures Split(assignment + "-Prompt", '-')[0] == assignment
  {
    SplitPair(assignment, '-', "Prompt");
  }

  lemma ConventionalNameReads(name: string, assignment: string, digits: string)
    requires '-' !in assignment && '_' !in assignment && IsDecimal(digits)
    requires name == assignment + "-Prompt_P" + digits + ".txt"
    requires ParseInt(RemoveChar("P" + digits, 'P')) == Some(DigitsValue(digits) as int)
    requires Split(assignment + "-Prompt", '-')[0] == assignment
    ensures ParseEntryName(name) == Named(assignment, DigitsValue(digits))
  {
    ConventionalNameParts(assignment, digits);
    NameFromParts(name, assignment + "-Prompt", "P" + digits, assignment, DigitsValue(digits));
  }

  /** `{assignment}-Prompt_P{digits}.txt` reads as the assignment and the
      digits' value, provided the assignment name holds neither '-' nor
      '_'. */
  lemma ConventionalDigitsParse(assignment: string, digits: string)
    requires '-' !in assignment && '_' !in assignment && IsDecimal(digits)
    ensures ParseEntryName(assignment + "-Prompt_P" + digits + ".txt") == Named(assignment, DigitsValue(digits))
  {
    ParticipantPartValue(digits);
    AssignmentPartName(assignment);
    ConventionalNameReads(assignment + "-Prompt_P" + digits + ".txt", assignment, digits);
  }

  /** A name following the convention reads back as its assignment and
      participant id, whatever zeros pad the id. */
  lemma ConventionalNameParses(assignment: string, zeros: string, id: nat)
    requires '-' !in assignment && '_' !in assignment
    requires forall k :: 0 <= k < |zeros| ==> zeros[k] == '0'
    ensures ParseEntryName(assignment + "-Prompt_P" + zeros + NatToString(id) + ".txt") == Named(assignment, id)
  {
    var digits := zeros + NatToString(id);
    DigitsValueLeadingZeros(zeros, NatToString(id));
    PaddedNameParses(assignment + "-Prompt_P" + zeros + NatToString(id) + ".txt", assignment, digits, id);
  }

  lemma PaddedNameParses(name: string, assignment: string, digits: string, id: nat)
    requires '-' !in assignment && '_' !in assignment && IsDecimal(digits) && DigitsValue(digits) == id
    requires name == assignment + "-Prompt_P" + digits + ".txt"
    ensures ParseEntryName(name) == Named(assignment, id)
  {
    ConventionalDigitsParse(assignment, digits);
  }

  /** `Split(a + [sep] + b, sep) == [a, b]` when neither piece holds the
      separator. */
  lemma SplitPair(a: string, sep: char, b: string)
    requires sep !in a && sep !in b
    ensures Split(a + [sep] + b, sep) == [a, b]
  {
    assert [a, b][1..] == [b];
    SplitJoin([a, b], sep);
  }

  lemma ExampleSpelling()
    ensures "TaskA" + "-Prompt_P" + "00" + NatToString(1) + ".txt" == "TaskA-Prompt_P001.txt"
  {
    assert NatToString(1) == "1";
  }

  /** The documented example: "TaskA-Prompt_P001.txt" is the prompt of
      participant 1 for assignment "TaskA". */
  lemma ExampleEntryName()
    ensures ParseEntryName("TaskA-Prompt_P001.txt") == Named("TaskA", 1)
  {
    ExampleSpelling();
    ConventionalNameParses("TaskA", "00", 1);
  }

  /** A conventional entry whose assignment and participant are known and
      whose text decodes becomes a pending row for them. */
  lemma ConventionalEntryInserted(assignments: map<string, int>, participants: set<int>, assignment: string,
                                  zeros: string, id: nat, text: string)
    requires '-' !in assignment && '_' !in assignment
    requires forall k :: 0 <= k < |zeros| ==> zeros[k] == '0'
    requires assignment in assignments && id in participants
    ensures ClassifyEntry(assignments, participants,
                          ZipEntry(assignment + "-Prompt_P" + zeros + NatToString(id) + ".txt", Success(text)))
         == Inserted(SubmissionRow(id, assignments[assignment], text))
  {
    ConventionalNameParses(assignment, zeros, id);
  }

  /** Entries that are not ".txt" files change nothing in the answer. */
  lemma NonPromptEntriesIgnored(assignments: map<string, int>, participants: set<int>, entries: seq<ZipEntry>,
                                e: ZipEntry)
    requires !EndsWith(e.name, ".txt")
    ensures EntryOutcomes(assignments, participants, entries + [e]) == EntryOutcomes(assignments, participants, entries)
  {
    assert (entries + [e])[..|entries|] == entries;
  }

  /** The dictionary of assignments keeps, for each name, the id of the
      last assignment with that name. */
  lemma {:induction false} AssignmentIndexLastWins(assignmentRows: seq<(string, int)>, i: nat)
    requires i < |assignmentRows|
    requires forall j :: i < j < |assignmentRows| ==> assignmentRows[j].0 != assignmentRows[i].0
    ensures AssignmentIndex(assignmentRows)[assignmentRows[i].0] == assignmentRows[i].1
  {
    var n := |assignmentRows| - 1;
    if i < n {
      assert assignmentRows[..n][i] == assignmentRows[i];
      AssignmentIndexLastWins(assignmentRows[..n], i);
    }
  }
}
