/**
 * The batch driver: every line of the dataset is parsed into one record and, when that
 * succeeds, reported on. Each line adds exactly one entry to the log, a report or an
 * error, and a failing line never stops the batch.
 */
module ActionInfo {
  import opened Wrappers
  import opened Errors
  import opened PersonalData
  import Trainings
  import DaySteps

  /** What ActionInfo returns on success, for either kind of record. */
  datatype Report = TrainingInfo(training: Trainings.TrainingReport) | DayStepsInfo(daySteps: DaySteps.DayStepsReport)

  /** One line of the log: a report, or the error that stopped the line. */
  datatype LogEntry = ReportLine(report: Report) | ErrorLine(error: Error)

  /** A snapshot of the record behind a data parser. */
  datatype Record = TrainingRecord(training: Trainings.TrainingData) | DayStepsRecord(daySteps: DaySteps.DayStepsData)
  {
    function Personal(): Personal
    {
      match this
      case TrainingRecord(t) => t.personal
      case DayStepsRecord(d) => d.personal
    }

    /** Same kind of record with the same personal data: only the parsed fields may differ. */
    predicate Alike(other: Record)
    {
      TrainingRecord? == other.TrainingRecord? && Personal() == other.Personal()
    }
  }

  /** The error Parse returns for the line, or None. */
  function ParseError(rec: Record, line: string): (e: Option<Error>)
    ensures e.Some? ==> e.value == InvalidFormat || e.value == InvalidCount || e.value == InvalidDuration
  {
    match rec
    case TrainingRecord(_) => Trainings.ParseLine(line).ErrorOf()
    case DayStepsRecord(_) => DaySteps.ParseLine(line).ErrorOf()
  }

  /** The record after Parse has seen the line: updated on success, as it was otherwise. */
  function AfterParse(rec: Record, line: string): (r: Record)
    ensures r.Alike(rec)
    ensures ParseError(rec, line).Some? ==> r == rec
  {
    match rec
    case TrainingRecord(t) =>
      (match Trainings.ParseLine(line)
       case Failure(_) => rec
       case Success(f) => TrainingRecord(t.(steps := f.steps, trainingType := f.trainingType, duration := f.duration)))
    case DayStepsRecord(d) =>
      (match DaySteps.ParseLine(line)
       case Failure(_) => rec
       case Success(f) => DayStepsRecord(d.(steps := f.steps, duration := f.duration)))
  }

  /** ActionInfo of the record's kind. */
  function ActionInfoOf(rec: Record): (r: Result<Report, Error>)
    ensures r.Success? ==> (r.value.TrainingInfo? <==> rec.TrainingRecord?)
    ensures r.Failure? ==> r.error == InvalidParams || (rec.TrainingRecord? && r.error == InvalidTraining)
  {
    match rec
    case TrainingRecord(t) =>
      (match Trainings.ActionInfo(t)
       case Failure(err) => Failure(err)
       case Success(report) => Success(TrainingInfo(report)))
    case DayStepsRecord(d) =>
      (match DaySteps.ActionInfo(d)
       case Failure(err) => Failure(err)
       case Success(report) => Success(DayStepsInfo(report)))
  }

  /**
   * The entry Info logs for a line: the parse error if Parse fails (ActionInfo is then
   * not consulted), else the error or the report of ActionInfo on the updated record.
   */
  function EntryFor(rec: Record, line: string): LogEntry
  {
    match ParseError(rec, line)
    case Some(err) => ErrorLine(err)
    case None =>
      match ActionInfoOf(AfterParse(rec, line))
      case Failure(err) => ErrorLine(err)
      case Success(report) => ReportLine(report)
  }

  /** The record after Info has parsed every line, starting from `rec`. */
  function FinalRecord(rec: Record, lines: seq<string>): (r: Record)
    ensures r.Alike(rec)
  {
    if lines == [] then rec
    else AfterParse(FinalRecord(rec, lines[..|lines| - 1]), lines[|lines| - 1])
  }

  /** The log Info writes for `lines`, one entry appended per line, in order. */
  function InfoLog(rec: Record, lines: seq<string>): (log: seq<LogEntry>)
    ensures |log| == |lines|
  {
    if lines == [] then []
    else
      var init := lines[..|lines| - 1];
      InfoLog(rec, init) + [EntryFor(FinalRecord(rec, init), lines[|lines| - 1])]
  }

  /** A line's entry does not depend on the fields earlier lines left in the record. */
  lemma EntryIgnoresEarlierLines(a: Record, b: Record, line: string)
    requires a.Alike(b)
    ensures EntryFor(a, line) == EntryFor(b, line)
  {
    if ParseError(a, line).None? {
      assert AfterParse(a, line) == AfterParse(b, line);
    }
  }

  /** One more line: the log and the record grow by that line's entry and update. */
  lemma InfoStep(rec: Record, lines: seq<string>, i: nat)
    requires i < |lines|
    ensures InfoLog(rec, lines[..i + 1]) == InfoLog(rec, lines[..i]) + [EntryFor(FinalRecord(rec, lines[..i]), lines[i])]
    ensures FinalRecord(rec, lines[..i + 1]) == AfterParse(FinalRecord(rec, lines[..i]), lines[i])
  {
    assert lines[..i + 1][..i] == lines[..i];
  }

  /** The log of a longer dataset starts with the log of its first lines. */
  lemma InfoLogPrefix(rec: Record, lines: seq<string>, i: nat)
    requires i < |lines| - 1
    ensures InfoLog(rec, lines)[i] == InfoLog(rec, lines[..|lines| - 1])[i]
  {
  }

  /** The last entry of the log is the entry of the last line alone. */
  lemma InfoLogLast(rec: Record, lines: seq<string>)
    requires lines != []
    ensures InfoLog(rec, lines)[|lines| - 1] == EntryFor(rec, lines[|lines| - 1])
  {
    EntryIgnoresEarlierLines(FinalRecord(rec, lines[..|lines| - 1]), rec, lines[|lines| - 1]);
  }

  /** Entry i of the log is the entry of line i alone. */
  lemma {:induction false} InfoLogEntry(rec: Record, lines: seq<string>, i: nat)
    requires i < |lines|
    ensures InfoLog(rec, lines)[i] == EntryFor(rec, lines[i])
  {
    var n := |lines| - 1;
    if i < n {
      var init := lines[..n];
      assert init[i] == lines[i];
      InfoLogPrefix(rec, lines, i);
      InfoLogEntry(rec, init, i);
      calc {
        InfoLog(rec, lines)[i];
        InfoLog(rec, init)[i];
        EntryFor(rec, init[i]);
        EntryFor(rec, lines[i]);
      }
    } else {
      InfoLogLast(rec, lines);
    }
  }

  /**
   * What entry i of the log holds: Parse's error when Parse fails on line i (ActionInfo
   * is then not consulted), else ActionInfo's error or its report.
   */
  lemma LogEntryCases(rec: Record, lines: seq<string>, i: nat)
    requires i < |lines|
    ensures var entry := InfoLog(rec, lines)[i];
      && (ParseError(rec, lines[i]).Some? ==> entry == ErrorLine(ParseError(rec, lines[i]).value))
      && (ParseError(rec, lines[i]).None? ==>
            match ActionInfoOf(AfterParse(rec, lines[i]))
            case Failure(err) => entry == ErrorLine(err)
            case Success(report) => entry == ReportLine(report))
  {
    InfoLogEntry(rec, lines, i);
  }

  /** The line reaches no report: Parse fails, or ActionInfo does. */
  predicate LineFails(rec: Record, line: string)
  {
    ParseError(rec, line).Some? || ActionInfoOf(AfterParse(rec, line)).Failure?
  }

  /** A line logs an error exactly when it fails, and otherwise a report of the record's kind. */
  lemma EntryFails(rec: Record, line: string)
    ensures EntryFor(rec, line).ErrorLine? <==> LineFails(rec, line)
    ensures EntryFor(rec, line).ReportLine? ==> (EntryFor(rec, line).report.TrainingInfo? <==> rec.TrainingRecord?)
  {
  }

  /** Number of lines that fail. */
  function Failures(rec: Record, lines: seq<string>): (k: nat)
    ensures k <= |lines|
  {
    if lines == [] then 0
    else Failures(rec, lines[..|lines| - 1]) + (if LineFails(rec, lines[|lines| - 1]) then 1 else 0)
  }

  function ErrorCount(log: seq<LogEntry>): nat
  {
    if log == [] then 0 else ErrorCount(log[..|log| - 1]) + (if log[|log| - 1].ErrorLine? then 1 else 0)
  }

  function ReportCount(log: seq<LogEntry>): nat
  {
    if log == [] then 0 else ReportCount(log[..|log| - 1]) + (if log[|log| - 1].ReportLine? then 1 else 0)
  }

  /** N lines with k failures give k errors and N - k reports. */
  lemma {:induction false} BatchCounts(rec: Record, lines: seq<string>)
    ensures ErrorCount(InfoLog(rec, lines)) == Failures(rec, lines)
    ensures ReportCount(InfoLog(rec, lines)) == |lines| - Failures(rec, lines)
  {
    if lines != [] {
      var init := lines[..|lines| - 1];
      var log := InfoLog(rec, lines);
      BatchCounts(rec, init);
      EntryIgnoresEarlierLines(FinalRecord(rec, init), rec, lines[|lines| - 1]);
      assert log[..|log| - 1] == InfoLog(rec, init);
    }
  }

  /** The shared behaviour of the two records, as a tagged union over the two classes. */
  datatype DataParser = TrainingParser(training: Trainings.Training) | DayStepsParser(daySteps: DaySteps.DaySteps)
  {
    function Target(): object
    {
      match this
      case TrainingParser(t) => t
      case DayStepsParser(d) => d
    }

    function Snapshot(): Record
      reads Target()
    {
      match this
      case TrainingParser(t) => TrainingRecord(t.Data())
      case DayStepsParser(d) => DayStepsRecord(d.Data())
    }

    method Parse(line: string) returns (err: Option<Error>)
      modifies Target()
      ensures err == ParseError(old(Snapshot()), line)
      ensures Snapshot() == AfterParse(old(Snapshot()), line)
    {
      match this
      case TrainingParser(t) => err := t.Parse(line);
      case DayStepsParser(d) => err := d.Parse(line);
    }
  }

  /**
   * Info: parse every line in order; log the parse error and go on to the next line, or
   * log ActionInfo's error or report. Returns the log.
   */
  method Info(dataset: seq<string>, dp: DataParser) returns (log: seq<LogEntry>)
    modifies dp.Target()
    ensures log == InfoLog(old(dp.Snapshot()), dataset)
    ensures dp.Snapshot() == FinalRecord(old(dp.Snapshot()), dataset)
  {
    ghost var start := dp.Snapshot();
    log := [];
    var i := 0;
    while i < |dataset|
      invariant 0 <= i <= |dataset|
      invariant dp.Snapshot() == FinalRecord(start, dataset[..i])
      invariant log == InfoLog(start, dataset[..i])
    {
      var data := dataset[i];
      InfoStep(start, dataset, i);
      var err := dp.Parse(data);
      if err.Some? {
        log := log + [ErrorLine(err.value)];
      } else {
        match ActionInfoOf(dp.Snapshot())
        case Failure(e) => log := log + [ErrorLine(e)];
        case Success(info) => log := log + [ReportLine(info)];
      }
      i := i + 1;
    }
    assert dataset[..i] == dataset;
  }

  /** An empty dataset logs nothing and leaves the record as it was. */
  lemma EmptyDataset(rec: Record)
    ensures InfoLog(rec, []) == [] && FinalRecord(rec, []) == rec
  {
  }
}
