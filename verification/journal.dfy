/** The persisted event journal (`EventsManager`): a newest-first list of events under
    the `hermes_events` key, capped at 1000 entries, with derived statistics, a CSV
    export and the localized type labels. */
module Journal {
  import opened Basics
  import opened Storage
  import Lists
  import Text

  /** Retention cap of the journal. */
  const MaxEvents: nat := 1000

  /** One journal entry. `eventType` is a free-form key ("danger", "warning", "normal",
      "test", "info", …) because entries written by other pages are read back too;
      `value` is the sensor reading as the text it was stored with. */
  datatype JournalEvent = JournalEvent(
    id: int,
    timestamp: int,
    sensor: string,
    zone: string,
    eventType: string,
    value: string,
    operator: string,
    description: string,
    acknowledged: bool,
    isTest: bool)

  type EventStore = Slot<seq<JournalEvent>>

  /** `getEvents`: the stored list; a missing key and text that fails to parse both read as
      the empty journal, so the call never fails. */
  function GetEvents(store: EventStore): (events: seq<JournalEvent>)
    ensures store.Stored? ==> events == store.value
    ensures !store.Stored? ==> events == []
  {
    match store
    case Stored(events) => events
    case Missing => []
    case Corrupt => []
  }

  /** `addEvent`: prepend and keep the newest 1000; returns the new store and the result of
      `saveEvents` (writes always succeed here). */
  function AddEvent(store: EventStore, e: JournalEvent): (r: (EventStore, bool))
    ensures r.1 && r.0.Stored?
    ensures |GetEvents(r.0)| == Min(|GetEvents(store)| + 1, MaxEvents)
    ensures GetEvents(r.0)[0] == e
    ensures GetEvents(r.0)[1..] == GetEvents(store)[..|GetEvents(r.0)| - 1]
  {
    (Stored(Lists.PushFront(GetEvents(store), e, MaxEvents)), true)
  }

  /** Adding to a journal whose text does not parse replaces that text with a journal
      holding only the new entry: the unreadable entries are lost. */
  lemma AddOverCorrupt(e: JournalEvent)
    ensures AddEvent(Corrupt, e) == (Stored([e]), true)
  {
  }

  /** `clearEvents`: removes the key unconditionally. */
  function ClearEvents(store: EventStore): (r: (EventStore, bool))
    ensures r.1
    ensures GetEvents(r.0) == []
  {
    (Missing, true)
  }

  /** Adds a batch, `es[0]` first. */
  function AddAll(store: EventStore, es: seq<JournalEvent>): EventStore
    decreases |es|
  {
    if |es| == 0 then store else AddAll(AddEvent(store, es[0]).0, es[1..])
  }

  lemma {:induction false} AddAllIsPushAll(store: EventStore, es: seq<JournalEvent>)
    ensures |es| > 0 ==> GetEvents(AddAll(store, es)) == Lists.PushAll(GetEvents(store), es, MaxEvents)
    decreases |es|
  {
    if |es| > 0 {
      var next := AddEvent(store, es[0]).0;
      AddAllIsPushAll(next, es[1..]);
    }
  }

  /** Adding any number of events to an empty journal keeps exactly the 1000 most recently
      added, newest first: 1005 additions evict the first five. */
  lemma AddManyKeepsNewest(es: seq<JournalEvent>)
    ensures |GetEvents(AddAll(Missing, es))| == Min(|es|, MaxEvents)
    ensures forall i :: 0 <= i < |GetEvents(AddAll(Missing, es))| ==>
              GetEvents(AddAll(Missing, es))[i] == es[|es| - 1 - i]
  {
    if |es| > 0 {
      AddAllIsPushAll(Missing, es);
      Lists.PushAllKeepsNewest([], es, MaxEvents);
      assert Lists.Reverse(es) + [] == Lists.Reverse(es);
    }
  }

  predicate IsDanger(e: JournalEvent) { e.eventType == "danger" }
  predicate IsWarning(e: JournalEvent) { e.eventType == "warning" }
  predicate IsNormal(e: JournalEvent) { e.eventType == "normal" }
  /** Test entries are recognised by type or by flag, so they also sit in a level bucket. */
  predicate IsTestEntry(e: JournalEvent) { e.eventType == "test" || e.isTest }

  datatype Statistics = Statistics(
    total: nat,
    danger: nat,
    warning: nat,
    normal: nat,
    test: nat,
    lastEvent: Option<int>)

  /** `getStatistics`, computed from the stored list on every call. */
  function GetStatistics(store: EventStore): (s: Statistics)
    ensures s.total == |GetEvents(store)|
    ensures s.danger + s.warning + s.normal <= s.total
    ensures s.test <= s.total
    ensures s.lastEvent.None? <==> |GetEvents(store)| == 0
    ensures s.lastEvent.Some? ==> s.lastEvent.value == GetEvents(store)[0].timestamp
  {
    var events := GetEvents(store);
    Lists.CountExclusive(events, IsDanger, IsWarning, IsNormal);
    Statistics(
      |events|,
      Lists.Count(events, IsDanger),
      Lists.Count(events, IsWarning),
      Lists.Count(events, IsNormal),
      Lists.Count(events, IsTestEntry),
      if |events| > 0 then Some(events[0].timestamp) else None)
  }

  /** Each bucket counts exactly the positions whose entry has that type; the test bucket
      counts the entries typed "test" or flagged as tests. */
  lemma StatisticsByPosition(store: EventStore)
    ensures GetStatistics(store).danger == |set i | 0 <= i < |GetEvents(store)| && GetEvents(store)[i].eventType == "danger"|
    ensures GetStatistics(store).warning == |set i | 0 <= i < |GetEvents(store)| && GetEvents(store)[i].eventType == "warning"|
    ensures GetStatistics(store).normal == |set i | 0 <= i < |GetEvents(store)| && GetEvents(store)[i].eventType == "normal"|
    ensures GetStatistics(store).test ==
              |set i | 0 <= i < |GetEvents(store)| && (GetEvents(store)[i].eventType == "test" || GetEvents(store)[i].isTest)|
  {
    var events := GetEvents(store);
    Lists.CountIsIndexSet(events, IsDanger);
    Lists.CountIsIndexSet(events, IsWarning);
    Lists.CountIsIndexSet(events, IsNormal);
    Lists.CountIsIndexSet(events, IsTestEntry);
    assert Lists.IndicesWhere(events, IsDanger) == set i | 0 <= i < |events| && events[i].eventType == "danger";
    assert Lists.IndicesWhere(events, IsWarning) == set i | 0 <= i < |events| && events[i].eventType == "warning";
    assert Lists.IndicesWhere(events, IsNormal) == set i | 0 <= i < |events| && events[i].eventType == "normal";
    assert Lists.IndicesWhere(events, IsTestEntry) ==
           set i | 0 <= i < |events| && (events[i].eventType == "test" || events[i].isTest);
  }

  /** After `clearEvents` the journal reads as empty, with no last event and an empty export. */
  lemma ClearResetsStatistics(store: EventStore, dateText: int -> string, timeText: int -> string)
    ensures GetStatistics(ClearEvents(store).0) == Statistics(0, 0, 0, 0, 0, None)
    ensures ExportToCsv(ClearEvents(store).0, dateText, timeText) == ""
  {
  }

  /** `getEventTypeText`'s table. */
  const TypeLabels: map<string, string> :=
    map["danger" := "Авария", "warning" := "Предупреждение", "normal" := "Норма", "test" := "Тест"]

  /** `getEventTypeText`: the label of a known type; any other key comes back unchanged
      (every label is non-empty, so `typeMap[type] || type` only falls through on unknown keys). */
  function EventTypeText(t: string): (caption: string)
    ensures t in TypeLabels ==> caption == TypeLabels[t] && caption != ""
    ensures t !in TypeLabels ==> caption == t
  {
    if t in TypeLabels then TypeLabels[t] else t
  }

  /** Different known types get different labels. */
  lemma TypeLabelsDistinct(a: string, b: string)
    requires a in TypeLabels && b in TypeLabels && a != b
    ensures EventTypeText(a) != EventTypeText(b)
  {
  }

  /** Column titles of the export, in column order. */
  const CsvHeader: seq<string> :=
    ["Дата", "Время", "Датчик", "Зона", "Тип", "Значение", "Оператор", "Описание", "Подтверждено"]

  /** The nine cells of one row. Date and time come from the locale formatters
      (`toLocaleDateString`/`toLocaleTimeString`), which are parameters here. */
  function CsvCells(e: JournalEvent, dateText: int -> string, timeText: int -> string): (cells: seq<string>)
    ensures |cells| == |CsvHeader|
  {
    [dateText(e.timestamp), timeText(e.timestamp), e.sensor, e.zone, EventTypeText(e.eventType),
     e.value, e.operator, e.description, if e.acknowledged then "Да" else "Нет"]
  }

  /** Wraps a cell in double quotes; quotes inside the cell are not doubled. */
  function Quote(cell: string): string
  {
    "\"" + cell + "\""
  }

  /** Cells quoted one by one and joined with commas. */
  function QuotedRecord(cells: seq<string>): string
  {
    Text.Join(seq(|cells|, i requires 0 <= i < |cells| => Quote(cells[i])), ",")
  }

  function CsvRow(e: JournalEvent, dateText: int -> string, timeText: int -> string): string
  {
    QuotedRecord(CsvCells(e, dateText, timeText))
  }

  /** The header line (unquoted) followed by one row per entry, in journal order. */
  function CsvLines(events: seq<JournalEvent>, dateText: int -> string, timeText: int -> string): (lines: seq<string>)
    ensures |lines| == |events| + 1
  {
    [Text.Join(CsvHeader, ",")] + seq(|events|, k requires 0 <= k < |events| => CsvRow(events[k], dateText, timeText))
  }

  /** `exportToCSV`: the empty string for an empty journal, and only then. */
  function ExportToCsv(store: EventStore, dateText: int -> string, timeText: int -> string): (csv: string)
    ensures csv == "" <==> |GetEvents(store)| == 0
  {
    var events := GetEvents(store);
    if |events| == 0 then ""
    else
      var lines := CsvLines(events, dateText, timeText);
      Text.JoinStartsWithFirst(lines, "\n");
      Text.Join(lines, "\n")
  }

  /** No cell of any entry contains a line break. */
  predicate SingleLineCells(events: seq<JournalEvent>, dateText: int -> string, timeText: int -> string)
  {
    forall k, i :: 0 <= k < |events| && 0 <= i < |CsvHeader| ==> '\n' !in CsvCells(events[k], dateText, timeText)[i]
  }

  lemma HeaderSingleLine()
    ensures '\n' !in Text.Join(CsvHeader, ",")
  {
    Text.JoinAvoids(CsvHeader, ",", '\n');
  }

  /** A record whose cells hold no line break is a single line. */
  lemma RecordSingleLine(cells: seq<string>)
    requires forall i :: 0 <= i < |cells| ==> '\n' !in cells[i]
    ensures '\n' !in QuotedRecord(cells)
  {
    var quoted := seq(|cells|, i requires 0 <= i < |cells| => Quote(cells[i]));
    assert forall i :: 0 <= i < |quoted| ==> quoted[i] == "\"" + cells[i] + "\"";
    Text.JoinAvoids(quoted, ",", '\n');
  }

  /** An entry's row is one line when none of its cells holds a line break. */
  lemma RowSingleLine(e: JournalEvent, dateText: int -> string, timeText: int -> string)
    requires forall i :: 0 <= i < |CsvHeader| ==> '\n' !in CsvCells(e, dateText, timeText)[i]
    ensures '\n' !in CsvRow(e, dateText, timeText)
  {
    RecordSingleLine(CsvCells(e, dateText, timeText));
  }

  lemma LinesSingle(events: seq<JournalEvent>, dateText: int -> string, timeText: int -> string)
    requires SingleLineCells(events, dateText, timeText)
    ensures forall j :: 0 <= j < |events| + 1 ==> '\n' !in CsvLines(events, dateText, timeText)[j]
  {
    var lines := CsvLines(events, dateText, timeText);
    forall j | 0 <= j < |lines|
      ensures '\n' !in lines[j]
    {
      if j == 0 {
        HeaderSingleLine();
      } else {
        assert lines[j] == CsvRow(events[j - 1], dateText, timeText);
        RowSingleLine(events[j - 1], dateText, timeText);
      }
    }
  }

  /** A non-empty export has exactly one line more than the journal has entries: the
      header first, then the row of entry k on line k + 1 — as long as no cell contains
      a line break of its own. */
  lemma ExportLines(store: EventStore, dateText: int -> string, timeText: int -> string)
    requires |GetEvents(store)| > 0
    requires SingleLineCells(GetEvents(store), dateText, timeText)
    ensures Text.Split(ExportToCsv(store, dateText, timeText), '\n') == CsvLines(GetEvents(store), dateText, timeText)
    ensures |Text.Split(ExportToCsv(store, dateText, timeText), '\n')| == |GetEvents(store)| + 1
  {
    var events := GetEvents(store);
    var lines := CsvLines(events, dateText, timeText);
    LinesSingle(events, dateText, timeText);
    Text.SplitJoin(lines, '\n');
  }

  /** Without quote doubling a row does not determine its cells: one cell holding `a","b`
      renders exactly like the two cells `a` and `b`. */
  lemma QuotedRecordAmbiguous()
    ensures QuotedRecord(["a\",\"b"]) == QuotedRecord(["a", "b"])
  {
    var one := seq(1, i requires 0 <= i < 1 => Quote(["a\",\"b"][i]));
    var two := seq(2, i requires 0 <= i < 2 => Quote(["a", "b"][i]));
    assert one[0] == Quote("a\",\"b") == "\"a\",\"b\"";
    assert one == ["\"a\",\"b\""];
    assert two[0] == Quote("a") == "\"a\"";
    assert two[1] == Quote("b") == "\"b\"";
    assert two == ["\"a\"", "\"b\""];
    assert two[1..] == ["\"b\""];
    assert Text.Join(two, ",") == "\"a\"" + "," + "\"b\"";
  }
}
