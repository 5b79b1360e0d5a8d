/**
 * The event synthesis of `save_ics`: from one house's schedule object
 * (date string -> waste types) to the calendar that would be written.
 * `uuid5(NAMESPACE_DNS, seed)` and the clock are parameters; the iCalendar
 * byte serialisation is not modelled.
 */
module Ics {
  import opened Optional
  import opened Text
  import opened JsonData
  import opened Dates
  import opened Seqs

  /** Calendar-level properties. */
  const ProductId: string := "-//OZO Svoz Odpadu//CZ"
  const CalendarVersion: string := "2.0"
  const PublishMethod: string := "PUBLISH"

  /** `COLORS`: lower-cased waste type -> colour. */
  const Colors: seq<(string, string)> := [
    ("bio", "#8B4513"),
    ("pap\U{ED}r", "#0000FF"),
    ("plasty", "#FFFF00"),
    ("sm\U{11B}sn\U{FD} odpad", "#000000"),
    ("sklo", "#008000"),
    ("singlestream", "#FFA500")
  ]

  /** Lower-cased labels that mark a holiday rather than a pickup. */
  const Holidays: seq<string> := ["velikonoce", "v\U{E1}noce"]

  /** A reading of `datetime.now()`. */
  datatype Instant = Instant(micros: int)

  /** One `VEVENT`; `color` and `appleColor` are the `COLOR` and `X-APPLE-CALENDAR-COLOR` properties. */
  datatype Event = Event(
    summary: string,
    dtstart: Date,
    dtend: Date,
    dtstamp: Instant,
    categories: seq<string>,
    uid: string,
    color: Option<string>,
    appleColor: Option<string>)

  datatype Calendar = Calendar(prodid: string, version: string, name: string, methodName: string, events: seq<Event>)

  function LookupColor(table: seq<(string, string)>, key: string): Option<string>
  {
    if table == [] then None
    else if table[0].0 == key then Some(table[0].1)
    else LookupColor(table[1..], key)
  }

  /** `COLORS.get(type_name.lower())`. */
  function ColorOf(kind: string): Option<string>
  {
    LookupColor(Colors, Lower(kind))
  }

  predicate IsHoliday(kind: string)
  {
    Lower(kind) in Holidays
  }

  predicate IsPickup(kind: string)
  {
    !IsHoliday(kind)
  }

  /** `f"{path}_{date_str}_{type_name}"`. */
  function UidSeed(path: string, dateStr: string, kind: string): string
  {
    path + "_" + dateStr + "_" + kind
  }

  function MakeEvent(uuid: string -> string, path: string, dateStr: string, d: Date, kind: string, now: Instant): Event
  {
    var color := ColorOf(kind);
    Event(kind, d, d, now, [kind], uuid(UidSeed(path, dateStr, kind)), color, color)
  }

  /** The waste types of one date: a dict gives its keys, a list its items, anything else nothing. */
  function Labels(waste: Json): seq<Json>
  {
    match waste
    case Obj(fields) => seq(|fields|, i requires 0 <= i < |fields| => Str(fields[i].0))
    case Arr(items) => items
    case _ => []
  }

  /**
   * The inner loop over the waste types of a parsed date. A kind that is
   * not a string makes `.lower()` raise; the `except` then abandons the rest
   * of this date, keeping the events already added.
   */
  function LabelEvents(uuid: string -> string, path: string, dateStr: string, d: Date, labels: seq<Json>, now: Instant): seq<Event>
  {
    if labels == [] then []
    else
      match labels[0]
      case Str(l) =>
        (if IsHoliday(l) then [] else [MakeEvent(uuid, path, dateStr, d, l, now)])
        + LabelEvents(uuid, path, dateStr, d, labels[1..], now)
      case _ => []
  }

  /** One `(date_str, waste)` entry; a date that does not parse contributes nothing. */
  function EntryEvents(uuid: string -> string, path: string, dateStr: string, waste: Json, now: Instant): seq<Event>
  {
    match ParseDate(dateStr)
    case None => []
    case Some(d) => LabelEvents(uuid, path, dateStr, d, Labels(waste), now)
  }

  /** The loop body for one `(date_str, waste)` entry, as a function of the entry. */
  function EntryStep(uuid: string -> string, path: string, now: Instant): ((string, Json)) -> seq<Event>
  {
    (entry: (string, Json)) => EntryEvents(uuid, path, entry.0, entry.1, now)
  }

  /** The outer loop over `events.items()`, in key order. */
  function ScheduleEvents(uuid: string -> string, path: string, schedule: seq<(string, Json)>, now: Instant): seq<Event>
  {
    ConcatMap(schedule, EntryStep(uuid, path, now))
  }

  /** `save_ics(path, events, title)` without the write: the calendar it would serialise. */
  function Synthesize(uuid: string -> string, path: string, schedule: seq<(string, Json)>, title: string, now: Instant): Calendar
  {
    Calendar(ProductId, CalendarVersion, title, PublishMethod, ScheduleEvents(uuid, path, schedule, now))
  }

  // ---------------------------------------------------------------------
  // Properties

  /** The colour table read as a relation: a kind gets a colour exactly when its lower-case form is listed. */
  lemma {:induction false} LookupColorSpec(table: seq<(string, string)>, key: string)
    ensures LookupColor(table, key).Some? <==> exists i :: 0 <= i < |table| && table[i].0 == key
    ensures LookupColor(table, key).Some? ==> (key, LookupColor(table, key).value) in table
    decreases |table|
  {
    if table != [] && table[0].0 != key {
      LookupColorSpec(table[1..], key);
      if exists i :: 0 <= i < |table| && table[i].0 == key {
        var i :| 0 <= i < |table| && table[i].0 == key;
        assert table[1..][i - 1].0 == key;
      }
      if LookupColor(table, key).Some? {
        assert (key, LookupColor(table, key).value) in table[1..];
      }
    }
  }

  /** `"bio"` (in any case) is brown, `"Papír"` blue; an unknown kind such as `"kovy"` gets no colour. */
  lemma ColorExamples()
    ensures ColorOf("bio") == Some("#8B4513")
    ensures ColorOf("BIO") == Some("#8B4513")
    ensures ColorOf("Pap\U{ED}r") == Some("#0000FF")
    ensures ColorOf("kovy") == None
  {
    assert Lower("BIO") == "bio";
    assert Lower("bio") == "bio";
    assert Lower("Pap\U{ED}r") == "pap\U{ED}r";
    assert Lower("kovy") == "kovy";
  }

  /** Holiday placeholders are recognised whatever their case. */
  lemma HolidayExamples()
    ensures IsHoliday("V\U{E1}noce") && IsHoliday("VELIKONOCE") && !IsHoliday("bio")
  {
    assert Lower("V\U{E1}noce") == "v\U{E1}noce";
    assert Lower("VELIKONOCE") == "velikonoce";
    assert Lower("bio") == "bio";
  }

  /** What every event of date `dateStr` looks like. */
  predicate EventOfEntry(uuid: string -> string, path: string, now: Instant, dateStr: string, labels: seq<Json>, e: Event)
  {
    && ParseDate(dateStr) == Some(e.dtstart)
    && e.dtend == e.dtstart
    && Str(e.summary) in labels
    && IsPickup(e.summary)
    && e.categories == [e.summary]
    && e.dtstamp == now
    && e.uid == uuid(UidSeed(path, dateStr, e.summary))
    && e.color == ColorOf(e.summary)
    && e.appleColor == e.color
  }

  lemma {:induction false} LabelEventsSound(uuid: string -> string, path: string, dateStr: string, d: Date, labels: seq<Json>, now: Instant)
    requires ParseDate(dateStr) == Some(d)
    ensures forall e :: e in LabelEvents(uuid, path, dateStr, d, labels, now) ==> EventOfEntry(uuid, path, now, dateStr, labels, e)
    decreases |labels|
  {
    if labels != [] && labels[0].Str? {
      LabelEventsSound(uuid, path, dateStr, d, labels[1..], now);
      forall e | e in LabelEvents(uuid, path, dateStr, d, labels[1..], now)
        ensures Str(e.summary) in labels
      {
        assert Str(e.summary) in labels[1..];
      }
    }
  }

  /**
   * Every synthesised event is a whole-day pickup on a date that parsed, its
   * title is its only category, it carries the run's timestamp, its UID is
   * the hash of path, raw date string and kind, and both colour properties
   * are the table colour of its kind.
   */
  lemma ScheduleEventsSound(uuid: string -> string, path: string, schedule: seq<(string, Json)>, now: Instant)
    ensures forall e :: e in ScheduleEvents(uuid, path, schedule, now) ==>
      exists k :: 0 <= k < |schedule| && EventOfEntry(uuid, path, now, schedule[k].0, Labels(schedule[k].1), e)
  {
    forall e | e in ScheduleEvents(uuid, path, schedule, now)
      ensures exists k :: 0 <= k < |schedule| && EventOfEntry(uuid, path, now, schedule[k].0, Labels(schedule[k].1), e)
    {
      ConcatMapMember(schedule, EntryStep(uuid, path, now), e);
      var k :| 0 <= k < |schedule| && e in EntryStep(uuid, path, now)(schedule[k]);
      var d := ParseDate(schedule[k].0).value;
      LabelEventsSound(uuid, path, schedule[k].0, d, Labels(schedule[k].1), now);
    }
  }

  /** The leading run of string labels: the ones `.lower()` is reached for. */
  function StringPrefix(labels: seq<Json>): seq<string>
  {
    if labels == [] || !labels[0].Str? then [] else [labels[0].s] + StringPrefix(labels[1..])
  }

  function Summaries(events: seq<Event>): seq<string>
  {
    seq(|events|, i requires 0 <= i < |events| => events[i].summary)
  }

  /**
   * On a date that parses, there is exactly one event per non-holiday kind,
   * in kind order, up to the first kind that is not a string.
   */
  lemma {:induction false} LabelEventsSummaries(uuid: string -> string, path: string, dateStr: string, d: Date, labels: seq<Json>, now: Instant)
    ensures Summaries(LabelEvents(uuid, path, dateStr, d, labels, now)) == Filter(IsPickup, StringPrefix(labels))
    decreases |labels|
  {
    if labels != [] && labels[0].Str? {
      var l := labels[0].s;
      var rest := LabelEvents(uuid, path, dateStr, d, labels[1..], now);
      LabelEventsSummaries(uuid, path, dateStr, d, labels[1..], now);
      assert StringPrefix(labels) == [l] + StringPrefix(labels[1..]);
      if IsHoliday(l) {
        assert LabelEvents(uuid, path, dateStr, d, labels, now) == rest;
      } else {
        var e := MakeEvent(uuid, path, dateStr, d, l, now);
        assert LabelEvents(uuid, path, dateStr, d, labels, now) == [e] + rest;
        assert Summaries([e] + rest) == [l] + Summaries(rest);
      }
    }
  }

  /** A date that parses yields one event per pickup kind; one that does not yields none. */
  lemma EntryEventsSummaries(uuid: string -> string, path: string, dateStr: string, waste: Json, now: Instant)
    ensures ParseDate(dateStr).None? ==> EntryEvents(uuid, path, dateStr, waste, now) == []
    ensures ParseDate(dateStr).Some? ==>
      Summaries(EntryEvents(uuid, path, dateStr, waste, now)) == Filter(IsPickup, StringPrefix(Labels(waste)))
  {
    if ParseDate(dateStr).Some? {
      LabelEventsSummaries(uuid, path, dateStr, ParseDate(dateStr).value, Labels(waste), now);
    }
  }

  /** Every key of a waste dict is a string, so the labels read from it are all of its keys. */
  lemma {:induction false} KeysArePrefix(fields: seq<(string, Json)>)
    ensures StringPrefix(Labels(Obj(fields))) == Keys(fields)
    decreases |fields|
  {
    if fields != [] {
      KeysArePrefix(fields[1..]);
      assert Labels(Obj(fields))[1..] == Labels(Obj(fields[1..]));
      assert Keys(fields) == [fields[0].0] + Keys(fields[1..]);
    }
  }

  /**
   * What one dated entry contributes, by the shape of its waste value: a
   * dict one event per pickup key in key order, a list one event per pickup
   * label up to the first item that is not a string, any other value none.
   */
  lemma EntryEventsByShape(uuid: string -> string, path: string, dateStr: string, waste: Json, now: Instant)
    ensures ParseDate(dateStr).Some? && waste.Obj? ==>
      Summaries(EntryEvents(uuid, path, dateStr, waste, now)) == Filter(IsPickup, Keys(waste.fields))
    ensures ParseDate(dateStr).Some? && waste.Arr? ==>
      Summaries(EntryEvents(uuid, path, dateStr, waste, now)) == Filter(IsPickup, StringPrefix(waste.items))
    ensures !waste.Obj? && !waste.Arr? ==> EntryEvents(uuid, path, dateStr, waste, now) == []
  {
    EntryEventsSummaries(uuid, path, dateStr, waste, now);
    if waste.Obj? {
      KeysArePrefix(waste.fields);
    }
  }

  /** The events of a concatenated schedule are the events of its parts, in order. */
  lemma ScheduleEventsAppend(uuid: string -> string, path: string, a: seq<(string, Json)>, b: seq<(string, Json)>, now: Instant)
    ensures ScheduleEvents(uuid, path, a + b, now) == ScheduleEvents(uuid, path, a, now) + ScheduleEvents(uuid, path, b, now)
  {
    ConcatMapAppend(a, b, EntryStep(uuid, path, now));
  }

  /** An entry whose date does not parse can be removed without changing any other event. */
  lemma UnparseableEntryIgnored(uuid: string -> string, path: string, schedule: seq<(string, Json)>, k: nat, now: Instant)
    requires k < |schedule| && ParseDate(schedule[k].0).None?
    ensures ScheduleEvents(uuid, path, schedule, now) == ScheduleEvents(uuid, path, schedule[..k] + schedule[k + 1..], now)
  {
    ConcatMapSkip(schedule, EntryStep(uuid, path, now), k);
  }

  /**
   * Within one calendar the UID seed is unambiguous: a date string that
   * parses contains no `_`, so the seed determines the date string and the
   * kind.
   */
  lemma UidSeedInjective(path: string, d1: string, k1: string, d2: string, k2: string)
    requires ParseDate(d1).Some? && ParseDate(d2).Some?
    requires UidSeed(path, d1, k1) == UidSeed(path, d2, k2)
    ensures d1 == d2 && k1 == k2
  {
    ParseDateSound(d1);
    ParseDateSound(d2);
    assert '_' !in d1 && '_' !in d2;
    var n := |path| + 1;
    var s1, s2 := UidSeed(path, d1, k1), UidSeed(path, d2, k2);
    assert s1[n..] == d1 + ['_'] + k1;
    assert s2[n..] == d2 + ['_'] + k2;
    SplitAtSeparator(d1, k1, d2, k2, '_');
  }

  // ---------------------------------------------------------------------
  // Examples

  const ExampleDay: Date := Date(2024, 3, 15)

  lemma ExampleLabels()
    ensures Labels(Obj([("bio", Obj([])), ("plasty", Obj([]))])) == [Str("bio"), Str("plasty")]
  {
  }

  lemma PickupExamples()
    ensures IsPickup("bio") && IsPickup("plasty") && IsPickup("sklo")
    ensures ColorOf("plasty") == Some("#FFFF00")
  {
    assert Lower("bio") == "bio";
    assert Lower("plasty") == "plasty";
    assert Lower("sklo") == "sklo";
    ColorExamples();
  }

  function ExampleEvent(uuid: string -> string, path: string, kind: string, color: string, now: Instant): Event
  {
    Event(kind, ExampleDay, ExampleDay, now, [kind], uuid(UidSeed(path, "2024-03-15", kind)), Some(color), Some(color))
  }

  lemma ExampleEntry(uuid: string -> string, path: string, now: Instant)
    ensures EntryEvents(uuid, path, "2024-03-15", Obj([("bio", Obj([])), ("plasty", Obj([]))]), now) ==
      [ExampleEvent(uuid, path, "bio", "#8B4513", now), ExampleEvent(uuid, path, "plasty", "#FFFF00", now)]
  {
    IsoExample();
    ExampleLabels();
    ExampleLabelEvents(uuid, path, now);
  }

  lemma ExampleLabelEvents(uuid: string -> string, path: string, now: Instant)
    ensures LabelEvents(uuid, path, "2024-03-15", ExampleDay, [Str("bio"), Str("plasty")], now) ==
      [ExampleEvent(uuid, path, "bio", "#8B4513", now), ExampleEvent(uuid, path, "plasty", "#FFFF00", now)]
  {
    var labels := [Str("bio"), Str("plasty")];
    PickupExamples();
    ColorExamples();
    HolidayExamples();
    assert MakeEvent(uuid, path, "2024-03-15", ExampleDay, "bio", now) == ExampleEvent(uuid, path, "bio", "#8B4513", now);
    assert MakeEvent(uuid, path, "2024-03-15", ExampleDay, "plasty", now) == ExampleEvent(uuid, path, "plasty", "#FFFF00", now);
    var bio := ExampleEvent(uuid, path, "bio", "#8B4513", now);
    var plasty := ExampleEvent(uuid, path, "plasty", "#FFFF00", now);
    assert labels[1..] == [Str("plasty")];
    assert LabelEvents(uuid, path, "2024-03-15", ExampleDay, labels[1..], now) == [plasty];
  }

  /**
   * The schedule `{"2024-03-15": {"bio": {}, "plasty": {}}}` becomes a
   * calendar of two whole-day events on 15 March 2024, one per waste type,
   * coloured from the table, with UIDs from the seeds
   * `<path>_2024-03-15_bio` and `<path>_2024-03-15_plasty`.
   */
  lemma SynthesizeExample(uuid: string -> string, path: string, title: string, now: Instant)
    ensures Synthesize(uuid, path, [("2024-03-15", Obj([("bio", Obj([])), ("plasty", Obj([]))]))], title, now) ==
      Calendar("-//OZO Svoz Odpadu//CZ", "2.0", title, "PUBLISH",
        [ExampleEvent(uuid, path, "bio", "#8B4513", now), ExampleEvent(uuid, path, "plasty", "#FFFF00", now)])
  {
    var schedule := [("2024-03-15", Obj([("bio", Obj([])), ("plasty", Obj([]))]))];
    ExampleEntry(uuid, path, now);
    assert ScheduleEvents(uuid, path, schedule, now) == EntryEvents(uuid, path, "2024-03-15", schedule[0].1, now) + ConcatMap(schedule[1..], EntryStep(uuid, path, now));
  }

  /**
   * A list of labels: the holiday placeholder is skipped, and a label that is
   * not a string ends the date, so `"sklo"` after it is lost.
   */
  lemma LabelListExample(uuid: string -> string, path: string, now: Instant)
    ensures Summaries(EntryEvents(uuid, path, "2024-03-15", Arr([Str("V\U{E1}noce"), Str("bio"), Num(5), Str("sklo")]), now)) == ["bio"]
  {
    var labels := [Str("V\U{E1}noce"), Str("bio"), Num(5), Str("sklo")];
    IsoExample();
    HolidayExamples();
    PickupExamples();
    LabelEventsSummaries(uuid, path, "2024-03-15", ExampleDay, labels, now);
    assert labels[1..][1..] == [Num(5), Str("sklo")];
    assert StringPrefix(labels) == ["V\U{E1}noce", "bio"];
    assert Filter(IsPickup, ["bio"]) == ["bio"];
    assert ["V\U{E1}noce", "bio"][1..] == ["bio"];
  }
}
