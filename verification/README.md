# OZO waste-collection calendar generator — a Dafny model

`generator.py` walks the public waste-collection endpoint of OZO Ostrava. The walk goes:

- municipality (`obec`), then
- district (`obvod`), then
- street (`ulice`), then
- house number (`cisp`).

For every address whose collection schedule is available, the script writes an iCalendar file. It also writes an `index.json` catalog of the files. This project models the decision-making part of that script as pure Dafny functions and proves what the script promises about its output:

- **`slugify`** (`slug.dfy`, on top of `text.dfy`). The NFD step and the ASCII drop come first. Then the script:
  - keeps `[A-Za-z0-9_]`, whitespace and `-`;
  - strips, using Python's `str.isspace` set;
  - lowercases;
  - collapses each run of `-` and whitespace into one `_`.

  The result is always a slug over `[a-z0-9_]`, and slugging a slug changes nothing.
- **`get_json`** (`upstream.dfy`). Whatever the transport or the body, the answer is a JSON value. A failure becomes `{}`, and so does a body that:
  - is blank after stripping,
  - carries a PHP `Notice:` or `Warning:`, or
  - does not decode.
- **Event synthesis of `save_ics`** (`ics.dfy`, with `dates.dfy` for `strptime('%Y-%m-%d')`). A schedule object maps date strings to waste types and becomes an ordered list of events:
  - one whole-day event per non-holiday waste type on a date that parses;
  - the UID is derived from `path_date_label`;
  - the colour comes from the fixed table.
- **The discovery walk of `run`** (`discovery.dfy`, with `naming.dfy` for paths and titles). This covers:
  - the bootstrap check;
  - the list-or-keys district normalisation;
  - the empty-street fallback;
  - the identity dict built from a street list;
  - the `ov`-or-id house number;
  - the append condition of the catalog.

  The walk is written once, generic over what happens at a house. This yields the two-phase reading: run = discover all houses, then harvest each.

The generator's Python semantics are explicit in the model:

- **JSON objects.** They are ordered key/value sequences, so iteration follows insertion order.
- **Truthiness.** `not x` and `if x:` follow Python's rules.
- **Key equality.** `True == 1` for dictionary keys.
- **Unhashable keys.** A list or dict used as a key raises.
- **Iterating a string.** It yields its characters.
- **Uncaught exceptions.** An exception that escapes `run` ends the run; this is the `Crashed` outcome. Examples are `.keys()` on a non-dict and `dily.get` on a non-dict.
- **Caught exceptions.** An exception inside `save_ics`'s `try` drops the rest of that date. This happens for a date that does not parse and for a label that is not a string.

The parts that lie outside the script are parameters of the model:

- the HTTP exchange (`fetch`, where `None` is a transport error or timeout);
- `response.json()` (`decode`);
- NFD normalisation (`nfd`);
- `str()` of a list or dict (`render`);
- `uuid5` (`uuid`);
- `datetime.now()` (`clock`).

The house number is the only path component that is not slugged. A number containing `/` therefore adds directory levels. Paths still determine their components: `Naming.FilePathInjective` splits a path back into its three slugs and the printed house number.

## Model

| member | source | states |
|---|---|---|
| Slug.Slugify | generator.py:25-29 | For every input text and every NFD function, the result contains only `a`-`z`, `0`-`9` and `_`, so no `/`, `.`, `-` or whitespace. |
| Slug.SlugifyIdempotent | generator.py:25-29 | Slugging an existing slug returns it unchanged, provided NFD leaves ASCII text alone. |
| Slug.SlugifyWord | generator.py:27-29 | A single word of `[A-Za-z0-9_]` is only lower-cased. |
| Slug.SlugifyExample | generator.py:27-29 | `"  Ostrava - Jih "` becomes `ostrava_jih`: surrounding spaces go, and the ` - ` run becomes one `_`. |
| Slug.CollapseNoSeparator | generator.py:29 | After the final substitution, no `-` or whitespace is left. |
| Slug.CollapseUnchanged | generator.py:29 | Text without `-` or whitespace passes the final substitution unchanged. |
| Text.StripSlice | generator.py:28 | `.strip()` returns a contiguous slice of its input. Only whitespace lies before and after the slice, and the slice neither starts nor ends with whitespace. |
| Text.StripEmpty | generator.py:35-37 | A stripped text is empty exactly when the original consists only of whitespace. |
| Text.ContainsAfterStrip | generator.py:35-37 | Stripping does not change whether a marker without surrounding whitespace occurs in the text. |
| Upstream.GetJson | generator.py:31-41 | A transport error or a timeout yields the empty object. |
| Upstream.ClassifySpec | generator.py:33-41 | The raw body yields `{}` in four cases: it is all whitespace, it contains `Notice:`, it contains `Warning:`, or decoding fails. Otherwise the decoded value is returned unchanged. |
| Upstream.ClassifyNonEmpty | generator.py:35-39 | A non-empty answer is exactly what the decoder produced from a body without PHP diagnostics. |
| Upstream.WarningExample | generator.py:37-38 | `"Warning: undefined index"` yields `{}` whatever the decoder would say. |
| Dates.ParseDateSound | generator.py:57 | A date string that parses denotes a valid calendar date and consists only of digits, `-` and spaces (so it has no `_`). |
| Dates.ParseIsoFormat | generator.py:57 | The zero-padded `YYYY-MM-DD` text of any valid date parses back to that date. |
| Dates.UnpaddedExample | generator.py:57 | `"2024-3-5"` parses to 5 March 2024, as `strptime` accepts unpadded fields. |
| Dates.InvalidDayExamples | generator.py:57 | `"2024-02-30"` and `"2023-02-29"` do not parse. |
| Ics.LookupColorSpec | generator.py:16-23 | A label gets a colour exactly when its lower-case form is a key of the table, and the colour is that key's entry. |
| Ics.ColorExamples | generator.py:16-23 | `bio` and `BIO` get `#8B4513`, `Papír` gets `#0000FF`, and the unknown `kovy` gets no colour. |
| Ics.HolidayExamples | generator.py:68-69 | `Vánoce` and `VELIKONOCE` are holidays in any case; `bio` is not. |
| Ics.KeysArePrefix | generator.py:60-61 | The keys of a waste dict are all strings, so every key becomes a label, in key order. |
| Ics.EntryEventsByShape | generator.py:55-69 | A dated entry whose waste is a dict yields one event per pickup key, in key order. A waste list yields one event per pickup label, up to its first item that is not a string. Any other waste yields no event. |
| Ics.ScheduleEventsSound | generator.py:55-90 | Every event belongs to some schedule entry whose date string parses to the event's date, and `dtend` equals `dtstart`. Its summary is one of the entry's labels and is not a holiday, and `categories` is `[summary]`. It carries the one timestamp of the call. Its UID is `uuid(path_date_label)`. `COLOR` and `X-APPLE-CALENDAR-COLOR` both equal the table colour of the label. |
| Ics.LabelEventsSummaries | generator.py:66-92 | Event summaries are the non-holiday labels in label order, one event each, up to the first label that is not a string. |
| Ics.EntryEventsSummaries | generator.py:55-69 | A date that does not parse yields no event. A date that parses yields one event per pickup label, up to the first label that is not a string. |
| Ics.UnparseableEntryIgnored | generator.py:56-57 | Removing an entry whose date does not parse leaves every other event, and their order, unchanged. |
| Ics.ScheduleEventsAppend | generator.py:55 | The events of a concatenated schedule are the events of each part, in order. |
| Ics.UidSeedInjective | generator.py:81-82 | Within one file, equal UID seeds of parseable dates mean equal date strings and equal labels. |
| Ics.SynthesizeExample | generator.py:47-90 | `{"2024-03-15": {"bio": {}, "plasty": {}}}` becomes a `PUBLISH` calendar with two events on 15 March 2024. Their colours are `#8B4513` and `#FFFF00`, and their UIDs come from `<path>_2024-03-15_bio` and `<path>_2024-03-15_plasty`. |
| Ics.LabelListExample | generator.py:60-69 | For the labels `["Vánoce", "bio", 5, "sklo"]`, the holiday is skipped and the number ends the date, leaving only `bio`. |
| Naming.FilePathInjective | generator.py:138 | Two equal calendar paths have equal municipality, district and street slugs and equal printed house numbers. |
| Naming.ShowNumInjective | generator.py:138 | Different integer house numbers print differently. |
| Naming.NatStringValue | generator.py:138 | The decimal text of a number reads back as that number. |
| Naming.FilePathExample | generator.py:138 | Ostrava / Jih / Nadrazni / 12 is filed as `kalendare/ostrava/jih/nadrazni/12.ics`. |
| Naming.TitleExample | generator.py:139 | The same house is titled `Svoz Ostrava, Nadrazni 12`. |
| Discovery.BootstrapSpec | generator.py:100-107 | The walk starts exactly when the init answer is a dict whose `obce` entry is a dict, and then visits that dict's keys in order. A falsy answer, or a dict without `obce`, returns early. |
| Discovery.RunAbortsWithoutBootstrap | generator.py:100-103 | A failed, blank, PHP-polluted or undecodable init answer ends the run early: no calendar and no catalog. |
| Discovery.DistrictShapesAgree | generator.py:114 | A dict of districts and the list of its keys lead to the same walk. |
| Discovery.DistrictStepSpec | generator.py:116-127 | An empty street answer makes the district walk the single street named `obvod`, and raises when `obvod` is unhashable. A street dict is walked through its values in order. A list of distinct names is walked name by name, in order. A list holding an unhashable item raises, and so does a number. |
| Discovery.IdentityDictOfDistinct | generator.py:123 | A list of distinct street names becomes the dict mapping each name to itself, in list order. |
| Discovery.IdentityDictDefined | generator.py:123 | The comprehension succeeds exactly when every item is hashable. |
| Discovery.IdentityDictIsIdentity | generator.py:123 | For hashable items, the keys are pairwise different under Python's `==` and every value equals its key. Every item has a key `==` to it. Every key holds the last item `==` to it. The keys are the first member of each `==` class, in order of first occurrence, which fixes the order in which the streets are visited. |
| Discovery.IdentityDictExample | generator.py:123 | `[1, True]` becomes the single entry `1: True`. |
| Discovery.HouseNumbersSpec | generator.py:132-134 | The house numbers of a street dict exist exactly when every house record is a dict. There is then one per house, in order: the record's `ov` entry if it has one, otherwise the house id. |
| Discovery.StreetStepSpec | generator.py:127-134 | A street whose house answer is not a dict is skipped and contributes nothing. A street whose answer is a dict raises unless every house record is a dict. Otherwise the street yields one house per record, in record order, numbered by the record's `ov` entry or else the house id, and the per-house work runs on those houses in that order. |
| Discovery.HarvestRecords | generator.py:132-150 | The records of the harvested houses are the records of the houses whose schedule is a non-empty dict, in discovery order. |
| Discovery.WalkIsDiscoverThenLeaf | generator.py:107-153 | Whatever is done per house, the walk ends as the bare discovery walk ends. On completion it yields the per-house results of the discovered houses, in order. |
| Discovery.RunIsDiscoverThenHarvest | generator.py:98-153 | `run` is discovery followed by one harvest per discovered house. |
| Discovery.CatalogSpec | generator.py:105-157 | The catalog is written exactly when discovery completes, and the run returns early exactly when discovery does. The catalog holds one record per discovered house whose schedule is a non-empty dict, in discovery order and never sorted. |

## Left out

- HTTP (`requests.get`, the 15-second timeout) and `time.sleep`: the upstream is the `fetch` parameter. The upstream is assumed to answer a repeated query the same way within one run.
- File-system effects (`os.makedirs`, writing the `.ics` bytes, dumping `index.json`) are not modelled. The model returns the calendars and records that would be written.
- Files written before an uncaught exception are not tracked. A crashed run is only `Crashed`.
- `icalendar` serialisation (`to_ical`) is not modelled. Only the calendar and event properties are.
- Strings are sequences of Unicode scalar values. Lone surrogates, which Python's `json` produces from an unpaired `\uD8xx` escape, are not modelled. In the source such a string makes `uuid.uuid5` raise inside `save_ics`'s `try`, dropping the rest of that date, and makes writing a file or `index.json` fail outside any `try`. The model's `uuid` parameter is total, and no file write can fail.
- `if color:` is modelled as "the table has an entry", because every colour in the table is a non-empty string.
- `uuid5`/SHA-1 is the `uuid` parameter. Identical seeds give identical UIDs because `uuid` is a function.
- Unicode NFD normalisation is the `nfd` parameter. `Slug.SlugifyIdempotent` holds under the assumption that NFD leaves ASCII text unchanged.
- `str.lower` is concrete only for:
  - ASCII;
  - Latin-1 capitals;
  - the Czech capitals of Latin Extended-A.

  Other Unicode case mappings leave the character unchanged.
- `strptime`'s `\d` also matches non-ASCII decimal digits in Python. The model accepts ASCII digits only.
- JSON floats are not modelled: numbers are integers.
- `str()` of a JSON list or dict is the `render` parameter.
- Decoded objects are taken as the decoder's dicts: their keys are distinct. Duplicate keys in a response body are not merged.
- `datetime.now()` is the `clock` parameter, a function of the calendar's file path. All events of one calendar share that stamp.
- Discovery.Harvest: the stamp is `clock(path)`. So two calendars written to the same path in one run share a stamp. That happens when two street names slug alike, or when a street dict lists one name twice. The source calls `datetime.now()` once per `save_ics` call, so the two files may differ in `DTSTAMP`. Keying the clock by call would mean threading a counter through the whole walk, and `DTSTAMP` is the only field affected.
- Progress `print`s are not modelled.
- The municipality filter at `generator.py:110` is commented out, so every municipality is walked. The loops at lines 107, 116, 125 and 132 issue one query at a time. `catalog` is appended at line 144 and written at line 157 without sorting. The model follows this order.
