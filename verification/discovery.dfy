/**
 * The discovery walk of `run`: municipality -> district -> street -> house
 * -> schedule, with the shape normalisations the generator applies at each
 * level, the records it collects for `index.json` and the calendars it
 * writes. Uncaught exceptions end the run; they are the `Crashed` outcome.
 */
module Discovery {
  import opened Optional
  import opened JsonData
  import opened Seqs
  import opened Upstream
  import opened Ics
  import opened Naming

  /**
   * Everything outside the generator: the HTTP exchange, `response.json()`,
   * NFD normalisation, `str()` of a JSON list or dict, `uuid5` and the
   * clock, read as a function of the path of the calendar being built.
   */
  datatype Env = Env(
    fetch: Query -> Option<string>,
    decode: string -> Option<Json>,
    nfd: string -> string,
    render: Json -> string,
    uuid: string -> string,
    clock: string -> Instant)

  /** A house reached by the walk, with its number already chosen. */
  datatype House = House(obec: string, obvod: Json, ulice: Json, cisp: Json)

  /** One `index.json` entry. */
  datatype Record = Record(obec: string, obvod: Json, ulice: Json, cislo: Json, path: string)

  /** A calendar file the run writes, with the catalog record that points at it. */
  datatype Filed = Filed(record: Record, calendar: Calendar)

  /** How a run ends: the bootstrap check returned early, an exception escaped, or the loops finished. */
  datatype Outcome<T> = Aborted | Crashed | Completed(items: seq<T>)

  function Ask(env: Env, q: Query): Json
  {
    GetJson(env.fetch, env.decode, q)
  }

  // ---------------------------------------------------------------------
  // Shape handling, level by level

  /**
   * `if not init_data or 'obce' not in init_data: return`, then
   * `init_data['obce'].keys()`. Membership in a list compares elements, in
   * a string searches for a substring, and on a number raises; subscripting
   * a list or string with `'obce'`, or calling `.keys()` on a non-dict,
   * raises.
   */
  function Bootstrap(init: Json): Outcome<string>
  {
    if !Truthy(init) then Aborted
    else
      match init
      case Obj(fields) =>
        (match Lookup(fields, "obce")
         case None => Aborted
         case Some(Obj(names)) => Completed(Keys(names))
         case Some(_) => Crashed)
      case Arr(items) => if Str("obce") in items then Crashed else Aborted
      case Str(s) => if Text.Contains(s, "obce") then Crashed else Aborted
      case _ => Crashed
  }

  /** `obvody if isinstance(obvody, list) else obvody.keys()`. */
  function DistrictList(obvody: Json): Option<seq<Json>>
  {
    match obvody
    case Arr(items) => Some(items)
    case Obj(fields) => Some(seq(|fields|, i requires 0 <= i < |fields| => Str(fields[i].0)))
    case _ => None
  }

  /** Position of the first key `==` to `u`, or `|d|` when there is none. */
  function FindKey(d: seq<(Json, Json)>, u: Json): (k: nat)
    ensures k <= |d|
    ensures k < |d| ==> PyEq(d[k].0, u)
    ensures forall i :: 0 <= i < k ==> !PyEq(d[i].0, u)
  {
    if d == [] then 0
    else if PyEq(d[0].0, u) then 0
    else
      var k := 1 + FindKey(d[1..], u);
      assert forall i :: 1 <= i < k ==> d[i] == d[1..][i - 1];
      k
  }

  /** `d[u] = u`: an equal key keeps its place and its original key object, and takes the new value. */
  function Insert(d: seq<(Json, Json)>, u: Json): seq<(Json, Json)>
  {
    var k := FindKey(d, u);
    if k < |d| then d[k := (d[k].0, u)] else d + [(u, u)]
  }

  /** `{u: u for u in items}`; an unhashable item raises. */
  function IdentityDict(items: seq<Json>): Option<seq<(Json, Json)>>
  {
    if items == [] then Some([])
    else
      var last := items[|items| - 1];
      if !Hashable(last) then None
      else
        match IdentityDict(items[..|items| - 1])
        case None => None
        case Some(d) => Some(Insert(d, last))
  }

  /**
   * The street dictionary of a district: an empty answer falls back to
   * `{obvod: obvod}`, a dict is used as it is, anything else iterable is
   * turned into an identity dict (a string iterates over its characters),
   * and iterating a number raises.
   */
  function StreetEntries(obvod: Json, data: Json): Option<seq<(Json, Json)>>
  {
    if !Truthy(data) then
      if Hashable(obvod) then Some([(obvod, obvod)]) else None
    else
      match data
      case Obj(fields) => Some(seq(|fields|, i requires 0 <= i < |fields| => (Str(fields[i].0), fields[i].1)))
      case Arr(items) => IdentityDict(items)
      case Str(s) => IdentityDict(seq(|s|, i requires 0 <= i < |s| => Str([s[i]])))
      case _ => None
  }

  /** `dily.get('ov', id_domu)`; a house record that is not a dict raises. */
  function HouseNumber(id: string, dily: Json): Option<Json>
  {
    match dily
    case Obj(fields) =>
      (match Lookup(fields, "ov")
       case Some(v) => Some(v)
       case None => Some(Str(id)))
    case _ => None
  }

  function HouseNumberStep(entry: (string, Json)): Option<seq<Json>>
  {
    match HouseNumber(entry.0, entry.1)
    case None => None
    case Some(c) => Some([c])
  }

  /** The house numbers of one street; an answer that is not a dict is skipped. */
  function HouseNumbers(cisla: Json): Option<seq<Json>>
  {
    match cisla
    case Obj(fields) => FlatMapOpt(fields, HouseNumberStep)
    case _ => Some([])
  }

  // ---------------------------------------------------------------------
  // The walk, parametrised by what is done at each house

  function HouseStep<T>(leaf: House -> seq<T>, obec: string, obvod: Json, ulice: Json): Json -> Option<seq<T>>
  {
    cisp => Some(leaf(House(obec, obvod, ulice, cisp)))
  }

  function StreetStep<T>(env: Env, leaf: House -> seq<T>, obec: string, obvod: Json, ulice: Json): Option<seq<T>>
  {
    match HouseNumbers(Ask(env, Houses(obec, obvod, ulice)))
    case None => None
    case Some(cs) => FlatMapOpt(cs, HouseStep(leaf, obec, obvod, ulice))
  }

  function StreetStepFn<T>(env: Env, leaf: House -> seq<T>, obec: string, obvod: Json): ((Json, Json)) -> Option<seq<T>>
  {
    (entry: (Json, Json)) => StreetStep(env, leaf, obec, obvod, entry.1)
  }

  function DistrictStep<T>(env: Env, leaf: House -> seq<T>, obec: string, obvod: Json): Option<seq<T>>
  {
    match StreetEntries(obvod, Ask(env, Streets(obec, obvod)))
    case None => None
    case Some(entries) => FlatMapOpt(entries, StreetStepFn(env, leaf, obec, obvod))
  }

  function DistrictStepFn<T>(env: Env, leaf: House -> seq<T>, obec: string): Json -> Option<seq<T>>
  {
    obvod => DistrictStep(env, leaf, obec, obvod)
  }

  function MunicipalityStep<T>(env: Env, leaf: House -> seq<T>, obec: string): Option<seq<T>>
  {
    match DistrictList(Ask(env, Districts(obec)))
    case None => None
    case Some(districts) => FlatMapOpt(districts, DistrictStepFn(env, leaf, obec))
  }

  function MunicipalityStepFn<T>(env: Env, leaf: House -> seq<T>): string -> Option<seq<T>>
  {
    obec => MunicipalityStep(env, leaf, obec)
  }

  function Walk<T>(env: Env, leaf: House -> seq<T>): Outcome<T>
  {
    match Bootstrap(Ask(env, Init))
    case Aborted => Aborted
    case Crashed => Crashed
    case Completed(names) =>
      match FlatMapOpt(names, MunicipalityStepFn(env, leaf))
      case None => Crashed
      case Some(items) => Completed(items)
  }

  // ---------------------------------------------------------------------
  // What happens at a house

  function PathOf(env: Env, h: House): string
  {
    FilePath(env.nfd, env.render, h.obec, h.obvod, h.ulice, h.cisp)
  }

  function TitleOf(env: Env, h: House): string
  {
    Title(env.render, h.obec, h.ulice, h.cisp)
  }

  /** The schedule query answered with a non-empty dict. */
  predicate Scheduled(env: Env, h: House)
  {
    var svoz := Ask(env, Schedule(h.obvod, h.ulice, h.cisp));
    Truthy(svoz) && svoz.Obj?
  }

  function RecordOf(env: Env, h: House): Record
  {
    Record(h.obec, h.obvod, h.ulice, h.cisp, PathOf(env, h))
  }

  /** Fetch the schedule; on a non-empty dict write the calendar and keep its record. */
  function Harvest(env: Env, h: House): seq<Filed>
  {
    match Ask(env, Schedule(h.obvod, h.ulice, h.cisp))
    case Obj(fields) =>
      if fields == [] then []
      else
        var path := PathOf(env, h);
        [Filed(RecordOf(env, h), Synthesize(env.uuid, path, fields, TitleOf(env, h), env.clock(path)))]
    case _ => []
  }

  function HarvestLeaf(env: Env): House -> seq<Filed>
  {
    h => Harvest(env, h)
  }

  function DiscoverLeaf(): House -> seq<House>
  {
    h => [h]
  }

  /** `run()`: the calendars written, in order, and through them the catalog. */
  function Run(env: Env): Outcome<Filed>
  {
    Walk(env, HarvestLeaf(env))
  }

  /** The houses the walk reaches, in order, without fetching any schedule. */
  function Discover(env: Env): Outcome<House>
  {
    Walk(env, DiscoverLeaf())
  }

  function Records(fs: seq<Filed>): seq<Record>
  {
    seq(|fs|, i requires 0 <= i < |fs| => fs[i].record)
  }

  /** The list dumped to `index.json`; nothing is written unless the walk completes. */
  function Catalog(o: Outcome<Filed>): Option<seq<Record>>
  {
    match o
    case Completed(fs) => Some(Records(fs))
    case _ => None
  }

  // ---------------------------------------------------------------------
  // Two phases: discovering the houses, then harvesting their schedules

  function LiftOutcome<A, B>(o: Outcome<A>, leaf: A -> seq<B>): Outcome<B>
  {
    match o
    case Aborted => Aborted
    case Crashed => Crashed
    case Completed(xs) => Completed(ConcatMap(xs, leaf))
  }

  lemma StreetFuse<T>(env: Env, leaf: House -> seq<T>, obec: string, obvod: Json, ulice: Json)
    ensures StreetStep(env, leaf, obec, obvod, ulice) == Lift(StreetStep(env, DiscoverLeaf(), obec, obvod, ulice), leaf)
  {
    match HouseNumbers(Ask(env, Houses(obec, obvod, ulice)))
    case None =>
    case Some(cs) =>
      forall i | 0 <= i < |cs|
        ensures HouseStep(leaf, obec, obvod, ulice)(cs[i]) == Lift(HouseStep(DiscoverLeaf(), obec, obvod, ulice)(cs[i]), leaf)
      {
        var h := House(obec, obvod, ulice, cs[i]);
        assert HouseStep(DiscoverLeaf(), obec, obvod, ulice)(cs[i]) == Some(DiscoverLeaf()(h)) == Some([h]);
        assert HouseStep(leaf, obec, obvod, ulice)(cs[i]) == Some(leaf(h));
        assert [h][1..] == [];
        assert ConcatMap([h], leaf) == leaf(h) + ConcatMap([h][1..], leaf) == leaf(h);
        assert Lift(Some([h]), leaf) == Some(ConcatMap([h], leaf));
      }
      FlatMapFuse(cs, HouseStep(DiscoverLeaf(), obec, obvod, ulice), HouseStep(leaf, obec, obvod, ulice), leaf);
  }

  lemma DistrictFuse<T>(env: Env, leaf: House -> seq<T>, obec: string, obvod: Json)
    ensures DistrictStep(env, leaf, obec, obvod) == Lift(DistrictStep(env, DiscoverLeaf(), obec, obvod), leaf)
  {
    match StreetEntries(obvod, Ask(env, Streets(obec, obvod)))
    case None =>
    case Some(entries) =>
      forall i | 0 <= i < |entries|
        ensures StreetStepFn(env, leaf, obec, obvod)(entries[i]) == Lift(StreetStepFn(env, DiscoverLeaf(), obec, obvod)(entries[i]), leaf)
      {
        StreetFuse(env, leaf, obec, obvod, entries[i].1);
      }
      FlatMapFuse(entries, StreetStepFn(env, DiscoverLeaf(), obec, obvod), StreetStepFn(env, leaf, obec, obvod), leaf);
  }

  lemma MunicipalityFuse<T>(env: Env, leaf: House -> seq<T>, obec: string)
    ensures MunicipalityStep(env, leaf, obec) == Lift(MunicipalityStep(env, DiscoverLeaf(), obec), leaf)
  {
    match DistrictList(Ask(env, Districts(obec)))
    case None =>
    case Some(districts) =>
      forall i | 0 <= i < |districts|
        ensures DistrictStepFn(env, leaf, obec)(districts[i]) == Lift(DistrictStepFn(env, DiscoverLeaf(), obec)(districts[i]), leaf)
      {
        DistrictFuse(env, leaf, obec, districts[i]);
      }
      FlatMapFuse(districts, DistrictStepFn(env, DiscoverLeaf(), obec), DistrictStepFn(env, leaf, obec), leaf);
  }

  /**
   * Whatever is done at each house, the walk ends the way the bare discovery
   * walk ends, and on completion its result is the per-house results of the
   * discovered houses, in discovery order.
   */
  lemma WalkIsDiscoverThenLeaf<T>(env: Env, leaf: House -> seq<T>)
    ensures Walk(env, leaf) == LiftOutcome(Discover(env), leaf)
  {
    match Bootstrap(Ask(env, Init))
    case Aborted =>
    case Crashed =>
    case Completed(names) =>
      forall i | 0 <= i < |names|
        ensures MunicipalityStepFn(env, leaf)(names[i]) == Lift(MunicipalityStepFn(env, DiscoverLeaf())(names[i]), leaf)
      {
        MunicipalityFuse(env, leaf, names[i]);
      }
      FlatMapFuse(names, MunicipalityStepFn(env, DiscoverLeaf()), MunicipalityStepFn(env, leaf), leaf);
  }

  /** `run()` is discovery followed by one harvest per discovered house. */
  lemma RunIsDiscoverThenHarvest(env: Env)
    ensures Run(env) == LiftOutcome(Discover(env), HarvestLeaf(env))
  {
    WalkIsDiscoverThenLeaf(env, HarvestLeaf(env));
  }

  function ScheduledFn(env: Env): House -> bool
  {
    h => Scheduled(env, h)
  }

  function RecordFn(env: Env): House -> Record
  {
    h => RecordOf(env, h)
  }

  function RecordsOf(env: Env, hs: seq<House>): seq<Record>
  {
    Map(hs, RecordFn(env))
  }

  /** One house yields one filed calendar exactly when its schedule is a non-empty dict. */
  lemma HarvestSpec(env: Env, h: House)
    ensures |Harvest(env, h)| == (if Scheduled(env, h) then 1 else 0)
    ensures Scheduled(env, h) ==> Harvest(env, h)[0].record == Record(h.obec, h.obvod, h.ulice, h.cisp, PathOf(env, h))
    ensures Scheduled(env, h) ==>
      (Harvest(env, h)[0].calendar ==
       Synthesize(env.uuid, PathOf(env, h), Ask(env, Schedule(h.obvod, h.ulice, h.cisp)).fields, TitleOf(env, h), env.clock(PathOf(env, h))))
  {
  }

  lemma RecordsAppend(a: seq<Filed>, b: seq<Filed>)
    ensures Records(a + b) == Records(a) + Records(b)
  {
  }

  lemma RecordsOfCons(env: Env, h: House, hs: seq<House>)
    ensures RecordsOf(env, [h] + hs) == [RecordOf(env, h)] + RecordsOf(env, hs)
  {
    MapCons(h, hs, RecordFn(env));
  }

  /** The records of the harvested houses are those of the scheduled houses, in order. */
  lemma {:induction false} HarvestRecords(env: Env, hs: seq<House>)
    ensures Records(ConcatMap(hs, HarvestLeaf(env))) == RecordsOf(env, Filter(ScheduledFn(env), hs))
    decreases |hs|
  {
    if hs != [] {
      var h := hs[0];
      var tail := ConcatMap(hs[1..], HarvestLeaf(env));
      HarvestRecords(env, hs[1..]);
      HarvestSpec(env, h);
      assert ConcatMap(hs, HarvestLeaf(env)) == Harvest(env, h) + tail;
      RecordsAppend(Harvest(env, h), tail);
      if Scheduled(env, h) {
        assert Records(Harvest(env, h)) == [RecordOf(env, h)];
        assert Filter(ScheduledFn(env), hs) == [h] + Filter(ScheduledFn(env), hs[1..]);
        RecordsOfCons(env, h, Filter(ScheduledFn(env), hs[1..]));
      } else {
        assert Records(Harvest(env, h)) == [];
        assert Filter(ScheduledFn(env), hs) == Filter(ScheduledFn(env), hs[1..]);
      }
    }
  }

  /**
   * The catalog: written exactly when discovery completes, and then it holds
   * one record per discovered house whose schedule is a non-empty dict, in
   * discovery order, each pointing at that house's calendar file.
   */
  lemma CatalogSpec(env: Env)
    ensures Catalog(Run(env)).Some? <==> Discover(env).Completed?
    ensures Run(env).Aborted? <==> Discover(env).Aborted?
    ensures Discover(env).Completed? ==>
      Catalog(Run(env)) == Some(RecordsOf(env, Filter(ScheduledFn(env), Discover(env).items)))
  {
    RunIsDiscoverThenHarvest(env);
    if Discover(env).Completed? {
      HarvestRecords(env, Discover(env).items);
    }
  }

  // ---------------------------------------------------------------------
  // Shapes

  /**
   * The walk starts exactly when the bootstrap answer is a dict whose
   * `obce` entry is a dict, and then visits its keys in order; a truthy
   * answer without an `obce` key, like a falsy one, ends the run early.
   */
  lemma BootstrapSpec(init: Json)
    ensures Bootstrap(init).Completed? <==> init.Obj? && Lookup(init.fields, "obce").Some? && Lookup(init.fields, "obce").value.Obj?
    ensures Bootstrap(init).Completed? ==> Bootstrap(init).items == Keys(Lookup(init.fields, "obce").value.fields)
    ensures !Truthy(init) ==> Bootstrap(init) == Aborted
    ensures init.Obj? && !HasKey(init.fields, "obce") ==> Bootstrap(init) == Aborted
  {
  }

  /**
   * No usable bootstrap answer (a transport error, a PHP notice or warning,
   * a blank body, an undecodable body) means no catalog and no calendar.
   */
  lemma RunAbortsWithoutBootstrap(env: Env)
    requires || env.fetch(Init).None?
             || (forall i :: 0 <= i < |env.fetch(Init).value| ==> Text.IsWhitespace(env.fetch(Init).value[i]))
             || Text.Contains(env.fetch(Init).value, NoticeMarker)
             || Text.Contains(env.fetch(Init).value, WarningMarker)
             || env.decode(env.fetch(Init).value).None?
    ensures Run(env) == Aborted && Catalog(Run(env)) == None
  {
    if env.fetch(Init).Some? {
      ClassifySpec(env.decode, env.fetch(Init).value);
    }
    assert Ask(env, Init) == EmptyObject;
  }

  /** A dict of districts and the list of its keys lead to the same walk. */
  lemma DistrictShapesAgree(fields: seq<(string, Json)>)
    ensures DistrictList(Obj(fields)) == DistrictList(Arr(seq(|fields|, i requires 0 <= i < |fields| => Str(fields[i].0))))
  {
  }

  predicate DistinctStrings(items: seq<Json>)
  {
    && (forall i :: 0 <= i < |items| ==> items[i].Str?)
    && (forall i, j :: 0 <= i < j < |items| ==> items[i] != items[j])
  }

  function Diagonal(items: seq<Json>): seq<(Json, Json)>
  {
    seq(|items|, i requires 0 <= i < |items| => (items[i], items[i]))
  }


  /** A list of distinct street names becomes the dict mapping each name to itself, in list order. */
  lemma {:induction false} IdentityDictOfDistinct(items: seq<Json>)
    requires DistinctStrings(items)
    ensures IdentityDict(items) == Some(Diagonal(items))
    decreases |items|
  {
    if items != [] {
      var n := |items| - 1;
      var init := items[..n];
      assert DistinctStrings(init);
      IdentityDictOfDistinct(init);
      IdentityDictSnoc(items);
      InsertFresh(items);
    } else {
      assert Diagonal(items) == [];
    }
  }

  /** A name different from all earlier ones is appended as a new key. */
  lemma InsertFresh(items: seq<Json>)
    requires items != [] && DistinctStrings(items)
    ensures Insert(Diagonal(items[..|items| - 1]), items[|items| - 1]) == Diagonal(items)
  {
    var n := |items| - 1;
    var d := Diagonal(items[..n]);
    var u := items[n];
    forall i | 0 <= i < |d| ensures !PyEq(d[i].0, u) {
      assert d[i].0 == items[i];
    }
    assert FindKey(d, u) == |d|;
    forall i | 0 <= i < |items| ensures (d + [(u, u)])[i] == Diagonal(items)[i] {
      if i < n {
        assert d[i] == (items[i], items[i]);
      }
    }
    assert d + [(u, u)] == Diagonal(items);
  }

  /** The comprehension over `items` is the one over all but the last item, followed by one assignment. */
  lemma IdentityDictSnoc(items: seq<Json>)
    requires items != [] && Hashable(items[|items| - 1]) && IdentityDict(items[..|items| - 1]).Some?
    ensures IdentityDict(items) == Some(Insert(IdentityDict(items[..|items| - 1]).value, items[|items| - 1]))
  {
  }

  /** The identity dict is built exactly when every item is hashable. */
  lemma {:induction false} IdentityDictDefined(items: seq<Json>)
    ensures IdentityDict(items).Some? <==> forall i :: 0 <= i < |items| ==> Hashable(items[i])
    decreases |items|
  {
    if items != [] {
      var n := |items| - 1;
      IdentityDictDefined(items[..n]);
      if forall i :: 0 <= i < n ==> Hashable(items[..n][i]) {
        assert forall i :: 0 <= i < n ==> Hashable(items[i]);
      } else {
        var i :| 0 <= i < n && !Hashable(items[..n][i]);
        assert !Hashable(items[i]);
      }
    }
  }


  /** Keys are pairwise different under Python's `==`, and every value equals its key. */
  predicate IsIdentityDict(d: seq<(Json, Json)>)
  {
    && (forall i :: 0 <= i < |d| ==> PyEq(d[i].0, d[i].1))
    && (forall i, j :: 0 <= i < j < |d| ==> !PyEq(d[i].0, d[j].0))
  }

  lemma PyEqSymmetric(a: Json, b: Json)
    ensures PyEq(a, b) <==> PyEq(b, a)
  {
  }

  lemma InsertKeepsIdentity(d: seq<(Json, Json)>, u: Json)
    requires IsIdentityDict(d) && Hashable(u)
    ensures IsIdentityDict(Insert(d, u))
    ensures exists i :: 0 <= i < |Insert(d, u)| && Insert(d, u)[i].1 == u
  {
    var k := FindKey(d, u);
    if k < |d| {
      assert Insert(d, u)[k].1 == u;
    } else {
      var r := d + [(u, u)];
      forall i, j | 0 <= i < j < |r| ensures !PyEq(r[i].0, r[j].0) {
        if j == |d| {
          PyEqSymmetric(r[i].0, u);
        }
      }
      assert r[|d|].1 == u;
    }
  }

  /** Every item has a key `==` to it. */
  predicate Covers(d: seq<(Json, Json)>, items: seq<Json>)
  {
    forall i :: 0 <= i < |items| ==> exists k :: 0 <= k < |d| && PyEq(d[k].0, items[i])
  }

  /** `items[j]` is `==` to `key`, and no later item is. */
  predicate LastEqual(items: seq<Json>, key: Json, j: int)
  {
    && 0 <= j < |items|
    && PyEq(key, items[j])
    && (forall j' :: j < j' < |items| ==> !PyEq(key, items[j']))
  }

  /** Every key is mapped to the last item `==` to it. */
  predicate LastWins(d: seq<(Json, Json)>, items: seq<Json>)
  {
    forall k :: 0 <= k < |d| ==> HoldsLast(items, d[k])
  }

  /** The entry's value is the last item `==` to its key. */
  predicate HoldsLast(items: seq<Json>, entry: (Json, Json))
  {
    exists j :: 0 <= j < |items| && LastEqual(items, entry.0, j) && entry.1 == items[j]
  }

  /** One more assignment `d[u] = u` keeps every earlier item covered and covers `u`. */
  lemma InsertCovers(d: seq<(Json, Json)>, items: seq<Json>, u: Json)
    requires Covers(d, items) && Hashable(u)
    ensures Covers(Insert(d, u), items + [u])
  {
    var k := FindKey(d, u);
    var r := Insert(d, u);
    var s := items + [u];
    assert forall m :: 0 <= m < |d| ==> r[m].0 == d[m].0;
    assert PyEq(r[k].0, u);
    forall i | 0 <= i < |s| ensures exists m :: 0 <= m < |r| && PyEq(r[m].0, s[i]) {
      if i < |items| {
        var m :| 0 <= m < |d| && PyEq(d[m].0, items[i]);
        assert PyEq(r[m].0, s[i]);
      } else {
        assert PyEq(r[k].0, s[i]);
      }
    }
  }

  /** A key other than `u`'s is not `==` to `u`, so its last item stays the same. */
  lemma OtherKeyUnaffected(d: seq<(Json, Json)>, u: Json, m: nat)
    requires IsIdentityDict(d) && m < |d| && m != FindKey(d, u)
    ensures !PyEq(d[m].0, u)
  {
    var k := FindKey(d, u);
    if k < |d| {
      assert !PyEq(d[m].0, d[k].0) && !PyEq(d[k].0, d[m].0);
    }
  }

  /** One more assignment `d[u] = u` makes `u` the value of its key and leaves the other keys' last items alone. */
  lemma InsertLastWins(d: seq<(Json, Json)>, items: seq<Json>, u: Json)
    requires IsIdentityDict(d) && LastWins(d, items) && Hashable(u)
    ensures LastWins(Insert(d, u), items + [u])
  {
    var k := FindKey(d, u);
    var r := Insert(d, u);
    var s := items + [u];
    assert forall m :: 0 <= m < |d| && m != k ==> r[m] == d[m];
    forall m | 0 <= m < |r| ensures HoldsLast(s, r[m]) {
      if m == k {
        assert LastEqual(s, r[m].0, |items|) && r[m].1 == s[|items|];
      } else {
        assert HoldsLast(items, d[m]);
        var j :| 0 <= j < |items| && LastEqual(items, d[m].0, j) && d[m].1 == items[j];
        OtherKeyUnaffected(d, u, m);
        assert LastEqual(s, r[m].0, j);
      }
    }
  }

  /** The keys of the comprehension's dict are distinct and each holds a value equal to it. */
  lemma {:induction false} IdentityDictKeys(items: seq<Json>)
    requires forall i :: 0 <= i < |items| ==> Hashable(items[i])
    ensures IdentityDict(items).Some? && IsIdentityDict(IdentityDict(items).value)
    ensures items != [] ==> exists i :: 0 <= i < |IdentityDict(items).value| && IdentityDict(items).value[i].1 == items[|items| - 1]
    decreases |items|
  {
    if items != [] {
      var n := |items| - 1;
      var init := items[..n];
      assert forall i :: 0 <= i < n ==> Hashable(init[i]);
      IdentityDictKeys(init);
      IdentityDictSnoc(items);
      InsertKeepsIdentity(IdentityDict(init).value, items[n]);
    }
  }

  /** Every item of the comprehension has a key `==` to it. */
  lemma {:induction false} IdentityDictCovers(items: seq<Json>)
    requires forall i :: 0 <= i < |items| ==> Hashable(items[i])
    ensures IdentityDict(items).Some? && Covers(IdentityDict(items).value, items)
    decreases |items|
  {
    if items != [] {
      var n := |items| - 1;
      var init := items[..n];
      assert forall i :: 0 <= i < n ==> Hashable(init[i]);
      IdentityDictCovers(init);
      IdentityDictSnoc(items);
      InsertCovers(IdentityDict(init).value, init, items[n]);
      SnocSplit(items);
    }
  }

  /** Every key of the comprehension holds the last item `==` to it. */
  lemma {:induction false} IdentityDictLastWins(items: seq<Json>)
    requires forall i :: 0 <= i < |items| ==> Hashable(items[i])
    ensures IdentityDict(items).Some? && LastWins(IdentityDict(items).value, items)
    decreases |items|
  {
    if items != [] {
      var n := |items| - 1;
      var init := items[..n];
      assert forall i :: 0 <= i < n ==> Hashable(init[i]);
      IdentityDictKeys(init);
      IdentityDictLastWins(init);
      IdentityDictSnoc(items);
      InsertLastWins(IdentityDict(init).value, init, items[n]);
      SnocSplit(items);
    }
  }

  /**
   * For any list of hashable items the comprehension yields an identity
   * dict (distinct keys, each mapped to a value equal to it) in which
   * every item has a key and every key holds the last item `==` to it.
   */
  lemma IdentityDictIsIdentity(items: seq<Json>)
    requires forall i :: 0 <= i < |items| ==> Hashable(items[i])
    ensures IdentityDict(items).Some? && IsIdentityDict(IdentityDict(items).value)
    ensures Covers(IdentityDict(items).value, items)
    ensures LastWins(IdentityDict(items).value, items)
    ensures DictKeys(IdentityDict(items).value) == FirstOccurrences(items)
    ensures items != [] ==> exists i :: 0 <= i < |IdentityDict(items).value| && IdentityDict(items).value[i].1 == items[|items| - 1]
  {
    IdentityDictKeys(items);
    var d := IdentityDict(items).value;
    assert Covers(d, items) by {
      IdentityDictCovers(items);
    }
    assert LastWins(d, items) by {
      IdentityDictLastWins(items);
    }
    assert DictKeys(d) == FirstOccurrences(items) by {
      IdentityDictKeyOrder(items);
    }
  }

  /** The keys of a dict, in insertion order. */
  function DictKeys(d: seq<(Json, Json)>): seq<Json>
  {
    seq(|d|, i requires 0 <= i < |d| => d[i].0)
  }

  /** Some item before position `n` is `==` to `items[n]`. */
  predicate SeenBefore(items: seq<Json>, n: nat)
    requires n < |items|
  {
    exists i :: 0 <= i < n && PyEq(items[i], items[n])
  }

  /** The items that have no earlier `==` item, in order: the first member of each `==` class. */
  function FirstOccurrences(items: seq<Json>): seq<Json>
    decreases |items|
  {
    if items == [] then []
    else
      var n := |items| - 1;
      if SeenBefore(items, n) then FirstOccurrences(items[..n])
      else FirstOccurrences(items[..n]) + [items[n]]
  }

  lemma {:induction false} FirstOccurrencesIn(items: seq<Json>)
    ensures forall x :: x in FirstOccurrences(items) ==> x in items
    decreases |items|
  {
    if items != [] {
      var n := |items| - 1;
      FirstOccurrencesIn(items[..n]);
      assert forall x :: x in items[..n] ==> x in items;
    }
  }

  /** One more assignment `d[u] = u` adds `u` as a key exactly when no earlier item is `==` to it. */
  lemma InsertKeyOrder(d: seq<(Json, Json)>, items: seq<Json>)
    requires items != [] && Hashable(items[|items| - 1])
    requires DictKeys(d) == FirstOccurrences(items[..|items| - 1])
    requires Covers(d, items[..|items| - 1])
    ensures DictKeys(Insert(d, items[|items| - 1])) == FirstOccurrences(items)
  {
    var n := |items| - 1;
    if FindKey(d, items[n]) < |d| {
      KnownKeyKept(d, items);
    } else {
      NewKeyAppended(d, items);
    }
  }

  /** A value `==` to an existing key only replaces that key's value: the keys stay as they are. */
  lemma KnownKeyKept(d: seq<(Json, Json)>, items: seq<Json>)
    requires items != [] && FindKey(d, items[|items| - 1]) < |d|
    requires DictKeys(d) == FirstOccurrences(items[..|items| - 1])
    ensures DictKeys(Insert(d, items[|items| - 1])) == FirstOccurrences(items)
  {
    var n := |items| - 1;
    var init, u := items[..n], items[n];
    var k := FindKey(d, u);
    FirstOccurrencesIn(init);
    assert d[k].0 == DictKeys(d)[k];
    assert d[k].0 in init;
    var i :| 0 <= i < n && init[i] == d[k].0;
    assert PyEq(items[i], u);
    assert SeenBefore(items, n);
    assert DictKeys(Insert(d, u)) == DictKeys(d);
  }

  /** A value `==` to no existing key is appended as a new key. */
  lemma NewKeyAppended(d: seq<(Json, Json)>, items: seq<Json>)
    requires items != [] && FindKey(d, items[|items| - 1]) == |d|
    requires DictKeys(d) == FirstOccurrences(items[..|items| - 1])
    requires Covers(d, items[..|items| - 1])
    ensures DictKeys(Insert(d, items[|items| - 1])) == FirstOccurrences(items)
  {
    var n := |items| - 1;
    var init, u := items[..n], items[n];
    forall i | 0 <= i < n ensures !PyEq(items[i], u) {
      var m :| 0 <= m < |d| && PyEq(d[m].0, init[i]);
      assert !PyEq(d[m].0, u);
    }
    assert !SeenBefore(items, n);
    assert DictKeys(d + [(u, u)]) == DictKeys(d) + [u];
  }

  /** The comprehension's keys are the first member of each `==` class, in order of first occurrence. */
  lemma {:induction false} IdentityDictKeyOrder(items: seq<Json>)
    requires forall i :: 0 <= i < |items| ==> Hashable(items[i])
    ensures IdentityDict(items).Some? && DictKeys(IdentityDict(items).value) == FirstOccurrences(items)
    decreases |items|
  {
    if items != [] {
      var n := |items| - 1;
      var init := items[..n];
      assert forall i :: 0 <= i < n ==> Hashable(init[i]);
      IdentityDictKeyOrder(init);
      IdentityDictCovers(init);
      IdentityDictSnoc(items);
      InsertKeyOrder(IdentityDict(init).value, items);
    } else {
      assert DictKeys([]) == [];
    }
  }

  /** `[1, True]` collapses to one street: Python's `==` makes the two keys equal, and the later value wins. */
  lemma IdentityDictExample()
    ensures IdentityDict([Num(1), Bool(true)]) == Some([(Num(1), Bool(true))])
  {
    assert [Num(1), Bool(true)][..1] == [Num(1)];
    assert [Num(1)][..0] == [];
    assert IdentityDict([Num(1)][..0]) == Some([]);
    assert Insert([], Num(1)) == [(Num(1), Num(1))];
    assert IdentityDict([Num(1)]) == Some([(Num(1), Num(1))]);
    assert PyEq(Num(1), Bool(true));
    assert FindKey([(Num(1), Num(1))], Bool(true)) == 0;
    assert Insert([(Num(1), Num(1))], Bool(true)) == [(Num(1), Bool(true))];
    var items := [Num(1), Bool(true)];
    assert items[|items| - 1] == Bool(true) && items[..|items| - 1] == [Num(1)];
  }

  /**
   * The house numbers of a street dict: defined exactly when every house
   * record is a dict, one per house in order, each the record's `ov` entry
   * if it has one and otherwise the house id.
   */
  lemma {:induction false} HouseNumbersSpec(fields: seq<(string, Json)>)
    ensures HouseNumbers(Obj(fields)).Some? <==> forall i :: 0 <= i < |fields| ==> fields[i].1.Obj?
    ensures HouseNumbers(Obj(fields)).Some? ==>
      |HouseNumbers(Obj(fields)).value| == |fields|
      && forall i :: 0 <= i < |fields| ==> HouseNumbers(Obj(fields)).value[i] == OvOrId(fields[i])
    decreases |fields|
  {
    assert HouseNumbers(Obj(fields)).Some? <==> forall i :: 0 <= i < |fields| ==> HouseNumberStep(fields[i]).Some?;
    if fields != [] && HouseNumbers(Obj(fields)).Some? {
      HouseNumbersSpec(fields[1..]);
      var cs := HouseNumbers(Obj(fields)).value;
      var rest := HouseNumbers(Obj(fields[1..])).value;
      assert cs == [HouseNumber(fields[0].0, fields[0].1).value] + rest;
      forall i | 0 <= i < |fields|
        ensures cs[i] == OvOrId(fields[i])
      {
        if i > 0 {
          assert fields[i] == fields[1..][i - 1];
        }
      }
    }
  }

  /** The house number of a house record: its `ov` entry if it has one, otherwise the house id. */
  function OvOrId(entry: (string, Json)): Json
    requires entry.1.Obj?
  {
    if HasKey(entry.1.fields, "ov") then Lookup(entry.1.fields, "ov").value else Str(entry.0)
  }

  /** The houses of one street, one per house record, in order. */
  function StreetHouses(obec: string, obvod: Json, ulice: Json, fields: seq<(string, Json)>): seq<House>
    requires AllDicts(fields)
  {
    seq(|fields|, i requires 0 <= i < |fields| => House(obec, obvod, ulice, OvOrId(fields[i])))
  }

  /** The houses of a list of house numbers, as discovery records them. */
  lemma {:induction false} HousesDiscovered(obec: string, obvod: Json, ulice: Json, cs: seq<Json>)
    ensures FlatMapOpt(cs, HouseStep(DiscoverLeaf(), obec, obvod, ulice)) ==
      Some(seq(|cs|, i requires 0 <= i < |cs| => House(obec, obvod, ulice, cs[i])))
    decreases |cs|
  {
    if cs != [] {
      HousesDiscovered(obec, obvod, ulice, cs[1..]);
      var hs := seq(|cs|, i requires 0 <= i < |cs| => House(obec, obvod, ulice, cs[i]));
      var rest := seq(|cs[1..]|, i requires 0 <= i < |cs[1..]| => House(obec, obvod, ulice, cs[1..][i]));
      assert HouseStep(DiscoverLeaf(), obec, obvod, ulice)(cs[0]) == Some([House(obec, obvod, ulice, cs[0])]);
      assert hs == [House(obec, obvod, ulice, cs[0])] + rest;
    } else {
      assert seq(|cs|, i requires 0 <= i < |cs| => House(obec, obvod, ulice, cs[i])) == [];
    }
  }

  /** Every house record of a street answer is a dict. */
  predicate AllDicts(fields: seq<(string, Json)>)
  {
    forall i :: 0 <= i < |fields| ==> fields[i].1.Obj?
  }

  /**
   * A street whose house answer is not a dict is skipped; a street whose
   * answer is a dict is walked exactly when every house record is a dict.
   */
  lemma StreetStepSpec<T>(env: Env, leaf: House -> seq<T>, obec: string, obvod: Json, ulice: Json)
    ensures !Ask(env, Houses(obec, obvod, ulice)).Obj? ==> StreetStep(env, leaf, obec, obvod, ulice) == Some([])
    ensures Ask(env, Houses(obec, obvod, ulice)).Obj? ==>
      (StreetStep(env, leaf, obec, obvod, ulice).Some? <==> AllDicts(Ask(env, Houses(obec, obvod, ulice)).fields))
    ensures Ask(env, Houses(obec, obvod, ulice)).Obj? && AllDicts(Ask(env, Houses(obec, obvod, ulice)).fields) ==>
      StreetStep(env, DiscoverLeaf(), obec, obvod, ulice) == Some(StreetHouses(obec, obvod, ulice, Ask(env, Houses(obec, obvod, ulice)).fields))
    ensures Ask(env, Houses(obec, obvod, ulice)).Obj? && AllDicts(Ask(env, Houses(obec, obvod, ulice)).fields) ==>
      StreetStep(env, leaf, obec, obvod, ulice) == Some(ConcatMap(StreetHouses(obec, obvod, ulice, Ask(env, Houses(obec, obvod, ulice)).fields), leaf))
  {
    var cisla := Ask(env, Houses(obec, obvod, ulice));
    if cisla.Obj? {
      HouseNumbersSpec(cisla.fields);
      if AllDicts(cisla.fields) {
        var cs := HouseNumbers(cisla).value;
        HousesDiscovered(obec, obvod, ulice, cs);
        assert seq(|cs|, i requires 0 <= i < |cs| => House(obec, obvod, ulice, cs[i])) == StreetHouses(obec, obvod, ulice, cisla.fields);
        StreetFuse(env, leaf, obec, obvod, ulice);
      }
    }
  }

  /** Some item cannot be a dict key. */
  predicate SomeUnhashable(items: seq<Json>)
  {
    exists i :: 0 <= i < |items| && !Hashable(items[i])
  }

  /** The street visited for a dict entry: the query uses the entry's value. */
  function ValueStreetFn<T>(env: Env, leaf: House -> seq<T>, obec: string, obvod: Json): ((string, Json)) -> Option<seq<T>>
  {
    (entry: (string, Json)) => StreetStep(env, leaf, obec, obvod, entry.1)
  }

  /** The street visited for a list item: the query uses the item itself. */
  function NamedStreetFn<T>(env: Env, leaf: House -> seq<T>, obec: string, obvod: Json): Json -> Option<seq<T>>
  {
    ulice => StreetStep(env, leaf, obec, obvod, ulice)
  }

  /**
   * How a district is walked, by the shape of its street answer. An empty
   * answer falls back to the one street named like the district, and
   * raises when that name is unhashable. A street dict is walked through
   * its values in order. A list of distinct names is walked name by name in
   * order, and a list holding an unhashable item raises. A number raises.
   */
  lemma DistrictStepSpec<T>(env: Env, leaf: House -> seq<T>, obec: string, obvod: Json)
    ensures !Truthy(Ask(env, Streets(obec, obvod))) && Hashable(obvod) ==>
      DistrictStep(env, leaf, obec, obvod) == StreetStep(env, leaf, obec, obvod, obvod)
    ensures !Truthy(Ask(env, Streets(obec, obvod))) && !Hashable(obvod) ==>
      DistrictStep(env, leaf, obec, obvod) == None
    ensures Truthy(Ask(env, Streets(obec, obvod))) && Ask(env, Streets(obec, obvod)).Obj? ==>
      DistrictStep(env, leaf, obec, obvod) == FlatMapOpt(Ask(env, Streets(obec, obvod)).fields, ValueStreetFn(env, leaf, obec, obvod))
    ensures Truthy(Ask(env, Streets(obec, obvod))) && Ask(env, Streets(obec, obvod)).Arr? && DistinctStrings(Ask(env, Streets(obec, obvod)).items) ==>
      DistrictStep(env, leaf, obec, obvod) == FlatMapOpt(Ask(env, Streets(obec, obvod)).items, NamedStreetFn(env, leaf, obec, obvod))
    ensures Ask(env, Streets(obec, obvod)).Arr? && SomeUnhashable(Ask(env, Streets(obec, obvod)).items) ==>
      DistrictStep(env, leaf, obec, obvod) == None
    ensures Truthy(Ask(env, Streets(obec, obvod))) && (Ask(env, Streets(obec, obvod)).Bool? || Ask(env, Streets(obec, obvod)).Num?) ==>
      DistrictStep(env, leaf, obec, obvod) == None
  {
    var data := Ask(env, Streets(obec, obvod));
    var f := StreetStepFn(env, leaf, obec, obvod);
    if !Truthy(data) {
      if Hashable(obvod) {
        var entries := [(obvod, obvod)];
        assert DistrictStep(env, leaf, obec, obvod) == FlatMapOpt(entries, f);
        assert entries[1..] == [] && FlatMapOpt(entries[1..], f) == Some([]);
        assert f(entries[0]) == StreetStep(env, leaf, obec, obvod, obvod);
        if f(entries[0]).Some? {
          assert f(entries[0]).value + [] == f(entries[0]).value;
        }
      }
    } else if data.Obj? {
      FlatMapOptPointwise(StreetEntries(obvod, data).value, f, data.fields, ValueStreetFn(env, leaf, obec, obvod));
    } else if data.Arr? {
      IdentityDictDefined(data.items);
      if DistinctStrings(data.items) {
        IdentityDictOfDistinct(data.items);
        FlatMapOptPointwise(Diagonal(data.items), f, data.items, NamedStreetFn(env, leaf, obec, obvod));
      }
    }
  }
}
