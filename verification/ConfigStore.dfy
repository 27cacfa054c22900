/** The configuration store: a config is written as provider -> tier -> entry into
    upsert-only tables and read back as tier -> candidates. */
module ConfigStore {
  import opened Common
  import opened Names

  datatype ModelEntry = ModelEntry(model: string, weight: real, limits: RateLimit)

  datatype RoutingConfig = RoutingConfig(
    refreshIntervalMs: Positive, healthWindowS: Positive, targetLatencyS: real, minWeightFloor: real,
    rngSeedEnv: Option<string>)

  datatype Config = Config(tiers: map<Name, seq<TierEntry>>, routing: RoutingConfig)

  type Row = map<Name, ModelEntry>

  /** The three tables: tier name to fallback tier, provider to its row, the single routing row. */
  datatype Tables = Tables(tiers: map<Name, Option<Name>>, models: map<Name, Row>, routing: Option<RoutingConfig>)

  const NO_ROWS := Tables(map[], map[], None)

  function EntryOf(e: TierEntry): ModelEntry {
    ModelEntry(e.model, e.weight, e.limits)
  }

  function Line(provider: Name, e: ModelEntry): TierEntry {
    TierEntry(provider, e.model, e.weight, e.limits)
  }

  /** The last line of a provider in a candidate list. */
  function LastFor(cands: seq<TierEntry>, p: Name): Option<ModelEntry> {
    if cands == [] then None
    else
      var last := cands[|cands| - 1];
      if last.provider == p then Some(EntryOf(last)) else LastFor(cands[..|cands| - 1], p)
  }

  function Providers(tiers: map<Name, seq<TierEntry>>): set<Name> {
    set n, i | n in tiers && 0 <= i < |tiers[n]| :: tiers[n][i].provider
  }

  function RowOf(tiers: map<Name, seq<TierEntry>>, p: Name): Row {
    map n | n in tiers && LastFor(tiers[n], p).Some? :: LastFor(tiers[n], p).value
  }

  function RowsOf(tiers: map<Name, seq<TierEntry>>): map<Name, Row> {
    map p | p in Providers(tiers) :: RowOf(tiers, p)
  }

  function NoFallback(names: set<Name>): map<Name, Option<Name>> {
    map n | n in names :: None
  }

  /** The upserts of one write. */
  function Written(t: Tables, cfg: Config): Tables {
    Tables(t.tiers + NoFallback(cfg.tiers.Keys), t.models + RowsOf(cfg.tiers), Some(cfg.routing))
  }

  /** The candidates of a tier, in provider order. */
  function Candidates(providers: seq<Name>, models: map<Name, Row>, tier: Name): seq<TierEntry> {
    if providers == [] then []
    else
      var k := |providers| - 1;
      var p := providers[k];
      Candidates(providers[..k], models, tier)
      + (if p in models && tier in models[p] then [Line(p, models[p][tier])] else [])
  }

  /** What the tables hold, as a config; None when the routing row is missing. */
  ghost function Loaded(t: Tables): Option<Config> {
    if t.routing == None then None else Some(Config(TierLists(t), t.routing.value))
  }

  ghost function TierLists(t: Tables): map<Name, seq<TierEntry>> {
    map n | n in t.tiers :: Candidates(Sorted(t.models.Keys), t.models, n)
  }

  // ------------------------------------------------------------ candidate lists

  predicate ByProvider(cands: seq<TierEntry>) {
    forall i, j :: 0 <= i < j < |cands| ==> Less(cands[i].provider, cands[j].provider)
  }

  lemma {:induction false} CandidatesFrom(providers: seq<Name>, models: map<Name, Row>, tier: Name)
    ensures forall e :: e in Candidates(providers, models, tier) <==>
      e.provider in providers && e.provider in models && tier in models[e.provider]
      && e == Line(e.provider, models[e.provider][tier])
  {
    if providers != [] {
      var k := |providers| - 1;
      CandidatesFrom(providers[..k], models, tier);
      assert providers == providers[..k] + [providers[k]];
    }
  }

  lemma {:induction false} CandidatesByProvider(providers: seq<Name>, models: map<Name, Row>, tier: Name)
    requires Increasing(providers)
    ensures ByProvider(Candidates(providers, models, tier))
  {
    if providers != [] {
      var k := |providers| - 1;
      CandidatesByProvider(providers[..k], models, tier);
      CandidatesFrom(providers[..k], models, tier);
      var before := Candidates(providers[..k], models, tier);
      forall i | 0 <= i < |before|
        ensures Less(before[i].provider, providers[k])
      {
        assert before[i] in before;
        var j :| 0 <= j < k && providers[..k][j] == before[i].provider;
      }
    }
  }

  lemma {:induction false} LastForMembers(cands: seq<TierEntry>, p: Name)
    ensures LastFor(cands, p).Some? <==> exists i :: 0 <= i < |cands| && cands[i].provider == p
    ensures LastFor(cands, p).Some? ==> Line(p, LastFor(cands, p).value) in cands
  {
    if cands != [] {
      var k := |cands| - 1;
      LastForMembers(cands[..k], p);
      if cands[k].provider != p && LastFor(cands, p).Some? {
        var i :| 0 <= i < k && cands[..k][i].provider == p;
        assert cands[i].provider == p;
        assert Line(p, LastFor(cands, p).value) in cands[..k];
      } else if cands[k].provider == p {
        assert Line(p, EntryOf(cands[k])) == cands[k];
      }
      forall i | 0 <= i < |cands| && cands[i].provider == p
        ensures LastFor(cands, p).Some?
      {
        if i < k {
          assert cands[..k][i].provider == p;
        }
      }
    }
  }

  /** A candidate list in which no provider has two different lines. */
  predicate OneLineEach(cands: seq<TierEntry>) {
    forall i, j :: 0 <= i < j < |cands| && cands[i].provider == cands[j].provider ==> cands[i] == cands[j]
  }

  lemma {:induction false} OneLineIsLast(cands: seq<TierEntry>, i: nat)
    requires OneLineEach(cands) && i < |cands|
    ensures LastFor(cands, cands[i].provider) == Some(EntryOf(cands[i]))
  {
    var p := cands[i].provider;
    LastForMembers(cands, p);
    var e := LastFor(cands, p).value;
    var j :| 0 <= j < |cands| && cands[j] == Line(p, e);
    assert cands[j] == cands[i];
  }

  lemma ByProviderIsOneLine(cands: seq<TierEntry>)
    requires ByProvider(cands)
    ensures OneLineEach(cands)
  {
    forall i, j | 0 <= i < j < |cands|
      ensures cands[i].provider != cands[j].provider
    {
      LessIrreflexive(cands[i].provider);
    }
  }

  /** A list in provider order is determined by its lines. */
  lemma {:induction false} ByProviderUnique(a: seq<TierEntry>, b: seq<TierEntry>)
    requires ByProvider(a) && ByProvider(b)
    requires forall e :: e in a <==> e in b
    ensures a == b
    decreases |a|
  {
    if a == [] {
      SameElementsEmpty(b, a);
    } else {
      assert a[0] in b && b != [] && b[0] in a;
      if a[0] != b[0] {
        var i :| 0 <= i < |b| && b[i] == a[0];
        var j :| 0 <= j < |a| && a[j] == b[0];
        assert Less(b[0].provider, a[0].provider) && Less(a[0].provider, b[0].provider);
        LessTransitive(a[0].provider, b[0].provider, a[0].provider);
        LessIrreflexive(a[0].provider);
      }
      ByProviderTail(a);
      ByProviderTail(b);
      ByProviderUnique(a[1..], b[1..]);
    }
  }

  lemma ByProviderTail(a: seq<TierEntry>)
    requires ByProvider(a) && a != []
    ensures ByProvider(a[1..])
    ensures forall e :: e in a[1..] <==> e in a && e != a[0]
  {
    assert a == [a[0]] + a[1..];
    forall i | 1 <= i < |a|
      ensures a[i] != a[0]
    {
      LessIrreflexive(a[0].provider);
    }
  }

  /** What a loaded tier lists for a provider is exactly that provider's row entry. */
  lemma {:induction false} LoadedTier(t: Tables, n: Name, p: Name)
    requires t.routing.Some? && n in t.tiers
    ensures
      var cands := Loaded(t).value.tiers[n];
      && ByProvider(cands)
      && LastFor(cands, p) == if p in t.models && n in t.models[p] then Some(t.models[p][n]) else None
  {
    var ps := Sorted(t.models.Keys);
    var cands := Candidates(ps, t.models, n);
    SortedFacts(t.models.Keys);
    CandidatesFrom(ps, t.models, n);
    CandidatesByProvider(ps, t.models, n);
    LastForMembers(cands, p);
    if LastFor(cands, p).Some? {
      assert Line(p, LastFor(cands, p).value) in cands;
    }
    if p in t.models && n in t.models[p] {
      var e := Line(p, t.models[p][n]);
      assert e in cands;
      var i :| 0 <= i < |cands| && cands[i] == e;
      ByProviderIsOneLine(cands);
      OneLineIsLast(cands, i);
    }
  }

  /** A load raises exactly when the routing row is missing; otherwise it has that row's
      values and a list for every tier of the tier table. */
  lemma LoadRaisesIff(t: Tables)
    ensures Loaded(t) == None <==> t.routing == None
    ensures Loaded(t).Some? ==>
      Some(Loaded(t).value.routing) == t.routing && Loaded(t).value.tiers.Keys == t.tiers.Keys
  {
  }

  /** Of several lines of a provider in one tier the last one counts. */
  lemma {:induction false} LastLineWins(cands: seq<TierEntry>, i: nat)
    requires i < |cands|
    requires forall j :: i < j < |cands| ==> cands[j].provider != cands[i].provider
    ensures LastFor(cands, cands[i].provider) ==
      Some(ModelEntry(cands[i].model, cands[i].weight, cands[i].limits))
    decreases |cands|
  {
    if i < |cands| - 1 {
      LastLineWins(cands[..|cands| - 1], i);
    }
  }

  // ------------------------------------------------------------ write, then load

  /** The merge: after a write the tier names are the union; every provider the new
      config names has its whole row replaced, in every tier, by its last line of
      that tier; every other provider keeps its old entries. */
  lemma {:induction false} WriteMerges(t: Tables, cfg: Config, n: Name, p: Name)
    ensures
      var loaded := Loaded(Written(t, cfg));
      && loaded.Some?
      && loaded.value.routing == cfg.routing
      && loaded.value.tiers.Keys == t.tiers.Keys + cfg.tiers.Keys
      && (n in loaded.value.tiers ==>
            && ByProvider(loaded.value.tiers[n])
            && LastFor(loaded.value.tiers[n], p) ==
                 if p in Providers(cfg.tiers) then
                   (if n in cfg.tiers then LastFor(cfg.tiers[n], p) else None)
                 else if p in t.models && n in t.models[p] then Some(t.models[p][n])
                 else None)
  {
    var w := Written(t, cfg);
    assert w.tiers.Keys == t.tiers.Keys + cfg.tiers.Keys;
    if n in w.tiers {
      LoadedTier(w, n, p);
    }
  }

  predicate SameLines(a: seq<TierEntry>, b: seq<TierEntry>) {
    (forall e :: e in a ==> e in b) && (forall e :: e in b ==> e in a)
  }

  lemma {:induction false} ProvidersOfTier(cfg: Config, n: Name, p: Name)
    requires n in cfg.tiers && LastFor(cfg.tiers[n], p).Some?
    ensures p in Providers(cfg.tiers)
  {
    LastForMembers(cfg.tiers[n], p);
  }

  /** Written into empty tables and loaded back, a tier has the same candidates if
      and only if it lists no provider with two different lines. */
  lemma RoundTripLines(cfg: Config, n: Name)
    requires n in cfg.tiers
    ensures
      var loaded := Loaded(Written(NO_ROWS, cfg));
      && loaded.Some? && n in loaded.value.tiers
      && (SameLines(loaded.value.tiers[n], cfg.tiers[n]) <==> OneLineEach(cfg.tiers[n]))
  {
    WriteMerges(NO_ROWS, cfg, n, "");
    var back, cands := Loaded(Written(NO_ROWS, cfg)).value.tiers[n], cfg.tiers[n];
    forall p
      ensures LastFor(back, p) == LastFor(cands, p)
    {
      RoundTripLine(cfg, n, p);
    }
    ByProviderIsOneLine(back);
    SameLastSameLines(back, cands);
    if OneLineEach(cands) {
      SameLastSameLines(cands, back);
    } else {
      TwoLinesDiffer(back, cands);
    }
  }

  lemma TwoLinesDiffer(a: seq<TierEntry>, b: seq<TierEntry>)
    requires OneLineEach(a) && !OneLineEach(b)
    ensures !SameLines(a, b)
  {
    var i, j :| 0 <= i < j < |b| && b[i].provider == b[j].provider && b[i] != b[j];
    assert b[i] in b && b[j] in b;
  }

  lemma {:induction false} RoundTripLine(cfg: Config, n: Name, p: Name)
    requires n in cfg.tiers
    ensures LastFor(Loaded(Written(NO_ROWS, cfg)).value.tiers[n], p) == LastFor(cfg.tiers[n], p)
  {
    WriteMerges(NO_ROWS, cfg, n, p);
    if LastFor(cfg.tiers[n], p).Some? {
      ProvidersOfTier(cfg, n, p);
    }
  }

  /** The round trip through empty tables is the identity if and only if every
      tier lists its candidates in provider order, each provider once. */
  lemma RoundTripIsIdentityIff(cfg: Config)
    ensures Loaded(Written(NO_ROWS, cfg)) == Some(cfg) <==> forall n :: n in cfg.tiers ==> ByProvider(cfg.tiers[n])
  {
    var loaded := Loaded(Written(NO_ROWS, cfg));
    WriteMerges(NO_ROWS, cfg, "", "");
    forall n | n in cfg.tiers
      ensures ByProvider(loaded.value.tiers[n])
      ensures ByProvider(cfg.tiers[n]) ==> loaded.value.tiers[n] == cfg.tiers[n]
    {
      WriteMerges(NO_ROWS, cfg, n, "");
      if ByProvider(cfg.tiers[n]) {
        ByProviderIsOneLine(cfg.tiers[n]);
        RoundTripLines(cfg, n);
        ByProviderUnique(loaded.value.tiers[n], cfg.tiers[n]);
      }
    }
    if forall n :: n in cfg.tiers ==> ByProvider(cfg.tiers[n]) {
      assert loaded.value.tiers == cfg.tiers;
    }
  }

  // ------------------------------------------------------------ load, then write back

  /** Writing a loaded config back never changes what is loaded. */
  lemma WriteBackLoadsSame(t: Tables)
    requires t.routing.Some?
    ensures Loaded(Written(t, Loaded(t).value)) == Loaded(t)
  {
    var cfg := Loaded(t).value;
    var again := Loaded(Written(t, cfg)).value;
    assert Written(t, cfg).tiers.Keys == t.tiers.Keys;
    forall n | n in cfg.tiers
      ensures again.tiers[n] == cfg.tiers[n]
    {
      WriteBackTier(t, n);
    }
    assert again.tiers == cfg.tiers;
  }

  lemma WriteBackTier(t: Tables, n: Name)
    requires t.routing.Some? && n in t.tiers
    ensures n in Loaded(Written(t, Loaded(t).value)).value.tiers
    ensures Loaded(Written(t, Loaded(t).value)).value.tiers[n] == Loaded(t).value.tiers[n]
  {
    var cfg := Loaded(t).value;
    WriteMerges(t, cfg, n, "");
    LoadedTier(t, n, "");
    var a, b := Loaded(Written(t, cfg)).value.tiers[n], cfg.tiers[n];
    ByProviderIsOneLine(a);
    ByProviderIsOneLine(b);
    forall p
      ensures LastFor(a, p) == LastFor(b, p)
    {
      WriteMerges(t, cfg, n, p);
      LoadedTier(t, n, p);
      if LastFor(b, p).Some? {
        ProvidersOfTier(cfg, n, p);
      }
    }
    SameLastSameLines(a, b);
    SameLastSameLines(b, a);
    ByProviderUnique(a, b);
  }

  lemma SameLastSameLines(a: seq<TierEntry>, b: seq<TierEntry>)
    requires OneLineEach(a) && forall p :: LastFor(a, p) == LastFor(b, p)
    ensures forall e :: e in a ==> e in b
  {
    forall i | 0 <= i < |a|
      ensures a[i] in b
    {
      OneLineIsLast(a, i);
      LastForMembers(b, a[i].provider);
      assert a[i] == Line(a[i].provider, EntryOf(a[i]));
    }
  }

  predicate KnownTiersOnly(t: Tables, p: Name) {
    p in t.models ==> forall n :: n in t.models[p] ==> n in t.tiers
  }

  /** A provider's row has entries for known tiers only, or for none of them. */
  predicate NoStrayTiers(t: Tables) {
    forall p :: p in t.models && (exists n :: n in t.models[p] && n in t.tiers) ==> KnownTiersOnly(t, p)
  }

  predicate NoFallbacks(t: Tables) {
    forall n :: n in t.tiers ==> t.tiers[n] == None
  }

  lemma LoadedProviders(t: Tables, p: Name)
    requires t.routing.Some?
    ensures p in Providers(Loaded(t).value.tiers) <==> p in t.models && exists n :: n in t.models[p] && n in t.tiers
  {
    var tiers := Loaded(t).value.tiers;
    forall n | n in tiers
      ensures LastFor(tiers[n], p) == if p in t.models && n in t.models[p] then Some(t.models[p][n]) else None
    {
      LoadedTier(t, n, p);
    }
    if p in Providers(tiers) {
      var n, i :| n in tiers && 0 <= i < |tiers[n]| && tiers[n][i].provider == p;
      LastForMembers(tiers[n], p);
    }
    if p in t.models && exists n :: n in t.models[p] && n in t.tiers {
      var n :| n in t.models[p] && n in t.tiers;
      LastForMembers(tiers[n], p);
    }
  }

  /** The row a write-back gives a provider: its old one, without unknown tiers. */
  lemma LoadedRow(t: Tables, p: Name)
    requires t.routing.Some? && p in t.models
    ensures
      var row := RowOf(Loaded(t).value.tiers, p);
      && (forall n :: n in row <==> n in t.tiers && n in t.models[p])
      && (forall n :: n in row ==> row[n] == t.models[p][n])
  {
    forall n | n in t.tiers
      ensures LastFor(Loaded(t).value.tiers[n], p) == if n in t.models[p] then Some(t.models[p][n]) else None
    {
      LoadedTier(t, n, p);
    }
  }

  lemma RowUnchangedIff(t: Tables, p: Name)
    requires t.routing.Some? && p in t.models
    ensures
      var w := Written(t, Loaded(t).value);
      && p in w.models
      && (w.models[p] == t.models[p] <==>
            ((exists n :: n in t.models[p] && n in t.tiers) ==> KnownTiersOnly(t, p)))
  {
    var cfg := Loaded(t).value;
    var w := Written(t, cfg);
    LoadedProviders(t, p);
    if p in Providers(cfg.tiers) {
      LoadedRow(t, p);
      SubRowSameIff(RowOf(cfg.tiers, p), t.models[p], t.tiers);
    }
  }

  lemma SubRowSameIff(row: Row, was: Row, tiers: map<Name, Option<Name>>)
    requires forall n :: n in row <==> n in tiers && n in was
    requires forall n :: n in row ==> row[n] == was[n]
    ensures row == was <==> forall n :: n in was ==> n in tiers
  {
    if forall n :: n in was ==> n in tiers {
      assert row.Keys == was.Keys;
    }
  }

  lemma WrittenKeys(t: Tables)
    requires t.routing.Some?
    ensures
      var w := Written(t, Loaded(t).value);
      && w.models.Keys == t.models.Keys
      && w.routing == t.routing
      && (w.tiers == t.tiers <==> NoFallbacks(t))
  {
    var cfg := Loaded(t).value;
    var w := Written(t, cfg);
    forall p | p in Providers(cfg.tiers)
      ensures p in t.models
    {
      LoadedProviders(t, p);
    }
    assert w.tiers == map n | n in t.tiers :: None;
  }

  /** Writing a loaded config back leaves the tables themselves unchanged if and
      only if no tier has a fallback and no loaded provider's row mentions a tier
      that the tier table lacks. */
  lemma WriteBackIsIdentityIff(t: Tables)
    requires t.routing.Some?
    ensures Written(t, Loaded(t).value) == t <==> NoFallbacks(t) && NoStrayTiers(t)
  {
    var w := Written(t, Loaded(t).value);
    WrittenKeys(t);
    forall p | p in t.models
      ensures w.models[p] == t.models[p] <==>
        ((exists n :: n in t.models[p] && n in t.tiers) ==> KnownTiersOnly(t, p))
    {
      RowUnchangedIff(t, p);
    }
    if NoStrayTiers(t) {
      assert w.models == t.models;
    }
  }

  function WrittenAll(cfgs: seq<Config>): Tables {
    if cfgs == [] then NO_ROWS else Written(WrittenAll(cfgs[..|cfgs| - 1]), cfgs[|cfgs| - 1])
  }

  /** Tables that only ever saw writes of this store are never changed by a write-back. */
  lemma {:induction false} WriteBackOfOwnWrites(cfgs: seq<Config>)
    requires cfgs != []
    ensures
      var t := WrittenAll(cfgs);
      && t.routing.Some?
      && Written(t, Loaded(t).value) == t
  {
    OwnWritesAreClean(cfgs);
    WriteBackIsIdentityIff(WrittenAll(cfgs));
  }

  lemma {:induction false} OwnWritesAreClean(cfgs: seq<Config>)
    ensures
      var t := WrittenAll(cfgs);
      && NoFallbacks(t)
      && forall p, n :: p in t.models && n in t.models[p] ==> n in t.tiers
  {
    if cfgs != [] {
      OwnWritesAreClean(cfgs[..|cfgs| - 1]);
    }
  }

  // ------------------------------------------------------------ the object

  /** What the cache key may hold: a config this store put there, or bytes that do not parse. */
  datatype Payload = Parsed(config: Config) | Corrupt

  datatype Cached = Cached(payload: Payload, expiresAtS: real)

  class ConfigStore {
    const ttlS: nat
    var tables: Tables
    var cached: Option<Cached>

    constructor (ttlS: nat, tables: Tables)
      ensures this.ttlS == ttlS && this.tables == tables && cached == None
    {
      this.ttlS := ttlS;
      this.tables := tables;
      cached := None;
    }

    method UpsertTier(name: Name)
      modifies this`tables
      ensures tables == old(tables).(tiers := old(tables).tiers[name := None])
    {
      tables := tables.(tiers := tables.tiers[name := None]);
    }

    method UpsertTierModels(provider: Name, row: Row)
      modifies this`tables
      ensures tables == old(tables).(models := old(tables).models[provider := row])
    {
      tables := tables.(models := tables.models[provider := row]);
    }

    /** Adds one tier's lines to the rows collected from the tiers in `done`. */
    method AddTier(
      before: map<Name, Row>, name: Name, cands: seq<TierEntry>, ghost done: map<Name, seq<TierEntry>>)
      returns (after: map<Name, Row>)
      requires name !in done && before == RowsOf(done)
      ensures after == RowsOf(done[name := cands])
    {
      after := before;
      for i := 0 to |cands|
        invariant Collected(before, name, cands[..i], after)
      {
        var c := cands[i];
        CollectLine(before, name, cands[..i], c, after);
        assert cands[..i + 1] == cands[..i] + [c];
        if c.provider !in after {
          after := after[c.provider := map[]];
        }
        after := after[c.provider := after[c.provider][name := EntryOf(c)]];
      }
      assert cands[..|cands|] == cands;
      RowsGrow(done, name, cands, before, after);
    }

    /** Collects provider -> tier -> entry over all tiers, then upserts every row. The
        result does not depend on the order in which the tiers are visited. */
    method WriteToDb(cfg: Config)
      modifies this`tables
      ensures tables == Written(old(tables), cfg)
    {
      var providerMap := CollectRows(cfg);
      UpsertRows(providerMap);
      tables := tables.(routing := Some(cfg.routing));
    }

    method CollectRows(cfg: Config) returns (providerMap: map<Name, Row>)
      modifies this`tables
      ensures tables.tiers == old(tables).tiers + NoFallback(cfg.tiers.Keys)
      ensures tables.models == old(tables).models && tables.routing == old(tables).routing
      ensures providerMap == RowsOf(cfg.tiers)
    {
      providerMap := map[];
      var todo := cfg.tiers.Keys;
      NothingDone(cfg.tiers, tables.tiers);
      while todo != {}
        invariant todo <= cfg.tiers.Keys
        invariant tables.tiers == old(tables).tiers + NoFallback(cfg.tiers.Keys - todo)
        invariant tables.models == old(tables).models && tables.routing == old(tables).routing
        invariant providerMap == RowsOf(cfg.tiers - todo)
        decreases |todo|
      {
        var name :| name in todo;
        OneMoreTier(cfg.tiers, todo, name, old(tables).tiers);
        UpsertTier(name);
        providerMap := AddTier(providerMap, name, cfg.tiers[name], cfg.tiers - todo);
        todo := todo - {name};
      }
      AllDone(cfg.tiers);
    }

    method UpsertRows(providerMap: map<Name, Row>)
      modifies this`tables
      ensures tables == old(tables).(models := old(tables).models + providerMap)
    {
      var todo := providerMap.Keys;
      NoUpdateYet(tables.models, providerMap, todo);
      while todo != {}
        invariant todo <= providerMap.Keys
        invariant tables == old(tables).(models := old(tables).models + (providerMap - todo))
        decreases |todo|
      {
        var p :| p in todo;
        OneMoreUpdate(old(tables).models, providerMap, todo, p);
        UpsertTierModels(p, providerMap[p]);
        todo := todo - {p};
      }
      NothingLeft(providerMap);
    }

    method LoadFromDb() returns (cfg: Option<Config>)
      ensures cfg == Loaded(tables)
    {
      if tables.routing == None {
        return None;
      }
      var providers := SortNames(tables.models.Keys);
      var tiers: map<Name, seq<TierEntry>> := map[];
      var todo := tables.tiers.Keys;
      ghost var all := TierLists(tables);
      NoUpdateYet(map[], all, todo);
      while todo != {}
        invariant todo <= all.Keys
        invariant tiers == all - todo
        decreases |todo|
      {
        var name :| name in todo;
        OneMoreKey(all, todo, name);
        var cands := CandidatesOf(providers, name);
        tiers := tiers[name := cands];
        todo := todo - {name};
      }
      NothingLeft(all);
      cfg := Some(Config(tiers, tables.routing.value));
    }

    method CandidatesOf(providers: seq<Name>, tier: Name) returns (cands: seq<TierEntry>)
      ensures cands == Candidates(providers, tables.models, tier)
    {
      cands := [];
      for i := 0 to |providers|
        invariant cands == Candidates(providers[..i], tables.models, tier)
      {
        assert providers[..i + 1][..i] == providers[..i];
        var p := providers[i];
        if p in tables.models && tier in tables.models[p] {
          cands := cands + [Line(p, tables.models[p][tier])];
        }
      }
      assert providers[..|providers|] == providers;
    }

    /** Cached config, or a fresh load that is cached; None when the load raises, or
        the write to the cache does. */
    method LoadOrRefresh(force: bool, nowS: real, stores: bool) returns (cfg: Option<Config>)
      modifies this`cached
      ensures
        if !force && old(cached).Some? && nowS <= old(cached).value.expiresAtS && old(cached).value.payload.Parsed? then
          cfg == Some(old(cached).value.payload.config) && cached == old(cached)
        else
          && cfg == (if stores then Loaded(tables) else None)
          && cached == if cfg.Some? then Some(Cached(Parsed(cfg.value), nowS + ttlS as real)) else old(cached)
    {
      if !force && cached.Some? && nowS <= cached.value.expiresAtS && cached.value.payload.Parsed? {
        return Some(cached.value.payload.config);
      }
      cfg := LoadFromDb();
      if !stores {
        return None;
      }
      if cfg.Some? {
        cached := Some(Cached(Parsed(cfg.value), nowS + ttlS as real));
      }
    }

    /** Persists the config and drops the cache. A load that is under way meanwhile is
        the subject of ConfigFlight. */
    method Write(cfg: Config)
      modifies this
      ensures tables == Written(old(tables), cfg) && cached == None
    {
      WriteToDb(cfg);
      cached := None;
    }
  }

  lemma NothingDone(all: map<Name, seq<TierEntry>>, tiers: map<Name, Option<Name>>)
    ensures RowsOf(all - all.Keys) == map[]
    ensures tiers + NoFallback(all.Keys - all.Keys) == tiers
  {
  }

  lemma AllDone(all: map<Name, seq<TierEntry>>)
    ensures all - {} == all && all.Keys - {} == all.Keys
  {
  }

  lemma OneMoreTier(all: map<Name, seq<TierEntry>>, todo: set<Name>, name: Name, tiers: map<Name, Option<Name>>)
    requires todo <= all.Keys && name in todo
    ensures name !in all - todo
    ensures (all - todo)[name := all[name]] == all - (todo - {name})
    ensures (tiers + NoFallback(all.Keys - todo))[name := None] == tiers + NoFallback(all.Keys - (todo - {name}))
  {
  }

  /** A provider's row once the tier `name` with lines `cands` has been added. */
  function Grown(before: map<Name, Row>, name: Name, cands: seq<TierEntry>, p: Name): Row {
    var row: Row := if p in before then before[p] else map[];
    if LastFor(cands, p).Some? then row[name := LastFor(cands, p).value] else row
  }

  ghost predicate Collected(before: map<Name, Row>, name: Name, cands: seq<TierEntry>, after: map<Name, Row>) {
    && (forall p :: p in after <==> p in before || LastFor(cands, p).Some?)
    && (forall p :: p in after ==> after[p] == Grown(before, name, cands, p))
  }

  lemma CollectLine(before: map<Name, Row>, name: Name, cands: seq<TierEntry>, c: TierEntry, after: map<Name, Row>)
    requires Collected(before, name, cands, after)
    ensures
      var row: Row := if c.provider in after then after[c.provider] else map[];
      Collected(before, name, cands + [c], after[c.provider := row[name := EntryOf(c)]])
  {
    assert (cands + [c])[..|cands|] == cands;
    assert forall p :: LastFor(cands + [c], p) == if p == c.provider then Some(EntryOf(c)) else LastFor(cands, p);
  }

  /** One more tier grows the collected rows to the rows of the larger config. */
  lemma RowsGrow(
    done: map<Name, seq<TierEntry>>, name: Name, cands: seq<TierEntry>, before: map<Name, Row>, after: map<Name, Row>)
    requires name !in done && before == RowsOf(done)
    requires Collected(before, name, cands, after)
    ensures after == RowsOf(done[name := cands])
  {
    var all := done[name := cands];
    forall p
      ensures p in after <==> p in Providers(all)
      ensures p in after ==> after[p] == RowOf(all, p)
    {
      LastForMembers(cands, p);
      ProvidersGrow(done, name, cands, p);
      RowGrows(done, name, cands, p);
    }
  }

  lemma {:induction false} ProvidersGrow(done: map<Name, seq<TierEntry>>, name: Name, cands: seq<TierEntry>, p: Name)
    requires name !in done
    ensures p in Providers(done[name := cands]) <==> p in Providers(done) || LastFor(cands, p).Some?
  {
    var all: map<Name, seq<TierEntry>> := done[name := cands];
    LastForMembers(cands, p);
    if p in Providers(done) {
      var n, i :| n in done && 0 <= i < |done[n]| && done[n][i].provider == p;
      assert n in all && all[n][i].provider == p;
    }
    if LastFor(cands, p).Some? {
      var i :| 0 <= i < |cands| && cands[i].provider == p;
      assert name in all && all[name][i].provider == p;
    }
    if p in Providers(all) {
      var n, i :| n in all && 0 <= i < |all[n]| && all[n][i].provider == p;
      if n != name {
        assert n in done && done[n][i].provider == p;
      }
    }
  }

  lemma {:induction false} RowGrows(done: map<Name, seq<TierEntry>>, name: Name, cands: seq<TierEntry>, p: Name)
    requires name !in done
    ensures RowOf(done[name := cands], p) ==
      if LastFor(cands, p).Some? then RowOf(done, p)[name := LastFor(cands, p).value] else RowOf(done, p)
    ensures p !in Providers(done) ==> RowOf(done, p) == map[]
  {
    if p !in Providers(done) {
      forall n | n in done
        ensures LastFor(done[n], p) == None
      {
        LastForMembers(done[n], p);
      }
    }
  }
}
