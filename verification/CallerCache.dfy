/** The caller cache: least-recently-used and time-limited, in front of a database
    that may change at any moment, with lookups that overlap. */
module CallerCache {
  import opened Common

  type Key = string

  datatype Caller = Caller(name: string, dailyTokenCap: Option<nat>, enabled: bool)

  /** `readS` is the moment the row was read; the code stores only `stampS`, the
      moment its lookup began. */
  datatype Entry = Entry(stampS: real, caller: Option<Caller>, readS: real)

  /** Keys from least to most recently used, and what they map to. */
  datatype Cache = Cache(order: seq<Key>, entries: map<Key, Entry>)

  datatype Settings = Settings(ttlS: real, maxSize: nat)

  const EMPTY := Cache([], map[])

  function EnabledOnly(row: Option<Caller>): Option<Caller> {
    if row.Some? && row.value.enabled then row else None
  }

  function Without(s: seq<Key>, k: Key): seq<Key> {
    if s == [] then []
    else
      var n := |s| - 1;
      Without(s[..n], k) + if s[n] == k then [] else [s[n]]
  }

  predicate IsHit(c: Cache, k: Key, nowS: real, cfg: Settings) {
    k in c.entries && nowS - c.entries[k].stampS < cfg.ttlS
  }

  function Touch(c: Cache, k: Key): Cache {
    c.(order := Without(c.order, k) + [k])
  }

  function Insert(c: Cache, k: Key, e: Entry, cfg: Settings): Cache {
    var order := Without(c.order, k) + [k];
    var entries := c.entries[k := e];
    if cfg.maxSize < |order| then Cache(order[1..], entries - {order[0]}) else Cache(order, entries)
  }

  // ------------------------------------------------------------ recency

  predicate NoDuplicates(s: seq<Key>) {
    forall i, j :: 0 <= i < j < |s| ==> s[i] != s[j]
  }

  /** The distinct keys of an access history, by their last access. */
  function Recency(accesses: seq<Key>): seq<Key> {
    if accesses == [] then []
    else
      var n := |accesses| - 1;
      Without(Recency(accesses[..n]), accesses[n]) + [accesses[n]]
  }

  function LastAccess(accesses: seq<Key>, k: Key): int {
    if accesses == [] then -1
    else if accesses[|accesses| - 1] == k then |accesses| - 1
    else LastAccess(accesses[..|accesses| - 1], k)
  }

  function Last(s: seq<Key>, m: nat): seq<Key> {
    if |s| <= m then s else s[|s| - m..]
  }

  lemma {:induction false} WithoutFacts(s: seq<Key>, k: Key)
    ensures forall x :: x in Without(s, k) <==> x in s && x != k
    ensures |Without(s, k)| <= |s|
    ensures k !in s ==> Without(s, k) == s
  {
    if s != [] {
      WithoutFacts(s[..|s| - 1], k);
      assert s == s[..|s| - 1] + [s[|s| - 1]];
    }
  }

  lemma {:induction false} WithoutDistinct(s: seq<Key>, k: Key)
    ensures NoDuplicates(s) ==> NoDuplicates(Without(s, k))
  {
    if s != [] {
      var n := |s| - 1;
      WithoutDistinct(s[..n], k);
      WithoutFacts(s[..n], k);
      var w := Without(s[..n], k);
      forall i | 0 <= i < |w| && NoDuplicates(s)
        ensures w[i] != s[n]
      {
        assert w[i] in s[..n];
      }
    }
  }

  lemma {:induction false} WithoutLength(s: seq<Key>, k: Key)
    requires NoDuplicates(s) && k in s
    ensures |Without(s, k)| == |s| - 1
  {
    var n := |s| - 1;
    if s[n] == k {
      WithoutFacts(s[..n], k);
    } else {
      assert s == s[..n] + [s[n]];
      WithoutLength(s[..n], k);
    }
  }

  lemma {:induction false} WithoutAppend(a: seq<Key>, b: seq<Key>, k: Key)
    ensures Without(a + b, k) == Without(a, k) + Without(b, k)
  {
    if b == [] {
      assert a + b == a;
    } else {
      var n := |b| - 1;
      WithoutAppend(a, b[..n], k);
      assert (a + b)[..|a| + n] == a + b[..n];
    }
  }

  lemma {:induction false} RecencyDistinct(accesses: seq<Key>)
    ensures NoDuplicates(Recency(accesses))
    ensures forall k :: k in Recency(accesses) <==> k in accesses
  {
    if accesses != [] {
      var n := |accesses| - 1;
      RecencyDistinct(accesses[..n]);
      WithoutFacts(Recency(accesses[..n]), accesses[n]);
      WithoutDistinct(Recency(accesses[..n]), accesses[n]);
      assert accesses == accesses[..n] + [accesses[n]];
    }
  }

  predicate ByLastAccess(s: seq<Key>, accesses: seq<Key>) {
    forall i, j :: 0 <= i < j < |s| ==> LastAccess(accesses, s[i]) < LastAccess(accesses, s[j])
  }

  lemma {:induction false} WithoutKeepsOrder(s: seq<Key>, k: Key, accesses: seq<Key>)
    requires ByLastAccess(s, accesses)
    ensures ByLastAccess(Without(s, k), accesses)
  {
    if s != [] {
      var n := |s| - 1;
      WithoutKeepsOrder(s[..n], k, accesses);
      WithoutFacts(s[..n], k);
      var w := Without(s[..n], k);
      forall i | 0 <= i < |w|
        ensures LastAccess(accesses, w[i]) < LastAccess(accesses, s[n])
      {
        assert w[i] in s[..n];
        var j :| 0 <= j < n && s[..n][j] == w[i];
        assert s[j] == w[i];
      }
    }
  }

  lemma {:induction false} LastAccessBounds(accesses: seq<Key>, k: Key)
    ensures LastAccess(accesses, k) < |accesses|
    ensures 0 <= LastAccess(accesses, k) <==> k in accesses
  {
    if accesses != [] && accesses[|accesses| - 1] != k {
      LastAccessBounds(accesses[..|accesses| - 1], k);
      assert accesses == accesses[..|accesses| - 1] + [accesses[|accesses| - 1]];
    }
  }

  lemma OrderSnoc(s: seq<Key>, accesses: seq<Key>, k: Key)
    requires ByLastAccess(s, accesses) && k !in s
    ensures ByLastAccess(s + [k], accesses + [k])
  {
    assert (accesses + [k])[..|accesses|] == accesses;
    forall i | 0 <= i < |s|
      ensures LastAccess(accesses + [k], s[i]) == LastAccess(accesses, s[i]) < |accesses|
    {
      assert s[i] in s;
      LastAccessBounds(accesses, s[i]);
    }
  }

  /** Recency really is the distinct keys in the order of their last access. */
  lemma {:induction false} RecencyIsByLastAccess(accesses: seq<Key>)
    ensures
      var r := Recency(accesses);
      && NoDuplicates(r)
      && (forall k :: k in r <==> k in accesses)
      && ByLastAccess(r, accesses)
  {
    RecencyDistinct(accesses);
    if accesses != [] {
      var init, k := accesses[..|accesses| - 1], accesses[|accesses| - 1];
      assert accesses == init + [k];
      RecencyIsByLastAccess(init);
      WithoutKeepsOrder(Recency(init), k, init);
      WithoutFacts(Recency(init), k);
      OrderSnoc(Without(Recency(init), k), init, k);
    }
  }

  // ------------------------------------------------------------ one access

  ghost predicate Coherent(c: Cache) {
    NoDuplicates(c.order) && forall k :: k in c.entries <==> k in c.order
  }

  ghost predicate IsLru(c: Cache, accesses: seq<Key>, cfg: Settings) {
    Coherent(c) && c.order == Last(Recency(accesses), cfg.maxSize)
  }

  lemma {:induction false} RecencySnoc(accesses: seq<Key>, k: Key)
    ensures Recency(accesses + [k]) == Without(Recency(accesses), k) + [k]
  {
    assert (accesses + [k])[..|accesses|] == accesses;
  }

  function DropFirst(s: seq<Key>, m: nat): seq<Key> {
    if m < |s| then s[1..] else s
  }

  lemma {:induction false} LastSnocShort(r: seq<Key>, k: Key, m: nat)
    requires NoDuplicates(r) && |r| <= m
    ensures Last(Without(r, k) + [k], m) == DropFirst(Without(r, k) + [k], m)
  {
    WithoutFacts(r, k);
  }

  lemma LastOfSum(p: seq<Key>, s: seq<Key>, m: nat)
    requires |s| == m
    ensures Last(p + s, m) == s
  {
  }

  lemma {:induction false} LastSnocLong(p: seq<Key>, s: seq<Key>, k: Key)
    requires NoDuplicates(s)
    ensures Last(Without(p + s, k) + [k], |s|) == DropFirst(Without(s, k) + [k], |s|)
  {
    WithoutAppend(p, s, k);
    WithoutFacts(s, k);
    var rest := Without(p, k);
    if k in s {
      WithoutLength(s, k);
      LastOfSum(rest, Without(s, k) + [k], |s|);
      assert Without(p + s, k) + [k] == rest + (Without(s, k) + [k]);
    } else {
      LastAfterAppend(rest, s, k);
    }
  }

  lemma LastAfterAppend(p: seq<Key>, s: seq<Key>, k: Key)
    ensures Last(p + s + [k], |s|) == (s + [k])[1..]
  {
  }

  lemma SuffixDistinct(r: seq<Key>, cut: nat)
    requires NoDuplicates(r) && cut <= |r|
    ensures NoDuplicates(r[cut..])
  {
  }

  /** Moving or adding a key to the end commutes with keeping the last m. */
  lemma {:induction false} LastSnoc(r: seq<Key>, k: Key, m: nat)
    requires NoDuplicates(r)
    ensures Last(Without(r, k) + [k], m) == DropFirst(Without(Last(r, m), k) + [k], m)
  {
    if |r| <= m {
      LastSnocShort(r, k, m);
    } else {
      var cut := |r| - m;
      SuffixDistinct(r, cut);
      LastSnocLong(r[..cut], r[cut..], k);
      assert r == r[..cut] + r[cut..];
    }
  }

  lemma TouchCoherent(c: Cache, k: Key)
    requires Coherent(c) && k in c.entries
    ensures Coherent(Touch(c, k))
  {
    WithoutFacts(c.order, k);
    WithoutDistinct(c.order, k);
  }

  lemma TouchKeepsLru(c: Cache, accesses: seq<Key>, k: Key, cfg: Settings)
    requires IsLru(c, accesses, cfg) && k in c.entries
    ensures IsLru(Touch(c, k), accesses + [k], cfg)
  {
    RecencyDistinct(accesses);
    RecencySnoc(accesses, k);
    LastSnoc(Recency(accesses), k, cfg.maxSize);
    WithoutLength(c.order, k);
    TouchCoherent(c, k);
  }

  lemma InsertKeepsLru(c: Cache, accesses: seq<Key>, k: Key, e: Entry, cfg: Settings)
    requires IsLru(c, accesses, cfg)
    ensures IsLru(Insert(c, k, e, cfg), accesses + [k], cfg)
  {
    RecencyDistinct(accesses);
    RecencySnoc(accesses, k);
    LastSnoc(Recency(accesses), k, cfg.maxSize);
    WithoutFacts(c.order, k);
    InsertCoherent(c, k, e, cfg);
  }

  lemma InsertCoherent(c: Cache, k: Key, e: Entry, cfg: Settings)
    requires Coherent(c)
    ensures Coherent(Insert(c, k, e, cfg))
  {
    WithoutFacts(c.order, k);
    WithoutDistinct(c.order, k);
    var grown := Without(c.order, k) + [k];
    assert NoDuplicates(grown);
    assert forall x :: x in c.entries[k := e] <==> x in grown;
    if cfg.maxSize < |grown| {
      assert grown == [grown[0]] + grown[1..];
      assert grown[0] !in grown[1..];
      assert forall x :: x in grown[1..] <==> x in grown && x != grown[0];
    }
  }

  lemma TwoInserted(a: Key, b: Key, x: Entry, y: Entry, cfg: Settings)
    requires a != b && cfg.maxSize == 2
    ensures Insert(Insert(EMPTY, a, x, cfg), b, y, cfg) == Cache([a, b], map[a := x, b := y])
  {
    var one := Insert(EMPTY, a, x, cfg);
    assert one == Cache([a], map[a := x]) by {
      assert [] + [a] == [a];
    }
    WithoutSingle(a, b);
    assert [a] + [b] == [a, b];
  }

  /** A third key goes in, the first in order goes out. */
  lemma ThirdInserted(a: Key, b: Key, c: Key, x: Entry, y: Entry, z: Entry, cfg: Settings)
    requires a != b && a != c && b != c && cfg.maxSize == 2
    ensures Insert(Cache([a, b], map[a := x, b := y]), c, z, cfg) == Cache([b, c], map[b := y, c := z])
  {
    WithoutPair(a, b, c);
    assert [a] + [b] + [c] == [a, b, c] && [a, b, c][1..] == [b, c];
    assert map[a := x, b := y][c := z] - {a} == map[b := y, c := z];
  }

  /** Two keys are inserted, the older one is hit, a third is inserted into a cache of
      two: the key inserted second goes. Without the hit it is the one inserted first. */
  lemma HitKeyOutlivesNewerOne(a: Key, b: Key, c: Key, x: Entry, y: Entry, z: Entry, cfg: Settings)
    requires a != b && a != c && b != c && cfg.maxSize == 2
    ensures
      var two := Insert(Insert(EMPTY, a, x, cfg), b, y, cfg);
      && Insert(Touch(two, a), c, z, cfg) == Cache([a, c], map[a := x, c := z])
      && Insert(two, c, z, cfg) == Cache([b, c], map[b := y, c := z])
  {
    TwoInserted(a, b, x, y, cfg);
    ThirdInserted(a, b, c, x, y, z, cfg);
    HitMovesToEnd(a, b, x, y);
    ThirdInserted(b, a, c, y, x, z, cfg);
  }

  lemma HitMovesToEnd(a: Key, b: Key, x: Entry, y: Entry)
    requires a != b
    ensures Touch(Cache([a, b], map[a := x, b := y]), a) == Cache([b, a], map[b := y, a := x])
  {
    WithoutPair(a, b, a);
    assert [] + [b] + [a] == [b, a];
    assert map[a := x, b := y] == map[b := y, a := x];
  }

  lemma {:induction false} WithoutSingle(a: Key, k: Key)
    ensures Without([a], k) == if a == k then [] else [a]
  {
    assert [a][..0] == [];
  }

  lemma {:induction false} WithoutPair(a: Key, b: Key, k: Key)
    ensures Without([a, b], k) == (if a == k then [] else [a]) + (if b == k then [] else [b])
  {
    assert [a, b][..1] == [a];
    WithoutSingle(a, k);
  }

  // ------------------------------------------------------------ overlapping lookups

  /** The row a query at a moment would return; the database changes arbitrarily. */
  type Database = (Key, real) -> Option<Caller>

  datatype Lookup = Lookup(key: Key, begunS: real, read: Option<Entry>)

  datatype Answer = Answer(key: Key, caller: Option<Caller>, begunS: real, givenS: real, cached: bool, readS: real)

  datatype System = System(
    cache: Cache, pending: map<nat, Lookup>, nowS: real, accesses: seq<Key>, answers: seq<Answer>)

  datatype Step =
    | Begin(id: nat, key: Key)   // up to the first suspension: hit, or start the query
    | ReadRow(id: nat)           // the database evaluates the query
    | Commit(id: nat)            // the lookup resumes with the row
    | Abandon(id: nat)           // the query raises
    | Advance(toS: real)

  const START := System(EMPTY, map[], 0.0, [], [])

  function Apply(s: System, step: Step, db: Database, cfg: Settings): System {
    match step
    case Begin(id, key) =>
      if id in s.pending then s
      else if IsHit(s.cache, key, s.nowS, cfg) then
        var e := s.cache.entries[key];
        s.(cache := Touch(s.cache, key), accesses := s.accesses + [key],
           answers := s.answers + [Answer(key, e.caller, s.nowS, s.nowS, true, e.readS)])
      else s.(pending := s.pending[id := Lookup(key, s.nowS, None)])
    case ReadRow(id) =>
      if id !in s.pending || s.pending[id].read.Some? then s
      else
        var l := s.pending[id];
        s.(pending := s.pending[id := l.(read := Some(Entry(l.begunS, EnabledOnly(db(l.key, s.nowS)), s.nowS)))])
    case Commit(id) =>
      if id !in s.pending || s.pending[id].read.None? then s
      else
        var l := s.pending[id];
        var e := l.read.value;
        s.(cache := Insert(s.cache, l.key, e, cfg), pending := s.pending - {id},
           accesses := s.accesses + [l.key],
           answers := s.answers + [Answer(l.key, e.caller, l.begunS, s.nowS, false, e.readS)])
    case Abandon(id) => s.(pending := s.pending - {id})
    case Advance(to) => s.(nowS := MaxReal(s.nowS, to))
  }

  function Run(steps: seq<Step>, db: Database, cfg: Settings): System {
    if steps == [] then START else Apply(Run(steps[..|steps| - 1], db, cfg), steps[|steps| - 1], db, cfg)
  }

  /** The answer is the enabled row of some moment not after it was given: less
      than a TTL before, if it came from the cache, and within the lookup itself,
      if it came from the database. */
  predicate Truthful(a: Answer, db: Database, cfg: Settings) {
    && a.caller == (var row := db(a.key, a.readS); if row.Some? && row.value.enabled then row else None)
    && a.readS <= a.givenS
    && (a.cached ==> a.givenS - cfg.ttlS < a.readS)
    && (!a.cached ==> a.begunS <= a.readS)
  }

  predicate ReadAtMoment(key: Key, e: Entry, nowS: real, db: Database) {
    e.stampS <= e.readS <= nowS && e.caller == EnabledOnly(db(key, e.readS))
  }

  predicate EntriesRead(s: System, db: Database) {
    && (forall k :: k in s.cache.entries ==> ReadAtMoment(k, s.cache.entries[k], s.nowS, db))
    && (forall id :: id in s.pending ==>
          var l := s.pending[id];
          && l.begunS <= s.nowS
          && (l.read.Some? ==> l.read.value.stampS == l.begunS && ReadAtMoment(l.key, l.read.value, s.nowS, db)))
  }

  lemma ApplyKeepsReads(s: System, step: Step, db: Database, cfg: Settings)
    requires EntriesRead(s, db)
    ensures EntriesRead(Apply(s, step, db, cfg), db)
  {
  }

  lemma ApplyKeepsLru(s: System, step: Step, db: Database, cfg: Settings)
    requires IsLru(s.cache, s.accesses, cfg)
    ensures IsLru(Apply(s, step, db, cfg).cache, Apply(s, step, db, cfg).accesses, cfg)
  {
    match step {
      case Begin(id, key) =>
        if id !in s.pending && IsHit(s.cache, key, s.nowS, cfg) {
          TouchKeepsLru(s.cache, s.accesses, key, cfg);
        }
      case Commit(id) =>
        if id in s.pending && s.pending[id].read.Some? {
          InsertKeepsLru(s.cache, s.accesses, s.pending[id].key, s.pending[id].read.value, cfg);
        }
      case ReadRow(id) =>
      case Abandon(id) =>
      case Advance(to) =>
    }
  }

  lemma ApplyAnswersTruthfully(s: System, step: Step, db: Database, cfg: Settings)
    requires EntriesRead(s, db)
    ensures
      var s' := Apply(s, step, db, cfg);
      s'.answers == s.answers ||
      (|s'.answers| == |s.answers| + 1 && s'.answers[..|s.answers|] == s.answers &&
       Truthful(s'.answers[|s.answers|], db, cfg))
  {
  }

  /** Over every run of overlapping lookups the cache's keys are exactly the last
      maxSize distinct keys by committed access, in that order. */
  lemma {:induction false} CacheIsLru(steps: seq<Step>, db: Database, cfg: Settings)
    ensures
      var s := Run(steps, db, cfg);
      && IsLru(s.cache, s.accesses, cfg)
      && |s.cache.order| <= cfg.maxSize
  {
    if steps != [] {
      CacheIsLru(steps[..|steps| - 1], db, cfg);
      ApplyKeepsLru(Run(steps[..|steps| - 1], db, cfg), steps[|steps| - 1], db, cfg);
    }
  }

  lemma {:induction false} RunKeepsReads(steps: seq<Step>, db: Database, cfg: Settings)
    ensures EntriesRead(Run(steps, db, cfg), db)
  {
    if steps != [] {
      RunKeepsReads(steps[..|steps| - 1], db, cfg);
      ApplyKeepsReads(Run(steps[..|steps| - 1], db, cfg), steps[|steps| - 1], db, cfg);
    }
  }

  /** Every answer ever returned is the enabled-filtered row of some moment, with
      staleness bounded by the TTL. */
  lemma {:induction false} AnswersAreTruthful(steps: seq<Step>, db: Database, cfg: Settings)
    ensures forall i :: 0 <= i < |Run(steps, db, cfg).answers| ==> Truthful(Run(steps, db, cfg).answers[i], db, cfg)
  {
    if steps != [] {
      var n := |steps| - 1;
      AnswersAreTruthful(steps[..n], db, cfg);
      RunKeepsReads(steps[..n], db, cfg);
      ApplyAnswersTruthfully(Run(steps[..n], db, cfg), steps[n], db, cfg);
    }
  }

  // ------------------------------------------------------------ when a lookup hits

  function KeysOf(answers: seq<Answer>): seq<Key> {
    seq(|answers|, i requires 0 <= i < |answers| => answers[i].key)
  }

  /** The last answer for the key that came from the database. */
  function LastFetched(answers: seq<Answer>, k: Key): Option<Answer> {
    if answers == [] then None
    else
      var last := answers[|answers| - 1];
      if last.key == k && !last.cached then Some(last) else LastFetched(answers[..|answers| - 1], k)
  }

  lemma {:induction false} LastFetchedSnoc(answers: seq<Answer>, a: Answer)
    ensures KeysOf(answers + [a]) == KeysOf(answers) + [a.key]
    ensures forall k ::
      LastFetched(answers + [a], k) == (if a.key == k && !a.cached then Some(a) else LastFetched(answers, k))
  {
    assert (answers + [a])[..|answers|] == answers;
  }

  predicate Holds(e: Entry, fetched: Option<Answer>) {
    fetched.Some? && e.stampS == fetched.value.begunS && e.caller == fetched.value.caller
  }

  /** Every entry is what was last fetched for its key, and what is fetched carries the
      time its lookup began. */
  ghost predicate EntriesFetched(s: System) {
    && s.accesses == KeysOf(s.answers)
    && (forall k :: k in s.cache.entries ==> Holds(s.cache.entries[k], LastFetched(s.answers, k)))
    && (forall id :: id in s.pending && s.pending[id].read.Some? ==>
          s.pending[id].read.value.stampS == s.pending[id].begunS)
  }

  lemma BeginKeepsFetched(s: System, id: nat, key: Key, db: Database, cfg: Settings)
    requires EntriesFetched(s)
    ensures EntriesFetched(Apply(s, Begin(id, key), db, cfg))
  {
    if id !in s.pending && IsHit(s.cache, key, s.nowS, cfg) {
      var e := s.cache.entries[key];
      LastFetchedSnoc(s.answers, Answer(key, e.caller, s.nowS, s.nowS, true, e.readS));
    }
  }

  lemma CommitKeepsFetched(s: System, id: nat, db: Database, cfg: Settings)
    requires EntriesFetched(s)
    ensures EntriesFetched(Apply(s, Commit(id), db, cfg))
  {
    if id in s.pending && s.pending[id].read.Some? {
      var l := s.pending[id];
      LastFetchedSnoc(s.answers, Answer(l.key, l.read.value.caller, l.begunS, s.nowS, false, l.read.value.readS));
      assert Insert(s.cache, l.key, l.read.value, cfg).entries.Keys <= s.cache.entries.Keys + {l.key};
    }
  }

  lemma ApplyKeepsFetched(s: System, step: Step, db: Database, cfg: Settings)
    requires EntriesFetched(s)
    ensures EntriesFetched(Apply(s, step, db, cfg))
  {
    match step {
      case Begin(id, key) => BeginKeepsFetched(s, id, key, db, cfg);
      case Commit(id) => CommitKeepsFetched(s, id, db, cfg);
      case ReadRow(id) =>
      case Abandon(id) =>
      case Advance(to) =>
    }
  }

  lemma {:induction false} RunKeepsFetched(steps: seq<Step>, db: Database, cfg: Settings)
    ensures EntriesFetched(Run(steps, db, cfg))
  {
    if steps != [] {
      RunKeepsFetched(steps[..|steps| - 1], db, cfg);
      ApplyKeepsFetched(Run(steps[..|steps| - 1], db, cfg), steps[|steps| - 1], db, cfg);
    }
  }

  /** Among the keys answered last, with an answer fetched less than a TTL ago, counted
      from when its lookup began. */
  predicate Fresh(answers: seq<Answer>, key: Key, nowS: real, cfg: Settings) {
    && key in Last(Recency(KeysOf(answers)), cfg.maxSize)
    && LastFetched(answers, key).Some?
    && nowS < LastFetched(answers, key).value.begunS + cfg.ttlS
  }

  /** A lookup that begins is answered with what was last fetched if its key is fresh,
      and otherwise asks the database. */
  predicate Looked(s: System, r: System, id: nat, key: Key, cfg: Settings) {
    if Fresh(s.answers, key, s.nowS, cfg) then
      && |r.answers| == |s.answers| + 1 && r.answers[..|s.answers|] == s.answers && r.pending == s.pending
      && r.answers[|s.answers|].key == key
      && r.answers[|s.answers|].caller == LastFetched(s.answers, key).value.caller
    else
      r.answers == s.answers && r.pending == s.pending[id := Lookup(key, s.nowS, None)]
  }

  lemma {:induction false} FreshIsHit(s: System, key: Key, cfg: Settings)
    requires EntriesFetched(s) && IsLru(s.cache, s.accesses, cfg)
    ensures Fresh(s.answers, key, s.nowS, cfg) <==> IsHit(s.cache, key, s.nowS, cfg)
    ensures IsHit(s.cache, key, s.nowS, cfg) ==>
      s.cache.entries[key].caller == LastFetched(s.answers, key).value.caller
  {
    assert key in s.cache.entries <==> key in s.cache.order;
  }

  /** In every run a lookup is answered at once, and with what was last fetched, none
      included, exactly when its key is fresh; otherwise it asks the database. */
  lemma {:induction false} HitIff(steps: seq<Step>, db: Database, cfg: Settings, id: nat, key: Key)
    requires id !in Run(steps, db, cfg).pending
    ensures Looked(Run(steps, db, cfg), Run(steps + [Begin(id, key)], db, cfg), id, key, cfg)
  {
    assert (steps + [Begin(id, key)])[..|steps|] == steps;
    RunKeepsFetched(steps, db, cfg);
    CacheIsLru(steps, db, cfg);
    FreshIsHit(Run(steps, db, cfg), key, cfg);
  }

  /** The query of a lookup reads the row as it is at that moment; a disabled caller is none. */
  lemma {:induction false} RowIsRead(steps: seq<Step>, db: Database, cfg: Settings, id: nat)
    requires id in Run(steps, db, cfg).pending && Run(steps, db, cfg).pending[id].read == None
    ensures
      var s, r := Run(steps, db, cfg), Run(steps + [ReadRow(id)], db, cfg);
      var l := s.pending[id];
      var row := db(l.key, s.nowS);
      var caller := if row.Some? && row.value.enabled then row else None;
      r == s.(pending := s.pending[id := Lookup(l.key, l.begunS, Some(Entry(l.begunS, caller, s.nowS)))])
  {
    assert (steps + [ReadRow(id)])[..|steps|] == steps;
  }

  /** A lookup whose row was read is answered with that row, cached from when it began. */
  lemma {:induction false} FetchIsAnswered(steps: seq<Step>, db: Database, cfg: Settings, id: nat)
    requires id in Run(steps, db, cfg).pending && Run(steps, db, cfg).pending[id].read.Some?
    ensures
      var s, r := Run(steps, db, cfg), Run(steps + [Commit(id)], db, cfg);
      var l := s.pending[id];
      && r.answers == s.answers + [Answer(l.key, l.read.value.caller, l.begunS, s.nowS, false, l.read.value.readS)]
      && id !in r.pending
      && LastFetched(r.answers, l.key) == Some(r.answers[|s.answers|])
  {
    assert (steps + [Commit(id)])[..|steps|] == steps;
  }

  // ------------------------------------------------------------ the object

  /** The resolver; a lookup is two calls around its suspended database query. */
  class CallerResolver {
    const cfg: Settings
    var order: seq<Key>
    var entries: map<Key, Entry>

    function View(): Cache
      reads this
    {
      Cache(order, entries)
    }

    constructor (cfg: Settings)
      ensures this.cfg == cfg && View() == EMPTY
    {
      this.cfg := cfg;
      order, entries := [], map[];
    }

    method BeginLookup(key: Key, nowS: real) returns (hit: bool, caller: Option<Caller>)
      modifies this
      ensures hit == IsHit(old(View()), key, nowS, cfg)
      ensures hit ==> caller == old(View()).entries[key].caller && View() == Touch(old(View()), key)
      ensures !hit ==> View() == old(View())
    {
      if key in entries && nowS - entries[key].stampS < cfg.ttlS {
        MoveToEnd(key);
        return true, entries[key].caller;
      }
      return false, None;
    }

    method MoveToEnd(key: Key)
      modifies this`order
      ensures order == Without(old(order), key) + [key]
    {
      var kept: seq<Key> := [];
      for i := 0 to |order|
        invariant kept == Without(order[..i], key)
      {
        assert order[..i + 1][..i] == order[..i];
        if order[i] != key {
          kept := kept + [order[i]];
        }
      }
      assert order[..|order|] == order;
      order := kept + [key];
    }

    /** `readS`, the moment of the query, is carried along only to be spoken about. */
    method CommitLookup(key: Key, begunS: real, row: Option<Caller>, readS: real) returns (caller: Option<Caller>)
      modifies this
      ensures caller == EnabledOnly(row)
      ensures View() == Insert(old(View()), key, Entry(begunS, caller, readS), cfg)
    {
      caller := row;
      if caller.Some? && !caller.value.enabled {
        caller := None;
      }
      entries := entries[key := Entry(begunS, caller, readS)];
      MoveToEnd(key);
      if cfg.maxSize < |order| {
        entries := entries - {order[0]};
        order := order[1..];
      }
    }
  }
}
