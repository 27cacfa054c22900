/** Values shared by every part of the gateway model. */
module Common {

  datatype Option<+T> = None | Some(value: T) {
    function GetOr(default: T): T {
      match this
      case None => default
      case Some(v) => v
    }
  }

  type Positive = n: int | 0 < n witness 1

  /** Hashable handle of one vendor model. */
  datatype CandidateRef = CandidateRef(provider: string, model: string)

  /** Per-minute, fleet-wide limits of one candidate. */
  datatype RateLimit = RateLimit(rpm: Positive, tpm: Positive)

  /** One line of a tier's candidate list. */
  datatype TierEntry = TierEntry(provider: string, model: string, weight: real, limits: RateLimit) {
    function Ref(): CandidateRef {
      CandidateRef(provider, model)
    }
  }

  datatype BreakerState = Closed | HalfOpen | Open

  function Min(a: int, b: int): int {
    if a <= b then a else b
  }

  function Max(a: int, b: int): int {
    if a <= b then b else a
  }

  function MinReal(a: real, b: real): real {
    if a <= b then a else b
  }

  function MaxReal(a: real, b: real): real {
    if a <= b then b else a
  }

  /** Conversion to an integer cuts towards zero. */
  function Truncate(x: real): int {
    if 0.0 <= x then x.Floor else -((-x).Floor)
  }

  type NonNegativeReal = x: real | 0.0 <= x witness 0.0

  type UnitDraw = u: real | 0.0 <= u < 1.0 witness 0.0

  // ------------------------------------------------------------ maps filled key by key

  lemma OneMoreKey<K, V>(all: map<K, V>, todo: set<K>, k: K)
    requires k in all && k in todo
    ensures (all - todo)[k := all[k]] == all - (todo - {k})
  {
  }

  lemma OneMoreUpdate<K, V>(base: map<K, V>, all: map<K, V>, todo: set<K>, k: K)
    requires k in all && k in todo
    ensures (base + (all - todo))[k := all[k]] == base + (all - (todo - {k}))
  {
  }

  lemma NothingLeft<K, V>(all: map<K, V>)
    ensures all - {} == all
  {
  }

  lemma NotAKey<K, V>(all: map<K, V>, todo: set<K>, k: K)
    requires k !in all
    ensures all - todo == all - (todo - {k})
  {
  }

  lemma NoUpdateYet<K, V>(base: map<K, V>, all: map<K, V>, todo: set<K>)
    requires all.Keys <= todo
    ensures all - todo == map[] && base + (all - todo) == base
  {
  }
}
