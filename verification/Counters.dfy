/** Usage counters: exact request and token counts, and a charge in micro-Credits
    that saturates at the largest 64-bit integer. */
module Counters {
  const MAX_INT64: int := 0x7fff_ffff_ffff_ffff
  const MIN_INT64: int := -0x8000_0000_0000_0000

  type Int64 = x: int | MIN_INT64 <= x <= MAX_INT64

  /** The in-memory addition: a negative charge counts as zero. */
  function AddCost(a: int, b: int): (r: int)
  {
    var charge := if b < 0 then 0 else b;
    if a > MAX_INT64 - charge then MAX_INT64 else a + charge
  }

  /** The addition the database performs; it has no clamp for a negative operand. */
  function SqlAddCost(stored: int, excluded: int): (r: int)
  {
    if stored > MAX_INT64 - excluded then MAX_INT64 else stored + excluded
  }

  datatype Counter = Counter(requests: int, tokens: int, cost: int)

  const ZERO := Counter(0, 0, 0)

  ghost predicate Valid(c: Counter) {
    0 <= c.cost <= MAX_INT64
  }

  function Plus(a: Counter, b: Counter): (r: Counter)
  {
    Counter(a.requests + b.requests, a.tokens + b.tokens, AddCost(a.cost, b.cost))
  }

  function SqlPlus(stored: Counter, excluded: Counter): (r: Counter)
  {
    Counter(stored.requests + excluded.requests, stored.tokens + excluded.tokens,
            SqlAddCost(stored.cost, excluded.cost))
  }

  function Min(a: int, b: int): int { if a < b then a else b }

  function Max(a: int, b: int): int { if a < b then b else a }

  /** Go's zero value for a missing map entry. */
  function At<K>(m: map<K, Counter>, k: K): Counter {
    if k in m then m[k] else ZERO
  }

  ghost predicate ValidMap<K>(m: map<K, Counter>) {
    forall k :: k in m ==> Valid(m[k])
  }

  /** Valid counters form a commutative monoid under Plus, and the database's
      addition is the same operation: saturation hides neither order nor grouping. */
  lemma PlusIsCommutativeMonoid(a: Counter, b: Counter, c: Counter)
    requires Valid(a) && Valid(b) && Valid(c)
    ensures Valid(Plus(a, b))
    ensures Plus(a, b) == Plus(b, a)
    ensures Plus(Plus(a, b), c) == Plus(a, Plus(b, c))
    ensures Plus(a, ZERO) == a
    ensures SqlPlus(a, b) == Plus(a, b)
  {
  }

  lemma PlusZero(a: Counter)
    requires Valid(a)
    ensures Plus(a, ZERO) == a && Plus(ZERO, a) == a
  {
  }

  /** The entries of a, with every entry of b added to it. */
  function Merge<K>(a: map<K, Counter>, b: map<K, Counter>): map<K, Counter> {
    map k | k in a.Keys + b.Keys :: if k in b then Plus(At(a, k), b[k]) else a[k]
  }

  lemma MergeAt<K>(a: map<K, Counter>, b: map<K, Counter>, k: K)
    requires ValidMap(a) && ValidMap(b)
    ensures At(Merge(a, b), k) == Plus(At(a, k), At(b, k))
  {
    hide Plus;
    if k in b {
      assert At(Merge(a, b), k) == Plus(At(a, k), b[k]);
    } else {
      assert At(Merge(a, b), k) == At(a, k);
      PlusZero(At(a, k));
    }
  }

  lemma MergeValid<K>(a: map<K, Counter>, b: map<K, Counter>)
    requires ValidMap(a) && ValidMap(b)
    ensures ValidMap(Merge(a, b))
  {
    forall k | k in Merge(a, b) ensures Valid(Merge(a, b)[k]) {
      PlusIsCommutativeMonoid(At(a, k), At(b, k), ZERO);
    }
  }

  /** d added at every key of ks. */
  function AddTo<K>(m: map<K, Counter>, ks: set<K>, d: Counter): map<K, Counter> {
    map k | k in m.Keys + ks :: if k in ks then Plus(At(m, k), d) else m[k]
  }
}
