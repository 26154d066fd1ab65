/** Option and Result types, counting over maps, and powers of two. */
module Common {

  datatype Option<+T> = None | Some(value: T)

  datatype Result<+T, +E> = Ok(value: T) | Err(error: E)

  // ---- powers of two ----

  function Pow2(k: nat): (p: nat)
    ensures p >= 1
  {
    if k == 0 then 1 else 2 * Pow2(k - 1)
  }

  lemma {:induction false} Pow2Grows(a: nat, b: nat)
    requires a <= b
    ensures Pow2(a) <= Pow2(b)
    decreases b
  {
    if a < b {
      Pow2Grows(a, b - 1);
    }
  }

  // ---- counting ----

  /** The keys whose value satisfies `p`. */
  ghost function KeysWhere<K, V>(m: map<K, V>, p: V -> bool): set<K> {
    set k | k in m && p(m[k])
  }

  ghost function Count<K, V>(m: map<K, V>, p: V -> bool): nat {
    |KeysWhere(m, p)|
  }

  function Weigh(b: bool): int {
    if b then 1 else 0
  }

  lemma CountUpdate<K, V>(m: map<K, V>, k: K, v: V, p: V -> bool)
    ensures Count(m[k := v], p) == Count(m, p) - Weigh(k in m && p(m[k])) + Weigh(p(v))
  {
    var m' := m[k := v];
    var others := set j | j in m && p(m[j]) && j != k;
    CountSplit(m, k, p, others);
    assert others == set j | j in m' && p(m'[j]) && j != k;
    CountSplit(m', k, p, others);
  }

  lemma CountRemove<K, V>(m: map<K, V>, k: K, p: V -> bool)
    ensures Count(m - {k}, p) == Count(m, p) - Weigh(k in m && p(m[k]))
  {
    var m' := m - {k};
    var others := set j | j in m && p(m[j]) && j != k;
    CountSplit(m, k, p, others);
    assert others == set j | j in m' && p(m'[j]) && j != k;
    CountSplit(m', k, p, others);
  }

  lemma CountSplit<K, V>(m: map<K, V>, k: K, p: V -> bool, others: set<K>)
    requires others == set j | j in m && p(m[j]) && j != k
    ensures Count(m, p) == |others| + Weigh(k in m && p(m[k]))
  {
    var all := KeysWhere(m, p);
    if k in m && p(m[k]) {
      assert all == others + {k};
    } else {
      assert all == others;
    }
  }

  /** Taking one more element off a work list. */
  lemma CountOneMore<T>(whole: set<T>, todo: set<T>, x: T)
    requires x in todo
    ensures |whole - (todo - {x})| == |whole - todo| + Weigh(x in whole)
  {
    if x in whole {
      assert whole - (todo - {x}) == whole - todo + {x};
    } else {
      assert whole - (todo - {x}) == whole - todo;
    }
  }

  /** The value of `m` at `x`, with absent keys read as zero. */
  function Get<K>(m: map<K, int>, x: K): int {
    if x in m then m[x] else 0
  }
}
