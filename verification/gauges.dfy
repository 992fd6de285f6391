/**
 * Metric gauges: a gauge vector holds one value per label tuple; `Reset`
 * empties it and `Set` overwrites one entry. A run of `Set` calls is the fold
 * `Apply` over the sequence of writes, so the last write to a key wins.
 */
module Gauges {
  import opened Wrappers

  /** The value of the last write to `k` in `ws`, if there is one. */
  function LastWrite<K(==, !new), V>(ws: seq<(K, V)>, k: K): (r: Option<V>)
    ensures r.None? <==> forall i :: 0 <= i < |ws| ==> ws[i].0 != k
    ensures r.Some? ==> exists i :: 0 <= i < |ws| && ws[i] == (k, r.value) && IsLastFor(ws, k, i)
  {
    if ws == [] then None
    else if ws[|ws| - 1].0 == k then
      assert IsLastFor(ws, k, |ws| - 1);
      Some(ws[|ws| - 1].1)
    else
      var r := LastWrite(ws[..|ws| - 1], k);
      assert r.Some? ==> exists i :: 0 <= i < |ws| && ws[i] == (k, r.value) && IsLastFor(ws, k, i) by {
        if r.Some? {
          var i :| 0 <= i < |ws| - 1 && ws[..|ws| - 1][i] == (k, r.value) && IsLastFor(ws[..|ws| - 1], k, i);
          assert IsLastFor(ws, k, i);
        }
      }
      r
  }

  /** No write after position i touches key k. */
  predicate IsLastFor<K(==, !new), V>(ws: seq<(K, V)>, k: K, i: nat) {
    forall j :: i < j < |ws| ==> ws[j].0 != k
  }

  /** Performs the writes `ws` on `m`, in order. */
  function Apply<K(==, !new), V>(m: map<K, V>, ws: seq<(K, V)>): map<K, V> {
    if ws == [] then m
    else
      var w := ws[|ws| - 1];
      Apply(m, ws[..|ws| - 1])[w.0 := w.1]
  }

  /**
   * The keys after the writes `ws` are the old keys and the written ones; a
   * written key holds its last written value and every other key keeps its
   * old value.
   */
  lemma {:induction false} ApplyFacts<K(!new), V>(m: map<K, V>, ws: seq<(K, V)>)
    ensures forall k :: k in Apply(m, ws) <==> k in m || LastWrite(ws, k).Some?
    ensures forall k :: k in Apply(m, ws) && LastWrite(ws, k).Some? ==> Apply(m, ws)[k] == LastWrite(ws, k).value
    ensures forall k :: k in Apply(m, ws) && LastWrite(ws, k).None? ==> Apply(m, ws)[k] == m[k]
  {
    if ws != [] {
      var w := ws[|ws| - 1];
      ApplyFacts(m, ws[..|ws| - 1]);
      assert forall k :: k != w.0 ==> LastWrite(ws, k) == LastWrite(ws[..|ws| - 1], k);
    }
  }

  /** Writing `a` and then `b` is writing `a + b`. */
  lemma {:induction false} ApplyConcat<K(!new), V>(m: map<K, V>, a: seq<(K, V)>, b: seq<(K, V)>)
    ensures Apply(m, a + b) == Apply(Apply(m, a), b)
  {
    if b == [] {
      assert a + b == a;
    } else {
      assert (a + b)[..|a + b| - 1] == a + b[..|b| - 1];
      ApplyConcat(m, a, b[..|b| - 1]);
    }
  }

  /** One more write overwrites one key. */
  lemma {:induction false} ApplySnoc<K(!new), V>(m: map<K, V>, ws: seq<(K, V)>, k: K, v: V)
    ensures Apply(m, ws + [(k, v)]) == Apply(m, ws)[k := v]
  {
    assert (ws + [(k, v)])[..|ws|] == ws;
  }

  /** Writes to other keys do not change the last write to a key. */
  lemma {:induction false} LastWriteSkips<K(!new), V>(ws: seq<(K, V)>, more: seq<(K, V)>, k: K)
    requires |more| <= 1 && (more == [] || more[0].0 != k)
    ensures LastWrite(ws + more, k) == LastWrite(ws, k)
  {
    if more != [] {
      assert (ws + more)[..|ws|] == ws;
    } else {
      assert ws + more == ws;
    }
  }

  /** A gauge vector keyed by label tuples of type K. */
  class Gauge<K(==)> {
    var values: map<K, real>

    constructor ()
      ensures values == map[]
    {
      values := map[];
    }

    /** GaugeVec.Reset: drops every entry. */
    method Reset()
      modifies this
      ensures values == map[]
    {
      values := map[];
    }

    /** GaugeVec.WithLabelValues(labels...).Set(v). */
    method Set(labels: K, v: real)
      modifies this
      ensures values == old(values)[labels := v]
    {
      values := values[labels := v];
    }
  }
}
