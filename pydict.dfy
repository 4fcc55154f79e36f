/**
 * Python dicts from strings to strings, as the uploader builds them: an
 * insertion-ordered list of pairs. Assigning to a key that is already present
 * replaces its value where it stands; a new key goes at the end.
 */
module PyDict {
  import opened PyText

  type Pairs = seq<(string, string)>

  function Keys(d: Pairs): (ks: seq<string>)
    ensures |ks| == |d| && forall i :: 0 <= i < |d| ==> ks[i] == d[i].0
  {
    seq(|d|, i requires 0 <= i < |d| => d[i].0)
  }

  predicate DistinctKeys(d: Pairs) {
    forall i, j :: 0 <= i < j < |d| ==> d[i].0 != d[j].0
  }

  /** The value the last pair with key `key` gives it: what `dict(pairs)[key]` is, when present. */
  function Lookup(d: Pairs, key: string): (r: Option<string>)
    ensures r.None? <==> forall k :: 0 <= k < |d| ==> d[k].0 != key
    ensures r.Some? ==> exists k :: 0 <= k < |d| && d[k] == (key, r.value)
  {
    if d == [] then None
    else
      var n := |d|;
      if d[n - 1].0 == key then Some(d[n - 1].1)
      else
        var r := Lookup(d[..n - 1], key);
        assert forall k :: 0 <= k < n - 1 ==> d[..n - 1][k] == d[k];
        r
  }

  /** The pair at index k is what its key looks up when no later pair has the same key. */
  lemma {:induction false} LookupAt(d: Pairs, k: nat)
    requires k < |d|
    requires forall j :: k < j < |d| ==> d[j].0 != d[k].0
    ensures Lookup(d, d[k].0) == Some(d[k].1)
  {
    var n := |d|;
    if k < n - 1 {
      var init := d[..n - 1];
      assert forall j :: k < j < |init| ==> init[j].0 != init[k].0;
      LookupAt(init, k);
    }
  }

  /** `d[key] = value` */
  function Put(d: Pairs, key: string, value: string): (r: Pairs)
    requires DistinctKeys(d)
    ensures DistinctKeys(r)
    ensures key in Keys(d) ==> Keys(r) == Keys(d)
    ensures key !in Keys(d) ==> r == d + [(key, value)]
    ensures forall i :: 0 <= i < |d| ==> r[i] == if d[i].0 == key then (key, value) else d[i]
  {
    if key in Keys(d) then
      var r := seq(|d|, i requires 0 <= i < |d| => if d[i].0 == key then (key, value) else d[i]);
      assert forall i :: 0 <= i < |d| ==> r[i].0 == d[i].0;
      assert Keys(r) == Keys(d);
      r
    else
      var r := d + [(key, value)];
      assert forall i :: 0 <= i < |d| ==> d[i].0 == Keys(d)[i];
      r
  }

  /** Assigning gives the key its new value and leaves every other key's value alone. */
  lemma PutLookup(d: Pairs, key: string, value: string, x: string)
    requires DistinctKeys(d)
    ensures Lookup(Put(d, key, value), x) == if x == key then Some(value) else Lookup(d, x)
  {
    var r := Put(d, key, value);
    if x == key {
      if key in Keys(d) {
        var k :| 0 <= k < |d| && Keys(d)[k] == key;
        LookupAt(r, k);
      } else {
        LookupAt(r, |d|);
      }
    } else {
      assert forall k :: 0 <= k < |d| && d[k].0 != key ==> r[k] == d[k];
      if Lookup(d, x).Some? {
        var k :| 0 <= k < |d| && d[k] == (x, Lookup(d, x).value);
        LookupAt(r, k);
      } else {
        assert forall k :: 0 <= k < |r| ==> r[k].0 != x;
      }
    }
  }

  /** `dict(pairs)`, or a loop assigning `d[k] = v` for each pair in turn. */
  function FromPairs(ps: Pairs): (d: Pairs)
    ensures DistinctKeys(d)
  {
    if ps == [] then [] else Put(FromPairs(ps[..|ps| - 1]), ps[|ps| - 1].0, ps[|ps| - 1].1)
  }

  /** The keys in the order of their first appearance. */
  function FirstOccurrences(ks: seq<string>): seq<string> {
    if ks == [] then []
    else
      var init := FirstOccurrences(ks[..|ks| - 1]);
      if ks[|ks| - 1] in ks[..|ks| - 1] then init else init + [ks[|ks| - 1]]
  }

  /** Building a dict from pairs: distinct keys, the last value of each key, the key where it first appeared. */
  lemma {:induction false} FromPairsMeaning(ps: Pairs)
    ensures forall x :: Lookup(FromPairs(ps), x) == Lookup(ps, x)
    ensures Keys(FromPairs(ps)) == FirstOccurrences(Keys(ps))
    ensures |FromPairs(ps)| <= |ps|
  {
    if ps != [] {
      var n := |ps|;
      var init := ps[..n - 1];
      var (k, v) := ps[n - 1];
      FromPairsMeaning(init);
      var d := FromPairs(init);
      forall x ensures Lookup(FromPairs(ps), x) == Lookup(ps, x) {
        PutLookup(d, k, v, x);
      }
      assert Keys(ps)[..n - 1] == Keys(init);
      assert k in Keys(init) <==> k in Keys(d) by {
        FirstOccurrencesMembers(Keys(init), k);
      }
      if k !in Keys(d) {
        assert Keys(d + [(k, v)]) == Keys(d) + [k];
      }
    }
  }

  lemma {:induction false} FirstOccurrencesMembers(ks: seq<string>, x: string)
    ensures x in FirstOccurrences(ks) <==> x in ks
  {
    if ks != [] {
      var init := ks[..|ks| - 1];
      FirstOccurrencesMembers(init, x);
      assert ks == init + [ks[|ks| - 1]];
    }
  }

  /** Pairs whose keys are already distinct are their own dict. */
  lemma {:induction false} FromDistinctPairs(ps: Pairs)
    requires DistinctKeys(ps)
    ensures FromPairs(ps) == ps
  {
    if ps != [] {
      var n := |ps|;
      var init := ps[..n - 1];
      assert DistinctKeys(init);
      FromDistinctPairs(init);
      assert ps[n - 1].0 !in Keys(init);
      assert init + [ps[n - 1]] == ps;
    }
  }
}
