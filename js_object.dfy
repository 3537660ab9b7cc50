/**
 * A JavaScript object whose values are numbers (`Record<string, number>`), as an
 * ordered list of entries: `Object.entries` visits the keys in insertion order, and
 * an object literal never repeats a key.
 */
module JsObject {
  import opened Wrappers

  datatype Entry = Entry(key: string, value: real)

  type Record = seq<Entry>

  /** The keys, in the order `Object.entries` yields them. */
  function Keys(r: Record): (ks: seq<string>)
    ensures |ks| == |r|
    ensures forall i :: 0 <= i < |r| ==> ks[i] == r[i].key
  {
    if r == [] then [] else [r[0].key] + Keys(r[1..])
  }

  /** No key occurs twice: every record built by an object literal or a spread. */
  predicate DistinctKeys(r: Record) {
    forall i, j :: 0 <= i < j < |r| ==> r[i].key != r[j].key
  }

  /** Property lookup `r[k]`; `None` stands for `undefined`. */
  function Get(r: Record, k: string): (v: Option<real>)
    ensures v.None? <==> k !in Keys(r)
    ensures v.Some? ==> exists i :: 0 <= i < |r| && r[i] == Entry(k, v.value)
  {
    if r == [] then None
    else if r[0].key == k then Some(r[0].value)
    else
      var v := Get(r[1..], k);
      assert v.Some? ==> exists i :: 1 <= i < |r| && r[i] == Entry(k, v.value) by {
        if v.Some? {
          var i :| 0 <= i < |r[1..]| && r[1..][i] == Entry(k, v.value);
          assert r[i + 1] == Entry(k, v.value);
        }
      }
      v
  }

  /** In a record without repeated keys, every entry is what a lookup of its key finds. */
  lemma {:induction false} GetAt(r: Record, i: nat)
    requires DistinctKeys(r) && i < |r|
    ensures Get(r, r[i].key) == Some(r[i].value)
  {
    if i > 0 {
      assert r[1..][i - 1] == r[i];
      GetAt(r[1..], i - 1);
    }
  }

  /**
   * The spread update `{ ...r, [k]: v }`: an existing key keeps its place and takes
   * the new value, a new key is appended last.
   */
  function Put(r: Record, k: string, v: real): (r': Record)
    ensures |r'| == if k in Keys(r) then |r| else |r| + 1
  {
    if r == [] then [Entry(k, v)]
    else if r[0].key == k then [Entry(k, v)] + r[1..]
    else
      [r[0]] + Put(r[1..], k, v)
  }

  /** After the update, `k` reads back `v` and every other key reads what it read before. */
  lemma {:induction false} PutGet(r: Record, k: string, v: real, k': string)
    ensures Get(Put(r, k, v), k') == if k' == k then Some(v) else Get(r, k')
  {
    if r != [] && r[0].key != k {
      PutGet(r[1..], k, v, k');
      assert Put(r, k, v)[1..] == Put(r[1..], k, v);
    }
  }

  /** Updating a key that exists keeps the key order; a new key goes last, nothing else moves. */
  lemma {:induction false} PutShape(r: Record, k: string, v: real)
    ensures k in Keys(r) ==> Keys(Put(r, k, v)) == Keys(r)
    ensures k !in Keys(r) ==> Put(r, k, v) == r + [Entry(k, v)]
  {
    if r != [] && r[0].key != k {
      PutShape(r[1..], k, v);
      var rest := Put(r[1..], k, v);
      assert ([r[0]] + rest)[1..] == rest;
      if k !in Keys(r) {
        assert r == [r[0]] + r[1..];
      }
    }
  }

  /** A spread update never introduces a repeated key. */
  lemma {:induction false} PutDistinct(r: Record, k: string, v: real)
    requires DistinctKeys(r)
    ensures DistinctKeys(Put(r, k, v))
  {
    PutShape(r, k, v);
    var r' := Put(r, k, v);
    if k in Keys(r) {
      assert Keys(r') == Keys(r);
      forall i, j | 0 <= i < j < |r'| ensures r'[i].key != r'[j].key {
        assert Keys(r')[i] == Keys(r)[i] && Keys(r')[j] == Keys(r)[j];
      }
    } else {
      forall i, j | 0 <= i < j < |r'| ensures r'[i].key != r'[j].key {
        if j == |r| { assert r[i].key in Keys(r); }
      }
    }
  }

  /** A key that no entry has is not among the keys. */
  lemma {:induction false} AbsentKey(r: Record, k: string)
    requires forall i :: 0 <= i < |r| ==> r[i].key != k
    ensures k !in Keys(r)
  {
    if r != [] {
      assert forall i :: 0 <= i < |r[1..]| ==> r[1..][i] == r[i + 1];
      AbsentKey(r[1..], k);
    }
  }

  /** In a record without repeated keys, the last key does not occur before it. */
  lemma LastKeyFresh(r: Record)
    requires r != [] && DistinctKeys(r)
    ensures r[|r| - 1].key !in Keys(r[..|r| - 1])
  {
    var init := r[..|r| - 1];
    forall i | 0 <= i < |init| ensures init[i].key != r[|r| - 1].key {
      assert init[i] == r[i];
    }
    AbsentKey(init, r[|r| - 1].key);
  }

  lemma InitGet(r: Record, k: string)
    requires r != [] && r[|r| - 1].key != k
    ensures Get(r[..|r| - 1], k) == Get(r, k)
  {
    var init := r[..|r| - 1];
    if r[0].key != k && |r| > 1 {
      assert r[1..][..|r[1..]| - 1] == init[1..];
      InitGet(r[1..], k);
    }
  }

  /** Updating an existing key rewrites exactly the entry that holds it. */
  lemma {:induction false} PutExisting(r: Record, k: string, v: real) returns (j: nat)
    requires k in Keys(r)
    ensures j < |r| && r[j].key == k
    ensures Put(r, k, v) == r[j := Entry(k, v)]
  {
    if r[0].key == k {
      j := 0;
    } else {
      assert k in Keys(r[1..]);
      var j' := PutExisting(r[1..], k, v);
      j := j' + 1;
      ConsUpdate(r, j', Entry(k, v));
    }
  }

  lemma ConsUpdate(r: Record, i: nat, e: Entry)
    requires i + 1 < |r|
    ensures [r[0]] + r[1..][i := e] == r[i + 1 := e]
  {
  }
}
