/**
  The array operations the handlers apply to a store (an ordered sequence of records):
  `findIndex`/`find` on `r.id === id`, `filter` on `r[key] !== id`, the shallow merge
  `{ ...r, ...body, id: id }`, and the clearing of a field that referred to a deleted record.
  Each is a specification function with its meaning proved, and the scans that have loops
  are methods proved against those functions.
 */
module Records {
  import opened Values

  // ---------------------------------------------------------------------------------------
  // Finding a record by id

  /** `s.findIndex(r => r.id === id)`: the first index whose record has that id, or -1. */
  function FirstIndex(s: seq<Record>, id: Option<int>): (i: int)
    ensures -1 <= i < |s|
    ensures i == -1 <==> forall k :: 0 <= k < |s| ==> !Refers(s[k], "id", id)
    ensures 0 <= i ==> Refers(s[i], "id", id) && forall k :: 0 <= k < i ==> !Refers(s[k], "id", id)
  {
    if s == [] then -1
    else if Refers(s[0], "id", id) then 0
    else
      var j := FirstIndex(s[1..], id);
      if j == -1 then -1 else j + 1
  }

  /** The linear scan of `findIndex`. */
  method FindIndex(s: seq<Record>, id: Option<int>) returns (i: int)
    ensures i == FirstIndex(s, id)
  {
    i := 0;
    while i < |s| && !Refers(s[i], "id", id)
      invariant 0 <= i <= |s|
      invariant forall k :: 0 <= k < i ==> !Refers(s[k], "id", id)
    {
      i := i + 1;
    }
    if i == |s| {
      i := -1;
    }
  }

  /** `s.find(r => r.id === id)`: the first record with that id, `None` for `undefined`. */
  method Find(s: seq<Record>, id: Option<int>) returns (found: Option<Record>)
    ensures found.None? <==> forall k :: 0 <= k < |s| ==> !Refers(s[k], "id", id)
    ensures found.Some? ==> found.value == s[FirstIndex(s, id)]
  {
    var i := FindIndex(s, id);
    found := if i == -1 then None else Some(s[i]);
  }

  // ---------------------------------------------------------------------------------------
  // Filtering out the records that refer to an id

  /** `s.filter(r => r[key] !== id)`. */
  function Without(s: seq<Record>, key: string, id: Option<int>): (r: seq<Record>)
    ensures |r| <= |s|
    ensures forall k :: 0 <= k < |r| ==> !Refers(r[k], key, id)
    ensures |r| == |s| <==> forall k :: 0 <= k < |s| ==> !Refers(s[k], key, id)
  {
    if s == [] then []
    else (if Refers(s[0], key, id) then [] else [s[0]]) + Without(s[1..], key, id)
  }

  /** The filter keeps exactly the records that do not refer to the id. */
  lemma {:induction false} WithoutMembers(s: seq<Record>, key: string, id: Option<int>)
    ensures forall x :: x in Without(s, key, id) <==> x in s && !Refers(x, key, id)
  {
    if s != [] {
      WithoutMembers(s[1..], key, id);
      assert s == [s[0]] + s[1..];
    }
  }

  /** The filter keeps the order of the records it keeps: it distributes over concatenation. */
  lemma {:induction false} WithoutAppend(a: seq<Record>, b: seq<Record>, key: string, id: Option<int>)
    ensures Without(a + b, key, id) == Without(a, key, id) + Without(b, key, id)
  {
    if a == [] {
      assert a + b == b;
    } else {
      assert (a + b)[1..] == a[1..] + b;
      WithoutAppend(a[1..], b, key, id);
    }
  }

  /** When no record refers to the id, the filter returns the store as it was. */
  lemma {:induction false} WithoutNothing(s: seq<Record>, key: string, id: Option<int>)
    requires forall k :: 0 <= k < |s| ==> !Refers(s[k], key, id)
    ensures Without(s, key, id) == s
  {
    if s != [] {
      WithoutNothing(s[1..], key, id);
    }
  }

  /** Deleting is idempotent: after the filter nothing has the id, so a repeated delete finds
      nothing and leaves the store as it is. */
  lemma DeleteAgainFindsNothing(s: seq<Record>, id: Option<int>)
    ensures FirstIndex(Without(s, "id", id), id) == -1
    ensures Without(Without(s, "id", id), "id", id) == Without(s, "id", id)
  {
    WithoutNothing(Without(s, "id", id), "id", id);
  }

  /** In a store with unique ids, removing an id that is present removes exactly the record
      `findIndex` finds and keeps the others in order. */
  lemma {:induction false} WithoutUniqueId(s: seq<Record>, id: Option<int>)
    requires IdsUnique(s)
    requires FirstIndex(s, id) != -1
    ensures var i := FirstIndex(s, id); Without(s, "id", id) == s[..i] + s[i + 1..]
  {
    var i := FirstIndex(s, id);
    var tail := s[1..];
    if i == 0 {
      forall k | 0 <= k < |tail|
        ensures !Refers(tail[k], "id", id)
      {
        assert tail[k] == s[k + 1];
        assert !SameId(s[0], s[k + 1]);
      }
      WithoutNothing(tail, "id", id);
      assert Without(s, "id", id) == [] + Without(tail, "id", id);
    } else {
      IdsUniqueTail(s);
      assert FirstIndex(tail, id) == i - 1;
      WithoutUniqueId(tail, id);
      assert Without(s, "id", id) == [s[0]] + Without(tail, "id", id);
      assert tail[..i - 1] == s[1..i];
      assert tail[i..] == s[i + 1..];
      assert [s[0]] + s[1..i] == s[..i];
    }
  }

  /** The loop of `Array.prototype.filter`: a new array holding the records kept, in order. */
  method Filter(s: seq<Record>, key: string, id: Option<int>) returns (r: seq<Record>)
    ensures r == Without(s, key, id)
  {
    r := [];
    var i := 0;
    while i < |s|
      invariant 0 <= i <= |s|
      invariant r == Without(s[..i], key, id)
    {
      WithoutAppend(s[..i], [s[i]], key, id);
      assert s[..i + 1] == s[..i] + [s[i]];
      assert [s[i]][1..] == [];
      assert Without([s[i]], key, id) == if Refers(s[i], key, id) then [] else [s[i]];
      if !Refers(s[i], key, id) {
        r := r + [s[i]];
      }
      i := i + 1;
    }
    assert s[..i] == s;
  }

  // ---------------------------------------------------------------------------------------
  // Clearing a reference

  /** `if (r[key] === id) r[key] = null`. */
  function ClearIfRefers(r: Record, key: string, id: Option<int>): (c: Record)
    ensures !Refers(c, key, id)
    ensures c.Keys == r.Keys
    ensures forall f :: f in r && f != key ==> c[f] == r[f]
    ensures Refers(r, key, id) ==> c[key] == Null
  {
    if Refers(r, key, id) then r[key := Null] else r
  }

  /** Every record of `s` with `r[key] === id` has that field set to `null`; nothing else changes. */
  function Cleared(s: seq<Record>, key: string, id: Option<int>): (c: seq<Record>)
    ensures |c| == |s|
    ensures forall k :: 0 <= k < |s| ==> !Refers(c[k], key, id)
    ensures forall k :: 0 <= k < |s| && Refers(s[k], key, id) ==> c[k] == s[k][key := Null]
    ensures forall k :: 0 <= k < |s| && !Refers(s[k], key, id) ==> c[k] == s[k]
    ensures forall k, f :: 0 <= k < |s| && f != key ==> (f in c[k] <==> f in s[k])
    ensures forall k, f :: 0 <= k < |s| && f != key && f in s[k] ==> c[k][f] == s[k][f]
  {
    seq(|s|, k requires 0 <= k < |s| => ClearIfRefers(s[k], key, id))
  }

  // ---------------------------------------------------------------------------------------
  // Update

  /** `{ ...prior, ...body, id: id }`: the body's fields win over the stored ones, and the id
      is pinned whatever the body says. */
  function Merge(prior: Record, body: Record, id: int): (r: Record)
    ensures r.Keys == prior.Keys + body.Keys + {"id"}
    ensures r["id"] == Num(id)
    ensures forall f :: f in body && f != "id" ==> r[f] == body[f]
    ensures forall f :: f in prior && f !in body && f != "id" ==> r[f] == prior[f]
  {
    prior + body + map["id" := Num(id)]
  }

  // ---------------------------------------------------------------------------------------
  // The ids of a store

  /** Two records that both carry an id carry the same one. */
  predicate SameId(a: Record, b: Record)
  {
    "id" in a && "id" in b && a["id"] == b["id"]
  }

  /** No two records of the store share an id. */
  ghost predicate IdsUnique(s: seq<Record>)
  {
    forall i, j :: 0 <= i < j < |s| ==> !SameId(s[i], s[j])
  }

  lemma IdsUniqueTail(s: seq<Record>)
    requires s != [] && IdsUnique(s)
    ensures IdsUnique(s[1..])
  {
  }

  /** Every id in the store is a number below the counter that issues the next one. */
  ghost predicate IdsBelow(s: seq<Record>, counter: int)
  {
    forall k :: 0 <= k < |s| && "id" in s[k] ==> s[k]["id"].Num? && s[k]["id"].n < counter
  }

  /** Appending a record that carries the counter's id: every earlier id is smaller, the ids stay
      unique and below the advanced counter, and looking the new id up finds the new record. */
  lemma AppendFresh(s: seq<Record>, counter: int, r: Record)
    requires IdsBelow(s, counter) && IdsUnique(s)
    requires "id" in r && r["id"] == Num(counter)
    ensures forall k :: 0 <= k < |s| && "id" in s[k] ==> s[k]["id"].n < r["id"].n
    ensures IdsBelow(s + [r], counter + 1) && IdsUnique(s + [r])
    ensures FirstIndex(s + [r], Some(counter)) == |s|
  {
    var t := s + [r];
    assert forall k :: 0 <= k < |s| ==> t[k] == s[k];
    assert Refers(t[|s|], "id", Some(counter));
  }

  /** Replacing the record at `i` by one with the same id keeps the ids unique and below the counter. */
  lemma ReplaceSameId(s: seq<Record>, counter: int, i: int, r: Record)
    requires IdsBelow(s, counter) && IdsUnique(s)
    requires 0 <= i < |s| && "id" in s[i] && "id" in r && r["id"] == s[i]["id"]
    ensures IdsBelow(s[i := r], counter) && IdsUnique(s[i := r])
  {
  }

  /** Filtering keeps the ids unique and below the counter. */
  lemma {:induction false} WithoutKeepsIds(s: seq<Record>, counter: int, key: string, id: Option<int>)
    requires IdsBelow(s, counter) && IdsUnique(s)
    ensures IdsBelow(Without(s, key, id), counter) && IdsUnique(Without(s, key, id))
  {
    if s != [] {
      var tail := s[1..];
      IdsUniqueTail(s);
      assert IdsBelow(tail, counter) by {
        forall k | 0 <= k < |tail| && "id" in tail[k]
          ensures tail[k]["id"].Num? && tail[k]["id"].n < counter
        {
          assert tail[k] == s[k + 1];
        }
      }
      WithoutKeepsIds(tail, counter, key, id);
      var w := Without(tail, key, id);
      if !Refers(s[0], key, id) {
        var r := [s[0]] + w;
        forall b | 0 < b < |r|
          ensures !SameId(r[0], r[b])
        {
          WithoutMembers(tail, key, id);
          assert r[b] == w[b - 1];
          assert r[b] in tail;
          var j :| 0 <= j < |tail| && tail[j] == r[b];
          assert !SameId(s[0], s[j + 1]);
        }
        forall a, b | 0 < a < b < |r|
          ensures !SameId(r[a], r[b])
        {
          assert r[a] == w[a - 1] && r[b] == w[b - 1];
        }
      }
    }
  }

  /** Clearing a field other than the id keeps the ids as they were, so unique and below the counter. */
  lemma ClearedKeepsIds(s: seq<Record>, counter: int, key: string, id: Option<int>)
    requires IdsBelow(s, counter) && IdsUnique(s)
    requires key != "id"
    ensures IdsBelow(Cleared(s, key, id), counter) && IdsUnique(Cleared(s, key, id))
    ensures forall j :: FirstIndex(Cleared(s, key, id), j) == FirstIndex(s, j)
  {
  }
}
