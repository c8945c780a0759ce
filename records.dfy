/** The pure edits the collection handler applies to a loaded array: identifier
    assignment on create, `findIndex` by identifier, and `filter` on delete. */
module Records {
  import opened Wrappers
  import opened Text
  import opened Json

  /** The identifier a create assigns: `Date.now().toString()`. */
  function IdFor(now: nat): JsonValue {
    Str(NatToString(now))
  }

  /** `newRecord.id = Date.now().toString()`: any client-supplied "id" is overwritten,
      every other field is kept as sent. */
  function WithId(body: Record, now: nat): (r: Record)
    ensures IdOf(r) == Some(IdFor(now))
    ensures r.Keys == body.Keys + {IdField}
    ensures forall f :: f in body && f != IdField ==> r[f] == body[f]
  {
    body[IdField := IdFor(now)]
  }

  /** `records.findIndex(r => r.id === v)`: the first position holding a record whose
      identifier is strictly equal to `v`, or -1 when there is none. */
  function FindIndex(s: seq<Record>, v: JsonValue): (i: int)
    ensures -1 <= i < |s|
    ensures i == -1 <==> forall k :: 0 <= k < |s| ==> !HasId(s[k], v)
    ensures 0 <= i ==> HasId(s[i], v) && forall k :: 0 <= k < i ==> !HasId(s[k], v)
    decreases |s|
  {
    if s == [] then -1
    else if HasId(s[0], v) then 0
    else
      var j := FindIndex(s[1..], v);
      if j == -1 then -1 else j + 1
  }

  /** `records.filter(r => r.id !== id)`: the records whose identifier is not the string `id`. */
  function WithoutId(s: seq<Record>, id: string): (r: seq<Record>)
    ensures |r| <= |s|
    ensures forall k :: 0 <= k < |r| ==> !HasId(r[k], Str(id))
    ensures (forall k :: 0 <= k < |s| ==> !HasId(s[k], Str(id))) ==> r == s
    decreases |s|
  {
    if s == [] then []
    else (if HasId(s[0], Str(id)) then [] else [s[0]]) + WithoutId(s[1..], id)
  }

  /** Filtering works element by element: it distributes over concatenation, so the
      survivors keep their relative order. */
  lemma {:induction false} WithoutIdAppend(a: seq<Record>, b: seq<Record>, id: string)
    ensures WithoutId(a + b, id) == WithoutId(a, id) + WithoutId(b, id)
    decreases |a|
  {
    if a == [] {
      assert a + b == b;
    } else {
      var h := if HasId(a[0], Str(id)) then [] else [a[0]];
      assert (a + b)[0] == a[0];
      assert (a + b)[1..] == a[1..] + b;
      calc {
        WithoutId(a + b, id);
        h + WithoutId(a[1..] + b, id);
        { WithoutIdAppend(a[1..], b, id); }
        h + (WithoutId(a[1..], id) + WithoutId(b, id));
        (h + WithoutId(a[1..], id)) + WithoutId(b, id);
      }
    }
  }

  /** Each record with another identifier survives as often as it occurred; each record
      with this identifier is gone. */
  lemma {:induction false} WithoutIdCounts(s: seq<Record>, id: string, x: Record)
    ensures multiset(WithoutId(s, id))[x] == if HasId(x, Str(id)) then 0 else multiset(s)[x]
    decreases |s|
  {
    if s != [] {
      var head, tail := [s[0]], s[1..];
      var kept := if HasId(s[0], Str(id)) then [] else head;
      WithoutIdCounts(tail, id, x);
      assert WithoutId(s, id) == kept + WithoutId(tail, id);
      assert s == head + tail;
      assert multiset(s) == multiset(head) + multiset(tail);
      assert multiset(WithoutId(s, id)) == multiset(kept) + multiset(WithoutId(tail, id));
    }
  }

  /** Deleting twice is deleting once. */
  lemma WithoutIdIdempotent(s: seq<Record>, id: string)
    ensures WithoutId(WithoutId(s, id), id) == WithoutId(s, id)
  {
  }

  /** Every identifier in a sequence of records is distinct from every other. */
  predicate DistinctIds(s: seq<Record>) {
    forall i, j :: 0 <= i < |s| && 0 <= j < |s| && i != j && IdField in s[i] && IdField in s[j] ==>
      s[i][IdField] != s[j][IdField]
  }

  /** After a replacement at the position `FindIndex` found, a lookup of the same
      identifier finds the same position, now holding the new record. */
  lemma {:induction false} ReplaceThenFind(s: seq<Record>, body: Record)
    requires HasTruthyId(body)
    requires 0 <= FindIndex(s, body[IdField])
    ensures FindIndex(s[FindIndex(s, body[IdField]) := body], body[IdField]) == FindIndex(s, body[IdField])
  {
    var v := body[IdField];
    var i := FindIndex(s, v);
    var t := s[i := body];
    StrictEqualsFacts(s[i][IdField], v);
    assert HasId(t[i], v);
    assert forall k :: 0 <= k < i ==> t[k] == s[k];
    var j := FindIndex(t, v);
    assert j != -1;
    assert !(j < i) && !(i < j);
  }

  /** A created record is found at the end of the new array, provided no earlier record
      already carries its identifier. */
  lemma {:induction false} AppendThenFind(s: seq<Record>, body: Record, now: nat)
    requires FindIndex(s, IdFor(now)) == -1
    ensures FindIndex(s + [WithId(body, now)], IdFor(now)) == |s|
  {
    var t := s + [WithId(body, now)];
    assert forall k :: 0 <= k < |s| ==> t[k] == s[k];
    assert HasId(t[|s|], IdFor(now));
  }

  /** The array produced by a series of creates, the i-th at time `times[i]`. */
  function CreateAll(s: seq<Record>, bodies: seq<Record>, times: seq<nat>): seq<Record>
    requires |bodies| == |times|
    decreases |bodies|
  {
    if bodies == [] then s else CreateAll(s + [WithId(bodies[0], times[0])], bodies[1..], times[1..])
  }

  predicate StrictlyIncreasing(times: seq<nat>) {
    forall i, j :: 0 <= i < j < |times| ==> times[i] < times[j]
  }

  /** Creates at strictly increasing times on a fresh collection: the collection has one
      record per create, and all assigned identifiers are pairwise distinct. */
  lemma CreatesGetDistinctIds(bodies: seq<Record>, times: seq<nat>)
    requires |bodies| == |times|
    requires StrictlyIncreasing(times)
    ensures |CreateAll([], bodies, times)| == |bodies|
    ensures DistinctIds(CreateAll([], bodies, times))
  {
    CreateAllShape([], bodies, times);
    var r := CreateAll([], bodies, times);
    forall i, j | 0 <= i < |r| && 0 <= j < |r| && i != j && IdField in r[i] && IdField in r[j]
      ensures r[i][IdField] != r[j][IdField]
    {
      NatToStringInjective(times[i], times[j]);
    }
  }

  /** Two creates in the same millisecond assign the same identifier: the clock-based
      scheme does not keep identifiers unique. */
  lemma SameTimeCreatesCollide(a: Record, b: Record, t: nat)
    ensures !DistinctIds(CreateAll([], [a, b], [t, t]))
  {
    var r := CreateAll([], [a, b], [t, t]);
    var w1, w2 := WithId(a, t), WithId(b, t);
    assert [a, b][1..] == [b] && [t, t][1..] == [t];
    assert [] + [w1] == [w1] && [w1] + [w2] == [w1, w2];
    assert r == CreateAll([w1], [b], [t]);
    assert CreateAll([w1], [b], [t]) == CreateAll([w1, w2], [], []);
    assert r == [w1, w2];
    assert r[0][IdField] == r[1][IdField];
  }

  /** A series of creates keeps the old prefix and appends one record per create. */
  lemma {:induction false} CreateAllShape(s: seq<Record>, bodies: seq<Record>, times: seq<nat>)
    requires |bodies| == |times|
    ensures |CreateAll(s, bodies, times)| == |s| + |bodies|
    ensures CreateAll(s, bodies, times)[..|s|] == s
    ensures forall i :: 0 <= i < |bodies| ==> CreateAll(s, bodies, times)[|s| + i] == WithId(bodies[i], times[i])
    decreases |bodies|
  {
    if bodies != [] {
      var s' := s + [WithId(bodies[0], times[0])];
      CreateAllShape(s', bodies[1..], times[1..]);
      var r := CreateAll(s, bodies, times);
      assert r[..|s'|] == s';
      assert r[..|s|] == s'[..|s|];
      forall i | 0 <= i < |bodies|
        ensures r[|s| + i] == WithId(bodies[i], times[i])
      {
        if i == 0 {
          assert r[|s|] == r[..|s'|][|s|];
        } else {
          assert r[|s'| + (i - 1)] == WithId(bodies[1..][i - 1], times[1..][i - 1]);
        }
      }
    }
  }
}
