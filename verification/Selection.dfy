/** `ORDER BY key LIMIT n` over a finite set of ids. */
module Selection {

  ghost predicate Distinct<T>(s: seq<T>) {
    forall i, j | 0 <= i < j < |s| :: s[i] != s[j]
  }

  /** `out` lists the `limit` ids of `ids` with the smallest keys, in key order. Ties fall either way. */
  ghost predicate IsOldest(ids: set<nat>, key: map<nat, int>, limit: nat, out: seq<nat>)
    requires ids <= key.Keys
  {
    && Distinct(out)
    && (forall i | 0 <= i < |out| :: out[i] in ids)
    && |out| == (if |ids| < limit then |ids| else limit)
    && (forall i, j | 0 <= i < j < |out| :: key[out[i]] <= key[out[j]])
    && (forall i, y | 0 <= i < |out| && y in ids && y !in out :: key[out[i]] <= key[y])
  }

  lemma {:induction false} DistinctSize(s: seq<nat>, all: set<nat>)
    requires Distinct(s)
    requires forall x :: x in all <==> x in s
    ensures |all| == |s|
  {
    if s == [] {
      assert all == {};
    } else {
      var last, init := s[|s| - 1], s[..|s| - 1];
      assert s == init + [last];
      DistinctSize(init, all - {last});
    }
  }

  lemma LeastExists(ids: set<nat>, key: map<nat, int>) returns (least: nat)
    requires ids != {} && ids <= key.Keys
    ensures least in ids && forall x | x in ids :: key[least] <= key[x]
    decreases |ids|
  {
    least :| least in ids;
    var rest := ids - {least};
    if rest != {} {
      var x := LeastExists(rest, key);
      if key[x] < key[least] {
        least := x;
      }
    }
  }

  function Listed(s: seq<nat>): set<nat> {
    set x | x in s
  }

  method Oldest(ids: set<nat>, key: map<nat, int>) returns (least: nat)
    requires ids != {} && ids <= key.Keys
    ensures least in ids
    ensures forall x | x in ids :: key[least] <= key[x]
  {
    least :| least in ids;
    var rest := ids - {least};
    while rest != {}
      invariant rest <= ids && least in ids
      invariant forall x | x in ids && x !in rest :: key[least] <= key[x]
      decreases |rest|
    {
      var x :| x in rest;
      if key[x] < key[least] {
        least := x;
      }
      rest := rest - {x};
    }
  }

  method TakeOldest(ids: set<nat>, key: map<nat, int>, limit: nat) returns (out: seq<nat>)
    requires ids <= key.Keys
    ensures IsOldest(ids, key, limit, out)
  {
    out := [];
    var rest := ids;
    while rest != {} && |out| < limit
      invariant rest <= ids
      invariant forall x :: x in out <==> x in ids && x !in rest
      invariant Distinct(out) && |out| <= limit
      invariant |out| + |rest| == |ids|
      invariant forall i, j | 0 <= i < j < |out| :: key[out[i]] <= key[out[j]]
      invariant forall x, y | x in out && y in rest :: key[x] <= key[y]
      decreases |rest|
    {
      var x := Oldest(rest, key);
      out := out + [x];
      rest := rest - {x};
    }
    assert rest == {} ==> |rest| == 0;
  }

  /** With a limit that no subset reaches, the list is complete. */
  lemma AllAreListed(ids: set<nat>, key: map<nat, int>, limit: nat, out: seq<nat>)
    requires ids <= key.Keys && |key.Keys| <= limit && IsOldest(ids, key, limit, out)
    ensures forall x :: x in out <==> x in ids
  {
    SmallerSize(ids, key.Keys);
    var listed := Listed(out);
    DistinctSize(out, listed);
    forall x | x in listed ensures x in ids {
      var i :| 0 <= i < |out| && out[i] == x;
    }
    assert ids == listed + (ids - listed);
  }

  lemma SmallerSize(a: set<nat>, b: set<nat>)
    requires a <= b
    ensures |a| <= |b|
  {
    assert b == a + (b - a);
  }
}
