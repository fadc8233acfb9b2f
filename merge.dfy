/**
 * The pure half of `searchRetroGamingTracks`: the per-query results are
 * concatenated, duplicates by `id` are filtered out keeping the first
 * occurrence (`filter` + `findIndex`), and the survivors are cut to 20
 * (`slice(0, 20)`).
 */
module TrackMerge {
  import opened SpotifyTypes

  /** How many deduplicated tracks the retro search returns at most. */
  const RetroCap: nat := 20

  /** `self.findIndex(t => t.id === id)`: the first position holding `id`, or -1. */
  function FindIndex(s: seq<Track>, id: string): (i: int)
    ensures -1 <= i < |s|
    ensures 0 <= i ==> s[i].id == id
    ensures forall j :: 0 <= j < |s| && (i == -1 || j < i) ==> s[j].id != id
  {
    if s == [] then -1
    else if s[0].id == id then 0
    else
      var k := FindIndex(s[1..], id);
      if k == -1 then -1 else k + 1
  }

  /**
   * The elements of `s` from position `k` on whose position is the first
   * position of their `id` in the whole of `s`, in their order in `s`.
   */
  function KeepFirsts(s: seq<Track>, k: nat): seq<Track>
    decreases |s| - k
  {
    if k >= |s| then []
    else (if FindIndex(s, s[k].id) == k then [s[k]] else []) + KeepFirsts(s, k + 1)
  }

  /** Every track kept from position `k` on is the first track of `s` with its id, found at or after `k`. */
  lemma {:induction false} KeepFirstsSound(s: seq<Track>, k: nat)
    ensures forall x :: x in KeepFirsts(s, k) ==>
      k <= FindIndex(s, x.id) && s[FindIndex(s, x.id)] == x
    decreases |s| - k
  {
    if k < |s| {
      KeepFirstsSound(s, k + 1);
    }
  }

  /** The first positions in `s` of the ids of `r` strictly increase along `r`. */
  predicate InFirstPositionOrder(s: seq<Track>, r: seq<Track>)
  {
    forall i, j :: 0 <= i < j < |r| ==> FindIndex(s, r[i].id) < FindIndex(s, r[j].id)
  }

  /** The tracks kept appear in the order of their positions in `s`. */
  lemma {:induction false} KeepFirstsOrdered(s: seq<Track>, k: nat)
    ensures InFirstPositionOrder(s, KeepFirsts(s, k))
    decreases |s| - k
  {
    if k < |s| {
      KeepFirstsOrdered(s, k + 1);
      KeepFirstsSound(s, k + 1);
      var rest := KeepFirsts(s, k + 1);
      if FindIndex(s, s[k].id) == k {
        assert KeepFirsts(s, k) == [s[k]] + rest;
        OrderedCons(s, s[k], rest);
      } else {
        assert KeepFirsts(s, k) == rest;
      }
    }
  }

  /** Putting in front a track whose first position precedes all of `rest`'s keeps the order. */
  lemma OrderedCons(s: seq<Track>, x: Track, rest: seq<Track>)
    requires InFirstPositionOrder(s, rest)
    requires forall y :: y in rest ==> FindIndex(s, x.id) < FindIndex(s, y.id)
    ensures InFirstPositionOrder(s, [x] + rest)
  {
    var r := [x] + rest;
    forall i, j | 0 <= i < j < |r|
      ensures FindIndex(s, r[i].id) < FindIndex(s, r[j].id)
    {
      assert r[j] == rest[j - 1] && r[j] in rest;
      if i > 0 {
        assert r[i] == rest[i - 1];
      }
    }
  }

  /** Every id whose first occurrence lies at or after `k` is kept. */
  lemma {:induction false} KeepFirstsComplete(s: seq<Track>, k: nat)
    ensures forall i :: k <= i < |s| && k <= FindIndex(s, s[i].id) ==>
      s[FindIndex(s, s[i].id)] in KeepFirsts(s, k)
    decreases |s| - k
  {
    if k < |s| {
      KeepFirstsComplete(s, k + 1);
      var rest := KeepFirsts(s, k + 1);
      var head := if FindIndex(s, s[k].id) == k then [s[k]] else [];
      assert KeepFirsts(s, k) == head + rest;
      forall i | k <= i < |s| && k <= FindIndex(s, s[i].id)
        ensures s[FindIndex(s, s[i].id)] in head + rest
      {
        var f := FindIndex(s, s[i].id);
        if f == k {
          assert s[k].id == s[i].id;
          assert s[f] in head;
        } else {
          assert i != k && s[f] in rest;
        }
      }
    }
  }

  /** `tracks.filter((track, index, self) => index === self.findIndex(t => t.id === track.id))`. */
  function Dedup(s: seq<Track>): seq<Track>
  {
    KeepFirsts(s, 0)
  }

  /** `s.slice(0, n)`. */
  function Take<T>(s: seq<T>, n: nat): (r: seq<T>)
    ensures |r| == if |s| <= n then |s| else n
    ensures r == s[..|r|]
  {
    if |s| <= n then s else s[..n]
  }

  /** The lists of `rs` one after the other, as repeated `push(...tracks)` builds them. */
  function Flatten<T>(rs: seq<seq<T>>): seq<T>
  {
    if rs == [] then [] else Flatten(rs[..|rs| - 1]) + rs[|rs| - 1]
  }

  /** The deduplication step followed by the cut to 20. */
  function MergeRetro(all: seq<Track>): seq<Track>
  {
    Take(Dedup(all), RetroCap)
  }

  /** No two tracks share an id. */
  predicate DistinctIds(s: seq<Track>)
  {
    forall i, j :: 0 <= i < j < |s| ==> s[i].id != s[j].id
  }

  /** The set of ids occurring in `s`. */
  function Ids(s: seq<Track>): set<string>
  {
    set x | x in s :: x.id
  }

  /**
   * Deduplication keeps exactly one track per id: the first one in `s`,
   * in the order of `s`, and loses no id.
   */
  lemma DedupProperties(s: seq<Track>)
    ensures DistinctIds(Dedup(s))
    ensures Ids(Dedup(s)) == Ids(s)
    ensures forall x :: x in Dedup(s) ==> 0 <= FindIndex(s, x.id) && s[FindIndex(s, x.id)] == x
    ensures forall i, j :: 0 <= i < j < |Dedup(s)| ==>
      FindIndex(s, Dedup(s)[i].id) < FindIndex(s, Dedup(s)[j].id)
  {
    var r := Dedup(s);
    KeepFirstsSound(s, 0);
    KeepFirstsOrdered(s, 0);
    KeepFirstsComplete(s, 0);
    forall i, j | 0 <= i < j < |r| ensures r[i].id != r[j].id {
      assert r[i] in r && r[j] in r;
    }
    forall id | id in Ids(s) ensures id in Ids(r) {
      var x :| x in s && x.id == id;
      var i :| 0 <= i < |s| && s[i] == x;
      assert s[FindIndex(s, s[i].id)] in r;
    }
  }

  /**
   * A second, independent formulation of the filter: walk the list once,
   * remembering the ids already taken, and keep a track iff its id is new.
   */
  function UniqueById(s: seq<Track>, seen: set<string>): seq<Track>
  {
    if s == [] then []
    else if s[0].id in seen then UniqueById(s[1..], seen)
    else [s[0]] + UniqueById(s[1..], seen + {s[0].id})
  }

  /** A position is the first of its id exactly when no earlier track carries that id. */
  lemma FirstPositionIffUnseen(s: seq<Track>, k: nat)
    requires k < |s|
    ensures (FindIndex(s, s[k].id) == k) == (s[k].id !in Ids(s[..k]))
  {
    var i := FindIndex(s, s[k].id);
    if s[k].id in Ids(s[..k]) {
      var x :| x in s[..k] && x.id == s[k].id;
      var j :| 0 <= j < k && s[j] == x;
      assert i <= j;
    }
  }

  lemma IdsSnoc(s: seq<Track>, x: Track)
    ensures Ids(s + [x]) == Ids(s) + {x.id}
  {
    assert forall y :: y in s + [x] <==> y in s || y == x;
  }

  /** The filter from position `k` on is the walk started with the ids of the first `k` tracks. */
  lemma {:induction false} KeepFirstsIsUnique(s: seq<Track>, k: nat)
    requires k <= |s|
    ensures KeepFirsts(s, k) == UniqueById(s[k..], Ids(s[..k]))
    decreases |s| - k
  {
    if k < |s| {
      KeepFirstsIsUnique(s, k + 1);
      UniqueStep(s, k);
    } else {
      assert s[k..] == [];
    }
  }

  /** One step of the induction, from position `k + 1` back to `k`. */
  lemma UniqueStep(s: seq<Track>, k: nat)
    requires k < |s|
    requires KeepFirsts(s, k + 1) == UniqueById(s[k + 1..], Ids(s[..k + 1]))
    ensures KeepFirsts(s, k) == UniqueById(s[k..], Ids(s[..k]))
  {
    FirstPositionIffUnseen(s, k);
    assert s[..k + 1] == s[..k] + [s[k]];
    IdsSnoc(s[..k], s[k]);
    if s[k].id in Ids(s[..k]) {
      SkipStep(s, k);
    } else {
      KeepStep(s, k);
    }
  }

  /** One step of the induction, when the track at `k` repeats an earlier id. */
  lemma SkipStep(s: seq<Track>, k: nat)
    requires k < |s| && FindIndex(s, s[k].id) != k && s[k].id in Ids(s[..k])
    requires Ids(s[..k + 1]) == Ids(s[..k])
    requires KeepFirsts(s, k + 1) == UniqueById(s[k + 1..], Ids(s[..k + 1]))
    ensures KeepFirsts(s, k) == UniqueById(s[k..], Ids(s[..k]))
  {
    var t := s[k..];
    assert t[0] == s[k] && t[1..] == s[k + 1..];
    assert KeepFirsts(s, k) == KeepFirsts(s, k + 1);
  }

  /** One step of the induction, when the track at `k` carries a new id. */
  lemma KeepStep(s: seq<Track>, k: nat)
    requires k < |s| && FindIndex(s, s[k].id) == k && s[k].id !in Ids(s[..k])
    requires Ids(s[..k + 1]) == Ids(s[..k]) + {s[k].id}
    requires KeepFirsts(s, k + 1) == UniqueById(s[k + 1..], Ids(s[..k + 1]))
    ensures KeepFirsts(s, k) == UniqueById(s[k..], Ids(s[..k]))
  {
    var t := s[k..];
    assert t[0] == s[k] && t[1..] == s[k + 1..];
    assert KeepFirsts(s, k) == [s[k]] + KeepFirsts(s, k + 1);
  }

  /** The `filter`/`findIndex` deduplication equals the seen-set walk. */
  lemma DedupIsUniqueById(s: seq<Track>)
    ensures Dedup(s) == UniqueById(s, {})
  {
    KeepFirstsIsUnique(s, 0);
    assert s[0..] == s;
    assert Ids(s[..0]) == {};
  }

  /** Two tracks sharing an id: only the first survives. */
  lemma DedupTwoSharingId(a: Track, b: Track)
    requires a.id == b.id
    ensures Dedup([a, b]) == [a]
  {
    var s := [a, b];
    assert FindIndex(s, a.id) == 0;
    assert KeepFirsts(s, 2) == [];
    assert KeepFirsts(s, 1) == [];
  }

  /**
   * The merged retro list: a prefix of the deduplicated concatenation holding
   * one track per distinct id up to 20, hence distinct ids, first occurrences,
   * concatenation order; and all the ids when at most 20 distinct ones were found.
   */
  lemma {:induction false} MergeRetroProperties(all: seq<Track>)
    ensures var r := MergeRetro(all);
      && |r| == (if |Ids(all)| <= RetroCap then |Ids(all)| else RetroCap)
      && r == Dedup(all)[..|r|]
      && DistinctIds(r)
      && (forall x :: x in r ==> 0 <= FindIndex(all, x.id) && all[FindIndex(all, x.id)] == x)
      && (forall i, j :: 0 <= i < j < |r| ==> FindIndex(all, r[i].id) < FindIndex(all, r[j].id))
      && (|Ids(all)| <= RetroCap ==> Ids(r) == Ids(all))
  {
    var d := Dedup(all);
    DedupProperties(all);
    DistinctIdsCount(d);
    var r := MergeRetro(all);
    DedupPrefix(all, |r|);
    if |Ids(all)| <= RetroCap {
      assert r == d;
    }
  }

  /** Every prefix of the deduplicated list keeps its distinct ids, first occurrences and order. */
  lemma DedupPrefix(all: seq<Track>, n: nat)
    requires n <= |Dedup(all)|
    ensures var r := Dedup(all)[..n];
      && DistinctIds(r)
      && (forall x :: x in r ==> 0 <= FindIndex(all, x.id) && all[FindIndex(all, x.id)] == x)
      && (forall i, j :: 0 <= i < j < |r| ==> FindIndex(all, r[i].id) < FindIndex(all, r[j].id))
  {
    var d := Dedup(all);
    var r := d[..n];
    DedupProperties(all);
    forall x | x in r ensures x in d {
      var k :| 0 <= k < |r| && r[k] == x;
      assert d[k] == x;
    }
  }

  /** A list with distinct ids has as many elements as ids. */
  lemma {:induction false} DistinctIdsCount(s: seq<Track>)
    requires DistinctIds(s)
    ensures |Ids(s)| == |s|
  {
    if s != [] {
      var t := s[1..];
      assert DistinctIds(t);
      DistinctIdsCount(t);
      assert Ids(s) == {s[0].id} + Ids(t);
    }
  }

  /** Flattening distributes over concatenation: blocks stay in order. */
  lemma {:induction false} FlattenAppend<T>(a: seq<seq<T>>, b: seq<seq<T>>)
    ensures Flatten(a + b) == Flatten(a) + Flatten(b)
    decreases |b|
  {
    if b != [] {
      var b' := b[..|b| - 1];
      assert (a + b)[..|a + b| - 1] == a + b';
      FlattenAppend(a, b');
    } else {
      assert a + b == a;
    }
  }
}
