// The table of unique strings (lstring.c).
module StringTable {
  import opened Objects
  import opened Marking
  import opened Invariants
  import opened Sweeping

  // ---- luaS_resize ----

  // a has been moved when the buckets before i, and the first j strings of bucket i, have been.
  predicate Moved(strt: seq<seq<Id>>, i: nat, j: nat, a: Id) {
    (exists k :: 0 <= k < i && k < |strt| && a in strt[k]) || (i < |strt| && j <= |strt[i]| && a in strt[i][..j])
  }

  ghost predicate Rehashed(s: State, hash: string -> nat, newhash: seq<seq<Id>>, i: nat, j: nat) {
    && i <= |s.strt| && (i < |s.strt| ==> j <= |s.strt[i]|) && (i == |s.strt| ==> j == 0) && |newhash| > 0
    && (forall k, a {:trigger a in newhash[k]} :: 0 <= k < |newhash| && a in newhash[k] ==>
          Moved(s.strt, i, j, a) && a in s.heap && s.heap[a].body.Text? &&
            hash(s.heap[a].body.content) % |newhash| == k)
    && (forall a {:trigger Moved(s.strt, i, j, a)} :: Moved(s.strt, i, j, a) && a in s.heap && s.heap[a].body.Text? ==>
          a in newhash[hash(s.heap[a].body.content) % |newhash|])
    && (forall k :: 0 <= k < |newhash| ==> NoDup(newhash[k]))
    && Total(newhash) == Total(s.strt[..i]) + j
  }

  function EmptyBuckets(n: nat): (b: seq<seq<Id>>)
    ensures |b| == n && forall k :: 0 <= k < n ==> b[k] == []
  {
    seq(n, _ => [])
  }

  lemma {:induction false} TotalEmpty(n: nat)
    ensures Total(EmptyBuckets(n)) == 0
  {
    if n > 0 {
      assert EmptyBuckets(n)[1..] == EmptyBuckets(n - 1);
      TotalEmpty(n - 1);
    }
  }

  lemma {:induction false} TotalSnoc(buckets: seq<seq<Id>>, b: seq<Id>)
    ensures Total(buckets + [b]) == Total(buckets) + |b|
  {
    if buckets == [] {
      assert [] + [b] == [b];
      assert Total([b][1..]) == 0;
    } else {
      TotalSnoc(buckets[1..], b);
      assert (buckets + [b])[1..] == buckets[1..] + [b];
    }
  }

  lemma RehashStart(s: State, hash: string -> nat, n: nat)
    requires StringsOk(s, hash) && n > 0
    ensures Rehashed(s, hash, EmptyBuckets(n), 0, 0)
  {
    TotalEmpty(n);
    assert s.strt[..0] == [];
    assert s.strt[0][..0] == [];
  }

  // One string is chained into its new bucket.
  lemma RehashStep(s: State, hash: string -> nat, newhash: seq<seq<Id>>, i: nat, j: nat)
    requires StringsOk(s, hash) && Rehashed(s, hash, newhash, i, j) && i < |s.strt| && j < |s.strt[i]|
    ensures var p := s.strt[i][j];
            && p in s.heap && s.heap[p].body.Text?
            && var h := hash(s.heap[p].body.content) % |newhash|;
               Rehashed(s, hash, newhash[h := [p] + newhash[h]], i, j + 1)
  {
    var p := s.strt[i][j];
    assert p in s.strt[i] && InBucket(s, hash, p, i);
    var h := hash(s.heap[p].body.content) % |newhash|;
    var newer := newhash[h := [p] + newhash[h]];
    NotYetMoved(s, hash, i, j);
    MovedMore(s.strt, i, j);
    TotalUpdate(newhash, h, [p] + newhash[h]);
    assert p !in newhash[h];
    NoDupAppend([p], newhash[h]);
    forall k, a | 0 <= k < |newer| && a in newer[k]
      ensures Moved(s.strt, i, j + 1, a) && a in s.heap && s.heap[a].body.Text? &&
              hash(s.heap[a].body.content) % |newer| == k
    {
      if k == h && a == p {
      } else {
        assert a in newhash[k];
      }
    }
    forall a | Moved(s.strt, i, j + 1, a) && a in s.heap && s.heap[a].body.Text?
      ensures a in newer[hash(s.heap[a].body.content) % |newer|]
    {
      if a != p {
        assert Moved(s.strt, i, j, a);
      }
    }
  }

  lemma NotYetMoved(s: State, hash: string -> nat, i: nat, j: nat)
    requires StringsOk(s, hash) && i < |s.strt| && j < |s.strt[i]|
    ensures !Moved(s.strt, i, j, s.strt[i][j])
  {
    var p := s.strt[i][j];
    assert p in s.strt[i] && InBucket(s, hash, p, i);
    assert forall k :: 0 <= k < i ==> p !in s.strt[k];
    assert NoDup(s.strt[i]);
  }

  lemma MovedMore(strt: seq<seq<Id>>, i: nat, j: nat)
    requires i < |strt| && j < |strt[i]|
    ensures forall a :: Moved(strt, i, j + 1, a) <==> Moved(strt, i, j, a) || a == strt[i][j]
  {
    assert strt[i][..j + 1] == strt[i][..j] + [strt[i][j]];
    forall a
      ensures Moved(strt, i, j + 1, a) <==> Moved(strt, i, j, a) || a == strt[i][j]
    {
      assert a in strt[i][..j + 1] <==> a in strt[i][..j] || a == strt[i][j];
    }
  }

  // The next bucket
  lemma RehashNext(s: State, hash: string -> nat, newhash: seq<seq<Id>>, i: nat)
    requires i < |s.strt| && Rehashed(s, hash, newhash, i, |s.strt[i]|)
    ensures Rehashed(s, hash, newhash, i + 1, 0)
  {
    assert s.strt[i][..|s.strt[i]|] == s.strt[i];
    assert s.strt[..i + 1] == s.strt[..i] + [s.strt[i]];
    TotalSnoc(s.strt[..i], s.strt[i]);
    forall k, a | 0 <= k < |newhash| && a in newhash[k]
      ensures Moved(s.strt, i + 1, 0, a)
    {
      MovedNext(s.strt, i, a);
    }
    forall a | Moved(s.strt, i + 1, 0, a) && a in s.heap && s.heap[a].body.Text?
      ensures a in newhash[hash(s.heap[a].body.content) % |newhash|]
    {
      MovedNext(s.strt, i, a);
    }
  }

  lemma MovedNext(strt: seq<seq<Id>>, i: nat, a: Id)
    requires i < |strt|
    ensures Moved(strt, i + 1, 0, a) <==> Moved(strt, i, |strt[i]|, a)
  {
    assert strt[i][..|strt[i]|] == strt[i];
    if Moved(strt, i, |strt[i]|, a) {
      var k :| 0 <= k < i + 1 && a in strt[k];
      assert exists m :: 0 <= m < i + 1 && m < |strt| && a in strt[m];
    }
  }

  lemma RehashEnd(s: State, hash: string -> nat, newhash: seq<seq<Id>>)
    requires StringsOk(s, hash) && Rehashed(s, hash, newhash, |s.strt|, 0)
    ensures StringsOk(s.(strt := newhash), hash)
  {
    var s' := s.(strt := newhash);
    assert s.strt[..|s.strt|] == s.strt;
    forall i, a | 0 <= i < |newhash| && a in newhash[i]
      ensures InBucket(s', hash, a, i)
    {
    }
    forall a | a in s.heap && s.heap[a].body.Text?
      ensures a in newhash[hash(s.heap[a].body.content) % |newhash|]
    {
      var i := hash(s.heap[a].body.content) % |s.strt|;
      assert a in s.strt[i];
      assert Moved(s.strt, |s.strt|, 0, a);
    }
  }

  lemma ResizedBase(s: State, newhash: seq<seq<Id>>, hash: string -> nat)
    requires Base(s, hash) && StringsOk(s.(strt := newhash), hash)
    ensures Base(s.(strt := newhash), hash)
  {
    SameHeapBase(s, s.(strt := newhash), hash);
  }

  // Outside the phase that sweeps them, the buckets play no part in the phase.
  lemma ResizedPhase(s: State, newhash: seq<seq<Id>>, hash: string -> nat)
    requires Inv(s, hash) && Base(s.(strt := newhash), hash) && s.phase != GCSsweepstring
    ensures PhaseOk(s.(strt := newhash))
  {
    var s' := s.(strt := newhash);
    match s.phase
    case GCSpropagate =>
      forall a, b | a in s'.heap && IsBlack(s'.heap[a].marks) && Holds(s', a, b)
        ensures NonWhite(s', b)
      {
        HoldsSame(s, s', a, b);
        assert NonWhite(s, b);
      }
    case GCSsweep =>
      forall i, a | 0 <= i < |s'.strt| && a in s'.strt[i]
        ensures a in s'.heap && CurrentWhite(s', a)
      {
        assert InBucket(s', hash, a, i);
        assert a in s.strt[hash(s.heap[a].body.content) % |s.strt|];
      }
      forall i | 0 <= i < s'.sweep && i < |s'.rootgc|
        ensures SweptObject(s', s'.rootgc[i])
      {
        assert SweptObject(s, s.rootgc[i]);
      }
    case _ =>
  }

  // The state that lua_newstate sets up
  lemma NewStateInv(s: State, hash: string -> nat)
    requires s.heap.Keys == {0, 1, 2} && s.rootgc == [2, 1, 0] && s.uvhead == [] && s.phase == GCSpause && !s.white &&
             s.sweep == 0
    requires |s.strt| > 0 && (forall k :: 0 <= k < |s.strt| ==> s.strt[k] == []) && s.nuse == Total(s.strt) == 0
    requires s.main == 0 && s.running == 0 && s.registry == Ref(2) && s.mt == []
    requires forall a :: a in s.heap ==> s.heap[a].marks == Marks(true, false, false, a == 0)
    requires s.heap[0].kind == THREAD && s.heap[0].body.Stack? && s.heap[0].body.globals == Ref(1) &&
             s.heap[0].body.openupval == []
    requires s.heap[0].body.top <= |s.heap[0].body.slots| && forall i :: 0 <= i < |s.heap[0].body.slots| ==>
             s.heap[0].body.slots[i] == Nil
    requires s.heap[1].kind == TABLE && s.heap[1].body == Fields([]) && s.heap[2].kind == TABLE &&
             s.heap[2].body == Fields([])
    ensures Inv(s, hash)
  {
  }

  // luaS_fix
  lemma FixedInv(s: State, a: Id, hash: string -> nat)
    requires Inv(s, hash) && a in s.heap && s.heap[a].kind == STRING
    ensures Inv(Recoloured(s, a, s.heap[a].marks.(fixed := true)), hash)
  {
    var s' := Recoloured(s, a, s.heap[a].marks.(fixed := true));
    assert Proper(s.heap[a]);
    SameBodiesSkeleton(s, s');
    ThreadsKept(s, s');
    ListsKept(s, s', hash);
    FixedLive(s, a);
    FixedPhase(s, a);
  }

  lemma FixedLive(s: State, a: Id)
    requires AllProper(s) && RootsOk(s) && FixedOk(s) && LiveClosed(s) && a in s.heap && s.heap[a].kind == STRING
    ensures var s' := Recoloured(s, a, s.heap[a].marks.(fixed := true));
            AllProper(s') && RootsOk(s') && FixedOk(s') && LiveClosed(s')
  {
    var s' := Recoloured(s, a, s.heap[a].marks.(fixed := true));
    assert Proper(s.heap[a]);
    forall x, b | x in s'.heap && !DeadIn(s', x) && Holds(s', x, b)
      ensures Alive(s, b)
    {
      HoldsSame(s, s', x, b);
    }
    NothingNewLive(s, s');
  }

  lemma FixedPhase(s: State, a: Id)
    requires PhaseOk(s) && a in s.heap && s.heap[a].kind == STRING
    ensures PhaseOk(Recoloured(s, a, s.heap[a].marks.(fixed := true)))
  {
    var s' := Recoloured(s, a, s.heap[a].marks.(fixed := true));
    match s.phase
    case GCSpropagate => FixedPropagate(s, a);
    case GCSsweepstring => FixedSwept(s, a, s.sweepstr);
    case GCSsweep => FixedSwept(s, a, |s.strt|);
    case _ =>
      forall x | x in s'.heap
        ensures CurrentWhite(s', x)
      {
        assert CurrentWhite(s, x);
      }
  }

  lemma FixedPropagate(s: State, a: Id)
    requires NoneDead(s) && GrayOk(s) && BlackOk(s, {}) && a in s.heap
    ensures var s' := Recoloured(s, a, s.heap[a].marks.(fixed := true)); NoneDead(s') && GrayOk(s') && BlackOk(s', {})
  {
    var s' := Recoloured(s, a, s.heap[a].marks.(fixed := true));
    forall x | InLists(s', x)
      ensures x in s'.heap && IsGray(s'.heap[x].marks) && Listable(s'.heap[x].kind)
    {
      assert InLists(s, x);
    }
    assert forall x :: x in s'.heap && IsGray(s'.heap[x].marks) && Listable(s'.heap[x].kind) ==> InLists(s, x);
    forall x, b | x in s'.heap && IsBlack(s'.heap[x].marks) && Holds(s', x, b)
      ensures NonWhite(s', b)
    {
      HoldsSame(s, s', x, b);
      assert NonWhite(s, b);
    }
    forall x | x in s'.heap
      ensures !DeadIn(s', x)
    {
      assert !DeadIn(s, x);
    }
  }

  lemma FixedSwept(s: State, a: Id, buckets: nat)
    requires Swept(s, buckets) && a in s.heap
    ensures Swept(Recoloured(s, a, s.heap[a].marks.(fixed := true)), buckets)
  {
    var s' := Recoloured(s, a, s.heap[a].marks.(fixed := true));
    forall i | 0 <= i < s'.sweep && i < |s'.rootgc|
      ensures SweptObject(s', s'.rootgc[i])
    {
      assert SweptObject(s, s.rootgc[i]);
    }
  }
}
