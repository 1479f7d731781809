/** The mirror object's own synchronous work, in place, against the functions of the transition
    system. */
module MirrorObject {
  import opened Basics
  import opened Mirror

  function ListingOf(items: seq<(Key, nat)>): map<Key, nat> {
    if items == [] then map[]
    else ListingOf(items[..|items| - 1])[items[|items| - 1].0 := items[|items| - 1].1]
  }

  lemma {:induction false} ListingKeys(items: seq<(Key, nat)>, k: Key)
    ensures k in ListingOf(items) <==> exists i :: 0 <= i < |items| && items[i].0 == k
  {
    if items != [] {
      var front := items[..|items| - 1];
      ListingKeys(front, k);
      if k in ListingOf(items) && k != items[|items| - 1].0 {
        var i :| 0 <= i < |front| && front[i].0 == k;
        assert items[i].0 == k;
      }
      if i :| 0 <= i < |items| && items[i].0 == k {
        if i < |front| { assert front[i].0 == k; }
      }
    }
  }

  /** Some listed object is larger than the local file, or the local file is absent. */
  ghost predicate NotWhole(items: seq<(Key, nat)>, local: map<Key, Bytes>, k: Key) {
    exists n :: 0 <= n < |items| && items[n].0 == k && (k in local ==> |local[k]| < items[n].1)
  }

  lemma {:induction false} ListedAt(items: seq<(Key, nat)>, n: nat)
    requires n < |items| && forall i, j :: 0 <= i < j < |items| ==> items[i].0 != items[j].0
    ensures items[n].0 in ListingOf(items) && ListingOf(items)[items[n].0] == items[n].1
  {
    if n < |items| - 1 { ListedAt(items[..|items| - 1], n); }
  }

  lemma NotWholeIsShort(items: seq<(Key, nat)>, local: map<Key, Bytes>, k: Key)
    requires forall i, j :: 0 <= i < j < |items| ==> items[i].0 != items[j].0
    ensures NotWhole(items, local, k) <==> Short(local, ListingOf(items), k)
  {
    ListingKeys(items, k);
    if k in ListingOf(items) {
      var n :| 0 <= n < |items| && items[n].0 == k;
      ListedAt(items, n);
    }
  }

  class ArchiveMirror {
    var dirty: set<Key>
    var blocked: set<Key>
    var pending: set<Key>

    /** archive.js's write sink. */
    method Note(k: Key)
      modifies this`dirty
      ensures dirty == old(dirty) + {k}
    {
      dirty := dirty + {k};
    }

    /** The drain's choice for one key of its batch: a blocked key is skipped and stays dirty. */
    method TakeForPush(k: Key) returns (push: bool)
      modifies this`dirty
      ensures push <==> k !in blocked
      ensures dirty == if push then old(dirty) - {k} else old(dirty)
    {
      if k in blocked { return false; }
      dirty := dirty - {k};
      push := true;
    }

    /** Compare every listed object with the disk and swap the pending set, in one step. */
    method Classify(items: seq<(Key, nat)>, ghost s: State, local: map<Key, Bytes>) returns (downloads: seq<Key>)
      requires forall i, j :: 0 <= i < j < |items| ==> items[i].0 != items[j].0
      requires s.pass == Listed(ListingOf(items)) && s.local == local && s.blocked == blocked
      modifies this
      ensures dirty == old(dirty)
      ensures pending == Classified(s).pending && blocked == Classified(s).blocked
      ensures (set k | k in downloads) == Classified(s).pass.queue
      ensures blocked <= old(blocked) && forall k :: k in blocked || k in pending || k in downloads <==> NotWhole(items, local, k)
      ensures forall i, j :: 0 <= i < j < |downloads| ==> downloads[i] != downloads[j]
    {
      var nextPending, nextBlocked: set<Key>, listed: set<Key> := {}, blocked, {};
      downloads := [];
      for n := 0 to |items|
        invariant Sorted(ListingOf(items[..n]), local, s.blocked, nextPending, nextBlocked, listed, downloads)
        invariant dirty == old(dirty) && blocked == s.blocked
      {
        var (key, size) := items[n];
        assert items[..n + 1][..n] == items[..n];
        ListingKeys(items[..n], key);
        nextPending, nextBlocked, listed, downloads :=
          SortKey(key, size, ListingOf(items[..n]), local, s.blocked, nextPending, nextBlocked, listed, downloads);
      }
      assert items[..|items|] == items;
      pending := nextPending;
      blocked := nextBlocked * listed;
      forall k ensures k in blocked || k in pending || k in downloads <==> NotWhole(items, local, k) { NotWholeIsShort(items, local, k); }
    }
  }

  /** The listing so far, sorted: raw keys to fetch lazily, rendered keys to download now, and the
      blocked keys not found whole. */
  ghost predicate Sorted(l: map<Key, nat>, local: map<Key, Bytes>, was: set<Key>,
    pending: set<Key>, blocked: set<Key>, listed: set<Key>, downloads: seq<Key>)
  {
    && listed == l.Keys
    && pending == (set k | k in l && k.RawLayer? && Short(local, l, k))
    && blocked == (set k | k in was && (k in l ==> Short(local, l, k)))
    && (forall k :: k in downloads <==> k in l && k.Rendered? && Short(local, l, k))
    && (forall i, j :: 0 <= i < j < |downloads| ==> downloads[i] != downloads[j])
  }

  /** One more listed object. */
  method SortKey(key: Key, size: nat, ghost l: map<Key, nat>, local: map<Key, Bytes>, ghost was: set<Key>,
    pending: set<Key>, blocked: set<Key>, listed: set<Key>, downloads: seq<Key>)
    returns (pending': set<Key>, blocked': set<Key>, listed': set<Key>, downloads': seq<Key>)
    requires key !in l && Sorted(l, local, was, pending, blocked, listed, downloads)
    ensures Sorted(l[key := size], local, was, pending', blocked', listed', downloads')
  {
    assert forall k :: k != key ==> (Short(local, l, k) <==> Short(local, l[key := size], k));
    pending', blocked', listed', downloads' := pending, blocked, listed + {key}, downloads;
    var localSize := if key in local then |local[key]| else -1;
    if localSize >= size {
      blocked' := blocked - {key};
    } else if key.RawLayer? {
      pending' := pending + {key};
    } else {
      downloads' := downloads + [key];
    }
  }
}
