/** Which transcript owns which file (turma/archive.js): the name of a transcript seen for the first
    time is probed until it is free, so that two transcripts never share a `.jsonl` even though the
    names are built from slugs that collide. */
module Ownership {
  import opened Basics

  /** Transcript ids are nonempty; the routes admit no other. */
  type Id = s: string | s != "" witness "a"
  type Path = string

  const RELPATH_PROBE_MAX: nat := 1000
  const PROBES: nat := 2 * RELPATH_PROBE_MAX + 1
  const SUFFIX: string := ".jsonl"

  /** The rows' file paths (none for a placeholder), and the path index kept beside them. */
  datatype Filing = Filing(rows: map<Id, Option<Path>>, index: map<Path, Id>)

  /** What else a probe looks at: the id in a path's sidecar, and the paths not yet downloaded. */
  datatype Disk = Disk(sidecars: map<Path, Id>, gated: set<Path>)

  // ---- candidates --------------------------------------------------------------------------

  function Decimal(n: nat): string {
    if n < 10 then [('0' as int + n) as char] else Decimal(n / 10) + [('0' as int + n % 10) as char]
  }

  /** The k-th name probed, in order, for a transcript with this base stem and slugged id. */
  function Candidate(stem: string, slug: string, k: nat): Path {
    if k == 0 then stem + SUFFIX
    else if k < RELPATH_PROBE_MAX then stem + "-" + Decimal(k + 1) + SUFFIX
    else if k == RELPATH_PROBE_MAX then stem + "-" + slug + SUFFIX
    else stem + "-" + slug + "-" + Decimal(k - RELPATH_PROBE_MAX) + SUFFIX
  }

  lemma {:induction false} DecimalIsInjective(n: nat, m: nat)
    ensures Decimal(n) == Decimal(m) ==> n == m
  {
    if n >= 10 && m >= 10 && Decimal(n) == Decimal(m) {
      assert Decimal(n)[..|Decimal(n)| - 1] == Decimal(n / 10) && Decimal(m)[..|Decimal(m)| - 1] == Decimal(m / 10);
      DecimalIsInjective(n / 10, m / 10);
      assert Decimal(n)[|Decimal(n)| - 1] == Decimal(m)[|Decimal(m)| - 1];
    } else if n >= 10 || m >= 10 {
      DecimalIsNonempty(n / 10);
      DecimalIsNonempty(m / 10);
    }
  }

  lemma DecimalIsNonempty(n: nat)
    ensures |Decimal(n)| >= 1
  {
  }

  lemma CutEnds(pre: string, mid: string, post: string)
    ensures var s := pre + mid + post; |s| >= |pre| + |post| && s[|pre|..|s| - |post|] == mid
  {
  }

  /** The counted names, and the names seeded with the id, are all different: a thousand each. */
  lemma CandidatesDiffer(stem: string, slug: string, i: nat, j: nat)
    requires i < j < RELPATH_PROBE_MAX || RELPATH_PROBE_MAX <= i < j < PROBES
    ensures Candidate(stem, slug, i) != Candidate(stem, slug, j)
  {
    var base, shift := if j < RELPATH_PROBE_MAX then stem else stem + "-" + slug, if j < RELPATH_PROBE_MAX then 1 else -(RELPATH_PROBE_MAX as int);
    CutEnds(base + "-", Decimal(j + shift), SUFFIX);
    if i == 0 || i == RELPATH_PROBE_MAX {
      DecimalIsNonempty(j + shift);
      assert |base + SUFFIX| < |(base + "-") + Decimal(j + shift) + SUFFIX|;
    } else {
      CutEnds(base + "-", Decimal(i + shift), SUFFIX);
      DecimalIsInjective(i + shift, j + shift);
    }
  }

  /** Someone other than `id` owns the path, as far as anyone can tell. */
  predicate Taken(f: Filing, disk: Disk, path: Path, id: Id) {
    (path in f.index && f.index[path] != id)
    || (path in disk.sidecars && disk.sidecars[path] != id)
    || path in disk.gated
  }

  /** The first free candidate from the k-th on. */
  function FirstFree(f: Filing, disk: Disk, stem: string, slug: string, id: Id, k: nat): Option<Path>
    requires k <= PROBES
    decreases PROBES - k
  {
    if k == PROBES then None
    else if !Taken(f, disk, Candidate(stem, slug, k), id) then Some(Candidate(stem, slug, k))
    else FirstFree(f, disk, stem, slug, id, k + 1)
  }

  /** Candidate j is free, and every one from k up to it is taken. */
  predicate FirstAt(f: Filing, disk: Disk, stem: string, slug: string, id: Id, k: nat, j: nat) {
    k <= j < PROBES && !Taken(f, disk, Candidate(stem, slug, j), id)
    && forall i :: k <= i < j ==> Taken(f, disk, Candidate(stem, slug, i), id)
  }

  /** The first candidate nobody else owns, and none only when every candidate has another owner. */
  lemma {:induction false} FirstFreeIsFree(f: Filing, disk: Disk, stem: string, slug: string, id: Id, k: nat)
    requires k <= PROBES
    ensures var r := FirstFree(f, disk, stem, slug, id, k);
            (r.Some? ==> exists j: nat :: FirstAt(f, disk, stem, slug, id, k, j) && r.value == Candidate(stem, slug, j))
            && (r.Some? ==> !Taken(f, disk, r.value, id))
            && (r.None? <==> forall j: nat :: k <= j < PROBES ==> Taken(f, disk, Candidate(stem, slug, j), id))
    decreases PROBES - k
  {
    if k < PROBES {
      if Taken(f, disk, Candidate(stem, slug, k), id) {
        FirstFreeIsFree(f, disk, stem, slug, id, k + 1);
        var r := FirstFree(f, disk, stem, slug, id, k);
        if r.Some? {
          var j: nat :| FirstAt(f, disk, stem, slug, id, k + 1, j) && r.value == Candidate(stem, slug, j);
          assert FirstAt(f, disk, stem, slug, id, k, j);
        }
      } else {
        assert FirstAt(f, disk, stem, slug, id, k, k);
      }
    }
  }

  // ---- filing ------------------------------------------------------------------------------

  function Put(f: Filing, id: Id, path: Option<Path>): Filing {
    Filing(f.rows[id := path], if path.Some? then f.index[path.value := id] else f.index)
  }

  function PathOf(f: Filing, id: Id): Option<Path> { if id in f.rows then f.rows[id] else None }

  /** A chunk of `id`: its own path if it has one, else the first free candidate; nothing when every
      candidate is taken. */
  function Filed(f: Filing, disk: Disk, id: Id, stem: string, slug: string): Filing {
    var path := if PathOf(f, id).Some? then PathOf(f, id) else FirstFree(f, disk, stem, slug, id, 0);
    if path.None? then f else Put(f, id, path)
  }

  class SessionIndex {
    var sessionsMap: map<Id, Option<Path>>
    var filePathIndex: map<Path, Id>

    ghost function Now(): Filing reads this { Filing(sessionsMap, filePathIndex) }

    constructor ()
      ensures Now() == Filing(map[], map[])
    {
      sessionsMap, filePathIndex := map[], map[];
    }

    method MapPutSession(id: Id, path: Option<Path>)
      modifies this
      ensures Now() == Put(old(Now()), id, path)
    {
      sessionsMap := sessionsMap[id := path];
      if path.Some? { filePathIndex := filePathIndex[path.value := id]; }
    }

    method RelPathOwned(path: Path, id: Id, disk: Disk) returns (owned: bool)
      ensures owned <==> Taken(Now(), disk, path, id)
    {
      if path in filePathIndex && filePathIndex[path] != id { return true; }
      if path in disk.sidecars && disk.sidecars[path] != id { return true; }
      return path in disk.gated;
    }

    /** The base name, the counted names, then the names seeded with the id. */
    method ResolveNewRelPath(id: Id, stem: string, slug: string, disk: Disk) returns (r: Option<Path>)
      ensures r == FirstFree(Now(), disk, stem, slug, id, 0)
      ensures r.Some? && r.value in filePathIndex ==> filePathIndex[r.value] == id
      ensures r.Some? && r.value in disk.sidecars ==> disk.sidecars[r.value] == id
      ensures r.Some? ==> r.value !in disk.gated
      ensures r.None? <==> forall j: nat :: j < PROBES ==> Taken(Now(), disk, Candidate(stem, slug, j), id)
    {
      FirstFreeIsFree(Now(), disk, stem, slug, id, 0);
      var base := stem + SUFFIX;
      var owned := RelPathOwned(base, id, disk);
      if !owned { return Some(base); }
      var n: nat := 2;
      while n <= RELPATH_PROBE_MAX
        invariant 2 <= n <= RELPATH_PROBE_MAX + 1
        invariant FirstFree(Now(), disk, stem, slug, id, 0) == FirstFree(Now(), disk, stem, slug, id, n - 1)
      {
        var cand := stem + "-" + Decimal(n) + SUFFIX;
        owned := RelPathOwned(cand, id, disk);
        if !owned { return Some(cand); }
        n := n + 1;
      }
      n := 0;
      while n <= RELPATH_PROBE_MAX
        invariant n <= RELPATH_PROBE_MAX + 1
        invariant FirstFree(Now(), disk, stem, slug, id, 0) == FirstFree(Now(), disk, stem, slug, id, RELPATH_PROBE_MAX + n)
      {
        var cand := if n == 0 then stem + "-" + slug + SUFFIX else stem + "-" + slug + "-" + Decimal(n) + SUFFIX;
        owned := RelPathOwned(cand, id, disk);
        if !owned { return Some(cand); }
        n := n + 1;
      }
      return None;
    }

    /** Where an accepted chunk goes. */
    method FileChunk(id: Id, stem: string, slug: string, disk: Disk) returns (path: Option<Path>)
      modifies this
      ensures Now() == Filed(old(Now()), disk, id, stem, slug)
      ensures path.Some? ==> id in sessionsMap && sessionsMap[id] == path
      ensures path.Some? && PathOf(old(Now()), id).None? && path.value in disk.sidecars ==> disk.sidecars[path.value] == id
      ensures path.Some? && PathOf(old(Now()), id).None? ==> path.value !in disk.gated
    {
      if id in sessionsMap && sessionsMap[id].Some? {
        path := sessionsMap[id];
      } else {
        path := ResolveNewRelPath(id, stem, slug, disk);
      }
      if path.None? { return; }
      MapPutSession(id, path);
    }
  }

  // ---- ownership over every run --------------------------------------------------------------

  /** No two transcripts share a path. */
  ghost predicate Injective(f: Filing) {
    forall a, b :: a in f.rows && b in f.rows && f.rows[a].Some? && f.rows[a] == f.rows[b] ==> a == b
  }

  /** The index says exactly what the rows say, the other way round. */
  ghost predicate Inverse(f: Filing) {
    (forall p :: p in f.index ==> f.index[p] in f.rows && f.rows[f.index[p]] == Some(p))
    && (forall id :: id in f.rows && f.rows[id].Some? ==> f.rows[id].value in f.index && f.index[f.rows[id].value] == id)
  }

  /** A chunk with whatever names, slugs, sidecars and gates it meets; a manifest placeholder; a row
      rewritten in place. */
  datatype Step =
    | Chunk(id: Id, stem: string, slug: string, disk: Disk)
    | Placeholder(id: Id)
    | Touch(id: Id)

  function Apply(f: Filing, step: Step): Filing {
    match step
    case Chunk(id, stem, slug, disk) => Filed(f, disk, id, stem, slug)
    case Placeholder(id) => if id in f.rows then f else Put(f, id, None)
    case Touch(id) => if id in f.rows then Put(f, id, f.rows[id]) else f
  }

  function Exec(f: Filing, run: seq<Step>): Filing
    decreases |run|
  {
    if run == [] then f else Exec(Apply(f, run[0]), run[1..])
  }

  /** An exact inverse of the index makes the rows injective. */
  lemma InverseIsInjective(f: Filing)
    requires Inverse(f)
    ensures Injective(f)
  {
  }

  /** Filing a path nobody else holds keeps the index an exact inverse. */
  lemma PutKeepsInverse(f: Filing, id: Id, path: Option<Path>)
    requires Inverse(f) && (PathOf(f, id).Some? ==> path == PathOf(f, id))
    requires path.Some? && path.value in f.index ==> f.index[path.value] == id
    ensures Inverse(Put(f, id, path))
  {
    var g := Put(f, id, path);
    forall p | p in g.index ensures g.index[p] in g.rows && g.rows[g.index[p]] == Some(p) {
      if path == Some(p) {
        assert g.index[p] == id;
      } else {
        assert g.index[p] == f.index[p];
      }
    }
  }

  ghost predicate KeepsPaths(f: Filing, g: Filing) {
    forall id :: PathOf(f, id).Some? ==> PathOf(g, id) == PathOf(f, id)
  }

  /** Whatever the step: the index stays the exact inverse, and a path once set stays. */
  lemma StepKeepsOwnership(f: Filing, step: Step)
    requires Inverse(f)
    ensures Inverse(Apply(f, step)) && KeepsPaths(f, Apply(f, step))
  {
    match step
    case Chunk(id, stem, slug, disk) =>
      var path := if PathOf(f, id).Some? then PathOf(f, id) else FirstFree(f, disk, stem, slug, id, 0);
      FirstFreeIsFree(f, disk, stem, slug, id, 0);
      if path.Some? { PutKeepsInverse(f, id, path); }
    case Placeholder(id) => if id !in f.rows { PutKeepsInverse(f, id, None); }
    case Touch(id) => if id in f.rows { PutKeepsInverse(f, id, f.rows[id]); }
  }

  /** Over every run, from an empty index or any other exact one: no two transcripts ever share a
      file, the index is the exact inverse of the rows, and no path ever changes. */
  lemma {:induction false} OwnershipForLife(f: Filing, run: seq<Step>)
    requires Inverse(f)
    ensures var e := Exec(f, run); Inverse(e) && Injective(e) && KeepsPaths(f, e)
    decreases |run|
  {
    if run == [] {
      InverseIsInjective(f);
    } else {
      StepKeepsOwnership(f, run[0]);
      OwnershipForLife(Apply(f, run[0]), run[1..]);
    }
  }
}
