/** The archive's byte ceiling (turma/archive.js): a cached walk as the baseline, every accepted
    write charged on top, for the whole store and for each tenant. */
module Ceiling {
  import opened Basics

  type Tenant = string
  const UNTENANTED: Tenant := ""

  const TOTAL_CACHE_MS: nat := 300000
  const FULL_RECHECK_MS: nat := 30000

  datatype File = File(owner: Tenant, bytes: nat)

  /** Bytes of all files. */
  function Total(fs: seq<File>): nat {
    if fs == [] then 0 else Total(fs[..|fs| - 1]) + fs[|fs| - 1].bytes
  }

  /** Bytes of one tenant's files. */
  function Of(fs: seq<File>, t: Tenant): nat {
    if fs == [] then 0
    else Of(fs[..|fs| - 1], t) + if fs[|fs| - 1].owner == t then fs[|fs| - 1].bytes else 0
  }

  /** The files a walk reads, the rest as empty; or the other way round. */
  function Part(fs: seq<File>, seen: set<nat>, inside: bool): (r: seq<File>)
    ensures |r| == |fs|
  {
    seq(|fs|, i requires 0 <= i < |fs| => File(fs[i].owner, if (i in seen) == inside then fs[i].bytes else 0))
  }

  /** Root unreadable, or a walk that reads these files and skips the others' directories. */
  datatype Walk = RootFails | Reads(seen: set<nat>)

  // ---- the meter ---------------------------------------------------------------------------

  datatype Meter = Meter(at: nat, bytes: nat, written: nat, tenantCache: map<Tenant, nat>, tenantWritten: map<Tenant, nat>)

  const Boot := Meter(0, 0, 0, map[], map[])

  function Lookup(m: map<Tenant, nat>, t: Tenant): nat { if t in m then m[t] else 0 }

  function Counted(m: Meter): nat { m.bytes + m.written }

  function TenantBytes(m: Meter, t: Tenant): nat { Lookup(m.tenantCache, t) + Lookup(m.tenantWritten, t) }

  /** What the walk records per tenant: only tenants, never the untenanted files. */
  function ByTenant(fs: seq<File>): (r: map<Tenant, nat>)
    ensures UNTENANTED !in r
  {
    if fs == [] then map[]
    else
      var m, f := ByTenant(fs[..|fs| - 1]), fs[|fs| - 1];
      if f.owner == UNTENANTED then m else m[f.owner := Lookup(m, f.owner) + f.bytes]
  }

  /** A read of the total: cached while young enough, else measured; a failed measurement only
      advances the clock. */
  function Measured(m: Meter, now: nat, age: nat, disk: seq<File>, walk: Walk): Meter {
    if now - m.at < age then m
    else match walk
      case RootFails => m.(at := now)
      case Reads(seen) =>
        var part := Part(disk, seen, true);
        Meter(now, Total(part), 0, ByTenant(part), map[])
  }

  datatype Limits = Limits(total: nat, tenant: nat)

  predicate WasFull(m: Meter, lim: Limits, t: Tenant) {
    (lim.total > 0 && Counted(m) >= lim.total)
    || (t != UNTENANTED && lim.tenant > 0 && TenantBytes(m, t) >= lim.tenant)
  }

  /** Once it counts full, the store is measured again sooner. */
  function CheckAge(m: Meter, lim: Limits, t: Tenant): nat {
    if WasFull(m, lim, t) then FULL_RECHECK_MS else TOTAL_CACHE_MS
  }

  function ForCeiling(m: Meter, lim: Limits, now: nat, t: Tenant, disk: seq<File>, walk: Walk): Meter {
    Measured(m, now, CheckAge(m, lim, t), disk, walk)
  }

  function Charged(m: Meter, t: Tenant, n: nat): Meter {
    m.(written := m.written + n,
       tenantWritten := if t == UNTENANTED then m.tenantWritten else m.tenantWritten[t := Lookup(m.tenantWritten, t) + n])
  }

  class StoreMeter {
    var at: nat
    var bytes: nat
    var written: nat
    var tenantCache: map<Tenant, nat>
    var tenantWritten: map<Tenant, nat>
    const lim: Limits

    ghost function Now(): Meter reads this { Meter(at, bytes, written, tenantCache, tenantWritten) }

    constructor (limits: Limits)
      ensures Now() == Boot && lim == limits
    {
      lim := limits;
      at, bytes, written, tenantCache, tenantWritten := 0, 0, 0, map[], map[];
    }

    method TotalArchiveBytes(now: nat, age: nat, disk: seq<File>, walk: Walk) returns (total: nat)
      modifies this
      ensures Now() == Measured(old(Now()), now, age, disk, walk) && total == Counted(Now())
    {
      if now - at < age { return bytes + written; }
      if walk.RootFails? {
        at := now;
        return bytes + written;
      }
      var sum, tenants := WalkBytes(disk, walk.seen);
      at, bytes, written, tenantCache, tenantWritten := now, sum, 0, tenants, map[];
      return sum;
    }

    /** Refuses exactly when the store or the caller's tenant counts full. */
    method CeilingRefuses(now: nat, t: Tenant, disk: seq<File>, walk: Walk) returns (refused: bool)
      modifies this
      ensures Now() == ForCeiling(old(Now()), lim, now, t, disk, walk)
      ensures refused <==> WasFull(Now(), lim, t)
    {
      var full := (lim.total > 0 && bytes + written >= lim.total)
        || (t != UNTENANTED && lim.tenant > 0 && Lookup(tenantCache, t) + Lookup(tenantWritten, t) >= lim.tenant);
      var total := TotalArchiveBytes(now, if full then FULL_RECHECK_MS else TOTAL_CACHE_MS, disk, walk);
      if lim.total != 0 && total >= lim.total { return true; }
      return t != UNTENANTED && lim.tenant != 0 && Lookup(tenantCache, t) + Lookup(tenantWritten, t) >= lim.tenant;
    }

    method Charge(t: Tenant, n: nat)
      modifies this
      ensures Now() == Charged(old(Now()), t, n)
    {
      written := written + n;
      if t != UNTENANTED { tenantWritten := tenantWritten[t := Lookup(tenantWritten, t) + n]; }
    }
  }

  /** The walk over the store's files. */
  method WalkBytes(disk: seq<File>, seen: set<nat>) returns (sum: nat, tenants: map<Tenant, nat>)
    ensures sum == Total(Part(disk, seen, true)) && tenants == ByTenant(Part(disk, seen, true))
  {
    sum, tenants := 0, map[];
    ghost var part := Part(disk, seen, true);
    for i := 0 to |disk|
      invariant sum == Total(part[..i]) && tenants == ByTenant(part[..i])
    {
      sum, tenants := AddFile(sum, tenants, disk[i], if i in seen then disk[i].bytes else 0, part, i);
    }
    assert part[..|disk|] == part;
  }

  method AddFile(sum: nat, tenants: map<Tenant, nat>, f: File, n: nat, ghost part: seq<File>, ghost i: nat)
    returns (sum': nat, tenants': map<Tenant, nat>)
    requires i < |part| && part[i] == File(f.owner, n) && sum == Total(part[..i]) && tenants == ByTenant(part[..i])
    ensures sum' == Total(part[..i + 1]) && tenants' == ByTenant(part[..i + 1])
  {
    PartNext(part, i);
    sum', tenants' := sum + n, tenants;
    if f.owner != UNTENANTED { tenants' := tenants[f.owner := Lookup(tenants, f.owner) + n]; }
  }

  lemma PartNext(fs: seq<File>, i: nat)
    requires i < |fs|
    ensures Total(fs[..i + 1]) == Total(fs[..i]) + fs[i].bytes
    ensures var m := ByTenant(fs[..i]);
            ByTenant(fs[..i + 1]) == if fs[i].owner == UNTENANTED then m else m[fs[i].owner := Lookup(m, fs[i].owner) + fs[i].bytes]
  {
    assert fs[..i + 1][..i] == fs[..i];
  }

  // ---- sums --------------------------------------------------------------------------------

  lemma {:induction false} ByTenantIsOf(fs: seq<File>, t: Tenant)
    requires t != UNTENANTED
    ensures Lookup(ByTenant(fs), t) == Of(fs, t)
  {
    if fs != [] { ByTenantIsOf(fs[..|fs| - 1], t); }
  }

  lemma {:induction false} PartsAddUp(fs: seq<File>, seen: set<nat>, t: Tenant)
    ensures Total(fs) == Total(Part(fs, seen, true)) + Total(Part(fs, seen, false))
    ensures Of(fs, t) == Of(Part(fs, seen, true), t) + Of(Part(fs, seen, false), t)
  {
    if fs != [] {
      var n := |fs| - 1;
      PartsAddUp(fs[..n], seen, t);
      assert Part(fs, seen, true)[..n] == Part(fs[..n], seen, true);
      assert Part(fs, seen, false)[..n] == Part(fs[..n], seen, false);
    }
  }

  /** Resizing one file moves the sums by just that much. */
  lemma {:induction false} Resized(fs: seq<File>, i: nat, n: nat, t: Tenant)
    requires i < |fs|
    ensures var gs := fs[i := File(fs[i].owner, n)];
            Total(gs) + fs[i].bytes == Total(fs) + n
            && Of(gs, t) + (if fs[i].owner == t then fs[i].bytes else 0) == Of(fs, t) + if fs[i].owner == t then n else 0
  {
    var gs := fs[i := File(fs[i].owner, n)];
    if i == |fs| - 1 {
      assert gs[..i] == fs[..i];
    } else {
      Resized(fs[..|fs| - 1], i, n, t);
      assert gs[..|fs| - 1] == fs[..|fs| - 1][i := File(fs[i].owner, n)];
    }
  }

  // ---- runs --------------------------------------------------------------------------------

  /** `loose` records, file by file, bytes no meter has seen: those there at boot until a walk reads
      them, those the last walk skipped, and those downloaded since. */
  datatype State = State(disk: seq<File>, meter: Meter, loose: seq<File>)

  datatype Step =
    | Create(owner: Tenant)
    | Write(file: nat, n: nat, now: nat, walk: Walk)
    | Shrink(file: nat, to: nat)
    | Read(now: nat, age: nat, walk: Walk)
    | Download(file: nat, n: nat)

  predicate Enabled(s: State, step: Step) {
    match step
    case Create(_) => true
    case Write(i, _, _, _) => i < |s.disk|
    case Shrink(i, to) => i < |s.disk| && to <= s.disk[i].bytes
    case Read(_, _, _) => true
    case Download(i, n) => i < |s.disk| && n >= s.disk[i].bytes
  }

  function Resize(fs: seq<File>, i: nat, n: nat): seq<File>
    requires i < |fs|
  {
    fs[i := File(fs[i].owner, n)]
  }

  /** The state after a read of the total. */
  function AfterMeasure(s: State, now: nat, age: nat, walk: Walk): State {
    var m := Measured(s.meter, now, age, s.disk, walk);
    if now - s.meter.at < age || walk.RootFails? then s.(meter := m)
    else State(s.disk, m, Part(s.disk, walk.seen, false))
  }

  function AfterCheck(s: State, lim: Limits, step: Step): State
    requires step.Write? && Enabled(s, step)
  {
    AfterMeasure(s, step.now, CheckAge(s.meter, lim, s.disk[step.file].owner), step.walk)
  }

  /** The write goes ahead: neither the store nor its tenant counts full. */
  predicate Accepted(s: State, lim: Limits, step: Step)
    requires step.Write? && Enabled(s, step)
  {
    !WasFull(AfterCheck(s, lim, step).meter, lim, s.disk[step.file].owner)
  }

  predicate Parallel(s: State) {
    |s.loose| == |s.disk| && forall i :: 0 <= i < |s.disk| ==> s.loose[i].owner == s.disk[i].owner
  }

  function Apply(s: State, lim: Limits, step: Step): State
    requires Enabled(s, step) && Parallel(s)
  {
    match step
    case Create(owner) => s.(disk := s.disk + [File(owner, 0)], loose := s.loose + [File(owner, 0)])
    case Write(i, n, _, _) =>
      var c := AfterCheck(s, lim, step);
      if Accepted(s, lim, step)
      then c.(disk := Resize(c.disk, i, c.disk[i].bytes + n), meter := Charged(c.meter, c.disk[i].owner, n))
      else c
    case Shrink(i, to) => s.(disk := Resize(s.disk, i, to))
    case Read(now, age, walk) => AfterMeasure(s, now, age, walk)
    case Download(i, n) =>
      s.(disk := Resize(s.disk, i, n), loose := Resize(s.loose, i, s.loose[i].bytes + n - s.disk[i].bytes))
  }

  /** Nothing on disk escapes both the meter and the record of loose bytes. */
  ghost predicate Inv(s: State) {
    Parallel(s) && Total(s.disk) <= Counted(s.meter) + Total(s.loose) && forall t :: TenantCounted(s, t)
  }

  predicate TenantCounted(s: State, t: Tenant) {
    t != UNTENANTED ==> Of(s.disk, t) <= TenantBytes(s.meter, t) + Of(s.loose, t)
  }

  lemma MeasureKeepsInv(s: State, now: nat, age: nat, walk: Walk)
    requires Inv(s)
    ensures Inv(AfterMeasure(s, now, age, walk))
  {
    var s' := AfterMeasure(s, now, age, walk);
    if now - s.meter.at >= age && walk.Reads? {
      PartsAddUp(s.disk, walk.seen, UNTENANTED);
      forall t ensures TenantCounted(s', t) {
        PartsAddUp(s.disk, walk.seen, t);
        if t != UNTENANTED { ByTenantIsOf(Part(s.disk, walk.seen, true), t); }
      }
    } else {
      assert forall t :: TenantCounted(s, t) ==> TenantCounted(s', t);
    }
  }

  lemma GrowKeepsInv(s: State, i: nat, n: nat)
    requires Inv(s) && i < |s.disk|
    ensures Inv(s.(disk := Resize(s.disk, i, s.disk[i].bytes + n), meter := Charged(s.meter, s.disk[i].owner, n)))
  {
    var s' := s.(disk := Resize(s.disk, i, s.disk[i].bytes + n), meter := Charged(s.meter, s.disk[i].owner, n));
    Resized(s.disk, i, s.disk[i].bytes + n, UNTENANTED);
    forall t ensures TenantCounted(s', t) {
      assert TenantCounted(s, t);
      Resized(s.disk, i, s.disk[i].bytes + n, t);
    }
  }

  lemma ShrinkKeepsInv(s: State, i: nat, to: nat)
    requires Inv(s) && i < |s.disk| && to <= s.disk[i].bytes
    ensures Inv(s.(disk := Resize(s.disk, i, to)))
  {
    var s' := s.(disk := Resize(s.disk, i, to));
    Resized(s.disk, i, to, UNTENANTED);
    forall t ensures TenantCounted(s', t) {
      assert TenantCounted(s, t);
      Resized(s.disk, i, to, t);
    }
  }

  lemma DownloadKeepsInv(s: State, i: nat, n: nat)
    requires Inv(s) && i < |s.disk| && n >= s.disk[i].bytes
    ensures Inv(s.(disk := Resize(s.disk, i, n), loose := Resize(s.loose, i, s.loose[i].bytes + n - s.disk[i].bytes)))
  {
    var more := s.loose[i].bytes + n - s.disk[i].bytes;
    var s' := s.(disk := Resize(s.disk, i, n), loose := Resize(s.loose, i, more));
    Resized(s.disk, i, n, UNTENANTED);
    Resized(s.loose, i, more, UNTENANTED);
    forall t ensures TenantCounted(s', t) {
      assert TenantCounted(s, t);
      Resized(s.disk, i, n, t);
      Resized(s.loose, i, more, t);
    }
  }

  lemma CreateKeepsInv(s: State, owner: Tenant)
    requires Inv(s)
    ensures Inv(s.(disk := s.disk + [File(owner, 0)], loose := s.loose + [File(owner, 0)]))
  {
    var s' := s.(disk := s.disk + [File(owner, 0)], loose := s.loose + [File(owner, 0)]);
    assert s'.disk[..|s.disk|] == s.disk && s'.loose[..|s.loose|] == s.loose;
    assert forall t :: TenantCounted(s, t) ==> TenantCounted(s', t);
  }

  lemma StepKeepsInv(s: State, lim: Limits, step: Step)
    requires Inv(s) && Enabled(s, step)
    ensures Inv(Apply(s, lim, step))
  {
    match step
    case Create(owner) => CreateKeepsInv(s, owner);
    case Write(_, _, _, _) => WriteKeepsInv(s, lim, step);
    case Shrink(i, to) => ShrinkKeepsInv(s, i, to);
    case Read(now, age, walk) => MeasureKeepsInv(s, now, age, walk);
    case Download(i, n) => DownloadKeepsInv(s, i, n);
  }

  lemma WriteKeepsInv(s: State, lim: Limits, step: Step)
    requires Inv(s) && step.Write? && Enabled(s, step)
    ensures Inv(Apply(s, lim, step))
  {
    CheckKeepsInv(s, lim, step);
    if Accepted(s, lim, step) { GrowKeepsInv(AfterCheck(s, lim, step), step.file, step.n); }
  }

  lemma CheckKeepsInv(s: State, lim: Limits, step: Step)
    requires Inv(s) && step.Write? && Enabled(s, step)
    ensures Inv(AfterCheck(s, lim, step)) && AfterCheck(s, lim, step).disk == s.disk
  {
    MeasureKeepsInv(s, step.now, CheckAge(s.meter, lim, s.disk[step.file].owner), step.walk);
  }

  predicate Legal(s: State, lim: Limits, run: seq<Step>)
    requires Parallel(s)
    decreases |run|
  {
    run == [] || (Enabled(s, run[0]) && Parallel(Apply(s, lim, run[0])) && Legal(Apply(s, lim, run[0]), lim, run[1..]))
  }

  function Exec(s: State, lim: Limits, run: seq<Step>): (r: State)
    requires Parallel(s) && Legal(s, lim, run)
    ensures Parallel(r)
    decreases |run|
  {
    if run == [] then s else Exec(Apply(s, lim, run[0]), lim, run[1..])
  }

  /** A hub that starts over files it has never measured. */
  function Started(disk: seq<File>): State { State(disk, Boot, disk) }

  lemma StartedInv(disk: seq<File>)
    ensures Inv(Started(disk))
  {
  }

  lemma {:induction false} RunKeepsInv(s: State, lim: Limits, run: seq<Step>)
    requires Inv(s) && Legal(s, lim, run)
    ensures Inv(Exec(s, lim, run))
    decreases |run|
  {
    if run != [] {
      StepKeepsInv(s, lim, run[0]);
      RunKeepsInv(Apply(s, lim, run[0]), lim, run[1..]);
    }
  }

  /** In every run from boot, whatever fails: an accepted write starts below the ceiling, and below its
      tenant's quota, but for the bytes no walk or charge has seen. */
  lemma AcceptedStartsBelow(disk: seq<File>, lim: Limits, run: seq<Step>, w: Step)
    requires Legal(Started(disk), lim, run)
    requires w.Write? && Enabled(Exec(Started(disk), lim, run), w)
    requires Accepted(Exec(Started(disk), lim, run), lim, w)
    ensures var s := Exec(Started(disk), lim, run);
            var loose, t := AfterCheck(s, lim, w).loose, s.disk[w.file].owner;
            (lim.total > 0 ==> Total(s.disk) < lim.total + Total(loose))
            && (lim.tenant > 0 && t != UNTENANTED ==> Of(s.disk, t) < lim.tenant + Of(loose, t))
  {
    StartedInv(disk);
    RunKeepsInv(Started(disk), lim, run);
    var s := Exec(Started(disk), lim, run);
    CheckKeepsInv(s, lim, w);
    assert TenantCounted(AfterCheck(s, lim, w), s.disk[w.file].owner);
  }

  // ---- when exactly the ceiling holds ----------------------------------------------------------

  /** Whom a limit is on. */
  datatype Scope = Store | One(tenant: Tenant)

  predicate Within(sc: Scope, owner: Tenant) { sc.Store? || owner == sc.tenant }

  predicate Limitable(sc: Scope) { sc != One(UNTENANTED) }

  function Used(fs: seq<File>, sc: Scope): nat { if sc.Store? then Total(fs) else Of(fs, sc.tenant) }

  function CountedFor(m: Meter, sc: Scope): nat { if sc.Store? then Counted(m) else TenantBytes(m, sc.tenant) }

  function LimitOf(lim: Limits, sc: Scope): nat { if sc.Store? then lim.total else lim.tenant }

  /** The count is not below the disk. */
  predicate Covers(s: State, sc: Scope) { Used(s.disk, sc) <= CountedFor(s.meter, sc) }

  /** Whatever the walk skips is empty. */
  predicate SkipsNothing(disk: seq<File>, seen: set<nat>, sc: Scope) {
    forall i :: 0 <= i < |disk| && Within(sc, disk[i].owner) && i !in seen ==> disk[i].bytes == 0
  }

  predicate CleanRead(s: State, now: nat, age: nat, walk: Walk, sc: Scope) {
    now - s.meter.at < age || walk.RootFails? || SkipsNothing(s.disk, walk.seen, sc)
  }

  /** The step counts what it brings: a walk skips no bytes, a download fits what is counted already. */
  predicate Clean(s: State, lim: Limits, step: Step, sc: Scope)
    requires Enabled(s, step)
  {
    match step
    case Write(i, _, now, walk) => CleanRead(s, now, CheckAge(s.meter, lim, s.disk[i].owner), walk, sc)
    case Read(now, age, walk) => CleanRead(s, now, age, walk, sc)
    case Download(i, n) =>
      Within(sc, s.disk[i].owner) ==> Used(s.disk, sc) + n - s.disk[i].bytes <= CountedFor(s.meter, sc)
    case _ => true
  }

  lemma {:induction false} ZeroSums(fs: seq<File>, t: Tenant)
    ensures Total(fs) == 0 <==> forall i :: 0 <= i < |fs| ==> fs[i].bytes == 0
    ensures Of(fs, t) == 0 <==> forall i :: 0 <= i < |fs| && fs[i].owner == t ==> fs[i].bytes == 0
  {
    if fs != [] {
      ZeroSums(fs[..|fs| - 1], t);
      assert forall i :: 0 <= i < |fs| ==> i == |fs| - 1 || fs[..|fs| - 1][i] == fs[i];
    }
  }

  lemma UsedZero(fs: seq<File>, sc: Scope)
    ensures Used(fs, sc) == 0 <==> forall i :: 0 <= i < |fs| && Within(sc, fs[i].owner) ==> fs[i].bytes == 0
  {
    ZeroSums(fs, if sc.Store? then UNTENANTED else sc.tenant);
  }

  lemma UsedResized(fs: seq<File>, i: nat, n: nat, sc: Scope)
    requires i < |fs|
    ensures Used(Resize(fs, i, n), sc) == Used(fs, sc) + if Within(sc, fs[i].owner) then n - fs[i].bytes else 0
  {
    Resized(fs, i, n, if sc.Store? then UNTENANTED else sc.tenant);
  }

  /** A walk's total covers the disk if and only if every file it skips is empty; a tenant's total covers
      the tenant's files if and only if every file of the tenant it skips is. */
  lemma WalkCoversExactly(s: State, now: nat, age: nat, seen: set<nat>, sc: Scope)
    requires Limitable(sc) && now - s.meter.at >= age
    ensures Covers(AfterMeasure(s, now, age, Reads(seen)), sc) <==> SkipsNothing(s.disk, seen, sc)
  {
    var read, skipped := Part(s.disk, seen, true), Part(s.disk, seen, false);
    PartsAddUp(s.disk, seen, if sc.Store? then UNTENANTED else sc.tenant);
    assert Used(s.disk, sc) == Used(read, sc) + Used(skipped, sc);
    assert CountedFor(Meter(now, Total(read), 0, ByTenant(read), map[]), sc) == Used(read, sc) by {
      if sc.One? { ByTenantIsOf(read, sc.tenant); }
    }
    SkippedZero(s.disk, seen, sc);
  }

  lemma SkippedZero(disk: seq<File>, seen: set<nat>, sc: Scope)
    ensures Used(Part(disk, seen, false), sc) == 0 <==> SkipsNothing(disk, seen, sc)
  {
    var skipped := Part(disk, seen, false);
    UsedZero(skipped, sc);
    assert forall i :: 0 <= i < |disk| ==> skipped[i] == File(disk[i].owner, if i in seen then 0 else disk[i].bytes);
  }

  lemma ReadCoversExactly(s: State, now: nat, age: nat, walk: Walk, sc: Scope)
    requires Limitable(sc) && Covers(s, sc)
    ensures Covers(AfterMeasure(s, now, age, walk), sc) <==> CleanRead(s, now, age, walk, sc)
  {
    if walk.Reads? && now - s.meter.at >= age { WalkCoversExactly(s, now, age, walk.seen, sc); }
  }

  /** A write is charged by just what it adds. */
  lemma GrowKeepsGap(s: State, i: nat, n: nat, sc: Scope)
    requires Limitable(sc) && i < |s.disk|
    ensures Used(Resize(s.disk, i, s.disk[i].bytes + n), sc) - Used(s.disk, sc)
         == CountedFor(Charged(s.meter, s.disk[i].owner, n), sc) - CountedFor(s.meter, sc)
  {
    UsedResized(s.disk, i, s.disk[i].bytes + n, sc);
  }

  lemma CheckCoversExactly(s: State, lim: Limits, w: Step, sc: Scope)
    requires Limitable(sc) && w.Write? && Enabled(s, w) && Covers(s, sc)
    ensures Covers(AfterCheck(s, lim, w), sc) <==> Clean(s, lim, w, sc)
  {
    ReadCoversExactly(s, w.now, CheckAge(s.meter, lim, s.disk[w.file].owner), w.walk, sc);
  }

  lemma WriteKeepsCovers(s: State, lim: Limits, w: Step, sc: Scope)
    requires Limitable(sc) && Parallel(s) && w.Write? && Enabled(s, w)
    ensures Covers(Apply(s, lim, w), sc) <==> Covers(AfterCheck(s, lim, w), sc)
  {
    GrowKeepsGap(AfterCheck(s, lim, w), w.file, w.n, sc);
  }

  /** A count that covers the disk goes on covering it after a step if and only if the step is clean. */
  lemma StepCoversExactly(s: State, lim: Limits, step: Step, sc: Scope)
    requires Limitable(sc) && Parallel(s) && Enabled(s, step) && Covers(s, sc)
    ensures Covers(Apply(s, lim, step), sc) <==> Clean(s, lim, step, sc)
  {
    match step
    case Create(owner) => assert Apply(s, lim, step).disk[..|s.disk|] == s.disk;
    case Write(_, _, _, _) =>
      CheckCoversExactly(s, lim, step, sc);
      WriteKeepsCovers(s, lim, step, sc);
    case Shrink(i, to) => UsedResized(s.disk, i, to, sc);
    case Read(now, age, walk) => ReadCoversExactly(s, now, age, walk, sc);
    case Download(i, n) => UsedResized(s.disk, i, n, sc);
  }

  predicate CleanRun(s: State, lim: Limits, run: seq<Step>, sc: Scope)
    requires Parallel(s) && Legal(s, lim, run)
    decreases |run|
  {
    run == [] || (Clean(s, lim, run[0], sc) && CleanRun(Apply(s, lim, run[0]), lim, run[1..], sc))
  }

  predicate CoversThroughout(s: State, lim: Limits, run: seq<Step>, sc: Scope)
    requires Parallel(s) && Legal(s, lim, run)
    decreases |run|
  {
    Covers(s, sc) && (run == [] || CoversThroughout(Apply(s, lim, run[0]), lim, run[1..], sc))
  }

  /** The count covers the disk all through a run if and only if it does at the start and every step
      is clean. */
  lemma {:induction false} RunCoversExactly(s: State, lim: Limits, run: seq<Step>, sc: Scope)
    requires Limitable(sc) && Parallel(s) && Legal(s, lim, run)
    ensures CoversThroughout(s, lim, run, sc) <==> Covers(s, sc) && CleanRun(s, lim, run, sc)
    decreases |run|
  {
    if run != [] && Covers(s, sc) {
      StepCoversExactly(s, lim, run[0], sc);
      RunCoversExactly(Apply(s, lim, run[0]), lim, run[1..], sc);
    }
  }

  /** The store, or the tenant, is below its limit before the write, and past it by less than the write
      after it. */
  predicate StartsBelow(s: State, lim: Limits, w: Step, sc: Scope)
    requires Parallel(s) && w.Write? && Enabled(s, w)
  {
    LimitOf(lim, sc) > 0
    ==> Used(s.disk, sc) < LimitOf(lim, sc) && Used(Apply(s, lim, w).disk, sc) < LimitOf(lim, sc) + w.n
  }

  /** A clean write that the limit is for, and that is accepted. */
  predicate Passes(s: State, lim: Limits, w: Step, sc: Scope) {
    w.Write? && Enabled(s, w) && Within(sc, s.disk[w.file].owner) && Clean(s, lim, w, sc) && Accepted(s, lim, w)
  }

  lemma NotFullIsBelow(m: Meter, lim: Limits, owner: Tenant, sc: Scope)
    requires Limitable(sc) && Within(sc, owner) && !WasFull(m, lim, owner) && LimitOf(lim, sc) > 0
    ensures CountedFor(m, sc) < LimitOf(lim, sc)
  {
  }

  lemma AcceptedGrows(s: State, lim: Limits, w: Step)
    requires Parallel(s) && w.Write? && Enabled(s, w) && Accepted(s, lim, w)
    ensures AfterCheck(s, lim, w).disk == s.disk && Apply(s, lim, w).disk == Resize(s.disk, w.file, s.disk[w.file].bytes + w.n)
  {
  }

  lemma CoveredWriteStartsBelow(s: State, lim: Limits, w: Step, sc: Scope)
    requires Limitable(sc) && Parallel(s) && Covers(s, sc) && Passes(s, lim, w, sc)
    ensures StartsBelow(s, lim, w, sc)
  {
    if LimitOf(lim, sc) > 0 {
      CheckCoversExactly(s, lim, w, sc);
      AcceptedGrows(s, lim, w);
      NotFullIsBelow(AfterCheck(s, lim, w).meter, lim, s.disk[w.file].owner, sc);
      UsedResized(s.disk, w.file, s.disk[w.file].bytes + w.n, sc);
    }
  }

  /** From a count that covers the disk, over any clean run: it goes on covering it and every accepted
      write starts below its limit, so the overshoot is at most that one write. */
  lemma {:induction false} OvershootIsOneWrite(s: State, lim: Limits, run: seq<Step>, sc: Scope)
    requires Limitable(sc) && Parallel(s) && Covers(s, sc) && Legal(s, lim, run) && CleanRun(s, lim, run, sc)
    ensures Covers(Exec(s, lim, run), sc)
    ensures forall w :: Passes(Exec(s, lim, run), lim, w, sc) ==> StartsBelow(Exec(s, lim, run), lim, w, sc)
    decreases |run|
  {
    if run == [] {
      forall w | Passes(s, lim, w, sc) ensures StartsBelow(s, lim, w, sc) { CoveredWriteStartsBelow(s, lim, w, sc); }
    } else {
      StepCoversExactly(s, lim, run[0], sc);
      OvershootIsOneWrite(Apply(s, lim, run[0]), lim, run[1..], sc);
    }
  }

  /** Over every limit and every clean run, every accepted write starts below its limit. */
  ghost predicate StaysBelow(s: State, sc: Scope)
    requires Parallel(s)
  {
    forall lim, run, w :: Legal(s, lim, run) && CleanRun(s, lim, run, sc) && Passes(Exec(s, lim, run), lim, w, sc)
      ==> StartsBelow(Exec(s, lim, run), lim, w, sc)
  }

  /** A count that falls short lets a write through at or past the limit, at once. */
  lemma ShortCountAccepts(s: State, n: nat, sc: Scope) returns (lim: Limits, w: Step)
    requires Limitable(sc) && Parallel(s) && !Covers(s, sc)
    ensures Passes(s, lim, w, sc) && w.n == n && !StartsBelow(s, lim, w, sc)
  {
    UsedZero(s.disk, sc);
    var i :| 0 <= i < |s.disk| && Within(sc, s.disk[i].owner) && s.disk[i].bytes > 0;
    var most := CountedFor(s.meter, sc) + 1;
    lim := if sc.Store? then Limits(most, 0) else Limits(0, most);
    w := Write(i, n, s.meter.at, RootFails);
    FailedWalkKeepsCount(s, lim, w);
  }

  /** The ceiling, and each tenant's quota, hold over every limit and every clean run if and only if
      the count starts out covering the disk. */
  lemma CeilingExactly(s: State, sc: Scope)
    requires Limitable(sc) && Parallel(s)
    ensures StaysBelow(s, sc) <==> Covers(s, sc)
  {
    if Covers(s, sc) {
      forall lim, run, w | Legal(s, lim, run) && CleanRun(s, lim, run, sc) && Passes(Exec(s, lim, run), lim, w, sc)
        ensures StartsBelow(Exec(s, lim, run), lim, w, sc)
      {
        OvershootIsOneWrite(s, lim, run, sc);
      }
    } else {
      var lim, w := ShortCountAccepts(s, 0, sc);
      assert Legal(s, lim, []) && CleanRun(s, lim, [], sc) && Exec(s, lim, []) == s;
    }
  }

  /** A hub that starts over files it has never measured is such a state only if they are all empty. */
  lemma BootCoversExactly(disk: seq<File>, sc: Scope)
    ensures Covers(Started(disk), sc) <==> forall i :: 0 <= i < |disk| && Within(sc, disk[i].owner) ==> disk[i].bytes == 0
  {
    UsedZero(disk, sc);
  }

  // ---- when a write is accepted ------------------------------------------------------------------

  predicate BelowLimits(total: nat, mine: nat, lim: Limits, t: Tenant) {
    (lim.total > 0 ==> total < lim.total) && (t != UNTENANTED && lim.tenant > 0 ==> mine < lim.tenant)
  }

  predicate ReadsAll(disk: seq<File>, seen: set<nat>) { forall i :: 0 <= i < |disk| ==> i in seen }

  lemma WholePart(disk: seq<File>, seen: set<nat>)
    requires ReadsAll(disk, seen)
    ensures Part(disk, seen, true) == disk
  {
  }

  /** A count older than five minutes, or than half a minute once it is full, is measured again, and then
      the disk decides; a younger one, or one whose walk fails, decides as it stands. So space that was
      freed is seen within half a minute, and a store that is not full is walked every five minutes only. */
  lemma AcceptedExactly(s: State, lim: Limits, w: Step)
    requires w.Write? && Enabled(s, w) && (w.walk.Reads? ==> ReadsAll(s.disk, w.walk.seen))
    ensures var t := s.disk[w.file].owner;
            var counted := BelowLimits(Counted(s.meter), TenantBytes(s.meter, t), lim, t);
            Accepted(s, lim, w) <==>
              if w.walk.Reads? && w.now - s.meter.at >= (if counted then 300000 else 30000)
              then BelowLimits(Total(s.disk), Of(s.disk, t), lim, t) else counted
  {
    var t := s.disk[w.file].owner;
    if w.walk.Reads? {
      WholePart(s.disk, w.walk.seen);
      if t != UNTENANTED { ByTenantIsOf(s.disk, t); }
    }
  }

  /** A walk that failed keeps the count and is not tried again before the count is old once more. */
  lemma FailedWalkBacksOff(s: State, now: nat, age: nat, later: nat, laterAge: nat, walk: Walk)
    requires now - s.meter.at >= age && later - now < laterAge
    ensures var s' := AfterMeasure(s, now, age, RootFails);
            Counted(s'.meter) == Counted(s.meter) && (forall t :: TenantBytes(s'.meter, t) == TenantBytes(s.meter, t))
            && AfterMeasure(s', later, laterAge, walk) == s'
  {
  }

  // ---- the three ways bytes come loose ---------------------------------------------------------

  lemma OneFile(f: File)
    ensures Total([f]) == f.bytes
  {
    assert [f][..0] == [];
    assert Total([]) == 0;
  }

  /** A check that cannot measure decides on what was counted before. */
  lemma FailedWalkKeepsCount(s: State, lim: Limits, w: Step)
    requires w.Write? && Enabled(s, w) && w.walk.RootFails?
    ensures Accepted(s, lim, w) <==> !WasFull(s.meter, lim, s.disk[w.file].owner)
  {
  }

  lemma ZeroIsNotFull(m: Meter, lim: Limits, t: Tenant)
    requires Counted(m) == 0 && (t != UNTENANTED ==> TenantBytes(m, t) == 0)
    ensures !WasFull(m, lim, t)
  {
  }

  /** A hub whose first walk fails still counts zero, as at boot: it accepts a write whatever is on
      the disk. */
  lemma FailedFirstWalkAccepts(s: State, lim: Limits, w: Step)
    requires w.Write? && Enabled(s, w) && w.walk.RootFails?
    requires Counted(s.meter) == 0 && TenantBytes(s.meter, s.disk[w.file].owner) == 0
    ensures Accepted(s, lim, w)
  {
    FailedWalkKeepsCount(s, lim, w);
    ZeroIsNotFull(s.meter, lim, s.disk[w.file].owner);
  }

  /** So does a walk that can read no directory, though they can still be written. */
  lemma SkippedDirectoriesAccept(s: State, lim: Limits, w: Step)
    requires w.Write? && Enabled(s, w) && w.walk == Reads({})
    requires w.now - s.meter.at >= TOTAL_CACHE_MS
    ensures Accepted(s, lim, w)
  {
    var t, part := s.disk[w.file].owner, Part(s.disk, {}, true);
    ZeroSums(part, t);
    if t != UNTENANTED { ByTenantIsOf(part, t); }
    ZeroIsNotFull(AfterCheck(s, lim, w).meter, lim, t);
  }

  /** Downloads of mirrored files are not charged until the next walk. */
  lemma DownloadIsUncharged(n: nat)
    ensures var lim, w := Limits(5, 0), Write(0, n, TOTAL_CACHE_MS + 1, Reads({0}));
            var empty := Started([File(UNTENANTED, 0)]);
            var walked := Apply(empty, lim, Read(TOTAL_CACHE_MS, TOTAL_CACHE_MS, Reads({0})));
            SkipsNothing(empty.disk, {0}, Store) && Parallel(walked) && Enabled(walked, Download(0, 10))
            && var s := Apply(walked, lim, Download(0, 10));
               Enabled(s, w) && Total(s.disk) >= lim.total && Accepted(s, lim, w)
  {
    var empty := Started([File(UNTENANTED, 0)]);
    OneFile(File(UNTENANTED, 0));
    OneFile(File(UNTENANTED, 10));
    assert Part(empty.disk, {0}, true) == [File(UNTENANTED, 0)];
  }
}
