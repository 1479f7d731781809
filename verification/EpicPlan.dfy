/** Validating an epic plan (turma/epic-plan.js): every error code exactly when its problem is
    there, and what an accepted plan's waves look like. */
module EpicPlan {
  import opened Basics
  import opened Trimming
  import opened Layering

  /** A child as decoded from JSON. `localId` is None unless it is a string; the three booleans say
      whether the summary and repo are non-blank strings and the issue type is Task or Story. */
  datatype Child =
    | NotObject
    | Child(localId: Option<string>, summaryOk: bool, repoOk: bool, typeOk: bool, blockedBy: seq<Ref>)

  /** `epicOk`: an object with a non-blank summary. `children` is None unless it is an array. */
  datatype Plan = NotAPlan | Plan(epicOk: bool, children: Option<seq<Child>>)

  datatype Code =
    | NotAnObject | EpicMissing | NoChildren | ChildNotObject | LocalIdMissing | LocalIdDuplicate
    | SummaryMissing | RepoMissing | IssueTypeInvalid | BlockedBySelf | BlockedByDangling
    | Cycle | FinalNotBlockedByAll

  datatype Verdict = Verdict(valid: bool, errors: seq<Code>, waves: seq<seq<string>>, cycle: seq<string>, finalId: Option<string>)

  predicate NonBlank(s: string) { exists i :: 0 <= i < |s| && !Blank(s[i]) }

  /** A child whose localId names it. */
  predicate Named(c: Child) { c.Child? && c.localId.Some? && NonBlank(c.localId.value) }

  function Id(c: Child): string
    requires Named(c)
  {
    c.localId.value
  }

  function ChildrenOf(p: Plan): seq<Child> {
    if p.Plan? && p.children.Some? then p.children.value else []
  }

  function RowOf(c: Child): Row {
    if c.Child? && c.localId.Some? then Row(c.localId.value, c.blockedBy) else Junk
  }

  function Rows(cs: seq<Child>): (rows: seq<Row>)
    ensures |rows| == |cs| && forall i :: 0 <= i < |cs| ==> rows[i] == RowOf(cs[i])
  {
    seq(|cs|, i requires 0 <= i < |cs| => RowOf(cs[i]))
  }

  predicate IsId(cs: seq<Child>, s: string) { exists i :: 0 <= i < |cs| && Named(cs[i]) && Id(cs[i]) == s }

  function FinalId(cs: seq<Child>): Option<string> {
    if cs != [] && Named(cs[|cs| - 1]) then Some(Id(cs[|cs| - 1])) else None
  }

  // ---- when each code is due -----------------------------------------------------------

  predicate SelfBlocked(c: Child) { Named(c) && Str(Id(c)) in c.blockedBy }

  predicate Dangling(cs: seq<Child>, c: Child) {
    Named(c) && exists i :: 0 <= i < |c.blockedBy| && DanglingRef(cs, c, c.blockedBy[i])
  }

  predicate DanglingRef(cs: seq<Child>, c: Child, b: Ref)
    requires Named(c)
  {
    b != Str(Id(c)) && !(b.Str? && IsId(cs, b.id))
  }

  predicate Same(cs: seq<Child>, i: nat, j: nat)
    requires i < |cs| && j < |cs|
  {
    Named(cs[i]) && Named(cs[j]) && Id(cs[i]) == Id(cs[j])
  }

  predicate Repeated(cs: seq<Child>) { exists i, j :: 0 <= i < j < |cs| && Same(cs, i, j) }

  predicate NotGathered(cs: seq<Child>, c: Child)
    requires FinalId(cs).Some?
  {
    Named(c) && Id(c) != FinalId(cs).value && Str(Id(c)) !in cs[|cs| - 1].blockedBy
  }

  /** The codes one child earns by itself. */
  predicate ChildDue(cs: seq<Child>, c: Child, code: Code) {
    match code
    case ChildNotObject => c.NotObject?
    case LocalIdMissing => c.Child? && !Named(c)
    case SummaryMissing => Named(c) && !c.summaryOk
    case RepoMissing => Named(c) && !c.repoOk
    case IssueTypeInvalid => Named(c) && !c.typeOk
    case BlockedBySelf => SelfBlocked(c)
    case BlockedByDangling => Dangling(cs, c)
    case _ => false
  }

  predicate SomeChildDue(cs: seq<Child>, n: nat, code: Code)
    requires n <= |cs|
  {
    exists i :: 0 <= i < n && ChildDue(cs, cs[i], code)
  }

  predicate FinalDue(cs: seq<Child>) {
    |cs| > 1 && FinalId(cs).Some? && exists i :: 0 <= i < |cs| && NotGathered(cs, cs[i])
  }

  ghost predicate CycleDue(cs: seq<Child>) { !Acyclic(GraphOf(Rows(cs))) }

  ghost predicate Due(p: Plan, code: Code) {
    var cs := ChildrenOf(p);
    match code
    case NotAnObject => p.NotAPlan?
    case EpicMissing => p.Plan? && !p.epicOk
    case NoChildren => p.Plan? && cs == []
    case LocalIdDuplicate => Repeated(cs)
    case Cycle => CycleDue(cs)
    case FinalNotBlockedByAll => FinalDue(cs)
    case _ => SomeChildDue(cs, |cs|, code)
  }

  // ---- the validator -----------------------------------------------------------------------

  predicate IdCode(e: Code) { e == ChildNotObject || e == LocalIdMissing }

  predicate FieldCode(e: Code) {
    e == SummaryMissing || e == RepoMissing || e == IssueTypeInvalid || e == BlockedBySelf || e == BlockedByDangling
  }

  /** The first pass: shapes and ids. */
  method CheckIds(cs: seq<Child>) returns (errors: seq<Code>, ids: set<string>)
    ensures forall s :: s in ids <==> IsId(cs, s)
    ensures forall e :: IdCode(e) ==> (e in errors <==> SomeChildDue(cs, |cs|, e))
    ensures LocalIdDuplicate in errors <==> Repeated(cs)
    ensures forall e :: e in errors ==> IdCode(e) || e == LocalIdDuplicate
  {
    errors, ids := [], {};
    var dup: set<string> := {};
    for n := 0 to |cs|
      invariant forall s :: s in ids <==> exists i :: 0 <= i < n && Named(cs[i]) && Id(cs[i]) == s
      invariant forall e :: IdCode(e) ==> (e in errors <==> SomeChildDue(cs, n, e))
      invariant LocalIdDuplicate in errors <==> dup != {}
      invariant dup != {} <==> exists i, j :: 0 <= i < j < n && Same(cs, i, j)
      invariant forall e :: e in errors ==> IdCode(e) || e == LocalIdDuplicate
    {
      var c := cs[n];
      if c.NotObject? { errors := errors + [ChildNotObject]; }
      else if !Named(c) { errors := errors + [LocalIdMissing]; }
      else {
        if Id(c) in ids && Id(c) !in dup {
          ghost var i :| 0 <= i < n && Named(cs[i]) && Id(cs[i]) == Id(c);
          assert Same(cs, i, n);
          dup := dup + {Id(c)};
          errors := errors + [LocalIdDuplicate];
        }
        ids := ids + {Id(c)};
      }
    }
  }

  /** The blockedBy loop of one child. */
  method CheckRefs(cs: seq<Child>, ids: set<string>, c: Child) returns (errors: seq<Code>)
    requires Named(c) && forall s :: s in ids <==> IsId(cs, s)
    ensures BlockedBySelf in errors <==> SelfBlocked(c)
    ensures BlockedByDangling in errors <==> Dangling(cs, c)
    ensures forall e :: e in errors ==> e == BlockedBySelf || e == BlockedByDangling
  {
    errors := [];
    for n := 0 to |c.blockedBy|
      invariant BlockedBySelf in errors <==> Str(Id(c)) in c.blockedBy[..n]
      invariant BlockedByDangling in errors <==> exists i :: 0 <= i < n && DanglingRef(cs, c, c.blockedBy[i])
      invariant forall e :: e in errors ==> e == BlockedBySelf || e == BlockedByDangling
    {
      var b := c.blockedBy[n];
      assert c.blockedBy[..n + 1] == c.blockedBy[..n] + [b];
      if b == Str(Id(c)) { errors := errors + [BlockedBySelf]; }
      else if !(b.Str? && b.id in ids) { errors := errors + [BlockedByDangling]; }
    }
    assert c.blockedBy[..|c.blockedBy|] == c.blockedBy;
  }

  /** One named child of the second pass. */
  method CheckChild(cs: seq<Child>, ids: set<string>, c: Child) returns (errors: seq<Code>)
    requires forall s :: s in ids <==> IsId(cs, s)
    ensures forall e :: e in errors <==> FieldCode(e) && ChildDue(cs, c, e)
  {
    if !Named(c) { return []; }
    errors := if c.summaryOk then [] else [SummaryMissing];
    errors := errors + if c.repoOk then [] else [RepoMissing];
    errors := errors + if c.typeOk then [] else [IssueTypeInvalid];
    var refs := CheckRefs(cs, ids, c);
    errors := errors + refs;
  }

  /** The second pass: each named child's fields and references. */
  method CheckChildren(cs: seq<Child>, ids: set<string>) returns (errors: seq<Code>)
    requires forall s :: s in ids <==> IsId(cs, s)
    ensures forall e :: e in errors <==> FieldCode(e) && SomeChildDue(cs, |cs|, e)
  {
    errors := [];
    for n := 0 to |cs|
      invariant forall e :: e in errors <==> FieldCode(e) && SomeChildDue(cs, n, e)
    {
      var more := CheckChild(cs, ids, cs[n]);
      errors := errors + more;
    }
  }

  /** Is some other named child missing from the final child's blockedBy? */
  method CheckFinal(cs: seq<Child>) returns (missing: seq<string>)
    requires FinalId(cs).Some?
    ensures missing != [] <==> exists i :: 0 <= i < |cs| && NotGathered(cs, cs[i])
  {
    var final := cs[|cs| - 1];
    missing := [];
    for n := 0 to |cs|
      invariant missing != [] <==> exists i :: 0 <= i < n && NotGathered(cs, cs[i])
    {
      var c := cs[n];
      if !Named(c) || Id(c) == Id(final) { continue; }
      if Str(Id(c)) !in final.blockedBy { missing := missing + [Id(c)]; }
    }
  }

  /** Every code is reported exactly when it is due, so a plan is valid exactly when none is. */
  method ValidateEpicPlan(p: Plan) returns (v: Verdict, ghost ws: seq<set<string>>)
    ensures forall c :: c in v.errors <==> Due(p, c)
    ensures v.valid <==> forall c :: !Due(p, c)
    ensures p.Plan? ==> IsLayering(Keys(Rows(ChildrenOf(p))), GraphOf(Rows(ChildrenOf(p))), v.waves, v.cycle, ws)
    ensures p.Plan? ==> v.finalId == FinalId(ChildrenOf(p))
  {
    if p.NotAPlan? {
      NothingElseDue(p);
      assert Due(p, NotAnObject);
      return Verdict(false, [NotAnObject], [], [], None), [];
    }
    var cs := ChildrenOf(p);
    var waves, cycle;
    waves, cycle, ws := LayerWaves(Rows(cs));
    var errors := CheckAll(p, cs, cycle != []);
    v := Verdict(errors == [], errors, waves, cycle, FinalId(cs));
  }

  /** All the checks, in order, given whether the layering stalled. */
  method CheckAll(p: Plan, cs: seq<Child>, stalled: bool) returns (errors: seq<Code>)
    requires p.Plan? && cs == ChildrenOf(p) && (stalled <==> CycleDue(cs))
    ensures forall c :: c in errors <==> Due(p, c)
    ensures errors == [] <==> forall c :: !Due(p, c)
  {
    var head := CheckHead(p);
    var idErrors, ids := CheckIds(cs);
    var childErrors := CheckChildren(cs, ids);
    var tail := CheckTail(cs, stalled);
    errors := head + idErrors + childErrors + tail;
    forall c ensures c in errors <==> Due(p, c) {
      InFour(head, idErrors, childErrors, tail, c);
    }
    if errors != [] { assert errors[0] in errors; }
  }

  lemma InFour(a: seq<Code>, b: seq<Code>, c: seq<Code>, d: seq<Code>, e: Code)
    ensures e in a + b + c + d <==> e in a || e in b || e in c || e in d
  {
  }

  method CheckHead(p: Plan) returns (errors: seq<Code>)
    requires p.Plan?
    ensures forall e :: e in errors <==> (e == EpicMissing && !p.epicOk) || (e == NoChildren && ChildrenOf(p) == [])
  {
    errors := if p.epicOk then [] else [EpicMissing];
    if p.children.None? || p.children.value == [] { errors := errors + [NoChildren]; }
  }

  method CheckTail(cs: seq<Child>, stalled: bool) returns (errors: seq<Code>)
    ensures forall e :: e in errors <==> (e == Cycle && stalled) || (e == FinalNotBlockedByAll && FinalDue(cs))
  {
    errors := if stalled then [Cycle] else [];
    if |cs| > 1 && FinalId(cs).Some? {
      var missing := CheckFinal(cs);
      if missing != [] { errors := errors + [FinalNotBlockedByAll]; }
    }
  }

  lemma NothingElseDue(p: Plan)
    requires p.NotAPlan?
    ensures forall c :: Due(p, c) <==> c == NotAnObject
  {
    assert Rows([]) == [];
    assert GraphOf([]) == map[];
    forall q ensures !ClosedWalk(GraphOf([]), q) { }
  }

  // ---- what each code says ---------------------------------------------------------------------

  /** Some child, its id nonblank text, is wrong in this way. */
  ghost predicate SomeNamed(cs: seq<Child>, wrong: Child -> bool) {
    exists i :: 0 <= i < |cs| && cs[i].Child? && cs[i].localId.Some? && NonBlank(cs[i].localId.value) && wrong(cs[i])
  }

  lemma NamedDue(p: Plan, cs: seq<Child>, code: Code, wrong: Child -> bool)
    requires p.Plan? && p.children == Some(cs) && FieldCode(code)
    requires forall i :: 0 <= i < |cs| && Named(cs[i]) ==> (ChildDue(cs, cs[i], code) <==> wrong(cs[i]))
    requires forall i :: 0 <= i < |cs| && !Named(cs[i]) ==> !ChildDue(cs, cs[i], code)
    ensures Due(p, code) <==> SomeNamed(cs, wrong)
  {
    if SomeChildDue(cs, |cs|, code) {
      var i :| 0 <= i < |cs| && ChildDue(cs, cs[i], code);
      assert Named(cs[i]) && wrong(cs[i]);
    }
    if SomeNamed(cs, wrong) {
      var i :| 0 <= i < |cs| && cs[i].Child? && cs[i].localId.Some? && NonBlank(cs[i].localId.value) && wrong(cs[i]);
      assert Named(cs[i]) && ChildDue(cs, cs[i], code);
    }
  }

  /** A code about a named child's field is reported exactly when some named child has that very fault. */
  lemma FieldCodesMean(epicOk: bool, cs: seq<Child>)
    ensures var p := Plan(epicOk, Some(cs));
            && (Due(p, SummaryMissing) <==> SomeNamed(cs, (c: Child) => c.Child? && !c.summaryOk))
            && (Due(p, RepoMissing) <==> SomeNamed(cs, (c: Child) => c.Child? && !c.repoOk))
            && (Due(p, IssueTypeInvalid) <==> SomeNamed(cs, (c: Child) => c.Child? && !c.typeOk))
            && (Due(p, BlockedBySelf) <==> SomeNamed(cs, (c: Child) => c.Child? && c.localId.Some? && Str(c.localId.value) in c.blockedBy))
  {
    var p := Plan(epicOk, Some(cs));
    NamedDue(p, cs, SummaryMissing, (c: Child) => c.Child? && !c.summaryOk);
    NamedDue(p, cs, RepoMissing, (c: Child) => c.Child? && !c.repoOk);
    NamedDue(p, cs, IssueTypeInvalid, (c: Child) => c.Child? && !c.typeOk);
    NamedDue(p, cs, BlockedBySelf, (c: Child) => c.Child? && c.localId.Some? && Str(c.localId.value) in c.blockedBy);
  }

  /** The codes about shapes and ids. */
  lemma ShapeCodesMean(p: Plan)
    ensures Due(p, NotAnObject) <==> p == NotAPlan
    ensures Due(p, EpicMissing) <==> p.Plan? && !p.epicOk
    ensures Due(p, NoChildren) <==> p.Plan? && (p.children.None? || p.children.value == [])
    ensures Due(p, ChildNotObject) <==> p.Plan? && p.children.Some? && NotObject in p.children.value
    ensures Due(p, LocalIdMissing) <==> p.Plan? && p.children.Some? && exists i :: 0 <= i < |p.children.value| && Nameless(p.children.value[i])
  {
    var cs := ChildrenOf(p);
    if NotObject in cs {
      var i :| 0 <= i < |cs| && cs[i] == NotObject;
      assert ChildDue(cs, cs[i], ChildNotObject);
    }
    if exists i :: 0 <= i < |cs| && Nameless(cs[i]) {
      var i :| 0 <= i < |cs| && Nameless(cs[i]);
      assert ChildDue(cs, cs[i], LocalIdMissing);
    }
    if SomeChildDue(cs, |cs|, LocalIdMissing) {
      var i :| 0 <= i < |cs| && ChildDue(cs, cs[i], LocalIdMissing);
      assert Nameless(cs[i]);
    }
  }

  /** An object whose id is no text, or blank text. */
  predicate Nameless(c: Child) { c.Child? && (c.localId.Some? ==> !NonBlank(c.localId.value)) }

  // ---- what an accepted plan is --------------------------------------------------------------

  /** A named child with everything filled in, its id its own, blocked by other children only. */
  predicate GoodChild(cs: seq<Child>, i: nat)
    requires i < |cs|
  {
    var c := cs[i];
    && c.Child? && c.localId.Some? && NonBlank(c.localId.value) && c.summaryOk && c.repoOk && c.typeOk
    && (forall j :: 0 <= j < |cs| && j != i ==> !HasId(cs[j], c.localId.value))
    && (forall n :: 0 <= n < |c.blockedBy| ==> GoodRef(cs, i, c.blockedBy[n]))
  }

  predicate HasId(c: Child, s: string) { c.Child? && c.localId == Some(s) }

  predicate GoodRef(cs: seq<Child>, i: nat, b: Ref)
    requires i < |cs|
  {
    b.Str? && !HasId(cs[i], b.id) && exists j :: 0 <= j < |cs| && HasId(cs[j], b.id)
  }

  /** The last child is blocked by every other. */
  predicate Gathers(cs: seq<Child>) {
    cs != [] && cs[|cs| - 1].Child?
    && forall i :: 0 <= i < |cs| - 1 ==> cs[i].Child? && cs[i].localId.Some? && Str(cs[i].localId.value) in cs[|cs| - 1].blockedBy
  }

  lemma GoodHasNoneDue(cs: seq<Child>, i: nat, code: Code)
    requires i < |cs| && forall j :: 0 <= j < |cs| ==> GoodChild(cs, j)
    ensures !ChildDue(cs, cs[i], code)
  {
    var c := cs[i];
    assert GoodChild(cs, i);
    forall n | 0 <= n < |c.blockedBy| ensures !DanglingRef(cs, c, c.blockedBy[n]) && c.blockedBy[n] != Str(Id(c)) {
      assert GoodRef(cs, i, c.blockedBy[n]);
      var j :| 0 <= j < |cs| && HasId(cs[j], c.blockedBy[n].id);
      assert GoodChild(cs, j);
      assert Named(cs[j]) && Id(cs[j]) == c.blockedBy[n].id;
    }
  }

  lemma NoneDueIsGood(cs: seq<Child>, i: nat)
    requires i < |cs| && !Repeated(cs) && forall j, code :: 0 <= j < |cs| ==> !ChildDue(cs, cs[j], code)
    ensures GoodChild(cs, i)
  {
    var c := cs[i];
    assert !ChildDue(cs, c, ChildNotObject) && !ChildDue(cs, c, LocalIdMissing) && !ChildDue(cs, c, SummaryMissing);
    assert !ChildDue(cs, c, RepoMissing) && !ChildDue(cs, c, IssueTypeInvalid) && !ChildDue(cs, c, BlockedBySelf);
    assert !ChildDue(cs, c, BlockedByDangling);
    forall j | 0 <= j < |cs| && j != i ensures !HasId(cs[j], Id(c)) {
      assert !ChildDue(cs, cs[j], LocalIdMissing);
      assert if j < i then !Same(cs, j, i) else !Same(cs, i, j);
    }
    forall n | 0 <= n < |c.blockedBy| ensures GoodRef(cs, i, c.blockedBy[n]) {
      assert !DanglingRef(cs, c, c.blockedBy[n]);
      assert c.blockedBy[n] in c.blockedBy;
      if IsId(cs, c.blockedBy[n].id) {
        var j :| 0 <= j < |cs| && Named(cs[j]) && Id(cs[j]) == c.blockedBy[n].id;
        assert HasId(cs[j], c.blockedBy[n].id);
      }
    }
  }

  lemma FinalDueIsUngathered(cs: seq<Child>)
    requires cs != [] && forall i :: 0 <= i < |cs| ==> GoodChild(cs, i)
    ensures FinalDue(cs) <==> !Gathers(cs)
  {
    var last := |cs| - 1;
    forall i | 0 <= i < |cs| ensures cs[i].Child? && cs[i].localId.Some? && Named(cs[i]) { assert GoodChild(cs, i); }
    forall i | 0 <= i < last ensures Id(cs[i]) != Id(cs[last]) {
      assert GoodChild(cs, last);
      assert !HasId(cs[i], Id(cs[last]));
    }
    if FinalDue(cs) {
      var i :| 0 <= i < |cs| && NotGathered(cs, cs[i]);
      assert i < last;
    }
    if !Gathers(cs) {
      var i :| 0 <= i < last && Str(cs[i].localId.value) !in cs[last].blockedBy;
      assert NotGathered(cs, cs[i]);
    }
  }

  /** The plans accepted are exactly these: an epic with a summary, at least one child, every child whole
      and blocked by other children only, the dependencies acyclic, the last child behind all others. */
  lemma AcceptedExactly(p: Plan)
    ensures (forall code :: !Due(p, code)) <==> (
              p.Plan? && p.epicOk && p.children.Some? && var cs := p.children.value;
              (forall i :: 0 <= i < |cs| ==> GoodChild(cs, i)) && Acyclic(GraphOf(Rows(cs))) && Gathers(cs))
  {
    if p.NotAPlan? {
      assert Due(p, NotAnObject);
    } else if p.children.None? || p.children.value == [] {
      assert Due(p, NoChildren);
    } else {
      AcceptedChildren(p, p.children.value);
    }
  }

  lemma AcceptedChildren(p: Plan, cs: seq<Child>)
    requires p.Plan? && p.children == Some(cs) && cs != []
    ensures (forall code :: !Due(p, code)) <==> (
              p.epicOk && (forall i :: 0 <= i < |cs| ==> GoodChild(cs, i)) && Acyclic(GraphOf(Rows(cs))) && Gathers(cs))
  {
    if forall code :: !Due(p, code) {
      NoneDueMeansGood(p, cs);
    }
    if p.epicOk && (forall i :: 0 <= i < |cs| ==> GoodChild(cs, i)) && Acyclic(GraphOf(Rows(cs))) && Gathers(cs) {
      forall code ensures !Due(p, code) { GoodMeansNoneDue(p, cs, code); }
    }
  }

  lemma NoneDueInChild(p: Plan, cs: seq<Child>, j: nat, code: Code)
    requires p.Plan? && p.children == Some(cs) && j < |cs| && !Due(p, code)
    ensures !ChildDue(cs, cs[j], code)
  {
  }

  lemma NoneDueMeansGoodChild(p: Plan, cs: seq<Child>, i: nat)
    requires p.Plan? && p.children == Some(cs) && i < |cs| && forall code :: !Due(p, code)
    ensures GoodChild(cs, i)
  {
    assert !Due(p, LocalIdDuplicate);
    forall j, code | 0 <= j < |cs| ensures !ChildDue(cs, cs[j], code) { NoneDueInChild(p, cs, j, code); }
    NoneDueIsGood(cs, i);
  }

  lemma NoneDueInHeadAndTail(p: Plan, cs: seq<Child>)
    requires p.Plan? && p.children == Some(cs) && !Due(p, EpicMissing) && !Due(p, Cycle) && !Due(p, FinalNotBlockedByAll)
    ensures p.epicOk && Acyclic(GraphOf(Rows(cs))) && !FinalDue(cs)
  {
  }

  lemma NoneDueMeansGood(p: Plan, cs: seq<Child>)
    requires p.Plan? && p.children == Some(cs) && cs != [] && forall code :: !Due(p, code)
    ensures p.epicOk && (forall i :: 0 <= i < |cs| ==> GoodChild(cs, i)) && Acyclic(GraphOf(Rows(cs))) && Gathers(cs)
  {
    NoneDueInHeadAndTail(p, cs);
    forall i | 0 <= i < |cs| ensures GoodChild(cs, i) { NoneDueMeansGoodChild(p, cs, i); }
    FinalDueIsUngathered(cs);
  }

  lemma GoodMeansNoneDue(p: Plan, cs: seq<Child>, code: Code)
    requires p.Plan? && p.children == Some(cs) && cs != [] && p.epicOk
    requires (forall i :: 0 <= i < |cs| ==> GoodChild(cs, i)) && Acyclic(GraphOf(Rows(cs))) && Gathers(cs)
    ensures !Due(p, code)
  {
    forall i | 0 <= i < |cs| ensures !ChildDue(cs, cs[i], code) { GoodHasNoneDue(cs, i, code); }
    forall i, j | 0 <= i < j < |cs| ensures !Same(cs, i, j) { assert GoodChild(cs, i); }
    FinalDueIsUngathered(cs);
  }

  // ---- what an accepted plan looks like ------------------------------------------------------

  lemma NamedIsNotEmpty(c: Child)
    requires Named(c)
    ensures Id(c) != "" && RowOf(c) == Row(Id(c), c.blockedBy)
  {
    var j :| 0 <= j < |Id(c)| && !Blank(Id(c)[j]);
  }

  lemma {:induction false} KeysOfDistinct(cs: seq<Child>)
    requires (forall i :: 0 <= i < |cs| ==> Named(cs[i])) && !Repeated(cs)
    ensures |Keys(Rows(cs))| == |cs| && forall i :: 0 <= i < |cs| ==> Keys(Rows(cs))[i] == Id(cs[i])
  {
    if cs != [] {
      var n := |cs| - 1;
      var front := cs[..n];
      forall i, j | 0 <= i < j < n ensures !Same(front, i, j) { assert !Same(cs, i, j); }
      KeysOfDistinct(front);
      NamedIsNotEmpty(cs[n]);
      forall i | 0 <= i < n ensures Id(cs[i]) != Id(cs[n]) { assert !Same(cs, i, n); }
      KeysSnoc(cs, n);
    }
  }

  lemma KeysSnoc(cs: seq<Child>, n: nat)
    requires |cs| == n + 1 && Named(cs[n]) && Id(cs[n]) != "" && RowOf(cs[n]) == Row(Id(cs[n]), cs[n].blockedBy)
    requires Id(cs[n]) !in Keys(Rows(cs[..n]))
    ensures Keys(Rows(cs)) == Keys(Rows(cs[..n])) + [Id(cs[n])]
  {
    assert Rows(cs)[..n] == Rows(cs[..n]);
    assert Rows(cs)[n] == RowOf(cs[n]);
  }

  lemma LastRowWins(rows: seq<Row>)
    requires rows != [] && Counts(rows[|rows| - 1])
    ensures LastBlockedBy(rows, rows[|rows| - 1].key) == rows[|rows| - 1].blockedBy
  {
  }

  /** In an accepted plan every child is named, no two alike. */
  lemma AcceptedNames(cs: seq<Child>)
    requires forall c :: !Due(Plan(true, Some(cs)), c)
    ensures (forall i :: 0 <= i < |cs| ==> Named(cs[i])) && !Repeated(cs)
  {
    var p := Plan(true, Some(cs));
    assert !Due(p, ChildNotObject) && !Due(p, LocalIdMissing) && !Due(p, LocalIdDuplicate);
    forall i | 0 <= i < |cs| ensures Named(cs[i]) {
      assert !ChildDue(cs, cs[i], ChildNotObject) && !ChildDue(cs, cs[i], LocalIdMissing);
    }
  }

  lemma SinkBlockers(rows: seq<Row>, f: string)
    requires f in Keys(rows) && forall k :: k in Keys(rows) && k != f ==> Str(k) in LastBlockedBy(rows, f)
    ensures f in GraphOf(rows) && GraphOf(rows)[f] == GraphOf(rows).Keys - {f}
  {
    assert GraphOf(rows)[f] == Blockers(rows, f);
  }

  /** In an accepted plan the final child is blocked by exactly all the other keys. */
  lemma FinalIsSink(cs: seq<Child>)
    requires cs != [] && (forall c :: !Due(Plan(true, Some(cs)), c))
    ensures FinalId(cs).Some?
    ensures var g, f := GraphOf(Rows(cs)), FinalId(cs).value; f in g && g[f] == g.Keys - {f}
  {
    AcceptedNames(cs);
    KeysOfDistinct(cs);
    var rows, f, last := Rows(cs), FinalId(cs).value, cs[|cs| - 1];
    var j :| 0 <= j < |f| && !Blank(f[j]);
    assert rows[|rows| - 1] == RowOf(last) && Counts(rows[|rows| - 1]);
    LastRowWins(rows);
    var ks := Keys(rows);
    assert ks[|cs| - 1] == f;
    assert !Due(Plan(true, Some(cs)), FinalNotBlockedByAll);
    forall k | k in ks && k != f ensures Str(k) in last.blockedBy {
      var i :| 0 <= i < |cs| && ks[i] == k;
      assert !NotGathered(cs, cs[i]);
    }
    SinkBlockers(rows, f);
  }

  lemma AcceptedIsAcyclic(p: Plan)
    requires !Due(p, Cycle)
    ensures Acyclic(GraphOf(Rows(ChildrenOf(p))))
  {
  }

  /** A plan the validator accepts has no cycle, places every child exactly once, and its last wave
      is exactly the final child. */
  lemma AcceptedPlanConverges(cs: seq<Child>, waves: seq<seq<string>>, cycle: seq<string>, ws: seq<set<string>>)
    requires cs != [] && (forall c :: !Due(Plan(true, Some(cs)), c))
    requires IsLayering(Keys(Rows(cs)), GraphOf(Rows(cs)), waves, cycle, ws)
    ensures cycle == [] && |waves| > 0 && FinalId(cs).Some?
    ensures waves[|waves| - 1] == [FinalId(cs).value]
  {
    var f := AcceptedHasSink(cs);
    SinkConverges(Keys(Rows(cs)), GraphOf(Rows(cs)), waves, cycle, ws, f);
  }

  lemma AcceptedHasSink(cs: seq<Child>) returns (f: string)
    requires cs != [] && (forall c :: !Due(Plan(true, Some(cs)), c))
    ensures FinalId(cs) == Some(f) && Distinct(Keys(Rows(cs))) && Acyclic(GraphOf(Rows(cs)))
    ensures var g := GraphOf(Rows(cs)); f in g && g[f] == g.Keys - {f}
  {
    FinalIsSink(cs);
    f := FinalId(cs).value;
    AcceptedIsAcyclic(Plan(true, Some(cs)));
  }
}
