/** Kahn layering of dependency rows into waves (turma/epic-plan.js, layerWaves). */
module Layering {
  import opened Basics

  /** A blockedBy element: only strings can name a row. */
  datatype Ref = Str(id: string) | NotString

  /** A row; one without a string key is Junk. */
  datatype Row = Junk | Row(key: string, blockedBy: seq<Ref>)

  predicate Counts(r: Row) { r.Row? && r.key != "" }

  predicate HasKey(rows: seq<Row>, k: string) {
    exists i :: 0 <= i < |rows| && Counts(rows[i]) && rows[i].key == k
  }

  lemma HasKeySnoc(rows: seq<Row>, k: string)
    requires rows != []
    ensures var front, last := rows[..|rows| - 1], rows[|rows| - 1];
      HasKey(rows, k) <==> HasKey(front, k) || (Counts(last) && last.key == k)
  {
    var front := rows[..|rows| - 1];
    if i :| 0 <= i < |front| && Counts(front[i]) && front[i].key == k { assert rows[i].key == k; }
    if i :| 0 <= i < |front| && Counts(rows[i]) && rows[i].key == k { assert front[i].key == k; }
  }

  /** The keys in order of first appearance. */
  function Keys(rows: seq<Row>): (ks: seq<string>)
    ensures forall i, j :: 0 <= i < j < |ks| ==> ks[i] != ks[j]
    ensures forall k :: k in ks <==> HasKey(rows, k)
  {
    if rows == [] then []
    else
      var front, last := rows[..|rows| - 1], rows[|rows| - 1];
      var ks := Keys(front);
      assert forall k :: HasKey(rows, k) <==> HasKey(front, k) || (Counts(last) && last.key == k) by {
        forall k ensures HasKey(rows, k) <==> HasKey(front, k) || (Counts(last) && last.key == k) { HasKeySnoc(rows, k); }
      }
      if Counts(last) && last.key !in ks then ks + [last.key] else ks
  }

  /** The blockedBy list of the last row with this key. */
  function LastBlockedBy(rows: seq<Row>, k: string): seq<Ref> {
    if rows == [] then []
    else if Counts(rows[|rows| - 1]) && rows[|rows| - 1].key == k then rows[|rows| - 1].blockedBy
    else LastBlockedBy(rows[..|rows| - 1], k)
  }

  /** Who blocks `k`: in-set string references other than itself. */
  function Blockers(rows: seq<Row>, k: string): set<string> {
    set b | b in Keys(rows) && Str(b) in LastBlockedBy(rows, k) && b != k
  }

  type Graph = map<string, set<string>>

  function GraphOf(rows: seq<Row>): Graph {
    map k | k in Keys(rows) :: Blockers(rows, k)
  }

  /** A stable filter by membership. */
  function Keep(ks: seq<string>, s: set<string>): (r: seq<string>)
    ensures forall k :: k in r <==> k in ks && k in s
  {
    if ks == [] then []
    else if ks[|ks| - 1] in s then Keep(ks[..|ks| - 1], s) + [ks[|ks| - 1]]
    else Keep(ks[..|ks| - 1], s)
  }

  function Union(ws: seq<set<string>>): (u: set<string>)
    ensures forall k :: k in u <==> exists i :: 0 <= i < |ws| && k in ws[i]
  {
    if ws == [] then {} else Union(ws[..|ws| - 1]) + ws[|ws| - 1]
  }

  ghost predicate Closed(keys: seq<string>, g: Graph) {
    && g.Keys == (set k | k in keys)
    && forall k :: k in g ==> g[k] <= g.Keys
  }

  /** One layer: nonempty, new, all its keys' blockers in earlier layers but not all of them in
      layers before the previous one. */
  ghost predicate LayerOk(g: Graph, ws: seq<set<string>>, i: nat)
    requires i < |ws|
  {
    && ws[i] != {} && ws[i] <= g.Keys && ws[i] !! Union(ws[..i])
    && (forall k :: k in ws[i] ==> g[k] <= Union(ws[..i]))
    && (i > 0 ==> forall k :: k in ws[i] ==> !(g[k] <= Union(ws[..i - 1])))
  }

  ghost predicate Layered(g: Graph, ws: seq<set<string>>) {
    Union(ws) <= g.Keys && forall i :: 0 <= i < |ws| ==> LayerOk(g, ws, i)
  }

  /** No key left over was ready before the last layer. */
  ghost predicate Prompt(g: Graph, ws: seq<set<string>>) {
    |ws| > 0 ==> forall k :: k in g && k !in Union(ws) ==> !(g[k] <= Union(ws[..|ws| - 1]))
  }

  predicate WavesOf(keys: seq<string>, ws: seq<set<string>>, waves: seq<seq<string>>) {
    |ws| == |waves| && forall i :: 0 <= i < |waves| ==> waves[i] == Keep(keys, ws[i])
  }

  /** The layering a caller sees: the waves and the stalled rest, in key order. */
  ghost predicate IsLayering(keys: seq<string>, g: Graph, waves: seq<seq<string>>, cycle: seq<string>, ws: seq<set<string>>) {
    && Closed(keys, g) && Layered(g, ws) && WavesOf(keys, ws, waves)
    && cycle == Keep(keys, g.Keys - Union(ws))
    && (forall k :: k in g && k !in Union(ws) ==> !(g[k] <= Union(ws)))
  }

  function Ready(g: Graph, placed: set<string>): set<string> {
    set k | k in g && k !in placed && g[k] <= placed
  }

  /** The algorithm. The ghost result names the layers. */
  method LayerWaves(rows: seq<Row>) returns (waves: seq<seq<string>>, cycle: seq<string>, ghost ws: seq<set<string>>)
    ensures IsLayering(Keys(rows), GraphOf(rows), waves, cycle, ws)
    ensures cycle == [] <==> Acyclic(GraphOf(rows))
  {
    var keys := CollectKeys(rows);
    var blockers := CollectBlockers(rows, keys);
    waves, cycle, ws := Layer(keys, blockers);
    CycleIffStalled(keys, blockers, waves, cycle, ws);
  }

  method Layer(keys: seq<string>, blockers: Graph) returns (waves: seq<seq<string>>, cycle: seq<string>, ghost ws: seq<set<string>>)
    requires Closed(keys, blockers)
    ensures IsLayering(keys, blockers, waves, cycle, ws)
  {
    waves, ws := [], [];
    var placed: set<string> := {};
    var remaining := keys;
    KeepAll(keys, blockers.Keys - placed);
    while remaining != []
      invariant placed == Union(ws) && Layered(blockers, ws) && Prompt(blockers, ws)
      invariant WavesOf(keys, ws, waves)
      invariant remaining == Keep(keys, blockers.Keys - placed)
      decreases blockers.Keys - placed
    {
      var wave := FilterReady(remaining, blockers, placed);
      OneWave(keys, blockers, placed);
      if wave == [] { return waves, remaining, ws; }
      AddLayer(blockers, ws);
      WavesSnoc(keys, ws, waves, Ready(blockers, placed));
      ws := ws + [Ready(blockers, placed)];
      placed := placed + set k | k in wave;
      waves := waves + [wave];
      remaining := DropPlaced(remaining, blockers.Keys, placed);
    }
    cycle := remaining;
    EmptyKeep(keys, blockers.Keys - placed);
  }

  lemma EmptyKeep(keys: seq<string>, s: set<string>)
    requires Keep(keys, s) == [] && forall k :: k in s ==> k in keys
    ensures s == {}
  {
    assert forall k :: k in s ==> k in Keep(keys, s);
  }

  /** What one turn's two filters amount to on the whole key list. */
  lemma OneWave(keys: seq<string>, g: Graph, placed: set<string>)
    requires Closed(keys, g) && placed <= g.Keys
    ensures var rem, ready := Keep(keys, g.Keys - placed), Ready(g, placed);
      && Keep(rem, ready) == Keep(keys, ready)
      && (set k | k in Keep(keys, ready)) == ready
      && (Keep(keys, ready) == [] ==> forall k :: k in g && k !in placed ==> !(g[k] <= placed))
      && (Keep(keys, ready) != [] ==> ready != {} && g.Keys - (placed + ready) < g.Keys - placed)
      && Keep(rem, g.Keys - (placed + ready)) == Keep(keys, g.Keys - (placed + ready))
  {
    var rem, ready := Keep(keys, g.Keys - placed), Ready(g, placed);
    KeepKeep(keys, g.Keys - placed, ready);
    assert (g.Keys - placed) * ready == ready;
    KeepKeep(keys, g.Keys - placed, g.Keys - (placed + ready));
    assert (g.Keys - placed) * (g.Keys - (placed + ready)) == g.Keys - (placed + ready);
    if Keep(keys, ready) == [] {
      forall k | k in g && k !in placed ensures !(g[k] <= placed) { assert k !in Keep(keys, ready); }
    } else {
      assert Keep(keys, ready)[0] in ready;
    }
  }

  lemma WavesSnoc(keys: seq<string>, ws: seq<set<string>>, waves: seq<seq<string>>, w: set<string>)
    requires WavesOf(keys, ws, waves)
    ensures WavesOf(keys, ws + [w], waves + [Keep(keys, w)])
  {
  }

  lemma LayerStays(g: Graph, ws: seq<set<string>>, w: set<string>, i: nat)
    requires i < |ws| && LayerOk(g, ws, i)
    ensures LayerOk(g, ws + [w], i)
  {
    assert (ws + [w])[..i] == ws[..i];
    if i > 0 { assert (ws + [w])[..i - 1] == ws[..i - 1]; }
  }

  lemma AddLayer(g: Graph, ws: seq<set<string>>)
    requires Layered(g, ws) && Prompt(g, ws) && Ready(g, Union(ws)) != {}
    ensures var ws' := ws + [Ready(g, Union(ws))];
      Layered(g, ws') && Prompt(g, ws') && Union(ws') == Union(ws) + Ready(g, Union(ws))
  {
    var ready := Ready(g, Union(ws));
    var ws' := ws + [ready];
    assert ws'[..|ws|] == ws;
    assert Union(ws') == Union(ws) + ready;
    forall i | 0 <= i < |ws'| ensures LayerOk(g, ws', i) {
      if i < |ws| { LayerStays(g, ws, ready, i); }
      else if i > 0 { assert ws'[..i - 1] == ws[..|ws| - 1]; }
    }
  }

  lemma {:induction false} KeepKeep(ks: seq<string>, a: set<string>, b: set<string>)
    ensures Keep(Keep(ks, a), b) == Keep(ks, a * b)
  {
    if ks != [] {
      var front, last := ks[..|ks| - 1], ks[|ks| - 1];
      KeepKeep(front, a, b);
      if last in a {
        var p := Keep(front, a);
        assert (p + [last])[..|p|] == p;
      }
    }
  }

  lemma {:induction false} KeepAll(ks: seq<string>, s: set<string>)
    requires forall i :: 0 <= i < |ks| ==> ks[i] in s
    ensures Keep(ks, s) == ks
  {
    if ks != [] {
      KeepAll(ks[..|ks| - 1], s);
      KeepLast(ks, s);
      Rejoin(ks);
    }
  }

  lemma KeepLast(ks: seq<string>, s: set<string>)
    requires ks != [] && ks[|ks| - 1] in s
    ensures Keep(ks, s) == Keep(ks[..|ks| - 1], s) + [ks[|ks| - 1]]
  {
  }

  method CollectKeys(rows: seq<Row>) returns (keys: seq<string>)
    ensures keys == Keys(rows)
  {
    keys := [];
    var seen: set<string> := {};
    for i := 0 to |rows|
      invariant keys == Keys(rows[..i]) && seen == set k | k in keys
    {
      assert rows[..i + 1][..i] == rows[..i];
      var r := rows[i];
      if r.Row? && r.key != "" && r.key !in seen {
        seen := seen + {r.key};
        keys := keys + [r.key];
      }
    }
    assert rows[..|rows|] == rows;
  }

  method CollectBlockers(rows: seq<Row>, keys: seq<string>) returns (blockers: Graph)
    requires keys == Keys(rows)
    ensures blockers == GraphOf(rows) && Closed(keys, blockers)
  {
    var byKey: map<string, seq<Ref>> := map[];
    for i := 0 to |rows|
      invariant forall k :: k in Keys(rows[..i]) ==> k in byKey && byKey[k] == LastBlockedBy(rows[..i], k)
    {
      assert rows[..i + 1][..i] == rows[..i];
      if Counts(rows[i]) { byKey := byKey[rows[i].key := rows[i].blockedBy]; }
    }
    assert rows[..|rows|] == rows;
    blockers := map k | k in keys :: set b | b in keys && Str(b) in byKey[k] && b != k;
  }

  method FilterReady(remaining: seq<string>, blockers: Graph, placed: set<string>) returns (wave: seq<string>)
    requires forall k :: k in remaining ==> k in blockers && k !in placed
    ensures wave == Keep(remaining, Ready(blockers, placed))
  {
    wave := [];
    for i := 0 to |remaining|
      invariant wave == Keep(remaining[..i], Ready(blockers, placed))
    {
      assert remaining[..i + 1][..i] == remaining[..i];
      if blockers[remaining[i]] <= placed { wave := wave + [remaining[i]]; }
    }
    assert remaining[..|remaining|] == remaining;
  }

  method DropPlaced(remaining: seq<string>, ghost all: set<string>, placed: set<string>) returns (r: seq<string>)
    requires forall k :: k in remaining ==> k in all
    ensures r == Keep(remaining, all - placed)
  {
    r := [];
    for i := 0 to |remaining|
      invariant r == Keep(remaining[..i], all - placed)
    {
      assert remaining[..i + 1][..i] == remaining[..i];
      if remaining[i] !in placed { r := r + [remaining[i]]; }
    }
    assert remaining[..|remaining|] == remaining;
  }

  // ---- what the rows say -----------------------------------------------------------------

  predicate Says(rows: seq<Row>, i: nat, k: string) { i < |rows| && rows[i].Row? && rows[i].key == k }

  /** The keys are the nonempty ones of the rows, in order of first appearance. */
  lemma {:induction false} KeysAre(rows: seq<Row>)
    ensures forall k :: k in Keys(rows) <==> k != "" && exists i: nat :: Says(rows, i, k)
    ensures forall a, b, j: nat :: 0 <= a < b < |Keys(rows)| && Says(rows, j, Keys(rows)[b]) ==> SaidBefore(rows, j, Keys(rows)[a])
  {
    forall k ensures k in Keys(rows) <==> k != "" && exists i: nat :: Says(rows, i, k) { KeyIsSaid(rows, k); }
    if rows != [] {
      KeysAre(rows[..|rows| - 1]);
      forall a, b, j: nat | 0 <= a < b < |Keys(rows)| && Says(rows, j, Keys(rows)[b]) ensures SaidBefore(rows, j, Keys(rows)[a]) {
        InFirstOrder(rows, a, b, j);
      }
    }
  }

  ghost predicate SaidBefore(rows: seq<Row>, j: nat, k: string) { exists i: nat :: i < j && Says(rows, i, k) }

  lemma KeyIsSaid(rows: seq<Row>, k: string)
    ensures k in Keys(rows) <==> k != "" && exists i: nat :: Says(rows, i, k)
  {
    if k != "" && exists i: nat :: Says(rows, i, k) {
      var i: nat :| Says(rows, i, k);
      assert Counts(rows[i]) && rows[i].key == k;
    }
    if HasKey(rows, k) {
      var i :| 0 <= i < |rows| && Counts(rows[i]) && rows[i].key == k;
      assert Says(rows, i, k);
    }
  }

  lemma InFirstOrder(rows: seq<Row>, a: nat, b: nat, j: nat)
    requires rows != [] && a < b < |Keys(rows)| && Says(rows, j, Keys(rows)[b])
    requires var front := rows[..|rows| - 1];
      forall x, y, i: nat :: 0 <= x < y < |Keys(front)| && Says(front, i, Keys(front)[y]) ==> SaidBefore(front, i, Keys(front)[x])
    ensures SaidBefore(rows, j, Keys(rows)[a])
  {
    var n := |rows| - 1;
    var front := rows[..n];
    var ks := Keys(front);
    assert a < |ks| && Keys(rows)[a] == ks[a];
    KeyIsSaid(front, ks[a]);
    if j < n {
      assert Says(front, j, Keys(rows)[b]);
      KeyIsSaid(front, Keys(rows)[b]);
      assert b < |ks| && Keys(rows)[b] == ks[b];
      assert SaidBefore(front, j, ks[a]);
      var i: nat :| i < j && Says(front, i, ks[a]);
      assert Says(rows, i, ks[a]);
    } else {
      var i: nat :| Says(front, i, ks[a]);
      assert Says(rows, i, ks[a]);
    }
  }

  /** The row that counts for a key: the last one with it. */
  ghost predicate LastSays(rows: seq<Row>, i: nat, k: string) { Says(rows, i, k) && forall j: nat :: i < j ==> !Says(rows, j, k) }

  /** One key blocks another exactly when the last row of that other names it, and it is a key itself. */
  lemma GraphIs(rows: seq<Row>, k: string, b: string)
    requires k in Keys(rows)
    ensures k in GraphOf(rows)
    ensures b in GraphOf(rows)[k] <==> b != k && b in Keys(rows) && exists i: nat :: LastSays(rows, i, k) && Str(b) in rows[i].blockedBy
  {
    KeyIsSaid(rows, k);
    var i := LastOf(rows, k);
    assert forall n: nat :: LastSays(rows, n, k) ==> n == i;
  }

  lemma {:induction false} LastOf(rows: seq<Row>, k: string) returns (i: nat)
    requires k != "" && exists n: nat :: Says(rows, n, k)
    ensures LastSays(rows, i, k) && LastBlockedBy(rows, k) == rows[i].blockedBy
  {
    var n: nat :| Says(rows, n, k);
    var last := |rows| - 1;
    if Says(rows, last, k) {
      i := last;
    } else {
      assert Says(rows[..last], n, k);
      i := LastOf(rows[..last], k);
      assert Says(rows, i, k);
      forall j: nat | i < j ensures !Says(rows, j, k) { assert j < last ==> !Says(rows[..last], j, k); }
    }
  }

  // ---- what a layering means -----------------------------------------------------------

  /** A dependency cycle: a walk along blocked-by edges that returns to its start. */
  predicate ClosedWalk(g: Graph, p: seq<string>) {
    && |p| >= 2 && p[0] == p[|p| - 1]
    && forall i :: 0 <= i < |p| - 1 ==> p[i] in g && p[i + 1] in g[p[i]]
  }

  ghost predicate Acyclic(g: Graph) { forall p :: !ClosedWalk(g, p) }

  /** Where a placed key was placed. */
  lemma RankOf(ws: seq<set<string>>, k: string) returns (i: nat)
    requires k in Union(ws)
    ensures i < |ws| && k in ws[i]
  {
    var j :| 0 <= j < |ws| && k in ws[j];
    i := j;
  }

  lemma {:induction false} UnionMonotone(ws: seq<set<string>>, i: nat, j: nat)
    requires i <= j <= |ws|
    ensures Union(ws[..i]) <= Union(ws[..j])
  {
    forall k | k in Union(ws[..i]) ensures k in Union(ws[..j]) {
      var n := RankOf(ws[..i], k);
      assert ws[..j][n] == ws[n];
    }
  }

  lemma UnionHas(ws: seq<set<string>>, n: nat, j: nat, k: string)
    requires n <= |ws| && j < |ws| && k in ws[j]
    ensures j < n ==> k in Union(ws[..n])
  {
    if j < n { assert ws[..n][j] == ws[j]; }
  }

  lemma LayersDisjoint(g: Graph, ws: seq<set<string>>, i: nat, j: nat)
    requires Layered(g, ws) && i < j < |ws|
    ensures ws[i] !! ws[j]
  {
    assert LayerOk(g, ws, j);
    forall k | k in ws[i] ensures k in Union(ws[..j]) { UnionHas(ws, j, i, k); }
  }

  /** Every key is in exactly one layer or stalled. */
  lemma PlacedOnce(g: Graph, ws: seq<set<string>>, k: string, i: nat, j: nat)
    requires Layered(g, ws) && i < |ws| && j < |ws| && k in ws[i] && k in ws[j]
    ensures i == j
  {
    if i < j { LayersDisjoint(g, ws, i, j); } else if j < i { LayersDisjoint(g, ws, j, i); }
  }

  /** Walking one edge from a placed key goes to a strictly earlier layer. */
  lemma EdgeDescends(g: Graph, ws: seq<set<string>>, k: string, b: string, i: nat) returns (j: nat)
    requires Layered(g, ws) && i < |ws| && k in ws[i] && k in g && b in g[k]
    ensures j < i && b in ws[j]
  {
    assert LayerOk(g, ws, i);
    j := RankOf(ws[..i], b);
  }

  /** The wave number is the length of the longest chain of blockers below: one more than the
      deepest blocker's, and zero without blockers. */
  lemma WaveIsDepth(g: Graph, ws: seq<set<string>>, k: string, i: nat)
    requires Layered(g, ws) && i < |ws| && k in ws[i]
    ensures k in g
    ensures forall b :: b in g[k] ==> exists j :: 0 <= j < i && b in ws[j]
    ensures i > 0 ==> exists b :: b in g[k] && b in ws[i - 1]
    ensures i == 0 ==> g[k] == {}
  {
    assert LayerOk(g, ws, i);
    forall b | b in g[k] ensures exists j :: 0 <= j < i && b in ws[j] {
      var j := EdgeDescends(g, ws, k, b, i);
    }
    if i > 0 {
      var b :| b in g[k] && b !in Union(ws[..i - 1]);
      var j := EdgeDescends(g, ws, k, b, i);
      UnionHas(ws, i - 1, j, b);
    }
  }

  lemma {:induction false} WalkDescends(g: Graph, ws: seq<set<string>>, p: seq<string>, i: nat) returns (j: nat)
    requires Layered(g, ws) && |p| >= 1 && i < |ws| && p[0] in ws[i]
    requires forall n :: 0 <= n < |p| - 1 ==> p[n] in g && p[n + 1] in g[p[n]]
    ensures j < |ws| && p[|p| - 1] in ws[j] && j <= i && (|p| >= 2 ==> j < i)
    decreases |p|
  {
    if |p| == 1 { return i; }
    var m := EdgeDescends(g, ws, p[0], p[1], i);
    var q := p[1..];
    forall n | 0 <= n < |q| - 1 ensures q[n] in g && q[n + 1] in g[q[n]] { assert q[n] == p[n + 1]; }
    j := WalkDescends(g, ws, q, m);
  }

  /** A walk along edges inside `s`. */
  predicate WalkIn(g: Graph, s: set<string>, w: seq<string>) {
    && |w| >= 1 && (forall i :: 0 <= i < |w| ==> w[i] in s)
    && (forall i :: 0 <= i < |w| - 1 ==> w[i] in g && w[i + 1] in g[w[i]])
  }

  lemma CutWalk(g: Graph, s: set<string>, w: seq<string>, i: nat, j: nat)
    requires WalkIn(g, s, w) && i < j < |w| && w[i] == w[j]
    ensures ClosedWalk(g, w[i..j + 1]) && forall k :: k in w[i..j + 1] ==> k in s
  {
    var p := w[i..j + 1];
    forall n | 0 <= n < |p| - 1 ensures p[n] in g && p[n + 1] in g[p[n]] {
      assert p[n] == w[i + n] && p[n + 1] == w[i + n + 1];
    }
  }

  predicate BlockedWithin(g: Graph, s: set<string>, k: string) { k in g && exists b :: b in g[k] && b in s }

  /** A finite set in which every key is blocked by another member contains a real cycle: keep
      walking until a key repeats. */
  lemma {:induction false} StalledSetHasCycle(g: Graph, s: set<string>, w: seq<string>) returns (p: seq<string>)
    requires s <= g.Keys && WalkIn(g, s, w)
    requires forall k {:trigger BlockedWithin(g, s, k)} :: k in s ==> BlockedWithin(g, s, k)
    ensures ClosedWalk(g, p) && forall k :: k in p ==> k in s
    decreases |s| + 1 - |w|
  {
    if !Distinct(w) {
      var i, j :| 0 <= i < j < |w| && w[i] == w[j];
      p := w[i..j + 1];
      CutWalk(g, s, w, i, j);
    } else {
      DistinctFits(w, s);
      assert BlockedWithin(g, s, w[|w| - 1]);
      var b :| b in g[w[|w| - 1]] && b in s;
      p := StalledSetHasCycle(g, s, w + [b]);
    }
  }

  predicate Distinct(w: seq<string>) { forall i, j :: 0 <= i < j < |w| ==> w[i] != w[j] }

  lemma {:induction false} DistinctFits(w: seq<string>, s: set<string>)
    requires Distinct(w) && forall k :: k in w ==> k in s
    ensures |w| <= |s|
    decreases |w|
  {
    if w != [] {
      var front, last := w[..|w| - 1], w[|w| - 1];
      assert forall k :: k in front ==> k in w;
      assert last !in front;
      DistinctFits(front, s - {last});
    }
  }

  lemma PlacedMeansAcyclic(g: Graph, ws: seq<set<string>>)
    requires Layered(g, ws) && Union(ws) == g.Keys
    ensures Acyclic(g)
  {
    forall p ensures !ClosedWalk(g, p) {
      if ClosedWalk(g, p) {
        var i := RankOf(ws, p[0]);
        var j := WalkDescends(g, ws, p, i);
        PlacedOnce(g, ws, p[0], i, j);
      }
    }
  }

  lemma StalledMeansCycle(g: Graph, placed: set<string>) returns (p: seq<string>)
    requires placed < g.Keys && (forall k :: k in g ==> g[k] <= g.Keys)
    requires forall k :: k in g && k !in placed ==> !(g[k] <= placed)
    ensures ClosedWalk(g, p) && forall k :: k in p ==> k in g.Keys - placed
  {
    var rest := g.Keys - placed;
    forall k | k in rest ensures BlockedWithin(g, rest, k) {
      var b :| b in g[k] && b !in placed;
      assert b in rest;
    }
    var k0 :| k0 in g.Keys && k0 !in placed;
    p := StalledSetHasCycle(g, rest, [k0]);
  }

  /** `cycle` is empty exactly when the dependencies are acyclic; otherwise it contains a cycle. */
  lemma CycleIffStalled(keys: seq<string>, g: Graph, waves: seq<seq<string>>, cycle: seq<string>, ws: seq<set<string>>)
    requires IsLayering(keys, g, waves, cycle, ws)
    ensures cycle == [] <==> Acyclic(g)
    ensures cycle != [] ==> exists p :: ClosedWalk(g, p) && forall k :: k in p ==> k in cycle
  {
    if cycle == [] {
      EmptyKeep(keys, g.Keys - Union(ws));
      PlacedMeansAcyclic(g, ws);
    } else {
      assert cycle[0] in g.Keys - Union(ws);
      var p := StalledMeansCycle(g, Union(ws));
      assert forall k :: k in p ==> k in cycle;
    }
  }

  /** A key blocked by every other key, when nothing stalls, is alone in the last wave. */
  lemma SinkConverges(keys: seq<string>, g: Graph, waves: seq<seq<string>>, cycle: seq<string>, ws: seq<set<string>>, f: string)
    requires IsLayering(keys, g, waves, cycle, ws) && Acyclic(g) && Distinct(keys)
    requires f in g && g[f] == g.Keys - {f}
    ensures cycle == [] && |waves| > 0 && waves[|waves| - 1] == [f]
  {
    CycleIffStalled(keys, g, waves, cycle, ws);
    EmptyKeep(keys, g.Keys - Union(ws));
    var i := RankOf(ws, f);
    SinkIsLast(g, ws, f, i);
    KeepOne(keys, f);
  }

  lemma SinkIsLast(g: Graph, ws: seq<set<string>>, f: string, i: nat)
    requires Layered(g, ws) && Union(ws) == g.Keys && f in g && g[f] == g.Keys - {f}
    requires i < |ws| && f in ws[i]
    ensures i == |ws| - 1 && ws[i] == {f}
  {
    assert LayerOk(g, ws, i);
    forall k | k in g && k != f ensures k in Union(ws[..i]) { }
    assert ws[i] == {f};
    if i + 1 < |ws| {
      LayersDisjoint(g, ws, i, i + 1);
      assert LayerOk(g, ws, i + 1);
      var k :| k in ws[i + 1];
      UnionMonotone(ws, i, i + 1);
    }
  }

  lemma {:induction false} KeepOne(keys: seq<string>, f: string)
    requires f in keys && Distinct(keys)
    ensures Keep(keys, {f}) == [f]
  {
    var front, last := keys[..|keys| - 1], keys[|keys| - 1];
    if last == f {
      forall i | 0 <= i < |front| ensures front[i] != f { assert keys[i] != keys[|keys| - 1]; }
      KeepNone(front, f);
    } else {
      KeepOne(front, f);
    }
  }

  lemma {:induction false} KeepNone(keys: seq<string>, f: string)
    requires f !in keys
    ensures Keep(keys, {f}) == []
  {
    if keys != [] {
      assert keys[|keys| - 1] != f;
      KeepNone(keys[..|keys| - 1], f);
    }
  }

  // ---- what a caller sees of the waves ---------------------------------------------------------

  function Flat(waves: seq<seq<string>>): seq<string> {
    if waves == [] then [] else Flat(waves[..|waves| - 1]) + waves[|waves| - 1]
  }

  lemma {:induction false} KeepCount(ks: seq<string>, s: set<string>, k: string)
    ensures multiset(Keep(ks, s))[k] == if k in s then multiset(ks)[k] else 0
  {
    if ks != [] {
      KeepCount(ks[..|ks| - 1], s, k);
      Rejoin(ks);
      assert multiset(ks[..|ks| - 1] + [ks[|ks| - 1]]) == multiset(ks[..|ks| - 1]) + multiset{ks[|ks| - 1]};
    }
  }

  /** The first n waves hold a key as often as the key list does, if one of them has it at all. */
  lemma {:induction false} FlatCount(keys: seq<string>, g: Graph, waves: seq<seq<string>>, ws: seq<set<string>>, n: nat, k: string)
    requires Layered(g, ws) && WavesOf(keys, ws, waves) && n <= |ws|
    ensures multiset(Flat(waves[..n]))[k] == if k in Union(ws[..n]) then multiset(keys)[k] else 0
  {
    if n > 0 {
      FlatCount(keys, g, waves, ws, n - 1, k);
      FlatNext(waves, n);
      UnionNext(ws, n);
      assert LayerOk(g, ws, n - 1);
      KeepCount(keys, ws[n - 1], k);
    }
  }

  lemma FlatNext(waves: seq<seq<string>>, n: nat)
    requires 1 <= n <= |waves|
    ensures multiset(Flat(waves[..n])) == multiset(Flat(waves[..n - 1])) + multiset(waves[n - 1])
  {
    PrefixOfPrefix(waves, n - 1, n);
    assert Flat(waves[..n]) == Flat(waves[..n - 1]) + waves[n - 1];
  }

  lemma UnionNext(ws: seq<set<string>>, n: nat)
    requires 1 <= n <= |ws|
    ensures Union(ws[..n]) == Union(ws[..n - 1]) + ws[n - 1]
  {
    PrefixOfPrefix(ws, n - 1, n);
  }

  /** Conservation: the waves and the stalled rest together are the keys, each as often as given. */
  lemma KeysAreConserved(keys: seq<string>, g: Graph, waves: seq<seq<string>>, cycle: seq<string>, ws: seq<set<string>>)
    requires IsLayering(keys, g, waves, cycle, ws)
    ensures multiset(Flat(waves) + cycle) == multiset(keys)
  {
    forall k ensures multiset(Flat(waves) + cycle)[k] == multiset(keys)[k] {
      FlatCount(keys, g, waves, ws, |ws|, k);
      assert waves[..|ws|] == waves && ws[..|ws|] == ws;
      KeepCount(keys, g.Keys - Union(ws), k);
      assert k in keys <==> k in g.Keys;
    }
  }

  /** A key's wave is one past its deepest blocker's: every blocker is in an earlier wave, and past the
      first wave one of them is in the wave just before. */
  lemma WaveFollowsBlockers(keys: seq<string>, g: Graph, waves: seq<seq<string>>, cycle: seq<string>, ws: seq<set<string>>, k: string, i: nat)
    requires IsLayering(keys, g, waves, cycle, ws) && i < |waves| && k in waves[i]
    ensures k in g
    ensures forall b :: b in g[k] ==> exists j :: 0 <= j < i && b in waves[j]
    ensures i > 0 ==> exists b :: b in g[k] && b in waves[i - 1]
    ensures i == 0 ==> g[k] == {}
  {
    WaveIsDepth(g, ws, k, i);
    forall b | b in g[k] ensures exists j :: 0 <= j < i && b in waves[j] {
      var j :| 0 <= j < i && b in ws[j];
      assert b in waves[j];
    }
    if i > 0 {
      var b :| b in g[k] && b in ws[i - 1];
      assert b in waves[i - 1];
    }
  }
}
