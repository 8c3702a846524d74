/**
 The artifact store over whole runs: what every store built by `Create` satisfies, what stays
 frozen from then on, and what that makes of the export gate.
 */
module ArtifactRuns {
  import opened Basics
  import opened Artifacts
  import opened Lineage

  // ---- what every reachable store satisfies ----------------------------------------------

  /** Edges point to artifacts created earlier and to tool calls that succeeded. */
  ghost predicate EdgeBefore(s: Store, i: nat, e: Edge) {
    match e
    case FromTool(t) => t in s.tools
    case FromArtifact(a) => a < i
  }

  ghost predicate Layered(s: Store) {
    forall i, e :: 0 <= i < |s.artifacts| && e in s.artifacts[i].lineage ==> EdgeBefore(s, i, e)
  }

  ghost predicate NoneSelfPermitting(s: Store) {
    forall i :: 0 <= i < |s.artifacts| ==> !SelfPermitting(s.artifacts[i])
  }

  ghost predicate DistinctContents(s: Store) {
    forall i, j :: 0 <= i < j < |s.artifacts| ==> s.artifacts[i].content != s.artifacts[j].content
  }

  ghost predicate SameFacts(a: Provenance, b: Provenance) {
    a.taints == b.taints && a.personal == b.personal
  }

  /** The snapshot's facts, as opposed to its rights position, are what the recursion finds. */
  ghost predicate SnapshotTrue(s: Store, i: nat)
    requires i < |s.artifacts|
  {
    Effective(s, i).Ok? && SameFacts(Effective(s, i).value, s.artifacts[i].stored)
  }

  ghost predicate SnapshotsTrue(s: Store) {
    forall i :: 0 <= i < |s.artifacts| ==> SnapshotTrue(s, i)
  }

  ghost predicate ExportedUntainted(s: Store) {
    forall i :: 0 <= i < |s.artifacts| && s.artifacts[i].exported.Some? ==>
        SimAdversarial !in s.artifacts[i].stored.taints
  }

  ghost predicate Valid(s: Store) {
    && Layered(s) && NoneSelfPermitting(s) && DistinctContents(s)
    && SnapshotsTrue(s) && ExportedUntainted(s)
  }

  /** Later than everything still to be met. */
  ghost predicate Above(seen: set<nat>, id: nat) {
    forall x :: x in seen ==> x > id
  }

  /** On a layered store the cycle guard never fires, and nothing else raises. */
  lemma {:induction false} LayeredAnswers(s: Store, id: nat, seen: set<nat>)
    requires Layered(s) && NoneSelfPermitting(s) && id < |s.artifacts| && Above(seen, id)
    ensures EffectiveFrom(s, id, seen).Ok?
    decreases id
  {
    var edges := s.artifacts[id].lineage;
    forall i | 0 <= i < |edges| ensures EdgeFrom(s, edges[i], seen + {id}).Ok? {
      assert EdgeBefore(s, id, edges[i]);
      if edges[i].FromArtifact? {
        LayeredAnswers(s, edges[i].source, seen + {id});
      }
    }
    SourcesAnswer(s, edges, seen + {id});
  }

  /** `s'` has every tool call and artifact of `s`, with the same sources and declarations. */
  ghost predicate Grown(s: Store, s': Store) {
    && |s.artifacts| <= |s'.artifacts|
    && (forall t: nat :: t in s.tools ==> t in s'.tools && s'.tools[t] == s.tools[t])
    && forall i :: 0 <= i < |s.artifacts| ==>
         s'.artifacts[i].lineage == s.artifacts[i].lineage && s'.artifacts[i].own == s.artifacts[i].own
  }

  ghost predicate Same(s: Store, s': Store, a: Provenance, b: Provenance) {
    SameFacts(a, b) && (s.attestations == s'.attestations ==> a == b)
  }

  lemma SameFold(s: Store, s': Store, ps: seq<Provenance>, qs: seq<Provenance>)
    requires |ps| == |qs| && forall i :: 0 <= i < |ps| ==> Same(s, s', ps[i], qs[i])
    ensures Taints(ps) == Taints(qs) && Personals(ps) == Personals(qs)
  {
    forall t ensures t in Taints(ps) <==> t in Taints(qs) {
      if t in Taints(ps) {
        var i :| 0 <= i < |ps| && t in ps[i].taints;
        assert Same(s, s', ps[i], qs[i]);
      }
      if t in Taints(qs) {
        var i :| 0 <= i < |qs| && t in qs[i].taints;
        assert Same(s, s', ps[i], qs[i]);
      }
    }
    assert forall i :: 0 <= i < |ps| ==> Personals(ps)[i] == Personals(qs)[i];
  }

  lemma FoldOfSame(s: Store, s': Store, ps: seq<Provenance>, qs: seq<Provenance>, own: Option<Provenance>)
    requires |ps| == |qs| && forall i :: 0 <= i < |ps| ==> Same(s, s', ps[i], qs[i])
    requires own.Some? ==> own.value.use != Permitted
    ensures Inherit(ps, own, ColonyUse(s)).Ok? && Inherit(qs, own, ColonyUse(s')).Ok?
    ensures Same(s, s', Inherit(ps, own, ColonyUse(s)).value, Inherit(qs, own, ColonyUse(s')).value)
  {
    var all, all' := ps + Own(own), qs + Own(own);
    assert forall i :: 0 <= i < |all| ==> Same(s, s', all[i], all'[i]);
    SameFold(s, s', all, all');
    if s.attestations == s'.attestations {
      assert all == all';
    }
  }

  /** Taints and the personal-data class never change once an artifact exists, and the rights
      position changes only with the attestations. */
  lemma {:induction false} FactsAreFrozen(s: Store, s': Store, id: nat, seen: set<nat>, seen': set<nat>)
    requires Layered(s) && NoneSelfPermitting(s) && Layered(s') && NoneSelfPermitting(s') && Grown(s, s')
    requires id < |s.artifacts| && Above(seen, id) && Above(seen', id)
    ensures EffectiveFrom(s, id, seen).Ok? && EffectiveFrom(s', id, seen').Ok?
    ensures Same(s, s', EffectiveFrom(s, id, seen).value, EffectiveFrom(s', id, seen').value)
    decreases id
  {
    LayeredAnswers(s, id, seen);
    LayeredAnswers(s', id, seen');
    var row := s.artifacts[id];
    var edges := row.lineage;
    var ps := SourcesFrom(s, edges, seen + {id}).value;
    var qs := SourcesFrom(s', edges, seen' + {id}).value;
    SourcesMean(s, edges, seen + {id});
    SourcesMean(s', edges, seen' + {id});
    forall i | 0 <= i < |edges| ensures Same(s, s', ps[i], qs[i]) {
      assert EdgeBefore(s, id, edges[i]);
      EdgeIsFrozen(s, s', edges[i], id, seen, seen', ps[i], qs[i]);
    }
    FoldOfSame(s, s', ps, qs, row.own);
  }

  lemma {:induction false} EdgeIsFrozen(s: Store, s': Store, e: Edge, id: nat, seen: set<nat>, seen': set<nat>,
                                        a: Provenance, b: Provenance)
    requires Layered(s) && NoneSelfPermitting(s) && Layered(s') && NoneSelfPermitting(s') && Grown(s, s')
    requires EdgeBefore(s, id, e) && id <= |s.artifacts| && Above(seen, id) && Above(seen', id)
    requires EdgeFrom(s, e, seen + {id}) == Ok(a) && EdgeFrom(s', e, seen' + {id}) == Ok(b)
    ensures Same(s, s', a, b)
    decreases id, 0
  {
    hide EffectiveFrom, SourcesFrom, Inherit, Layered, NoneSelfPermitting;
    match e
    case FromTool(t) =>
    case FromArtifact(x) =>
      FactsAreFrozen(s, s', x, seen + {id}, seen' + {id});
  }

  // ---- each transaction keeps it --------------------------------------------------------------

  lemma AppendKeepsLayers(s: Store, row: Row)
    requires Layered(s) && NoneSelfPermitting(s) && !SelfPermitting(row)
    requires forall e :: e in row.lineage ==> EdgeBefore(s, |s.artifacts|, e)
    ensures var s' := s.(artifacts := s.artifacts + [row]);
            Layered(s') && NoneSelfPermitting(s') && Grown(s, s')
  {
    var s' := s.(artifacts := s.artifacts + [row]);
    forall i, e | 0 <= i < |s'.artifacts| && e in s'.artifacts[i].lineage ensures EdgeBefore(s', i, e) {
      if i < |s.artifacts| {
        assert EdgeBefore(s, i, e);
      }
    }
  }

  lemma DraftIsLayered(s: Store, d: Draft)
    requires SourcesFrom(s, DraftEdges(d), {}).Ok?
    ensures forall e :: e in DraftEdges(d) ==> EdgeBefore(s, |s.artifacts|, e)
  {
    var edges := DraftEdges(d);
    SourcesMean(s, edges, {});
    forall e | e in edges ensures EdgeBefore(s, |s.artifacts|, e) {
      var i :| 0 <= i < |edges| && edges[i] == e;
      assert EdgeFrom(s, edges[i], {}).Ok?;
    }
  }

  lemma EdgeReadAgain(s: Store, s': Store, e: Edge, n: nat)
    requires Layered(s) && NoneSelfPermitting(s) && Layered(s') && NoneSelfPermitting(s') && Grown(s, s')
    requires n == |s.artifacts| && s'.attestations == s.attestations && EdgeBefore(s, n, e)
    ensures EdgeFrom(s', e, {n}) == EdgeFrom(s, e, {})
  {
    hide EffectiveFrom, SourcesFrom, Layered, NoneSelfPermitting;
    match e
    case FromTool(t) =>
    case FromArtifact(x) => FactsAreFrozen(s, s', x, {}, {n});
  }

  lemma SourcesReadAgain(s: Store, d: Draft, row: Row)
    requires Layered(s) && NoneSelfPermitting(s) && !SelfPermitting(row) && row.lineage == DraftEdges(d)
    requires SourcesFrom(s, DraftEdges(d), {}).Ok?
    ensures var s' := s.(artifacts := s.artifacts + [row]);
            && Layered(s') && NoneSelfPermitting(s') && Grown(s, s')
            && SourcesFrom(s', DraftEdges(d), {|s.artifacts|}) == SourcesFrom(s, DraftEdges(d), {})
  {
    hide EffectiveFrom, SourcesFrom, EdgeFrom, DraftEdges, Layered, NoneSelfPermitting, Grown;
    var n, s', edges := |s.artifacts|, s.(artifacts := s.artifacts + [row]), DraftEdges(d);
    DraftIsLayered(s, d);
    AppendKeepsLayers(s, row);
    SourcesMean(s, edges, {});
    var ps := SourcesFrom(s, edges, {}).value;
    forall i | 0 <= i < |edges| ensures EdgeFrom(s', edges[i], {n}) == Ok(ps[i]) {
      assert EdgeBefore(s, n, edges[i]) && EdgeFrom(s, edges[i], {}) == Ok(ps[i]);
      EdgeReadAgain(s, s', edges[i], n);
    }
    SourcesAnswer(s', edges, {n});
    SourcesMean(s', edges, {n});
    assert ps == SourcesFrom(s', edges, {n}).value;
  }

  /** A new artifact is stored with exactly the position the recursion finds for it. */
  lemma BornTrue(s: Store, d: Draft, row: Row)
    requires Layered(s) && NoneSelfPermitting(s)
    requires DraftPosition(s, d).Ok? && row.lineage == DraftEdges(d) && row.own == d.own
    ensures var s' := s.(artifacts := s.artifacts + [row]);
            && Layered(s') && NoneSelfPermitting(s') && Grown(s, s')
            && Effective(s', |s.artifacts|) == DraftPosition(s, d)
  {
    SourcesReadAgain(s, d, row);
    assert {} + {|s.artifacts|} == {|s.artifacts|};
  }

  lemma SnapshotsSurvive(s: Store, s': Store)
    requires Valid(s) && Layered(s') && NoneSelfPermitting(s') && Grown(s, s')
    requires forall i :: 0 <= i < |s.artifacts| ==> s'.artifacts[i].stored == s.artifacts[i].stored
    ensures forall i :: 0 <= i < |s.artifacts| ==> SnapshotTrue(s', i)
  {
    forall i | 0 <= i < |s.artifacts| ensures SnapshotTrue(s', i) {
      FactsAreFrozen(s, s', i, {}, {});
      assert SnapshotTrue(s, i);
    }
  }

  /** Nothing recorded is rewritten, except that an artifact may become exported. */
  ghost predicate Kept(s: Store, s': Store) {
    && Grown(s, s') && s.cells <= s'.cells && s.attestations <= s'.attestations
    && forall i :: 0 <= i < |s.artifacts| ==>
         && s'.artifacts[i].content == s.artifacts[i].content
         && s'.artifacts[i].cell == s.artifacts[i].cell
         && s'.artifacts[i].stored == s.artifacts[i].stored
         && (s.artifacts[i].exported.Some? ==> s'.artifacts[i].exported == s.artifacts[i].exported)
  }

  lemma AppendKeepsRest(s: Store, row: Row)
    requires Valid(s) && Find(s.artifacts, row.content).None? && row.exported.None?
    ensures var s' := s.(artifacts := s.artifacts + [row]);
            DistinctContents(s') && ExportedUntainted(s') && (Grown(s, s') ==> Kept(s, s'))
  {}

  lemma NewArtifactKeeps(s: Store, d: Draft, row: Row)
    requires Valid(s) && Find(s.artifacts, d.content).None? && DraftPosition(s, d).Ok?
    requires row == Row(d.content, d.cell, DraftEdges(d), d.own, DraftPosition(s, d).value, None)
    ensures var s' := s.(artifacts := s.artifacts + [row]); Valid(s') && Kept(s, s')
  {
    var s' := s.(artifacts := s.artifacts + [row]);
    hide Layered, NoneSelfPermitting, DistinctContents, ExportedUntainted, Grown, DraftEdges, DraftPosition,
        Effective, Kept;
    BornTrue(s, d, row);
    SnapshotsSurvive(s, s');
    AppendKeepsRest(s, row);
    assert SnapshotTrue(s', |s.artifacts|);
  }

  lemma CreateKeeps(s: Store, d: Draft)
    requires Valid(s) && Create(s, d).Ok?
    ensures var s' := Create(s, d).value.0; Valid(s') && Kept(s, s')
  {
    if Find(s.artifacts, d.content).None? {
      hide Valid, Kept, DraftPosition;
      NewArtifactKeeps(s, d, Row(d.content, d.cell, DraftEdges(d), d.own, DraftPosition(s, d).value, None));
    }
  }

  lemma ExportKeeps(s: Store, id: nat, commercial: bool)
    requires Valid(s) && Export(s, id, commercial).Ok?
    ensures var s' := Export(s, id, commercial).value; Valid(s') && Kept(s, s')
  {
    var s' := Export(s, id, commercial).value;
    assert Layered(s') by {
      forall i, e | 0 <= i < |s'.artifacts| && e in s'.artifacts[i].lineage ensures EdgeBefore(s', i, e) {
        assert s'.artifacts[i].lineage == s.artifacts[i].lineage;
        assert EdgeBefore(s, i, e);
      }
    }
    SnapshotsSurvive(s, s');
  }

  lemma NextKeeps(s: Store, op: Op)
    requires Valid(s)
    ensures Valid(Next(s, op)) && Kept(s, Next(s, op))
  {
    match op
    case DoCreate(d) =>
      if Create(s, d).Ok? { CreateKeeps(s, d); }
    case DoExport(id, commercial) =>
      if Export(s, id, commercial).Ok? { ExportKeeps(s, id, commercial); }
    case _ =>
      var s' := Next(s, op);
      assert Layered(s') by {
        forall i, e | 0 <= i < |s'.artifacts| && e in s'.artifacts[i].lineage ensures EdgeBefore(s', i, e) {
          assert EdgeBefore(s, i, e);
        }
      }
      SnapshotsSurvive(s, s');
  }

  /** Every reachable store is valid, and nothing recorded in it is ever rewritten. */
  lemma {:induction false} RunKeeps(s: Store, ops: seq<Op>)
    requires Valid(s)
    ensures Valid(Run(s, ops)) && Kept(s, Run(s, ops))
    decreases |ops|
  {
    if ops == [] {
    } else {
      NextKeeps(s, ops[0]);
      RunKeeps(Next(s, ops[0]), ops[1..]);
    }
  }

  lemma EmptyIsValid()
    ensures Valid(EMPTY)
  {}

  // ---- what this makes of the program ------------------------------------------------------------

  /** A store that some run of the program builds. */
  ghost predicate Reachable(s: Store) {
    exists ops :: s == Run(EMPTY, ops)
  }

  lemma ReachableIsValid(s: Store)
    requires Reachable(s)
    ensures Valid(s)
  {
    var ops :| s == Run(EMPTY, ops);
    EmptyIsValid();
    RunKeeps(EMPTY, ops);
  }

  /** In every reachable store the recursion answers for every artifact there is, so the only
      exception it can raise is "no such artifact": the cycle error is unreachable. */
  lemma CycleErrorIsUnreachable(s: Store, id: nat)
    requires Reachable(s)
    ensures if id < |s.artifacts| then Effective(s, id).Ok? else Effective(s, id) == Err(NoSuchArtifact)
  {
    ReachableIsValid(s);
    if id < |s.artifacts| {
      LayeredAnswers(s, id, {});
    }
  }

  /** A new artifact's snapshot is the recursion's own answer at that moment. From then on it
      is never rewritten and equals the recursion on taints and personal data. */
  lemma SnapshotStaysTrue(s: Store, d: Draft, s1: Store, id: nat, after: seq<Op>)
    requires Reachable(s) && Find(s.artifacts, d.content).None? && Create(s, d) == Ok((s1, id))
    ensures id < |s1.artifacts| && Effective(s1, id) == Ok(s1.artifacts[id].stored)
    ensures id < |Run(s1, after).artifacts| && Run(s1, after).artifacts[id].stored == s1.artifacts[id].stored
    ensures SnapshotTrue(Run(s1, after), id)
  {
    ReachableIsValid(s);
    CreateKeeps(s, d);
    BornTrue(s, d, s1.artifacts[id]);
    RunKeeps(s1, after);
  }

  ghost predicate HasTaintedAncestor(s: Store, id: nat) {
    exists p, c :: PathFrom(s, id, p) && Contributes(s, Last(p), c) && SimAdversarial in c.taints
  }

  lemma StoredTaintIsAncestry(s: Store, id: nat)
    requires Valid(s) && id < |s.artifacts|
    ensures SimAdversarial in s.artifacts[id].stored.taints <==> HasTaintedAncestor(s, id)
  {
    assert SnapshotTrue(s, id);
    TaintIsTheUnion(s, id, SimAdversarial);
  }

  /** An artifact with an adversarial ancestor was never exported and never will be, whatever
      is attested, created or exported before or after. */
  lemma TaintedNeverLeaves(s: Store, id: nat, after: seq<Op>, commercial: bool)
    requires Reachable(s) && id < |s.artifacts| && HasTaintedAncestor(s, id)
    ensures id < |Run(s, after).artifacts| && Run(s, after).artifacts[id].exported == None
    ensures Export(Run(s, after), id, commercial) == Err(TaintBlocked)
  {
    ReachableIsValid(s);
    StoredTaintIsAncestry(s, id);
    RunKeeps(s, after);
  }

  ghost predicate AllClean(s: Store, id: nat) {
    forall p :: PathFrom(s, id, p) ==> Last(p) < |s.artifacts| && Clean(s, Last(p))
  }

  /** The export gate, exactly: refused for an adversarial ancestor, a second export, or, when
      commercial, anything unclean in the closure as attested at that moment. */
  lemma GateIsExact(s: Store, id: nat, commercial: bool)
    requires Reachable(s)
    ensures Export(s, id, commercial).Ok? <==>
              && id < |s.artifacts| && s.artifacts[id].exported == None
              && !HasTaintedAncestor(s, id)
              && (commercial ==> AllClean(s, id))
  {
    ReachableIsValid(s);
    if id < |s.artifacts| {
      LayeredAnswers(s, id, {});
      StoredTaintIsAncestry(s, id);
      PermittedExactlyWhenClean(s, id);
    }
  }

  /** Why an export is refused: the artifact is not there, its taint, its rights, or that it left
      before, each hiding the ones after it. */
  lemma ExportRefusals(s: Store, id: nat, commercial: bool)
    requires Reachable(s)
    ensures var r := Export(s, id, commercial);
            && (r == Err(NoSuchArtifact) <==> id >= |s.artifacts|)
            && (r == Err(TaintBlocked) <==> id < |s.artifacts| && HasTaintedAncestor(s, id))
            && (r == Err(NotPermitted) <==>
                  id < |s.artifacts| && !HasTaintedAncestor(s, id) && commercial && !AllClean(s, id))
            && (r == Err(AlreadyExported) <==>
                  && id < |s.artifacts| && !HasTaintedAncestor(s, id) && (commercial ==> AllClean(s, id))
                  && s.artifacts[id].exported.Some?)
  {
    ReachableIsValid(s);
    if id < |s.artifacts| {
      LayeredAnswers(s, id, {});
      StoredTaintIsAncestry(s, id);
      PermittedExactlyWhenClean(s, id);
    }
    hide HasTaintedAncestor, EffectiveFrom, Valid;
  }

  lemma ExportedStaysExported(s: Store, id: nat, commercial: bool)
    requires id < |s.artifacts| && s.artifacts[id].exported.Some?
    ensures Export(s, id, commercial).Err?
  {
    hide Effective;
  }

  lemma ExportMarks(s: Store, id: nat, commercial: bool)
    requires Export(s, id, commercial).Ok?
    ensures var s' := Export(s, id, commercial).value;
            id < |s.artifacts| == |s'.artifacts| && s'.artifacts[id].exported == Some(commercial)
  {
    hide Effective;
  }

  /** An export is recorded once: later exports are refused and the record never changes. */
  lemma ExportIsOnce(s: Store, id: nat, commercial: bool, s1: Store, after: seq<Op>, again: bool)
    requires Reachable(s) && Export(s, id, commercial) == Ok(s1)
    ensures id < |Run(s1, after).artifacts| && Run(s1, after).artifacts[id].exported == Some(commercial)
    ensures Export(Run(s1, after), id, again).Err?
  {
    ReachableIsValid(s);
    hide Valid, Run, Export;
    ExportKeeps(s, id, commercial);
    ExportMarks(s, id, commercial);
    RunKeeps(s1, after);
    ExportedStaysExported(Run(s1, after), id, again);
  }

  lemma FindIsUnique(s: Store, i: nat)
    requires DistinctContents(s) && i < |s.artifacts|
    ensures Find(s.artifacts, s.artifacts[i].content) == Some(i)
  {
    var r := Find(s.artifacts, s.artifacts[i].content);
    assert r.Some? && s.artifacts[r.value].content == s.artifacts[i].content;
  }

  ghost predicate KnownContent(s: Store, content: Content) {
    exists i: nat :: i < |s.artifacts| && s.artifacts[i].content == content
  }

  /** What a creator must have in hand: a Cell that exists, calls that succeeded, artifacts that
      are there, and no declaration of its own that its work may be sold. */
  ghost predicate MayCreate(s: Store, d: Draft) {
    && d.cell in s.cells && (forall t :: t in d.tools ==> t in s.tools)
    && (forall a :: a in d.sources ==> a < |s.artifacts|)
    && (d.own.Some? ==> d.own.value.use != Permitted)
  }

  lemma DraftAnswers(s: Store, d: Draft)
    requires Valid(s)
    ensures SourcesFrom(s, DraftEdges(d), {}).Ok?
       <==> (forall t :: t in d.tools ==> t in s.tools) && (forall a :: a in d.sources ==> a < |s.artifacts|)
  {
    var edges := DraftEdges(d);
    SourcesMean(s, edges, {});
    if SourcesFrom(s, edges, {}).Ok? {
      forall t | t in d.tools ensures t in s.tools {
        var i :| 0 <= i < |d.tools| && d.tools[i] == t;
        assert EdgeFrom(s, edges[i], {}).Ok? && edges[i] == FromTool(t);
      }
      forall a | a in d.sources ensures a < |s.artifacts| {
        var i :| 0 <= i < |d.sources| && d.sources[i] == a;
        assert EdgeFrom(s, edges[|d.tools| + i], {}).Ok? && edges[|d.tools| + i] == FromArtifact(a);
      }
    } else {
      var i :| 0 <= i < |edges| && EdgeFrom(s, edges[i], {}).Err?;
      if i < |d.tools| {
        assert edges[i] == FromTool(d.tools[i]) && d.tools[i] in d.tools;
      } else {
        var a := d.sources[i - |d.tools|];
        assert edges[i] == FromArtifact(a) && a in d.sources;
        if a < |s.artifacts| { LayeredAnswers(s, a, {}); }
      }
    }
  }

  /** A creation goes through exactly when its content is known or its creator has all that in
      hand. */
  lemma CreateGoesThroughExactly(s: Store, d: Draft)
    requires Reachable(s)
    ensures Create(s, d).Ok? <==> KnownContent(s, d.content) || MayCreate(s, d)
  {
    ReachableIsValid(s);
    DraftAnswers(s, d);
    hide EffectiveFrom, SourcesFrom, Valid, DraftEdges, EdgeFrom;
    assert Find(s.artifacts, d.content).Some? <==> KnownContent(s, d.content);
  }

  /** Why a creation is refused: its Cell, then the first call that did not succeed or source that
      is not there, in the order given, then its declaration. */
  lemma CreateRefusals(s: Store, d: Draft)
    requires Reachable(s)
    ensures var r := Create(s, d); var isNew := !KnownContent(s, d.content);
            && (r == Err(UnknownCell) <==> isNew && d.cell !in s.cells)
            && (r == Err(NoSucceededToolCall) <==>
                  isNew && d.cell in s.cells && exists t :: t in d.tools && t !in s.tools)
            && (r == Err(NoSuchArtifact) <==>
                  && isNew && d.cell in s.cells && (forall t :: t in d.tools ==> t in s.tools)
                  && exists a :: a in d.sources && a >= |s.artifacts|)
            && (r == Err(ProducerPermitted) <==>
                  && isNew && d.cell in s.cells && (forall t :: t in d.tools ==> t in s.tools)
                  && (forall a :: a in d.sources ==> a < |s.artifacts|)
                  && d.own.Some? && d.own.value.use == Permitted)
  {
    ReachableIsValid(s);
    DraftAnswers(s, d);
    if SourcesFrom(s, DraftEdges(d), {}).Err? { DraftFailure(s, d); }
    hide EffectiveFrom, SourcesFrom, Valid, DraftEdges, EdgeFrom;
    assert Find(s.artifacts, d.content).Some? <==> KnownContent(s, d.content);
  }

  lemma {:induction false} FirstFailure(s: Store, edges: seq<Edge>, n: nat)
    requires n < |edges| && EdgeFrom(s, edges[n], {}).Err?
    requires forall i :: 0 <= i < n ==> EdgeFrom(s, edges[i], {}).Ok?
    ensures SourcesFrom(s, edges, {}) == Err(EdgeFrom(s, edges[n], {}).error)
    decreases |edges|
  {
    if n == |edges| - 1 {
      SourcesMean(s, edges[..n], {});
    } else {
      FirstFailure(s, edges[..|edges| - 1], n);
    }
  }

  lemma DraftFailure(s: Store, d: Draft)
    requires Valid(s) && SourcesFrom(s, DraftEdges(d), {}).Err?
    ensures SourcesFrom(s, DraftEdges(d), {})
         == Err(if exists t :: t in d.tools && t !in s.tools then NoSucceededToolCall else NoSuchArtifact)
  {
    var edges := DraftEdges(d);
    SourcesMean(s, edges, {});
    var n := FirstErr(s, edges, |edges|);
    FirstFailure(s, edges, n);
    if n < |d.tools| {
      assert edges[n] == FromTool(d.tools[n]) && d.tools[n] in d.tools;
    } else {
      forall t | t in d.tools ensures t in s.tools {
        var i :| 0 <= i < |d.tools| && d.tools[i] == t;
        assert edges[i] == FromTool(t) && EdgeFrom(s, edges[i], {}).Ok?;
      }
      var a := d.sources[n - |d.tools|];
      assert edges[n] == FromArtifact(a);
      if a < |s.artifacts| { LayeredAnswers(s, a, {}); }
    }
  }

  lemma {:induction false} FirstErr(s: Store, edges: seq<Edge>, n: nat) returns (k: nat)
    requires n <= |edges| && exists i :: 0 <= i < n && EdgeFrom(s, edges[i], {}).Err?
    ensures k < n && EdgeFrom(s, edges[k], {}).Err? && forall i :: 0 <= i < k ==> EdgeFrom(s, edges[i], {}).Ok?
  {
    hide EdgeFrom;
    if i :| 0 <= i < n - 1 && EdgeFrom(s, edges[i], {}).Err? {
      k := FirstErr(s, edges, n - 1);
    } else {
      k := n - 1;
    }
  }

  /** A new artifact is one unexported row: this content, this Cell, the tool calls and then the
      sources in the order given, this declaration, and the position the recursion finds. */
  lemma CreateIsExact(s: Store, d: Draft)
    requires Reachable(s) && Create(s, d).Ok? && !KnownContent(s, d.content)
    ensures var (s', id) := Create(s, d).value;
            && id == |s.artifacts| && s' == s.(artifacts := s.artifacts + [s'.artifacts[id]])
            && var row := s'.artifacts[id];
               && row.content == d.content && row.cell == d.cell && row.own == d.own && row.exported == None
               && |row.lineage| == |d.tools| + |d.sources|
               && (forall i :: 0 <= i < |d.tools| ==> row.lineage[i] == FromTool(d.tools[i]))
               && (forall i :: 0 <= i < |d.sources| ==>
                     row.lineage[|d.tools| + i] == FromArtifact(d.sources[i]))
               && Effective(s', id) == Ok(row.stored)
  {
    assert Find(s.artifacts, d.content).None?;
    ReachableIsValid(s);
    var row := Create(s, d).value.0.artifacts[|s.artifacts|];
    assert row.lineage == DraftEdges(d) && row.stored == DraftPosition(s, d).value;
    BornTrue(s, d, row);
    hide Effective, DraftPosition, Valid;
  }

  /** Content is identity: submitting it again at any later time, by anyone and under any
      sources, returns the first artifact and changes nothing. */
  lemma ContentIsIdentity(s: Store, d: Draft, s1: Store, id: nat, after: seq<Op>, d': Draft)
    requires Reachable(s) && Create(s, d) == Ok((s1, id)) && d'.content == d.content
    ensures Create(Run(s1, after), d') == Ok((Run(s1, after), id))
  {
    ReachableIsValid(s);
    CreateKeeps(s, d);
    RunKeeps(s1, after);
    FindIsUnique(Run(s1, after), id);
  }

  // ---- something leaves ---------------------------------------------------------------------------

  const PAGE := Tool(Some("h"), UnknownUse, NoPersonal, None)
  const ALLOWED := Attestation(Domain("h"), Permitted)
  const READY := Store({0}, map[0 := PAGE], [ALLOWED], [])
  const REPORT := Draft(Content("report", "t", "x"), 0, [0], [], None)
  const SOLD := Row(REPORT.content, 0, [FromTool(0)], None, Provenance(Permitted, NoPersonal, {}), None)

  lemma ReportIsPermitted()
    ensures DraftEdges(REPORT) == [FromTool(0)] && DraftPosition(READY, REPORT) == Ok(SOLD.stored)
  {
    var edges := DraftEdges(REPORT);
    assert edges == [FromTool(0)];
    SourcesMean(READY, edges, {});
    var ps := SourcesFrom(READY, edges, {}).value;
    assert OfTool(READY, 0) == Ok(SOLD.stored) && EdgeFrom(READY, edges[0], {}) == Ok(SOLD.stored);
    assert ps == [SOLD.stored] && ps + Own(None) == ps;
    FoldOfOne(SOLD.stored);
  }

  lemma FoldOfOne(p: Provenance)
    requires p == SOLD.stored
    ensures Fold([p]) == p
  {
    assert Uses([p])[0] == p.use && Personals([p])[0] == p.personal;
    assert Taints([p]) == {};
  }

  const MADE := READY.(artifacts := [SOLD])

  lemma ReadyIsMet()
    ensures Next(Next(Next(EMPTY, NewCell(0)), ToolSucceeded(0, PAGE)), Attest(ALLOWED)) == READY
  {
    assert EMPTY.attestations + [ALLOWED] == [ALLOWED] && EMPTY.cells + {0} == {0};
  }

  lemma ReportIsMade()
    ensures Next(READY, DoCreate(REPORT)) == MADE && Effective(MADE, 0) == Ok(SOLD.stored)
  {
    assert READY.artifacts + [SOLD] == [SOLD];
    ReportIsPermitted();
    ReadyIsLayered();
    hide DraftPosition, Effective, DraftEdges, SourcesFrom, Inherit, Layered, NoneSelfPermitting, Grown, Run;
    BornTrue(READY, REPORT, SOLD);
    assert Create(READY, REPORT) == Ok((MADE, 0));
  }

  lemma ReadyIsLayered()
    ensures Layered(READY) && NoneSelfPermitting(READY)
  {}

  lemma ReportIsSold()
    ensures Next(MADE, DoExport(0, true)).artifacts == [SOLD.(exported := Some(true))]
  {
    ReportIsMade();
    hide Effective, Create, DraftPosition, Run;
    assert ExportRefusal(MADE, 0, true) == None;
    assert MADE.artifacts[0 := SOLD.(exported := Some(true))] == [SOLD.(exported := Some(true))];
  }

  /** The program does let work out: a page whose terms nobody knew is read, a person attests its host,
      and what was written from it leaves the colony to be sold. */
  lemma SomethingLeaves()
    ensures var ops := [NewCell(0), ToolSucceeded(0, PAGE), Attest(ALLOWED), DoCreate(REPORT), DoExport(0, true)];
            Run(EMPTY, ops).artifacts == [SOLD.(exported := Some(true))]
  {
    var a, b, c, d, e := NewCell(0), ToolSucceeded(0, PAGE), Attest(ALLOWED), DoCreate(REPORT), DoExport(0, true);
    ReadyIsMet();
    ReportIsMade();
    ReportIsSold();
    hide Next, Effective;
    assert [a, b, c, d, e][1..] == [b, c, d, e] && [b, c, d, e][1..] == [c, d, e] && [c, d, e][1..] == [d, e]
        && [d, e][1..] == [e] && [e][1..] == [];
    assert Run(EMPTY, [a, b, c, d, e]) == Run(Next(EMPTY, a), [b, c, d, e]);
    assert Run(Next(EMPTY, a), [b, c, d, e]) == Run(READY, [d, e]);
    assert Run(READY, [d, e]) == Run(MADE, [e]);
    assert Run(MADE, [e]) == Run(Next(MADE, e), []);
  }
}
