/**
 What the recursion of `Artifacts` computes, on every lineage graph: whether it raises is a
 matter of the paths out of the artifact, and its answer is the most restrictive of all the
 contributions those paths reach. Order, duplication and diamonds do not matter.
 */
module Lineage {
  import opened Basics
  import opened Artifacts
  import opened Attestations

  /** A walk along source edges. Only its last artifact may be missing. */
  ghost predicate Path(s: Store, p: seq<nat>) {
    && p != []
    && (|p| == 1
        || (p[0] < |s.artifacts| && FromArtifact(p[1]) in s.artifacts[p[0]].lineage && Path(s, p[1..])))
  }

  ghost predicate PathFrom(s: Store, id: nat, p: seq<nat>) {
    Path(s, p) && p[0] == id
  }

  function Last(p: seq<nat>): nat
    requires p != []
  {
    p[|p| - 1]
  }

  ghost predicate BadTool(s: Store, row: Row) {
    exists t: nat :: FromTool(t) in row.lineage && t !in s.tools
  }

  ghost predicate SelfPermitting(row: Row) {
    row.own.Some? && row.own.value.use == Permitted
  }

  /** Nothing raises at the end of this walk: the artifact exists, was not met before, its
      tool calls succeeded and its producer did not declare itself permitted. */
  ghost predicate Sound(s: Store, seen: set<nat>, p: seq<nat>)
    requires p != []
  {
    var a := Last(p);
    && a < |s.artifacts|
    && a !in seen && a !in p[..|p| - 1]
    && !BadTool(s, s.artifacts[a])
    && !SelfPermitting(s.artifacts[a])
  }

  lemma {:induction false} SourcesValue(s: Store, edges: seq<Edge>, seen: set<nat>, i: nat)
    requires SourcesFrom(s, edges, seen).Ok? && i < |edges|
    ensures |SourcesFrom(s, edges, seen).value| == |edges|
    ensures EdgeFrom(s, edges[i], seen) == Ok(SourcesFrom(s, edges, seen).value[i])
    decreases |edges|
  {
    hide EdgeFrom;
    var n := |edges| - 1;
    if n == 0 {
    } else {
      SourcesValue(s, edges[..n], seen, if i < n then i else 0);
    }
  }

  lemma SourcesStep(s: Store, edges: seq<Edge>, seen: set<nat>)
    requires edges != []
    ensures SourcesFrom(s, edges, seen).Ok?
       <==> SourcesFrom(s, edges[..|edges| - 1], seen).Ok? && EdgeFrom(s, edges[|edges| - 1], seen).Ok?
  {
    hide EdgeFrom;
  }

  lemma {:induction false} SourcesAnswer(s: Store, edges: seq<Edge>, seen: set<nat>)
    requires forall i :: 0 <= i < |edges| ==> EdgeFrom(s, edges[i], seen).Ok?
    ensures SourcesFrom(s, edges, seen).Ok?
    decreases |edges|
  {
    if edges == [] {
    } else {
      hide EdgeFrom, SourcesFrom;
      var n := |edges| - 1;
      forall i | 0 <= i < n ensures EdgeFrom(s, edges[..n][i], seen).Ok? {
        assert edges[..n][i] == edges[i];
      }
      SourcesAnswer(s, edges[..n], seen);
      SourcesStep(s, edges, seen);
    }
  }

  /** The sources are read exactly when each edge can be, and then each in its own place. */
  lemma SourcesMean(s: Store, edges: seq<Edge>, seen: set<nat>)
    ensures SourcesFrom(s, edges, seen).Ok? <==> forall i :: 0 <= i < |edges| ==> EdgeFrom(s, edges[i], seen).Ok?
    ensures SourcesFrom(s, edges, seen).Ok? ==> |SourcesFrom(s, edges, seen).value| == |edges|
    ensures SourcesFrom(s, edges, seen).Ok? ==>
              forall i :: 0 <= i < |edges| ==>
                EdgeFrom(s, edges[i], seen) == Ok(SourcesFrom(s, edges, seen).value[i])
  {
    if SourcesFrom(s, edges, seen).Ok? {
      forall i | 0 <= i < |edges|
        ensures |SourcesFrom(s, edges, seen).value| == |edges|
        ensures EdgeFrom(s, edges[i], seen) == Ok(SourcesFrom(s, edges, seen).value[i])
      {
        SourcesValue(s, edges, seen, i);
      }
      if edges != [] {
        SourcesValue(s, edges, seen, 0);
      }
    } else if forall i :: 0 <= i < |edges| ==> EdgeFrom(s, edges[i], seen).Ok? {
      SourcesAnswer(s, edges, seen);
    }
  }

  /** The sources of an artifact that answers, and where in them one of its edges stands. */
  lemma EdgeAnswers(s: Store, id: nat, seen: set<nat>, e: Edge) returns (sources: seq<Provenance>, i: nat)
    requires EffectiveFrom(s, id, seen).Ok? && e in s.artifacts[id].lineage
    ensures SourcesFrom(s, s.artifacts[id].lineage, seen + {id}) == Ok(sources)
    ensures i < |sources| && EdgeFrom(s, e, seen + {id}) == Ok(sources[i])
  {
    var edges := s.artifacts[id].lineage;
    sources := SourcesFrom(s, edges, seen + {id}).value;
    i :| 0 <= i < |edges| && edges[i] == e;
    SourcesValue(s, edges, seen + {id}, i);
  }

  lemma OkAtItself(s: Store, id: nat, seen: set<nat>)
    requires EffectiveFrom(s, id, seen).Ok?
    ensures Sound(s, seen, [id])
  {
    var row := s.artifacts[id];
    forall t: nat | FromTool(t) in row.lineage ensures t in s.tools {
      var sources, i := EdgeAnswers(s, id, seen, FromTool(t));
    }
  }

  lemma StepAnswers(s: Store, id: nat, seen: set<nat>, source: nat)
    requires EffectiveFrom(s, id, seen).Ok? && FromArtifact(source) in s.artifacts[id].lineage
    ensures EffectiveFrom(s, source, seen + {id}).Ok?
  {
    var sources, i := EdgeAnswers(s, id, seen, FromArtifact(source));
  }

  /** A walk that is sound below `id` is sound from `id`. */
  lemma SoundFromAbove(s: Store, id: nat, seen: set<nat>, q: seq<nat>)
    requires q != [] && Sound(s, seen + {id}, q)
    ensures Sound(s, seen, [id] + q)
  {
    assert Last([id] + q) == Last(q);
    assert ([id] + q)[..|q|] == [id] + q[..|q| - 1];
  }

  lemma {:induction false} OkMeansSound(s: Store, id: nat, seen: set<nat>, p: seq<nat>)
    requires EffectiveFrom(s, id, seen).Ok? && PathFrom(s, id, p)
    ensures Sound(s, seen, p)
    decreases |p|
  {
    hide EffectiveFrom, Sound;
    if |p| == 1 {
      assert p == [id];
      OkAtItself(s, id, seen);
    } else {
      StepAnswers(s, id, seen, p[1]);
      var q := p[1..];
      OkMeansSound(s, p[1], seen + {id}, q);
      SoundFromAbove(s, id, seen, q);
      assert p == [id] + q;
    }
  }

  lemma {:induction false} ErrHasPath(s: Store, id: nat, seen: set<nat>) returns (p: seq<nat>)
    requires EffectiveFrom(s, id, seen).Err?
    ensures PathFrom(s, id, p) && !Sound(s, seen, p)
    decreases |Ids(s) - seen|
  {
    p := [id];
    if id < |s.artifacts| && id !in seen {
      var row := s.artifacts[id];
      SeenShrinks(s, seen, id);
      SourcesMean(s, row.lineage, seen + {id});
      if SourcesFrom(s, row.lineage, seen + {id}).Err? {
        var i :| 0 <= i < |row.lineage| && EdgeFrom(s, row.lineage[i], seen + {id}).Err?;
        match row.lineage[i]
        case FromTool(t) =>
          assert FromTool(t) in row.lineage && t !in s.tools;
        case FromArtifact(a) =>
          var q := ErrHasPath(s, a, seen + {id});
          p := [id] + q;
          assert p[1..] == q && Last(p) == Last(q);
          assert p[..|p| - 1] == [id] + q[..|q| - 1];
      } else {
        assert SelfPermitting(row);
      }
    }
  }

  /** On any graph, cyclic ones included: the recursion answers exactly when no walk from the
      artifact repeats an artifact or ends at a missing one, at a tool call that did not
      succeed, or at a producer that declared itself permitted. */
  lemma AnswersExactlyWhenSound(s: Store, id: nat)
    ensures Effective(s, id).Ok? <==> forall p :: PathFrom(s, id, p) ==> Sound(s, {}, p)
  {
    if Effective(s, id).Ok? {
      forall p | PathFrom(s, id, p) ensures Sound(s, {}, p) {
        OkMeansSound(s, id, {}, p);
      }
    } else {
      var p := ErrHasPath(s, id, {});
    }
  }

  // ---- the answer is the meet of every contribution reached ------------------------------

  function UseRank(u: Use): nat {
    match u
    case Prohibited => 0
    case UnknownUse => 1
    case Permitted => 2
  }

  function PersonalRank(x: Personal): nat {
    match x
    case HasPersonal => 0
    case UnknownPersonal => 1
    case NoPersonal => 2
  }

  /** `v` claims nothing `c` does not allow, and carries every label `c` carries. */
  ghost predicate NoLooser(v: Provenance, c: Provenance) {
    && UseRank(v.use) <= UseRank(c.use)
    && PersonalRank(v.personal) <= PersonalRank(c.personal)
    && c.taints <= v.taints
  }

  /** One visible fact about a position. */
  datatype Aspect = HasUse(use: Use) | HasClass(personal: Personal) | HasTaint(taint: Taint)

  ghost predicate Shows(v: Provenance, a: Aspect) {
    match a
    case HasUse(u) => v.use == u
    case HasClass(x) => v.personal == x
    case HasTaint(t) => t in v.taints
  }

  function Contributions(sources: seq<Provenance>, own: Option<Provenance>, colony: Option<Use>): seq<Provenance> {
    var all := sources + Own(own);
    if all == [] then [ColonyPosition(colony)] else all
  }

  lemma MostRestrictiveIsLeast(uses: seq<Use>, personals: seq<Personal>)
    ensures forall u :: u in uses ==> UseRank(MostRestrictiveUse(uses)) <= UseRank(u)
    ensures forall x :: x in personals ==> PersonalRank(MostRestrictivePersonal(personals)) <= PersonalRank(x)
    ensures uses != [] ==> MostRestrictiveUse(uses) in uses
    ensures personals != [] ==> MostRestrictivePersonal(personals) in personals
  {
    assert uses != [] ==> uses[0] in uses;
    assert personals != [] ==> personals[0] in personals;
  }

  lemma FoldBelow(all: seq<Provenance>, i: nat)
    requires i < |all|
    ensures NoLooser(Fold(all), all[i])
  {
    MostRestrictiveIsLeast(Uses(all), Personals(all));
    hide MostRestrictiveUse, MostRestrictivePersonal, UseRank, PersonalRank;
    assert Uses(all)[i] in Uses(all) && Personals(all)[i] in Personals(all);
  }

  lemma FoldShows(all: seq<Provenance>, a: Aspect) returns (i: nat)
    requires all != [] && Shows(Fold(all), a)
    ensures i < |all| && Shows(all[i], a)
  {
    MostRestrictiveIsLeast(Uses(all), Personals(all));
    hide MostRestrictiveUse, MostRestrictivePersonal;
    match a
    case HasUse(u) => i :| i < |all| && Uses(all)[i] == u;
    case HasClass(x) => i :| i < |all| && Personals(all)[i] == x;
    case HasTaint(t) => i :| i < |all| && t in all[i].taints;
  }

  lemma InheritIsFold(sources: seq<Provenance>, own: Option<Provenance>, colony: Option<Use>)
    requires Inherit(sources, own, colony).Ok?
    ensures var all := sources + Own(own);
            && Contributions(sources, own, colony) == (if all == [] then [ColonyPosition(colony)] else all)
            && Inherit(sources, own, colony).value == if all == [] then ColonyPosition(colony) else Fold(all)
  {}

  lemma FoldIsMeet(sources: seq<Provenance>, own: Option<Provenance>, colony: Option<Use>)
    requires Inherit(sources, own, colony).Ok?
    ensures var v := Inherit(sources, own, colony).value;
            forall c :: c in Contributions(sources, own, colony) ==> NoLooser(v, c)
  {
    InheritIsFold(sources, own, colony);
    hide Inherit, Contributions, Fold, Own;
    var all := sources + Own(own);
    forall c | c in Contributions(sources, own, colony) ensures NoLooser(Inherit(sources, own, colony).value, c) {
      if all != [] {
        var i :| 0 <= i < |all| && all[i] == c;
        FoldBelow(all, i);
      }
    }
  }

  lemma FoldIsAttained(sources: seq<Provenance>, own: Option<Provenance>, colony: Option<Use>, a: Aspect)
    returns (c: Provenance)
    requires Inherit(sources, own, colony).Ok? && Shows(Inherit(sources, own, colony).value, a)
    ensures c in Contributions(sources, own, colony) && Shows(c, a)
  {
    InheritIsFold(sources, own, colony);
    hide Inherit, Contributions, Fold, Own;
    var all := sources + Own(own);
    c := ColonyPosition(colony);
    if all != [] {
      var i := FoldShows(all, a);
      c := all[i];
    }
  }

  ghost predicate FromOwnTool(s: Store, row: Row, c: Provenance) {
    exists t: nat :: FromTool(t) in row.lineage && t in s.tools && IsReadAs(s, s.tools[t], c)
  }

  ghost predicate Sourceless(row: Row) {
    row.lineage == [] && row.own.None?
  }

  /** What one artifact itself brings in: its tool calls as believed now, its producer's
      declaration, or the colony's position when it has neither sources nor declaration. */
  ghost predicate Contributes(s: Store, a: nat, c: Provenance) {
    && a < |s.artifacts|
    && var row := s.artifacts[a];
       || FromOwnTool(s, row, c)
       || row.own == Some(c)
       || (Sourceless(row) && IsColonyWork(s, c))
  }

  lemma NoLooserThanSource(s: Store, id: nat, seen: set<nat>, e: Edge)
    requires EffectiveFrom(s, id, seen).Ok? && e in s.artifacts[id].lineage
    ensures EdgeFrom(s, e, seen + {id}).Ok?
    ensures NoLooser(EffectiveFrom(s, id, seen).value, EdgeFrom(s, e, seen + {id}).value)
  {
    var sources, i := EdgeAnswers(s, id, seen, e);
    var row := s.artifacts[id];
    FoldIsMeet(sources, row.own, ColonyUse(s));
    assert (sources + Own(row.own))[i] == sources[i];
    assert sources[i] in Contributions(sources, row.own, ColonyUse(s));
  }

  lemma NoLooserThanItself(s: Store, id: nat, seen: set<nat>, c: Provenance)
    requires EffectiveFrom(s, id, seen).Ok? && Contributes(s, id, c)
    ensures NoLooser(EffectiveFrom(s, id, seen).value, c)
  {
    var row := s.artifacts[id];
    var sources := SourcesFrom(s, row.lineage, seen + {id}).value;
    FoldIsMeet(sources, row.own, ColonyUse(s));
    if FromOwnTool(s, row, c) {
      var t: nat :| FromTool(t) in row.lineage && t in s.tools && IsReadAs(s, s.tools[t], c);
      ToolIsReadExactly(s, s.tools[t], c);
      NoLooserThanSource(s, id, seen, FromTool(t));
    } else if row.own == Some(c) {
      assert (sources + Own(row.own))[|sources|] == c;
      assert c in Contributions(sources, row.own, ColonyUse(s));
    } else {
      ColonyWorkExactly(s, c);
      assert sources + Own(row.own) == [];
      assert c in Contributions(sources, row.own, ColonyUse(s));
    }
  }

  lemma AnswerExists(s: Store, id: nat, seen: set<nat>)
    requires EffectiveFrom(s, id, seen).Ok?
    ensures id < |s.artifacts|
  {}

  lemma NoLooserIsTransitive(a: Provenance, b: Provenance, c: Provenance)
    requires NoLooser(a, b) && NoLooser(b, c)
    ensures NoLooser(a, c)
  {}

  lemma {:induction false} NoLooserThanAny(s: Store, id: nat, seen: set<nat>, p: seq<nat>, c: Provenance)
    requires EffectiveFrom(s, id, seen).Ok? && PathFrom(s, id, p) && Contributes(s, Last(p), c)
    ensures NoLooser(EffectiveFrom(s, id, seen).value, c)
    decreases |p|
  {
    hide EffectiveFrom, NoLooser, Contributes;
    if |p| == 1 {
      NoLooserThanItself(s, id, seen, c);
    } else {
      AnswerExists(s, id, seen);
      NoLooserThanSource(s, id, seen, FromArtifact(p[1]));
      assert Last(p[1..]) == Last(p);
      var v, u := EffectiveFrom(s, id, seen).value, EffectiveFrom(s, p[1], seen + {id}).value;
      NoLooserThanAny(s, p[1], seen + {id}, p[1..], c);
      NoLooserIsTransitive(v, u, c);
    }
  }

  lemma EffectiveIsInherited(s: Store, id: nat, seen: set<nat>) returns (sources: seq<Provenance>)
    requires EffectiveFrom(s, id, seen).Ok?
    ensures id < |s.artifacts| && id !in seen && SourcesFrom(s, s.artifacts[id].lineage, seen + {id}) == Ok(sources)
    ensures EffectiveFrom(s, id, seen) == Inherit(sources, s.artifacts[id].own, ColonyUse(s))
    ensures |sources| == |s.artifacts[id].lineage|
    ensures forall i :: 0 <= i < |sources| ==> EdgeFrom(s, s.artifacts[id].lineage[i], seen + {id}) == Ok(sources[i])
  {
    sources := SourcesFrom(s, s.artifacts[id].lineage, seen + {id}).value;
    SourcesMean(s, s.artifacts[id].lineage, seen + {id});
  }

  lemma PathExtends(s: Store, id: nat, q: seq<nat>)
    requires id < |s.artifacts| && Path(s, q) && FromArtifact(q[0]) in s.artifacts[id].lineage
    ensures PathFrom(s, id, [id] + q) && Last([id] + q) == Last(q)
  {
    assert ([id] + q)[1..] == q;
  }

  lemma ToolEdgeContributes(s: Store, id: nat, t: nat, seen: set<nat>, c: Provenance)
    requires id < |s.artifacts| && FromTool(t) in s.artifacts[id].lineage && EdgeFrom(s, FromTool(t), seen) == Ok(c)
    ensures Contributes(s, id, c)
  {
    assert t in s.tools && c == ToolPosition(s, s.tools[t]);
    ToolIsReadExactly(s, s.tools[t], c);
    assert FromOwnTool(s, s.artifacts[id], c);
  }

  /** What the fold shows comes from the artifact itself or along one of its edges. */
  lemma ShownByAnEdge(s: Store, id: nat, seen: set<nat>, a: Aspect) returns (c: Provenance, next: Option<nat>)
    requires EffectiveFrom(s, id, seen).Ok? && Shows(EffectiveFrom(s, id, seen).value, a)
    ensures id < |s.artifacts| && id !in seen && Shows(c, a)
    ensures match next
            case None => Contributes(s, id, c)
            case Some(b) => FromArtifact(b) in s.artifacts[id].lineage && EffectiveFrom(s, b, seen + {id}) == Ok(c)
  {
    var sources := EffectiveIsInherited(s, id, seen);
    hide EffectiveFrom, SourcesFrom, Inherit, Shows, ToolPosition;
    var row := s.artifacts[id];
    c := FoldIsAttained(sources, row.own, ColonyUse(s), a);
    next := None;
    var all := sources + Own(row.own);
    if all == [] {
      ColonyWorkExactly(s, c);
    } else {
      var i :| 0 <= i < |all| && all[i] == c;
      if i < |sources| {
        match row.lineage[i]
        case FromTool(t) => ToolEdgeContributes(s, id, t, seen + {id}, c);
        case FromArtifact(b) => next := Some(b);
      }
    }
  }

  lemma {:induction false} ShownSomewhere(s: Store, id: nat, seen: set<nat>, a: Aspect)
    returns (p: seq<nat>, c: Provenance)
    requires EffectiveFrom(s, id, seen).Ok? && Shows(EffectiveFrom(s, id, seen).value, a)
    ensures PathFrom(s, id, p) && Contributes(s, Last(p), c) && Shows(c, a)
    decreases |Ids(s) - seen|
  {
    hide EffectiveFrom, Shows, Contributes;
    var next;
    c, next := ShownByAnEdge(s, id, seen, a);
    p := [id];
    if next.Some? {
      SeenShrinks(s, seen, id);
      var q;
      q, c := ShownSomewhere(s, next.value, seen + {id}, a);
      PathExtends(s, id, q);
      p := [id] + q;
    }
  }

  /** Nothing at this artifact keeps the colony from selling it. */
  ghost predicate Clean(s: Store, a: nat)
    requires a < |s.artifacts|
  {
    var row := s.artifacts[a];
    && row.own.None?
    && (forall t: nat :: FromTool(t) in row.lineage && t in s.tools ==>
          ReadWith(s, s.tools[t], Permitted))
    && (row.lineage == [] ==> AttestedTo(s, TheColony, Permitted))
  }

  lemma CleanMeansPermittedConversely(s: Store, a: nat)
    requires a < |s.artifacts| && Clean(s, a)
    ensures forall c :: Contributes(s, a, c) ==> c.use == Permitted
  {
    var row := s.artifacts[a];
    forall c | Contributes(s, a, c) ensures c.use == Permitted {
      if FromOwnTool(s, row, c) {
        var t: nat :| FromTool(t) in row.lineage && t in s.tools && IsReadAs(s, s.tools[t], c);
        OneUseIsRead(s, s.tools[t], c.use, Permitted);
      } else {
        CurrentExactly(s, TheColony, c.use);
        CurrentExactly(s, TheColony, Permitted);
      }
    }
  }

  lemma CleanMeansPermitted(s: Store, a: nat)
    requires a < |s.artifacts| && !SelfPermitting(s.artifacts[a])
    ensures Clean(s, a) <==> forall c :: Contributes(s, a, c) ==> c.use == Permitted
  {
    var row := s.artifacts[a];
    if forall c :: Contributes(s, a, c) ==> c.use == Permitted {
      forall t: nat | FromTool(t) in row.lineage && t in s.tools
        ensures ReadWith(s, s.tools[t], Permitted)
      {
        ToolIsReadExactly(s, s.tools[t], ToolPosition(s, s.tools[t]));
        assert FromOwnTool(s, row, ToolPosition(s, s.tools[t]));
        assert Contributes(s, a, ToolPosition(s, s.tools[t]));
      }
      if row.own.Some? {
        assert Contributes(s, a, row.own.value);
      } else if row.lineage == [] {
        ColonyWorkExactly(s, ColonyPosition(ColonyUse(s)));
        assert Contributes(s, a, ColonyPosition(ColonyUse(s)));
      }
    }
    if Clean(s, a) {
      CleanMeansPermittedConversely(s, a);
    }
  }

  /** No laundering: commercial use is permitted exactly when every artifact in the closure is
      clean: no producer declaration, every tool call permitted as attested now, every
      sourceless artifact covered by a permitting colony attestation. */
  lemma PermittedExactlyWhenClean(s: Store, id: nat)
    requires Effective(s, id).Ok?
    ensures Effective(s, id).value.use == Permitted <==>
              forall p :: PathFrom(s, id, p) ==> Last(p) < |s.artifacts| && Clean(s, Last(p))
  {
    var v := Effective(s, id).value;
    if v.use == Permitted {
      forall p | PathFrom(s, id, p) ensures Last(p) < |s.artifacts| && Clean(s, Last(p)) {
        OkMeansSound(s, id, {}, p);
        forall c | Contributes(s, Last(p), c) ensures c.use == Permitted {
          NoLooserThanAny(s, id, {}, p, c);
        }
        CleanMeansPermitted(s, Last(p));
      }
    } else {
      var p, c := ShownSomewhere(s, id, {}, HasUse(v.use));
      OkMeansSound(s, id, {}, p);
      CleanMeansPermitted(s, Last(p));
    }
  }

  /** A label is on the answer exactly when some walk reaches a contribution that carries it. */
  lemma TaintIsTheUnion(s: Store, id: nat, t: Taint)
    requires Effective(s, id).Ok?
    ensures t in Effective(s, id).value.taints <==>
              exists p, c :: PathFrom(s, id, p) && Contributes(s, Last(p), c) && t in c.taints
  {
    if t in Effective(s, id).value.taints {
      var p, c := ShownSomewhere(s, id, {}, HasTaint(t));
    } else {
      forall p, c | PathFrom(s, id, p) && Contributes(s, Last(p), c) ensures t !in c.taints {
        NoLooserThanAny(s, id, {}, p, c);
      }
    }
  }

  /** "No personal data" is claimed exactly when every contribution reached says so. */
  lemma NoPersonalDataExactlyWhenAllSaySo(s: Store, id: nat)
    requires Effective(s, id).Ok?
    ensures Effective(s, id).value.personal == NoPersonal <==>
              forall p, c :: PathFrom(s, id, p) && Contributes(s, Last(p), c) ==> c.personal == NoPersonal
  {
    var v := Effective(s, id).value;
    if v.personal == NoPersonal {
      forall p, c | PathFrom(s, id, p) && Contributes(s, Last(p), c) ensures c.personal == NoPersonal {
        NoLooserThanAny(s, id, {}, p, c);
      }
    } else {
      var p, c := ShownSomewhere(s, id, {}, HasClass(v.personal));
    }
  }

  // ---- order and duplication --------------------------------------------------------------

  ghost predicate SameMembers<T(!new)>(a: seq<T>, b: seq<T>) {
    (forall x :: x in a ==> x in b) && (forall x :: x in b ==> x in a)
  }

  /** The same artifacts, each with the same sources in some order, repeated or not. */
  ghost predicate SameSources(s: Store, s': Store) {
    && s.tools == s'.tools && s.attestations == s'.attestations
    && |s.artifacts| == |s'.artifacts|
    && forall i :: 0 <= i < |s.artifacts| ==>
         && s.artifacts[i].own == s'.artifacts[i].own
         && SameMembers(s.artifacts[i].lineage, s'.artifacts[i].lineage)
  }

  ghost predicate Agree<T>(r: Result<T, Error>, r': Result<T, Error>) {
    r.Ok? == r'.Ok? && (r.Ok? ==> r == r')
  }

  lemma FoldForgetsOrder(ps: seq<Provenance>, qs: seq<Provenance>)
    requires forall c :: c in ps <==> c in qs
    ensures Taints(ps) == Taints(qs)
    ensures MostRestrictiveUse(Uses(ps)) == MostRestrictiveUse(Uses(qs))
    ensures MostRestrictivePersonal(Personals(ps)) == MostRestrictivePersonal(Personals(qs))
  {
    FoldCovered(ps, qs);
    FoldCovered(qs, ps);
  }

  lemma FoldCovered(ps: seq<Provenance>, qs: seq<Provenance>)
    requires forall c :: c in ps ==> c in qs
    ensures Taints(ps) <= Taints(qs)
    ensures forall u :: u in Uses(ps) ==> u in Uses(qs)
    ensures forall x :: x in Personals(ps) ==> x in Personals(qs)
  {
    forall i | 0 <= i < |ps|
      ensures ps[i].taints <= Taints(qs) && ps[i].use in Uses(qs) && ps[i].personal in Personals(qs)
    {
      assert ps[i] in qs;
      var j :| 0 <= j < |qs| && qs[j] == ps[i];
      assert Uses(qs)[j] == ps[i].use && Personals(qs)[j] == ps[i].personal;
    }
  }

  lemma InheritForgetsOrder(ps: seq<Provenance>, qs: seq<Provenance>, own: Option<Provenance>, colony: Option<Use>)
    requires forall c :: c in ps <==> c in qs
    ensures Inherit(ps, own, colony) == Inherit(qs, own, colony)
  {
    assert ps == [] <==> qs == [] by {
      if ps != [] { assert ps[0] in qs; }
      if qs != [] { assert qs[0] in ps; }
    }
    forall c ensures c in ps + Own(own) <==> c in qs + Own(own) {}
    FoldForgetsOrder(ps + Own(own), qs + Own(own));
  }

  lemma SourcesCovered(s: Store, s': Store, edges: seq<Edge>, edges': seq<Edge>, seen: set<nat>)
    requires SameMembers(edges, edges')
    requires forall e :: e in edges ==> Agree(EdgeFrom(s, e, seen), EdgeFrom(s', e, seen))
    requires SourcesFrom(s, edges, seen).Ok?
    ensures SourcesFrom(s', edges', seen).Ok?
    ensures forall c :: c in SourcesFrom(s, edges, seen).value <==> c in SourcesFrom(s', edges', seen).value
  {
    SourcesMean(s, edges, seen);
    SourcesMean(s', edges', seen);
    forall j | 0 <= j < |edges'| ensures EdgeFrom(s', edges'[j], seen).Ok? {
      assert edges'[j] in edges;
      var i :| 0 <= i < |edges| && edges[i] == edges'[j];
      assert EdgeFrom(s, edges[i], seen).Ok?;
    }
    var v, v' := SourcesFrom(s, edges, seen).value, SourcesFrom(s', edges', seen).value;
    forall c | c in v ensures c in v' {
      var i :| 0 <= i < |v| && v[i] == c;
      assert edges[i] in edges';
      var j :| 0 <= j < |edges'| && edges'[j] == edges[i];
      assert v'[j] == c;
    }
    forall c | c in v' ensures c in v {
      var j :| 0 <= j < |v'| && v'[j] == c;
      assert edges'[j] in edges;
      var i :| 0 <= i < |edges| && edges[i] == edges'[j];
      assert v[i] == c;
    }
  }

  lemma {:induction false} OrderFrom(s: Store, s': Store, id: nat, seen: set<nat>)
    requires SameSources(s, s')
    ensures Agree(EffectiveFrom(s, id, seen), EffectiveFrom(s', id, seen))
    decreases |Ids(s) - seen|
  {
    if id < |s.artifacts| && id !in seen {
      SeenShrinks(s, seen, id);
      SeenShrinks(s', seen, id);
      var edges, edges', below := s.artifacts[id].lineage, s'.artifacts[id].lineage, seen + {id};
      forall e: Edge | e in edges ensures Agree(EdgeFrom(s, e, below), EdgeFrom(s', e, below)) {
        if e.FromArtifact? {
          OrderFrom(s, s', e.source, below);
        }
      }
      if SourcesFrom(s, edges, below).Ok? {
        SourcesCovered(s, s', edges, edges', below);
      } else if SourcesFrom(s', edges', below).Ok? {
        SourcesCovered(s', s, edges', edges, below);
      }
      if SourcesFrom(s, edges, below).Ok? {
        InheritForgetsOrder(SourcesFrom(s, edges, below).value, SourcesFrom(s', edges', below).value,
                            s.artifacts[id].own, ColonyUse(s));
      }
    }
  }

  /** Reordering or repeating any artifact's sources changes no position. Which exception is
      raised first may change; whether one is does not. */
  lemma OrderIsForgotten(s: Store, s': Store, id: nat)
    requires SameSources(s, s')
    ensures Agree(Effective(s, id), Effective(s', id))
  {
    OrderFrom(s, s', id, {});
  }

  // ---- one more source ----------------------------------------------------------------------

  lemma InheritAnswers(sources: seq<Provenance>, own: Option<Provenance>, colony: Option<Use>)
    ensures Inherit(sources, own, colony).Ok? <==> !(own.Some? && own.value.use == Permitted)
  {}

  /** One more source never loosens anything, except in one case: nothing was read or declared
      before, and the source stands looser than the colony's own position. */
  lemma OneMoreSource(sources: seq<Provenance>, x: Provenance, own: Option<Provenance>, colony: Option<Use>)
    requires Inherit(sources, own, colony).Ok?
    ensures Inherit(sources + [x], own, colony).Ok?
    ensures var before := Inherit(sources, own, colony).value;
            var after := Inherit(sources + [x], own, colony).value;
            UseRank(after.use) > UseRank(before.use) <==>
              sources == [] && own.None? && UseRank(x.use) > UseRank(ColonyPosition(colony).use)
  {
    InheritAnswers(sources, own, colony);
    InheritAnswers(sources + [x], own, colony);
    if sources + Own(own) == [] {
      assert sources + [x] + Own(own) == [x];
      assert Uses([x]) == [x.use];
    } else {
      NotLoosened(sources, x, own, colony);
    }
  }

  lemma NotLoosened(sources: seq<Provenance>, x: Provenance, own: Option<Provenance>, colony: Option<Use>)
    requires Inherit(sources, own, colony).Ok? && Inherit(sources + [x], own, colony).Ok?
    requires sources + Own(own) != []
    ensures UseRank(Inherit(sources + [x], own, colony).value.use) <= UseRank(Inherit(sources, own, colony).value.use)
  {
    var all, more := sources + Own(own), sources + [x] + Own(own);
    hide Inherit, Fold, UseRank, PersonalRank;
    var c := FoldIsAttained(sources, own, colony, HasUse(Inherit(sources, own, colony).value.use));
    assert c in all && c in more;
    assert c in Contributions(sources + [x], own, colony);
    FoldIsMeet(sources + [x], own, colony);
  }
}
