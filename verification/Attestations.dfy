/**
 What an operator's attestations do to the tool calls and to the colony's own work, said by the
 last statement made on a subject: it replaces what was recorded, in either direction, and
 where nobody has made one the record stands.
 */
module Attestations {
  import opened Basics
  import opened Artifacts

  /** The last statement on this subject says `use`. */
  ghost predicate AttestedTo(s: Store, subject: Subject, use: Use) {
    exists i: nat ::
      && i < |s.attestations| && s.attestations[i] == Attestation(subject, use)
      && forall j :: i < j < |s.attestations| ==> s.attestations[j].subject != subject
  }

  ghost predicate NeverAttested(s: Store, subject: Subject) {
    forall i :: 0 <= i < |s.attestations| ==> s.attestations[i].subject != subject
  }

  lemma {:induction false} CurrentIsTheLast(all: seq<Attestation>, subject: Subject) returns (i: nat)
    ensures Current(all, subject).None? ==> forall k :: 0 <= k < |all| ==> all[k].subject != subject
    ensures Current(all, subject).Some? ==>
              && i < |all| && all[i] == Attestation(subject, Current(all, subject).value)
              && forall k :: i < k < |all| ==> all[k].subject != subject
    decreases |all|
  {
    i := 0;
    if all == [] {
    } else if all[|all| - 1].subject == subject {
      i := |all| - 1;
    } else {
      i := CurrentIsTheLast(all[..|all| - 1], subject);
    }
  }

  /** On every subject either nothing was ever said, or the last statement says one thing. */
  lemma CurrentExactly(s: Store, subject: Subject, use: Use)
    ensures Current(s.attestations, subject) == Some(use) <==> AttestedTo(s, subject, use)
    ensures Current(s.attestations, subject) == None <==> NeverAttested(s, subject)
  {
    var i := CurrentIsTheLast(s.attestations, subject);
    if AttestedTo(s, subject, use) {
      var k: nat :| && k < |s.attestations| && s.attestations[k] == Attestation(subject, use)
                    && forall j :: k < j < |s.attestations| ==> s.attestations[j].subject != subject;
    }
  }

  /** The use a tool call is read with: as last attested for its host, or else as recorded. */
  ghost predicate ReadWith(s: Store, t: Tool, use: Use) {
    if t.host.None? || NeverAttested(s, Domain(t.host.value)) then use == t.use
    else AttestedTo(s, Domain(t.host.value), use)
  }

  /** What a tool call contributes: that use, and its other facts as recorded. */
  ghost predicate IsReadAs(s: Store, t: Tool, c: Provenance) {
    && ReadWith(s, t, c.use) && c.personal == t.personal
    && (forall x :: x in c.taints <==> t.taint == Some(x))
  }

  lemma ToolIsReadExactly(s: Store, t: Tool, c: Provenance)
    ensures IsReadAs(s, t, c) <==> c == ToolPosition(s, t)
  {
    if t.host.Some? {
      CurrentExactly(s, Domain(t.host.value), c.use);
    }
    if IsReadAs(s, t, c) {
      assert c.taints == ToolPosition(s, t).taints;
    }
  }

  lemma OneUseIsRead(s: Store, t: Tool, a: Use, b: Use)
    requires ReadWith(s, t, a) && ReadWith(s, t, b)
    ensures a == b
  {
    if t.host.Some? {
      CurrentExactly(s, Domain(t.host.value), a);
      CurrentExactly(s, Domain(t.host.value), b);
    }
  }

  /** What the colony's own work counts as: as last attested, and otherwise of unknown use. */
  ghost predicate IsColonyWork(s: Store, c: Provenance) {
    && (if NeverAttested(s, TheColony) then c.use == UnknownUse else AttestedTo(s, TheColony, c.use))
    && c.personal == NoPersonal && c.taints == {}
  }

  lemma ColonyWorkExactly(s: Store, c: Provenance)
    ensures IsColonyWork(s, c) <==> c == ColonyPosition(ColonyUse(s))
  {
    CurrentExactly(s, TheColony, c.use);
  }

  // ---- over runs -----------------------------------------------------------------------------

  predicate AttestsOn(op: Op, subject: Subject) {
    op.Attest? && op.attestation.subject == subject
  }

  lemma OnlyAttestingAttests(s: Store, op: Op)
    ensures Next(s, op).attestations == if op.Attest? then s.attestations + [op.attestation] else s.attestations
  {
    hide Create, Export;
    if op.DoCreate? && Create(s, op.draft).Ok? { CreateAttestsNothing(s, op.draft); }
    if op.DoExport? && Export(s, op.artifact, op.commercial).Ok? {
      ExportAttestsNothing(s, op.artifact, op.commercial);
    }
  }

  lemma CreateAttestsNothing(s: Store, d: Draft)
    requires Create(s, d).Ok?
    ensures Create(s, d).value.0.attestations == s.attestations
  {
    hide DraftPosition, Find;
  }

  lemma ExportAttestsNothing(s: Store, id: nat, commercial: bool)
    requires Export(s, id, commercial).Ok?
    ensures Export(s, id, commercial).value.attestations == s.attestations
  {
    hide ExportRefusal, Effective;
  }

  lemma {:induction false} LastStands(s: Store, subject: Subject, use: Use, ops: seq<Op>)
    requires AttestedTo(s, subject, use) && forall op :: op in ops ==> !AttestsOn(op, subject)
    ensures AttestedTo(Run(s, ops), subject, use)
    decreases |ops|
  {
    if ops == [] {
    } else {
      OnlyAttestingAttests(s, ops[0]);
      hide Next;
      assert AttestedTo(Next(s, ops[0]), subject, use) by {
        var i: nat :| && i < |s.attestations| && s.attestations[i] == Attestation(subject, use)
                      && forall j :: i < j < |s.attestations| ==> s.attestations[j].subject != subject;
        assert Next(s, ops[0]).attestations[i] == Attestation(subject, use);
        assert ops[0] in ops;
      }
      LastStands(Next(s, ops[0]), subject, use, ops[1..]);
    }
  }

  lemma {:induction false} SilenceStands(s: Store, subject: Subject, ops: seq<Op>)
    requires NeverAttested(s, subject) && forall op :: op in ops ==> !AttestsOn(op, subject)
    ensures NeverAttested(Run(s, ops), subject)
    decreases |ops|
  {
    if ops == [] {
    } else {
      OnlyAttestingAttests(s, ops[0]);
      hide Next;
      assert ops[0] in ops;
      SilenceStands(Next(s, ops[0]), subject, ops[1..]);
    }
  }

  /** Once a host is attested, every succeeded tool call from it is read with that use, recorded
      looser or tighter, made before or after, until somebody attests the host again. */
  lemma AttestationReplaces(s: Store, host: string, use: Use, ops: seq<Op>, id: nat)
    requires forall op :: op in ops ==> !AttestsOn(op, Domain(host))
    ensures var s' := Run(Next(s, Attest(Attestation(Domain(host), use))), ops);
            id in s'.tools && s'.tools[id].host == Some(host) ==>
              && OfTool(s', id).Ok? && OfTool(s', id).value.use == use
              && OfTool(s', id).value.personal == s'.tools[id].personal
              && (forall x :: x in OfTool(s', id).value.taints <==> s'.tools[id].taint == Some(x))
  {
    var s1 := Next(s, Attest(Attestation(Domain(host), use)));
    assert s1.attestations[|s.attestations|] == Attestation(Domain(host), use);
    assert AttestedTo(s1, Domain(host), use);
    LastStands(s1, Domain(host), use, ops);
    var s' := Run(s1, ops);
    hide Run;
    if id in s'.tools && s'.tools[id].host == Some(host) {
      CurrentExactly(s', Domain(host), use);
      ToolIsReadExactly(s', s'.tools[id], OfTool(s', id).value);
    }
  }

  /** A call from a host nobody has attested, or from none, is read as it was recorded. */
  lemma UnattestedStandsAsRecorded(ops: seq<Op>, id: nat)
    requires id in Run(EMPTY, ops).tools
    requires var host := Run(EMPTY, ops).tools[id].host;
             host.Some? ==> forall op :: op in ops ==> !AttestsOn(op, Domain(host.value))
    ensures var s := Run(EMPTY, ops);
            OfTool(s, id).Ok? && OfTool(s, id).value.use == s.tools[id].use
  {
    var s := Run(EMPTY, ops);
    var t := s.tools[id];
    if t.host.Some? {
      SilenceStands(EMPTY, Domain(t.host.value), ops);
    }
    hide Run;
    ToolIsReadExactly(s, t, ToolPosition(s, t));
  }
}
