/**
 Resolving conflicts in two passes (src/commands/usb.ts `collectResolutions`, `prepareSync`;
 src/usb/lan-client.ts `applyLanSync`): probe for conflicts, record one choice for each under
 its resolution key, merge again.
 */
module TwoPass {
  import opened Wrappers
  import opened Vaults
  import opened Merge
  import opened MergeLaws

  datatype Choice = Ours | Theirs

  function Picked(c: Conflict, choice: Choice): Option<VarEntry> {
    if choice.Theirs? then c.theirs else c.ours
  }

  /** The resolutions map the loop builds: a later conflict under the same key overwrites an earlier one. */
  function Collected(cs: seq<Conflict>, answers: seq<Choice>): Resolutions
    requires |cs| == |answers|
  {
    if cs == [] then map[]
    else
      var n := |cs| - 1;
      Collected(cs[..n], answers[..n])[ResolutionKey(cs[n].scope, cs[n].key) := Picked(cs[n], answers[n])]
  }

  method CollectResolutions(cs: seq<Conflict>, answers: seq<Choice>) returns (resolutions: Resolutions)
    requires |cs| == |answers|
    ensures resolutions == Collected(cs, answers)
  {
    resolutions := map[];
    for i := 0 to |cs|
      invariant resolutions == Collected(cs[..i], answers[..i])
    {
      var picked := if answers[i].Theirs? then cs[i].theirs else cs[i].ours;
      resolutions := resolutions[ResolutionKey(cs[i].scope, cs[i].key) := picked];
      assert cs[..i + 1][..i] == cs[..i] && answers[..i + 1][..i] == answers[..i];
    }
    assert cs[..|cs|] == cs && answers[..|cs|] == answers;
  }

  function Id(c: Conflict): string {
    ResolutionKey(c.scope, c.key)
  }

  /** The last conflict filed under a key decides it. */
  lemma {:induction false} CollectedIs(cs: seq<Conflict>, answers: seq<Choice>, id: string)
    requires |cs| == |answers|
    ensures id in Collected(cs, answers) <==> exists i :: 0 <= i < |cs| && Id(cs[i]) == id
    ensures id in Collected(cs, answers) ==>
              exists i :: && 0 <= i < |cs| && Id(cs[i]) == id
                          && Collected(cs, answers)[id] == (if answers[i].Theirs? then cs[i].theirs else cs[i].ours)
                          && forall j :: i < j < |cs| ==> Id(cs[j]) != id
  {
    if cs != [] {
      var n := |cs| - 1;
      CollectedIs(cs[..n], answers[..n], id);
      assert forall i :: 0 <= i < n ==> cs[..n][i] == cs[i] && answers[..n][i] == answers[i];
      if Id(cs[n]) != id && id in Collected(cs, answers) {
        var i :| && 0 <= i < n && Id(cs[..n][i]) == id
                 && Collected(cs[..n], answers[..n])[id]
                    == (if answers[..n][i].Theirs? then cs[..n][i].theirs else cs[..n][i].ours)
                 && forall j :: i < j < n ==> Id(cs[..n][j]) != id;
        forall j | i < j < |cs| ensures Id(cs[j]) != id {
          if j < n { assert cs[j] == cs[..n][j]; }
        }
      }
    }
  }

  // ---------- slots: every variable of a project and every credential of a connection ----------

  datatype Slot = Variable(project: string, key: string) | Credential(provider: string, key: string)

  function ScopeOf(s: Slot): string {
    if s.Variable? then s.project else CONNECTION_SCOPE + s.provider
  }

  function SlotId(s: Slot): string {
    ResolutionKey(ScopeOf(s), s.key)
  }

  function At(v: Vault, s: Slot): Option<VarEntry> {
    match s
    case Variable(p, k) => Val(v.projects, p, k)
    case Credential(p, k) =>
      var connections := v.connections.GetOr(map[]);
      if p in connections then Look(connections[p].vars, k) else None
  }

  function AtBase(base: Option<Vault>, s: Slot): Option<VarEntry> {
    if base.Some? then At(base.value, s) else None
  }

  /** Both sides have the project or the connection the slot belongs to. */
  predicate Shared(ours: Vault, theirs: Vault, s: Slot) {
    match s
    case Variable(p, _) => p in ours.projects && p in theirs.projects
    case Credential(p, _) => p in ours.connections.GetOr(map[]) && p in theirs.connections.GetOr(map[])
  }

  function SlotVerdict(ours: Vault, theirs: Vault, base: Option<Vault>, resolutions: Resolutions, s: Slot): Verdict {
    Decide(At(ours, s), At(theirs, s), AtBase(base, s), Manual(resolutions, ScopeOf(s), s.key))
  }

  /** Both sides have it differently, and both differently from the base. */
  ghost predicate ClashesAt(ours: Vault, theirs: Vault, base: Option<Vault>, s: Slot) {
    && Shared(ours, theirs, s)
    && At(ours, s) != At(theirs, s) && At(ours, s) != AtBase(base, s) && At(theirs, s) != AtBase(base, s)
  }

  function ConflictAt(ours: Vault, theirs: Vault, s: Slot): Conflict {
    Conflict(ScopeOf(s), s.key, At(ours, s), At(theirs, s))
  }

  lemma MergedAt(ours: Vault, theirs: Vault, base: Option<Vault>, resolutions: Resolutions, s: Slot)
    ensures Shared(ours, theirs, s) ==>
              var v := SlotVerdict(ours, theirs, base, resolutions, s);
              At(MergedVault(ours, theirs, base, resolutions), s) == if v.Take? then v.entry else None
    ensures !Shared(ours, theirs, s) ==>
              At(MergedVault(ours, theirs, base, resolutions), s) == At(MergedVault(ours, theirs, base, NONE), s)
  {
  }

  lemma ConflictsAreClashes(ours: Vault, theirs: Vault, base: Option<Vault>, resolutions: Resolutions)
    ensures forall s :: Shared(ours, theirs, s) && SlotVerdict(ours, theirs, base, resolutions, s).Clash?
              ==> IsConflict(ours, theirs, base, resolutions, ConflictAt(ours, theirs, s))
    ensures forall c :: IsConflict(ours, theirs, base, resolutions, c)
              ==> exists s :: && Shared(ours, theirs, s)
                              && SlotVerdict(ours, theirs, base, resolutions, s).Clash?
                              && c == ConflictAt(ours, theirs, s)
  {
    forall s | Shared(ours, theirs, s) && SlotVerdict(ours, theirs, base, resolutions, s).Clash?
      ensures IsConflict(ours, theirs, base, resolutions, ConflictAt(ours, theirs, s))
    {
      if s.Credential? {
        var scope := CONNECTION_SCOPE + s.provider;
        assert scope[..|CONNECTION_SCOPE|] == CONNECTION_SCOPE && scope[|CONNECTION_SCOPE|..] == s.provider;
      }
    }
    forall c | IsConflict(ours, theirs, base, resolutions, c)
      ensures exists s :: && Shared(ours, theirs, s)
                          && SlotVerdict(ours, theirs, base, resolutions, s).Clash?
                          && c == ConflictAt(ours, theirs, s)
    {
      var n := |CONNECTION_SCOPE|;
      if IsProjectConflict(ours.projects, theirs.projects, BaseProjects(base), resolutions, c) {
        assert c == ConflictAt(ours, theirs, Variable(c.scope, c.key));
      } else {
        assert c.scope == c.scope[..n] + c.scope[n..];
        assert c == ConflictAt(ours, theirs, Credential(c.scope[n..], c.key));
      }
    }
  }

  // ---------- the two passes ----------

  ghost predicate Lists(cs: seq<Conflict>, ours: Vault, theirs: Vault, base: Option<Vault>) {
    forall c :: c in cs <==> IsConflict(ours, theirs, base, NONE, c)
  }

  /** Once every conflict of the probe has an answer, the second merge reports none, whatever the names. */
  lemma SecondPassHasNoConflict(ours: Vault, theirs: Vault, base: Option<Vault>, cs: seq<Conflict>,
                                answers: seq<Choice>)
    requires Lists(cs, ours, theirs, base) && |cs| == |answers|
    ensures forall c :: !IsConflict(ours, theirs, base, Collected(cs, answers), c)
  {
    var resolutions := Collected(cs, answers);
    ConflictsAreClashes(ours, theirs, base, NONE);
    ConflictsAreClashes(ours, theirs, base, resolutions);
    if c :| IsConflict(ours, theirs, base, resolutions, c) {
      var s :| && Shared(ours, theirs, s) && SlotVerdict(ours, theirs, base, resolutions, s).Clash?
               && c == ConflictAt(ours, theirs, s);
      assert ConflictAt(ours, theirs, s) in cs;
      var i :| 0 <= i < |cs| && cs[i] == ConflictAt(ours, theirs, s);
      CollectedIs(cs, answers, Id(cs[i]));
      assert false;
    }
  }

  /** Every conflict gets the side chosen for it; every slot that was not in conflict keeps the probe's entry. */
  ghost predicate ChoicesRespected(ours: Vault, theirs: Vault, base: Option<Vault>, cs: seq<Conflict>,
                                   answers: seq<Choice>)
    requires |cs| == |answers|
  {
    var second := MergedVault(ours, theirs, base, Collected(cs, answers));
    && (forall i, s :: 0 <= i < |cs| && ClashesAt(ours, theirs, base, s) && cs[i] == ConflictAt(ours, theirs, s)
          ==> At(second, s) == if answers[i].Theirs? then At(theirs, s) else At(ours, s))
    && (forall s :: !ClashesAt(ours, theirs, base, s)
          ==> At(second, s) == At(MergedVault(ours, theirs, base, NONE), s))
  }

  /** No conflict shares its resolution key with another conflict or with another slot the sides differ in. */
  ghost predicate KeysSeparate(ours: Vault, theirs: Vault, base: Option<Vault>, cs: seq<Conflict>) {
    && (forall i, j :: 0 <= i < j < |cs| ==> Id(cs[i]) != Id(cs[j]))
    && (forall i, s :: && 0 <= i < |cs| && Shared(ours, theirs, s) && !ClashesAt(ours, theirs, base, s)
                       && At(ours, s) != At(theirs, s)
          ==> SlotId(s) != Id(cs[i]))
  }

  lemma SeparateKeysSuffice(ours: Vault, theirs: Vault, base: Option<Vault>, cs: seq<Conflict>,
                            answers: seq<Choice>)
    requires Lists(cs, ours, theirs, base) && |cs| == |answers|
    requires KeysSeparate(ours, theirs, base, cs)
    ensures ChoicesRespected(ours, theirs, base, cs, answers)
  {
    var resolutions := Collected(cs, answers);
    forall i, s | 0 <= i < |cs| && ClashesAt(ours, theirs, base, s) && cs[i] == ConflictAt(ours, theirs, s)
      ensures At(MergedVault(ours, theirs, base, resolutions), s)
              == if answers[i].Theirs? then At(theirs, s) else At(ours, s)
    {
      CollectedIs(cs, answers, Id(cs[i]));
      MergedAt(ours, theirs, base, resolutions, s);
    }
    forall s | !ClashesAt(ours, theirs, base, s)
      ensures At(MergedVault(ours, theirs, base, resolutions), s) == At(MergedVault(ours, theirs, base, NONE), s)
    {
      CollectedIs(cs, answers, SlotId(s));
      MergedAt(ours, theirs, base, resolutions, s);
      MergedAt(ours, theirs, base, NONE, s);
    }
  }

  lemma ClashOf(ours: Vault, theirs: Vault, base: Option<Vault>, cs: seq<Conflict>, i: nat) returns (s: Slot)
    requires Lists(cs, ours, theirs, base) && i < |cs|
    ensures ClashesAt(ours, theirs, base, s) && cs[i] == ConflictAt(ours, theirs, s)
    ensures cs[i].ours != cs[i].theirs
  {
    ConflictsAreClashes(ours, theirs, base, NONE);
    assert IsConflict(ours, theirs, base, NONE, cs[i]);
    s :| && Shared(ours, theirs, s) && SlotVerdict(ours, theirs, base, NONE, s).Clash?
         && cs[i] == ConflictAt(ours, theirs, s);
  }

  /** A slot the sides differ in takes whatever is filed under its key. */
  lemma FiledAnswerWins(ours: Vault, theirs: Vault, base: Option<Vault>, resolutions: Resolutions, s: Slot)
    requires Shared(ours, theirs, s) && At(ours, s) != At(theirs, s) && SlotId(s) in resolutions
    ensures At(MergedVault(ours, theirs, base, resolutions), s) == resolutions[SlotId(s)]
  {
    MergedAt(ours, theirs, base, resolutions, s);
  }

  /** So two such slots under one key end up with the same entry. */
  lemma SharedKeySharesEntry(ours: Vault, theirs: Vault, base: Option<Vault>, resolutions: Resolutions,
                             s: Slot, c: Slot)
    requires Shared(ours, theirs, s) && At(ours, s) != At(theirs, s)
    requires Shared(ours, theirs, c) && At(ours, c) != At(theirs, c)
    requires SlotId(s) == SlotId(c) && SlotId(s) in resolutions
    ensures At(MergedVault(ours, theirs, base, resolutions), s) == At(MergedVault(ours, theirs, base, resolutions), c)
  {
    FiledAnswerWins(ours, theirs, base, resolutions, s);
    FiledAnswerWins(ours, theirs, base, resolutions, c);
  }

  lemma HonouredTwice(ours: Vault, theirs: Vault, base: Option<Vault>, cs: seq<Conflict>, answers: seq<Choice>,
                      i: nat, j: nat)
    requires Lists(cs, ours, theirs, base) && |cs| == |answers| && ChoicesRespected(ours, theirs, base, cs, answers)
    requires i < j < |cs| && Id(cs[i]) == Id(cs[j])
    ensures Picked(cs[i], answers[i]) == Picked(cs[j], answers[j])
  {
    var s := ClashOf(ours, theirs, base, cs, i);
    var s' := ClashOf(ours, theirs, base, cs, j);
    CollectedIs(cs, answers, Id(cs[i]));
    SharedKeySharesEntry(ours, theirs, base, Collected(cs, answers), s, s');
  }

  /** With one answer changed at two places, both answers cannot be honoured under one key. */
  lemma SharedKeyBreaksConflicts(ours: Vault, theirs: Vault, base: Option<Vault>, cs: seq<Conflict>, i: nat, j: nat)
    requires Lists(cs, ours, theirs, base)
    requires i < j < |cs| && Id(cs[i]) == Id(cs[j])
    ensures exists answers :: |answers| == |cs| && !ChoicesRespected(ours, theirs, base, cs, answers)
  {
    var s := ClashOf(ours, theirs, base, cs, i);
    var ours1 := seq(|cs|, _ => Ours);
    var theirs1 := ours1[i := Theirs];
    forall answers | |answers| == |cs| && ChoicesRespected(ours, theirs, base, cs, answers)
      ensures Picked(cs[i], answers[i]) == Picked(cs[j], answers[j])
    {
      HonouredTwice(ours, theirs, base, cs, answers, i, j);
    }
    assert Picked(cs[i], ours1[i]) != Picked(cs[i], theirs1[i]) && ours1[j] == theirs1[j];
    var answers := if ChoicesRespected(ours, theirs, base, cs, ours1) then theirs1 else ours1;
    assert |answers| == |cs| && !ChoicesRespected(ours, theirs, base, cs, answers);
  }

  lemma HonouredElsewhere(ours: Vault, theirs: Vault, base: Option<Vault>, cs: seq<Conflict>, answers: seq<Choice>,
                          i: nat, s: Slot)
    requires Lists(cs, ours, theirs, base) && |cs| == |answers| && ChoicesRespected(ours, theirs, base, cs, answers)
    requires i < |cs| && Shared(ours, theirs, s) && !ClashesAt(ours, theirs, base, s) && At(ours, s) != At(theirs, s)
    requires SlotId(s) == Id(cs[i])
    ensures Picked(cs[i], answers[i]) == At(MergedVault(ours, theirs, base, NONE), s)
  {
    var c := ClashOf(ours, theirs, base, cs, i);
    CollectedIs(cs, answers, Id(cs[i]));
    SharedKeySharesEntry(ours, theirs, base, Collected(cs, answers), s, c);
  }

  /** A differing slot filed under a conflict's key takes that conflict's answer instead of its own merge. */
  lemma SharedKeyBreaksOthers(ours: Vault, theirs: Vault, base: Option<Vault>, cs: seq<Conflict>, i: nat, s: Slot)
    requires Lists(cs, ours, theirs, base)
    requires i < |cs| && Shared(ours, theirs, s) && !ClashesAt(ours, theirs, base, s) && At(ours, s) != At(theirs, s)
    requires SlotId(s) == Id(cs[i])
    ensures exists answers :: |answers| == |cs| && !ChoicesRespected(ours, theirs, base, cs, answers)
  {
    var c := ClashOf(ours, theirs, base, cs, i);
    var allOurs, allTheirs := seq(|cs|, _ => Ours), seq(|cs|, _ => Theirs);
    forall answers | |answers| == |cs| && ChoicesRespected(ours, theirs, base, cs, answers)
      ensures Picked(cs[i], answers[i]) == At(MergedVault(ours, theirs, base, NONE), s)
    {
      HonouredElsewhere(ours, theirs, base, cs, answers, i, s);
    }
    assert Picked(cs[i], allOurs[i]) != Picked(cs[i], allTheirs[i]);
    var answers := if ChoicesRespected(ours, theirs, base, cs, allOurs) then allTheirs else allOurs;
    assert |answers| == |cs| && !ChoicesRespected(ours, theirs, base, cs, answers);
  }

  /** Two-pass resolution honours every possible set of answers exactly when the keys are separate. */
  lemma TwoPassIff(ours: Vault, theirs: Vault, base: Option<Vault>, cs: seq<Conflict>)
    requires Lists(cs, ours, theirs, base)
    ensures (forall answers :: |answers| == |cs| ==> ChoicesRespected(ours, theirs, base, cs, answers))
            <==> KeysSeparate(ours, theirs, base, cs)
  {
    if KeysSeparate(ours, theirs, base, cs) {
      forall answers | |answers| == |cs| ensures ChoicesRespected(ours, theirs, base, cs, answers) {
        SeparateKeysSuffice(ours, theirs, base, cs, answers);
      }
    } else if i, j :| 0 <= i < j < |cs| && Id(cs[i]) == Id(cs[j]) {
      SharedKeyBreaksConflicts(ours, theirs, base, cs, i, j);
    } else {
      var i, s :| && 0 <= i < |cs| && Shared(ours, theirs, s) && !ClashesAt(ours, theirs, base, s)
                  && At(ours, s) != At(theirs, s) && SlotId(s) == Id(cs[i]);
      SharedKeyBreaksOthers(ours, theirs, base, cs, i, s);
    }
  }

  // ---------- names for which the keys are separate ----------

  predicate NoSlash(s: string) {
    '/' !in s
  }

  lemma ResolutionKeyInjective(scope: string, key: string, scope': string, key': string)
    requires NoSlash(key) && NoSlash(key')
    requires ResolutionKey(scope, key) == ResolutionKey(scope', key')
    ensures scope == scope' && key == key'
  {
    var id := ResolutionKey(scope, key);
    LastSlash(scope, key);
    LastSlash(scope', key');
    assert |scope| == |scope'|;
    assert scope == id[..|scope|] == scope';
    assert key == id[|scope| + 1..] == key';
  }

  lemma LastSlash(scope: string, key: string)
    requires NoSlash(key)
    ensures
      var id := ResolutionKey(scope, key);
      id[|scope|] == '/' && forall i :: |scope| < i < |id| ==> id[i] != '/'
  {
    var id := ResolutionKey(scope, key);
    forall i | |scope| < i < |id| ensures id[i] != '/' {
      assert id[i] == key[i - |scope| - 1];
    }
  }

  /** No slash in a variable name, and no project named like a connection scope. */
  ghost predicate PlainNames(ours: Vault, theirs: Vault) {
    && (forall s :: At(ours, s).Some? || At(theirs, s).Some? ==> NoSlash(s.key))
    && (forall p :: p in ours.projects && p in theirs.projects ==> !(CONNECTION_SCOPE <= p))
  }

  lemma NoTwins(ours: Vault, theirs: Vault, base: Option<Vault>)
    requires PlainNames(ours, theirs)
    ensures forall c :: !IsTwinConflict(ours, theirs, base, NONE, c)
  {
  }

  lemma PlainNamesNoOther(ours: Vault, theirs: Vault, base: Option<Vault>, cs: seq<Conflict>, i: nat, s: Slot)
    requires PlainNames(ours, theirs) && Lists(cs, ours, theirs, base) && i < |cs|
    requires Shared(ours, theirs, s) && At(ours, s) != At(theirs, s) && SlotId(s) == Id(cs[i])
    ensures ClashesAt(ours, theirs, base, s) && cs[i] == ConflictAt(ours, theirs, s)
  {
    var c := ClashOf(ours, theirs, base, cs, i);
    ResolutionKeyInjective(ScopeOf(s), s.key, ScopeOf(c), c.key);
    SameScopeSameSlot(ours, theirs, s, c);
  }

  /** With plain names every set of answers is honoured. */
  lemma PlainNamesSeparate(ours: Vault, theirs: Vault, base: Option<Vault>, r: MergeResult)
    requires PlainNames(ours, theirs)
    requires IsMerge(ours, theirs, base, NONE, r)
    ensures KeysSeparate(ours, theirs, base, r.conflicts)
  {
    var cs := r.conflicts;
    forall i, s | 0 <= i < |cs| && Shared(ours, theirs, s) && At(ours, s) != At(theirs, s) && SlotId(s) == Id(cs[i])
      ensures ClashesAt(ours, theirs, base, s)
    {
      PlainNamesNoOther(ours, theirs, base, cs, i, s);
    }
    NoTwins(ours, theirs, base);
    forall i, j | 0 <= i < j < |cs|
      ensures Id(cs[i]) != Id(cs[j])
    {
      if Id(cs[i]) == Id(cs[j]) {
        var c := ClashOf(ours, theirs, base, cs, j);
        PlainNamesNoOther(ours, theirs, base, cs, i, c);
      }
    }
  }

  lemma SameScopeSameSlot(ours: Vault, theirs: Vault, s: Slot, c: Slot)
    requires PlainNames(ours, theirs) && Shared(ours, theirs, s) && Shared(ours, theirs, c)
    requires ScopeOf(s) == ScopeOf(c) && s.key == c.key
    ensures s == c
  {
    var n := |CONNECTION_SCOPE|;
    if s.Credential? { assert ScopeOf(s)[..n] == CONNECTION_SCOPE && ScopeOf(s)[n..] == s.provider; }
    if c.Credential? { assert ScopeOf(c)[..n] == CONNECTION_SCOPE && ScopeOf(c)[n..] == c.provider; }
  }

  // ---------- names for which they are not ----------

  function Entry(value: string): VarEntry {
    VarEntry(value, true, 0)
  }

  /** Project "a" holds variable "b/c"; project "a/b" holds variable "c". */
  function Slashed(first: VarEntry, second: VarEntry): Vault {
    EmptyVault().(projects := map["a" := Project(0, map["b/c" := first]), "a/b" := Project(0, map["c" := second])])
  }

  function SlashedConflicts(): seq<Conflict> {
    [Conflict("a", "b/c", Some(Entry("1")), Some(Entry("3"))), Conflict("a/b", "c", Some(Entry("2")), Some(Entry("4")))]
  }

  lemma SlashedConflictsListed()
    ensures Lists(SlashedConflicts(), Slashed(Entry("1"), Entry("2")), Slashed(Entry("3"), Entry("4")), None)
  {
    var ours, theirs := Slashed(Entry("1"), Entry("2")), Slashed(Entry("3"), Entry("4"));
    assert "a" != "a/b";
    forall c ensures c in SlashedConflicts() <==> IsConflict(ours, theirs, None, NONE, c) {
      assert !IsConnectionConflict(ConnectionsOf(ours), ConnectionsOf(theirs), map[], NONE, c);
      if IsProjectConflict(ours.projects, theirs.projects, map[], NONE, c) {
        assert c.scope == "a" || c.scope == "a/b";
        assert c in SlashedConflicts();
      }
    }
  }

  lemma SlashedAnswers()
    ensures Collected(SlashedConflicts(), [Ours, Theirs]) == map["a/b/c" := Some(Entry("4"))]
  {
    var cs, answers := SlashedConflicts(), [Ours, Theirs];
    assert "a" + "/" + "b/c" == "a/b" + "/" + "c" == "a/b/c";
    assert cs[..1] == [cs[0]] && answers[..1] == [Ours];
    assert cs[..1][..0] == [] && answers[..1][..0] == [];
  }

  /** Answering "ours" for the first conflict and "theirs" for the second gives both variables one entry. */
  lemma SlashedNamesShareAnAnswer()
    ensures Lists(SlashedConflicts(), Slashed(Entry("1"), Entry("2")), Slashed(Entry("3"), Entry("4")), None)
    ensures
      var ours, theirs := Slashed(Entry("1"), Entry("2")), Slashed(Entry("3"), Entry("4"));
      var second := MergedVault(ours, theirs, None, Collected(SlashedConflicts(), [Ours, Theirs]));
      && At(second, Variable("a", "b/c")) == Some(Entry("4"))
      && At(second, Variable("a/b", "c")) == Some(Entry("4"))
  {
    var ours, theirs := Slashed(Entry("1"), Entry("2")), Slashed(Entry("3"), Entry("4"));
    var resolutions := Collected(SlashedConflicts(), [Ours, Theirs]);
    SlashedConflictsListed();
    SlashedAnswers();
    assert "a" + "/" + "b/c" == "a/b" + "/" + "c" == "a/b/c";
    assert "a" != "a/b" && Entry("1") != Entry("3") && Entry("2") != Entry("4");
    MergedAt(ours, theirs, None, resolutions, Variable("a", "b/c"));
    MergedAt(ours, theirs, None, resolutions, Variable("a/b", "c"));
  }
}
