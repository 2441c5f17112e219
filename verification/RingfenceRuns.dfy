/** Sequences of ringfence applications in one agent process. */
module RingfenceRuns {
  import opened Common
  import opened Text
  import opened WdacRules
  import opened Ringfence
  import opened RingfenceVersion
  import opened RingfenceDecoding

  /** The two digests, and the paths and texts that occur, which they tell apart. */
  datatype Setting = Setting(naming: Naming, digest: string -> string, paths: set<string>, texts: set<string>)

  ghost predicate IsSetting(e: Setting) {
    && IsNaming(e.naming) && TellsApart(e.naming, e.paths)
    && (forall s, t :: s in e.texts && t in e.texts && e.digest(s) == e.digest(t) ==> s == t)
  }

  /** What the server hands out: nothing assigned, or content under the digest of its text. */
  ghost predicate FromServer(e: Setting, r: Fence) {
    && AllCurated(r) && PathsIn(r.programs, e.paths)
    && (r.version != "" ==> Plain(r) && VersionText(r) in e.texts && r.version == e.digest(VersionText(r)))
  }

  ghost predicate AllFromServer(e: Setting, rs: seq<Fence>) {
    forall i :: 0 <= i < |rs| ==> FromServer(e, rs[i])
  }

  ghost predicate AllSeamless(rs: seq<Fence>) {
    forall i :: 0 <= i < |rs| ==> Seamless(rs[i].programs)
  }

  ghost function Run(e: Setting, a: Agent, rs: seq<Fence>): Agent {
    if rs == [] then a else Apply(e.naming, Run(e, a, rs[..|rs| - 1]), rs[|rs| - 1]).0
  }

  ghost predicate NoAgentImage(a: Agent) {
    forall x :: x in a.host.firewall && IsOwn(x) ==> !IsAgentImage(a.images, x.program)
  }

  /** The host a fresh agent process finds; foreign entries are arbitrary. */
  ghost predicate IsStart(e: Setting, a: Agent) {
    a.applied == "" && OwnOk(e.naming, a.host.firewall) && OwnPathsIn(a.host.firewall, e.paths) && NoAgentImage(a)
  }

  // ---- What the host holds ------------------------------------------------------------------------

  /** Every own rule is wanted, and every wanted rule is there unless a foreign name hides it. */
  ghost predicate NetworkHolds(naming: Naming, foreign: set<FwRule>, firewall: set<FwRule>, r: Fence) {
    forall x :: IsOwn(x) ==>
      && (x in firewall ==> x.name == naming(x.program) && Blocks(r, x.program))
      && (x.name == naming(x.program) && Blocks(r, x.program) && !Shadowed(foreign, x.name) ==> x in firewall)
  }

  ghost predicate Holds(e: Setting, start: Agent, host: Host, r: Fence) {
    NetworkHolds(e.naming, start.host.firewall, host.firewall, r) && AsrExact(host.asr, r)
  }

  ghost predicate Exact(e: Setting, host: Host, r: Fence) {
    NetworkExact(e.naming, host.firewall, r) && AsrExact(host.asr, r)
  }

  /** No foreign rule's name hides the name of a rule that the ringfence wants. */
  ghost predicate Unhidden(e: Setting, start: Agent, r: Fence) {
    forall path :: Blocks(r, path) ==> !Shadowed(start.host.firewall, e.naming(path))
  }

  lemma {:induction false} HoldsIsExact(e: Setting, start: Agent, host: Host, r: Fence)
    requires Holds(e, start, host, r) && Unhidden(e, start, r)
    ensures Exact(e, host, r)
  {
    forall x | IsOwn(x)
      ensures x in host.firewall <==> (x.name == e.naming(x.program) && Blocks(r, x.program))
    {
      if x.name == e.naming(x.program) && Blocks(r, x.program) {
        assert !Shadowed(start.host.firewall, e.naming(x.program));
      }
    }
  }

  /** Everything that is not this product's is as it was. */
  ghost predicate ForeignSame(from: Host, to: Host) {
    && (forall x :: !IsOwn(x) ==> (x in to.firewall <==> x in from.firewall))
    && (forall k :: k !in CURATED ==> (k in to.asr <==> k in from.asr))
    && (forall k :: k !in CURATED && k in from.asr && k in to.asr ==> to.asr[k] == from.asr[k])
  }

  lemma {:induction false} SameShadows(a: Host, b: Host, n: string)
    requires ForeignSame(a, b)
    ensures Shadowed(a.firewall, n) <==> Shadowed(b.firewall, n)
  {
  }

  lemma {:induction false} ForeignTransitive(a: Host, b: Host, c: Host)
    requires ForeignSame(a, b) && ForeignSame(b, c)
    ensures ForeignSame(a, c)
  {
  }

  // ---- One application ------------------------------------------------------------------------------

  ghost function Reconciled(e: Setting, host: Host, r: Fence): Host {
    Host(FirewallAfter(e.naming, host.firewall, DesiredFor(e.naming, r)), AsrAfter(host.asr, WantedActions(r.protections)))
  }

  lemma {:induction false} ReconcileHolds(e: Setting, start: Agent, host: Host, r: Fence)
    requires IsSetting(e) && OwnOk(e.naming, host.firewall) && OwnPathsIn(host.firewall, e.paths) && PathsIn(r.programs, e.paths)
    requires ForeignSame(start.host, host)
    ensures Holds(e, start, Reconciled(e, host, r), r)
  {
    var after := Reconciled(e, host, r).firewall;
    forall x | IsOwn(x)
      ensures x in after ==> x.name == e.naming(x.program) && Blocks(r, x.program)
      ensures x.name == e.naming(x.program) && Blocks(r, x.program) && !Shadowed(start.host.firewall, x.name) ==> x in after
    {
      OwnAfter(e.naming, e.paths, host.firewall, r, x);
      SameShadows(start.host, host, x.name);
    }
    AsrBecomesExact(host.asr, r);
  }

  lemma {:induction false} ReconcileForeign(e: Setting, host: Host, r: Fence)
    requires IsSetting(e) && AllCurated(r)
    ensures ForeignSame(host, Reconciled(e, host, r))
  {
    forall x | !IsOwn(x)
      ensures x in FirewallAfter(e.naming, host.firewall, DesiredFor(e.naming, r)) <==> x in host.firewall
    {
      ForeignKept(e.naming, host.firewall, DesiredFor(e.naming, r), x);
    }
    forall k | k !in CURATED
      ensures var after := AsrAfter(host.asr, WantedActions(r.protections));
        (k in after <==> k in host.asr) && (k in host.asr ==> after[k] == host.asr[k])
    {
      AsrForeignKept(host.asr, r, k);
    }
  }

  /** The rules of a ringfence that is not refused name no agent image. */
  lemma {:induction false} HoldsIsSafe(e: Setting, start: Agent, host: Host, r: Fence, x: FwRule)
    requires NetworkHolds(e.naming, start.host.firewall, host.firewall, r) && !Refused(start.images, r)
    requires PathsIn(r.programs, e.paths) && x in host.firewall && IsOwn(x)
    ensures x.name == e.naming(x.program) && x.program in e.paths && !IsAgentImage(start.images, x.program)
  {
    var i :| LastEntry(r.programs, i) && r.programs[i] == Program(x.program, true);
    assert r.programs[i].path in e.paths;
  }

  /** Equal versions mean equal texts, and equal content when no path has a seam. */
  lemma {:induction false} SkipIsSound(e: Setting, last: Fence, r: Fence)
    requires IsSetting(e) && FromServer(e, last) && FromServer(e, r)
    requires r.version != "" && r.version == last.version
    ensures VersionText(r) == VersionText(last)
    ensures Seamless(r.programs) && Seamless(last.programs) ==> r == last
  {
    if Seamless(r.programs) && Seamless(last.programs) {
      VersionTextDetermines(r, last);
    }
  }

  ghost predicate Inv(e: Setting, start: Agent, a: Agent) {
    && a.images == start.images
    && OwnOk(e.naming, a.host.firewall) && OwnPathsIn(a.host.firewall, e.paths) && NoAgentImage(a)
    && ForeignSame(start.host, a.host)
    && (a.applied != "" ==>
          && a.last.version == a.applied && FromServer(e, a.last) && !Refused(start.images, a.last)
          && Holds(e, start, a.host, a.last))
  }

  /** The ringfence was applied, or skipped for one with the same version text. */
  ghost predicate Stands(r: Fence, last: Fence) {
    last == r || (r.version != "" && r.version == last.version && VersionText(last) == VersionText(r))
  }

  lemma {:induction false} ApplyStep(e: Setting, start: Agent, a: Agent, r: Fence)
    requires IsSetting(e) && FromServer(e, r) && Inv(e, start, a)
    ensures var (b, ok) := Apply(e.naming, a, r);
      && Inv(e, start, b)
      && (if ok then Stands(r, b.last) && Holds(e, start, b.host, b.last) && !Refused(start.images, b.last)
          else b == a && Refused(start.images, r))
  {
    var (b, ok) := Apply(e.naming, a, r);
    if a.applied == r.version && r.version != "" {
      SkipIsSound(e, a.last, r);
    } else if !Refused(a.images, r) {
      assert b.host == Reconciled(e, a.host, r);
      ReconcileHolds(e, start, a.host, r);
      ReconcileForeign(e, a.host, r);
      ForeignTransitive(start.host, a.host, b.host);
      forall x | x in b.host.firewall && IsOwn(x)
        ensures x.name == e.naming(x.program) && x.program in e.paths && !IsAgentImage(b.images, x.program)
      {
        HoldsIsSafe(e, start, b.host, r, x);
      }
    }
  }

  // ---- Whole runs -----------------------------------------------------------------------------------

  lemma {:induction false} RunKeepsInv(e: Setting, start: Agent, rs: seq<Fence>)
    requires IsSetting(e) && IsStart(e, start) && AllFromServer(e, rs)
    ensures Inv(e, start, Run(e, start, rs))
  {
    if rs != [] {
      RunKeepsInv(e, start, rs[..|rs| - 1]);
      ApplyStep(e, start, Run(e, start, rs[..|rs| - 1]), rs[|rs| - 1]);
    }
  }

  lemma {:induction false} LastIsSeamless(e: Setting, start: Agent, rs: seq<Fence>)
    requires AllSeamless(rs) && start.applied == ""
    ensures Run(e, start, rs).applied != "" ==> Seamless(Run(e, start, rs).last.programs)
  {
    if rs != [] {
      LastIsSeamless(e, start, rs[..|rs| - 1]);
      assert Seamless(rs[|rs| - 1].programs);
    }
  }

  /** After any sequence of applications, whatever the paths and the foreign rules: a refused
      one names an agent image and changes nothing; after any other the host holds that
      ringfence, or one with the same version text if it was skipped, up to rules whose names
      foreign names hide. Foreign entries stay as at the start throughout and no agent image
      has a rule. */
  lemma {:induction false} EveryApplication(e: Setting, start: Agent, rs: seq<Fence>, r: Fence)
    requires IsSetting(e) && IsStart(e, start) && AllFromServer(e, rs) && FromServer(e, r)
    ensures var a := Run(e, start, rs);
      var (b, ok) := Apply(e.naming, a, r);
      && (if ok then Stands(r, b.last) && Holds(e, start, b.host, b.last) else b == a && Refused(start.images, r))
      && ForeignSame(start.host, b.host) && NoAgentImage(b) && b.images == start.images
  {
    RunKeepsInv(e, start, rs);
    ApplyStep(e, start, Run(e, start, rs), r);
  }

  /** Without seams an application is refused exactly when it names an agent image, and
      otherwise the host holds that very ringfence; exactly it, if nothing it wants is hidden. */
  lemma {:induction false} EverySeamlessApplication(e: Setting, start: Agent, rs: seq<Fence>, r: Fence)
    requires IsSetting(e) && IsStart(e, start) && AllFromServer(e, rs) && FromServer(e, r)
    requires AllSeamless(rs) && Seamless(r.programs)
    ensures var (b, ok) := Apply(e.naming, Run(e, start, rs), r);
      && (ok <==> !Refused(start.images, r))
      && (ok ==> b.last == r && Holds(e, start, b.host, r))
      && (ok && Unhidden(e, start, r) ==> Exact(e, b.host, r))
  {
    var a := Run(e, start, rs);
    RunKeepsInv(e, start, rs);
    ApplyStep(e, start, a, r);
    var (b, ok) := Apply(e.naming, a, r);
    if a.applied == r.version && r.version != "" {
      LastIsSeamless(e, start, rs);
      SkipIsSound(e, a.last, r);
    }
    if ok && Unhidden(e, start, r) {
      HoldsIsExact(e, start, b.host, r);
    }
  }

  lemma {:induction false} LastActionUnique(protections: seq<Protection>, k: string, x: string, y: string)
    requires Protects(protections, k, x) && Protects(protections, k, y)
    ensures x == y
  {
    var i :| LastFor(protections, i, k) && protections[i].action == x;
    var j :| LastFor(protections, j, k) && protections[j].action == y;
    assert i == j;
  }

  /** The same values are set, up to the letter case under which they are stored. */
  ghost predicate SameValues(a: map<string, AsrValue>, b: map<string, AsrValue>) {
    forall k :: (k in a <==> k in b) && (k in a && k in b ==> a[k].value == b[k].value)
  }

  lemma {:induction false} ValuesAgree(start: Host, a: Host, b: Host, r: Fence)
    requires AsrExact(a.asr, r) && AsrExact(b.asr, r) && ForeignSame(start, a) && ForeignSame(start, b)
    ensures SameValues(a.asr, b.asr)
  {
    forall k
      ensures k in a.asr <==> k in b.asr
      ensures k in a.asr && k in b.asr ==> a.asr[k].value == b.asr[k].value
    {
      if k in CURATED && k in a.asr && k in b.asr {
        var x :| Protects(r.protections, k, x) && a.asr[k].value == if x == "audit" then 2 else 1;
        var y :| Protects(r.protections, k, y) && b.asr[k].value == if y == "audit" then 2 else 1;
        LastActionUnique(r.protections, k, x, y);
      }
    }
  }

  lemma {:induction false} RulesAgree(e: Setting, start: Agent, a: Host, b: Host, r: Fence, x: FwRule)
    requires Holds(e, start, a, r) && Holds(e, start, b, r) && ForeignSame(start.host, a) && ForeignSame(start.host, b)
    requires !(IsOwn(x) && Blocks(r, x.program) && Shadowed(start.host.firewall, x.name))
    ensures x in a.firewall <==> x in b.firewall
  {
    assert IsOwn(x) || !IsOwn(x);
  }

  /** Whatever was applied before: the same ringfence leads to the same values and, but for
      wanted rules whose names foreign names hide, to the same rules. */
  lemma {:induction false} PathIndependence(e: Setting, start: Agent, rs: seq<Fence>, qs: seq<Fence>, r: Fence)
    requires IsSetting(e) && IsStart(e, start) && FromServer(e, r) && !Refused(start.images, r) && Seamless(r.programs)
    requires AllFromServer(e, rs) && AllSeamless(rs) && AllFromServer(e, qs) && AllSeamless(qs)
    ensures var a, b := Apply(e.naming, Run(e, start, rs), r).0.host, Apply(e.naming, Run(e, start, qs), r).0.host;
      && SameValues(a.asr, b.asr)
      && (forall x :: (x in a.firewall <==> x in b.firewall) || (IsOwn(x) && Blocks(r, x.program) && Shadowed(start.host.firewall, x.name)))
      && (Unhidden(e, start, r) ==> a.firewall == b.firewall)
  {
    EverySeamlessApplication(e, start, rs, r);
    EverySeamlessApplication(e, start, qs, r);
    EveryApplication(e, start, rs, r);
    EveryApplication(e, start, qs, r);
    var a, b := Apply(e.naming, Run(e, start, rs), r).0.host, Apply(e.naming, Run(e, start, qs), r).0.host;
    ValuesAgree(start.host, a, b, r);
    forall x | !(IsOwn(x) && Blocks(r, x.program) && Shadowed(start.host.firewall, x.name))
      ensures x in a.firewall <==> x in b.firewall
    {
      RulesAgree(e, start, a, b, r, x);
    }
    if Unhidden(e, start, r) {
      ExactRulesAgree(e, start, a, b, r);
    }
  }

  lemma {:induction false} ExactRulesAgree(e: Setting, start: Agent, a: Host, b: Host, r: Fence)
    requires Exact(e, a, r) && Exact(e, b, r) && ForeignSame(start.host, a) && ForeignSame(start.host, b)
    ensures a.firewall == b.firewall
  {
    forall x
      ensures x in a.firewall <==> x in b.firewall
    {
      assert IsOwn(x) || !IsOwn(x);
    }
  }

  /** A path that occurs once and is cut at a seam is no path of the cut ringfence. */
  lemma {:induction false} CutDropsPath(r: Fence, i: nat, k: nat, flag: bool, j: nat)
    requires i < |r.programs| && SeamAt(r.programs[i].path, k, flag) && j < |Cut(r, i, k, flag).programs|
    requires OccursOnce(r.programs, i)
    ensures Cut(r, i, k, flag).programs[j].path != r.programs[i].path
  {
    var ps, p := Cut(r, i, k, flag).programs, r.programs[i];
    if j < i {
      assert ps[j] == r.programs[j];
    } else if j == i {
      assert |ps[j].path| == k < |p.path|;
    } else if j == i + 1 {
      assert |ps[j].path| < |p.path|;
    } else {
      assert ps[j] == r.programs[j - 1];
    }
  }

  /** The effect: a host that holds the cut ringfence does not block the path with the seam. */
  lemma {:induction false} SkippedSeamIsNotEnforced(e: Setting, start: Agent, host: Host, last: Fence, r: Fence, i: nat, k: nat, flag: bool)
    requires IsSetting(e) && Holds(e, start, host, last)
    requires i < |r.programs| && SeamAt(r.programs[i].path, k, flag) && last.(version := r.version) == Cut(r, i, k, flag)
    requires r.mode == "enforce" && r.programs[i].blocked
    requires OccursOnce(r.programs, i)
    ensures Blocks(r, r.programs[i].path)
    ensures !NetworkExact(e.naming, host.firewall, r)
  {
    var path := r.programs[i].path;
    var x := FwRule(e.naming(path), path);
    assert IsOwn(x);
    assert LastEntry(r.programs, i) && r.programs[i] == Program(path, true);
    assert Blocks(r, path);
    if Blocks(last, path) {
      var j :| LastEntry(last.programs, j) && last.programs[j] == Program(path, true);
      CutDropsPath(r, i, k, flag, j);
      assert false;
    }
  }

  ghost predicate OccursOnce(programs: seq<Program>, i: nat)
    requires i < |programs|
  {
    forall m :: 0 <= m < |programs| && m != i ==> programs[m].path != programs[i].path
  }

  /** Two ringfences with one version, the second of which has a seam: it is skipped, the host
      goes on holding the first, and if the second blocks the path with the seam, the host
      fails it: that path has no rule. */
  lemma {:induction false} SeamIsSkipped(e: Setting, start: Agent, a: Agent, r: Fence, i: nat, k: nat, flag: bool)
    requires IsSetting(e) && a.applied != "" && Holds(e, start, a.host, a.last)
    requires i < |r.programs| && SeamAt(r.programs[i].path, k, flag)
    requires a.applied == a.last.version == e.digest(VersionText(a.last)) && a.last.(version := r.version) == Cut(r, i, k, flag)
    requires r.version == e.digest(VersionText(r))
    ensures VersionText(a.last) == VersionText(r) && Apply(e.naming, a, r) == (a, true) && a.last.programs != r.programs
    ensures r.mode == "enforce" && r.programs[i].blocked && OccursOnce(r.programs, i) ==>
              Blocks(r, r.programs[i].path) && !NetworkExact(e.naming, Apply(e.naming, a, r).0.host.firewall, r)
  {
    CutKeepsText(r, i, k, flag);
    assert Lines(a.last) == Lines(Cut(r, i, k, flag));
    if r.mode == "enforce" && r.programs[i].blocked && OccursOnce(r.programs, i) {
      SkippedSeamIsNotEnforced(e, start, a.host, a.last, r, i, k, flag);
    }
  }
}
