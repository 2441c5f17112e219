/** Ringfence reconciliation: the host's firewall rules and Defender ASR values, and what one
    application of a ringfence makes of them. */
module Ringfence {
  import opened Common
  import opened Text
  import opened WdacRules

  const PREFIX := "FreeLocker-RF-"

  const CURATED := {
    "D4F940AB-401B-4EFC-AADC-AD5F3C50688A",
    "3B576869-A4EC-4529-8536-B80A7769E899",
    "D3E037E1-3EB8-44C8-A917-57927947596D",
    "5BEB7EFE-FD9A-4556-801D-275E5FFC04CC",
    "92E97FA1-2EDF-4476-BDD6-9DD0B4DDDC7B",
    "D1E49AAC-8F56-4280-B9BA-993A6D77406C"
  }

  datatype Program = Program(path: string, blocked: bool)

  datatype Protection = Protection(rule: string, action: string)

  datatype Fence = Fence(version: string, mode: string, programs: seq<Program>, protections: seq<Protection>)

  /** An outbound block rule of the host firewall. */
  datatype FwRule = FwRule(name: string, program: string)

  /** An ASR registry value under the name it was stored with. */
  datatype AsrValue = AsrValue(name: string, value: nat)

  /** Registry names do not depend on case: the key is the upper-case name. */
  datatype Host = Host(firewall: set<FwRule>, asr: map<string, AsrValue>)

  /** The rule name of a program path: the prefix and a digest of the path. */
  type Naming = string -> string

  ghost predicate IsNaming(naming: Naming) {
    forall p :: PREFIX <= naming(p) && Trim(naming(p)) == naming(p)
  }

  /** Names are short digests; those of the given paths differ. */
  ghost predicate TellsApart(naming: Naming, paths: set<string>) {
    forall p, q :: p in paths && q in paths && naming(p) == naming(q) ==> p == q
  }

  ghost predicate PathsIn(programs: seq<Program>, paths: set<string>) {
    forall i :: 0 <= i < |programs| ==> programs[i].path in paths
  }

  ghost predicate OwnPathsIn(firewall: set<FwRule>, paths: set<string>) {
    forall x :: x in firewall && IsOwn(x) ==> x.program in paths
  }

  // ---- The firewall -------------------------------------------------------------------------------

  /** What the listing yields for a rule name: the text from the first prefix on. */
  function Find(name: string): Option<string> {
    if PREFIX <= name then Some(Trim(name)) else if name == [] then None else Find(name[1..])
  }

  lemma {:induction false} FindAt(name: string, k: nat)
    requires k <= |name| && "FreeLocker-RF-" <= name[k..] && forall j :: 0 <= j < k ==> !("FreeLocker-RF-" <= name[j..])
    ensures Find(name) == Some(Trim(name[k..]))
  {
    if k == 0 {
      assert name[0..] == name;
    } else {
      var rest := name[1..];
      assert name[0..] == name;
      assert forall j :: 0 <= j < k ==> rest[j..] == name[j + 1..];
      assert rest[k - 1..] == name[k..];
      FindAt(rest, k - 1);
    }
  }

  /** A name is listed if and only if it holds "FreeLocker-RF-" somewhere, and then from the first
      such place on, trimmed. */
  lemma {:induction false} FindMeaning(name: string)
    ensures Find(name).Some? <==> exists k :: 0 <= k <= |name| && "FreeLocker-RF-" <= name[k..]
    ensures forall k :: 0 <= k <= |name| && "FreeLocker-RF-" <= name[k..] && (forall j :: 0 <= j < k ==> !("FreeLocker-RF-" <= name[j..])) ==>
              Find(name) == Some(Trim(name[k..]))
  {
    forall k: nat | k <= |name| && "FreeLocker-RF-" <= name[k..] && (forall j :: 0 <= j < k ==> !("FreeLocker-RF-" <= name[j..]))
      ensures Find(name) == Some(Trim(name[k..]))
    {
      FindAt(name, k);
    }
    if Find(name).Some? {
      var k := FoundPlace(name);
    } else if k :| 0 <= k <= |name| && "FreeLocker-RF-" <= name[k..] {
      NotFoundNowhere(name, k);
    }
  }

  lemma {:induction false} FoundPlace(name: string) returns (k: nat)
    requires Find(name).Some?
    ensures k <= |name| && "FreeLocker-RF-" <= name[k..]
  {
    if PREFIX <= name {
      k := 0;
      assert name[0..] == name;
    } else {
      var j := FoundPlace(name[1..]);
      k := j + 1;
      assert name[1..][j..] == name[k..];
    }
  }

  lemma {:induction false} NotFoundNowhere(name: string, k: nat)
    requires Find(name) == None && k <= |name|
    ensures !("FreeLocker-RF-" <= name[k..])
  {
    assert name[0..] == name;
    if k > 0 {
      assert name[1..][k - 1..] == name[k..];
      NotFoundNowhere(name[1..], k - 1);
    }
  }

  predicate IsOwn(x: FwRule) {
    PREFIX <= x.name
  }

  ghost predicate Listed(firewall: set<FwRule>, n: string) {
    exists x :: x in firewall && Find(x.name) == Some(n)
  }

  /** The program wanted under each rule name; later entries win. */
  function Desired(naming: Naming, programs: seq<Program>): map<string, Program> {
    if programs == [] then map[]
    else
      var last := programs[|programs| - 1];
      Desired(naming, programs[..|programs| - 1])[naming(last.path) := last]
  }

  function DesiredFor(naming: Naming, r: Fence): map<string, Program> {
    if r.mode == "enforce" then Desired(naming, r.programs) else map[]
  }

  predicate Wants(desired: map<string, Program>, n: string) {
    n in desired && desired[n].blocked
  }

  ghost function FirewallAfter(naming: Naming, firewall: set<FwRule>, desired: map<string, Program>): set<FwRule> {
    (set x | x in firewall && !(Listed(firewall, x.name) && !Wants(desired, x.name))) +
    (set n | n in desired && Wants(desired, n) && !Listed(firewall, n) :: FwRule(naming(desired[n].path), desired[n].path))
  }

  // ---- ASR values -----------------------------------------------------------------------------------

  function Code(action: string): nat {
    if action == "audit" then 2 else 1
  }

  function WantedActions(protections: seq<Protection>): map<string, string> {
    if protections == [] then map[]
    else
      var last := protections[|protections| - 1];
      WantedActions(protections[..|protections| - 1])[Upper(last.rule) := last.action]
  }

  predicate IsStale(key: string, want: map<string, string>) {
    key in CURATED && key !in want
  }

  /** Setting a value keeps the name it is stored under. */
  function SetValue(asr: map<string, AsrValue>, name: string, value: nat): map<string, AsrValue> {
    var key := Upper(name);
    asr[key := AsrValue(if key in asr then asr[key].name else name, value)]
  }

  function AsrAfter(asr: map<string, AsrValue>, want: map<string, string>): map<string, AsrValue> {
    map k | k in asr.Keys + want.Keys && !IsStale(k, want) ::
      if k in want then AsrValue(if k in asr then asr[k].name else k, Code(want[k])) else asr[k]
  }

  ghost predicate AsrOk(asr: map<string, AsrValue>) {
    forall k :: k in asr ==> Upper(asr[k].name) == k
  }

  // ---- One application ----------------------------------------------------------------------------------

  /** Case-insensitive comparison of paths. */
  predicate EqualFold(a: string, b: string) {
    Upper(a) == Upper(b)
  }

  /** Two paths are equal to the agent exactly if they differ in the case of letters only. */
  lemma {:induction false} EqualFoldIff(a: string, b: string)
    ensures EqualFold(a, b) <==> SameButCase(a, b)
  {
    UpperMeaning(a, b);
  }

  ghost predicate IsAgentImage(images: seq<string>, path: string) {
    exists i :: 0 <= i < |images| && EqualFold(path, images[i])
  }

  ghost predicate Refused(images: seq<string>, r: Fence) {
    exists i :: 0 <= i < |r.programs| && IsAgentImage(images, r.programs[i].path)
  }

  datatype Agent = Agent(images: seq<string>, applied: string, last: Fence, host: Host)

  /** A version that is already applied is skipped, a ringfence around the agent refused. */
  ghost function Apply(naming: Naming, a: Agent, r: Fence): (Agent, bool) {
    if a.applied == r.version && r.version != "" then (a, true)
    else if Refused(a.images, r) then (a, false)
    else
      (a.(applied := r.version, last := r,
          host := Host(FirewallAfter(naming, a.host.firewall, DesiredFor(naming, r)),
                       AsrAfter(a.host.asr, WantedActions(r.protections)))), true)
  }

  // ---- What a ringfence asks for ---------------------------------------------------------------------------

  /** The last entry for the path blocks it, and the ringfence is enforced. */
  ghost predicate Blocks(r: Fence, path: string) {
    && r.mode == "enforce"
    && exists i :: LastEntry(r.programs, i) && r.programs[i] == Program(path, true)
  }

  ghost predicate LastEntry(programs: seq<Program>, i: int) {
    0 <= i < |programs| && forall j :: i < j < |programs| ==> programs[j].path != programs[i].path
  }

  /** The firewall holds, among the rules with the prefix, exactly those for blocked paths. */
  ghost predicate NetworkExact(naming: Naming, firewall: set<FwRule>, r: Fence) {
    forall x :: IsOwn(x) ==> (x in firewall <==> (x.name == naming(x.program) && Blocks(r, x.program)))
  }

  ghost predicate LastFor(protections: seq<Protection>, i: int, key: string) {
    && 0 <= i < |protections| && Upper(protections[i].rule) == key
    && forall j :: i < j < |protections| ==> Upper(protections[j].rule) != key
  }

  /** The action of the last protection with this rule. */
  ghost predicate Protects(protections: seq<Protection>, key: string, action: string) {
    exists i :: LastFor(protections, i, key) && protections[i].action == action
  }

  /** Of the curated rules exactly the protections are set: to 2 to audit, to 1 to block. */
  ghost predicate AsrExact(asr: map<string, AsrValue>, r: Fence) {
    forall k :: k in CURATED ==>
      && (k in asr <==> exists action :: Protects(r.protections, k, action))
      && (k in asr ==> exists action :: Protects(r.protections, k, action) && asr[k].value == if action == "audit" then 2 else 1)
  }

  /** Rules with the prefix were made by this product. */
  ghost predicate OwnOk(naming: Naming, firewall: set<FwRule>) {
    forall x :: x in firewall && IsOwn(x) ==> x.name == naming(x.program)
  }

  /** A foreign rule whose name contains, past its start, the name of an own rule. */
  ghost predicate Shadowed(firewall: set<FwRule>, n: string) {
    exists x :: x in firewall && !IsOwn(x) && Find(x.name) == Some(n)
  }

  // ---- The firewall part -----------------------------------------------------------------------------------

  ghost predicate IsLast(programs: seq<Program>, p: Program) {
    exists i :: LastEntry(programs, i) && programs[i] == p
  }

  lemma {:induction false} LastStep(front: seq<Program>, last: Program, p: Program)
    ensures IsLast(front + [last], p) <==> if last.path == p.path then last == p else IsLast(front, p)
  {
    var n, programs := |front|, front + [last];
    assert forall j :: 0 <= j < n ==> front[j] == programs[j];
    if last.path == p.path {
      if i :| LastEntry(programs, i) && programs[i] == p {
        assert programs[n].path == p.path;
      }
      assert LastEntry(programs, n);
    } else {
      if i :| LastEntry(programs, i) && programs[i] == p {
        assert LastEntry(front, i) && front[i] == p;
      }
      if i :| LastEntry(front, i) && front[i] == p {
        assert LastEntry(programs, i) && programs[i] == p;
      }
    }
  }

  /** The map of wanted programs says what the list's last entries say. */
  lemma {:induction false} DesiredMeaning(naming: Naming, paths: set<string>, programs: seq<Program>, p: Program)
    requires TellsApart(naming, paths) && PathsIn(programs, paths) && p.path in paths
    ensures (naming(p.path) in Desired(naming, programs) && Desired(naming, programs)[naming(p.path)] == p) <==>
            IsLast(programs, p)
  {
    if programs != [] {
      var n := |programs| - 1;
      DesiredMeaning(naming, paths, programs[..n], p);
      LastStep(programs[..n], programs[n], p);
      assert programs == programs[..n] + [programs[n]];
      assert programs[n].path in paths;
    }
  }

  lemma {:induction false} DesiredKeys(naming: Naming, programs: seq<Program>, n: string)
    requires n in Desired(naming, programs)
    ensures n == naming(Desired(naming, programs)[n].path)
  {
    if programs != [] && n != naming(programs[|programs| - 1].path) {
      DesiredKeys(naming, programs[..|programs| - 1], n);
    }
  }

  lemma {:induction false} DesiredPaths(naming: Naming, programs: seq<Program>, paths: set<string>, n: string)
    requires PathsIn(programs, paths) && n in Desired(naming, programs)
    ensures Desired(naming, programs)[n].path in paths
  {
    if programs != [] && n != naming(programs[|programs| - 1].path) {
      DesiredPaths(naming, programs[..|programs| - 1], paths, n);
    } else {
      assert programs[|programs| - 1].path in paths;
    }
  }

  lemma {:induction false} WantsMeaning(naming: Naming, paths: set<string>, r: Fence, path: string)
    requires TellsApart(naming, paths) && PathsIn(r.programs, paths) && path in paths
    ensures Wants(DesiredFor(naming, r), naming(path)) <==> Blocks(r, path)
  {
    var desired, n := DesiredFor(naming, r), naming(path);
    if r.mode == "enforce" {
      DesiredMeaning(naming, paths, r.programs, Program(path, true));
      if Wants(desired, n) {
        DesiredKeys(naming, r.programs, n);
        DesiredPaths(naming, r.programs, paths, n);
        assert desired[n] == Program(path, true);
      }
    }
  }

  lemma {:induction false} OwnIsListed(naming: Naming, paths: set<string>, firewall: set<FwRule>, x: FwRule)
    requires IsNaming(naming) && TellsApart(naming, paths) && OwnOk(naming, firewall) && OwnPathsIn(firewall, paths)
    requires IsOwn(x) && x.name == naming(x.program) && x.program in paths
    ensures Find(x.name) == Some(x.name)
    ensures Listed(firewall, x.name) <==> x in firewall || Shadowed(firewall, x.name)
  {
    if y :| y in firewall && Find(y.name) == Some(x.name) {
      if IsOwn(y) {
        assert y.name == naming(y.program) && Trim(y.name) == y.name && y.program in paths;
        assert y == x;
      }
    }
  }

  lemma {:induction false} FoundStartsWithPrefix(name: string)
    requires Find(name).Some?
    ensures PREFIX <= Find(name).value
  {
    if PREFIX <= name {
      TrimKeepsStart(name);
    } else {
      FoundStartsWithPrefix(name[1..]);
    }
  }

  /** Trimming cannot cut into a prefix that holds no white space. */
  lemma {:induction false} TrimKeepsStart(name: string)
    requires PREFIX <= name
    ensures PREFIX <= Trim(name)
  {
    assert name[0] == 'F' && name[13] == '-';
    TrimRightKeeps(name, 13);
    assert TrimLeft(name) == name;
  }

  lemma {:induction false} TrimRightKeeps(s: string, i: nat)
    requires i < |s| && !IsSpace(s[i])
    ensures i < |TrimRight(s)|
  {
    if IsSpace(s[|s| - 1]) {
      assert s[..|s| - 1][i] == s[i];
      TrimRightKeeps(s[..|s| - 1], i);
    }
  }

  /** Foreign rules stay, and no other foreign rule appears. */
  lemma {:induction false} ForeignKept(naming: Naming, firewall: set<FwRule>, desired: map<string, Program>, x: FwRule)
    requires IsNaming(naming) && !IsOwn(x)
    ensures x in FirewallAfter(naming, firewall, desired) <==> x in firewall
  {
    if x in firewall && Listed(firewall, x.name) {
      var y :| y in firewall && Find(y.name) == Some(x.name);
      FoundStartsWithPrefix(y.name);
      assert false;
    }
  }

  ghost predicate IsAdded(naming: Naming, firewall: set<FwRule>, desired: map<string, Program>, x: FwRule) {
    exists n :: n in desired && Wants(desired, n) && !Listed(firewall, n) && FwRule(naming(desired[n].path), desired[n].path) == x
  }

  /** A rule is added exactly under the name of its program when that is wanted and not listed. */
  lemma {:induction false} AddedMeaning(naming: Naming, paths: set<string>, firewall: set<FwRule>, r: Fence, x: FwRule)
    requires TellsApart(naming, paths) && PathsIn(r.programs, paths)
    ensures IsAdded(naming, firewall, DesiredFor(naming, r), x) <==>
            (x.program in paths && x.name == naming(x.program) && Wants(DesiredFor(naming, r), x.name) && !Listed(firewall, x.name))
  {
    var desired := DesiredFor(naming, r);
    if n :| n in desired && Wants(desired, n) && !Listed(firewall, n) && FwRule(naming(desired[n].path), desired[n].path) == x {
      DesiredKeys(naming, r.programs, n);
      DesiredPaths(naming, r.programs, paths, n);
    }
    if x.program in paths && x.name == naming(x.program) && Wants(desired, x.name) {
      DesiredKeys(naming, r.programs, x.name);
      DesiredPaths(naming, r.programs, paths, x.name);
    }
  }

  /** An own rule is there afterwards exactly when it is wanted, and was there or is not shadowed. */
  lemma {:induction false} OwnAfter(naming: Naming, paths: set<string>, firewall: set<FwRule>, r: Fence, x: FwRule)
    requires IsNaming(naming) && TellsApart(naming, paths) && OwnOk(naming, firewall)
    requires OwnPathsIn(firewall, paths) && PathsIn(r.programs, paths) && IsOwn(x)
    ensures x in FirewallAfter(naming, firewall, DesiredFor(naming, r)) <==>
            (x.name == naming(x.program) && Blocks(r, x.program) && (x in firewall || !Shadowed(firewall, x.name)))
  {
    var desired := DesiredFor(naming, r);
    AddedMeaning(naming, paths, firewall, r, x);
    assert x in FirewallAfter(naming, firewall, desired) <==>
           (x in firewall && !(Listed(firewall, x.name) && !Wants(desired, x.name))) || IsAdded(naming, firewall, desired, x);
    if x.program in paths {
      if x.name == naming(x.program) {
        OwnIsListed(naming, paths, firewall, x);
        WantsMeaning(naming, paths, r, x.program);
      }
    } else {
      assert x !in firewall && !Blocks(r, x.program);
    }
  }

  /** One application leaves exactly the ringfence's rules if and only if no foreign rule's
      name hides the name of a rule that is still to be added. */
  lemma {:induction false} NetworkExactIff(naming: Naming, paths: set<string>, firewall: set<FwRule>, r: Fence)
    requires IsNaming(naming) && TellsApart(naming, paths) && OwnOk(naming, firewall)
    requires OwnPathsIn(firewall, paths) && PathsIn(r.programs, paths)
    ensures NetworkExact(naming, FirewallAfter(naming, firewall, DesiredFor(naming, r)), r) <==>
            forall path :: Blocks(r, path) && Shadowed(firewall, naming(path)) ==> FwRule(naming(path), path) in firewall
  {
    var after := FirewallAfter(naming, firewall, DesiredFor(naming, r));
    forall x | IsOwn(x)
      ensures x in after <==> (x.name == naming(x.program) && Blocks(r, x.program) && (x in firewall || !Shadowed(firewall, x.name)))
    {
      OwnAfter(naming, paths, firewall, r, x);
    }
    if NetworkExact(naming, after, r) {
      forall path | Blocks(r, path) && Shadowed(firewall, naming(path))
        ensures FwRule(naming(path), path) in firewall
      {
        var x := FwRule(naming(path), path);
        assert IsOwn(x) && x in after;
      }
    }
  }

  lemma {:induction false} FoundBehind(n: string)
    requires PREFIX <= n && Trim(n) == n
    ensures !(PREFIX <= "x" + n) && Find("x" + n) == Some(n)
  {
    var name := "x" + n;
    assert name[0] == 'x' && PREFIX[0] == 'F' && name[1..] == n;
  }

  /** A foreign rule that carries an own name inside its name keeps that rule from being added. */
  lemma {:induction false} ShadowHidesRule(naming: Naming)
    requires IsNaming(naming)
    ensures var firewall := {FwRule("x" + naming("p"), "q")};
      var r := Fence("v", "enforce", [Program("p", true)], []);
      OwnOk(naming, firewall) && !NetworkExact(naming, FirewallAfter(naming, firewall, DesiredFor(naming, r)), r)
  {
    var name := "x" + naming("p");
    var x := FwRule(name, "q");
    var r := Fence("v", "enforce", [Program("p", true)], []);
    FoundBehind(naming("p"));
    assert Shadowed({x}, naming("p"));
    assert LastEntry(r.programs, 0);
    assert Blocks(r, "p");
    NetworkExactIff(naming, {"p"}, {x}, r);
    assert FwRule(naming("p"), "p") !in {x};
  }

  // ---- The ASR part --------------------------------------------------------------------------------------

  lemma {:induction false} ProtectsStep(front: seq<Protection>, last: Protection, key: string, action: string)
    ensures Protects(front + [last], key, action) <==>
            if Upper(last.rule) == key then last.action == action else Protects(front, key, action)
  {
    var n, all := |front|, front + [last];
    assert forall j :: 0 <= j < n ==> front[j] == all[j];
    if Upper(last.rule) == key {
      if i :| LastFor(all, i, key) && all[i].action == action {
        assert all[n] == last;
      }
      assert LastFor(all, n, key);
    } else {
      if i :| LastFor(all, i, key) && all[i].action == action {
        assert LastFor(front, i, key) && front[i].action == action;
      }
      if i :| LastFor(front, i, key) && front[i].action == action {
        assert LastFor(all, i, key) && all[i].action == action;
      }
    }
  }

  lemma {:induction false} WantedMeaning(protections: seq<Protection>, key: string, action: string)
    ensures Protects(protections, key, action) <==>
            (key in WantedActions(protections) && WantedActions(protections)[key] == action)
  {
    if protections != [] {
      var n := |protections| - 1;
      WantedMeaning(protections[..n], key, action);
      ProtectsStep(protections[..n], protections[n], key, action);
      assert protections == protections[..n] + [protections[n]];
    }
  }

  /** The curated values become exactly the ringfence's. */
  lemma {:induction false} AsrBecomesExact(asr: map<string, AsrValue>, r: Fence)
    ensures AsrExact(AsrAfter(asr, WantedActions(r.protections)), r)
  {
    var want := WantedActions(r.protections);
    var after := AsrAfter(asr, want);
    forall k | k in CURATED
      ensures k in after <==> exists action :: Protects(r.protections, k, action)
      ensures k in after ==> exists action :: Protects(r.protections, k, action) && after[k].value == Code(action)
    {
      forall action
        ensures Protects(r.protections, k, action) <==> (k in want && want[k] == action)
      {
        WantedMeaning(r.protections, k, action);
      }
      if k in want {
        assert Protects(r.protections, k, want[k]);
      }
    }
  }

  ghost predicate AllCurated(r: Fence) {
    forall i :: 0 <= i < |r.protections| ==> Upper(r.protections[i].rule) in CURATED
  }

  /** Values outside the curated set are neither written nor deleted. */
  lemma {:induction false} AsrForeignKept(asr: map<string, AsrValue>, r: Fence, k: string)
    requires AllCurated(r) && k !in CURATED
    ensures var after := AsrAfter(asr, WantedActions(r.protections));
      (k in after <==> k in asr) && (k in asr ==> after[k] == asr[k])
  {
    if k in WantedActions(r.protections) {
      WantedMeaning(r.protections, k, WantedActions(r.protections)[k]);
    }
  }

  lemma {:induction false} UpperTwice(s: string)
    ensures Upper(Upper(s)) == Upper(s)
  {
  }

  lemma {:induction false} WantedKeys(protections: seq<Protection>, k: string)
    requires k in WantedActions(protections)
    ensures Upper(k) == k
  {
    var last := protections[|protections| - 1];
    UpperTwice(last.rule);
    if k != Upper(last.rule) {
      WantedKeys(protections[..|protections| - 1], k);
    }
  }

  lemma {:induction false} AsrKeysKept(asr: map<string, AsrValue>, protections: seq<Protection>)
    requires AsrOk(asr)
    ensures AsrOk(AsrAfter(asr, WantedActions(protections)))
  {
    var want := WantedActions(protections);
    forall k | k in want
      ensures Upper(k) == k
    {
      WantedKeys(protections, k);
    }
  }
}
