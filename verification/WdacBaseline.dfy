/** The signers that every policy trusts, and that they satisfy what the meaning theorem asks. */
module WdacBaseline {
  import opened WdacRules
  import opened Wdac
  import opened WdacMeaning

  const EKUS := [
    Eku("ID_EKU_WINDOWS", "010A2B0601040182370A0306"),
    Eku("ID_EKU_WHQL", "010A2B0601040182370A0305"),
    Eku("ID_EKU_ELAM", "010A2B0601040182373D0401"),
    Eku("ID_EKU_HAL_EXT", "010A2B0601040182373D0501"),
    Eku("ID_EKU_RT_EXT", "010A2B0601040182370A0315"),
    Eku("ID_EKU_STORE", "010A2B0601040182374C0301"),
    Eku("ID_EKU_DCODEGEN", "010A2B0601040182374C0501"),
    Eku("ID_EKU_AM", "010A2B0601040182374C0B01")
  ]

  /** Trusted in kernel mode. */
  const KERNEL_SIGNERS := [
    BaselineSigner("ID_SIGNER_WINDOWS_PRODUCTION", "Microsoft Product Root 2010 Windows EKU", WellKnown("06"), "ID_EKU_WINDOWS", true),
    BaselineSigner("ID_SIGNER_ELAM_PRODUCTION", "Microsoft Product Root 2010 ELAM EKU", WellKnown("06"), "ID_EKU_ELAM", true),
    BaselineSigner("ID_SIGNER_HAL_PRODUCTION", "Microsoft Product Root 2010 HAL EKU", WellKnown("06"), "ID_EKU_HAL_EXT", true),
    BaselineSigner("ID_SIGNER_WHQL_SHA2", "Microsoft Product Root 2010 WHQL EKU", WellKnown("06"), "ID_EKU_WHQL", true),
    BaselineSigner("ID_SIGNER_WHQL_SHA1", "Microsoft Product Root WHQL EKU SHA1", WellKnown("05"), "ID_EKU_WHQL", true),
    BaselineSigner("ID_SIGNER_WHQL_MD5", "Microsoft Product Root WHQL EKU MD5", WellKnown("04"), "ID_EKU_WHQL", true),
    BaselineSigner("ID_SIGNER_WINDOWS_FLIGHT_ROOT", "Microsoft Flighting Root 2014 Windows EKU", WellKnown("0E"), "ID_EKU_WINDOWS", true),
    BaselineSigner("ID_SIGNER_ELAM_FLIGHT", "Microsoft Flighting Root 2014 ELAM EKU", WellKnown("0E"), "ID_EKU_ELAM", true),
    BaselineSigner("ID_SIGNER_HAL_FLIGHT", "Microsoft Flighting Root 2014 HAL EKU", WellKnown("0E"), "ID_EKU_HAL_EXT", true),
    BaselineSigner("ID_SIGNER_WHQL_FLIGHT_SHA2", "Microsoft Flighting Root 2014 WHQL EKU", WellKnown("0E"), "ID_EKU_WHQL", true)
  ]

  /** The same signers in user mode. */
  const KERNEL_SIGNERS_IN_USER_MODE := [
    BaselineSigner("ID_SIGNER_WINDOWS_PRODUCTION_USER", "Microsoft Product Root 2010 Windows EKU", WellKnown("06"), "ID_EKU_WINDOWS", false),
    BaselineSigner("ID_SIGNER_ELAM_PRODUCTION_USER", "Microsoft Product Root 2010 ELAM EKU", WellKnown("06"), "ID_EKU_ELAM", false),
    BaselineSigner("ID_SIGNER_HAL_PRODUCTION_USER", "Microsoft Product Root 2010 HAL EKU", WellKnown("06"), "ID_EKU_HAL_EXT", false),
    BaselineSigner("ID_SIGNER_WHQL_SHA2_USER", "Microsoft Product Root 2010 WHQL EKU", WellKnown("06"), "ID_EKU_WHQL", false),
    BaselineSigner("ID_SIGNER_WHQL_SHA1_USER", "Microsoft Product Root WHQL EKU SHA1", WellKnown("05"), "ID_EKU_WHQL", false),
    BaselineSigner("ID_SIGNER_WHQL_MD5_USER", "Microsoft Product Root WHQL EKU MD5", WellKnown("04"), "ID_EKU_WHQL", false),
    BaselineSigner("ID_SIGNER_WINDOWS_FLIGHT_ROOT_USER", "Microsoft Flighting Root 2014 Windows EKU", WellKnown("0E"), "ID_EKU_WINDOWS", false),
    BaselineSigner("ID_SIGNER_ELAM_FLIGHT_USER", "Microsoft Flighting Root 2014 ELAM EKU", WellKnown("0E"), "ID_EKU_ELAM", false),
    BaselineSigner("ID_SIGNER_HAL_FLIGHT_USER", "Microsoft Flighting Root 2014 HAL EKU", WellKnown("0E"), "ID_EKU_HAL_EXT", false),
    BaselineSigner("ID_SIGNER_WHQL_FLIGHT_SHA2_USER", "Microsoft Flighting Root 2014 WHQL EKU", WellKnown("0E"), "ID_EKU_WHQL", false)
  ]

  /** Trusted in user mode only. */
  const USER_SIGNERS := [
    BaselineSigner("ID_SIGNER_STORE", "Microsoft MarketPlace PCA 2011", Tbs("FC9EDE3DCCA09186B2D3BF9B738A2050CB1A554DA2DCADB55F3F72EE17721378"), "ID_EKU_STORE", false),
    BaselineSigner("ID_SIGNER_STORE_FLIGHT_ROOT", "Microsoft Flighting Root 2014 Store EKU", WellKnown("0E"), "ID_EKU_STORE", false),
    BaselineSigner("ID_SIGNER_RT_PRODUCTION", "Microsoft Product Root 2010 RT EKU", WellKnown("06"), "ID_EKU_RT_EXT", false),
    BaselineSigner("ID_SIGNER_RT_FLIGHT", "Microsoft Flighting Root 2014 RT EKU", WellKnown("0E"), "ID_EKU_RT_EXT", false),
    BaselineSigner("ID_SIGNER_RT_STANDARD", "Microsoft Standard Root 2011 RT EKU", WellKnown("07"), "ID_EKU_RT_EXT", false),
    BaselineSigner("ID_SIGNER_DRM", "Microsoft DMD Root 2005", WellKnown("0C"), "", false),
    BaselineSigner("ID_SIGNER_DCODEGEN", "Microsoft Product Root 2010 Dynamic Code Generation EKU", WellKnown("06"), "ID_EKU_DCODEGEN", false),
    BaselineSigner("ID_SIGNER_AM", "Microsoft Standard Root 2011 AntiMalware EKU", WellKnown("07"), "ID_EKU_AM", false)
  ]

  const SIGNERS := KERNEL_SIGNERS + KERNEL_SIGNERS_IN_USER_MODE + USER_SIGNERS

  /** The place of an id in the table, read off its length and one of its letters. */
  function Position(id: string): int {
    var n := |id|;
    if n == 12 then 27
    else if n == 13 then 25
    else if n == 15 then 20
    else if n == 18 then (if id[10] == 'W' then 5 else 26)
    else if n == 19 then (if id[18] == '2' then 3 else if id[18] == '1' then 4 else 23)
    else if n == 20 then 8
    else if n == 21 then (if id[10] == 'E' then 7 else 24)
    else if n == 23 then (if id[10] == 'W' then 15 else 22)
    else if n == 24 then (if id[18] == 'U' then 2 else if id[18] == '2' then 13 else 14)
    else if n == 25 then (if id[10] == 'E' then 1 else 18)
    else if n == 26 then (if id[10] == 'W' then 9 else 17)
    else if n == 27 then 21
    else if n == 28 then 0
    else if n == 29 then (if id[10] == 'W' then 6 else 12)
    else if n == 30 then 11
    else if n == 31 then 19
    else if n == 33 then 10
    else if n == 34 then 16
    else -1
  }

  /** A signer stands where its id says. */
  ghost predicate Placed(s: BaselineSigner, i: int) {
    Position(s.id) == i && |s.id| > 10 && s.id[3] == 'S' && s.id[10] != 'P'
  }

  /** The usage a signer requires is declared. */
  ghost predicate Declared(s: BaselineSigner) {
    s.eku != "" ==> exists e :: e in EKUS && e.id == s.eku
  }

  lemma {:induction false} KernelPlaced(i: nat)
    requires i < |KERNEL_SIGNERS|
    ensures Placed(KERNEL_SIGNERS[i], i)
  {
  }

  lemma {:induction false} KernelDeclared(i: nat)
    requires i < |KERNEL_SIGNERS|
    ensures Declared(KERNEL_SIGNERS[i])
  {
    if i == 0 || i == 6 {
      assert EKUS[0] in EKUS;
    } else if i == 1 || i == 7 {
      assert EKUS[2] in EKUS;
    } else if i == 2 || i == 8 {
      assert EKUS[3] in EKUS;
    } else {
      assert EKUS[1] in EKUS;
    }
  }

  lemma {:induction false} SameUsage(i: nat)
    requires i < |KERNEL_SIGNERS|
    ensures KERNEL_SIGNERS_IN_USER_MODE[i].eku == KERNEL_SIGNERS[i].eku
  {
  }

  lemma {:induction false} KernelInUserModePlaced(i: nat)
    requires i < |KERNEL_SIGNERS_IN_USER_MODE|
    ensures Placed(KERNEL_SIGNERS_IN_USER_MODE[i], 10 + i)
  {
    if i < 2 {
      FirstInUserModePlaced(i);
    } else if i < 4 {
      SecondInUserModePlaced(i);
    } else if i < 7 {
      NextInUserModePlaced(i);
    } else {
      LastInUserModePlaced(i);
    }
  }

  lemma {:induction false} FirstInUserModePlaced(i: nat)
    requires i < 2
    ensures Placed(KERNEL_SIGNERS_IN_USER_MODE[i], 10 + i)
  {
  }

  lemma {:induction false} SecondInUserModePlaced(i: nat)
    requires 2 <= i < 4
    ensures Placed(KERNEL_SIGNERS_IN_USER_MODE[i], 10 + i)
  {
  }

  lemma {:induction false} NextInUserModePlaced(i: nat)
    requires 4 <= i < 7
    ensures Placed(KERNEL_SIGNERS_IN_USER_MODE[i], 10 + i)
  {
  }

  lemma {:induction false} LastInUserModePlaced(i: nat)
    requires 7 <= i < 10
    ensures Placed(KERNEL_SIGNERS_IN_USER_MODE[i], 10 + i)
  {
  }

  lemma {:induction false} UserPlaced(i: nat)
    requires i < |USER_SIGNERS|
    ensures Placed(USER_SIGNERS[i], 20 + i)
  {
  }

  lemma {:induction false} UserDeclared(i: nat)
    requires i < |USER_SIGNERS|
    ensures Declared(USER_SIGNERS[i])
  {
    if i < 2 {
      assert EKUS[5] in EKUS;
    } else if i < 5 {
      assert EKUS[4] in EKUS;
    } else if i == 6 {
      assert EKUS[6] in EKUS;
    } else {
      assert EKUS[7] in EKUS;
    }
  }

  lemma {:induction false} TablePlaced(i: nat)
    requires i < |SIGNERS|
    ensures Placed(SIGNERS[i], i) && Declared(SIGNERS[i])
  {
    if i < 10 {
      KernelPlaced(i);
      KernelDeclared(i);
    } else if i < 20 {
      KernelInUserModePlaced(i - 10);
      KernelDeclared(i - 10);
      SameUsage(i - 10);
    } else {
      UserPlaced(i - 20);
      UserDeclared(i - 20);
    }
  }

  /** The table's ids are distinct and clear of the generated ones, and its references resolve. */
  lemma {:induction false} BaselineIsOk()
    ensures BaselineOk(SIGNERS, EKUS)
  {
    forall i | 0 <= i < |SIGNERS|
      ensures Placed(SIGNERS[i], i) && Declared(SIGNERS[i])
    {
      TablePlaced(i);
    }
    assert SIGNERS[20] == USER_SIGNERS[0];
  }

  /** With the built-in signers: user mode allows them and what some rule names, kernel mode
      only the kernel signers. */
  lemma {:induction false} StandardPolicyMeaning(audit: bool, rules: seq<Rule>, sorted: seq<Rule>, f: Image, pm: PathMatch)
    requires NormalizeAll(rules).Some? && Arranges(sorted, NormalizeAll(rules).value)
    ensures var p := Emit(SIGNERS, EKUS, audit, sorted);
      && (UserAllows(p, f, pm) <==> (BaselineAllows(SIGNERS, EKUS, false, f) || Named(rules, f, pm)))
      && (KernelAllows(p, f) <==> BaselineAllows(SIGNERS, EKUS, true, f))
  {
    BaselineIsOk();
    CompiledMeaning(SIGNERS, EKUS, audit, rules, sorted, f, pm);
  }
}
