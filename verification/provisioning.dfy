/**
First-login provisioning under interleaving: lookup, claim gate, code probes and
upsert are separate statements, and any number of logins run at once
(src/auth_api.rs:56-132).

The upsert is two steps, as PostgreSQL runs it. It first looks for a row in the
way of its conflict target, the subject. Finding none it inserts, and the insert
meets the unique indexes in the order of the table's declaration: the code's, which
is no conflict target and fails it, then the subject's, which sends it back to look
again (db/migrations/ods/oms/0001_CREATE_PRINCIPAL_TABLE.sql:1-6).
*/
module Provisioning {
  import opened Wrappers
  import AuthApi

  type PrincipalId = nat
  type LoginId = nat

  datatype Kind = Human | Service | Strategy | Desk
  datatype Status = Active | Disabled

  datatype Principal = Principal(code: string, kind: Kind, status: Status, subject: Option<string>,
      displayName: Option<string>) {
    predicate MayLogIn() { kind.Human? && status.Active? }
  }

  // A verified identity, and whether it satisfies the configured claim (it does
  // when none is configured).
  datatype Identity = Identity(subject: string, email: Option<string>, displayName: Option<string>, claimOk: bool)

  // The part of an address before its first '@', if there is any.
  function LocalPart(email: string): string {
    if email == "" || email[0] == '@' then "" else [email[0]] + LocalPart(email[1..])
  }

  lemma {:induction false} LocalPartEnds(email: string)
    ensures '@' !in LocalPart(email) && LocalPart(email) <= email
    ensures LocalPart(email) == email || email[|LocalPart(email)|] == '@'
  {
    if email != "" && email[0] != '@' {
      LocalPartEnds(email[1..]);
    }
  }

  function CodeSeed(i: Identity): string {
    if i.email.Some? && LocalPart(i.email.value) != "" then LocalPart(i.email.value)
    else i.displayName.GetOr(i.subject)
  }

  lemma {:induction false} LocalPartOf(local: string, rest: string)
    requires '@' !in local && (rest == "" || rest[0] == '@')
    ensures LocalPart(local + rest) == local
  {
    if local == "" {
      assert local + rest == rest;
    } else {
      LocalPartOf(local[1..], rest);
      assert (local + rest)[1..] == local[1..] + rest;
    }
  }

  /** The seed is an address's part before its first at-sign, where there is one; else the
      display name, and the subject of an identity that has none. */
  lemma SeedOf(i: Identity, local: string, rest: string)
    requires '@' !in local && (rest == "" || rest[0] == '@')
    requires i.email.Some? ==> i.email.value == local + rest
    ensures CodeSeed(i) == if i.email.Some? && local != "" then local
                           else if i.displayName.Some? then i.displayName.value else i.subject
  {
    LocalPartOf(local, rest);
  }

  datatype Outcome =
    | Resolved(id: PrincipalId, code: string)
    | ClaimRejected
    | SubjectNotAvailable
    // the insert lost the race for its code: a database error
    | CodeTaken

  datatype Phase =
    | Lookup
    | Gate
    | Probing(suffix: nat)
    | Naming(code: string)
    | Inserting(code: string)
    | Done(outcome: Outcome)

  {
    predicate Named() { Naming? || Inserting? }
  }

  datatype Login = Login(identity: Identity, phase: Phase)

  datatype State = State(principals: map<PrincipalId, Principal>, logins: map<LoginId, Login>)

  // UNIQUE (external_subject), UNIQUE (code)
  predicate Unique(principals: map<PrincipalId, Principal>) {
    && (forall p, q | p in principals && q in principals && principals[p].subject.Some?
                      && principals[p].subject == principals[q].subject :: p == q)
    && (forall p, q | p in principals && q in principals && principals[p].code == principals[q].code :: p == q)
  }

  predicate HoldsSubject(principals: map<PrincipalId, Principal>, p: PrincipalId, subject: string) {
    p in principals && principals[p].subject == Some(subject)
  }

  predicate Free(principals: map<PrincipalId, Principal>, code: string) {
    forall p | p in principals :: principals[p].code != code
  }

  ghost predicate Taken(principals: map<PrincipalId, Principal>, subject: string) {
    exists p :: HoldsSubject(principals, p, subject)
  }

  // `CheckConflict` gives the row its conflict target finds, if any.
  datatype Step =
    | Begin(login: LoginId, identity: Identity)
    | FindExisting(login: LoginId, found: Option<PrincipalId>)
    | CheckClaim(login: LoginId)
    | Probe(login: LoginId)
    | CheckConflict(login: LoginId, conflict: Option<PrincipalId>)
    | Insert(login: LoginId, newId: PrincipalId)
    | AdminCreate(id: PrincipalId, principal: Principal)

  predicate At(s: State, l: LoginId) {
    l in s.logins
  }

  ghost predicate Enabled(s: State, step: Step) {
    match step
    case Begin(l, _) => l !in s.logins
    case FindExisting(l, found) =>
      && At(s, l) && s.logins[l].phase.Lookup?
      && (match found
          case Some(p) => HoldsSubject(s.principals, p, s.logins[l].identity.subject) && s.principals[p].MayLogIn()
          case None =>
            forall p :: HoldsSubject(s.principals, p, s.logins[l].identity.subject) ==> !s.principals[p].MayLogIn())
    case CheckClaim(l) => At(s, l) && s.logins[l].phase.Gate?
    case Probe(l) => At(s, l) && s.logins[l].phase.Probing?
    case CheckConflict(l, conflict) =>
      && At(s, l) && s.logins[l].phase.Naming?
      && (match conflict
          case Some(p) => HoldsSubject(s.principals, p, s.logins[l].identity.subject)
          case None => !Taken(s.principals, s.logins[l].identity.subject))
    case Insert(l, newId) => At(s, l) && s.logins[l].phase.Inserting? && newId !in s.principals
    case AdminCreate(p, principal) => p !in s.principals && Unique(s.principals[p := principal])
  }

  function Goes(s: State, l: LoginId, phase: Phase): map<LoginId, Login>
    requires l in s.logins
  {
    s.logins[l := s.logins[l].(phase := phase)]
  }

  ghost function Do(s: State, step: Step): State
    requires Enabled(s, step)
  {
    match step
    case Begin(l, i) => s.(logins := s.logins[l := Login(i, Lookup)])
    case FindExisting(l, found) =>
      s.(logins := Goes(s, l,
           if found.Some? then Done(Resolved(found.value, s.principals[found.value].code)) else Gate))
    case CheckClaim(l) =>
      s.(logins := Goes(s, l, if s.logins[l].identity.claimOk then Probing(1) else Done(ClaimRejected)))
    case Probe(l) =>
      var code := AuthApi.Candidate(AuthApi.Base(CodeSeed(s.logins[l].identity)), s.logins[l].phase.suffix);
      s.(logins := Goes(s, l, if Free(s.principals, code) then Naming(code) else Probing(s.logins[l].phase.suffix + 1)))
    case CheckConflict(l, conflict) =>
      (match conflict
       case Some(p) =>
         // ON CONFLICT (external_subject) DO UPDATE ... WHERE human and active
         if s.principals[p].MayLogIn()
         then State(s.principals[p := s.principals[p].(displayName := s.logins[l].identity.displayName)],
                    Goes(s, l, Done(Resolved(p, s.principals[p].code))))
         else s.(logins := Goes(s, l, Done(SubjectNotAvailable)))
       case None => s.(logins := Goes(s, l, Inserting(s.logins[l].phase.code))))
    case Insert(l, newId) =>
      var i, code := s.logins[l].identity, s.logins[l].phase.code;
      if !Free(s.principals, code) then s.(logins := Goes(s, l, Done(CodeTaken)))
      else if Taken(s.principals, i.subject) then s.(logins := Goes(s, l, Naming(code)))
      else State(s.principals[newId := Principal(code, Human, Active, Some(i.subject), i.displayName)],
                 Goes(s, l, Done(Resolved(newId, code))))
    case AdminCreate(p, principal) => s.(principals := s.principals[p := principal])
  }

  // ---- what holds throughout --------------------------------------------------------------

  // A resolved login names the row that holds its subject.
  predicate ResolvedRight(principals: map<PrincipalId, Principal>, l: Login) {
    l.phase.Done? && l.phase.outcome.Resolved? ==>
      && HoldsSubject(principals, l.phase.outcome.id, l.identity.subject)
      && principals[l.phase.outcome.id].MayLogIn()
      && principals[l.phase.outcome.id].code == l.phase.outcome.code
  }

  predicate Inv(s: State) {
    Unique(s.principals) && forall l | l in s.logins :: ResolvedRight(s.principals, s.logins[l])
  }

  // No row goes, and of one that is there only a human's display name changes.
  predicate RowsStay(before: map<PrincipalId, Principal>, after: map<PrincipalId, Principal>) {
    forall p | p in before ::
      && p in after
      && after[p] == (if before[p].MayLogIn() then before[p].(displayName := after[p].displayName) else before[p])
  }

  lemma NewRowKeepsUnique(principals: map<PrincipalId, Principal>, p: PrincipalId, row: Principal)
    requires Unique(principals) && p !in principals && row.subject.Some?
    requires Free(principals, row.code) && forall q :: !HoldsSubject(principals, q, row.subject.value)
    ensures Unique(principals[p := row])
  {
    forall q | q in principals ensures principals[q].subject != row.subject {
      assert !HoldsSubject(principals, q, row.subject.value);
    }
  }

  lemma RenamedKeepsUnique(principals: map<PrincipalId, Principal>, p: PrincipalId, name: Option<string>)
    requires Unique(principals) && p in principals
    ensures Unique(principals[p := principals[p].(displayName := name)])
  {}

  lemma StepKeepsUnique(s: State, step: Step)
    requires Unique(s.principals) && Enabled(s, step)
    ensures Unique(Do(s, step).principals)
  {
    hide Unique, Free;
    if step.CheckConflict? && step.conflict.Some? {
      RenamedKeepsUnique(s.principals, step.conflict.value, s.logins[step.login].identity.displayName);
    } else if step.Insert? {
      var i, code := s.logins[step.login].identity, s.logins[step.login].phase.code;
      if Free(s.principals, code) && !Taken(s.principals, i.subject) {
        NewRowKeepsUnique(s.principals, step.newId, Principal(code, Human, Active, Some(i.subject), i.displayName));
      }
    }
  }

  lemma StepKeepsInv(s: State, step: Step)
    requires Inv(s) && Enabled(s, step)
    ensures Inv(Do(s, step)) && RowsStay(s.principals, Do(s, step).principals)
  {
    hide Unique, Free;
    StepKeepsUnique(s, step);
    var s' := Do(s, step);
    forall l | l in s'.logins ensures ResolvedRight(s'.principals, s'.logins[l]) {
      if l in s.logins { assert ResolvedRight(s.principals, s.logins[l]); }
    }
  }

  ghost function After(init: State, steps: seq<Step>): Option<State>
    decreases |steps|
  {
    if steps == [] then Some(init)
    else
      var before := After(init, steps[..|steps| - 1]);
      if before.Some? && Enabled(before.value, steps[|steps| - 1])
      then Some(Do(before.value, steps[|steps| - 1])) else None
  }

  lemma {:induction false} RunKeepsInv(init: State, steps: seq<Step>)
    requires Unique(init.principals) && init.logins == map[] && After(init, steps).Some?
    ensures Inv(After(init, steps).value) && RowsStay(init.principals, After(init, steps).value.principals)
    decreases |steps|
  {
    if steps != [] {
      RunKeepsInv(init, steps[..|steps| - 1]);
      StepKeepsInv(After(init, steps[..|steps| - 1]).value, steps[|steps| - 1]);
    }
  }

  /** However logins interleave: all that resolve a subject resolve it to one
      principal and one code, the row that holds the subject, an active human. */
  lemma OnePrincipalPerSubject(init: State, steps: seq<Step>, l: LoginId, m: LoginId)
    requires Unique(init.principals) && init.logins == map[] && After(init, steps).Some?
    requires var s := After(init, steps).value;
             && l in s.logins && m in s.logins && s.logins[l].identity.subject == s.logins[m].identity.subject
             && s.logins[l].phase.Done? && s.logins[l].phase.outcome.Resolved?
             && s.logins[m].phase.Done? && s.logins[m].phase.outcome.Resolved?
    ensures var s := After(init, steps).value;
            && s.logins[l].phase.outcome == s.logins[m].phase.outcome
            && HoldsSubject(s.principals, s.logins[l].phase.outcome.id, s.logins[l].identity.subject)
            && s.principals[s.logins[l].phase.outcome.id].MayLogIn()
  {
    RunKeepsInv(init, steps);
    var s := After(init, steps).value;
    assert ResolvedRight(s.principals, s.logins[l]) && ResolvedRight(s.principals, s.logins[m]);
  }

  lemma {:induction false} RowsStaySince(init: State, steps: seq<Step>, n: nat)
    requires Unique(init.principals) && init.logins == map[] && After(init, steps).Some? && n <= |steps|
    ensures After(init, steps[..n]).Some?
    ensures RowsStay(After(init, steps[..n]).value.principals, After(init, steps).value.principals)
    decreases |steps|
  {
    if n == |steps| {
      assert steps[..n] == steps;
    } else {
      var before := steps[..|steps| - 1];
      RowsStaySince(init, before, n);
      assert before[..n] == steps[..n];
      RunKeepsInv(init, before);
      StepKeepsInv(After(init, before).value, steps[|steps| - 1]);
    }
  }

  /** From any point of a run on, no row that is there -- from the start, or created
      since -- is touched unless it is an active human's, and of one that is only the
      display name; one row at most holds a subject or a code. */
  lemma OthersAreUntouched(init: State, steps: seq<Step>, n: nat, p: PrincipalId)
    requires Unique(init.principals) && init.logins == map[] && After(init, steps).Some?
    requires n <= |steps| && After(init, steps[..n]).Some? && p in After(init, steps[..n]).value.principals
    ensures var before, after := After(init, steps[..n]).value.principals, After(init, steps).value.principals;
            && Unique(after) && p in after
            && after[p].code == before[p].code && after[p].kind == before[p].kind
            && after[p].status == before[p].status && after[p].subject == before[p].subject
            && (!before[p].MayLogIn() ==> after[p] == before[p])
  {
    RunKeepsInv(init, steps);
    RowsStaySince(init, steps, n);
  }

  // ---- the claim gate and the code --------------------------------------------------------

  function NthCode(i: Identity, k: nat): string {
    AuthApi.Candidate(AuthApi.Base(CodeSeed(i)), k)
  }

  // The candidates before the k-th are all taken.
  ghost predicate FirstTaken(principals: map<PrincipalId, Principal>, i: Identity, k: nat) {
    forall j | 1 <= j < k :: !Free(principals, NthCode(i, j))
  }

  // A login past the gate satisfies the claim, and has passed over taken codes only;
  // one the gate rejected does not satisfy it.
  ghost predicate Gated(principals: map<PrincipalId, Principal>, l: Login) {
    match l.phase
    case Probing(k) => l.identity.claimOk && 1 <= k && FirstTaken(principals, l.identity, k)
    case Naming(code) => l.identity.claimOk && NextCode(principals, l.identity, code)
    case Inserting(code) => l.identity.claimOk && NextCode(principals, l.identity, code)
    case Done(outcome) =>
      && (outcome.CodeTaken? || outcome.SubjectNotAvailable? ==> l.identity.claimOk)
      && (outcome.ClaimRejected? ==> !l.identity.claimOk)
    case _ => true
  }

  // One of the candidates, with all those before it taken.
  ghost predicate NextCode(principals: map<PrincipalId, Principal>, i: Identity, code: string) {
    exists k: nat :: 1 <= k && code == NthCode(i, k) && FirstTaken(principals, i, k)
  }

  ghost predicate AllGated(s: State) {
    forall l | l in s.logins :: Gated(s.principals, s.logins[l])
  }

  lemma TakenStays(before: map<PrincipalId, Principal>, after: map<PrincipalId, Principal>, code: string)
    requires RowsStay(before, after) && !Free(before, code)
    ensures !Free(after, code)
  {
    var p :| p in before && before[p].code == code;
    assert p in after && after[p].code == code;
  }

  lemma GatedStays(before: map<PrincipalId, Principal>, after: map<PrincipalId, Principal>, l: Login)
    requires RowsStay(before, after) && Gated(before, l)
    ensures Gated(after, l)
  {
    hide RowsStay, Free, NthCode;
    forall k: nat, j: nat | FirstTaken(before, l.identity, k) && 1 <= j < k
      ensures !Free(after, NthCode(l.identity, j))
    {
      TakenStays(before, after, NthCode(l.identity, j));
    }
    assert forall k: nat :: FirstTaken(before, l.identity, k) ==> FirstTaken(after, l.identity, k);
  }

  lemma ProbeGates(principals: map<PrincipalId, Principal>, i: Identity, k: nat)
    requires 1 <= k && FirstTaken(principals, i, k)
    ensures Free(principals, NthCode(i, k)) ==> NextCode(principals, i, NthCode(i, k))
    ensures !Free(principals, NthCode(i, k)) ==> FirstTaken(principals, i, k + 1)
  {
    hide Free, NthCode;
  }

  // Before what the step does to the rows.
  lemma StepGates(s: State, step: Step, l: LoginId)
    requires Enabled(s, step) && l in Do(s, step).logins && (l in s.logins ==> Gated(s.principals, s.logins[l]))
    ensures Gated(s.principals, Do(s, step).logins[l])
  {
    if step.Probe? && step.login == l {
      ProbeGates(s.principals, s.logins[l].identity, s.logins[l].phase.suffix);
    }
    if step.CheckClaim? && step.login == l {
      assert FirstTaken(s.principals, s.logins[l].identity, 1);
    }
    hide FirstTaken, NextCode, Free, Taken;
  }

  lemma StepKeepsGated(s: State, step: Step)
    requires Inv(s) && AllGated(s) && Enabled(s, step)
    ensures AllGated(Do(s, step))
  {
    StepKeepsInv(s, step);
    var s' := Do(s, step);
    hide Gated, RowsStay, Inv, Do, Enabled;
    forall l | l in s'.logins ensures Gated(s'.principals, s'.logins[l]) {
      StepGates(s, step, l);
      GatedStays(s.principals, s'.principals, s'.logins[l]);
    }
  }

  lemma {:induction false} RunKeepsGated(init: State, steps: seq<Step>)
    requires Unique(init.principals) && init.logins == map[] && After(init, steps).Some?
    ensures AllGated(After(init, steps).value)
    decreases |steps|
  {
    hide AllGated, Inv, RowsStay, Do, Enabled;
    if steps == [] {
      NoneGated(init);
    } else {
      RunKeepsGated(init, steps[..|steps| - 1]);
      RunKeepsInv(init, steps[..|steps| - 1]);
      StepKeepsGated(After(init, steps[..|steps| - 1]).value, steps[|steps| - 1]);
    }
  }

  lemma NoneGated(s: State)
    requires s.logins == map[]
    ensures AllGated(s)
  {}

  /** In every run a new row comes only from an administrator, or from the insert of a
      login that satisfies the claim, found its subject free, and takes the first free
      of the codes made from its seed. */
  lemma OnlyInsertsCreate(init: State, steps: seq<Step>, step: Step, p: PrincipalId)
    requires Unique(init.principals) && init.logins == map[] && After(init, steps).Some?
    requires Enabled(After(init, steps).value, step) && !step.AdminCreate?
    requires var s := After(init, steps).value; p in Do(s, step).principals && p !in s.principals
    ensures step.Insert? && step.login in After(init, steps).value.logins
    ensures var s := After(init, steps).value;
            var i := s.logins[step.login].identity;
            && i.claimOk && !Taken(s.principals, i.subject)
            && (exists k: nat :: 1 <= k && FirstTaken(s.principals, i, k) && Free(s.principals, NthCode(i, k))
                  && Do(s, step).principals[p]
                     == Principal(NthCode(i, k), Human, Active, Some(i.subject), i.displayName))
            && Do(s, step).logins[step.login].phase == Done(Resolved(p, Do(s, step).principals[p].code))
  {
    RunKeepsGated(init, steps);
    var s := After(init, steps).value;
    assert step.Insert?;
    assert Gated(s.principals, s.logins[step.login]);
    hide Gated, Taken;
  }

  // The login's own lookup found the row.
  ghost predicate FoundAt(init: State, steps: seq<Step>, n: nat, l: LoginId, p: PrincipalId) {
    && n < |steps| && steps[n] == FindExisting(l, Some(p)) && After(init, steps[..n]).Some?
    && var s := After(init, steps[..n]).value;
    && l in s.logins && HoldsSubject(s.principals, p, s.logins[l].identity.subject) && s.principals[p].MayLogIn()
  }

  ghost predicate Found(init: State, steps: seq<Step>, l: LoginId, p: PrincipalId) {
    exists n: nat :: FoundAt(init, steps, n, l, p)
  }

  lemma FoundStays(init: State, steps: seq<Step>, step: Step, l: LoginId, p: PrincipalId)
    requires Found(init, steps, l, p)
    ensures Found(init, steps + [step], l, p)
  {
    hide After;
    var n: nat :| FoundAt(init, steps, n, l, p);
    assert (steps + [step])[..n] == steps[..n];
    assert FoundAt(init, steps + [step], n, l, p);
  }

  /** In every run a login that does not satisfy the claim gets nowhere: it is looking,
      at the gate or rejected, or its own lookup found the row it resolved to. One that
      satisfies it is never rejected. */
  lemma {:induction false} ClaimIsTheGate(init: State, steps: seq<Step>, l: LoginId)
    requires Unique(init.principals) && init.logins == map[] && After(init, steps).Some?
    requires l in After(init, steps).value.logins
    ensures var login := After(init, steps).value.logins[l];
            if login.identity.claimOk then login.phase != Done(ClaimRejected)
            else
              || login.phase.Lookup? || login.phase.Gate? || login.phase == Done(ClaimRejected)
              || (login.phase.Done? && login.phase.outcome.Resolved?
                  && Found(init, steps, l, login.phase.outcome.id))
    decreases |steps|
  {
    RunKeepsGated(init, steps);
    var s := After(init, steps).value;
    assert Gated(s.principals, s.logins[l]);
    var before, step := steps[..|steps| - 1], steps[|steps| - 1];
    assert steps == before + [step];
    var s0 := After(init, before).value;
    hide Gated, AllGated, Unique, Free, Taken;
    if l in s0.logins && !s.logins[l].identity.claimOk {
      ClaimIsTheGate(init, before, l);
      if s0.logins[l].phase.Done? {
        if s0.logins[l].phase.outcome.Resolved? {
          FoundStays(init, before, step, l, s0.logins[l].phase.outcome.id);
        }
      } else if step.FindExisting? && step.login == l && step.found.Some? {
        assert FoundAt(init, steps, |before|, l, step.found.value);
      }
    }
  }

  // ---- a login by itself --------------------------------------------------------------

  lemma Then(init: State, steps: seq<Step>, s: State, step: Step)
    requires After(init, steps) == Some(s) && Enabled(s, step)
    ensures After(init, steps + [step]) == Some(Do(s, step))
  {
    assert (steps + [step])[..|steps|] == steps;
  }

  function Codes(principals: map<PrincipalId, Principal>): set<string> {
    set p | p in principals :: principals[p].code
  }

  // The probes of a login that has passed over the first k - 1 candidates.
  lemma ProbesOn(init: State, steps: seq<Step>, s: State, l: LoginId, k: nat)
    returns (steps': seq<Step>, s': State, n: nat)
    requires After(init, steps) == Some(s) && l in s.logins && s.logins[l].phase == Probing(k)
    requires 1 <= k && FirstTaken(s.principals, s.logins[l].identity, k)
    ensures After(init, steps') == Some(s') && s' == s.(logins := s'.logins)
    ensures 1 <= n && FirstTaken(s.principals, s.logins[l].identity, n)
    ensures Free(s.principals, NthCode(s.logins[l].identity, n))
    ensures s'.logins == s.logins[l := Login(s.logins[l].identity, Naming(NthCode(s.logins[l].identity, n)))]
    decreases |Codes(s.principals)| + 1 - k
  {
    var i := s.logins[l].identity;
    Then(init, steps, s, Probe(l));
    var p1, s1 := steps + [Probe(l)], Do(s, Probe(l));
    if Free(s.principals, NthCode(i, k)) {
      return p1, s1, k;
    }
    ProbeGates(s.principals, i, k);
    CandidatesUsedUp(s.principals, i, k);
    steps', s', n := ProbesOn(init, p1, s1, l, k + 1);
  }

  lemma CandidatesUsedUp(principals: map<PrincipalId, Principal>, i: Identity, k: nat)
    requires FirstTaken(principals, i, k + 1)
    ensures k <= |Codes(principals)|
  {
    hide *;
    var base := AuthApi.Base(CodeSeed(i));
    forall j | 1 <= j <= k ensures AuthApi.Candidate(base, j) in Codes(principals) {
      CandidateUsed(principals, i, k, j);
    }
    AuthApi.TakenCandidates(Codes(principals), base, k);
  }

  lemma CandidateUsed(principals: map<PrincipalId, Principal>, i: Identity, k: nat, j: nat)
    requires FirstTaken(principals, i, k + 1) && 1 <= j <= k
    ensures AuthApi.Candidate(AuthApi.Base(CodeSeed(i)), j) in Codes(principals)
  {
    assert !Free(principals, NthCode(i, j));
  }

  predicate ActiveHuman(p: Principal) {
    p.kind == Human && p.status == Active
  }

  // What a login by itself comes to, and the rows it leaves.
  ghost predicate ComesTo(before: map<PrincipalId, Principal>, i: Identity, outcome: Outcome,
      after: map<PrincipalId, Principal>)
  {
    if exists p :: HoldsSubject(before, p, i.subject) && ActiveHuman(before[p]) then
      && after == before
      && outcome.Resolved? && HoldsSubject(before, outcome.id, i.subject) && ActiveHuman(before[outcome.id])
      && outcome.code == before[outcome.id].code
    else if !i.claimOk then after == before && outcome == ClaimRejected
    else if Taken(before, i.subject) then after == before && outcome == SubjectNotAvailable
    else
      && outcome.Resolved? && outcome.id !in before
      && (exists k: nat :: 1 <= k && FirstTaken(before, i, k) && Free(before, NthCode(i, k))
                           && outcome.code == NthCode(i, k))
      && after == before[outcome.id := Principal(outcome.code, Human, Active, Some(i.subject), i.displayName)]
  }

  /** From any point of any run, a login with nothing else going on ends: resolved to the
      active human that holds its subject; or rejected, if it does not satisfy the claim;
      or refused, if another kind of row holds its subject; or else resolved to a new
      active human under the first free code. */
  lemma LoneLogin(init: State, steps: seq<Step>, s: State, l: LoginId, i: Identity)
    returns (steps': seq<Step>, s': State, outcome: Outcome)
    requires After(init, steps) == Some(s) && l !in s.logins
    ensures After(init, steps') == Some(s') && s'.logins == s.logins[l := Login(i, Done(outcome))]
    ensures ComesTo(s.principals, i, outcome, s'.principals)
  {
    hide After, Free, NthCode;
    Then(init, steps, s, Begin(l, i));
    var p1, s1 := steps + [Begin(l, i)], Do(s, Begin(l, i));
    if p :| HoldsSubject(s.principals, p, i.subject) && s.principals[p].MayLogIn() {
      Then(init, p1, s1, FindExisting(l, Some(p)));
      return p1 + [FindExisting(l, Some(p))], Do(s1, FindExisting(l, Some(p))), Resolved(p, s.principals[p].code);
    }
    Then(init, p1, s1, FindExisting(l, None));
    var p2, s2 := p1 + [FindExisting(l, None)], Do(s1, FindExisting(l, None));
    Then(init, p2, s2, CheckClaim(l));
    var p3, s3 := p2 + [CheckClaim(l)], Do(s2, CheckClaim(l));
    if !i.claimOk {
      return p3, s3, ClaimRejected;
    }
    var p4, s4, k := ProbesOn(init, p3, s3, l, 1);
    if p :| HoldsSubject(s.principals, p, i.subject) {
      Then(init, p4, s4, CheckConflict(l, Some(p)));
      return p4 + [CheckConflict(l, Some(p))], Do(s4, CheckConflict(l, Some(p))), SubjectNotAvailable;
    }
    Then(init, p4, s4, CheckConflict(l, None));
    var p5, s5 := p4 + [CheckConflict(l, None)], Do(s4, CheckConflict(l, None));
    var id := NewId(s.principals);
    Then(init, p5, s5, Insert(l, id));
    steps', s', outcome := p5 + [Insert(l, id)], Do(s5, Insert(l, id)), Resolved(id, NthCode(i, k));
  }

  /** An insert that finds its code free and its subject's row in the way looks again, and
      ends with that row: resolved to an active human, refused by any other. */
  lemma LateSubject(init: State, steps: seq<Step>, s: State, l: LoginId, p: PrincipalId)
    returns (steps': seq<Step>, s': State)
    requires After(init, steps) == Some(s) && l in s.logins && s.logins[l].phase.Inserting?
    requires Free(s.principals, s.logins[l].phase.code) && HoldsSubject(s.principals, p, s.logins[l].identity.subject)
    ensures After(init, steps') == Some(s')
    ensures var i, row := s.logins[l].identity, s.principals[p];
            if ActiveHuman(row) then
              && s'.principals == s.principals[p := row.(displayName := i.displayName)]
              && s'.logins == s.logins[l := Login(i, Done(Resolved(p, row.code)))]
            else
              s'.principals == s.principals && s'.logins == s.logins[l := Login(i, Done(SubjectNotAvailable))]
  {
    hide After, Free;
    var id := NewId(s.principals);
    Then(init, steps, s, Insert(l, id));
    var p1, s1 := steps + [Insert(l, id)], Do(s, Insert(l, id));
    Then(init, p1, s1, CheckConflict(l, Some(p)));
    steps', s' := p1 + [CheckConflict(l, Some(p))], Do(s1, CheckConflict(l, Some(p)));
  }

  lemma NewId(principals: map<PrincipalId, Principal>) returns (id: PrincipalId)
    ensures id !in principals
  {
    id := Above(principals.Keys);
  }

  lemma Above(ids: set<nat>) returns (id: nat)
    ensures forall n | n in ids :: n < id
    decreases |ids|
  {
    if ids == {} {
      return 0;
    }
    var n :| n in ids;
    var m := Above(ids - {n});
    assert forall k | k in ids :: k == n || k in ids - {n};
    id := if m > n then m else n + 1;
  }

  // ---- when an insert fails on its code ---------------------------------------------------

  // The n-th step is a probe of this login that finds the code free.
  ghost predicate ProbedFree(init: State, steps: seq<Step>, n: nat, l: LoginId, code: string) {
    && n < |steps| && steps[n] == Probe(l)
    && After(init, steps[..n]).Some? && Free(After(init, steps[..n]).value.principals, code)
  }

  // The n-th step is this login's insert under the code, taken by then.
  ghost predicate LostAt(init: State, steps: seq<Step>, n: nat, l: LoginId, code: string) {
    && n < |steps| && steps[n].Insert? && steps[n].login == l && After(init, steps[..n]).Some?
    && var s := After(init, steps[..n]).value;
    && l in s.logins && s.logins[l].phase == Inserting(code) && !Free(s.principals, code)
  }

  // The code was taken by others, between this login's probe and its insert.
  ghost predicate CodeLost(init: State, steps: seq<Step>, l: LoginId) {
    exists m: nat, n: nat, code :: m < n && ProbedFree(init, steps, m, l, code) && LostAt(init, steps, n, l, code)
  }

  lemma CodeStaysLost(init: State, steps: seq<Step>, step: Step, l: LoginId)
    requires CodeLost(init, steps, l)
    ensures CodeLost(init, steps + [step], l)
  {
    hide After;
    var m: nat, n: nat, code :|
      m < n && ProbedFree(init, steps, m, l, code) && LostAt(init, steps, n, l, code);
    assert (steps + [step])[..m] == steps[..m] && (steps + [step])[..n] == steps[..n];
    assert ProbedFree(init, steps + [step], m, l, code) && LostAt(init, steps + [step], n, l, code);
  }

  // A code a login is about to use was free when it was probed.
  lemma {:induction false} NamedWasFree(init: State, steps: seq<Step>, l: LoginId)
    requires init.logins == map[] && After(init, steps).Some?
    requires l in After(init, steps).value.logins && After(init, steps).value.logins[l].phase.Named()
    ensures exists n: nat :: ProbedFree(init, steps, n, l, After(init, steps).value.logins[l].phase.code)
    decreases |steps|
  {
    var m := |steps| - 1;
    var before := steps[..m];
    var code := After(init, steps).value.logins[l].phase.code;
    if steps[m] == Probe(l) {
      assert ProbedFree(init, steps, m, l, code);
    } else {
      NamedWasFree(init, before, l);
      var n: nat :| ProbedFree(init, before, n, l, code);
      assert before[..n] == steps[..n];
      assert ProbedFree(init, steps, n, l, code);
    }
  }

  // The insert of a login that has not failed, under a code that is taken.
  predicate Loses(s: State, step: Step, l: LoginId) {
    step.Insert? && step.login == l && At(s, l) && s.logins[l].phase.Inserting?
    && !Free(s.principals, s.logins[l].phase.code)
  }

  predicate FailedOnCode(s: State, l: LoginId) {
    At(s, l) && s.logins[l].phase == Done(CodeTaken)
  }

  lemma FailsByLosing(s: State, step: Step, l: LoginId)
    requires Enabled(s, step)
    ensures FailedOnCode(Do(s, step), l) <==> FailedOnCode(s, l) || Loses(s, step, l)
  {
    hide Free, Taken, HoldsSubject;
  }

  lemma CodeLostSnoc(init: State, steps: seq<Step>, step: Step, l: LoginId)
    requires init.logins == map[] && After(init, steps).Some? && Enabled(After(init, steps).value, step)
    ensures CodeLost(init, steps + [step], l) <==> CodeLost(init, steps, l) || Loses(After(init, steps).value, step, l)
  {
    var all, s, last := steps + [step], After(init, steps).value, |steps|;
    assert all[..last] == steps;
    if CodeLost(init, steps, l) {
      CodeStaysLost(init, steps, step, l);
    } else if Loses(s, step, l) {
      var code := s.logins[l].phase.code;
      NamedWasFree(init, steps, l);
      hide After;
      var m: nat :| ProbedFree(init, steps, m, l, code);
      assert all[..m] == steps[..m];
      assert ProbedFree(init, all, m, l, code) && LostAt(init, all, last, l, code);
    }
    if CodeLost(init, all, l) {
      LostBeforeOrNow(init, steps, step, l);
    }
  }

  lemma LostBeforeOrNow(init: State, steps: seq<Step>, step: Step, l: LoginId)
    requires After(init, steps).Some? && CodeLost(init, steps + [step], l)
    ensures CodeLost(init, steps, l) || Loses(After(init, steps).value, step, l)
  {
    hide After;
    var all, last := steps + [step], |steps|;
    assert all[..last] == steps;
    var m: nat, n: nat, code :| m < n && ProbedFree(init, all, m, l, code) && LostAt(init, all, n, l, code);
    if n < last {
      assert all[..m] == steps[..m] && all[..n] == steps[..n];
      assert ProbedFree(init, steps, m, l, code) && LostAt(init, steps, n, l, code);
    }
  }

  /** In every run a login has failed on its code exactly when the code was free at
      its probe and taken at its insert. */
  lemma {:induction false} CodeRaceIff(init: State, steps: seq<Step>, l: LoginId)
    requires init.logins == map[] && After(init, steps).Some?
    ensures FailedOnCode(After(init, steps).value, l) <==> CodeLost(init, steps, l)
    decreases |steps|
  {
    hide CodeLost, Do, FailedOnCode, Loses;
    if steps == [] {
      NothingLostYet(init, l);
    } else {
      var before, step := steps[..|steps| - 1], steps[|steps| - 1];
      assert steps == before + [step];
      CodeRaceIff(init, before, l);
      CodeLostSnoc(init, before, step, l);
      FailsByLosing(After(init, before).value, step, l);
    }
  }

  lemma NothingLostYet(init: State, l: LoginId)
    requires init.logins == map[]
    ensures !CodeLost(init, [], l) && !FailedOnCode(init, l)
  {}

  // ---- a race for a code ------------------------------------------------------------------

  const NOBODY := State(map[], map[])

  function Ann(subject: string): Identity {
    Identity(subject, None, Some("Ann"), true)
  }

  function AnnsCode(): string {
    AuthApi.Candidate(AuthApi.Base("Ann"), 1)
  }

  // One login, from its start to the name it will insert.
  lemma ReachesNaming(steps: seq<Step>, s: State, l: LoginId, subject: string) returns (steps': seq<Step>, s': State)
    requires After(NOBODY, steps) == Some(s) && s.principals == map[] && l !in s.logins
    ensures After(NOBODY, steps') == Some(s') && s'.principals == map[]
    ensures s'.logins == s.logins[l := Login(Ann(subject), Naming(AnnsCode()))]
  {
    hide After, AnnsCode;
    Then(NOBODY, steps, s, Begin(l, Ann(subject)));
    var s1 := Do(s, Begin(l, Ann(subject)));
    var p1 := steps + [Begin(l, Ann(subject))];
    Then(NOBODY, p1, s1, FindExisting(l, None));
    var s2 := Do(s1, FindExisting(l, None));
    var p2 := p1 + [FindExisting(l, None)];
    Then(NOBODY, p2, s2, CheckClaim(l));
    var s3 := Do(s2, CheckClaim(l));
    var p3 := p2 + [CheckClaim(l)];
    ProbesAnnsCode(s3, l, subject);
    Then(NOBODY, p3, s3, Probe(l));
    steps', s' := p3 + [Probe(l)], Do(s3, Probe(l));
  }

  lemma ProbesAnnsCode(s: State, l: LoginId, subject: string)
    requires l in s.logins && s.logins[l] == Login(Ann(subject), Probing(1)) && s.principals == map[]
    ensures Do(s, Probe(l)) == s.(logins := Goes(s, l, Naming(AnnsCode())))
  {}

  // Two logins past their probe and past the look for a row in the way, and the
  // first's insert.
  lemma FirstInserts(subject: string, other: string) returns (steps: seq<Step>, s: State)
    ensures After(NOBODY, steps) == Some(s)
    ensures 1 in s.logins && s.logins[1] == Login(Ann(other), Inserting(AnnsCode()))
    ensures s.principals == map[0 := Principal(AnnsCode(), Human, Active, Some(subject), Some("Ann"))]
  {
    assert After(NOBODY, []) == Some(NOBODY);
    hide After, AnnsCode;
    var p1, s1 := ReachesNaming([], NOBODY, 0, subject);
    var p2, s2 := ReachesNaming(p1, s1, 1, other);
    Then(NOBODY, p2, s2, CheckConflict(0, None));
    var p3, s3 := p2 + [CheckConflict(0, None)], Do(s2, CheckConflict(0, None));
    Then(NOBODY, p3, s3, CheckConflict(1, None));
    var p4, s4 := p3 + [CheckConflict(1, None)], Do(s3, CheckConflict(1, None));
    Then(NOBODY, p4, s4, Insert(0, 0));
    steps, s := p4 + [Insert(0, 0)], Do(s4, Insert(0, 0));
  }

  /** Two first logins whose code comes out the same, both past the look for a row in
      the way: the second's insert fails on the code. So it does if both are of one
      subject, which has its principal by then. */
  lemma SecondInsertFails(subject: string, other: string)
    ensures exists steps, l :: After(NOBODY, steps).Some? && FailedOnCode(After(NOBODY, steps).value, l)
                               && After(NOBODY, steps).value.logins[l].identity.subject == other
                               && Taken(After(NOBODY, steps).value.principals, subject)
  {
    hide After, AnnsCode;
    var steps, s := FirstInserts(subject, other);
    assert 0 in s.principals && s.principals[0].code == s.logins[1].phase.code;
    Then(NOBODY, steps, s, Insert(1, 1));
    var all, s' := steps + [Insert(1, 1)], Do(s, Insert(1, 1));
    assert HoldsSubject(s'.principals, 0, subject);
    assert After(NOBODY, all) == Some(s') && FailedOnCode(s', 1);
  }
}
