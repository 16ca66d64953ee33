/** crates/target_process/src/models/mod.rs: the workflow states a ticket can
    be moved to, and the numeric codes the TargetProcess API knows them by.
    Also the current-user record of models/user.rs, which the client fetches. */
module TpModels {
  import opened Wrappers

  /** Listed in declaration order; the codes are the declared discriminants. */
  datatype EntityStates = Open | Planned | InStaging | InProgress

  /** The discriminants written on the enum declaration itself. */
  function Discriminant(s: EntityStates): nat {
    match s
    case Open => 73
    case Planned => 74
    case InStaging => 127
    case InProgress => 75
  }

  /** `Into<usize> for EntityStates`: the code sent to the API. */
  function Code(s: EntityStates): nat {
    match s
    case Open => 73
    case Planned => 74
    case InProgress => 75
    case InStaging => 127
  }

  /** Decoder for the four known codes; any other code has no state. */
  function FromCode(n: nat): (s: Option<EntityStates>)
    ensures s.Some? <==> n in {73, 74, 75, 127}
    ensures s.Some? ==> Code(s.value) == n
  {
    if n == 73 then Some(Open)
    else if n == 74 then Some(Planned)
    else if n == 75 then Some(InProgress)
    else if n == 127 then Some(InStaging)
    else None
  }

  lemma CodeTable()
    ensures Code(Open) == 73 && Code(Planned) == 74
    ensures Code(InProgress) == 75 && Code(InStaging) == 127
  {
  }

  /** The `into()` match agrees with the discriminants of the declaration. */
  lemma CodeIsDiscriminant(s: EntityStates)
    ensures Code(s) == Discriminant(s)
  {
  }

  /** Distinct states are sent as distinct codes. */
  lemma CodeInjective(s: EntityStates, t: EntityStates)
    requires Code(s) == Code(t)
    ensures s == t
  {
  }

  /** Decoding undoes encoding. */
  lemma FromCodeOfCode(s: EntityStates)
    ensures FromCode(Code(s)) == Some(s)
  {
  }

  /** models/user.rs: the logged-in user returned by `/v1/Users/loggeduser`. */
  datatype Role = Role(id: nat, name: string)

  datatype CurrentUser = CurrentUser(
    id: nat,
    firstName: string,
    lastName: string,
    login: string,
    email: string,
    isActive: bool,
    role: Role)
}
