/** The two courtroom roles the user questions, each with its own chat room. */
module Roles {

  datatype Role = Prosecutor | Defendant

  /** `roleName`: the role's name as written into the prompts and the history lines. */
  function RoleName(r: Role): string {
    match r
    case Prosecutor => "검사"
    case Defendant => "피고인"
  }

  /** The speaker prefix put in front of every displayed message of the role. */
  function RolePrefix(r: Role): string {
    match r
    case Prosecutor => "검사 : "
    case Defendant => "피고인 : "
  }
}
