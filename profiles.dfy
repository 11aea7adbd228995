/** The account levels shared by several stores (the store's profile type). */
module Profiles {
  import opened Wrappers

  datatype Profile = School | Block | District | State

  function ProfileName(p: Profile): string {
    match p
    case School => "SCHOOL"
    case Block => "BLOCK"
    case District => "DISTRICT"
    case State => "STATE"
  }

  /** `Object.values(ProfileType).includes(s)`: the profile a string names
      exactly, if any. */
  function ProfileOf(s: string): (r: Option<Profile>)
    ensures r.Some? ==> ProfileName(r.value) == s
    ensures forall p :: ProfileName(p) == s ==> r == Some(p)
  {
    if s == "SCHOOL" then Some(School)
    else if s == "BLOCK" then Some(Block)
    else if s == "DISTRICT" then Some(District)
    else if s == "STATE" then Some(State)
    else None
  }

  /** Height of a level in the hierarchy. */
  function Rank(p: Profile): nat {
    match p
    case School => 0
    case Block => 1
    case District => 2
    case State => 3
  }
}
