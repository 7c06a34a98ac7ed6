/** The closed enumeration of learning-rate schedulers (`SchedulerEnum`).
    Each member is known by a canonical, case-sensitive name equal to its
    identifier; the integer values the source attaches to the members are not
    used by any logic and are not modelled. */
module SchedulerKinds {

  datatype SchedulerEnum = LinearLR | CosineAnnealingLR

  /** The member's name, `SchedulerEnum.X.name`. */
  function Name(e: SchedulerEnum): string {
    match e
    case LinearLR => "LinearLR"
    case CosineAnnealingLR => "CosineAnnealingLR"
  }

  /** The keys of `SchedulerEnum.__members__`, in definition order. */
  const MemberNames: seq<string> := ["LinearLR", "CosineAnnealingLR"]

  /** `SchedulerEnum.__members__`: from name to member. */
  const Members: map<string, SchedulerEnum> :=
    map["LinearLR" := LinearLR, "CosineAnnealingLR" := CosineAnnealingLR]

  /** The member table lists exactly the members, each under its own name. */
  lemma MembersByName()
    ensures forall n :: n in Members <==> n in MemberNames
    ensures forall n | n in Members :: Name(Members[n]) == n
    ensures forall e: SchedulerEnum :: Name(e) in Members && Members[Name(e)] == e
  {
  }
}
