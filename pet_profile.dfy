/** The pet profile document and what its schema's validators accept. */
module PetProfileModel {
  import opened Http

  /** A stored pet profile. `user` references the owning user; `family`,
      `breed`, `age` and `bio` may be missing; `date` is the creation time. */
  datatype PetProfile = PetProfile(
    id: nat,
    user: UserId,
    petname: string,
    animal: string,
    family: Option<string>,
    breed: Option<string>,
    age: Option<int>,
    bio: Option<string>,
    date: nat)

  /** The schema's `required` validators: a present, non-empty `petname`
      and `animal`. */
  predicate SchemaValid(p: PetProfile)
  {
    p.petname != "" && p.animal != ""
  }

  /** The messages validation collects when a document is saved: one per
      `required` string path that is empty. */
  function RequiredErrors(p: PetProfile): (errs: seq<string>)
    ensures errs == [] <==> SchemaValid(p)
    ensures "Path `petname` is required." in errs <==> p.petname == ""
    ensures "Path `animal` is required." in errs <==> p.animal == ""
  {
    (if p.petname == "" then ["Path `petname` is required."] else [])
    + (if p.animal == "" then ["Path `animal` is required."] else [])
  }
}
