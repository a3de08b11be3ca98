/** The pet profile routes: the caller's own profiles, the create-or-update
    (upsert) of the caller's profile, the public listing, and the lookup by
    owning user. */
module Profiles {
  import opened Http
  import opened PetProfileModel

  /** The JSON body of `POST /api/profile`. An absent key is `None`; an
      absent key and a falsy value are treated alike by the handler. */
  datatype ProfileRequest = ProfileRequest(
    petname: Option<string>,
    animal: Option<string>,
    family: Option<string>,
    breed: Option<string>,
    age: Option<int>,
    bio: Option<string>)

  /** The handler's field object: `user`, and each other key only when it
      was set. */
  datatype ProfileFields = ProfileFields(
    user: UserId,
    petname: Option<string>,
    animal: Option<string>,
    family: Option<string>,
    breed: Option<string>,
    age: Option<int>,
    bio: Option<string>)

  const PetnameRequired := "Name of pet is required"
  const AnimalRequired := "Animal is required"
  const NoPets := "There are no pets for this user"
  /** The not-found message of `GET /api/profile/user/:user_id`, word for word. */
  const NoProfileOfUser := "There are pet profiles for this user"
  const ProfileNotFound := "Profile not found"

  /** JavaScript truthiness of a string-valued body field: `undefined` and
      the empty string are its only falsy values. */
  predicate Truthy(v: Option<string>)
  {
    v.Some? && v.value != ""
  }

  /** JavaScript truthiness of a numeric body field: `undefined` and 0 are
      its only falsy values. */
  predicate TruthyAge(v: Option<int>)
  {
    v.Some? && v.value != 0
  }

  /** The two `not().isEmpty()` checks on the request body. */
  function RequestErrors(req: ProfileRequest): (errs: seq<string>)
    ensures errs == [] <==> Truthy(req.petname) && Truthy(req.animal)
    ensures PetnameRequired in errs <==> !Truthy(req.petname)
    ensures AnimalRequired in errs <==> !Truthy(req.animal)
  {
    (if Truthy(req.petname) then [] else [PetnameRequired])
    + (if Truthy(req.animal) then [] else [AnimalRequired])
  }

  /** The field object the handler builds for `caller` from `req`. */
  function FieldsOf(caller: UserId, req: ProfileRequest): (f: ProfileFields)
    ensures f.user == caller
    ensures (f.petname.Some? <==> Truthy(req.petname)) && (f.petname.Some? ==> f.petname == req.petname)
    ensures (f.animal.Some? <==> Truthy(req.animal)) && (f.animal.Some? ==> f.animal == req.animal)
    ensures (f.family.Some? <==> Truthy(req.family)) && (f.family.Some? ==> f.family == req.family)
    ensures (f.breed.Some? <==> Truthy(req.breed)) && (f.breed.Some? ==> f.breed == req.breed)
    ensures (f.age.Some? <==> TruthyAge(req.age)) && (f.age.Some? ==> f.age == req.age)
    ensures (f.bio.Some? <==> Truthy(req.bio)) && (f.bio.Some? ==> f.bio == req.bio)
  {
    ProfileFields(
      caller,
      if Truthy(req.petname) then req.petname else None,
      if Truthy(req.animal) then req.animal else None,
      if Truthy(req.family) then req.family else None,
      if Truthy(req.breed) then req.breed else None,
      if TruthyAge(req.age) then req.age else None,
      if Truthy(req.bio) then req.bio else None)
  }

  /** Every string key the field object carries holds a non-empty string. */
  predicate OnlyTruthy(f: ProfileFields)
  {
    && (f.petname.Some? ==> f.petname.value != "")
    && (f.animal.Some? ==> f.animal.value != "")
    && (f.family.Some? ==> f.family.value != "")
    && (f.breed.Some? ==> f.breed.value != "")
    && (f.age.Some? ==> f.age.value != 0)
    && (f.bio.Some? ==> f.bio.value != "")
  }

  /** The field object carries the two keys the schema requires. */
  predicate Complete(f: ProfileFields)
  {
    f.petname.Some? && f.animal.Some?
  }

  /** A request that passes validation yields a complete field object whose
      values are all truthy. */
  lemma ValidatedFieldsComplete(caller: UserId, req: ProfileRequest)
    requires RequestErrors(req) == []
    ensures Complete(FieldsOf(caller, req)) && OnlyTruthy(FieldsOf(caller, req))
  {
  }

  /** `new PetProfile(fields)`: a fresh document holding exactly the keys of
      the field object. */
  function FromFields(f: ProfileFields, id: nat, date: nat): (q: PetProfile)
    requires Complete(f)
    ensures q.id == id && q.date == date && q.user == f.user
    ensures OnlyTruthy(f) ==> SchemaValid(q)
    ensures Some(q.petname) == f.petname && Some(q.animal) == f.animal
    ensures q.family == f.family && q.breed == f.breed && q.age == f.age && q.bio == f.bio
  {
    PetProfile(id, f.user, f.petname.value, f.animal.value, f.family, f.breed, f.age, f.bio, date)
  }

  /** `{ $set: fields }` applied to a stored document: each key present in
      the field object replaces the stored value; every other key keeps it. */
  function Merge(p: PetProfile, f: ProfileFields): (q: PetProfile)
    ensures q.id == p.id && q.date == p.date && q.user == f.user
    ensures SchemaValid(p) && OnlyTruthy(f) ==> SchemaValid(q)
  {
    PetProfile(
      p.id,
      f.user,
      if f.petname.Some? then f.petname.value else p.petname,
      if f.animal.Some? then f.animal.value else p.animal,
      if f.family.Some? then f.family else p.family,
      if f.breed.Some? then f.breed else p.breed,
      if f.age.Some? then f.age else p.age,
      if f.bio.Some? then f.bio else p.bio,
      p.date)
  }

  /** Applying the same `$set` twice changes nothing the first did not. */
  lemma MergeIdempotent(p: PetProfile, f: ProfileFields)
    ensures Merge(Merge(p, f), f) == Merge(p, f)
  {
  }

  /** Re-submitting the field object a profile was created from leaves that
      profile as it is. */
  lemma MergeSameFieldsUnchanged(f: ProfileFields, id: nat, date: nat)
    requires Complete(f)
    ensures Merge(FromFields(f, id, date), f) == FromFields(f, id, date)
  {
  }

  /** `$set` semantics: each key the field object leaves out keeps its stored
      value; each key it carries takes the new value. */
  lemma MergeSetsOnlyGivenKeys(p: PetProfile, f: ProfileFields)
    ensures f.petname.None? ==> Merge(p, f).petname == p.petname
    ensures f.animal.None? ==> Merge(p, f).animal == p.animal
    ensures f.family.None? ==> Merge(p, f).family == p.family
    ensures f.breed.None? ==> Merge(p, f).breed == p.breed
    ensures f.age.None? ==> Merge(p, f).age == p.age
    ensures f.bio.None? ==> Merge(p, f).bio == p.bio
    ensures f.petname.Some? ==> Some(Merge(p, f).petname) == f.petname
    ensures f.animal.Some? ==> Some(Merge(p, f).animal) == f.animal
    ensures f.family.Some? ==> Merge(p, f).family == f.family
    ensures f.breed.Some? ==> Merge(p, f).breed == f.breed
    ensures f.age.Some? ==> Merge(p, f).age == f.age
    ensures f.bio.Some? ==> Merge(p, f).bio == f.bio
  {
  }

  /** `PetProfile.find({ user })`: the profiles owned by `u`, in stored order. */
  function OfUser(ps: seq<PetProfile>, u: UserId): (r: seq<PetProfile>)
    ensures forall p :: p in r <==> p in ps && p.user == u
    ensures r == [] <==> forall i :: 0 <= i < |ps| ==> ps[i].user != u
    ensures |r| <= |ps|
  {
    if ps == [] then []
    else if ps[0].user == u then [ps[0]] + OfUser(ps[1..], u)
    else OfUser(ps[1..], u)
  }

  /** `find({ user })` keeps every profile the user owns as often as it is
      stored and nothing else: a filter of the collection. */
  lemma {:induction false} OfUserKeepsMultiplicity(ps: seq<PetProfile>, u: UserId)
    ensures forall p :: multiset(OfUser(ps, u))[p] == if p.user == u then multiset(ps)[p] else 0
  {
    if ps != [] {
      OfUserKeepsMultiplicity(ps[1..], u);
      assert ps == [ps[0]] + ps[1..];
    }
  }

  /** `PetProfile.findOne({ user })`: the index of the first profile owned
      by `u`, or -1. */
  function FirstOfUser(ps: seq<PetProfile>, u: UserId): (k: int)
    ensures -1 <= k < |ps|
    ensures k == -1 <==> forall i :: 0 <= i < |ps| ==> ps[i].user != u
    ensures k >= 0 ==> ps[k].user == u && forall i :: 0 <= i < k ==> ps[i].user != u
  {
    if ps == [] then -1
    else if ps[0].user == u then 0
    else
      var k := FirstOfUser(ps[1..], u);
      if k == -1 then -1 else k + 1
  }

  /** At most one profile per user: intended, though no index enforces it. */
  predicate OnePerUser(ps: seq<PetProfile>)
  {
    forall i, j :: 0 <= i < j < |ps| ==> ps[i].user != ps[j].user
  }

  /** Under one profile per user, `find({ user })` yields at most one profile. */
  lemma {:induction false} OnePerUserFindsAtMostOne(ps: seq<PetProfile>, u: UserId)
    requires OnePerUser(ps)
    ensures |OfUser(ps, u)| <= 1
  {
    if ps != [] {
      var rest := ps[1..];
      assert OnePerUser(rest) by {
        forall i, j | 0 <= i < j < |rest|
          ensures rest[i].user != rest[j].user
        {
          assert rest[i] == ps[i + 1] && rest[j] == ps[j + 1];
        }
      }
      OnePerUserFindsAtMostOne(rest, u);
      if ps[0].user == u {
        forall j | 0 <= j < |rest|
          ensures rest[j].user != u
        {
          assert rest[j] == ps[j + 1];
        }
      }
    }
  }

  /** Replacing a profile by one with the same owner keeps one per user. */
  lemma UpdateKeepsOnePerUser(ps: seq<PetProfile>, k: nat, q: PetProfile)
    requires k < |ps| && OnePerUser(ps) && q.user == ps[k].user
    ensures OnePerUser(ps[k := q])
  {
  }

  /** Appending a profile for a user who has none keeps one per user. */
  lemma AppendKeepsOnePerUser(ps: seq<PetProfile>, q: PetProfile)
    requires OnePerUser(ps) && FirstOfUser(ps, q.user) == -1
    ensures OnePerUser(ps + [q])
  {
    var all := ps + [q];
    forall i, j | 0 <= i < j < |all|
      ensures all[i].user != all[j].user
    {
      if j == |ps| {
        assert all[i] == ps[i];
      }
    }
  }

  /** Profile ids are distinct and below the next fresh id, and every
      profile satisfies the schema. */
  predicate WellFormed(ps: seq<PetProfile>, nextId: nat)
  {
    && (forall i :: 0 <= i < |ps| ==> ps[i].id < nextId && SchemaValid(ps[i]))
    && (forall i, j :: 0 <= i < j < |ps| ==> ps[i].id != ps[j].id)
  }

  /** A valid replacement with the same id keeps the collection well formed. */
  lemma UpdateKeepsWellFormed(ps: seq<PetProfile>, nextId: nat, k: nat, q: PetProfile)
    requires WellFormed(ps, nextId) && k < |ps| && q.id == ps[k].id && SchemaValid(q)
    ensures WellFormed(ps[k := q], nextId)
  {
  }

  /** A valid profile with the next fresh id keeps the collection well formed. */
  lemma AppendKeepsWellFormed(ps: seq<PetProfile>, nextId: nat, q: PetProfile)
    requires WellFormed(ps, nextId) && q.id == nextId && SchemaValid(q)
    ensures WellFormed(ps + [q], nextId + 1)
  {
  }

  /** Under one profile per user, an owner of some profile owns exactly one. */
  lemma OwnerHasExactlyOne(ps: seq<PetProfile>, k: nat)
    requires OnePerUser(ps) && k < |ps|
    ensures |OfUser(ps, ps[k].user)| == 1
  {
    OnePerUserFindsAtMostOne(ps, ps[k].user);
    assert ps[k] in OfUser(ps, ps[k].user);
  }

  /** The pet profile collection. */
  class ProfileStore {
    var profiles: seq<PetProfile>
    var nextId: nat

    ghost predicate Valid()
      reads this
    {
      WellFormed(profiles, nextId)
    }

    constructor ()
      ensures Valid() && profiles == []
    {
      profiles := [];
      nextId := 0;
    }

    /** `GET /api/profile/me`: the caller's profiles, or 400 when there are none. */
    function GetMine(caller: UserId): (r: Reply<seq<PetProfile>>)
      reads this
      ensures r.Status? <==> forall i :: 0 <= i < |profiles| ==> profiles[i].user != caller
      ensures r.Status? ==> r == Status(BadRequest, [NoPets])
      ensures r.Ok? ==> r.body == OfUser(profiles, caller)
      ensures r.Ok? ==> forall p :: multiset(r.body)[p] == if p.user == caller then multiset(profiles)[p] else 0
    {
      OfUserKeepsMultiplicity(profiles, caller);
      var mine := OfUser(profiles, caller);
      if |mine| == 0 then
        Status(BadRequest, [NoPets])
      else
        Ok(mine)
    }

    /** `GET /api/profile`: every profile, in stored order. */
    function ListAll(): (r: Reply<seq<PetProfile>>)
      reads this
      ensures r.Ok? && |r.body| == |profiles|
      ensures forall i :: 0 <= i < |profiles| ==> r.body[i] == profiles[i]
    {
      Ok(profiles)
    }

    /** `GET /api/profile/user/:user_id`: the first profile the user owns. */
    function GetByUser(param: IdParam): (r: Reply<PetProfile>)
      reads this
      ensures param.NotAnObjectId? ==> r == Status(BadRequest, [ProfileNotFound])
      ensures param.ObjectId? ==>
                (r.Ok? <==> exists i :: 0 <= i < |profiles| && profiles[i].user == param.id)
      ensures param.ObjectId? && r.Status? ==> r == Status(BadRequest, [NoProfileOfUser])
      ensures r.Ok? ==> r.body in profiles && r.body.user == param.id
    {
      match param
      case NotAnObjectId => Status(BadRequest, [ProfileNotFound])
      case ObjectId(u) =>
        var k := FirstOfUser(profiles, u);
        if k == -1 then Status(BadRequest, [NoProfileOfUser]) else Ok(profiles[k])
    }

    /** `POST /api/profile`: validate, build the field object, then update the
        caller's first profile in place or create one. */
    method Upsert(caller: UserId, req: ProfileRequest, now: nat) returns (reply: Reply<PetProfile>)
      requires Valid()
      modifies this
      ensures Valid()
      ensures reply.Status? ==> profiles == old(profiles) && nextId == old(nextId)
      ensures RequestErrors(req) != [] ==> reply == Status(BadRequest, RequestErrors(req))
      ensures RequestErrors(req) == [] ==>
                var f := FieldsOf(caller, req);
                var k := FirstOfUser(old(profiles), caller);
                if k >= 0 then
                  && profiles == old(profiles)[k := Merge(old(profiles)[k], f)]
                  && nextId == old(nextId)
                  && reply == Ok(profiles[k])
                else
                  && profiles == old(profiles) + [FromFields(f, old(nextId), now)]
                  && nextId == old(nextId) + 1
                  && reply == Ok(profiles[|profiles| - 1])
      ensures reply.Ok? ==> reply.body.user == caller && reply.body in profiles
      ensures reply.Ok? ==> RequiredErrors(reply.body) == []
      ensures old(OnePerUser(profiles)) ==> OnePerUser(profiles)
      ensures old(OnePerUser(profiles)) && reply.Ok? ==> |OfUser(profiles, caller)| == 1
    {
      var errs := RequestErrors(req);
      if errs != [] {
        return Status(BadRequest, errs);
      }
      var f := BuildFields(caller, req);
      ValidatedFieldsComplete(caller, req);
      var k := FirstOfUser(profiles, caller);
      if k >= 0 {
        var updated := Merge(profiles[k], f);
        UpdateKeepsWellFormed(profiles, nextId, k, updated);
        if OnePerUser(profiles) {
          UpdateKeepsOnePerUser(profiles, k, updated);
          OwnerHasExactlyOne(profiles[k := updated], k);
        }
        profiles := profiles[k := updated];
        reply := Ok(updated);
      } else {
        var created := FromFields(f, nextId, now);
        AppendKeepsWellFormed(profiles, nextId, created);
        if OnePerUser(profiles) {
          AppendKeepsOnePerUser(profiles, created);
          OwnerHasExactlyOne(profiles + [created], |profiles|);
        }
        profiles := profiles + [created];
        nextId := nextId + 1;
        reply := Ok(created);
      }
    }
  }

  /** The field object built step by step, one conditional assignment per key. */
  method BuildFields(caller: UserId, req: ProfileRequest) returns (f: ProfileFields)
    ensures f == FieldsOf(caller, req)
  {
    f := ProfileFields(caller, None, None, None, None, None, None);
    if Truthy(req.petname) { f := f.(petname := req.petname); }
    if Truthy(req.animal) { f := f.(animal := req.animal); }
    if Truthy(req.family) { f := f.(family := req.family); }
    if Truthy(req.breed) { f := f.(breed := req.breed); }
    if TruthyAge(req.age) { f := f.(age := req.age); }
    if Truthy(req.bio) { f := f.(bio := req.bio); }
  }

  /** Two accepted upserts by the same user, starting from no profiles, leave
      exactly one profile, owned by that user, holding the second request's
      name. */
  method UpsertTwiceKeepsOneProfile(caller: UserId, first: ProfileRequest, second: ProfileRequest, now: nat)
    returns (count: nat, petname: string)
    requires RequestErrors(first) == [] && RequestErrors(second) == []
    ensures count == 1
    ensures Some(petname) == second.petname
  {
    var store := new ProfileStore();
    var r1 := store.Upsert(caller, first, now);
    var r2 := store.Upsert(caller, second, now + 1);
    count := |store.profiles|;
    petname := store.profiles[0].petname;
  }
}
