# pet-book: a Dafny model of the route handlers

pet-book is a small REST backend for a social app built around pet profiles.
This project models the handlers that read, check and then write:

- **Post feed** (`routes/api/posts.js`). Create a post, list all posts newest
  first, get one post by id, delete a post (author only), like and unlike.
  Like puts the caller at the front of the post's `likes` list (`unshift`).
  Unlike removes the caller's entry found by `indexOf` (`splice`).
- **Pet profile registry** (`routes/api/profile.js`, `models/PetProfile.js`).
  Get the caller's profiles. Create or update (upsert) the caller's profile.
  List all profiles. Get a profile by owning user.
- **User registration** (`routes/api/create_user.js`). Three field checks, a
  duplicate-email check, and the insert of a user whose password is stored
  hashed.

Each collection is a class holding a `seq` of documents and the next fresh id:
`Posts.PostStore`, `Profiles.ProfileStore` and `Users.UserStore`. Handlers that
write are methods with `modifies this`. Their `ensures` give the reply and the
whole new state in terms of the old state. Read-only handlers are functions
with `reads this`. A handler's HTTP reply is `Http.Reply`: either `Ok(body)` or
`Status(code, messages)` with code 400, 401, 404 or 500. Each class has a
`Valid()` invariant that every method keeps:

- posts: ids are distinct, and no user appears twice in a post's `likes`;
- profiles: ids are distinct, and each profile has a non-empty `petname` and
  `animal`, which is what the schema's `required` validators accept
  (`PetProfileModel.SchemaValid`);
- users: ids are distinct, and no two users share an email.

"At most one profile per user" (`Profiles.OnePerUser`) is not part of
`Valid()`, because no unique index enforces it. Instead, `Upsert` proves that
it keeps this property whenever it held before the call.

Inputs from outside the handlers become parameters:

- the caller's id, which the authentication middleware resolves;
- the creation time (`now`), which replaces `Date.now`;
- the email validator (`isEmail`) and the password hash (`hash`), which are
  function-valued parameters;
- the user collection, which post creation uses to look up the author.

A URL id that cannot be cast to an ObjectId is `IdParam.NotAnObjectId`.

### Behaviour of the code worth knowing

- Like and unlike on a missing post reply 500, because `post.likes` is read
  without a null check (posts.js:109-123, 132-148). An id that cannot be cast
  also gives 500, because these two handlers do not check `err.kind`.
- Every profile upsert re-validates `petname` and `animal` (profile.js:30-34).
  So an update that sends only `{bio}` is refused with 400 and never reaches
  the merge into the existing profile.
- Registration replies with the text "User registered", not with the created
  user (create_user.js:52).
- `GET /api/profile/user/:user_id` replies "There are pet profiles for this
  user" when the user has no profile (profile.js:88). The model keeps that
  message word for word.
- express-validator turns a body value into a string before `isEmpty`, so a
  JSON `petname` of `0` or `false` passes the check (profile.js:30), and then
  `if (petname)` drops it (profile.js:40). On a first upsert, `save()` fails
  the schema's `required` validator and the reply is 500 (profile.js:59). On
  an update, the old petname is kept. The model types body values as strings,
  so it does not reach this path (see "## Left out").
- The posts router exists but `server.js` does not mount it
  (server.js:17-19). It is modelled all the same.

## Model

| member | source | states |
|---|---|---|
| `Users.ValidationErrors` | routes/api/create_user.js:14-23 | There are no errors exactly when the name is non-empty, the email passes the email predicate and the password has at least 8 characters. Each field's message is present exactly when that field's check fails. |
| `Users.FindByEmail` | routes/api/create_user.js:29-31 | `findOne({ email })` finds a user exactly when some stored user has that email (`EmailTaken`), and what it finds is a stored user with that email. |
| `Users.FindById` | routes/api/posts.js:21 | Returns a stored user that has the given id, or nothing when no stored user has it. |
| `Users.InsertKeepsEmailsUnique` | routes/api/create_user.js:29-49 | Appending a user whose email is not taken keeps every email unique. |
| `Users.UserStore.Register` | routes/api/create_user.js:18-58 | Invalid fields give 400 with the messages of the failed checks. A taken email gives 400 "User already exists". Both leave the store unchanged. Otherwise exactly one user is appended, with the given name, email and profileImage, a fresh id and password `hash(password)`, and the reply is "User registered". Emails stay unique. |
| `Users.RegisterTwiceScenario` | routes/api/create_user.js:18-52 | Registering one valid request twice on an empty store: the first reply is "User registered", the second is 400 "User already exists", and one user is stored. |
| `Users.PasswordLengthScenario` | routes/api/create_user.js:16-52 | With a valid name and email, a 7-character password is refused with the length message alone and an 8-character one is registered. |
| `PetProfileModel.RequiredErrors` | models/PetProfile.js:3-32 | Saving a profile reports no validation error exactly when it satisfies the schema (`SchemaValid`: non-empty `petname` and `animal`). The `required` message of each of those two paths is present exactly when that path is empty. |
| `Profiles.Truthy` | routes/api/profile.js:40-45 | Definition, no contract: JavaScript truthiness of a string body value, meaning present and not "". |
| `Profiles.TruthyAge` | routes/api/profile.js:44 | Definition, no contract: JavaScript truthiness of a numeric body value, meaning present and not 0. |
| `Profiles.RequestErrors` | routes/api/profile.js:30-34 | The request is accepted exactly when `petname` and `animal` are both non-empty. Each message is present exactly when its field is empty or absent. |
| `Profiles.FieldsOf` | routes/api/profile.js:38-45 | `user` is the caller. Each other key is present exactly when its supplied value is truthy, and then it holds that value. An absent key, "" and an age of 0 are all dropped. |
| `Profiles.BuildFields` | routes/api/profile.js:38-45 | The step-by-step conditional assignments build exactly the field object `FieldsOf` describes. |
| `Profiles.ValidatedFieldsComplete` | routes/api/profile.js:30-45 | For string values, a request that passes validation yields a field object that has `petname` and `animal`, and in which every present value is truthy. |
| `Profiles.FromFields` | routes/api/profile.js:57-59 | `new PetProfile(petProfileFields)` under the schema of models/PetProfile.js:3-32: the new document has a fresh id, the creation date, the caller as `user`, and exactly the keys of the field object. It satisfies the schema's required validators. |
| `Profiles.Merge` | routes/api/profile.js:52 | `$set` keeps the document's id and date and keeps it schema-valid. |
| `Profiles.MergeSetsOnlyGivenKeys` | routes/api/profile.js:49-54 | Each key present in the field object overwrites the stored value. Each absent key keeps the stored value. |
| `Profiles.MergeIdempotent` | routes/api/profile.js:52 | Applying the same `$set` twice gives the same document as applying it once. |
| `Profiles.MergeSameFieldsUnchanged` | routes/api/profile.js:49-60 | Upserting again with the field object a profile was created from leaves that profile unchanged. |
| `Profiles.OfUser` | routes/api/profile.js:14 | `find({ user })` returns stored profiles owned by the user, and each such profile appears in it. It is empty exactly when the user owns none. |
| `Profiles.OfUserKeepsMultiplicity` | routes/api/profile.js:14 | `find({ user })` is a filter: each profile the user owns appears as many times as it is stored, and no other profile appears. |
| `Profiles.FirstOfUser` | routes/api/profile.js:49 | `findOne({ user })` returns the first index whose profile the user owns, or -1 when the user owns none. |
| `Profiles.OnePerUserFindsAtMostOne` | routes/api/profile.js:49-60 | With at most one profile per user, `find({ user })` returns at most one profile. |
| `Profiles.OwnerHasExactlyOne` | routes/api/profile.js:49-60 | With at most one profile per user, a user who owns a stored profile owns exactly one. |
| `Profiles.UpdateKeepsOnePerUser` | routes/api/profile.js:51-54 | Updating a profile in place, keeping its owner, keeps at most one profile per user. |
| `Profiles.AppendKeepsOnePerUser` | routes/api/profile.js:57-60 | Creating a profile for a user who has none keeps at most one profile per user. |
| `Profiles.ProfileStore.GetMine` | routes/api/profile.js:12-25 | Returns 400 "There are no pets for this user" exactly when the caller owns no profile. Otherwise it returns `find({ user })`: each profile the caller owns, as many times as it is stored, and nothing else. |
| `Profiles.ProfileStore.ListAll` | routes/api/profile.js:70-78 | Returns every stored profile, in stored order, and changes nothing. |
| `Profiles.ProfileStore.GetByUser` | routes/api/profile.js:83-98 | An id that cannot be cast gives 400 "Profile not found". Otherwise the reply is a profile owned by that user, and it is one exactly when such a profile exists. A user with none gives 400. |
| `Profiles.ProfileStore.Upsert` | routes/api/profile.js:30-65 | A rejected request gives 400 and leaves the store unchanged. If the caller has a profile, only that profile is `$set`-merged, no profile is created, and the merged record is returned. Otherwise exactly one profile built from the field object is appended. Every profile stays schema-valid. At most one profile per user is kept, and afterwards the caller has exactly one. The profile returned passes the schema's validation (`RequiredErrors` is empty), so the `save` succeeds. |
| `Profiles.UpsertTwiceKeepsOneProfile` | routes/api/profile.js:47-60 | Two accepted upserts by one user, starting from an empty store, leave one profile, and it holds the second request's name. |
| `Posts.LikesBy` | routes/api/posts.js:112 | The filter count is positive exactly when the user is in `likes`. |
| `Posts.IndexOf` | routes/api/posts.js:139 | Returns -1 exactly when the user is not in `likes`. Otherwise it returns the position of the user's first occurrence. |
| `Posts.Splice` | routes/api/posts.js:141 | Removes exactly the entry at the index: the length drops by one, the multiset loses that entry, and the other entries keep their order. |
| `Posts.UnlikeRemovesFirst` | routes/api/posts.js:139-141 | Splicing at `indexOf(user)` is the same as removing the user's first occurrence, as the recursive reference `RemoveFirst` defines it. |
| `Posts.LikeThenUnlikeRestores` | routes/api/posts.js:112-141 | Liking then unliking by the same user restores the original `likes`. |
| `Posts.DistinctMeansLikedOnce` | routes/api/posts.js:112-116 | If `likes` has no duplicates, every user's filter count is at most one. |
| `Posts.LikedOnceMeansDistinct` | routes/api/posts.js:112-116 | If every user's filter count is at most one, `likes` has no duplicates. |
| `Posts.LikeKeepsDistinct` | routes/api/posts.js:112-116 | Prepending a user who is not yet in `likes` keeps it free of duplicates. |
| `Posts.UnlikeKeepsDistinct` | routes/api/posts.js:135-141 | Removing one entry keeps `likes` free of duplicates, and the removed user no longer appears. |
| `Posts.InsertByDate` | routes/api/posts.js:43 | Inserting into a newest-first list gives a newest-first list with exactly one more element. |
| `Posts.SortNewestFirst` | routes/api/posts.js:43 | `sort({ date: -1 })` gives a newest-first permutation of the posts. |
| `Posts.IndexOfId` | routes/api/posts.js:56 | Returns the position of a post that has the id, or -1 exactly when no stored post has it. |
| `Posts.Find` | routes/api/posts.js:56-68 | A missing id gives -1, and so does an id that cannot be cast. In the code the cast failure throws a CastError instead of finding nothing. Every caller answers both cases alike: 404 in getById and delete, 500 in like and unlike. Otherwise `findById` finds the post with that id, and it finds one exactly when such a post exists. |
| `Posts.RemoveKeepsOthers` | routes/api/posts.js:90 | When ids are distinct, removing the post at a position keeps exactly the posts that have a different id. Afterwards that id is not found. |
| `Posts.PostStore.Create` | routes/api/posts.js:13-36 | Empty text gives 400 and leaves the store unchanged. An author who is not found gives 500 and leaves the store unchanged. Otherwise exactly one post is appended, with the request text, the author's name, the caller as `userId`, empty `likes` and a fresh id, and it is returned. |
| `Posts.PostStore.List` | routes/api/posts.js:41-49 | Returns every post exactly once, newest first, and changes nothing. |
| `Posts.PostStore.GetById` | routes/api/posts.js:54-72 | Returns the post with the id when it exists. A missing id or one that cannot be cast gives 404 "Post not found". |
| `Posts.PostStore.Delete` | routes/api/posts.js:77-102 | A missing id or one that cannot be cast gives 404. A caller who is not the author gives 401 and the post is kept. For the author, exactly that post is removed and all other posts are unchanged. |
| `Posts.PostStore.Like` | routes/api/posts.js:107-125 | A missing post gives 500. A user already in `likes` gives 400 and nothing changes. Otherwise the caller is prepended to that post's `likes` only, and the new list is returned. No user appears twice. |
| `Posts.PostStore.Unlike` | routes/api/posts.js:130-150 | A missing post gives 500. A user not in `likes` gives 400 and nothing changes. Otherwise exactly the caller's first entry is removed from that post's `likes`, the other entries keep their order, the caller no longer appears, and the new list is returned. |
| `Posts.LikeUnlikeScenario` | routes/api/posts.js:107-150 | Like, like again, unlike, like: the second like is refused with 400 "Post already liked", and the like after the unlike succeeds again. |
| `Posts.DeleteScenario` | routes/api/posts.js:77-102 | A delete by someone other than the author gives 401. The author's delete succeeds, and a later get by id gives 404. |

## Left out

- The HTTP server, routing, middleware wiring and the database connection. They are plumbing.
- Authentication: the caller's id is a trusted parameter.
- Mongoose persistence is replaced by in-memory sequences, and `populate` by nothing. The `users` path is not in the profile schema, and Mongoose 5 ignores `populate` on such a path, so nothing is populated. The model assumes Mongoose 5: from Mongoose 6 on (`strictPopulate`), that call throws, and `listAll` and `getByUser` would reply 500.
- Database faults reach the `catch` blocks only through the modelled cases: a cast failure, or a null document being read.
- bcrypt: the salt is not modelled, and `hash` is an arbitrary function passed in.
- express-validator's email check is an arbitrary predicate passed in.
- `isLength` counts characters, a surrogate pair as one, and Dafny's `|password|` counts Unicode scalar values the same way. Newer validator.js versions also leave the variation selectors U+FE0E and U+FE0F out of the count; the model does not.
- Concurrency: each handler runs atomically. The find-then-write races in upsert and in like/unlike are not modelled.
- Posts.SortNewestFirst: MongoDB leaves the order of posts with equal dates unspecified. The model fixes one such order, and its contract allows any.
- Profiles.ProfileRequest: body values are typed as strings, or an integer for `age`. JSON values of other types, and their truthiness, are not modelled.
- Users.Registration: body values are typed as strings. A JSON number password such as `12345678` becomes a string before `isLength` and passes create_user.js:16. Then bcrypt rejects the non-string at create_user.js:46, and the reply is 500 (create_user.js:56). The total `hash` parameter cannot show this.
- Where a validated field comes from: the model validates the JSON body alone. express-validator's `check(field)` (create_user.js:14-16, profile.js:30, posts.js:13) also accepts the field from the query string, headers, cookies or route params, while the handlers read only `req.body` (create_user.js:25, profile.js:36, posts.js:24). Requests that pass that way are refused with 400 in the model, and the model does not reach these paths of the code:
  - an upsert whose `petname` and `animal` come from the query: for a caller who has a profile, `$set` gets only `{user}` and the unchanged profile is returned with 200; on a first upsert, `save()` fails the `required` validator and the reply is 500;
  - a registration whose password comes from the query: `bcrypt.hash(undefined, salt)` rejects and the reply is 500;
  - a post whose `text` comes from the query while `req.body.text` is absent.
- Ages that are not whole numbers are not modelled.
- The exact shape of the JSON bodies: each error body is reduced to its message strings.
- `console.log` and `console.error` output.
