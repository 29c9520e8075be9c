# User directory: update merge, projections and skill filter

This project models the request logic of a small user directory service
(`src/app.ts`). Each user has four text fields (name, company, email, phone)
and an ordered list of skill records `(id, skill, rating)`. The store maps
user ids to users and hands out fresh skill ids. The model covers four
handlers:

- `GET /users` lists every user, projected to the response shape.
- `GET /users/:id` looks one user up: "User not found" or the projection.
- `PUT /users/:id` is the core of the model. For a well-typed body, a lookup guard comes first,
  then the partial field update, then one upsert per entry of the `skills`
  batch. Each upsert works on the user as re-read after the previous write:
  - a name already present has the rating of its first record replaced;
  - a new name is appended with the next free id.
- `GET /skills` keeps the grouped `(name, count)` rows whose count passes the
  optional `min_frequency` / `max_frequency` bounds, then reshapes each row
  to `{name, frequency}`. The minimum is tested as `!str || count >= parseInt(str)`
  and the maximum as `!str || count <= parseInt(str)`:
  - an absent or empty string disables the bound;
  - any other string goes through JavaScript's `parseInt`;
  - a NaN result fails every comparison.

Files:

- `shapes.dfy`: records, replies and the response projection.
- `skill_merge.dfy`: `find` by name, one upsert, and the batch merge as a fold.
- `merge_theory.dfy`: a closed form of the merge (`MergeResult`), proved equal to the fold.
- `merge_properties.dfy`: what the merge promises, read off the closed form.
- `user_store.dfy`:
  - `Put`, the update handler as a function of the store state;
  - its properties;
  - the `Store` class, whose methods are the handlers. `UpdateUser` runs the
    update in place, with its merge loop in `MergeSkills`, and is proved
    equal to `Put`.
- `parse_int.dfy`: `parseInt` without a radix, as section 19.2.5 of
  ECMA-262 defines it. The result is `Option<int>`, where `None` is NaN.
- `skills_filter.dfy`: the `/skills` bound tests and the reply.

The route id is `Option<int>`: `None` stands for an id that `Number(id)`
turns into NaN, and it never finds a user.

A present, non-empty bound that parses to NaN is not ignored. `!str` is
false for it, and `count >= NaN` and `count <= NaN` are false for every count, so the filter
lets no row through (`SkillsQuery.NaNBoundEmptiesReply`).

## Model

| member | source | states |
|---|---|---|
| Shapes.ProjectSkills | src/app.ts:169-172 | the response list has the stored length and order, and each entry carries exactly the record's skill and rating |
| Shapes.ProjectUser | src/app.ts:173-179 | the four text fields are returned unchanged, and the skills list is the pointwise (skill, rating) projection of the stored list |
| Shapes.ProjectSkillsEqual | src/app.ts:92-95 | two stored lists give the same response if and only if they agree on names and ratings position by position, so ids never reach the client |
| SkillMerge.FindByName | src/app.ts:141 | `find` returns the first record with the name: the index holds the name, no earlier record does, and None exactly when no record has it |
| SkillMerge.Upsert | src/app.ts:141-166 | one iteration of the loop: the list grows by at most one record, and the id supply advances by exactly the number of records created (none or one); UpsertFound, UpsertNew and UpsertKeepsPrefix state its two branches and what it keeps |
| SkillMerge.Merge | src/app.ts:136-167 | the loop as a fold over the batch, each upsert working on the result of the previous one; MergeGrows bounds its growth and MergeTheory.MergeClosedForm gives its closed form |
| SkillMerge.MergeGrows | src/app.ts:136-167 | the merged list only grows, by at most one record per batch entry, and the id supply advances by exactly the number of records created |
| SkillMerge.UpsertExisting | src/app.ts:150-160 | for a name already present, only the first matching record changes, and only its rating; id, name, position and length are kept, and no id is used |
| SkillMerge.UpsertFound | src/app.ts:141-166 | once `find` has landed on index i, the iteration is the rating update at i and the id supply is unchanged |
| SkillMerge.UpsertNew | src/app.ts:143-149 | for a new name, exactly one record (next id, name, rating) is appended after the unchanged list, and the id supply moves by one |
| SkillMerge.UpsertKeepsPrefix | src/app.ts:141-166 | one iteration keeps the id and name at every old position, and the entry's name is stored afterwards |
| SkillMerge.MergeStep | src/app.ts:137-166 | the loop-step unfolding of Merge: merging one more batch entry is one more upsert on the result so far |
| MergeTheory.FindLast | src/app.ts:137 | the last batch entry with a name: it carries the name, no later entry does, and None exactly when the batch lacks the name |
| MergeTheory.NewNames | src/app.ts:143-149 | the names the batch creates are exactly the batch names not already stored, each once |
| MergeTheory.MergeClosedForm | src/app.ts:136-167 | the sequential loop equals the closed form: stored records re-rated in place, then one created record per new name |
| MergeTheory.MergeAt | src/app.ts:136-167 | the closed form position by position: record j below the old length is the stored record, re-rated when it is the first of its name; record old length + k is the record created for the k-th new name, with id next + k |
| MergeProperties.MergeKeepsStored | src/app.ts:136-167 | stored records keep their position, id and name; a record whose name is not in the batch keeps its rating, and so does every record that is not the first of its name |
| MergeProperties.FindInMergedKnown | src/app.ts:141 | after the merge, `find` on a name the user had lands on the same record as before |
| MergeProperties.FindInMergedNew | src/app.ts:141-166 | after the merge, `find` on a batch name the user lacked lands on the record created for it |
| MergeProperties.MergeLastWriteWins | src/app.ts:136-167 | every batch name is found after the merge, and the record found carries the rating of the name's last batch entry |
| MergeProperties.MergeAppendsNewNames | src/app.ts:143-166 | the new names are appended at the end, one record each, in NewNames order, with consecutive ids from the supply |
| MergeProperties.NewNamesInFirstOccurrenceOrder | src/app.ts:137-149 | the created names come in the order of their first occurrence in the batch |
| MergeProperties.MergeKeepsNamesDistinct | src/app.ts:141-166 | if stored names are pairwise distinct they stay distinct, because a repeated batch name finds the record created earlier |
| MergeProperties.MergeStoresBatchNames | src/app.ts:137-166 | every batch name is stored after the merge |
| MergeProperties.MergedFirstRatings | src/app.ts:150-160 | after the merge, the first record of every name holds the rating the batch leaves on that name |
| MergeProperties.MergeIdempotent | src/app.ts:136-167 | merging the same batch again changes no record and uses no id |
| MergeProperties.MergeIgnoresIds | src/app.ts:169-172 | lists that project alike still project alike after the same batch, whatever ids they hold or receive |
| MergeProperties.MergeIdsFresh | src/app.ts:143-149 | created records get ids at or above the supply, and every id ends up below the new supply |
| MergeProperties.MergeExample | src/app.ts:136-172 | Swift 4 and OpenCV 1, merged with the batch Swift 5, Rust 3, answer Swift 5, OpenCV 1, Rust 3 |
| UserStore.ApplyFields | src/app.ts:123-130 | each of name, company, email and phone is overwritten when supplied and kept when omitted, and the skills are untouched |
| UserStore.Found | src/app.ts:114-121 | the lookup guard: an id finds a user exactly when it is a number and a stored key; a NaN id finds none. Put, GetUser and UpdateUser branch on it |
| UserStore.ApplyUpdate | src/app.ts:123-167 | the field update and then the batch merge: only the skill list can differ from the field step's result; without a batch it is the stored list and the id supply is unchanged; with one the list only grows and the supply advances by the number of records created |
| UserStore.Put | src/app.ts:110-182 | the update handler on the store: the reply is NotFound exactly when the id finds no user, an Ok reply is the projection of the user as stored afterwards, and the set of user ids is kept |
| UserStore.PutMissing | src/app.ts:114-121 | an id that finds no user answers "User not found" and leaves the store exactly as it was |
| UserStore.PutFrame | src/app.ts:123-181 | an update keeps the set of user ids and every other user unchanged; the reply is the projection of the stored result, and the id supply never moves back |
| UserStore.PutWithoutSkills | src/app.ts:123-136 | without a `skills` array, the skill list and the id supply stay as they were |
| UserStore.PutIdempotent | src/app.ts:110-182 | sending the same update twice leaves the store as one update did, and the second reply equals the first |
| UserStore.PutKeepsIdsBelowNext | src/app.ts:143-166 | every stored skill id stays below the next id handed out |
| UserStore.PutIdsFresh | src/app.ts:143-166 | every record an update creates has an id at or above the supply, so it differs from every skill id stored before |
| UserStore.PutKeepsNamesDistinct | src/app.ts:136-167 | a user whose skill names are pairwise distinct keeps them distinct |
| UserStore.Store.ListUsers | src/app.ts:54-74 | every stored user appears exactly once, as its projection; the list holds the projection of every stored user and nothing else |
| UserStore.ListingCovers | src/app.ts:60-72 | a listing that visits every user id once contains every user's projection and only those |
| UserStore.Store.GetUser | src/app.ts:80-103 | "User not found" when the id finds no user, else the projection of the stored user |
| UserStore.Store.UpdateUser | src/app.ts:110-182 | the in-place handler (guard, field update, then MergeSkills) leaves the store and the reply that Put describes, keeps the id invariant, writes nothing for a missing user, and gives every created record an id at or above the old supply |
| UserStore.Store.MergeSkills | src/app.ts:136-167 | the loop of upserts, each written to the store and re-read, leaves the user's skill list and the id supply that Merge computes, and changes no other user and no other field |
| JsNumbers.TrimStart | src/app.ts:197-198 | removes exactly the leading white space and line terminators |
| JsNumbers.DigitRun | src/app.ts:197-198 | the length of the longest prefix of digits in the radix |
| JsNumbers.ParseInt | src/app.ts:197-198 | `parseInt` without a radix, None for NaN; ParseNaN says exactly when it is NaN, ParseDecimal that every integer's decimal form reads back, and ParseSkipsLeadingSpace that leading white space is ignored |
| JsNumbers.DecimalDigitsValue | src/app.ts:197-198 | a decimal numeral's digits read back to its value |
| JsNumbers.ParseDigitsStops | src/app.ts:197-198 | digits followed by a non-digit parse to the digits' value, times the sign |
| JsNumbers.ParseDecimalPrefix | src/app.ts:197-198 | an integer's decimal form, followed by text that does not continue it ("12px"), parses back to that integer |
| JsNumbers.ParseDecimal | src/app.ts:197-198 | every integer round-trips through its decimal form |
| JsNumbers.ParseSkipsLeadingSpace | src/app.ts:197-198 | leading white space never changes the result |
| JsNumbers.ParseNaN | src/app.ts:197-198 | the result is NaN if and only if no radix digit follows the white space, the sign and the "0x" prefix |
| JsNumbers.ParseNaNOnOtherStart | src/app.ts:197-198 | empty text, or text starting with anything but white space, a sign or a decimal digit, is NaN |
| JsNumbers.ParseNumberOnDigitStart | src/app.ts:197-198 | text starting with a decimal digit that does not open "0x" is a number |
| JsNumbers.ParseWord | src/app.ts:197-198 | "abc" is NaN |
| JsNumbers.ParseBareSign | src/app.ts:197-198 | "-" is NaN |
| JsNumbers.ParseBarePrefix | src/app.ts:197-198 | "0x" is NaN |
| JsNumbers.ParseZero | src/app.ts:197-198 | "0" alone is 0, not a radix prefix |
| JsNumbers.ParseSpacedNegative | src/app.ts:197-198 | " \t-7" is -7 |
| JsNumbers.ParseStopsAtExponent | src/app.ts:197-198 | "1e3" is 1: there is no exponent or fraction |
| JsNumbers.ParseHex | src/app.ts:197-198 | "0x1A" is 26 |
| SkillsQuery.AtLeast | src/app.ts:197 | the test `count >= parseInt(min_frequency)` guarded by `!min_frequency`: an absent or empty bound passes every count, a NaN bound passes none; EmptyBoundIsNoBound, NaNBoundEmptiesReply and MinimumBoundHolds state its effect on the reply |
| SkillsQuery.AtMost | src/app.ts:198 | the test `count <= parseInt(max_frequency)` guarded by `!max_frequency`, read the same way; MaximumBoundHolds and ZeroMaximumApplies state its effect on the reply |
| SkillsQuery.Passes | src/app.ts:196-198 | a row passes when its count passes both bound tests; SkillsReplySound and SkillsReplyComplete make it the exact membership test of the reply |
| SkillsQuery.SkillsReply | src/app.ts:194-203 | the filter and reshape: never more entries than rows; SkillsReplySound, SkillsReplyComplete and SkillsReplyAppend say which entries, in which order |
| SkillsQuery.SkillsReplySound | src/app.ts:194-203 | every reply entry is the reshaped form of a row that passes both bounds |
| SkillsQuery.SkillsReplyComplete | src/app.ts:194-203 | every row that passes both bounds is in the reply |
| SkillsQuery.SkillsReplyAppend | src/app.ts:194-203 | the filter keeps input order and judges each row alone: the reply for a + b is the reply for a followed by the reply for b |
| SkillsQuery.SkillsReplyUnbounded | src/app.ts:194-203 | without bounds every row is returned in order, with its count as frequency |
| SkillsQuery.NoRowPasses | src/app.ts:194-199 | when no row passes the bound tests, the reply is empty |
| SkillsQuery.SkillsReplySameVerdicts | src/app.ts:195-199 | two pairs of bounds that accept the same rows give the same reply |
| SkillsQuery.EmptyBoundIsNoBound | src/app.ts:197-198 | an empty bound string gives the same reply as an absent one |
| SkillsQuery.NaNBoundEmptiesReply | src/app.ts:197-198 | a present, non-empty bound that parses to NaN empties the reply instead of being ignored |
| SkillsQuery.WordBoundEmptiesReply | src/app.ts:197-198 | `min_frequency=abc` or `max_frequency=abc` empties the reply |
| SkillsQuery.MinimumBoundHolds | src/app.ts:197 | with a numeric minimum alone, every returned frequency is at least the parsed minimum |
| SkillsQuery.MaximumBoundHolds | src/app.ts:198 | with a numeric maximum alone, every returned frequency is at most the parsed maximum |
| SkillsQuery.BothBoundsHold | src/app.ts:197-198 | with two numeric bounds, every returned frequency lies between the parsed minimum and the parsed maximum |
| SkillsQuery.CrossedBoundsEmptyReply | src/app.ts:197-198 | a minimum above the maximum leaves nothing |
| SkillsQuery.ZeroMaximumApplies | src/app.ts:198 | "0" is a bound like any other: as a maximum it removes every skill that some user has |
| SkillsQuery.SkillsReplyNamesDistinct | src/app.ts:188-203 | grouped rows name each skill once, so the reply names each skill at most once |

## Left out

- HTTP plumbing is not modelled: Fastify, CORS registration, routing, status codes and JSON encoding. Replies are the datatype `NotFound(text) | Ok(body)`.
- The storage client is not modelled. The store is a map from user id to user, with insertion-ordered skill lists and a counter for fresh skill ids.
- The order in which `findMany` returns users is left open: `ListUsers` picks the keys in an arbitrary order and returns that order as a ghost out-parameter.
- The `groupBy` counting is not modelled. The grouped `(name, count)` rows are an input sequence, and their order is the storage's.
- `Number(id)` is modelled only as far as a non-numeric id missing the lookup (`Option<int>`). Fractional ids and other coercions are left out.
- The defensive re-check at src/app.ts:138-140 is omitted: the user was just returned by a successful update, so it cannot be null.
- The Skill upsert keyed by the found record's id is modelled as an update at the index `find` returned. Ids are primary keys, so the upsert hits that record and its create branch never runs.
- JsNumbers.ParseInt: works on unbounded integers and does not round to double precision. Digit strings beyond 2^53 are therefore exact in the model but rounded in JavaScript. `parseInt("-0")` is -0 in JavaScript and 0 in the model; the two compare alike against every count.
- Ratings are integers (`rating: int`). A fractional or ill-typed `rating` is not modelled, nor is the storage error it can raise in the middle of a batch, after earlier entries were already written.
- The update body is taken as a well-typed object. A missing body throws before the not-found guard. A field or `skills` value of the wrong type throws or fails in storage; for `skills` this happens after the field update was already written. These 500 paths are not modelled.
- A body field sent as an explicit `null` is not modelled: each field is either supplied or omitted (`Option`).
- Repeated query parameters, which arrive as arrays, are not modelled; each bound is an optional string.
- The missing transaction around the field update and the N upserts is not modelled, nor is concurrency between requests; each handler runs alone.
- prisma/seed.ts, src/index.ts and the HTTP test harness are not part of this model. `Store.constructor` takes any initial state whose ids are below the supply.
